/**
 * What the dialogue controller of bbc_demo.py guarantees, stated and proved over the session
 * model of dialogue.dfy: how it renders a turn, how it classifies a directive, when it sends
 * requests to the TalkML backend, and which relations between its fields every step keeps.
 */
module DialogueProps {
  import opened Common
  import opened Text
  import opened Bottles
  import opened Grammar
  import opened Dialogue

  // ----- Counting events ----------------------------------------------------------------------

  /** How many requests to the backend a run of events holds. */
  function Requests(es: seq<Event>): (n: nat)
    ensures n <= |es|
    ensures n == 0 <==> forall i :: 0 <= i < |es| ==> !es[i].Request?
    decreases |es|
  {
    if es == [] then 0
    else
      assert forall i :: 1 <= i < |es| ==> es[i] == es[1..][i - 1];
      (if es[0].Request? then 1 else 0) + Requests(es[1..])
  }

  /** How many commands to the tokenizer a run of events holds. */
  function Toggles(es: seq<Event>): (n: nat)
    ensures n <= |es|
    ensures n == 0 <==> forall i :: 0 <= i < |es| ==> !es[i].TokenizerWrite?
    decreases |es|
  {
    if es == [] then 0
    else
      assert forall i :: 1 <= i < |es| ==> es[i] == es[1..][i - 1];
      (if es[0].TokenizerWrite? then 1 else 0) + Toggles(es[1..])
  }

  /** The counts of a concatenation add up. */
  lemma {:induction false} CountsAppend(a: seq<Event>, b: seq<Event>)
    ensures Requests(a + b) == Requests(a) + Requests(b)
    ensures Toggles(a + b) == Toggles(a) + Toggles(b)
    decreases |a|
  {
    if a != [] {
      var ab := a + b;
      assert ab[0] == a[0] && ab[1..] == a[1..] + b;
      CountsAppend(a[1..], b);
      assert Requests(ab) == (if ab[0].Request? then 1 else 0) + Requests(ab[1..]);
      assert Toggles(ab) == (if ab[0].TokenizerWrite? then 1 else 0) + Toggles(ab[1..]);
    } else {
      assert a + b == b;
    }
  }

  /** The session `s2` has the trace of `s1` as a prefix: events are only ever appended. */
  ghost predicate Extends(s1: Session, s2: Session) {
    |s1.trace| <= |s2.trace| && s2.trace[..|s1.trace|] == s1.trace
  }

  /** The events appended between `s1` and `s2`. */
  ghost function Added(s1: Session, s2: Session): seq<Event>
    requires Extends(s1, s2)
  {
    s2.trace[|s1.trace|..]
  }

  /** Going from `s1` to `s2` appends events and sends at most `n` requests. */
  ghost predicate SendsAtMost(s1: Session, s2: Session, n: nat) {
    Extends(s1, s2) && Requests(Added(s1, s2)) <= n
  }

  /** Going from `s1` to `s2` sends exactly one request, and it is the first event appended. */
  ghost predicate SendsOneFirst(s1: Session, s2: Session) {
    Extends(s1, s2) && |Added(s1, s2)| > 0 && Added(s1, s2)[0].Request? && Requests(Added(s1, s2)) == 1
  }

  /** Two stretches of a run send at most the sum of what each sends. */
  lemma SendsCompose(s1: Session, s2: Session, s3: Session, m: nat, n: nat)
    requires SendsAtMost(s1, s2, m) && SendsAtMost(s2, s3, n)
    ensures SendsAtMost(s1, s3, m + n)
    ensures Added(s1, s3) == Added(s1, s2) + Added(s2, s3)
  {
    assert s3.trace[..|s1.trace|] == s3.trace[..|s2.trace|][..|s1.trace|];
    assert Added(s1, s3) == Added(s1, s2) + Added(s2, s3);
    CountsAppend(Added(s1, s2), Added(s2, s3));
  }

  /** A change that leaves the trace alone sends nothing. */
  lemma SameTrace(s1: Session, s2: Session)
    requires s1.trace == s2.trace
    ensures SendsAtMost(s1, s2, 0) && Added(s1, s2) == []
  {
  }

  // ----- Rendering a turn ---------------------------------------------------------------------

  /** The buffered text of plain words: each word after one space. */
  function Spaced(words: seq<string>): string
    decreases |words|
  {
    if words == [] then "" else " " + words[0] + Spaced(words[1..])
  }

  /** The plain words of a turn, in order. */
  function PlainWords(words: seq<string>): seq<string>
    decreases |words|
  {
    if words == [] then []
    else (if Plain(words[0]) then [words[0]] else []) + PlainWords(words[1..])
  }

  /** Everything spoken by a run of events, in order. */
  function Spoken(es: seq<Event>): string
    decreases |es|
  {
    if es == [] then "" else (if es[0].Say? then es[0].text else "") + Spoken(es[1..])
  }

  lemma {:induction false} SpokenAppend(a: seq<Event>, b: seq<Event>)
    ensures Spoken(a + b) == Spoken(a) + Spoken(b)
    decreases |a|
  {
    if a != [] {
      var ab := a + b;
      assert ab[0] == a[0] && ab[1..] == a[1..] + b;
      SpokenAppend(a[1..], b);
      assert Spoken(ab) == (if ab[0].Say? then ab[0].text else "") + Spoken(ab[1..]);
    } else {
      assert a + b == b;
    }
  }

  /**
   * Rendering only speaks, moves and sets emotions: it never sends a request and never writes
   * to the tokenizer.
   */
  lemma {:induction false} RenderIsQuiet(words: seq<string>, buf: string, prepared: map<string, Bottle>)
    ensures Requests(Render(words, buf, prepared).events) == 0
    ensures Toggles(Render(words, buf, prepared).events) == 0
    decreases |words|
  {
    if words != [] {
      var k := words[0];
      if Plain(k) {
        RenderIsQuiet(words[1..], buf + " " + k, prepared);
      } else if Contains(k, "gesture") {
        var name := ReplaceAll(k, "<gesture>", "");
        if name in prepared {
          RenderIsQuiet(words[1..], "", prepared);
          CountsAppend([Say(buf), BodyWrite(prepared[name])], Render(words[1..], "", prepared).events);
        }
      } else if Contains(k, "emotion") {
        RenderIsQuiet(words[1..], "", prepared);
        CountsAppend([Say(buf), SetEmotion(ReplaceAll(k, "<emotion>", ""))], Render(words[1..], "", prepared).events);
      } else {
        RenderIsQuiet(words[1..], buf, prepared);
      }
    }
  }

  /**
   * No spoken text is lost or reordered: a turn that renders to the end speaks exactly its plain
   * words, each after a space, in order (flushes at gestures and emotions only cut it in pieces).
   */
  lemma {:induction false} RenderKeepsText(words: seq<string>, buf: string, prepared: map<string, Bottle>)
    requires !Render(words, buf, prepared).crashed
    ensures Spoken(Render(words, buf, prepared).events) == buf + Spaced(PlainWords(words))
    decreases |words|
  {
    if words == [] {
      if buf != "" {
        assert Spoken([Say(buf)]) == buf + Spoken([]);
      }
      assert buf + "" == buf;
    } else {
      var k := words[0];
      var rest := words[1..];
      if Plain(k) {
        assert Render(words, buf, prepared) == Render(rest, buf + " " + k, prepared);
        RenderKeepsText(rest, buf + " " + k, prepared);
        KeepsTextAtPlain(words, buf, prepared);
      } else if Contains(k, "gesture") || Contains(k, "emotion") {
        RenderAtTag(words, buf, prepared);
        RenderKeepsText(rest, "", prepared);
        KeepsTextAtTag(words, buf, prepared);
      } else {
        RenderDropsTag(words, buf, prepared);
        RenderKeepsText(rest, buf, prepared);
        assert PlainWords(words) == PlainWords(rest);
      }
    }
  }

  /** The step of `RenderKeepsText` at a plain word: it joins the buffer after a space. */
  lemma KeepsTextAtPlain(words: seq<string>, buf: string, prepared: map<string, Bottle>)
    requires words != [] && Plain(words[0])
    requires var b := buf + " " + words[0];
      Spoken(Render(words[1..], b, prepared).events) == b + Spaced(PlainWords(words[1..]))
    ensures Spoken(Render(words, buf, prepared).events) == buf + Spaced(PlainWords(words))
  {
    var k := words[0];
    var rest := words[1..];
    assert PlainWords(words) == [k] + PlainWords(rest);
    assert Render(words, buf, prepared) == Render(rest, buf + " " + k, prepared);
    assert Spaced([k] + PlainWords(rest)) == " " + k + Spaced(PlainWords(rest)) by {
      assert ([k] + PlainWords(rest))[0] == k;
      assert ([k] + PlainWords(rest))[1..] == PlainWords(rest);
    }
  }

  /** The step of `RenderKeepsText` at a gesture or an emotion: the flush speaks the buffer, the rest starts afresh. */
  lemma KeepsTextAtTag(words: seq<string>, buf: string, prepared: map<string, Bottle>)
    requires words != [] && !Plain(words[0]) && (Contains(words[0], "gesture") || Contains(words[0], "emotion"))
    requires !Render(words, buf, prepared).crashed
    requires Spoken(Render(words[1..], "", prepared).events) == "" + Spaced(PlainWords(words[1..]))
    ensures Spoken(Render(words, buf, prepared).events) == buf + Spaced(PlainWords(words))
  {
    var rest := words[1..];
    RenderAtTag(words, buf, prepared);
    FlushKeepsText(Render(words, buf, prepared).events[..2], buf, Render(rest, "", prepared).events);
    assert "" + Spaced(PlainWords(rest)) == Spaced(PlainWords(rest));
    assert PlainWords(words) == [] + PlainWords(rest);
    assert [] + PlainWords(rest) == PlainWords(rest);
  }

  /** Rendering from a gesture or an emotion: the flush, the move or emotion, then the rest afresh. */
  lemma RenderAtTag(words: seq<string>, buf: string, prepared: map<string, Bottle>)
    requires words != [] && !Plain(words[0]) && (Contains(words[0], "gesture") || Contains(words[0], "emotion"))
    requires !Render(words, buf, prepared).crashed
    ensures var es := Render(words, buf, prepared).events;
      && |es| >= 2 && es[0] == Say(buf) && !es[1].Say?
      && es == es[..2] + Render(words[1..], "", prepared).events
      && !Render(words[1..], "", prepared).crashed
  {
  }

  /** A tagged word that is neither a gesture nor an emotion is dropped. */
  lemma RenderDropsTag(words: seq<string>, buf: string, prepared: map<string, Bottle>)
    requires words != [] && !Plain(words[0]) && !Contains(words[0], "gesture") && !Contains(words[0], "emotion")
    ensures Render(words, buf, prepared) == Render(words[1..], buf, prepared)
  {
  }

  /** At a gesture or an emotion, the flush speaks the buffer and the move or emotion speaks nothing. */
  lemma FlushKeepsText(head: seq<Event>, buf: string, tail: seq<Event>)
    requires |head| == 2 && head[0] == Say(buf) && !head[1].Say?
    ensures Spoken(head + tail) == buf + Spoken(tail)
  {
    SpokenAppend(head, tail);
    assert head[1..][1..] == [];
    assert Spoken(head[1..]) == "";
  }

  /** A run of plain words is spoken in one piece, at the end of the turn. */
  lemma {:induction false} RenderPlain(words: seq<string>, buf: string, prepared: map<string, Bottle>)
    requires forall i :: 0 <= i < |words| ==> Plain(words[i])
    ensures var r := buf + Spaced(words);
      Render(words, buf, prepared) == Rendered(if r != "" then [Say(r)] else [], false)
    decreases |words|
  {
    if words == [] {
      assert buf + Spaced(words) == buf;
    } else {
      var k := words[0];
      assert Plain(k);
      assert Render(words, buf, prepared) == Render(words[1..], buf + " " + k, prepared);
      RenderPlain(words[1..], buf + " " + k, prepared);
      assert Spaced(words) == " " + k + Spaced(words[1..]);
      assert buf + " " + k + Spaced(words[1..]) == buf + Spaced(words);
    }
  }

  /** The spaced words of a split text are the text after one space. */
  lemma {:induction false} SpacedJoin(words: seq<string>)
    requires words != []
    ensures Spaced(words) == " " + JoinStr(words, " ")
    decreases |words|
  {
    if |words| > 1 {
      SpacedJoin(words[1..]);
      JoinCons(words[0], words[1..], " ");
      assert words == [words[0]] + words[1..];
    }
  }

  /**
   * A sayThis text without tags and without `/` is spoken as it is, after one space, in a single
   * `say`, and nothing else happens in the turn.
   */
  lemma PlainTextTurn(say: string, prepared: map<string, Bottle>)
    requires '<' !in say && '/' !in say
    ensures Render(TurnWords(say), "", prepared) == Rendered([Say(" " + say)], false)
  {
    DeleteCharIsWithout(say, '/');
    NoCharIsWithout(say, '/');
    assert ReplaceAll(say, "/", "") == say;
    var words := SplitStr(say, " ");
    SplitKeepsAbsent(say, " ", '<');
    assert TurnWords(say) == words;
    RenderPlain(words, "", prepared);
    SpacedJoin(words);
    SplitJoin(say, " ");
    assert "" + Spaced(words) == " " + say;
  }

  // ----- Directives: parse_chatbot_reply ------------------------------------------------------

  /** A spoken turn keeps every field but the trace, the tokenizer state and the phase. */
  lemma SpeakTurnFields(s: Session, say: string, prepared: map<string, Bottle>)
    ensures var s2 := SpeakTurn(s, say, prepared);
      s2 == s.(trace := s2.trace, tokenizerOn := s2.tokenizerOn, phase := s2.phase)
  {
  }

  /**
   * What a spoken turn emits: a tokenizer command, the rendered events, and (when rendering did
   * not stop on an unknown gesture) a second tokenizer command that restores the tokenizer state;
   * the first command pauses a running tokenizer and the second resumes it.
   */
  lemma SpeakTurnBracket(s: Session, say: string, prepared: map<string, Bottle>)
    ensures var s2 := SpeakTurn(s, say, prepared);
      var out := Render(TurnWords(say), "", prepared);
      var first := TokenizerWrite(if s.tokenizerOn then "pause" else "resume");
      var second := TokenizerWrite(if s.tokenizerOn then "resume" else "pause");
      && Extends(s, s2)
      && (!out.crashed ==> Added(s, s2) == [first] + out.events + [second] && s2.tokenizerOn == s.tokenizerOn)
      && (out.crashed ==> Added(s, s2) == [first] + out.events && s2.tokenizerOn != s.tokenizerOn && s2.phase == Crashed)
      && Requests(Added(s, s2)) == 0
      && Toggles(Added(s, s2)) == (if out.crashed then 1 else 2)
  {
    var out := Render(TurnWords(say), "", prepared);
    RenderIsQuiet(TurnWords(say), "", prepared);
    if !out.crashed {
      ToggleAround(s, out.events);
    } else {
      ToggleThenCrash(s, out.events);
    }
  }

  /** Quiet events between two tokenizer writes: the switch ends where it started, after two toggles. */
  lemma ToggleAround(s: Session, events: seq<Event>)
    requires Requests(events) == 0 && Toggles(events) == 0
    ensures var s1 := Toggle(s);
      var s3 := Toggle(s1.(trace := s1.trace + events));
      var first := TokenizerWrite(if s.tokenizerOn then "pause" else "resume");
      var second := TokenizerWrite(if s.tokenizerOn then "resume" else "pause");
      && Extends(s, s3) && Added(s, s3) == [first] + events + [second]
      && s3.tokenizerOn == s.tokenizerOn
      && Requests(Added(s, s3)) == 0 && Toggles(Added(s, s3)) == 2
  {
    var first := TokenizerWrite(if s.tokenizerOn then "pause" else "resume");
    var second := TokenizerWrite(if s.tokenizerOn then "resume" else "pause");
    var s1 := Toggle(s);
    var s3 := Toggle(s1.(trace := s1.trace + events));
    assert s3.trace == s.trace + ([first] + events + [second]);
    assert s3.trace[..|s.trace|] == s.trace;
    CountsAppend([first], events);
    CountsAppend([first] + events, [second]);
  }

  /** Quiet events after one tokenizer write and then a crash: the switch is left flipped. */
  lemma ToggleThenCrash(s: Session, events: seq<Event>)
    requires Requests(events) == 0 && Toggles(events) == 0
    ensures var s1 := Toggle(s);
      var s2 := s1.(trace := s1.trace + events, phase := Crashed);
      var first := TokenizerWrite(if s.tokenizerOn then "pause" else "resume");
      && Extends(s, s2) && Added(s, s2) == [first] + events
      && s2.tokenizerOn != s.tokenizerOn && s2.phase == Crashed
      && Requests(Added(s, s2)) == 0 && Toggles(Added(s, s2)) == 1
  {
    var first := TokenizerWrite(if s.tokenizerOn then "pause" else "resume");
    var s1 := Toggle(s);
    var s2 := s1.(trace := s1.trace + events, phase := Crashed);
    assert s2.trace == s.trace + ([first] + events);
    assert s2.trace[..|s.trace|] == s.trace;
    CountsAppend([first], events);
  }

  /**
   * `parse_chatbot_reply` on a 200 reply: the expected grammars become g1 and g2 (null as ""),
   * `TKML_waitForInput` holds exactly when g1 is set or sayThis is empty while g2 is set, and
   * `TKML_stop` exactly when sayThis and both slots are empty. The turn is spoken exactly when
   * sayThis is neither empty nor "None" (so a null sayThis is never spoken and never stops).
   * Nothing else of the session changes, and no request is sent. A sayThis that is not ASCII
   * leaves the state WAIT2TALK and ends the controller before anything else is stored.
   */
  lemma ParseOk(s: Session, rep: Reply, prepared: map<string, Bottle>)
    requires s.phase != Crashed && rep.Ok?
    ensures !Encodable(rep) ==> Parse(s, Some(rep), prepared) == s.(currState := Some(Wait2Talk), phase := Crashed)
    ensures Encodable(rep) ==>
      var s2 := Parse(s, Some(rep), prepared);
      var e := Expectation(rep.g1.GetOr(""), rep.g2.GetOr(""));
      var sayEmpty := rep.sayThis == Some("");
      var spoken := rep.sayThis.Some? && rep.sayThis.value != "" && rep.sayThis.value != "None";
      && s2.script.expected == Some(e)
      && (s2.script.waitForInput <==> e.g1 != "" || (sayEmpty && e.g2 != ""))
      && (s2.script.stop <==> sayEmpty && e.g1 == "" && e.g2 == "")
      && (rep.sayThis.None? ==> !s2.script.stop && s2.trace == s.trace)
      && (spoken ==> s2.currState == Some(Talking) && Toggles(Added(s, s2)) > 0)
      && (!spoken ==> s2.currState == Some(Wait2Talk) && s2.trace == s.trace && s2.tokenizerOn == s.tokenizerOn)
      && SendsAtMost(s, s2, 0)
      && (s2.phase == s.phase || s2.phase == Crashed)
      && (s2.phase == s.phase ==> s2.tokenizerOn == s.tokenizerOn)
      && s2.det == s.det && s2.planned == s.planned && s2.mailbox == s.mailbox
      && s2.clock == s.clock && s2.startTime == s.startTime
  {
    if Encodable(rep) {
      var e := Expectation(rep.g1.GetOr(""), rep.g2.GetOr(""));
      var say := SayText(rep);
      var flags := Directive(say == "", e.g1, e.g2);
      var s1 := s.(currState := Some(Wait2Talk), script := Script(Some(e), flags.0, flags.1));
      if say != "" && say != "None" {
        var s0 := s1.(currState := Some(Talking));
        SpeakTurnFields(s0, say, prepared);
        SpeakTurnBracket(s0, say, prepared);
      }
    }
  }

  /** A missing or non-200 reply leaves the session as it is. */
  lemma ParseNotOk(s: Session, r: Option<Reply>, prepared: map<string, Bottle>)
    requires r.None? || r.value.NotOk?
    ensures Parse(s, r, prepared) == s
  {
  }

  /**
   * What a reply can direct: waiting for input needs expected grammars, and when the controller is
   * not waiting for input no g1 is expected.
   */
  ghost predicate ScriptOk(sc: Script) {
    && (sc.waitForInput ==> sc.expected.Some?)
    && (sc.expected.Some? && !sc.waitForInput ==> sc.expected.value.g1 == "")
  }

  /** Parsing never sends a request, and keeps the slots, the planned reply and the mailbox. */
  lemma ParseSendsNothing(s: Session, r: Option<Reply>, prepared: map<string, Bottle>)
    ensures var s2 := Parse(s, r, prepared);
      && SendsAtMost(s, s2, 0)
      && (s2.phase == s.phase || s2.phase == Crashed)
      && s2.det == s.det && s2.planned == s.planned && s2.mailbox == s.mailbox
      && s2.clock == s.clock && s2.startTime == s.startTime
      && (ScriptOk(s.script) ==> ScriptOk(s2.script))
      && (s2.script.expected.None? ==> s2.script == s.script)
  {
    if s.phase != Crashed && r.Some? && r.value.Ok? {
      ParseOk(s, r.value, prepared);
    }
  }

  // ----- Detection and requests: get_chatbot_reply --------------------------------------------

  /** A detected g1 leaves g2 empty. */
  ghost predicate SlotsOk(d: Slots) {
    d.g1 != "" ==> d.g2 == ""
  }

  /**
   * Slot detection: a detected g1 is never re-evaluated; otherwise g1 is detected exactly when a
   * non-empty alternative of the expected g1 matches, it is the first such alternative, and it
   * clears g2 whatever g2's own alternatives match; g2 is looked up only while g1 stays empty,
   * and a g2 already detected is kept unless some g1 alternative matched.
   */
  lemma DetectSlots(t: GrammarTable, e: Option<Expectation>, d: Slots, text: string)
    requires e.Some? || d.g1 != ""
    ensures Detect(t, e, d, text).Some?
    ensures var r := Detect(t, e, d, text).value;
      && (d.g1 != "" ==> r == d)
      && (SlotsOk(d) ==> SlotsOk(r))
      && (d.g1 == "" ==>
            var alts1 := SplitStr(e.value.g1, "|");
            && (r.g1 != "" <==> exists i :: 0 <= i < |alts1| && Hit(t, alts1[i], text))
            && (r.g1 != "" ==> r.g2 == "" && exists i :: FirstHitAt(t, alts1, text, i) && alts1[i] == r.g1)
            && (r.g1 == "" ==> r.g2 == (if d.g2 != "" && !AnyMatch(t, alts1, text) then d.g2
                                        else FirstMatch(t, SplitStr(e.value.g2, "|"), text))))
  {
    if d.g1 == "" {
      var alts1 := SplitStr(e.value.g1, "|");
      var n1 := FirstMatch(t, alts1, text);
      var r := Detect(t, e, d, text).value;
      assert r.g1 == n1;
      FirstMatchFinds(t, alts1, text);
      assert r.g1 != "" <==> exists i :: 0 <= i < |alts1| && Hit(t, alts1[i], text);
      if n1 != "" {
        var i :| FirstHitAt(t, alts1, text, i) && alts1[i] == n1;
        assert CheckGrammar(t, alts1[i], text);
        assert AnyMatch(t, alts1, text);
      }
    }
  }

  /** The first-match loop finds something exactly when some non-empty alternative matches. */
  lemma FirstMatchFinds(t: GrammarTable, alts: seq<string>, text: string)
    ensures FirstMatch(t, alts, text) != "" <==> exists i :: 0 <= i < |alts| && Hit(t, alts[i], text)
  {
    if FirstMatch(t, alts, text) != "" {
      var i :| FirstHitAt(t, alts, text, i) && alts[i] == FirstMatch(t, alts, text);
      assert Hit(t, alts[i], text);
    }
  }

  /** The relations between the controller's fields that every operation keeps. */
  ghost predicate InvCore(s: Session) {
    && SlotsOk(s.det)
    && (s.det.g1 != "" ==> s.planned.Some?)
    && (s.det != NoSlots ==> s.mailbox.receivedText.Some? && s.script.expected.Some?)
    && ScriptOk(s.script)
  }

  /** Which loop `updateModule` is in agrees with TKML_waitForInput and TalkML_currState. */
  ghost predicate PhaseOk(s: Session) {
    && (s.phase == TalkWait ==> !s.script.waitForInput && s.currState == Some(Wait2Talk) && s.det.g1 == "")
    && (s.phase == HearWait ==> s.script.waitForInput && s.currState == Some(Wait2Hear))
    && (s.phase == Listening ==> s.script.waitForInput && s.currState == Some(Hearing))
  }

  /** The session invariant (a crashed controller does nothing more). */
  ghost predicate Inv(s: Session) {
    s.phase == Crashed || (InvCore(s) && PhaseOk(s))
  }

  lemma FreshInv()
    ensures Inv(Fresh())
  {
  }

  /** Once detection succeeded, `get_chatbot_reply` on a text is the request selection. */
  lemma GcrSaid(s: Session, t: GrammarTable, text: string, send: bool, reply: Reply)
    requires s.phase != Crashed && (s.script.expected.Some? || s.det.g1 != "")
    ensures Detect(t, s.script.expected, s.det, text).Some?
    ensures Gcr(s, t, Said(text), send, reply) == Select(s.(det := Detect(t, s.script.expected, s.det, text).value), send, reply)
  {
  }

  /**
   * What the request selection may change: it sends at most one request, touches only the
   * planned reply and the trace, and only ever fills an empty planned reply (with `reply`, exactly
   * when g1 is detected).
   */
  lemma SelectFrame(s: Session, send: bool, reply: Reply)
    ensures var f := Select(s, send, reply);
      && SendsAtMost(s, f.s, 1)
      && f.s == s.(planned := f.s.planned, trace := f.s.trace)
      && (f.s.planned != s.planned <==> s.planned.None? && s.det.g1 != "")
      && (f.s.planned != s.planned ==> f.s.planned == Some(reply))
  {
    var f := Select(s, send, reply);
    if s.det.g1 != "" && s.planned.None? {
      assert f.s.trace[..|s.trace|] == s.trace && |Added(s, f.s)| == 1;
    } else if send {
      if s.det.g2 != "" {
        assert f.s.trace[..|s.trace|] == s.trace && |Added(s, f.s)| == 1;
      } else {
        assert f.s.trace[..|s.trace|] == s.trace && |Added(s, f.s)| == 1;
      }
    } else {
      SameTrace(s, f.s);
    }
  }

  /**
   * What one `get_chatbot_reply` may change: it sends at most one request, touches only the
   * slots, the planned reply, the trace and (on a KeyError) the phase, only ever fills an empty
   * planned reply, and keeps the invariant when it is given the text of the mailbox.
   */
  lemma GcrFrame(s: Session, t: GrammarTable, sentence: Sentence, send: bool, reply: Reply)
    requires s.phase != Crashed
    ensures var f := Gcr(s, t, sentence, send, reply);
      && SendsAtMost(s, f.s, 1)
      && f.s == s.(det := f.s.det, planned := f.s.planned, trace := f.s.trace, phase := f.s.phase)
      && (f.s.phase == s.phase || f.s.phase == Crashed)
      && (f.s.planned == s.planned || (s.planned.None? && f.s.planned == Some(reply)))
      && (!sentence.Said? ==> f.s.det == s.det && f.s.phase == s.phase)
      && (InvCore(s) && (sentence.Said? ==> s.mailbox.receivedText == Some(sentence.text)) ==> InvCore(f.s))
  {
    var f := Gcr(s, t, sentence, send, reply);
    match sentence
    case Said(text) =>
      if s.det.g1 != "" || s.script.expected.Some? {
        DetectSlots(t, s.script.expected, s.det, text);
        GcrSaid(s, t, text, send, reply);
        SelectFrame(s.(det := Detect(t, s.script.expected, s.det, text).value), send, reply);
      } else {
        SameTrace(s, f.s);
      }
    case _ =>
      assert f.s.trace == s.trace + [f.s.trace[|s.trace|]];
      assert f.s.trace[..|s.trace|] == s.trace;
      assert |Added(s, f.s)| == 1;
  }

  /**
   * The speculative fetch happens at most once until the planned reply is consumed: while a reply
   * is planned, processing a text sends nothing and keeps the planned reply; with no reply
   * planned, a detected g1 is fetched once with a `heard` request for it, and the answer is kept
   * as the planned reply instead of being returned.
   */
  lemma SpeculativeFetch(s: Session, t: GrammarTable, text: string, send: bool, reply: Reply)
    requires s.phase != Crashed && (s.script.expected.Some? || s.det.g1 != "")
    ensures var f := Gcr(s, t, Said(text), send, reply);
      && f.s.phase == s.phase
      && (s.planned.Some? && !send ==> f.s.trace == s.trace && f.s.planned == s.planned && f.answer.None?)
      && (s.planned.None? && f.s.det.g1 != "" ==>
            f.s.trace == s.trace + [Request(Tuple1("heard"), Some(f.s.det.g1))]
            && f.s.planned == Some(reply) && f.answer.None?)
  {
    GcrSaid(s, t, text, send, reply);
  }

  /**
   * The timeout path (`sendToTKML`) sends exactly one request: the speculative `heard` fetch for a
   * g1 just detected with no reply planned (answer not returned); otherwise a `heard` request for
   * a detected g2, or a `nomatch` request without grammar, whose answer is returned.
   */
  lemma TimeoutRequest(s: Session, t: GrammarTable, text: string, reply: Reply)
    requires s.phase != Crashed && (s.script.expected.Some? || s.det.g1 != "")
    ensures var f := Gcr(s, t, Said(text), true, reply);
      var d := f.s.det;
      && |f.s.trace| == |s.trace| + 1 && f.s.trace[..|s.trace|] == s.trace
      && var req := f.s.trace[|s.trace|];
      && (d.g1 != "" && s.planned.None? ==> req == Request(Tuple1("heard"), Some(d.g1)) && f.answer.None?)
      && (!(d.g1 != "" && s.planned.None?) ==>
            f.answer == Some(reply)
            && req == (if d.g2 != "" then Request(Tuple1("heard"), Some(d.g2)) else Request(Tuple1("nomatch"), None)))
  {
    GcrSaid(s, t, text, true, reply);
    var s1 := s.(det := Detect(t, s.script.expected, s.det, text).value);
    var f := Select(s1, true, reply);
    if s1.det.g1 != "" && s1.planned.None? {
      assert f.s.trace == s.trace + [Request(Tuple1("heard"), Some(s1.det.g1))];
    } else if s1.det.g2 != "" {
      assert f.s.trace == s.trace + [Request(Tuple1("heard"), Some(s1.det.g2))];
    } else {
      assert f.s.trace == s.trace + [Request(Tuple1("nomatch"), None)];
    }
    assert f.s.trace[..|s.trace|] == s.trace;
  }

  // ----- The polling loop: updateModule -------------------------------------------------------

  /** `respond` writes only the mailbox, and keeps the invariant. */
  lemma RespondKeepsInv(s: Session, cmd: Bottle)
    requires Inv(s)
    ensures Inv(Respond(s, cmd).s)
    ensures Respond(s, cmd).s.trace == s.trace
  {
  }

  /** Processing the mailbox text (detection, maybe the speculative fetch) keeps the invariant. */
  lemma ProcessFacts(s: Session, t: GrammarTable, reply: Reply)
    requires s.phase != Crashed && InvCore(s)
    ensures var p := Process(s, t, reply);
      && SendsAtMost(s, p, 1)
      && (p.phase == s.phase || p.phase == Crashed)
      && p.script == s.script && p.currState == s.currState
      && p.clock == s.clock && p.startTime == s.startTime
      && p.mailbox.agentSpeaking == s.mailbox.agentSpeaking
      && (p.phase != Crashed ==> InvCore(p))
  {
    if s.mailbox.processedText {
      SameTrace(s, s);
    } else {
      GcrFrame(s, t, TextOf(s.mailbox.receivedText), false, reply);
    }
  }

  /** The end of a request/parse pair: returning from `updateModule` and parsing the answer. */
  lemma ParseAfterFetch(s: Session, f: Session, answer: Option<Reply>, prepared: map<string, Bottle>)
    requires SendsAtMost(s, f, 1) && (f.phase != Crashed ==> InvCore(f))
    ensures var r := Parse(Return(f), answer, prepared);
      && SendsAtMost(s, r, 1)
      && (r.phase == Start || r.phase == Crashed)
      && Inv(r)
  {
    var r1 := Return(f);
    ParseSendsNothing(r1, answer, prepared);
    SendsCompose(s, r1, Parse(r1, answer, prepared), 1, 0);
  }

  /** The WAIT2TALK test keeps the invariant and sends at most one request. */
  lemma TalkCheckFacts(s: Session, dt: nat, reply: Reply, t: GrammarTable, prepared: map<string, Bottle>)
    requires s.phase != Crashed && InvCore(s)
    requires !s.script.waitForInput && s.currState == Some(Wait2Talk) && s.det.g1 == ""
    ensures var r := TalkCheck(s, dt, reply, t, prepared);
      Inv(r) && SendsAtMost(s, r, 1)
  {
    if s.mailbox.agentSpeaking {
      ProcessFacts(s, t, reply);
      var p := Process(s, t, reply);
      if p.phase != Crashed {
        NothingExpectedDetectsNothing(s, t, reply);
      }
    } else {
      var f := if s.det != NoSlots then Gcr(s, t, TextOf(s.mailbox.receivedText), false, reply)
               else Gcr(s, t, Act(GetSayNext), false, reply);
      if s.det != NoSlots {
        GcrFrame(s, t, TextOf(s.mailbox.receivedText), false, reply);
      } else {
        GcrFrame(s, t, Act(GetSayNext), false, reply);
      }
      ParseAfterFetch(s, f.s, f.answer, prepared);
    }
  }

  /** While nothing is expected for g1, processing a text leaves g1 empty. */
  lemma NothingExpectedDetectsNothing(s: Session, t: GrammarTable, reply: Reply)
    requires s.phase != Crashed && s.det.g1 == ""
    requires s.script.expected.Some? ==> s.script.expected.value.g1 == ""
    ensures Process(s, t, reply).phase != Crashed ==> Process(s, t, reply).det.g1 == ""
  {
    if !s.mailbox.processedText && s.mailbox.receivedText.Some? && s.script.expected.Some? {
      var text := s.mailbox.receivedText.value;
      assert Find("", "|").None?;
      assert SplitStr("", "|") == [""];
      assert !Hit(t, "", text);
      GcrSaid(s, t, text, false, reply);
    }
  }

  /** The HEARING test keeps the invariant and sends at most one request. */
  lemma ListenCheckFacts(s: Session, dt: nat, reply: Reply, t: GrammarTable, prepared: map<string, Bottle>)
    requires s.phase != Crashed && InvCore(s)
    requires s.currState == Some(Hearing) ==> s.script.waitForInput
    ensures var r := ListenCheck(s, dt, reply, t, prepared);
      Inv(r) && SendsAtMost(s, r, 1)
  {
    if s.clock - s.startTime < NoMatchTimeout && s.currState == Some(Hearing) {
      ProcessFacts(s, t, reply);
    } else if s.currState == Some(Hearing) {
      var f := Gcr(s, t, TextOf(s.mailbox.receivedText), true, reply);
      GcrFrame(s, t, TextOf(s.mailbox.receivedText), true, reply);
      if f.s.phase != Crashed {
        var c := f.s.(mailbox := f.s.mailbox.(receivedText := None), det := NoSlots);
        assert SendsAtMost(s, c, 1) by { assert c.trace == f.s.trace; }
        ParseAfterFetch(s, c, f.answer, prepared);
      }
    } else {
      SameTrace(s, Return(s));
    }
  }

  /** The WAIT2HEAR test keeps the invariant and sends at most one request. */
  lemma HearCheckFacts(s: Session, dt: nat, reply: Reply, t: GrammarTable, prepared: map<string, Bottle>)
    requires s.phase != Crashed && InvCore(s) && s.script.waitForInput
    requires s.currState == Some(Wait2Hear) || s.currState == Some(Hearing)
    ensures var r := HearCheck(s, dt, reply, t, prepared);
      Inv(r) && SendsAtMost(s, r, 1)
  {
    if s.clock - s.startTime < NoInputTimeout && s.currState == Some(Wait2Hear) {
      SameTrace(s, Sleep(s, dt, HearWait));
    } else if s.currState == Some(Wait2Hear) {
      var f := Gcr(s, t, Act(NoInput), false, reply);
      GcrFrame(s, t, Act(NoInput), false, reply);
      ParseAfterFetch(s, f.s, f.answer, prepared);
    } else {
      var s1 := s.(startTime := s.clock);
      ListenCheckFacts(s1, dt, reply, t, prepared);
      SendsCompose(s, s1, HearCheck(s, dt, reply, t, prepared), 0, 1);
    }
  }

  /** The rest of the HEARING loop body sends nothing and keeps the invariant. */
  lemma AfterListenFacts(s: Session, prepared: map<string, Bottle>)
    requires s.phase == Listening && InvCore(s) && PhaseOk(s)
    ensures var a := AfterListenSleep(s, prepared);
      && SendsAtMost(s, a, 0)
      && (a.phase == Crashed || (a.phase == Listening && InvCore(a)))
      && (a.currState == Some(Hearing) ==> a.script.waitForInput)
  {
    var s1 := if s.mailbox.agentSpeaking then s.(startTime := s.clock) else s;
    if s1.clock - s1.startTime > HeardTimeout && !s1.mailbox.agentSpeaking && s1.det.g1 != "" {
      var c := s1.(mailbox := s1.mailbox.(receivedText := None));
      ParseSendsNothing(c, s1.planned, prepared);
    } else {
      SameTrace(s, s1);
    }
  }

  /** The first part of `updateModule`, which picks the loop from TKML_waitForInput. */
  lemma StartFacts(s: Session, dt: nat, reply: Reply, t: GrammarTable, prepared: map<string, Bottle>)
    requires s.phase == Start && InvCore(s)
    ensures var r := Step(s, dt, reply, t, prepared);
      Inv(r) && SendsAtMost(s, r, 1)
  {
    if !s.script.waitForInput {
      var s1 := s.(det := NoSlots, currState := Some(Wait2Talk), startTime := s.clock);
      TalkCheckFacts(s1, dt, reply, t, prepared);
      SendsCompose(s, s1, TalkCheck(s1, dt, reply, t, prepared), 0, 1);
    } else {
      var s1 := s.(currState := Some(Wait2Hear), startTime := s.clock);
      HearCheckFacts(s1, dt, reply, t, prepared);
      SendsCompose(s, s1, HearCheck(s1, dt, reply, t, prepared), 0, 1);
    }
  }

  /** The HEARING loop after its sleep. */
  lemma ListeningFacts(s: Session, dt: nat, reply: Reply, t: GrammarTable, prepared: map<string, Bottle>)
    requires s.phase == Listening && InvCore(s) && PhaseOk(s)
    ensures var r := Step(s, dt, reply, t, prepared);
      Inv(r) && SendsAtMost(s, r, 1)
  {
    var s1 := AfterListenSleep(s, prepared);
    AfterListenFacts(s, prepared);
    if s1.phase != Crashed {
      ListenCheckFacts(s1, dt, reply, t, prepared);
      SendsCompose(s, s1, ListenCheck(s1, dt, reply, t, prepared), 0, 1);
    } else {
      SendsCompose(s, s1, s1, 0, 0);
    }
  }

  /**
   * Every step of `updateModule` keeps the invariant, only appends to the trace of what the
   * controller sent, and sends at most one request to the dialogue backend.
   */
  lemma StepInvariant(s: Session, dt: nat, reply: Reply, t: GrammarTable, prepared: map<string, Bottle>)
    requires Inv(s)
    ensures var r := Step(s, dt, reply, t, prepared);
      Inv(r) && SendsAtMost(s, r, 1)
  {
    match s.phase
    case Crashed =>
      SameTrace(s, s);
    case Start =>
      StartFacts(s, dt, reply, t, prepared);
    case TalkWait =>
      TalkCheckFacts(s, dt, reply, t, prepared);
    case HearWait =>
      var s1 := if s.mailbox.agentSpeaking then s.(currState := Some(Hearing)) else s;
      HearCheckFacts(s1, dt, reply, t, prepared);
      SendsCompose(s, s1, HearCheck(s1, dt, reply, t, prepared), 0, 1);
    case Listening =>
      ListeningFacts(s, dt, reply, t, prepared);
  }

  // ----- Timing of the HEARING and WAIT2HEAR loops -------------------------------------------

  /**
   * While the user is speaking, the HEARING loop restarts its timer at every pass and goes on
   * listening: neither the heard commit nor the no-match timeout can happen.
   */
  lemma TimerRestartsWhileSpeaking(s: Session, dt: nat, reply: Reply, t: GrammarTable, prepared: map<string, Bottle>)
    requires Inv(s) && s.phase == Listening && s.mailbox.agentSpeaking
    ensures var r := Step(s, dt, reply, t, prepared);
      && (r.phase == Listening || r.phase == Crashed)
      && (r.phase == Listening ==> r.startTime == s.clock && r.clock == s.clock + dt && r.currState == Some(Hearing))
      && SendsAtMost(s, r, 1)
  {
    var s1 := s.(startTime := s.clock);
    assert AfterListenSleep(s, prepared) == s1;
    ProcessFacts(s1, t, reply);
    SendsCompose(s, s1, Step(s, dt, reply, t, prepared), 0, 1);
  }

  /**
   * After more than `heard` ms of silence with g1 detected, the planned reply is parsed (its turn
   * is spoken) without any request, and the planned reply, the slots and the mailbox text are
   * cleared in state HEARD before `updateModule` returns.
   */
  lemma CommitAfterSilence(s: Session, dt: nat, reply: Reply, t: GrammarTable, prepared: map<string, Bottle>)
    requires Inv(s) && s.phase == Listening && !s.mailbox.agentSpeaking
    requires s.clock - s.startTime > HeardTimeout && s.det.g1 != ""
    ensures var r := Step(s, dt, reply, t, prepared);
      var parsed := Parse(s.(mailbox := s.mailbox.(receivedText := None)), s.planned, prepared);
      && SendsAtMost(s, r, 0)
      && r.trace == parsed.trace
      && (r.phase == Crashed || (r.phase == Start && r.planned.None? && r.det == NoSlots
                                 && r.currState == Some(HeardState) && r.mailbox.receivedText.None?
                                 && r.script == parsed.script))
  {
    var c := s.(mailbox := s.mailbox.(receivedText := None));
    var parsed := Parse(c, s.planned, prepared);
    ParseSendsNothing(c, s.planned, prepared);
    var a := AfterListenSleep(s, prepared);
    assert a.trace == parsed.trace;
    if a.phase != Crashed {
      assert a.currState == Some(HeardState);
      assert ListenCheck(a, dt, reply, t, prepared) == Return(a);
    }
  }

  /** On the timeout path `get_chatbot_reply` of the mailbox text sends exactly one request. */
  lemma TimeoutSendsOne(s: Session, t: GrammarTable, reply: Reply)
    requires s.phase != Crashed && InvCore(s) && s.script.waitForInput
    ensures var f := Gcr(s, t, TextOf(s.mailbox.receivedText), true, reply);
      SendsOneFirst(s, f.s) && |Added(s, f.s)| == 1
  {
    var f := Gcr(s, t, TextOf(s.mailbox.receivedText), true, reply);
    if s.mailbox.receivedText.Some? {
      TimeoutRequest(s, t, s.mailbox.receivedText.value, reply);
    }
    assert Added(s, f.s) == [f.s.trace[|s.trace|]];
  }

  /** The timeout path of the HEARING test, on its own. */
  lemma ListenTimeout(s: Session, dt: nat, reply: Reply, t: GrammarTable, prepared: map<string, Bottle>)
    requires s.phase != Crashed && InvCore(s) && s.script.waitForInput && s.det.g1 == ""
    requires s.currState == Some(Hearing) && s.clock - s.startTime >= NoMatchTimeout
    ensures var r := ListenCheck(s, dt, reply, t, prepared);
      && SendsOneFirst(s, r)
      && (r.phase == Start || r.phase == Crashed)
      && (r.phase == Start ==> r.det == NoSlots && r.mailbox.receivedText.None?)
  {
    var f := Gcr(s, t, TextOf(s.mailbox.receivedText), true, reply);
    TimeoutSendsOne(s, t, reply);
    if f.s.phase != Crashed {
      var c := Return(f.s.(mailbox := f.s.mailbox.(receivedText := None), det := NoSlots));
      ParseSendsNothing(c, f.answer, prepared);
      var r := Parse(c, f.answer, prepared);
      SendsCompose(s, c, r, 1, 0);
      CountsAppend(Added(s, c), Added(c, r));
    }
  }

  /**
   * When `no_match` ms have passed in state HEARING without g1 being detected (and the user is
   * silent), exactly one request is sent on the timeout path (`nomatch`, `heard` for g2, the
   * speculative `heard` for a g1 detected right now, or the None of an empty mailbox), and the
   * mailbox text and the slots are cleared.
   */
  lemma NoMatchDeadline(s: Session, dt: nat, reply: Reply, t: GrammarTable, prepared: map<string, Bottle>)
    requires Inv(s) && s.phase == Listening && !s.mailbox.agentSpeaking
    requires s.clock - s.startTime >= NoMatchTimeout && s.det.g1 == ""
    ensures var r := Step(s, dt, reply, t, prepared);
      && SendsOneFirst(s, r)
      && (r.phase == Start || r.phase == Crashed)
      && (r.phase == Start ==> r.det == NoSlots && r.mailbox.receivedText.None?)
  {
    assert AfterListenSleep(s, prepared) == s;
    ListenTimeout(s, dt, reply, t, prepared);
  }

  /** Before the `no_input` deadline, with nobody speaking, the WAIT2HEAR loop only sleeps again. */
  lemma NoInputWaits(s: Session, dt: nat, reply: Reply, t: GrammarTable, prepared: map<string, Bottle>)
    requires Inv(s) && s.phase == HearWait && !s.mailbox.agentSpeaking
    requires s.clock - s.startTime < NoInputTimeout
    ensures Step(s, dt, reply, t, prepared) == s.(clock := s.clock + dt)
  {
  }

  /**
   * On the `no_input` deadline, with nobody speaking, a `noinput` request without grammar is sent
   * (and nothing else), its answer is parsed and `updateModule` returns.
   */
  lemma NoInputDeadline(s: Session, dt: nat, reply: Reply, t: GrammarTable, prepared: map<string, Bottle>)
    requires Inv(s) && s.phase == HearWait && !s.mailbox.agentSpeaking
    requires s.clock - s.startTime >= NoInputTimeout
    ensures var r := Step(s, dt, reply, t, prepared);
      && SendsOneFirst(s, r) && Added(s, r)[0] == Request(Tuple1("noinput"), None)
      && (r.phase == Start || r.phase == Crashed)
  {
    var f := Gcr(s, t, Act(NoInput), false, reply);
    assert f.s.trace == s.trace + [Request(Tuple1("noinput"), None)];
    assert Added(s, f.s) == [Request(Tuple1("noinput"), None)];
    var c := Return(f.s);
    ParseSendsNothing(c, f.answer, prepared);
    var r := Parse(c, f.answer, prepared);
    SendsCompose(s, c, r, 1, 0);
    CountsAppend(Added(s, c), Added(c, r));
  }

  /**
   * When the agent stops talking and a text was detected during the turn, that text goes through
   * `get_chatbot_reply` again without the timeout flag; nothing is expected for g1 while talking,
   * so nothing is sent, and `updateModule` returns with the script and planned reply unchanged.
   */
  lemma TalkDetectionSendsNothing(s: Session, dt: nat, reply: Reply, t: GrammarTable, prepared: map<string, Bottle>)
    requires Inv(s) && s.phase == TalkWait && !s.mailbox.agentSpeaking && s.det != NoSlots
    ensures var r := Step(s, dt, reply, t, prepared);
      && r.trace == s.trace && r.phase == Start
      && r.planned == s.planned && r.script == s.script
  {
    var text := s.mailbox.receivedText.value;
    assert Find("", "|").None?;
    assert SplitStr("", "|") == [""];
    assert !Hit(t, "", text);
    GcrSaid(s, t, text, false, reply);
    var f := Gcr(s, t, Said(text), false, reply);
    assert f.s.det.g1 == "";
    assert f.answer.None? && f.s.trace == s.trace && f.s.planned == s.planned;
  }

  /**
   * A g1 first detected on the `no_match` timeout path, with no reply planned, is fetched with a
   * `heard` request whose answer is kept as the planned reply and not parsed; the slots are
   * cleared, so the planned reply outlives the turn it was fetched for.
   */
  lemma TimeoutLeavesPlannedReply(s: Session, dt: nat, reply: Reply, t: GrammarTable, prepared: map<string, Bottle>)
    requires Inv(s) && s.phase == Listening && !s.mailbox.agentSpeaking
    requires s.clock - s.startTime >= NoMatchTimeout && s.det.g1 == "" && s.planned.None?
    requires s.mailbox.receivedText.Some?
    requires Detect(t, s.script.expected, s.det, s.mailbox.receivedText.value).value.g1 != ""
    ensures var r := Step(s, dt, reply, t, prepared);
      var g1 := Detect(t, s.script.expected, s.det, s.mailbox.receivedText.value).value.g1;
      && r.phase == Start && r.planned == Some(reply) && r.det == NoSlots
      && r.trace == s.trace + [Request(Tuple1("heard"), Some(g1))]
  {
    var text := s.mailbox.receivedText.value;
    assert AfterListenSleep(s, prepared) == s;
    GcrSaid(s, t, text, true, reply);
    SpeculativeFetch(s, t, text, true, reply);
  }
}
