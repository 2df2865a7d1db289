/**
 * The dialogue controller of bbc_demo.py as the object it is: `configure` (its grammar-file loop),
 * `get_chatbot_reply`, `parse_chatbot_reply`, `toggle_tokenizer`, `respond` and `updateModule`
 * update the controller's fields in place. Every method is proved to leave the fields as the
 * function of module Dialogue that specifies it, so what DialogueProps proves about those
 * functions holds of the object.
 */
module DialogueController {
  import opened Common
  import opened Text
  import opened Bottles
  import opened Grammar
  import opened Dialogue

  class Controller {
    var grammars: map<string, seq<string>>
    var grammarsMult: map<string, seq<seq<string>>>
    var grammarDict: Option<Expectation>   // None while grammar_dict is still {}
    var waitForInput: bool                  // TKML_waitForInput
    var stop: bool                          // TKML_stop
    var detected: Slots                     // detected_grammar
    var plannedReply: Option<Reply>         // planned_reply; None for ''
    var agentSpeaking: bool                 // agent_speaking
    var receivedText: Option<string>        // received_text
    var processedText: bool                 // processed_text
    var tokenizerState: bool                // tokenizer_state
    var currState: Option<TkmlState>        // TalkML_currState
    var clock: int                          // the abstract clock, in milliseconds
    var startTime: int                      // start_time of the running loop
    var phase: Phase                        // where updateModule stopped
    var trace: seq<Event>                   // requests, speech, moves, emotions and tokenizer writes
    const prepared: map<string, Bottle>     // prepared_action_dict

    /** The grammar dictionaries as a table. */
    function Table(): GrammarTable
      reads this
    {
      GrammarTable(grammars, grammarsMult)
    }

    /** The fields the dialogue logic works on, as a session value. */
    function Snap(): Session
      reads this
    {
      Session(Script(grammarDict, waitForInput, stop), detected, plannedReply,
              Mailbox(agentSpeaking, receivedText, processedText),
              tokenizerState, currState, clock, startTime, phase, trace)
    }

    /** `__init__` with `configure` before its grammar file: the moves are prepared, nothing else is set. */
    constructor(moves: map<string, Bottle>)
      ensures Snap() == Fresh() && Table() == EmptyTable && prepared == moves
    {
      grammars := map[];
      grammarsMult := map[];
      grammarDict := None;
      waitForInput := false;
      stop := false;
      detected := NoSlots;
      plannedReply := None;
      agentSpeaking := true;
      receivedText := None;
      processedText := true;
      tokenizerState := true;
      currState := None;
      clock := 0;
      startTime := 0;
      phase := Start;
      trace := [];
      prepared := moves;
    }

    // ----- configure: the grammar file ----------------------------------------------------------

    /**
     * The grammar-file loop of `configure`: for each line, the alternatives are appended one by one
     * under the line's key; `ok` is false when a line without `.*` raised IndexError.
     */
    method LoadGrammar(lines: seq<string>) returns (ok: bool)
      modifies this`grammars, this`grammarsMult
      ensures (Table(), ok) == LoadLines(old(Table()), lines)
      ensures Snap() == old(Snap())
    {
      var i := 0;
      while i < |lines|
        invariant 0 <= i <= |lines|
        invariant LoadLines(Table(), lines[i..]) == LoadLines(old(Table()), lines)
      {
        assert lines[i..][0] == lines[i] && lines[i..][1..] == lines[i + 1..];
        var parts := SplitStr(Strip(lines[i]), ".*");
        if |parts| < 2 {
          return false;
        }
        var key := ReplaceAll(parts[0], "\t", "");
        var vals := SplitStr(Inner(parts[1]), "|");
        assert ParseLine(lines[i]) == Some(GrammarLine(key, vals));
        ghost var rest := LoadLines(AddAlternatives(Table(), key, vals), lines[i + 1..]);
        assert LoadLines(Table(), lines[i..]) == rest;
        AddLine(key, vals);
        assert LoadLines(Table(), lines[i + 1..]) == rest;
        i := i + 1;
      }
      assert lines[i..] == [];
      ok := true;
    }

    /** The loop over the alternatives of one line: `*`-alternatives go to `grammars_mult`, the others to `grammars`. */
    method AddLine(key: string, vals: seq<string>)
      modifies this`grammars, this`grammarsMult
      ensures Table() == AddAlternatives(old(Table()), key, vals)
    {
      var j := 0;
      while j < |vals|
        invariant 0 <= j <= |vals|
        invariant AddAlternatives(Table(), key, vals[j..]) == AddAlternatives(old(Table()), key, vals)
      {
        assert vals[j..][0] == vals[j] && vals[j..][1..] == vals[j + 1..];
        var v := vals[j];
        if '*' in v {
          grammarsMult := grammarsMult[key := Lookup(grammarsMult, key) + [SplitStr(v, "*")]];
        } else {
          grammars := grammars[key := Lookup(grammars, key) + [v]];
        }
        j := j + 1;
      }
      assert vals[j..] == [];
    }

    // ----- get_chatbot_reply --------------------------------------------------------------------

    /** The loop over the expected g1 alternatives. */
    method ScanG1(alts: seq<string>, text: string)
      requires detected.g1 == ""
      modifies this`detected
      ensures detected == Slots(FirstMatch(Table(), alts, text),
                                if AnyMatch(Table(), alts, text) then "" else old(detected.g2))
      ensures Snap() == old(Snap()).(det := detected) && Table() == old(Table())
    {
      ghost var g2 := detected.g2;
      var i := 0;
      while i < |alts|
        invariant 0 <= i <= |alts|
        invariant detected.g1 == "" ==> FirstMatch(Table(), alts[i..], text) == FirstMatch(Table(), alts, text)
        invariant detected.g1 == "" ==>
          detected.g2 == (if exists j :: 0 <= j < i && CheckGrammar(Table(), alts[j], text) then "" else g2)
        invariant detected.g1 != "" ==>
          detected.g1 == FirstMatch(Table(), alts, text) && detected.g2 == "" && AnyMatch(Table(), alts, text)
      {
        assert alts[i..][0] == alts[i] && alts[i..][1..] == alts[i + 1..];
        if detected.g1 == "" {
          if CheckGrammar(Table(), alts[i], text) {
            detected := Slots(alts[i], "");
          } else {
            detected := detected.(g1 := "");
          }
        }
        i := i + 1;
      }
    }

    /** The loop over the expected g2 alternatives, entered while both slots are empty. */
    method ScanG2(alts: seq<string>, text: string)
      requires detected == NoSlots
      modifies this`detected
      ensures detected == Slots("", FirstMatch(Table(), alts, text))
      ensures Snap() == old(Snap()).(det := detected) && Table() == old(Table())
    {
      var i := 0;
      while i < |alts|
        invariant 0 <= i <= |alts|
        invariant detected.g1 == ""
        invariant detected.g2 == "" ==> FirstMatch(Table(), alts[i..], text) == FirstMatch(Table(), alts, text)
        invariant detected.g2 != "" ==> detected.g2 == FirstMatch(Table(), alts, text)
      {
        assert alts[i..][0] == alts[i] && alts[i..][1..] == alts[i + 1..];
        if detected.g2 == "" {
          if CheckGrammar(Table(), alts[i], text) {
            detected := detected.(g2 := alts[i]);
          } else {
            detected := detected.(g2 := "");
          }
        }
        i := i + 1;
      }
    }

    /** The detection half of `get_chatbot_reply` for a text; reading `grammar_dict` before any reply raises KeyError. */
    method DetectGrammar(text: string)
      requires phase != Crashed
      modifies this`detected, this`phase
      ensures var d := Detect(Table(), old(grammarDict), old(detected), text);
        && (d.None? ==> Snap() == old(Snap()).(phase := Crashed))
        && (d.Some? ==> Snap() == old(Snap()).(det := d.value))
      ensures Table() == old(Table())
    {
      if detected.g1 == "" {
        if grammarDict.None? {
          phase := Crashed;
          return;
        }
        ScanG1(SplitStr(grammarDict.value.g1, "|"), text);
        if detected.g2 == "" {
          if detected.g1 == "" {
            ScanG2(SplitStr(grammarDict.value.g2, "|"), text);
          } else {
            detected := detected.(g2 := "");
          }
        }
      }
    }

    /**
     * `get_chatbot_reply(sentence, sendToTKML)` on the TalkML interface, `reply` being the
     * backend's answer to the request it sends.
     */
    method GetChatbotReply(sentence: Sentence, sendToTkml: bool, reply: Reply) returns (answer: Option<Reply>)
      modifies this`detected, this`phase, this`trace, this`plannedReply
      ensures Fetch(Snap(), answer) == Gcr(old(Snap()), Table(), sentence, sendToTkml, reply)
      ensures Table() == old(Table())
    {
      if phase == Crashed {
        return None;
      }
      match sentence
      case Act(a) =>
        trace := trace + [Request(ActionValueOf(a), None)];
        answer := Some(reply);
      case NoText =>
        trace := trace + [Request(NullAction, None)];
        answer := Some(reply);
      case Said(text) =>
        DetectGrammar(text);
        if phase == Crashed {
          return None;
        }
        answer := SendForText(sendToTkml, reply);
    }

    /** The request `get_chatbot_reply` sends for a text once the slots are detected. */
    method SendForText(sendToTkml: bool, reply: Reply) returns (answer: Option<Reply>)
      modifies this`trace, this`plannedReply
      ensures Fetch(Snap(), answer) == Select(old(Snap()), sendToTkml, reply)
    {
      if detected.g1 != "" && plannedReply.None? {
        trace := trace + [Request(ActionValueOf(Heard), Some(detected.g1))];
        plannedReply := Some(reply);
        answer := None;
      } else if sendToTkml {
        if detected.g2 != "" {
          trace := trace + [Request(ActionValueOf(Heard), Some(detected.g2))];
        } else {
          trace := trace + [Request(ActionValueOf(NoMatch), None)];
        }
        answer := Some(reply);
      } else {
        answer := None;
      }
    }

    // ----- toggle_tokenizer and parse_chatbot_reply ---------------------------------------------

    /** `toggle_tokenizer`. */
    method ToggleTokenizer()
      modifies this`trace, this`tokenizerState
      ensures Snap() == Toggle(old(Snap())) && Table() == old(Table())
    {
      var cmd := if tokenizerState then "pause" else "resume";
      trace := trace + [TokenizerWrite(cmd)];
      tokenizerState := !tokenizerState;
    }

    /** The loop of `parse_chatbot_reply` over the words of a turn, `compsent` being the buffer. */
    method RenderWords(words: seq<string>)
      requires phase != Crashed
      modifies this`trace, this`phase
      ensures trace == old(trace) + Render(words, "", prepared).events
      ensures phase == (if Render(words, "", prepared).crashed then Crashed else old(phase))
    {
      var compsent := "";
      var i := 0;
      while i < |words|
        invariant 0 <= i <= |words|
        invariant trace + Render(words[i..], compsent, prepared).events == old(trace) + Render(words, "", prepared).events
        invariant Render(words[i..], compsent, prepared).crashed == Render(words, "", prepared).crashed
        invariant phase == old(phase)
      {
        var k := words[i];
        assert words[i..][0] == k && words[i..][1..] == words[i + 1..];
        if '<' !in k || '>' !in k {
          compsent := compsent + " " + k;
        } else if Contains(k, "gesture") {
          var action := ReplaceAll(k, "<gesture>", "");
          if action !in prepared {
            trace := trace + [Say(compsent)];
            phase := Crashed;
            return;
          }
          ghost var rest := Render(words[i + 1..], "", prepared).events;
          assert trace + [Say(compsent), BodyWrite(prepared[action])] + rest
              == trace + ([Say(compsent), BodyWrite(prepared[action])] + rest);
          trace := trace + [Say(compsent), BodyWrite(prepared[action])];
          compsent := "";
        } else if Contains(k, "emotion") {
          ghost var rest := Render(words[i + 1..], "", prepared).events;
          var em := ReplaceAll(k, "<emotion>", "");
          assert trace + [Say(compsent), SetEmotion(em)] + rest == trace + ([Say(compsent), SetEmotion(em)] + rest);
          trace := trace + [Say(compsent), SetEmotion(em)];
          compsent := "";
        }
        i := i + 1;
      }
      assert words[i..] == [];
      if compsent != "" {
        trace := trace + [Say(compsent)];
      } else {
        assert trace + [] == trace;
      }
    }

    /** The turn of `parse_chatbot_reply`: the tokenizer paused, the words rendered, the tokenizer resumed. */
    method SpeakTurn(say: string)
      requires phase != Crashed
      modifies this`trace, this`tokenizerState, this`phase
      ensures Snap() == Dialogue.SpeakTurn(old(Snap()), say, prepared) && Table() == old(Table())
    {
      ToggleTokenizer();
      RenderWords(TurnWords(say));
      if phase != Crashed {
        ToggleTokenizer();
      }
    }

    /** The eight-way classification of `parse_chatbot_reply`. */
    method SetDirective(sayNone: bool, g1: string, g2: string)
      modifies this`waitForInput, this`stop
      ensures (waitForInput, stop) == Directive(sayNone, g1, g2)
    {
      waitForInput := false;
      if sayNone && g1 == "" && g2 == "" {
        waitForInput, stop := false, true;
      } else if sayNone && g1 == "" && g2 != "" {
        waitForInput, stop := true, false;
      } else if sayNone && g1 != "" && g2 == "" {
        waitForInput, stop := true, false;
      } else if sayNone && g1 != "" && g2 != "" {
        waitForInput, stop := true, false;
      } else if !sayNone && g1 == "" && g2 == "" {
        waitForInput, stop := false, false;
      } else if !sayNone && g1 == "" && g2 != "" {
        waitForInput, stop := false, false;
      } else if !sayNone && g1 != "" && g2 == "" {
        waitForInput, stop := true, false;
      } else {
        waitForInput, stop := true, false;
      }
    }

    /**
     * `parse_chatbot_reply`: true when a 200 reply is parsed through to its return; a sayThis that
     * `str()` cannot encode, or an unknown gesture in the turn, raises instead and ends the controller.
     */
    method ParseChatbotReply(r: Option<Reply>) returns (ok: bool)
      modifies this`currState, this`grammarDict, this`waitForInput, this`stop, this`trace, this`tokenizerState, this`phase
      ensures Snap() == Parse(old(Snap()), r, prepared) && Table() == old(Table())
      ensures ok <==> r.Some? && r.value.Ok? && phase != Crashed
      ensures old(phase) != Crashed && r.Some? && r.value.Ok? && !Encodable(r.value) ==> phase == Crashed
    {
      if phase == Crashed || r.None? || r.value.NotOk? {
        return false;
      }
      var rep := r.value;
      currState := Some(Wait2Talk);
      if !Encodable(rep) {
        phase := Crashed;
        return false;
      }
      var sayThis := SayText(rep);
      var g1 := rep.g1.GetOr("");
      var g2 := rep.g2.GetOr("");
      grammarDict := Some(Expectation(g1, g2));
      var sayNone := sayThis == "";
      SetDirective(sayNone, g1, g2);
      if !sayNone && sayThis != "None" {
        currState := Some(Talking);
        SpeakTurn(sayThis);
      }
      ok := phase != Crashed;
    }

    // ----- respond ------------------------------------------------------------------------------

    /** `respond`: the reply bottle, built word by word, and the mailbox fields written. */
    method Respond(command: Bottle) returns (reply: Bottle)
      modifies this`agentSpeaking, this`receivedText, this`processedText
      ensures Snap() == Dialogue.Respond(old(Snap()), command).s
      ensures reply == Dialogue.Respond(old(Snap()), command).reply
      ensures Table() == old(Table())
    {
      reply := [];
      var action := Action(command);
      if action == "heartbeat" {
        reply := reply + [Ack];
      }
      if action == "speaking" {
        if AsString(Get(command, 1)) == "start" {
          agentSpeaking := true;
        } else {
          agentSpeaking := false;
        }
        reply := reply + [Ack];
      }
      if action == "spoken" {
        if |command| == 2 {
          agentSpeaking := false;
          receivedText := Some(AsString(Get(command, 1)));
          processedText := false;
          reply := reply + [Ack];
        } else {
          reply := reply + [Nack];
        }
      } else if action == "EXIT" {
        reply := reply + [Ack];
      } else {
        reply := reply + [Nack, NotRecognized];
      }
    }

    // ----- updateModule -------------------------------------------------------------------------

    /** `time.sleep(delay_sleep)` inside one of the loops, which ends the step. */
    method Sleep(dt: nat, next: Phase)
      modifies this`clock, this`phase
      ensures Snap() == Dialogue.Sleep(old(Snap()), dt, next) && Table() == old(Table())
    {
      if phase != Crashed {
        clock := clock + dt;
        phase := next;
      }
    }

    /** Returning from `updateModule`. */
    method Return()
      modifies this`phase
      ensures Snap() == Dialogue.Return(old(Snap())) && Table() == old(Table())
    {
      if phase != Crashed {
        phase := Start;
      }
    }

    /** `if not processed_text: get_chatbot_reply(received_text); processed_text = True`. */
    method Process(reply: Reply)
      modifies this`detected, this`phase, this`trace, this`plannedReply, this`processedText
      ensures Snap() == Dialogue.Process(old(Snap()), Table(), reply) && Table() == old(Table())
    {
      if !processedText {
        var _ := GetChatbotReply(TextOf(receivedText), false, reply);
        if phase != Crashed {
          processedText := true;
        }
      }
    }

    /** The WAIT2TALK loop test and what follows it. */
    method TalkCheck(dt: nat, reply: Reply)
      modifies this
      ensures Snap() == Dialogue.TalkCheck(old(Snap()), dt, reply, Table(), prepared) && Table() == old(Table())
    {
      if agentSpeaking {
        Process(reply);
        Sleep(dt, TalkWait);
      } else {
        var answer;
        if detected != NoSlots {
          answer := GetChatbotReply(TextOf(receivedText), false, reply);
        } else {
          answer := GetChatbotReply(Act(GetSayNext), false, reply);
        }
        Return();
        var _ := ParseChatbotReply(answer);
      }
    }

    /** The HEARING loop test and the timeout path after it. */
    method ListenCheck(dt: nat, reply: Reply)
      modifies this
      ensures Snap() == Dialogue.ListenCheck(old(Snap()), dt, reply, Table(), prepared) && Table() == old(Table())
    {
      if clock - startTime < NoMatchTimeout && currState == Some(Hearing) {
        Process(reply);
        Sleep(dt, Listening);
      } else if currState == Some(Hearing) {
        NoMatchFetch(reply);
      } else {
        Return();
      }
    }

    /** At the `no_match` deadline: the text is sent with `grammar=g2` or as nomatch, then the answer parsed. */
    method NoMatchFetch(reply: Reply)
      modifies this
      ensures var f := Gcr(old(Snap()), Table(), TextOf(old(receivedText)), true, reply);
        Snap() == if f.s.phase == Crashed then f.s
                  else Parse(Dialogue.Return(f.s.(mailbox := f.s.mailbox.(receivedText := None), det := NoSlots)), f.answer, prepared)
      ensures Table() == old(Table())
    {
      var answer := GetChatbotReply(TextOf(receivedText), true, reply);
      if phase == Crashed {
        return;
      }
      ghost var s1 := Snap();
      receivedText := None;
      detected := NoSlots;
      assert Snap() == s1.(mailbox := s1.mailbox.(receivedText := None), det := NoSlots);
      Return();
      ghost var c := Snap();
      var _ := ParseChatbotReply(answer);
      assert Snap() == Parse(c, answer, prepared);
    }

    /** The WAIT2HEAR loop test and what follows it. */
    method HearCheck(dt: nat, reply: Reply)
      modifies this
      ensures Snap() == Dialogue.HearCheck(old(Snap()), dt, reply, Table(), prepared) && Table() == old(Table())
    {
      if clock - startTime < NoInputTimeout && currState == Some(Wait2Hear) {
        Sleep(dt, HearWait);
      } else if currState == Some(Wait2Hear) {
        var answer := GetChatbotReply(Act(NoInput), false, reply);
        Return();
        var _ := ParseChatbotReply(answer);
      } else {
        startTime := clock;
        ListenCheck(dt, reply);
      }
    }

    /** The HEARING loop body after its sleep: the timer restart and the commit of the planned reply. */
    method AfterListenSleep()
      requires phase != Crashed
      modifies this
      ensures Snap() == Dialogue.AfterListenSleep(old(Snap()), prepared) && Table() == old(Table())
    {
      if agentSpeaking {
        startTime := clock;
      }
      if clock - startTime > HeardTimeout && !agentSpeaking && detected.g1 != "" {
        Commit();
      }
    }

    /** The heard commit inside the HEARING loop. */
    method Commit()
      requires phase != Crashed
      modifies this`receivedText, this`plannedReply, this`detected, this`currState
      modifies this`grammarDict, this`waitForInput, this`stop, this`trace, this`tokenizerState, this`phase
      ensures Snap() == Dialogue.Commit(old(Snap()), prepared) && Table() == old(Table())
    {
      DropText();
      var _ := ParseChatbotReply(plannedReply);
      if phase == Crashed {
        return;
      }
      ClearPlan();
    }

    /** `received_text = None`. */
    method DropText()
      modifies this`receivedText
      ensures Snap() == old(Snap()).(mailbox := old(Snap()).mailbox.(receivedText := None))
    {
      receivedText := None;
    }

    /** The planned reply and the slots cleared, in state HEARD. */
    method ClearPlan()
      modifies this`plannedReply, this`detected, this`currState
      ensures Snap() == old(Snap()).(planned := None, det := NoSlots, currState := Some(HeardState))
    {
      plannedReply := None;
      detected := NoSlots;
      currState := Some(HeardState);
    }

    /** `updateModule`, from where it last stopped to its next sleep or its end. */
    method Step(dt: nat, reply: Reply)
      modifies this
      ensures Snap() == Dialogue.Step(old(Snap()), dt, reply, Table(), prepared) && Table() == old(Table())
    {
      match phase
      case Crashed =>
      case Start =>
        ghost var s0 := Snap();
        if !waitForInput {
          startTime := clock;
          detected := NoSlots;
          currState := Some(Wait2Talk);
          assert Snap() == s0.(det := NoSlots, currState := Some(Wait2Talk), startTime := s0.clock);
          TalkCheck(dt, reply);
        } else {
          currState := Some(Wait2Hear);
          startTime := clock;
          assert Snap() == s0.(currState := Some(Wait2Hear), startTime := s0.clock);
          HearCheck(dt, reply);
        }
      case TalkWait =>
        TalkCheck(dt, reply);
      case HearWait =>
        ghost var s0 := Snap();
        if agentSpeaking {
          currState := Some(Hearing);
        }
        assert Snap() == if s0.mailbox.agentSpeaking then s0.(currState := Some(Hearing)) else s0;
        HearCheck(dt, reply);
      case Listening =>
        AfterListenSleep();
        if phase != Crashed {
          ListenCheck(dt, reply);
        }
    }
  }
}
