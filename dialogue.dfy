/**
 * The turn-taking dialogue controller of bbc_demo.py as values: the controller's fields form a
 * `Session`, and every operation of the controller is a function from a session (and its inputs)
 * to the next session. The class in controller.dfy is proved against these functions.
 *
 * Everything the controller sends out (requests to the TalkML backend, speech, moves sent to
 * body control, emotions, tokenizer commands) is an `Event` appended to `trace`.
 */
module Dialogue {
  import opened Common
  import opened Text
  import opened Bottles
  import opened Grammar

  /** The `TalkML_timeout` entries, in milliseconds of the abstract clock. */
  const NoInputTimeout: int := 7000
  const NoMatchTimeout: int := 4000
  const HeardTimeout: int := 1500

  /**
   * The `action` field of a request as it is serialised: the enum values written with a trailing
   * comma are one-element tuples, `getSayNext` is a bare string, and an input that is neither an
   * action nor a text gives JSON null.
   */
  datatype ActionValue = NullAction | Bare(name: string) | Tuple1(name: string)

  /** `TKML_Actions`. */
  datatype TkmlAction = Upload | Begin | Heard | NoInput | NoMatch | GetSayNext

  function ActionValueOf(a: TkmlAction): (v: ActionValue)
    ensures v.Bare? <==> a == GetSayNext
    ensures v != NullAction
  {
    match a
    case Upload => Tuple1("upload")
    case Begin => Tuple1("start")
    case Heard => Tuple1("heard")
    case NoInput => Tuple1("noinput")
    case NoMatch => Tuple1("nomatch")
    case GetSayNext => Bare("getSayNext")
  }

  /** `TKML_States`. */
  datatype TkmlState = Wait2Talk | Talking | Wait2Hear | Hearing | HeardState

  /**
   * A reply of the backend: anything that is not `<Response [200]>` (an error status, or no reply
   * at all) is `NotOk`; a 200 reply carries the JSON fields sayThis, g1 and g2, each possibly null.
   */
  datatype Reply = NotOk | Ok(sayThis: Option<string>, g1: Option<string>, g2: Option<string>)

  /** What the controller does to the outside world, in order. */
  datatype Event =
    | Request(action: ActionValue, grammar: Option<string>)   // a POST to the TalkML backend
    | Say(text: string)                                       // `tacotron_say`
    | BodyWrite(cmd: Bottle)                                  // a command written to body control
    | SetEmotion(name: string)                                // `emotion_client.setEmotion(name, "all")`
    | TokenizerWrite(word: string)                            // "pause" / "resume" to the tokenizer

  /** `grammar_dict` once a reply has set it: the grammar alternatives expected for each slot. */
  datatype Expectation = Expectation(g1: string, g2: string)

  /** `detected_grammar`. */
  datatype Slots = Slots(g1: string, g2: string)

  const NoSlots := Slots("", "")

  /**
   * Where `updateModule` is between two steps: at its start, or just after one of the three
   * `sleep` calls of its loops. `Crashed` is the state after an exception left `updateModule`.
   */
  datatype Phase = Start | TalkWait | HearWait | Listening | Crashed

  /** The fields only `parse_chatbot_reply` writes: what the last 200 reply directed. */
  datatype Script = Script(
    expected: Option<Expectation>,  // grammar_dict; None while it is still the empty dict
    waitForInput: bool,             // TKML_waitForInput
    stop: bool)                     // TKML_stop

  /** The fields `respond` writes for `updateModule` to read. */
  datatype Mailbox = Mailbox(
    agentSpeaking: bool,            // agent_speaking
    receivedText: Option<string>,   // received_text
    processedText: bool)            // processed_text

  /** The fields of the controller that its dialogue logic reads and writes. */
  datatype Session = Session(
    script: Script,
    det: Slots,                     // detected_grammar
    planned: Option<Reply>,         // planned_reply; None stands for its '' value
    mailbox: Mailbox,
    tokenizerOn: bool,              // tokenizer_state
    currState: Option<TkmlState>,   // TalkML_currState
    clock: int,                     // the abstract clock, in milliseconds
    startTime: int,                 // start_time of the running loop
    phase: Phase,
    trace: seq<Event>)

  /** The session as the constructor leaves it. */
  function Fresh(): (s: Session)
    ensures s.phase == Start && s.script.expected.None? && s.det == NoSlots && s.planned.None?
    ensures s.tokenizerOn && s.mailbox.agentSpeaking && s.mailbox.processedText && !s.script.waitForInput
    ensures s.trace == []
  {
    Session(Script(None, false, false), NoSlots, None, Mailbox(true, None, true), true, None, 0, 0, Start, [])
  }

  // ----- Slot detection -----------------------------------------------------------------------

  /** An alternative that both is non-empty and matches `text`. */
  predicate Hit(t: GrammarTable, g: string, text: string) {
    g != "" && CheckGrammar(t, g, text)
  }

  /** `alts[i]` is the first hit of `alts`. */
  ghost predicate FirstHitAt(t: GrammarTable, alts: seq<string>, text: string, i: int) {
    0 <= i < |alts| && Hit(t, alts[i], text) && forall j :: 0 <= j < i ==> !Hit(t, alts[j], text)
  }

  /**
   * The loop over the `|`-alternatives of an expected grammar: the first alternative that matches
   * and is not empty ("" when there is none; a matching empty alternative leaves the slot empty
   * and the loop goes on).
   */
  function FirstMatch(t: GrammarTable, alts: seq<string>, text: string): (g: string)
    ensures g != "" ==> exists i :: FirstHitAt(t, alts, text, i) && alts[i] == g
    ensures g == "" ==> forall i :: 0 <= i < |alts| ==> !Hit(t, alts[i], text)
    decreases |alts|
  {
    if alts == [] then ""
    else if Hit(t, alts[0], text) then
      assert FirstHitAt(t, alts, text, 0);
      alts[0]
    else
      var g := FirstMatch(t, alts[1..], text);
      HitsShift(t, alts, text);
      g
  }

  /** The hits of `alts` past a first alternative that is no hit are those of `alts[1..]`, shifted. */
  lemma HitsShift(t: GrammarTable, alts: seq<string>, text: string)
    requires alts != [] && !Hit(t, alts[0], text)
    ensures forall i :: FirstHitAt(t, alts[1..], text, i) ==> FirstHitAt(t, alts, text, i + 1) && alts[i + 1] == alts[1..][i]
    ensures (forall i :: 0 <= i < |alts| - 1 ==> !Hit(t, alts[1..][i], text)) ==> forall i :: 0 <= i < |alts| ==> !Hit(t, alts[i], text)
  {
    forall i | FirstHitAt(t, alts[1..], text, i) ensures FirstHitAt(t, alts, text, i + 1) {
      forall j | 0 <= j < i + 1 ensures !Hit(t, alts[j], text) {
        if j > 0 { assert alts[j] == alts[1..][j - 1]; }
      }
    }
    if forall i :: 0 <= i < |alts| - 1 ==> !Hit(t, alts[1..][i], text) {
      forall i | 0 <= i < |alts| ensures !Hit(t, alts[i], text) {
        if i > 0 { assert alts[i] == alts[1..][i - 1]; }
      }
    }
  }

  /** Some alternative matches, empty or not: each such match clears the g2 slot. */
  function AnyMatch(t: GrammarTable, alts: seq<string>, text: string): (b: bool)
    ensures b <==> exists i :: 0 <= i < |alts| && CheckGrammar(t, alts[i], text)
    decreases |alts|
  {
    if alts == [] then false
    else CheckGrammar(t, alts[0], text) || AnyMatch(t, alts[1..], text)
  }

  /**
   * The detection half of `get_chatbot_reply` for a text: a detected g1 is kept as it is;
   * otherwise g1 becomes the first alternative of the expected g1 that matches, a match clears g2,
   * and g2 is looked up among its alternatives only while it and g1 are both empty.
   * `None` when `grammar_dict` has never been set: the lookup raises KeyError.
   */
  function Detect(t: GrammarTable, e: Option<Expectation>, d: Slots, text: string): (r: Option<Slots>)
    ensures r.None? <==> d.g1 == "" && e.None?
  {
    if d.g1 != "" then Some(d)
    else if e.None? then None
    else
      var alts1 := SplitStr(e.value.g1, "|");
      var n1 := FirstMatch(t, alts1, text);
      var m2 := if AnyMatch(t, alts1, text) then "" else d.g2;
      var n2 := if m2 != "" then m2 else if n1 == "" then FirstMatch(t, SplitStr(e.value.g2, "|"), text) else "";
      Some(Slots(n1, n2))
  }

  // ----- Requests: get_chatbot_reply ----------------------------------------------------------

  /** The argument of `get_chatbot_reply`: an action, a text, or the `None` of an empty mailbox. */
  datatype Sentence = Act(action: TkmlAction) | Said(text: string) | NoText

  function TextOf(received: Option<string>): Sentence {
    if received.Some? then Said(received.value) else NoText
  }

  /** A session with a request appended to its trace. */
  function Send(s: Session, action: ActionValue, grammar: Option<string>): Session {
    s.(trace := s.trace + [Request(action, grammar)])
  }

  /** The session after `get_chatbot_reply`, and the reply it returns (None for Python's None). */
  datatype Fetch = Fetch(s: Session, answer: Option<Reply>)

  /**
   * `get_chatbot_reply(sentence, sendToTKML)` on the TalkML interface; `reply` is what the backend
   * answers to the one request this call may send. An action or a missing text is sent as it is.
   * A text first goes through detection; then, if g1 is detected and no reply is planned, a
   * `heard` request for g1 is sent and its reply kept as the planned one; otherwise on the timeout
   * path a `heard` request for g2 is sent, or a `nomatch` request when g2 is empty.
   */
  function Gcr(s: Session, t: GrammarTable, sentence: Sentence, sendToTkml: bool, reply: Reply): Fetch {
    if s.phase == Crashed then Fetch(s, None)
    else match sentence
      case Act(a) => Fetch(Send(s, ActionValueOf(a), None), Some(reply))
      case NoText => Fetch(Send(s, NullAction, None), Some(reply))
      case Said(text) =>
        var d := Detect(t, s.script.expected, s.det, text);
        if d.None? then Fetch(s.(phase := Crashed), None)
        else Select(s.(det := d.value), sendToTkml, reply)
  }

  /** The request `get_chatbot_reply` sends for a text once the slots `s.det` are detected. */
  function Select(s: Session, sendToTkml: bool, reply: Reply): Fetch {
    if s.det.g1 != "" && s.planned.None? then
      Fetch(Send(s, ActionValueOf(Heard), Some(s.det.g1)).(planned := Some(reply)), None)
    else if sendToTkml then
      if s.det.g2 != "" then Fetch(Send(s, ActionValueOf(Heard), Some(s.det.g2)), Some(reply))
      else Fetch(Send(s, ActionValueOf(NoMatch), None), Some(reply))
    else Fetch(s, None)
  }

  // ----- Tokenizer control --------------------------------------------------------------------

  /** `toggle_tokenizer`: "pause" when the tokenizer is on, "resume" when off; then the state flips. */
  function Toggle(s: Session): Session {
    s.(tokenizerOn := !s.tokenizerOn,
       trace := s.trace + [TokenizerWrite(if s.tokenizerOn then "pause" else "resume")])
  }

  // ----- Replies: parse_chatbot_reply ---------------------------------------------------------

  /**
   * The eight-way classification of `parse_chatbot_reply`, on whether sayThis is empty and whether
   * each slot is empty: the pair (TKML_waitForInput, TKML_stop).
   */
  function Directive(sayEmpty: bool, g1: string, g2: string): (r: (bool, bool))
    ensures r.0 <==> g1 != "" || (sayEmpty && g2 != "")
    ensures r.1 <==> sayEmpty && g1 == "" && g2 == ""
  {
    if sayEmpty && g1 == "" && g2 == "" then (false, true)
    else if sayEmpty && g1 == "" && g2 != "" then (true, false)
    else if sayEmpty && g1 != "" && g2 == "" then (true, false)
    else if sayEmpty && g1 != "" && g2 != "" then (true, false)
    else if !sayEmpty && g1 == "" && g2 == "" then (false, false)
    else if !sayEmpty && g1 == "" && g2 != "" then (false, false)
    else if !sayEmpty && g1 != "" && g2 == "" then (true, false)
    else (true, false)
  }

  /** `str(reply_json.get("sayThis"))`: a null sayThis is the text "None". */
  function SayText(r: Reply): string
    requires r.Ok?
  {
    if r.sayThis.Some? then r.sayThis.value else "None"
  }

  /** Whether `str()` of the (unicode) sayThis succeeds: it is null or plain ASCII. */
  predicate Encodable(r: Reply)
    requires r.Ok?
  {
    r.sayThis.None? || IsAscii(r.sayThis.value)
  }

  /** What rendering a turn emits, and whether it stopped on an unknown gesture (a KeyError). */
  datatype Rendered = Rendered(events: seq<Event>, crashed: bool)

  /** A word the renderer speaks: it lacks `<` or `>`. */
  predicate Plain(w: string) {
    '<' !in w || '>' !in w
  }

  /**
   * The loop over the words of a turn, `buf` being `compsent`: a plain word is added to the buffer
   * after a space; a tagged word holding "gesture" flushes the buffer (even when empty) and writes
   * the prepared move of the name left after removing `<gesture>` (a name with no prepared move
   * raises KeyError); a tagged word holding "emotion" flushes and sets the emotion; any other
   * tagged word is dropped. A non-empty buffer is spoken at the end.
   */
  function Render(words: seq<string>, buf: string, prepared: map<string, Bottle>): Rendered
    decreases |words|
  {
    if words == [] then Rendered(if buf != "" then [Say(buf)] else [], false)
    else
      var k := words[0];
      if Plain(k) then Render(words[1..], buf + " " + k, prepared)
      else if Contains(k, "gesture") then
        var name := ReplaceAll(k, "<gesture>", "");
        if name !in prepared then Rendered([Say(buf)], true)
        else
          var rest := Render(words[1..], "", prepared);
          Rendered([Say(buf), BodyWrite(prepared[name])] + rest.events, rest.crashed)
      else if Contains(k, "emotion") then
        var rest := Render(words[1..], "", prepared);
        Rendered([Say(buf), SetEmotion(ReplaceAll(k, "<emotion>", ""))] + rest.events, rest.crashed)
      else Render(words[1..], buf, prepared)
  }

  /** The words of a sayThis text: every `/` deleted, then split at single spaces. */
  function TurnWords(say: string): seq<string> {
    SplitStr(ReplaceAll(say, "/", ""), " ")
  }

  /** A spoken turn: the tokenizer is paused, the words rendered, and the tokenizer resumed. */
  function SpeakTurn(s: Session, say: string, prepared: map<string, Bottle>): Session {
    var s1 := Toggle(s);
    var out := Render(TurnWords(say), "", prepared);
    var s2 := s1.(trace := s1.trace + out.events);
    if out.crashed then s2.(phase := Crashed) else Toggle(s2)
  }

  /**
   * `parse_chatbot_reply`: a missing or non-200 reply changes nothing. A 200 reply sets the state
   * to WAIT2TALK; a sayThis that is not ASCII then makes `str()` raise UnicodeEncodeError, which
   * ends the controller. Otherwise g1 and g2 (null as "") are stored as the expected grammars, the
   * directive is classified, and, when sayThis is neither empty nor "None", it is spoken as a turn
   * in state TALKING.
   */
  function Parse(s: Session, r: Option<Reply>, prepared: map<string, Bottle>): Session {
    if s.phase == Crashed || r.None? || r.value.NotOk? then s
    else if !Encodable(r.value) then s.(currState := Some(Wait2Talk), phase := Crashed)
    else
      var rep := r.value;
      var e := Expectation(rep.g1.GetOr(""), rep.g2.GetOr(""));
      var say := SayText(rep);
      var flags := Directive(say == "", e.g1, e.g2);
      var s1 := s.(currState := Some(Wait2Talk), script := Script(Some(e), flags.0, flags.1));
      if say != "" && say != "None" then SpeakTurn(s1.(currState := Some(Talking)), say, prepared)
      else s1
  }

  // ----- Inbound mailbox: respond -------------------------------------------------------------

  /** The session after an RPC request and the reply bottle. */
  datatype Answered = Answered(s: Session, reply: Bottle)

  /**
   * `respond`: "heartbeat" adds ack; "speaking" sets `agent_speaking` to whether the argument is
   * "start" and adds ack; then "spoken" with exactly one argument stores it as unprocessed text,
   * clears `agent_speaking` and adds ack, "spoken" of another size adds nack, "EXIT" adds ack, and
   * every other command (heartbeat and speaking included) adds nack and "Command not recognized".
   */
  function Respond(s: Session, cmd: Bottle): (a: Answered)
    ensures a.s == s.(mailbox := a.s.mailbox)
  {
    var action := Action(cmd);
    var r0: Bottle := if action == "heartbeat" then [Ack] else [];
    var m1 := if action == "speaking" then s.mailbox.(agentSpeaking := AsString(Get(cmd, 1)) == "start") else s.mailbox;
    var r1 := if action == "speaking" then r0 + [Ack] else r0;
    if action == "spoken" then
      if |cmd| == 2 then Answered(s.(mailbox := Mailbox(false, Some(AsString(Get(cmd, 1))), false)), r1 + [Ack])
      else Answered(s.(mailbox := m1), r1 + [Nack])
    else if action == "EXIT" then Answered(s.(mailbox := m1), r1 + [Ack])
    else Answered(s.(mailbox := m1), r1 + [Nack, NotRecognized])
  }

  // ----- The polling loop: updateModule -------------------------------------------------------

  /** `sleep(delay_sleep)`: `dt` milliseconds pass. */
  function Sleep(s: Session, dt: nat, next: Phase): Session {
    if s.phase == Crashed then s else s.(clock := s.clock + dt, phase := next)
  }

  /** Leaving `updateModule`: the next step starts it again. */
  function Return(s: Session): Session {
    if s.phase == Crashed then s else s.(phase := Start)
  }

  /** `if not processed_text: get_chatbot_reply(received_text); processed_text = True`. */
  function Process(s: Session, t: GrammarTable, reply: Reply): Session {
    if s.mailbox.processedText then s
    else
      var f := Gcr(s, t, TextOf(s.mailbox.receivedText), false, reply);
      if f.s.phase == Crashed then f.s else f.s.(mailbox := f.s.mailbox.(processedText := true))
  }

  /**
   * The test of the WAIT2TALK loop `while agent_speaking`: while the agent speaks, pending text is
   * processed and the loop sleeps; afterwards the text is sent again when a slot was detected, or
   * `getSayNext` is asked for, and the answer is parsed.
   */
  function TalkCheck(s: Session, dt: nat, reply: Reply, t: GrammarTable, prepared: map<string, Bottle>): Session {
    if s.mailbox.agentSpeaking then Sleep(Process(s, t, reply), dt, TalkWait)
    else
      var f := if s.det != NoSlots then Gcr(s, t, TextOf(s.mailbox.receivedText), false, reply)
               else Gcr(s, t, Act(GetSayNext), false, reply);
      Parse(Return(f.s), f.answer, prepared)
  }

  /**
   * The test of the WAIT2HEAR loop: it sleeps while fewer than `no_input` ms have passed and
   * nobody spoke; on the deadline `noinput` is sent and its answer parsed; once the agent speaks,
   * the HEARING loop starts with a fresh timer.
   */
  function HearCheck(s: Session, dt: nat, reply: Reply, t: GrammarTable, prepared: map<string, Bottle>): Session {
    if s.clock - s.startTime < NoInputTimeout && s.currState == Some(Wait2Hear) then Sleep(s, dt, HearWait)
    else if s.currState == Some(Wait2Hear) then
      var f := Gcr(s, t, Act(NoInput), false, reply);
      Parse(Return(f.s), f.answer, prepared)
    else ListenCheck(s.(startTime := s.clock), dt, reply, t, prepared)
  }

  /**
   * The test of the HEARING loop: while fewer than `no_match` ms have passed in state HEARING,
   * pending text is processed and the loop sleeps. If the state is still HEARING after the loop,
   * the text is sent on the timeout path, the mailbox and the slots are cleared, and the answer
   * is parsed.
   */
  function ListenCheck(s: Session, dt: nat, reply: Reply, t: GrammarTable, prepared: map<string, Bottle>): Session {
    if s.clock - s.startTime < NoMatchTimeout && s.currState == Some(Hearing) then Sleep(Process(s, t, reply), dt, Listening)
    else if s.currState == Some(Hearing) then
      var f := Gcr(s, t, TextOf(s.mailbox.receivedText), true, reply);
      if f.s.phase == Crashed then f.s
      else Parse(Return(f.s.(mailbox := f.s.mailbox.(receivedText := None), det := NoSlots)), f.answer, prepared)
    else Return(s)
  }

  /**
   * The rest of the HEARING loop body after its sleep: speaking restarts the timer; once more than
   * `heard` ms passed in silence with g1 detected, the planned reply is parsed and cleared, the
   * mailbox and the slots are cleared and the state becomes HEARD.
   */
  function AfterListenSleep(s: Session, prepared: map<string, Bottle>): Session {
    var s1 := if s.mailbox.agentSpeaking then s.(startTime := s.clock) else s;
    if s1.clock - s1.startTime > HeardTimeout && !s1.mailbox.agentSpeaking && s1.det.g1 != "" then Commit(s1, prepared)
    else s1
  }

  /** The heard commit: the mailbox text dropped, the planned reply parsed, then it and the slots cleared in state HEARD. */
  function Commit(s: Session, prepared: map<string, Bottle>): Session {
    var s2 := Parse(s.(mailbox := s.mailbox.(receivedText := None)), s.planned, prepared);
    if s2.phase == Crashed then s2
    else s2.(planned := None, det := NoSlots, currState := Some(HeardState))
  }

  /**
   * One step of `updateModule`: it runs from where the last step stopped up to the next `sleep`
   * (which lets `dt` ms pass) or to the end of `updateModule`. At most one request is sent in a
   * step, and `reply` is the backend's answer to it. Requests to `respond` happen between steps.
   */
  function Step(s: Session, dt: nat, reply: Reply, t: GrammarTable, prepared: map<string, Bottle>): Session {
    match s.phase
    case Crashed => s
    case Start =>
      if !s.script.waitForInput then TalkCheck(s.(det := NoSlots, currState := Some(Wait2Talk), startTime := s.clock), dt, reply, t, prepared)
      else HearCheck(s.(currState := Some(Wait2Hear), startTime := s.clock), dt, reply, t, prepared)
    case TalkWait => TalkCheck(s, dt, reply, t, prepared)
    case HearWait =>
      HearCheck(if s.mailbox.agentSpeaking then s.(currState := Some(Hearing)) else s, dt, reply, t, prepared)
    case Listening =>
      var s1 := AfterListenSleep(s, prepared);
      if s1.phase == Crashed then s1 else ListenCheck(s1, dt, reply, t, prepared)
  }

  /** `prepare_movement(name, delay, duration)`: the command sent to body control. */
  function PrepareMovement(name: string, delay: Option<string>, duration: bool): (cmd: Bottle)
    ensures |cmd| == (if delay.Some? then 3 else 2)
    ensures cmd[0] == Str(if duration then "getDuration" else "move") && cmd[1] == Str(name)
    ensures delay.Some? ==> cmd[2] == Str("delay=" + delay.value)
  {
    [Str(if duration then "getDuration" else "move"), Str(name)] + (if delay.Some? then [Str("delay=" + delay.value)] else [])
  }
}
