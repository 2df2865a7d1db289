/**
 * How the four modules talk to each other: the controller's `toggle_tokenizer` words drive the
 * tokenizer's switch, the commands `prepare_movement` builds are the ones body control parses,
 * the tokenizer's "classify" bottles are the transcriber's queue entries, and the "speaking" and
 * "spoken" bottles of the tokenizer and the transcriber are what the controller's mailbox reads.
 */
module Integration {
  import opened Common
  import opened Text
  import opened Bottles
  import Dialogue
  import DialogueProps
  import BodyControl
  import SentenceTokenizer
  import SpeechToText

  /** The request a tokenizer write carries over RPC. */
  function WriteCommand(e: Dialogue.Event): Bottle
    requires e.TokenizerWrite?
  {
    [Str(e.word)]
  }

  /**
   * The controller's `tokenizer_state` is the negation of the tokenizer's `pause_tokenizer`, and
   * each toggle, delivered, keeps it so.
   */
  lemma ToggleKeepsSwitchInStep(s: Dialogue.Session, paused: bool)
    requires paused == !s.tokenizerOn
    ensures var t := Dialogue.Toggle(s);
      && t.trace == s.trace + [t.trace[|s.trace|]] && t.trace[|s.trace|].TokenizerWrite?
      && SentenceTokenizer.PauseAfter(paused, WriteCommand(t.trace[|s.trace|])) == !t.tokenizerOn
  {
  }

  /**
   * Over a spoken turn that rendered to the end, the two tokenizer writes keep the tokenizer
   * paused for exactly the rendered events when it was running, and leave both switches as they were.
   */
  lemma TurnPausesTokenizer(s: Dialogue.Session, say: string, prepared: map<string, Bottle>, paused: bool)
    requires paused == !s.tokenizerOn
    requires !Dialogue.Render(Dialogue.TurnWords(say), "", prepared).crashed
    ensures var s2 := Dialogue.SpeakTurn(s, say, prepared);
      var added := s2.trace[|s.trace|..];
      var events := Dialogue.Render(Dialogue.TurnWords(say), "", prepared).events;
      && |s.trace| <= |s2.trace| && |added| == |events| + 2
      && added[0].TokenizerWrite? && added[|added| - 1].TokenizerWrite?
      && added[1..|added| - 1] == events
      && SentenceTokenizer.PauseAfter(paused, WriteCommand(added[0])) == s.tokenizerOn
      && SentenceTokenizer.PauseAfter(SentenceTokenizer.PauseAfter(paused, WriteCommand(added[0])), WriteCommand(added[|added| - 1])) == paused
      && s2.tokenizerOn == s.tokenizerOn
  {
    DialogueProps.SpeakTurnBracket(s, say, prepared);
    var s2 := Dialogue.SpeakTurn(s, say, prepared);
    var events := Dialogue.Render(Dialogue.TurnWords(say), "", prepared).events;
    var added := s2.trace[|s.trace|..];
    assert added == [added[0]] + events + [added[|added| - 1]];
    assert added[1..|added| - 1] == events;
  }

  /** `s.replace("delay=", "")` on the text `prepare_movement` wrote gives back the delay. */
  lemma DelayTextReadBack(d: string)
    requires !Contains(d, "delay=")
    ensures ReplaceAll("delay=" + d, "delay=", "") == d
  {
    var s := "delay=" + d;
    assert s[..6] == "delay=";
    assert s[6..] == d;
    assert Find(s, "delay=") == Some(0);
    assert SplitStr(d, "delay=") == [d];
    assert s[..0] == "";
    assert SplitStr(s, "delay=") == ["", d];
    assert JoinStr(["", d], "") == "" + "" + JoinStr([d], "");
  }

  /**
   * A command built by `prepare_movement` reaches `do_action` as built: its word and gesture name
   * are read back, "mirror" is never set, and the delay is the one given (when it does not itself
   * contain "delay=").
   */
  lemma PreparedMoveParses(name: string, delay: Option<string>, duration: bool)
    requires delay.Some? ==> !Contains(delay.value, "delay=")
    ensures var cmd := Dialogue.PrepareMovement(name, delay, duration);
      && Action(cmd) == (if duration then "getDuration" else "move")
      && |cmd| >= 2 && AsString(cmd[1]) == name
      && BodyControl.ParseArgs(cmd) == BodyControl.MoveArgs(false, delay)
  {
    var cmd := Dialogue.PrepareMovement(name, delay, duration);
    var list := BodyControl.ArgsList(cmd);
    if delay.Some? {
      var arg := "delay=" + delay.value;
      assert list == [arg];
      assert arg[..6] == "delay=";
      assert OccursAt(arg, "delay=", 0);
      assert arg[0] != "mirror"[0];
      DelayTextReadBack(delay.value);
      assert BodyControl.FirstDelay(list[1..]) == None;
    } else {
      assert list == [];
    }
  }

  /** The tokenizer's "classify" bottle is queued by the transcriber as the recording it carries. */
  lemma ClassifyIsQueued(queue: seq<SpeechToText.Recording>, data: string, rate: int)
    ensures SpeechToText.Receive(queue, SentenceTokenizer.ClassifyMessage(data, rate))
         == SpeechToText.Received(queue + [SpeechToText.Recording(data, rate)], [Ack])
  {
  }

  /**
   * A "spoken" bottle, from the tokenizer or the transcriber, leaves the sentence as unprocessed
   * text for the controller and marks the agent silent; a "speaking" bottle sets whether the
   * agent speaks, and (the branch for "speaking" falling through to the final else) is answered
   * with an ack followed by a nack.
   */
  lemma SpeechReachesController(s: Dialogue.Session, sentence: string, starting: bool)
    ensures Dialogue.Respond(s, SentenceTokenizer.SpokenMessage(sentence))
         == Dialogue.Answered(s.(mailbox := Dialogue.Mailbox(false, Some(sentence), false)), [Ack])
    ensures Dialogue.Respond(s, SentenceTokenizer.SpeakingMessage(starting))
         == Dialogue.Answered(s.(mailbox := s.mailbox.(agentSpeaking := starting)), [Ack, Nack, NotRecognized])
    ensures forall r: SpeechToText.Recording, stt: SpeechToText.Recording -> Option<string> ::
      SpeechToText.Transcript(r, stt) != [] ==>
        SpeechToText.Transcript(r, stt)[0] == SentenceTokenizer.SpokenMessage(stt(r).value)
  {
  }
}
