/**
 * The sentence tokenizer (sentence_tokenizer.py): an RPC switch `pause_tokenizer` that the
 * controller flips around its own speech, and the callback the audio tokenizer calls for each
 * stretch of acoustic activity, which writes "speaking", "spoken" or "classify" bottles to
 * `/sentence_tokenizer/audio:o`.
 */
module SentenceTokenizer {
  import opened Common
  import opened Text
  import opened Bottles

  /** What the Google Cloud recognizer gives for a chunk: a sentence, or one of the two errors the callback catches. */
  datatype Recognition = Recognized(sentence: string) | UnknownValue | RequestError

  /** `pause_tokenizer` after an RPC request: set by "pause", cleared by "resume", kept by anything else. */
  function PauseAfter(paused: bool, command: Bottle): bool {
    var action := Action(command);
    if action == "pause" then true else if action == "resume" then false else paused
  }

  /** Repeating a request leaves the switch where the first one put it. */
  lemma PauseAfterIdempotent(paused: bool, command: Bottle)
    ensures PauseAfter(PauseAfter(paused, command), command) == PauseAfter(paused, command)
  {
  }

  /** The start/stop notification written whatever the switch says. */
  function SpeakingMessage(starting: bool): Bottle {
    [Str("speaking"), Str(if starting then "start" else "stop")]
  }

  /** A recognized sentence. */
  function SpokenMessage(sentence: string): Bottle {
    [Str("spoken"), Str(sentence)]
  }

  /** The raw audio handed on for transcription when Google is not used. */
  function ClassifyMessage(data: string, rate: int): Bottle {
    [Str("classify"), Str(data), Int(rate)]
  }

  /** Is this bottle a recognized sentence? */
  predicate IsSpoken(b: Bottle) {
    |b| > 0 && b[0] == Str("spoken")
  }

  /** How many of the written bottles are recognized sentences. */
  function SpokenCount(out: seq<Bottle>): nat
    decreases |out|
  {
    if out == [] then 0 else (if IsSpoken(out[0]) then 1 else 0) + SpokenCount(out[1..])
  }

  /** Writing one more bottle adds one to the count exactly when it is a recognized sentence. */
  lemma {:induction false} SpokenCountAppend(out: seq<Bottle>, b: Bottle)
    ensures SpokenCount(out + [b]) == SpokenCount(out) + (if IsSpoken(b) then 1 else 0)
    decreases |out|
  {
    if out != [] {
      assert (out + [b])[1..] == out[1..] + [b];
      SpokenCountAppend(out[1..], b);
    } else {
      assert [b][1..] == [];
    }
  }

  class Tokenizer {
    var paused: bool           // pause_tokenizer
    var bdata: Option<string>  // bdata, the last chunk taken while not paused
    var numRecs: nat           // num_recs, the successful recognitions
    var out: seq<Bottle>       // the bottles written to the audio output port
    const useGoogle: bool      // use_google
    ghost var unwritten: nat   // recognitions counted but never written: `str()` of the sentence raised

    /**
     * Every successful recognition is counted once, and written once unless `str()` of its
     * sentence raised.
     */
    ghost predicate Valid()
      reads this
    {
      numRecs == SpokenCount(out) + unwritten
    }

    /** The module after `__init__`: not paused, nothing taken, nothing written. */
    constructor(useGoogle: bool)
      ensures Valid()
      ensures !paused && bdata.None? && numRecs == 0 && out == [] && this.useGoogle == useGoogle
      ensures unwritten == 0
    {
      paused := false;
      unwritten := 0;
      bdata := None;
      numRecs := 0;
      out := [];
      this.useGoogle := useGoogle;
    }

    /**
     * `respond`: "heartbeat" and "EXIT" are acknowledged, "pause" and "resume" set and clear the
     * switch and are acknowledged, anything else is not recognized.
     */
    method Respond(command: Bottle) returns (reply: Bottle)
      modifies this`paused
      ensures paused == PauseAfter(old(paused), command)
      ensures Action(command) == "pause" ==> paused
      ensures Action(command) == "resume" ==> !paused
      ensures Action(command) != "pause" && Action(command) != "resume" ==> paused == old(paused)
      ensures reply == if Action(command) in ["heartbeat", "pause", "resume", "EXIT"] then [Ack] else [Nack, NotRecognized]
    {
      var action := Action(command);
      if action == "heartbeat" {
        reply := [Ack];
      } else if action == "pause" {
        paused := true;
        reply := [Ack];
      } else if action == "resume" {
        paused := false;
        reply := [Ack];
      } else if action == "EXIT" {
        reply := [Ack];
      } else {
        reply := [Nack, NotRecognized];
      }
    }

    /**
     * `tok_callback(data, start, end, starting)`: without data, the start or stop of speech is
     * announced; with data while paused, nothing happens; otherwise the chunks are joined into
     * `bdata` and either recognized (a sentence counted and written, an error ignored) or handed
     * on as a "classify" bottle with the sampling rate. `rec` is the recognizer's answer. A
     * sentence that is not ASCII is counted, but `str()` raises UnicodeEncodeError before it is
     * written.
     */
    method Callback(data: Option<seq<string>>, starting: bool, rate: int, rec: Recognition)
      requires Valid()
      modifies this`bdata, this`numRecs, this`out, this`unwritten
      ensures Valid()
      ensures data.None? ==>
        out == old(out) + [SpeakingMessage(starting)] && bdata == old(bdata) && numRecs == old(numRecs)
      ensures data.Some? && paused ==>
        out == old(out) && bdata == old(bdata) && numRecs == old(numRecs)
      ensures data.Some? && !paused ==> bdata == Some(JoinStr(data.value, ""))
      ensures data.Some? && !paused && useGoogle ==>
        if rec.Recognized? then
          && numRecs == old(numRecs) + 1
          && out == (if IsAscii(rec.sentence) then old(out) + [SpokenMessage(rec.sentence)] else old(out))
        else out == old(out) && numRecs == old(numRecs)
      ensures unwritten == old(unwritten) +
        (if data.Some? && !paused && useGoogle && rec.Recognized? && !IsAscii(rec.sentence) then 1 else 0)
      ensures data.Some? && !paused && !useGoogle ==>
        out == old(out) + [ClassifyMessage(JoinStr(data.value, ""), rate)] && numRecs == old(numRecs)
    {
      if data.None? {
        SpokenCountAppend(out, SpeakingMessage(starting));
        out := out + [SpeakingMessage(starting)];
      } else if !paused {
        bdata := Some(JoinStr(data.value, ""));
        if useGoogle {
          if rec.Recognized? {
            numRecs := numRecs + 1;
            if IsAscii(rec.sentence) {
              SpokenCountAppend(out, SpokenMessage(rec.sentence));
              out := out + [SpokenMessage(rec.sentence)];
            } else {
              unwritten := unwritten + 1;
            }
          }
        } else {
          SpokenCountAppend(out, ClassifyMessage(bdata.value, rate));
          out := out + [ClassifyMessage(bdata.value, rate)];
        }
      }
    }
  }
}
