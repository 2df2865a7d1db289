/**
 * The offline transcriber (deepSpeechToText.py): "classify" requests queue recordings in
 * `list_of_classifications`, and each tick of `updateModule` transcribes the recording under the
 * cursor `currPos`, writing a "spoken" bottle to `/deepSpeechToText/text:o` for every non-empty
 * transcript.
 */
module SpeechToText {
  import opened Common
  import opened Bottles

  /** One queued entry `[data, rate]`: the raw 16-bit audio as a byte string and its sampling rate. */
  datatype Recording = Recording(data: string, rate: int)

  /**
   * `if len(data) % 2 != 0: data += '\0'`: the audio gets the even length `np.int16` needs,
   * by one zero byte at the end when it is odd.
   */
  function Padded(r: Recording): (p: Recording)
    ensures |p.data| % 2 == 0 && p.rate == r.rate
    ensures |r.data| <= |p.data| <= |r.data| + 1 && p.data[..|r.data|] == r.data
    ensures forall k :: |r.data| <= k < |p.data| ==> p.data[k] == '\0'
  {
    if |r.data| % 2 != 0 then r.(data := r.data + ['\0']) else r
  }

  /** Padding an even recording changes nothing, so a padded recording is padded once. */
  lemma PaddedTwice(r: Recording)
    ensures Padded(Padded(r)) == Padded(r)
  {
  }

  /** The bottle written for one recording: a "spoken" transcript when the model gives a non-empty one. */
  function Transcript(r: Recording, stt: Recording -> Option<string>): seq<Bottle> {
    var t := stt(r);
    if t.Some? && |t.value| != 0 then [[Str("spoken"), Str(t.value)]] else []
  }

  /** The bottles written for recordings transcribed in this order. */
  function Transcripts(rs: seq<Recording>, stt: Recording -> Option<string>): seq<Bottle>
    decreases |rs|
  {
    if rs == [] then [] else Transcript(rs[0], stt) + Transcripts(rs[1..], stt)
  }

  /** Transcribing one more recording adds its bottle at the end. */
  lemma {:induction false} TranscriptsAppend(rs: seq<Recording>, r: Recording, stt: Recording -> Option<string>)
    ensures Transcripts(rs + [r], stt) == Transcripts(rs, stt) + Transcript(r, stt)
    decreases |rs|
  {
    if rs == [] {
      assert [r][1..] == [];
    } else {
      assert (rs + [r])[1..] == rs[1..] + [r];
      TranscriptsAppend(rs[1..], r, stt);
    }
  }

  /** The queue and reply after an RPC request. */
  datatype Received = Received(queue: seq<Recording>, reply: Bottle)

  /**
   * `respond`: "heartbeat" and "EXIT" are acknowledged; "classify" with exactly three items
   * queues `[get(1).asString(), get(2).asInt()]` and is acknowledged, with another size it is
   * refused; anything else is not recognized. The queue only ever grows at the end.
   */
  function Receive(queue: seq<Recording>, command: Bottle): (r: Received)
    ensures |r.queue| >= |queue| && r.queue[..|queue|] == queue
    ensures Action(command) == "classify" && |command| == 3 <==> |r.queue| == |queue| + 1
    ensures |r.queue| == |queue| + 1 ==> r.queue[|queue|] == Recording(AsString(command[1]), AsInt(command[2]))
    ensures r.reply == [Ack] <==> Action(command) in ["heartbeat", "EXIT"] || (Action(command) == "classify" && |command| == 3)
  {
    var action := Action(command);
    if action == "heartbeat" then Received(queue, [Ack])
    else if action == "classify" then
      if |command| == 3 then Received(queue + [Recording(AsString(command[1]), AsInt(command[2]))], [Ack])
      else Received(queue, [Nack])
    else if action == "EXIT" then Received(queue, [Ack])
    else Received(queue, [Nack, NotRecognized])
  }

  class Transcriber {
    var queue: seq<Recording>   // list_of_classifications
    var currPos: nat            // currPos, the next entry to transcribe
    var out: seq<Bottle>        // the bottles written to the text output port
    const stt: Recording -> Option<string>  // the DeepSpeech model; None where it raises

    /**
     * The cursor never passes the end of the queue, every entry before it has been padded, and
     * the output is the transcripts of exactly those entries, in the order they arrived.
     */
    ghost predicate Valid()
      reads this
    {
      && currPos <= |queue|
      && (forall i :: 0 <= i < currPos ==> |queue[i].data| % 2 == 0)
      && out == Transcripts(queue[..currPos], stt)
    }

    /** The module after `__init__`: an empty queue and the cursor at its start. */
    constructor(stt: Recording -> Option<string>)
      ensures Valid() && queue == [] && currPos == 0 && out == [] && this.stt == stt
    {
      queue := [];
      currPos := 0;
      out := [];
      this.stt := stt;
    }

    /** `respond`, on the queue. */
    method Respond(command: Bottle) returns (reply: Bottle)
      requires Valid()
      modifies this`queue
      ensures Valid()
      ensures queue == Receive(old(queue), command).queue && reply == Receive(old(queue), command).reply
    {
      var action := Action(command);
      if action == "heartbeat" {
        reply := [Ack];
      } else if action == "classify" {
        if |command| == 3 {
          queue := queue + [Recording(AsString(Get(command, 1)), AsInt(Get(command, 2)))];
          assert queue[..currPos] == old(queue)[..currPos];
          reply := [Ack];
        } else {
          reply := [Nack];
        }
      } else if action == "EXIT" {
        reply := [Ack];
      } else {
        reply := [Nack, NotRecognized];
      }
    }

    /**
     * `updateModule`: when an entry is waiting, it is padded in place, transcribed, its transcript
     * written if not empty, and the cursor moves on by one whether or not the model raised;
     * otherwise nothing changes.
     */
    method UpdateModule()
      requires Valid()
      modifies this`queue, this`currPos, this`out
      ensures Valid()
      ensures old(currPos) < |old(queue)| ==>
        && currPos == old(currPos) + 1
        && queue == old(queue)[old(currPos) := Padded(old(queue)[old(currPos)])]
        && out == old(out) + Transcript(Padded(old(queue)[old(currPos)]), stt)
      ensures old(currPos) >= |old(queue)| ==> currPos == old(currPos) && queue == old(queue) && out == old(out)
    {
      if currPos < |queue| {
        var recording := queue[currPos];
        if |recording.data| % 2 != 0 {
          recording := recording.(data := recording.data + ['\0']);
          queue := queue[currPos := recording];
        }
        var t := stt(recording);
        if t.Some? && |t.value| != 0 {
          out := out + [[Str("spoken"), Str(t.value)]];
        }
        assert queue[..currPos + 1] == old(queue)[..currPos] + [recording];
        TranscriptsAppend(old(queue)[..currPos], recording, stt);
        currPos := currPos + 1;
      }
    }
  }
}
