/**
 * The body-control RPC server (icubBodyControl.py): the gesture store, the `move` and
 * `getDuration` commands, the arguments they take (`mirror`, `delay=`), the conversion of a
 * gesture into timed ctpService position commands per body part, and `check_add`.
 */
module BodyControl {
  import opened Common
  import opened Text
  import opened Bottles

  /** The four body parts the server drives, in the order of `self.parts`. */
  const Parts: seq<string> := ["head", "left_arm", "right_arm", "torso"]

  /** One part of a stored gesture: the timing of each position and the joint values of each position. */
  datatype PartMotion = PartMotion(durations: seq<real>, positions: seq<seq<real>>)

  /** A stored gesture: the motion of each body part it moves. */
  type Gesture = map<string, PartMotion>

  /** One ctpService `[ctpq] [time] d [off] 0 [pos] (...)` command, with the time it ends at. */
  datatype CtpCommand = CtpCommand(time: real, duration: real, pos: seq<real>)

  /** The commands produced for each (possibly mirrored) part. */
  type MessageList = map<string, seq<CtpCommand>>

  // ----- check_add ----------------------------------------------------------------------------

  /**
   * `check_add(dict_add, key_add, type_add)` on a dictionary value (None standing for an argument
   * that is not a dictionary).
   */
  function CheckAdd<V>(d: Option<map<string, V>>, key: string, v: V): (r: Option<map<string, V>>)
    ensures r.None? <==> d.None?
    ensures r.Some? ==> key in r.value && r.value.Keys == d.value.Keys + {key}
    ensures r.Some? ==> forall k :: k in d.value ==> r.value[k] == d.value[k]
    ensures r.Some? && key !in d.value ==> r.value[key] == v
  {
    if d.None? then d
    else if key !in d.value then Some(d.value[key := v])
    else d
  }

  /** Adding a key that is already there does nothing: `check_add` twice is `check_add` once. */
  lemma CheckAddTwice<V>(d: Option<map<string, V>>, key: string, v: V, w: V)
    ensures CheckAdd(CheckAdd(d, key, v), key, w) == CheckAdd(d, key, v)
  {
  }

  // ----- construct_ctp_message ----------------------------------------------------------------

  /** `sum(xs)`, added from the left. */
  function Sum(xs: seq<real>): real
    decreases |xs|
  {
    if xs == [] then 0.0 else Sum(xs[..|xs| - 1]) + xs[|xs| - 1]
  }

  /** The sum of a prefix one longer adds the next element. */
  lemma SumStep(xs: seq<real>, n: nat)
    requires n < |xs|
    ensures Sum(xs[..n + 1]) == Sum(xs[..n]) + xs[n]
  {
    assert xs[..n + 1][..n] == xs[..n];
  }

  /** Joint values moved by an offset: `map(add, pos, offset)`, defined for equal lengths only. */
  function Shift(pos: seq<real>, offset: Option<seq<real>>): (r: seq<real>)
    requires offset.Some? ==> |pos| == |offset.value|
    ensures |r| == |pos|
    ensures forall i :: 0 <= i < |pos| ==> r[i] == pos[i] + (if offset.Some? then offset.value[i] else 0.0)
  {
    if offset.None? then pos else seq(|pos|, i requires 0 <= i < |pos| => pos[i] + offset.value[i])
  }

  /**
   * The message can be built: there is a position for every duration (else `positions[n]` raises
   * IndexError) and an offset has as many values as each position (else Python 2's `map` pads
   * with None and `add` raises TypeError).
   */
  predicate CtpDefined(duration: seq<real>, positions: seq<seq<real>>, offset: Option<seq<real>>) {
    && |duration| <= |positions|
    && (offset.Some? ==> forall n :: 0 <= n < |duration| ==> |positions[n]| == |offset.value|)
  }

  /** Entry n of the message: it ends at the sum of the first n + 1 durations. */
  function CtpEntry(duration: seq<real>, positions: seq<seq<real>>, offset: Option<seq<real>>, n: nat): CtpCommand
    requires n < |duration| && n < |positions| && (offset.Some? ==> |positions[n]| == |offset.value|)
  {
    CtpCommand(Sum(duration[..n + 1]), duration[n], Shift(positions[n], offset))
  }

  /** The message `construct_ctp_message` builds. */
  function CtpMessage(duration: seq<real>, positions: seq<seq<real>>, offset: Option<seq<real>>): (msg: seq<CtpCommand>)
    requires CtpDefined(duration, positions, offset)
    ensures |msg| == |duration|
  {
    seq(|duration|, n requires 0 <= n < |duration| => CtpEntry(duration, positions, offset, n))
  }

  /**
   * `construct_ctp_message(duration, positions, offset)`: the running total `time_total` is the end
   * time of each command; None when the source raises.
   */
  method ConstructCtpMessage(duration: seq<real>, positions: seq<seq<real>>, offset: Option<seq<real>>)
    returns (msg: Option<seq<CtpCommand>>)
    ensures msg.Some? <==> CtpDefined(duration, positions, offset)
    ensures msg.Some? ==> msg.value == CtpMessage(duration, positions, offset)
  {
    var out: seq<CtpCommand> := [];
    var timeTotal: real := 0.0;
    var n := 0;
    while n < |duration|
      invariant 0 <= n <= |duration| && n <= |positions|
      invariant timeTotal == Sum(duration[..n])
      invariant offset.Some? ==> forall k :: 0 <= k < n ==> |positions[k]| == |offset.value|
      invariant |out| == n
      invariant forall k :: 0 <= k < n ==> out[k] == CtpEntry(duration, positions, offset, k)
    {
      SumStep(duration, n);
      timeTotal := timeTotal + duration[n];
      if n >= |positions| {
        return None;
      }
      var pos := positions[n];
      if offset.Some? && |pos| != |offset.value| {
        return None;
      }
      out := out + [CtpCommand(timeTotal, duration[n], Shift(pos, offset))];
      assert out[n] == CtpEntry(duration, positions, offset, n);
      n := n + 1;
    }
    return Some(out);
  }

  /** Each command ends one duration after the previous one; the first ends after the first duration. */
  lemma CtpTimesAccumulate(duration: seq<real>, positions: seq<seq<real>>, offset: Option<seq<real>>, n: nat)
    requires CtpDefined(duration, positions, offset) && n < |duration|
    ensures var msg := CtpMessage(duration, positions, offset);
      msg[n].time == (if n == 0 then 0.0 else msg[n - 1].time) + duration[n]
  {
    assert duration[..n + 1][..n] == duration[..n];
    assert Sum(duration[..n + 1]) == Sum(duration[..n]) + duration[n];
    if n > 0 {
      assert duration[..n][..n - 1] == duration[..n - 1];
      assert Sum(duration[..n]) == Sum(duration[..n - 1]) + duration[n - 1];
    }
  }

  /** The last command ends at the total of the durations. */
  lemma CtpLastTime(duration: seq<real>, positions: seq<seq<real>>, offset: Option<seq<real>>)
    requires CtpDefined(duration, positions, offset) && |duration| > 0
    ensures CtpMessage(duration, positions, offset)[|duration| - 1].time == Sum(duration)
  {
    assert duration[..|duration|] == duration;
  }

  /** With durations that are not negative, the end times never go down. */
  lemma {:induction false} CtpTimesOrdered(duration: seq<real>, positions: seq<seq<real>>, offset: Option<seq<real>>, i: nat, j: nat)
    requires CtpDefined(duration, positions, offset) && i <= j < |duration|
    requires forall k :: 0 <= k < |duration| ==> duration[k] >= 0.0
    ensures CtpMessage(duration, positions, offset)[i].time <= CtpMessage(duration, positions, offset)[j].time
    decreases j - i
  {
    if i < j {
      CtpTimesOrdered(duration, positions, offset, i, j - 1);
      CtpTimesAccumulate(duration, positions, offset, j);
    }
  }

  // ----- do_action: arguments, mirroring, offsets, the delay ----------------------------------

  /** `args_list`: the arguments after the command word and the gesture name, as strings. */
  function ArgsList(args: Bottle): (r: seq<string>)
    ensures |r| == if |args| > 2 then |args| - 2 else 0
    ensures forall i :: 0 <= i < |r| ==> r[i] == AsString(args[i + 2])
  {
    if |args| > 2 then seq(|args| - 2, i requires 0 <= i < |args| - 2 => AsString(args[i + 2])) else []
  }

  /** The first argument holding "delay=", with every "delay=" removed from it. */
  function FirstDelay(list: seq<string>): (r: Option<string>)
    ensures r.None? <==> forall i :: 0 <= i < |list| ==> !Contains(list[i], "delay=")
    ensures r.Some? ==> exists i :: 0 <= i < |list| && Contains(list[i], "delay=")
                                    && r.value == ReplaceAll(list[i], "delay=", "")
                                    && forall j :: 0 <= j < i ==> !Contains(list[j], "delay=")
    decreases |list|
  {
    if list == [] then None
    else if Contains(list[0], "delay=") then Some(ReplaceAll(list[0], "delay=", ""))
    else
      var r := FirstDelay(list[1..]);
      assert forall i :: 0 < i < |list| ==> list[i] == list[1..][i - 1];
      r
  }

  /** The options of a `move`/`getDuration` request: whether "mirror" is among them, and the delay text. */
  datatype MoveArgs = MoveArgs(mirror: bool, delay: Option<string>)

  function ParseArgs(args: Bottle): (r: MoveArgs)
    ensures r.mirror <==> exists l :: 2 <= l < |args| && AsString(args[l]) == "mirror"
  {
    var list := ArgsList(args);
    assert forall l :: 2 <= l < |args| ==> list[l - 2] == AsString(args[l]);
    MoveArgs("mirror" in list, FirstDelay(list))
  }

  /** The part a part's commands go to: with mirroring, the two arms swap and the rest stay. */
  function MirrorName(part: string, mirror: bool): string {
    if mirror && Contains(part, "arm") then (if part == "left_arm" then "right_arm" else "left_arm") else part
  }

  /** Which of the four parts have "arm" in their name. */
  lemma ArmParts(part: string)
    requires part in Parts
    ensures Contains(part, "arm") <==> part == "left_arm" || part == "right_arm"
  {
    if part == "left_arm" {
      assert OccursAt(part, "arm", 5);
    } else if part == "right_arm" {
      assert OccursAt(part, "arm", 6);
    } else {
      forall j | 0 <= j && j + 3 <= |part|
        ensures !OccursAt(part, "arm", j)
      {
        assert part[j] != 'a';
        assert part[j..j + 3][0] == part[j];
      }
    }
  }

  /** Mirroring is a swap of the two arms: it undoes itself on the four parts. */
  lemma MirrorTwice(part: string, mirror: bool)
    requires part in Parts
    ensures MirrorName(MirrorName(part, mirror), mirror) == part
    ensures MirrorName(part, mirror) in Parts
    ensures mirror && part == "left_arm" ==> MirrorName(part, mirror) == "right_arm"
    ensures mirror && part == "right_arm" ==> MirrorName(part, mirror) == "left_arm"
    ensures part == "head" || part == "torso" || !mirror ==> MirrorName(part, mirror) == part
  {
    ArmParts(part);
    ArmParts("left_arm");
    ArmParts("right_arm");
  }

  /**
   * The offset added to a part's positions: the current head position for the head; for another
   * part the current position when `all(v == 0.0 for v in positions)` holds, which, as each `v` is
   * a list and never equals 0.0, is only when there are no positions; otherwise none.
   */
  function Offset(part: string, m: PartMotion, current: string -> seq<real>): Option<seq<real>> {
    if part == "head" then Some(current("head"))
    else if |m.positions| == 0 then Some(current(part))
    else None
  }

  /** `curr_action[part]['durations'][0] = init_duration`, when there is a delay. */
  function Delayed(m: PartMotion, init: Option<real>): PartMotion
    requires init.Some? ==> |m.durations| > 0
  {
    if init.Some? then m.(durations := m.durations[0 := init.value]) else m
  }

  /** What converting the parts of a gesture leaves: the stored gesture, the messages, and whether no exception was raised. */
  datatype Converted = Converted(gesture: Gesture, msgs: MessageList, ok: bool)

  /**
   * The loop of `do_action` over the parts: each part of the gesture gets the delay as its first
   * duration (IndexError when it has none), then its messages, stored under its mirrored name.
   * The delay written into the stored gesture stays there even when a later step raises.
   */
  function Convert(g: Gesture, parts: seq<string>, mirror: bool, init: Option<real>,
                   current: string -> seq<real>, msgs: MessageList): Converted
    decreases |parts|
  {
    if parts == [] then Converted(g, msgs, true)
    else
      var p := parts[0];
      if p !in g then Convert(g, parts[1..], mirror, init, current, msgs)
      else if init.Some? && |g[p].durations| == 0 then Converted(g, msgs, false)
      else
        var m := Delayed(g[p], init);
        var off := Offset(p, g[p], current);
        var g1 := g[p := m];
        if !CtpDefined(m.durations, m.positions, off) then Converted(g1, msgs, false)
        else Convert(g1, parts[1..], mirror, init, current, msgs[MirrorName(p, mirror) := CtpMessage(m.durations, m.positions, off)])
  }

  /** No body part is listed twice. */
  ghost predicate Distinct(parts: seq<string>) {
    forall i, j :: 0 <= i < j < |parts| ==> parts[i] != parts[j]
  }

  /** A part converts without raising: it has a first duration to replace, and its message is defined. */
  predicate PartConverts(p: string, m: PartMotion, init: Option<real>, current: string -> seq<real>) {
    && (init.Some? ==> |m.durations| > 0)
    && CtpDefined(Delayed(m, init).durations, m.positions, Offset(p, m, current))
  }

  /** The commands a part of a stored gesture becomes. */
  function PartMessage(p: string, m: PartMotion, init: Option<real>, current: string -> seq<real>): seq<CtpCommand>
    requires PartConverts(p, m, init, current)
  {
    CtpMessage(Delayed(m, init).durations, m.positions, Offset(p, m, current))
  }

  /** The conversion raises exactly when one of the parts the gesture has does not convert. */
  lemma {:induction false} ConvertOk(g: Gesture, parts: seq<string>, mirror: bool, init: Option<real>,
                                     current: string -> seq<real>, msgs: MessageList)
    requires Distinct(parts)
    ensures Convert(g, parts, mirror, init, current, msgs).ok <==>
            forall i :: 0 <= i < |parts| && parts[i] in g ==> PartConverts(parts[i], g[parts[i]], init, current)
    decreases |parts|
  {
    if parts != [] {
      var p := parts[0];
      assert forall i :: 0 < i < |parts| ==> parts[i] == parts[1..][i - 1] && parts[i] != p;
      if p !in g {
        ConvertOk(g, parts[1..], mirror, init, current, msgs);
      } else if PartConverts(p, g[p], init, current) {
        var m := Delayed(g[p], init);
        ConvertOk(g[p := m], parts[1..], mirror, init, current,
                  msgs[MirrorName(p, mirror) := CtpMessage(m.durations, m.positions, Offset(p, g[p], current))]);
      }
    }
  }

  /** The conversion keeps the parts of the stored gesture. */
  lemma {:induction false} ConvertStoreKeys(g: Gesture, parts: seq<string>, mirror: bool, init: Option<real>,
                                            current: string -> seq<real>, msgs: MessageList)
    ensures Convert(g, parts, mirror, init, current, msgs).gesture.Keys == g.Keys
    decreases |parts|
  {
    if parts != [] {
      var p := parts[0];
      if p !in g {
        ConvertStoreKeys(g, parts[1..], mirror, init, current, msgs);
      } else if PartConverts(p, g[p], init, current) {
        var m := Delayed(g[p], init);
        ConvertStoreKeys(g[p := m], parts[1..], mirror, init, current,
                         msgs[MirrorName(p, mirror) := CtpMessage(m.durations, m.positions, Offset(p, g[p], current))]);
      }
    }
  }

  /**
   * What the conversion leaves of one part of the stored gesture: the part as it was, or with its
   * first duration replaced by the delay; when nothing raised, every converted part has the delay.
   */
  lemma {:induction false} ConvertStore(g: Gesture, parts: seq<string>, mirror: bool, init: Option<real>,
                                        current: string -> seq<real>, msgs: MessageList, p: string)
    requires Distinct(parts) && p in g
    ensures var c := Convert(g, parts, mirror, init, current, msgs);
      && p in c.gesture
      && (p !in parts ==> c.gesture[p] == g[p])
      && (c.gesture[p] == g[p] || (p in parts && init.Some? && |g[p].durations| > 0 && c.gesture[p] == Delayed(g[p], init)))
      && (c.ok && p in parts ==> PartConverts(p, g[p], init, current) && c.gesture[p] == Delayed(g[p], init))
    decreases |parts|
  {
    ConvertStoreKeys(g, parts, mirror, init, current, msgs);
    if parts != [] {
      var q := parts[0];
      assert forall i :: 0 <= i < |parts[1..]| ==> parts[1..][i] == parts[i + 1];
      assert p in parts ==> p == q || p in parts[1..];
      if q !in g {
        ConvertStore(g, parts[1..], mirror, init, current, msgs, p);
      } else if PartConverts(q, g[q], init, current) {
        var m := Delayed(g[q], init);
        var g1 := g[q := m];
        ConvertStore(g1, parts[1..], mirror, init, current,
                     msgs[MirrorName(q, mirror) := CtpMessage(m.durations, m.positions, Offset(q, g[q], current))], p);
        if p == q {
          assert q !in parts[1..];
        }
      }
    }
  }

  /** The names the parts of `parts` that the gesture has are sent to. */
  function Mirrored(parts: seq<string>, g: Gesture, mirror: bool): set<string> {
    set p | p in parts && p in g :: MirrorName(p, mirror)
  }

  /** A conversion that did not raise adds one entry per part the gesture has, under the part's mirrored name. */
  lemma {:induction false} ConvertKeys(g: Gesture, parts: seq<string>, mirror: bool, init: Option<real>,
                                       current: string -> seq<real>, msgs: MessageList)
    requires Convert(g, parts, mirror, init, current, msgs).ok
    ensures Convert(g, parts, mirror, init, current, msgs).msgs.Keys == msgs.Keys + Mirrored(parts, g, mirror)
    decreases |parts|
  {
    if parts != [] {
      var p := parts[0];
      if p !in g {
        MirroredCons(parts, g, mirror, g);
        ConvertKeys(g, parts[1..], mirror, init, current, msgs);
      } else {
        var m := Delayed(g[p], init);
        var g1 := g[p := m];
        MirroredCons(parts, g, mirror, g1);
        ConvertKeys(g1, parts[1..], mirror, init, current,
                    msgs[MirrorName(p, mirror) := CtpMessage(m.durations, m.positions, Offset(p, g[p], current))]);
      }
    }
  }

  /** The names of a list of parts: those of its first part, if the gesture has it, and of the rest. */
  lemma MirroredCons(parts: seq<string>, g: Gesture, mirror: bool, g1: Gesture)
    requires parts != [] && g1.Keys == g.Keys
    ensures Mirrored(parts, g, mirror)
         == (if parts[0] in g then {MirrorName(parts[0], mirror)} else {}) + Mirrored(parts[1..], g1, mirror)
  {
    assert forall q :: q in parts <==> q == parts[0] || q in parts[1..];
  }

  /** Entries no part of the gesture is sent to are left as they were. */
  lemma {:induction false} ConvertKeeps(g: Gesture, parts: seq<string>, mirror: bool, init: Option<real>,
                                        current: string -> seq<real>, msgs: MessageList, k: string)
    requires Convert(g, parts, mirror, init, current, msgs).ok
    requires k in msgs && k !in Mirrored(parts, g, mirror)
    ensures k in Convert(g, parts, mirror, init, current, msgs).msgs
    ensures Convert(g, parts, mirror, init, current, msgs).msgs[k] == msgs[k]
    decreases |parts|
  {
    if parts != [] {
      var p := parts[0];
      assert forall q :: q in parts[1..] ==> q in parts;
      if p !in g {
        ConvertKeeps(g, parts[1..], mirror, init, current, msgs, k);
      } else {
        var m := Delayed(g[p], init);
        var g1 := g[p := m];
        assert MirrorName(p, mirror) in Mirrored(parts, g, mirror);
        assert Mirrored(parts[1..], g1, mirror) <= Mirrored(parts, g, mirror);
        ConvertKeeps(g1, parts[1..], mirror, init, current,
                     msgs[MirrorName(p, mirror) := CtpMessage(m.durations, m.positions, Offset(p, g[p], current))], k);
      }
    }
  }

  /** A conversion that did not raise sends each part the gesture has its own commands, under its mirrored name. */
  lemma {:induction false} ConvertMessages(g: Gesture, parts: seq<string>, mirror: bool, init: Option<real>,
                                           current: string -> seq<real>, msgs: MessageList, p: string)
    requires Distinct(parts) && forall i :: 0 <= i < |parts| ==> parts[i] in Parts
    requires Convert(g, parts, mirror, init, current, msgs).ok
    requires p in parts && p in g
    ensures PartConverts(p, g[p], init, current)
    ensures MirrorName(p, mirror) in Convert(g, parts, mirror, init, current, msgs).msgs
    ensures Convert(g, parts, mirror, init, current, msgs).msgs[MirrorName(p, mirror)] == PartMessage(p, g[p], init, current)
    decreases |parts|
  {
    var q := parts[0];
    if q !in g {
      assert p in parts[1..];
      ConvertMessages(g, parts[1..], mirror, init, current, msgs, p);
    } else {
      assert PartConverts(q, g[q], init, current);
      var m := Delayed(g[q], init);
      var g1 := g[q := m];
      var msgs1 := msgs[MirrorName(q, mirror) := PartMessage(q, g[q], init, current)];
      assert forall i :: 0 <= i < |parts[1..]| ==> parts[1..][i] == parts[i + 1];
      if p == q {
        assert q !in parts[1..];
        MirrorTwice(q, mirror);
        forall r | r in parts[1..] && r in g1
          ensures MirrorName(r, mirror) != MirrorName(q, mirror)
        {
          MirrorTwice(r, mirror);
        }
        ConvertKeeps(g1, parts[1..], mirror, init, current, msgs1, MirrorName(q, mirror));
      } else {
        assert p in parts[1..];
        ConvertMessages(g1, parts[1..], mirror, init, current, msgs1, p);
      }
    }
  }

  /** The outcome of `do_action`: an exception, the moves sent, or the duration computed. */
  datatype Outcome = Failed | Moved | Duration(seconds: real)

  /** The end time of the last command of each part that has messages, in part order. */
  function LastTimes(msgs: MessageList, parts: seq<string>): (r: Option<seq<real>>)
    ensures r.Some? ==> |r.value| <= |parts|
    decreases |parts|
  {
    if parts == [] then Some([])
    else
      var rest := LastTimes(msgs, parts[1..]);
      if rest.None? then None
      else if parts[0] !in msgs then rest
      else if |msgs[parts[0]]| == 0 then None
      else Some([msgs[parts[0]][|msgs[parts[0]]| - 1].time] + rest.value)
  }

  /** Python's `max` of a non-empty list. */
  function Max(xs: seq<real>): (r: real)
    requires |xs| > 0
    ensures forall i :: 0 <= i < |xs| ==> xs[i] <= r
    ensures exists i :: 0 <= i < |xs| && xs[i] == r
  {
    if |xs| == 1 then xs[0]
    else
      var m := Max(xs[1..]);
      assert forall i :: 1 <= i < |xs| ==> xs[i] == xs[1..][i - 1];
      if xs[0] >= m then xs[0] else m
  }

  /** `max([m[-1][0] for k, m in msg_list.iteritems()])`: None when a list is empty (IndexError) or there is none (ValueError). */
  function MaxEnd(msgs: MessageList): Option<real> {
    var times := LastTimes(msgs, Parts);
    if times.None? || |times.value| == 0 then None else Some(Max(times.value))
  }

  /** `init_duration`: the delay as a number, None when there is no delay or `float` rejects it. */
  function Init(a: MoveArgs, toFloat: string -> Option<real>): Option<real> {
    if a.delay.Some? then toFloat(a.delay.value) else None
  }

  /** What `do_action` leaves: the gesture store, the messages sent to ctpService if any, and the outcome. */
  datatype Acted = Acted(store: map<string, Gesture>, sends: Option<MessageList>, outcome: Outcome)

  /**
   * `do_action` on the gesture store, once its arguments are parsed: a delay that `float` rejects
   * (`badDelay`) raises before anything changes; otherwise the parts are converted (the delay kept
   * in the store even when a later part raises), a `move` sends the messages and anything else
   * yields the latest end time.
   */
  function Run(store: map<string, Gesture>, name: string, mirror: bool, badDelay: bool, init: Option<real>,
               move: bool, current: string -> seq<real>): Acted
  {
    if name !in store || badDelay then Acted(store, None, Failed)
    else
      var c := Convert(store[name], Parts, mirror, init, current, map[]);
      var stored := store[name := c.gesture];
      if !c.ok then Acted(stored, None, Failed)
      else if move then Acted(stored, Some(c.msgs), Moved)
      else Acted(stored, None, if MaxEnd(c.msgs).None? then Failed else Duration(MaxEnd(c.msgs).value))
  }

  /** `do_action(action_name, args)`: the arguments parsed, then `Run`. */
  function Act(store: map<string, Gesture>, name: string, args: Bottle,
               toFloat: string -> Option<real>, current: string -> seq<real>): Acted
  {
    var a := ParseArgs(args);
    Run(store, name, a.mirror, a.delay.Some? && Init(a, toFloat).None?, Init(a, toFloat), Action(args) == "move", current)
  }

  /** The four parts are distinct. */
  lemma PartsDistinct()
    ensures Distinct(Parts)
  {
  }

  /** The time the last command of a non-empty message list ends at (`m[-1][0]`). */
  function EndTime(cmds: seq<CtpCommand>): real
    requires |cmds| > 0
  {
    cmds[|cmds| - 1].time
  }

  /**
   * `LastTimes` fails exactly when a listed part has an empty message list, is empty exactly when
   * no listed part has messages, and otherwise holds the end time of every listed part and nothing else.
   */
  lemma {:induction false} LastTimesSpec(msgs: MessageList, parts: seq<string>)
    ensures var r := LastTimes(msgs, parts);
      && (r.None? <==> exists k :: k in parts && k in msgs && |msgs[k]| == 0)
      && (r.Some? ==> (|r.value| == 0 <==> forall k :: k in parts ==> k !in msgs))
      && (r.Some? ==> forall k :: k in parts && k in msgs ==> |msgs[k]| > 0 && EndTime(msgs[k]) in r.value)
      && (r.Some? ==> forall t :: t in r.value ==> exists k :: k in parts && k in msgs && |msgs[k]| > 0 && t == EndTime(msgs[k]))
    decreases |parts|
  {
    if parts != [] {
      LastTimesSpec(msgs, parts[1..]);
      assert forall k :: k in parts <==> k == parts[0] || k in parts[1..];
    }
  }

  /** In a conversion that did not raise, a part's commands end at the total of its stored durations. */
  lemma PartEndTime(g: Gesture, parts: seq<string>, mirror: bool, init: Option<real>,
                    current: string -> seq<real>, p: string)
    requires Distinct(parts) && forall i :: 0 <= i < |parts| ==> parts[i] in Parts
    requires Convert(g, parts, mirror, init, current, map[]).ok
    requires p in parts && p in g
    ensures var c := Convert(g, parts, mirror, init, current, map[]);
      && p in c.gesture && MirrorName(p, mirror) in c.msgs && MirrorName(p, mirror) in Parts
      && |c.gesture[p].durations| == |c.msgs[MirrorName(p, mirror)]|
      && (|c.gesture[p].durations| > 0 ==> Sum(c.gesture[p].durations) == EndTime(c.msgs[MirrorName(p, mirror)]))
  {
    var c := Convert(g, parts, mirror, init, current, map[]);
    ConvertStore(g, parts, mirror, init, current, map[], p);
    ConvertMessages(g, parts, mirror, init, current, map[], p);
    MirrorTwice(p, mirror);
    if |c.gesture[p].durations| > 0 {
      CtpLastTime(c.gesture[p].durations, c.gesture[p].positions, Offset(p, g[p], current));
    }
  }

  /**
   * The latest end time over the messages of a conversion of distinct parts is the total duration
   * of its longest converted part.
   */
  lemma LongestPart(g: Gesture, parts: seq<string>, mirror: bool, init: Option<real>, current: string -> seq<real>)
    requires Distinct(parts) && forall i :: 0 <= i < |parts| ==> parts[i] in Parts
    requires Convert(g, parts, mirror, init, current, map[]).ok
    requires var c := Convert(g, parts, mirror, init, current, map[]);
      LastTimes(c.msgs, Parts).Some? && |LastTimes(c.msgs, Parts).value| > 0
    ensures var c := Convert(g, parts, mirror, init, current, map[]);
      var d := Max(LastTimes(c.msgs, Parts).value);
      && (forall p :: p in parts && p in c.gesture ==> |c.gesture[p].durations| > 0 && Sum(c.gesture[p].durations) <= d)
      && (exists p :: p in parts && p in c.gesture && Sum(c.gesture[p].durations) == d)
  {
    var c := Convert(g, parts, mirror, init, current, map[]);
    ConvertStoreKeys(g, parts, mirror, init, current, map[]);
    ConvertKeys(g, parts, mirror, init, current, map[]);
    LastTimesSpec(c.msgs, Parts);
    var ts := LastTimes(c.msgs, Parts).value;
    var d := Max(ts);
    forall p | p in parts && p in c.gesture
      ensures |c.gesture[p].durations| > 0 && Sum(c.gesture[p].durations) <= d
    {
      PartEndTime(g, parts, mirror, init, current, p);
    }
    var i :| 0 <= i < |ts| && ts[i] == d;
    assert ts[i] in ts;
    var k :| k in Parts && k in c.msgs && |c.msgs[k]| > 0 && ts[i] == EndTime(c.msgs[k]);
    assert k in Mirrored(parts, g, mirror);
    var p :| p in parts && p in g && k == MirrorName(p, mirror);
    PartEndTime(g, parts, mirror, init, current, p);
    assert p in c.gesture && Sum(c.gesture[p].durations) == d;
  }

  /**
   * `getDuration` answers the total duration of the longest part of the gesture as stored after
   * the call (with the delay, if any, as every part's first duration).
   */
  lemma DurationIsLongestPart(store: map<string, Gesture>, name: string, mirror: bool, badDelay: bool,
                              init: Option<real>, move: bool, current: string -> seq<real>)
    requires Run(store, name, mirror, badDelay, init, move, current).outcome.Duration?
    ensures var r := Run(store, name, mirror, badDelay, init, move, current);
      && name in r.store
      && (forall p :: p in Parts && p in r.store[name] ==>
            |r.store[name][p].durations| > 0 && Sum(r.store[name][p].durations) <= r.outcome.seconds)
      && (exists p :: p in Parts && p in r.store[name] && Sum(r.store[name][p].durations) == r.outcome.seconds)
  {
    PartsDistinct();
    LongestPart(store[name], Parts, mirror, init, current);
  }

  /**
   * A `move` sends, under the mirrored name of each part the gesture has, that part's commands,
   * and nothing else.
   */
  lemma MoveSendsEachPart(store: map<string, Gesture>, name: string, mirror: bool, badDelay: bool,
                          init: Option<real>, move: bool, current: string -> seq<real>)
    requires Run(store, name, mirror, badDelay, init, move, current).outcome.Moved?
    ensures name in store && Run(store, name, mirror, badDelay, init, move, current).sends.Some?
    ensures var sent := Run(store, name, mirror, badDelay, init, move, current).sends.value;
      && sent.Keys == Mirrored(Parts, store[name], mirror)
      && forall p :: p in Parts && p in store[name] ==>
           PartConverts(p, store[name][p], init, current) && MirrorName(p, mirror) in sent
           && sent[MirrorName(p, mirror)] == PartMessage(p, store[name][p], init, current)
  {
    var g := store[name];
    var c := Convert(g, Parts, mirror, init, current, map[]);
    PartsDistinct();
    ConvertKeys(g, Parts, mirror, init, current, map[]);
    forall p | p in Parts && p in g
      ensures PartConverts(p, g[p], init, current) && MirrorName(p, mirror) in c.msgs
      ensures c.msgs[MirrorName(p, mirror)] == PartMessage(p, g[p], init, current)
    {
      ConvertMessages(g, Parts, mirror, init, current, map[], p);
    }
  }

  /** Converting without a delay leaves the stored gesture as it was. */
  lemma ConvertNoDelay(g: Gesture, mirror: bool, current: string -> seq<real>)
    ensures Convert(g, Parts, mirror, None, current, map[]).gesture == g
  {
    var c := Convert(g, Parts, mirror, None, current, map[]);
    PartsDistinct();
    ConvertStoreKeys(g, Parts, mirror, None, current, map[]);
    forall p | p in g
      ensures c.gesture[p] == g[p]
    {
      ConvertStore(g, Parts, mirror, None, current, map[], p);
    }
  }

  /** Without a delay `do_action` leaves the gesture store as it was. */
  lemma NoDelayKeepsStore(store: map<string, Gesture>, name: string, mirror: bool, badDelay: bool,
                          move: bool, current: string -> seq<real>)
    ensures Run(store, name, mirror, badDelay, None, move, current).store == store
  {
    if name in store {
      ConvertNoDelay(store[name], mirror, current);
      assert store[name := store[name]] == store;
    }
  }

  /**
   * Converting with a delay changes at most the first duration of each part; when nothing raised,
   * every part the gesture has starts with the delay.
   */
  lemma ConvertWithDelay(g: Gesture, mirror: bool, d: real, current: string -> seq<real>)
    ensures var c := Convert(g, Parts, mirror, Some(d), current, map[]);
      && c.gesture.Keys == g.Keys
      && forall p :: p in g ==>
           c.gesture[p].positions == g[p].positions
           && |c.gesture[p].durations| == |g[p].durations|
           && (forall j :: 1 <= j < |g[p].durations| ==> c.gesture[p].durations[j] == g[p].durations[j])
           && (c.ok && p in Parts ==> |g[p].durations| > 0 && c.gesture[p].durations[0] == d)
  {
    var c := Convert(g, Parts, mirror, Some(d), current, map[]);
    PartsDistinct();
    ConvertStoreKeys(g, Parts, mirror, Some(d), current, map[]);
    forall p | p in g
      ensures c.gesture[p] == g[p] || (|g[p].durations| > 0 && c.gesture[p] == Delayed(g[p], Some(d)))
      ensures c.ok && p in Parts ==> |g[p].durations| > 0 && c.gesture[p] == Delayed(g[p], Some(d))
    {
      ConvertStore(g, Parts, mirror, Some(d), current, map[], p);
    }
  }

  /**
   * With a delay `do_action` changes only the gesture it runs, and in it at most the first duration
   * of each part; when it did not raise, every part the gesture has starts with the delay.
   */
  lemma DelayIsStored(store: map<string, Gesture>, name: string, mirror: bool, badDelay: bool,
                      d: real, move: bool, current: string -> seq<real>)
    requires name in store
    ensures var r := Run(store, name, mirror, badDelay, Some(d), move, current);
      && r.store.Keys == store.Keys && name in r.store
      && (forall n :: n in store && n != name ==> r.store[n] == store[n])
      && r.store[name].Keys == store[name].Keys
      && forall p :: p in store[name] ==>
           r.store[name][p].positions == store[name][p].positions
           && |r.store[name][p].durations| == |store[name][p].durations|
           && (forall j :: 1 <= j < |store[name][p].durations| ==> r.store[name][p].durations[j] == store[name][p].durations[j])
           && (!r.outcome.Failed? && p in Parts ==> |store[name][p].durations| > 0 && r.store[name][p].durations[0] == d)
  {
    ConvertWithDelay(store[name], mirror, d, current);
  }

  /** A `move` never yields a duration, any other command never reports moving, and only a move sends. */
  lemma RunMatchesCommand(store: map<string, Gesture>, name: string, mirror: bool, badDelay: bool,
                          init: Option<real>, move: bool, current: string -> seq<real>)
    ensures var r := Run(store, name, mirror, badDelay, init, move, current);
      && (r.outcome.Moved? ==> move)
      && (r.outcome.Duration? ==> !move)
      && (r.sends.Some? <==> r.outcome.Moved?)
  {
  }

  // ----- The server -----------------------------------------------------------------------------

  class BodyController {
    var gestures: map<string, Gesture>     // gestures_dict (the parts of each gesture)
    var gestureNames: seq<string>          // all_gestures_list
    var sent: seq<MessageList>             // the messages of every `move`, as sent to ctpService

    /** The server once `load_gestures` has filled the store. */
    constructor(loaded: map<string, Gesture>, names: seq<string>)
      ensures gestures == loaded && gestureNames == names && sent == []
    {
      gestures := loaded;
      gestureNames := names;
      sent := [];
    }

    /**
     * The loop of `do_action` over the parts of gesture `name`, updating the stored gesture in
     * place; `ok` is false where the source raises.
     */
    method ConvertParts(name: string, mirror: bool, init: Option<real>, current: string -> seq<real>)
      returns (msgList: MessageList, ok: bool)
      requires name in gestures
      modifies this`gestures
      ensures var c := Convert(old(gestures)[name], Parts, mirror, init, current, map[]);
        gestures == old(gestures)[name := c.gesture] && msgList == c.msgs && ok == c.ok
    {
      ghost var target := Convert(gestures[name], Parts, mirror, init, current, map[]);
      var g := gestures[name];
      msgList := map[];
      var i := 0;
      while i < |Parts|
        invariant 0 <= i <= |Parts|
        invariant gestures == old(gestures)[name := g]
        invariant Convert(g, Parts[i..], mirror, init, current, msgList) == target
      {
        var part := Parts[i];
        assert Parts[i..][0] == part && Parts[i..][1..] == Parts[i + 1..];
        if part in g {
          var m := g[part];
          var offset := Offset(part, m, current);
          if init.Some? {
            if |m.durations| == 0 {
              return msgList, false;
            }
            m := m.(durations := m.durations[0 := init.value]);
            g := g[part := m];
            gestures := gestures[name := g];
          } else {
            assert g[part := m] == g;
          }
          var msg := ConstructCtpMessage(m.durations, m.positions, offset);
          if msg.None? {
            return msgList, false;
          }
          msgList := msgList[MirrorName(part, mirror) := msg.value];
        }
        i := i + 1;
      }
      assert Parts[i..] == [];
      return msgList, true;
    }

    /**
     * `do_action(action_name, args)`. `toFloat` is Python's `float` on the delay text and `current`
     * the position `getCurrPosition` reads for a part.
     */
    method DoAction(name: string, args: Bottle, toFloat: string -> Option<real>, current: string -> seq<real>)
      returns (r: Outcome)
      modifies this`gestures, this`sent
      ensures var act := Act(old(gestures), name, args, toFloat, current);
        && gestures == act.store && r == act.outcome
        && sent == old(sent) + (if act.sends.Some? then [act.sends.value] else [])
    {
      if name !in gestures {
        return Failed;
      }
      var a := ParseArgs(args);
      var init: Option<real> := None;
      if a.delay.Some? {
        init := toFloat(a.delay.value);
        if init.None? {
          return Failed;
        }
      }
      var msgList, ok := ConvertParts(name, a.mirror, init, current);
      if !ok {
        return Failed;
      }
      if Action(args) == "move" {
        sent := sent + [msgList];
        return Moved;
      }
      var times := LastTimes(msgList, Parts);
      if times.None? || |times.value| == 0 {
        return Failed;
      }
      return Duration(Max(times.value));
    }

    /** The "move" and "getDuration" branch of `respond`, for a gesture name that was found. */
    method Perform(command: Bottle, toFloat: string -> Option<real>, current: string -> seq<real>)
      returns (reply: Option<Bottle>)
      requires (Action(command) == "move" || Action(command) == "getDuration") && |command| >= 2
      modifies this`gestures, this`sent
      ensures var act := Act(old(gestures), AsString(command[1]), command, toFloat, current);
        && reply == (if act.outcome.Failed? then None
                     else if act.outcome.Duration? then Some([Ack, Dbl(act.outcome.seconds)])
                     else Some([Ack]))
        && gestures == act.store && sent == old(sent) + (if act.sends.Some? then [act.sends.value] else [])
    {
      var actionName := AsString(Get(command, 1));
      var ret := DoAction(actionName, command, toFloat, current);
      var a := ParseArgs(command);
      RunMatchesCommand(old(gestures), actionName, a.mirror, a.delay.Some? && Init(a, toFloat).None?,
                        Init(a, toFloat), Action(command) == "move", current);
      if ret.Failed? {
        reply := None;
      } else if Action(command) == "getDuration" {
        reply := Some([Ack, Dbl(ret.seconds)]);
      } else {
        reply := Some([Ack]);
      }
    }

    /**
     * `respond`: "heartbeat" and "EXIT" are acknowledged; "move" and "getDuration" need a gesture
     * name among the loaded gestures and then run `do_action` ("getDuration" adding the duration
     * to the ack); anything else is not recognized. None when `do_action` raised and no reply was
     * written.
     */
    method Respond(command: Bottle, toFloat: string -> Option<real>, current: string -> seq<real>)
      returns (reply: Option<Bottle>)
      modifies this`gestures, this`sent
      ensures var action := Action(command);
        var valid := Str("Valid gestures are: " + JoinStr(gestureNames, " | "));
        && (action == "heartbeat" || action == "EXIT" ==> reply == Some([Ack]))
        && (action != "heartbeat" && action != "EXIT" && action != "move" && action != "getDuration" ==>
              reply == Some([Nack, NotRecognized]))
        && ((action == "move" || action == "getDuration") && |command| < 2 ==>
              reply == Some([Nack, Str("gesture name required."), valid]))
        && ((action == "move" || action == "getDuration") && |command| >= 2 && AsString(command[1]) !in gestureNames ==>
              reply == Some([Nack, Str("gesture name " + AsString(command[1]) + "not found."), valid]))
      ensures (Action(command) == "move" || Action(command) == "getDuration") && |command| >= 2
              && AsString(command[1]) in gestureNames ==>
        var act := Act(old(gestures), AsString(command[1]), command, toFloat, current);
        && reply == (if act.outcome.Failed? then None
                     else if act.outcome.Duration? then Some([Ack, Dbl(act.outcome.seconds)])
                     else Some([Ack]))
        && gestures == act.store && sent == old(sent) + (if act.sends.Some? then [act.sends.value] else [])
      ensures !((Action(command) == "move" || Action(command) == "getDuration") && |command| >= 2
                && AsString(command[1]) in gestureNames) ==>
        gestures == old(gestures) && sent == old(sent)
      ensures gestureNames == old(gestureNames)
    {
      var action := Action(command);
      var valid := Str("Valid gestures are: " + JoinStr(gestureNames, " | "));
      if action == "heartbeat" {
        reply := Some([Ack]);
      } else if action == "EXIT" {
        reply := Some([Ack]);
      } else if action == "move" || action == "getDuration" {
        if |command| >= 2 {
          var actionName := AsString(Get(command, 1));
          if actionName in gestureNames {
            reply := Perform(command, toFloat, current);
          } else {
            reply := Some([Nack, Str("gesture name " + actionName + "not found."), valid]);
          }
        } else {
          reply := Some([Nack, Str("gesture name required."), valid]);
        }
      } else {
        reply := Some([Nack, NotRecognized]);
      }
    }
  }
}
