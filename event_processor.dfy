/**
 `EventProcessor`: the render loop shared by every kernel. A block of frames
 is cut at the sample times of the render events; each piece is rendered, and
 the events due by then are handed to the kernel in list order. While a
 parameter ramp is active, frames are rendered one at a time.

 The kernel (`doParameterEvent`, `doMIDIEvent`, `doRendering`) is not part of
 this model: its calls are recorded in a trace, and the answer of
 `doParameterEvent` is carried by each event.
 */
module EventProcessor {
  import opened Optional
  import Parameters
  import StdAlgorithm

  /** `AURenderEventType`; `Other` stands for every type the switch ignores by default. */
  datatype EventKind = Parameter | ParameterRamp | Midi | MidiSysEx | MidiEventList | Other

  /**
   One `AURenderEvent`: its sample time, its type, the ramp length a
   `ParameterRamp` event carries, and whether the kernel accepts it as a
   parameter change.
   */
  datatype Event = Event(time: int, kind: EventKind, rampDuration: nat, accepted: bool)

  /** A call into the kernel: `doRendering` at a frame offset, `doParameterEvent` with a ramp length, `doMIDIEvent`. */
  datatype Call = Rendering(offset: nat, count: nat) | ParameterEvent(event: nat, duration: nat) | MidiEvent(event: nat)

  /** What `render` does in order: render `count` frames at `offset`, or hand event number `event` over. */
  datatype Step = Frames(offset: nat, count: nat) | Apply(event: nat)

  /** `noErr`. */
  const NoErr: int := 0
  /** `kAudioUnitErr_TooManyFramesToProcess`. */
  const TooManyFramesToProcess: int := -10874

  /** Every event from `i` on happens no later than `limit`. */
  predicate InWindow(evs: seq<Event>, i: nat, limit: int)
  {
    forall k :: i <= k < |evs| ==> evs[k].time <= limit
  }

  /**
   Where `processEventsUntil` stops: the first event from `i` on that lies
   after `now`, every event before it being due.
   */
  function FirstAfter(evs: seq<Event>, i: nat, now: int): (j: nat)
    requires i <= |evs|
    ensures i <= j <= |evs|
    decreases |evs| - i
  {
    if i == |evs| || evs[i].time > now then i else FirstAfter(evs, i + 1, now)
  }

  /** Every event the scan passes is due, and the one it stops at is not. */
  lemma {:induction false} FirstAfterFacts(evs: seq<Event>, i: nat, now: int)
    requires i <= |evs|
    ensures var j := FirstAfter(evs, i, now);
      && (forall k :: i <= k < j ==> evs[k].time <= now)
      && (j < |evs| ==> evs[j].time > now)
    decreases |evs| - i
  {
    if i < |evs| && evs[i].time <= now {
      FirstAfterFacts(evs, i + 1, now);
    }
  }

  /** The steps that apply events `i` up to `j`, in list order. */
  function Applies(i: nat, j: nat): (r: seq<Step>)
    requires i <= j
    ensures |r| == j - i
    ensures forall k :: 0 <= k < |r| ==> r[k] == Apply(i + k)
  {
    seq(j - i, k requires 0 <= k < j - i => Apply(i + k))
  }

  /**
   The order of work in `render` for the block from sample time `now` to
   `end`, which began at `start`: with no events left the rest of the block is
   rendered at once; otherwise the frames up to the next event's time (none if
   it is already due) are rendered and the events due by then are applied. A
   piece that begins at time `t` is rendered at offset `t - start`.
   */
  function Schedule(evs: seq<Event>, i: nat, now: int, end: int, start: int): (r: seq<Step>)
    requires i <= |evs| && start <= now <= end
    requires InWindow(evs, i, end)
    ensures forall k :: 0 <= k < |r| && r[k].Apply? ==> i <= r[k].event < |evs|
    decreases |evs| - i
  {
    if now == end then []
    else if i == |evs| then [Frames(now - start, end - now)]
    else
      var next := StdAlgorithm.Max(evs[i].time, now);
      var j := FirstAfter(evs, i, next);
      (if next > now then [Frames(now - start, next - now)] else []) + Applies(i, j) + Schedule(evs, j, next, end, start)
  }

  /** One round of the loop in `render`, spelled out. */
  lemma ScheduleUnfold(evs: seq<Event>, i: nat, now: int, end: int, start: int)
    returns (next: int, j: nat, head: seq<Step>)
    requires i < |evs| && start <= now < end
    requires InWindow(evs, i, end)
    ensures next == StdAlgorithm.Max(evs[i].time, now) && now <= next <= end
    ensures j == FirstAfter(evs, i, next) && i < j
    ensures InWindow(evs, j, end)
    ensures head == if next > now then [Frames(now - start, next - now)] else []
    ensures Schedule(evs, i, now, end, start) == head + Applies(i, j) + Schedule(evs, j, next, end, start)
    ensures next == end ==> j == |evs|
  {
    next := StdAlgorithm.Max(evs[i].time, now);
    j := FirstAfter(evs, i, next);
    FirstAfterFacts(evs, i, next);
    head := if next > now then [Frames(now - start, next - now)] else [];
  }

  /** The number of frames the steps render. */
  function FrameTotal(steps: seq<Step>): nat
  {
    if steps == [] then 0
    else (if steps[0].Frames? then steps[0].count else 0) + FrameTotal(steps[1..])
  }

  /** The events the steps apply, in order. */
  function Applied(steps: seq<Step>): seq<nat>
  {
    if steps == [] then []
    else (if steps[0].Apply? then [steps[0].event] else []) + Applied(steps[1..])
  }

  /** The numbers `i` up to `j`. */
  function Range(i: nat, j: nat): (r: seq<nat>)
    requires i <= j
    ensures |r| == j - i
    ensures forall k :: 0 <= k < |r| ==> r[k] == i + k
  {
    seq(j - i, k requires 0 <= k < j - i => i + k)
  }

  lemma RangeAppend(i: nat, j: nat, k: nat)
    requires i <= j <= k
    ensures Range(i, j) + Range(j, k) == Range(i, k)
  {
    var r := Range(i, j) + Range(j, k);
    assert forall p :: 0 <= p < |r| ==> r[p] == i + p by {
      forall p | 0 <= p < |r|
        ensures r[p] == i + p
      {
        if p >= j - i { assert r[p] == Range(j, k)[p - (j - i)]; }
      }
    }
  }

  /**
   Every piece is rendered where the previous one ended: the first `Frames`
   step starts at `start`, each later one where the frames before it end, and
   each renders at least one frame.
   */
  predicate Contiguous(steps: seq<Step>, start: nat)
  {
    steps == [] ||
    match steps[0]
    case Frames(offset, count) => offset == start && count > 0 && Contiguous(steps[1..], start + count)
    case Apply(_) => Contiguous(steps[1..], start)
  }

  lemma {:induction false} FrameTotalAppend(a: seq<Step>, b: seq<Step>)
    ensures FrameTotal(a + b) == FrameTotal(a) + FrameTotal(b)
  {
    if a == [] {
      assert a + b == b;
    } else {
      assert (a + b)[0] == a[0];
      assert (a + b)[1..] == a[1..] + b;
      FrameTotalAppend(a[1..], b);
    }
  }

  lemma {:induction false} AppliedAppend(a: seq<Step>, b: seq<Step>)
    ensures Applied(a + b) == Applied(a) + Applied(b)
  {
    if a == [] {
      assert a + b == b;
    } else {
      assert (a + b)[0] == a[0];
      assert (a + b)[1..] == a[1..] + b;
      AppliedAppend(a[1..], b);
    }
  }

  lemma {:induction false} AppliesProperties(i: nat, j: nat, start: nat)
    requires i <= j
    ensures FrameTotal(Applies(i, j)) == 0
    ensures Applied(Applies(i, j)) == Range(i, j)
    ensures Contiguous(Applies(i, j), start)
    decreases j - i
  {
    if i < j {
      assert Applies(i, j) == [Apply(i)] + Applies(i + 1, j);
      AppliesProperties(i + 1, j, start);
      FrameTotalAppend([Apply(i)], Applies(i + 1, j));
      AppliedAppend([Apply(i)], Applies(i + 1, j));
      assert Range(i, j) == [i] + Range(i + 1, j);
    }
  }

  lemma {:induction false} ContiguousAppend(a: seq<Step>, b: seq<Step>, start: nat)
    requires Contiguous(a, start) && Contiguous(b, start + FrameTotal(a))
    ensures Contiguous(a + b, start)
  {
    if a == [] {
      assert a + b == b;
    } else {
      assert (a + b)[0] == a[0];
      assert (a + b)[1..] == a[1..] + b;
      match a[0]
      case Frames(offset, count) =>
        ContiguousAppend(a[1..], b, start + count);
      case Apply(_) =>
        ContiguousAppend(a[1..], b, start);
    }
  }

  lemma HeadProperties(offset: nat, seg: nat, head: seq<Step>)
    requires head == if seg > 0 then [Frames(offset, seg)] else []
    ensures FrameTotal(head) == seg && Contiguous(head, offset) && Applied(head) == []
  {
    if seg > 0 {
      assert head[1..] == [];
    }
  }

  lemma CoversCompose(head: seq<Step>, mid: seq<Step>, rest: seq<Step>, a: nat, b: nat, c: nat)
    requires a <= b <= c
    requires FrameTotal(head) == b - a && Contiguous(head, a)
    requires FrameTotal(mid) == 0 && Contiguous(mid, b)
    requires FrameTotal(rest) == c - b && Contiguous(rest, b)
    ensures FrameTotal(head + mid + rest) == c - a && Contiguous(head + mid + rest, a)
  {
    ContiguousAppend(head, mid, a);
    FrameTotalAppend(head, mid);
    ContiguousAppend(head + mid, rest, a);
    FrameTotalAppend(head + mid, rest);
  }

  lemma AppliedCompose(head: seq<Step>, mid: seq<Step>, rest: seq<Step>, i: nat, j: nat, n: nat)
    requires i <= j <= n
    requires Applied(head) == [] && Applied(mid) == Range(i, j) && Applied(rest) == Range(j, n)
    ensures Applied(head + mid + rest) == Range(i, n)
  {
    AppliedAppend(head, mid);
    AppliedAppend(head + mid, rest);
    RangeAppend(i, j, n);
  }

  /**
   The pieces `render` cuts a block into are contiguous and add up to the
   block: their frame counts sum to the frames left, `end - now`, and each one
   starts at the offset where the frames before it end.
   */
  lemma {:induction false} ScheduleCoversBlock(evs: seq<Event>, i: nat, now: int, end: int, start: int)
    requires i <= |evs| && start <= now <= end
    requires InWindow(evs, i, end)
    ensures var steps := Schedule(evs, i, now, end, start);
      FrameTotal(steps) == end - now && Contiguous(steps, now - start)
    decreases |evs| - i
  {
    if now == end {
    } else if i == |evs| {
      HeadProperties(now - start, end - now, [Frames(now - start, end - now)]);
    } else {
      var next, j, head := ScheduleUnfold(evs, i, now, end, start);
      var rest := Schedule(evs, j, next, end, start);
      ScheduleCoversBlock(evs, j, next, end, start);
      AppliesProperties(i, j, next - start);
      HeadProperties(now - start, next - now, head);
      CoversCompose(head, Applies(i, j), rest, now - start, next - start, end - start);
    }
  }

  /**
   Every event is handed over, once and in list order, when the block is not
   empty (given that no event lies beyond the block); an empty block hands
   over none.
   */
  lemma {:induction false} ScheduleAppliesAll(evs: seq<Event>, i: nat, now: int, end: int, start: int)
    requires i <= |evs| && start <= now <= end
    requires InWindow(evs, i, end)
    ensures Applied(Schedule(evs, i, now, end, start)) == if now < end then Range(i, |evs|) else []
    decreases |evs| - i
  {
    if now == end {
    } else if i == |evs| {
      HeadProperties(now - start, end - now, [Frames(now - start, end - now)]);
    } else {
      var next, j, head := ScheduleUnfold(evs, i, now, end, start);
      var rest := Schedule(evs, j, next, end, start);
      ScheduleAppliesAll(evs, j, next, end, start);
      AppliesProperties(i, j, 0);
      HeadProperties(now - start, next - now, head);
      AppliedCompose(head, Applies(i, j), rest, i, j, |evs|);
    }
  }

  /** The number of frames the kernel is asked to render by a list of calls. */
  function RenderedFrames(calls: seq<Call>): nat
  {
    if calls == [] then 0
    else (if calls[0].Rendering? then calls[0].count else 0) + RenderedFrames(calls[1..])
  }

  lemma {:induction false} RenderedFramesAppend(a: seq<Call>, b: seq<Call>)
    ensures RenderedFrames(a + b) == RenderedFrames(a) + RenderedFrames(b)
  {
    if a == [] {
      assert a + b == b;
    } else {
      assert (a + b)[0] == a[0];
      assert (a + b)[1..] == a[1..] + b;
      RenderedFramesAppend(a[1..], b);
    }
  }

  lemma {:induction false} SingleFrames(offset: nat, k: nat)
    ensures RenderedFrames(seq(k, _ => Rendering(offset, 1))) == k
  {
    if k > 0 {
      var s := seq(k, _ => Rendering(offset, 1));
      assert s[1..] == seq(k - 1, _ => Rendering(offset, 1));
      SingleFrames(offset, k - 1);
    }
  }

  /** How many single-frame calls `renderFrames` makes for `n` frames with `ramp` frames of ramping left. */
  function RampCount(ramp: nat, n: nat): nat
  {
    if ramp > 0 then StdAlgorithm.Min(ramp, n) else 0
  }

  /**
   The kernel calls of `renderFrames(n, offset)`: none in bypass; otherwise
   `min(ramp, n)` one-frame calls, then one call for the rest if any is left.
   All of them are made at the offset of the piece. The kernel is asked for
   exactly `n` frames.
   */
  function FramesCalls(n: nat, offset: nat, ramp: nat, bypassed: bool): (r: seq<Call>)
    ensures bypassed ==> r == []
    ensures forall k :: 0 <= k < |r| ==> r[k].Rendering? && r[k].offset == offset && r[k].count > 0
  {
    if bypassed then []
    else
      var rampCount := RampCount(ramp, n);
      seq(rampCount, _ => Rendering(offset, 1)) + (if n - rampCount > 0 then [Rendering(offset, n - rampCount)] else [])
  }

  /**
   In bypass `renderFrames` makes no call. Otherwise the kernel is asked for
   exactly `n` frames: first `min(ramp, n)` single frames while a ramp runs,
   then the rest, if any, in one call.
   */
  lemma FramesCallsShape(n: nat, offset: nat, ramp: nat, bypassed: bool)
    ensures var calls := FramesCalls(n, offset, ramp, bypassed);
      && (bypassed ==> calls == [])
      && (!bypassed ==> RenderedFrames(calls) == n)
      && (!bypassed ==> |calls| == RampCount(ramp, n) + (if n > RampCount(ramp, n) then 1 else 0))
      && (!bypassed ==> forall k :: 0 <= k < RampCount(ramp, n) ==> calls[k] == Rendering(offset, 1))
      && (!bypassed && n > RampCount(ramp, n) ==> calls[|calls| - 1] == Rendering(offset, n - RampCount(ramp, n)))
  {
    if !bypassed {
      var rampCount := RampCount(ramp, n);
      var singles := seq(rampCount, _ => Rendering(offset, 1));
      var tail := if n - rampCount > 0 then [Rendering(offset, n - rampCount)] else [];
      SingleFrames(offset, rampCount);
      RenderedFramesAppend(singles, tail);
      assert RenderedFrames(tail) == n - rampCount by {
        if n - rampCount > 0 { assert tail[1..] == []; }
      }
    }
  }

  /**
   One event in `processEventsUntil`: a parameter event goes to the kernel with
   the standard ramp length, a ramp event with its own; when the kernel accepts
   it the countdown is raised to that length. MIDI and SysEx events go to the
   kernel; other events are skipped.
   */
  function ApplyEvent(e: Event, index: nat, ramp: nat, rampDuration: nat): (r: (seq<Call>, nat))
    ensures e.kind == Parameter ==>
      r.0 == [ParameterEvent(index, rampDuration)] && r.1 == (if e.accepted then StdAlgorithm.Max(ramp, rampDuration) else ramp)
    ensures e.kind == ParameterRamp ==>
      r.0 == [ParameterEvent(index, e.rampDuration)] && r.1 == (if e.accepted then StdAlgorithm.Max(ramp, e.rampDuration) else ramp)
    ensures e.kind == Midi || e.kind == MidiSysEx ==> r == ([MidiEvent(index)], ramp)
    ensures e.kind == MidiEventList || e.kind == Other ==> r == ([], ramp)
    ensures RenderedFrames(r.0) == 0 && r.1 >= ramp
  {
    match e.kind
    case Parameter =>
      ([ParameterEvent(index, rampDuration)], if e.accepted && rampDuration > ramp then rampDuration else ramp)
    case ParameterRamp =>
      ([ParameterEvent(index, e.rampDuration)], if e.accepted && e.rampDuration > ramp then e.rampDuration else ramp)
    case Midi => ([MidiEvent(index)], ramp)
    case MidiSysEx => ([MidiEvent(index)], ramp)
    case MidiEventList => ([], ramp)
    case Other => ([], ramp)
  }

  /** The kernel calls of one step, and the ramp countdown after it. */
  function StepEffect(evs: seq<Event>, step: Step, ramp: nat, rampDuration: nat, bypassed: bool): (r: (seq<Call>, nat))
    ensures r.1 >= ramp
  {
    match step
    case Frames(offset, count) => (FramesCalls(count, offset, ramp, bypassed), ramp)
    case Apply(k) => if k < |evs| then ApplyEvent(evs[k], k, ramp, rampDuration) else ([], ramp)
  }

  /**
   The kernel calls a list of steps makes, and the ramp countdown after it.
   Rendering never lowers the countdown.
   */
  function Expand(evs: seq<Event>, steps: seq<Step>, ramp: nat, rampDuration: nat, bypassed: bool): (r: (seq<Call>, nat))
    ensures r.1 >= ramp
  {
    if steps == [] then ([], ramp)
    else
      var first := StepEffect(evs, steps[0], ramp, rampDuration, bypassed);
      var rest := Expand(evs, steps[1..], first.1, rampDuration, bypassed);
      (first.0 + rest.0, rest.1)
  }

  /** In bypass a step makes no rendering call; otherwise it renders the frames of its piece. */
  lemma StepFacts(evs: seq<Event>, step: Step, ramp: nat, rampDuration: nat, bypassed: bool)
    ensures var r := StepEffect(evs, step, ramp, rampDuration, bypassed);
      && (bypassed ==> forall c :: c in r.0 ==> !c.Rendering?)
      && (!bypassed ==> RenderedFrames(r.0) == (if step.Frames? then step.count else 0))
  {
    match step
    case Frames(offset, count) =>
      FramesCallsShape(count, offset, ramp, bypassed);
    case Apply(k) =>
  }

  /**
   In bypass the kernel is never asked to render; otherwise it is asked for
   exactly the frames of the steps' pieces.
   */
  lemma {:induction false} ExpandFacts(evs: seq<Event>, steps: seq<Step>, ramp: nat, rampDuration: nat, bypassed: bool)
    ensures var r := Expand(evs, steps, ramp, rampDuration, bypassed);
      && (bypassed ==> forall c :: c in r.0 ==> !c.Rendering?)
      && (!bypassed ==> RenderedFrames(r.0) == FrameTotal(steps))
  {
    if steps != [] {
      var first := StepEffect(evs, steps[0], ramp, rampDuration, bypassed);
      var rest := Expand(evs, steps[1..], first.1, rampDuration, bypassed);
      StepFacts(evs, steps[0], ramp, rampDuration, bypassed);
      ExpandFacts(evs, steps[1..], first.1, rampDuration, bypassed);
      RenderedFramesAppend(first.0, rest.0);
    }
  }

  /** Expanding two lists of steps one after the other is expanding their concatenation. */
  lemma {:induction false} ExpandAppend(evs: seq<Event>, a: seq<Step>, b: seq<Step>, ramp: nat, rampDuration: nat, bypassed: bool)
    ensures var first := Expand(evs, a, ramp, rampDuration, bypassed);
      var second := Expand(evs, b, first.1, rampDuration, bypassed);
      Expand(evs, a + b, ramp, rampDuration, bypassed) == (first.0 + second.0, second.1)
  {
    if a == [] {
      assert a + b == b;
      var g := Expand(evs, b, ramp, rampDuration, bypassed);
      assert Expand(evs, a, ramp, rampDuration, bypassed) == ([], ramp);
      assert [] + g.0 == g.0;
    } else {
      assert (a + b)[0] == a[0];
      assert (a + b)[1..] == a[1..] + b;
      var e := StepEffect(evs, a[0], ramp, rampDuration, bypassed);
      ExpandAppend(evs, a[1..], b, e.1, rampDuration, bypassed);
      var f := Expand(evs, a[1..], e.1, rampDuration, bypassed);
      var g := Expand(evs, b, f.1, rampDuration, bypassed);
      assert e.0 + (f.0 + g.0) == (e.0 + f.0) + g.0;
    }
  }

  lemma ExpandSingle(evs: seq<Event>, step: Step, ramp: nat, rampDuration: nat, bypassed: bool)
    ensures Expand(evs, [step], ramp, rampDuration, bypassed) == StepEffect(evs, step, ramp, rampDuration, bypassed)
  {
    var e := StepEffect(evs, step, ramp, rampDuration, bypassed);
    assert [step][1..] == [];
    assert e.0 + [] == e.0;
  }

  /** `FirstAfter` is the only index that stops the scan. */
  lemma {:induction false} FirstAfterIs(evs: seq<Event>, i: nat, now: int, j: nat)
    requires i <= j <= |evs|
    requires forall k :: i <= k < j ==> evs[k].time <= now
    requires j < |evs| ==> evs[j].time > now
    ensures FirstAfter(evs, i, now) == j
    decreases j - i
  {
    if i < j {
      FirstAfterIs(evs, i + 1, now, j);
    }
  }

  lemma AppliesSnoc(i: nat, k: nat)
    requires i <= k
    ensures Applies(i, k + 1) == Applies(i, k) + [Apply(k)]
  {}

  /**
   The kernel calls of the rest of a block and the countdown after it, round
   by round as the loop in `render` makes them: the frames up to the next
   event, then the events due by then, then the rest.
   */
  function RenderEffect(evs: seq<Event>, i: nat, now: int, end: int, start: int,
                        ramp: nat, rampDuration: nat, bypassed: bool): (r: (seq<Call>, nat))
    requires i <= |evs| && start <= now <= end
    requires InWindow(evs, i, end)
    ensures r.1 >= ramp
    decreases |evs| - i
  {
    if now == end then ([], ramp)
    else if i == |evs| then (FramesCalls(end - now, now - start, ramp, bypassed), ramp)
    else
      var next := StdAlgorithm.Max(evs[i].time, now);
      var pieces := if next > now then FramesCalls(next - now, now - start, ramp, bypassed) else [];
      var j := FirstAfter(evs, i, next);
      var applied := Expand(evs, Applies(i, j), ramp, rampDuration, bypassed);
      var rest := RenderEffect(evs, j, next, end, start, applied.1, rampDuration, bypassed);
      (pieces + applied.0 + rest.0, rest.1)
  }

  /** Round by round, the loop makes exactly the calls of its schedule. */
  lemma {:induction false} RenderEffectIsExpand(evs: seq<Event>, i: nat, now: int, end: int, start: int,
                                                ramp: nat, rampDuration: nat, bypassed: bool)
    requires i <= |evs| && start <= now <= end
    requires InWindow(evs, i, end)
    ensures RenderEffect(evs, i, now, end, start, ramp, rampDuration, bypassed)
      == Expand(evs, Schedule(evs, i, now, end, start), ramp, rampDuration, bypassed)
    decreases |evs| - i
  {
    if now == end {
    } else if i == |evs| {
      ExpandSingle(evs, Frames(now - start, end - now), ramp, rampDuration, bypassed);
    } else {
      var next, j, head := ScheduleUnfold(evs, i, now, end, start);
      var pieces := if next > now then FramesCalls(next - now, now - start, ramp, bypassed) else [];
      if next > now {
        ExpandSingle(evs, Frames(now - start, next - now), ramp, rampDuration, bypassed);
      }
      var applied := Expand(evs, Applies(i, j), ramp, rampDuration, bypassed);
      RenderEffectIsExpand(evs, j, next, end, start, applied.1, rampDuration, bypassed);
      var rest := RenderEffect(evs, j, next, end, start, applied.1, rampDuration, bypassed);
      ExpandRound(evs, head, Applies(i, j), Schedule(evs, j, next, end, start),
                  ramp, rampDuration, bypassed, pieces, rest);
    }
  }

  /** Expanding one round of the schedule: the pieces, the events, then the rest. */
  lemma ExpandRound(evs: seq<Event>, head: seq<Step>, mid: seq<Step>, tail: seq<Step>, ramp: nat, rampDuration: nat,
                    bypassed: bool, pieces: seq<Call>, rest: (seq<Call>, nat))
    requires Expand(evs, head, ramp, rampDuration, bypassed) == (pieces, ramp)
    requires Expand(evs, tail, Expand(evs, mid, ramp, rampDuration, bypassed).1, rampDuration, bypassed) == rest
    ensures Expand(evs, head + mid + tail, ramp, rampDuration, bypassed)
      == (pieces + Expand(evs, mid, ramp, rampDuration, bypassed).0 + rest.0, rest.1)
  {
    ExpandAppend(evs, head, mid, ramp, rampDuration, bypassed);
    ExpandAppend(evs, head + mid, tail, ramp, rampDuration, bypassed);
  }

  /**
   The loop invariant of `render`: the block runs from `start` to `end`, the
   loop stands at event `i` and sample time `now`, and the trace so far `t`
   followed by the calls still to come is `base` followed by the calls of the
   whole block, `total`; the countdown will end where the block's ends.
   */
  ghost predicate RenderInvariant(evs: seq<Event>, i: nat, now: int, end: int, start: int, ramp: nat, rampDuration: nat,
                                  bypassed: bool, base: seq<Call>, total: (seq<Call>, nat), t: seq<Call>)
  {
    && i <= |evs| && start <= now <= end && InWindow(evs, i, end)
    && var r := RenderEffect(evs, i, now, end, start, ramp, rampDuration, bypassed);
    base + total.0 == t + r.0 && total.1 == r.1
  }

  /**
   One round of `render` keeps its loop invariant, and moves on to a later
   event: `seg` frames are rendered at `offset`, then the events up to `j`
   are handed over.
   */
  lemma RenderRound(evs: seq<Event>, i: nat, now: int, end: int, start: int, ramp: nat, rampDuration: nat, bypassed: bool,
                    base: seq<Call>, total: (seq<Call>, nat), t0: seq<Call>, t1: seq<Call>, ramp1: nat,
                    seg: nat, offset: nat, j: nat)
    requires RenderInvariant(evs, i, now, end, start, ramp, rampDuration, bypassed, base, total, t0)
    requires i < |evs| && now < end
    requires seg == StdAlgorithm.Max(evs[i].time - now, 0) && offset == now - start
    requires j == FirstAfter(evs, i, now + seg)
    requires var pieces := if seg > 0 then FramesCalls(seg, offset, ramp, bypassed) else [];
      var applied := Expand(evs, Applies(i, j), ramp, rampDuration, bypassed);
      t1 == t0 + (pieces + applied.0) && ramp1 == applied.1
    ensures i < j && seg <= end - now
    ensures RenderInvariant(evs, j, now + seg, end, start, ramp1, rampDuration, bypassed, base, total, t1)
  {
    var next := now + seg;
    assert next == StdAlgorithm.Max(evs[i].time, now);
    FirstAfterFacts(evs, i, next);
    var pieces := if seg > 0 then FramesCalls(seg, offset, ramp, bypassed) else [];
    var applied := Expand(evs, Applies(i, j), ramp, rampDuration, bypassed);
    var rest := RenderEffect(evs, j, next, end, start, ramp1, rampDuration, bypassed);
    RenderEffectStep(evs, i, now, end, start, ramp, rampDuration, bypassed, next, pieces, j, applied, rest);
    AppendAssoc(t0, pieces + applied.0, rest.0);
  }

  /** When the loop of `render` ends, the trace holds the calls of the whole block. */
  lemma RenderDone(evs: seq<Event>, i: nat, now: int, end: int, start: int, ramp: nat, rampDuration: nat, bypassed: bool,
                   base: seq<Call>, total: (seq<Call>, nat), t: seq<Call>)
    requires RenderInvariant(evs, i, now, end, start, ramp, rampDuration, bypassed, base, total, t) && now == end
    ensures base + total.0 == t && total.1 == ramp
  {
    assert t + [] == t;
  }

  /** The calls of the whole block, round by round, are those of its schedule. */
  lemma RenderComplete(evs: seq<Event>, end: int, start: int, ramp0: nat, rampDuration: nat, bypassed: bool,
                       base: seq<Call>, total: (seq<Call>, nat), t: seq<Call>, ramp: nat)
    requires start <= end && InWindow(evs, 0, end)
    requires total == RenderEffect(evs, 0, start, end, start, ramp0, rampDuration, bypassed)
    requires base + total.0 == t && total.1 == ramp
    ensures var e := Expand(evs, Schedule(evs, 0, start, end, start), ramp0, rampDuration, bypassed);
      t == base + e.0 && ramp == e.1
  {
    RenderEffectIsExpand(evs, 0, start, end, start, ramp0, rampDuration, bypassed);
  }

  /** One round of `RenderEffect`, spelled out. */
  lemma RenderEffectStep(evs: seq<Event>, i: nat, now: int, end: int, start: int, ramp: nat, rampDuration: nat, bypassed: bool,
                         next: int, pieces: seq<Call>, j: nat, applied: (seq<Call>, nat), rest: (seq<Call>, nat))
    requires i < |evs| && start <= now < end
    requires InWindow(evs, i, end)
    requires next == StdAlgorithm.Max(evs[i].time, now) && j == FirstAfter(evs, i, next)
    requires j <= |evs| && next <= end && InWindow(evs, j, end)
    requires pieces == if next > now then FramesCalls(next - now, now - start, ramp, bypassed) else []
    requires applied == Expand(evs, Applies(i, j), ramp, rampDuration, bypassed)
    requires rest == RenderEffect(evs, j, next, end, start, applied.1, rampDuration, bypassed)
    ensures RenderEffect(evs, i, now, end, start, ramp, rampDuration, bypassed) == (pieces + applied.0 + rest.0, rest.1)
  {
  }

  /** The last round of `render`, with no events left: the rest of the block is one piece. */
  lemma RenderLast(evs: seq<Event>, now: int, end: int, start: int, ramp: nat, rampDuration: nat, bypassed: bool,
                   base: seq<Call>, total: (seq<Call>, nat), t0: seq<Call>, t1: seq<Call>, n: nat, offset: nat)
    requires RenderInvariant(evs, |evs|, now, end, start, ramp, rampDuration, bypassed, base, total, t0)
    requires now < end && n == end - now && offset == now - start
    requires t1 == t0 + FramesCalls(n, offset, ramp, bypassed)
    ensures base + total.0 == t1 && total.1 == ramp
  {
  }

  lemma AppendAssoc<T>(a: seq<T>, b: seq<T>, c: seq<T>)
    ensures a + (b + c) == a + b + c
  {
  }

  /** The new countdown after `checkForParameterChanges`: raised to the ramp length when something changed. */
  function RaisedRamp(changed: bool, ramp: nat, rampDuration: nat): (r: nat)
    ensures changed ==> r == StdAlgorithm.Max(ramp, rampDuration)
    ensures !changed ==> r == ramp
  {
    if changed && rampDuration > ramp then rampDuration else ramp
  }

  /** The states of a list of parameters, in order. */
  ghost function SnapshotsOf(ps: seq<Parameters.Base>): (r: seq<Parameters.RampState>)
    reads set p | p in ps
    ensures |r| == |ps| && forall k :: 0 <= k < |ps| ==> r[k] == ps[k].Snapshot()
  {
    if ps == [] then [] else [ps[0].Snapshot()] + SnapshotsOf(ps[1..])
  }

  /**
   After the first `i` entries of the list are checked: an entry whose
   parameter is among them holds its checked state, any other its original
   one. Entries for the same parameter started out alike.
   */
  ghost predicate CheckedUpTo(ps: seq<Parameters.Base>, olds: seq<Parameters.RampState>, cur: seq<Parameters.RampState>,
                              duration: nat, i: nat)
  {
    |olds| == |ps| && |cur| == |ps| && i <= |ps|
    && (forall j, k :: 0 <= j < |ps| && 0 <= k < |ps| && ps[j] == ps[k] ==> olds[j] == olds[k])
    && forall k :: 0 <= k < |ps| ==>
         cur[k] == (if ps[k] in ps[..i] then Parameters.PendingChange(olds[k], ps[k].canRamp, duration).1 else olds[k])
  }

  /**
   Checking entry `i` moves every entry for that parameter to its checked
   state; a parameter met before is found quiet, so the reported changes are
   those of the original states.
   */
  lemma CheckStep(ps: seq<Parameters.Base>, olds: seq<Parameters.RampState>, cur: seq<Parameters.RampState>,
                  next: seq<Parameters.RampState>, duration: nat, i: nat, anyBefore: bool, c: bool)
    requires CheckedUpTo(ps, olds, cur, duration, i) && i < |ps| && |next| == |ps|
    requires forall k :: 0 <= k < |ps| ==>
      next[k] == (if ps[k] == ps[i] then Parameters.PendingChange(cur[i], ps[i].canRamp, duration).1 else cur[k])
    requires c == Parameters.PendingChange(cur[i], ps[i].canRamp, duration).0
    requires anyBefore <==> exists k :: 0 <= k < i && Parameters.PendingChange(olds[k], ps[k].canRamp, duration).0
    ensures CheckedUpTo(ps, olds, next, duration, i + 1)
    ensures anyBefore || c <==> exists k :: 0 <= k < i + 1 && Parameters.PendingChange(olds[k], ps[k].canRamp, duration).0
  {
    assert ps[..i + 1] == ps[..i] + [ps[i]];
    Parameters.SecondCheckIsQuiet(olds[i], ps[i].canRamp, duration, duration);
    if ps[i] in ps[..i] {
      var j :| 0 <= j < i && ps[..i][j] == ps[i];
      assert ps[j] == ps[i] && olds[j] == olds[i];
    }
  }

  /**
   `EventProcessor<T>`: the state of the render loop. `capacity` is the frame
   capacity of the output bus buffer and `trace` the calls made to the kernel.
   */
  class EventProcessor {
    var parameters: seq<Parameters.Base>
    var rampDuration: nat
    var rampRemaining: nat
    var bypassed: bool
    var rendering: bool
    var capacity: nat
    var trace: seq<Call>

    ghost predicate ParametersValid()
      reads this, set p | p in parameters
    {
      forall p :: p in parameters ==> p.Valid()
    }

    /** A new processor: not bypassed, not rendering, no parameters, no ramp. */
    constructor()
      ensures parameters == [] && rampDuration == 0 && rampRemaining == 0
      ensures !bypassed && !rendering && capacity == 0 && trace == []
    {
      parameters := [];
      rampDuration := 0;
      rampRemaining := 0;
      bypassed := false;
      rendering := false;
      capacity := 0;
      trace := [];
    }

    /** `setBypass`. */
    method SetBypass(bypass: bool)
      modifies this
      ensures bypassed == bypass
      ensures parameters == old(parameters) && rampDuration == old(rampDuration) && rampRemaining == old(rampRemaining)
      ensures rendering == old(rendering) && capacity == old(capacity) && trace == old(trace)
    {
      bypassed := bypass;
    }

    /** `isRamping`: some parameter is being ramped. */
    predicate IsRamping()
      reads this
    {
      rampRemaining > 0
    }

    /** `registerParameters`. */
    method RegisterParameters(collection: seq<Parameters.Base>)
      modifies this
      ensures parameters == collection
      ensures rampDuration == old(rampDuration) && rampRemaining == old(rampRemaining) && bypassed == old(bypassed)
      ensures rendering == old(rendering) && capacity == old(capacity) && trace == old(trace)
    {
      parameters := collection;
    }

    /** `renderingStateChanged`: every parameter ramp is stopped and the countdown cleared. */
    method RenderingStateChanged()
      requires ParametersValid()
      modifies this, set p | p in parameters
      ensures ParametersValid()
      ensures parameters == old(parameters) && rampDuration == old(rampDuration) && rampRemaining == 0
      ensures bypassed == old(bypassed) && rendering == old(rendering) && capacity == old(capacity) && trace == old(trace)
      ensures forall p :: p in parameters ==> p.Snapshot() == old(p.Snapshot()).(rampRemaining := 0)
    {
      var i := 0;
      while i < |parameters|
        invariant 0 <= i <= |parameters|
        invariant parameters == old(parameters) && rampDuration == old(rampDuration) && rampRemaining == old(rampRemaining)
        invariant bypassed == old(bypassed) && rendering == old(rendering) && capacity == old(capacity) && trace == old(trace)
        invariant ParametersValid()
        invariant forall k :: 0 <= k < i ==> parameters[k].Snapshot() == old(parameters[k].Snapshot()).(rampRemaining := 0)
        invariant forall p :: p in parameters && p !in parameters[..i] ==> p.Snapshot() == old(p.Snapshot())
      {
        parameters[i].StopRamping();
        i := i + 1;
      }
      rampRemaining := 0;
    }

    /**
     `setRendering`: nothing happens when the state is unchanged; a change of
     state stops every parameter ramp and clears the countdown.
     */
    method SetRendering(state: bool)
      requires ParametersValid()
      modifies this, set p | p in parameters
      ensures ParametersValid()
      ensures rendering == state
      ensures parameters == old(parameters) && rampDuration == old(rampDuration)
      ensures bypassed == old(bypassed) && capacity == old(capacity) && trace == old(trace)
      ensures state == old(rendering) ==>
        rampRemaining == old(rampRemaining) && (forall p :: p in parameters ==> p.Snapshot() == old(p.Snapshot()))
      ensures state != old(rendering) ==>
        rampRemaining == 0 && (forall p :: p in parameters ==> p.Snapshot() == old(p.Snapshot()).(rampRemaining := 0))
    {
      if state == rendering {
        return;
      }
      rendering := state;
      RenderingStateChanged();
    }

    /**
     `setRenderingFormat`, as far as the render loop sees it: the ramp length
     (computed from the sample rate by the caller) and the buffer capacity are
     set, and rendering starts.
     */
    method SetRenderingFormat(newRampDuration: nat, maxFramesToRender: nat)
      requires ParametersValid()
      modifies this, set p | p in parameters
      ensures ParametersValid()
      ensures rendering && rampDuration == newRampDuration && capacity == maxFramesToRender
      ensures parameters == old(parameters) && bypassed == old(bypassed) && trace == old(trace)
      ensures old(rendering) ==>
        rampRemaining == old(rampRemaining) && (forall p :: p in parameters ==> p.Snapshot() == old(p.Snapshot()))
      ensures !old(rendering) ==>
        rampRemaining == 0 && (forall p :: p in parameters ==> p.Snapshot() == old(p.Snapshot()).(rampRemaining := 0))
    {
      rampDuration := newRampDuration;
      capacity := maxFramesToRender;
      SetRendering(true);
    }

    /** `deallocateRenderResources`, as far as the render loop sees it: rendering stops. */
    method DeallocateRenderResources()
      requires ParametersValid()
      modifies this, set p | p in parameters
      ensures ParametersValid()
      ensures !rendering
      ensures parameters == old(parameters) && rampDuration == old(rampDuration)
      ensures bypassed == old(bypassed) && capacity == old(capacity) && trace == old(trace)
      ensures !old(rendering) ==>
        rampRemaining == old(rampRemaining) && (forall p :: p in parameters ==> p.Snapshot() == old(p.Snapshot()))
      ensures old(rendering) ==>
        rampRemaining == 0 && (forall p :: p in parameters ==> p.Snapshot() == old(p.Snapshot()).(rampRemaining := 0))
    {
      SetRendering(false);
    }

    /** One round of `checkForParameterChanges`: entry `i` adopts its pending value. */
    method CheckEntry(i: nat, ghost olds: seq<Parameters.RampState>, ghost cur: seq<Parameters.RampState>, ghost anyBefore: bool)
      returns (c: bool, ghost next: seq<Parameters.RampState>)
      requires ParametersValid() && i < |parameters|
      requires |cur| == |parameters| && forall k :: 0 <= k < |parameters| ==> parameters[k].Snapshot() == cur[k]
      requires CheckedUpTo(parameters, olds, cur, rampDuration, i)
      requires anyBefore <==> exists k :: 0 <= k < i && Parameters.PendingChange(olds[k], parameters[k].canRamp, rampDuration).0
      modifies parameters[i]
      ensures ParametersValid()
      ensures |next| == |parameters| && forall k :: 0 <= k < |parameters| ==> parameters[k].Snapshot() == next[k]
      ensures CheckedUpTo(parameters, olds, next, rampDuration, i + 1)
      ensures anyBefore || c <==> exists k :: 0 <= k < i + 1 && Parameters.PendingChange(olds[k], parameters[k].canRamp, rampDuration).0
    {
      var p := parameters[i];
      c := p.CheckForPendingChange(rampDuration);
      ghost var ps := parameters;
      ghost var after := Parameters.PendingChange(cur[i], p.canRamp, rampDuration).1;
      next := seq(|cur|, k requires 0 <= k < |cur| => if ps[k] == p then after else cur[k]);
      CheckStep(parameters, olds, cur, next, rampDuration, i, anyBefore, c);
    }

    /** The loop of `checkForParameterChanges`: every entry in turn adopts its pending value. */
    method CheckAllEntries() returns (anyChanged: bool)
      requires ParametersValid()
      modifies set p | p in parameters
      ensures ParametersValid()
      ensures anyChanged <==> exists k :: 0 <= k < |parameters| && Parameters.PendingChange(old(parameters[k].Snapshot()), parameters[k].canRamp, rampDuration).0
      ensures forall k :: 0 <= k < |parameters| ==>
        parameters[k].Snapshot() == Parameters.PendingChange(old(parameters[k].Snapshot()), parameters[k].canRamp, rampDuration).1
    {
      ghost var olds := SnapshotsOf(parameters);
      ghost var cur := olds;
      anyChanged := false;
      var i := 0;
      while i < |parameters|
        invariant 0 <= i <= |parameters|
        invariant ParametersValid()
        invariant |cur| == |parameters| && forall k :: 0 <= k < |parameters| ==> parameters[k].Snapshot() == cur[k]
        invariant CheckedUpTo(parameters, olds, cur, rampDuration, i)
        invariant anyChanged <==> exists k :: 0 <= k < i && Parameters.PendingChange(olds[k], parameters[k].canRamp, rampDuration).0
      {
        var c;
        c, cur := CheckEntry(i, olds, cur, anyChanged);
        anyChanged := anyChanged || c;
        i := i + 1;
      }
      assert parameters[..|parameters|] == parameters;
    }

    /**
     `checkForParameterChanges`: every parameter adopts its pending value with
     the standard ramp length (a parameter listed twice is checked twice, the
     second check finding nothing); if any reported a change the countdown is
     raised to the ramp length.
     */
    method CheckForParameterChanges() returns (ghost changed: bool)
      requires ParametersValid()
      modifies this, set p | p in parameters
      ensures ParametersValid()
      ensures parameters == old(parameters) && rampDuration == old(rampDuration)
      ensures changed <==> exists k :: 0 <= k < |parameters| && Parameters.PendingChange(old(parameters[k].Snapshot()), parameters[k].canRamp, rampDuration).0
      ensures forall k :: 0 <= k < |parameters| ==>
        parameters[k].Snapshot() == Parameters.PendingChange(old(parameters[k].Snapshot()), parameters[k].canRamp, rampDuration).1
      ensures rampRemaining == RaisedRamp(changed, old(rampRemaining), rampDuration)
      ensures bypassed == old(bypassed) && rendering == old(rendering) && capacity == old(capacity) && trace == old(trace)
    {
      var anyChanged := CheckAllEntries();
      changed := anyChanged;
      if anyChanged && rampDuration > rampRemaining {
        rampRemaining := rampDuration;
      }
    }

    /**
     `renderFrames(frameCount, processedFrameCount)`: the kernel calls for one
     piece. The countdown is left as it was: the subtraction after the
     one-frame loop subtracts the loop counter, which is zero by then.
     */
    method RenderFrames(frameCount: nat, processedFrameCount: nat)
      modifies this
      ensures trace == old(trace) + FramesCalls(frameCount, processedFrameCount, old(rampRemaining), bypassed)
      ensures parameters == old(parameters) && rampDuration == old(rampDuration) && rampRemaining == old(rampRemaining)
      ensures bypassed == old(bypassed) && rendering == old(rendering) && capacity == old(capacity)
    {
      if bypassed {
        return;
      }
      var n := frameCount;
      if rampRemaining > 0 {
        var rampCount: nat := StdAlgorithm.Min(rampRemaining, n);
        n := n - rampCount;
        ghost var total := rampCount;
        while rampCount > 0
          invariant rampCount <= total
          invariant trace == old(trace) + seq(total - rampCount, _ => Rendering(processedFrameCount, 1))
          invariant parameters == old(parameters) && rampDuration == old(rampDuration) && rampRemaining == old(rampRemaining)
          invariant bypassed == old(bypassed) && rendering == old(rendering) && capacity == old(capacity)
        {
          trace := trace + [Rendering(processedFrameCount, 1)];
          rampCount := rampCount - 1;
        }
        rampRemaining := rampRemaining - rampCount;
      }
      if n > 0 {
        trace := trace + [Rendering(processedFrameCount, n)];
      }
    }

    /** The body of the loop in `processEventsUntil`: the `switch` on the event type. */
    method HandleEvent(event: Event, index: nat)
      modifies this
      ensures var e := ApplyEvent(event, index, old(rampRemaining), rampDuration);
        trace == old(trace) + e.0 && rampRemaining == e.1
      ensures parameters == old(parameters) && rampDuration == old(rampDuration)
      ensures bypassed == old(bypassed) && rendering == old(rendering) && capacity == old(capacity)
    {
      match event.kind {
        case Parameter =>
          trace := trace + [ParameterEvent(index, rampDuration)];
          if event.accepted {
            if rampDuration > rampRemaining {
              rampRemaining := rampDuration;
            }
          }
        case ParameterRamp =>
          trace := trace + [ParameterEvent(index, event.rampDuration)];
          if event.accepted {
            if event.rampDuration > rampRemaining {
              rampRemaining := event.rampDuration;
            }
          }
        case Midi =>
          trace := trace + [MidiEvent(index)];
        case MidiSysEx =>
          trace := trace + [MidiEvent(index)];
        case MidiEventList =>
        case Other =>
      }
    }

    /**
     `processEventsUntil(now, event)`: hand the events from `i` on to the
     kernel while they are due, and return the first one that is not.
     */
    method ProcessEventsUntil(now: int, evs: seq<Event>, i: nat) returns (j: nat)
      requires i <= |evs|
      modifies this
      ensures j == FirstAfter(evs, i, now)
      ensures var e := Expand(evs, Applies(i, j), old(rampRemaining), rampDuration, bypassed);
        trace == old(trace) + e.0 && rampRemaining == e.1
      ensures parameters == old(parameters) && rampDuration == old(rampDuration)
      ensures bypassed == old(bypassed) && rendering == old(rendering) && capacity == old(capacity)
    {
      j := i;
      while j < |evs| && evs[j].time <= now
        invariant i <= j <= |evs|
        invariant forall k :: i <= k < j ==> evs[k].time <= now
        invariant var e := Expand(evs, Applies(i, j), old(rampRemaining), rampDuration, bypassed);
          trace == old(trace) + e.0 && rampRemaining == e.1
        invariant parameters == old(parameters) && rampDuration == old(rampDuration)
        invariant bypassed == old(bypassed) && rendering == old(rendering) && capacity == old(capacity)
        decreases |evs| - j
      {
        ghost var before := rampRemaining;
        HandleEvent(evs[j], j);
        ExpandAppend(evs, Applies(i, j), [Apply(j)], old(rampRemaining), rampDuration, bypassed);
        ExpandSingle(evs, Apply(j), before, rampDuration, bypassed);
        AppliesSnoc(i, j);
        j := j + 1;
      }
      FirstAfterIs(evs, i, now, j);
    }

    /**
     One round of the loop in `render`: the frames up to the next event's
     time (none if it is already due), then the events due by then. The block
     runs from sample time `start` to `end`, so the piece is rendered at offset
     `now - start`. The round keeps the loop's invariant.
     */
    method RenderSegment(now: int, start: int, ghost end: int, evs: seq<Event>, i: nat,
                         ghost base: seq<Call>, ghost total: (seq<Call>, nat))
      returns (framesThisSegment: nat, j: nat)
      requires i < |evs| && now < end
      requires RenderInvariant(evs, i, now, end, start, rampRemaining, rampDuration, bypassed, base, total, trace)
      modifies this
      ensures i < j && framesThisSegment <= end - now
      ensures RenderInvariant(evs, j, now + framesThisSegment, end, start, rampRemaining, rampDuration, bypassed, base, total, trace)
      ensures parameters == old(parameters) && rampDuration == old(rampDuration)
      ensures bypassed == old(bypassed) && rendering == old(rendering) && capacity == old(capacity)
    {
      ghost var (t0, r0) := (trace, rampRemaining);
      framesThisSegment := StdAlgorithm.Max(evs[i].time - now, 0);
      ghost var pieces := if framesThisSegment > 0 then FramesCalls(framesThisSegment, now - start, r0, bypassed) else [];
      if framesThisSegment > 0 {
        RenderFrames(framesThisSegment, now - start);
      } else {
        assert trace + pieces == trace;
      }
      j := ProcessEventsUntil(now + framesThisSegment, evs, i);
      ghost var applied := Expand(evs, Applies(i, j), r0, rampDuration, bypassed);
      AppendAssoc(t0, pieces, applied.0);
      RenderRound(evs, i, now, end, start, r0, rampDuration, bypassed, base, total, t0, trace, rampRemaining,
                  framesThisSegment, now - start, j);
    }

    /** The last round of `render`: no events are left, so the rest of the block is rendered in one piece. */
    method RenderTail(current: int, framesRemaining: nat, offset: nat, evs: seq<Event>,
                      ghost end: int, ghost start: int, ghost base: seq<Call>, ghost total: (seq<Call>, nat))
      requires RenderInvariant(evs, |evs|, current, end, start, rampRemaining, rampDuration, bypassed, base, total, trace)
      requires current < end && framesRemaining == end - current && offset == current - start
      modifies this
      ensures base + total.0 == trace && total.1 == rampRemaining
      ensures parameters == old(parameters) && rampDuration == old(rampDuration)
      ensures bypassed == old(bypassed) && rendering == old(rendering) && capacity == old(capacity)
    {
      ghost var (t0, r0) := (trace, rampRemaining);
      RenderFrames(framesRemaining, offset);
      RenderLast(evs, current, end, start, r0, rampDuration, bypassed, base, total, t0, trace, framesRemaining, offset);
    }

    /**
     The loop of `render`: round by round, the frames up to the next due event
     are rendered and the events due by then are handled, until the block is
     complete; the trace gains the calls of `RenderEffect`.
     */
    method RenderRounds(now: int, frameCount: nat, evs: seq<Event>, ghost total: (seq<Call>, nat))
      requires RenderInvariant(evs, 0, now, now + frameCount, now, rampRemaining, rampDuration, bypassed, trace, total, trace)
      modifies this
      ensures trace == old(trace) + total.0 && rampRemaining == total.1
      ensures parameters == old(parameters) && rampDuration == old(rampDuration)
      ensures bypassed == old(bypassed) && rendering == old(rendering) && capacity == old(capacity)
    {
      var current := now;
      var framesRemaining: nat := frameCount;
      var i: nat := 0;
      while framesRemaining > 0
        invariant current + framesRemaining == now + frameCount
        invariant RenderInvariant(evs, i, current, now + frameCount, now, rampRemaining, rampDuration, bypassed, old(trace), total, trace)
        invariant parameters == old(parameters) && rampDuration == old(rampDuration)
        invariant bypassed == old(bypassed) && rendering == old(rendering) && capacity == old(capacity)
        decreases |evs| - i
      {
        if i == |evs| {
          RenderTail(current, framesRemaining, frameCount - framesRemaining, evs, now + frameCount, now, old(trace), total);
          return;
        }
        var framesThisSegment, j := RenderSegment(current, now, now + frameCount, evs, i, old(trace), total);
        current := current + framesThisSegment;
        framesRemaining := framesRemaining - framesThisSegment;
        i := j;
      }
      RenderDone(evs, i, current, now + frameCount, now, rampRemaining, rampDuration, bypassed, old(trace), total, trace);
    }

    /**
     `render`: cut the block of `frameCount` frames starting at sample time
     `now` at the events' times, rendering each piece and handing the events
     over as they fall due. The kernel calls are those of the block's schedule.
     */
    method Render(now: int, frameCount: nat, evs: seq<Event>)
      requires InWindow(evs, 0, now + frameCount)
      modifies this
      ensures var e := Expand(evs, Schedule(evs, 0, now, now + frameCount, now), old(rampRemaining), rampDuration, bypassed);
        trace == old(trace) + e.0 && rampRemaining == e.1
      ensures parameters == old(parameters) && rampDuration == old(rampDuration)
      ensures bypassed == old(bypassed) && rendering == old(rendering) && capacity == old(capacity)
    {
      ghost var total := RenderEffect(evs, 0, now, now + frameCount, now, rampRemaining, rampDuration, bypassed);
      RenderRounds(now, frameCount, evs, total);
      RenderComplete(evs, now + frameCount, now, old(rampRemaining), rampDuration, bypassed, old(trace), total, trace, rampRemaining);
    }

    /**
     `processAndRender`. `pull` stands for the upstream pull: `None` when there
     is no `pullInputBlock`, otherwise the status the pull returned. A block
     larger than the buffer capacity, or a failed pull, returns at once with
     nothing changed; otherwise the pending parameter changes are taken and the
     block is rendered.
     */
    method ProcessAndRender(now: int, frameCount: nat, evs: seq<Event>, pull: Option<int>) returns (status: int)
      requires ParametersValid()
      requires InWindow(evs, 0, now + frameCount)
      modifies this, set p | p in parameters
      ensures parameters == old(parameters) && rampDuration == old(rampDuration)
      ensures bypassed == old(bypassed) && rendering == old(rendering) && capacity == old(capacity)
      ensures ParametersValid()
      ensures frameCount > capacity ==> status == TooManyFramesToProcess
      ensures frameCount <= capacity && pull.Some? && pull.value != NoErr ==> status == pull.value
      ensures status == NoErr <==> frameCount <= capacity && (pull.None? || pull.value == NoErr)
      ensures status != NoErr ==> trace == old(trace) && rampRemaining == old(rampRemaining)
      ensures status != NoErr ==> forall k :: 0 <= k < |parameters| ==> parameters[k].Snapshot() == old(parameters[k].Snapshot())
      ensures status == NoErr ==> forall k :: 0 <= k < |parameters| ==>
        parameters[k].Snapshot() == Parameters.PendingChange(old(parameters[k].Snapshot()), parameters[k].canRamp, rampDuration).1
      ensures status == NoErr ==>
        var changed := exists k :: 0 <= k < |parameters| && Parameters.PendingChange(old(parameters[k].Snapshot()), parameters[k].canRamp, rampDuration).0;
        var e := Expand(evs, Schedule(evs, 0, now, now + frameCount, now),
                        RaisedRamp(changed, old(rampRemaining), rampDuration), rampDuration, bypassed);
        trace == old(trace) + e.0 && rampRemaining == e.1
    {
      if frameCount > capacity {
        return TooManyFramesToProcess;
      }
      if pull.Some? && pull.value != NoErr {
        return pull.value;
      }
      ghost var changed := CheckForParameterChanges();
      Render(now, frameCount, evs);
      status := NoErr;
    }
  }
}
