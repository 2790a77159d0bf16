/**
 `Parameters::Base`: a parameter value owned by the render thread. A value
 set from outside waits in a pending slot; at the start of a render pass it is
 adopted, possibly with a linear ramp of a given number of frames that moves
 the per-frame value from where it was to the new value.
 */
module Parameters {

  /** The render-thread state of a parameter: `value_`, `rampDelta_`, `rampRemaining_`, `pendingValue_`. */
  datatype RampState = RampState(value: real, rampDelta: real, rampRemaining: nat, pending: real)

  /** What `frameValue` would return without advancing: the countdown scaled by the delta, on top of the value. */
  function Output(s: RampState): real
  {
    s.rampRemaining as real * s.rampDelta + s.value
  }

  /**
   The state change of `frameValue(advance)`: an advancing call takes one
   frame off a running countdown; nothing else ever changes.
   */
  function Advance(s: RampState, advance: bool): (t: RampState)
    ensures t.value == s.value && t.rampDelta == s.rampDelta && t.pending == s.pending
    ensures advance && s.rampRemaining > 0 ==> t.rampRemaining == s.rampRemaining - 1
    ensures !advance || s.rampRemaining == 0 ==> t == s
  {
    var remaining := s.rampRemaining - (if advance && s.rampRemaining != 0 then 1 else 0);
    s.(rampRemaining := remaining)
  }

  /**
   `startRamp`: the new value becomes the final value and the countdown is
   the duration. When ramping is possible and the duration positive, the delta
   is chosen so that the per-frame value starts where it was; otherwise the
   delta is kept.
   */
  function RampTo(s: RampState, canRamp: bool, target: real, duration: nat): (t: RampState)
    ensures t.value == target && t.rampRemaining == duration && t.pending == s.pending
    ensures canRamp && duration > 0 ==> Output(t) == Output(s)
    ensures !(canRamp && duration > 0) ==> t.rampDelta == s.rampDelta
  {
    var delta :=
      if canRamp && duration != 0 then
        (Output(Advance(s, false)) - target) / duration as real
      else s.rampDelta;
    s.(rampDelta := delta, rampRemaining := duration, value := target)
  }

  /**
   `checkForPendingChange`: nothing happens when the pending value is already
   the value; otherwise a ramp to the pending value starts, and the answer is
   whether the parameter can ramp. Either way a pending change is consumed.
   */
  function PendingChange(s: RampState, canRamp: bool, duration: nat): (r: (bool, RampState))
    ensures s.pending == s.value ==> r == (false, s)
    ensures s.pending != s.value ==> r.0 == canRamp && r.1 == RampTo(s, canRamp, s.pending, duration)
    ensures r.1.value == r.1.pending
  {
    if s.pending == s.value then (false, s)
    else (canRamp, RampTo(s, canRamp, s.pending, duration))
  }

  /** `setImmediate`: ramp to the transformed value and make it the pending value too. */
  function ImmediateChange(s: RampState, canRamp: bool, internal: real, duration: nat): (t: RampState)
    ensures t.value == internal && t.pending == internal && t.rampRemaining == duration
  {
    RampTo(s, canRamp, internal, duration).(pending := internal)
  }

  /** `k` advancing calls of `frameValue` in a row. */
  function Advances(s: RampState, k: nat): RampState
    decreases k
  {
    if k == 0 then s else Advances(Advance(s, true), k - 1)
  }

  /** A second check right after the first finds nothing pending. */
  lemma SecondCheckIsQuiet(s: RampState, canRamp: bool, d1: nat, d2: nat)
    ensures var t := PendingChange(s, canRamp, d1).1;
      PendingChange(t, canRamp, d2) == (false, t)
  {}

  /** During `k <= D` advancing calls the target and delta stay put while the countdown runs down. */
  lemma {:induction false} AdvancesCount(s: RampState, k: nat)
    requires k <= s.rampRemaining
    ensures Advances(s, k) == s.(rampRemaining := s.rampRemaining - k)
    decreases k
  {
    if k > 0 {
      AdvancesCount(Advance(s, true), k - 1);
    }
  }

  /**
   The ramp is linear: after a ramp over `D` frames starts from per-frame value
   `old`, the `k`-th advancing call returns `old + k*(new - old)/D`.
   */
  lemma RampIsLinear(s: RampState, target: real, duration: nat, k: nat)
    requires 0 < duration && k <= duration
    ensures var start := Output(s);
      Output(Advances(RampTo(s, true, target, duration), k))
        == start + k as real * (target - start) / duration as real
  {
    var t := RampTo(s, true, target, duration);
    AdvancesCount(t, k);
    LinearStep(duration as real, k as real, Output(s), target);
  }

  /** `(d - k) * ((a - b) / d) + b == a + k * (b - a) / d` for `d > 0`. */
  lemma LinearStep(d: real, k: real, a: real, b: real)
    requires d > 0.0
    ensures (d - k) * ((a - b) / d) + b == a + k * (b - a) / d
  {
    var q := (a - b) / d;
    assert q * d == a - b;
    assert k * (b - a) / d == -(k * q);
    assert (d - k) * q == d * q - k * q;
  }

  /**
   After exactly `D` advancing calls the ramp is over and the per-frame value is
   the new value, exactly.
   */
  lemma RampEndsOnTarget(s: RampState, canRamp: bool, target: real, duration: nat)
    ensures var t := Advances(RampTo(s, canRamp, target, duration), duration);
      t.rampRemaining == 0 && Output(t) == target
  {
    AdvancesCount(RampTo(s, canRamp, target, duration), duration);
  }

  /**
   A parameter that cannot ramp and has a zero delta keeps it zero through any
   ramp start, so its per-frame value is always its value.
   */
  lemma NoRampNoDelta(s: RampState, target: real, duration: nat, k: nat)
    requires s.rampDelta == 0.0
    ensures var t := Advances(RampTo(s, false, target, duration), k);
      t.rampDelta == 0.0 && Output(t) == target
  {
    var t0 := RampTo(s, false, target, duration);
    if k <= duration {
      AdvancesCount(t0, k);
    } else {
      AdvancesCount(t0, duration);
      AdvancesPastEnd(Advances(t0, duration), k - duration);
      AdvancesSplit(t0, duration, k - duration);
    }
  }

  lemma {:induction false} AdvancesPastEnd(s: RampState, k: nat)
    requires s.rampRemaining == 0
    ensures Advances(s, k) == s
    decreases k
  {
    if k > 0 {
      AdvancesPastEnd(Advance(s, true), k - 1);
    }
  }

  lemma {:induction false} AdvancesSplit(s: RampState, a: nat, b: nat)
    ensures Advances(s, a + b) == Advances(Advances(s, a), b)
    decreases a
  {
    if a > 0 {
      AdvancesSplit(Advance(s, true), a - 1, b);
    }
  }

  /**
   `Parameters::Base`: one parameter of a kernel. The transforms map between
   the external representation and the one the kernel works with.
   */
  class Base {
    const address: int
    const canRamp: bool
    const transformIn: real -> real
    const transformOut: real -> real
    var value: real
    var rampDelta: real
    var rampRemaining: nat
    var pending: real

    /** A parameter that cannot ramp never acquires a ramp delta. */
    ghost predicate Valid()
      reads this
    {
      !canRamp ==> rampDelta == 0.0
    }

    function Snapshot(): RampState
      reads this
    {
      RampState(value, rampDelta, rampRemaining, pending)
    }

    /** The constructor stores the transformed start value as both value and pending value. */
    constructor(address: int, start: real, canRamp: bool, forward: real -> real, reverse: real -> real)
      ensures Valid()
      ensures this.address == address && this.canRamp == canRamp
      ensures transformIn == forward && transformOut == reverse
      ensures Snapshot() == RampState(forward(start), 0.0, 0, forward(start))
    {
      this.address := address;
      this.canRamp := canRamp;
      transformIn := forward;
      transformOut := reverse;
      value := forward(start);
      rampDelta := 0.0;
      rampRemaining := 0;
      pending := forward(start);
    }

    /** `stopRamping`: the countdown is cleared, so the per-frame value is the final value. */
    method StopRamping()
      requires Valid()
      modifies this
      ensures Valid()
      ensures Snapshot() == old(Snapshot()).(rampRemaining := 0)
      ensures Output(Snapshot()) == value
    {
      rampRemaining := 0;
    }

    /** `isRamping`: a ramp is running exactly while frames remain on the countdown. */
    predicate IsRamping()
      reads this
    {
      rampRemaining > 0
    }

    /** `setPending`: only the pending slot changes, to the transformed value. */
    method SetPending(external: real)
      requires Valid()
      modifies this
      ensures Valid()
      ensures Snapshot() == old(Snapshot()).(pending := transformIn(external))
    {
      pending := transformIn(external);
    }

    /** `getPending`: the pending value in external form. */
    function GetPending(): real
      reads this
    {
      transformOut(pending)
    }

    /** `setImmediate`: ramp to the transformed value over `duration` frames and make it pending too. */
    method SetImmediate(external: real, duration: nat)
      requires Valid()
      modifies this
      ensures Valid()
      ensures Snapshot() == ImmediateChange(old(Snapshot()), canRamp, transformIn(external), duration)
      ensures FinalValue() == transformIn(external) && pending == transformIn(external)
    {
      var internal := transformIn(external);
      StartRamp(internal, duration);
      pending := internal;
    }

    /** `getImmediate`: the final value in external form. */
    function GetImmediate(): real
      reads this
    {
      transformOut(value)
    }

    /** `checkForPendingChange`: adopt a pending change, ramping over `duration` frames. */
    method CheckForPendingChange(duration: nat) returns (changed: bool)
      requires Valid()
      modifies this
      ensures Valid()
      ensures (changed, Snapshot()) == PendingChange(old(Snapshot()), canRamp, duration)
    {
      var p := pending;
      if p == value {
        return false;
      }
      StartRamp(p, duration);
      return canRamp;
    }

    /** `frameValue(advance)`: the per-frame value, taking a frame off the countdown when advancing. */
    method FrameValue(advance: bool) returns (r: real)
      requires Valid()
      modifies this
      ensures Valid()
      ensures Snapshot() == Advance(old(Snapshot()), advance)
      ensures r == Output(Snapshot())
    {
      var remaining := rampRemaining - (if advance && rampRemaining != 0 then 1 else 0);
      r := remaining as real * rampDelta + value;
      rampRemaining := remaining;
    }

    /** `finalValue`: the value a running ramp ends on. */
    function FinalValue(): real
      reads this
    {
      value
    }

    /** `startRamp`. */
    method StartRamp(target: real, duration: nat)
      requires Valid()
      modifies this
      ensures Valid()
      ensures Snapshot() == RampTo(old(Snapshot()), canRamp, target, duration)
    {
      if canRamp && duration != 0 {
        var current := FrameValue(false);
        rampDelta := (current - target) / duration as real;
      }
      rampRemaining := duration;
      value := target;
    }
  }
}
