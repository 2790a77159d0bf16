/**
 `Parameters::RampingParameter`: a value that moves to a new target over a
 number of `frameValue` calls, adding a fixed step per call and landing
 exactly on the target on the last one.
 */
module RampingParameter {

  /** `value_`, `rampTarget_`, `rampStep_`, `rampRemaining_`. */
  datatype RampingState = RampingState(value: real, target: real, step: real, remaining: nat)

  /** What `get` reports: the target while ramping, the value otherwise. */
  function Reported(s: RampingState): real
  {
    if s.remaining > 0 then s.target else s.value
  }

  /**
   `set(target, duration)`: a positive duration starts a ramp from the current
   value; zero jumps straight to the target. Either way `get` returns the
   target at once.
   */
  function SetTo(s: RampingState, target: real, duration: nat): (r: RampingState)
    ensures Reported(r) == target
    ensures r.remaining == duration
    ensures duration == 0 ==> r.value == target
    ensures duration > 0 ==> r.value == s.value && r.step * duration as real == target - s.value
  {
    if duration > 0 then
      s.(remaining := duration, target := target, step := (target - s.value) / duration as real)
    else
      s.(value := target, remaining := 0)
  }

  /**
   The state change of `frameValue`: while ramping, the countdown drops by one
   and the value moves one step, except that the last step lands on the target.
   What `get` reports is never changed.
   */
  function Step(s: RampingState): (r: RampingState)
    ensures s.remaining == 0 ==> r == s
    ensures s.remaining > 0 ==> r.remaining == s.remaining - 1 && r.target == s.target && r.step == s.step
    ensures s.remaining == 1 ==> r.value == s.target
    ensures s.remaining > 1 ==> r.value == s.value + s.step
    ensures Reported(r) == Reported(s)
  {
    if s.remaining > 0 then
      var remaining := s.remaining - 1;
      s.(remaining := remaining, value := if remaining == 0 then s.target else s.value + s.step)
    else s
  }

  /** `stopRamping`: a running ramp jumps to its target; the value `get` reports is kept. */
  function Stop(s: RampingState): (r: RampingState)
    ensures r.remaining == 0
    ensures r.value == Reported(s)
    ensures s.remaining == 0 ==> r == s
  {
    if s.remaining > 0 then s.(remaining := 0, value := s.target) else s
  }

  /** `k` calls of `frameValue` in a row. */
  function Steps(s: RampingState, k: nat): RampingState
    decreases k
  {
    if k == 0 then s else Steps(Step(s), k - 1)
  }

  /**
   During a ramp every call but the last adds the step: `k < remaining` calls
   leave the value `k` steps further on.
   */
  lemma {:induction false} StepsAddStep(s: RampingState, k: nat)
    requires k < s.remaining
    ensures Steps(s, k) == s.(remaining := s.remaining - k, value := s.value + k as real * s.step)
    decreases k
  {
    if k > 0 {
      StepsAddStep(Step(s), k - 1);
    }
  }

  /** The `d`-th call after `set(target, d)` returns exactly the target and ends the ramp. */
  lemma RampEndsOnTarget(s: RampingState, target: real, duration: nat)
    ensures Steps(SetTo(s, target, duration), duration) == SetTo(s, target, duration).(remaining := 0, value := target)
  {
    var t := SetTo(s, target, duration);
    if duration > 0 {
      StepsAddStep(t, duration - 1);
      StepsSplit(t, duration - 1, 1);
    }
  }

  lemma {:induction false} StepsSplit(s: RampingState, a: nat, b: nat)
    ensures Steps(s, a + b) == Steps(Steps(s, a), b)
    decreases a
  {
    if a > 0 {
      StepsSplit(Step(s), a - 1, b);
    }
  }

  /** Once a ramp is over, further calls return the value unchanged. */
  lemma {:induction false} IdleStepsIdentity(s: RampingState, k: nat)
    requires s.remaining == 0
    ensures Steps(s, k) == s
    decreases k
  {
    if k > 0 {
      IdleStepsIdentity(Step(s), k - 1);
    }
  }

  /** `RampingParameter<T>` with `T` a real number. */
  class RampingParameter {
    var value: real
    var target: real
    var step: real
    var remaining: nat

    function Snapshot(): RampingState
      reads this
    {
      RampingState(value, target, step, remaining)
    }

    /**
     The explicit constructor: the value is the initial value and no ramp runs.
     The target and step are left undetermined by the source; here they start
     at the initial value and 0.
     */
    constructor(initialValue: real)
      ensures value == initialValue && remaining == 0
    {
      value := initialValue;
      target := initialValue;
      step := 0.0;
      remaining := 0;
    }

    /** `isRamping`: frames remain on the countdown. */
    predicate IsRamping()
      reads this
    {
      remaining > 0
    }

    /** `stopRamping`. */
    method StopRamping()
      modifies this
      ensures Snapshot() == Stop(old(Snapshot()))
    {
      if remaining > 0 {
        remaining := 0;
        value := target;
      }
    }

    /** `set`. */
    method Set(newTarget: real, duration: nat)
      modifies this
      ensures Snapshot() == SetTo(old(Snapshot()), newTarget, duration)
    {
      if duration > 0 {
        remaining := duration;
        target := newTarget;
        step := (target - value) / duration as real;
      } else {
        value := newTarget;
        remaining := 0;
      }
    }

    /** `get`. */
    function Get(): (r: real)
      reads this
      ensures r == Reported(Snapshot())
    {
      if remaining > 0 then target else value
    }

    /** `frameValue`: advance the ramp by one frame and return the new value. */
    method FrameValue() returns (r: real)
      modifies this
      ensures Snapshot() == Step(old(Snapshot()))
      ensures r == value
    {
      if remaining > 0 {
        remaining := remaining - 1;
        value := if remaining == 0 then target else value + step;
      }
      return value;
    }
  }
}
