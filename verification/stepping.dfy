/** The fixed-step scheduler of the animate callback, and the sparse sketch's gravity ramp.
    The physics step itself belongs to the physics library; here it is a call that is
    counted. */
module Stepping {

  datatype Option<T> = None | Some(value: T)

  /** timeStep: the fixed physics step, 1/60 s. */
  const TimeStep: real := 1.0 / 60.0

  /** stepsPerFrame: the steps a cold start runs. */
  const StepsPerFrame: nat := 2

  /** Math.ceil on exact reals. */
  function Ceil(r: real): (n: int)
    ensures n as real - 1.0 < r <= n as real
  {
    -((-r).Floor)
  }

  /** numSteps = Math.ceil(dt / timeStep): the fewest fixed steps covering dt. It is zero
      or negative when dt <= 0. */
  function NumSteps(dt: real): (n: int)
    ensures (n - 1) as real * TimeStep < dt <= n as real * TimeStep
    ensures dt <= 0.0 ==> n <= 0
    ensures dt > 0.0 ==> n >= 1
  {
    Ceil(dt / TimeStep)
  }

  /** The bracket determines the step count: NumSteps is the only integer with it. */
  lemma NumStepsUnique(dt: real, m: int)
    requires (m - 1) as real * TimeStep < dt <= m as real * TimeStep
    ensures m == NumSteps(dt)
  {
  }

  /** A longer interval never runs fewer steps. */
  lemma NumStepsMonotone(dt1: real, dt2: real)
    requires dt1 <= dt2
    ensures NumSteps(dt1) <= NumSteps(dt2)
  {
    var n1, n2 := NumSteps(dt1), NumSteps(dt2);
    assert (n1 - 1) as real * TimeStep < n2 as real * TimeStep;
  }

  /** !lastCallTime: true before the first call, and equally when the last call was at
      time 0, which the test cannot tell from "never called". */
  predicate IsCold(last: Option<real>)
  {
    last.None? || last.value == 0.0
  }

  /** How many times one animate call steps the world: stepsPerFrame on a cold start,
      otherwise numSteps for the time since the last call (a non-positive numSteps runs
      the loop zero times). No upper bound: a long stall is caught up step by step. */
  function StepsFor(last: Option<real>, t: real): (n: nat)
    ensures IsCold(last) ==> n == StepsPerFrame
    ensures !IsCold(last) && t - last.value <= 0.0 ==> n == 0
    ensures !IsCold(last) && t - last.value > 0.0 ==>
      (n - 1) as real * TimeStep < t - last.value <= n as real * TimeStep
  {
    if IsCold(last) then StepsPerFrame
    else var k := NumSteps(t - last.value); if k < 0 then 0 else k
  }

  /** With the same previous call, a later call never runs fewer steps. */
  lemma StepsForMonotone(last: Option<real>, t1: real, t2: real)
    requires t1 <= t2
    ensures StepsFor(last, t1) <= StepsFor(last, t2)
  {
    if !IsCold(last) {
      NumStepsMonotone(t1 - last.value, t2 - last.value);
    }
  }

  /** rampDuration: the gravity ramp lasts 2000 ms from setup. */
  const RampMs: real := 2000.0

  /** The gravity y of the sparse sketch, from the milliseconds since setup: linear from 2
      down towards -4 during the ramp, then -5 for good. */
  function RampGravity(elapsed: real): (g: real)
    ensures elapsed == 0.0 ==> g == 2.0
    ensures 0.0 <= elapsed < RampMs ==> -4.0 < g <= 2.0
    ensures elapsed >= RampMs ==> g == -5.0
  {
    if elapsed < RampMs then 2.0 + (elapsed / RampMs) * -6.0 else -5.0
  }

  /** During the ramp gravity strictly decreases. */
  lemma RampStrictlyDecreasing(e1: real, e2: real)
    requires e1 < e2 < RampMs
    ensures RampGravity(e1) > RampGravity(e2)
  {
  }

  /** Over all time gravity never increases. */
  lemma RampNonIncreasing(e1: real, e2: real)
    requires e1 <= e2
    ensures RampGravity(e1) >= RampGravity(e2)
  {
    if e1 < e2 < RampMs {
      RampStrictlyDecreasing(e1, e2);
    }
  }

  /** The ramp gets arbitrarily close to -4 yet the held value is -5: gravity jumps by 1
      at 2000 ms instead of arriving continuously at its final value. */
  lemma RampEndsAboveFinal(eps: real)
    requires 0.0 < eps <= 6.0
    ensures 0.0 <= RampMs - eps * RampMs / 6.0 < RampMs
    ensures RampGravity(RampMs - eps * RampMs / 6.0) == -4.0 + eps
    ensures RampGravity(RampMs) == -5.0
  {
  }

  /** The stepping state animate keeps between frames. */
  class Stepper {
    /** lastCallTime, in seconds; None until the first call. */
    var lastCallTime: Option<real>
    /** world.step calls made so far. */
    var stepCount: nat
    /** The y component of world.gravity. */
    var gravityY: real
    /** startTime: performance.now() at setup, in milliseconds. */
    const startTime: real

    /** Setup: the world starts with the sketch's gravity and no call has happened. */
    constructor (gravity: real, setupTime: real)
      ensures lastCallTime == None && stepCount == 0
      ensures gravityY == gravity && startTime == setupTime
    {
      lastCallTime := None;
      stepCount := 0;
      gravityY := gravity;
      startTime := setupTime;
    }

    /** world.step(timeStep): one fixed step of the physics world. */
    method WorldStep()
      modifies this`stepCount
      ensures stepCount == old(stepCount) + 1
    {
      stepCount := stepCount + 1;
    }

    /** The stepping branch of animate: now is performance.now() in milliseconds. */
    method Advance(now: real)
      modifies this`stepCount, this`lastCallTime
      ensures stepCount == old(stepCount) + StepsFor(old(lastCallTime), now / 1000.0)
      ensures lastCallTime == Some(now / 1000.0)
    {
      var t := now / 1000.0;
      if IsCold(lastCallTime) {
        for i := 0 to StepsPerFrame
          invariant stepCount == old(stepCount) + i
          invariant lastCallTime == old(lastCallTime)
        {
          WorldStep();
        }
      } else {
        var dt := t - lastCallTime.value;
        var numSteps := NumSteps(dt);
        var i := 0;
        while i < numSteps
          invariant 0 <= i <= (if numSteps < 0 then 0 else numSteps)
          invariant stepCount == old(stepCount) + i
          invariant lastCallTime == old(lastCallTime)
        {
          WorldStep();
          i := i + 1;
        }
      }
      lastCallTime := Some(t);
    }

    /** The sparse sketch's animate: gravity is set from the ramp first, then the world
        is stepped as in Advance. The sketch reads the clock twice: now for t, rampNow
        for the elapsed time. */
    method AdvanceWithRamp(now: real, rampNow: real)
      modifies this`stepCount, this`lastCallTime, this`gravityY
      ensures gravityY == RampGravity(rampNow - startTime)
      ensures stepCount == old(stepCount) + StepsFor(old(lastCallTime), now / 1000.0)
      ensures lastCallTime == Some(now / 1000.0)
    {
      var elapsed := rampNow - startTime;
      if elapsed < RampMs {
        gravityY := 2.0 + (elapsed / RampMs) * -6.0;
      } else {
        gravityY := -5.0;
      }
      Advance(now);
    }
  }

  /** Two calls: a cold call at a non-zero time makes the next call warm, and the second
      call's steps cover exactly the time between the two. */
  method TwoFrames(s: Stepper, now1: real, now2: real)
    requires s.lastCallTime == None && now1 > 0.0 && now2 > now1
    modifies s`stepCount, s`lastCallTime
    ensures s.stepCount == old(s.stepCount) + StepsPerFrame + NumSteps((now2 - now1) / 1000.0)
    ensures s.lastCallTime == Some(now2 / 1000.0)
  {
    s.Advance(now1);
    s.Advance(now2);
    assert now2 / 1000.0 - now1 / 1000.0 == (now2 - now1) / 1000.0;
  }
}
