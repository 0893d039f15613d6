/** The console worker's pacing: each iteration of the worker loop decides
    how long to sleep from the performance-counter reading, then runs the
    native core frame by frame until it signals a frame swap (at most 100
    steps).  Ticks and the counter frequency are inputs; the speed sample is
    a C# double, modelled as `real`; the sleep is `remaining*1000/frequency`
    in integer arithmetic. */
module Pacing {
  import opened Outcomes

  /** The inner loop's step limit. */
  const MaximumFrameCount := 100

  /** The worker loop's locals carried from one iteration to the next. */
  datatype PaceState = PaceState(lastSample: int, lastTarget: int, lastFrameCount: int)

  /** Their values before the first iteration. */
  const Start := PaceState(0, 0, 0)

  /** Ticks per frame at 60 frames per second. */
  function TargetPeriod(frequency: int): int
    requires frequency > 0
  {
    frequency / 60
  }

  /** What the loop guarantees between iterations: once a sample was taken,
      the inner loop has run between 1 and 100 steps, so the division by
      `lastFrameCount` is safe; before the first iteration it is 0. */
  predicate Settled(p: PaceState) {
    0 <= p.lastFrameCount <= MaximumFrameCount
    && (p.lastSample != 0 ==> p.lastFrameCount >= 1)
  }

  /** The target extrapolated from the previous one: one period per frame
      executed since. */
  function Due(p: PaceState, frequency: int): int
    requires frequency > 0
  {
    p.lastTarget + TargetPeriod(frequency) * p.lastFrameCount
  }

  /** How far behind the target the loop may fall before giving up: ten
      times the time the last iteration's frames should have taken. */
  function Tolerance(p: PaceState, frequency: int): int
    requires frequency > 0
  {
    (TargetPeriod(frequency) * p.lastFrameCount) * 10
  }

  /** Seconds per frame over the last iteration, as fed to the sampler. */
  function SpeedSample(delta: int, frameCount: int, frequency: int): (r: real)
    requires frameCount >= 1 && frequency > 0
    ensures r * frameCount as real * frequency as real == delta as real
  {
    (delta as real / frameCount as real) / frequency as real
  }

  /** One iteration's timing decision: the new lastSample and lastTarget,
      the sleep in milliseconds (before the clamp to 0) and the speed
      sample, if one is taken. */
  datatype Decision = Decision(sample: int, target: int, sleepTime: int, speed: Option<real>)

  function Decide(p: PaceState, now: int, frequency: int): (d: Decision)
    requires frequency > 0 && Settled(p)
    ensures d.sleepTime >= 0
    // first iteration: pretend to be on target, sleep 0, no sample
    ensures p.lastSample == 0 ==> d == Decision(now, now, 0, None)
    ensures p.lastSample != 0 ==>
              d.sample == now
              && d.speed == Some(SpeedSample(now - p.lastSample, p.lastFrameCount, frequency))
    // more than ten frames' worth behind: give up and re-baseline on now
    ensures p.lastSample != 0 ==>
              (now - Due(p, frequency) <= Tolerance(p, frequency) ==> d.target == Due(p, frequency))
              && (now - Due(p, frequency) > Tolerance(p, frequency) ==> d.target == now && d.sleepTime == 0)
    // behind schedule: no sleep; ahead: sleep the remaining time, rounded down
    ensures p.lastSample != 0 && now > Due(p, frequency) ==> d.sleepTime == 0
    ensures p.lastSample != 0 && now <= Due(p, frequency) ==>
              d.sleepTime * frequency <= (Due(p, frequency) - now) * 1000 < (d.sleepTime + 1) * frequency
    // the schedule never lags the clock by more than ten frames' worth
    ensures now - d.target <= Tolerance(p, frequency)
    // and a sleep never runs past the target
    ensures now * 1000 + d.sleepTime * frequency <= d.target * 1000 || d.sleepTime == 0
  {
    if p.lastSample == 0 then
      Decision(now, now, 0, None)
    else
      var period := TargetPeriod(frequency);
      var delta := now - p.lastSample;
      var target := p.lastTarget + period * p.lastFrameCount;
      var remaining := target - now;
      var speed := SpeedSample(delta, p.lastFrameCount, frequency);
      TargetPeriodNonNegative(frequency, p.lastFrameCount);
      if remaining < 0 then
        if remaining < -(period * p.lastFrameCount) * 10 then
          Decision(now, now, 0, Some(speed))
        else
          Decision(now, target, 0, Some(speed))
      else
        FloorDivision(remaining * 1000, frequency);
        Decision(now, target, remaining * 1000 / frequency, Some(speed))
  }

  lemma TargetPeriodNonNegative(frequency: int, frameCount: int)
    requires frequency > 0 && frameCount >= 0
    ensures TargetPeriod(frequency) * frameCount >= 0
  {
  }

  lemma FloorDivision(x: int, f: int)
    requires x >= 0 && f > 0
    ensures x / f >= 0 && (x / f) * f <= x < (x / f + 1) * f
  {
  }

  // ---------------------------------------------------------------------
  // The inner loop: run the core until it swaps a frame, at most 100 times.

  /** Whether the k-th step of the core (from 0) signals a frame swap;
      steps past the end of `swaps` do not. */
  predicate Signalled(swaps: seq<bool>, k: int) {
    0 <= k < |swaps| && swaps[k]
  }

  /** How many steps the inner loop runs: it stops right after the first
      step that signals a swap, or after 100 steps. */
  function FramesRun(swaps: seq<bool>): (r: int)
    ensures 1 <= r <= MaximumFrameCount
    ensures forall k :: 0 <= k < r - 1 ==> !Signalled(swaps, k)
    ensures r < MaximumFrameCount ==> Signalled(swaps, r - 1)
  {
    FramesFrom(swaps, 1)
  }

  /** The inner loop once `done` steps have run without stopping it. */
  function FramesFrom(swaps: seq<bool>, done: int): (r: int)
    requires 1 <= done <= MaximumFrameCount
    ensures done <= r <= MaximumFrameCount
    ensures forall k :: done - 1 <= k < r - 1 ==> !Signalled(swaps, k)
    ensures r < MaximumFrameCount ==> Signalled(swaps, r - 1)
    decreases MaximumFrameCount - done
  {
    if Signalled(swaps, done - 1) || done == MaximumFrameCount then done
    else FramesFrom(swaps, done + 1)
  }

  // ---------------------------------------------------------------------
  // The whole worker loop as a value.

  /** The pacing state, the sleeps passed to Thread.Sleep and the samples
      fed to the speed calculator, after some iterations. */
  datatype Trace = Trace(pacing: PaceState, sleeps: seq<int>, speeds: seq<real>)

  /** One iteration of the worker loop at clock reading `now`, the core's
      steps signalling swaps as `swaps` says. */
  function Iterate(t: Trace, now: int, swaps: seq<bool>, frequency: int): (r: Trace)
    requires frequency > 0 && Settled(t.pacing)
    ensures Settled(r.pacing) && r.pacing.lastFrameCount == FramesRun(swaps)
    ensures |r.sleeps| == |t.sleeps| + 1 && r.sleeps[..|t.sleeps|] == t.sleeps
  {
    var d := Decide(t.pacing, now, frequency);
    var sleep := if d.sleepTime < 0 then 0 else d.sleepTime;
    Trace(PaceState(d.sample, d.target, FramesRun(swaps)),
          t.sleeps + [sleep],
          t.speeds + (if d.speed.Some? then [d.speed.value] else []))
  }

  /** The worker loop run for |ticks| iterations from its initial locals. */
  function Schedule(ticks: seq<int>, swaps: seq<seq<bool>>, frequency: int): (r: Trace)
    requires frequency > 0 && |swaps| == |ticks|
    ensures Settled(r.pacing) && |r.sleeps| == |ticks|
    decreases |ticks|
  {
    if ticks == [] then Trace(Start, [], [])
    else
      var n := |ticks| - 1;
      Iterate(Schedule(ticks[..n], swaps[..n], frequency), ticks[n], swaps[n], frequency)
  }

  /** An iteration, given its decision, its sleep and its frame count. */
  lemma IterateSplits(t: Trace, now: int, swaps: seq<bool>, frequency: int, d: Decision, sleep: int, frames: int, speeds: seq<real>)
    requires frequency > 0 && Settled(t.pacing) && d == Decide(t.pacing, now, frequency)
    requires sleep == (if d.sleepTime < 0 then 0 else d.sleepTime) && frames == FramesRun(swaps)
    requires speeds == t.speeds + (if d.speed.Some? then [d.speed.value] else [])
    ensures Iterate(t, now, swaps, frequency) == Trace(PaceState(d.sample, d.target, frames), t.sleeps + [sleep], speeds)
  {
  }

  /** The schedule of one more iteration. */
  lemma ScheduleSnoc(ticks: seq<int>, swaps: seq<seq<bool>>, i: int, frequency: int)
    requires frequency > 0 && |swaps| == |ticks| && 0 <= i < |ticks|
    ensures Schedule(ticks[..i + 1], swaps[..i + 1], frequency)
              == Iterate(Schedule(ticks[..i], swaps[..i], frequency), ticks[i], swaps[i], frequency)
  {
    assert ticks[..i + 1][..i] == ticks[..i];
    assert swaps[..i + 1][..i] == swaps[..i];
  }

  /** No sleep is ever negative, and the first is 0. */
  lemma {:induction false} SleepsNonNegative(ticks: seq<int>, swaps: seq<seq<bool>>, frequency: int)
    requires frequency > 0 && |swaps| == |ticks|
    ensures forall k :: 0 <= k < |ticks| ==> Schedule(ticks, swaps, frequency).sleeps[k] >= 0
    ensures |ticks| > 0 ==> Schedule(ticks, swaps, frequency).sleeps[0] == 0
    decreases |ticks|
  {
    if ticks != [] {
      var n := |ticks| - 1;
      SleepsNonNegative(ticks[..n], swaps[..n], frequency);
      if n == 0 {
        assert Schedule(ticks[..n], swaps[..n], frequency).pacing == Start;
      }
    }
  }

  /** An iteration after the first records the reading and feeds the
      sampler the time per frame since the previous reading. */
  lemma IterateFeeds(t: Trace, now: int, swaps: seq<bool>, frequency: int)
    requires frequency > 0 && Settled(t.pacing) && t.pacing.lastSample != 0
    ensures var r := Iterate(t, now, swaps, frequency);
            r.pacing.lastSample == now
            && r.speeds == t.speeds + [SpeedSample(now - t.pacing.lastSample, t.pacing.lastFrameCount, frequency)]
  {
  }

  /** What SpeedsFollowTicks states, for one schedule. */
  ghost predicate FedByTicks(r: Trace, ticks: seq<int>, swaps: seq<seq<bool>>, frequency: int)
    requires frequency > 0 && |swaps| == |ticks| && |ticks| > 0
  {
    |r.speeds| == |ticks| - 1
    && r.pacing.lastSample == ticks[|ticks| - 1]
    && r.pacing.lastFrameCount == FramesRun(swaps[|ticks| - 1])
    && forall k :: 0 <= k < |r.speeds| ==>
         r.speeds[k] == SpeedSample(ticks[k + 1] - ticks[k], FramesRun(swaps[k]), frequency)
  }

  /** While the counter never reads 0, every iteration but the first feeds
      the speed calculator exactly one sample, and the k-th sample is the
      time per frame between readings k and k+1. */
  lemma {:induction false} SpeedsFollowTicks(ticks: seq<int>, swaps: seq<seq<bool>>, frequency: int)
    requires frequency > 0 && |swaps| == |ticks| && |ticks| > 0
    requires forall k :: 0 <= k < |ticks| ==> ticks[k] != 0
    ensures FedByTicks(Schedule(ticks, swaps, frequency), ticks, swaps, frequency)
    decreases |ticks|
  {
    var n := |ticks| - 1;
    var t := Schedule(ticks[..n], swaps[..n], frequency);
    assert Schedule(ticks, swaps, frequency) == Iterate(t, ticks[n], swaps[n], frequency);
    if n == 0 {
      assert t.pacing == Start && t.speeds == [];
    } else {
      SpeedsFollowTicks(ticks[..n], swaps[..n], frequency);
      FeedStep(t, ticks, swaps, frequency);
    }
  }

  lemma FeedStep(t: Trace, ticks: seq<int>, swaps: seq<seq<bool>>, frequency: int)
    requires frequency > 0 && |swaps| == |ticks| && |ticks| > 1 && Settled(t.pacing)
    requires ticks[|ticks| - 2] != 0
    requires FedByTicks(t, ticks[..|ticks| - 1], swaps[..|ticks| - 1], frequency)
    ensures FedByTicks(Iterate(t, ticks[|ticks| - 1], swaps[|ticks| - 1], frequency), ticks, swaps, frequency)
  {
    var n := |ticks| - 1;
    var r := Iterate(t, ticks[n], swaps[n], frequency);
    IterateFeeds(t, ticks[n], swaps[n], frequency);
    forall k | 0 <= k < |r.speeds|
      ensures r.speeds[k] == SpeedSample(ticks[k + 1] - ticks[k], FramesRun(swaps[k]), frequency)
    {
      if k < n - 1 {
        assert ticks[..n][k + 1] == ticks[k + 1] && ticks[..n][k] == ticks[k];
        assert swaps[..n][k] == swaps[k];
      }
    }
  }
}
