/** One real-time cycle of the policy driver (a10_policy_tcp_plan.cpp, `Imp::run_one_cycle`):
    as a class that updates its fields, as the function that specifies it, and the time it
    takes to drain a queue. */
module PolicyDriver {
  import opened Basics
  import opened Keyframes
  import opened PolicyServer

  /** The fields of `Imp`. `lastQ1` joins `last_batch_q1_` and `has_last_batch_q1_`, and
      `lastLegacy` is None while `last_legacy_target` is empty. */
  datatype Driver = Driver(seg: JointSegment, legacy: JointSegment, lastLegacy: Option<Keyframe>,
                           loggedSeq: nat, activeSeq: nat, lastQ1: Option<Keyframe>, batchMode: bool)

  const RESET: Driver := Driver(NO_SEGMENT, NO_SEGMENT, None, 0, 0, None, false)

  const MAX_SKIPS: nat := 64

  /** What was written to the motors, and on whose behalf. */
  datatype Command = Batch(q: Keyframe) | Legacy(q: Keyframe)

  // ---------------------------------------------------------------- pieces of a cycle

  function Started(q0: Keyframe, q1: Keyframe, lim: Limits, minSteps: int): (seg: JointSegment)
    requires lim.Valid()
  {
    JointSegment(true, q0, q1, 0, Max(minSteps, BlendSteps(q0, q1, lim)))
  }

  function Advanced(seg: JointSegment): JointSegment {
    seg.(step := seg.step + 1, active := seg.active && seg.step + 1 < seg.n)
  }

  /** A new commit number breaks the chain of segments. */
  function SyncSeq(d: Driver, seqNow: nat): Driver {
    if seqNow != d.activeSeq then d.(activeSeq := seqNow, lastQ1 := None) else d
  }

  /** Where the next segment is taken to start. */
  function Reference(d: Driver, actual: Keyframe): Keyframe {
    match d.lastQ1 case Some(q) => q case None => actual
  }

  /** Start the segment to `goal` and issue its first command. */
  function BeginBatch(d: Driver, goal: Keyframe, actual: Keyframe, seqLog: nat, lim: Limits): Driver
    requires lim.Valid()
  {
    d.(batchMode := true, lastQ1 := Some(goal), loggedSeq := seqLog,
       seg := Advanced(Started(Reference(d, actual), goal, lim, 2)))
  }

  function FirstCommand(d: Driver, goal: Keyframe, actual: Keyframe, lim: Limits): Keyframe
    requires lim.Valid()
  {
    Lerp(Started(Reference(d, actual), goal, lim, 2))
  }

  predicate LegacyTargetChanged(tq: Keyframe, last: Option<Keyframe>) {
    last.None? || exists i: nat | i < 7 :: Abs(tq[i] - last.value[i]) > 0.000001
  }

  function TickLegacy(d: Driver): Driver {
    var seg := Advanced(d.legacy);
    d.(legacy := seg, lastLegacy := if seg.active then d.lastLegacy else Some(seg.q1))
  }

  /** The single-target fallback, reached only outside batch mode. */
  function LegacyCycle(d: Driver, target: seq<real>, actual: Keyframe, lim: Limits): (Driver, Option<Command>)
    requires lim.Valid()
  {
    if |target| < 6 then (d.(legacy := d.legacy.(active := false), lastLegacy := None), None)
    else
      var tq := Padded(target);
      if d.legacy.active then (TickLegacy(d), Some(Legacy(Lerp(d.legacy))))
      else if LegacyTargetChanged(tq, d.lastLegacy) then
        var started := d.(legacy := Started(actual, tq, lim, 1));
        (TickLegacy(started), Some(Legacy(Lerp(started.legacy))))
      else (d, Some(Legacy(tq)))
  }

  /** The bounded scan for a keyframe within the thresholds: the queue that is left, and whether
      its front was accepted. */
  function SkipScan(queue: seq<Keyframe>, ref: Keyframe, lim: Limits, attempts: nat): (seq<Keyframe>, bool)
  {
    if attempts == 0 || queue == [] then (queue, false)
    else if !Exceeds(ref, queue[0], lim) then (queue, true)
    else SkipScan(queue[1..], ref, lim, attempts - 1)
  }

  /** The scan removes a prefix of at most `attempts` keyframes, every one over a threshold, and
      stops early only at an acceptable front or an empty queue. */
  lemma {:induction false} SkipScanMeaning(queue: seq<Keyframe>, ref: Keyframe, lim: Limits, attempts: nat)
    returns (k: nat)
    ensures k <= |queue| && k <= attempts
    ensures SkipScan(queue, ref, lim, attempts).0 == queue[k..]
    ensures forall i :: 0 <= i < k ==> Exceeds(ref, queue[i], lim)
    ensures SkipScan(queue, ref, lim, attempts).1 ==> k < |queue| && !Exceeds(ref, queue[k], lim)
    ensures !SkipScan(queue, ref, lim, attempts).1 ==> k == attempts || k == |queue|
  {
    if attempts == 0 || queue == [] || !Exceeds(ref, queue[0], lim) {
      k := 0;
    } else {
      var rest := SkipScanMeaning(queue[1..], ref, lim, attempts - 1);
      k := rest + 1;
      assert queue[1..][rest..] == queue[k..];
      forall i | 0 <= i < k ensures Exceeds(ref, queue[i], lim) {
        if i > 0 { assert queue[i] == queue[1..][i - 1]; }
      }
    }
  }

  // ---------------------------------------------------------------- the whole cycle

  datatype Outcome = Outcome(driver: Driver, queue: seq<Keyframe>, command: Option<Command>)

  /** A cycle nobody interrupts: `actual` is the joint reading of this period. */
  function Tick(d: Driver, queue: seq<Keyframe>, seqNow: nat, target: seq<real>, actual: Keyframe, lim: Limits): Outcome
    requires lim.Valid()
  {
    if d.seg.active then
      var seg := Advanced(d.seg);
      Outcome(d.(seg := seg), if seg.active then queue else Popped(queue), Some(Batch(Lerp(d.seg))))
    else
      var d1 := SyncSeq(d, seqNow);
      var (rest, found) := SkipScan(queue, Reference(d1, actual), lim, MAX_SKIPS);
      if found && rest != [] then
        var d2 := BeginBatch(d1, rest[0], actual, seqNow, lim);
        Outcome(d2, if d2.seg.active then rest else Popped(rest), Some(Batch(FirstCommand(d1, rest[0], actual, lim))))
      else if d1.batchMode then Outcome(d1, rest, None)
      else
        var (d2, command) := LegacyCycle(d1, target, actual, lim);
        Outcome(d2, rest, command)
  }

  class A10PolicyTcpDriver {
    var seg: JointSegment
    var legacy: JointSegment
    var lastLegacy: Option<Keyframe>
    var loggedSeq: nat
    var activeSeq: nat
    var lastQ1: Option<Keyframe>
    var batchMode: bool
    var lim: Limits

    function State(): Driver
      reads this
    {
      Driver(seg, legacy, lastLegacy, loggedSeq, activeSeq, lastQ1, batchMode)
    }

    constructor ()
      ensures State() == RESET && lim == BUILT_IN
    {
      seg, legacy, lastLegacy := NO_SEGMENT, NO_SEGMENT, None;
      loggedSeq, activeSeq, lastQ1, batchMode := 0, 0, None, false;
      lim := BUILT_IN;
    }

    method ResetMotionState()
      modifies this
      ensures State() == RESET && lim == old(lim)
    {
      seg := NO_SEGMENT;
      legacy := NO_SEGMENT;
      lastLegacy := None;
      loggedSeq := 0;
      activeSeq := 0;
      lastQ1 := None;
      batchMode := false;
    }

    /** `tick_segment_and_apply` on the batch segment. */
    method TickBatchSegment() returns (q: Keyframe)
      modifies this`seg
      ensures q == Lerp(old(seg)) && seg == Advanced(old(seg))
    {
      q := LerpQ(seg);
      seg := seg.(step := seg.step + 1);
      if seg.step >= seg.n {
        seg := seg.(active := false);
      }
    }

    method TickLegacySegment() returns (q: Keyframe)
      requires legacy.active
      modifies this`legacy, this`lastLegacy
      ensures q == Lerp(old(legacy)) && State() == TickLegacy(old(State()))
    {
      q := LerpQ(legacy);
      legacy := legacy.(step := legacy.step + 1);
      if legacy.step >= legacy.n {
        legacy := legacy.(active := false);
      }
      if !legacy.active {
        lastLegacy := Some(legacy.q1);
      }
    }

    method StartSegment(q0: Keyframe, goal: Keyframe, minSteps: int) returns (s: JointSegment)
      requires lim.Valid()
      ensures s == Started(q0, goal, lim, minSteps)
    {
      var n := BlendStepsSeven(q0, goal, lim);
      s := JointSegment(true, q0, goal, 0, Max(minSteps, n));
    }

    method RunOneCycle(server: A10TcpServer, actual: Keyframe) returns (command: Option<Command>)
      requires lim.Valid()
      modifies this, server`batch
      ensures lim == old(lim)
      ensures Outcome(State(), server.batch, command)
           == Tick(old(State()), old(server.batch), server.commitSeq, server.targetQ, actual, lim)
    {
      if seg.active {
        var q := TickBatchSegment();
        if !seg.active {
          server.PopPolicyBatchFront();
        }
        return Some(Batch(q));
      }
      if server.commitSeq != activeSeq {
        activeSeq := server.commitSeq;
        lastQ1 := None;
      }
      ghost var d1 := SyncSeq(old(State()), server.commitSeq);
      var ref := match lastQ1 case Some(q) => q case None => actual;
      var haveGoal, goal := ScanForGoal(server, ref);
      if haveGoal {
        batchMode := true;
        seg := StartSegment(ref, goal, 2);
        lastQ1 := Some(goal);
        loggedSeq := server.commitSeq;
        var q := TickBatchSegment();
        if !seg.active {
          server.PopPolicyBatchFront();
        }
        return Some(Batch(q));
      }
      assert State() == d1;
      if batchMode {
        return None;
      }
      command := RunLegacy(server.targetQ, actual);
    }

    /** The skip loop: at most 64 keyframes over a threshold are removed. */
    method ScanForGoal(server: A10TcpServer, ref: Keyframe) returns (have: bool, goal: Keyframe)
      modifies server`batch
      ensures (server.batch, have) == SkipScan(old(server.batch), ref, lim, MAX_SKIPS)
      ensures have ==> server.batch != [] && goal == server.batch[0]
    {
      have, goal := false, ZERO;
      for attempt := 0 to MAX_SKIPS
        invariant SkipScan(server.batch, ref, lim, MAX_SKIPS - attempt)
            == SkipScan(old(server.batch), ref, lim, MAX_SKIPS)
      {
        var found, front := server.PeekPolicyBatchFront();
        if !found {
          return false, ZERO;
        }
        goal := PadSeven(front);
        var bad, axis, d := BatchKeyframeExceedsThreshold(ref, goal, lim);
        if !bad {
          return true, goal;
        }
        server.PopPolicyBatchFront();
      }
      return false, ZERO;
    }

    method RunLegacy(target: seq<real>, actual: Keyframe) returns (command: Option<Command>)
      requires lim.Valid()
      modifies this`legacy, this`lastLegacy
      ensures (State(), command) == LegacyCycle(old(State()), target, actual, lim)
    {
      if |target| < 6 {
        legacy := legacy.(active := false);
        lastLegacy := None;
        return None;
      }
      var tq := PadSeven(target);
      if legacy.active {
        var q := TickLegacySegment();
        return Some(Legacy(q));
      }
      if LegacyTargetChanged(tq, lastLegacy) {
        legacy := StartSegment(actual, tq, 1);
        var q := TickLegacySegment();
        return Some(Legacy(q));
      }
      return Some(Legacy(tq));
    }
  }

  // ---------------------------------------------------------------- draining

  /** The longest segment the thresholds allow. */
  function MaxSteps(lim: Limits): (n: int)
    requires lim.Valid()
    ensures n >= 2
  {
    Max(2, Max(Ceil(lim.armDelta / lim.Pace(0)), Ceil(lim.gripDelta / lim.Pace(6))))
  }

  /** It is the least number of periods, two at least, in which the thresholds can be covered at the configured
      speeds. */
  lemma MaxStepsLeast(lim: Limits, n: int)
    requires lim.Valid() && n >= 2
    ensures MaxSteps(lim) <= n
       <==> lim.armDelta <= n as real * lim.armVel / 500.0 && lim.gripDelta <= n as real * lim.gripVel / 500.0
  {
    AxisStepsLeast(lim.armDelta, lim.Pace(0), n);
    AxisStepsLeast(lim.gripDelta, lim.Pace(6), n);
    PaceInSeconds(n as real, lim.armVel);
    PaceInSeconds(n as real, lim.gripVel);
  }

  lemma AcceptedSegmentIsShort(q0: Keyframe, q1: Keyframe, lim: Limits)
    requires lim.Valid() && !Exceeds(q0, q1, lim)
    ensures BlendSteps(q0, q1, lim) <= MaxSteps(lim)
  {
    var n := MaxSteps(lim);
    forall i: nat | i < 7 ensures AxisCovered(q0, q1, lim, n, i) {
      assert !AxisExceeds(q0, q1, lim, i);
      assert AxisSteps(lim.Delta(i), lim.Pace(i)) <= n;
      AxisStepsLeast(lim.Delta(i), lim.Pace(i), n);
    }
    BlendStepsLeast(q0, q1, lim, n);
  }

  /** A cycle that meets nothing acceptable removes 64 keyframes, or all there are, and issues no batch command. */
  lemma CycleSkipsSixtyFour(
    d: Driver, queue: seq<Keyframe>, seqNow: nat, target: seq<real>, actual: Keyframe, lim: Limits)
    requires lim.Valid() && !d.seg.active
    requires var ref := Reference(SyncSeq(d, seqNow), actual);
             forall i :: 0 <= i < |queue| ==> Exceeds(ref, queue[i], lim)
    ensures var out := Tick(d, queue, seqNow, target, actual, lim);
            && out.queue == (if |queue| <= 64 then [] else queue[64..])
            && (out.command.Some? ==> out.command.value.Legacy?)
  {
    var k := SkipScanMeaning(queue, Reference(SyncSeq(d, seqNow), actual), lim, MAX_SKIPS);
  }

  /** What the driver keeps between cycles while no batch replaces the queue. */
  predicate InStep(d: Driver, queue: seq<Keyframe>, lim: Limits)
    requires lim.Valid()
  {
    d.seg.active ==> queue != [] && 1 <= d.seg.step < d.seg.n <= MaxSteps(lim)
  }

  /** An upper bound on the cycles left until the queue is empty. */
  function CyclesLeft(d: Driver, queue: seq<Keyframe>, lim: Limits): int
    requires lim.Valid()
  {
    if d.seg.active then d.seg.n - d.seg.step + (|queue| - 1) * MaxSteps(lim)
    else |queue| * MaxSteps(lim)
  }

  lemma BudgetPositive(d: Driver, queue: seq<Keyframe>, lim: Limits)
    requires lim.Valid() && InStep(d, queue, lim)
    ensures CyclesLeft(d, queue, lim) >= |queue|
  {
    var m, n := (if queue == [] then 0 else |queue| - 1), MaxSteps(lim);
    assert m * n >= m && |queue| * n >= |queue|;
  }

  lemma TickMakesProgress(d: Driver, queue: seq<Keyframe>, seqNow: nat, target: seq<real>,
                          actual: Keyframe, lim: Limits)
    requires lim.Valid() && InStep(d, queue, lim)
    ensures var o := Tick(d, queue, seqNow, target, actual, lim);
            InStep(o.driver, o.queue, lim)
            && (queue != [] ==> CyclesLeft(o.driver, o.queue, lim) < CyclesLeft(d, queue, lim))
            && (queue == [] ==> o.queue == [] && !o.driver.seg.active)
  {
    if d.seg.active {
      assert (|queue| - 1) * MaxSteps(lim) == |Popped(queue)| * MaxSteps(lim);
    } else {
      IdleTickMakesProgress(d, queue, seqNow, target, actual, lim);
    }
  }

  lemma IdleTickMakesProgress(d: Driver, queue: seq<Keyframe>, seqNow: nat, target: seq<real>,
                              actual: Keyframe, lim: Limits)
    requires lim.Valid() && !d.seg.active
    ensures var o := Tick(d, queue, seqNow, target, actual, lim);
            InStep(o.driver, o.queue, lim)
            && (queue != [] ==> CyclesLeft(o.driver, o.queue, lim) < CyclesLeft(d, queue, lim))
            && (queue == [] ==> o.queue == [] && !o.driver.seg.active)
  {
    var d1 := SyncSeq(d, seqNow);
    var ref := Reference(d1, actual);
    var k := SkipScanMeaning(queue, ref, lim, MAX_SKIPS);
    var (rest, found) := SkipScan(queue, ref, lim, MAX_SKIPS);
    var o := Tick(d, queue, seqNow, target, actual, lim);
    FewerKeyframes(|queue|, k, MaxSteps(lim));
    if found {
      AcceptedSegmentIsShort(ref, rest[0], lim);
      assert o.driver.seg.active && o.driver.seg.step == 1 && o.queue == rest;
    } else {
      assert o.queue == rest && !o.driver.seg.active;
    }
  }

  lemma FewerKeyframes(total: nat, k: nat, n: int)
    requires k <= total && n >= 2
    ensures (total - k - 1) * n + n == (total - k) * n <= total * n
    ensures k >= 1 ==> (total - k) * n < total * n
  {
    assert (total - k) * n == total * n - k * n;
    assert k * n >= k;
  }

  datatype TickInput = TickInput(target: seq<real>, actual: Keyframe)

  /** Consecutive cycles under one commit number: the state left behind. */
  function Run(d: Driver, queue: seq<Keyframe>, seqNow: nat, inputs: seq<TickInput>, lim: Limits)
    : (Driver, seq<Keyframe>)
    requires lim.Valid()
    decreases |inputs|
  {
    if inputs == [] then (d, queue)
    else
      var o := Tick(d, queue, seqNow, inputs[0].target, inputs[0].actual, lim);
      Run(o.driver, o.queue, seqNow, inputs[1..], lim)
  }

  lemma {:induction false} DrainsWithin(d: Driver, queue: seq<Keyframe>, seqNow: nat,
                                        inputs: seq<TickInput>, lim: Limits)
    requires lim.Valid() && InStep(d, queue, lim)
    requires |inputs| >= CyclesLeft(d, queue, lim)
    decreases |inputs|
    ensures var (d', queue') := Run(d, queue, seqNow, inputs, lim); queue' == [] && !d'.seg.active
  {
    BudgetPositive(d, queue, lim);
    if inputs == [] {
      assert !d.seg.active;
    } else {
      TickMakesProgress(d, queue, seqNow, inputs[0].target, inputs[0].actual, lim);
      var o := Tick(d, queue, seqNow, inputs[0].target, inputs[0].actual, lim);
      DrainsWithin(o.driver, o.queue, seqNow, inputs[1..], lim);
    }
  }

  /** A queue of T keyframes found by an idle driver is empty, with no segment under way, after
      T * MaxSteps cycles, whatever mix of executed and skipped keyframes the readings produce. */
  lemma QueueDrains(d: Driver, queue: seq<Keyframe>, seqNow: nat, inputs: seq<TickInput>, lim: Limits)
    requires lim.Valid() && !d.seg.active
    requires |inputs| == |queue| * MaxSteps(lim)
    ensures var (d', queue') := Run(d, queue, seqNow, inputs, lim); queue' == [] && !d'.seg.active
  {
    DrainsWithin(d, queue, seqNow, inputs, lim);
  }
}
