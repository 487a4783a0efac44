/** When a segment keeps the speed it is configured for (a10_policy_tcp_plan.cpp:99-138 and 151-184). */
module PolicyPace {
  import opened Basics
  import opened Keyframes
  import opened PolicyDriver

  /** From period `k` to the next one axis `i` moves by no more than its pace. */
  predicate StepKeepsPace(seg: JointSegment, lim: Limits, k: nat, i: nat)
    requires i < 7
  {
    Gap(Lerp(seg.(step := k)), Lerp(seg.(step := k + 1)), i) <= lim.Pace(i)
  }

  predicate KeepsPace(seg: JointSegment, lim: Limits) {
    forall k: nat, i: nat | k + 1 < seg.n && i < 7 :: StepKeepsPace(seg, lim, k, i)
  }

  /** Every step of an axis is the same; it keeps the pace exactly when n - 1 periods would do for the axis. */
  lemma StepKeepsPaceIff(seg: JointSegment, lim: Limits, k: nat, i: nat)
    requires lim.Valid() && seg.n >= 2 && i < 7
    ensures StepKeepsPace(seg, lim, k, i) <==> AxisCovered(seg.q0, seg.q1, lim, seg.n - 1, i)
  {
    StepTimesPeriods(seg, k, i);
    PaceIff(Gap(Lerp(seg.(step := k)), Lerp(seg.(step := k + 1)), i), lim.Pace(i), (seg.n - 1) as real,
            Gap(seg.q0, seg.q1, i));
  }

  lemma StepTimesPeriods(seg: JointSegment, k: nat, i: nat)
    requires seg.n >= 2 && i < 7
    ensures Gap(Lerp(seg.(step := k)), Lerp(seg.(step := k + 1)), i) * (seg.n - 1) as real == Gap(seg.q0, seg.q1, i)
  {
    LerpAdvance(seg.(step := k), i);
    assert seg.(step := k).(step := k + 1) == seg.(step := k + 1);
  }

  lemma PaceIff(step: real, pace: real, m: real, total: real)
    requires m >= 1.0 && step * m == total
    ensures step <= pace <==> total <= m * pace
  {
    if step <= pace { ScaleOrder(step, pace, m); } else { StrictScale(pace, step, m); }
  }

  /** A batch segment keeps the configured speed on every axis and at every step if and only if the whole move
      takes no more than one control period at that speed: a test the sender can make. Every longer move is
      too fast on some axis. */
  lemma SegmentKeepsPaceIff(q0: Keyframe, q1: Keyframe, lim: Limits)
    requires lim.Valid()
    ensures KeepsPace(Started(q0, q1, lim, 2), lim) <==> Covers(q0, q1, lim, 1)
  {
    var seg := Started(q0, q1, lim, 2);
    forall k: nat, i: nat | k + 1 < seg.n && i < 7
      ensures StepKeepsPace(seg, lim, k, i) <==> AxisCovered(q0, q1, lim, seg.n - 1, i)
    {
      StepKeepsPaceIff(seg, lim, k, i);
    }
    var m := seg.n - 1;
    if KeepsPace(seg, lim) {
      forall i: nat | i < 7 ensures AxisCovered(q0, q1, lim, m, i) { assert StepKeepsPace(seg, lim, 0, i); }
    }
    BlendStepsLeast(q0, q1, lim, m);
    BlendStepsLeast(q0, q1, lim, 1);
  }

  /** The bound is attained: a move of n periods runs at n/(n-1) of the configured speed on an axis that
      needs all n of them. */
  lemma PaceIsExceededBy(q0: Keyframe, q1: Keyframe, lim: Limits, k: nat, i: nat)
    requires lim.Valid() && i < 7
    requires Gap(q0, q1, i) == Started(q0, q1, lim, 2).n as real * lim.Pace(i)
    ensures var seg := Started(q0, q1, lim, 2);
            Gap(Lerp(seg.(step := k)), Lerp(seg.(step := k + 1)), i) * (seg.n - 1) as real
              == seg.n as real * lim.Pace(i)
  {
    ExceededBy(Started(q0, q1, lim, 2), k, i, lim.Pace(i));
  }

  lemma ExceededBy(seg: JointSegment, k: nat, i: nat, pace: real)
    requires seg.n >= 2 && i < 7 && Gap(seg.q0, seg.q1, i) == seg.n as real * pace
    ensures Gap(Lerp(seg.(step := k)), Lerp(seg.(step := k + 1)), i) * (seg.n - 1) as real == seg.n as real * pace
  {
    StepTimesPeriods(seg, k, i);
  }

  /** The built-in limits allow the arm 0.0008 rad a period. A move of 0.0016 rad takes the two periods it should,
      but both of its commands a period apart are the ends, so it runs at twice the speed. */
  lemma TwicePace()
    ensures var q1 := ZERO[0 := 0.0016];
            var seg := Started(ZERO, q1, BUILT_IN, 2);
            && seg.n == 2 && BUILT_IN.Pace(0) == 0.0008
            && Gap(Lerp(seg.(step := 0)), Lerp(seg.(step := 1)), 0) == 0.0016
            && !KeepsPace(seg, BUILT_IN)
  {
    var q1: Keyframe := ZERO[0 := 0.0016];
    BlendStepsLeast(ZERO, q1, BUILT_IN, 2);
    forall i: nat | i < 7 ensures AxisCovered(ZERO, q1, BUILT_IN, 2, i) {
      if i > 0 { assert q1[i] == 0.0; }
    }
    var seg := Started(ZERO, q1, BUILT_IN, 2);
    LerpEnds(seg);
    LerpEnds(seg.(step := 1));
    assert !StepKeepsPace(seg, BUILT_IN, 0, 0);
  }
}
