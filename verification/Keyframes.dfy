/** Seven-axis keyframes and the interpolated segment between two of them
    (a10_policy_tcp_plan.cpp, lines 24-235). */
module Keyframes {
  import opened Basics

  /** Six arm joints followed by the gripper. */
  type Keyframe = q: seq<real> | |q| == 7 witness [0.0, 0.0, 0.0, 0.0, 0.0, 0.0, 0.0]

  /** One control period, 1 / 500 Hz. */
  const DT: real := 1.0 / 500.0

  /** The plan's four parameters. */
  datatype Limits = Limits(armVel: real, gripVel: real, armDelta: real, gripDelta: real) {
    predicate Valid() {
      armVel > 0.0 && gripVel > 0.0 && armDelta > 0.0 && gripDelta > 0.0
    }

    /** Distance axis `i` may cover in one control period. */
    function Pace(i: nat): (p: real)
      ensures Valid() ==> p > 0.0
    {
      (if i < 6 then armVel else gripVel) * DT
    }

    function Delta(i: nat): real { if i < 6 then armDelta else gripDelta }
  }

  const BUILT_IN: Limits := Limits(0.4, 0.15, 2.0, 0.6)

  /** Parameters up to this are taken for not given. */
  const LEAST: real := 0.000000001

  predicate Chosen(l: real, cur: real, param: real) {
    (param > LEAST ==> l == param) && (param <= LEAST ==> l == cur)
  }

  /** First tick of the plan: a parameter replaces a value exactly when it exceeds 1e-9, so that no
      parameter can make the limits unusable. */
  function Configure(cur: Limits, param: Limits): (l: Limits)
    ensures cur.Valid() ==> l.Valid()
    ensures Chosen(l.armVel, cur.armVel, param.armVel) && Chosen(l.gripVel, cur.gripVel, param.gripVel)
    ensures Chosen(l.armDelta, cur.armDelta, param.armDelta) && Chosen(l.gripDelta, cur.gripDelta, param.gripDelta)
  {
    Limits(if param.armVel > LEAST then param.armVel else cur.armVel,
           if param.gripVel > LEAST then param.gripVel else cur.gripVel,
           if param.armDelta > LEAST then param.armDelta else cur.armDelta,
           if param.gripDelta > LEAST then param.gripDelta else cur.gripDelta)
  }

  // ---------------------------------------------------------------- padding

  function Padded(v: seq<real>): Keyframe {
    seq(7, i requires 0 <= i => if i < |v| then v[i] else 0.0)
  }

  method PadSeven(v: seq<real>) returns (q: Keyframe)
    ensures q == Padded(v)
    ensures forall i :: 0 <= i < 7 ==> q[i] == if i < |v| then v[i] else 0.0
    ensures |v| == 7 ==> q == v
  {
    var w := v;
    while |w| < 7
      invariant v <= w && (|w| == |v| || |w| <= 7)
      invariant forall i :: |v| <= i < |w| ==> w[i] == 0.0
      decreases 7 - |w|
    {
      w := w + [0.0];
    }
    if |w| > 7 {
      w := w[..7];
    }
    q := w;
  }

  // ---------------------------------------------------------------- segment length

  function Gap(q0: Keyframe, q1: Keyframe, i: nat): (d: real)
    requires i < 7
    ensures d >= 0.0
  {
    Abs(q1[i] - q0[i])
  }

  /** Every axis can cover its gap in `n` control periods. */
  predicate Covers(q0: Keyframe, q1: Keyframe, lim: Limits, n: int) {
    forall i: nat | i < 7 :: AxisCovered(q0, q1, lim, n, i)
  }

  predicate AxisCovered(q0: Keyframe, q1: Keyframe, lim: Limits, n: int, i: nat)
    requires i < 7
  {
    Gap(q0, q1, i) <= n as real * lim.Pace(i)
  }

  function AxisSteps(dq: real, pace: real): int
    requires pace > 0.0
  {
    Max(1, Ceil(dq / pace))
  }

  lemma AxisStepsLeast(dq: real, pace: real, n: int)
    requires pace > 0.0 && n >= 1
    ensures AxisSteps(dq, pace) <= n <==> dq <= n as real * pace
  {
    QuotientAtMost(dq, pace, n as real);
    if Ceil(dq / pace) <= n {
      assert Ceil(dq / pace) as real <= n as real;
    } else {
      assert Ceil(dq / pace) - 1 >= n;
      assert (Ceil(dq / pace) - 1) as real >= n as real;
    }
  }

  /** The number of control periods of a segment: the largest of the axes' own numbers. */
  function BlendUpTo(q0: Keyframe, q1: Keyframe, lim: Limits, k: nat): (n: int)
    requires lim.Valid() && k <= 7
    ensures n >= 1
  {
    if k == 0 then 1
    else Max(BlendUpTo(q0, q1, lim, k - 1), AxisSteps(Gap(q0, q1, k - 1), lim.Pace(k - 1)))
  }

  function BlendSteps(q0: Keyframe, q1: Keyframe, lim: Limits): (n: int)
    requires lim.Valid()
    ensures n >= 1
  {
    BlendUpTo(q0, q1, lim, 7)
  }

  lemma {:induction false} BlendUpToLeast(q0: Keyframe, q1: Keyframe, lim: Limits, k: nat, n: int)
    requires lim.Valid() && k <= 7 && n >= 1
    ensures BlendUpTo(q0, q1, lim, k) <= n
       <==> forall i: nat | i < k :: AxisCovered(q0, q1, lim, n, i)
  {
    if k > 0 {
      BlendUpToLeast(q0, q1, lim, k - 1, n);
      AxisStepsLeast(Gap(q0, q1, k - 1), lim.Pace(k - 1), n);
      var steps := AxisSteps(Gap(q0, q1, k - 1), lim.Pace(k - 1));
      assert AxisCovered(q0, q1, lim, n, k - 1) <==> steps <= n;
      assert BlendUpTo(q0, q1, lim, k) == Max(BlendUpTo(q0, q1, lim, k - 1), steps);
    }
  }

  /** `blend_steps_seven` is the least number of periods, at least one, that covers every axis. */
  lemma BlendStepsLeast(q0: Keyframe, q1: Keyframe, lim: Limits, n: int)
    requires lim.Valid() && n >= 1
    ensures BlendSteps(q0, q1, lim) <= n <==> Covers(q0, q1, lim, n)
  {
    BlendUpToLeast(q0, q1, lim, 7, n);
  }

  /** Every arm joint moves by at most `arm` and the gripper by at most `grip`. */
  predicate Within(q0: Keyframe, q1: Keyframe, arm: real, grip: real) {
    (forall i :: 0 <= i < 6 ==> Abs(q1[i] - q0[i]) <= arm) && Abs(q1[6] - q0[6]) <= grip
  }

  /** How far one goes at `vel` in `n` periods of 1/500 s. */
  function Distance(vel: real, n: int): real { n as real * vel / 500.0 }

  /** In `n` periods of 1/500 s the six arm joints can go from `q0` to `q1` at `armVel` and the gripper
      at `gripVel`. */
  predicate InTime(q0: Keyframe, q1: Keyframe, lim: Limits, n: int) {
    Within(q0, q1, Distance(lim.armVel, n), Distance(lim.gripVel, n))
  }

  lemma PaceInSeconds(n: real, vel: real)
    ensures n * (vel * DT) == n * vel / 500.0
  {
    assert vel * DT == vel / 500.0;
    assert n * (vel / 500.0) == n * vel / 500.0;
  }

  lemma AxisInTime(q0: Keyframe, q1: Keyframe, lim: Limits, n: int, i: nat, d: real)
    requires i < 7 && d == Distance(if i < 6 then lim.armVel else lim.gripVel, n)
    ensures AxisCovered(q0, q1, lim, n, i) <==> Gap(q0, q1, i) <= d
  {
    PaceInSeconds(n as real, if i < 6 then lim.armVel else lim.gripVel);
  }

  /** Whether axis after axis is covered, for any way `ok` of saying so. */
  lemma AllAxes(q0: Keyframe, q1: Keyframe, ok: nat -> bool, arm: real, grip: real)
    requires forall i: nat | i < 7 :: ok(i) <==> Gap(q0, q1, i) <= if i < 6 then arm else grip
    ensures Within(q0, q1, arm, grip) <==> forall i: nat | i < 7 :: ok(i)
  {
    if forall i: nat | i < 7 :: ok(i) {
      forall i | 0 <= i < 6 ensures Abs(q1[i] - q0[i]) <= arm { assert ok(i); }
      assert ok(6);
    }
  }

  lemma CoversWithin(q0: Keyframe, q1: Keyframe, lim: Limits, n: int, arm: real, grip: real)
    requires arm == Distance(lim.armVel, n) && grip == Distance(lim.gripVel, n)
    ensures Covers(q0, q1, lim, n) <==> Within(q0, q1, arm, grip)
  {
    var ok := (i: nat) => i < 7 && AxisCovered(q0, q1, lim, n, i);
    forall i: nat | i < 7 ensures ok(i) <==> Gap(q0, q1, i) <= if i < 6 then arm else grip {
      AxisInTime(q0, q1, lim, n, i, if i < 6 then arm else grip);
    }
    AllAxes(q0, q1, ok, arm, grip);
    assert Covers(q0, q1, lim, n) <==> forall i: nat | i < 7 :: ok(i);
  }

  lemma CoversInTime(q0: Keyframe, q1: Keyframe, lim: Limits, n: int)
    ensures Covers(q0, q1, lim, n) <==> InTime(q0, q1, lim, n)
  {
    CoversWithin(q0, q1, lim, n, Distance(lim.armVel, n), Distance(lim.gripVel, n));
  }

  /** The number returned is the least in which the configured speeds allow the whole move. */
  method BlendStepsSeven(q0: Keyframe, q1: Keyframe, lim: Limits) returns (n: int)
    requires lim.Valid()
    ensures n >= 1 && InTime(q0, q1, lim, n)
    ensures forall m: int | 1 <= m < n :: !InTime(q0, q1, lim, m)
    ensures n == BlendSteps(q0, q1, lim)
  {
    n := 1;
    for i := 0 to 6
      invariant n == BlendUpTo(q0, q1, lim, i)
    {
      var dq := Abs(q1[i] - q0[i]);
      var steps := Ceil(dq / (lim.armVel * DT));
      n := Max(n, Max(1, steps));
    }
    var dq := Abs(q1[6] - q0[6]);
    var steps := Ceil(dq / (lim.gripVel * DT));
    n := Max(n, Max(1, steps));
    LeastInTime(q0, q1, lim, n);
    forall m: int | 1 <= m < n ensures !InTime(q0, q1, lim, m) {
      LeastInTime(q0, q1, lim, m);
    }
  }

  /** The segment length is at most `n` exactly when `n` periods are enough at the configured speeds. */
  lemma LeastInTime(q0: Keyframe, q1: Keyframe, lim: Limits, n: int)
    requires lim.Valid() && n >= 1
    ensures BlendSteps(q0, q1, lim) <= n <==> InTime(q0, q1, lim, n)
  {
    BlendStepsLeast(q0, q1, lim, n);
    CoversInTime(q0, q1, lim, n);
  }

  // ---------------------------------------------------------------- threshold

  predicate AxisExceeds(q0: Keyframe, q1: Keyframe, lim: Limits, i: nat)
    requires i < 7
  {
    Gap(q0, q1, i) > lim.Delta(i)
  }

  predicate Exceeds(q0: Keyframe, q1: Keyframe, lim: Limits) {
    exists i: nat | i < 7 :: AxisExceeds(q0, q1, lim, i)
  }

  lemma ExceedsUnlessWithin(q0: Keyframe, q1: Keyframe, lim: Limits)
    ensures Exceeds(q0, q1, lim) <==> !Within(q0, q1, lim.armDelta, lim.gripDelta)
  {
    if Within(q0, q1, lim.armDelta, lim.gripDelta) {
      forall i: nat | i < 7 ensures !AxisExceeds(q0, q1, lim, i) { }
    } else if Abs(q1[6] - q0[6]) > lim.gripDelta {
      assert AxisExceeds(q0, q1, lim, 6);
    } else {
      var i :| 0 <= i < 6 && Abs(q1[i] - q0[i]) > lim.armDelta;
      assert AxisExceeds(q0, q1, lim, i);
    }
  }

  /** Reports the first axis over its threshold. */
  method BatchKeyframeExceedsThreshold(q0: Keyframe, q1: Keyframe, lim: Limits)
    returns (bad: bool, worstAxis: int, worstAbs: real)
    ensures bad == Exceeds(q0, q1, lim)
    ensures !bad <==> Within(q0, q1, lim.armDelta, lim.gripDelta)
    ensures bad ==> 0 <= worstAxis < 7 && AxisExceeds(q0, q1, lim, worstAxis)
                    && worstAbs == Gap(q0, q1, worstAxis)
                    && forall i: nat | i < worstAxis :: !AxisExceeds(q0, q1, lim, i)
    ensures !bad ==> worstAxis == -1 && worstAbs == 0.0
  {
    worstAxis, worstAbs := -1, 0.0;
    ExceedsUnlessWithin(q0, q1, lim);
    for i := 0 to 6
      invariant forall k: nat | k < i :: !AxisExceeds(q0, q1, lim, k)
    {
      var d := Abs(q1[i] - q0[i]);
      if d > lim.armDelta {
        assert AxisExceeds(q0, q1, lim, i);
        return true, i, d;
      }
    }
    var d := Abs(q1[6] - q0[6]);
    if d > lim.gripDelta {
      assert AxisExceeds(q0, q1, lim, 6);
      return true, 6, d;
    }
    return false, -1, 0.0;
  }

  // ---------------------------------------------------------------- interpolation

  datatype JointSegment = JointSegment(active: bool, q0: Keyframe, q1: Keyframe, step: nat, n: int)

  const ZERO: Keyframe := [0.0, 0.0, 0.0, 0.0, 0.0, 0.0, 0.0]
  const NO_SEGMENT: JointSegment := JointSegment(false, ZERO, ZERO, 0, 1)

  function SegmentLerpAlpha(step: nat, n: int): real {
    if n <= 1 then 1.0 else step as real / (n - 1) as real
  }

  function Lerp(seg: JointSegment): Keyframe {
    var alpha := SegmentLerpAlpha(seg.step, seg.n);
    seq(7, i requires 0 <= i < 7 => seg.q0[i] + alpha * (seg.q1[i] - seg.q0[i]))
  }

  method LerpQ(seg: JointSegment) returns (q: Keyframe)
    ensures q == Lerp(seg)
  {
    var alpha := SegmentLerpAlpha(seg.step, seg.n);
    var w: seq<real> := ZERO;
    for i := 0 to 7
      invariant |w| == 7
      invariant forall k :: 0 <= k < i ==> w[k] == Lerp(seg)[k]
    {
      w := w[i := seg.q0[i] + alpha * (seg.q1[i] - seg.q0[i])];
    }
    q := w;
  }

  /** A segment of at least two periods starts exactly on `q0` and ends exactly on `q1`;
      a segment of one period jumps to `q1`. */
  lemma LerpEnds(seg: JointSegment)
    requires seg.n >= 1
    ensures seg.n >= 2 && seg.step == 0 ==> Lerp(seg) == seg.q0
    ensures seg.step == seg.n - 1 ==> Lerp(seg) == seg.q1
  {
    if seg.n >= 2 && seg.step == 0 {
      assert SegmentLerpAlpha(0, seg.n) == 0.0;
      assert Lerp(seg) == seg.q0;
    }
    if seg.step == seg.n - 1 {
      assert SegmentLerpAlpha(seg.step, seg.n) == 1.0;
      assert Lerp(seg) == seg.q1;
    }
  }

  /** Two commands one period apart inside a segment: the gap of axis `i` is its total gap over n-1. */
  lemma LerpAdvance(seg: JointSegment, i: nat)
    requires seg.n >= 2 && i < 7
    ensures Gap(Lerp(seg), Lerp(seg.(step := seg.step + 1)), i) * (seg.n - 1) as real == Gap(seg.q0, seg.q1, i)
  {
    var m := (seg.n - 1) as real;
    var d := seg.q1[i] - seg.q0[i];
    var a0, a1 := seg.step as real / m, (seg.step + 1) as real / m;
    assert a1 - a0 == 1.0 / m;
    var x, y := Lerp(seg)[i], Lerp(seg.(step := seg.step + 1))[i];
    assert y - x == a1 * d - a0 * d == (a1 - a0) * d == d / m by {
      assert (1.0 / m) * d == d / m;
    }
    assert Abs(d / m) * m == Abs(d) by {
      if d >= 0.0 { assert d / m >= 0.0; } else { assert d / m <= 0.0; }
    }
  }
}
