/** The single-target fallback of the policy driver over many cycles
    (a10_policy_tcp_plan.cpp:396-427): where it ends up and how fast it moves. */
module LegacyTarget {
  import opened Basics
  import opened Keyframes
  import opened PolicyDriver
  import opened PolicyMotion

  /** Cycles with one target; `readings` are the joint readings. */
  function Cycles(d: Driver, target: seq<real>, readings: seq<Keyframe>, lim: Limits): (Driver, seq<Command>)
    requires lim.Valid()
  {
    if readings == [] then (d, [])
    else
      var n := |readings| - 1;
      var (d1, commands) := Cycles(d, target, readings[..n], lim);
      var (d2, c) := LegacyCycle(d1, target, readings[n], lim);
      (d2, match c case Some(x) => commands + [x] case None => commands)
  }

  /** The driver after the first `k` cycles of a move to `goal`. */
  predicate Moving(d: Driver, seg: JointSegment, k: nat) {
    if k < seg.n then d.legacy == seg.(step := k)
    else !d.legacy.active && d.lastLegacy == Some(seg.q1)
  }

  predicate Ready(seg: JointSegment) { seg.active && seg.step == 0 && seg.n >= 1 }

  function Goal(target: seq<real>): Keyframe { Padded(target) }

  lemma CycleMoves(d: Driver, seg: JointSegment, k: nat, target: seq<real>, r: Keyframe, lim: Limits)
    requires lim.Valid() && |target| >= 6 && Ready(seg) && seg.q1 == Goal(target) && Moving(d, seg, k)
    requires k == 0 ==> d.legacy == seg
    ensures var (d', c) := LegacyCycle(d, target, r, lim);
            && Moving(d', seg, k + 1)
            && c == Some(Legacy(if k < seg.n then Lerp(seg.(step := k)) else seg.q1))
  {
    if k < seg.n {
      assert d.legacy.active;
    } else {
      assert !LegacyTargetChanged(Goal(target), d.lastLegacy);
    }
  }

  lemma {:induction false} MoveIsFollowed(d: Driver, seg: JointSegment, target: seq<real>,
                                          readings: seq<Keyframe>, lim: Limits)
    requires lim.Valid() && |target| >= 6 && Ready(seg) && seg.q1 == Goal(target) && d.legacy == seg
    ensures var (d', commands) := Cycles(d, target, readings, lim);
            && Moving(d', seg, |readings|)
            && |commands| == |readings|
            && forall k :: 0 <= k < |readings| ==>
                commands[k] == Legacy(if k < seg.n then Lerp(seg.(step := k)) else seg.q1)
    decreases |readings|
  {
    if readings != [] {
      var n := |readings| - 1;
      MoveIsFollowed(d, seg, target, readings[..n], lim);
      CycleMoves(Cycles(d, target, readings[..n], lim).0, seg, n, target, readings[n], lim);
    }
  }

  /** Cycles that find one target after another. */
  function CyclesUnder(d: Driver, targets: seq<seq<real>>, readings: seq<Keyframe>, lim: Limits)
    : (Driver, seq<Command>)
    requires lim.Valid() && |targets| == |readings|
  {
    if readings == [] then (d, [])
    else
      var n := |readings| - 1;
      var (d1, commands) := CyclesUnder(d, targets[..n], readings[..n], lim);
      var (d2, c) := LegacyCycle(d1, targets[n], readings[n], lim);
      (d2, match c case Some(x) => commands + [x] case None => commands)
  }

  /** A move under way is finished first, whatever targets arrive meanwhile: its commands are those of its own
      segment, and at its end it is the segment's goal that is remembered, so that a target that has changed
      by then starts the next move. */
  lemma {:induction false} MoveIsFinishedFirst(
    d: Driver, seg: JointSegment, targets: seq<seq<real>>, readings: seq<Keyframe>, lim: Limits)
    requires lim.Valid() && Ready(seg) && d.legacy == seg && |targets| == |readings| <= seg.n
    requires forall k :: 0 <= k < |targets| ==> |targets[k]| >= 6
    ensures var (d', commands) := CyclesUnder(d, targets, readings, lim);
            && Moving(d', seg, |readings|) && |commands| == |readings|
            && forall k :: 0 <= k < |readings| ==> commands[k] == Legacy(Lerp(seg.(step := k)))
    decreases |readings|
  {
    if readings != [] {
      var n := |readings| - 1;
      MoveIsFinishedFirst(d, seg, targets[..n], readings[..n], lim);
      assert CyclesUnder(d, targets[..n], readings[..n], lim).0.legacy == seg.(step := n);
    }
  }

  /** What the first cycle of a move does: a segment from the reading, entered. */
  lemma MoveStarts(d: Driver, target: seq<real>, readings: seq<Keyframe>, lim: Limits)
    requires lim.Valid() && |target| >= 6 && readings != []
    requires !d.legacy.active && LegacyTargetChanged(Goal(target), d.lastLegacy)
    ensures var seg := Started(readings[0], Goal(target), lim, 1);
            Cycles(d, target, readings, lim) == Cycles(d.(legacy := seg), target, readings, lim)
    decreases |readings|
  {
    var n := |readings| - 1;
    if n == 0 {
      assert readings[..0] == [];
      assert Cycles(d, target, readings[..0], lim) == (d, []);
    } else {
      MoveStarts(d, target, readings[..n], lim);
    }
  }

  /** From rest, a new target is reached by a straight segment from the joint reading: the command is
      exactly the target after as many cycles as the segment is long and stays there, whatever is read
      later, and no two consecutive commands of the move differ on any axis by more than twice its pace. */
  lemma TargetIsReachedAndHeld(d: Driver, target: seq<real>, readings: seq<Keyframe>, lim: Limits, k: nat)
    requires lim.Valid() && |target| >= 6 && k < |readings|
    requires !d.legacy.active && LegacyTargetChanged(Goal(target), d.lastLegacy)
    ensures var commands := Cycles(d, target, readings, lim).1;
            var n := BlendSteps(readings[0], Goal(target), lim);
            && |commands| == |readings| && commands[k].Legacy?
            && (k + 1 >= n ==> commands[k].q == Goal(target))
            && (k > 0 ==> InTime(commands[k - 1].q, commands[k].q, lim, 2))
            && (n == 1 ==> InTime(readings[0], commands[0].q, lim, 1))
            && (n > 1 ==> commands[0].q == readings[0])
  {
    var seg := Started(readings[0], Goal(target), lim, 1);
    MoveStarts(d, target, readings, lim);
    MoveIsFollowed(d.(legacy := seg), seg, target, readings, lim);
    LerpEnds(seg);
    LerpEnds(seg.(step := seg.n - 1));
    BlendStepsLeast(seg.q0, seg.q1, lim, seg.n);
    LeastInTime(seg.q0, seg.q1, lim, 1);
    if k > 0 {
      var x, y := At(seg, k - 1), At(seg, k);
      forall i: nat | i < 7 ensures AxisCovered(x, y, lim, 2, i) { MoveIsSmooth(seg, lim, k, i); }
      CoversInTime(x, y, lim, 2);
    }
  }

  /** Between moves, the target just commanded again is within a millionth of the last goal on all seven
      axes; a target farther off on any of them, or the first one, starts a move to it instead. */
  lemma HeldIffNear(d: Driver, target: seq<real>, reading: Keyframe, lim: Limits)
    requires lim.Valid() && |target| >= 6 && !d.legacy.active
    ensures var (d', c) := LegacyCycle(d, target, reading, lim);
            var held := d.lastLegacy.Some? && Within(d.lastLegacy.value, Goal(target), 0.000001, 0.000001);
            && (held ==> d' == d && c == Some(Legacy(Goal(target))))
            && (!held ==> d'.legacy.q0 == reading && d'.legacy.q1 == Goal(target) && d'.legacy.step == 1
                          && c == Some(Legacy(if d'.legacy.n == 1 then Goal(target) else reading)))
  {
    var tq := Goal(target);
    if d.lastLegacy.Some? {
      if LegacyTargetChanged(tq, d.lastLegacy) {
        var i: nat :| i < 7 && Abs(tq[i] - d.lastLegacy.value[i]) > 0.000001;
        assert !Within(d.lastLegacy.value, tq, 0.000001, 0.000001);
      }
    }
    var seg := Started(reading, tq, lim, 1);
    LerpEnds(seg);
  }

  /** A cycle that finds no target breaks the move off and forgets the last goal: the next target, even the same
      one again, is approached from the joint reading of its own cycle. */
  lemma TargetAfterNoneStartsAfresh(
    d: Driver, none: seq<real>, r0: Keyframe, target: seq<real>, r1: Keyframe, lim: Limits)
    requires lim.Valid() && |none| < 6 && |target| >= 6
    ensures var (d1, c1) := LegacyCycle(d, none, r0, lim); var (d2, c2) := LegacyCycle(d1, target, r1, lim);
            && c1 == None && d1.seg == d.seg && d1.lastQ1 == d.lastQ1
            && d2.legacy.q0 == r1 && d2.legacy.q1 == Goal(target) && d2.legacy.step == 1
            && c2 == Some(Legacy(if d2.legacy.n == 1 then Goal(target) else r1))
  {
    var d1 := LegacyCycle(d, none, r0, lim).0;
    HeldIffNear(d1, target, r1, lim);
  }

  function At(seg: JointSegment, k: nat): Keyframe { if k < seg.n then Lerp(seg.(step := k)) else seg.q1 }

  lemma MoveIsSmooth(seg: JointSegment, lim: Limits, k: nat, i: nat)
    requires lim.Valid() && Ready(seg) && Covers(seg.q0, seg.q1, lim, seg.n) && k > 0 && i < 7
    ensures Gap(At(seg, k - 1), At(seg, k), i) <= 2.0 * lim.Pace(i)
  {
    if k < seg.n {
      SegmentStepIsSmall(seg.(step := k - 1), lim);
      assert seg.(step := k - 1).(step := k - 1 + 1) == seg.(step := k);
      SmallStepIsTwicePace(At(seg, k - 1), At(seg, k), seg.n, lim, i);
    } else {
      LerpEnds(seg.(step := seg.n - 1));
      assert At(seg, k - 1) == seg.q1 == At(seg, k);
    }
  }
}
