/** The leader arm's force limiting and admittance integrator (master_slave.cpp:38-42 and 258-311). */
module Admittance {
  import opened Basics

  const DT: real := 0.001
  const B: seq<real> := [1000.0, 1000.0, 1000.0, 15.0, 15.0, 15.0]
  const M: seq<real> := [10.0, 10.0, 10.0, 10.0, 5.0, 5.0]
  const TRIGGER: seq<real> := [0.5, 0.5, 0.5, 0.001, 0.001, 0.001]
  const MAX_FORCE: seq<real> := [10.0, 10.0, 10.0, 5.0, 5.0, 5.0]

  /** Dead zone, then clamp. */
  function Limited(f: real, trigger: real, max: real): (r: real)
    ensures max >= 0.0 ==> Abs(r) <= max
    ensures trigger <= Abs(f) <= max ==> r == f
    ensures Abs(f) < trigger && max >= 0.0 ==> r == 0.0
    ensures f >= max >= trigger && max >= 0.0 ==> r == max
    ensures -f >= max >= trigger && max >= 0.0 ==> r == -max
  {
    var f0 := if Abs(f) < trigger then 0.0 else f;
    var f1 := if f0 > max then max else f0;
    if f1 < -max then -max else f1
  }

  /** A stronger push is never limited to a weaker one, and the two directions are treated alike. */
  lemma LimitingKeepsOrder(f: real, g: real, trigger: real, max: real)
    requires max >= 0.0
    ensures f <= g ==> Limited(f, trigger, max) <= Limited(g, trigger, max)
    ensures Limited(-f, trigger, max) == -Limited(f, trigger, max)
  {
  }

  /** Acceleration with the desired force and velocity at their default of 0. */
  function Acc(v: real, f: real, b: real, m: real): real
    requires m > 0.0
  {
    (f - b * v) / m
  }

  function NextV(v: real, f: real, b: real, m: real): real
    requires m > 0.0
  {
    v + Acc(v, f, b, m) * DT
  }

  /** Displacement of a translation axis in one tick; it adds the acceleration term once more. */
  function Dx(v: real, f: real, b: real, m: real): real
    requires m > 0.0
  {
    NextV(v, f, b, m) * DT + Acc(v, f, b, m) * DT * DT
  }

  function Gain(b: real, m: real): real
    requires m > 0.0
  {
    b * DT / m
  }

  class MasterSlave {
    const actualForce: array<real>
    const vc: array<real>

    ghost predicate Valid() reads this {
      actualForce.Length == 6 && vc.Length == 6 && actualForce != vc
    }

    constructor ()
      ensures Valid() && fresh(actualForce) && fresh(vc)
      ensures forall i :: 0 <= i < 6 ==> vc[i] == 0.0 && actualForce[i] == 0.0
    {
      actualForce := new real[6](_ => 0.0);
      vc := new real[6](_ => 0.0);
    }

    method LimitForces(measured: seq<real>)
      requires Valid() && |measured| == 6
      modifies actualForce
      ensures forall i :: 0 <= i < 6 ==> actualForce[i] == Limited(measured[i], TRIGGER[i], MAX_FORCE[i])
      ensures forall i :: 0 <= i < 6 ==>
                && (measured[i] >= MAX_FORCE[i] ==> actualForce[i] == MAX_FORCE[i])
                && (measured[i] <= -MAX_FORCE[i] ==> actualForce[i] == -MAX_FORCE[i])
                && (TRIGGER[i] <= Abs(measured[i]) <= MAX_FORCE[i] ==> actualForce[i] == measured[i])
                && (Abs(measured[i]) < TRIGGER[i] ==> actualForce[i] == 0.0)
    {
      for i := 0 to 6
        invariant forall k :: 0 <= k < i ==> actualForce[k] == Limited(measured[k], TRIGGER[k], MAX_FORCE[k])
      {
        var f := measured[i];
        if Abs(f) < TRIGGER[i] { f := 0.0; }
        if f > MAX_FORCE[i] { f := MAX_FORCE[i]; }
        if f < -MAX_FORCE[i] { f := -MAX_FORCE[i]; }
        actualForce[i] := f;
      }
    }

    method Translate(pos: array<real>)
      requires Valid() && pos.Length == 6 && pos != actualForce && pos != vc
      modifies vc, pos
      ensures forall i :: 0 <= i < 3 ==> vc[i] == NextV(old(vc[i]), actualForce[i], B[i], M[i])
      ensures forall i :: 0 <= i < 3 ==> pos[i] == old(pos[i]) + Dx(old(vc[i]), actualForce[i], B[i], M[i])
      ensures forall i :: 3 <= i < 6 ==> vc[i] == old(vc[i]) && pos[i] == old(pos[i])
    {
      for i := 0 to 3
        invariant forall k :: 0 <= k < i ==> vc[k] == NextV(old(vc[k]), actualForce[k], B[k], M[k])
        invariant forall k :: 0 <= k < i ==> pos[k] == old(pos[k]) + Dx(old(vc[k]), actualForce[k], B[k], M[k])
        invariant forall k :: i <= k < 6 ==> vc[k] == old(vc[k]) && pos[k] == old(pos[k])
      {
        var acc := (actualForce[i] - B[i] * vc[i]) / M[i];
        vc[i] := vc[i] + acc * DT;
        var dx := vc[i] * DT + acc * DT * DT;
        pos[i] := pos[i] + dx;
      }
    }

    method Rotate() returns (dth: seq<real>)
      requires Valid()
      modifies vc
      ensures forall i :: 3 <= i < 6 ==> vc[i] == NextV(old(vc[i]), actualForce[i], B[i], M[i])
      ensures forall i :: 0 <= i < 3 ==> vc[i] == old(vc[i])
      ensures |dth| == 3 && forall i :: 0 <= i < 3 ==> dth[i] == vc[i + 3] * DT
    {
      dth := [];
      for i := 3 to 6
        invariant |dth| == i - 3
        invariant forall k :: 3 <= k < i ==> vc[k] == NextV(old(vc[k]), actualForce[k], B[k], M[k])
        invariant forall k :: 0 <= k < 3 || i <= k < 6 ==> vc[k] == old(vc[k])
        invariant forall k :: 0 <= k < i - 3 ==> dth[k] == vc[k + 3] * DT
      {
        var ome := (actualForce[i] - B[i] * vc[i]) / M[i];
        vc[i] := vc[i] + ome * DT;
        dth := dth + [vc[i] * DT];
      }
    }

    /** `pos` is the current pose; its first three entries are moved, and the rotation increment is
        returned. */
    method Control(pos: array<real>, measured: seq<real>) returns (dth: seq<real>)
      requires Valid() && pos.Length == 6 && |measured| == 6 && pos != actualForce && pos != vc
      modifies actualForce, vc, pos
      ensures forall i :: 0 <= i < 6 ==> actualForce[i] == Limited(measured[i], TRIGGER[i], MAX_FORCE[i])
      ensures forall i :: 0 <= i < 6 ==> vc[i] == NextV(old(vc[i]), actualForce[i], B[i], M[i])
      ensures forall i :: 0 <= i < 3 ==> pos[i] == old(pos[i]) + Dx(old(vc[i]), actualForce[i], B[i], M[i])
      ensures forall i :: 3 <= i < 6 ==> pos[i] == old(pos[i])
      ensures |dth| == 3 && forall i :: 0 <= i < 3 ==> dth[i] == vc[i + 3] * DT
    {
      LimitForces(measured);
      Translate(pos);
      dth := Rotate();
    }
  }

  // ---------------------------------------------------------------- one step in damped form

  /** The step moves the velocity the fraction `Gain` of the way to the equilibrium f/b. */
  lemma StepIsRelaxation(v: real, f: real, b: real, m: real)
    requires b > 0.0 && m > 0.0
    ensures Acc(v, f, b, m) * DT == Gain(b, m) * (f / b - v)
  {
    var k := Gain(b, m);
    assert k * m == b * DT;
    var x := f / b - v;
    assert b * x == f - b * v by { assert b * (f / b) == f; }
    var y := Acc(v, f, b, m) * DT;
    assert y * m == (f - b * v) * DT by { assert Acc(v, f, b, m) * m == f - b * v; }
    Regroup(k, x, m, b);
    CancelFactor(y, k * x, m);
  }

  lemma Regroup(k: real, x: real, m: real, b: real)
    requires k * m == b * DT
    ensures (k * x) * m == (b * x) * DT
  {
    assert (k * x) * m == (k * m) * x;
  }

  lemma CancelFactor(a: real, b: real, d: real)
    requires a * d == b * d && d != 0.0
    ensures a == b
  {
    assert (a - b) * d == 0.0;
  }

  lemma Mean(k: real, h: real, v: real, w: real)
    requires h + k == 1.0
    ensures v + k * (w - v) == v * h + w * k
  {
    assert v * h == v - v * k;
  }

  lemma Shares(k: real, h: real, u: real)
    requires h + k == 1.0
    ensures u * h + u * k == u
  {
    assert u * (h + k) == u * h + u * k;
  }

  /** A weighted mean of two values within a bound stays within it. */
  lemma MeanStays(k: real, v: real, w: real, u: real)
    requires 0.0 <= k <= 1.0 && Abs(v) <= u && Abs(w) <= u
    ensures Abs(v + k * (w - v)) <= u
  {
    Mean(k, 1.0 - k, v, w);
    SharesStay(k, 1.0 - k, v, w, u);
  }

  lemma SharesStay(k: real, h: real, v: real, w: real, u: real)
    requires k >= 0.0 && h >= 0.0 && h + k == 1.0 && Abs(v) <= u && Abs(w) <= u
    ensures Abs(v * h + w * k) <= u
  {
    Shares(k, h, u);
    Shares(k, h, -u);
    ScaleOrder(v, u, h);
    ScaleOrder(-u, v, h);
    ScaleOrder(w, u, k);
    ScaleOrder(-u, w, k);
    AddUp(v * h, w * k, u * h, u * k, u);
    AddUp((-u) * h, (-u) * k, v * h, w * k, v * h + w * k);
  }

  lemma AddUp(p: real, q: real, a: real, b: real, total: real)
    requires p <= a && q <= b && a + b == total
    ensures p + q <= total
  {
  }

  lemma EquilibriumBound(f: real, b: real, max: real)
    requires b > 0.0 && Abs(f) <= max
    ensures Abs(f / b) <= max / b
  {
    QuotientOrder(f, max, b);
    QuotientOrder(-f, max, b);
    assert (-f) / b == -(f / b);
  }

  lemma QuotientOrder(x: real, y: real, d: real)
    requires d > 0.0 && x <= y
    ensures x / d <= y / d
  {
    QuotientAtMost(x, d, y / d);
  }

  lemma StepStaysBounded(v: real, f: real, b: real, m: real, max: real)
    requires b > 0.0 && m > 0.0 && Gain(b, m) <= 1.0 && Abs(v) <= max / b && Abs(f) <= max
    ensures Abs(NextV(v, f, b, m)) <= max / b
  {
    var k, w, u, v' := Gain(b, m), f / b, max / b, NextV(v, f, b, m);
    StepIsRelaxation(v, f, b, m);
    EquilibriumBound(f, b, max);
    GainPositive(b, m);
    RelaxedStays(k, v, w, u, v');
  }

  lemma RelaxedStays(k: real, v: real, w: real, u: real, v': real)
    requires 0.0 <= k <= 1.0 && Abs(v) <= u && Abs(w) <= u && v' == v + k * (w - v)
    ensures Abs(v') <= u
  {
    MeanStays(k, v, w, u);
  }

  // ---------------------------------------------------------------- whole runs

  function Velocity(v0: real, forces: seq<real>, b: real, m: real): real
    requires m > 0.0
  {
    if forces == [] then v0
    else NextV(Velocity(v0, forces[..|forces| - 1], b, m), forces[|forces| - 1], b, m)
  }

  /** Damping alone bounds the velocity: with forces of at most `max` and a gain of at most one it
      never exceeds max/b. */
  lemma {:induction false} VelocityStaysBounded(v0: real, forces: seq<real>, b: real, m: real, max: real)
    requires b > 0.0 && m > 0.0 && Gain(b, m) <= 1.0 && Abs(v0) <= max / b
    requires forall i :: 0 <= i < |forces| ==> Abs(forces[i]) <= max
    ensures Abs(Velocity(v0, forces, b, m)) <= max / b
  {
    if forces != [] {
      var n := |forces| - 1;
      VelocityStaysBounded(v0, forces[..n], b, m, max);
      StepStaysBounded(Velocity(v0, forces[..n], b, m), forces[n], b, m, max);
    }
  }

  lemma GainPositive(b: real, m: real)
    requires b > 0.0 && m > 0.0
    ensures Gain(b, m) > 0.0
  {
    var k := Gain(b, m);
    assert k * m == b * DT > 0.0;
    if k <= 0.0 { ScaleOrder(k, 0.0, m); }
  }

  function Pow(x: real, n: nat): real { if n == 0 then 1.0 else x * Pow(x, n - 1) }

  /** Under a constant force the distance to the equilibrium shrinks geometrically. */
  lemma {:induction false} ConstantForceConverges(v0: real, f: real, n: nat, b: real, m: real)
    requires b > 0.0 && m > 0.0
    ensures Velocity(v0, seq(n, i => f), b, m) - f / b == Pow(1.0 - Gain(b, m), n) * (v0 - f / b)
  {
    var forces := seq(n, i => f);
    if n > 0 {
      assert forces[..n - 1] == seq(n - 1, i => f);
      ConstantForceConverges(v0, f, n - 1, b, m);
      ConvergesOnce(v0, Velocity(v0, forces[..n - 1], b, m), f, b, m, Pow(1.0 - Gain(b, m), n - 1));
    }
  }

  lemma ConvergesOnce(v0: real, v: real, f: real, b: real, m: real, p: real)
    requires b > 0.0 && m > 0.0 && v - f / b == p * (v0 - f / b)
    ensures NextV(v, f, b, m) - f / b == ((1.0 - Gain(b, m)) * p) * (v0 - f / b)
  {
    StepIsRelaxation(v, f, b, m);
    Contract(Gain(b, m), v, f / b, p, v0);
  }

  lemma Contract(k: real, v: real, w: real, p: real, v0: real)
    requires v - w == p * (v0 - w)
    ensures v + k * (w - v) - w == ((1.0 - k) * p) * (v0 - w)
  {
    assert v + k * (w - v) - w == (1.0 - k) * (v - w);
    assert (1.0 - k) * (p * (v0 - w)) == ((1.0 - k) * p) * (v0 - w);
  }

  // ---------------------------------------------------------------- displacement per tick

  lemma DxInDampedForm(v: real, f: real, b: real, m: real)
    requires b > 0.0 && m > 0.0
    ensures Dx(v, f, b, m) == (v + (2.0 * Gain(b, m)) * (f / b - v)) * DT
  {
    StepIsRelaxation(v, f, b, m);
    var y := Acc(v, f, b, m) * DT;
    assert Dx(v, f, b, m) == (v + y) * DT + y * DT;
    assert 2.0 * Gain(b, m) * (f / b - v) == 2.0 * (Gain(b, m) * (f / b - v));
  }

  lemma DisplacementStays(v: real, f: real, b: real, m: real, max: real)
    requires b > 0.0 && m > 0.0 && 2.0 * Gain(b, m) <= 1.0 && Abs(v) <= max / b && Abs(f) <= max
    ensures Abs(Dx(v, f, b, m)) <= max / b * DT
  {
    var k, w, u, d := 2.0 * Gain(b, m), f / b, max / b, Dx(v, f, b, m);
    GainPositive(b, m);
    DxInDampedForm(v, f, b, m);
    EquilibriumBound(f, b, max);
    RelaxedStays(k, v, w, u, v + k * (w - v));
    PerTick(v + k * (w - v), u, d);
  }

  lemma PerTick(x: real, u: real, d: real)
    requires Abs(x) <= u && d == x * DT
    ensures Abs(d) <= u * DT
  {
  }

  /** From the bound on one side, the largest force towards the other. */
  lemma DisplacementExceeds(b: real, m: real, max: real)
    requires b > 0.0 && m > 0.0 && max > 0.0 && 2.0 * Gain(b, m) > 1.0
    ensures var v := -(max / b); Abs(v) <= max / b && Abs(max) <= max && Abs(Dx(v, max, b, m)) > max / b * DT
  {
    var k, u, d := 2.0 * Gain(b, m), max / b, Dx(-(max / b), max, b, m);
    QuotientPositive(max, b);
    DxInDampedForm(-u, max, b, m);
    StrictScale(1.0, k, 2.0 * u);
    Overshoots(k, u, d);
  }

  lemma QuotientPositive(x: real, d: real)
    requires x > 0.0 && d > 0.0
    ensures x / d > 0.0
  {
    var u := x / d;
    assert u * d == x;
    if u <= 0.0 { ScaleOrder(u, 0.0, d); }
  }

  lemma Overshoots(k: real, u: real, d: real)
    requires k * (2.0 * u) > 2.0 * u > 0.0 && d == (-u + k * (u - (-u))) * DT
    ensures Abs(d) > u * DT
  {
    assert u - (-u) == 2.0 * u;
  }

  /** The bound DT * max/b on the displacement holds for all velocities and forces in range exactly
      when the gain is at most one half: the acceleration term enters the displacement twice. */
  lemma DisplacementBound(b: real, m: real, max: real)
    requires b > 0.0 && m > 0.0 && max > 0.0
    ensures 2.0 * Gain(b, m) <= 1.0
       <==> forall v, f :: Abs(v) <= max / b && Abs(f) <= max ==> Abs(Dx(v, f, b, m)) <= max / b * DT
  {
    if 2.0 * Gain(b, m) <= 1.0 {
      forall v, f | Abs(v) <= max / b && Abs(f) <= max ensures Abs(Dx(v, f, b, m)) <= max / b * DT {
        DisplacementStays(v, f, b, m, max);
      }
    } else {
      DisplacementExceeds(b, m, max);
    }
  }

  /** Beyond that the displacement is bounded all the same, by 4 * gain - 1 times as much, and one state and
      force in range reach that bound. */
  lemma DisplacementBeyondHalf(b: real, m: real, max: real)
    requires b > 0.0 && m > 0.0 && max > 0.0 && 2.0 * Gain(b, m) >= 1.0
    ensures forall v, f :: Abs(v) <= max / b && Abs(f) <= max ==>
              Abs(Dx(v, f, b, m)) <= (4.0 * Gain(b, m) - 1.0) * (max / b) * DT
    ensures var v := -(max / b);
            Abs(v) <= max / b && Dx(v, max, b, m) == (4.0 * Gain(b, m) - 1.0) * (max / b) * DT
  {
    forall v, f | Abs(v) <= max / b && Abs(f) <= max
      ensures Abs(Dx(v, f, b, m)) <= (4.0 * Gain(b, m) - 1.0) * (max / b) * DT
    {
      LargeDisplacement(v, f, b, m, max);
    }
    QuotientPositive(max, b);
    DxInDampedForm(-(max / b), max, b, m);
    Extreme(2.0 * Gain(b, m), max / b);
  }

  lemma LargeDisplacement(v: real, f: real, b: real, m: real, max: real)
    requires b > 0.0 && m > 0.0 && 2.0 * Gain(b, m) >= 1.0 && Abs(v) <= max / b && Abs(f) <= max
    ensures Abs(Dx(v, f, b, m)) <= (4.0 * Gain(b, m) - 1.0) * (max / b) * DT
  {
    DxInDampedForm(v, f, b, m);
    EquilibriumBound(f, b, max);
    LargeStep(Gain(b, m), 2.0 * Gain(b, m), v, f / b, max / b, Dx(v, f, b, m));
  }

  lemma LargeStep(g: real, k: real, v: real, w: real, u: real, d: real)
    requires k == 2.0 * g && k >= 1.0 && Abs(v) <= u && Abs(w) <= u && d == (v + k * (w - v)) * DT
    ensures Abs(d) <= (4.0 * g - 1.0) * u * DT
  {
    BeyondMean(k, v, w, u);
    assert 4.0 * g - 1.0 == k + k - 1.0;
    PerTick(v + k * (w - v), (4.0 * g - 1.0) * u, d);
  }

  lemma BeyondMean(k: real, v: real, w: real, u: real)
    requires k >= 1.0 && Abs(v) <= u && Abs(w) <= u
    ensures Abs(v + k * (w - v)) <= (k + k - 1.0) * u
  {
    ProductBound(w, u, k);
    ProductBound(v, u, k - 1.0);
    Apart(k, v, w, w * k, v * (k - 1.0));
    Together(k, u, u * k, u * (k - 1.0));
    Difference(v + k * (w - v), w * k, v * (k - 1.0), u * k, u * (k - 1.0), (k + k - 1.0) * u);
  }

  lemma ProductBound(w: real, u: real, k: real)
    requires k >= 0.0 && Abs(w) <= u
    ensures Abs(w * k) <= u * k
  {
    ScaleOrder(w, u, k);
    ScaleOrder(-u, w, k);
    assert (-u) * k == -(u * k);
  }

  lemma Difference(x: real, p: real, q: real, a: real, b: real, total: real)
    requires x == p - q && Abs(p) <= a && Abs(q) <= b && a + b == total
    ensures Abs(x) <= total
  {
  }

  lemma Together(k: real, u: real, p: real, q: real)
    requires p == u * k && q == u * (k - 1.0)
    ensures p + q == (k + k - 1.0) * u
  {
  }

  lemma Apart(k: real, v: real, w: real, p: real, q: real)
    requires p == w * k && q == v * (k - 1.0)
    ensures v + k * (w - v) == p - q
  {
  }

  lemma Extreme(k: real, u: real)
    ensures -u + k * (u - (-u)) == (k + k - 1.0) * u
  {
  }

  /** The plan's own constants: gains 0.1, 0.0015 and 0.003, so both bounds apply on every axis. */
  lemma BuiltInGains(i: nat)
    requires i < 6
    ensures B[i] > 0.0 && M[i] > 0.0 && MAX_FORCE[i] > 0.0 && 2.0 * Gain(B[i], M[i]) <= 1.0
  {
  }

  /** What axis `i` is driven by: each measured force after dead zone and clamp. */
  function Driving(measured: seq<real>, i: nat): (forces: seq<real>)
    requires i < 6
    ensures |forces| == |measured|
    ensures forall k :: 0 <= k < |measured| ==> forces[k] == Limited(measured[k], TRIGGER[i], MAX_FORCE[i])
  {
    seq(|measured|, k requires 0 <= k < |measured| => Limited(measured[k], TRIGGER[i], MAX_FORCE[i]))
  }

  /** From rest, whatever forces are measured on any of the six axes, the velocity commanded never exceeds the
      axis' force limit over its damping, and no tick moves a translation axis further than that velocity
      would. */
  lemma CommandedMotionIsBounded(measured: seq<real>, next: real, i: nat)
    requires i < 6
    ensures var v := Velocity(0.0, Driving(measured, i), B[i], M[i]);
            && Abs(v) <= MAX_FORCE[i] / B[i]
            && Abs(Dx(v, Limited(next, TRIGGER[i], MAX_FORCE[i]), B[i], M[i])) <= MAX_FORCE[i] / B[i] * DT
  {
    BuiltInGains(i);
    QuotientPositive(MAX_FORCE[i], B[i]);
    VelocityStaysBounded(0.0, Driving(measured, i), B[i], M[i], MAX_FORCE[i]);
    var v, f := Velocity(0.0, Driving(measured, i), B[i], M[i]), Limited(next, TRIGGER[i], MAX_FORCE[i]);
    DisplacementStays(v, f, B[i], M[i], MAX_FORCE[i]);
  }

  // ---------------------------------------------------------------- the direction of the motion

  lemma StepIsMonotone(v: real, w: real, f: real, g: real, b: real, m: real)
    requires b > 0.0 && m > 0.0 && Gain(b, m) <= 1.0 && v <= w && f <= g
    ensures NextV(v, f, b, m) <= NextV(w, g, b, m)
  {
    var k := Gain(b, m);
    GainPositive(b, m);
    StepIsRelaxation(v, f, b, m);
    StepIsRelaxation(w, g, b, m);
    QuotientOrder(f, g, b);
    MeansInOrder(k, v, w, f / b, g / b);
  }

  lemma MeansInOrder(k: real, v: real, w: real, x: real, y: real)
    requires 0.0 <= k <= 1.0 && v <= w && x <= y
    ensures v + k * (x - v) <= w + k * (y - w)
  {
    Mean(k, 1.0 - k, v, x);
    Mean(k, 1.0 - k, w, y);
    SharesInOrder(k, 1.0 - k, v, w, x, y);
  }

  lemma SharesInOrder(k: real, h: real, v: real, w: real, x: real, y: real)
    requires k >= 0.0 && h >= 0.0 && v <= w && x <= y
    ensures v * h + x * k <= w * h + y * k
  {
    ScaleOrder(v, w, h);
    ScaleOrder(x, y, k);
  }

  /** With a gain of at most one, forces that are never smaller never make the axis slower. */
  lemma {:induction false} VelocityIsMonotone(v: real, w: real, forces: seq<real>, harder: seq<real>, b: real, m: real)
    requires b > 0.0 && m > 0.0 && Gain(b, m) <= 1.0 && v <= w && |forces| == |harder|
    requires forall k :: 0 <= k < |forces| ==> forces[k] <= harder[k]
    ensures Velocity(v, forces, b, m) <= Velocity(w, harder, b, m)
    decreases |forces|
  {
    if forces != [] {
      var n := |forces| - 1;
      VelocityIsMonotone(v, w, forces[..n], harder[..n], b, m);
      var x, y := Velocity(v, forces[..n], b, m), Velocity(w, harder[..n], b, m);
      StepIsMonotone(x, y, forces[n], harder[n], b, m);
    }
  }

  function Zeros(n: nat): (z: seq<real>)
    ensures |z| == n && forall k :: 0 <= k < n ==> z[k] == 0.0
  {
    seq(n, k => 0.0)
  }

  lemma {:induction false} RestStaysRest(n: nat, b: real, m: real)
    requires b > 0.0 && m > 0.0
    ensures Velocity(0.0, Zeros(n), b, m) == 0.0
  {
    if n > 0 {
      assert Zeros(n)[..n - 1] == Zeros(n - 1);
      RestStaysRest(n - 1, b, m);
      assert Acc(0.0, 0.0, b, m) == 0.0;
    }
  }

  /** The arm goes the way it is pushed: on each of the six axes, from rest, a force that is never negative
      never gives a negative velocity and one that is never positive never a positive one; and pushing
      harder at every tick never makes the axis slower. */
  lemma MotionFollowsThePush(measured: seq<real>, harder: seq<real>, i: nat)
    requires i < 6 && |measured| == |harder| && forall k :: 0 <= k < |measured| ==> measured[k] <= harder[k]
    ensures var v := Velocity(0.0, Driving(measured, i), B[i], M[i]);
            && v <= Velocity(0.0, Driving(harder, i), B[i], M[i])
            && ((forall k :: 0 <= k < |measured| ==> measured[k] >= 0.0) ==> v >= 0.0)
            && ((forall k :: 0 <= k < |measured| ==> measured[k] <= 0.0) ==> v <= 0.0)
  {
    var forces, zeros := Driving(measured, i), Zeros(|measured|);
    BuiltInGains(i);
    forall k | 0 <= k < |measured| ensures forces[k] <= Driving(harder, i)[k] {
      LimitingKeepsOrder(measured[k], harder[k], TRIGGER[i], MAX_FORCE[i]);
    }
    VelocityIsMonotone(0.0, 0.0, forces, Driving(harder, i), B[i], M[i]);
    RestStaysRest(|measured|, B[i], M[i]);
    if forall k :: 0 <= k < |measured| ==> measured[k] >= 0.0 {
      VelocityIsMonotone(0.0, 0.0, zeros, forces, B[i], M[i]);
    }
    if forall k :: 0 <= k < |measured| ==> measured[k] <= 0.0 {
      VelocityIsMonotone(0.0, 0.0, forces, zeros, B[i], M[i]);
    }
  }
}
