/** The trapezoidal position profile (curve.cpp:7-64), times in milliseconds. */
module TrapezoidProfile {
  import opened Basics

  // ---------------------------------------------------------------- the code

  class TCurve2 {
    var tc: real
    var tm: real
    var ta: real
    var pa: real
    const v: real
    const a: real
    const p: real

    constructor (a: real, v: real, p: real)
      ensures this.a == a && this.v == v && this.p == p
    {
      this.a, this.v, this.p := a, v, p;
      tc, tm, ta, pa := 0.0, 0.0, 0.0, 0.0;
    }

    /** The speed reaches `v` at the end of the rise, rise and braking cover `pa` each and the cruise the
        rest of `p`; the whole takes p/v + v/a. */
    method GetCurveParam()
      requires v != 0.0 && a != 0.0
      modifies this
      ensures Times(ta, tc) == Fresh(a, v, p)
      ensures a * ta == v && 2.0 * pa == v * ta && 2.0 * pa + v * tm == p
      ensures tc == p / v + v / a && tc == tm + 2.0 * ta
    {
      ta := v / a;
      pa := 0.5 * a * ta * ta;
      tm := (p - 2.0 * pa) / v;
      tc := tm + 2.0 * ta;
      FreshTotal(a, v, p);
      TwiceTheRise(a, ta, v, pa);
      assert ((p - 2.0 * pa) / v) * v == p - 2.0 * pa;
    }

    /** `root` is the value of sqrt(p/a), used by the triangular branch only. */
    method GetTCurve(count: int, root: real) returns (s: real)
      modifies this`ta, this`tc
      ensures (Times(ta, tc), s) == Evaluate(Times(old(ta), old(tc)), a, p, count + 1, root)
    {
      var t := count + 1;
      var x := t as real / 1000.0;
      if t as real < tc * 1000.0 + 1.0 {
        if tc - 2.0 * ta > 0.0 {
          if t as real < ta * 1000.0 + 1.0 {
            s := 0.5 * a * x * x;
          } else if ta * 1000.0 < t as real && t as real < tc * 1000.0 - ta * 1000.0 + 1.0 {
            s := 0.5 * a * ta * ta + a * ta * (x - ta);
          } else {
            s := p - 0.5 * a * (tc - x) * (tc - x);
          }
        } else {
          ta := root;
          tc := 2.0 * ta;
          if t as real < ta * 1000.0 + 1.0 {
            s := 0.5 * a * x * x;
          } else {
            s := p - 0.5 * a * (tc - x) * (tc - x);
          }
        }
        assert s == Evaluate(Times(old(ta), old(tc)), a, p, count + 1, root).1;
        return s;
      } else {
        return p;
      }
    }
  }

  /** The two fields a call may rewrite. */
  datatype Times = Times(ta: real, tc: real)

  function Rising(a: real, x: real): real { 0.5 * a * x * x }

  function Cruising(a: real, ta: real, x: real): real { 0.5 * a * ta * ta + a * ta * (x - ta) }

  /** The rise read backwards from `p`. */
  function Braking(a: real, p: real, tc: real, x: real): real { p - Rising(a, tc - x) }

  function Evaluate(k: Times, a: real, p: real, t: int, root: real): (Times, real) {
    var x := t as real / 1000.0;
    if t as real >= k.tc * 1000.0 + 1.0 then (k, p)
    else if k.tc - 2.0 * k.ta > 0.0 then
      (k, if t as real < k.ta * 1000.0 + 1.0 then Rising(a, x)
          else if k.ta * 1000.0 < t as real < k.tc * 1000.0 - k.ta * 1000.0 + 1.0 then Cruising(a, k.ta, x)
          else Braking(a, p, k.tc, x))
    else
      var k' := Times(root, 2.0 * root);
      (k', if t as real < root * 1000.0 + 1.0 then Rising(a, x) else Braking(a, p, k'.tc, x))
  }

  // ---------------------------------------------------------------- the reference profile

  /** `n` is `r` rounded up. */
  predicate RoundsUp(r: real, n: int) { (n - 1) as real < r <= n as real }

  /** The times of a move in milliseconds: a rise of `u`, `c` in all. `up`, `turn` and `end` are the last
      whole milliseconds evaluated as rise, as cruise and as braking. */
  datatype Grid = Grid(u: real, c: real, up: int, turn: int, end: int) {
    /** The rise does not overlap the braking. */
    predicate Valid() { u > 0.0 && c >= u + u && RoundsUp(u, up) && RoundsUp(c - u, turn) && RoundsUp(c, end) }

    /** The rise, and the whole move, end on a whole millisecond or in the second half of one. */
    predicate SmoothRise() { up as real - u <= 0.5 }
    predicate SmoothEnd() { end as real - c <= 0.5 }

    /** The move ends on a whole millisecond. */
    predicate Whole() { end as real == c }

    /** What the steps at `up` and at `turn` lack of twice the top speed: the rise overruns the cruise, and
        the braking begins late. */
    function Lost(t: int): real {
      (if t == up then Rise(up as real - u) else 0.0) + (if t == turn then Rise((turn + 1) as real - (c - u)) else 0.0)
    }

    /** There is a braking step, no step loses more than it rises, and with several braking steps the last
        ends smoothly. */
    predicate Climbs() {
      turn < end && Lost(up) <= u + u && Lost(turn) <= u + u && (turn + 1 < end ==> SmoothEnd())
    }

    /** Neither rise nor cruise passes the whole area, and the last overrun is below it. */
    predicate Fits() {
      && Rise(up as real) <= Area(u, c)
      && (up < turn ==> 2.0 * (turn as real - (c - u)) <= u)
      && (turn < end ==> Rise(end as real - c) <= Area(u, c))
    }

    /** The rise takes at least three milliseconds, or rise and move take whole ones. */
    predicate Ample() { u >= 3.0 || (up as real == u && Whole()) }
  }

  /** Rise until `ta`, brake from `tc - ta` to `tc`; neither need be a whole number of milliseconds. */
  datatype Shape = Shape(a: real, p: real, ta: real, tc: real, ms: Grid) {
    /** The area under the speed is `p`. */
    predicate Valid() {
      && a > 0.0 && ta > 0.0 && tc >= 2.0 * ta && p == a * ta * (tc - ta)
      && ms.u == ta * 1000.0 && ms.c == tc * 1000.0 && ms.Valid()
    }

    function TopSpeed(): real { a * ta }
  }

  /** `s` is twice the position `w` on the grid, brought to the units of `a` and seconds. */
  predicate InUnits(s: real, a: real, w: real) { 2000000.0 * s == a * w }

  /** `s` is where the profile is at millisecond `t`. */
  predicate On(h: Shape, t: int, s: real) { InUnits(s, h.a, Twice(h.ms, t)) }

  /** For whole `t`, the code's comparison is one with the rounded time. */
  lemma WholeTest(t: int, r: real, n: int)
    requires RoundsUp(r, n)
    ensures t as real < r + 1.0 <==> t <= n
  {
    if t <= n { assert t as real <= n as real; } else { assert t as real >= (n + 1) as real; }
  }

  /** The order of the switch points. */
  lemma SwitchPoints(g: Grid)
    requires g.Valid()
    ensures 1 <= g.up <= g.turn <= g.end
  {
    WholeTest(g.up, g.c - g.u, g.turn);
    WholeTest(g.turn, g.c, g.end);
    WholeTest(g.up - 1, g.u, g.up);
  }

  // ---------------------------------------------------------------- twice the profile at unit acceleration

  function Rise(x: real): real { x * x }

  function Cruise(u: real, x: real): real { u * x + u * x - u * u }

  function Area(u: real, c: real): real { u * (c - u) + u * (c - u) }

  function Brake(u: real, c: real, x: real): real { Area(u, c) - Rise(c - x) }

  function Twice(g: Grid, t: int): real {
    if t > g.end then Area(g.u, g.c)
    else if t <= g.up then Rise(t as real)
    else if t <= g.turn then Cruise(g.u, t as real)
    else Brake(g.u, g.c, t as real)
  }

  /** A step of one millisecond along each part. */
  lemma StepsOfParts(u: real, c: real, x: real)
    ensures Rise(x + 1.0) - Rise(x) == x + x + 1.0
    ensures Cruise(u, x + 1.0) - Cruise(u, x) == u + u
    ensures Brake(u, c, x + 1.0) - Brake(u, c, x) == (c - x) + (c - x) - 1.0
  {
    assert (x + 1.0) * (x + 1.0) == x * x + x + x + 1.0;
    var z := c - x;
    assert (z - 1.0) * (z - 1.0) == z * z - z - z + 1.0;
    assert u * (x + 1.0) == u * x + u;
  }

  /** The rise touches the cruising line from above, the braking from below. */
  lemma Tangents(u: real, c: real, x: real)
    ensures Rise(x) == Cruise(u, x) + Rise(x - u)
    ensures Brake(u, c, x) == Cruise(u, x) - Rise(x - (c - u))
  {
    var z := x - (c - u);
    assert (x - u) * (x - u) == x * x - u * x - u * x + u * u;
    assert (u - z) * (u - z) == u * u - u * z - u * z + z * z;
    assert u - z == c - x && u * (c - u) == u * x - u * z by { assert c - u == x - z; }
  }

  lemma RiseOrder(x: real, y: real)
    requires 0.0 <= x <= y
    ensures 0.0 <= Rise(x) <= Rise(y)
  {
    ScaleOrder(x, y, x);
    ScaleOrder(x, y, y);
    ScaleOrder(0.0, x, x);
  }

  /** The step after `t` is no faster than the top speed. */
  predicate Slow(g: Grid, t: nat) {
    && (t + 1 == g.up ==> g.SmoothRise())
    && (t == g.end && g.turn < g.end ==> Rise(g.end as real - g.c) <= g.u + g.u)
  }

  /** The step after `t` does not go down. */
  predicate Settled(g: Grid, t: nat) {
    if t == g.end then g.turn < g.end
    else if g.up <= t <= g.turn then g.Lost(t) <= g.u + g.u
    else t + 1 == g.end && t > g.turn ==> g.SmoothEnd()
  }

  /** The middle of the step after `t`, against the time `r`. */
  lemma MiddleOfStep(t: int, r: real, n: int)
    requires RoundsUp(r, n)
    ensures t + 1 < n ==> t as real + t as real + 1.0 <= r + r
    ensures t + 1 == n ==> (t as real + t as real + 1.0 <= r + r <==> n as real - r <= 0.5)
    ensures t + 1 > n ==> t as real + t as real + 1.0 >= r + r
  {
    if t + 1 < n { assert t as real + 1.0 <= (n - 1) as real; }
    if t + 1 > n { assert t as real >= n as real; }
  }

  lemma RisingStep(g: Grid, t: nat)
    requires g.Valid() && t + 1 <= g.up
    ensures var d := Twice(g, t + 1) - Twice(g, t); d >= 0.0 && (d <= g.u + g.u <==> Slow(g, t))
  {
    SwitchPoints(g);
    StepsOfParts(g.u, g.c, t as real);
    MiddleOfStep(t, g.u, g.up);
  }

  /** From the rise or the cruise to the cruise or the braking: the cruising step less what is lost. */
  lemma MiddleStep(g: Grid, t: nat)
    requires g.Valid() && g.up <= t <= g.turn && t < g.end
    ensures Twice(g, t + 1) - Twice(g, t) == g.u + g.u - g.Lost(t) && g.Lost(t) >= 0.0
  {
    var x := t as real;
    SwitchPoints(g);
    Tangents(g.u, g.c, x);
    Tangents(g.u, g.c, x + 1.0);
    StepsOfParts(g.u, g.c, x);
    RiseOrder(0.0, x - g.u);
    RiseOrder(0.0, (g.turn + 1) as real - (g.c - g.u));
  }

  lemma BrakingStep(g: Grid, t: nat)
    requires g.Valid() && g.turn < t && t + 1 <= g.end
    ensures var d := Twice(g, t + 1) - Twice(g, t);
            d <= g.u + g.u && (d >= 0.0 <==> (t + 1 == g.end ==> g.SmoothEnd()))
  {
    SwitchPoints(g);
    StepsOfParts(g.u, g.c, t as real);
    MiddleOfStep(t, g.c, g.end);
    MiddleOfStep(t, g.c - g.u, g.turn);
  }

  /** A move no longer than its cruise has overrun the area at its end. */
  lemma EndAboveArea(g: Grid)
    requires g.Valid() && g.turn == g.end
    ensures Twice(g, g.end) > Area(g.u, g.c)
  {
    var x := g.end as real;
    SwitchPoints(g);
    Tangents(g.u, g.c, x);
    RiseOrder(0.0, x - g.u);
    SameSquare(g.c - x, x - g.c);
    SquareOrder(x - g.c, x - (g.c - g.u));
  }

  lemma LastStep(g: Grid)
    requires g.Valid()
    ensures var d := Area(g.u, g.c) - Twice(g, g.end);
            if g.turn < g.end then d == Rise(g.end as real - g.c) >= 0.0 else d < 0.0
  {
    SwitchPoints(g);
    if g.turn < g.end {
      RiseOrder(0.0, g.end as real - g.c);
      SameSquare(g.c - g.end as real, g.end as real - g.c);
    } else {
      EndAboveArea(g);
    }
  }

  lemma SameSquare(z: real, w: real)
    requires z == w || z == -w
    ensures Rise(z) == Rise(w)
  {
  }

  /** When one step from `t` to the next rises by more than the top speed allows, and when it falls. */
  lemma OneMillisecond(g: Grid, t: nat)
    requires g.Valid()
    ensures var d := Twice(g, t + 1) - Twice(g, t); (d <= g.u + g.u <==> Slow(g, t)) && (d >= 0.0 <==> Settled(g, t))
  {
    SwitchPoints(g);
    if t < g.up {
      RisingStep(g, t);
    } else if t == g.end {
      LastStep(g);
    } else if t <= g.turn {
      MiddleStep(g, t);
    } else if t < g.end {
      BrakingStep(g, t);
    }
  }

  /** No step is too fast exactly when the rise ends on a whole millisecond or in the second half of one:
      the overrun of a move's end is too large only when the rise is too short for that. */
  lemma SlowIff(g: Grid)
    requires g.Valid()
    ensures (forall t: nat :: t <= g.end ==> Slow(g, t)) <==> g.SmoothRise()
  {
    SwitchPoints(g);
    assert Slow(g, g.up - 1) ==> g.SmoothRise();
    if g.SmoothRise() {
      var z := g.end as real - g.c;
      RiseOrder(0.0, z);
      RiseOrder(z, 1.0);
    }
  }

  /** No step from the first millisecond on goes down. */
  lemma SettledIff(g: Grid)
    requires g.Valid()
    ensures (forall t: nat :: 1 <= t <= g.end ==> Settled(g, t)) <==> g.Climbs()
  {
    SwitchPoints(g);
    if forall t: nat :: 1 <= t <= g.end ==> Settled(g, t) {
      assert Settled(g, g.end);
      assert Settled(g, g.up);
      assert Settled(g, g.turn);
      assert Settled(g, g.end - 1);
    }
  }

  // ---------------------------------------------------------------- the range

  /** The whole milliseconds of each part that are highest, and the part of the braking past the end. */
  predicate Inside(g: Grid, t: nat) {
    if t <= g.up then Rise(t as real) <= Area(g.u, g.c)
    else if t <= g.turn then 2.0 * (t as real - (g.c - g.u)) <= g.u
    else t == g.end ==> Rise(g.end as real - g.c) <= Area(g.u, g.c)
  }

  /** The cruise begins above 0 and passes the area half a rise after the braking should begin. */
  lemma CruiseBounds(u: real, c: real, x: real)
    requires 0.0 < u <= x
    ensures 0.0 <= Cruise(u, x) && (Cruise(u, x) <= Area(u, c) <==> 2.0 * (x - (c - u)) <= u)
  {
    var d := u - 2.0 * (x - (c - u));
    ScaleOrder(u, x, u);
    assert Cruise(u, x) >= u * u;
    ScaleOrder(0.0, u, u);
    AreaLessCruise(u, c, x, d);
    ProductSign(u, d, u * d);
  }

  lemma AreaLessCruise(u: real, c: real, x: real, d: real)
    requires d == u - 2.0 * (x - (c - u))
    ensures Area(u, c) - Cruise(u, x) == u * d
  {
    var z := x - (c - u);
    assert u * (u - z - z) == u * u - u * z - u * z;
    assert u * (c - u) == u * x - u * z by { assert c - u == x - z; }
  }

  lemma ProductSign(x: real, y: real, p: real)
    requires x > 0.0 && p == x * y
    ensures p >= 0.0 <==> y >= 0.0
  {
    if y < 0.0 { PositiveProduct(x, -y, -p); }
  }

  lemma RiseInArea(u: real, c: real, z: real)
    requires 0.0 < u && u + u <= c && 0.0 <= z <= u
    ensures 0.0 <= Rise(z) <= Area(u, c) && Area(u, c) > 0.0
  {
    RiseOrder(z, u);
    ScaleOrder(u, c - u, u);
    PositiveProduct(u, u, Rise(u));
  }

  lemma BrakeInside(g: Grid, t: nat)
    requires g.Valid() && g.turn < t <= g.end
    ensures Twice(g, t) <= Area(g.u, g.c) && (0.0 <= Twice(g, t) <==> Inside(g, t))
  {
    var z := g.c - t as real;
    SwitchPoints(g);
    SameSquare(z, -z);
    if t < g.end || z >= 0.0 {
      assert (t + 1) as real > g.c - g.u;
      RiseInArea(g.u, g.c, z);
    } else {
      RiseOrder(0.0, -z);
    }
  }

  lemma RisePositive(z: real)
    requires z != 0.0
    ensures Rise(z) > 0.0
  {
    if z > 0.0 { PositiveProduct(z, z, Rise(z)); } else { PositiveProduct(-z, -z, Rise(z)); }
  }

  lemma PositiveProduct(x: real, y: real, p: real)
    requires x > 0.0 && y > 0.0 && p == x * y
    ensures p > 0.0
  {
  }

  /** When it is between 0 and the whole area. */
  lemma StaysInside(g: Grid, t: nat)
    requires g.Valid()
    ensures 0.0 <= Twice(g, t) <= Area(g.u, g.c) <==> Inside(g, t)
  {
    SwitchPoints(g);
    if t <= g.up {
      RiseOrder(0.0, t as real);
    } else if t <= g.turn {
      CruiseBounds(g.u, g.c, t as real);
    } else if t <= g.end {
      BrakeInside(g, t);
    } else {
      RiseInArea(g.u, g.c, 0.0);
    }
  }

  /** It is at rest at the whole area after its end, and at it exactly when that is whole and not reached
      on the rise or the cruise. */
  lemma ComesToRest(g: Grid, t: nat)
    requires g.Valid()
    ensures t > g.end ==> Twice(g, t) == Area(g.u, g.c)
    ensures t == g.end ==> (Twice(g, t) == Area(g.u, g.c) <==> g.turn < g.end && g.Whole())
  {
    if t == g.end {
      LastStep(g);
      if g.end as real != g.c { RisePositive(g.end as real - g.c); }
    }
  }

  lemma InsideIff(g: Grid)
    requires g.Valid()
    ensures (forall t: nat :: 1 <= t <= g.end ==> Inside(g, t)) <==> g.Fits()
  {
    SwitchPoints(g);
    if forall t: nat :: 1 <= t <= g.end ==> Inside(g, t) {
      assert Inside(g, g.up) && Inside(g, g.turn) && Inside(g, g.end);
    }
    if g.Fits() {
      forall t: nat ensures Inside(g, t) {
        if t <= g.up { RiseOrder(t as real, g.up as real); }
      }
    }
  }

  /** A rise of three milliseconds, or of whole ones in a whole move, keeps inside; and it climbs exactly
      when the end is smooth. */
  lemma AmpleMoves(g: Grid)
    requires g.Valid() && g.Ample()
    ensures g.Fits() && (g.Climbs() <==> g.SmoothEnd())
  {
    SwitchPoints(g);
    if g.u >= 3.0 { LongRise(g); } else { WholeRise(g); }
  }

  lemma LongRise(g: Grid)
    requires g.Valid() && g.u >= 3.0
    ensures g.Fits() && (g.Climbs() <==> g.SmoothEnd())
  {
    SwitchPoints(g);
    var over, under, late := g.up as real - g.u, (g.turn + 1) as real - (g.c - g.u), g.end as real - g.c;
    assert g.end > g.turn + 1;
    RiseOrder(over, 1.0);
    RiseOrder(under, 2.0);
    RiseInArea(g.u, g.c, late);
    FourThirds(g.u, g.c, g.up as real);
  }

  lemma FourThirds(u: real, c: real, x: real)
    requires 0.0 < u && u + u <= c && 0.0 <= x && 3.0 * x <= 4.0 * u
    ensures Rise(x) <= Area(u, c)
  {
    var y := 4.0 * u / 3.0;
    RiseOrder(x, y);
    assert Rise(y) == 16.0 * (u * u) / 9.0;
    ScaleOrder(u, c - u, u);
    ScaleOrder(0.0, u, u);
  }

  lemma WholeRise(g: Grid)
    requires g.Valid() && g.up as real == g.u && g.Whole()
    ensures g.Fits() && g.Climbs() && g.SmoothEnd() && g.turn < g.end
  {
    SwitchPoints(g);
    WholeTest(g.end - g.up, g.c - g.u, g.turn);
    assert g.turn as real == g.c - g.u;
    RiseInArea(g.u, g.c, g.u);
  }

  // ---------------------------------------------------------------- units

  /** The code's formulas in seconds are those of the grid in milliseconds. */
  lemma CodeIsScaled(h: Shape, t: int)
    requires h.Valid()
    ensures var x := t as real / 1000.0;
            && InUnits(Rising(h.a, x), h.a, Rise(t as real))
            && InUnits(Cruising(h.a, h.ta, x), h.a, Cruise(h.ms.u, t as real))
            && InUnits(Braking(h.a, h.p, h.tc, x), h.a, Brake(h.ms.u, h.ms.c, t as real))
            && InUnits(h.p, h.a, Area(h.ms.u, h.ms.c))
  {
    var y, x := t as real, t as real / 1000.0;
    ScaledSquare(h.a, x, y);
    CruiseIsScaled(h.a, h.ta, h.ms.u, x, y);
    BrakeIsScaled(h.a, h.p, h.ta, h.tc, h.ms.u, h.ms.c, x, y);
  }

  lemma BrakeIsScaled(a: real, p: real, ta: real, tc: real, u: real, c: real, x: real, y: real)
    requires u == ta * 1000.0 && c == tc * 1000.0 && y == x * 1000.0 && p == a * ta * (tc - ta)
    ensures InUnits(p, a, Area(u, c)) && InUnits(Braking(a, p, tc, x), a, Brake(u, c, y))
  {
    ScaledProduct(a, ta, tc - ta, u, c - u);
    ScaledSquare(a, tc - x, c - y);
    ScaledDifference(a, p, Rising(a, tc - x), Area(u, c), Rise(c - y));
  }

  lemma CruiseIsScaled(a: real, ta: real, u: real, x: real, y: real)
    requires u == ta * 1000.0 && y == x * 1000.0
    ensures InUnits(Cruising(a, ta, x), a, Cruise(u, y))
  {
    ScaledSquare(a, ta, u);
    ScaledProduct(a, ta, x - ta, u, y - u);
    assert u * (y - u) == u * y - u * u;
    Expand(a, u * u, u * y);
  }

  lemma ScaledDifference(a: real, s: real, r: real, w: real, q: real)
    requires InUnits(s, a, w) && InUnits(r, a, q)
    ensures InUnits(s - r, a, w - q)
  {
    Difference(a, w, q);
  }

  lemma ScaledSquare(a: real, x: real, y: real)
    requires y == x * 1000.0
    ensures InUnits(Rising(a, x), a, Rise(y))
  {
    assert y * y == 1000000.0 * (x * x);
  }

  lemma ScaledProduct(a: real, x: real, z: real, u: real, v: real)
    requires u == x * 1000.0 && v == z * 1000.0
    ensures InUnits(a * x * z, a, u * v + u * v)
  {
    assert u * v == 1000000.0 * (x * z);
    assert a * x * z == a * (x * z);
  }

  lemma Expand(a: real, s: real, p: real)
    ensures a * s + a * ((p - s) + (p - s)) == a * (p + p - s)
  {
  }

  lemma Difference(a: real, p: real, q: real)
    ensures a * (p - q) == a * p - a * q
  {
  }

  lemma ScaleIff(a: real, d: real, w: real)
    requires a > 0.0
    ensures a * d <= a * w <==> d <= w
  {
    if d <= w { ScaleOrder(d, w, a); } else { StrictScale(w, d, a); }
  }

  lemma ScaledStep(a: real, ta: real, u: real, w0: real, w1: real, s0: real, s1: real)
    requires a > 0.0 && u == ta * 1000.0 && InUnits(s0, a, w0) && InUnits(s1, a, w1)
    ensures s1 - s0 <= a * ta / 1000.0 <==> w1 - w0 <= u + u
    ensures s1 - s0 >= 0.0 <==> w1 - w0 >= 0.0
  {
    Difference(a, w1, w0);
    ScaleIff(a, w1 - w0, u + u);
    ScaleIff(a, 0.0, w1 - w0);
    assert a * (u + u) == 2000.0 * (a * ta);
  }

  lemma ScaledValue(a: real, w: real, area: real, s: real, p: real)
    requires a > 0.0 && InUnits(s, a, w) && InUnits(p, a, area)
    ensures (0.0 <= w <==> 0.0 <= s) && (w <= area <==> s <= p) && (w == area <==> s == p)
  {
    ScaleIff(a, 0.0, w);
    ScaleIff(a, w, area);
    ScaleIff(a, area, w);
  }

  // ---------------------------------------------------------------- the code follows the reference

  /** The parameters `getCurveParam` computes. */
  function Fresh(a: real, v: real, p: real): Times
    requires a != 0.0 && v != 0.0
  {
    var ta := v / a;
    Times(ta, (p - 2.0 * (0.5 * a * ta * ta)) / v + 2.0 * ta)
  }

  /** The profile of a long move: it reaches the nominal speed. */
  predicate LongMove(h: Shape, v: real) { h.Valid() && h.tc > 2.0 * h.ta && h.TopSpeed() == v }

  /** The profile of a short move: rise and braking only, below the nominal speed. */
  predicate ShortMove(h: Shape, v: real) { h.Valid() && h.tc == 2.0 * h.ta && h.TopSpeed() <= v }

  lemma TwiceTheRise(a: real, ta: real, v: real, pa: real)
    requires a * ta == v && pa == 0.5 * a * ta * ta
    ensures 2.0 * pa == v * ta
  {
    assert 2.0 * (0.5 * a * ta * ta) == (a * ta) * ta;
  }

  lemma FreshTotal(a: real, v: real, p: real)
    requires a != 0.0 && v != 0.0
    ensures Fresh(a, v, p).tc == p / v + v / a
  {
    var ta := v / a;
    assert a * ta == v;
    TwiceTheRise(a, ta, v, 0.5 * a * ta * ta);
    assert (p - v * ta) / v == p / v - ta by {
      assert (p / v - ta) * v == p - v * ta;
      CancelQuotient(p / v - ta, p - v * ta, v);
    }
  }

  lemma CancelQuotient(q: real, n: real, d: real)
    requires d != 0.0 && q * d == n
    ensures n / d == q
  {
    assert (n / d) * d == n;
    assert (n / d - q) * d == 0.0;
  }

  lemma LongMoveTimes(h: Shape, v: real)
    requires LongMove(h, v) && v > 0.0
    ensures Fresh(h.a, v, h.p) == Times(h.ta, h.tc)
  {
    TimesOfLong(h.a, v, h.p, h.ta, h.tc);
  }

  lemma TimesOfLong(a: real, v: real, p: real, ta: real, tc: real)
    requires a > 0.0 && v > 0.0 && a * ta == v && p == v * (tc - ta)
    ensures Fresh(a, v, p) == Times(ta, tc)
  {
    FreshTotal(a, v, p);
    CancelQuotient(ta, v, a);
    CancelQuotient(tc - ta, p, v);
  }

  /** A long move evaluates to the reference at every call and changes no field. */
  lemma LongMoveFollows(h: Shape, v: real, t: int, root: real)
    requires LongMove(h, v) && v > 0.0
    ensures var (k, s) := Evaluate(Fresh(h.a, v, h.p), h.a, h.p, t, root); k == Fresh(h.a, v, h.p) && On(h, t, s)
  {
    LongMoveTimes(h, v);
    WholeTest(t, h.ta * 1000.0, h.ms.up);
    WholeTest(t, h.tc * 1000.0 - h.ta * 1000.0, h.ms.turn);
    WholeTest(t, h.tc * 1000.0, h.ms.end);
    CodeIsScaled(h, t);
  }

  /** A short move's nominal duration is at least its true one, so rewriting the fields shortens it. */
  lemma ShortMoveIsShorter(h: Shape, v: real)
    requires ShortMove(h, v) && v > 0.0
    ensures Fresh(h.a, v, h.p).tc >= 2.0 * h.ta
    ensures Fresh(h.a, v, h.p).tc - 2.0 * Fresh(h.a, v, h.p).ta <= 0.0
  {
    var a, r := h.a, h.ta;
    FreshTotal(a, v, h.p);
    var w, z := v / a, h.p / v;
    assert h.tc - h.ta == r;
    assert w * a == v && z * v == h.p == a * r * r;
    MeanAboveRoot(a, v, r, w, z);
  }

  lemma MeanAboveRoot(a: real, v: real, r: real, w: real, z: real)
    requires a > 0.0 && v > 0.0 && r > 0.0 && a * r <= v && w * a == v && z * v == a * r * r
    ensures z + w >= 2.0 * r && z <= w
  {
    assert r <= w by { if r > w { StrictScale(w, r, a); } }
    assert z * w == r * r by {
      assert (z * w) * a == z * v == (r * r) * a;
      assert (z * w - r * r) * a == 0.0;
    }
    assert z <= r by { if z > r { ProductsAbove(z, w, r); } }
    assert (z + w) * (z + w) >= 4.0 * (z * w) by { assert (z - w) * (z - w) >= 0.0; }
    assert w > 0.0;
    if z + w < 2.0 * r {
      assert r * r > 0.0;
      assert z > 0.0 by { if z <= 0.0 { ScaleOrder(z, 0.0, w); } }
      SquareOrder(z + w, 2.0 * r);
    }
  }

  lemma ProductsAbove(z: real, w: real, r: real)
    requires z > r > 0.0 && w >= r
    ensures z * w > r * r
  {
    StrictScale(r, z, w);
    ScaleOrder(r, w, r);
  }

  lemma SquareOrder(x: real, y: real)
    requires 0.0 <= x < y
    ensures x * x < y * y
  {
    if x > 0.0 { StrictScale(x, y, x); }
    PositiveProduct(y - x, y, (y - x) * y);
  }

  /** Once the fields are rewritten, every later call of a short move evaluates to the reference. */
  lemma ShortMoveSettles(h: Shape, v: real, t: int)
    requires ShortMove(h, v)
    ensures var (k, s) := Evaluate(Times(h.ta, 2.0 * h.ta), h.a, h.p, t, h.ta);
            k == Times(h.ta, 2.0 * h.ta) && On(h, t, s)
  {
    WholeTest(t, h.ta * 1000.0, h.ms.up);
    WholeTest(t, h.tc * 1000.0, h.ms.end);
    WholeTest(h.ms.turn, h.ta * 1000.0, h.ms.up);
    WholeTest(h.ms.up, h.tc * 1000.0 - h.ta * 1000.0, h.ms.turn);
    CodeIsScaled(h, t);
  }

  /** The first call of a short move still tests the nominal duration: it agrees with the reference
      exactly outside the interval between the true and the nominal end. */
  lemma ShortMoveFirstCall(h: Shape, v: real, t: int)
    requires ShortMove(h, v) && v > 0.0
    ensures On(h, t, Evaluate(Fresh(h.a, v, h.p), h.a, h.p, t, h.ta).1)
       <==> !(h.ms.end < t && t as real < Fresh(h.a, v, h.p).tc * 1000.0 + 1.0)
  {
    ShortMoveIsShorter(h, v);
    ShortMoveSettles(h, v, t);
    WholeTest(t, h.ta * 1000.0, h.ms.up);
    WholeTest(t, h.tc * 1000.0, h.ms.end);
    if t > h.ms.end { BrakesPastEnd(h, t); }
  }

  /** The braking formula past the end has left `p` again. */
  lemma BrakesPastEnd(h: Shape, t: int)
    requires h.Valid() && t > h.ms.end
    ensures !On(h, t, Braking(h.a, h.p, h.tc, t as real / 1000.0)) && On(h, t, h.p)
  {
    var w, area := Brake(h.ms.u, h.ms.c, t as real), Area(h.ms.u, h.ms.c);
    CodeIsScaled(h, t);
    RisePositive(h.ms.c - t as real);
    assert w < area;
    ScaledValue(h.a, w, area, Braking(h.a, h.p, h.tc, t as real / 1000.0), h.p);
  }

  /** Calls at counts 0, 1, 2, ...: the value returned by the last one. */
  function Calls(k: Times, a: real, p: real, n: nat, root: real): (Times, real)
    requires n > 0
  {
    Evaluate(if n == 1 then k else Calls(k, a, p, n - 1, root).0, a, p, n, root)
  }

  lemma {:induction false} CallsFollow(h: Shape, v: real, n: nat, root: real)
    requires v > 0.0 && n > 0 && (LongMove(h, v) || (ShortMove(h, v) && root == h.ta))
    ensures var (k, s) := Calls(Fresh(h.a, v, h.p), h.a, h.p, n, root);
            On(h, n, s) && (if LongMove(h, v) then k == Fresh(h.a, v, h.p) else k == Times(h.ta, 2.0 * h.ta))
  {
    if n > 1 { CallsFollow(h, v, n - 1, root); }
    if LongMove(h, v) {
      LongMoveFollows(h, v, n, root);
    } else if n == 1 {
      ShortMoveIsShorter(h, v);
      ShortMoveFirstCall(h, v, 1);
    } else {
      ShortMoveSettles(h, v, n);
    }
  }

  function Rounded(a: real, p: real, ta: real, tc: real): (h: Shape)
    ensures RoundsUp(h.ms.u, h.ms.up) && RoundsUp(h.ms.c - h.ms.u, h.ms.turn) && RoundsUp(h.ms.c, h.ms.end)
  {
    var u, c := ta * 1000.0, tc * 1000.0;
    Shape(a, p, ta, tc, Grid(u, c, Ceil(u), Ceil(c - u), Ceil(c)))
  }

  /** Every move has a shape: the trapezoid when the distance allows the nominal speed, else the triangle
      whose half is the root of p/a. */
  lemma EveryMoveHasShape(a: real, v: real, p: real, root: real) returns (h: Shape)
    requires a > 0.0 && v > 0.0 && p > 0.0 && root > 0.0 && a * root * root == p
    ensures h.a == a && h.p == p && (LongMove(h, v) || (ShortMove(h, v) && h.ta == root))
  {
    var ta, z := v / a, p / v;
    assert a * ta == v && z * v == p;
    QuotientPositive(v, a);
    if p > v * ta {
      h := LongShape(a, v, p, ta, z);
    } else {
      if a * root > v { RootTooFast(a, v, ta, root); }
      h := ShortShape(a, v, p, root);
    }
  }

  lemma LongShape(a: real, v: real, p: real, ta: real, z: real) returns (h: Shape)
    requires a > 0.0 && v > 0.0 && ta > 0.0 && a * ta == v && z * v == p && p > v * ta
    ensures h.a == a && h.p == p && LongMove(h, v)
  {
    var tc := z + ta;
    LongArea(a, v, p, ta, tc);
    h := ValidShape(a, p, ta, tc);
  }

  lemma ValidShape(a: real, p: real, ta: real, tc: real) returns (h: Shape)
    requires a > 0.0 && ta > 0.0 && tc >= 2.0 * ta && p == a * ta * (tc - ta)
    ensures h.a == a && h.p == p && h.ta == ta && h.tc == tc && h.Valid()
  {
    h := Rounded(a, p, ta, tc);
    Milliseconds(ta, tc, h.ms.u, h.ms.c);
  }

  lemma Milliseconds(ta: real, tc: real, u: real, c: real)
    requires ta > 0.0 && tc >= 2.0 * ta && u == ta * 1000.0 && c == tc * 1000.0
    ensures u > 0.0 && c >= u + u
  {
  }

  lemma ShortShape(a: real, v: real, p: real, root: real) returns (h: Shape)
    requires a > 0.0 && v > 0.0 && root > 0.0 && a * root * root == p && a * root <= v
    ensures h.a == a && h.p == p && ShortMove(h, v) && h.ta == root
  {
    var tc := 2.0 * root;
    assert tc - root == root;
    h := ValidShape(a, p, root, tc);
  }

  lemma LongArea(a: real, v: real, p: real, ta: real, tc: real)
    requires v > 0.0 && a * ta == v && (tc - ta) * v == p && p > v * ta
    ensures tc > 2.0 * ta && p == a * ta * (tc - ta)
  {
    var z := tc - ta;
    if z <= ta { ScaleOrder(z, ta, v); }
  }

  lemma QuotientPositive(v: real, a: real)
    requires v > 0.0 && a > 0.0
    ensures v / a > 0.0
  {
    var q := v / a;
    assert q * a == v;
    if q <= 0.0 { ScaleOrder(q, 0.0, a); }
  }

  lemma RootTooFast(a: real, v: real, ta: real, root: real)
    requires a > 0.0 && v > 0.0 && root > 0.0 && a * ta == v && a * root > v
    ensures a * root * root > v * ta
  {
    assert ta * a == v && root * a > v;
    assert root > ta by { if root <= ta { ScaleOrder(root, ta, a); } }
    StrictScale(v, a * root, root);
    StrictScale(ta, root, v);
  }

  /** `s[i]` is what the call at count `i` returns, from the first call after `getCurveParam` on. */
  predicate Returned(s: seq<real>, h: Shape, v: real, root: real)
    requires h.a != 0.0 && v != 0.0
  {
    forall i {:trigger Calls(Fresh(h.a, v, h.p), h.a, h.p, i + 1, root)} ::
      0 <= i < |s| ==> s[i] == Calls(Fresh(h.a, v, h.p), h.a, h.p, i + 1, root).1
  }

  /** What the samples are: the code's values of a long or of a short move, from the first call on. */
  predicate Sampled(s: seq<real>, h: Shape, v: real, root: real) {
    && v > 0.0 && h.Valid() && (LongMove(h, v) || (ShortMove(h, v) && root == h.ta)) && Returned(s, h, v, root)
  }

  /** The profile as the plan samples it, one call per millisecond from count 0, long or short: it stays
      in [0, p] if and only if the move fits, `s` reaching its end; and it is p after its end, and at it
      exactly when that is whole and later than the cruise. */
  lemma SampledProfile(s: seq<real>, h: Shape, v: real, root: real)
    requires Sampled(s, h, v, root)
    ensures h.ms.Fits() ==> forall i :: 0 <= i < |s| ==> 0.0 <= s[i] <= h.p
    ensures |s| >= h.ms.end && (forall i :: 0 <= i < |s| ==> 0.0 <= s[i] <= h.p) ==> h.ms.Fits()
    ensures forall i :: 0 <= i < |s| && i + 1 > h.ms.end ==> s[i] == h.p
    ensures forall i :: 0 <= i < |s| && i + 1 == h.ms.end ==> (s[i] == h.p <==> h.ms.turn < i + 1 && h.ms.Whole())
  {
    forall i | 0 <= i < |s|
      ensures 0.0 <= s[i] <= h.p <==> Inside(h.ms, i + 1)
      ensures s[i] == h.p <==> Twice(h.ms, i + 1) == Area(h.ms.u, h.ms.c)
    {
      SampleInside(s, h, v, root, i);
    }
    var g := h.ms;
    InsideIff(g);
    SwitchPoints(g);
    forall t: nat | t >= g.end ensures Twice(g, t) == Area(g.u, g.c) <==> t > g.end || (g.turn < t && g.Whole()) {
      ComesToRest(g, t);
    }
    if |s| >= g.end && forall i :: 0 <= i < |s| ==> 0.0 <= s[i] <= h.p {
      forall t: nat | 1 <= t <= g.end ensures Inside(g, t) { assert 0.0 <= s[t - 1] <= h.p; }
    }
  }

  /** No call raises it by more than its top speed allows, hence by more than v/1000, if and only if the
      rise ends on a whole millisecond or in the second half of one; and it never falls if and only if
      the move climbs. `s` reaches past the end of the move; the first call rises from 0. */
  lemma SampledSpeed(s: seq<real>, h: Shape, v: real, root: real)
    requires Sampled(s, h, v, root) && |s| > h.ms.end
    ensures h.TopSpeed() <= v && |s| > 0
    ensures s[0] <= h.TopSpeed() / 1000.0 && (forall i :: 0 <= i < |s| - 1 ==> s[i + 1] - s[i] <= h.TopSpeed() / 1000.0)
       <==> h.ms.SmoothRise()
    ensures (forall i :: 0 <= i < |s| - 1 ==> s[i + 1] - s[i] >= 0.0) <==> h.ms.Climbs()
  {
    var g, top := h.ms, h.TopSpeed() / 1000.0;
    SwitchPoints(g);
    forall i | 0 <= i < |s| - 1
      ensures s[i + 1] - s[i] <= top <==> Slow(g, i + 1)
      ensures s[i + 1] - s[i] >= 0.0 <==> Settled(g, i + 1)
    {
      SampleStep(s, h, v, root, i);
    }
    FirstSample(s, h, v, root);
    SlowIff(g);
    SettledIff(g);
    if s[0] <= top && forall i :: 0 <= i < |s| - 1 ==> s[i + 1] - s[i] <= top {
      forall t: nat | t <= g.end ensures Slow(g, t) { if t > 0 { assert s[t - 1 + 1] - s[t - 1] <= top; } }
    }
    if forall i :: 0 <= i < |s| - 1 ==> s[i + 1] - s[i] >= 0.0 {
      forall t: nat | 1 <= t <= g.end ensures Settled(g, t) { assert s[t - 1 + 1] - s[t - 1] >= 0.0; }
    }
  }

  /** With switch times on whole milliseconds all of it holds at once. */
  lemma WholeMillisecondProfile(s: seq<real>, h: Shape, v: real, root: real)
    requires Sampled(s, h, v, root) && |s| > h.ms.end
    requires h.ms.up as real == h.ms.u && h.ms.Whole()
    ensures forall i :: 0 <= i < |s| - 1 ==> 0.0 <= s[i + 1] - s[i] <= v / 1000.0
    ensures forall i :: 0 <= i < |s| ==> 0.0 <= s[i] <= h.p && (i + 1 >= h.ms.end ==> s[i] == h.p)
  {
    WholeRise(h.ms);
    SampledProfile(s, h, v, root);
    SampledSpeed(s, h, v, root);
  }

  lemma SampleOn(s: seq<real>, h: Shape, v: real, root: real, i: nat) returns (w: real)
    requires Sampled(s, h, v, root) && i < |s|
    ensures w == Twice(h.ms, i + 1) && InUnits(s[i], h.a, w)
  {
    var last := Calls(Fresh(h.a, v, h.p), h.a, h.p, i + 1, root);
    CallsFollow(h, v, i + 1, root);
    w := Twice(h.ms, i + 1);
  }

  lemma SampleInside(s: seq<real>, h: Shape, v: real, root: real, i: nat)
    requires Sampled(s, h, v, root) && i < |s|
    ensures 0.0 <= s[i] <= h.p <==> Inside(h.ms, i + 1)
    ensures s[i] == h.p <==> Twice(h.ms, i + 1) == Area(h.ms.u, h.ms.c)
  {
    var w, area := InsideOnGrid(s, h, v, root, i);
    ScaledValue(h.a, w, area, s[i], h.p);
  }

  lemma InsideOnGrid(s: seq<real>, h: Shape, v: real, root: real, i: nat) returns (w: real, area: real)
    requires Sampled(s, h, v, root) && i < |s|
    ensures InUnits(s[i], h.a, w) && InUnits(h.p, h.a, area) && (0.0 <= w <= area <==> Inside(h.ms, i + 1))
    ensures w == Twice(h.ms, i + 1) && area == Area(h.ms.u, h.ms.c)
  {
    w := SampleOn(s, h, v, root, i);
    area := Area(h.ms.u, h.ms.c);
    StaysInside(h.ms, i + 1);
    CodeIsScaled(h, i + 1);
  }

  lemma FirstSample(s: seq<real>, h: Shape, v: real, root: real)
    requires Sampled(s, h, v, root) && |s| > 0
    ensures s[0] <= h.TopSpeed() / 1000.0 <==> Slow(h.ms, 0)
  {
    var w := SampleOn(s, h, v, root, 0);
    OneMillisecond(h.ms, 0);
    StepInUnits(h, 0, 0.0, s[0], 0.0, w);
  }

  lemma SampleStep(s: seq<real>, h: Shape, v: real, root: real, i: nat)
    requires Sampled(s, h, v, root) && i + 1 < |s|
    ensures s[i + 1] - s[i] <= h.TopSpeed() / 1000.0 <==> Slow(h.ms, i + 1)
    ensures s[i + 1] - s[i] >= 0.0 <==> Settled(h.ms, i + 1)
  {
    var w0 := SampleOn(s, h, v, root, i);
    var w1 := SampleOn(s, h, v, root, i + 1);
    OneMillisecond(h.ms, i + 1);
    StepInUnits(h, i + 1, s[i], s[i + 1], w0, w1);
  }

  lemma StepInUnits(h: Shape, t: nat, s0: real, s1: real, w0: real, w1: real)
    requires h.a > 0.0 && h.ms.u == h.ta * 1000.0 && InUnits(s0, h.a, w0) && InUnits(s1, h.a, w1)
    requires (w1 - w0 <= h.ms.u + h.ms.u <==> Slow(h.ms, t)) && (w1 - w0 >= 0.0 <==> Settled(h.ms, t))
    ensures s1 - s0 <= h.TopSpeed() / 1000.0 <==> Slow(h.ms, t)
    ensures s1 - s0 >= 0.0 <==> Settled(h.ms, t)
  {
    ScaledStep(h.a, h.ta, h.ms.u, w0, w1, s0, s1);
  }
}
