/** The gripper's calibration table: opening in millimetres to servo position and back
    (gripper.cpp:354-436). */
module GripperTable {
  import opened Basics

  datatype Knot = Knot(mm: real, pos: int)

  /** Openings increase, servo positions strictly decrease. */
  predicate Calibrated(t: seq<Knot>) {
    |t| >= 2
    && (forall i, j :: 0 <= i < j < |t| ==> t[i].mm < t[j].mm)
    && (forall i, j :: 0 <= i < j < |t| ==> t[i].pos > t[j].pos)
  }

  /** `std::lround`: to the nearest integer, halves away from zero. */
  function Round(y: real): int {
    if y >= 0.0 then (y + 0.5).Floor else -((-y + 0.5).Floor)
  }

  lemma RoundIsNearest(y: real)
    ensures -0.5 <= y - Round(y) as real <= 0.5
  {
  }

  lemma RoundIsMonotone(y: real, z: real)
    requires y <= z
    ensures Round(y) <= Round(z)
  {
  }

  /** Linear interpolation between two points. */
  function Along(x0: real, x1: real, y0: real, y1: real, x: real): real
    requires x0 != x1
  {
    y0 + (x - x0) / (x1 - x0) * (y1 - y0)
  }

  function PosOn(t: seq<Knot>, i: nat, mm: real): real
    requires i + 1 < |t| && t[i].mm != t[i + 1].mm
  {
    Along(t[i].mm, t[i + 1].mm, t[i].pos as real, t[i + 1].pos as real, mm)
  }

  function MmOn(t: seq<Knot>, i: nat, pos: real): real
    requires i + 1 < |t| && t[i].pos != t[i + 1].pos
  {
    Along(t[i].pos as real, t[i + 1].pos as real, t[i].mm, t[i + 1].mm, pos)
  }

  // ---------------------------------------------------------------- forward

  /** The first segment from `i` on that contains the value. A search that starts below the value never
      meets it in a segment of no width, so nothing is divided by zero whatever the table. */
  function SearchMm(value: real, t: seq<Knot>, i: nat): int
    requires i < |t| && t[i].mm < value
    decreases |t| - i
  {
    if i + 1 == |t| then t[i].pos
    else if t[i].mm <= value <= t[i + 1].mm then Round(PosOn(t, i, value))
    else SearchMm(value, t, i + 1)
  }

  function Interpolated(value: real, t: seq<Knot>): int {
    if t == [] then 0
    else if value <= t[0].mm then t[0].pos
    else if value >= t[|t| - 1].mm then t[|t| - 1].pos
    else SearchMm(value, t, 0)
  }

  method Interpolate(value: real, t: seq<Knot>) returns (pos: int)
    ensures pos == Interpolated(value, t)
    ensures |t| <= 1 ==> pos == if t == [] then 0 else t[0].pos
  {
    if t == [] {
      return 0;
    }
    if value <= t[0].mm {
      return t[0].pos;
    }
    if value >= t[|t| - 1].mm {
      return t[|t| - 1].pos;
    }
    var i := 0;
    while i + 1 < |t|
      invariant i < |t| && t[i].mm < value && SearchMm(value, t, i) == SearchMm(value, t, 0)
    {
      var x0, x1, y0, y1 := t[i].mm, t[i + 1].mm, t[i].pos, t[i + 1].pos;
      if x0 <= value <= x1 {
        var ratio := (value - x0) / (x1 - x0);
        var y := y0 as real + ratio * (y1 as real - y0 as real);
        SameLine(x0, x1, y0 as real, y1 as real, value, ratio, y);
        return Round(y);
      }
      i := i + 1;
    }
    return t[|t| - 1].pos;
  }

  lemma SameLine(x0: real, x1: real, y0: real, y1: real, x: real, ratio: real, y: real)
    requires x0 != x1 && ratio == (x - x0) / (x1 - x0) && y == y0 + ratio * (y1 - y0)
    ensures y == Along(x0, x1, y0, y1, x)
  {
  }

  // ---------------------------------------------------------------- backward

  predicate Between(pos: int, a: int, b: int) { a <= pos <= b || b <= pos <= a }

  function SearchPos(pos: int, t: seq<Knot>, i: nat): Option<real>
    requires i < |t|
    decreases |t| - i
  {
    if i + 1 == |t| then None
    else if Between(pos, t[i].pos, t[i + 1].pos) then
      Some(if t[i].pos == t[i + 1].pos then t[i].mm else MmOn(t, i, pos as real))
    else SearchPos(pos, t, i + 1)
  }

  /** Outside the table's range: the end whose position is nearer, the far end on a tie. */
  function Inverted(pos: int, t: seq<Knot>): real {
    if t == [] then 0.0
    else match SearchPos(pos, t, 0)
    case Some(mm) => mm
    case None =>
      if Dist(pos, t[0].pos) < Dist(pos, t[|t| - 1].pos) then t[0].mm else t[|t| - 1].mm
  }

  function Dist(a: int, b: int): int { if a < b then b - a else a - b }

  method InverseInterpolateMm(pos: int, t: seq<Knot>) returns (mm: real)
    ensures mm == Inverted(pos, t)
    ensures |t| <= 1 ==> mm == if t == [] then 0.0 else t[0].mm
  {
    if t == [] {
      return 0.0;
    }
    var i := 0;
    while i + 1 < |t|
      invariant i < |t| && SearchPos(pos, t, i) == SearchPos(pos, t, 0)
    {
      var mm0, p0, mm1, p1 := t[i].mm, t[i].pos, t[i + 1].mm, t[i + 1].pos;
      var lo := if p0 < p1 then p0 else p1;
      var hi := if p0 < p1 then p1 else p0;
      if pos >= lo && pos <= hi {
        var denom := p1 as real - p0 as real;
        if Abs(denom) < 0.000000001 {
          return mm0;
        }
        var ratio := (pos as real - p0 as real) / denom;
        mm := mm0 + ratio * (mm1 - mm0);
        SameLine(p0 as real, p1 as real, mm0, mm1, pos as real, ratio, mm);
        return;
      }
      i := i + 1;
    }
    if Dist(pos, t[0].pos) < Dist(pos, t[|t| - 1].pos) {
      return t[0].mm;
    }
    return t[|t| - 1].mm;
  }

  // ---------------------------------------------------------------- one segment

  lemma Ends(x0: real, x1: real, y0: real, y1: real)
    requires x0 != x1
    ensures Along(x0, x1, y0, y1, x0) == y0 && Along(x0, x1, y0, y1, x1) == y1
  {
    assert (x1 - x0) / (x1 - x0) == 1.0;
  }

  /** The slope form of the interpolation. */
  lemma Displacement(x0: real, x1: real, y0: real, y1: real, a: real, b: real)
    requires x0 != x1
    ensures (Along(x0, x1, y0, y1, b) - Along(x0, x1, y0, y1, a)) * (x1 - x0) == (b - a) * (y1 - y0)
  {
    var d, e := x1 - x0, y1 - y0;
    Scaled((b - x0) / d, d, b - x0, e);
    Scaled((a - x0) / d, d, a - x0, e);
    Subtract((b - x0) / d * e, (a - x0) / d * e, d, (b - x0) * e, (a - x0) * e);
    assert (b - x0) * e - (a - x0) * e == (b - a) * e;
  }

  lemma Scaled(q: real, d: real, n: real, e: real)
    requires q * d == n
    ensures q * e * d == n * e
  {
    assert q * e * d == q * d * e;
  }

  lemma Subtract(u: real, v: real, d: real, m: real, n: real)
    requires u * d == m && v * d == n
    ensures (u - v) * d == m - n
  {
  }

  lemma CancelFactor(a: real, b: real, d: real)
    requires a * d == b * d && d != 0.0
    ensures a == b
  {
    assert (a - b) * d == 0.0;
  }

  /** There and back along one segment is the identity. */
  lemma AlongInverts(x0: real, x1: real, y0: real, y1: real, x: real)
    requires x0 != x1 && y0 != y1
    ensures Along(y0, y1, x0, x1, Along(x0, x1, y0, y1, x)) == x
  {
    var y := Along(x0, x1, y0, y1, x);
    Ends(x0, x1, y0, y1);
    Ends(y0, y1, x0, x1);
    Displacement(x0, x1, y0, y1, x0, x);
    Displacement(y0, y1, x0, x1, y0, y);
    assert (y - y0) * (x1 - x0) == (x - x0) * (y1 - y0);
    assert (Along(y0, y1, x0, x1, y) - x0) * (y1 - y0) == (y - y0) * (x1 - x0);
    CancelFactor(Along(y0, y1, x0, x1, y) - x0, x - x0, y1 - y0);
  }

  /** Positions fall along a segment and stay between its ends. */
  lemma PosFalls(t: seq<Knot>, i: nat, a: real, b: real)
    requires Calibrated(t) && i + 1 < |t| && t[i].mm <= a <= b <= t[i + 1].mm
    ensures t[i + 1].pos as real <= PosOn(t, i, b) <= PosOn(t, i, a) <= t[i].pos as real
  {
    var x0, x1, y0, y1 := t[i].mm, t[i + 1].mm, t[i].pos as real, t[i + 1].pos as real;
    Ends(x0, x1, y0, y1);
    Falls(x0, x1, y0, y1, x0, a);
    Falls(x0, x1, y0, y1, a, b);
    Falls(x0, x1, y0, y1, b, x1);
  }

  lemma Falls(x0: real, x1: real, y0: real, y1: real, a: real, b: real)
    requires x0 < x1 && y0 > y1 && a <= b
    ensures Along(x0, x1, y0, y1, b) <= Along(x0, x1, y0, y1, a)
  {
    Displacement(x0, x1, y0, y1, a, b);
    var u, d := Along(x0, x1, y0, y1, b) - Along(x0, x1, y0, y1, a), x1 - x0;
    assert u * d == (b - a) * (y1 - y0) <= 0.0 by { ScaleOrder(0.0, b - a, y0 - y1); }
    if u > 0.0 { StrictScale(0.0, u, d); }
  }

  lemma MmInside(t: seq<Knot>, i: nat, pos: real)
    requires Calibrated(t) && i + 1 < |t| && t[i + 1].pos as real <= pos <= t[i].pos as real
    ensures t[i].mm <= MmOn(t, i, pos) <= t[i + 1].mm
  {
    var x0, x1, y0, y1 := t[i].mm, t[i + 1].mm, t[i].pos as real, t[i + 1].pos as real;
    Ends(y0, y1, x0, x1);
    MmMoves(y0, y1, x0, x1, pos, y0);
    MmMoves(y0, y1, x0, x1, y1, pos);
  }

  lemma MmMoves(y0: real, y1: real, x0: real, x1: real, a: real, b: real)
    requires y0 > y1 && x0 < x1 && a <= b
    ensures Along(y0, y1, x0, x1, b) <= Along(y0, y1, x0, x1, a)
  {
    Displacement(y0, y1, x0, x1, a, b);
    var u, d := Along(y0, y1, x0, x1, b) - Along(y0, y1, x0, x1, a), y0 - y1;
    assert u * d == -((b - a) * (x1 - x0)) <= 0.0 by { ScaleOrder(0.0, b - a, x1 - x0); }
    if u > 0.0 { StrictScale(0.0, u, d); }
  }

  // ---------------------------------------------------------------- whichever segment is found first

  /** Any segment that contains the opening gives the position, so the first one found does. */
  lemma {:induction false} SearchMmOn(value: real, t: seq<Knot>, i: nat, j: nat)
    requires Calibrated(t) && j <= i && i + 1 < |t| && t[i].mm <= value <= t[i + 1].mm && t[j].mm < value
    ensures SearchMm(value, t, j) == Round(PosOn(t, i, value))
    decreases i - j
  {
    if j < i {
      if t[j].mm <= value <= t[j + 1].mm {
        assert j + 1 == i && value == t[i].mm;
        Ends(t[j].mm, t[i].mm, t[j].pos as real, t[i].pos as real);
        Ends(t[i].mm, t[i + 1].mm, t[i].pos as real, t[i + 1].pos as real);
      } else {
        SearchMmOn(value, t, i, j + 1);
      }
    }
  }

  lemma InterpolatedOn(value: real, t: seq<Knot>, i: nat)
    requires Calibrated(t) && i + 1 < |t| && t[i].mm <= value <= t[i + 1].mm
    ensures Interpolated(value, t) == Round(PosOn(t, i, value))
  {
    Ends(t[i].mm, t[i + 1].mm, t[i].pos as real, t[i + 1].pos as real);
    if value <= t[0].mm {
      assert i == 0 && value == t[0].mm;
    } else if value >= t[|t| - 1].mm {
      assert i + 1 == |t| - 1 && value == t[|t| - 1].mm;
    } else {
      SearchMmOn(value, t, i, 0);
    }
  }

  lemma {:induction false} InvertedOn(pos: int, t: seq<Knot>, i: nat, j: nat)
    requires Calibrated(t) && j <= i && i + 1 < |t| && t[i + 1].pos <= pos <= t[i].pos
    ensures SearchPos(pos, t, j) == Some(MmOn(t, i, pos as real))
    decreases i - j
  {
    if j < i {
      if t[j + 1].pos <= pos <= t[j].pos {
        assert j + 1 == i && pos == t[i].pos;
        Ends(t[j].pos as real, t[i].pos as real, t[j].mm, t[i].mm);
        Ends(t[i].pos as real, t[i + 1].pos as real, t[i].mm, t[i + 1].mm);
      } else {
        InvertedOn(pos, t, i, j + 1);
      }
    }
  }

  lemma {:induction false} SegmentOfPos(pos: int, t: seq<Knot>, n: nat) returns (i: nat)
    requires Calibrated(t) && 1 <= n < |t| && t[n].pos <= pos <= t[0].pos
    ensures i < n && t[i + 1].pos <= pos <= t[i].pos
  {
    if pos <= t[n - 1].pos { i := n - 1; } else { i := SegmentOfPos(pos, t, n - 1); }
  }

  lemma {:induction false} SegmentOfMm(mm: real, t: seq<Knot>, n: nat) returns (i: nat)
    requires Calibrated(t) && 1 <= n < |t| && t[0].mm <= mm <= t[n].mm
    ensures i < n && t[i].mm <= mm <= t[i + 1].mm
  {
    if mm >= t[n - 1].mm { i := n - 1; } else { i := SegmentOfMm(mm, t, n - 1); }
  }

  // ---------------------------------------------------------------- both directions together

  lemma {:induction false} NothingOutside(pos: int, t: seq<Knot>, i: nat)
    requires Calibrated(t) && i < |t| && (pos > t[0].pos || pos < t[|t| - 1].pos)
    ensures SearchPos(pos, t, i) == None
    decreases |t| - i
  {
    if i + 1 < |t| { NothingOutside(pos, t, i + 1); }
  }

  /** A position at or beyond an end of the table reads as the opening of that end. */
  lemma EndsAreKept(pos: int, t: seq<Knot>)
    requires Calibrated(t)
    ensures pos >= t[0].pos ==> Inverted(pos, t) == t[0].mm
    ensures pos <= t[|t| - 1].pos ==> Inverted(pos, t) == t[|t| - 1].mm
  {
    var n := |t| - 1;
    if pos == t[0].pos {
      InvertedOn(pos, t, 0, 0);
      Ends(t[0].pos as real, t[1].pos as real, t[0].mm, t[1].mm);
    } else if pos == t[n].pos {
      InvertedOn(pos, t, n - 1, 0);
      Ends(t[n - 1].pos as real, t[n].pos as real, t[n - 1].mm, t[n].mm);
    } else if pos > t[0].pos || pos < t[n].pos {
      NothingOutside(pos, t, 0);
    }
  }

  /** Every knot of the table is met in both directions. */
  lemma KnotsAreMet(t: seq<Knot>, i: nat)
    requires Calibrated(t) && i < |t|
    ensures Interpolated(t[i].mm, t) == t[i].pos && Inverted(t[i].pos, t) == t[i].mm
  {
    var k := if i + 1 < |t| then i else i - 1;
    InterpolatedOn(t[i].mm, t, k);
    InvertedOn(t[i].pos, t, k, 0);
    Ends(t[k].mm, t[k + 1].mm, t[k].pos as real, t[k + 1].pos as real);
    Ends(t[k].pos as real, t[k + 1].pos as real, t[k].mm, t[k + 1].mm);
  }

  /** Every servo position survives the way to millimetres and back when the table has it, and comes back as
      the nearest one the table has when it does not. */
  lemma PositionRoundTrip(pos: int, t: seq<Knot>)
    requires Calibrated(t)
    ensures Interpolated(Inverted(pos, t), t)
         == if pos > t[0].pos then t[0].pos else if pos < t[|t| - 1].pos then t[|t| - 1].pos else pos
  {
    if t[|t| - 1].pos <= pos <= t[0].pos {
      InsideRoundTrip(pos, t);
    } else {
      EndsAreKept(pos, t);
    }
  }

  lemma InsideRoundTrip(pos: int, t: seq<Knot>)
    requires Calibrated(t) && t[|t| - 1].pos <= pos <= t[0].pos
    ensures Interpolated(Inverted(pos, t), t) == pos
  {
    var i := SegmentOfPos(pos, t, |t| - 1);
    InvertedOn(pos, t, i, 0);
    MmInside(t, i, pos as real);
    var mm := MmOn(t, i, pos as real);
    AlongInverts(t[i].pos as real, t[i + 1].pos as real, t[i].mm, t[i + 1].mm, pos as real);
    InterpolatedOn(mm, t, i);
  }

  /** A larger servo position never reads as a wider opening, on the table and off it. */
  lemma InverseIsAntitone(a: int, b: int, t: seq<Knot>)
    requires Calibrated(t) && a <= b
    ensures Inverted(b, t) <= Inverted(a, t)
  {
    InverseInside(a, t);
    InverseInside(b, t);
    EndsAreKept(a, t);
    EndsAreKept(b, t);
    if t[|t| - 1].pos <= a && b <= t[0].pos {
      var i := SegmentOfPos(a, t, |t| - 1);
      var j := SegmentOfPos(b, t, |t| - 1);
      InvertedOn(a, t, i, 0);
      InvertedOn(b, t, j, 0);
      MmInside(t, i, a as real);
      MmInside(t, j, b as real);
      if i == j {
        MmMoves(t[i].pos as real, t[i + 1].pos as real, t[i].mm, t[i + 1].mm, a as real, b as real);
      } else if j < i {
        assert t[j + 1].mm <= t[i].mm;
      } else {
        assert a == b;
      }
    }
  }

  lemma InverseInside(pos: int, t: seq<Knot>)
    requires Calibrated(t)
    ensures t[0].mm <= Inverted(pos, t) <= t[|t| - 1].mm
  {
    EndsAreKept(pos, t);
    if t[|t| - 1].pos <= pos <= t[0].pos {
      var i := SegmentOfPos(pos, t, |t| - 1);
      InvertedOn(pos, t, i, 0);
      MmInside(t, i, pos as real);
    }
  }

  /** No segment of the table is steeper than `slope` millimetres per count. */
  predicate SlopeAtMost(t: seq<Knot>, slope: real) {
    forall i :: 0 <= i < |t| - 1 ==> SegmentSlopeAtMost(t, slope, i)
  }

  predicate SegmentSlopeAtMost(t: seq<Knot>, slope: real, i: nat)
    requires i + 1 < |t|
  {
    t[i + 1].mm - t[i].mm <= slope * (t[i].pos - t[i + 1].pos) as real
  }

  function Clamped(mm: real, t: seq<Knot>): real
    requires Calibrated(t)
  {
    if mm < t[0].mm then t[0].mm else if mm > t[|t| - 1].mm then t[|t| - 1].mm else mm
  }

  /** The way back from a rounded position misses the (clamped) opening by at most half of the largest
      slope. */
  lemma OpeningRoundTrip(mm: real, t: seq<Knot>, slope: real)
    requires Calibrated(t) && SlopeAtMost(t, slope)
    ensures Abs(Inverted(Interpolated(mm, t), t) - Clamped(mm, t)) <= slope / 2.0
  {
    var x := Clamped(mm, t);
    assert Interpolated(mm, t) == Interpolated(x, t);
    var i := SegmentOfMm(x, t, |t| - 1);
    InterpolatedOn(x, t, i);
    RoundedPosition(x, t, i);
    InvertedOn(Round(PosOn(t, i, x)), t, i, 0);
    assert SegmentSlopeAtMost(t, slope, i);
    SegmentRoundTrip(x, t, i, slope);
  }

  lemma RoundedPosition(x: real, t: seq<Knot>, i: nat)
    requires Calibrated(t) && i + 1 < |t| && t[i].mm <= x <= t[i + 1].mm
    ensures t[i + 1].pos <= Round(PosOn(t, i, x)) <= t[i].pos
  {
    PosFalls(t, i, x, x);
    RoundIsMonotone(t[i + 1].pos as real, PosOn(t, i, x));
    RoundIsMonotone(PosOn(t, i, x), t[i].pos as real);
  }

  lemma SegmentRoundTrip(x: real, t: seq<Knot>, i: nat, slope: real)
    requires Calibrated(t) && i + 1 < |t| && SegmentSlopeAtMost(t, slope, i)
    ensures Abs(MmOn(t, i, Round(PosOn(t, i, x)) as real) - x) <= slope / 2.0
  {
    var x0, x1, y0, y1 := t[i].mm, t[i + 1].mm, t[i].pos as real, t[i + 1].pos as real;
    var y := PosOn(t, i, x);
    var p := Round(y) as real;
    RoundIsNearest(y);
    AlongInverts(x0, x1, y0, y1, x);
    Displacement(y0, y1, x0, x1, y, p);
    HalfSlope(MmOn(t, i, p) - x, p - y, y0 - y1, x1 - x0, slope);
  }

  lemma HalfSlope(u: real, e: real, drop: real, rise: real, slope: real)
    requires drop > 0.0 && rise > 0.0 && -0.5 <= e <= 0.5
    requires u * (-drop) == e * rise && rise <= slope * drop
    ensures Abs(u) <= slope / 2.0
  {
    assert Abs(u) * drop == Abs(e) * rise;
    ScaleOrder(Abs(e), 0.5, rise);
    assert slope / 2.0 * drop == slope * drop / 2.0;
    if Abs(u) > slope / 2.0 { StrictScale(slope / 2.0, Abs(u), drop); }
  }

  /** A wider opening never asks for a larger position. */
  lemma InterpolationIsAntitone(a: real, b: real, t: seq<Knot>)
    requires Calibrated(t) && a <= b
    ensures Interpolated(a, t) >= Interpolated(b, t)
  {
    var x, y := Clamped(a, t), Clamped(b, t);
    assert Interpolated(a, t) == Interpolated(x, t) && Interpolated(b, t) == Interpolated(y, t);
    var i := SegmentOfMm(x, t, |t| - 1);
    var j := SegmentOfMm(y, t, |t| - 1);
    InterpolatedOn(x, t, i);
    InterpolatedOn(y, t, j);
    if j < i {
      assert x == y;
    } else if i == j {
      PosFalls(t, i, x, y);
      RoundIsMonotone(PosOn(t, i, y), PosOn(t, i, x));
    } else {
      PosFalls(t, i, x, x);
      PosFalls(t, j, y, y);
      assert t[i + 1].pos >= t[j].pos;
      RoundIsMonotone(PosOn(t, j, y), PosOn(t, i, x));
    }
  }

  // ---------------------------------------------------------------- the two grippers

  const CALIB_100MM: seq<Knot> := [
    Knot(0.0, 3434), Knot(10.0, 3060), Knot(20.0, 2824), Knot(30.0, 2646), Knot(40.0, 2490), Knot(50.0, 2354),
    Knot(60.0, 2226), Knot(70.0, 2095), Knot(80.0, 1965), Knot(90.0, 1810), Knot(100.0, 1594)]

  const CALIB_50MM: seq<Knot> := [
    Knot(0.0, 2048), Knot(5.0, 1900), Knot(10.0, 1775), Knot(15.0, 1645), Knot(20.0, 1530), Knot(25.0, 1430),
    Knot(30.0, 1320), Knot(35.0, 1215), Knot(40.0, 1085), Knot(45.0, 960), Knot(50.0, 798)]

  /** Neighbours in order make the whole table ordered. */
  lemma {:induction false} NeighboursOrder(t: seq<Knot>, i: nat, j: nat)
    requires forall k :: 0 <= k < |t| - 1 ==> t[k].mm < t[k + 1].mm && t[k].pos > t[k + 1].pos
    requires i < j < |t|
    ensures t[i].mm < t[j].mm && t[i].pos > t[j].pos
    decreases j
  {
    if i < j - 1 { NeighboursOrder(t, i, j - 1); }
  }

  lemma NeighboursCalibrate(t: seq<Knot>)
    requires |t| >= 2 && forall k :: 0 <= k < |t| - 1 ==> t[k].mm < t[k + 1].mm && t[k].pos > t[k + 1].pos
    ensures Calibrated(t)
  {
    forall i, j | 0 <= i < j < |t| ensures t[i].mm < t[j].mm && t[i].pos > t[j].pos {
      NeighboursOrder(t, i, j);
    }
  }

  lemma BuiltInTablesAreCalibrated()
    ensures Calibrated(CALIB_100MM) && Calibrated(CALIB_50MM)
  {
    NeighboursCalibrate(CALIB_100MM);
    NeighboursCalibrate(CALIB_50MM);
  }

  lemma BuiltInSlopes()
    ensures SlopeAtMost(CALIB_100MM, 5.0 / 64.0) && SlopeAtMost(CALIB_50MM, 1.0 / 20.0)
  {
  }

  /** The built-in tables read an opening back to within 5/128 mm and 1/40 mm. */
  lemma BuiltInTables(mm: real)
    ensures Calibrated(CALIB_100MM) && Calibrated(CALIB_50MM)
    ensures Abs(Inverted(Interpolated(mm, CALIB_100MM), CALIB_100MM) - Clamped(mm, CALIB_100MM)) <= 5.0 / 128.0
    ensures Abs(Inverted(Interpolated(mm, CALIB_50MM), CALIB_50MM) - Clamped(mm, CALIB_50MM)) <= 1.0 / 40.0
  {
    BuiltInTablesAreCalibrated();
    BuiltInSlopes();
    OpeningRoundTrip(mm, CALIB_100MM, 5.0 / 64.0);
    OpeningRoundTrip(mm, CALIB_50MM, 1.0 / 20.0);
  }
}
