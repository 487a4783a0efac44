/** The collector's 73 pose offsets (tactile_collect_real.cpp:1117-1218). */
module SampleSet {
  import opened Basics

  /** Three translations and three rotations. */
  type Pose = p: seq<real> | |p| == 6 witness [0.0, 0.0, 0.0, 0.0, 0.0, 0.0]

  const ORIGIN: Pose := [0.0, 0.0, 0.0, 0.0, 0.0, 0.0]

  const X_LEVELS: seq<real> := [0.00050, 0.00100, 0.00150]
  const Y_LEVELS: seq<real> := [0.00025, 0.00050, 0.00075]
  const Z_LEVELS: seq<real> := [0.00015, 0.00030, 0.00045]
  const RX_LEVELS: seq<real> := [0.01745329252, 0.03490658504, 0.05235987756]
  const RY_LEVELS: seq<real> := [0.00872664626, 0.01745329252, 0.02617993878]
  const RZ_LEVELS: seq<real> := [0.01745329252, 0.03490658504, 0.05235987756]
  const SIGNS_A: seq<real> := [1.0, 1.0, -1.0, -1.0]
  const SIGNS_B: seq<real> := [1.0, -1.0, 1.0, -1.0]

  /** A sample is rotational when it turns about some axis. */
  predicate IsRot(p: Pose) {
    Abs(p[3]) > 0.000000000001 || Abs(p[4]) > 0.000000000001 || Abs(p[5]) > 0.000000000001
  }

  function Level(axis: nat, k: nat): (d: real)
    requires axis < 6 && k < 3
    ensures d > 0.000000000001
  {
    match axis
    case 0 => X_LEVELS[k]
    case 1 => Y_LEVELS[k]
    case 2 => Z_LEVELS[k]
    case 3 => RX_LEVELS[k]
    case 4 => RY_LEVELS[k]
    case _ => RZ_LEVELS[k]
  }

  /** One axis alone: number `n` of its six samples. */
  function Single(axis: nat, n: nat): Pose
    requires axis < 6 && n < 6
  {
    ORIGIN[axis := if n % 2 == 0 then -Level(axis, n / 2) else Level(axis, n / 2)]
  }

  /** Two axes together: number `n` of a level's twelve samples. */
  function Coupled(level: nat, n: nat): Pose
    requires level < 3 && n < 12
  {
    var a, b := SIGNS_A[n / 3], SIGNS_B[n / 3];
    match n % 3
    case 0 => [a * X_LEVELS[level], b * Y_LEVELS[level], 0.0, 0.0, 0.0, 0.0]
    case 1 => [a * X_LEVELS[level], 0.0, b * Z_LEVELS[level], 0.0, 0.0, 0.0]
    case _ => [0.0, a * Y_LEVELS[level], b * Z_LEVELS[level], 0.0, 0.0, 0.0]
  }

  /** The ideal pose, 18 single and 36 coupled translations, 18 single rotations. */
  function SampleAt(i: nat): Pose
    requires i < 73
  {
    if i == 0 then ORIGIN
    else if i < 19 then Single((i - 1) / 6, (i - 1) % 6)
    else if i < 55 then Coupled((i - 19) / 12, (i - 19) % 12)
    else Single(3 + (i - 55) / 6, (i - 55) % 6)
  }

  predicate Follows(s: seq<Pose>) {
    |s| <= 73 && forall i :: 0 <= i < |s| ==> s[i] == SampleAt(i)
  }

  function FirstOf(axis: nat): nat { if axis < 3 then 1 + 6 * axis else 37 + 6 * axis }

  lemma SingleIndex(axis: nat, n: nat)
    requires axis < 6 && n < 6
    ensures SampleAt(FirstOf(axis) + n) == Single(axis, n)
  {
  }

  method SingleAxis(axis: nat) returns (row: seq<Pose>)
    requires axis < 6
    ensures |row| == 6 && forall n :: 0 <= n < 6 ==> row[n] == Single(axis, n)
  {
    row := [];
    for k := 0 to 3
      invariant |row| == 2 * k && forall n :: 0 <= n < |row| ==> row[n] == Single(axis, n)
    {
      row := row + [ORIGIN[axis := -Level(axis, k)]];
      row := row + [ORIGIN[axis := Level(axis, k)]];
    }
  }

  lemma CoupledIndex(level: nat, n: nat)
    requires level < 3 && n < 12
    ensures SampleAt(19 + 12 * level + n) == Coupled(level, n)
  {
    var o := 12 * level + n;
    assert o / 12 == level && o % 12 == n;
  }

  method CoupledAxes(level: nat) returns (row: seq<Pose>)
    requires level < 3
    ensures |row| == 12 && forall n :: 0 <= n < 12 ==> row[n] == Coupled(level, n)
  {
    row := [];
    var dx, dy, dz := X_LEVELS[level], Y_LEVELS[level], Z_LEVELS[level];
    for i := 0 to 4
      invariant |row| == 3 * i && forall n :: 0 <= n < |row| ==> row[n] == Coupled(level, n)
    {
      var a, b := SIGNS_A[i], SIGNS_B[i];
      var xy: Pose, xz: Pose, yz: Pose :=
        [a * dx, b * dy, 0.0, 0.0, 0.0, 0.0], [a * dx, 0.0, b * dz, 0.0, 0.0, 0.0],
        [0.0, a * dy, b * dz, 0.0, 0.0, 0.0];
      CoupledCases(level, i, xy, xz, yz);
      row := row + [xy];
      row := row + [xz];
      row := row + [yz];
    }
  }

  lemma CoupledCases(level: nat, i: nat, xy: Pose, xz: Pose, yz: Pose)
    requires level < 3 && i < 4
    requires var a, b := SIGNS_A[i], SIGNS_B[i];
             && xy == [a * X_LEVELS[level], b * Y_LEVELS[level], 0.0, 0.0, 0.0, 0.0]
             && xz == [a * X_LEVELS[level], 0.0, b * Z_LEVELS[level], 0.0, 0.0, 0.0]
             && yz == [0.0, a * Y_LEVELS[level], b * Z_LEVELS[level], 0.0, 0.0, 0.0]
    ensures Coupled(level, 3 * i) == xy && Coupled(level, 3 * i + 1) == xz && Coupled(level, 3 * i + 2) == yz
  {
    assert (3 * i + 1) / 3 == i && (3 * i + 2) / 3 == i && (3 * i + 1) % 3 == 1 && (3 * i + 2) % 3 == 2;
  }

  lemma SinglesFollow(s: seq<Pose>, axis: nat, row: seq<Pose>)
    requires axis < 6 && Follows(s) && |s| == FirstOf(axis) && |row| == 6
    requires forall n :: 0 <= n < 6 ==> row[n] == Single(axis, n)
    ensures Follows(s + row)
  {
    forall n | 0 <= n < 6 ensures row[n] == SampleAt(|s| + n) { SingleIndex(axis, n); }
    RowFollows(s, row);
  }

  lemma CoupledFollow(s: seq<Pose>, level: nat, row: seq<Pose>)
    requires level < 3 && Follows(s) && |s| == 19 + 12 * level && |row| == 12
    requires forall n :: 0 <= n < 12 ==> row[n] == Coupled(level, n)
    ensures Follows(s + row)
  {
    forall n | 0 <= n < 12 ensures row[n] == SampleAt(|s| + n) { CoupledIndex(level, n); }
    RowFollows(s, row);
  }

  lemma RowFollows(s: seq<Pose>, row: seq<Pose>)
    requires Follows(s) && |s| + |row| <= 73 && forall n :: 0 <= n < |row| ==> row[n] == SampleAt(|s| + n)
    ensures Follows(s + row)
  {
    forall i | 0 <= i < |s + row| ensures (s + row)[i] == SampleAt(i) {
      if i >= |s| { assert row[i - |s|] == SampleAt(|s| + (i - |s|)); }
    }
  }

  method BuildSampleSet() returns (s: seq<Pose>)
    ensures |s| == 73 && Follows(s)
  {
    s := [ORIGIN];
    for axis := 0 to 3
      invariant |s| == 1 + 6 * axis && Follows(s)
    {
      var row := SingleAxis(axis);
      SinglesFollow(s, axis, row);
      s := s + row;
    }
    for level := 0 to 3
      invariant |s| == 19 + 12 * level && Follows(s)
    {
      var row := CoupledAxes(level);
      CoupledFollow(s, level, row);
      s := s + row;
    }
    for axis := 3 to 6
      invariant |s| == FirstOf(axis) && Follows(s)
    {
      var row := SingleAxis(axis);
      SinglesFollow(s, axis, row);
      s := s + row;
    }
  }

  // ---------------------------------------------------------------- the set

  /** Exactly the last 18 samples are rotational. */
  lemma RotationsComeLast(i: nat)
    requires i < 73
    ensures IsRot(SampleAt(i)) <==> i >= 55
  {
  }

  function Negated(p: Pose): Pose { seq(6, i requires 0 <= i < 6 => -p[i]) }

  lemma OppositeSingle(axis: nat, n: nat)
    requires axis < 6 && n < 6
    ensures Single(axis, if n % 2 == 0 then n + 1 else n - 1) == Negated(Single(axis, n))
  {
  }

  /** The same pair of axes under the opposite signs. */
  function Turned(n: nat): (n': nat)
    requires n < 12
    ensures n' < 12 && n' != n && n' / 3 == 3 - n / 3 && n' % 3 == n % 3
  {
    3 * (3 - n / 3) + n % 3
  }

  lemma OppositeCoupled(level: nat, n: nat)
    requires level < 3 && n < 12
    ensures Coupled(level, Turned(n)) == Negated(Coupled(level, n))
  {
    assert SIGNS_A[3 - n / 3] == -SIGNS_A[n / 3] && SIGNS_B[3 - n / 3] == -SIGNS_B[n / 3];
  }

  lemma SingleMirrored(axis: nat, n: nat) returns (j: nat)
    requires axis < 6 && n < 6
    ensures j < 73 && j != FirstOf(axis) + n && SampleAt(j) == Negated(SampleAt(FirstOf(axis) + n))
  {
    var n' := if n % 2 == 0 then n + 1 else n - 1;
    j := FirstOf(axis) + n';
    SingleIndex(axis, n);
    SingleIndex(axis, n');
    OppositeSingle(axis, n);
  }

  lemma CoupledMirrored(level: nat, n: nat) returns (j: nat)
    requires level < 3 && n < 12
    ensures j < 73 && j != 19 + 12 * level + n && SampleAt(j) == Negated(SampleAt(19 + 12 * level + n))
  {
    var n' := Turned(n);
    j := 19 + 12 * level + n';
    CoupledIndex(level, n);
    CoupledIndex(level, n');
    OppositeCoupled(level, n);
  }

  lemma Split(k: nat, d: nat) returns (q: nat, r: nat)
    requires d > 0
    ensures k == d * q + r && r < d
  {
    q, r := k / d, k % d;
  }

  /** Every offset but the ideal one has its opposite at another place of the set, so no direction is
      favoured. */
  lemma OppositeIsPresent(i: nat) returns (j: nat)
    requires i < 73
    ensures j < 73 && SampleAt(j) == Negated(SampleAt(i)) && (j == i <==> i == 0)
  {
    if i == 0 {
      j := 0;
    } else if 19 <= i < 55 {
      var level, n := Split(i - 19, 12);
      j := CoupledMirrored(level, n);
    } else {
      var axis, n := Split(if i < 19 then i - 1 else i - 37, 6);
      j := SingleMirrored(axis, n);
    }
  }

  // ---------------------------------------------------------------- what the set is

  /** The least offset of an axis: metres for translations, radians for rotations. */
  const STEPS: seq<real> := [0.0005, 0.00025, 0.00015, 0.01745329252, 0.00872664626, 0.01745329252]

  /** The three levels of an axis are one, two and three steps. */
  lemma LevelsAreMultiples(axis: nat, level: nat)
    requires axis < 6 && level < 3
    ensures Level(axis, level) == (level + 1) as real * STEPS[axis]
  {
  }

  predicate Sign(x: real) { x == 1.0 || x == -1.0 }

  /** The three levels of each of the six axes alone, each first backward and then forward, translations from
      index 1 and rotations from index 55 on. */
  lemma EachAxisInItsPlace(axis: nat, level: nat, sign: real)
    requires axis < 6 && level < 3 && Sign(sign)
    ensures var first := if axis < 3 then 1 + 6 * axis else 55 + 6 * (axis - 3);
            SampleAt(first + 2 * level + if sign == 1.0 then 1 else 0) == ORIGIN[axis := sign * Level(axis, level)]
  {
    var n := 2 * level + if sign == 1.0 then 1 else 0;
    SingleIndex(axis, n);
    assert n / 2 == level;
  }

  /** Number of the pair of axes `x` and `y`, and of a pair of signs. */
  function PairNumber(x: nat, y: nat): int { x + y - 1 }

  function SignNumber(signX: real, signY: real): nat {
    (if signX == 1.0 then 0 else 2) + if signY == 1.0 then 0 else 1
  }

  lemma SignsOf(signX: real, signY: real)
    requires Sign(signX) && Sign(signY)
    ensures SIGNS_A[SignNumber(signX, signY)] == signX && SIGNS_B[SignNumber(signX, signY)] == signY
  {
  }

  lemma PairPose(x: nat, y: nat, level: nat, q: nat, dx: real, dy: real)
    requires x < y < 3 && level < 3 && q < 4
    requires dx == SIGNS_A[q] * Level(x, level) && dy == SIGNS_B[q] * Level(y, level)
    ensures Coupled(level, 3 * q + PairNumber(x, y)) == ORIGIN[x := dx][y := dy]
  {
    var r := PairNumber(x, y);
    assert (3 * q + r) / 3 == q && (3 * q + r) % 3 == r;
  }

  /** The three levels of each pair of translation axes together, from index 19 on, level by level and under
      all four signs. */
  lemma EachPairInItsPlace(x: nat, y: nat, level: nat, signX: real, signY: real)
    requires x < y < 3 && level < 3 && Sign(signX) && Sign(signY)
    ensures SampleAt(19 + 12 * level + 3 * SignNumber(signX, signY) + PairNumber(x, y))
         == ORIGIN[x := signX * Level(x, level)][y := signY * Level(y, level)]
  {
    var q := SignNumber(signX, signY);
    SignsOf(signX, signY);
    PairPose(x, y, level, q, signX * Level(x, level), signY * Level(y, level));
    CoupledIndex(level, 3 * q + PairNumber(x, y));
  }

  lemma SinglesDiffer(axis: nat, n: nat, axis': nat, n': nat)
    requires axis < 6 && n < 6 && axis' < 6 && n' < 6 && Single(axis, n) == Single(axis', n')
    ensures axis == axis' && n == n'
  {
    assert Single(axis, n)[axis] != 0.0;
    assert axis == axis';
    LevelsAreMultiples(axis, n / 2);
    LevelsAreMultiples(axis', n' / 2);
  }

  lemma CoupledDiffer(level: nat, n: nat, level': nat, n': nat)
    requires level < 3 && n < 12 && level' < 3 && n' < 12 && Coupled(level, n) == Coupled(level', n')
    ensures level == level' && n == n'
  {
    var p, p' := Coupled(level, n), Coupled(level', n');
    assert n % 3 == (if p[1] == 0.0 then 1 else if p[0] == 0.0 then 2 else 0);
    assert n' % 3 == (if p'[1] == 0.0 then 1 else if p'[0] == 0.0 then 2 else 0);
  }

  lemma SingleIsNotCoupled(axis: nat, n: nat, level: nat, n': nat)
    requires axis < 6 && n < 6 && level < 3 && n' < 12
    ensures Single(axis, n) != Coupled(level, n')
  {
    var p := Coupled(level, n');
    assert (p[0] != 0.0 && p[1] != 0.0) || (p[0] != 0.0 && p[2] != 0.0) || (p[1] != 0.0 && p[2] != 0.0);
  }

  /** Which offset index `i` is. */
  lemma KindOf(i: nat) returns (kind: nat, a: nat, n: nat)
    requires i < 73
    ensures kind == 0 ==> i == 0
    ensures kind == 1 ==> a < 6 && n < 6 && i == FirstOf(a) + n && SampleAt(i) == Single(a, n)
    ensures kind == 2 ==> a < 3 && n < 12 && i == 19 + 12 * a + n && SampleAt(i) == Coupled(a, n)
    ensures kind <= 2
  {
    kind, a, n := 0, 0, 0;
    if 19 <= i < 55 {
      kind := 2;
      a, n := Split(i - 19, 12);
      CoupledIndex(a, n);
    } else if i > 0 {
      kind := 1;
      a, n := Split(if i < 19 then i - 1 else i - 37, 6);
      SingleIndex(a, n);
    }
  }

  /** No offset is in the set twice. */
  lemma OffsetsAreDistinct(i: nat, j: nat)
    requires i < 73 && j < 73 && SampleAt(i) == SampleAt(j)
    ensures i == j
  {
    var kind, a, n := KindOf(i);
    var kind', a', n' := KindOf(j);
    if kind == 1 && kind' == 1 {
      SinglesDiffer(a, n, a', n');
    } else if kind == 2 && kind' == 2 {
      CoupledDiffer(a, n, a', n');
    } else if kind == 1 && kind' == 2 {
      SingleIsNotCoupled(a, n, a', n');
    } else if kind == 2 && kind' == 1 {
      SingleIsNotCoupled(a', n', a, n);
    } else if kind != kind' {
      IdealIsAlone(if i == 0 then j else i);
    }
  }

  lemma IdealIsAlone(i: nat)
    requires 0 < i < 73
    ensures SampleAt(i) != ORIGIN
  {
    var kind, a, n := KindOf(i);
    if kind == 1 { assert Single(a, n)[a] != 0.0; } else { assert Coupled(a, n)[0] != 0.0 || Coupled(a, n)[1] != 0.0; }
  }

  /** Each component is 0 or large enough to count as commanded. */
  predicate Clear(p: Pose) { forall axis :: 0 <= axis < 6 ==> p[axis] == 0.0 || Abs(p[axis]) > 0.000000000001 }

  lemma SingleIsClear(axis: nat, n: nat)
    requires axis < 6 && n < 6
    ensures Clear(Single(axis, n))
  {
  }

  lemma CoupledIsClear(level: nat, n: nat)
    requires level < 3 && n < 12
    ensures Clear(Coupled(level, n))
  {
  }

  lemma OffsetsAreClear(i: nat)
    requires i < 73
    ensures Clear(SampleAt(i))
  {
    var kind, a, n := KindOf(i);
    if kind == 1 { SingleIsClear(a, n); } else if kind == 2 { CoupledIsClear(a, n); }
  }
}
