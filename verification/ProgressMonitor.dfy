/** The collector's adaptive waiting (tactile_collect_real.cpp:652-659 and 1076-1115): a stage keeps
    waiting while the pose error still improves, up to a hard limit. */
module ProgressMonitor {
  import opened Basics

  const HARD_MAX: nat := 30000
  const NO_PROGRESS_LIMIT: nat := 2500
  const POS_EPS: real := 0.00002
  const ROT_EPS: real := 0.00005

  /** The initial value 1.0e100 of the two best errors. */
  const SENTINEL: real := 10000000000.0 * 10000000000.0 * 10000000000.0 * 10000000000.0 * 10000000000.0
                        * 10000000000.0 * 10000000000.0 * 10000000000.0 * 10000000000.0 * 10000000000.0

  datatype Monitor = Monitor(wait: nat, noProgress: nat, bestPos: real, bestRot: real)

  const RESET: Monitor := Monitor(0, 0, SENTINEL, SENTINEL)

  datatype Status = KeepWaiting | Stuck | HardTimeout

  predicate Improves(m: Monitor, pos: real, rot: real) {
    pos < m.bestPos - POS_EPS || rot < m.bestRot - ROT_EPS
  }

  function Update(m: Monitor, pos: real, rot: real): (Monitor, Status) {
    var better := Improves(m, pos, rot);
    var m' := if better then Monitor(m.wait + 1, 0, MinReal(m.bestPos, pos), MinReal(m.bestRot, rot))
              else m.(wait := m.wait + 1, noProgress := m.noProgress + 1);
    (m', if m'.wait >= HARD_MAX then HardTimeout
         else if m'.noProgress >= NO_PROGRESS_LIMIT then Stuck else KeepWaiting)
  }

  datatype Err = Err(pos: real, rot: real)

  /** The monitor after a list of calls, and how many of them improved an error. */
  function After(errs: seq<Err>): Monitor {
    if errs == [] then RESET
    else var n := |errs| - 1; Update(After(errs[..n]), errs[n].pos, errs[n].rot).0
  }

  function Improvements(errs: seq<Err>): nat {
    if errs == [] then 0
    else
      var n := |errs| - 1;
      Improvements(errs[..n]) + if Improves(After(errs[..n]), errs[n].pos, errs[n].rot) then 1 else 0
  }

  /** The answer of the last call. */
  function LastStatus(errs: seq<Err>): Status
    requires errs != []
  {
    var n := |errs| - 1;
    Update(After(errs[..n]), errs[n].pos, errs[n].rot).1
  }

  /** Every call but possibly the last one answered "keep waiting". */
  predicate StillWaiting(errs: seq<Err>) {
    errs == []
    || (var init := errs[..|errs| - 1]; StillWaiting(init) && (init != [] ==> LastStatus(init).KeepWaiting?))
  }

  /** Distance still to be gained, in units of the smallest improvement that counts. */
  function Potential(pos: real, rot: real): real { pos / POS_EPS + rot / ROT_EPS }

  lemma ImprovementCosts(m: Monitor, pos: real, rot: real)
    requires Improves(m, pos, rot)
    ensures var m' := Update(m, pos, rot).0; Potential(m'.bestPos, m'.bestRot) <= Potential(m.bestPos, m.bestRot) - 1.0
  {
  }

  predicate Plausible(errs: seq<Err>) {
    && (forall i :: 0 <= i < |errs| ==> errs[i].pos >= 0.0 && errs[i].rot >= 0.0)
    && (errs != [] ==> errs[0].pos < SENTINEL - POS_EPS && errs[0].rot < SENTINEL - ROT_EPS)
  }

  /** What the calls so far have used up; `i` of them improved an error. */
  predicate Accounted(m: Monitor, calls: nat, i: nat, potential: real) {
    && m.wait == calls && i >= 1 && m.bestPos >= 0.0 && m.bestRot >= 0.0
    && calls <= (NO_PROGRESS_LIMIT - 1) * (i - 1) + i + m.noProgress
    && (i - 1) as real + Potential(m.bestPos, m.bestRot) <= potential
  }

  lemma CallIsAccounted(m: Monitor, calls: nat, i: nat, potential: real, e: Err)
    requires Accounted(m, calls, i, potential) && m.noProgress < NO_PROGRESS_LIMIT
    requires e.pos >= 0.0 && e.rot >= 0.0
    ensures Accounted(Update(m, e.pos, e.rot).0, calls + 1, if Improves(m, e.pos, e.rot) then i + 1 else i, potential)
  {
    if Improves(m, e.pos, e.rot) { ImprovementCosts(m, e.pos, e.rot); }
  }

  lemma {:induction false} Accounting(errs: seq<Err>)
    requires errs != [] && Plausible(errs) && StillWaiting(errs)
    ensures Accounted(After(errs), |errs|, Improvements(errs), Potential(errs[0].pos, errs[0].rot))
    decreases |errs|
  {
    var n := |errs| - 1;
    var init := errs[..n];
    if n == 0 {
      assert init == [] && After(init) == RESET && Improvements(init) == 0;
    } else {
      Accounting(init);
      assert LastStatus(init).KeepWaiting? &&
             After(init) == Update(After(init[..n - 1]), init[n - 1].pos, init[n - 1].rot).0;
      CallIsAccounted(After(init), n, Improvements(init), Potential(errs[0].pos, errs[0].rot), errs[n]);
    }
  }

  /** For every error sequence: at most 1 + p0/pos_eps + r0/rot_eps calls count as an improvement, and
      the monitor stops answering "keep waiting" by the hard limit and by 2500 calls for every
      improvement plus one, whichever comes first. */
  lemma WaitingIsBounded(errs: seq<Err>)
    requires errs != [] && Plausible(errs) && StillWaiting(errs)
    ensures Improvements(errs) as real <= 1.0 + Potential(errs[0].pos, errs[0].rot)
    ensures |errs| <= HARD_MAX && |errs| <= NO_PROGRESS_LIMIT * Improvements(errs) + 1
  {
    Accounting(errs);
    var n, m := |errs| - 1, After(errs);
    assert m.bestPos / POS_EPS >= 0.0 && m.bestRot / ROT_EPS >= 0.0;
    if n > 0 {
      var init := errs[..n];
      Accounting(init);
      assert LastStatus(init).KeepWaiting? &&
             After(init) == Update(After(init[..n - 1]), init[n - 1].pos, init[n - 1].rot).0;
    }
  }

  // ---------------------------------------------------------------- when it gives up

  /** Call `k` brings one of the two errors below what any earlier call that did so brought it to, by more
      than the least improvement that counts. */
  predicate Better(errs: seq<Err>, k: nat)
    requires k < |errs|
    decreases k
  {
    var e := errs[k];
    || (e.pos < SENTINEL - 0.00002 && forall j: nat | j < k && Better(errs, j) :: e.pos < errs[j].pos - 0.00002)
    || (e.rot < SENTINEL - 0.00005 && forall j: nat | j < k && Better(errs, j) :: e.rot < errs[j].rot - 0.00005)
  }

  /** There were 30000 calls, or none of the last 2500 was better. */
  predicate GivenUp(errs: seq<Err>) { |errs| >= 30000 || Stalled(errs) }

  predicate Stalled(errs: seq<Err>) {
    |errs| >= 2500 && forall k: nat | |errs| - 2500 <= k < |errs| :: !Better(errs, k)
  }

  lemma {:induction false} BetterInPrefix(errs: seq<Err>, n: nat, k: nat)
    requires k < n <= |errs|
    ensures Better(errs[..n], k) <==> Better(errs, k)
    decreases k
  {
    forall j: nat | j < k ensures Better(errs[..n], j) <==> Better(errs, j) { BetterInPrefix(errs, n, j); }
  }

  /** The two bests are the least errors of the calls `b`, and `noProgress` counts the calls since the last
      of them. */
  predicate Remembers(m: Monitor, errs: seq<Err>, b: nat -> bool) {
    && m.wait == |errs| && m.noProgress <= |errs|
    && m.bestPos <= SENTINEL && m.bestRot <= SENTINEL
    && (forall j: nat | j < |errs| && b(j) :: m.bestPos <= errs[j].pos && m.bestRot <= errs[j].rot)
    && (m.bestPos == SENTINEL || exists j: nat | j < |errs| && b(j) :: errs[j].pos == m.bestPos)
    && (m.bestRot == SENTINEL || exists j: nat | j < |errs| && b(j) :: errs[j].rot == m.bestRot)
    && (forall j: nat | |errs| - m.noProgress <= j < |errs| :: !b(j))
    && (m.noProgress < |errs| ==> b(|errs| - m.noProgress - 1))
  }

  lemma ImprovesIsBetter(m: Monitor, errs: seq<Err>, n: nat, b: nat -> bool)
    requires n < |errs| && Remembers(m, errs[..n], b) && forall j: nat | j < n :: b(j) <==> Better(errs, j)
    ensures Improves(m, errs[n].pos, errs[n].rot) <==> Better(errs, n)
  {
  }

  lemma {:induction false} MonitorRemembers(errs: seq<Err>, b: nat -> bool)
    requires forall j: nat | j < |errs| :: b(j) <==> Better(errs, j)
    ensures Remembers(After(errs), errs, b)
    decreases |errs|
  {
    if errs != [] {
      var n := |errs| - 1;
      forall j: nat | j < n ensures b(j) <==> Better(errs[..n], j) { BetterInPrefix(errs, n, j); }
      MonitorRemembers(errs[..n], b);
      ImprovesIsBetter(After(errs[..n]), errs, n, b);
      CallIsRemembered(After(errs[..n]), errs, n, b);
    }
  }

  lemma CallIsRemembered(m: Monitor, errs: seq<Err>, n: nat, b: nat -> bool)
    requires |errs| == n + 1 && Remembers(m, errs[..n], b)
    requires Improves(m, errs[n].pos, errs[n].rot) <==> b(n)
    ensures Remembers(Update(m, errs[n].pos, errs[n].rot).0, errs, b)
  {
    if m.bestPos != SENTINEL { var j: nat :| j < n && b(j) && errs[j].pos == m.bestPos; }
    if m.bestRot != SENTINEL { var j: nat :| j < n && b(j) && errs[j].rot == m.bestRot; }
  }

  /** For every list of errors: the answer to its last call is to give up exactly when there were 30000
      calls or none of the last 2500 brought an error down. */
  lemma GivesUpIff(errs: seq<Err>)
    requires errs != []
    ensures LastStatus(errs).HardTimeout? <==> |errs| >= 30000
    ensures LastStatus(errs).Stuck? <==> |errs| < 30000 && Stalled(errs)
    ensures LastStatus(errs).KeepWaiting? <==> !GivenUp(errs)
  {
    var b := (k: nat) => k < |errs| && Better(errs, k);
    MonitorRemembers(errs, b);
    var m := After(errs);
    if m.noProgress < 2500 <= |errs| { assert Better(errs, |errs| - m.noProgress - 1); }
  }
}
