/** The debounced force check of the peg-in-hole plan and its chain of phase flags
    (assemcomd.cpp:471-507 and 668-1906). */
module ForceCheck {
  import opened Basics

  const PERIOD: int := 50

  datatype Counters = Counters(allign: int, success: int)

  predicate WithinLimits(force: seq<real>, limits: seq<real>, num: nat)
    requires num <= |force| && num <= |limits|
  {
    forall i :: 0 <= i < num ==> Abs(force[i]) <= limits[i]
  }

  /** One call at tick `now`: the counters afterwards, and the answer. */
  function Check(c: Counters, now: int, valid: bool, need: int): (Counters, bool) {
    if !valid then (c.(success := 0), false)
    else
      var a := if c.allign == 0 then now else c.allign;
      if (now - a) % PERIOD != 0 then (Counters(a, c.success), false)
      else if c.success + 1 >= need then (Counters(0, 0), true)
      else (Counters(a, c.success + 1), false)
  }

  class HoleInPeg {
    var allignCount: int
    var successCount: int
    const phase: array<bool>

    ghost predicate Valid() reads this { phase.Length == 13 }

    constructor ()
      ensures Valid() && allignCount == 0 && successCount == 0 && fresh(phase)
      ensures forall i :: 0 <= i < 13 ==> !phase[i]
    {
      allignCount, successCount := 0, 0;
      phase := new bool[13](_ => false);
    }

    method CheckForce(force: seq<real>, limits: seq<real>, need: int, num: nat, now: int) returns (done: bool)
      requires num <= |force| && num <= |limits|
      modifies this`allignCount, this`successCount
      ensures (Counters(allignCount, successCount), done)
           == Check(Counters(old(allignCount), old(successCount)), now, WithinLimits(force, limits, num), need)
      ensures (Counters(allignCount, successCount), done)
           == Check(Counters(old(allignCount), old(successCount)), now,
                    forall i :: 0 <= i < num ==> -limits[i] <= force[i] <= limits[i], need)
      ensures (exists i :: 0 <= i < num && (force[i] > limits[i] || -force[i] > limits[i])) ==>
                !done && successCount == 0 && allignCount == old(allignCount)
    {
      var isValid := true;
      for i := 0 to num
        invariant isValid && forall k :: 0 <= k < i ==> Abs(force[k]) <= limits[k]
      {
        if Abs(force[i]) > limits[i] {
          isValid := false;
          break;
        }
      }
      if isValid {
        if allignCount == 0 {
          allignCount := now;
        }
        if (now - allignCount) % PERIOD == 0 {
          successCount := successCount + 1;
          if successCount >= need {
            successCount := 0;
            allignCount := 0;
            return true;
          }
        }
      } else {
        successCount := 0;
      }
      return false;
    }

    /** The else-if chain: `done[k]` is the exit condition of the phase with flag k. */
    method RunPhases(done: seq<bool>)
      requires Valid() && |done| == 13
      modifies phase
      ensures forall n: nat :: n <= 13 && Prefix(old(phase[..]), n) ==>
                Prefix(phase[..], if n < 13 && done[n] then n + 1 else n)
    {
      if !phase[0] { if done[0] { phase[0] := true; } }
      else if phase[0] && !phase[1] { if done[1] { phase[1] := true; } }
      else if phase[1] && !phase[2] { if done[2] { phase[2] := true; } }
      else if phase[2] && !phase[3] { if done[3] { phase[3] := true; } }
      else if phase[3] && !phase[4] { if done[4] { phase[4] := true; } }
      else if phase[4] && !phase[5] { if done[5] { phase[5] := true; } }
      else if phase[5] && !phase[6] { if done[6] { phase[6] := true; } }
      else if phase[6] && !phase[7] { if done[7] { phase[7] := true; } }
      else if phase[7] && !phase[8] { if done[8] { phase[8] := true; } }
      else if phase[8] && !phase[9] { if done[9] { phase[9] := true; } }
      else if phase[9] && !phase[10] { if done[10] { phase[10] := true; } }
      else if phase[10] && !phase[11] { if done[11] { phase[11] := true; } }
      else if phase[11] && !phase[12] { if done[12] { phase[12] := true; } }
    }
  }

  /** Exactly the first `n` flags are set. */
  predicate Prefix(flags: seq<bool>, n: nat) {
    n <= |flags| && forall i :: 0 <= i < |flags| ==> flags[i] == (i < n)
  }

  // ---------------------------------------------------------------- calls at any ticks

  /** A call at a tick, and whether the forces were within their limits then. */
  datatype Call = Call(tick: int, valid: bool)

  /** Calls come at increasing ticks from 1 on; any tick may go by without one. */
  predicate Scheduled(calls: seq<Call>) {
    && (forall i :: 0 <= i < |calls| ==> calls[i].tick >= 1)
    && (forall i, j :: 0 <= i < j < |calls| ==> calls[i].tick < calls[j].tick)
  }

  function After(c: Counters, calls: seq<Call>, need: int): Counters {
    if calls == [] then c
    else
      var n := |calls| - 1;
      Check(After(c, calls[..n], need), calls[n].tick, calls[n].valid, need).0
  }

  /** The answer of the last call. */
  predicate Answer(c: Counters, calls: seq<Call>, need: int)
    requires calls != []
  {
    var n := |calls| - 1;
    Check(After(c, calls[..n], need), calls[n].tick, calls[n].valid, need).1
  }

  /** After an out-of-limit call or a "yes" at tick `bad`, a positive count has been earned since: the last of its
      `success` increments happened at `last`, each at least fifty ticks after the one before. */
  predicate EarnedSince(c: Counters, bad: int, now: int, last: int) {
    c.success <= 0
    || (c.allign != 0 && (last - c.allign) % PERIOD == 0 && last <= now && last >= bad + 1 + PERIOD * (c.success - 1))
  }

  /** Call number `u` found the forces out of their limits, or answered "yes". */
  predicate Restarts(c: Counters, calls: seq<Call>, need: int, u: nat)
    requires u < |calls|
  {
    !calls[u].valid || Answer(c, calls[..u + 1], need)
  }

  lemma {:induction false} CountIsEarned(c: Counters, calls: seq<Call>, need: int, u: nat) returns (last: int)
    requires Scheduled(calls) && u < |calls| && Restarts(c, calls, need, u)
    ensures EarnedSince(After(c, calls, need), calls[u].tick, calls[|calls| - 1].tick, last)
    decreases |calls|
  {
    var n := |calls| - 1;
    last := 0;
    if u < n {
      assert calls[..n][..u + 1] == calls[..u + 1];
      last := CountIsEarned(c, calls[..n], need, u);
      last := EarnOnce(After(c, calls[..n], need), calls[u].tick, calls[n - 1].tick, last, calls[n], need);
    } else {
      assert calls[..u + 1] == calls;
    }
  }

  /** Whatever the schedule, two answers "yes" are more than fifty ticks apart for every count but the first:
      an answer clears what has been counted. */
  lemma AnswersAreApart(c: Counters, calls: seq<Call>, need: int, u: nat)
    requires Scheduled(calls) && u + 1 < |calls| && Answer(c, calls[..u + 1], need) && Answer(c, calls, need)
    ensures calls[|calls| - 1].tick >= calls[u].tick + PERIOD * (need - 1) + 1
  {
    var n := |calls| - 1;
    if need >= 2 {
      assert calls[..n][..u + 1] == calls[..u + 1];
      var last := CountIsEarned(c, calls[..n], need, u);
      var before := After(c, calls[..n], need);
      assert before.success >= need - 1 >= 1;
      NextPhase(before.allign, last, calls[n].tick);
    }
  }

  lemma EarnOnce(c: Counters, bad: int, before: int, last: int, call: Call, need: int) returns (last': int)
    requires EarnedSince(c, bad, before, last) && 1 <= call.tick && bad <= before < call.tick
    ensures EarnedSince(Check(c, call.tick, call.valid, need).0, bad, call.tick, last')
  {
    last' := last;
    if call.valid && (c.allign == 0 || (call.tick - c.allign) % PERIOD == 0) {
      if c.success > 0 { NextPhase(c.allign, last, call.tick); }
      last' := call.tick;
    }
  }

  lemma NextPhase(a: int, last: int, now: int)
    requires (last - a) % PERIOD == 0 && (now - a) % PERIOD == 0 && last < now
    ensures now >= last + PERIOD
  {
  }

  /** An answer "yes" at tick T for a count of `need` means the forces were within their limits at every
      call in [T - 50 (need - 1), T], however the calls were spaced and whatever the two counters held
      before. */
  lemma YesMeansQuietCalls(c: Counters, calls: seq<Call>, need: int, k: nat)
    requires Scheduled(calls) && calls != [] && Answer(c, calls, need)
    requires k < |calls| && calls[k].tick >= calls[|calls| - 1].tick - PERIOD * (need - 1)
    ensures calls[k].valid
  {
    var n := |calls| - 1;
    if !calls[k].valid {
      var last := CountIsEarned(c, calls[..n], need, k);
      var before := After(c, calls[..n], need);
      assert before.success >= need - 1 >= 1;
      NextPhase(before.allign, last, calls[n].tick);
      assert false;
    }
  }

  // ---------------------------------------------------------------- ticks without a call

  /** The calls at `ticks` under a history of the forces. */
  function Called(quiet: int -> bool, ticks: seq<int>): (calls: seq<Call>)
    ensures |calls| == |ticks| && forall i :: 0 <= i < |ticks| ==> calls[i] == Call(ticks[i], quiet(ticks[i]))
  {
    seq(|ticks|, i requires 0 <= i < |ticks| => Call(ticks[i], quiet(ticks[i])))
  }

  predicate Increasing(ticks: seq<int>) {
    && (forall i :: 0 <= i < |ticks| ==> ticks[i] >= 1)
    && (forall i, j :: 0 <= i < j < |ticks| ==> ticks[i] < ticks[j])
  }

  /** Where a "yes" can come at all, it vouches for a tick of its window exactly when the check was called
      at that tick: a depth test beside it, as in phase 11 (assemcomd.cpp:1610), leaves gaps it does not
      see. */
  lemma YesVouchesExactlyForCalls(c: Counters, ticks: seq<int>, need: int, possible: int -> bool, b: int)
    requires Increasing(ticks) && ticks != [] && Answer(c, Called(possible, ticks), need)
    requires ticks[|ticks| - 1] - PERIOD * (need - 1) <= b <= ticks[|ticks| - 1]
    ensures b in ticks <==> forall quiet: int -> bool :: Answer(c, Called(quiet, ticks), need) ==> quiet(b)
  {
    if b in ticks {
      forall quiet: int -> bool | Answer(c, Called(quiet, ticks), need) ensures quiet(b) {
        CalledTickIsQuiet(c, ticks, need, quiet, b);
      }
    } else {
      var loud := UnseenForce(c, ticks, need, possible, b);
    }
  }

  lemma CalledTickIsQuiet(c: Counters, ticks: seq<int>, need: int, quiet: int -> bool, b: int)
    requires Increasing(ticks) && ticks != [] && Answer(c, Called(quiet, ticks), need)
    requires b in ticks && ticks[|ticks| - 1] - PERIOD * (need - 1) <= b
    ensures quiet(b)
  {
    var k :| 0 <= k < |ticks| && ticks[k] == b;
    YesMeansQuietCalls(c, Called(quiet, ticks), need, k);
  }

  lemma UnseenForce(c: Counters, ticks: seq<int>, need: int, possible: int -> bool, b: int) returns (loud: int -> bool)
    requires ticks != [] && Answer(c, Called(possible, ticks), need) && b !in ticks
    ensures Answer(c, Called(loud, ticks), need) && !loud(b)
  {
    loud := t => t != b && possible(t);
    assert Called(loud, ticks) == Called(possible, ticks);
  }

  /** Every fiftieth tick from 1 on. */
  function Grid(n: nat): (ticks: seq<int>)
    ensures |ticks| == n && forall i :: 0 <= i < n ==> ticks[i] == 1 + PERIOD * i
  {
    seq(n, i => 1 + PERIOD * i)
  }

  predicate QuietAt(quiet: int -> bool, i: nat) { quiet(1 + PERIOD * i) }

  lemma {:induction false} GridCounts(quiet: int -> bool, n: nat, need: int)
    requires 1 <= n < need && forall i: nat | i < n :: QuietAt(quiet, i)
    ensures After(Counters(0, 0), Called(quiet, Grid(n)), need) == Counters(1, n)
  {
    var calls := Called(quiet, Grid(n));
    assert calls[..n - 1] == Called(quiet, Grid(n - 1));
    assert QuietAt(quiet, n - 1) && calls[n - 1] == Call(1 + PERIOD * (n - 1), true);
    if n > 1 { GridCounts(quiet, n - 1, need); }
  }

  /** From fresh counters, calls at every fiftieth tick alone bring a "yes" as soon as `need` of them are
      within the limits, whatever the forces do at all the ticks between. */
  lemma SparseCallsStillAnswer(quiet: int -> bool, need: nat)
    requires need >= 1 && forall i: nat | i < need :: QuietAt(quiet, i)
    ensures Answer(Counters(0, 0), Called(quiet, Grid(need)), need)
  {
    var calls := Called(quiet, Grid(need));
    assert calls[..need - 1] == Called(quiet, Grid(need - 1));
    assert QuietAt(quiet, need - 1) && calls[need - 1] == Call(1 + PERIOD * (need - 1), true);
    if need > 1 { GridCounts(quiet, need - 1, need); }
  }

  /** A run in which the window of a "yes" at tick 51 holds a tick with excessive force. */
  lemma InterruptedCallsStillAnswer()
    ensures var quiet := (t: int) => t != 26;
            Answer(Counters(0, 0), Called(quiet, Grid(2)), 2) &&
            Grid(2)[1] == 51 && 51 - PERIOD * (2 - 1) <= 26 <= 51 && !quiet(26)
  {
    SparseCallsStillAnswer((t: int) => t != 26, 2);
  }

  // ---------------------------------------------------------------- a call every tick

  /** Calls at ticks start, start + 1, ... */
  function EveryTick(start: int, valid: seq<bool>): (calls: seq<Call>)
    ensures |calls| == |valid| && forall i :: 0 <= i < |valid| ==> calls[i] == Call(start + i, valid[i])
  {
    seq(|valid|, i requires 0 <= i < |valid| => Call(start + i, valid[i]))
  }

  function AfterTicks(c: Counters, start: int, valid: seq<bool>, need: int): Counters {
    After(c, EveryTick(start, valid), need)
  }

  predicate AnswerAt(c: Counters, start: int, valid: seq<bool>, need: int)
    requires valid != []
  {
    Answer(c, EveryTick(start, valid), need)
  }

  lemma OneMoreTick(c: Counters, start: int, valid: seq<bool>, need: int)
    requires valid != []
    ensures (AfterTicks(c, start, valid, need), AnswerAt(c, start, valid, need))
         == Check(AfterTicks(c, start, valid[..|valid| - 1], need), start + |valid| - 1, valid[|valid| - 1], need)
  {
    var n := |valid| - 1;
    assert EveryTick(start, valid)[..n] == EveryTick(start, valid[..n]);
  }

  /** Called at every tick, a "yes" at tick T means the forces were within their limits at every tick of
      [T - 50 (need - 1), T] since the start. */
  lemma YesMeansQuiet(c: Counters, start: int, valid: seq<bool>, need: int, k: nat)
    requires start >= 1 && valid != [] && AnswerAt(c, start, valid, need)
    requires k < |valid| && |valid| - 1 - k <= PERIOD * (need - 1)
    ensures valid[k]
  {
    YesMeansQuietCalls(c, EveryTick(start, valid), need, k);
  }

  // ---------------------------------------------------------------- and the other way round

  predicate NoYes(c: Counters, start: int, valid: seq<bool>, need: int) {
    forall k :: 0 < k <= |valid| ==> !AnswerAt(c, start, valid[..k], need)
  }

  /** After `n` quiet, unanswered calls: `count` increments so far, the next one due at `due`. */
  predicate Counted(c: Counters, d: Counters, start: int, n: nat, need: int, count: nat, due: int) {
    var now := start + n;
    && d.success == c.success + count && (count > 0 ==> d.success < need)
    && now <= due < now + PERIOD && due <= start + PERIOD * count + PERIOD - 1
    && (if d.allign == 0 then n == 0 && due == start else (due - d.allign) % PERIOD == 0)
  }

  lemma QuietStep(c: Counters, d: Counters, start: int, n: nat, need: int, count: nat, due: int)
    requires start >= 1 && Counted(c, d, start, n, need, count, due) && !Check(d, start + n, true, need).1
    ensures var d' := Check(d, start + n, true, need).0;
            if due == start + n then Counted(c, d', start, n + 1, need, count + 1, due + PERIOD)
            else Counted(c, d', start, n + 1, need, count, due)
  {
    var now := start + n;
    if now != due {
      assert d.allign != 0;
      if (now - d.allign) % PERIOD == 0 { NotDueYet(d.allign, now, due); }
    } else if d.allign != 0 {
      assert (due + PERIOD - d.allign) % PERIOD == 0;
    }
  }

  lemma NotDueYet(a: int, now: int, due: int)
    requires (due - a) % PERIOD == 0 && now < due < now + PERIOD
    ensures (now - a) % PERIOD != 0
  {
  }

  lemma NoYesBefore(c: Counters, start: int, valid: seq<bool>, need: int)
    requires valid != [] && NoYes(c, start, valid, need)
    ensures NoYes(c, start, valid[..|valid| - 1], need) && !AnswerAt(c, start, valid, need)
  {
    var n := |valid| - 1;
    assert valid[..n + 1] == valid;
    forall k | 0 < k <= n ensures !AnswerAt(c, start, valid[..n][..k], need) {
      assert valid[..n][..k] == valid[..k];
    }
  }

  /** The first tick from `start` on that is whole periods away from `a`. */
  function NextOnGrid(a: int, start: int): (due: int)
    ensures start <= due < start + PERIOD && (due - a) % PERIOD == 0
  {
    var r := (a - start) % PERIOD;
    assert start + r - a == -PERIOD * ((a - start) / PERIOD);
    start + r
  }

  /** While quiet calls go unanswered, the count grows once in fifty ticks. */
  lemma {:induction false} QuietCounts(c: Counters, start: int, valid: seq<bool>, need: int)
    returns (count: nat, due: int)
    requires 0 <= c.allign <= start && start >= 1 && NoYes(c, start, valid, need)
    requires forall i :: 0 <= i < |valid| ==> valid[i]
    ensures Counted(c, AfterTicks(c, start, valid, need), start, |valid|, need, count, due)
    decreases |valid|
  {
    if valid == [] {
      count := 0;
      due := if c.allign == 0 then start else NextOnGrid(c.allign, start);
    } else {
      var n := |valid| - 1;
      NoYesBefore(c, start, valid, need);
      count, due := QuietCounts(c, start, valid[..n], need);
      OneMoreTick(c, start, valid, need);
      QuietStep(c, AfterTicks(c, start, valid[..n], need), start, n, need, count, due);
      if due == start + n { count, due := count + 1, due + PERIOD; }
    }
  }

  lemma LongQuietIsAnswered(c: Counters, start: int, valid: seq<bool>, need: int)
    requires 0 <= c.allign <= start && c.success >= 0 && start >= 1 && need >= 1
    requires |valid| == PERIOD * need && forall i :: 0 <= i < |valid| ==> valid[i]
    ensures !NoYes(c, start, valid, need)
  {
    if NoYes(c, start, valid, need) {
      var count, due := QuietCounts(c, start, valid, need);
    }
  }

  /** Fifty times `need` quiet ticks in a row always bring a "yes". */
  lemma QuietMeansYes(c: Counters, start: int, valid: seq<bool>, need: int) returns (k: nat)
    requires 0 <= c.allign <= start && c.success >= 0 && start >= 1 && need >= 1
    requires |valid| == PERIOD * need && forall i :: 0 <= i < |valid| ==> valid[i]
    ensures 0 < k <= |valid| && AnswerAt(c, start, valid[..k], need)
  {
    LongQuietIsAnswered(c, start, valid, need);
    k :| 0 < k <= |valid| && AnswerAt(c, start, valid[..k], need);
  }

  // ---------------------------------------------------------------- when the answer comes

  lemma {:induction false} QuietState(start: int, valid: seq<bool>, need: int)
    requires start >= 1 && 1 <= |valid| <= PERIOD * (need - 1) && forall i :: 0 <= i < |valid| ==> valid[i]
    ensures AfterTicks(Counters(0, 0), start, valid, need) == Counters(start, (|valid| - 1) / PERIOD + 1)
    ensures !AnswerAt(Counters(0, 0), start, valid, need)
    decreases |valid|
  {
    var n := |valid| - 1;
    OneMoreTick(Counters(0, 0), start, valid, need);
    if n == 0 {
      assert EveryTick(start, valid[..0]) == [];
    } else {
      QuietState(start, valid[..n], need);
      OnTheGrid(start, n, need);
    }
  }

  lemma OnTheGrid(start: int, n: nat, need: int)
    requires start >= 1 && 0 < n < PERIOD * (need - 1)
    ensures Check(Counters(start, (n - 1) / PERIOD + 1), start + n, true, need)
         == (Counters(start, n / PERIOD + 1), false)
  {
    assert if n % PERIOD == 0 then n / PERIOD == (n - 1) / PERIOD + 1 else n / PERIOD == (n - 1) / PERIOD;
  }

  /** From fresh counters and under quiet forces, calls at every tick answer "yes" for the first time at
      exactly the tick 50 (need - 1) after the first, and are then as fresh as before. */
  lemma FirstYesIsExact(start: int, valid: seq<bool>, need: int)
    requires start >= 1 && need >= 1 && forall i :: 0 <= i < |valid| ==> valid[i]
    requires 1 <= |valid| <= PERIOD * (need - 1) + 1
    ensures AnswerAt(Counters(0, 0), start, valid, need) <==> |valid| == PERIOD * (need - 1) + 1
    ensures |valid| == PERIOD * (need - 1) + 1 ==> AfterTicks(Counters(0, 0), start, valid, need) == Counters(0, 0)
  {
    var n := |valid| - 1;
    if n < PERIOD * (need - 1) {
      QuietState(start, valid, need);
    } else {
      OneMoreTick(Counters(0, 0), start, valid, need);
      if n == 0 {
        assert EveryTick(start, valid[..0]) == [];
      } else {
        QuietState(start, valid[..n], need);
        LastOfMany(start, n, need);
      }
    }
  }

  lemma LastOfMany(start: int, n: nat, need: int)
    requires n > 0 && n == PERIOD * (need - 1) && start >= 1
    ensures Check(Counters(start, (n - 1) / PERIOD + 1), start + n, true, need) == (Counters(0, 0), true)
  {
    assert n % PERIOD == 0 && (n - 1) / PERIOD + 1 == need - 1;
  }
}
