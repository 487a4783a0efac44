/** The uninterrupted cycle of PolicyDriver is what the lock-level steps of PolicyProtocol amount
    to when nobody else runs in between. */
module PolicyRefinement {
  import opened Basics
  import opened Keyframes
  import opened PolicyServer
  import opened PolicyDriver
  import opened PolicyProtocol
  import opened PolicyConservation
  import opened PolicyDrain

  function Repeat(r: Keyframe, k: nat): seq<Action> {
    if k == 0 then [] else [DriverStep(r)] + Repeat(r, k - 1)
  }

  lemma RepeatNext(s: System, r: Keyframe, k: nat, lim: Limits)
    requires lim.Valid() && k > 0
    ensures Exec(s, Repeat(r, k), lim) == Exec(StepDriver(s, r, lim), Repeat(r, k - 1), lim)
    ensures CyclesDone(s, Repeat(r, k), lim)
         == (if StepDriver(s, r, lim).pc.CycleStart? then 1 else 0)
             + CyclesDone(StepDriver(s, r, lim), Repeat(r, k - 1), lim)
  {
    assert Repeat(r, k)[1..] == Repeat(r, k - 1);
    ExecNext(s, DriverStep(r), Repeat(r, k - 1), lim);
  }

  /** The commands issued, without the observer's labels. */
  function Issued(h: History): seq<Command> {
    seq(|h.commands|, i requires 0 <= i < |h.commands| => h.commands[i].command)
  }

  function Optional(c: Option<Command>): seq<Command> {
    match c case Some(x) => [x] case None => []
  }

  /** Everything a driver step leaves to the other parties. */
  predicate SameOthers(s: System, t: System) {
    s.commitSeq == t.commitSeq && s.targetQ == t.targetQ && s.stopFlag == t.stopFlag
    && s.client == t.client && s.wire == t.wire && s.hist.accepted == t.hist.accepted
  }

  /** After the scan has begun with `attempt` keyframes already skipped in this cycle. */
  function AfterScan(s: System, attempt: nat, r: Keyframe, lim: Limits): Outcome
    requires lim.Valid() && attempt <= MAX_SKIPS
  {
    var (rest, found) := SkipScan(s.queue, Reference(s.driver, r), lim, MAX_SKIPS - attempt);
    if found && rest != [] then
      var d2 := BeginBatch(s.driver, rest[0], r, s.commitSeq, lim);
      Outcome(d2, if d2.seg.active then rest else Popped(rest), Some(Batch(FirstCommand(s.driver, rest[0], r, lim))))
    else if s.driver.batchMode then Outcome(s.driver, rest, None)
    else
      var (d2, command) := LegacyCycle(s.driver, s.targetQ, r, lim);
      Outcome(d2, rest, command)
  }

  predicate Reaches(s: System, t: System, o: Outcome) {
    && t.pc.CycleStart? && t.driver == o.driver && t.queue == o.queue && SameOthers(s, t)
    && Issued(t.hist) == Issued(s.hist) + Optional(o.command)
  }

  lemma NothingFound(s: System, r: Keyframe, lim: Limits) returns (k: nat)
    requires lim.Valid() && s.pc.Probe?
    ensures var t := Exec(s, Repeat(r, k), lim);
            Reaches(s, t, if s.driver.batchMode then Outcome(s.driver, s.queue, None)
                          else var (d, c) := LegacyCycle(s.driver, s.targetQ, r, lim); Outcome(d, s.queue, c))
    ensures CyclesDone(s, Repeat(r, k), lim) == 1
  {
    RepeatNext(s, r, 1, lim);
    if s.driver.batchMode {
      k := 1;
    } else {
      k := 2;
      RepeatNext(s, r, 2, lim);
      RepeatNext(StepDriver(s, r, lim), r, 1, lim);
    }
  }

  lemma GoalFound(s: System, goal: Keyframe, r: Keyframe, lim: Limits)
    requires lim.Valid() && s.pc == SeqForLog(goal)
    ensures var t := Exec(s, Repeat(r, 2), lim);
            var d := BeginBatch(s.driver, goal, r, s.commitSeq, lim);
            Reaches(s, t, Outcome(d, s.queue, Some(Batch(FirstCommand(s.driver, goal, r, lim)))))
            && d.seg.active && CyclesDone(s, Repeat(r, 2), lim) == 1
  {
    RepeatNext(s, r, 2, lim);
    RepeatNext(StepDriver(s, r, lim), r, 1, lim);
  }

  lemma OneSkipRefines(s: System, attempt: nat, r: Keyframe, lim: Limits)
    requires lim.Valid() && attempt < MAX_SKIPS && s.pc == Peek(attempt)
    requires s.queue != [] && Exceeds(Reference(s.driver, r), s.queue[0], lim)
    ensures var s2 := StepDriver(StepDriver(s, r, lim), r, lim);
            && s2.queue == s.queue[1..] && s2.driver == s.driver &&
               SameOthers(s, s2) && s2.hist.commands == s.hist.commands
            && s2.pc == (if attempt + 1 < MAX_SKIPS then Peek(attempt + 1) else Probe)
            && AfterScan(s, attempt, r, lim) == AfterScan(s2, attempt + 1, r, lim)
  {
    var s2 := StepDriver(StepDriver(s, r, lim), r, lim);
    var ref := Reference(s.driver, r);
    assert SkipScan(s.queue, ref, lim, MAX_SKIPS - attempt) == SkipScan(s2.queue, ref, lim, MAX_SKIPS - attempt - 1);
  }

  lemma ScanEnds(s: System, attempt: nat, r: Keyframe, lim: Limits) returns (k: nat)
    requires lim.Valid() && attempt < MAX_SKIPS && s.pc == Peek(attempt)
    requires s.queue == [] || !Exceeds(Reference(s.driver, r), s.queue[0], lim)
    ensures Reaches(s, Exec(s, Repeat(r, k), lim), AfterScan(s, attempt, r, lim))
    ensures CyclesDone(s, Repeat(r, k), lim) == 1
  {
    var s1 := StepDriver(s, r, lim);
    if s.queue == [] {
      var m := NothingFound(s1, r, lim);
      k := m + 1;
    } else {
      GoalFound(s1, s.queue[0], r, lim);
      k := 3;
    }
    RepeatNext(s, r, k, lim);
  }

  lemma {:induction false} ScanRefines(s: System, attempt: nat, r: Keyframe, lim: Limits) returns (k: nat)
    requires lim.Valid() && attempt < MAX_SKIPS && s.pc == Peek(attempt)
    ensures Reaches(s, Exec(s, Repeat(r, k), lim), AfterScan(s, attempt, r, lim))
    ensures CyclesDone(s, Repeat(r, k), lim) == 1
    decreases MAX_SKIPS - attempt
  {
    if s.queue == [] || !Exceeds(Reference(s.driver, r), s.queue[0], lim) {
      k := ScanEnds(s, attempt, r, lim);
    } else {
      var s1 := StepDriver(s, r, lim);
      var s2 := StepDriver(s1, r, lim);
      OneSkipRefines(s, attempt, r, lim);
      var m: nat;
      if attempt + 1 < MAX_SKIPS {
        m := ScanRefines(s2, attempt + 1, r, lim);
      } else {
        m := NothingFound(s2, r, lim);
      }
      k := m + 2;
      TwoMoreSteps(s, r, m, lim);
    }
  }

  lemma TwoMoreSteps(s: System, r: Keyframe, m: nat, lim: Limits)
    requires lim.Valid() && !StepDriver(s, r, lim).pc.CycleStart?
    requires !StepDriver(StepDriver(s, r, lim), r, lim).pc.CycleStart?
    ensures var s2 := StepDriver(StepDriver(s, r, lim), r, lim);
            && Exec(s, Repeat(r, m + 2), lim) == Exec(s2, Repeat(r, m), lim)
            && CyclesDone(s, Repeat(r, m + 2), lim) == CyclesDone(s2, Repeat(r, m), lim)
  {
    RepeatNext(s, r, m + 2, lim);
    RepeatNext(StepDriver(s, r, lim), r, m + 1, lim);
  }

  /** One cycle at lock granularity, undisturbed, is one `Tick`: same fields, same queue, same command. */
  lemma CycleRefinesTick(s: System, r: Keyframe, lim: Limits) returns (k: nat)
    requires lim.Valid() && s.pc.CycleStart? && !s.stopFlag
    ensures Reaches(s, Exec(s, Repeat(r, k), lim), Tick(s.driver, s.queue, s.commitSeq, s.targetQ, r, lim))
    ensures CyclesDone(s, Repeat(r, k), lim) == 1
  {
    var s1 := StepDriver(s, r, lim);
    if s.driver.seg.active {
      k := if s1.pc.CycleStart? then 1 else 2;
      RepeatNext(s, r, k, lim);
      if k == 2 { RepeatNext(s1, r, 1, lim); }
    } else {
      var m := ScanRefines(s1, 0, r, lim);
      k := m + 1;
      RepeatNext(s, r, k, lim);
    }
  }

  /** Left alone from the start of a cycle, the driver performs one cycle for each reading by its real
      lock-level steps, and as many cycles as `CyclesLeft` says empty the queue. */
  lemma {:induction false} DriverAloneDrains(s: System, readings: seq<Keyframe>, lim: Limits)
    returns (actions: seq<Action>)
    requires lim.Valid() && s.pc.CycleStart? && !s.stopFlag && InStep(s.driver, s.queue, lim)
    requires |readings| >= CyclesLeft(s.driver, s.queue, lim)
    ensures forall i :: 0 <= i < |actions| ==> actions[i].DriverStep? && actions[i].reading in readings
    ensures var t := Exec(s, actions, lim);
            t.queue == [] && !t.driver.seg.active && t.pc.CycleStart? && SameOthers(s, t)
    ensures CyclesDone(s, actions, lim) == |readings|
    decreases |readings|
  {
    BudgetPositive(s.driver, s.queue, lim);
    if readings == [] {
      actions := [];
    } else {
      var r := readings[0];
      var k := CycleRefinesTick(s, r, lim);
      TickMakesProgress(s.driver, s.queue, s.commitSeq, s.targetQ, r, lim);
      var t := Exec(s, Repeat(r, k), lim);
      var rest := DriverAloneDrains(t, readings[1..], lim);
      actions := Repeat(r, k) + rest;
      ExecSplits(s, Repeat(r, k), rest, lim);
      CyclesAdd(s, Repeat(r, k), rest, lim);
      RepeatOnly(r, k);
      forall i | 0 <= i < |rest| ensures rest[i].reading in readings { assert rest[i].reading in readings[1..]; }
    }
  }

  lemma {:induction false} CyclesAdd(s: System, a: seq<Action>, b: seq<Action>, lim: Limits)
    requires lim.Valid()
    ensures CyclesDone(s, a + b, lim) == CyclesDone(s, a, lim) + CyclesDone(Exec(s, a, lim), b, lim)
    decreases |a|
  {
    if a == [] {
      assert a + b == b;
    } else {
      assert (a + b)[0] == a[0] && (a + b)[1..] == a[1..] + b;
      CyclesAdd(Apply(s, a[0], lim), a[1..], b, lim);
    }
  }

  lemma RepeatOnly(r: Keyframe, k: nat)
    ensures forall i :: 0 <= i < |Repeat(r, k)| ==> Repeat(r, k)[i] == DriverStep(r)
  {
  }

  // ---------------------------------------------------------------- the stop

  /** Forgotten all motion: no segment, no goal, no mode. */
  predicate Forgotten(d: Driver) {
    !d.seg.active && !d.legacy.active && d.lastLegacy == None && d.lastQ1 == None && !d.batchMode && d.activeSeq == 0
  }

  /** A stop request found at the start of a cycle is carried out by three undisturbed steps, without a further
      command: all motion is forgotten, queue and target are emptied, the keyframes waiting are discarded, and
      the commit number moves on. The next start is as fresh. */
  lemma StopIsClean(s: System, r: Keyframe, lim: Limits)
    requires lim.Valid() && s.pc.CycleStart? && s.stopFlag
    ensures var t := Exec(s, Repeat(r, 3), lim);
            && t.pc.Stopped? && !t.stopFlag && Forgotten(t.driver)
            && t.queue == [] && t.targetQ == [] && t.commitSeq == s.commitSeq + 1
            && t.hist.commands == s.hist.commands && t.hist.fates == s.hist.fates + DroppedFates(|s.queue|)
            && Forgotten(Apply(t, Restart, lim).driver) && Apply(t, Restart, lim).pc.CycleStart?
  {
    RepeatNext(s, r, 3, lim);
    var s1 := StepDriver(s, r, lim);
    RepeatNext(s1, r, 2, lim);
    var s2 := StepDriver(s1, r, lim);
    RepeatNext(s2, r, 1, lim);
    var s3 := StepDriver(s2, r, lim);
    assert Exec(s3, Repeat(r, 0), lim) == s3;
  }
}
