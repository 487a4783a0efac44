/** When `remaining == 0` means executed (a10_policy_tcp_plan.cpp:294-388): exactly when no keyframe of the
    batch is over a threshold from the one before it. */
module PolicyChain {
  import opened Basics
  import opened Keyframes
  import opened PolicyServer
  import opened PolicyDriver
  import opened PolicyProtocol
  import opened PolicyConservation
  import opened PolicyRefinement
  import opened PolicyDrain
  import opened PolicyLoss

  /** Each keyframe is within the thresholds of the one before it, the first of `ref`. */
  predicate Chain(ref: Keyframe, q: seq<Keyframe>, lim: Limits)
    decreases |q|
  {
    q == [] || (!Exceeds(ref, q[0], lim) && Chain(q[0], q[1..], lim))
  }

  /** Every keyframe that has left since the first `base` was executed. */
  predicate AllExecuted(h: History, base: nat) {
    forall i :: base <= i < |h.fates| ==> h.fates[i].Executed?
  }

  /** Where the driver stands decides what the rest of the queue is compared with. */
  predicate RestChains(s: System, r: Keyframe, lim: Limits)
    requires s.driver.seg.active || s.pc.PopFinished? || s.pc.SeqForLog? || s.pc.SizeForLog? ==> s.queue != []
  {
    if s.driver.seg.active then Chain(s.driver.seg.q1, s.queue[1..], lim)
    else match s.pc
      case PopFinished => Chain(s.driver.seg.q1, s.queue[1..], lim)
      case SeqForLog(goal) => Chain(goal, s.queue[1..], lim)
      case SizeForLog(goal, _) => Chain(goal, s.queue[1..], lim)
      case SkipPop(_, _, _, _) => false
      case _ => Chain(Reference(s.driver, r), s.queue, lim)
  }

  /** What the driver believes of the front of the queue is so, and the batch is adopted. */
  predicate Adopted(s: System, r: Keyframe, lim: Limits)
    requires lim.Valid()
  {
    && Draining(s, r, lim) && s.commitSeq == s.driver.activeSeq
    && (s.driver.seg.active || s.pc.PopFinished? ==> s.queue != [] && s.driver.lastQ1 == Some(s.driver.seg.q1))
    && (s.pc.SeqForLog? ==> s.queue[0] == s.pc.goal) && (s.pc.SizeForLog? ==> s.queue[0] == s.pc.goal)
  }

  /** `chain` says whether the whole batch chains: as long as nothing was skipped the rest decides it. */
  predicate Decides(s: System, r: Keyframe, base: nat, chain: bool, lim: Limits)
    requires lim.Valid()
  {
    && Adopted(s, r, lim) && base <= |s.hist.fates|
    && (if AllExecuted(s.hist, base) then
          && (chain <==> RestChains(s, r, lim))
          && (s.pc.Probe? || s.pc.ReadTarget? || (s.pc.CycleStart? && s.driver.lastQ1.None?) ==> s.queue == [])
        else !chain)
  }

  // ---------------------------------------------------------------- every step keeps it

  lemma CycleStartDecides(s: System, r: Keyframe, base: nat, chain: bool, lim: Limits)
    requires lim.Valid() && Decides(s, r, base, chain, lim) && s.pc.CycleStart?
    ensures Decides(StartOfCycle(s), r, base, chain, lim)
  {
    CycleStartGoes(s, r, lim);
  }

  lemma PeekDecides(s: System, attempt: nat, r: Keyframe, base: nat, chain: bool, lim: Limits)
    requires lim.Valid() && Decides(s, r, base, chain, lim) && s.pc == Peek(attempt)
    ensures Decides(PeekFront(s, attempt, r, lim), r, base, chain, lim)
  {
    PeekGoes(s, attempt, r, lim);
  }

  lemma SkipDecides(s: System, next: Pc, r: Keyframe, base: nat, chain: bool, lim: Limits)
    requires lim.Valid() && Decides(s, r, base, chain, lim) && s.pc.SkipPop?
    requires next == if s.pc.attempt + 1 < MAX_SKIPS then Peek(s.pc.attempt + 1) else Probe
    ensures Decides(Pop(s, Skipped(s.pc.seen, s.pc.ref, s.pc.reading, s.hist.era)).(pc := next), r, base, chain, lim)
  {
    var f := Skipped(s.pc.seen, s.pc.ref, s.pc.reading, s.hist.era);
    PopGoes(s, f, next, r, lim);
    var t := Pop(s, f).(pc := next);
    assert t.hist.fates[|s.hist.fates|] == f;
    assert !AllExecuted(t.hist, base);
  }

  lemma PopDecides(s: System, r: Keyframe, base: nat, chain: bool, lim: Limits)
    requires lim.Valid() && Decides(s, r, base, chain, lim) && s.pc.PopFinished?
    ensures Decides(Pop(s, Executed(LastCommand(s.hist))).(pc := CycleStart), r, base, chain, lim)
  {
    PopGoes(s, Executed(LastCommand(s.hist)), CycleStart, r, lim);
    var t := Pop(s, Executed(LastCommand(s.hist))).(pc := CycleStart);
    assert t.hist.fates[..|s.hist.fates|] == s.hist.fates;
    assert AllExecuted(t.hist, base) <==> AllExecuted(s.hist, base) by {
      forall i | base <= i < |s.hist.fates| ensures t.hist.fates[i] == s.hist.fates[i] { }
    }
  }

  lemma StartDecides(s: System, r: Keyframe, base: nat, chain: bool, lim: Limits)
    requires lim.Valid() && Decides(s, r, base, chain, lim) && s.pc.SizeForLog?
    ensures Decides(StartBatchSegment(s, s.pc.goal, s.pc.seq_, r, lim), r, base, chain, lim)
  {
    StartGoes(s, s.pc.goal, s.pc.seq_, r, lim);
  }

  lemma LegacyDecides(s: System, r: Keyframe, base: nat, chain: bool, lim: Limits)
    requires lim.Valid() && Decides(s, r, base, chain, lim) && s.pc.ReadTarget?
    ensures Decides(LegacyStep(s, r, lim), r, base, chain, lim)
  {
    LegacyGoes(s, r, lim);
  }

  lemma DriverDecides(s: System, r: Keyframe, base: nat, chain: bool, lim: Limits)
    requires lim.Valid() && Decides(s, r, base, chain, lim)
    ensures Decides(StepDriver(s, r, lim), r, base, chain, lim)
  {
    match s.pc
    case CycleStart => CycleStartDecides(s, r, base, chain, lim);
    case PopFinished => PopDecides(s, r, base, chain, lim);
    case Peek(attempt) => PeekDecides(s, attempt, r, base, chain, lim);
    case SkipPop(attempt, _, _, _) =>
      SkipDecides(s, if attempt + 1 < MAX_SKIPS then Peek(attempt + 1) else Probe, r, base, chain, lim);
    case SizeForLog(_, _) => StartDecides(s, r, base, chain, lim);
    case ReadTarget => LegacyDecides(s, r, base, chain, lim);
    case _ => DriverGoes(s, r, lim);
  }

  /** A cycle that has just begun may take a new reading: the rest is compared with the last goal. */
  lemma ReadingDecides(s: System, r: Keyframe, r': Keyframe, base: nat, chain: bool, lim: Limits)
    requires lim.Valid() && Decides(s, r, base, chain, lim) && s.pc.CycleStart?
    ensures Decides(s, r', base, chain, lim)
  {
    NewReading(s, r, r', lim);
  }

  lemma OthersDecide(s: System, a: Action, r: Keyframe, base: nat, chain: bool, lim: Limits)
    requires lim.Valid() && Decides(s, r, base, chain, lim) && Calm(s, a) && !a.DriverStep?
    ensures Decides(Apply(s, a, lim), r, base, chain, lim)
  {
    OthersGo(s, a, r, lim);
  }

  // ---------------------------------------------------------------- whole runs

  lemma {:induction false} RunDecides(
    s: System, actions: seq<Action>, r: Keyframe, base: nat, chain: bool, lim: Limits) returns (r': Keyframe)
    requires lim.Valid() && Decides(s, r, base, chain, lim) && CalmRun(s, actions, r, lim)
    ensures Decides(Exec(s, actions, lim), r', base, chain, lim)
    decreases |actions|
  {
    if actions == [] {
      r' := r;
    } else {
      var a := actions[0];
      var now := if a.DriverStep? then a.reading else r;
      if a.DriverStep? {
        if s.pc.CycleStart? { ReadingDecides(s, r, now, base, chain, lim); }
        DriverDecides(s, now, base, chain, lim);
      } else {
        OthersDecide(s, a, r, base, chain, lim);
      }
      r' := RunDecides(Apply(s, a, lim), actions[1..], now, base, chain, lim);
    }
  }

  /** An idle driver finds a batch under a new commit number. In every interleaving without a further batch or
      stop, once T * MaxSteps cycles have ended, all its keyframes have been executed if and only if each is
      within the thresholds of the one before it, and the first of the joint reading: a condition the
      client can test before it sends. Otherwise some have been skipped. */
  lemma BatchIsExecutedIffItChains(s: System, actions: seq<Action>, r: Keyframe, lim: Limits)
    requires lim.Valid() && s.pc.CycleStart? && !s.stopFlag && !s.driver.seg.active
    requires s.commitSeq != s.driver.activeSeq && actions != [] && actions[0].DriverStep?
    requires CalmRun(s, actions, r, lim) && CyclesDone(s, actions, lim) >= |s.queue| * MaxSteps(lim)
    ensures var t := Exec(s, actions, lim);
            && t.queue == []
            && (AllExecuted(t.hist, |s.hist.fates|) <==> Chain(actions[0].reading, s.queue, lim))
  {
    var now := actions[0].reading;
    QueueDrainsInEveryInterleaving(s, actions, r, lim);
    var base, chain := |s.hist.fates|, Chain(now, s.queue, lim);
    var s1 := Apply(s, actions[0], lim);
    assert s1.pc == Peek(0) && Reference(s1.driver, now) == now && s1.queue == s.queue;
    assert Decides(s1, now, base, chain, lim);
    var r' := RunDecides(s1, actions[1..], now, base, chain, lim);
    assert Decides(Exec(s, actions, lim), r', base, chain, lim);
  }

  /** A run of a waiting client that reads `remaining == 0` although its keyframe was never executed: every
      keyframe over a threshold from the joint reading will do. */
  lemma SkippedBatchLooksDone(p: Keyframe, r: Keyframe, lim: Limits)
    requires lim.Valid() && Exceeds(r, p, lim)
    ensures AllDisciplined(SkippedRun(p, r))
    ensures var t := Exec(INITIAL, SkippedRun(p, r), lim);
            && t.client == GotStatus(0)
            && t.hist.accepted == [p] && t.hist.fates == [Skipped(p, r, r, 1)] && t.hist.commands == []
  {
    SendAndCommit(INITIAL, p, Repeat(r, 3) + [ServerStatus], lim);
    var s0 := Replace(INITIAL, [p]).(client := MustPoll);
    ExecSplits(s0, Repeat(r, 3), [ServerStatus], lim);
    ThreeStepsSkip(s0, p, r, lim);
    assert [ServerStatus] == [ServerStatus] + [];
    ExecNext(Exec(s0, Repeat(r, 3), lim), ServerStatus, [], lim);
    SkippedRunIsDisciplined(p, r);
  }

  function SkippedRun(p: Keyframe, r: Keyframe): seq<Action> {
    [ClientSend(Rows([Row(p)])), ServerCommit(0)] + (Repeat(r, 3) + [ServerStatus])
  }

  lemma SkippedRunIsDisciplined(p: Keyframe, r: Keyframe)
    ensures AllDisciplined(SkippedRun(p, r))
  {
    RepeatOnly(r, 3);
  }

  lemma ThreeStepsSkip(s: System, p: Keyframe, r: Keyframe, lim: Limits)
    requires lim.Valid() && Exceeds(r, p, lim) && s.queue == [p]
    requires s.pc.CycleStart? && !s.stopFlag && s.driver == RESET && s.commitSeq != 0
    ensures var t := Exec(s, Repeat(r, 3), lim);
            && t.queue == [] && t.client == s.client && t.hist.commands == s.hist.commands
            && t.hist.accepted == s.hist.accepted && t.hist.fates == s.hist.fates + [Skipped(p, r, r, s.hist.era + 1)]
  {
    var s1 := StepDriver(s, r, lim);
    assert s1.pc == Peek(0) && s1.driver.lastQ1.None?;
    var s2 := StepDriver(s1, r, lim);
    assert s2.pc == SkipPop(0, p, r, r);
    RepeatNext(s, r, 3, lim);
    RepeatNext(s1, r, 2, lim);
    RepeatNext(s2, r, 1, lim);
  }
}
