/** How long the queue lasts at lock granularity: in every interleaving without a further batch or stop
    (a10_policy_tcp_plan.cpp:269-394). */
module PolicyDrain {
  import opened Keyframes
  import opened PolicyDriver
  import opened PolicyProtocol

  // ---------------------------------------------------------------- calm runs

  /** Nobody replaces or clears the queue or stops the plan; clients may poll, send and give up. */
  predicate Calm(s: System, a: Action) { !Replaces(s, a) && !a.StopRequest? }

  /** The step ends a cycle of the driver. */
  predicate EndsCycle(s: System, a: Action, lim: Limits)
    requires lim.Valid()
  {
    a.DriverStep? && StepDriver(s, a.reading, lim).pc.CycleStart?
  }

  /** Every step of a cycle sees the joint reading of the cycle's first step; `r` is that of the cycle
      under way. */
  predicate CalmRun(s: System, actions: seq<Action>, r: Keyframe, lim: Limits)
    requires lim.Valid()
    decreases |actions|
  {
    actions == []
    || (var a := actions[0];
        && Calm(s, a) && (a.DriverStep? && !s.pc.CycleStart? ==> a.reading == r)
        && CalmRun(Apply(s, a, lim), actions[1..], if a.DriverStep? then a.reading else r, lim))
  }

  function CyclesDone(s: System, actions: seq<Action>, lim: Limits): nat
    requires lim.Valid()
    decreases |actions|
  {
    if actions == [] then 0
    else (if EndsCycle(s, actions[0], lim) then 1 else 0) + CyclesDone(Apply(s, actions[0], lim), actions[1..], lim)
  }

  function DriverSteps(actions: seq<Action>): nat {
    if actions == [] then 0 else (if actions[0].DriverStep? then 1 else 0) + DriverSteps(actions[1..])
  }

  // ---------------------------------------------------------------- inside a cycle

  /** What holds wherever the driver stands, while the cycle under way has reading `r`. */
  predicate Draining(s: System, r: Keyframe, lim: Limits)
    requires lim.Valid()
  {
    && !s.stopFlag && !s.pc.StopClearBatch? && !s.pc.StopClearTarget? && !s.pc.Stopped?
    && (s.driver.seg.active ==>
        s.pc.CycleStart? && s.queue != [] && 1 <= s.driver.seg.step < s.driver.seg.n <= MaxSteps(lim))
    && (s.pc.PopFinished? || s.pc.SkipPop? ==> s.queue != [])
    && (s.pc.Peek? ==> s.pc.attempt < MAX_SKIPS) && (s.pc.SkipPop? ==> s.pc.attempt < MAX_SKIPS)
    && (s.pc.SeqForLog? ==> s.queue != [] && !Exceeds(Reference(s.driver, r), s.pc.goal, lim))
    && (s.pc.SizeForLog? ==> s.queue != [] && !Exceeds(Reference(s.driver, r), s.pc.goal, lim))
  }

  /** A bound on the cycles that still end before the queue is empty. */
  function CyclesToGo(s: System, lim: Limits): int
    requires lim.Valid()
  {
    var rest := |s.queue| * MaxSteps(lim);
    match s.pc
    case CycleStart => if s.driver.seg.active then s.driver.seg.n - s.driver.seg.step + rest - MaxSteps(lim) else rest
    case PopFinished => 1 + rest - MaxSteps(lim)
    case Peek(attempt) => if attempt == 0 then rest else rest + 1
    case SkipPop(attempt, _, _, _) => if attempt == 0 then rest else rest + 1
    case Probe => rest + 1
    case ReadTarget => rest + 1
    case _ => rest
  }

  lemma OneLess(k: nat, n: int)
    requires k >= 1
    ensures (k - 1) * n == k * n - n
  {
  }

  lemma ProductBounds(k: nat, n: int)
    requires k >= 1 && n >= 2
    ensures k * n >= n
  {
  }

  /** A driver step while keyframes wait: it keeps the invariant, and the bound falls by one whenever it ends
      a cycle and never rises. */
  predicate Goes(s: System, t: System, r: Keyframe, lim: Limits)
    requires lim.Valid()
  {
    && Draining(t, r, lim)
    && (t.queue != [] ==> CyclesToGo(t, lim) <= CyclesToGo(s, lim) - if t.pc.CycleStart? then 1 else 0)
    && (s.queue == [] ==> t.queue == [])
  }

  lemma CycleStartGoes(s: System, r: Keyframe, lim: Limits)
    requires lim.Valid() && Draining(s, r, lim) && s.pc.CycleStart?
    ensures Goes(s, StartOfCycle(s), r, lim)
  {
  }

  lemma PopGoes(s: System, claim: Fate, next: Pc, r: Keyframe, lim: Limits)
    requires lim.Valid() && Draining(s, r, lim) && s.queue != [] && !s.driver.seg.active
    requires (s.pc.PopFinished? && next.CycleStart?)
             || (s.pc.SkipPop? && next == if s.pc.attempt + 1 < MAX_SKIPS then Peek(s.pc.attempt + 1) else Probe)
    ensures Goes(s, Pop(s, claim).(pc := next), r, lim)
  {
    OneLess(|s.queue|, MaxSteps(lim));
  }

  lemma PeekGoes(s: System, attempt: nat, r: Keyframe, lim: Limits)
    requires lim.Valid() && Draining(s, r, lim) && s.pc == Peek(attempt)
    ensures Goes(s, PeekFront(s, attempt, r, lim), r, lim)
  {
  }

  lemma StartGoes(s: System, goal: Keyframe, seqLog: nat, r: Keyframe, lim: Limits)
    requires lim.Valid() && Draining(s, r, lim) && s.pc == SizeForLog(goal, seqLog)
    ensures Goes(s, StartBatchSegment(s, goal, seqLog, r, lim), r, lim)
  {
    AcceptedSegmentIsShort(Reference(s.driver, r), goal, lim);
    var seg := Started(Reference(s.driver, r), goal, lim, 2);
    assert 2 <= seg.n <= MaxSteps(lim);
  }

  lemma LegacyGoes(s: System, r: Keyframe, lim: Limits)
    requires lim.Valid() && Draining(s, r, lim) && s.pc.ReadTarget?
    ensures Goes(s, LegacyStep(s, r, lim), r, lim)
  {
  }

  lemma DriverGoes(s: System, r: Keyframe, lim: Limits)
    requires lim.Valid() && Draining(s, r, lim)
    ensures Goes(s, StepDriver(s, r, lim), r, lim)
  {
    match s.pc
    case CycleStart => CycleStartGoes(s, r, lim);
    case PopFinished => PopGoes(s, Executed(LastCommand(s.hist)), CycleStart, r, lim);
    case Peek(attempt) => PeekGoes(s, attempt, r, lim);
    case SkipPop(attempt, seen, ref, at) =>
      PopGoes(s, Skipped(seen, ref, at, s.hist.era),
              if attempt + 1 < MAX_SKIPS then Peek(attempt + 1) else Probe, r, lim);
    case SizeForLog(goal, seqLog) => StartGoes(s, goal, seqLog, r, lim);
    case ReadTarget => LegacyGoes(s, r, lim);
    case _ =>
  }

  /** A cycle that has just begun may take a new reading. */
  lemma NewReading(s: System, r: Keyframe, r': Keyframe, lim: Limits)
    requires lim.Valid() && Draining(s, r, lim) && s.pc.CycleStart?
    ensures Draining(s, r', lim)
  {
  }

  lemma OthersGo(s: System, a: Action, r: Keyframe, lim: Limits)
    requires lim.Valid() && Draining(s, r, lim) && Calm(s, a) && !a.DriverStep?
    ensures var t := Apply(s, a, lim); Draining(t, r, lim) && t.queue == s.queue && t.pc == s.pc && t.driver == s.driver
  {
  }

  // ---------------------------------------------------------------- whole runs

  lemma {:induction false} CyclesArePaidFor(s: System, actions: seq<Action>, r: Keyframe, lim: Limits)
    returns (r': Keyframe)
    requires lim.Valid() && Draining(s, r, lim) && CalmRun(s, actions, r, lim)
    ensures var t := Exec(s, actions, lim);
            && Draining(t, r', lim) && (s.queue == [] ==> t.queue == [])
            && (t.queue != [] ==> CyclesToGo(t, lim) + CyclesDone(s, actions, lim) <= CyclesToGo(s, lim))
    decreases |actions|
  {
    if actions == [] {
      r' := r;
    } else {
      var a := actions[0];
      var now := if a.DriverStep? then a.reading else r;
      if a.DriverStep? {
        if s.pc.CycleStart? { NewReading(s, r, now, lim); }
        DriverGoes(s, now, lim);
      } else {
        OthersGo(s, a, r, lim);
      }
      r' := CyclesArePaidFor(Apply(s, a, lim), actions[1..], now, lim);
    }
  }

  lemma ToGoIsPositive(s: System, r: Keyframe, lim: Limits)
    requires lim.Valid() && Draining(s, r, lim) && s.queue != []
    ensures CyclesToGo(s, lim) >= 1
  {
    ProductBounds(|s.queue|, MaxSteps(lim));
  }

  /** In every interleaving without a further batch or stop, whatever the clients do meanwhile and whatever
      mix of executed and skipped keyframes the readings produce, the queue is empty, and no segment is
      under way, once as many cycles have ended as `CyclesLeft` says: T * MaxSteps of them for T keyframes
      that an idle driver finds. */
  lemma QueueDrainsInEveryInterleaving(s: System, actions: seq<Action>, r: Keyframe, lim: Limits)
    requires lim.Valid() && s.pc.CycleStart? && !s.stopFlag && InStep(s.driver, s.queue, lim)
    requires CalmRun(s, actions, r, lim) && CyclesDone(s, actions, lim) >= CyclesLeft(s.driver, s.queue, lim)
    ensures var t := Exec(s, actions, lim); t.queue == [] && !t.driver.seg.active
    ensures !s.driver.seg.active ==> CyclesLeft(s.driver, s.queue, lim) == |s.queue| * MaxSteps(lim)
  {
    if s.queue != [] { OneLess(|s.queue|, MaxSteps(lim)); }
    var r' := CyclesArePaidFor(s, actions, r, lim);
    var t := Exec(s, actions, lim);
    if t.queue != [] { ToGoIsPositive(t, r', lim); }
  }

  // ---------------------------------------------------------------- cycles are short

  const CYCLE_STEPS: nat := 2 * MAX_SKIPS + 3

  /** Lock-level steps until the cycle under way ends, at most. */
  function StepsToGo(pc: Pc): nat {
    match pc
    case CycleStart => CYCLE_STEPS
    case Peek(attempt) => if attempt < MAX_SKIPS then 2 * (MAX_SKIPS - attempt) + 2 else 0
    case SkipPop(attempt, _, _, _) => if attempt < MAX_SKIPS then 2 * (MAX_SKIPS - attempt) + 1 else 0
    case SeqForLog(_) => 2
    case Probe => 2
    case _ => 1
  }

  lemma StepsRunOut(s: System, r: Keyframe, lim: Limits)
    requires lim.Valid() && Draining(s, r, lim)
    ensures var t := StepDriver(s, r, lim); t.pc.CycleStart? || StepsToGo(t.pc) < StepsToGo(s.pc)
  {
    if s.pc.SizeForLog? { StartGoes(s, s.pc.goal, s.pc.seq_, r, lim); }
  }

  lemma {:induction false} CyclesKeepEnding(s: System, actions: seq<Action>, r: Keyframe, lim: Limits)
    requires lim.Valid() && Draining(s, r, lim) && CalmRun(s, actions, r, lim)
    ensures DriverSteps(actions) <= CyclesDone(s, actions, lim) * CYCLE_STEPS + StepsToGo(s.pc) - 1
    decreases |actions|
  {
    if actions != [] {
      var a := actions[0];
      var now := if a.DriverStep? then a.reading else r;
      var t := Apply(s, a, lim);
      if a.DriverStep? {
        if s.pc.CycleStart? { NewReading(s, r, now, lim); }
        DriverGoes(s, now, lim);
        StepsRunOut(s, now, lim);
      } else {
        OthersGo(s, a, r, lim);
      }
      CyclesKeepEnding(t, actions[1..], now, lim);
    }
  }

  /** Counted in steps of the driver instead: 131 times as many of them as cycles, with any steps of other
      parties in between, leave the queue empty. */
  lemma StepsDrainTheQueue(s: System, actions: seq<Action>, r: Keyframe, lim: Limits)
    requires lim.Valid() && s.pc.CycleStart? && !s.stopFlag &&
             InStep(s.driver, s.queue, lim) && CalmRun(s, actions, r, lim)
    requires DriverSteps(actions) >= CyclesLeft(s.driver, s.queue, lim) * CYCLE_STEPS
    ensures var t := Exec(s, actions, lim); t.queue == [] && !t.driver.seg.active
    ensures CYCLE_STEPS == 131
  {
    CyclesKeepEnding(s, actions, r, lim);
    QueueDrainsInEveryInterleaving(s, actions, r, lim);
  }
}
