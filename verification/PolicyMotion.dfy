/** The commanded trajectory, in every run: replaced batches, stops and restarts included. */
module PolicyMotion {
  import opened Basics
  import opened Keyframes
  import opened PolicyServer
  import opened PolicyDriver
  import opened PolicyProtocol
  import opened PolicyConservation

  // ---------------------------------------------------------------- consecutive commands

  predicate AxisStep(x: Keyframe, y: Keyframe, n: int, lim: Limits, i: nat)
    requires i < 7
  {
    Gap(x, y, i) * (n - 1) as real <= n as real * lim.Pace(i)
  }

  /** From `x` to `y` in one period of an n-period segment: at most n/(n-1) of the nominal pace. */
  predicate SmallStep(x: Keyframe, y: Keyframe, n: int, lim: Limits) {
    n >= 2 && forall i: nat | i < 7 :: AxisStep(x, y, n, lim, i)
  }

  /** The overshoot over the nominal pace never exceeds a factor of two. */
  lemma SmallStepIsTwicePace(x: Keyframe, y: Keyframe, n: int, lim: Limits, i: nat)
    requires lim.Valid() && SmallStep(x, y, n, lim) && i < 7
    ensures Gap(x, y, i) <= 2.0 * lim.Pace(i)
  {
    assert AxisStep(x, y, n, lim, i);
    TwiceBound(Gap(x, y, i), (n - 1) as real, lim.Pace(i));
  }

  lemma TwiceBound(g: real, m: real, p: real)
    requires g * m <= (m + 1.0) * p && m >= 1.0 && p >= 0.0
    ensures g <= 2.0 * p
  {
    ScaleOrder(1.0, m, p);
    assert (m + 1.0) * p == m * p + p <= (2.0 * p) * m;
    if g > 2.0 * p { StrictScale(2.0 * p, g, m); }
  }

  predicate Joined(a: CommandLog, b: CommandLog, lim: Limits) {
    a.command.Batch? && b.command.Batch? && a.era == b.era ==> SmallStep(a.command.q, b.command.q, b.n, lim)
  }

  predicate Smooth(c: seq<CommandLog>, lim: Limits) {
    forall i :: 0 <= i < |c| - 1 ==> Joined(c[i], c[i + 1], lim)
  }

  lemma SmoothAppend(c: seq<CommandLog>, x: CommandLog, lim: Limits)
    requires Smooth(c, lim) && (c != [] ==> Joined(c[|c| - 1], x, lim))
    ensures Smooth(c + [x], lim)
  {
    var d := c + [x];
    forall i | 0 <= i < |d| - 1 ensures Joined(d[i], d[i + 1], lim) {
      if i == |c| - 1 { assert d[i] == c[|c| - 1]; } else { assert Joined(c[i], c[i + 1], lim); }
    }
  }

  /** Inside a segment. */
  lemma SegmentStepIsSmall(seg: JointSegment, lim: Limits)
    requires lim.Valid() && seg.n >= 2 && Covers(seg.q0, seg.q1, lim, seg.n)
    ensures SmallStep(Lerp(seg), Lerp(seg.(step := seg.step + 1)), seg.n, lim)
  {
    var x, y := Lerp(seg), Lerp(seg.(step := seg.step + 1));
    forall i: nat | i < 7 ensures AxisStep(x, y, seg.n, lim, i) {
      LerpAdvance(seg, i);
      assert AxisCovered(seg.q0, seg.q1, lim, seg.n, i);
    }
  }

  /** From one segment to the next, which repeats the last command. */
  lemma StandingStillIsSmall(x: Keyframe, n: int, lim: Limits)
    requires lim.Valid() && n >= 2
    ensures SmallStep(x, x, n, lim)
  {
    forall i: nat | i < 7 ensures AxisStep(x, x, n, lim, i) {
      ScaleOrder(0.0, n as real, lim.Pace(i));
    }
  }

  predicate Tracked(s: System, lim: Limits) {
    var d, c := s.driver, s.hist.commands;
    && Smooth(c, lim)
    && (c != [] ==> c[|c| - 1].era <= s.hist.era)
    && (d.seg.active ==>
          && s.pc.CycleStart? && 1 <= d.seg.step < d.seg.n && Covers(d.seg.q0, d.seg.q1, lim, d.seg.n)
          && d.lastQ1 == Some(d.seg.q1) && c != []
          && c[|c| - 1].command == Batch(Lerp(d.seg.(step := d.seg.step - 1))) && c[|c| - 1].era == s.hist.era)
    && (d.lastQ1.Some? && !d.seg.active ==>
          c != [] && c[|c| - 1].command == Batch(d.lastQ1.value) && c[|c| - 1].era == s.hist.era)
    && (d.lastQ1.None? ==> c == [] || c[|c| - 1].command.Legacy? || c[|c| - 1].era < s.hist.era)
    && (d.lastQ1.Some? ==> d.batchMode)
    && (s.pc.ReadTarget? ==> !d.batchMode)
  }

  lemma TickStaysTracked(s: System, lim: Limits)
    requires lim.Valid() && Tracked(s, lim) && s.pc.CycleStart? && !s.stopFlag && s.driver.seg.active
    ensures Tracked(StartOfCycle(s), lim)
  {
    var seg := s.driver.seg;
    SegmentStepIsSmall(seg.(step := seg.step - 1), lim);
    assert seg.(step := seg.step - 1).(step := seg.step - 1 + 1) == seg;
    SmoothAppend(s.hist.commands, CommandLog(Batch(Lerp(seg)), seg.n, s.hist.era, s.hist.session), lim);
    LerpEnds(seg);
    var s' := StartOfCycle(s);
    assert s'.driver.seg.(step := s'.driver.seg.step - 1, active := true) == seg;
    assert Lerp(s'.driver.seg.(step := s'.driver.seg.step - 1)) == Lerp(seg);
  }

  lemma StartStaysTracked(s: System, goal: Keyframe, seqLog: nat, reading: Keyframe, lim: Limits)
    requires lim.Valid() && Tracked(s, lim) && s.pc == SizeForLog(goal, seqLog)
    ensures Tracked(StartBatchSegment(s, goal, seqLog, reading, lim), lim)
  {
    var seg := Started(Reference(s.driver, reading), goal, lim, 2);
    LerpEnds(seg);
    BlendStepsLeast(seg.q0, seg.q1, lim, seg.n);
    StandingStillIsSmall(seg.q0, seg.n, lim);
    var c, x := s.hist.commands, CommandLog(Batch(Lerp(seg)), seg.n, s.hist.era, s.hist.session);
    assert c != [] ==> Joined(c[|c| - 1], x, lim);
    SmoothAppend(c, x, lim);
    var s' := StartBatchSegment(s, goal, seqLog, reading, lim);
    assert Lerp(s'.driver.seg.(step := 0)) == Lerp(seg);
  }

  lemma LegacyStaysTracked(s: System, reading: Keyframe, lim: Limits)
    requires lim.Valid() && Tracked(s, lim) && s.pc.ReadTarget?
    ensures Tracked(LegacyStep(s, reading, lim), lim)
  {
    var (d, command) := LegacyCycle(s.driver, s.targetQ, reading, lim);
    if command.Some? {
      SmoothAppend(s.hist.commands, CommandLog(command.value, 1, s.hist.era, s.hist.session), lim);
    }
  }

  lemma CycleStartStaysTracked(s: System, lim: Limits)
    requires lim.Valid() && Tracked(s, lim) && s.pc.CycleStart?
    ensures Tracked(StartOfCycle(s), lim)
  {
    if !s.stopFlag && s.driver.seg.active { TickStaysTracked(s, lim); }
    else { assert StartOfCycle(s).hist.commands == s.hist.commands; }
  }

  lemma DriverStaysTracked(s: System, reading: Keyframe, lim: Limits)
    requires lim.Valid() && Tracked(s, lim)
    ensures Tracked(StepDriver(s, reading, lim), lim)
  {
    match s.pc
    case CycleStart => CycleStartStaysTracked(s, lim);
    case SizeForLog(goal, seqLog) => StartStaysTracked(s, goal, seqLog, reading, lim);
    case ReadTarget => LegacyStaysTracked(s, reading, lim);
    case _ => SilentStepStaysTracked(s, reading, lim);
  }

  /** The steps that command nothing. */
  lemma SilentStepStaysTracked(s: System, reading: Keyframe, lim: Limits)
    requires lim.Valid() && Tracked(s, lim) && !s.pc.CycleStart? && !s.pc.SizeForLog? && !s.pc.ReadTarget?
    ensures Tracked(StepDriver(s, reading, lim), lim)
  {
    assert StepDriver(s, reading, lim).hist.commands == s.hist.commands;
  }

  lemma StepStaysTracked(s: System, a: Action, lim: Limits)
    requires lim.Valid() && Tracked(s, lim)
    ensures Tracked(Apply(s, a, lim), lim)
  {
    if a.DriverStep? {
      DriverStaysTracked(s, a.reading, lim);
    } else {
      assert Apply(s, a, lim).hist.commands == s.hist.commands;
    }
  }

  // ---------------------------------------------------------------- batch and legacy commands

  /** Within a session no legacy command follows a batch command. */
  predicate OneWay(c: seq<CommandLog>) {
    forall i, j :: 0 <= i < j < |c| && c[i].session == c[j].session && c[i].command.Batch? ==> c[j].command.Batch?
  }

  predicate Moded(s: System) {
    var c := s.hist.commands;
    && OneWay(c)
    && (forall i :: 0 <= i < |c| ==> c[i].session <= s.hist.session)
    && (!s.driver.batchMode ==> forall i :: 0 <= i < |c| && c[i].session == s.hist.session ==> c[i].command.Legacy?)
    && (s.driver.seg.active ==> s.driver.batchMode)
    && (s.pc.ReadTarget? ==> !s.driver.batchMode)
  }

  lemma OneWayAppend(c: seq<CommandLog>, x: CommandLog)
    requires OneWay(c)
    requires x.command.Batch? || forall i :: 0 <= i < |c| && c[i].session == x.session ==> c[i].command.Legacy?
    ensures OneWay(c + [x])
  {
  }

  lemma NoteStaysModed(s: System, t: System, x: CommandLog)
    requires Moded(s) && t.hist.commands == s.hist.commands + [x] && t.hist.session == s.hist.session == x.session
    requires if x.command.Batch? then t.driver.batchMode
             else t.driver.batchMode == s.driver.batchMode == false && t.driver.seg == s.driver.seg
    requires !t.pc.ReadTarget?
    ensures Moded(t)
  {
    OneWayAppend(s.hist.commands, x);
  }

  lemma LegacyStaysModed(s: System, reading: Keyframe, lim: Limits)
    requires lim.Valid() && Moded(s) && s.pc.ReadTarget?
    ensures Moded(LegacyStep(s, reading, lim))
  {
    var (d, command) := LegacyCycle(s.driver, s.targetQ, reading, lim);
    assert d.batchMode == s.driver.batchMode && d.seg == s.driver.seg;
    if command.Some? {
      NoteStaysModed(s, LegacyStep(s, reading, lim), CommandLog(command.value, 1, s.hist.era, s.hist.session));
    }
  }

  lemma CycleStartStaysModed(s: System)
    requires Moded(s)
    ensures Moded(StartOfCycle(s))
  {
    if !s.stopFlag && s.driver.seg.active {
      NoteStaysModed(s, StartOfCycle(s),
                     CommandLog(Batch(Lerp(s.driver.seg)), s.driver.seg.n, s.hist.era, s.hist.session));
    }
  }

  lemma StartStaysModed(s: System, goal: Keyframe, seqLog: nat, reading: Keyframe, lim: Limits)
    requires lim.Valid() && Moded(s)
    ensures Moded(StartBatchSegment(s, goal, seqLog, reading, lim))
  {
    var t := StartBatchSegment(s, goal, seqLog, reading, lim);
    NoteStaysModed(s, t, t.hist.commands[|s.hist.commands|]);
  }

  lemma DriverStaysModed(s: System, reading: Keyframe, lim: Limits)
    requires lim.Valid() && Moded(s)
    ensures Moded(StepDriver(s, reading, lim))
  {
    match s.pc
    case CycleStart => CycleStartStaysModed(s);
    case SizeForLog(goal, seqLog) => StartStaysModed(s, goal, seqLog, reading, lim);
    case ReadTarget => LegacyStaysModed(s, reading, lim);
    case _ => assert StepDriver(s, reading, lim).hist.commands == s.hist.commands;
  }

  lemma StepStaysModed(s: System, a: Action, lim: Limits)
    requires lim.Valid() && Moded(s)
    ensures Moded(Apply(s, a, lim))
  {
    if a.DriverStep? {
      DriverStaysModed(s, a.reading, lim);
    } else {
      assert Apply(s, a, lim).hist.commands == s.hist.commands;
    }
  }

  // ---------------------------------------------------------------- consecutive segments

  /** The next segment of an era starts where the last one ended, and its end was within the
      thresholds of that point. */
  predicate Chained(a: SegmentLog, b: SegmentLog, lim: Limits) {
    a.era == b.era ==> b.q0 == a.q1 && !Exceeds(a.q1, b.q1, lim)
  }

  predicate Linked(s: System, lim: Limits) {
    var d, g := s.driver, s.hist.segments;
    && (forall i :: 0 <= i < |g| - 1 ==> Chained(g[i], g[i + 1], lim))
    && (forall i :: 0 <= i < |g| ==> g[i].n >= 2 && Covers(g[i].q0, g[i].q1, lim, g[i].n))
    && (g != [] ==> g[|g| - 1].era <= s.hist.era)
    && (d.lastQ1.Some? ==> g != [] && g[|g| - 1].q1 == d.lastQ1.value && g[|g| - 1].era == s.hist.era)
    && (d.lastQ1.None? ==> g == [] || g[|g| - 1].era < s.hist.era)
    && (s.pc.SeqForLog? && d.lastQ1.Some? ==> !Exceeds(d.lastQ1.value, s.pc.goal, lim))
    && (s.pc.SizeForLog? && d.lastQ1.Some? ==> !Exceeds(d.lastQ1.value, s.pc.goal, lim))
  }

  lemma StartStaysLinked(s: System, goal: Keyframe, seqLog: nat, reading: Keyframe, lim: Limits)
    requires lim.Valid() && Linked(s, lim) && s.pc == SizeForLog(goal, seqLog)
    ensures Linked(StartBatchSegment(s, goal, seqLog, reading, lim), lim)
  {
    var seg := Started(Reference(s.driver, reading), goal, lim, 2);
    BlendStepsLeast(seg.q0, seg.q1, lim, seg.n);
    var g := s.hist.segments;
    var g' := StartBatchSegment(s, goal, seqLog, reading, lim).hist.segments;
    assert g' == g + [g'[|g|]];
    forall i | 0 <= i < |g'| - 1 ensures Chained(g'[i], g'[i + 1], lim) {
      if i < |g| - 1 { assert Chained(g[i], g[i + 1], lim); }
    }
  }

  lemma KeptSegmentsStayLinked(s: System, t: System, lim: Limits)
    requires lim.Valid() && Linked(s, lim) && t.hist.segments == s.hist.segments
    requires (t.driver.lastQ1 == s.driver.lastQ1 && t.hist.era == s.hist.era)
             || (t.driver.lastQ1 == None && t.hist.era > s.hist.era)
    requires t.pc.SeqForLog? && t.driver.lastQ1.Some? ==> !Exceeds(t.driver.lastQ1.value, t.pc.goal, lim)
    requires t.pc.SizeForLog? && t.driver.lastQ1.Some? ==> !Exceeds(t.driver.lastQ1.value, t.pc.goal, lim)
    ensures Linked(t, lim)
  {
  }

  lemma CycleStartStaysLinked(s: System, lim: Limits)
    requires lim.Valid() && Linked(s, lim)
    ensures Linked(StartOfCycle(s), lim)
  {
    KeptSegmentsStayLinked(s, StartOfCycle(s), lim);
  }

  lemma PeekStaysLinked(s: System, attempt: nat, reading: Keyframe, lim: Limits)
    requires lim.Valid() && Linked(s, lim)
    ensures Linked(PeekFront(s, attempt, reading, lim), lim)
  {
    KeptSegmentsStayLinked(s, PeekFront(s, attempt, reading, lim), lim);
  }

  lemma LegacyStaysLinked(s: System, reading: Keyframe, lim: Limits)
    requires lim.Valid() && Linked(s, lim)
    ensures Linked(LegacyStep(s, reading, lim), lim)
  {
    KeptSegmentsStayLinked(s, LegacyStep(s, reading, lim), lim);
  }

  lemma DriverStaysLinked(s: System, reading: Keyframe, lim: Limits)
    requires lim.Valid() && Linked(s, lim)
    ensures Linked(StepDriver(s, reading, lim), lim)
  {
    match s.pc
    case SizeForLog(goal, seqLog) => StartStaysLinked(s, goal, seqLog, reading, lim);
    case CycleStart => CycleStartStaysLinked(s, lim);
    case Peek(attempt) => PeekStaysLinked(s, attempt, reading, lim);
    case ReadTarget => LegacyStaysLinked(s, reading, lim);
    case _ => SilentStepStaysLinked(s, reading, lim);
  }

  lemma SilentStepStaysLinked(s: System, reading: Keyframe, lim: Limits)
    requires lim.Valid() && Linked(s, lim)
    requires !s.pc.CycleStart? && !s.pc.SizeForLog? && !s.pc.ReadTarget? && !s.pc.Peek?
    ensures Linked(StepDriver(s, reading, lim), lim)
  {
    KeptSegmentsStayLinked(s, StepDriver(s, reading, lim), lim);
  }

  lemma StepStaysLinked(s: System, a: Action, lim: Limits)
    requires lim.Valid() && Linked(s, lim)
    ensures Linked(Apply(s, a, lim), lim)
  {
    if a.DriverStep? {
      DriverStaysLinked(s, a.reading, lim);
    } else {
      KeptSegmentsStayLinked(s, Apply(s, a, lim), lim);
    }
  }

  // ---------------------------------------------------------------- a subsequence of what was accepted

  /** Segments are started for accepted keyframes only, each at most once and in order. */
  predicate Ascending(g: seq<SegmentLog>, accepted: seq<Keyframe>) {
    && (forall i :: 0 <= i < |g| ==> g[i].id < |accepted| && accepted[g[i].id] == g[i].q1)
    && (forall i :: 0 <= i < |g| - 1 ==> g[i].id < g[i + 1].id)
  }

  predicate Numbered(s: System) {
    var g, h := s.hist.segments, s.hist;
    && Booked(s) && Ascending(g, h.accepted)
    && (s.driver.seg.active ==> s.pc.CycleStart?)
    && (g != [] ==> g[|g| - 1].id <= |h.fates|)
    && (g != [] && !s.driver.seg.active && !s.pc.PopFinished? && !s.pc.StopClearBatch? ==> g[|g| - 1].id < |h.fates|)
    && (s.pc.SeqForLog? || s.pc.SizeForLog? ==>
          && h.peeked <= |h.fates| && h.peeked < |h.accepted| && h.accepted[h.peeked] == s.pc.goal
          && (g != [] ==> g[|g| - 1].id < h.peeked))
  }

  lemma ReplaceStaysNumbered(s: System, batch: seq<Keyframe>)
    requires Numbered(s)
    ensures Numbered(Replace(s, batch)) && |Replace(s, batch).hist.fates| == |s.hist.accepted|
  {
  }

  lemma StartStaysNumbered(s: System, goal: Keyframe, seqLog: nat, reading: Keyframe, lim: Limits)
    requires lim.Valid() && Numbered(s) && s.pc == SizeForLog(goal, seqLog)
    ensures Numbered(StartBatchSegment(s, goal, seqLog, reading, lim))
  {
    var t := StartBatchSegment(s, goal, seqLog, reading, lim);
    var g, x := s.hist.segments, t.hist.segments[|s.hist.segments|];
    assert t.hist.segments == g + [x] && x.q1 == goal && x.id == s.hist.peeked;
  }

  lemma PopStaysNumbered(s: System, claim: Fate, next: Pc)
    requires Numbered(s) && !s.driver.seg.active && (s.pc.PopFinished? || s.pc.SkipPop?)
    requires next.CycleStart? || next.Peek? || next.Probe?
    ensures Numbered(Pop(s, claim).(pc := next))
  {
    PopKeepsBooks(s, claim);
    assert Pop(s, claim).hist.segments == s.hist.segments;
  }

  lemma CycleStartStaysNumbered(s: System)
    requires Numbered(s) && s.pc.CycleStart?
    ensures Numbered(StartOfCycle(s))
  {
    assert StartOfCycle(s).hist.segments == s.hist.segments;
  }

  lemma PeekStaysNumbered(s: System, attempt: nat, reading: Keyframe, lim: Limits)
    requires lim.Valid() && Numbered(s) && s.pc == Peek(attempt)
    ensures Numbered(PeekFront(s, attempt, reading, lim))
  {
    assert PeekFront(s, attempt, reading, lim).hist.segments == s.hist.segments;
  }

  lemma LegacyStaysNumbered(s: System, reading: Keyframe, lim: Limits)
    requires lim.Valid() && Numbered(s) && s.pc.ReadTarget?
    ensures Numbered(LegacyStep(s, reading, lim))
  {
    assert LegacyStep(s, reading, lim).driver.seg == s.driver.seg;
  }

  lemma DriverStaysNumbered(s: System, reading: Keyframe, lim: Limits)
    requires lim.Valid() && Numbered(s)
    ensures Numbered(StepDriver(s, reading, lim))
  {
    match s.pc
    case StopClearBatch => ReplaceStaysNumbered(s, []);
    case SizeForLog(goal, seqLog) => StartStaysNumbered(s, goal, seqLog, reading, lim);
    case PopFinished => PopStaysNumbered(s, Executed(LastCommand(s.hist)), CycleStart);
    case SkipPop(attempt, seen, ref, at) =>
      PopStaysNumbered(s, Skipped(seen, ref, at, s.hist.era),
                       if attempt + 1 < MAX_SKIPS then Peek(attempt + 1) else Probe);
    case ReadTarget => LegacyStaysNumbered(s, reading, lim);
    case CycleStart => CycleStartStaysNumbered(s);
    case Peek(attempt) => PeekStaysNumbered(s, attempt, reading, lim);
    case _ => SilentStepStaysNumbered(s, reading, lim);
  }

  lemma SilentStepStaysNumbered(s: System, reading: Keyframe, lim: Limits)
    requires lim.Valid() && Numbered(s)
    requires s.pc.Probe? || s.pc.SeqForLog? || s.pc.StopClearTarget? || s.pc.Stopped?
    ensures Numbered(StepDriver(s, reading, lim))
  {
  }

  lemma CommitStaysNumbered(s: System, i: nat, lim: Limits)
    requires lim.Valid() && Numbered(s)
    ensures Numbered(Apply(s, ServerCommit(i), lim))
  {
    if i < |s.wire| && s.wire[i].request.Rows? { ReplaceStaysNumbered(s, ParseBatch(s.wire[i].request.rows)); }
  }

  lemma StepStaysNumbered(s: System, a: Action, lim: Limits)
    requires lim.Valid() && Numbered(s)
    ensures Numbered(Apply(s, a, lim))
  {
    match a
    case DriverStep(reading) => DriverStaysNumbered(s, reading, lim);
    case ServerCommit(i) => CommitStaysNumbered(s, i, lim);
    case CliClearBatch => ReplaceStaysNumbered(s, []);
    case _ =>
      assert Apply(s, a, lim).hist.segments == s.hist.segments;
  }

  // ---------------------------------------------------------------- every run

  lemma {:induction false} RunStaysSafe(s: System, actions: seq<Action>, lim: Limits)
    requires lim.Valid() && Tracked(s, lim) && Moded(s) && Linked(s, lim) && Numbered(s)
    ensures var t := Exec(s, actions, lim); Tracked(t, lim) && Moded(t) && Linked(t, lim) && Numbered(t)
    decreases |actions|
  {
    if actions != [] {
      StepStaysTracked(s, actions[0], lim);
      StepStaysModed(s, actions[0], lim);
      StepStaysLinked(s, actions[0], lim);
      StepStaysNumbered(s, actions[0], lim);
      RunStaysSafe(Apply(s, actions[0], lim), actions[1..], lim);
    }
  }

  /** Between two changes of the adopted commit number the trajectory is continuous: consecutive
      batch commands of an era differ on every axis by at most n/(n-1), hence at most twice, the
      nominal pace of that axis. */
  lemma CommandsAreContinuous(actions: seq<Action>, lim: Limits, k: nat, i: nat)
    requires lim.Valid() && i < 7
    requires var c := Exec(INITIAL, actions, lim).hist.commands;
             k + 1 < |c| && c[k].command.Batch? && c[k + 1].command.Batch? && c[k].era == c[k + 1].era
    ensures var c := Exec(INITIAL, actions, lim).hist.commands;
            && SmallStep(c[k].command.q, c[k + 1].command.q, c[k + 1].n, lim)
            && Gap(c[k].command.q, c[k + 1].command.q, i) <= 2.0 * lim.Pace(i)
  {
    RunStaysSafe(INITIAL, actions, lim);
    var c := Exec(INITIAL, actions, lim).hist.commands;
    assert Joined(c[k], c[k + 1], lim);
    SmallStepIsTwicePace(c[k].command.q, c[k + 1].command.q, c[k + 1].n, lim, i);
  }

  /** In the parameters' own units: a period of 1/500 s between two such commands moves every arm joint by
      at most two periods at `armVel` and the gripper by at most two at `gripVel`. */
  lemma CommandsKeepTwiceTheSpeed(actions: seq<Action>, lim: Limits, k: nat)
    requires lim.Valid()
    requires var c := Exec(INITIAL, actions, lim).hist.commands;
             k + 1 < |c| && c[k].command.Batch? && c[k + 1].command.Batch? && c[k].era == c[k + 1].era
    ensures var c := Exec(INITIAL, actions, lim).hist.commands;
            Within(c[k].command.q, c[k + 1].command.q, 2.0 * lim.armVel / 500.0, 2.0 * lim.gripVel / 500.0)
  {
    var c := Exec(INITIAL, actions, lim).hist.commands;
    var x, y := c[k].command.q, c[k + 1].command.q;
    forall i: nat | i < 7 ensures AxisCovered(x, y, lim, 2, i) {
      CommandsAreContinuous(actions, lim, k, i);
    }
    CoversInTime(x, y, lim, 2);
  }

  /** Executed keyframes are accepted keyframes in the order of acceptance, none twice; a whole
      segment stays within n times the pace of each axis; and inside an era every segment starts on
      the previous goal, whose distance to the next goal respects the thresholds. */
  lemma SegmentsFollowAcceptance(actions: seq<Action>, lim: Limits)
    requires lim.Valid()
    ensures var h := Exec(INITIAL, actions, lim).hist; var g := h.segments;
            && Ascending(g, h.accepted)
            && (forall i :: 0 <= i < |g| ==> InTime(g[i].q0, g[i].q1, lim, g[i].n))
            && (forall i :: 0 <= i < |g| - 1 && g[i].era == g[i + 1].era ==>
                  g[i + 1].q0 == g[i].q1 && Within(g[i + 1].q0, g[i + 1].q1, lim.armDelta, lim.gripDelta))
  {
    RunStaysSafe(INITIAL, actions, lim);
    var g := Exec(INITIAL, actions, lim).hist.segments;
    forall i | 0 <= i < |g| ensures InTime(g[i].q0, g[i].q1, lim, g[i].n) {
      CoversInTime(g[i].q0, g[i].q1, lim, g[i].n);
    }
    forall i | 0 <= i < |g| - 1 && g[i].era == g[i + 1].era
      ensures g[i + 1].q0 == g[i].q1 && Within(g[i + 1].q0, g[i + 1].q1, lim.armDelta, lim.gripDelta)
    {
      assert Chained(g[i], g[i + 1], lim);
      ExceedsUnlessWithin(g[i + 1].q0, g[i + 1].q1, lim);
    }
  }

  /** Once a session has issued a batch command it issues no legacy command. */
  lemma BatchModeIsFinal(actions: seq<Action>, lim: Limits)
    requires lim.Valid()
    ensures OneWay(Exec(INITIAL, actions, lim).hist.commands)
  {
    RunStaysSafe(INITIAL, actions, lim);
  }

  /** A finished segment ends exactly on its keyframe: while no segment runs and the era has a last
      goal, that goal is the last command. */
  lemma SegmentsEndOnTheirGoal(actions: seq<Action>, lim: Limits)
    requires lim.Valid()
    ensures var s := Exec(INITIAL, actions, lim);
            s.driver.lastQ1.Some? && !s.driver.seg.active ==> LastCommand(s.hist) == s.driver.lastQ1.value
  {
    RunStaysSafe(INITIAL, actions, lim);
  }
}
