/** What becomes of every keyframe of a client that waits (a10_policy_tcp_plan.cpp:269-388,
    client/robot_tcp_client.py:120-154): executed, or skipped for a reason that can be told. */
module PolicyPromise {
  import opened Basics
  import opened Keyframes
  import opened PolicyDriver
  import opened PolicyProtocol
  import opened PolicyConservation
  import opened PolicyMotion

  // ---------------------------------------------------------------- what a skipped keyframe was compared with

  /** The last segment started for a keyframe accepted before number `i`. */
  function LastBefore(g: seq<SegmentLog>, i: nat): Option<SegmentLog> {
    if g == [] then None
    else var n := |g| - 1; if g[n].id < i then Some(g[n]) else LastBefore(g[..n], i)
  }

  lemma {:induction false} LastBeforeIsLatest(g: seq<SegmentLog>, i: nat)
    requires forall j, k :: 0 <= j < k < |g| ==> g[j].id < g[k].id
    ensures match LastBefore(g, i)
            case None => forall j :: 0 <= j < |g| ==> g[j].id >= i
            case Some(x) => exists k ::
              0 <= k < |g| && g[k] == x && x.id < i && forall j :: k < j < |g| ==> g[j].id >= i
  {
    if g != [] {
      var n := |g| - 1;
      if g[n].id >= i {
        LastBeforeIsLatest(g[..n], i);
        if LastBefore(g, i).Some? {
          var k :| 0 <= k < n && g[..n][k] == LastBefore(g, i).value && forall j :: k < j < n ==> g[..n][j].id >= i;
          assert g[k] == LastBefore(g, i).value;
          forall j | k < j < |g| ensures g[j].id >= i { if j < n { assert g[..n][j].id >= i; } }
        }
      }
    }
  }

  /** The last goal started before keyframe number `i` in its era, and the joint reading when there is none. */
  function ComparedWith(h: History, i: nat): Keyframe
    requires i < |h.fates| && h.fates[i].Skipped?
  {
    match LastBefore(h.segments, i)
    case None => h.fates[i].reading
    case Some(g) => if g.era == h.fates[i].era then g.q1 else h.fates[i].reading
  }

  predicate Reasoned(h: History, i: nat)
    requires i < |h.fates|
  {
    h.fates[i].Skipped? ==> h.fates[i].ref == ComparedWith(h, i)
  }

  predicate Judged(s: System) {
    var h := s.hist;
    && (forall i :: 0 <= i < |h.fates| ==> Reasoned(h, i))
    && (s.pc.SkipPop? ==> s.pc.ref == Reference(s.driver, s.pc.reading))
    && (s.pc.SeqForLog? || s.pc.SizeForLog? ==>
          forall i :: 0 <= i < |h.fates| && h.fates[i].Skipped? ==> i < h.peeked)
  }

  lemma MoreFates(h: History, h': History)
    requires h'.segments == h.segments && h.fates <= h'.fates
    requires forall i :: 0 <= i < |h.fates| ==> Reasoned(h, i)
    requires forall i :: |h.fates| <= i < |h'.fates| ==> Reasoned(h', i)
    ensures forall i :: 0 <= i < |h'.fates| ==> Reasoned(h', i)
  {
    forall i | 0 <= i < |h'.fates| ensures Reasoned(h', i) {
      if i < |h.fates| { assert Reasoned(h, i) && h'.fates[i] == h.fates[i]; }
    }
  }

  lemma ReplaceStaysJudged(s: System, batch: seq<Keyframe>)
    requires Judged(s)
    ensures Judged(Replace(s, batch))
  {
    MoreFates(s.hist, Replace(s, batch).hist);
  }

  lemma SkipStaysJudged(s: System, lim: Limits, next: Pc)
    requires Judged(s) && Linked(s, lim) && Numbered(s) && s.pc.SkipPop? && (next.Peek? || next.Probe?)
    ensures Judged(Pop(s, Skipped(s.pc.seen, s.pc.ref, s.pc.reading, s.hist.era)).(pc := next))
  {
    var h := s.hist;
    var t := Pop(s, Skipped(s.pc.seen, s.pc.ref, s.pc.reading, h.era));
    if s.queue != [] {
      var g, n := h.segments, |h.fates|;
      if g != [] { assert LastBefore(g, n) == Some(g[|g| - 1]); }
      assert t.hist.fates[n].Skipped? && Reasoned(t.hist, n);
    }
    MoreFates(h, t.hist);
  }

  lemma PopStaysJudged(s: System)
    requires Judged(s)
    ensures Judged(Pop(s, Executed(LastCommand(s.hist))).(pc := CycleStart))
  {
    MoreFates(s.hist, Pop(s, Executed(LastCommand(s.hist))).hist);
  }

  lemma StartStaysJudged(s: System, goal: Keyframe, seqLog: nat, reading: Keyframe, lim: Limits)
    requires lim.Valid() && Judged(s) && s.pc == SizeForLog(goal, seqLog)
    ensures Judged(StartBatchSegment(s, goal, seqLog, reading, lim))
  {
    var t := StartBatchSegment(s, goal, seqLog, reading, lim);
    var g, g' := s.hist.segments, t.hist.segments;
    assert g'[..|g|] == g && g'[|g|].id == s.hist.peeked;
    forall i | 0 <= i < |t.hist.fates| ensures Reasoned(t.hist, i) {
      assert Reasoned(s.hist, i);
    }
  }

  lemma DriverStaysJudged(s: System, reading: Keyframe, lim: Limits)
    requires lim.Valid() && Judged(s) && Linked(s, lim) && Numbered(s)
    ensures Judged(StepDriver(s, reading, lim))
  {
    match s.pc
    case PopFinished => PopStaysJudged(s);
    case SkipPop(attempt, _, _, _) =>
      SkipStaysJudged(s, lim, if attempt + 1 < MAX_SKIPS then Peek(attempt + 1) else Probe);
    case SizeForLog(goal, seqLog) => StartStaysJudged(s, goal, seqLog, reading, lim);
    case StopClearBatch => ReplaceStaysJudged(s, []);
    case _ => MoreFates(s.hist, StepDriver(s, reading, lim).hist);
  }

  lemma StepStaysJudged(s: System, a: Action, lim: Limits)
    requires lim.Valid() && Judged(s) && Linked(s, lim) && Numbered(s)
    ensures Judged(Apply(s, a, lim))
  {
    match a
    case DriverStep(reading) => DriverStaysJudged(s, reading, lim);
    case _ => MoreFates(s.hist, Apply(s, a, lim).hist);
  }

  lemma {:induction false} RunStaysJudged(s: System, actions: seq<Action>, lim: Limits)
    requires lim.Valid() && Judged(s) && Linked(s, lim) && Numbered(s)
    ensures Judged(Exec(s, actions, lim))
    decreases |actions|
  {
    if actions != [] {
      StepStaysJudged(s, actions[0], lim);
      StepStaysLinked(s, actions[0], lim);
      StepStaysNumbered(s, actions[0], lim);
      RunStaysJudged(Apply(s, actions[0], lim), actions[1..], lim);
    }
  }

  /** In every run, every keyframe skipped was compared with the last goal started before it in its era, or
      with the joint reading of that moment when the era had started none. */
  lemma SkipsAreReasoned(actions: seq<Action>, lim: Limits, i: nat)
    requires lim.Valid() && i < |Exec(INITIAL, actions, lim).hist.fates|
    ensures Reasoned(Exec(INITIAL, actions, lim).hist, i)
  {
    RunStaysJudged(INITIAL, actions, lim);
  }

  // ---------------------------------------------------------------- the promise

  /** Keyframe number `i` was reached exactly by the last command of its segment, or it was over a threshold
      from the point a keyframe at its place is compared with. */
  predicate AccountedFor(h: History, i: nat, lim: Limits)
    requires i < |h.fates| && i < |h.accepted|
  {
    match h.fates[i]
    case Executed(last) => last == h.accepted[i]
    case Skipped(seen, _, _, _) => seen == h.accepted[i] && Exceeds(ComparedWith(h, i), h.accepted[i], lim)
    case Dropped => false
  }

  /** In every orderly run each keyframe that left the queue left it once, in order, and is accounted for. */
  lemma OrderlyRunsAccountForAll(actions: seq<Action>, lim: Limits)
    requires lim.Valid() && Orderly(INITIAL, actions, lim)
    ensures var s := Exec(INITIAL, actions, lim);
            Booked(s) && forall i :: 0 <= i < |s.hist.fates| ==> AccountedFor(s.hist, i, lim)
  {
    OrderlyRunsAreFaithful(INITIAL, actions, lim);
    RunStaysJudged(INITIAL, actions, lim);
    var h := Exec(INITIAL, actions, lim).hist;
    forall i | 0 <= i < |h.fates| ensures AccountedFor(h, i, lim) {
      assert Truthful(h.fates[i], h.accepted[i], lim) && Reasoned(h, i);
    }
  }

  /** The protocol's promise: in every interleaving in which the client sends only after reading
      `remaining == 0` and nobody stops the plan, every accepted keyframe is accounted for or still waits
      in order; and when the client holds a `remaining == 0`, all of them have been dealt with and the
      driver is neither moving along a batch segment nor about to pop or to start one. */
  lemma DisciplinedClientLosesNothing(actions: seq<Action>, lim: Limits)
    requires lim.Valid() && AllDisciplined(actions)
    ensures var s := Exec(INITIAL, actions, lim);
            && Booked(s) && (forall i :: 0 <= i < |s.hist.fates| ==> AccountedFor(s.hist, i, lim))
            && (s.client == GotStatus(0) ==>
                  |s.hist.fates| == |s.hist.accepted| && !s.driver.seg.active && Believed(s).None?)
  {
    DisciplinedRunsAreOrderly(INITIAL, actions, lim);
    OrderlyRunsAreFaithful(INITIAL, actions, lim);
    OrderlyRunsAccountForAll(actions, lim);
  }
}
