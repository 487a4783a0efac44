/** What becomes of every accepted keyframe. */
module PolicyConservation {
  import opened Basics
  import opened Keyframes
  import opened PolicyServer
  import opened PolicyProtocol

  // ---------------------------------------------------------------- bookkeeping, in every run

  /** The first |fates| accepted keyframes have left the queue, one fate each; the others are the
      queue, in order. */
  predicate Booked(s: System) {
    |s.hist.fates| <= |s.hist.accepted| && s.queue == s.hist.accepted[|s.hist.fates|..]
  }

  lemma PopKeepsBooks(s: System, claim: Fate)
    requires Booked(s)
    ensures Booked(Pop(s, claim))
  {
  }

  lemma ReplaceKeepsBooks(s: System, batch: seq<Keyframe>)
    requires Booked(s)
    ensures Booked(Replace(s, batch))
  {
  }

  lemma StepKeepsBooks(s: System, a: Action, lim: Limits)
    requires lim.Valid() && Booked(s)
    ensures Booked(Apply(s, a, lim))
  {
    match a
    case DriverStep(reading) =>
      if s.pc.SkipPop? { PopKeepsBooks(s, Skipped(s.pc.seen, s.pc.ref, s.pc.reading, s.hist.era)); }
      if s.pc.PopFinished? { PopKeepsBooks(s, Executed(LastCommand(s.hist))); }
      if s.pc.StopClearBatch? { ReplaceKeepsBooks(s, []); }
    case ServerCommit(i) =>
      if i < |s.wire| && s.wire[i].request.Rows? { ReplaceKeepsBooks(s, ParseBatch(s.wire[i].request.rows)); }
    case CliClearBatch => ReplaceKeepsBooks(s, []);
    case _ =>
  }

  lemma {:induction false} RunKeepsBooks(s: System, actions: seq<Action>, lim: Limits)
    requires lim.Valid() && Booked(s)
    ensures Booked(Exec(s, actions, lim))
    decreases |actions|
  {
    if actions != [] {
      StepKeepsBooks(s, actions[0], lim);
      RunKeepsBooks(Apply(s, actions[0], lim), actions[1..], lim);
    }
  }

  // ---------------------------------------------------------------- nothing is dropped

  predicate NothingDropped(h: History) {
    forall i :: 0 <= i < |h.fates| ==> h.fates[i] != Dropped
  }

  lemma StepDrops(s: System, a: Action, lim: Limits)
    requires lim.Valid()
    ensures s.hist.fates <= Apply(s, a, lim).hist.fates
    ensures NothingDropped(s.hist) ==>
              (NothingDropped(Apply(s, a, lim).hist) <==> (Replaces(s, a) ==> s.queue == []))
  {
    var s' := Apply(s, a, lim);
    var old_, new_ := s.hist.fates, s'.hist.fates;
    if Replaces(s, a) {
      assert new_ == old_ + DroppedFates(|s.queue|);
      if s.queue != [] { assert new_[|old_|] == Dropped; }
    } else {
      assert new_ == old_ || exists f: Fate :: f != Dropped && new_ == old_ + [f];
    }
  }

  lemma {:induction false} DroppedForever(s: System, actions: seq<Action>, lim: Limits)
    requires lim.Valid()
    ensures s.hist.fates <= Exec(s, actions, lim).hist.fates
    decreases |actions|
  {
    if actions != [] {
      StepDrops(s, actions[0], lim);
      DroppedForever(Apply(s, actions[0], lim), actions[1..], lim);
    }
  }

  /** No accepted keyframe is lost exactly when every replace and clear found the queue empty. */
  lemma {:induction false} NothingDroppedIffOrderly(s: System, actions: seq<Action>, lim: Limits)
    requires lim.Valid() && NothingDropped(s.hist)
    ensures NothingDropped(Exec(s, actions, lim).hist) <==> Orderly(s, actions, lim)
    decreases |actions|
  {
    if actions != [] {
      var s' := Apply(s, actions[0], lim);
      StepDrops(s, actions[0], lim);
      if NothingDropped(s'.hist) {
        NothingDroppedIffOrderly(s', actions[1..], lim);
      } else {
        DroppedForever(s', actions[1..], lim);
        var i :| 0 <= i < |s'.hist.fates| && s'.hist.fates[i] == Dropped;
        assert Exec(s', actions[1..], lim).hist.fates[i] == Dropped;
      }
    }
  }

  // ---------------------------------------------------------------- orderly runs

  /** The fate recorded for a keyframe is true of that keyframe. */
  predicate Truthful(f: Fate, q: Keyframe, lim: Limits) {
    match f
    case Executed(last) => last == q
    case Skipped(seen, ref, _, _) => seen == q && Exceeds(ref, q, lim)
    case Dropped => false
  }

  predicate AllTruthful(h: History, lim: Limits) {
    |h.fates| <= |h.accepted| && forall i :: 0 <= i < |h.fates| ==> Truthful(h.fates[i], h.accepted[i], lim)
  }

  /** The keyframe the driver believes to be at the front of the queue. */
  function Believed(s: System): Option<Keyframe> {
    if s.driver.seg.active then Some(s.driver.seg.q1)
    else match s.pc
      case PopFinished => Some(s.driver.seg.q1)
      case SkipPop(_, seen, _, _) => Some(seen)
      case SeqForLog(goal) => Some(goal)
      case SizeForLog(goal, _) => Some(goal)
      case _ => None
  }

  predicate Faithful(s: System, lim: Limits) {
    && Booked(s) && AllTruthful(s.hist, lim)
    && (Believed(s).Some? ==> s.queue != [] && s.queue[0] == Believed(s).value)
    && (s.driver.seg.active ==> s.pc.CycleStart? && 1 <= s.driver.seg.step < s.driver.seg.n)
    && (s.pc.PopFinished? ==> LastCommand(s.hist) == s.driver.seg.q1)
    && (s.pc.SkipPop? ==> Exceeds(s.pc.ref, s.pc.seen, lim))
  }

  lemma PopKeepsTruth(s: System, claim: Fate, lim: Limits)
    requires Booked(s) && AllTruthful(s.hist, lim)
    requires s.queue != [] ==> Truthful(claim, s.queue[0], lim)
    ensures Booked(Pop(s, claim)) && AllTruthful(Pop(s, claim).hist, lim)
  {
  }

  lemma DriverKeepsFaith(s: System, reading: Keyframe, lim: Limits)
    requires lim.Valid() && Faithful(s, lim)
    requires s.pc.StopClearBatch? ==> s.queue == []
    ensures Faithful(StepDriver(s, reading, lim), lim)
  {
    match s.pc
    case CycleStart =>
      if !s.stopFlag && s.driver.seg.active { LerpEnds(s.driver.seg); }
    case PopFinished => PopKeepsTruth(s, Executed(LastCommand(s.hist)), lim);
    case SkipPop(_, seen, ref, at) => PopKeepsTruth(s, Skipped(seen, ref, at, s.hist.era), lim);
    case _ =>
  }

  lemma StepKeepsFaith(s: System, a: Action, lim: Limits)
    requires lim.Valid() && Faithful(s, lim)
    requires Replaces(s, a) ==> s.queue == []
    ensures Faithful(Apply(s, a, lim), lim)
  {
    if a.DriverStep? { DriverKeepsFaith(s, a.reading, lim); }
  }

  /** In an orderly run every accepted keyframe leaves the queue at most once and in order, and each
      one that has left was either reached exactly by the last command of its own segment or was
      over a threshold when it was looked at. */
  lemma {:induction false} OrderlyRunsAreFaithful(s: System, actions: seq<Action>, lim: Limits)
    requires lim.Valid() && Faithful(s, lim) && Orderly(s, actions, lim)
    ensures Faithful(Exec(s, actions, lim), lim)
    decreases |actions|
  {
    if actions != [] {
      StepKeepsFaith(s, actions[0], lim);
      OrderlyRunsAreFaithful(Apply(s, actions[0], lim), actions[1..], lim);
    }
  }

  // ---------------------------------------------------------------- a client that waits

  /** A client that may send knows the queue to be empty. */
  predicate Waits(s: System) {
    && !s.stopFlag && !s.pc.StopClearBatch? && !s.pc.StopClearTarget? && !s.pc.Stopped?
    && match s.client
       case Ready => s.wire == [] && s.queue == []
       case AwaitAck => |s.wire| == 1 && s.wire[0].live && s.queue == []
       case MustPoll => s.wire == []
       case GotStatus(remaining) => s.wire == [] && (remaining == 0 ==> s.queue == [])
  }

  lemma StepKeepsWaiting(s: System, a: Action, lim: Limits)
    requires lim.Valid() && Waits(s) && Disciplined(a)
    ensures Waits(Apply(s, a, lim))
    ensures Replaces(s, a) ==> s.queue == []
  {
  }

  lemma {:induction false} DisciplinedRunsAreOrderly(s: System, actions: seq<Action>, lim: Limits)
    requires lim.Valid() && Waits(s) && AllDisciplined(actions)
    ensures Orderly(s, actions, lim) && Waits(Exec(s, actions, lim))
    decreases |actions|
  {
    if actions != [] {
      StepKeepsWaiting(s, actions[0], lim);
      DisciplinedRunsAreOrderly(Apply(s, actions[0], lim), actions[1..], lim);
    }
  }

  // ---------------------------------------------------------------- runs in pieces

  lemma {:induction false} ExecSplits(s: System, a: seq<Action>, b: seq<Action>, lim: Limits)
    requires lim.Valid()
    ensures Exec(s, a + b, lim) == Exec(Exec(s, a, lim), b, lim)
    decreases |a|
  {
    if a == [] {
      assert a + b == b;
    } else {
      assert (a + b)[0] == a[0] && (a + b)[1..] == a[1..] + b;
      ExecSplits(Apply(s, a[0], lim), a[1..], b, lim);
    }
  }

  lemma ExecNext(s: System, a: Action, rest: seq<Action>, lim: Limits)
    requires lim.Valid()
    ensures Exec(s, [a] + rest, lim) == Exec(Apply(s, a, lim), rest, lim)
  {
    assert ([a] + rest)[1..] == rest;
  }
}
