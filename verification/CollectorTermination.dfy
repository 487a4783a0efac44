/** How long the collector may stay on one sample (tactile_collect_real.cpp:426-474 and 1076-1115 and
    1466-1905): a measure that bounds every translational sample, and the two loops that only the
    limit on the whole run ends. */
module CollectorTermination {
  import opened ProgressMonitor
  import opened SampleSet
  import opened Collector
  import opened CollectorSafety

  /** The extra time a rotational sample may take to stabilize. */
  function Surcharge(c: State): int {
    if c.sample < |c.samples| && IsRot(c.samples[c.sample]) then HARD_MAX + STABILIZE_COUNT else 0
  }

  /** Ticks the current sample can still take, by stage and by what is left of the stage's budget. */
  function Budget(c: State): int {
    match c.stage
    case Recover => HARD_MAX - c.mon.wait
    case RotStabilize => 2 * HARD_MAX - c.mon.wait + STABILIZE_COUNT - c.stabilized
    case Retreat => 2 * HARD_MAX - c.mon.wait + Surcharge(c)
    case Collect =>
      2 * HARD_MAX + Surcharge(c)
      + (if !c.tcpEnabled then COLLECT_COUNT - c.collected
         else if c.request.active then ACK_TIMEOUT - c.request.wait else ACK_TIMEOUT + 1)
    case Settle => 2 * HARD_MAX + ACK_TIMEOUT + 1 + SETTLE_COUNT - c.settle + Surcharge(c)
    case Contact => 3 * HARD_MAX + ACK_TIMEOUT + 1 + SETTLE_COUNT - c.mon.wait + Surcharge(c)
    case Preapproach => 4 * HARD_MAX + ACK_TIMEOUT + 1 + SETTLE_COUNT - c.mon.wait + Surcharge(c)
    case _ => 0
  }

  const SAMPLE_BUDGET: int := 4 * HARD_MAX + ACK_TIMEOUT + 1 + SETTLE_COUNT

  /** The counters are within the limits that end their stages, and only rotational samples stabilize. */
  predicate Timely(c: State) {
    && c.mon.wait < HARD_MAX
    && (c.stage.RotStabilize? ==>
      c.sample < |c.samples| && IsRot(c.samples[c.sample]) && c.stabilized < STABILIZE_COUNT)
    && (c.stage.Settle? ==> c.settle < SETTLE_COUNT)
    && (c.stage.Collect? ==> if c.tcpEnabled then c.request.wait < ACK_TIMEOUT else c.collected < COLLECT_COUNT)
  }

  /** An answer to another sample arrives while this one waits for its own. */
  predicate StaleLine(c: State, i: Input) {
    c.stage.Collect? && c.tcpEnabled && i.event.AckLine? && AckSample(i.event.line) != c.sample
  }

  predicate Closed(c: State, i: Input) { c.stage.Collect? && c.tcpEnabled && i.event.PeerClosed? }

  /** What the tick's network event may give back: a stale line the tick itself, a closed connection
      the whole wait for the answer. */
  function NetworkRefund(c: State, i: Input): nat {
    if StaleLine(c, i) then 1 else if Closed(c, i) then ACK_TIMEOUT + 1 else 0
  }

  /** Recovery has reached the baseline and stabilizing starts afresh. */
  predicate Returns(c: State, c': State) { c.stage.Recover? && c'.stage.RotStabilize? }

  /** What the way back may give back: a return from recovery the whole stabilization, a loss of the
      baseline the ticks counted so far. */
  function RecoveryRefund(c: State, c': State): nat {
    if Returns(c, c') then 2 * HARD_MAX + STABILIZE_COUNT
    else if c.stage.RotStabilize? && c'.stabilized == 0 then c.stabilized else 0
  }

  /** A tick that neither stops nor advances uses up the budget of the sample. */
  predicate Spends(c: State, i: Input, c': State) {
    && Timely(c')
    && (c'.sample == c.sample < |c.samples| && c.baseline.ready ==>
          0 < Budget(c') < Budget(c) + NetworkRefund(c, i) + RecoveryRefund(c, c'))
  }

  lemma DangerSpends(c: State, i: Input, target: Pose)
    requires Timely(c) && c.stage.Contact?
    ensures Spends(c, i, DangerRetreat(Noted(c.(target := target), i.force)))
  {
  }

  lemma HoldSpends(c: State, i: Input, target: Pose)
    requires Timely(c) && c.stage.Contact?
    ensures Spends(c, i, HoldAndCollect(Noted(c.(target := target), i.force), i.actual))
  {
  }

  lemma WaitSpends(c: State, i: Input, m: Metric, target: Pose)
    requires Timely(c) && (c.stage.Preapproach? || c.stage.Contact?)
    ensures Spends(c, i, Wait(Noted(c.(target := target), i.force), i.actual, m, Retreat))
  {
  }

  lemma PreapproachSpends(c: State, i: Input, m: Metric)
    requires Shape(c) && Timely(c) && c.sample < |c.samples| && c.stage.Preapproach?
    ensures Spends(c, i, PreapproachTick(c, i, m))
  {
    WaitSpends(c, i, m, Aimed(c, Offset(c)).target);
  }

  lemma ContactSpends(c: State, i: Input, m: Metric)
    requires Shape(c) && Timely(c) && c.sample < |c.samples| && c.stage.Contact?
    ensures Spends(c, i, ContactTick(c, i, m))
  {
    var target := Aimed(c, Offset(c)).target;
    if !i.ikOk {
    } else if ContactFlag(i.force) >= 3 {
      DangerSpends(c, i, target);
    } else if ContactFlag(i.force) >= 2 {
      HoldSpends(c, i, target);
    } else if !PoseReached(i.actual, target, Offset(c), m) {
      WaitSpends(c, i, m, target);
    }
  }

  lemma SettleSpends(c: State, i: Input, m: Metric)
    requires Shape(c) && Timely(c) && c.sample < |c.samples| && c.stage.Settle?
    ensures Spends(c, i, SettleTick(c, i))
  {
  }

  lemma CollectSpends(c: State, i: Input, m: Metric)
    requires Shape(c) && Timely(c) && c.sample < |c.samples| && c.stage.Collect?
    ensures Spends(c, i, CollectTick(c, i))
  {
  }

  lemma RetreatSpends(c: State, i: Input, m: Metric)
    requires Shape(c) && Timely(c) && c.sample < |c.samples| && c.stage.Retreat?
    ensures Spends(c, i, RetreatTick(c, i, m))
  {
  }

  lemma RotStabilizeSpends(c: State, i: Input, m: Metric)
    requires Shape(c) && Timely(c) && c.sample < |c.samples| && c.stage.RotStabilize?
    ensures Spends(c, i, RotStabilizeTick(c, i, m))
  {
  }

  lemma RecoverSpends(c: State, i: Input, m: Metric)
    requires Shape(c) && Timely(c) && c.sample < |c.samples| && c.stage.Recover?
    ensures var (c', go) := RecoverTick(c, i, m); go ==> Spends(c, i, c')
  {
  }

  lemma TickSpends(c: State, count: int, i: Input, m: Metric)
    requires Shape(c) && Timely(c) && Tick(c, count, i, m).1 > 0
    ensures Spends(c, i, Tick(c, count, i, m).0)
  {
    if c.baseline.ready {
      match c.stage
      case Preapproach => PreapproachSpends(c, i, m);
      case Contact => ContactSpends(c, i, m);
      case Settle => SettleSpends(c, i, m);
      case Collect => CollectSpends(c, i, m);
      case Retreat => RetreatSpends(c, i, m);
      case RotStabilize => RotStabilizeSpends(c, i, m);
      case Recover => RecoverSpends(c, i, m);
    }
  }

  lemma {:induction false} RunIsTimely(cs: seq<State>, ins: seq<Input>, m: Metric, k: nat)
    requires Run(cs, ins, m) && k < |ins|
    ensures Timely(cs[k]) && Shape(cs[k])
    ensures k < |ins| - 1 ==> Spends(cs[k], ins[k], cs[k + 1])
  {
    RunKeepsShape(cs, ins, m, k);
    if k > 0 { RunIsTimely(cs, ins, m, k - 1); }
    if k < |ins| - 1 {
      var next := Tick(cs[k], k + 1, ins[k], m);
      TickSpends(cs[k], k + 1, ins[k], m);
    }
  }

  /** What stale lines and closed connections gave back between two ticks. */
  function NetworkRefunds(cs: seq<State>, ins: seq<Input>, first: nat, last: nat): nat
    requires first <= last <= |ins| && |cs| == |ins| + 1
    decreases last
  {
    if first == last then 0 else NetworkRefunds(cs, ins, first, last - 1) + NetworkRefund(cs[last - 1], ins[last - 1])
  }

  /** What returns from recovery and losses of the baseline gave back. */
  function RecoveryRefunds(cs: seq<State>, first: nat, last: nat): nat
    requires first <= last < |cs|
    decreases last
  {
    if first == last then 0 else RecoveryRefunds(cs, first, last - 1) + RecoveryRefund(cs[last - 1], cs[last])
  }

  /** The state waits on, or moves for, sample `s`. */
  predicate OnSample(c: State, s: nat) { c.baseline.ready && c.sample == s < |c.samples| }

  lemma {:induction false} BudgetIsSpent(cs: seq<State>, ins: seq<Input>, m: Metric, first: nat, last: nat, s: nat)
    requires Run(cs, ins, m) && first <= last < |ins|
    requires OnSample(cs[first], s) && cs[last].sample == s
    ensures OnSample(cs[last], s) && cs[last].samples == cs[first].samples
    ensures last - first <= Budget(cs[first]) - Budget(cs[last])
                            + NetworkRefunds(cs, ins, first, last) + RecoveryRefunds(cs, first, last)
    decreases last
  {
    if first < last {
      RunKeepsShape(cs, ins, m, last - 1);
      SampleNeverFalls(cs, ins, m, first, last - 1);
      BudgetIsSpent(cs, ins, m, first, last - 1, s);
      RunIsTimely(cs, ins, m, last - 1);
    }
  }

  lemma {:induction false} SampleNeverFalls(cs: seq<State>, ins: seq<Input>, m: Metric, first: nat, last: nat)
    requires Run(cs, ins, m) && first <= last < |cs|
    ensures cs[first].sample <= cs[last].sample
    decreases last
  {
    if first < last {
      RunKeepsShape(cs, ins, m, last - 1);
      SampleNeverFalls(cs, ins, m, first, last - 1);
    }
  }

  /** No run stays on a sample for more than 126061 ticks, 156361 for a rotational one, plus one for every
      stale line, 6001 for every connection closed, 60300 for every return from recovery and the ticks
      counted at every loss of the baseline, whatever the poses, forces and answers. */
  lemma SampleEnds(cs: seq<State>, ins: seq<Input>, m: Metric, first: nat, last: nat, s: nat)
    requires Run(cs, ins, m) && first <= last < |ins|
    requires OnSample(cs[first], s) && cs[last].sample == s
    ensures last - first < SAMPLE_BUDGET + Surcharge(cs[first])
                           + NetworkRefunds(cs, ins, first, last) + RecoveryRefunds(cs, first, last)
    ensures SAMPLE_BUDGET == 126061 && Surcharge(cs[first]) == if IsRot(cs[first].samples[s]) then 30300 else 0
  {
    BudgetIsSpent(cs, ins, m, first, last, s);
    RunIsTimely(cs, ins, m, first);
    RunIsTimely(cs, ins, m, last);
  }

  lemma {:induction false} TranslationsNeedNoRecovery(cs: seq<State>, ins: seq<Input>, m: Metric,
                                                      first: nat, last: nat, s: nat)
    requires Run(cs, ins, m) && first <= last < |ins|
    requires OnSample(cs[first], s) && cs[last].sample == s && !IsRot(cs[first].samples[s])
    ensures RecoveryRefunds(cs, first, last) == 0
    decreases last
  {
    if first < last {
      RunKeepsShape(cs, ins, m, last - 1);
      SampleNeverFalls(cs, ins, m, first, last - 1);
      TranslationsNeedNoRecovery(cs, ins, m, first, last - 1, s);
      BudgetIsSpent(cs, ins, m, first, last - 1, s);
      RunIsTimely(cs, ins, m, last - 1);
      RunIsTimely(cs, ins, m, last);
    }
  }

  /** A translational sample never stabilizes, so only the network can prolong it. */
  lemma TranslationalSampleEnds(cs: seq<State>, ins: seq<Input>, m: Metric, first: nat, last: nat, s: nat)
    requires Run(cs, ins, m) && first <= last < |ins|
    requires OnSample(cs[first], s) && cs[last].sample == s && !IsRot(cs[first].samples[s])
    ensures last - first < SAMPLE_BUDGET + NetworkRefunds(cs, ins, first, last)
    ensures SAMPLE_BUDGET == 126061
  {
    SampleEnds(cs, ins, m, first, last, s);
    TranslationsNeedNoRecovery(cs, ins, m, first, last, s);
  }

  // ---------------------------------------------------------------- loops that only the run's limit ends

  const STILL: Force := [0.0, 0.0, 0.0, 0.0, 0.0, 0.0]

  /** Inverse kinematics fails on every other tick; the robot rests at its baseline. */
  function FailingInput(k: nat): Input { Input(0, true, ORIGIN, STILL, k % 2 == 1, true, Nothing) }

  const FIRST_ROTATION: nat := 55
  const STABILIZING: nat := BASELINE_SAMPLES + 2 * FIRST_ROTATION + 2

  /** Every translational sample is left after a failed approach and a retreat; the first rotational one
      then stabilizes and recovers in turn. */
  function FailingState(tcp: bool, samples: seq<Pose>, k: nat): State
    requires |samples| == 73
  {
    var c := Start(tcp, samples).(baseline :=
      Baseline(BASELINE_SAMPLES <= k, if k < BASELINE_SAMPLES then k else BASELINE_SAMPLES, ORIGIN));
    if k < BASELINE_SAMPLES then c
    else if k < STABILIZING then
      var j := (k - BASELINE_SAMPLES) / 2;
      if k % 2 == 0 then c.(sample := j, stage := Preapproach)
      else c.(sample := j, stage := Retreat, target := Plus(ORIGIN, samples[j]))
    else c.(sample := FIRST_ROTATION, stage := if k % 2 == 0 then RotStabilize else Recover)
  }

  lemma FirstTicks(tcp: bool, samples: seq<Pose>, m: Metric, k: nat)
    requires |samples| == 73 && Follows(samples) &&
             BaselineReached(ORIGIN, ORIGIN, m) && k < BASELINE_SAMPLES && k < MAX_COUNT
    ensures Tick(FailingState(tcp, samples, k), k + 1, FailingInput(k), m)
        == (FailingState(tcp, samples, k + 1), MAX_COUNT - k - 1)
  {
    assert Plus(ORIGIN, ORIGIN) == ORIGIN;
  }

  /** A first retreat tick at the baseline. */
  lemma BaselineIsReached(c: State, count: nat, i: Input, m: Metric)
    requires c.stage.Retreat? && c.mon == RESET && c.baseline.ready &&
             c.baseline.pose == ORIGIN && c.sample < |c.samples|
    requires ModelOk(i) && i.ikOk && i.actual == ORIGIN && BaselineReached(ORIGIN, ORIGIN, m) && count <= MAX_COUNT
    ensures Tick(c, count, i, m)
         == (if IsRot(c.samples[c.sample]) then Enter(c.(target := ORIGIN, stabilized := 0), RotStabilize)
             else NextSample(c.(target := ORIGIN)), MAX_COUNT - count)
  {
    assert Plus(ORIGIN, ORIGIN) == ORIGIN;
  }

  lemma FailedApproach(tcp: bool, samples: seq<Pose>, m: Metric, k: nat)
    requires |samples| == 73 && Follows(samples) && BaselineReached(ORIGIN, ORIGIN, m) &&
             BASELINE_SAMPLES <= k < STABILIZING && k % 2 == 0 && k < MAX_COUNT
    ensures Tick(FailingState(tcp, samples, k), k + 1, FailingInput(k), m)
        == (FailingState(tcp, samples, k + 1), MAX_COUNT - k - 1)
  {
    assert (k + 1 - BASELINE_SAMPLES) / 2 == (k - BASELINE_SAMPLES) / 2;
  }

  lemma NextFailingState(tcp: bool, samples: seq<Pose>, k: nat)
    requires |samples| == 73 && BASELINE_SAMPLES <= k < STABILIZING && k % 2 == 1
    ensures var c, j := FailingState(tcp, samples, k), (k - BASELINE_SAMPLES) / 2;
            && c.sample == j < 73
            && FailingState(tcp, samples, k + 1)
            == (if j == FIRST_ROTATION then Enter(c.(target := ORIGIN, stabilized := 0), RotStabilize)
                else NextSample(c.(target := ORIGIN)))
  {
    assert (k + 1 - BASELINE_SAMPLES) / 2 == (k - BASELINE_SAMPLES) / 2 + 1;
  }

  lemma WayBack(tcp: bool, samples: seq<Pose>, m: Metric, k: nat)
    requires |samples| == 73 && Follows(samples) && BaselineReached(ORIGIN, ORIGIN, m) &&
             BASELINE_SAMPLES <= k < STABILIZING && k % 2 == 1 && k < MAX_COUNT
    ensures Tick(FailingState(tcp, samples, k), k + 1, FailingInput(k), m)
        == (FailingState(tcp, samples, k + 1), MAX_COUNT - k - 1)
  {
    var j := (k - BASELINE_SAMPLES) / 2;
    RotationsComeLast(j);
    assert IsRot(samples[j]) <==> j == FIRST_ROTATION;
    NextFailingState(tcp, samples, k);
    BaselineIsReached(FailingState(tcp, samples, k), k + 1, FailingInput(k), m);
  }

  lemma FailedStabilizing(tcp: bool, samples: seq<Pose>, m: Metric, k: nat)
    requires |samples| == 73 && Follows(samples) && BaselineReached(ORIGIN, ORIGIN, m) &&
             STABILIZING <= k && k < MAX_COUNT
    ensures Tick(FailingState(tcp, samples, k), k + 1, FailingInput(k), m)
        == (FailingState(tcp, samples, k + 1), MAX_COUNT - k - 1)
  {
    assert Plus(ORIGIN, ORIGIN) == ORIGIN;
    RotationsComeLast(FIRST_ROTATION);
    assert IsRot(samples[FIRST_ROTATION]);
  }

  lemma FailingTick(tcp: bool, samples: seq<Pose>, m: Metric, k: nat)
    requires |samples| == 73 && Follows(samples) && BaselineReached(ORIGIN, ORIGIN, m) && k < MAX_COUNT
    ensures Tick(FailingState(tcp, samples, k), k + 1, FailingInput(k), m)
        == (FailingState(tcp, samples, k + 1), MAX_COUNT - k - 1)
  {
    if k < BASELINE_SAMPLES {
      FirstTicks(tcp, samples, m, k);
    } else if STABILIZING <= k {
      FailedStabilizing(tcp, samples, m, k);
    } else if k % 2 == 0 {
      FailedApproach(tcp, samples, m, k);
    } else {
      WayBack(tcp, samples, m, k);
    }
  }

  /** A rotational sample has no bound of its own: with the collector's own 73 samples, stabilizing fails,
      recovery reaches the baseline and stabilizing starts afresh, until the limit on the run. The returns
      from recovery that `SampleEnds` allows for are what it takes. */
  lemma RotationalSampleMayLastTheRun(tcp: bool, samples: seq<Pose>, m: Metric)
    requires |samples| == 73 && Follows(samples) && BaselineReached(ORIGIN, ORIGIN, m)
    ensures exists cs: seq<State>, ins: seq<Input> ::
                Run(cs, ins, m) && |ins| == MAX_COUNT && cs[0] == Start(tcp, samples)
                && (forall k :: STABILIZING <= k < |cs| ==> cs[k].sample == FIRST_ROTATION)
                && (forall k :: STABILIZING <= k < |cs| ==> cs[k].stage == if k % 2 == 0 then RotStabilize else Recover)
  {
    var cs := seq(MAX_COUNT + 1, k requires 0 <= k => FailingState(tcp, samples, k));
    var ins := seq(MAX_COUNT, k requires 0 <= k => FailingInput(k));
    forall k | 0 <= k < MAX_COUNT
      ensures Tick(cs[k], k + 1, ins[k], m) == (cs[k + 1], MAX_COUNT - k - 1)
    {
      FailingTick(tcp, samples, m, k);
    }
    assert Run(cs, ins, m);
  }

  /** Every request is sent and the connection closes before its answer. */
  function FlappingInput(): Input { Input(0, true, ORIGIN, STILL, true, true, PeerClosed) }

  const COLLECTING: nat := BASELINE_SAMPLES + 2 + SETTLE_COUNT

  function FlappingState(samples: seq<Pose>, k: nat): State {
    var c := Start(true, samples).(baseline :=
      Baseline(BASELINE_SAMPLES <= k, if k < BASELINE_SAMPLES then k else BASELINE_SAMPLES, ORIGIN));
    if k < BASELINE_SAMPLES then c
    else if k == BASELINE_SAMPLES then c.(stage := Preapproach)
    else if k == BASELINE_SAMPLES + 1 then c.(stage := Contact)
    else if k < COLLECTING then c.(stage := Settle, settle := k - BASELINE_SAMPLES - 2)
    else c.(stage := Collect, settle := SETTLE_COUNT,
              request := if k == COLLECTING then NO_REQUEST else Request(false, 1, 0))
  }

  lemma FlappingTick(samples: seq<Pose>, m: Metric, k: nat)
    requires samples != [] && samples[0] == ORIGIN &&
             m.pos(ORIGIN, ORIGIN) == 0.0 == m.rot(ORIGIN, ORIGIN) && k < MAX_COUNT
    ensures Tick(FlappingState(samples, k), k + 1, FlappingInput(), m)
        == (FlappingState(samples, k + 1), MAX_COUNT - k - 1)
  {
    assert Plus(ORIGIN, ORIGIN) == ORIGIN;
  }

  /** The time limit on an answer does not end the wait either when the connection keeps closing: every
      new request restarts the count, and the ideal sample lasts the whole run without a record. */
  lemma FlappingConnectionMayLastTheRun(samples: seq<Pose>, m: Metric)
    requires samples != [] && samples[0] == ORIGIN && m.pos(ORIGIN, ORIGIN) == 0.0 == m.rot(ORIGIN, ORIGIN)
    ensures exists cs: seq<State>, ins: seq<Input> ::
                Run(cs, ins, m) && |ins| == MAX_COUNT && cs[0] == Start(true, samples)
                && (forall k :: 0 <= k < |cs| ==> cs[k].sample == 0 && cs[k].records == [])
                && (forall k :: COLLECTING <= k < |cs| ==> cs[k].stage.Collect?)
  {
    var cs := seq(MAX_COUNT + 1, k requires 0 <= k => FlappingState(samples, k));
    var ins := seq(MAX_COUNT, k => FlappingInput());
    forall k | 0 <= k < MAX_COUNT
      ensures Tick(cs[k], k + 1, ins[k], m) == (cs[k + 1], MAX_COUNT - k - 1)
    {
      FlappingTick(samples, m, k);
    }
    assert Run(cs, ins, m);
  }
}
