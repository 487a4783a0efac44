/** What every run of the collector keeps (tactile_collect_real.cpp:1064-1074, 1242-1298 and 1356-1897):
    one record at most per sample, flags that are the peak of what was felt, answers that belong to
    their sample, and no advance from an unverified baseline. */
module CollectorSafety {
  import opened Basics
  import opened JsonText
  import opened ProgressMonitor
  import opened SampleSet
  import opened Collector

  function Home(c: State): Pose { Plus(c.baseline.pose, ORIGIN) }

  /** Where the current sample is to be taken. */
  function Place(c: State): Pose
    requires c.sample < |c.samples|
  {
    Plus(c.baseline.pose, c.samples[c.sample])
  }

  /** The sample is over, only the way back to the baseline remains. */
  predicate GoingBack(stage: Stage) { stage.Retreat? || stage.RotStabilize? || stage.Recover? }

  predicate ModelOk(i: Input) { i.model == 0 || i.model == 1 }

  // ---------------------------------------------------------------- the control state

  predicate Shape(c: State) {
    && (c.baseline.ready <==> !c.stage.InitBaseline?)
    && (!c.baseline.ready ==> c.sample == 0 && c.records == [] && c.flag == 0 && c.request == NO_REQUEST)
    && c.sample <= |c.samples| && 0 <= c.flag <= 3
    && (c.sample == |c.samples| ==> c.stage.InitBaseline? || c.stage.Preapproach? || c.stage.Finish?)
    && (c.stage.Finish? ==> c.sample == |c.samples|)
    && (c.request.active ==> c.tcpEnabled && c.stage.Collect? && c.request.sample == c.sample)
    && ((c.stage.Retreat? || c.stage.Recover?) && c.mon.wait > 0 ==> c.target == Home(c))
    && ((c.stage.Preapproach? || c.stage.Contact?) && c.mon.wait > 0 ==> c.sample < |c.samples| && c.target == Place(c))
    && (c.stage.Settle? || c.stage.Collect? ==> c.target == Place(c) || c.flag >= 2)
    && (c.stage.Collect? && !c.tcpEnabled ==> c.collected < COLLECT_COUNT)
  }

  /** Records of the current sample that are already accounted for, without TCP. */
  function Spent(c: State): nat {
    if c.stage.Collect? then c.collected else if GoingBack(c.stage) then COLLECT_COUNT else 0
  }

  // ---------------------------------------------------------------- what one tick may do

  /** A record marked successful carries a positive answer for its own sample. */
  predicate Honest(r: Record) { 1 <= r.flag <= 3 && (r.tcpOk ==> AckSample(r.ack) == r.sample && AckOk(r.ack)) }

  /** One record is written, for the current sample, at the end of a collection. */
  predicate Writes(c: State, c': State) {
    && |c'.records| == |c.records| + 1 && c'.records == c.records + [c'.records[|c.records|]]
    && (var r := c'.records[|c.records|];
          && Honest(r) && r.sample == c.sample == c'.sample < |c.samples| && r.flag == Max(c'.flag, 1)
          && (r.target == Place(c) || r.flag >= 2))
    && c.baseline.ready && !GoingBack(c.stage) && (c.tcpEnabled ==> c'.stage.Retreat?)
  }

  /** The tick measures the force and notes it for the current sample. */
  predicate Looks(c: State, i: Input) {
    && ModelOk(i) && c.baseline.ready && c.sample < |c.samples|
    && (((c.stage.Preapproach? || c.stage.Contact?) && i.ikOk) || c.stage.Settle? || c.stage.Collect?)
  }

  /** The tick verified the strict baseline tolerance. */
  predicate Verified(c: State, i: Input, m: Metric) { i.ikOk && BaselineReached(i.actual, Home(c), m) }

  /** The recovery stage gave up waiting but the pose is within the soft tolerance. */
  predicate SoftAccepted(c: State, i: Input, m: Metric) {
    && c.stage.Recover? && i.ikOk && BaselineSoftSafe(i.actual, Home(c), m)
    && !Update(c.mon, m.pos(i.actual, Home(c)), m.rot(i.actual, Home(c))).1.KeepWaiting?
  }

  predicate Stays(c: State, i: Input, c': State) {
    && c'.sample == c.sample
    && c'.flag == (if Looks(c, i) then Max(c.flag, ContactFlag(i.force)) else c.flag)
    && (GoingBack(c.stage) ==> GoingBack(c'.stage))
    && (c.stage.Settle? || c.stage.Collect? ==> c'.stage == c.stage || c'.stage.Collect? || Writes(c, c'))
    && (c'.records == c.records || Writes(c, c'))
    && (!c.tcpEnabled ==> |c'.records| - |c.records| <= Spent(c') - Spent(c))
  }

  predicate Advances(c: State, i: Input, m: Metric, c': State) {
    && c'.sample == c.sample + 1 <= |c.samples|
    && c'.flag == 0 && !Looks(c, i) && c'.records == c.records
    && GoingBack(c.stage) && !GoingBack(c'.stage)
    && (Verified(c, i, m) || SoftAccepted(c, i, m))
    && (IsRot(c.samples[c.sample]) ==>
          SoftAccepted(c, i, m) || (c.stage.RotStabilize? && c.stabilized + 1 >= STABILIZE_COUNT))
  }

  predicate Effect(c: State, i: Input, m: Metric, c': State) {
    && c'.tcpEnabled == c.tcpEnabled && c'.samples == c.samples
    && (c.baseline.ready ==> c'.baseline == c.baseline)
    && (Stays(c, i, c') || Advances(c, i, m, c'))
    && (c'.stage.RotStabilize? && c'.stabilized > 0 ==>
          c.stage.RotStabilize? && (ModelOk(i) ==> c'.stabilized == c.stabilized + 1 && Verified(c, i, m)))
  }

  lemma DangerEffect(c: State, i: Input, m: Metric, target: Pose)
    requires Shape(c) && Looks(c, i) && !c.stage.Collect? && ContactFlag(i.force) >= 3
    ensures var c' := DangerRetreat(Noted(c.(target := target), i.force)); Shape(c') && Effect(c, i, m, c')
  {
  }

  lemma HoldEffect(c: State, i: Input, m: Metric, target: Pose)
    requires Shape(c) && Looks(c, i) && c.stage.Contact? && ContactFlag(i.force) == 2
    ensures var c' := HoldAndCollect(Noted(c.(target := target), i.force), i.actual); Shape(c') && Effect(c, i, m, c')
  {
  }

  lemma WaitEffect(c: State, i: Input, m: Metric, target: Pose)
    requires Shape(c) && Looks(c, i) && (c.stage.Preapproach? || c.stage.Contact?) && target == Place(c)
    ensures var c' := Wait(Noted(c.(target := target), i.force), i.actual, m, Retreat); Shape(c') && Effect(c, i, m, c')
  {
  }

  lemma PreapproachEffect(c: State, i: Input, m: Metric)
    requires Shape(c) && c.sample < |c.samples| && c.stage.Preapproach? && ModelOk(i)
    ensures var c' := PreapproachTick(c, i, m); Shape(c') && Effect(c, i, m, c')
  {
    var target := Aimed(c, Offset(c)).target;
    if !i.ikOk {
    } else if ContactFlag(i.force) >= 3 {
      DangerEffect(c, i, m, target);
    } else if !PoseReached(i.actual, target, Offset(c), m) {
      WaitEffect(c, i, m, target);
    }
  }

  lemma ContactEffect(c: State, i: Input, m: Metric)
    requires Shape(c) && c.sample < |c.samples| && c.stage.Contact? && ModelOk(i)
    ensures var c' := ContactTick(c, i, m); Shape(c') && Effect(c, i, m, c')
  {
    var target := Aimed(c, Offset(c)).target;
    if !i.ikOk {
    } else if ContactFlag(i.force) >= 3 {
      DangerEffect(c, i, m, target);
    } else if ContactFlag(i.force) >= 2 {
      HoldEffect(c, i, m, target);
    } else if !PoseReached(i.actual, target, Offset(c), m) {
      WaitEffect(c, i, m, target);
    }
  }

  lemma SettleEffect(c: State, i: Input, m: Metric)
    requires Shape(c) && c.sample < |c.samples| && c.stage.Settle? && ModelOk(i)
    ensures var c' := SettleTick(c, i); Shape(c') && Effect(c, i, m, c')
  {
  }

  lemma CollectEffect(c: State, i: Input, m: Metric)
    requires Shape(c) && c.sample < |c.samples| && c.stage.Collect? && ModelOk(i)
    ensures var c' := CollectTick(c, i); Shape(c') && Effect(c, i, m, c')
  {
    if !i.ikOk {
      DoneEffect(c, i, m, "collect_hold_ik_failed", "");
    } else if c.tcpEnabled && (c.request.active || i.sendOk) {
      AwaitEffect(c, i, m, if c.request.active then c.request else Request(true, 0, c.sample));
    }
  }

  lemma DoneEffect(c: State, i: Input, m: Metric, message: string, ack: string)
    requires Shape(c) && c.sample < |c.samples| && c.stage.Collect? && ModelOk(i)
    ensures var c' := CollectDone(Noted(c, i.force), false, message, ack); Shape(c') && Effect(c, i, m, c')
  {
  }

  lemma AwaitEffect(c: State, i: Input, m: Metric, request: Request)
    requires Shape(c) && c.sample < |c.samples| && c.stage.Collect? && ModelOk(i)
    requires c.tcpEnabled && request.active && request.sample == c.sample
    ensures var c' := AwaitAck(Noted(c, i.force).(request := request), i.event); Shape(c') && Effect(c, i, m, c')
  {
    if i.event.AckLine? && AckSample(i.event.line) == c.sample {
      AckEffect(c, i, m, request, i.event.line);
    }
  }

  lemma AckEffect(c: State, i: Input, m: Metric, request: Request, line: string)
    requires Shape(c) && c.sample < |c.samples| && c.stage.Collect? && ModelOk(i)
    requires c.tcpEnabled && request.sample == c.sample == AckSample(line)
    ensures var ok := AckOk(line);
            var c' := CollectDone(Noted(c, i.force).(request := request), ok,
                                  if ok then "tcp_ack_ok" else "tcp_ack_nack", line);
            Shape(c') && Effect(c, i, m, c')
  {
  }

  lemma RetreatEffect(c: State, i: Input, m: Metric)
    requires Shape(c) && c.sample < |c.samples| && c.stage.Retreat? && ModelOk(i)
    ensures var c' := RetreatTick(c, i, m); Shape(c') && Effect(c, i, m, c')
  {
  }

  lemma RotStabilizeEffect(c: State, i: Input, m: Metric)
    requires Shape(c) && c.sample < |c.samples| && c.stage.RotStabilize? && ModelOk(i)
    ensures var c' := RotStabilizeTick(c, i, m); Shape(c') && Effect(c, i, m, c')
  {
  }

  lemma RecoverEffect(c: State, i: Input, m: Metric)
    requires Shape(c) && c.sample < |c.samples| && c.stage.Recover? && ModelOk(i)
    ensures var c' := RecoverTick(c, i, m).0; Shape(c') && Effect(c, i, m, c')
  {
    if !i.ikOk {
    } else if BaselineReached(i.actual, Home(c), m) {
      BackEffect(c, i, m, Home(c));
    } else {
    }
  }

  /** The baseline is reached: a rotational sample stabilizes, any other is left. */
  lemma BackEffect(c: State, i: Input, m: Metric, target: Pose)
    requires Shape(c) && c.sample < |c.samples| && (c.stage.Retreat? || c.stage.Recover?) && ModelOk(i)
    requires target == Home(c) && Verified(c, i, m)
    ensures var c1 := c.(target := target);
            var c' := if IsRot(Offset(c)) then Enter(c1.(stabilized := 0), RotStabilize) else NextSample(c1);
            Shape(c') && Effect(c, i, m, c')
  {
  }

  /** Every tick within the time limit has the effect described, and keeps the shape. */
  lemma TickEffect(c: State, count: int, i: Input, m: Metric)
    requires Shape(c) && count <= MAX_COUNT
    ensures var c' := Tick(c, count, i, m).0; Shape(c') && Effect(c, i, m, c')
  {
    if c.sample < |c.samples| && ModelOk(i) {
      match c.stage
      case Preapproach => PreapproachEffect(c, i, m);
      case Contact => ContactEffect(c, i, m);
      case Settle => SettleEffect(c, i, m);
      case Collect => CollectEffect(c, i, m);
      case Retreat => RetreatEffect(c, i, m);
      case RotStabilize => RotStabilizeEffect(c, i, m);
      case Recover => RecoverEffect(c, i, m);
      case Finish =>
      case InitBaseline =>
    }
  }

  // ---------------------------------------------------------------- runs

  /** A run: state `cs[k + 1]` follows from `cs[k]` by one tick on `ins[k]`, and only the last tick may
      have stopped the plan. */
  predicate Run(cs: seq<State>, ins: seq<Input>, m: Metric) {
    && |cs| == |ins| + 1
    && cs[0] == Start(cs[0].tcpEnabled, cs[0].samples)
    && (forall k {:trigger Tick(cs[k], k + 1, ins[k], m)} ::
        0 <= k < |ins| ==> cs[k + 1] == Tick(cs[k], k + 1, ins[k], m).0)
    && (forall k {:trigger Tick(cs[k], k + 1, ins[k], m)} :: 0 <= k < |ins| - 1 ==> Tick(cs[k], k + 1, ins[k], m).1 > 0)
  }

  lemma {:induction false} RunKeepsShape(cs: seq<State>, ins: seq<Input>, m: Metric, k: nat)
    requires Run(cs, ins, m) && k < |cs|
    ensures Shape(cs[k]) && k <= MAX_COUNT
    ensures k < |ins| ==> k < MAX_COUNT && Effect(cs[k], ins[k], m, cs[k + 1]) && (k < |ins| - 1 ==> ModelOk(ins[k]))
  {
    if k > 0 {
      RunKeepsShape(cs, ins, m, k - 1);
      var previous := Tick(cs[k - 1], k, ins[k - 1], m);
      TickEffect(cs[k - 1], k, ins[k - 1], m);
    }
    if k < |ins| {
      var next := Tick(cs[k], k + 1, ins[k], m);
      TickEffect(cs[k], k + 1, ins[k], m);
    }
  }

  /** Every run ends: the call with number 900000, or an earlier one, returns 0 or less. */
  lemma EveryRunEnds(cs: seq<State>, ins: seq<Input>, m: Metric)
    requires Run(cs, ins, m)
    ensures |ins| <= MAX_COUNT
    ensures |ins| == MAX_COUNT ==> Tick(cs[MAX_COUNT - 1], MAX_COUNT, ins[MAX_COUNT - 1], m).1 <= 0
  {
    RunKeepsShape(cs, ins, m, |ins|);
    if |ins| == MAX_COUNT { RunKeepsShape(cs, ins, m, MAX_COUNT - 1); }
  }

  /** The same run, seen only through the effects of its ticks. */
  predicate Lawful(cs: seq<State>, ins: seq<Input>, m: Metric) {
    && |cs| == |ins| + 1 && cs[0].records == [] && cs[0].flag == 0 && !GoingBack(cs[0].stage)
    && (forall k :: 0 <= k < |cs| ==> Shape(cs[k]))
    && (forall k {:trigger ins[k]} :: 0 <= k < |ins| ==> Effect(cs[k], ins[k], m, cs[k + 1]))
    && (forall k :: 0 <= k < |ins| - 1 ==> ModelOk(ins[k]))
  }

  lemma RunIsLawful(cs: seq<State>, ins: seq<Input>, m: Metric)
    requires Run(cs, ins, m)
    ensures Lawful(cs, ins, m)
  {
    forall k | 0 <= k < |cs| ensures Shape(cs[k]) { RunKeepsShape(cs, ins, m, k); }
    forall k | 0 <= k < |ins| ensures Effect(cs[k], ins[k], m, cs[k + 1]) && (k < |ins| - 1 ==> ModelOk(ins[k])) {
      RunKeepsShape(cs, ins, m, k);
    }
  }

  // ---------------------------------------------------------------- records

  /** The pose commanded for a record was its sample's own, unless contact made the robot hold. */
  predicate Labelled(r: Record, c: State) {
    r.sample < |c.samples| && (r.target == Plus(c.baseline.pose, c.samples[r.sample]) || r.flag >= 2)
  }

  predicate Ordered(rs: seq<Record>, bound: nat) {
    && (forall i :: 0 <= i < |rs| ==> rs[i].sample < bound)
    && (forall i, j :: 0 <= i < j < |rs| ==> rs[i].sample < rs[j].sample)
  }

  lemma {:induction false} OrderedIsShort(rs: seq<Record>, bound: nat)
    requires Ordered(rs, bound)
    ensures |rs| <= bound
    decreases |rs|
  {
    if rs != [] {
      var last := |rs| - 1;
      OrderedIsShort(rs[..last], rs[last].sample);
    }
  }

  lemma {:induction false} RecordsAreOrdered(cs: seq<State>, ins: seq<Input>, m: Metric, k: nat)
    requires Lawful(cs, ins, m) && k < |cs|
    ensures cs[k].tcpEnabled == cs[0].tcpEnabled && cs[k].samples == cs[0].samples
    ensures cs[0].tcpEnabled
        ==> Ordered(cs[k].records, if GoingBack(cs[k].stage) then cs[k].sample + 1 else cs[k].sample)
    ensures forall j :: 0 <= j < |cs[k].records| ==> Honest(cs[k].records[j]) && Labelled(cs[k].records[j], cs[k])
    ensures cs[k].records != [] ==> cs[k].baseline.ready
    ensures !cs[0].tcpEnabled ==> |cs[k].records| <= COLLECT_COUNT * cs[k].sample + Spent(cs[k])
  {
    if k > 0 {
      RecordsAreOrdered(cs, ins, m, k - 1);
      assert Effect(cs[k - 1], ins[k - 1], m, cs[k]);
    }
  }

  /** With TCP enabled, no sample has two records and they come in the order of the samples. */
  lemma OneRecordPerSample(cs: seq<State>, ins: seq<Input>, m: Metric, k: nat)
    requires Run(cs, ins, m) && k < |cs| && cs[0].tcpEnabled
    ensures Ordered(cs[k].records, |cs[0].samples|) && |cs[k].records| <= |cs[0].samples|
  {
    RunIsLawful(cs, ins, m);
    RecordsAreOrdered(cs, ins, m, k);
    assert Shape(cs[k]);
    OrderedIsShort(cs[k].records, |cs[0].samples|);
  }

  function RecordsOf(rs: seq<Record>, s: nat): nat {
    if rs == [] then 0
    else var n := |rs| - 1; RecordsOf(rs[..n], s) + if rs[n].sample == s then 1 else 0
  }

  lemma {:induction false} RecordsOfSample(cs: seq<State>, ins: seq<Input>, m: Metric, k: nat, s: nat)
    requires Lawful(cs, ins, m) && k < |cs| && !cs[0].tcpEnabled
    ensures RecordsOf(cs[k].records, s)
        <= if s < cs[k].sample then COLLECT_COUNT else if s == cs[k].sample then Spent(cs[k]) else 0
  {
    if k > 0 {
      RecordsOfSample(cs, ins, m, k - 1, s);
      RecordsAreOrdered(cs, ins, m, k - 1);
      assert Effect(cs[k - 1], ins[k - 1], m, cs[k]);
      var before, now := cs[k - 1].records, cs[k].records;
      if now != before { assert now[..|now| - 1] == before; }
    }
  }

  /** Without TCP no sample of a run ever has more than fifteen records. */
  lemma FewRecordsWithoutTcp(cs: seq<State>, ins: seq<Input>, m: Metric, k: nat, s: nat)
    requires Run(cs, ins, m) && k < |cs| && !cs[0].tcpEnabled
    ensures RecordsOf(cs[k].records, s) <= COLLECT_COUNT
    ensures |cs[k].records| <= COLLECT_COUNT * |cs[0].samples|
  {
    RunIsLawful(cs, ins, m);
    RecordsAreOrdered(cs, ins, m, k);
    RecordsOfSample(cs, ins, m, k, s);
    assert Shape(cs[k]);
    assert cs[k].sample == |cs[k].samples| ==> Spent(cs[k]) == 0;
  }

  /** In every run, with TCP or without: a record marked as acknowledged carries a positive answer for
      its own sample, and its label is the offset that was commanded from the locked baseline, unless
      contact of level 2 or more made the robot hold another pose. */
  lemma RecordsAreTrue(cs: seq<State>, ins: seq<Input>, m: Metric, k: nat, j: nat)
    requires Run(cs, ins, m) && k < |cs| && j < |cs[k].records|
    ensures var r := cs[k].records[j];
            && (r.tcpOk ==> AckSample(r.ack) == r.sample && AckOk(r.ack))
            && r.sample < |cs[0].samples|
            && (r.target == Plus(cs[k].baseline.pose, cs[0].samples[r.sample]) || r.flag >= 2)
  {
    RunIsLawful(cs, ins, m);
    RecordsAreOrdered(cs, ins, m, k);
    var r := cs[k].records[j];
    assert Honest(r) && Labelled(r, cs[k]);
  }

  /** Over every run the index rises by one at a time, records are only added, one per tick, and a
      sample that reached the settling stage goes back only with its record written. */
  lemma RecordsOnlyGrow(cs: seq<State>, ins: seq<Input>, m: Metric, k: nat)
    requires Run(cs, ins, m) && k < |ins|
    ensures cs[k].sample <= cs[k + 1].sample <= cs[k].sample + 1
    ensures cs[k + 1].records == cs[k].records || Writes(cs[k], cs[k + 1])
    ensures (cs[k].stage.Settle? || cs[k].stage.Collect?) && GoingBack(cs[k + 1].stage) ==> Writes(cs[k], cs[k + 1])
  {
    RunIsLawful(cs, ins, m);
    assert Effect(cs[k], ins[k], m, cs[k + 1]);
  }

  // ---------------------------------------------------------------- contact flags

  /** Tick `j` measured the force for sample `s`. */
  predicate Felt(cs: seq<State>, ins: seq<Input>, j: int, s: nat)
    requires |cs| == |ins| + 1 && 0 <= j < |ins|
  {
    cs[j].sample == s && Looks(cs[j], ins[j])
  }

  /** The flag is exactly the strongest contact measured for the current sample, in every state. */
  lemma {:induction false} FlagIsThePeak(cs: seq<State>, ins: seq<Input>, m: Metric, k: nat)
    requires Lawful(cs, ins, m) && k < |cs|
    ensures forall j :: 0 <= j < k && Felt(cs, ins, j, cs[k].sample) ==> ContactFlag(ins[j].force) <= cs[k].flag
    ensures cs[k].flag == 0
            || exists j :: 0 <= j < k && Felt(cs, ins, j, cs[k].sample) && ContactFlag(ins[j].force) == cs[k].flag
    ensures forall j :: 0 <= j < k ==> cs[j].sample <= cs[k].sample
  {
    if k > 0 {
      var p := k - 1;
      FlagIsThePeak(cs, ins, m, p);
      assert Effect(cs[p], ins[p], m, cs[k]);
      if cs[k].sample == cs[p].sample && cs[k].flag != 0 {
        if Looks(cs[p], ins[p]) && ContactFlag(ins[p].force) >= cs[p].flag {
          assert Felt(cs, ins, p, cs[k].sample);
        } else {
          assert cs[k].flag == cs[p].flag;
          var j :| 0 <= j < p && Felt(cs, ins, j, cs[p].sample) && ContactFlag(ins[j].force) == cs[p].flag;
          assert Felt(cs, ins, j, cs[k].sample);
        }
      }
    }
  }

  /** A record's flag is the strongest contact measured for its sample up to and including the tick
      that wrote it, and 1 when that was none. */
  lemma RecordedFlagIsThePeak(cs: seq<State>, ins: seq<Input>, m: Metric, k: nat)
    requires Run(cs, ins, m) && k < |ins| && cs[k + 1].records != cs[k].records
    ensures |cs[k + 1].records| == |cs[k].records| + 1
    ensures var r := cs[k + 1].records[|cs[k].records|];
            && r.sample == cs[k].sample
            && (forall j :: 0 <= j <= k && Felt(cs, ins, j, r.sample) ==> ContactFlag(ins[j].force) <= r.flag)
            && (r.flag == 1 ||
                exists j :: 0 <= j <= k && Felt(cs, ins, j, r.sample) && ContactFlag(ins[j].force) == r.flag)
  {
    RunIsLawful(cs, ins, m);
    assert Effect(cs[k], ins[k], m, cs[k + 1]);
    FlagIsThePeak(cs, ins, m, k + 1);
  }

  // ---------------------------------------------------------------- the way back

  /** Ticks `from` up to `to` all held the current sample's baseline within the strict tolerance. */
  predicate HeldBaseline(cs: seq<State>, ins: seq<Input>, m: Metric, from: int, to: int, s: nat)
    requires |cs| == |ins| + 1 && 0 <= from && to <= |ins|
  {
    forall j :: from <= j < to ==> cs[j].sample == s && cs[j].stage.RotStabilize? && Verified(cs[j], ins[j], m)
  }

  /** The stabilization counter counts consecutive ticks at the baseline. */
  lemma {:induction false} CounterIsHonest(cs: seq<State>, ins: seq<Input>, m: Metric, k: nat)
    requires Lawful(cs, ins, m) && k < |ins| && cs[k].stage.RotStabilize?
    ensures cs[k].stabilized <= k && HeldBaseline(cs, ins, m, k - cs[k].stabilized, k, cs[k].sample)
  {
    if cs[k].stabilized > 0 {
      assert Effect(cs[k - 1], ins[k - 1], m, cs[k]);
      CounterIsHonest(cs, ins, m, k - 1);
    }
  }

  /** No run leaves a sample from an unverified baseline: the pose error is within the soft tolerance at
      every advance, and after a rotational sample either 300 consecutive ticks were within the strict
      one or the recovery stage accepted the soft one. */
  lemma NoAdvanceFromUnverifiedBaseline(cs: seq<State>, ins: seq<Input>, m: Metric, k: nat)
    requires Run(cs, ins, m) && k < |ins| && cs[k + 1].sample != cs[k].sample
    ensures cs[k + 1].sample == cs[k].sample + 1 <= |cs[k].samples|
    ensures BaselineSoftSafe(ins[k].actual, Home(cs[k]), m)
    ensures Verified(cs[k], ins[k], m) || SoftAccepted(cs[k], ins[k], m)
    ensures IsRot(cs[k].samples[cs[k].sample]) && !SoftAccepted(cs[k], ins[k], m) ==>
              STABILIZE_COUNT <= k + 1 && HeldBaseline(cs, ins, m, k + 1 - STABILIZE_COUNT, k + 1, cs[k].sample)
  {
    RunIsLawful(cs, ins, m);
    assert Effect(cs[k], ins[k], m, cs[k + 1]);
    if IsRot(cs[k].samples[cs[k].sample]) && !SoftAccepted(cs[k], ins[k], m) {
      CounterIsHonest(cs, ins, m, k);
    }
  }
}
