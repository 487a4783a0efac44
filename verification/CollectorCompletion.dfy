/** A collection in which everything goes well (tactile_collect_real.cpp:1407-1912): how many ticks it takes, and
    what it leaves behind. */
module CollectorCompletion {
  import opened SampleSet
  import opened Collector
  import opened CollectorSafety
  import opened CollectorReactions

  /** The robot arrives at every tick it is asked to, contact stays below the levels that end an approach, and
      the network answers "ok" at once. */
  predicate Cooperates(c: State, i: Input, m: Metric) {
    && ModelOk(i) && i.sensorOk && i.ikOk && i.sendOk && !Dangerous(i.force)
    && (c.sample < |c.samples| ==>
          match c.stage
          case Preapproach => PoseReached(i.actual, Place(c), c.samples[c.sample], m)
          case Contact => PoseReached(i.actual, Place(c), c.samples[c.sample], m) && !Beyond(i.force[2], 5.0)
          case Collect =>
            c.tcpEnabled ==> i.event.AckLine? && AckSample(i.event.line) == c.sample && SaysOk(i.event.line)
          case InitBaseline => true
          case Settle => true
          case Finish => true
          case _ => BaselineReached(i.actual, Home(c), m))
  }

  // ---------------------------------------------------------------- the ticks to go

  /** Ticks of one collection: a single one with TCP, fifteen without. */
  function CollectTicks(tcp: bool): nat { if tcp then 1 else 15 }

  function StabilizeTicks(offset: Pose): nat { if IsRot(offset) then 300 else 0 }

  /** Ticks from sample `s` on: two to approach, sixty to settle, the collection, and the way back. */
  function Rest(tcp: bool, samples: seq<Pose>, s: nat): nat
    decreases |samples| - s
  {
    if s >= |samples| then 0
    else 62 + CollectTicks(tcp) + 1 + StabilizeTicks(samples[s]) + Rest(tcp, samples, s + 1)
  }

  function ToGo(c: State): int {
    var later := Rest(c.tcpEnabled, c.samples, c.sample + 1);
    if c.stage.InitBaseline? then 200 - c.baseline.count + Rest(c.tcpEnabled, c.samples, 0)
    else if c.sample >= |c.samples| then 0
    else
      var back := 1 + StabilizeTicks(c.samples[c.sample]) + later;
      var collect := CollectTicks(c.tcpEnabled) + back;
      match c.stage
      case Preapproach => 62 + collect
      case Contact => 61 + collect
      case Settle => 60 - c.settle + collect
      case Collect => collect - if c.tcpEnabled then 0 else c.collected
      case RotStabilize => 300 - c.stabilized + later
      case _ => back
  }

  /** Every sample done so far has its record, acknowledged with TCP, and the counters are within bounds. */
  predicate OnCourse(c: State) {
    && Shape(c) && c.baseline.count <= 200
    && (c.stage.InitBaseline? ==> c.baseline.count < 200)
    && !c.stage.Recover?
    && (c.stage.Settle? ==> c.settle < 60)
    && (c.stage.RotStabilize? ==> c.stabilized < 300 && c.sample < |c.samples| && IsRot(c.samples[c.sample]))
    && (c.sample == |c.samples| && |c.samples| > 0 ==> c.stage.Finish?)
    && (if c.tcpEnabled then AllAcknowledged(c.records, if GoingBack(c.stage) then c.sample + 1 else c.sample)
        else FifteenEach(c.records, c.sample, Spent(c)))
  }

  /** One positive record for each of the samples below `n`, in order. */
  predicate AllAcknowledged(rs: seq<Record>, n: nat) {
    |rs| == n && forall s :: 0 <= s < n ==> rs[s].sample == s && rs[s].tcpOk && rs[s].message == "tcp_ack_ok"
  }

  /** Fifteen records for each of the samples below `n`, and `more` for the next one, in order. */
  predicate FifteenEach(rs: seq<Record>, n: nat, more: nat) {
    |rs| == 15 * n + more
    && forall j :: 0 <= j < |rs| ==>
         rs[j].sample == j / 15 && !rs[j].tcpOk && rs[j].message == "tcp_disabled_robot_only"
  }

  predicate Progresses(c: State, c': State) {
    OnCourse(c') && ToGo(c') == ToGo(c) - 1 && c'.samples == c.samples && c'.tcpEnabled == c.tcpEnabled
  }

  lemma BaselineProgresses(c: State, i: Input)
    requires OnCourse(c) && c.stage.InitBaseline? && i.sensorOk && |c.samples| > 0
    ensures Progresses(c, BaselineTick(c, i))
  {
    assert Rest(c.tcpEnabled, c.samples, 0)
        == 62 + CollectTicks(c.tcpEnabled) + 1 + StabilizeTicks(c.samples[0]) + Rest(c.tcpEnabled, c.samples, 1);
  }

  lemma PreapproachProgresses(c: State, i: Input, m: Metric)
    requires OnCourse(c) && c.sample < |c.samples| && Cooperates(c, i, m) && c.stage.Preapproach?
    ensures Progresses(c, PreapproachTick(c, i, m))
  {
    ContactLevels(i.force);
  }

  lemma ContactProgresses(c: State, i: Input, m: Metric)
    requires OnCourse(c) && c.sample < |c.samples| && Cooperates(c, i, m) && c.stage.Contact?
    ensures Progresses(c, ContactTick(c, i, m))
  {
    ContactLevels(i.force);
  }

  lemma SettleProgresses(c: State, i: Input, m: Metric)
    requires OnCourse(c) && c.sample < |c.samples| && Cooperates(c, i, m) && c.stage.Settle?
    ensures Progresses(c, SettleTick(c, i))
  {
    ContactLevels(i.force);
  }

  lemma AnsweredProgresses(c: State, i: Input, m: Metric)
    requires OnCourse(c) && c.sample < |c.samples| && Cooperates(c, i, m) && c.stage.Collect? && c.tcpEnabled
    ensures Progresses(c, CollectTick(c, i))
  {
    AckOkIff(i.event.line);
    var r := Record(c.sample, c.target, Peak(c, i), true, "tcp_ack_ok", i.event.line);
    assert CollectTick(c, i).records == c.records + [r];
    AcknowledgedGrows(c.records, c.sample, r);
  }

  lemma FifteenGrows(rs: seq<Record>, n: nat, more: nat, r: Record)
    requires FifteenEach(rs, n, more) && more < 15
    requires r.sample == n && !r.tcpOk && r.message == "tcp_disabled_robot_only"
    ensures FifteenEach(rs + [r], n, more + 1)
  {
  }

  lemma FifteenDone(rs: seq<Record>, n: nat)
    requires FifteenEach(rs, n, 15)
    ensures FifteenEach(rs, n + 1, 0)
  {
  }

  lemma AcknowledgedGrows(rs: seq<Record>, n: nat, r: Record)
    requires AllAcknowledged(rs, n) && r.sample == n && r.tcpOk && r.message == "tcp_ack_ok"
    ensures AllAcknowledged(rs + [r], n + 1)
  {
  }

  lemma RobotOnlyProgresses(c: State, i: Input, m: Metric)
    requires OnCourse(c) && c.sample < |c.samples| && Cooperates(c, i, m) && c.stage.Collect? && !c.tcpEnabled
    ensures Progresses(c, CollectTick(c, i))
  {
    ContactLevels(i.force);
    var r := Record(c.sample, c.target, Peak(c, i), false, "tcp_disabled_robot_only", "");
    assert CollectTick(c, i).records == c.records + [r];
    FifteenGrows(c.records, c.sample, c.collected, r);
  }

  /** The sample is left: what was to come later is all there is to do. */
  lemma NextProgresses(c: State, c1: State)
    requires OnCourse(c) && c.sample < |c.samples| && GoingBack(c.stage) && c.baseline.ready
    requires c1.(target := c.target, stabilized := c.stabilized) == c
    ensures OnCourse(NextSample(c1)) && ToGo(NextSample(c1)) == Rest(c.tcpEnabled, c.samples, c.sample + 1)
  {
    if !c.tcpEnabled { FifteenDone(c.records, c.sample); }
  }

  lemma RetreatProgresses(c: State, i: Input, m: Metric)
    requires OnCourse(c) && c.sample < |c.samples| && Cooperates(c, i, m) && c.stage.Retreat?
    ensures Progresses(c, RetreatTick(c, i, m))
  {
    if !IsRot(Offset(c)) { NextProgresses(c, Aimed(c, ORIGIN)); }
  }

  lemma StabilizeProgresses(c: State, i: Input, m: Metric)
    requires OnCourse(c) && c.sample < |c.samples| && Cooperates(c, i, m) && c.stage.RotStabilize?
    ensures Progresses(c, RotStabilizeTick(c, i, m))
  {
    if c.stabilized + 1 >= 300 { NextProgresses(c, c.(target := Home(c), stabilized := c.stabilized + 1)); }
  }

  lemma TickProgresses(c: State, count: int, i: Input, m: Metric)
    requires OnCourse(c) && count <= MAX_COUNT && Cooperates(c, i, m) && |c.samples| > 0
    requires !c.stage.Finish?
    ensures var (c', ret) := Tick(c, count, i, m); Progresses(c, c') && ret == MAX_COUNT - count
  {
    match c.stage
    case InitBaseline => BaselineProgresses(c, i);
    case Preapproach => PreapproachProgresses(c, i, m);
    case Contact => ContactProgresses(c, i, m);
    case Settle => SettleProgresses(c, i, m);
    case Collect => if c.tcpEnabled { AnsweredProgresses(c, i, m); } else { RobotOnlyProgresses(c, i, m); }
    case Retreat => RetreatProgresses(c, i, m);
    case RotStabilize => StabilizeProgresses(c, i, m);
  }

  // ---------------------------------------------------------------- whole runs

  predicate AllCooperate(cs: seq<State>, ins: seq<Input>, m: Metric, k: nat)
    requires k <= |ins| < |cs|
  {
    forall j {:trigger ins[j]} :: 0 <= j < k ==> Cooperates(cs[j], ins[j], m)
  }

  lemma StartIsOnCourse(tcp: bool, samples: seq<Pose>)
    requires samples != []
    ensures var c := Start(tcp, samples); OnCourse(c) && ToGo(c) == 200 + Rest(tcp, samples, 0)
  {
  }

  lemma {:induction false} RunProgresses(cs: seq<State>, ins: seq<Input>, m: Metric, k: nat)
    requires Run(cs, ins, m) && cs[0].samples != [] && k <= |ins| && AllCooperate(cs, ins, m, k)
    requires k <= ToGo(cs[0])
    ensures OnCourse(cs[k]) && ToGo(cs[k]) == ToGo(cs[0]) - k
    ensures cs[k].samples == cs[0].samples && cs[k].tcpEnabled == cs[0].tcpEnabled
  {
    if k == 0 {
      StartIsOnCourse(cs[0].tcpEnabled, cs[0].samples);
    } else {
      RunProgresses(cs, ins, m, k - 1);
      RunKeepsShape(cs, ins, m, k - 1);
      var next := Tick(cs[k - 1], k, ins[k - 1], m);
      assert Cooperates(cs[k - 1], ins[k - 1], m);
      TickProgresses(cs[k - 1], k, ins[k - 1], m);
    }
  }

  /** The whole of a collection of the 73 samples. */
  function Total(tcp: bool): nat { if tcp then 10272 else 11294 }

  lemma {:induction false} RestOfTheSet(tcp: bool, samples: seq<Pose>, s: nat)
    requires |samples| == 73 && Follows(samples) && s <= 73
    ensures var c := CollectTicks(tcp);
            Rest(tcp, samples, s) == if s >= 55 then (73 - s) * (363 + c) else (55 - s) * (63 + c) + 18 * (363 + c)
    decreases 73 - s
  {
    if s < 73 {
      RestOfTheSet(tcp, samples, s + 1);
      RotationsComeLast(s);
    }
  }

  /** In a run of the collector's own 73 samples in which everything goes well, the collection ends after
      exactly 10272 ticks with TCP, with one acknowledged record for each sample in order, and after 11294
      without, with fifteen for each; the tick after that returns 0 and stops the plan. */
  lemma CollectionCompletes(cs: seq<State>, ins: seq<Input>, m: Metric)
    requires Run(cs, ins, m) && |cs[0].samples| == 73 && Follows(cs[0].samples) && AllCooperate(cs, ins, m, |ins|)
    ensures var total := Total(cs[0].tcpEnabled);
            && |ins| <= total + 1
            && (forall k :: 0 <= k < |cs| && k < total ==> !cs[k].stage.Finish?)
            && (|ins| >= total ==>
                  && cs[total].stage.Finish?
                  && if cs[0].tcpEnabled then AllAcknowledged(cs[total].records, 73)
                     else FifteenEach(cs[total].records, 73, 0))
            && (|ins| > total ==> Tick(cs[total], total + 1, ins[total], m).1 == 0)
  {
    var total := Total(cs[0].tcpEnabled);
    RestOfTheSet(cs[0].tcpEnabled, cs[0].samples, 0);
    StartIsOnCourse(cs[0].tcpEnabled, cs[0].samples);
    forall k | 0 <= k < |cs| && k <= total ensures OnCourse(cs[k]) && ToGo(cs[k]) == total - k {
      RunProgresses(cs, ins, m, k);
    }
    if |ins| >= total {
      RunProgresses(cs, ins, m, total);
      NothingToGo(cs[total]);
    }
    if |ins| > total {
      assert Cooperates(cs[total], ins[total], m);
      assert Tick(cs[total], total + 1, ins[total], m).1 == 0;
    }
  }

  lemma NothingToGo(c: State)
    requires OnCourse(c) && c.samples != [] && ToGo(c) == 0
    ensures c.stage.Finish? && c.sample == |c.samples|
  {
  }

  // ---------------------------------------------------------------- such runs exist

  /** A pose is no distance from itself. */
  ghost predicate Exact(m: Metric) { forall p: Pose :: m.pos(p, p) == 0.0 && m.rot(p, p) == 0.0 }

  lemma NoDistanceIsReached(p: Pose, offset: Pose, m: Metric)
    requires Exact(m)
    ensures PoseReached(p, p, offset, m) && BaselineReached(p, p, m)
  {
    assert m.pos(p, p) == 0.0 && m.rot(p, p) == 0.0;
  }

  lemma PositiveAnswer(n: nat) returns (line: string)
    requires n < 0x8000_0000
    ensures AckSample(line) == n && SaysOk(line)
  {
    line := Reply(n, true);
    ReplyNamesItsSample(n, true);
    NamedSampleIsRead(line, n);
  }

  lemma StillIsNoContact(f: Force)
    requires forall k :: 0 <= k < 6 ==> f[k] == 0.0
    ensures !Dangerous(f) && !Beyond(f[2], 5.0)
  {
  }

  lemma CooperationIsPossible(c: State, m: Metric) returns (i: Input)
    requires c.sample <= |c.samples| == 73 && Exact(m)
    ensures Cooperates(c, i, m)
  {
    var still: Force := [0.0, 0.0, 0.0, 0.0, 0.0, 0.0];
    StillIsNoContact(still);
    var line := PositiveAnswer(c.sample);
    var pose, offset := Home(c), ORIGIN;
    if c.sample < |c.samples| && (c.stage.Preapproach? || c.stage.Contact?) {
      pose, offset := Place(c), c.samples[c.sample];
    }
    NoDistanceIsReached(pose, offset, m);
    i := Input(0, true, pose, still, true, true, AckLine(line));
  }

  predicate TickOf(cs: seq<State>, ins: seq<Input>, m: Metric, k: nat)
    requires k < |ins| < |cs|
  {
    Tick(cs[k], k + 1, ins[k], m) == (cs[k + 1], MAX_COUNT - k - 1)
  }

  predicate Ticks(cs: seq<State>, ins: seq<Input>, m: Metric) {
    |cs| == |ins| + 1 && forall k: nat | k < |ins| :: TickOf(cs, ins, m, k)
  }

  lemma TicksMakeRun(cs: seq<State>, ins: seq<Input>, m: Metric)
    requires Ticks(cs, ins, m) && |ins| < MAX_COUNT && cs[0] == Start(cs[0].tcpEnabled, cs[0].samples)
    ensures Run(cs, ins, m)
  {
    forall k | 0 <= k < |ins| ensures Tick(cs[k], k + 1, ins[k], m) == (cs[k + 1], MAX_COUNT - k - 1) {
      assert TickOf(cs, ins, m, k);
    }
  }

  lemma OneMoreTick(cs: seq<State>, ins: seq<Input>, c: State, i: Input, m: Metric)
    requires Ticks(cs, ins, m) && Tick(cs[|ins|], |ins| + 1, i, m) == (c, MAX_COUNT - |ins| - 1)
    ensures Ticks(cs + [c], ins + [i], m)
  {
    var cs', ins' := cs + [c], ins + [i];
    forall k: nat | k < |ins'| ensures TickOf(cs', ins', m, k) {
      if k < |ins| { assert TickOf(cs, ins, m, k); }
    }
  }

  lemma {:induction false} GoodTicks(tcp: bool, samples: seq<Pose>, m: Metric, n: nat)
    returns (cs: seq<State>, ins: seq<Input>)
    requires |samples| == 73 && Exact(m) && n <= 200 + Rest(tcp, samples, 0) && n < MAX_COUNT
    ensures Ticks(cs, ins, m) && |ins| == n && AllCooperate(cs, ins, m, n) && cs[0] == Start(tcp, samples)
    ensures OnCourse(cs[n]) && ToGo(cs[n]) == 200 + Rest(tcp, samples, 0) - n && cs[n].samples == samples
  {
    if n == 0 {
      cs, ins := [Start(tcp, samples)], [];
      StartIsOnCourse(tcp, samples);
    } else {
      cs, ins := GoodTicks(tcp, samples, m, n - 1);
      var c := cs[n - 1];
      var i := CooperationIsPossible(c, m);
      TickProgresses(c, n, i, m);
      var c' := Tick(c, n, i, m).0;
      OneMoreTick(cs, ins, c', i, m);
      OneMoreCooperates(cs, ins, c', i, m);
      cs, ins := cs + [c'], ins + [i];
    }
  }

  lemma OneMoreCooperates(cs: seq<State>, ins: seq<Input>, c: State, i: Input, m: Metric)
    requires |cs| == |ins| + 1 && AllCooperate(cs, ins, m, |ins|) && Cooperates(cs[|ins|], i, m)
    ensures AllCooperate(cs + [c], ins + [i], m, |ins| + 1)
  {
    forall j {:trigger (ins + [i])[j]} | 0 <= j < |ins| + 1 ensures Cooperates((cs + [c])[j], (ins + [i])[j], m) {
      if j < |ins| { assert Cooperates(cs[j], ins[j], m); }
    }
  }

  /** From the start, with or without TCP, there is such a run of any length up to the end. */
  lemma CollectionIsPossible(tcp: bool, samples: seq<Pose>, m: Metric, n: nat)
    returns (cs: seq<State>, ins: seq<Input>)
    requires |samples| == 73 && Follows(samples) && Exact(m) && n <= Total(tcp)
    ensures Run(cs, ins, m) && |ins| == n && AllCooperate(cs, ins, m, n) && cs[0] == Start(tcp, samples)
  {
    RestOfTheSet(tcp, samples, 0);
    cs, ins := GoodTicks(tcp, samples, m, n);
    TicksMakeRun(cs, ins, m);
  }
}
