/** The progress monitor at work in the collector (tactile_collect_real.cpp:1076-1115 and 1466-1905): the
    consecutive ticks of one movement stage are one list of monitor calls. */
module CollectorWaiting {
  import opened ProgressMonitor
  import opened SampleSet
  import opened Collector
  import opened CollectorSafety

  /** The stages that move towards a pose and wait for it. */
  predicate Moves(stage: Stage) { stage.Preapproach? || stage.Contact? || stage.Retreat? || stage.Recover? }

  /** The pose such a stage moves to. */
  function Aim(c: State): Pose
    requires c.sample < |c.samples|
  {
    if c.stage.Preapproach? || c.stage.Contact? then Place(c) else Home(c)
  }

  function ErrorTo(target: Pose, i: Input, m: Metric): Err { Err(m.pos(i.actual, target), m.rot(i.actual, target)) }

  /** A tick that stays in a movement stage is one monitor call that says to keep waiting, and a tick that
      enters one leaves the monitor reset. */
  predicate Monitors(c: State, i: Input, m: Metric, c': State) {
    Moves(c'.stage) ==>
      if c'.stage == c.stage then
        && c.sample < |c.samples|
        && (var e := ErrorTo(Aim(c), i, m); Update(c.mon, e.pos, e.rot) == (c'.mon, KeepWaiting))
      else c'.mon == RESET
  }

  lemma PreapproachMonitors(c: State, i: Input, m: Metric)
    requires Shape(c) && c.sample < |c.samples| && c.stage.Preapproach?
    ensures Monitors(c, i, m, PreapproachTick(c, i, m))
  {
  }

  lemma ContactMonitors(c: State, i: Input, m: Metric)
    requires Shape(c) && c.sample < |c.samples| && c.stage.Contact?
    ensures Monitors(c, i, m, ContactTick(c, i, m))
  {
  }

  lemma SettleMonitors(c: State, i: Input, m: Metric)
    requires Shape(c) && c.sample < |c.samples| && c.stage.Settle?
    ensures Monitors(c, i, m, SettleTick(c, i))
  {
  }

  lemma CollectMonitors(c: State, i: Input, m: Metric)
    requires Shape(c) && c.sample < |c.samples| && c.stage.Collect?
    ensures Monitors(c, i, m, CollectTick(c, i))
  {
  }

  lemma RetreatMonitors(c: State, i: Input, m: Metric)
    requires Shape(c) && c.sample < |c.samples| && c.stage.Retreat?
    ensures Monitors(c, i, m, RetreatTick(c, i, m))
  {
  }

  lemma RotStabilizeMonitors(c: State, i: Input, m: Metric)
    requires Shape(c) && c.sample < |c.samples| && c.stage.RotStabilize?
    ensures Monitors(c, i, m, RotStabilizeTick(c, i, m))
  {
  }

  lemma RecoverMonitors(c: State, i: Input, m: Metric)
    requires Shape(c) && c.sample < |c.samples| && c.stage.Recover?
    ensures var (c', go) := RecoverTick(c, i, m); go ==> Monitors(c, i, m, c')
  {
  }

  lemma TickMonitors(c: State, count: int, i: Input, m: Metric)
    requires Shape(c) && Tick(c, count, i, m).1 > 0
    ensures Monitors(c, i, m, Tick(c, count, i, m).0)
  {
    if c.baseline.ready {
      match c.stage
      case Preapproach => PreapproachMonitors(c, i, m);
      case Contact => ContactMonitors(c, i, m);
      case Settle => SettleMonitors(c, i, m);
      case Collect => CollectMonitors(c, i, m);
      case Retreat => RetreatMonitors(c, i, m);
      case RotStabilize => RotStabilizeMonitors(c, i, m);
      case Recover => RecoverMonitors(c, i, m);
    }
  }

  /** Ticks `first` to `last` of a run are all in one movement stage, entered at `first`. */
  predicate OneStage(cs: seq<State>, ins: seq<Input>, first: nat, last: nat) {
    && 0 < first <= last < |ins| < |cs|
    && Moves(cs[first].stage) && cs[first - 1].stage != cs[first].stage
    && forall k :: first <= k <= last ==> cs[k].stage == cs[first].stage
  }

  /** The pose errors those ticks hand to the monitor. */
  function Errors(cs: seq<State>, ins: seq<Input>, m: Metric, first: nat, last: nat): (errs: seq<Err>)
    requires first <= last < |ins| < |cs| && cs[first].sample < |cs[first].samples|
    ensures |errs| == last - first
  {
    seq(last - first, j requires 0 <= j < last - first => ErrorTo(Aim(cs[first]), ins[first + j], m))
  }

  lemma {:induction false} StageIsOneWait(cs: seq<State>, ins: seq<Input>, m: Metric, first: nat, last: nat)
    requires Run(cs, ins, m) && OneStage(cs, ins, first, last)
    requires cs[first].sample < |cs[first].samples|
    ensures cs[last].sample == cs[first].sample && cs[last].samples == cs[first].samples
    ensures cs[last].baseline == cs[first].baseline && cs[last].baseline.ready
    ensures var errs := Errors(cs, ins, m, first, last);
            StillWaiting(errs) && After(errs) == cs[last].mon && (errs != [] ==> LastStatus(errs).KeepWaiting?)
    decreases last
  {
    TickOfRun(cs, ins, m, last - 1);
    RunKeepsShape(cs, ins, m, last);
    var errs := Errors(cs, ins, m, first, last);
    if first < last {
      StageIsOneWait(cs, ins, m, first, last - 1);
      assert Aim(cs[last - 1]) == Aim(cs[first]);
      OneMoreError(cs, ins, m, first, last);
    }
  }

  lemma OneMoreError(cs: seq<State>, ins: seq<Input>, m: Metric, first: nat, last: nat)
    requires first < last < |ins| < |cs| && cs[first].sample < |cs[first].samples|
    ensures Errors(cs, ins, m, first, last)[..last - first - 1] == Errors(cs, ins, m, first, last - 1)
    ensures Errors(cs, ins, m, first, last)[last - first - 1] == ErrorTo(Aim(cs[first]), ins[last - 1], m)
  {
  }

  lemma TickOfRun(cs: seq<State>, ins: seq<Input>, m: Metric, k: nat)
    requires Run(cs, ins, m) && k < |ins| - 1
    ensures Shape(cs[k]) && Effect(cs[k], ins[k], m, cs[k + 1]) && Monitors(cs[k], ins[k], m, cs[k + 1])
  {
    RunKeepsShape(cs, ins, m, k);
    var next := Tick(cs[k], k + 1, ins[k], m);
    TickMonitors(cs[k], k + 1, ins[k], m);
  }

  /** Every movement stage of every run is left: it lasts fewer than 30000 ticks, and at most one more than
      2500 for every improvement of the pose error, of which there are at most 1 + p0/pos_eps + r0/rot_eps. */
  lemma StageIsLeft(cs: seq<State>, ins: seq<Input>, m: Metric, first: nat, last: nat)
    requires Run(cs, ins, m) && OneStage(cs, ins, first, last) && first < last
    requires cs[first].sample < |cs[first].samples| && Plausible(Errors(cs, ins, m, first, last))
    ensures var errs := Errors(cs, ins, m, first, last);
            && last - first <= HARD_MAX && last - first <= NO_PROGRESS_LIMIT * Improvements(errs) + 1
            && Improvements(errs) as real <= 1.0 + Potential(errs[0].pos, errs[0].rot)
  {
    StageIsOneWait(cs, ins, m, first, last);
    WaitingIsBounded(Errors(cs, ins, m, first, last));
  }

  // ---------------------------------------------------------------- when a stage is given up

  /** The tick measures no contact that ends the approach, and has not arrived. */
  predicate Waits(c: State, i: Input, m: Metric)
    requires c.sample < |c.samples|
  {
    && ModelOk(i) && i.ikOk
    && match c.stage
       case Preapproach => ContactFlag(i.force) < 3 && !PoseReached(i.actual, Place(c), Offset(c), m)
       case Contact => ContactFlag(i.force) < 2 && !PoseReached(i.actual, Place(c), Offset(c), m)
       case _ => !BaselineReached(i.actual, Home(c), m)
  }

  /** What giving the stage up leads to: the approach is broken off without a record, the retreat turns into
      recovery, and recovery accepts the pose within 2 mm and 0.05 rad of the baseline or stops the plan. */
  predicate Abandons(c: State, i: Input, m: Metric, c': State, ret: int) {
    c'.records == c.records
    && match c.stage
       case Preapproach => c'.stage.Retreat? && c'.mon == RESET && c'.sample == c.sample
       case Contact => c'.stage.Retreat? && c'.mon == RESET && c'.sample == c.sample
       case Recover =>
         if m.pos(i.actual, Home(c)) <= 0.002 && m.rot(i.actual, Home(c)) <= 0.05 then c'.sample == c.sample + 1
         else ret == -5 && c'.sample == c.sample
       case _ => c'.stage.Recover? && c'.mon == RESET && c'.sample == c.sample
  }

  predicate GoesOn(c: State, count: int, c': State, ret: int) {
    c'.stage == c.stage && c'.sample == c.sample && c'.records == c.records && ret == MAX_COUNT - count
  }

  lemma ApproachWaits(c: State, count: int, i: Input, m: Metric)
    requires Shape(c) && count <= MAX_COUNT && c.sample < |c.samples| && Waits(c, i, m)
    requires c.stage.Preapproach? || c.stage.Contact?
    ensures var (c', ret) := Tick(c, count, i, m); var e := ErrorTo(Place(c), i, m);
            if Update(c.mon, e.pos, e.rot).1.KeepWaiting? then GoesOn(c, count, c', ret) else Abandons(c, i, m, c', ret)
  {
  }

  lemma WayBackWaits(c: State, count: int, i: Input, m: Metric)
    requires Shape(c) && count <= MAX_COUNT && c.sample < |c.samples| && Waits(c, i, m)
    requires c.stage.Retreat? || c.stage.Recover? || c.stage.RotStabilize?
    ensures var (c', ret) := Tick(c, count, i, m); var e := ErrorTo(Home(c), i, m);
            if Update(c.mon, e.pos, e.rot).1.KeepWaiting? then GoesOn(c, count, c', ret) else Abandons(c, i, m, c', ret)
  {
  }

  /** In every run a movement stage is given up at a tick that has not arrived exactly when the stage has had
      30000 ticks or none of its last 2500 brought an error down; until then it goes on. */
  lemma StageIsGivenUpIff(cs: seq<State>, ins: seq<Input>, m: Metric, first: nat, last: nat)
    requires Run(cs, ins, m) && OneStage(cs, ins, first, last)
    requires cs[first].sample < |cs[first].samples| && cs[last].sample < |cs[last].samples|
    requires Waits(cs[last], ins[last], m)
    ensures var errs := Errors(cs, ins, m, first, last) + [ErrorTo(Aim(cs[first]), ins[last], m)];
            var (c', ret) := Tick(cs[last], last + 1, ins[last], m);
            if GivenUp(errs) then Abandons(cs[last], ins[last], m, c', ret) else GoesOn(cs[last], last + 1, c', ret)
  {
    var init, e := Errors(cs, ins, m, first, last), ErrorTo(Aim(cs[first]), ins[last], m);
    StageIsOneWait(cs, ins, m, first, last);
    RunKeepsShape(cs, ins, m, last);
    assert (init + [e])[..|init|] == init;
    GivesUpIff(init + [e]);
    if cs[last].stage.Preapproach? || cs[last].stage.Contact? {
      ApproachWaits(cs[last], last + 1, ins[last], m);
    } else {
      WayBackWaits(cs[last], last + 1, ins[last], m);
    }
  }

  // ---------------------------------------------------------------- stabilizing

  /** Ticks `first` to `last` of a run stabilize the same rotational sample. */
  predicate Stabilizes(cs: seq<State>, ins: seq<Input>, first: nat, last: nat) {
    && 0 < first <= last < |ins| < |cs|
    && !cs[first - 1].stage.RotStabilize? && forall k :: first <= k <= last ==> cs[k].stage.RotStabilize?
  }

  /** The pose errors of those among the ticks that were off the baseline. */
  function OffErrors(cs: seq<State>, ins: seq<Input>, m: Metric, first: nat, last: nat): seq<Err>
    requires first <= last < |ins| < |cs|
    decreases last
  {
    if first == last then []
    else
      var before := OffErrors(cs, ins, m, first, last - 1);
      if BaselineReached(ins[last - 1].actual, Home(cs[last - 1]), m) then before
      else before + [ErrorTo(Home(cs[last - 1]), ins[last - 1], m)]
  }

  lemma StabilizingTick(c: State, count: int, i: Input, m: Metric)
    requires Shape(c) && Tick(c, count, i, m).1 > 0 && Tick(c, count, i, m).0.stage.RotStabilize?
    ensures var c' := Tick(c, count, i, m).0;
            if !c.stage.RotStabilize? then c'.mon == RESET
            else if BaselineReached(i.actual, Home(c), m) then c'.mon == c.mon
            else var e := ErrorTo(Home(c), i, m); c'.mon == Update(c.mon, e.pos, e.rot).0
  {
    if c.baseline.ready {
      match c.stage
      case Preapproach => PreapproachMonitors(c, i, m);
      case Contact => ContactMonitors(c, i, m);
      case _ =>
    }
  }

  lemma {:induction false} StabilizingIsOneWait(cs: seq<State>, ins: seq<Input>, m: Metric, first: nat, last: nat)
    requires Run(cs, ins, m) && Stabilizes(cs, ins, first, last)
    ensures After(OffErrors(cs, ins, m, first, last)) == cs[last].mon
    decreases last
  {
    RunKeepsShape(cs, ins, m, last - 1);
    var next := Tick(cs[last - 1], last, ins[last - 1], m);
    StabilizingTick(cs[last - 1], last, ins[last - 1], m);
    if first < last {
      StabilizingIsOneWait(cs, ins, m, first, last - 1);
      var before := OffErrors(cs, ins, m, first, last - 1);
      var e := ErrorTo(Home(cs[last - 1]), ins[last - 1], m);
      assert (before + [e])[..|before|] == before;
    }
  }

  /** Stabilizing is given up for recovery at a tick off the baseline exactly when it has had 30000 such
      ticks or none of the last 2500 of them brought an error down. */
  lemma StabilizingIsGivenUpIff(cs: seq<State>, ins: seq<Input>, m: Metric, first: nat, last: nat)
    requires Run(cs, ins, m) && Stabilizes(cs, ins, first, last)
    requires cs[last].sample < |cs[last].samples| && Waits(cs[last], ins[last], m)
    ensures var errs := OffErrors(cs, ins, m, first, last) + [ErrorTo(Home(cs[last]), ins[last], m)];
            var (c', ret) := Tick(cs[last], last + 1, ins[last], m);
            if GivenUp(errs) then Abandons(cs[last], ins[last], m, c', ret) else GoesOn(cs[last], last + 1, c', ret)
  {
    var before, e := OffErrors(cs, ins, m, first, last), ErrorTo(Home(cs[last]), ins[last], m);
    StabilizingIsOneWait(cs, ins, m, first, last);
    RunKeepsShape(cs, ins, m, last);
    assert (before + [e])[..|before|] == before;
    GivesUpIff(before + [e]);
    WayBackWaits(cs[last], last + 1, ins[last], m);
  }
}
