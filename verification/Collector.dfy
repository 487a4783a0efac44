/** The tactile collector's stage machine (tactile_collect_real.cpp:54-134 and 647-1906): the function
    that specifies one tick, and the class that performs it field by field. */
module Collector {
  import opened Basics
  import opened JsonText
  import opened ProgressMonitor
  import opened SampleSet

  const MAX_COUNT: int := 900000
  const SETTLE_COUNT: nat := 60
  const COLLECT_COUNT: nat := 15
  const STABILIZE_COUNT: nat := 300
  const ACK_TIMEOUT: nat := 6000
  const BASELINE_SAMPLES: nat := 200

  const POS_TOL: real := 0.0003
  const ROT_TOL: real := 0.015
  const RETREAT_POS_TOL: real := 0.0012
  const RETREAT_ROT_TOL: real := 0.030
  const SOFT_POS_TOL: real := 0.0020
  const SOFT_ROT_TOL: real := 0.050

  datatype Stage = InitBaseline | Preapproach | Contact | Settle | Collect | Retreat | Finish | RotStabilize | Recover

  datatype Record = Record(sample: nat, target: Pose, flag: int, tcpOk: bool, message: string, ack: string)

  type Force = f: seq<real> | |f| == 6 witness [0.0, 0.0, 0.0, 0.0, 0.0, 0.0]

  /** The two error measures between poses: the Euclidean distance and the rotation angle. */
  datatype Metric = Metric(pos: (Pose, Pose) -> real, rot: (Pose, Pose) -> real)

  datatype TcpEvent = Nothing | AckLine(line: string) | PeerClosed

  /** What one tick reads: the pose and force measured, whether inverse kinematics and the request
      succeeded, and what the socket had to say. */
  datatype Input = Input(model: int, sensorOk: bool, actual: Pose, force: Force,
                         ikOk: bool, sendOk: bool, event: TcpEvent)

  /** The request sent to the tactile collector: whether one is out, for how many ticks, for which sample. */
  datatype Request = Request(active: bool, wait: nat, sample: int)

  const NO_REQUEST := Request(false, 0, -1)

  /** The pose every sample is offset from, fixed once enough force readings were averaged. */
  datatype Baseline = Baseline(ready: bool, count: nat, pose: Pose)

  datatype State = State(stage: Stage, mon: Monitor, settle: nat, collected: nat, sample: nat, stabilized: nat,
                         flag: int, request: Request, target: Pose, baseline: Baseline,
                         tcpEnabled: bool, samples: seq<Pose>, records: seq<Record>)

  // ---------------------------------------------------------------- measurements

  function ContactFlag(f: Force): (flag: int)
    ensures 0 <= flag <= 3
  {
    var fz := Abs(f[2]);
    if Abs(f[0]) >= 20.0 || Abs(f[1]) >= 20.0 || fz >= 15.0
       || Abs(f[3]) >= 2.0 || Abs(f[4]) >= 2.0 || Abs(f[5]) >= 2.0 then 3
    else if fz >= 5.0 then 2
    else if fz >= 2.0 then 1
    else 0
  }

  predicate Beyond(x: real, limit: real) { x >= limit || x <= -limit }

  /** 20 N sideways, 15 N along the axis or 2 Nm about any. */
  predicate Dangerous(f: Force) {
    Beyond(f[0], 20.0) || Beyond(f[1], 20.0) || Beyond(f[2], 15.0)
    || Beyond(f[3], 2.0) || Beyond(f[4], 2.0) || Beyond(f[5], 2.0)
  }

  /** What the four levels of contact mean, in either direction of every axis. */
  lemma ContactLevels(f: Force)
    ensures ContactFlag(f) >= 3 <==> Dangerous(f)
    ensures ContactFlag(f) >= 2 <==> Dangerous(f) || Beyond(f[2], 5.0)
    ensures ContactFlag(f) >= 1 <==> Dangerous(f) || Beyond(f[2], 2.0)
  {
  }

  /** Pressing harder on every axis never lowers the flag. */
  lemma HarderContactIsNotLower(f: Force, g: Force)
    requires forall i :: 0 <= i < 6 ==> Abs(f[i]) <= Abs(g[i])
    ensures ContactFlag(f) <= ContactFlag(g)
  {
    assert Abs(f[0]) <= Abs(g[0]) && Abs(f[1]) <= Abs(g[1]) && Abs(f[2]) <= Abs(g[2]);
    assert Abs(f[3]) <= Abs(g[3]) && Abs(f[4]) <= Abs(g[4]) && Abs(f[5]) <= Abs(g[5]);
  }

  function Plus(p: Pose, q: Pose): Pose { seq(6, i requires 0 <= i < 6 => p[i] + q[i]) }

  predicate Commanded(x: real) { Abs(x) > 0.000000000001 }

  predicate PoseReached(actual: Pose, target: Pose, offset: Pose, m: Metric) {
    var posErr, rotErr := m.pos(actual, target), m.rot(actual, target);
    if forall i :: 0 <= i < 6 ==> !Commanded(offset[i]) then posErr <= POS_TOL && rotErr <= ROT_TOL
    else if IsRot(offset) then posErr <= 0.0040 && rotErr <= 0.0020
    else
      && Abs(actual[0] - target[0]) <= (if Commanded(offset[0]) then 0.00018 else 0.00090)
      && Abs(actual[1] - target[1]) <= (if Commanded(offset[1]) then 0.00018 else 0.00090)
      && Abs(actual[2] - target[2]) <= (if Commanded(offset[2]) then 0.00018 else 0.00120)
      && rotErr <= 0.020
  }

  predicate AxisNear(actual: Pose, target: Pose, axis: nat, tolerance: real)
    requires axis < 6
  {
    -tolerance <= actual[axis] - target[axis] <= tolerance
  }

  /** When each of the 73 samples counts as reached: the ideal pose within 0.3 mm, rotations within 4 mm and
      0.002 rad, and translations within 0.18 mm along the axes they are offset on, 0.9 mm sideways and
      1.2 mm along the tool on those they are not. The baseline counts as reached within 1.2 mm and 0.03 rad. */
  lemma ArrivalOfSample(i: nat, actual: Pose, target: Pose, m: Metric)
    requires i < 73
    ensures var pos, rot, offset := m.pos(actual, target), m.rot(actual, target), SampleAt(i);
            PoseReached(actual, target, offset, m) <==>
              if i == 0 then pos <= 0.0003 && rot <= 0.015
              else if i >= 55 then pos <= 0.004 && rot <= 0.002
              else
                && AxisNear(actual, target, 0, if offset[0] != 0.0 then 0.00018 else 0.0009)
                && AxisNear(actual, target, 1, if offset[1] != 0.0 then 0.00018 else 0.0009)
                && AxisNear(actual, target, 2, if offset[2] != 0.0 then 0.00018 else 0.0012)
                && rot <= 0.02
    ensures BaselineReached(actual, target, m)
       <==> m.pos(actual, target) <= 0.0012 && m.rot(actual, target) <= 0.03
  {
    RotationsComeLast(i);
    OffsetsAreClear(i);
    if i > 0 { IdealIsAlone(i); }
  }

  predicate BaselineReached(actual: Pose, target: Pose, m: Metric) {
    m.pos(actual, target) <= RETREAT_POS_TOL && m.rot(actual, target) <= RETREAT_ROT_TOL
  }

  predicate BaselineSoftSafe(actual: Pose, target: Pose, m: Metric) {
    m.pos(actual, target) <= SOFT_POS_TOL && m.rot(actual, target) <= SOFT_ROT_TOL
  }

  function AckSample(line: string): int { IntValue(line, "sample_id", -999999) }

  // ---------------------------------------------------------------- moves between stages

  function Enter(c: State, stage: Stage): State { c.(stage := stage, mon := RESET) }

  function Noted(c: State, force: Force): State { c.(flag := Max(c.flag, ContactFlag(force))) }

  function Written(c: State, flag: int, ok: bool, message: string, ack: string): State {
    c.(records := c.records + [Record(c.sample, c.target, flag, ok, message, ack)])
  }

  function DangerRetreat(c: State): State {
    Enter(Written(c.(flag := 3), 3, false, "danger_before_tcp_collect", ""), Retreat)
  }

  function HoldAndCollect(c: State, actual: Pose): State {
    Enter(c.(target := actual, flag := Max(c.flag, 2), settle := 0), Settle)
  }

  function NextSample(c: State): State {
    c.(sample := c.sample + 1, mon := RESET, settle := 0, collected := 0, stabilized := 0, flag := 0,
       request := NO_REQUEST, stage := if c.sample + 1 >= |c.samples| then Finish else Preapproach)
  }

  function CollectDone(c: State, ok: bool, message: string, ack: string): State {
    Enter(Written(c, Max(c.flag, 1), ok, message, ack).(request := Request(false, 0, c.request.sample)), Retreat)
  }

  /** One monitor call; a refusal leads to `fallback`. */
  function Wait(c: State, actual: Pose, m: Metric, fallback: Stage): State {
    var (mon, status) := Update(c.mon, m.pos(actual, c.target), m.rot(actual, c.target));
    if status.KeepWaiting? then c.(mon := mon) else Enter(c, fallback)
  }

  // ---------------------------------------------------------------- the stages

  function Offset(c: State): Pose
    requires c.sample < |c.samples|
  {
    c.samples[c.sample]
  }

  function Aimed(c: State, offset: Pose): State {
    if c.mon.wait == 0 then c.(target := Plus(c.baseline.pose, offset)) else c
  }

  function PreapproachTick(c: State, i: Input, m: Metric): State
    requires c.sample < |c.samples|
  {
    var c1 := Aimed(c, Offset(c));
    if !i.ikOk then Enter(c1, Retreat)
    else
      var c2 := Noted(c1, i.force);
      if ContactFlag(i.force) >= 3 then DangerRetreat(c2)
      else if PoseReached(i.actual, c2.target, Offset(c), m) then Enter(c2, Contact)
      else Wait(c2, i.actual, m, Retreat)
  }

  function ContactTick(c: State, i: Input, m: Metric): State
    requires c.sample < |c.samples|
  {
    var c1 := Aimed(c, Offset(c));
    if !i.ikOk then Enter(c1, Retreat)
    else
      var c2 := Noted(c1, i.force);
      if ContactFlag(i.force) >= 3 then DangerRetreat(c2)
      else if ContactFlag(i.force) >= 2 then HoldAndCollect(c2, i.actual)
      else if PoseReached(i.actual, c2.target, Offset(c), m) then Enter(c2.(settle := 0), Settle)
      else Wait(c2, i.actual, m, Retreat)
  }

  function SettleTick(c: State, i: Input): State {
    var c1 := Noted(c, i.force);
    if ContactFlag(i.force) >= 3 then DangerRetreat(c1)
    else
      var c2 := c1.(settle := c.settle + 1);
      if c2.settle >= SETTLE_COUNT then
        c2.(stage := Collect, collected := 0, request := NO_REQUEST)
      else c2
  }

  /** Without TCP the stage writes a record every tick; with it, it waits for the matching answer. */
  function CollectTick(c: State, i: Input): State {
    var c1 := Noted(c, i.force);
    if !i.ikOk then CollectDone(c1, false, "collect_hold_ik_failed", "")
    else if !c.tcpEnabled then
      var c2 := Written(c1, Max(c1.flag, 1), false, "tcp_disabled_robot_only", "").(collected := c.collected + 1);
      if ContactFlag(i.force) >= 3 || c2.collected >= COLLECT_COUNT then Enter(c2, Retreat) else c2
    else if !c.request.active && !i.sendOk then
      Enter(Written(c1, Max(c1.flag, 1), false, "tcp_send_failed", ""), Retreat)
    else AwaitAck(if c.request.active then c1 else c1.(request := Request(true, 0, c.sample)), i.event)
  }

  /** A line for another sample ends the tick at once; a closed connection drops the request. */
  function AwaitAck(c: State, e: TcpEvent): State {
    if e.AckLine? && AckSample(e.line) != c.request.sample then c
    else if e.AckLine? then
      var ok := AckOk(e.line);
      CollectDone(c, ok, if ok then "tcp_ack_ok" else "tcp_ack_nack", e.line)
    else
      var c1 := c.(request := Request(c.request.active && !e.PeerClosed?, c.request.wait + 1, c.request.sample));
      if c1.request.wait >= ACK_TIMEOUT then CollectDone(c1, false, "tcp_ack_timeout", "") else c1
  }

  function RetreatTick(c: State, i: Input, m: Metric): State
    requires c.sample < |c.samples|
  {
    var c1 := Aimed(c, ORIGIN);
    if !i.ikOk then Enter(c1, Recover)
    else if BaselineReached(i.actual, c1.target, m) then
      (if IsRot(Offset(c)) then Enter(c1.(stabilized := 0), RotStabilize) else NextSample(c1))
    else Wait(c1, i.actual, m, Recover)
  }

  function RotStabilizeTick(c: State, i: Input, m: Metric): State {
    var c1 := c.(target := Plus(c.baseline.pose, ORIGIN));
    if !i.ikOk then Enter(c1, Recover)
    else if BaselineReached(i.actual, c1.target, m) then
      var c2 := c1.(stabilized := c.stabilized + 1);
      if c2.stabilized >= STABILIZE_COUNT then NextSample(c2) else c2
    else Wait(c1.(stabilized := 0), i.actual, m, Recover)
  }

  /** Returns false when the plan stops with -5. */
  function RecoverTick(c: State, i: Input, m: Metric): (State, bool)
    requires c.sample < |c.samples|
  {
    var c1 := Aimed(c, ORIGIN);
    if !i.ikOk then (c1, false)
    else if BaselineReached(i.actual, c1.target, m) then
      (if IsRot(Offset(c)) then Enter(c1.(stabilized := 0), RotStabilize) else NextSample(c1), true)
    else
      var (mon, status) := Update(c1.mon, m.pos(i.actual, c1.target), m.rot(i.actual, c1.target));
      if status.KeepWaiting? then (c1.(mon := mon), true)
      else if BaselineSoftSafe(i.actual, c1.target, m) then (NextSample(c1.(mon := mon)), true)
      else (c1.(mon := mon), false)
  }

  function BaselineTick(c: State, i: Input): State {
    if !i.sensorOk then c
    else
      var c1 := c.(baseline := c.baseline.(count := c.baseline.count + 1));
      if c1.baseline.count >= BASELINE_SAMPLES then
        Enter(c1.(baseline := Baseline(true, c1.baseline.count, Plus(i.actual, ORIGIN))), Preapproach)
      else c1
  }

  /** The scheduler's call number `count`: the state after it and the value returned, which stops the
      plan at 0 and below. */
  function Tick(c: State, count: int, i: Input, m: Metric): (State, int) {
    if count > MAX_COUNT then (c, -3)
    else if i.model != 0 && i.model != 1 then (c, -2)
    else if !c.baseline.ready then (BaselineTick(c, i), MAX_COUNT - count)
    else if c.sample >= |c.samples| || c.stage.Finish? then
      (if c.sample >= |c.samples| then c.(stage := Finish) else c, 0)
    else match c.stage
      case Preapproach => (PreapproachTick(c, i, m), MAX_COUNT - count)
      case Contact => (ContactTick(c, i, m), MAX_COUNT - count)
      case Settle => (SettleTick(c, i), MAX_COUNT - count)
      case Collect => (CollectTick(c, i), MAX_COUNT - count)
      case Retreat => (RetreatTick(c, i, m), MAX_COUNT - count)
      case RotStabilize => (RotStabilizeTick(c, i, m), MAX_COUNT - count)
      case Recover => var (c1, go) := RecoverTick(c, i, m); (c1, if go then MAX_COUNT - count else -5)
      case _ => (c, MAX_COUNT - count)
  }

  function Start(tcp: bool, samples: seq<Pose>): State {
    State(InitBaseline, RESET, 0, 0, 0, 0, 0, NO_REQUEST, ORIGIN, Baseline(false, 0, ORIGIN), tcp, samples, [])
  }

  // ---------------------------------------------------------------- the class

  class TactileCollectReal {
    var stage: Stage
    var mon: Monitor
    var settle: nat
    var collected: nat
    var sample: nat
    var stabilized: nat
    var flag: int
    var request: Request
    var target: Pose
    var baseline: Baseline
    var tcpEnabled: bool
    var samples: seq<Pose>
    var records: seq<Record>

    function Snapshot(): State
      reads this
    {
      State(stage, mon, settle, collected, sample, stabilized, flag, request, target, baseline,
            tcpEnabled, samples, records)
    }

    constructor (tcp: bool)
      ensures Snapshot() == Start(tcp, samples) && |samples| == 73 && Follows(samples)
    {
      stage, mon := InitBaseline, RESET;
      settle, collected, sample, stabilized, flag := 0, 0, 0, 0, 0;
      request, target := NO_REQUEST, ORIGIN;
      baseline := Baseline(false, 0, ORIGIN);
      tcpEnabled := tcp;
      records := [];
      var s := BuildSampleSet();
      samples := s;
    }

    method ResetWaitMonitor()
      modifies this`mon
      ensures mon == RESET
    {
      mon := RESET;
    }

    method UpdateWaitMonitor(pos: real, rot: real) returns (status: Status)
      modifies this`mon
      ensures (mon, status) == Update(old(mon), pos, rot)
    {
      if pos < mon.bestPos - POS_EPS || rot < mon.bestRot - ROT_EPS {
        mon := mon.(bestPos := MinReal(mon.bestPos, pos), bestRot := MinReal(mon.bestRot, rot));
        mon := mon.(noProgress := 0);
      } else {
        mon := mon.(noProgress := mon.noProgress + 1);
      }
      mon := mon.(wait := mon.wait + 1);
      if mon.wait >= HARD_MAX {
        return HardTimeout;
      }
      if mon.noProgress >= NO_PROGRESS_LIMIT {
        return Stuck;
      }
      return KeepWaiting;
    }

    method UpdateContactFlag(force: Force) returns (now: int)
      modifies this`flag
      ensures now == ContactFlag(force) && flag == Max(old(flag), now)
    {
      now := ContactFlag(force);
      if now > flag {
        flag := now;
      }
    }

    method WriteOneRecord(recordFlag: int, ok: bool, message: string, ack: string)
      modifies this`records
      ensures records == old(records) + [Record(sample, target, recordFlag, ok, message, ack)]
    {
      records := records + [Record(sample, target, recordFlag, ok, message, ack)];
    }

    method RecordDangerAndRetreat()
      modifies this`flag, this`records, this`stage, this`mon
      ensures Snapshot() == DangerRetreat(old(Snapshot()))
    {
      flag := 3;
      WriteOneRecord(3, false, "danger_before_tcp_collect", "");
      stage := Retreat;
      ResetWaitMonitor();
    }

    method HoldCurrentPoseAndCollect(actual: Pose)
      modifies this`target, this`flag, this`stage, this`mon, this`settle
      ensures Snapshot() == HoldAndCollect(old(Snapshot()), actual)
    {
      target := actual;
      flag := Max(flag, 2);
      stage := Settle;
      ResetWaitMonitor();
      settle := 0;
    }

    method GotoNextSample()
      modifies this`sample, this`mon, this`settle, this`collected, this`stabilized, this`flag, this`request, this`stage
      ensures Snapshot() == NextSample(old(Snapshot()))
    {
      sample := sample + 1;
      ResetWaitMonitor();
      settle := 0;
      collected := 0;
      stabilized := 0;
      flag := 0;
      request := NO_REQUEST;
      if sample >= |samples| {
        stage := Finish;
      } else {
        stage := Preapproach;
      }
    }

    method WaitOr(actual: Pose, m: Metric, fallback: Stage)
      modifies this`mon, this`stage
      ensures Snapshot() == Wait(old(Snapshot()), actual, m, fallback)
    {
      var status := UpdateWaitMonitor(m.pos(actual, target), m.rot(actual, target));
      if !status.KeepWaiting? {
        stage := fallback;
        ResetWaitMonitor();
      }
    }

    method RunPreapproach(i: Input, m: Metric)
      requires sample < |samples|
      modifies this`target, this`flag, this`stage, this`mon, this`records
      ensures Snapshot() == PreapproachTick(old(Snapshot()), i, m)
    {
      if mon.wait == 0 {
        target := Plus(baseline.pose, samples[sample]);
      }
      if !i.ikOk {
        stage := Retreat;
        ResetWaitMonitor();
        return;
      }
      var force := UpdateContactFlag(i.force);
      if force >= 3 {
        RecordDangerAndRetreat();
        return;
      }
      if PoseReached(i.actual, target, samples[sample], m) {
        stage := Contact;
        ResetWaitMonitor();
      } else {
        WaitOr(i.actual, m, Retreat);
      }
    }

    method RunContact(i: Input, m: Metric)
      requires sample < |samples|
      modifies this`target, this`flag, this`stage, this`mon, this`records, this`settle
      ensures Snapshot() == ContactTick(old(Snapshot()), i, m)
    {
      if mon.wait == 0 {
        target := Plus(baseline.pose, samples[sample]);
      }
      if !i.ikOk {
        stage := Retreat;
        ResetWaitMonitor();
        return;
      }
      var force := UpdateContactFlag(i.force);
      if force >= 3 {
        RecordDangerAndRetreat();
        return;
      }
      if force >= 2 {
        HoldCurrentPoseAndCollect(i.actual);
        return;
      }
      if PoseReached(i.actual, target, samples[sample], m) {
        stage := Settle;
        ResetWaitMonitor();
        settle := 0;
      } else {
        WaitOr(i.actual, m, Retreat);
      }
    }

    method RunSettle(i: Input)
      modifies this`flag, this`stage, this`mon, this`records, this`settle, this`collected, this`request
      ensures Snapshot() == SettleTick(old(Snapshot()), i)
    {
      var force := UpdateContactFlag(i.force);
      if force >= 3 {
        RecordDangerAndRetreat();
        return;
      }
      settle := settle + 1;
      if settle >= SETTLE_COUNT {
        stage := Collect;
        collected := 0;
        request := NO_REQUEST;
      }
    }

    method FinishCollect(ok: bool, message: string, ack: string)
      modifies this`records, this`request, this`stage, this`mon
      ensures Snapshot() == CollectDone(old(Snapshot()), ok, message, ack)
    {
      WriteOneRecord(Max(flag, 1), ok, message, ack);
      request := Request(false, 0, request.sample);
      stage := Retreat;
      ResetWaitMonitor();
    }

    method RunCollect(i: Input)
      modifies this`flag, this`records, this`collected, this`stage, this`mon, this`request
      ensures Snapshot() == CollectTick(old(Snapshot()), i)
    {
      var force := UpdateContactFlag(i.force);
      if !i.ikOk {
        FinishCollect(false, "collect_hold_ik_failed", "");
        return;
      }
      if !tcpEnabled {
        WriteOneRecord(Max(flag, 1), false, "tcp_disabled_robot_only", "");
        collected := collected + 1;
        if force >= 3 || collected >= COLLECT_COUNT {
          stage := Retreat;
          ResetWaitMonitor();
        }
        return;
      }
      if !request.active {
        if !i.sendOk {
          WriteOneRecord(Max(flag, 1), false, "tcp_send_failed", "");
          stage := Retreat;
          ResetWaitMonitor();
          return;
        }
        request := Request(true, 0, sample);
      }
      RunAwaitAck(i.event);
    }

    method RunAwaitAck(e: TcpEvent)
      modifies this`records, this`stage, this`mon, this`request
      ensures Snapshot() == AwaitAck(old(Snapshot()), e)
    {
      if e.AckLine? {
        var id := GetJsonIntValue(e.line, "sample_id", -999999);
        if id != request.sample {
          return;
        }
        var ok := AckOk(e.line);
        FinishCollect(ok, if ok then "tcp_ack_ok" else "tcp_ack_nack", e.line);
        return;
      }
      if e.PeerClosed? {
        request := request.(active := false);
      }
      request := request.(wait := request.wait + 1);
      if request.wait >= ACK_TIMEOUT {
        FinishCollect(false, "tcp_ack_timeout", "");
      }
    }

    method RunRetreat(i: Input, m: Metric)
      requires sample < |samples|
      modifies this`target, this`stage, this`mon, this`sample, this`settle, this`collected,
               this`stabilized, this`flag, this`request
      ensures Snapshot() == RetreatTick(old(Snapshot()), i, m)
    {
      if mon.wait == 0 {
        target := Plus(baseline.pose, ORIGIN);
      }
      if !i.ikOk {
        stage := Recover;
        ResetWaitMonitor();
        return;
      }
      if BaselineReached(i.actual, target, m) {
        if IsRot(samples[sample]) {
          stage := RotStabilize;
          stabilized := 0;
          ResetWaitMonitor();
        } else {
          GotoNextSample();
        }
      } else {
        WaitOr(i.actual, m, Recover);
      }
    }

    method RunRotStabilize(i: Input, m: Metric)
      modifies this`target, this`stage, this`mon, this`sample, this`settle, this`collected,
               this`stabilized, this`flag, this`request
      ensures Snapshot() == RotStabilizeTick(old(Snapshot()), i, m)
    {
      target := Plus(baseline.pose, ORIGIN);
      if !i.ikOk {
        stage := Recover;
        ResetWaitMonitor();
        return;
      }
      if BaselineReached(i.actual, target, m) {
        stabilized := stabilized + 1;
        if stabilized >= STABILIZE_COUNT {
          GotoNextSample();
        }
      } else {
        stabilized := 0;
        WaitOr(i.actual, m, Recover);
      }
    }

    method RunRecover(i: Input, m: Metric) returns (go: bool)
      requires sample < |samples|
      modifies this`target, this`stage, this`mon, this`sample, this`settle, this`collected,
               this`stabilized, this`flag, this`request
      ensures (Snapshot(), go) == RecoverTick(old(Snapshot()), i, m)
    {
      if mon.wait == 0 {
        target := Plus(baseline.pose, ORIGIN);
      }
      if !i.ikOk {
        return false;
      }
      if BaselineReached(i.actual, target, m) {
        if IsRot(samples[sample]) {
          stage := RotStabilize;
          stabilized := 0;
          ResetWaitMonitor();
        } else {
          GotoNextSample();
        }
        return true;
      }
      var status := UpdateWaitMonitor(m.pos(i.actual, target), m.rot(i.actual, target));
      if status.KeepWaiting? {
        return true;
      }
      if BaselineSoftSafe(i.actual, target, m) {
        GotoNextSample();
        return true;
      }
      return false;
    }

    method ExecuteRT(count: int, i: Input, m: Metric) returns (ret: int)
      modifies this
      ensures (Snapshot(), ret) == Tick(old(Snapshot()), count, i, m)
    {
      if count > MAX_COUNT {
        return -3;
      }
      if i.model != 0 && i.model != 1 {
        return -2;
      }
      ret := MAX_COUNT - count;
      if !baseline.ready {
        if !i.sensorOk {
          return;
        }
        baseline := baseline.(count := baseline.count + 1);
        if baseline.count >= BASELINE_SAMPLES {
          baseline := Baseline(true, baseline.count, Plus(i.actual, ORIGIN));
          stage := Preapproach;
          ResetWaitMonitor();
        }
        return;
      }
      if sample >= |samples| {
        stage := Finish;
      }
      if stage.Finish? {
        return 0;
      }
      if stage.Preapproach? {
        RunPreapproach(i, m);
      } else if stage.Contact? {
        RunContact(i, m);
      } else if stage.Settle? {
        RunSettle(i);
      } else if stage.Collect? {
        RunCollect(i);
      } else if stage.Retreat? {
        RunRetreat(i, m);
      } else if stage.RotStabilize? {
        RunRotStabilize(i, m);
      } else if stage.Recover? {
        var go := RunRecover(i, m);
        if !go {
          return -5;
        }
      }
    }
  }
}
