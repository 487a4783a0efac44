/** Client, TCP server and real-time driver around one queue, as steps between which any other
    party may run: every locked section of the server is one step, and so is every stretch of
    driver code between two of them. A run is any list of actions; an action that is not
    enabled leaves the state as it is, so every interleaving is covered. */
module PolicyProtocol {
  import opened Keyframes
  import opened PolicyServer
  import opened PolicyDriver

  /** Where the driver stands inside its cycle. */
  datatype Pc =
    | CycleStart
    | PopFinished                                             // a segment has just ended
    | Peek(attempt: nat)
    | SkipPop(attempt: nat, seen: Keyframe, ref: Keyframe, reading: Keyframe) // `seen` is over a threshold from `ref`
    | Probe                                                   // nothing acceptable: peek once more, for the log
    | SeqForLog(goal: Keyframe)                               // `goal` was accepted
    | SizeForLog(goal: Keyframe, seq_: nat)
    | ReadTarget
    | StopClearBatch
    | StopClearTarget
    | Stopped

  datatype Client = Ready | AwaitAck | MustPoll | GotStatus(remaining: nat)

  datatype Request = Malformed | Rows(rows: seq<JsonRow>)

  /** A batch request under way; it is not `live` once its client has given the connection up. */
  datatype Line = Line(request: Request, live: bool)

  /** How an accepted keyframe left the queue: removed at the end of a segment whose last command
      was `lastCommand`, removed as over a threshold, or discarded by a replace or a clear. */
  datatype Fate =
    | Executed(lastCommand: Keyframe)
    | Skipped(seen: Keyframe, ref: Keyframe, reading: Keyframe, era: nat)
    | Dropped

  datatype CommandLog = CommandLog(command: Command, n: int, era: nat, session: nat)
  datatype SegmentLog = SegmentLog(id: nat, q0: Keyframe, q1: Keyframe, n: int, era: nat)

  /** What an observer writes down; no step reads it. `fates[i]` belongs to `accepted[i]`. An era
      ends when the driver adopts another commit number, a session when it is reset. */
  datatype History = History(accepted: seq<Keyframe>, fates: seq<Fate>, commands: seq<CommandLog>,
                             segments: seq<SegmentLog>, peeked: nat, era: nat, session: nat)

  datatype System = System(queue: seq<Keyframe>, commitSeq: nat, targetQ: seq<real>, stopFlag: bool,
                           driver: Driver, pc: Pc, client: Client, wire: seq<Line>, hist: History)

  const INITIAL: System :=
    System([], 0, [], false, RESET, CycleStart, Ready, [], History([], [], [], [], 0, 0, 0))

  datatype Action =
    | DriverStep(reading: Keyframe)
    | ClientSend(request: Request)
    | ServerCommit(i: nat)
    | ServerReject(i: nat)
    | ServerStatus
    | ClientRead
    | GiveUp                       // idle timeout or a broken connection
    | SetJoints(q: seq<real>)
    | StopRequest
    | CliClearBatch
    | CliClearTarget
    | Restart

  // ---------------------------------------------------------------- observer

  function LastCommand(h: History): Keyframe {
    if h.commands == [] then ZERO else h.commands[|h.commands| - 1].command.q
  }

  function NoteCommand(h: History, c: Command, n: int): History {
    h.(commands := h.commands + [CommandLog(c, n, h.era, h.session)])
  }

  function DroppedFates(k: nat): (f: seq<Fate>)
    ensures |f| == k && forall i :: 0 <= i < k ==> f[i] == Dropped
  {
    seq(k, i => Dropped)
  }

  // ---------------------------------------------------------------- steps of the parties

  /** `pop_policy_batch_front`, with the claim the driver makes about the keyframe it removes. */
  function Pop(s: System, claim: Fate): System {
    if s.queue == [] then s
    else s.(queue := Popped(s.queue), hist := s.hist.(fates := s.hist.fates + [claim]))
  }

  /** The locked section that replaces the queue. */
  function Replace(s: System, batch: seq<Keyframe>): System {
    s.(queue := batch, commitSeq := s.commitSeq + 1,
       hist := s.hist.(accepted := s.hist.accepted + batch, fates := s.hist.fates + DroppedFates(|s.queue|)))
  }

  function StartOfCycle(s: System): System {
    var d := s.driver;
    if s.stopFlag then
      s.(stopFlag := false, driver := RESET, pc := StopClearBatch,
         hist := s.hist.(era := s.hist.era + 1, session := s.hist.session + 1))
    else if d.seg.active then
      var seg := Advanced(d.seg);
      s.(driver := d.(seg := seg), pc := if seg.active then CycleStart else PopFinished,
         hist := NoteCommand(s.hist, Batch(Lerp(d.seg)), d.seg.n))
    else
      s.(driver := SyncSeq(d, s.commitSeq), pc := Peek(0),
         hist := s.hist.(era := s.hist.era + if s.commitSeq != d.activeSeq then 1 else 0))
  }

  function PeekFront(s: System, attempt: nat, reading: Keyframe, lim: Limits): System {
    if s.queue == [] then s.(pc := Probe)
    else
      var goal, ref := s.queue[0], Reference(s.driver, reading);
      if Exceeds(ref, goal, lim) then s.(pc := SkipPop(attempt, goal, ref, reading))
      else s.(pc := SeqForLog(goal), hist := s.hist.(peeked := |s.hist.fates|))
  }

  function StartBatchSegment(s: System, goal: Keyframe, seqLog: nat, reading: Keyframe, lim: Limits): System
    requires lim.Valid()
  {
    var d := BeginBatch(s.driver, goal, reading, seqLog, lim);
    var h := s.hist.(segments := s.hist.segments +
      [SegmentLog(s.hist.peeked, d.seg.q0, d.seg.q1, d.seg.n, s.hist.era)]);
    s.(driver := d, pc := if d.seg.active then CycleStart else PopFinished,
       hist := NoteCommand(h, Batch(FirstCommand(s.driver, goal, reading, lim)), d.seg.n))
  }

  function LegacyStep(s: System, reading: Keyframe, lim: Limits): System
    requires lim.Valid()
  {
    var (d, command) := LegacyCycle(s.driver, s.targetQ, reading, lim);
    s.(driver := d, pc := CycleStart,
       hist := if command.Some? then NoteCommand(s.hist, command.value, 1) else s.hist)
  }

  function StepDriver(s: System, reading: Keyframe, lim: Limits): System
    requires lim.Valid()
  {
    match s.pc
    case CycleStart => StartOfCycle(s)
    case PopFinished => Pop(s, Executed(LastCommand(s.hist))).(pc := CycleStart)
    case Peek(attempt) => PeekFront(s, attempt, reading, lim)
    case SkipPop(attempt, seen, ref, at) =>
      Pop(s, Skipped(seen, ref, at, s.hist.era)).(pc := if attempt + 1 < MAX_SKIPS then Peek(attempt + 1) else Probe)
    case Probe => s.(pc := if s.driver.batchMode then CycleStart else ReadTarget)
    case SeqForLog(goal) => s.(pc := SizeForLog(goal, s.commitSeq))
    case SizeForLog(goal, seqLog) => StartBatchSegment(s, goal, seqLog, reading, lim)
    case ReadTarget => LegacyStep(s, reading, lim)
    case StopClearBatch => Replace(s, []).(pc := StopClearTarget)
    case StopClearTarget => s.(targetQ := [], pc := Stopped)
    case Stopped => s
  }

  function Without(wire: seq<Line>, i: nat): seq<Line>
    requires i < |wire|
  {
    wire[..i] + wire[i + 1..]
  }

  /** The client's connection is gone: what it sent may still reach the server. */
  function GivenUp(wire: seq<Line>): seq<Line> {
    seq(|wire|, i requires 0 <= i < |wire| => wire[i].(live := false))
  }

  function Apply(s: System, a: Action, lim: Limits): System
    requires lim.Valid()
  {
    match a
    case DriverStep(reading) => StepDriver(s, reading, lim)
    case ClientSend(request) =>
      if s.client.Ready? then s.(client := AwaitAck, wire := s.wire + [Line(request, true)]) else s
    case ServerCommit(i) =>
      if i < |s.wire| && s.wire[i].request.Rows? then
        Replace(s, ParseBatch(s.wire[i].request.rows)).
          (wire := Without(s.wire, i), client := if s.wire[i].live then MustPoll else s.client)
      else s
    case ServerReject(i) =>
      if i < |s.wire| && s.wire[i].request.Malformed? then
        s.(wire := Without(s.wire, i), client := if s.wire[i].live then Ready else s.client)
      else s
    case ServerStatus => if s.client.MustPoll? then s.(client := GotStatus(|s.queue|)) else s
    case ClientRead =>
      if s.client.GotStatus? then s.(client := if s.client.remaining == 0 then Ready else MustPoll) else s
    case GiveUp => s.(client := Ready, wire := GivenUp(s.wire))
    case SetJoints(q) => if q == [] then s else s.(targetQ := q)
    case StopRequest => s.(stopFlag := true)
    case CliClearBatch => Replace(s, [])
    case CliClearTarget => s.(targetQ := [])
    case Restart =>
      if s.pc.Stopped? then
        s.(pc := CycleStart, stopFlag := false, driver := RESET,
           hist := s.hist.(era := s.hist.era + 1, session := s.hist.session + 1))
      else s
  }

  function Exec(s: System, actions: seq<Action>, lim: Limits): System
    requires lim.Valid()
    decreases |actions|
  {
    if actions == [] then s else Exec(Apply(s, actions[0], lim), actions[1..], lim)
  }

  // ---------------------------------------------------------------- kinds of runs

  /** The steps that throw the present queue away. */
  predicate Replaces(s: System, a: Action) {
    match a
    case ServerCommit(i) => i < |s.wire| && s.wire[i].request.Rows?
    case CliClearBatch => true
    case DriverStep(_) => s.pc.StopClearBatch?
    case _ => false
  }

  /** Every replace and every clear finds the queue empty. */
  predicate Orderly(s: System, actions: seq<Action>, lim: Limits)
    requires lim.Valid()
    decreases |actions|
  {
    actions == []
    || ((Replaces(s, actions[0]) ==> s.queue == []) && Orderly(Apply(s, actions[0], lim), actions[1..], lim))
  }

  /** The client keeps waiting until it has read `remaining == 0`, and nobody stops the plan. */
  predicate Disciplined(a: Action) {
    !(a.GiveUp? || a.StopRequest? || a.CliClearBatch? || a.CliClearTarget? || a.Restart?)
  }

  predicate AllDisciplined(actions: seq<Action>) {
    forall i :: 0 <= i < |actions| ==> Disciplined(actions[i])
  }
}
