# A10 policy control, tactile collection and device codecs: model and proofs

This project models, in Dafny, the parts of the A10 robot software whose correctness depends on
several pieces working together, and proves what they keep over every run.

* **Policy batches.** A Python client sends batches of seven-axis keyframes and polls until the queue
  is empty; the TCP server replaces the queue under a lock; the real-time driver peeks, filters,
  interpolates and pops. `PolicyProtocol` is a state machine with one step for every locked section
  and every stretch of driver code between two of them; a run is any list of actions, so every
  interleaving is covered. Conservation of keyframes is in `PolicyConservation`, what becomes of each of
  them and what a waiting client may rely on in `PolicyPromise`, the commanded trajectory in
  `PolicyMotion`, the uninterrupted cycle in `PolicyDriver`; `PolicyRefinement` shows that the lock-level
  steps of one undisturbed cycle are that cycle, `PolicyDrain` how long the queue lasts in every
  interleaving, `PolicyChain` which batches are executed without a skip, `PolicyPace` which segments keep
  the configured speed, and `PolicyLoss` what an impatient client loses.
  `PolicyClient` is the client's polling loop and one cycle of the bridge, as actions of the protocol;
  `LegacyTarget` follows the single-target fallback over many cycles.
* **End-effector deltas.** `EeDelta` has the real step order: data stored under a mutex, number raised
  afterwards, number loaded before the mutex is taken.
* **The tactile collector.** `Collector` is the nine-stage machine as a class with the specification
  beside it; `CollectorSafety` proves what every run keeps, `CollectorReactions` what it must not fail to do,
  `CollectorCompletion` what a collection in which all goes well takes and leaves, `CollectorTermination` how
  long a sample lasts, `ProgressMonitor` and `CollectorWaiting` when a stage is given up, `SampleSet` what the
  73 offsets are.
* **Codecs and calibration.** `LineFraming`, `JsonText`, `CsvText`, `ServoFrame`, `GripperTable`.
* **Control arithmetic.** `ForceCheck` (debounced force check and phase chain), `Admittance`,
  `TrapezoidProfile`.

Measured poses, joint readings, forces, the success of inverse kinematics and what arrives on a socket
are arbitrary inputs at every tick. Doubles are reals. Fields that the source updates in place are
fields of a class whose methods are proved against functions on values; the theorems are about those
functions.

## What turned out otherwise than its surroundings suggest

* A batch replaces the whole queue, and the pop at the end of a segment takes whatever is in front by
  then. Nothing is lost exactly when every replace and clear finds the queue empty
  (`NothingDroppedIffOrderly`); a client that stops waiting loses a keyframe it was told was accepted
  and sees another one popped as if executed (`ImpatientClientLosesKeyframe`).
* The client's README calls `remaining` the number of steps not executed. The queue also loses keyframes
  that were skipped as over a threshold, so `remaining == 0` means executed or skipped
  (`SkippedBatchLooksDone` is a run of a waiting client that reads 0 and had nothing executed). All of a
  batch is executed exactly when each of its keyframes is within the thresholds of the one before it, and
  the first of the joint reading it is compared with (`BatchIsExecutedIffItChains`): a test the sender can
  make. A skipped keyframe was compared with the last goal started before it, or with a joint reading when
  there was none (`SkipsAreReasoned`).
* A segment of n periods advances by the gap over n - 1, so a period moves an axis by up to n/(n-1) of
  its configured pace, at most twice. It keeps the configured pace exactly when the whole move takes no
  more than one period at it (`SegmentKeepsPaceIff`); every longer move exceeds it on some axis, and a move
  of 0.0016 rad under the built-in limits runs at twice the speed (`TwicePace`).
* One delta post can be delivered three times (`ThreeDeliveriesHappen`); a delivered post can come again
  exactly when it was delivered under a number lower than its own (`RedeliveryIff`). After a clear a fetch
  misses exactly the post whose number the reader consumed last (`FetchAfterClear`). A stop request
  precedes every clear, so the reader it concerns delivers at most once more, and only if the request fell
  inside its tick (`StopAllowsOneMore`); the next reader misses nothing (`NewReaderMissesNothing`).
* Closing the connection clears the collector's request flag and thereby restarts the wait for an answer:
  a connection that keeps closing holds one sample until the limit on the whole run
  (`FlappingConnectionMayLastTheRun`). So does a rotational sample that keeps returning from recovery
  (`RotationalSampleMayLastTheRun`). What each such event may add is bounded (`SampleEnds`).
* While it waits for the network's answer the collector does not react to dangerous contact
  (`AnswerEndsTheWait` and `SilenceEndsTheWaitIff` hold for every force); it does while it approaches and
  settles (`DangerEndsTheSample`), and in a collection without TCP (`RobotOnlyCollection`).
* A wrong length byte in a servo frame passes exactly when the byte it makes the last one is the checksum
  of those before it (`WrongLengthPassesIff`, `ShortLengthPassesIff`); every other wrong byte is noticed.
* Control characters other than newline, return and tab do not survive the collector's own JSON escaper
  and reader (`FieldReadsBack` is an equivalence), though a standard reader restores them
  (`StandardReaderRestores`).
* The CSV writer ends its rows with LF, while section 2 of RFC 4180 has CRLF. A reader that takes LF too
  reads the rows back; a strict one reads a row back exactly when CRLF ends it, and rejects the collector's
  own (`RecordReadsBack` states both).
* The trapezoid profile keeps its speed exactly when the rise ends on a whole millisecond or in the second
  half of one. Moves whose rise takes about a millisecond may also pass their goal or fall: `SampledProfile`
  and `SampledSpeed` give the exact conditions for all switch times. From rises of three milliseconds on
  it never passes its goal, and never falls exactly when the move ends on a whole millisecond or in the
  second half of one (`AmpleMoves`). The first call of a short move agrees with the profile only up to a
  bound on its count, because it still looks at the nominal duration (`ShortMoveFirstCall`); called from
  count 0 it is right.
* A "yes" of the debounced force check vouches for a tick of its window exactly when the check was called
  at that tick (`YesVouchesExactlyForCalls`); calls at every fiftieth tick are enough for one
  (`SparseCallsStillAnswer`).
* The admittance displacement counts the acceleration twice, so its bound holds for a gain of at most one
  half, not one (`DisplacementBound` is an equivalence; `DisplacementBeyondHalf` is the bound for larger
  gains); `velDeadZone` takes its argument by value and bounds nothing.
* The gripper interpolation never divides by zero, not even for tables with equal neighbours: a search that
  starts below the value meets it first in a segment of positive width.

## Model

| member | source | states |
|---|---|---|
| Keyframes.Configure | a10_policy_tcp_plan.cpp:453-471 | A parameter is taken exactly when it exceeds 1e-9, so the limits stay usable whatever is given. |
| Keyframes.PadSeven | a10_policy_tcp_plan.cpp:87-97 | Seven entries: the given ones, cut at seven, then zeros. |
| Keyframes.AxisStepsLeast | a10_policy_tcp_plan.cpp:102-107 | The ceiling per axis is the least number of periods that covers the gap at the permitted speed. |
| Keyframes.BlendStepsLeast | a10_policy_tcp_plan.cpp:99-115 | A number of periods is at least the segment length if and only if every axis covers its gap in it. |
| Keyframes.BlendStepsSeven | a10_policy_tcp_plan.cpp:99-115 | The loop returns the least number of periods of 1/500 s, at least one, in which each arm joint makes its way at the arm speed and the gripper at the gripper speed. |
| Keyframes.LeastInTime | a10_policy_tcp_plan.cpp:99-115 | The segment length is at most n if and only if n periods suffice at the two configured speeds. |
| Keyframes.BatchKeyframeExceedsThreshold | a10_policy_tcp_plan.cpp:186-217 | Reports no violation exactly when the six arm joints are within the arm threshold and the gripper within its own; otherwise the first axis that is not, with its gap. |
| Keyframes.LerpQ | a10_policy_tcp_plan.cpp:128-138 | The interpolation loop computes the specified point on all seven axes. |
| Keyframes.LerpEnds | a10_policy_tcp_plan.cpp:117-138 | A segment starts exactly on q0 and its last command is exactly q1. |
| Keyframes.LerpAdvance | a10_policy_tcp_plan.cpp:119-138 | Consecutive commands differ by exactly the total gap over n-1, not over n. |
| PolicyPace.SegmentKeepsPaceIff | a10_policy_tcp_plan.cpp:99-174 | A segment keeps the configured speed on every axis and step if and only if one period at that speed would do for the whole move. |
| PolicyPace.PaceIsExceededBy | a10_policy_tcp_plan.cpp:119-138 | On an axis that needs all n periods every step is exactly n/(n-1) of the configured speed. |
| PolicyPace.TwicePace | a10_policy_tcp_plan.cpp:99-138 | Under the built-in limits a move of 0.0016 rad runs at twice the configured speed. |
| PolicyServer.BatchArrivesUnchanged | client/robot_tcp_client.py:134-154 | Rows sent for seven-axis keyframes are queued unchanged, complete and in order. |
| PolicyServer.EachRowAlone | a10_tcp_server.cpp:511-545 | Wherever it stands in a request, an element that is no array or holds no number leaves nothing and disturbs no other; any other leaves its numbers, cut to seven or filled up with zeros. |
| PolicyServer.A10TcpServer.PeekPolicyBatchFront | a10_tcp_server.cpp:219-228 | Hands out the front keyframe exactly when there is one. |
| PolicyServer.A10TcpServer.PopPolicyBatchFront | a10_tcp_server.cpp:230-237 | Removes the front keyframe, and nothing from an empty queue. |
| PolicyServer.A10TcpServer.PolicyStatus | a10_tcp_server.cpp:303-316 | One locked reading: idle exactly when nothing remains. |
| PolicyServer.A10TcpServer.ClearPolicyTcpTargets | a10_tcp_server.cpp:257-269 | Empties queue, target and delta, raises the commit number. |
| PolicyServer.A10TcpServer.ClearEeDeltaTarget | a10_tcp_server.cpp:271-278 | Clears the delta data and restarts its number at 0. |
| PolicyServer.A10TcpServer.SetJointsBatch | a10_tcp_server.cpp:492-568 | The usable rows, padded to seven, replace the whole queue under a new commit number. |
| PolicyServer.A10TcpServer.SetJoints | a10_tcp_server.cpp:623-628 | A single target replaces the last one unless it holds no number. |
| PolicyServer.A10TcpServer.SetEeDelta | a10_tcp_server.cpp:463-482 | Stores the padded delta and raises the number by one. |
| PolicyServer.A10TcpServer.FetchEeDeltaIfUpdated | a10_tcp_server.cpp:285-301 | Delivers the stored delta exactly when its number is neither 0 nor the consumed one. |
| PolicyDriver.SkipScanMeaning | a10_policy_tcp_plan.cpp:294-331 | The scan removes only over-threshold keyframes from the front, at most 64, and stops early only at an acceptable or missing one. |
| PolicyDriver.CycleSkipsSixtyFour | a10_policy_tcp_plan.cpp:294-331 | A cycle that meets nothing acceptable removes 64 keyframes, or all there are, and commands no batch motion. |
| PolicyDriver.A10PolicyTcpDriver.ResetMotionState | a10_policy_tcp_plan.cpp:257-267 | All motion state returns to its initial value; the limits stay. |
| PolicyDriver.A10PolicyTcpDriver.TickBatchSegment | a10_policy_tcp_plan.cpp:176-184 | Issues the segment's present command and ends the segment after its last one. |
| PolicyDriver.A10PolicyTcpDriver.TickLegacySegment | a10_policy_tcp_plan.cpp:406-414 | The same for the single-target segment, which remembers its goal when it ends. |
| PolicyDriver.A10PolicyTcpDriver.StartSegment | a10_policy_tcp_plan.cpp:151-174 | A new segment has the least sufficient length, at least the required minimum. |
| PolicyDriver.A10PolicyTcpDriver.ScanForGoal | a10_policy_tcp_plan.cpp:294-331 | The skip loop on the server's queue does what the specified scan does. |
| PolicyDriver.A10PolicyTcpDriver.RunLegacy | a10_policy_tcp_plan.cpp:396-427 | The single-target branch, with its reset on a missing target and its change test. |
| PolicyDriver.A10PolicyTcpDriver.RunOneCycle | a10_policy_tcp_plan.cpp:269-427 | A whole cycle leaves exactly the fields, queue and command of the specified one. |
| PolicyDriver.AcceptedSegmentIsShort | a10_policy_tcp_plan.cpp:99-115 | A keyframe within the thresholds needs at most max(2, arm ceiling, gripper ceiling) periods. |
| PolicyDriver.MaxStepsLeast | a10_policy_tcp_plan.cpp:99-115 | Nmax is the least number of periods, two at least, in which the thresholds can be covered at the configured speeds. |
| PolicyDriver.TickMakesProgress | a10_policy_tcp_plan.cpp:269-388 | Every cycle strictly lowers the bound on the cycles left, executed or skipped, for any reading. |
| PolicyDriver.DrainsWithin | a10_policy_tcp_plan.cpp:269-388 | From any state in step, the queue is empty once the bound has passed. |
| PolicyDriver.QueueDrains | a10_policy_tcp_plan.cpp:294-388 | T queued keyframes are gone after T * Nmax cycles for every mix of executed and skipped ones. |
| PolicyConservation.StepKeepsBooks | a10_tcp_server.cpp:219-255 | Every step, replaces and clears included, keeps: fates of a prefix of the accepted keyframes, the queue is the rest in order. |
| PolicyConservation.RunKeepsBooks | a10_tcp_server.cpp:219-255 | The same over every run of all parties. |
| PolicyConservation.NothingDroppedIffOrderly | a10_tcp_server.cpp:562-566 | No accepted keyframe is discarded if and only if every replace and clear finds the queue empty. |
| PolicyConservation.DriverKeepsFaith | a10_policy_tcp_plan.cpp:269-388 | The keyframe the driver is working on is the one in front of the queue, through all its unlocked stretches. |
| PolicyPromise.SkipsAreReasoned | a10_policy_tcp_plan.cpp:280-331 | In every run a skipped keyframe was compared with the goal of the last segment started before it in its era, and with a joint reading of that step if and only if there was none. |
| PolicyPromise.OrderlyRunsAccountForAll | a10_policy_tcp_plan.cpp:269-388 | In orderly runs each keyframe leaves once, in order: reached exactly by the last command of its segment, or over a threshold from that goal or reading. |
| PolicyConservation.StepKeepsWaiting | client/robot_tcp_client.py:120-154 | A waiting client that may send knows the queue is empty, whatever the others do. |
| PolicyConservation.DisciplinedRunsAreOrderly | client/robot_tcp_client.py:120-154 | Waiting for `remaining == 0` makes every interleaving orderly. |
| PolicyPromise.DisciplinedClientLosesNothing | client/robot_tcp_client.py:120-154 | In every interleaving the same holds for each accepted keyframe of a waiting client; on `remaining == 0` all have left and no segment is active. |
| PolicyLoss.ImpatientClientLosesKeyframe | client/bridge.py:115-140 | For all keyframes, move lengths and cycles of the move: after an idle timeout and a new batch one accepted keyframe is discarded in mid-move and the next is popped unexecuted. |
| PolicyMotion.SmallStepIsTwicePace | a10_policy_tcp_plan.cpp:119-126 | n/(n-1) of the pace is at most twice the pace. |
| PolicyMotion.SegmentStepIsSmall | a10_policy_tcp_plan.cpp:119-138 | Inside a segment every axis moves by at most n/(n-1) of its pace. |
| PolicyMotion.RunStaysSafe | a10_policy_tcp_plan.cpp:269-427 | The four invariants behind the motion theorems hold in every run, stops, clears and restarts included. |
| PolicyMotion.CommandsAreContinuous | a10_policy_tcp_plan.cpp:99-184 | Consecutive batch commands under one adopted commit number differ per axis by at most n/(n-1), hence twice, the pace. |
| PolicyMotion.CommandsKeepTwiceTheSpeed | a10_policy_tcp_plan.cpp:99-184 | Such commands differ by at most 2*armVel/500 on each arm joint and 2*gripVel/500 on the gripper. |
| PolicyMotion.SegmentsFollowAcceptance | a10_policy_tcp_plan.cpp:356-387 | Started keyframes are a subsequence of the accepted ones; a segment of n periods is one the configured speeds allow in n periods; inside an era each starts on the previous goal and ends within the arm and gripper thresholds of it. |
| PolicyMotion.BatchModeIsFinal | a10_policy_tcp_plan.cpp:390-394 | After a batch command no legacy command follows until a reset. |
| PolicyMotion.SegmentsEndOnTheirGoal | a10_policy_tcp_plan.cpp:356-387 | A finished segment's last command is exactly its keyframe. |
| PolicyRefinement.ScanRefines | a10_policy_tcp_plan.cpp:294-427 | Peek, compare, pop at lock granularity, undisturbed, is the specified scan and what follows it. |
| PolicyRefinement.CycleRefinesTick | a10_policy_tcp_plan.cpp:269-427 | Some number of undisturbed lock-level steps has exactly the effect of one specified cycle. |
| PolicyRefinement.DriverAloneDrains | a10_policy_tcp_plan.cpp:269-388 | Undisturbed lock-level steps perform exactly one cycle per reading, and T * Nmax cycles empty the queue. |
| PolicyRefinement.StopIsClean | a10_policy_tcp_plan.cpp:430-451 | A stop found at the start of a cycle forgets all motion, empties queue and target, moves the commit number on and issues no command; the next start is as fresh. |
| PolicyDrain.DriverGoes | a10_policy_tcp_plan.cpp:269-394 | Wherever the driver stands, a step lowers the bound on the cycles left when it ends a cycle and never raises it. |
| PolicyDrain.QueueDrainsInEveryInterleaving | a10_policy_tcp_plan.cpp:294-388 | In every interleaving without a further batch or stop, polling and sending clients included, the queue is empty once T * Nmax cycles have ended. |
| PolicyDrain.StepsDrainTheQueue | a10_policy_tcp_plan.cpp:269-394 | The same after 131 times as many lock-level steps of the driver, since no cycle has more. |
| PolicyChain.BatchIsExecutedIffItChains | a10_policy_tcp_plan.cpp:269-388 | In every interleaving without a further batch or stop, an idle driver that finds a new batch executes all of it if and only if the keyframes are within the thresholds of one another and the first of the reading. |
| PolicyChain.SkippedBatchLooksDone | client/robot_tcp_client.py:120-132 | For every keyframe over a threshold from the reading: a run of a waiting client that reads `remaining == 0` though nothing was executed. |
| PolicyClient.WaitPolicyIdle | client/robot_tcp_client.py:120-132 | The poll ends at the first answer 0 or the first exception, and otherwise exactly when the time is up. |
| PolicyClient.RunCycle | client/bridge.py:100-140 | A cycle sends at most one batch, first, and none after a failed observation or inference; it keeps the protocol's discipline if and only if it ends idle or rejected. |
| LegacyTarget.MoveIsFollowed | a10_policy_tcp_plan.cpp:406-427 | Every command of a single-target move is the segment's point of that cycle, and the target afterwards. |
| LegacyTarget.TargetIsReachedAndHeld | a10_policy_tcp_plan.cpp:396-427 | A single target is reached once the segment's length has passed and held from then on; no two commands differ by more than two periods at the configured speeds allow. |
| LegacyTarget.MoveIsFinishedFirst | a10_policy_tcp_plan.cpp:396-414 | A move under way keeps to its own segment whatever targets arrive meanwhile, and remembers its own goal at its end. |
| LegacyTarget.HeldIffNear | a10_policy_tcp_plan.cpp:219-234 | Between moves a target is commanded as it is exactly when it is within a millionth of the last goal on all seven axes; otherwise a move to it starts from the joint reading. |
| LegacyTarget.TargetAfterNoneStartsAfresh | a10_policy_tcp_plan.cpp:396-427 | A cycle without a target breaks the move off, and the next target, even the same, is approached from the reading of its own cycle. |
| EeDelta.StepStaysSound | a10_tcp_server.cpp:285-301 | Store, raise, load and take in any order keep number and data in step. |
| EeDelta.DeliveriesInEveryInterleaving | a10_tcp_server.cpp:285-301 | Data never goes back, is at least as new as its number, and no post is delivered a fourth time. |
| EeDelta.NoFourthDelivery | a10_tcp_server.cpp:478-482 | Among four consecutive deliveries the data has moved on. |
| EeDelta.ThreeDeliveriesHappen | a10_tcp_server.cpp:478-482 | An interleaving that delivers one post three times: the bound is attained. |
| EeDelta.IndivisibleDeliversOnce | a10_tcp_server.cpp:285-301 | With post and fetch indivisible every post is delivered at most once. |
| EeDelta.RedeliveryIff | a10_tcp_server.cpp:285-301 | After a delivery and before a new post, some continuation delivers the same post again if and only if it was delivered under a number lower than its own. |
| EeDelta.FetchAfterClear | a10_tcp_server.cpp:271-301 | After a clear and m posts a fetch under a consumed number delivers if and only if m is neither 0 nor that number. |
| EeDelta.StopAllowsOneMore | a10_vr_vel_plan.cpp:379-394 | From the stop request that precedes every clear, the reader delivers at most once more, and only if the request fell inside its tick. |
| EeDelta.NewReaderMissesNothing | a10_vr_vel_plan.cpp:361-368 | The next reader starts from number 0 and is delivered any post made after the clear. |
| EeDelta.A10VrVelDriver.ConsumeDelta | a10_vr_vel_plan.cpp:456-488 | A delta is composed onto the target, and gripper and packet time change, exactly on a new delta; coasting follows it or the timeout and pulls the target towards the actual pose. |
| EeDelta.A10VrVelDriver.IsEffectiveMotionDelta | a10_vr_vel_plan.cpp:270-286 | A delta moves the target exactly when a translation is 1 mm or more either way, or the rotation reaches 0.2 degrees over the gain. |
| LineFraming.SplitIsTheOnlyCut | a10_tcp_server.cpp:114-141 | The specification is the one way to cut a text into newline-free lines and a newline-free tail. |
| LineFraming.SplitAppend | a10_tcp_server.cpp:114-141 | Splitting in two goes gives the lines of the whole text. |
| LineFraming.ReaderLoop.OnReceive | a10_tcp_server.cpp:114-141 | The loop hands on every complete line and keeps the tail. |
| LineFraming.FramingIgnoresChunking | a10_tcp_server.cpp:114-141 | However the stream is cut, lines and residue are those of the concatenation. |
| LineFraming.RobotTcpClient.RecvLine | client/robot_tcp_client.py:64-78 | The blocking reader returns what the specification pulls, or fails when the peer closes. |
| LineFraming.PullIsHead | client/robot_tcp_client.py:64-78 | A call returns the first line of the stream and leaves exactly the rest; it fails if and only if there is no complete line. |
| LineFraming.PullsFollowTheStream | client/robot_tcp_client.py:64-78 | However the stream is cut, n calls return its first n lines, or all there are, and leave exactly the rest. |
| LineFraming.TcpPoller.PollTcpLine | tactile_collect_real.cpp:426-474 | The poll, with its overflow and close branches, against its specification. |
| LineFraming.PollIsPull | tactile_collect_real.cpp:426-474 | Up to one carriage return the poll is the blocking reader exactly when the buffer never overflows. |
| LineFraming.CloseComesLast | tactile_collect_real.cpp:426-474 | A close is noticed only when no complete line is left, and then an unfinished one is forgotten. |
| LineFraming.PollsFollowTheStream | tactile_collect_real.cpp:426-474 | With text arriving between the polls in any pieces: while no poll overflows, the lines returned and those still ahead are the lines of the whole text, in order, each once. |
| LineFraming.EitherLineEndIsRead | tactile_collect_real.cpp:426-474 | Lines ended with CRLF or LF as the sender likes are returned as they were if and only if none ended with LF alone itself ends in a return. |
| JsonText.JsonEscape | tactile_collect_real.cpp:174-199 | The escaping loop computes the escaped text. |
| JsonText.EscapedReadsAs | tactile_collect_real.cpp:174-199 | What the reader makes of any escaped text, whatever follows. |
| JsonText.StandardReaderRestores | tactile_collect_real.cpp:174-199 | A reader for section 7 of RFC 8259 gets every text back exactly, control characters included. |
| JsonText.GetJsonStringValue | tactile_collect_real.cpp:249-290 | The lookup loop against its recursive reading, missing key and missing quote included. |
| JsonText.FieldReadsBack | tactile_collect_real.cpp:249-290 | A written field is read back unchanged if and only if its only control characters are newline, return and tab. |
| JsonText.DefaultWithoutText | tactile_collect_real.cpp:249-290 | The default is returned for a missing key, for a value without an opening quote and for one whose closing quote has not come. |
| JsonText.ToInt32 | tactile_collect_real.cpp:226-247 | The narrowing to int keeps values in range and the residue of all others. |
| JsonText.GetJsonIntValue | tactile_collect_real.cpp:226-247 | The lookup, its 64-bit accumulator wrapping around, gives the 32-bit value of the exact number however long it is. |
| JsonText.NumberReadsBack | tactile_collect_real.cpp:226-247 | A number printed in decimal behind its key, negative or not and with any blanks around the colon, is read back as itself when it fits 32 bits and as its low 32 bits otherwise. |
| JsonText.DefaultWithoutNumber | tactile_collect_real.cpp:226-247 | The default is returned for a missing key and where no digit begins the number. |
| CsvText.CsvEscape | tactile_collect_real.cpp:201-224 | The loop leaves a cell alone exactly when it holds no comma, quote, newline or return, and otherwise quotes it and doubles its quotes. |
| CsvText.CellsReadBack | tactile_collect_real.cpp:201-224 | A reader for section 2 of RFC 4180 returns exactly the cells that were escaped, whether CRLF or LF ends the row; a strict one does so for CRLF and rejects the row for LF. |
| CsvText.RecordReadsBack | tactile_collect_real.cpp:1270-1295 | The same for a record of 53 fields, one for each column of the header: read back by the lenient reader with either line break, by the strict one exactly with CRLF. |
| ServoFrame.BusServo.ReadExact | gripper.cpp:138-169 | All n bytes or a timeout, which consumes what there was. |
| ServoFrame.BusServo.CalcChecksum | gripper.cpp:192-197 | The 32-bit accumulator yields the complement of the byte sum for every length. |
| ServoFrame.BusServo.SendPacket | gripper.cpp:199-218 | Clears the input and writes exactly the frame. |
| ServoFrame.BusServo.ReceivePacket | gripper.cpp:220-263 | The staged reads against the specification, every error branch included. |
| ServoFrame.FrameLayout | gripper.cpp:199-218 | The bytes of a frame in the order of the servo; those from the id on, checksum included, add up to 255 in their low byte. |
| ServoFrame.FrameReadsBack | gripper.cpp:199-263 | A sent frame is received unchanged, consuming only its own bytes, exactly up to 253 parameters. |
| ServoFrame.TruncatedFrameTimesOut | gripper.cpp:220-263 | A frame that breaks off anywhere is a timeout, and nothing of it is left behind. |
| ServoFrame.OneWrongByteIsRejected | gripper.cpp:220-263 | Any one wrong header, id, instruction, parameter or checksum byte is rejected. |
| ServoFrame.WrongLengthPassesIff | gripper.cpp:220-263 | For every frame and every length byte: the receiver accepts if and only if so many bytes have come and the last is the checksum of the others; and what it then delivers. |
| ServoFrame.ShortLengthPassesIff | gripper.cpp:220-263 | A length that arrives too small passes if and only if a parameter, or the instruction, equals the checksum of what precedes it: a condition the sender can check. |
| ServoFrame.ShortLengthDelivers | gripper.cpp:220-263 | The parameters such a packet then carries. |
| ServoFrame.WrongLengthMayPass | gripper.cpp:220-263 | A frame that meets the condition. |
| GripperTable.Interpolate | gripper.cpp:354-372 | The table loop against its specification. |
| GripperTable.InverseInterpolateMm | gripper.cpp:375-406 | The inverse loop against its specification, flat segments and both ends included. |
| GripperTable.PositionRoundTrip | gripper.cpp:354-406 | Every integer position comes back from millimetres as the nearest one the table has, hence as itself inside the table. |
| GripperTable.EndsAreKept | gripper.cpp:400-405 | A position at or beyond an end of the table reads as the opening of that end. |
| GripperTable.InverseIsAntitone | gripper.cpp:375-406 | A larger position never reads as a wider opening, on the table and off it. |
| GripperTable.KnotsAreMet | gripper.cpp:354-406 | Every knot of the table is met exactly in both directions. |
| GripperTable.OpeningRoundTrip | gripper.cpp:354-406 | An opening returns within half the steepest slope per count. |
| GripperTable.InterpolationIsAntitone | gripper.cpp:354-372 | A wider opening never asks for a larger position, across segments and ends. |
| GripperTable.BuiltInTables | gripper.cpp:426-436 | Both built-in tables satisfy the conditions: 5/128 mm and 1/40 mm. |
| ForceCheck.HoleInPeg.CheckForce | assemcomd.cpp:471-507 | The counters and answer of one call; it counts as quiet exactly when every component is between minus and plus its limit. |
| ForceCheck.HoleInPeg.RunPhases | assemcomd.cpp:668-1906 | The else-if chain keeps the flags a prefix and extends it by at most one. |
| ForceCheck.CountIsEarned | assemcomd.cpp:483-506 | However the calls are spaced, since an out-of-limit one or an answer a positive count has been earned at least fifty ticks apart. |
| ForceCheck.AnswersAreApart | assemcomd.cpp:497-502 | For every schedule two answers for count c are more than 50(c-1) ticks apart. |
| ForceCheck.FirstYesIsExact | assemcomd.cpp:483-502 | From fresh counters under quiet forces the first answer comes at exactly tick 50(c-1) after the first call, and leaves the counters fresh. |
| ForceCheck.YesMeansQuietCalls | assemcomd.cpp:471-507 | For every schedule of calls, an answer at tick T for count c means quiet at every call in [T-50(c-1), T], whatever the earlier counters. |
| ForceCheck.YesVouchesExactlyForCalls | assemcomd.cpp:1610 | A tick of that window is vouched for, over all force histories, if and only if the check was called at it. |
| ForceCheck.YesMeansQuiet | assemcomd.cpp:471-507 | Called every tick, an answer means quiet at every tick of the window. |
| ForceCheck.SparseCallsStillAnswer | assemcomd.cpp:483-506 | From fresh counters, calls at every fiftieth tick bring an answer whatever happens between. |
| ForceCheck.QuietMeansYes | assemcomd.cpp:471-507 | Conversely 50c quiet ticks always bring an answer. |
| ForceCheck.InterruptedCallsStillAnswer | assemcomd.cpp:1610 | A run whose window holds a tick of excessive force at which the check was not called. |
| Admittance.Limited | master_slave.cpp:258-265 | Dead zone and clamp: zero below, the maximum of the same sign above, unchanged in between. |
| Admittance.MasterSlave.LimitForces | master_slave.cpp:258-265 | The in-place loop does so for all six components. |
| Admittance.LimitingKeepsOrder | master_slave.cpp:258-265 | A stronger push is never limited to a weaker one, and both directions are treated alike. |
| Admittance.MasterSlave.Translate | master_slave.cpp:287-299 | Velocity and pose of the three translation axes; the others stay. |
| Admittance.MasterSlave.Rotate | master_slave.cpp:302-312 | Velocity and increment of the three rotation axes; the others stay. |
| Admittance.MasterSlave.Control | master_slave.cpp:258-312 | The whole update of velocities, pose and rotation increment from the measured forces. |
| Admittance.StepIsRelaxation | master_slave.cpp:287-312 | A step moves the velocity the fraction B*dt/M of the way to F/B. |
| Admittance.VelocityStaysBounded | master_slave.cpp:258-312 | For every force sequence within max and 0 < B*dt/M <= 1 the velocity never exceeds max/B. |
| Admittance.ConstantForceConverges | master_slave.cpp:287-312 | Under constant force v_n - f/B = (1 - B*dt/M)^n (v_0 - f/B). |
| Admittance.DisplacementBound | master_slave.cpp:294-299 | The per-tick displacement is bounded by max/B*dt for all states in range if and only if B*dt/M <= 1/2. |
| Admittance.DisplacementBeyondHalf | master_slave.cpp:294-299 | From one half on the bound is 4*B*dt/M - 1 times as large, and attained. |
| Admittance.BuiltInGains | master_slave.cpp:40-42 | The built-in constants meet that condition on all six axes. |
| Admittance.CommandedMotionIsBounded | master_slave.cpp:258-312 | From rest, for arbitrary measured forces, velocity and per-tick displacement of every axis stay within the axis' force limit over its damping. |
| Admittance.MotionFollowsThePush | master_slave.cpp:258-312 | From rest, on every axis: a force that is never negative never gives a negative velocity, nor the reverse, and pushing harder at every tick never makes the axis slower. |
| TrapezoidProfile.TCurve2.GetCurveParam | curve.cpp:7-13 | The rise ends at speed v, rise, cruise and braking cover exactly p, and the whole takes p/v + v/a. |
| TrapezoidProfile.TCurve2.GetTCurve | curve.cpp:17-62 | The value and the two fields a call may rewrite. |
| TrapezoidProfile.OneMillisecond | curve.cpp:22-60 | For all switch times and every millisecond: exactly when the step exceeds the top speed, and exactly when it falls. |
| TrapezoidProfile.StaysInside | curve.cpp:22-60 | For all switch times and every millisecond: exactly when the profile is between 0 and the whole distance. |
| TrapezoidProfile.ComesToRest | curve.cpp:22-60 | After the end it is at the whole distance; at the end exactly when that is whole and a braking step leads to it. |
| TrapezoidProfile.AmpleMoves | curve.cpp:22-60 | From rises of three milliseconds on, or with whole switch times, the move fits, and climbs exactly when it ends on a whole millisecond or in the second half of one. |
| TrapezoidProfile.LongMoveFollows | curve.cpp:24-38 | The trapezoid branch evaluates to the profile at every count and changes nothing. |
| TrapezoidProfile.ShortMoveSettles | curve.cpp:40-53 | After the rewrite of ta and tc every call evaluates to the triangular profile. |
| TrapezoidProfile.ShortMoveFirstCall | curve.cpp:22-53 | The first call, before the rewrite, is on the profile if and only if its count is not between the true and the nominal end. |
| TrapezoidProfile.CallsFollow | curve.cpp:17-62 | Calls from count 0 upward are on the profile, rewriting included. |
| TrapezoidProfile.EveryMoveHasShape | curve.cpp:7-62 | Every positive distance, speed and acceleration is a long or a short move. |
| TrapezoidProfile.SampledProfile | curve.cpp:17-62 | The values returned for a long or short move stay in [0,p] if and only if the move fits; they are p after the end, and at it exactly when that is whole and later than the cruise. |
| TrapezoidProfile.SampledSpeed | curve.cpp:17-62 | For all switch times they rise by at most the top speed per call, which is at most v/1000, if and only if the rise ends on a whole millisecond or in the second half of one, and never fall if and only if the move climbs. |
| TrapezoidProfile.WholeMillisecondProfile | curve.cpp:17-62 | With whole switch times: nondecreasing, in [0,p], at most v/1000 per call, p from tc on. |
| ProgressMonitor.ImprovementCosts | tactile_collect_real.cpp:1084-1094 | An improvement uses up at least one unit of what is left to gain. |
| ProgressMonitor.WaitingIsBounded | tactile_collect_real.cpp:1076-1115 | At most 1 + p0/pos_eps + r0/rot_eps improvements; the wait ends within 30000 calls and within 2500 times that number, plus one. |
| ProgressMonitor.GivesUpIff | tactile_collect_real.cpp:1084-1115 | For every list of errors the last answer is to give up if and only if there were 30000 calls or none of the last 2500 brought an error below all that earlier improvements reached. |
| CollectorWaiting.StageIsOneWait | tactile_collect_real.cpp:1466-1905 | The consecutive ticks of a movement stage of any run are one list of monitor calls with its pose errors. |
| CollectorWaiting.StageIsLeft | tactile_collect_real.cpp:1076-1115 | So every movement stage of every run is left within 30000 ticks and within 2500 for every improvement, plus one. |
| CollectorWaiting.StageIsGivenUpIff | tactile_collect_real.cpp:1466-1905 | In every run a movement stage that has not arrived is given up at a tick exactly on that condition on its pose errors, and to what; until then it goes on. |
| CollectorWaiting.StabilizingIsGivenUpIff | tactile_collect_real.cpp:1774-1841 | The same for stabilizing, with the errors of its ticks off the baseline. |
| SampleSet.BuildSampleSet | tactile_collect_real.cpp:1117-1218 | The loops build the 73 specified offsets in order. |
| SampleSet.RotationsComeLast | tactile_collect_real.cpp:1196-1213 | Exactly the last 18 offsets are rotational. |
| SampleSet.LevelsAreMultiples | tactile_collect_real.cpp:1136-1148 | The three levels of an axis are one, two and three steps of it. |
| SampleSet.EachAxisInItsPlace | tactile_collect_real.cpp:1150-1213 | Every level of every axis alone, backward and forward, at its index. |
| SampleSet.EachPairInItsPlace | tactile_collect_real.cpp:1174-1194 | Every level of every pair of translation axes, under all four signs, at its index. |
| SampleSet.OffsetsAreDistinct | tactile_collect_real.cpp:1117-1218 | No offset occurs twice. |
| SampleSet.OppositeIsPresent | tactile_collect_real.cpp:1152-1213 | Every offset but the ideal one has its opposite at another place of the set. |
| Collector.HarderContactIsNotLower | tactile_collect_real.cpp:1340-1354 | The contact flag is monotone in the magnitude of every force and moment. |
| Collector.ContactLevels | tactile_collect_real.cpp:1340-1354 | What each of the four contact levels means, in either direction of every axis. |
| Collector.ArrivalOfSample | tactile_collect_real.cpp:1013-1068 | When each of the 73 samples, and the baseline, counts as reached, by its index. |
| Collector.TactileCollectReal.constructor | tactile_collect_real.cpp:54-134 | The initial state with the built sample set. |
| Collector.TactileCollectReal.ExecuteRT | tactile_collect_real.cpp:1407-1912 | State and return value of a tick are those specified, every stage and stop included. |
| CollectorSafety.TickEffect | tactile_collect_real.cpp:1407-1912 | Every tick keeps the control invariant and does nothing but the listed effects on index, flag, records and baseline. |
| CollectorSafety.EveryRunEnds | tactile_collect_real.cpp:1407-1412 | No run has more than 900000 ticks. |
| CollectorSafety.RecordsAreOrdered | tactile_collect_real.cpp:1242-1298 | The invariant on records over every run: order, honesty, labels and number. |
| CollectorSafety.OneRecordPerSample | tactile_collect_real.cpp:1242-1298 | With TCP every sample has at most one record, in sample order, so 73 in all. |
| CollectorSafety.RecordsAreTrue | tactile_collect_real.cpp:1610-1714 | tcp_ok means a positive answer for that very sample, late answers or not; the target recorded is the labelled offset from the locked baseline unless contact of level 2 made the robot hold. |
| CollectorSafety.FewRecordsWithoutTcp | tactile_collect_real.cpp:1637-1648 | Without TCP no sample has more than fifteen records in any state of any run. |
| CollectorSafety.RecordsOnlyGrow | tactile_collect_real.cpp:1387-1405 | The index rises by one at a time, records are only appended, and a collection never ends without one. |
| CollectorSafety.FlagIsThePeak | tactile_collect_real.cpp:1356-1361 | In every state the flag is exactly the strongest contact measured for the current sample. |
| CollectorSafety.RecordedFlagIsThePeak | tactile_collect_real.cpp:1610-1714 | A record's flag is exactly that peak up to its tick, or 1. |
| CollectorSafety.CounterIsHonest | tactile_collect_real.cpp:1785-1798 | The stabilization counter counts consecutive ticks within the strict tolerance. |
| CollectorSafety.NoAdvanceFromUnverifiedBaseline | tactile_collect_real.cpp:1715-1897 | Every advance is within the soft tolerance of the baseline; after a rotation it follows 300 consecutive ticks within the strict one, or the soft accept. |
| CollectorReactions.BaselineIsFixedOnce | tactile_collect_real.cpp:1412-1449 | In every run the baseline is fixed by the 200th valid force reading at the pose measured then, and never moves again. |
| CollectorReactions.DangerEndsTheSample | tactile_collect_real.cpp:1374-1385 | In every run dangerous contact while approaching or settling leaves one record of it, and from the next tick on the collector only goes back on that sample. |
| CollectorReactions.FirmContactIsHeld | tactile_collect_real.cpp:1363-1372 | In every run firm contact makes the pose measured then the target as long as the robot settles and collects. |
| CollectorReactions.UnreachablePoseFallsBack | tactile_collect_real.cpp:1466-1905 | Without inverse kinematics every stage falls back by one, recovery stops the plan, and only a collection leaves a record. |
| CollectorReactions.AnswerEndsTheWait | tactile_collect_real.cpp:1673-1691 | An answer printed for the sample being collected ends the wait with a record that is positive exactly when the line says ok; one for another sample changes nothing. |
| CollectorReactions.AnonymousAnswerIsIgnored | tactile_collect_real.cpp:1676-1682 | An answer that names no sample changes nothing. |
| CollectorReactions.SilenceEndsTheWaitIff | tactile_collect_real.cpp:1693-1712 | In every run the wait is given up exactly at its 6000th tick without a line since the request, with a record that says so. |
| CollectorReactions.UnsentRequestEndsTheCollection | tactile_collect_real.cpp:1650-1662 | A request that cannot be sent ends the collection with a record that says so. |
| CollectorReactions.RobotOnlyCollection | tactile_collect_real.cpp:1637-1648 | Without TCP every tick leaves a record, and dangerous contact or the fifteenth ends the collection. |
| CollectorReactions.ReturnCodes | tactile_collect_real.cpp:1407-1905 | When each of the return values -2, -3, -5 and 0 is returned, and that all others are the ticks left. |
| CollectorCompletion.CollectionCompletes | tactile_collect_real.cpp:1407-1912 | In every run in which everything goes well the 73 samples take exactly 10272 ticks with TCP, with one acknowledged record each in order, and 11294 without, with fifteen each; then the plan stops with 0. |
| CollectorCompletion.CollectionIsPossible | tactile_collect_real.cpp:1407-1912 | Such runs exist from the start, of every length up to the end. |
| CollectorTermination.TickSpends | tactile_collect_real.cpp:1466-1905 | The measure drops at every tick of every sample, apart from what stale lines, closed connections, returns from recovery and losses of the baseline give back. |
| CollectorTermination.BudgetIsSpent | tactile_collect_real.cpp:1466-1905 | Over any stretch of a run the ticks are paid for by the measure. |
| CollectorTermination.SampleEnds | tactile_collect_real.cpp:1466-1905 | Any sample lasts at most 126061 ticks, 156361 for a rotational one, plus one per stale line, 6001 per closed connection, 60300 per return from recovery and the ticks counted at each loss of the baseline. |
| CollectorTermination.TranslationalSampleEnds | tactile_collect_real.cpp:1466-1905 | A translational sample needs only the network's share of that. |
| CollectorTermination.RotationalSampleMayLastTheRun | tactile_collect_real.cpp:1774-1845 | A run from the start with the collector's own 73 samples that stabilizes and recovers on sample 55 in turn until the global limit. |
| CollectorTermination.FlappingConnectionMayLastTheRun | tactile_collect_real.cpp:298-308 | A run from the start that collects the first sample until the global limit without a record. |

## Left out

- Sockets, threads, serial and EtherCAT access, cameras, message packing, logging and printing: only their lock-level steps, bytes and lines are modelled.
- Kinematics and matrix mathematics: poses are six numbers, the two pose errors are arbitrary functions of two poses, inverse kinematics is a success flag. A pose plus an offset is componentwise.
- Floating-point rounding, infinities and NaN. `root` stands for the square root of p/a.
- Wrap-around of the 64-bit commit and delta numbers and of step counts converted to int.
- Signed overflow of the 64-bit accumulator in the integer lookup is undefined in C++; it is taken to wrap around.
- JSON parsing of requests: batches and deltas start from parsed rows. The replies to the state queries.
- Limits of the policy driver are fixed over a run of the protocol; `Configure` shows what a new run may set.
- The policy driver on a robot with fewer motors than seven, and a missing server object.
- The driver's queue-size reading for its log line is a step of the protocol without effect on the state.
- A batch's acknowledgement reaches the client in the same step as the commit; a client that gives up may leave requests on the wire that are committed later.
- The hand-written number list of SET_JOINTS: the target starts from the parsed numbers.
- The bridge's observations, inference, rate limit and array shapes.
- Text decoding chunk by chunk with undecodable bytes ignored, in the client's line reader.
- PolicyDriver.QueueDrains: assumes, as the cycle it is about, one joint reading for all comparisons of a cycle; so does PolicyDrain.
- ProgressMonitor.WaitingIsBounded: supposes nonnegative errors, the first of them below the sentinel 1.0e100.
- The collector's mean pose, force bias and numeric record columns; a record keeps sample, flag, result, message and answer.
- Lines drained before a request are not modelled: they change nothing but the buffer.
- The collector's sample set is built by the constructor, not at the tick that fixes the baseline; nothing reads it before.
- The bodies of the peg-in-hole phases: an arbitrary exit condition for each; force filters and buffers.
- The rotation part of the admittance update beyond its increments, and the leader's other arm.
- Velocity commands, Jacobians and the arithmetic of composing deltas onto the target and of pulling it to the actual pose: two arbitrary functions.
- The remaining plans and tools (riveting, data collection, moves, gravity compensation, cameras): they repeat what is here or add only easy members.
