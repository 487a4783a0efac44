/** What is lost when a client does not wait for the queue to be empty (client/robot_tcp_client.py:120-132,
    client/bridge.py:133, a10_policy_tcp_plan.cpp:276-284 and a10_tcp_server.cpp:562-566). */
module PolicyLoss {
  import opened Basics
  import opened Keyframes
  import opened PolicyServer
  import opened PolicyDriver
  import opened PolicyProtocol
  import opened PolicyConservation
  import opened PolicyRefinement

  /** The length of a move from `r` to `p`. */
  function MoveSteps(r: Keyframe, p: Keyframe, lim: Limits): (n: int)
    requires lim.Valid()
    ensures n >= 2
  {
    Max(2, BlendSteps(r, p, lim))
  }

  /** A client sends `p`, the driver starts the move and goes on for `j` more cycles; then the client's
      patience ends, it sends `q`, and the driver finishes the move. */
  function ImpatientRun(p: Keyframe, q: Keyframe, r: Keyframe, j: nat, lim: Limits): seq<Action>
    requires lim.Valid() && j < MoveSteps(r, p, lim)
  {
    [ClientSend(Rows([Row(p)])), ServerCommit(0)] + (Repeat(r, 4) + (Repeat(r, j)
    + ([GiveUp] + ([ClientSend(Rows([Row(q)])), ServerCommit(0)] + Repeat(r, MoveSteps(r, p, lim) - j)))))
  }

  lemma SendAndCommit(s: System, q: Keyframe, rest: seq<Action>, lim: Limits)
    requires lim.Valid() && s.client.Ready? && s.wire == []
    ensures Exec(s, [ClientSend(Rows([Row(q)])), ServerCommit(0)] + rest, lim)
         == Exec(Replace(s, [q]).(client := MustPoll), rest, lim)
  {
    var rows := [Row(q)];
    var a, b := ClientSend(Rows(rows)), ServerCommit(0);
    assert [a, b] + rest == [a] + ([b] + rest);
    ExecNext(s, a, [b] + rest, lim);
    ExecNext(Apply(s, a, lim), b, rest, lim);
    BatchArrivesUnchanged([q]);
    assert WireRows([q]) == rows;
    assert Without([Line(Rows(rows), true)], 0) == [];
  }

  // ---------------------------------------------------------------- a move under way

  /** The move from `r` to `p` is at `step`; at step `n` its last command has been issued and the pop is due. */
  predicate MidMove(s: System, p: Keyframe, r: Keyframe, step: int, n: int) {
    && !s.stopFlag && 1 <= step <= n && n >= 2
    && s.driver.seg == JointSegment(step < n, r, p, step, n)
    && s.pc == (if step < n then CycleStart else PopFinished)
    && (step == n ==> LastCommand(s.hist) == p)
  }

  predicate SameQueue(s: System, t: System) {
    SameOthers(s, t) && t.queue == s.queue && t.hist.fates == s.hist.fates
  }

  lemma TickMoves(s: System, p: Keyframe, r: Keyframe, step: int, n: int, lim: Limits)
    requires lim.Valid() && MidMove(s, p, r, step, n) && step < n
    ensures var t := StepDriver(s, r, lim); MidMove(t, p, r, step + 1, n) && SameQueue(s, t)
  {
    LerpEnds(s.driver.seg);
  }

  lemma {:induction false} TicksMove(s: System, p: Keyframe, r: Keyframe, step: int, n: int, i: nat, lim: Limits)
    requires lim.Valid() && MidMove(s, p, r, step, n) && step + i <= n
    ensures var t := Exec(s, Repeat(r, i), lim); MidMove(t, p, r, step + i, n) && SameQueue(s, t)
    decreases i
  {
    if i > 0 {
      TickMoves(s, p, r, step, n, lim);
      RepeatNext(s, r, i, lim);
      TicksMove(StepDriver(s, r, lim), p, r, step + 1, n, i - 1, lim);
    }
  }

  /** The rest of the move and the pop after it, whatever the one keyframe in the queue is by then. */
  lemma {:induction false} MoveEnds(s: System, p: Keyframe, r: Keyframe, step: int, n: int, lim: Limits)
    requires lim.Valid() && MidMove(s, p, r, step, n) && |s.queue| == 1
    ensures var t := Exec(s, Repeat(r, n - step + 1), lim);
            t.queue == [] && t.hist.accepted == s.hist.accepted && t.hist.fates == s.hist.fates + [Executed(p)]
    decreases n - step
  {
    RepeatNext(s, r, n - step + 1, lim);
    if step < n {
      TickMoves(s, p, r, step, n, lim);
      MoveEnds(StepDriver(s, r, lim), p, r, step + 1, n, lim);
    }
  }

  /** Four driver steps from an idle cycle start with one acceptable keyframe queued. */
  lemma FourStepsStart(s: System, p: Keyframe, r: Keyframe, lim: Limits)
    requires lim.Valid() && !Exceeds(r, p, lim)
    requires s.pc.CycleStart? && !s.stopFlag && s.driver == RESET && s.queue == [p] && s.commitSeq != 0
    ensures var t := Exec(s, Repeat(r, 4), lim); MidMove(t, p, r, 1, MoveSteps(r, p, lim)) && SameQueue(s, t)
  {
    var s1 := StepDriver(s, r, lim);
    assert s1.pc == Peek(0) && s1.driver.lastQ1.None?;
    var s2 := StepDriver(s1, r, lim);
    assert s2.pc == SeqForLog(p);
    var s3 := StepDriver(s2, r, lim);
    RepeatNext(s, r, 4, lim);
    RepeatNext(s1, r, 3, lim);
    RepeatNext(s2, r, 2, lim);
    RepeatNext(s3, r, 1, lim);
  }

  /** Without the waiting the promise fails for all keyframes and at every cycle of the move: `p` is discarded
      while the robot is moving to it, and the pop at the end of that move takes `q`, which leaves the queue
      as executed although the last command was `p`. */
  lemma ImpatientClientLosesKeyframe(p: Keyframe, q: Keyframe, r: Keyframe, j: nat, lim: Limits)
    requires lim.Valid() && !Exceeds(r, p, lim) && j < MoveSteps(r, p, lim)
    ensures var s := Exec(INITIAL, ImpatientRun(p, q, r, j, lim), lim);
            && s.queue == [] && s.hist.accepted == [p, q] && s.hist.fates == [Dropped, Executed(p)]
            && (p != q ==> !Truthful(s.hist.fates[1], s.hist.accepted[1], lim))
  {
    var n := MoveSteps(r, p, lim);
    var last := Repeat(r, n - j);
    var again := [GiveUp] + ([ClientSend(Rows([Row(q)])), ServerCommit(0)] + last);
    SendAndCommit(INITIAL, p, Repeat(r, 4) + (Repeat(r, j) + again), lim);
    var s1 := Replace(INITIAL, [p]).(client := MustPoll);
    ExecSplits(s1, Repeat(r, 4), Repeat(r, j) + again, lim);
    FourStepsStart(s1, p, r, lim);
    var s2 := Exec(s1, Repeat(r, 4), lim);
    ExecSplits(s2, Repeat(r, j), again, lim);
    TicksMove(s2, p, r, 1, n, j, lim);
    Overtaken(Exec(s2, Repeat(r, j), lim), p, q, r, 1 + j, n, lim);
  }

  /** From the moment the client gives up. */
  lemma Overtaken(s: System, p: Keyframe, q: Keyframe, r: Keyframe, step: int, n: int, lim: Limits)
    requires lim.Valid() && MidMove(s, p, r, step, n) && s.wire == [] && |s.queue| == 1
    requires s.hist.accepted == [p] && s.hist.fates == []
    ensures var t := Exec(s, [GiveUp] + ([ClientSend(Rows([Row(q)])), ServerCommit(0)] + Repeat(r, n - step + 1)), lim);
            t.queue == [] && t.hist.accepted == [p, q] && t.hist.fates == [Dropped, Executed(p)]
  {
    var last := Repeat(r, n - step + 1);
    ExecNext(s, GiveUp, [ClientSend(Rows([Row(q)])), ServerCommit(0)] + last, lim);
    var s1 := Apply(s, GiveUp, lim);
    assert s1.wire == [];
    SendAndCommit(s1, q, last, lim);
    var s2 := Replace(s1, [q]).(client := MustPoll);
    assert s2.hist.accepted == [p, q] && s2.hist.fates == [Dropped];
    MoveEnds(s2, p, r, step, n, lim);
  }
}
