/** The queue side of the TCP server (a10_tcp_server.cpp): what each locked section does. */
module PolicyServer {
  import opened Keyframes

  /** One element of a request's "actions" array: its numeric entries, when it is an array at all. */
  datatype JsonRow = NotArray | Row(numbers: seq<real>)

  /** A row is queued exactly when it holds at least one number. */
  predicate Usable(row: JsonRow) { row.Row? && row.numbers != [] }

  function ParseBatch(rows: seq<JsonRow>): (batch: seq<Keyframe>)
    ensures |batch| <= |rows|
  {
    if rows == [] then []
    else
      var init := ParseBatch(rows[..|rows| - 1]);
      var last := rows[|rows| - 1];
      if Usable(last) then init + [Padded(last.numbers)] else init
  }

  /** The rows a client sends for a list of seven-axis keyframes. */
  function WireRows(batch: seq<Keyframe>): (rows: seq<JsonRow>)
    ensures |rows| == |batch|
  {
    seq(|batch|, i requires 0 <= i < |batch| => Row(batch[i]))
  }

  /** What the client puts on the line is what the server queues: no row lost, changed or reordered. */
  lemma {:induction false} BatchArrivesUnchanged(batch: seq<Keyframe>)
    ensures ParseBatch(WireRows(batch)) == batch
  {
    if batch != [] {
      var n := |batch| - 1;
      BatchArrivesUnchanged(batch[..n]);
      assert WireRows(batch)[..n] == WireRows(batch[..n]);
      assert Padded(batch[n]) == batch[n];
      assert batch == batch[..n] + [batch[n]];
    }
  }

  lemma {:induction false} BatchAppends(a: seq<JsonRow>, b: seq<JsonRow>)
    ensures ParseBatch(a + b) == ParseBatch(a) + ParseBatch(b)
    decreases |b|
  {
    if b == [] {
      assert a + b == a;
    } else {
      var n := |b| - 1;
      BatchAppends(a, b[..n]);
      assert (a + b)[..|a| + n] == a + b[..n];
    }
  }

  /** Wherever it stands in a request, an element that is no array, or holds no number, leaves nothing in the
      queue and disturbs none of the others; any other leaves its numbers, cut to seven or filled up with zeros. */
  lemma EachRowAlone(a: seq<JsonRow>, row: JsonRow, b: seq<JsonRow>, w: Keyframe)
    requires row.Row? ==> forall i :: 0 <= i < 7 ==> w[i] == if i < |row.numbers| then row.numbers[i] else 0.0
    ensures row == NotArray || row == Row([]) ==> ParseBatch(a + [row] + b) == ParseBatch(a) + ParseBatch(b)
    ensures row.Row? && row.numbers != [] ==> ParseBatch(a + [row] + b) == ParseBatch(a) + [w] + ParseBatch(b)
  {
    BatchAppends(a + [row], b);
    BatchAppends(a, [row]);
    assert [row][..0] == [];
    if row.Row? { assert w == Padded(row.numbers); }
  }

  /** `deque::pop_front` behind the server's emptiness test. */
  function Popped(queue: seq<Keyframe>): seq<Keyframe> {
    if queue == [] then [] else queue[1..]
  }

  class A10TcpServer {
    var batch: seq<Keyframe>
    var commitSeq: nat
    var targetQ: seq<real>
    var eeDelta: seq<real>
    var eeSeq: nat

    constructor ()
      ensures batch == [] && commitSeq == 0 && targetQ == [] && eeDelta == [] && eeSeq == 0
    {
      batch, commitSeq, targetQ, eeDelta, eeSeq := [], 0, [], [], 0;
    }

    method PeekPolicyBatchFront() returns (found: bool, out: seq<real>)
      ensures found <==> batch != []
      ensures found ==> out == batch[0]
    {
      if batch == [] {
        return false, [];
      }
      return true, batch[0];
    }

    method PopPolicyBatchFront()
      modifies this`batch
      ensures batch == Popped(old(batch))
    {
      if batch != [] {
        batch := batch[1..];
      }
    }

    /** The reply to GET_POLICY_STATUS, read in one locked section. */
    method PolicyStatus() returns (idle: bool, remaining: nat, seq_: nat)
      ensures remaining == |batch| && seq_ == commitSeq
      ensures idle <==> batch == []
    {
      remaining, seq_ := |batch|, commitSeq;
      idle := remaining == 0;
    }

    method ClearPolicyTcpTargets()
      modifies this
      ensures batch == [] && commitSeq == old(commitSeq) + 1 && targetQ == []
      ensures eeDelta == [] && eeSeq == 0
    {
      batch := [];
      commitSeq := commitSeq + 1;
      targetQ := [];
      ClearEeDeltaTarget();
    }

    method ClearEeDeltaTarget()
      modifies this`eeDelta, this`eeSeq
      ensures eeDelta == [] && eeSeq == 0
    {
      eeDelta := [];
      eeSeq := 0;
    }

    /** SET_JOINTS_BATCH, from the parsed rows on: the new batch replaces the whole queue. */
    method SetJointsBatch(rows: seq<JsonRow>) returns (queued: nat)
      modifies this`batch, this`commitSeq
      ensures batch == ParseBatch(rows) && queued == |batch|
      ensures commitSeq == old(commitSeq) + 1
    {
      var newBatch: seq<Keyframe> := [];
      for i := 0 to |rows|
        invariant newBatch == ParseBatch(rows[..i])
        invariant batch == old(batch) && commitSeq == old(commitSeq)
      {
        assert rows[..i + 1][..i] == rows[..i];
        if rows[i].NotArray? {
          continue;
        }
        if rows[i].numbers == [] {
          continue;
        }
        var v := PadSeven(rows[i].numbers);
        newBatch := newBatch + [v];
      }
      assert rows[..|rows|] == rows;
      queued := |newBatch|;
      batch := newBatch;
      commitSeq := commitSeq + 1;
    }

    /** SET_JOINTS: a request without a single number is ignored. */
    method SetJoints(parsed: seq<real>)
      modifies this`targetQ
      ensures targetQ == if parsed == [] then old(targetQ) else parsed
    {
      if parsed != [] {
        targetQ := parsed;
      }
    }

    /** SET_EE_DELTA: the padded data is stored first, the sequence number is raised after it. */
    method SetEeDelta(numbers: seq<real>)
      modifies this`eeDelta, this`eeSeq
      ensures eeDelta == Padded(numbers) && eeSeq == old(eeSeq) + 1
    {
      var v := PadSeven(numbers);
      eeDelta := v;
      eeSeq := eeSeq + 1;
    }

    /** The data is handed out only for a sequence number that is neither 0 nor already consumed. */
    method FetchEeDeltaIfUpdated(consumed: nat) returns (ok: bool, out: seq<real>, outSeq: nat)
      ensures outSeq == eeSeq
      ensures ok <==> eeSeq != 0 && eeSeq != consumed && |eeDelta| >= 7
      ensures ok ==> out == eeDelta
    {
      out := [];
      outSeq := eeSeq;
      if outSeq == 0 || outSeq == consumed {
        return false, out, outSeq;
      }
      if |eeDelta| < 7 {
        return false, out, outSeq;
      }
      return true, eeDelta, outSeq;
    }
  }
}
