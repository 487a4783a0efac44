/** The client's side of the protocol: polling until the queue is empty (client/robot_tcp_client.py:120-132)
    and one cycle of the bridge that sends a batch and waits for it (client/bridge.py:100-140). */
module PolicyClient {
  import opened Basics
  import opened PolicyServer
  import opened PolicyProtocol

  /** The answer to one status request: a number of keyframes, something else, or an exception. */
  datatype Reply = Number(remaining: int) | Unusable | Broken

  datatype Outcome = Idle | TimedOut | Failed

  /** Answers after which the client asks again. */
  predicate AsksAgain(replies: seq<Reply>) {
    forall i :: 0 <= i < |replies| ==> replies[i] != Number(0) && !replies[i].Broken?
  }

  /** `polls` is the number of requests the timeout leaves time for. */
  method WaitPolicyIdle(replies: seq<Reply>, polls: nat) returns (outcome: Outcome, asked: nat)
    requires polls <= |replies|
    ensures asked <= polls
    ensures outcome.TimedOut? <==> AsksAgain(replies[..polls])
    ensures outcome.TimedOut? ==> asked == polls
    ensures !outcome.TimedOut? ==> asked > 0 && AsksAgain(replies[..asked - 1])
                                   && replies[asked - 1] == if outcome.Idle? then Number(0) else Broken
  {
    asked := 0;
    while asked < polls
      invariant asked <= polls && AsksAgain(replies[..asked])
    {
      var st := replies[asked];
      asked := asked + 1;
      if st.Broken? {
        assert replies[..polls][asked - 1] == st;
        return Failed, asked;
      }
      var rem := if st.Number? then st.remaining else -1;
      if rem == 0 {
        assert replies[..polls][asked - 1] == st;
        return Idle, asked;
      }
    }
    return TimedOut, asked;
  }

  datatype Ack = Accepted | Rejected | NoAnswer

  /** Reading the answers to `k` status requests. */
  function Reads(k: nat): (actions: seq<Action>)
    ensures |actions| == k && forall i :: 0 <= i < k ==> actions[i] == ClientRead
  {
    seq(k, i => ClientRead)
  }

  /** One cycle of `run_forever`: what the client does towards the robot, in order. `inferred` is None when
      observing or inferring raised an exception; then, and for an empty action sequence, nothing is sent.
      Any later exception abandons the cycle. */
  method RunCycle(inferred: Option<seq<JsonRow>>, ack: Ack, replies: seq<Reply>, polls: nat)
    returns (actions: seq<Action>, outcome: Outcome)
    requires polls <= |replies|
    ensures inferred == None ==> actions == [] && outcome.Failed?
    ensures inferred == Some([]) ==> actions == [] && outcome.Idle?
    ensures inferred.Some? && inferred.value != [] ==>
              && actions != [] && actions[0] == ClientSend(Rows(inferred.value))
              && (forall i :: 1 <= i < |actions| ==>
                  actions[i].ClientRead? || (actions[i].GiveUp? && i == |actions| - 1))
              && (AllDisciplined(actions) <==> outcome.Idle? || ack.Rejected?)
              && (outcome.Idle? <==>
                    ack.Accepted? && exists k :: 0 <= k < polls && AsksAgain(replies[..k]) && replies[k] == Number(0))
  {
    if inferred.None? {
      return [], Failed;
    }
    var rows := inferred.value;
    if rows == [] {
      return [], Idle;
    }
    actions := [ClientSend(Rows(rows))];
    if ack.Rejected? {
      return actions, Failed;
    }
    if ack.NoAnswer? {
      actions := actions + [GiveUp];
      assert !Disciplined(actions[1]);
      return actions, Failed;
    }
    var asked: nat;
    outcome, asked := WaitPolicyIdle(replies, polls);
    actions := actions + Reads(asked);
    if outcome.Idle? {
      assert AsksAgain(replies[..asked - 1]) && replies[asked - 1] == Number(0);
    } else {
      actions := actions + [GiveUp];
      assert !Disciplined(actions[|actions| - 1]);
      forall k | 0 <= k < polls && AsksAgain(replies[..k]) ensures replies[k] != Number(0) {
        NeverZero(replies, polls, asked, outcome, k);
      }
    }
  }

  lemma NeverZero(replies: seq<Reply>, polls: nat, asked: nat, outcome: Outcome, k: nat)
    requires polls <= |replies| && asked <= polls && k < polls && AsksAgain(replies[..k])
    requires (outcome.TimedOut? && AsksAgain(replies[..polls]))
             || (outcome.Failed? && asked > 0 && AsksAgain(replies[..asked - 1]) && replies[asked - 1].Broken?)
    ensures replies[k] != Number(0)
  {
    if outcome.TimedOut? {
      PrefixAsks(replies, polls);
    } else {
      PrefixAsks(replies, asked - 1);
      PrefixAsks(replies, k);
    }
  }

  lemma PrefixAsks(replies: seq<Reply>, k: nat)
    requires k <= |replies| && AsksAgain(replies[..k])
    ensures forall j :: 0 <= j < k ==> replies[j] != Number(0) && !replies[j].Broken?
  {
    forall j | 0 <= j < k ensures replies[j] != Number(0) && !replies[j].Broken? {
      assert replies[..k][j] == replies[j];
    }
  }
}
