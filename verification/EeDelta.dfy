/** The end-effector delta channel: the poster stores the data under a mutex and raises the
    sequence number afterwards (a10_tcp_server.cpp:478-482); the reader loads the number first
    and takes the data under the mutex afterwards (a10_tcp_server.cpp:285-301). */
module EeDelta {
  import opened Basics
  import opened Keyframes
  import opened PolicyServer

  datatype Reader = Waiting | Loaded(seq_: nat)

  /** The `version`-th post (counted from 1), handed out under sequence number `seq_`. */
  datatype Delivery = Delivery(version: nat, seq_: nat)

  /** `data` is the number of the post the buffer holds. `posted` counts the stores; `written` holds
      between a store and its increment. */
  datatype Channel = Channel(posted: nat, data: Option<nat>, seq_: nat, written: bool,
                             reader: Reader, consumed: nat, delivered: seq<Delivery>)

  const EMPTY: Channel := Channel(0, None, 0, false, Waiting, 0, [])

  datatype Action = Store | Raise | Load | Take | ClearData | ClearSeq

  function Apply(c: Channel, a: Action): Channel {
    match a
    case Store => if c.written then c else c.(posted := c.posted + 1, data := Some(c.posted + 1), written := true)
    case Raise => if c.written then c.(seq_ := c.seq_ + 1, written := false) else c
    case Load =>
      if c.reader.Loaded? || c.seq_ == 0 || c.seq_ == c.consumed then c else c.(reader := Loaded(c.seq_))
    case Take =>
      (match c.reader
       case Waiting => c
       case Loaded(n) =>
         if c.data.None? then c.(reader := Waiting)
         else c.(reader := Waiting, consumed := n, delivered := c.delivered + [Delivery(c.data.value, n)]))
    case ClearData => c.(data := None)
    case ClearSeq => c.(seq_ := 0)
  }

  function Exec(c: Channel, actions: seq<Action>): Channel
    decreases |actions|
  {
    if actions == [] then c else Exec(Apply(c, actions[0]), actions[1..])
  }

  predicate NeverCleared(actions: seq<Action>) {
    forall i :: 0 <= i < |actions| ==> !actions[i].ClearData? && !actions[i].ClearSeq?
  }

  // ---------------------------------------------------------------- the real order of steps

  /** From one delivery to the next: the number rises, the data never goes back, and the number is
      at most one behind the data delivered before. */
  predicate Successive(a: Delivery, b: Delivery) {
    a.seq_ < b.seq_ && a.version <= b.version && a.version <= b.seq_ + 1
  }

  predicate GoodHistory(d: seq<Delivery>) {
    && (forall i :: 0 <= i < |d| ==> 1 <= d[i].seq_ <= d[i].version)
    && (forall i :: 0 <= i < |d| - 1 ==> Successive(d[i], d[i + 1]))
  }

  predicate Sound(c: Channel) {
    && c.posted == c.seq_ + (if c.written then 1 else 0)
    && c.data == (if c.posted == 0 then None else Some(c.posted))
    && GoodHistory(c.delivered)
    && (if c.delivered == [] then c.consumed == 0
        else var last := c.delivered[|c.delivered| - 1];
          && c.consumed == last.seq_ && last.version <= c.posted
          && (c.reader.Loaded? ==> last.version <= c.reader.seq_ + 1))
    && c.consumed <= c.seq_
    && (c.reader.Loaded? ==> c.consumed < c.reader.seq_ <= c.seq_)
  }

  lemma StepStaysSound(c: Channel, a: Action)
    requires Sound(c) && !a.ClearData? && !a.ClearSeq?
    ensures Sound(Apply(c, a))
  {
    if a.Take? && c.reader.Loaded? {
      var d, d' := c.delivered, Apply(c, a).delivered;
      forall i | 0 <= i < |d'| - 1 ensures Successive(d'[i], d'[i + 1]) {
        if i < |d| - 1 { assert Successive(d[i], d[i + 1]); }
      }
    }
  }

  lemma {:induction false} RunStaysSound(c: Channel, actions: seq<Action>)
    requires Sound(c) && NeverCleared(actions)
    ensures Sound(Exec(c, actions))
    decreases |actions|
  {
    if actions != [] {
      StepStaysSound(c, actions[0]);
      RunStaysSound(Apply(c, actions[0]), actions[1..]);
    }
  }

  lemma {:induction false} VersionsNeverGoBack(d: seq<Delivery>, i: nat, j: nat)
    requires GoodHistory(d) && i <= j < |d|
    ensures d[i].version <= d[j].version
    decreases j - i
  {
    if i < j {
      assert Successive(d[i], d[i + 1]);
      VersionsNeverGoBack(d, i + 1, j);
    }
  }

  /** Among four consecutive deliveries the data has moved on: no post is delivered a fourth time. */
  lemma NoFourthDelivery(d: seq<Delivery>, i: nat)
    requires GoodHistory(d) && i + 3 < |d|
    ensures d[i].version < d[i + 3].version
  {
    assert Successive(d[i], d[i + 1]);
    assert Successive(d[i + 1], d[i + 2]);
    assert Successive(d[i + 2], d[i + 3]);
  }

  /** One poster, no clear, any interleaving: numbers rise, data never goes back to an older post, is
      at least as new as the number it comes with, and no post is delivered more than three times. */
  lemma DeliveriesInEveryInterleaving(actions: seq<Action>, i: nat, j: nat)
    requires NeverCleared(actions)
    requires i < j < |Exec(EMPTY, actions).delivered|
    ensures var d := Exec(EMPTY, actions).delivered;
            && 1 <= d[i].seq_ <= d[i].version <= d[j].version
            && (j >= i + 3 ==> d[i].version < d[j].version)
  {
    RunStaysSound(EMPTY, actions);
    var d := Exec(EMPTY, actions).delivered;
    VersionsNeverGoBack(d, i, j);
    if j >= i + 3 {
      NoFourthDelivery(d, i);
      VersionsNeverGoBack(d, i + 3, j);
    }
  }

  lemma ExecNext(c: Channel, a: Action, rest: seq<Action>)
    ensures Exec(c, [a] + rest) == Exec(Apply(c, a), rest)
  {
    assert ([a] + rest)[1..] == rest;
  }

  lemma {:induction false} ExecSplits(c: Channel, a: seq<Action>, b: seq<Action>)
    ensures Exec(c, a + b) == Exec(Exec(c, a), b)
    decreases |a|
  {
    if a == [] {
      assert a + b == b;
    } else {
      assert (a + b)[1..] == a[1..] + b;
      ExecSplits(Apply(c, a[0]), a[1..], b);
    }
  }

  const OVERTAKEN: seq<Action> := [Store, Raise, Load, Store, Raise, Store]
  const REPEATED: seq<Action> := [Take, Load, Take, Raise, Load, Take]

  /** The reader holds the first number while the third post is stored. */
  lemma LateTakePrepared()
    ensures Exec(EMPTY, OVERTAKEN) == Channel(3, Some(3), 2, true, Loaded(1), 0, [])
  {
    var r1 := [Store] + [];
    var r2 := [Raise] + r1;
    var r3 := [Store] + r2;
    var r4 := [Load] + r3;
    var r5 := [Raise] + r4;
    assert OVERTAKEN == [Store] + r5;
    ExecNext(EMPTY, Store, r5);
    ExecNext(Channel(1, Some(1), 0, true, Waiting, 0, []), Raise, r4);
    ExecNext(Channel(1, Some(1), 1, false, Waiting, 0, []), Load, r3);
    ExecNext(Channel(1, Some(1), 1, false, Loaded(1), 0, []), Store, r2);
    ExecNext(Channel(2, Some(2), 1, true, Loaded(1), 0, []), Raise, r1);
    ExecNext(Channel(2, Some(2), 2, false, Loaded(1), 0, []), Store, []);
  }

  lemma ThreeTakes()
    ensures Exec(Channel(3, Some(3), 2, true, Loaded(1), 0, []), REPEATED).delivered
         == [Delivery(3, 1), Delivery(3, 2), Delivery(3, 3)]
  {
    var r5 := [Load, Take, Raise, Load, Take];
    assert REPEATED == [Take] + r5;
    assert [] + [Delivery(3, 1)] == [Delivery(3, 1)];
    ExecNext(Channel(3, Some(3), 2, true, Loaded(1), 0, []), Take, r5);
    SecondTake();
  }

  lemma SecondTake()
    ensures Exec(Channel(3, Some(3), 2, true, Waiting, 1, [Delivery(3, 1)]), [Load, Take, Raise, Load, Take]).delivered
         == [Delivery(3, 1), Delivery(3, 2), Delivery(3, 3)]
  {
    var r4 := [Take] + [Raise, Load, Take];
    assert [Load, Take, Raise, Load, Take] == [Load] + r4;
    var one, two := [Delivery(3, 1)], [Delivery(3, 1), Delivery(3, 2)];
    assert one + [Delivery(3, 2)] == two;
    ExecNext(Channel(3, Some(3), 2, true, Waiting, 1, one), Load, r4);
    ExecNext(Channel(3, Some(3), 2, true, Loaded(2), 1, one), Take, [Raise, Load, Take]);
    LastTake(two);
  }

  lemma LastTake(two: seq<Delivery>)
    ensures Exec(Channel(3, Some(3), 2, true, Waiting, 2, two), [Raise, Load, Take]).delivered == two + [Delivery(3, 3)]
  {
    var r1 := [Take] + [];
    var r2 := [Load] + r1;
    assert [Raise, Load, Take] == [Raise] + r2;
    ExecNext(Channel(3, Some(3), 2, true, Waiting, 2, two), Raise, r2);
    ExecNext(Channel(3, Some(3), 3, false, Waiting, 2, two), Load, r1);
    ExecNext(Channel(3, Some(3), 3, false, Loaded(3), 2, two), Take, []);
  }

  /** Three deliveries of one post do happen: the reader loads the first number, takes the third post
      under it, and then takes the same post again under the second and under the third number. */
  lemma ThreeDeliveriesHappen()
    ensures NeverCleared(OVERTAKEN + REPEATED)
    ensures Exec(EMPTY, OVERTAKEN + REPEATED).delivered == [Delivery(3, 1), Delivery(3, 2), Delivery(3, 3)]
  {
    ExecSplits(EMPTY, OVERTAKEN, REPEATED);
    LateTakePrepared();
    ThreeTakes();
  }

  // ---------------------------------------------------------------- indivisible post and fetch

  datatype Whole = Post | Fetch

  function ApplyWhole(c: Channel, w: Whole): Channel {
    match w
    case Post => Apply(Apply(c, Store), Raise)
    case Fetch => Apply(Apply(c, Load), Take)
  }

  function ExecWhole(c: Channel, ws: seq<Whole>): Channel
    decreases |ws|
  {
    if ws == [] then c else ExecWhole(ApplyWhole(c, ws[0]), ws[1..])
  }

  predicate Exact(c: Channel) {
    && Sound(c) && !c.written && c.reader.Waiting?
    && forall i :: 0 <= i < |c.delivered| ==> c.delivered[i].version == c.delivered[i].seq_
  }

  lemma {:induction false} WholeStaysExact(c: Channel, ws: seq<Whole>)
    requires Exact(c)
    ensures Exact(ExecWhole(c, ws))
    decreases |ws|
  {
    if ws != [] {
      match ws[0] {
        case Post =>
          StepStaysSound(c, Store);
          StepStaysSound(Apply(c, Store), Raise);
        case Fetch =>
          StepStaysSound(c, Load);
          StepStaysSound(Apply(c, Load), Take);
      }
      WholeStaysExact(ApplyWhole(c, ws[0]), ws[1..]);
    }
  }

  /** Were post and fetch indivisible, every post would be delivered at most once. */
  lemma IndivisibleDeliversOnce(ws: seq<Whole>, i: nat, j: nat)
    requires i < j < |ExecWhole(EMPTY, ws).delivered|
    ensures ExecWhole(EMPTY, ws).delivered[i].version < ExecWhole(EMPTY, ws).delivered[j].version
  {
    WholeStaysExact(EMPTY, ws);
    var d := ExecWhole(EMPTY, ws).delivered;
    VersionsNeverGoBack(d, i + 1, j);
    assert Successive(d[i], d[i + 1]);
  }

  // ---------------------------------------------------------------- when a post is delivered again

  /** The next delivery after `c` repeats the last one's post. */
  predicate Redelivers(c: Channel, actions: seq<Action>)
    requires c.delivered != []
  {
    && NeverCleared(actions)
    && (var n, d := |c.delivered|, Exec(c, actions).delivered; |d| > n && d[n].version == c.delivered[n - 1].version)
  }

  lemma {:induction false} DeliveredStays(c: Channel, actions: seq<Action>)
    ensures c.delivered <= Exec(c, actions).delivered
    decreases |actions|
  {
    if actions != [] { DeliveredStays(Apply(c, actions[0]), actions[1..]); }
  }

  lemma Again(c: Channel) returns (actions: seq<Action>)
    requires Sound(c) && c.reader.Waiting? && c.delivered != []
    requires c.posted == c.delivered[|c.delivered| - 1].version > c.delivered[|c.delivered| - 1].seq_
    ensures Redelivers(c, actions)
  {
    if c.seq_ > c.consumed {
      actions := [Load] + ([Take] + []);
      ExecNext(c, Load, [Take] + []);
      ExecNext(Apply(c, Load), Take, []);
    } else {
      actions := [Raise] + ([Load] + ([Take] + []));
      var c1 := Apply(c, Raise);
      ExecNext(c, Raise, [Load] + ([Take] + []));
      ExecNext(c1, Load, [Take] + []);
      ExecNext(Apply(c1, Load), Take, []);
    }
  }

  /** Just after a delivery, before a new post, the same post can be delivered again if and only if it was
      delivered under a number lower than its own: the reader got it before its number was raised. */
  lemma RedeliveryIff(c: Channel)
    requires Sound(c) && c.reader.Waiting? && c.delivered != []
    requires c.posted == c.delivered[|c.delivered| - 1].version
    ensures (exists actions :: Redelivers(c, actions))
       <==> c.delivered[|c.delivered| - 1].version > c.delivered[|c.delivered| - 1].seq_
  {
    var n := |c.delivered|;
    if c.delivered[n - 1].version > c.delivered[n - 1].seq_ {
      var actions := Again(c);
    } else {
      forall actions | NeverCleared(actions) ensures !Redelivers(c, actions) {
        RunStaysSound(c, actions);
        DeliveredStays(c, actions);
        var d := Exec(c, actions).delivered;
        if |d| > n { assert Successive(d[n - 1], d[n]) && d[n - 1] == c.delivered[n - 1]; }
      }
    }
  }

  // ---------------------------------------------------------------- a clear under a running reader

  function Cleared(c: Channel): Channel { Apply(Apply(c, ClearData), ClearSeq) }

  function Posts(c: Channel, m: nat): Channel {
    if m == 0 then c else ApplyWhole(Posts(c, m - 1), Post)
  }

  lemma {:induction false} PostsCount(c: Channel, m: nat)
    requires !c.written && c.reader.Waiting?
    ensures var p := Posts(c, m);
            && p.seq_ == c.seq_ + m && p.consumed == c.consumed && p.delivered == c.delivered
            && !p.written && p.reader.Waiting? && (m > 0 ==> p.data.Some?)
  {
    if m > 0 { PostsCount(c, m - 1); }
  }

  /** A clear restarts the numbers but not the reader's `consumed`: after `m` further posts a fetch
      delivers something exactly when `m` is neither 0 nor the number the reader consumed last. */
  lemma FetchAfterClear(c: Channel, m: nat)
    requires !c.written && c.reader.Waiting?
    ensures var p := Posts(Cleared(c), m);
            |ApplyWhole(p, Fetch).delivered| > |p.delivered| <==> m != 0 && m != c.consumed
  {
    PostsCount(Cleared(c), m);
  }

  /** Inside a tick of the reader: the stop flag was found down, or a number was loaded. */
  datatype Tick = Between | Tested | Fetching | Ended

  /** The reader with the stop flag it looks at before it fetches (a10_vr_vel_plan.cpp:379-394). */
  datatype Session = Session(c: Channel, stop: bool, tick: Tick)

  datatype Event = Other(a: Action) | RequestStop | StopTest | LoadStep | TakeStep

  function Next(s: Session, e: Event): Session {
    match e
    case Other(a) => if a.Load? || a.Take? then s else s.(c := Apply(s.c, a))
    case RequestStop => s.(stop := true)
    case StopTest =>
      if !s.tick.Between? then s
      else if s.stop then s.(stop := false, tick := Ended) else s.(tick := Tested)
    case LoadStep =>
      if !s.tick.Tested? then s
      else var c := Apply(s.c, Load); s.(c := c, tick := if c.reader.Loaded? then Fetching else Between)
    case TakeStep => if s.tick.Fetching? then s.(c := Apply(s.c, Take), tick := Between) else s
  }

  function AfterEvents(s: Session, es: seq<Event>): Session
    decreases |es|
  {
    if es == [] then s else AfterEvents(Next(s, es[0]), es[1..])
  }

  /** Every clear comes after a stop request (a10_vr_plan.cpp:22-29, a10_policy_tcp_plan.cpp:511-516), and
      from there on the reader delivers at most once more, and not at all unless the request fell between
      the stop test and the fetch of one tick, whatever is cleared and posted meanwhile. */
  lemma {:induction false} StopAllowsOneMore(s: Session, es: seq<Event>)
    requires s.stop || s.tick.Ended?
    ensures var t := AfterEvents(s, es);
            && |t.c.delivered| <= |s.c.delivered| + (if s.tick.Tested? || s.tick.Fetching? then 1 else 0)
            && (t.stop || t.tick.Ended?)
    decreases |es|
  {
    if es != [] { StopAllowsOneMore(Next(s, es[0]), es[1..]); }
  }

  /** The next reader starts from number 0 and misses nothing: any post after the clear is delivered to it. */
  lemma NewReaderMissesNothing(c: Channel, m: nat)
    requires !c.written && m > 0
    ensures var p := Posts(Cleared(c.(consumed := 0, reader := Waiting)), m);
            |ApplyWhole(p, Fetch).delivered| > |p.delivered|
  {
    FetchAfterClear(c.(consumed := 0, reader := Waiting), m);
  }

  // ---------------------------------------------------------------- the consumer

  /** Composing a delta onto the target, and pulling the target towards the actual pose. */
  datatype Ops = Ops(compose: (seq<real>, seq<real>) -> seq<real>, pull: (seq<real>, seq<real>) -> seq<real>)

  /** 0.2 degrees in radians. */
  const ROT_DEAD_ZONE: real := 0.2 * 3.14159265358979323846 / 180.0

  /** The velocity driver's use of the channel (a10_vr_vel_plan.cpp:456-488). */
  class A10VrVelDriver {
    var consumed: nat
    var lastPacket: int
    var idleCoast: bool
    var gripCmd: real
    var target: seq<real>
    var applied: seq<seq<real>>    // the deltas composed onto the target pose, in order

    constructor (actual: seq<real>, count: int)
      ensures consumed == 0 && lastPacket == count && !idleCoast && target == actual && applied == []
    {
      consumed, lastPacket, idleCoast, gripCmd, target, applied := 0, count, false, 0.0, actual, [];
    }

    /** A translation axis of at least 1 mm, or a rotation vector at least `RotEps` long; the length is compared
        through its square. */
    static predicate Effective(delta: seq<real>, rotGain: real) {
      |delta| >= 6
      && ((exists i :: 0 <= i < 3 && Abs(delta[i]) >= 0.001)
          || delta[3] * delta[3] + delta[4] * delta[4] + delta[5] * delta[5] >= RotEps(rotGain) * RotEps(rotGain))
    }

    /** The rotation dead zone before the gain is applied; a gain of 0 or less counts as 1e-9. */
    static function RotEps(rotGain: real): (eps: real)
      ensures eps > 0.0 && (rotGain >= LEAST ==> eps * rotGain == ROT_DEAD_ZONE)
    {
      ROT_DEAD_ZONE / (if rotGain >= LEAST then rotGain else LEAST)
    }

    static method IsEffectiveMotionDelta(delta: seq<real>, rotGain: real) returns (effective: bool)
      ensures effective == Effective(delta, rotGain)
      ensures effective <==>
                && |delta| >= 6
                && (Abs(delta[0]) >= 0.001 || Abs(delta[1]) >= 0.001 || Abs(delta[2]) >= 0.001
                    || delta[3] * delta[3] + delta[4] * delta[4] + delta[5] * delta[5]
                       >= RotEps(rotGain) * RotEps(rotGain))
    {
      if |delta| < 6 {
        return false;
      }
      for i := 0 to 3
        invariant forall k :: 0 <= k < i ==> Abs(delta[k]) < 0.001
      {
        if Abs(delta[i]) >= 0.001 {
          return true;
        }
      }
      return delta[3] * delta[3] + delta[4] * delta[4] + delta[5] * delta[5] >= RotEps(rotGain) * RotEps(rotGain);
    }

    method ConsumeDelta(
      server: A10TcpServer, actual: seq<real>, count: int, rotGain: real, timeout: real, ops: Ops)
      modifies this
      ensures var fresh_ := server.eeSeq != 0 && server.eeSeq != old(consumed) && |server.eeDelta| >= 7;
              && (fresh_ ==> consumed == server.eeSeq && lastPacket == count && gripCmd == server.eeDelta[6]
                             && idleCoast == !Effective(server.eeDelta, rotGain)
                             && applied == old(applied) + if idleCoast then [] else [server.eeDelta])
              && (!fresh_ ==> consumed == old(consumed) && lastPacket == old(lastPacket) && gripCmd == old(gripCmd)
                              && applied == old(applied)
                              && idleCoast == (old(idleCoast) || (count - lastPacket) as real * DT > timeout))
              && (var moved := if fresh_ && !idleCoast then ops.compose(old(target), server.eeDelta) else old(target);
                  target == if idleCoast then ops.pull(moved, actual) else moved)
    {
      var elapsed := (count - lastPacket) as real * DT;
      var ok, delta, n := server.FetchEeDeltaIfUpdated(consumed);
      if ok {
        consumed := n;
        lastPacket := count;
        gripCmd := delta[6];
        var effective := IsEffectiveMotionDelta(delta, rotGain);
        if effective {
          idleCoast := false;
          target := ops.compose(target, delta);
          applied := applied + [delta];
        } else {
          idleCoast := true;
        }
      } else if elapsed > timeout {
        idleCoast := true;
      }
      if idleCoast {
        target := ops.pull(target, actual);
      }
    }
  }
}
