/** What the collector must not fail to do (tactile_collect_real.cpp:1356-1385 and 1407-1905): break an approach
    off at dangerous contact, hold where contact is firm, and take the answer to its own request, or none in
    time, for what it is. */
module CollectorReactions {
  import opened Basics
  import opened JsonText
  import opened ProgressMonitor
  import opened Collector
  import opened CollectorSafety

  // ---------------------------------------------------------------- the baseline

  /** Ticks among the first `k` with a valid force reading. */
  function Readings(ins: seq<Input>, k: nat): nat
    requires k <= |ins|
  {
    if k == 0 then 0 else Readings(ins, k - 1) + if ins[k - 1].sensorOk then 1 else 0
  }

  lemma BaselineTicks(c: State, count: int, i: Input, m: Metric)
    requires Shape(c) && count <= MAX_COUNT && ModelOk(i)
    ensures var b, b' := c.baseline, Tick(c, count, i, m).0.baseline;
            if b.ready then b' == b
            else
              && b'.count == b.count + (if i.sensorOk then 1 else 0)
              && (b'.ready <==> i.sensorOk && b.count + 1 >= 200)
              && (b'.ready ==> forall axis :: 0 <= axis < 6 ==> b'.pose[axis] == i.actual[axis])
  {
    if c.baseline.ready { TickEffect(c, count, i, m); }
  }

  /** In every run the baseline is fixed by the 200th valid force reading, at the pose measured then, and never
      moves again. */
  lemma {:induction false} BaselineIsFixedOnce(cs: seq<State>, ins: seq<Input>, m: Metric, k: nat)
    requires Run(cs, ins, m) && k < |ins|
    ensures cs[k].baseline.ready <==> Readings(ins, k) >= 200
    ensures !cs[k].baseline.ready ==> cs[k].baseline.count == Readings(ins, k)
    ensures k > 0 && cs[k - 1].baseline.ready ==> cs[k].baseline == cs[k - 1].baseline
    ensures k > 0 && cs[k].baseline.ready && !cs[k - 1].baseline.ready ==>
              && Readings(ins, k) == 200
              && forall axis :: 0 <= axis < 6 ==> cs[k].baseline.pose[axis] == ins[k - 1].actual[axis]
  {
    if k > 0 {
      BaselineIsFixedOnce(cs, ins, m, k - 1);
      RunKeepsShape(cs, ins, m, k - 1);
      var next := Tick(cs[k - 1], k, ins[k - 1], m);
      BaselineTicks(cs[k - 1], k, ins[k - 1], m);
    }
  }

  // ---------------------------------------------------------------- dangerous and firm contact

  /** The flag a record of this tick carries. */
  function Peak(c: State, i: Input): int { Max(Max(c.flag, ContactFlag(i.force)), 1) }

  /** The tick measures a force while it approaches a sample or settles on it. */
  predicate Approaches(c: State, i: Input) {
    && c.sample < |c.samples| && ModelOk(i)
    && (((c.stage.Preapproach? || c.stage.Contact?) && i.ikOk) || c.stage.Settle?)
  }

  lemma DangerBreaksOff(c: State, count: int, i: Input, m: Metric)
    requires Shape(c) && count <= MAX_COUNT && Approaches(c, i) && Dangerous(i.force)
    ensures var (c', ret) := Tick(c, count, i, m);
            && c'.stage.Retreat? && c'.sample == c.sample && ret == MAX_COUNT - count
            && c'.records == c.records + [Record(c.sample, c'.target, 3, false, "danger_before_tcp_collect", "")]
  {
    ContactLevels(i.force);
  }

  lemma BackStaysBack(c: State, count: int, i: Input, m: Metric)
    requires Shape(c) && count <= MAX_COUNT && GoingBack(c.stage)
    ensures var c' := Tick(c, count, i, m).0;
            c'.sample == c.sample ==> GoingBack(c'.stage) && c'.records == c.records
  {
    TickEffect(c, count, i, m);
  }

  /** In every run, dangerous contact during an approach or while settling ends the sample: one record says
      so, and from the next tick on the collector only goes back as long as it is on that sample. */
  lemma {:induction false} DangerEndsTheSample(cs: seq<State>, ins: seq<Input>, m: Metric, k: nat, j: nat)
    requires Run(cs, ins, m) && k < j < |cs| && Approaches(cs[k], ins[k]) && Dangerous(ins[k].force)
    requires cs[j].sample == cs[k].sample
    ensures GoingBack(cs[j].stage)
    ensures cs[j].records
         == cs[k].records + [Record(cs[k].sample, cs[k + 1].target, 3, false, "danger_before_tcp_collect", "")]
    decreases j
  {
    RunKeepsShape(cs, ins, m, j - 1);
    var next := Tick(cs[j - 1], j, ins[j - 1], m);
    if j == k + 1 {
      DangerBreaksOff(cs[k], k + 1, ins[k], m);
    } else {
      SamplesNeverGoBack(cs, ins, m, k, j - 1);
      RecordsOnlyGrow(cs, ins, m, j - 1);
      DangerEndsTheSample(cs, ins, m, k, j - 1);
      BackStaysBack(cs[j - 1], j, ins[j - 1], m);
    }
  }

  lemma {:induction false} SamplesNeverGoBack(cs: seq<State>, ins: seq<Input>, m: Metric, k: nat, j: nat)
    requires Run(cs, ins, m) && k <= j < |cs|
    ensures cs[k].sample <= cs[j].sample
    decreases j
  {
    if k < j {
      SamplesNeverGoBack(cs, ins, m, k, j - 1);
      RecordsOnlyGrow(cs, ins, m, j - 1);
    }
  }

  /** In every run, firm contact short of danger makes the robot hold the pose it has: that pose is the target
      for as long as it then settles and collects. */
  lemma {:induction false} FirmContactIsHeld(cs: seq<State>, ins: seq<Input>, m: Metric, k: nat, j: nat)
    requires Run(cs, ins, m) && k < j < |cs| && cs[k].stage.Contact? && Approaches(cs[k], ins[k])
    requires Beyond(ins[k].force[2], 5.0) && !Dangerous(ins[k].force)
    requires forall t :: k < t < j ==> cs[t].stage.Settle? || cs[t].stage.Collect?
    ensures cs[k + 1].stage.Settle? && cs[k + 1].sample == cs[k].sample
    ensures cs[j].stage.Settle? || cs[j].stage.Collect? ==>
              cs[j].target == ins[k].actual && cs[j].sample == cs[k].sample
    decreases j
  {
    RunKeepsShape(cs, ins, m, j - 1);
    var next := Tick(cs[j - 1], j, ins[j - 1], m);
    if j == k + 1 {
      ContactLevels(ins[k].force);
    } else {
      FirmContactIsHeld(cs, ins, m, k, j - 1);
      TargetIsKept(cs[j - 1], j, ins[j - 1], m);
    }
  }

  lemma TargetIsKept(c: State, count: int, i: Input, m: Metric)
    requires Shape(c) && (c.stage.Settle? || c.stage.Collect?)
    ensures var c' := Tick(c, count, i, m).0; c'.target == c.target && c'.sample == c.sample
  {
  }

  /** When no joint angles lead to the commanded pose the collector falls back by one: an approach and a
      collection to the retreat, retreat and stabilizing to recovery, and recovery stops the plan. Only a
      collection leaves a record. */
  lemma UnreachablePoseFallsBack(c: State, count: int, i: Input, m: Metric)
    requires Shape(c) && count <= MAX_COUNT && c.sample < |c.samples| && ModelOk(i) && !i.ikOk
    requires !c.stage.InitBaseline? && !c.stage.Settle?
    ensures var (c', ret) := Tick(c, count, i, m);
            && c'.sample == c.sample
            && c'.records == c.records + (if !c.stage.Collect? then [] else
                 [Record(c.sample, c.target, Peak(c, i), false, "collect_hold_ik_failed", "")])
            && (if c.stage.Recover? then ret == -5 && c'.stage.Recover?
                else ret == MAX_COUNT - count
                     && c'.stage == if c.stage.Retreat? || c.stage.RotStabilize? then Recover else Retreat)
  {
  }

  /** What the value returned by a tick tells: the time limit, a wrong model, a recovery that failed, or how much
      of the time is left, 0 also when the collection is finished. */
  lemma ReturnCodes(c: State, count: int, i: Input, m: Metric)
    requires Shape(c) && 0 < count
    ensures var ret := Tick(c, count, i, m).1;
            && (ret == -3 <==> count > 900000)
            && (ret == -2 <==> count <= 900000 && i.model != 0 && i.model != 1)
            && (ret == -5 <==> count <= 900000 && ModelOk(i) && c.stage.Recover? && FailsToRecover(c, i, m))
            && (ret == 0 <==>
                  && count <= 900000 && ModelOk(i) && !(c.stage.Recover? && FailsToRecover(c, i, m))
                  && (count == 900000 || c.stage.Finish? || (c.baseline.ready && c.sample == |c.samples|)))
            && (ret != 0 ==> ret in {-2, -3, -5} || ret == 900000 - count > 0)
  {
  }

  /** The pose cannot be commanded, or waiting for it has been given up outside the soft tolerance. */
  predicate FailsToRecover(c: State, i: Input, m: Metric) {
    !i.ikOk
    || (!BaselineReached(i.actual, Home(c), m)
        && !BaselineSoftSafe(i.actual, Home(c), m)
        && !Update(c.mon, m.pos(i.actual, Home(c)), m.rot(i.actual, Home(c))).1.KeepWaiting?)
  }

  // ---------------------------------------------------------------- the answer

  /** A tick that waits for the network, with its request out or sent on the spot. */
  predicate Listens(c: State, i: Input) {
    && c.stage.Collect? && c.sample < |c.samples| && c.tcpEnabled
    && ModelOk(i) && i.ikOk && (c.request.active || i.sendOk)
  }

  predicate Contains(s: string, pat: string) { exists k: nat :: k <= |s| && OccursAt(s, pat, k) }

  predicate SaysOk(line: string) { Contains(line, "\"ok\":true") || Contains(line, "\"ok\": true") }

  lemma AckOkIff(line: string)
    ensures AckOk(line) <==> SaysOk(line)
  {
    FindIsFirst(line, "\"ok\":true", 0);
    FindIsFirst(line, "\"ok\": true", 0);
  }

  /** A line that names a sample: its number printed in decimal behind the first `"sample_id"` of the line. */
  ghost predicate Names(line: string, n: int) {
    -0x8000_0000 <= n < 0x8000_0000
    && exists pre, before, after, post ::
      NamedBy(line, n, pre, before, after, post)
  }

  predicate NamedBy(line: string, n: int, pre: string, before: string, after: string, post: string) {
    && Blank(before) && Blank(after) && NoDigitAt(post, 0)
    && line == pre + Member("sample_id", before, after, Decimal(n)) + post
    && Find(line, "\"" + "sample_id" + "\"", 0) == Some(|pre|)
  }

  lemma NamedSampleIsRead(line: string, n: int)
    requires Names(line, n)
    ensures AckSample(line) == n
  {
    var pre, before, after, post :| NamedBy(line, n, pre, before, after, post);
    NumberReadsBack(pre, "sample_id", before, after, n, post, line, -999999);
  }

  /** The answer that names the sample being collected ends the wait at once: the record says whether the line
      says `"ok":true`, and keeps the line. One that names another sample changes nothing but the noted contact. */
  lemma AnswerEndsTheWait(c: State, count: int, i: Input, m: Metric, n: int)
    requires Shape(c) && count <= MAX_COUNT && Listens(c, i) && i.event.AckLine? && Names(i.event.line, n)
    ensures var c' := Tick(c, count, i, m).0; var line := i.event.line;
            if n == c.sample then
              c'.stage.Retreat? && !c'.request.active && c'.records == c.records
                + [Record(c.sample, c.target, Peak(c, i), SaysOk(line),
                          if SaysOk(line) then "tcp_ack_ok" else "tcp_ack_nack", line)]
            else
              c' == Noted(c, i.force).(request := if c.request.active then c.request else Request(true, 0, c.sample))
  {
    NamedSampleIsRead(i.event.line, n);
    AckOkIff(i.event.line);
  }

  /** An answer that names no sample belongs to none. */
  lemma AnonymousAnswerIsIgnored(c: State, count: int, i: Input, m: Metric)
    requires Shape(c) && count <= MAX_COUNT && Listens(c, i) && i.event.AckLine?
    requires Find(i.event.line, "\"" + "sample_id" + "\"", 0) == None
    ensures Tick(c, count, i, m).0
         == Noted(c, i.force).(request := if c.request.active then c.request else Request(true, 0, c.sample))
  {
  }

  /** The reply the tactile computer writes for sample `n`. */
  function Reply(n: int, ok: bool): string {
    "{" + Member("sample_id", "", "", Decimal(n)) + (",\"ok\":" + (if ok then "true" else "false") + "}")
  }

  lemma {:induction false} DecimalLetters(n: nat)
    ensures forall i :: 0 <= i < |DecimalNat(n)| ==> IsDigit(DecimalNat(n)[i])
  {
    if n >= 10 { DecimalLetters(n / 10); }
  }

  lemma ReplyNamesItsSample(n: nat, ok: bool)
    requires n < 0x8000_0000
    ensures Names(Reply(n, ok), n) && (SaysOk(Reply(n, ok)) <==> ok)
  {
    KeyComesFirst(Decimal(n), ",\"ok\":" + (if ok then "true" else "false") + "}");
    assert NamedBy(Reply(n, ok), n, "{", "", "", ",\"ok\":" + (if ok then "true" else "false") + "}");
    if ok { ReplySaysOk(n); } else { ReplySaysNotOk(n); }
  }

  lemma KeyComesFirst(value: string, post: string)
    ensures var line := "{" + Member("sample_id", "", "", value) + post;
            Find(line, "\"" + "sample_id" + "\"", 0) == Some(|"{"|)
  {
    var pat := "\"" + "sample_id" + "\"";
    var line := "{" + Member("sample_id", "", "", value) + post;
    assert line == "{" + (pat + (":" + value + post));
    assert OccursAt(line, pat, 1);
    assert line[0] == '{' && pat[0] == '"';
    assert !OccursAt(line, pat, 0);
    FindIsFirst(line, pat, 0);
  }

  lemma ReplySaysOk(n: nat)
    ensures SaysOk(Reply(n, true))
  {
    var line, front := Reply(n, true), "{" + Member("sample_id", "", "", Decimal(n)) + ",";
    assert line == front + ("\"ok\":true" + "}");
    assert OccursAt(line, "\"ok\":true", |front|);
  }

  lemma ReplySaysNotOk(n: nat)
    ensures !SaysOk(Reply(n, false))
  {
    var line := Reply(n, false);
    NoLetterU(n);
    forall k: nat ensures !OccursAt(line, "\"ok\":true", k) && !OccursAt(line, "\"ok\": true", k) {
      assert "\"ok\":true"[7] == 'u' && "\"ok\": true"[8] == 'u';
    }
  }

  lemma NoLetterU(n: nat)
    ensures 'u' !in Reply(n, false)
  {
    DecimalLetters(n);
    assert 'u' !in Member("sample_id", "", "", Decimal(n)) by {
      assert 'u' !in "sample_id" && 'u' !in DecimalNat(n);
    }
    assert 'u' !in ",\"ok\":" && 'u' !in "false";
  }

  /** A request that cannot be sent ends the collection with a record that says so. */
  lemma UnsentRequestEndsTheCollection(c: State, count: int, i: Input, m: Metric)
    requires Shape(c) && count <= MAX_COUNT && c.stage.Collect? && c.sample < |c.samples| && c.tcpEnabled
    requires ModelOk(i) && i.ikOk && !c.request.active && !i.sendOk
    ensures var c' := Tick(c, count, i, m).0;
            && c'.stage.Retreat? && c'.sample == c.sample
            && c'.records == c.records + [Record(c.sample, c.target, Peak(c, i), false, "tcp_send_failed", "")]
  {
  }

  /** Without TCP every tick of a collection leaves a record, and dangerous contact or the fifteenth ends it. */
  lemma RobotOnlyCollection(c: State, count: int, i: Input, m: Metric)
    requires Shape(c) && count <= MAX_COUNT && c.stage.Collect? && c.sample < |c.samples| && !c.tcpEnabled
    requires ModelOk(i) && i.ikOk
    ensures var c' := Tick(c, count, i, m).0;
            && c'.records == c.records
                 + [Record(c.sample, c.target, Peak(c, i), false, "tcp_disabled_robot_only", "")]
            && c'.stage == (if Dangerous(i.force) || c.collected + 1 >= 15 then Retreat else Collect)
            && c'.sample == c.sample && c'.collected == c.collected + 1
  {
    ContactLevels(i.force);
  }

  // ---------------------------------------------------------------- no answer

  /** Ticks without a line since the request now out was sent. */
  function Waited(cs: seq<State>, ins: seq<Input>, k: nat): nat
    requires k < |cs| == |ins| + 1
  {
    if k == 0 || !cs[k].request.active then 0
    else Waited(cs, ins, k - 1) + if ins[k - 1].event.AckLine? then 0 else 1
  }

  lemma WaitGrowsInCollect(c: State, i: Input)
    requires Shape(c) && c.stage.Collect? && CollectTick(c, i).request.active
    ensures CollectTick(c, i).request.wait
         == (if c.request.active then c.request.wait else 0) + if i.event.AckLine? then 0 else 1
  {
  }

  lemma OnlyCollectRequests(c: State, count: int, i: Input, m: Metric)
    requires Shape(c) && !c.stage.Collect?
    ensures !Tick(c, count, i, m).0.request.active
  {
  }

  lemma WaitGrows(c: State, count: int, i: Input, m: Metric)
    requires Shape(c) && Tick(c, count, i, m).0.request.active && Tick(c, count, i, m).1 > 0
    ensures var c' := Tick(c, count, i, m).0;
            c'.request.wait == (if c.request.active then c.request.wait else 0) + if i.event.AckLine? then 0 else 1
  {
    if c.stage.Collect? { WaitGrowsInCollect(c, i); } else { OnlyCollectRequests(c, count, i, m); }
  }

  lemma {:induction false} WaitIsHonest(cs: seq<State>, ins: seq<Input>, m: Metric, k: nat)
    requires Run(cs, ins, m) && k < |ins| && cs[k].request.active
    ensures cs[k].request.wait == Waited(cs, ins, k)
  {
    if k > 0 {
      RunKeepsShape(cs, ins, m, k - 1);
      var next := Tick(cs[k - 1], k, ins[k - 1], m);
      WaitGrows(cs[k - 1], k, ins[k - 1], m);
      if cs[k - 1].request.active { WaitIsHonest(cs, ins, m, k - 1); }
    }
  }

  /** In every run a wait for the answer is given up, with a record that says so, exactly at its 6000th tick
      without a line; before that it goes on. A closed connection sends the request again. */
  lemma SilenceEndsTheWaitIff(cs: seq<State>, ins: seq<Input>, m: Metric, k: nat)
    requires Run(cs, ins, m) && k < |ins| && Listens(cs[k], ins[k]) && !ins[k].event.AckLine?
    ensures var c, i := cs[k], ins[k]; var c' := cs[k + 1];
            if Waited(cs, ins, k) + 1 >= 6000 then
              c'.stage.Retreat? && c'.records
                == c.records + [Record(c.sample, c.target, Peak(c, i), false, "tcp_ack_timeout", "")]
            else
              c'.stage.Collect? && c'.records == c.records && c'.request.active == !i.event.PeerClosed?
  {
    RunKeepsShape(cs, ins, m, k);
    var next := Tick(cs[k], k + 1, ins[k], m);
    if cs[k].request.active { WaitIsHonest(cs, ins, m, k); }
  }
}
