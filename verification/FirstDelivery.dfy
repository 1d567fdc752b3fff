// The first message of a queue and its first delivery, as a run from the empty queue.
module FirstDelivery {
  import opened Wrappers
  import opened Transitions
  import opened Legality
  import opened Wheel
  import opened Operations
  import opened Runs
  import opened WheelRuns
  import opened Delivery
  import opened Liveness

  lemma {:induction false} VisitsOfNothing(cfg: Config, now: nat, g: Group, bucket: seq<Id>)
    requires g.inflight == map[]
    ensures VisitAll(cfg, now, g, bucket, {}) == g
    decreases |bucket|
  {
    if bucket != [] {
      VisitsOfNothing(cfg, now, g, bucket[1..]);
    }
  }

  ghost predicate Unlisted(g: Group, id: Id) {
    g.inflight == map[] && forall slot :: 0 <= slot < SLOTS ==> id !in g.wheel[slot]
  }

  lemma {:induction false} ReapOfNothing(cfg: Config, now: nat, g: Group, id: Id)
    requires Unlisted(g, id)
    ensures var g' := Advance(cfg, now, g, {});
      Unlisted(g', id) && g'.runtime == g.runtime && g'.next == g.next && g'.log == g.log
    decreases TicksLeft(cfg, now, g)
  {
    if g.base <= now / Tick(cfg) {
      VisitsOfNothing(cfg, now, TakeSlot(g), g.wheel[g.base % SLOTS]);
      VisitSlotTakesOneTick(cfg, now, g, {});
      hide VisitAll, Tick;
      var g1 := VisitSlot(cfg, now, g, {});
      assert Unlisted(g1, id);
      ReapOfNothing(cfg, now, g1, id);
    }
  }

  // The group of a queue with one message and no history, opened at time t.
  lemma {:induction false} FirstOpening(cfg: Config, m: Message, t: nat)
    ensures
      var g := Load(cfg, [m], None, [], LoadClock(t, t, t));
      && Unlisted(g, m.id) && g.runtime == map[m.id := DefaultRuntime(0, m.enqueued)]
      && g.base == t / Tick(cfg) && g.log == [] && g.next == 1
  {
    hide Eligible, Ascending, Tick;
    assert [m][..0] == [];
    assert Defaults([m]) == map[m.id := DefaultRuntime(0, m.enqueued)];
  }

  lemma {:induction false} StepProduce(cfg: Config, owner: Text, m: Message) returns (w1: World)
    ensures RunsTo(cfg, owner, START, [Produce(m)], w1) && w1 == Down([m], false, None, [])
    ensures TimelyReachable(cfg, owner, w1)
  {
    w1 := Down([m], false, None, []);
    assert Step(cfg, owner, START, Produce(m)).0 == w1;
    assert [Produce(m)][1..] == [];
    assert EnabledRun(cfg, owner, START, [Produce(m)]) && TimelyRun(cfg, owner, START, [Produce(m)]);
  }

  // A state reached from the empty queue by timely operations.
  ghost predicate TimelyReachable(cfg: Config, owner: Text, w: World) {
    exists ops ::
      EnabledRun(cfg, owner, START, ops) && TimelyRun(cfg, owner, START, ops) && Run(cfg, owner, START, ops) == w
  }

  lemma TimelyIsReachable(cfg: Config, owner: Text, w: World)
    requires TimelyReachable(cfg, owner, w)
    ensures Reachable(cfg, owner, w)
  {
  }

  lemma {:induction false} TimelyThenStep(cfg: Config, owner: Text, w: World, a: seq<Op>, op: Op)
    requires EnabledRun(cfg, owner, w, a) && TimelyRun(cfg, owner, w, a)
    requires EnabledRun(cfg, owner, w, a + [op]) && Timely(cfg, Run(cfg, owner, w, a), op)
    ensures TimelyRun(cfg, owner, w, a + [op])
    decreases |a|
  {
    hide Step, Enabled, Timely;
    if a == [] {
      assert a + [op] == [op] && [op][1..] == [];
    } else {
      assert (a + [op])[1..] == a[1..] + [op];
      TimelyThenStep(cfg, owner, Step(cfg, owner, w, a[0]).0, a[1..], op);
    }
  }

  lemma {:induction false} TimelyOneMore(cfg: Config, owner: Text, w: World, op: Op, w': World, outcome: Outcome)
    requires TimelyReachable(cfg, owner, w) && StepsTo(cfg, owner, w, op, w', outcome) && Timely(cfg, w, op)
    ensures TimelyReachable(cfg, owner, w')
  {
    hide Step, Enabled, Run, EnabledRun, TimelyRun, Timely;
    var ops :|
      EnabledRun(cfg, owner, START, ops) && TimelyRun(cfg, owner, START, ops) && Run(cfg, owner, START, ops) == w;
    RunThenStep(cfg, owner, START, ops, op);
    TimelyThenStep(cfg, owner, START, ops, op);
  }

  lemma {:induction false} RunsOneMore(
    cfg: Config, owner: Text, w: World, ops: seq<Op>, w1: World, op: Op, w2: World, outcome: Outcome)
    requires RunsTo(cfg, owner, w, ops, w1) && StepsTo(cfg, owner, w1, op, w2, outcome)
    ensures RunsTo(cfg, owner, w, ops + [op], w2)
  {
    hide Step, Enabled, Run, EnabledRun;
    RunThenStep(cfg, owner, w, ops, op);
  }

  lemma {:induction false} ProducedInv(cfg: Config, owner: Text, m: Message, w1: World)
    requires SaneRetryLimit(cfg) && RunsTo(cfg, owner, START, [Produce(m)], w1)
    ensures WorldInv(cfg, w1)
  {
    hide WorldInv, Run, EnabledRun, FilesGrow;
    StartInv(cfg);
    RunKeeps(cfg, owner, START, [Produce(m)]);
  }

  lemma {:induction false} StaysSingle(cfg: Config, owner: Text, w1: World, t: nat, w2: World, outcome: Outcome)
    requires w1.Down? && StepsTo(cfg, owner, w1, OpenOp(t), w2, outcome)
    ensures w2.Up? && w2.segment == w1.segment
  {
    hide Load, Defaults;
  }

  lemma UnlistedFacts(g: Group, id: Id)
    ensures Unlisted(g, id) ==> g.inflight == map[] && forall slot :: 0 <= slot < SLOTS ==> id !in g.wheel[slot]
  {
  }

  lemma {:induction false} OneEligible(g: Group, m: Message, t: nat)
    requires g.runtime == map[m.id := DefaultRuntime(0, m.enqueued)]
    ensures Eligible(g.runtime, t) != {}
  {
    assert g.runtime[m.id].offset in Eligible(g.runtime, t);
  }

  lemma {:induction false} DeliveredLease(cfg: Config, owner: Text, before: Group, after: Group, id: Id, now: nat)
    requires DeliveredAs(cfg, owner, before, after, id, now)
    ensures id in after.inflight && after.inflight[id].bucketTick == (now + cfg.visibility) / Tick(cfg)
    ensures id in after.runtime && after.runtime[id].state == InFlight
  {
    hide Tick, Push;
  }

  // The world in which a queue with one message has just had its group opened, at time t.
  lemma {:induction false} FirstOpened(cfg: Config, owner: Text, m: Message, t: nat) returns (w: World)
    requires SaneRetryLimit(cfg)
    ensures TimelyReachable(cfg, owner, w) && WorldInv(cfg, w) && w.Up? && w.segment == [m]
    ensures RunsTo(cfg, owner, START, [Produce(m), OpenOp(t)], w)
    ensures Unlisted(w.group, m.id) && w.group.runtime == map[m.id := DefaultRuntime(0, m.enqueued)]
    ensures w.group.base == t / Tick(cfg) && w.group.log == [] && w.group.next == 1
  {
    hide WorldInv, Load, StepsTo, RunsTo, SaneRetryLimit, Tick, TimelyReachable, Unlisted;
    var w1 := StepProduce(cfg, owner, m);
    ProducedInv(cfg, owner, m, w1);
    var done;
    w, done := StepOpen(cfg, owner, w1, t);
    FirstOpening(cfg, m, t);
    StaysSingle(cfg, owner, w1, t, w, done);
    TimelyOneMore(cfg, owner, w1, OpenOp(t), w, done);
    RunsOneMore(cfg, owner, START, [Produce(m)], w1, OpenOp(t), w, done);
    assert [Produce(m)] + [OpenOp(t)] == [Produce(m), OpenOp(t)];
  }

  lemma {:induction false} KeepsSegment(
    cfg: Config, owner: Text, w: World, clock: ConsumeClock, w': World, outcome: Outcome)
    requires w.Up? && StepsTo(cfg, owner, w, ConsumeAt(clock), w', outcome)
    ensures w'.segment == w.segment && w'.Up?
    ensures outcome.Delivery? ==> w'.snapshot == Some(Snapshot(w'.group.next, w'.group.runtime))
  {
    hide Consume;
  }

  lemma {:induction false} FirstReap(
    cfg: Config, owner: Text, w: World, m: Message, t: nat, clock: ConsumeClock, after: Group, outcome: Outcome)
    returns (before: Group)
    requires WorldInv(cfg, w) && SaneRetryLimit(cfg) && w.Up? && cfg.maxInflight >= 1
    requires Unlisted(w.group, m.id) && w.group.runtime == map[m.id := DefaultRuntime(0, m.enqueued)]
    requires w.group.base == t / Tick(cfg) && w.group.log == [] && w.group.next == 1
    requires t / Tick(cfg) <= clock.scan / Tick(cfg)
    requires (after, outcome) == Consume(cfg, owner, w.segment, w.group, clock, {}, true)
    ensures DeliveredAs(cfg, owner, before, after, m.id, clock.lease)
    ensures Unlisted(before, m.id) && before.base == clock.scan / Tick(cfg) + 1 && before.log == [] && before.next == 1
    ensures before.runtime == w.group.runtime && outcome.Delivery?
  {
    hide WorldInv, Consume, Advance, DeliveredAs, SaneRetryLimit, Tick, Eligible, Ascending;
    before := Reap(cfg, w.group, clock.scan, clock.ready, {});
    ConsumeDelivers(cfg, owner, w, clock, {}, true);
    ReapOfNothing(cfg, clock.scan, w.group, m.id);
    AdvanceBase(cfg, clock.scan, w.group, {});
    OneEligible(before, m, clock.ready);
    assert outcome.id in before.runtime;
  }

  // The world in which the first message of a queue, whose group was opened at time t, has just been delivered for
  // the first time; before is the group after the reap that precedes the delivery. The run up to there is timely
  // if the lease is issued in time.
  lemma {:induction false} FirstDelivered(cfg: Config, owner: Text, m: Message, t: nat, clock: ConsumeClock)
    returns (w: World, before: Group)
    requires SaneRetryLimit(cfg) && cfg.maxInflight >= 1 && t / Tick(cfg) <= clock.scan / Tick(cfg)
    ensures Reachable(cfg, owner, w) && w.Up? && w.segment == [m]
    ensures RunsTo(cfg, owner, START, [Produce(m), OpenOp(t), ConsumeAt(clock)], w)
    ensures w.snapshot == Some(Snapshot(w.group.next, w.group.runtime))
    ensures DeliveredAs(cfg, owner, before, w.group, m.id, clock.lease)
    ensures Unlisted(before, m.id) && before.base == clock.scan / Tick(cfg) + 1 && before.log == [] && before.next == 1
    ensures before.runtime == map[m.id := DefaultRuntime(0, m.enqueued)]
    ensures (clock.lease + cfg.visibility) / Tick(cfg) < clock.scan / Tick(cfg) + 1 + SLOTS ==>
      TimelyReachable(cfg, owner, w)
  {
    hide WorldInv, Load, Consume, StepsTo, RunsTo, SaneRetryLimit, Tick, Reachable, DeliveredAs, Unlisted;
    hide TimelyReachable;
    var loaded := FirstOpened(cfg, owner, m, t);
    var given;
    w, given := StepConsume(cfg, owner, loaded, clock);
    before := FirstReap(cfg, owner, loaded, m, t, clock, w.group, given);
    KeepsSegment(cfg, owner, loaded, clock, w, given);
    TimelyIsReachable(cfg, owner, loaded);
    ReachesOneMore(cfg, owner, loaded, ConsumeAt(clock), w, given);
    RunsOneMore(cfg, owner, START, [Produce(m), OpenOp(t)], loaded, ConsumeAt(clock), w, given);
    assert [Produce(m), OpenOp(t)] + [ConsumeAt(clock)] == [Produce(m), OpenOp(t), ConsumeAt(clock)];
    if (clock.lease + cfg.visibility) / Tick(cfg) < clock.scan / Tick(cfg) + 1 + SLOTS {
      NothingFails(cfg, clock.scan, loaded.group);
      TimelyOneMore(cfg, owner, loaded, ConsumeAt(clock), w, given);
    }
  }

  lemma {:induction false} FirstRegistered(
    cfg: Config, owner: Text, before: Group, after: Group, id: Id, now: nat)
    requires DeliveredAs(cfg, owner, before, after, id, now) && before.inflight == map[]
    requires (now + cfg.visibility) / Tick(cfg) < before.base + SLOTS
    ensures Registered(after)
  {
    hide Push, Tick, RuntimeAfter;
    var e := DeliveryEvent(cfg, owner, before.next, id, before.runtime[id].retry, now);
    NewLeaseRegistered(before, after, id, LeaseOf(Tick(cfg), e, before.runtime[id].offset));
  }

  lemma NothingFails(cfg: Config, now: nat, g: Group)
    ensures ReapSucceeds(cfg, now, g, {})
  {
  }

  lemma {:induction false} ReachesOneMore(
    cfg: Config, owner: Text, w: World, op: Op, w': World, outcome: Outcome)
    requires Reachable(cfg, owner, w) && StepsTo(cfg, owner, w, op, w', outcome)
    ensures Reachable(cfg, owner, w')
  {
    hide Step, Enabled, Reachable;
    StepReaches(cfg, owner, w, op);
  }
}
