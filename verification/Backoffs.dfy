// Retries wait. Over every run, restarts included, a message that was sent back is not delivered before its
// backoff is over, and from then on it is on offer.
module Backoffs {
  import opened Transitions
  import opened Legality
  import opened Wheel
  import opened Operations
  import opened Reachability
  import opened Runs
  import opened Delivery
  import opened Effects

  // A message sent back is visible again a backoff after the transition, a timed-out one exactly then.
  ghost predicate Waits(cfg: Config, e: Event) {
    e.state == Ready ==>
      && e.availableAfter >= e.timestamp + cfg.backoff
      && (e.reason == TimeoutRequeued ==> e.availableAfter == e.timestamp + cfg.backoff)
  }

  ghost predicate AllWait(cfg: Config, log: seq<Event>) {
    forall i :: 0 <= i < |log| ==> Waits(cfg, log[i])
  }

  lemma AllWaitAppend(cfg: Config, log: seq<Event>, e: Event)
    requires AllWait(cfg, log) && Waits(cfg, e)
    ensures AllWait(cfg, log + [e])
  {
  }

  // ---------------------------------------------------------------------------------------------
  // Every logged requeue waits
  // ---------------------------------------------------------------------------------------------

  lemma {:induction false} AppendWaits(cfg: Config, g: Group, e: Event, fails: set<nat>)
    requires AllWait(cfg, g.log) && Waits(cfg, e)
    ensures AllWait(cfg, Append(cfg, g, e, fails).log)
  {
    hide Waits, Tick, RuntimeAfter, LeaseOf, Push;
    AllWaitAppend(cfg, g.log, e);
    hide AllWait;
  }

  lemma {:induction false} VisitWaits(cfg: Config, now: nat, g: Group, id: Id, fails: set<nat>)
    requires AllWait(cfg, g.log)
    ensures AllWait(cfg, Visit(cfg, now, g, id, fails).log)
  {
    hide AllWait, Append, Push, Bump, Tick;
    if id in g.inflight && id in g.runtime {
      var e := TimeoutEvent(cfg, now, g.next, id, g.runtime[id].retry);
      AppendWaits(cfg, g.(next := g.next + 1), e, fails);
    }
  }

  lemma {:induction false} VisitAllWaits(cfg: Config, now: nat, g: Group, bucket: seq<Id>, fails: set<nat>)
    requires AllWait(cfg, g.log)
    ensures AllWait(cfg, VisitAll(cfg, now, g, bucket, fails).log)
    decreases |bucket|
  {
    hide AllWait, Visit;
    if bucket != [] {
      VisitWaits(cfg, now, g, bucket[0], fails);
      VisitAllWaits(cfg, now, Visit(cfg, now, g, bucket[0], fails), bucket[1..], fails);
    }
  }

  lemma {:induction false} AdvanceWaits(cfg: Config, now: nat, g: Group, fails: set<nat>)
    requires AllWait(cfg, g.log)
    ensures AllWait(cfg, Advance(cfg, now, g, fails).log)
    decreases TicksLeft(cfg, now, g)
  {
    VisitSlotTakesOneTick(cfg, now, g, fails);
    hide AllWait, VisitAll;
    if g.base <= now / Tick(cfg) {
      VisitAllWaits(cfg, now, TakeSlot(g), g.wheel[g.base % SLOTS], fails);
      AdvanceWaits(cfg, now, VisitSlot(cfg, now, g, fails), fails);
    }
  }

  lemma {:induction false} ReapWaits(cfg: Config, g: Group, scanTime: nat, readyTime: nat, fails: set<nat>)
    requires AllWait(cfg, g.log)
    ensures AllWait(cfg, Reap(cfg, g, scanTime, readyTime, fails).log)
  {
    hide AllWait, Advance, Eligible, Ascending;
    AdvanceWaits(cfg, scanTime, g, fails);
  }

  lemma {:induction false} ConsumeWaits(
    cfg: Config, owner: Text, segment: seq<Message>, g: Group, clock: ConsumeClock, fails: set<nat>, readable: bool)
    requires AllWait(cfg, g.log)
    ensures AllWait(cfg, Consume(cfg, owner, segment, g, clock, fails, readable).0.log)
  {
    hide AllWait, Reap, Append, Bump;
    ReapWaits(cfg, g, clock.scan, clock.ready, fails);
    var g1 := Reap(cfg, g, clock.scan, clock.ready, fails);
    if |g1.inflight.Keys| < cfg.maxInflight && g1.ready != [] && readable && g1.ready[0] < |segment| {
      DeliverWaits(cfg, owner, g1.(ready := g1.ready[1..]), g1.ready[0], segment[g1.ready[0]], clock, fails);
    }
  }

  lemma {:induction false} DeliverWaits(
    cfg: Config, owner: Text, g: Group, offset: nat, m: Message, clock: ConsumeClock, fails: set<nat>)
    requires AllWait(cfg, g.log)
    ensures AllWait(cfg, Deliver(cfg, owner, g, offset, m, clock, fails).0.log)
  {
    hide AllWait, Append, Bump;
    var g1 := if m.id in g.runtime then g
              else g.(runtime := g.runtime[m.id := CreatedRuntime(offset, m.enqueued, clock.create)]);
    var e := DeliveryEvent(cfg, owner, g1.next, m.id, g1.runtime[m.id].retry, clock.lease);
    AppendWaits(cfg, g1.(next := g1.next + 1), e, fails);
  }

  lemma {:induction false} EndWaits(
    cfg: Config, g: Group, id: Id, requeue: bool, clock: NackClock, now: nat, fails: set<nat>)
    requires AllWait(cfg, g.log)
    ensures AllWait(cfg, Ack(cfg, g, id, now, fails).0.log)
    ensures clock.transition <= clock.visible ==> AllWait(cfg, Nack(cfg, g, id, requeue, clock, fails).0.log)
  {
    hide AllWait, Append, Bump, Eligible, Ascending;
    if id in g.inflight && id in g.runtime {
      var g1 := g.(next := g.next + 1);
      AppendWaits(cfg, g1, AckEvent(g.next, id, g.runtime[id].retry, now), fails);
      var e := NackEvent(cfg, g.next, id, g.runtime[id].retry, requeue, clock);
      if clock.transition <= clock.visible {
        AppendWaits(cfg, g1, e, fails);
      }
    }
  }

  // The clock does not go back within a rejection.
  predicate SteadyNack(op: Op) {
    op.NackOne? ==> op.nackClock.transition <= op.nackClock.visible
  }

  lemma {:induction false} StepWaits(cfg: Config, owner: Text, w: World, op: Op)
    requires Enabled(w, op) && AllWait(cfg, Log(w)) && SteadyNack(op)
    ensures AllWait(cfg, Log(Step(cfg, owner, w, op).0))
  {
    hide AllWait, Step, Consume, Ack, Nack, Reap;
    StepCases(cfg, owner, w, op);
    match op {
      case ConsumeNext(clock, readable, fails, persists) =>
        ConsumeWaits(cfg, owner, w.segment, w.group, clock, fails, readable);
      case AckOne(id, now, fails, persists) =>
        EndWaits(cfg, w.group, id, true, NackClock(0, 0, 0), now, fails);
      case NackOne(id, requeue, clock, fails, persists) =>
        EndWaits(cfg, w.group, id, requeue, clock, 0, fails);
      case GetStats(scanTime, readyTime, fails) =>
        ReapWaits(cfg, w.group, scanTime, readyTime, fails);
      case _ => OtherStepKeepsLog(cfg, owner, w, op);
    }
  }

  lemma {:induction false} RunWaits(cfg: Config, owner: Text, w: World, ops: seq<Op>)
    requires EnabledRun(cfg, owner, w, ops) && AllWait(cfg, Log(w)) && forall k :: 0 <= k < |ops| ==> SteadyNack(ops[k])
    ensures AllWait(cfg, Log(Run(cfg, owner, w, ops)))
    decreases |ops|
  {
    hide AllWait, Step, Enabled, SteadyNack;
    if ops != [] {
      StepWaits(cfg, owner, w, ops[0]);
      RunWaits(cfg, owner, Step(cfg, owner, w, ops[0]).0, ops[1..]);
    }
  }

  // ---------------------------------------------------------------------------------------------
  // Delivered when the backoff is over
  // ---------------------------------------------------------------------------------------------

  // The entry of a message that was sent back is what the event says, in whatever session that was.
  lemma {:induction false} SentBackEntry(cfg: Config, s: Session, g: Group, id: Id)
    requires Inv(cfg, s, g) && id in LastEvents(g.log) && LastEvents(g.log)[id].state == Ready
    ensures id in g.runtime && g.runtime[id].state == Ready
    ensures g.runtime[id].availableAfter == LastEvents(g.log)[id].availableAfter
    ensures g.runtime[id].retry == LastEvents(g.log)[id].retry
  {
    hide LastEvents, Touched, History, LeasesInSync;
    assert id in s.defaults;
    LiveEntry(cfg, s, g, id);
  }

  // After the reap of a call, a message whose last event sent it back is on offer if and only if the clock has
  // reached the time that event names. Over a run from the empty queue in which the clock does not go back within a
  // rejection, that time is a backoff after the event or later; so if the call delivers the message, its backoff
  // is over.
  lemma {:induction false} RetryWaits(
    cfg: Config, owner: Text, ops: seq<Op>, clock: ConsumeClock, fails: set<nat>, readable: bool, id: Id)
    requires SaneRetryLimit(cfg) && EnabledRun(cfg, owner, START, ops) && Run(cfg, owner, START, ops).Up?
    requires forall k :: 0 <= k < |ops| ==> SteadyNack(ops[k])
    requires
      var before := Reap(cfg, Run(cfg, owner, START, ops).group, clock.scan, clock.ready, fails);
      id in LastEvents(before.log) && LastEvents(before.log)[id].state == Ready
    ensures
      var w := Run(cfg, owner, START, ops);
      var before := Reap(cfg, w.group, clock.scan, clock.ready, fails);
      var outcome := Consume(cfg, owner, w.segment, w.group, clock, fails, readable).1;
      var e := LastEvents(before.log)[id];
      && id in before.runtime
      && (before.runtime[id].offset in before.ready <==> clock.ready >= e.availableAfter)
      && e.availableAfter >= e.timestamp + cfg.backoff
      && (e.reason == TimeoutRequeued ==> e.availableAfter == e.timestamp + cfg.backoff)
      && (outcome.Delivery? && outcome.id == id ==> clock.ready >= e.timestamp + cfg.backoff)
  {
    hide WorldInv, Run, EnabledRun, Reap, Consume, AllWait, LastEvents, SteadyNack, OffersAt, DeliveredAs, FilesGrow;
    var w := Run(cfg, owner, START, ops);
    StartInv(cfg);
    RunKeeps(cfg, owner, START, ops);
    NothingWaits(cfg);
    RunWaits(cfg, owner, START, ops);
    ReapWaits(cfg, w.group, clock.scan, clock.ready, fails);
    var before := Reap(cfg, w.group, clock.scan, clock.ready, fails);
    InvOfWorld(cfg, w);
    ReapKeeps(cfg, w.session, w.group, clock.scan, clock.ready, fails);
    SentBackEntry(cfg, w.session, before, id);
    WaitsInLog(cfg, before.log, LastEvents(before.log)[id]);
    ReapIsBuilt(cfg, w.group, clock.scan, clock.ready, fails);
    EntryOffered(cfg, w, before, clock.ready, id);
    ConsumeDelivers(cfg, owner, w, clock, fails, readable);
  }

  lemma NothingWaits(cfg: Config)
    ensures AllWait(cfg, Log(START))
  {
  }

  lemma WaitsInLog(cfg: Config, log: seq<Event>, e: Event)
    requires AllWait(cfg, log) && e in log
    ensures Waits(cfg, e)
  {
  }

  lemma {:induction false} ReapIsBuilt(cfg: Config, g: Group, scanTime: nat, readyTime: nat, fails: set<nat>)
    ensures
      var g' := Reap(cfg, g, scanTime, readyTime, fails);
      g' == BuildReady(g', readyTime)
  {
    hide Advance, Eligible, Ascending;
  }

  lemma {:induction false} EntryOffered(cfg: Config, w: World, g: Group, now: nat, id: Id)
    requires WorldInv(cfg, w) && w.Up? && Inv(cfg, w.session, g) && id in g.runtime && g == BuildReady(g, now)
    ensures g.runtime[id].offset in g.ready <==> Visible(g.runtime[id], now)
  {
    hide WorldInv, Inv, Eligible, Ascending;
    SessionOffsets(cfg, w);
    LoadedHasDefault(cfg, w.session, g, id);
    RuntimeWithinBudget(cfg, w.session, g, id);
    OffsetOffered(cfg, w.session, w.segment, g, now, g.runtime[id].offset);
  }
}
