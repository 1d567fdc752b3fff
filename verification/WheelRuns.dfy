// The deadline wheel over whole runs: no live lease is ever dropped, and none outlives its deadline by
// more than a lap of the wheel.
module WheelRuns {
  import opened Wrappers
  import opened Transitions
  import opened Legality
  import opened Wheel
  import opened Operations
  import opened Reachability
  import opened Runs

  ghost predicate SaneVisibility(cfg: Config) {
    cfg.visibility <= (SLOTS - 1) * Tick(cfg)
  }

  // What the wheel needs of an operation: the appends of its reap succeed, a consumer's lease is issued before the
  // clock has run so far ahead of the reap that its deadline is a lap beyond the wheel, and a group is not
  // opened at a tick before one already logged.
  ghost predicate Timely(cfg: Config, w: World, op: Op) {
    match op
    case ConsumeNext(clock, _, fails, _) =>
      && (w.Up? ==> ReapSucceeds(cfg, clock.scan, w.group, fails))
      && (clock.lease + cfg.visibility) / Tick(cfg) < clock.scan / Tick(cfg) + 1 + SLOTS
    case GetStats(scanTime, _, fails) => w.Up? ==> ReapSucceeds(cfg, scanTime, w.group, fails)
    case OpenGroup(clock) =>
      forall i :: 0 <= i < |Log(w)| ==> Log(w)[i].timestamp / Tick(cfg) <= clock.base / Tick(cfg)
    case _ => true
  }

  ghost predicate WheelSafe(w: World) {
    w.Up? ==> Registered(w.group)
  }

  lemma {:induction false} DeadlineTick(tick: nat, now: nat, visibility: nat)
    requires tick >= 1 && visibility <= (SLOTS - 1) * tick
    ensures (now + visibility) / tick <= now / tick + SLOTS - 1
  {
    TickSpan(now, tick);
    TickSpan(now + visibility, tick);
    var t := now / tick + SLOTS;
    assert now + visibility < t * tick;
    if (now + visibility) / tick >= t {
      MulMonotone(t, (now + visibility) / tick, tick);
    }
  }

  // ---------------------------------------------------------------------------------------------
  // Each operation
  // ---------------------------------------------------------------------------------------------

  lemma FewerLeasesRegistered(g: Group, g': Group)
    requires Registered(g) && g'.wheel == g.wheel && g'.base == g.base
    requires g'.inflight.Keys <= g.inflight.Keys && forall id :: id in g'.inflight ==> g'.inflight[id] == g.inflight[id]
    ensures Registered(g')
  {
  }

  lemma {:induction false} EndLeaseRegistered(cfg: Config, g: Group, e: Event, fails: set<nat>)
    requires Registered(g) && e.state != InFlight && e.id in g.runtime
    ensures Registered(Append(cfg, g.(next := g.next + 1), e, fails))
  {
    var g1 := g.(next := g.next + 1);
    hide Registered, Apply, Tick, RuntimeAfter;
    if e.sequence in fails {
      FewerLeasesRegistered(g, g1);
    } else {
      ApplyFields(Tick(cfg), g1.(log := g1.log + [e]), e);
      FewerLeasesRegistered(g, Apply(Tick(cfg), g1.(log := g1.log + [e]), e));
    }
  }

  lemma {:induction false} NewLeaseRegistered(g: Group, g': Group, id: Id, lease: Lease)
    requires Registered(g) && g'.base == g.base && lease.bucketTick < g.base + SLOTS
    requires g'.inflight == g.inflight[id := lease] && g'.wheel == Push(g.wheel, lease.bucketTick, id)
    ensures Registered(g')
  {
    hide Push;
    forall other | other in g'.inflight
      ensures g'.inflight[other].bucketTick < g'.base + SLOTS
      ensures other in g'.wheel[g'.inflight[other].bucketTick % SLOTS]
    {
      PushKeeps(g.wheel, lease.bucketTick, id, other, g'.inflight[other].bucketTick % SLOTS);
    }
  }

  lemma {:induction false} BuildReadyRegistered(g: Group, now: nat)
    ensures Registered(BuildReady(g, now)) <==> Registered(g)
  {
    hide Eligible;
  }

  // A delivery that is logged registers its lease; one that fails to be logged leaves the wheel as it is.
  lemma {:induction false} DeliverRegistered(
    cfg: Config, owner: Text, g: Group, offset: nat, m: Message, clock: ConsumeClock, fails: set<nat>)
    requires Registered(g) && m.id in g.runtime && (clock.lease + cfg.visibility) / Tick(cfg) < g.base + SLOTS
    ensures Registered(Deliver(cfg, owner, g, offset, m, clock, fails).0)
  {
    hide Registered, Apply, Tick, RuntimeAfter, Push, Bump;
    var tick := Tick(cfg);
    var e := DeliveryEvent(cfg, owner, g.next, m.id, g.runtime[m.id].retry, clock.lease);
    var g1 := g.(next := g.next + 1);
    var g2 := g1.(log := g1.log + [e]);
    FewerLeasesRegistered(g, g1);
    ApplyFields(tick, g2, e);
    NewLeaseRegistered(g, Apply(tick, g2, e), m.id, LeaseOf(tick, e, g.runtime[m.id].offset));
  }

  lemma {:induction false} ConsumeRegistered(
    cfg: Config, owner: Text, s: Session, segment: seq<Message>, g: Group, clock: ConsumeClock, fails: set<nat>,
    readable: bool)
    requires Inv(cfg, s, g) && SaneRetryLimit(cfg) && Registered(g)
    requires OffsetsInSegment(segment, s.defaults) && ReapSucceeds(cfg, clock.scan, g, fails)
    requires (clock.lease + cfg.visibility) / Tick(cfg) < clock.scan / Tick(cfg) + 1 + SLOTS
    ensures Registered(Consume(cfg, owner, segment, g, clock, fails, readable).0)
  {
    hide Inv, Reap, Deliver, OffsetsInSegment, Registered, Tick, ReapSucceeds;
    var g1 := Reap(cfg, g, clock.scan, clock.ready, fails);
    ReapRegistered(cfg, s, g, clock.scan, clock.ready, fails);
    if |g1.inflight.Keys| < cfg.maxInflight && g1.ready != [] {
      var offset := g1.ready[0];
      var g2 := g1.(ready := g1.ready[1..]);
      FewerLeasesRegistered(g1, g2);
      if readable && offset < |segment| {
        ReapOffers(cfg, s, segment, g, clock.scan, clock.ready, fails, offset);
        DeliverRegistered(cfg, owner, g2, offset, segment[offset], clock, fails);
      }
    }
  }

  lemma {:induction false} ReapRegistered(
    cfg: Config, s: Session, g: Group, scanTime: nat, readyTime: nat, fails: set<nat>)
    requires Inv(cfg, s, g) && SaneRetryLimit(cfg) && Registered(g) && ReapSucceeds(cfg, scanTime, g, fails)
    ensures Registered(Reap(cfg, g, scanTime, readyTime, fails))
    ensures Reap(cfg, g, scanTime, readyTime, fails).base >= scanTime / Tick(cfg) + 1
  {
    hide Inv, Advance, Eligible, Registered, Tick, ReapSucceeds;
    AdvanceTakesNext(cfg, scanTime, g, fails);
    AdvanceRegisters(cfg, s, scanTime, g);
    AdvanceBase(cfg, scanTime, g, {});
    BuildReadyRegistered(Advance(cfg, scanTime, g, {}), readyTime);
  }

  // ---------------------------------------------------------------------------------------------
  // Opening a group
  // ---------------------------------------------------------------------------------------------

  // Every lease is in the slot of its tick, however far ahead or behind that tick is.
  ghost predicate InSlots(g: Group) {
    forall id :: id in g.inflight ==> id in g.wheel[g.inflight[id].bucketTick % SLOTS]
  }

  lemma {:induction false} ApplyInSlots(tick: nat, g: Group, e: Event)
    requires tick >= 1 && InSlots(g)
    ensures InSlots(Apply(tick, g, e))
  {
    if e.id in g.runtime {
      ApplyFields(tick, g, e);
      hide Apply, Push, RuntimeAfter, LeaseOf;
      var g' := Apply(tick, g, e);
      forall id | id in g'.inflight
        ensures id in g'.wheel[g'.inflight[id].bucketTick % SLOTS]
      {
        LeaseTick(tick, e, g.runtime[e.id].offset);
        PushKeeps(g.wheel, e.deadline / tick, e.id, id, g'.inflight[id].bucketTick % SLOTS);
      }
    }
  }

  lemma LeaseTick(tick: nat, e: Event, offset: nat)
    requires tick >= 1
    ensures LeaseOf(tick, e, offset).bucketTick == e.deadline / tick
  {
  }

  lemma {:induction false} ReplayInSlots(tick: nat, g: Group, events: seq<Event>)
    requires tick >= 1 && InSlots(g)
    ensures InSlots(Replay(tick, g, events))
    decreases |events|
  {
    hide Apply, InSlots;
    if events != [] {
      ApplyInSlots(tick, g, events[0]);
      ReplayInSlots(tick, Apply(tick, g, events[0]), events[1..]);
    }
  }

  lemma {:induction false} LoadInSlots(
    cfg: Config, segment: seq<Message>, snapshot: Option<Snapshot>, log: seq<Event>, clock: LoadClock)
    ensures InSlots(Load(cfg, segment, snapshot, log, clock))
  {
    hide Replay, Eligible, Defaults, Overlay, NextAfter, RewriteInFlight;
    var g0 := FreshGroup(cfg, segment, snapshot, clock.base);
    ReplayInSlots(Tick(cfg), g0, log);
  }

  lemma {:induction false} ProperLeaseAt(cfg: Config, log: seq<Event>, i: nat)
    requires ProperLeases(cfg, log) && i < |log| && log[i].state == InFlight
    ensures log[i].deadline == log[i].timestamp + cfg.visibility
  {
  }

  lemma {:induction false} LoggedLeaseTick(cfg: Config, log: seq<Event>, base: nat, id: Id)
    requires SaneVisibility(cfg) && ProperLeases(cfg, log) && id in InFlightIds(log)
    requires forall i :: 0 <= i < |log| ==> log[i].timestamp / Tick(cfg) <= base
    ensures id in LastEvents(log) && LastEvents(log)[id].deadline / Tick(cfg) < base + SLOTS
  {
    hide LastEvents, Tick, ProperLeases;
    var e := LastEvents(log)[id];
    var i :| 0 <= i < |log| && log[i] == e;
    ProperLeaseAt(cfg, log, i);
    DeadlineTick(Tick(cfg), e.timestamp, cfg.visibility);
  }

  lemma {:induction false} OpenRegistered(cfg: Config, owner: Text, w: World, clock: LoadClock)
    requires WorldInv(cfg, w) && w.Down? && SaneVisibility(cfg) && Timely(cfg, w, OpenGroup(clock))
    ensures WheelSafe(Step(cfg, owner, w, OpenGroup(clock)).0)
  {
    hide Load, Tick, SaneVisibility, Registered, History, Defaults;
    hide SnapshotFits, UniqueIds, LastEvents, InSlots, LeasesInSync;
    LoadIsReplay(cfg, w.segment, w.snapshot, w.log, clock);
    LoadInSlots(cfg, w.segment, w.snapshot, w.log, clock);
    LoadedRegistered(cfg, Session(Defaults(w.segment), |w.log|, clock.rewrite),
      Load(cfg, w.segment, w.snapshot, w.log, clock));
  }

  lemma {:induction false} LoadedRegistered(cfg: Config, s: Session, g: Group)
    requires LeasesInSync(Tick(cfg), s, g.log, g.inflight) && InSlots(g)
    requires History(cfg, g.log) && SaneVisibility(cfg)
    requires forall i :: 0 <= i < |g.log| ==> g.log[i].timestamp / Tick(cfg) <= g.base
    ensures Registered(g)
  {
    hide LastEvents, Tick, SaneVisibility, ProperLeases, InFlightIds;
    forall id | id in g.inflight
      ensures g.inflight[id].bucketTick < g.base + SLOTS
    {
      LoggedLeaseTick(cfg, g.log, g.base, id);
    }
  }

  // ---------------------------------------------------------------------------------------------
  // Runs
  // ---------------------------------------------------------------------------------------------

  lemma {:induction false} GroupOpRegistered(cfg: Config, owner: Text, w: World, op: Op)
    requires WorldInv(cfg, w) && SaneRetryLimit(cfg) && Enabled(w, op) && GroupOp(op)
    requires Timely(cfg, w, op) && w.Up? && Registered(w.group)
    ensures WheelSafe(Step(cfg, owner, w, op).0)
  {
    hide Inv, History, LastEvents, Defaults, SnapshotFits, UniqueIds;
    hide Registered, Consume, Reap, Tick, Append, ReapSucceeds;
    match op {
      case ConsumeNext(clock, readable, fails, persists) =>
        SessionOffsets(cfg, w);
        ConsumeRegistered(cfg, owner, w.session, w.segment, w.group, clock, fails, readable);
      case AckOne(id, now, fails, persists) =>
        if id in w.group.inflight {
          LeasedIsLoaded(cfg, w.session, w.group, id);
          EndLeaseRegistered(cfg, w.group, AckEvent(w.group.next, id, w.group.runtime[id].retry, now), fails);
        }
      case NackOne(id, requeue, clock, fails, persists) =>
        NackRegistered(cfg, w.session, w.group, id, requeue, clock, fails);
      case GetStats(scanTime, readyTime, fails) =>
        ReapRegistered(cfg, w.session, w.group, scanTime, readyTime, fails);
    }
  }

  lemma {:induction false} NackRegistered(
    cfg: Config, s: Session, g: Group, id: Id, requeue: bool, clock: NackClock, fails: set<nat>)
    requires Inv(cfg, s, g) && Registered(g)
    ensures Registered(Nack(cfg, g, id, requeue, clock, fails).0)
  {
    hide Inv, Registered, Append, Bump;
    if id in g.inflight {
      LeasedIsLoaded(cfg, s, g, id);
      var e := NackEvent(cfg, g.next, id, g.runtime[id].retry, requeue, clock);
      EndLeaseRegistered(cfg, g, e, fails);
      BuildReadyRegistered(Append(cfg, g.(next := g.next + 1), e, fails), clock.ready);
    }
  }

  lemma {:induction false} StepRegistered(cfg: Config, owner: Text, w: World, op: Op)
    requires WorldInv(cfg, w) && SaneRetryLimit(cfg) && SaneVisibility(cfg)
    requires Enabled(w, op) && Timely(cfg, w, op) && WheelSafe(w)
    ensures WheelSafe(Step(cfg, owner, w, op).0)
  {
    if GroupOp(op) {
      GroupOpRegistered(cfg, owner, w, op);
    } else if op.OpenGroup? {
      OpenRegistered(cfg, owner, w, op.loadClock);
    }
    hide WorldInv, Load, Registered;
  }

  ghost predicate TimelyRun(cfg: Config, owner: Text, w: World, ops: seq<Op>)
    requires EnabledRun(cfg, owner, w, ops)
    decreases |ops|
  {
    ops != [] ==> Timely(cfg, w, ops[0]) && TimelyRun(cfg, owner, Step(cfg, owner, w, ops[0]).0, ops[1..])
  }

  // In every state of a timely run every lease sits in the slot of its tick, less than a lap ahead of the
  // wheel: the check for entries of a later lap never drops a live lease.
  lemma {:induction false} WheelNeverDropsLeases(cfg: Config, owner: Text, w: World, ops: seq<Op>)
    requires WorldInv(cfg, w) && SaneRetryLimit(cfg) && SaneVisibility(cfg) && WheelSafe(w)
    requires EnabledRun(cfg, owner, w, ops) && TimelyRun(cfg, owner, w, ops)
    ensures WheelSafe(Run(cfg, owner, w, ops))
    decreases |ops|
  {
    hide WorldInv, WheelSafe, Timely, Step, Enabled;
    if ops != [] {
      StepKeeps(cfg, owner, w, ops[0]);
      StepRegistered(cfg, owner, w, ops[0]);
      WheelNeverDropsLeases(cfg, owner, Step(cfg, owner, w, ops[0]).0, ops[1..]);
    }
  }
}
