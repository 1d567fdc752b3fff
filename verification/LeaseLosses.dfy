// The three ways to lose a lease: it is loaded a lap or more ahead of the wheel, its expiry cannot be logged, or
// it is issued a lap or more ahead. And exactly which visibility timeouts rule them out for timely runs.
module LeaseLosses {
  import opened Transitions
  import opened Legality
  import opened Wheel
  import opened Operations
  import opened Runs
  import opened CutShort
  import opened Delivery
  import opened WheelRuns
  import opened LostLeases
  import opened Liveness
  import opened FirstDelivery
  import opened Settlement

  // ---------------------------------------------------------------------------------------------
  // Leases lost when a group is opened
  // ---------------------------------------------------------------------------------------------

  // Opening a group loses exactly the leases whose deadline tick lies a lap or more ahead of the tick at which
  // it is opened.
  lemma {:induction false} LostOnOpening(cfg: Config, w: World, clock: LoadClock, id: Id)
    requires WorldInv(cfg, w) && w.Down?
    ensures
      id in LostIds(Load(cfg, w.segment, w.snapshot, w.log, clock)) <==>
        && id in InFlightIds(w.log)
        && LastEvents(w.log)[id].deadline / Tick(cfg) >= clock.base / Tick(cfg) + SLOTS
  {
    hide WorldInv, Load, Defaults, LastEvents, Arrival, Tick, InFlightIds, InSlots;
    var g := Load(cfg, w.segment, w.snapshot, w.log, clock);
    LoadedKeys(cfg, w, clock);
    LoadInSlots(cfg, w.segment, w.snapshot, w.log, clock);
    LastOfInFlight(w.log, id);
    if id in g.inflight {
      var e := LastEvents(w.log)[id];
      LeaseTick(Tick(cfg), e, Defaults(w.segment)[id].offset);
      LostByTick(g, id);
    }
  }

  lemma {:induction false} LastOfInFlight(log: seq<Event>, id: Id)
    ensures id in InFlightIds(log) ==> id in LastEvents(log)
  {
    hide LastEvents;
  }

  // With every lease in the slot of its tick, the lost ones are those a lap or more ahead.
  lemma {:induction false} LostByTick(g: Group, id: Id)
    requires InSlots(g) && id in g.inflight
    ensures Lost(g, id) <==> g.inflight[id].bucketTick >= g.base + SLOTS
  {
    hide Arrival, InSlots;
    var t := g.inflight[id].bucketTick;
    InItsSlot(g, id);
    if t < g.base + SLOTS {
      if t > Arrival(t % SLOTS, g.base) {
        SameResidue(t, Arrival(t % SLOTS, g.base));
      }
      assert AwaitedIn(g, id, t % SLOTS);
    }
  }

  // ---------------------------------------------------------------------------------------------
  // Leases lost because their expiry is not logged
  // ---------------------------------------------------------------------------------------------

  // The wheel does not put the lease back: it is due, or its tick is beyond the reap.
  ghost predicate NotPutBack(cfg: Config, now: nat, g: Group, id: Id) {
    id in g.inflight ==> g.inflight[id].deadline <= now || g.inflight[id].bucketTick > now / Tick(cfg)
  }

  lemma {:induction false} VisitPutsBackNone(cfg: Config, now: nat, g: Group, other: Id, fails: set<nat>, id: Id)
    requires NotPutBack(cfg, now, g, id) && g.base <= now / Tick(cfg)
    ensures var g' := Visit(cfg, now, g, other, fails);
      g'.base == g.base && NotPutBack(cfg, now, g', id) && NoNewEntry(g.wheel, g'.wheel, id)
  {
    hide Push, TimeoutEvent, NoNewEntry, Tick, Expire;
    SameEntries(g.wheel, id);
    if other in g.inflight && g.inflight[other].bucketTick <= g.base {
      if g.inflight[other].deadline > now {
        PushNoNewEntry(g.wheel, g.inflight[other].bucketTick, other, id);
      } else if other in g.runtime {
        ExpireFields(cfg, now, g, other, fails);
      }
    }
  }

  lemma {:induction false} VisitAllPutsBackNone(
    cfg: Config, now: nat, g: Group, bucket: seq<Id>, fails: set<nat>, id: Id)
    requires NotPutBack(cfg, now, g, id) && g.base <= now / Tick(cfg)
    ensures var g' := VisitAll(cfg, now, g, bucket, fails);
      NotPutBack(cfg, now, g', id) && NoNewEntry(g.wheel, g'.wheel, id)
    decreases |bucket|
  {
    hide Visit, NoNewEntry, NotPutBack, Tick;
    SameEntries(g.wheel, id);
    if bucket != [] {
      var g1 := Visit(cfg, now, g, bucket[0], fails);
      VisitPutsBackNone(cfg, now, g, bucket[0], fails, id);
      VisitAllPutsBackNone(cfg, now, g1, bucket[1..], fails, id);
      NoNewEntryTransitive(g.wheel, g1.wheel, VisitAll(cfg, now, g, bucket, fails).wheel, id);
    }
  }

  // Every entry of the message is reached before that tick.
  ghost predicate EntriesBefore(g: Group, id: Id, limit: nat) {
    forall slot :: 0 <= slot < SLOTS && id in g.wheel[slot] ==> Arrival(slot, g.base) < limit
  }

  lemma {:induction false} VisitSlotPutsBackNone(
    cfg: Config, now: nat, g: Group, fails: set<nat>, id: Id, limit: nat)
    requires NotPutBack(cfg, now, g, id) && g.base <= now / Tick(cfg) && EntriesBefore(g, id, limit)
    ensures var g' := VisitSlot(cfg, now, g, fails);
      NotPutBack(cfg, now, g', id) && EntriesBefore(g', id, limit)
  {
    hide VisitAll, Tick;
    VisitAllPutsBackNone(cfg, now, TakeSlot(g), g.wheel[g.base % SLOTS], fails, id);
    var g1 := VisitAll(cfg, now, TakeSlot(g), g.wheel[g.base % SLOTS], fails);
    var g' := VisitSlot(cfg, now, g, fails);
    hide Arrival, TakeSlot, VisitSlot;
    assert g' == g1.(base := g.base + 1);
    forall slot | 0 <= slot < SLOTS && id in g'.wheel[slot]
      ensures Arrival(slot, g'.base) < limit
    {
      TakenSlot(g, slot, id);
      ArrivalStays(slot, g.base);
    }
  }

  lemma {:induction false} AdvancePutsBackNone(
    cfg: Config, now: nat, g: Group, fails: set<nat>, id: Id, limit: nat)
    requires NotPutBack(cfg, now, g, id) && EntriesBefore(g, id, limit)
    ensures EntriesBefore(Advance(cfg, now, g, fails), id, limit)
    decreases TicksLeft(cfg, now, g)
  {
    VisitSlotTakesOneTick(cfg, now, g, fails);
    hide VisitSlot, EntriesBefore, NotPutBack;
    if g.base <= now / Tick(cfg) {
      VisitSlotPutsBackNone(cfg, now, g, fails, id, limit);
      AdvancePutsBackNone(cfg, now, VisitSlot(cfg, now, g, fails), fails, id, limit);
    }
  }

  // After a reap one lap on, however its appends fare, a lease that survives is lost: its entry was taken and its
  // expiry not logged. All this for leases the wheel held when the reap began.
  lemma {:induction false} SurvivorIsLost(cfg: Config, s: Session, now: nat, g: Group, fails: set<nat>, id: Id)
    requires Inv(cfg, s, g) && SaneRetryLimit(cfg) && Registered(g) && now / Tick(cfg) >= g.base + SLOTS
    ensures id in Advance(cfg, now, g, fails).inflight ==> Lost(Advance(cfg, now, g, fails), id)
  {
    hide Inv, Advance, SaneRetryLimit, Arrival, TimedOut, Tick;
    var g' := Advance(cfg, now, g, fails);
    if id in g'.inflight {
      AdvanceReaps(cfg, s, now, g, fails);
      assert LeaseReaped(cfg, now, g, g', id);
      LeasesFit(cfg, s, g);
      DueOneLapOn(cfg, g, id, now);
      AdvancePutsBackNone(cfg, now, g, fails, id, g.base + SLOTS);
      AdvanceBase(cfg, now, g, fails);
      NoEntryIsLost(g', id, g.base + SLOTS);
    }
  }

  lemma {:induction false} DueOneLapOn(cfg: Config, g: Group, id: Id, now: nat)
    requires TicksFit(Tick(cfg), g) && Registered(g) && id in g.inflight && now / Tick(cfg) >= g.base + SLOTS
    ensures NotPutBack(cfg, now, g, id) && EntriesBefore(g, id, g.base + SLOTS)
  {
    hide Arrival, Tick;
    if g.inflight[id].deadline > now {
      DueAfterItsTick(Tick(cfg), g.inflight[id].deadline, g.base + SLOTS, now);
    }
  }

  lemma {:induction false} NoEntryIsLost(g: Group, id: Id, limit: nat)
    requires id in g.inflight && EntriesBefore(g, id, limit) && limit <= g.base
    ensures Lost(g, id)
  {
    forall slot | 0 <= slot < SLOTS
      ensures !AwaitedIn(g, id, slot)
    {
    }
  }

  // If the reap can log none of its expiries, every lease the group held is lost by it.
  lemma {:induction false} UnloggedExpiriesLoseAll(cfg: Config, s: Session, now: nat, g: Group)
    returns (fails: set<nat>)
    requires Inv(cfg, s, g) && SaneRetryLimit(cfg) && Registered(g) && now / Tick(cfg) >= g.base + SLOTS
    ensures var g' := Advance(cfg, now, g, fails);
      g'.log == g.log && g'.inflight.Keys == g.inflight.Keys && LostIds(g') == g.inflight.Keys
  {
    hide Inv, Advance, SaneRetryLimit, Registered, Lost, TimedOut, Tick;
    var stopped := AdvanceStops(cfg, now, g);
    fails := Between(g.next, stopped.next);
    var g' := Advance(cfg, now, g, fails);
    AdvanceKeeps(cfg, s, now, g, fails);
    SameLogSameLeases(cfg, s, g, g');
    forall id
      ensures id in LostIds(g') <==> id in g.inflight.Keys
    {
      SurvivorIsLost(cfg, s, now, g, fails, id);
    }
  }

  lemma {:induction false} SameLogSameLeases(cfg: Config, s: Session, g: Group, g': Group)
    requires Inv(cfg, s, g) && Inv(cfg, s, g') && g'.log == g.log
    ensures g'.inflight.Keys == g.inflight.Keys
  {
    hide LastEvents, History, LiveRuntime, InFlightIds, RuntimeInSync;
  }

  // ---------------------------------------------------------------------------------------------
  // Reachable instances
  // ---------------------------------------------------------------------------------------------

  // A queue whose first delivery was made at time t: a reap one lap after the deadline that cannot log the
  // expiry loses the lease, and the group is blocked.
  lemma {:induction false} UnloggedExpiryBlocks(cfg: Config, owner: Text, m: Message, t: nat)
    returns (w: World, op: Op, w': World)
    requires SaneRetryLimit(cfg) && SaneVisibility(cfg) && cfg.maxInflight >= 1
    ensures Reachable(cfg, owner, w) && op.GetStats? && Enabled(w, op) && w' == Step(cfg, owner, w, op).0
    ensures Reachable(cfg, owner, w') && w'.Up? && Unblocked(cfg, w.group) && !Unblocked(cfg, w'.group)
    ensures m.id in LostIds(w'.group)
  {
    hide DeliveredAs, SaneRetryLimit, Tick, Lost, Reachable, Registered, WorldInv, Unblocked, Advance, Eligible;
    hide Inv, TimelyReachable;
    DeadlineTick(Tick(cfg), t, cfg.visibility);
    var before;
    w, before := FirstDelivered(cfg, owner, m, t, ConsumeClock(t, t, t, t));
    ReachableInv(cfg, owner, w);
    InvOfWorld(cfg, w);
    DeliveredLease(cfg, owner, before, w.group, m.id, t);
    FirstRegistered(cfg, owner, before, w.group, m.id, t);
    RegisteredIsUnblocked(cfg, w.group);
    var now := LapLater(cfg, w.group, t);
    LapLaterIsLater(cfg, w.group, t);
    var fails := UnloggedExpiriesLoseAll(cfg, w.session, now, w.group);
    op := GetStats(now, now, fails);
    w' := Step(cfg, owner, w, op).0;
    StepReaches(cfg, owner, w, op);
    var g1 := Advance(cfg, now, w.group, fails);
    assert m.id in LostIds(g1);
    SameWheelLost(g1, BuildReady(g1, now), m.id);
    AdvanceKeeps(cfg, w.session, now, w.group, fails);
    SameLogSameRuntime(cfg, w.session, w.group, g1);
    LostInFlightBlocks(cfg, w'.group, m.id);
  }

  lemma {:induction false} SameLogSameRuntime(cfg: Config, s: Session, g: Group, g': Group)
    requires Inv(cfg, s, g) && Inv(cfg, s, g') && g'.log == g.log
    ensures g'.runtime == g.runtime
  {
    hide LastEvents, History, LiveRuntime, InFlightIds, LeasesInSync;
  }

  // Produce, open, consume, die and open again.
  function ReopeningRun(m: Message, t: nat, clock: ConsumeClock, u: nat): seq<Op> {
    [Produce(m), OpenOp(t), ConsumeAt(clock), Crash, OpenOp(u)]
  }

  // A queue whose first delivery was made under the given clock readings, and which was closed and opened
  // again at time u.
  lemma {:induction false} ReopenedAt(
    cfg: Config, owner: Text, m: Message, t: nat, clock: ConsumeClock, u: nat) returns (w: World)
    requires SaneRetryLimit(cfg) && cfg.maxInflight >= 1 && t / Tick(cfg) <= clock.scan / Tick(cfg)
    ensures RunsTo(cfg, owner, START, ReopeningRun(m, t, clock, u), w)
    ensures w.Up? && w.group.base == u / Tick(cfg) && InSlots(w.group)
    ensures m.id in w.group.inflight
    ensures w.group.inflight[m.id].bucketTick == (clock.lease + cfg.visibility) / Tick(cfg)
    ensures
      && (clock.lease + cfg.visibility) / Tick(cfg) < clock.scan / Tick(cfg) + 1 + SLOTS
      && clock.lease / Tick(cfg) <= u / Tick(cfg) ==>
      TimelyReachable(cfg, owner, w)
  {
    hide DeliveredAs, SaneRetryLimit, Tick, Reachable, WorldInv, TimelyReachable, Load, Unlisted, StepsTo, RunsTo;
    hide InSlots;
    var up, before := FirstDelivered(cfg, owner, m, t, clock);
    var down := Step(cfg, owner, up, Crash).0;
    DownFacts(cfg, owner, up, down);
    FirstHistory(cfg, owner, before, up.group, m.id, clock.lease);
    var done;
    w, done := StepOpen(cfg, owner, down, u);
    LoadedKeys(cfg, down, LoadClock(u, u, u));
    LoadInSlots(cfg, down.segment, down.snapshot, down.log, LoadClock(u, u, u));
    OnlyLease(cfg, Session(Defaults(down.segment), |down.log|, u), down, w.group, m.id, clock.lease);
    var ops := [Produce(m), OpenOp(t), ConsumeAt(clock)];
    RunsOneMore(cfg, owner, START, ops, up, Crash, down, Done);
    RunsOneMore(cfg, owner, START, ops + [Crash], down, OpenOp(u), w, done);
    assert ops + [Crash] + [OpenOp(u)] == ReopeningRun(m, t, clock, u);
    if  && (clock.lease + cfg.visibility) / Tick(cfg) < clock.scan / Tick(cfg) + 1 + SLOTS
        && clock.lease / Tick(cfg) <= u / Tick(cfg)
    {
      TimelyOneMore(cfg, owner, up, Crash, down, Done);
      TimelyOneMore(cfg, owner, down, OpenOp(u), w, done);
    }
  }

  lemma {:induction false} DownFacts(cfg: Config, owner: Text, up: World, down: World)
    requires SaneRetryLimit(cfg) && Reachable(cfg, owner, up) && up.Up? && down == Step(cfg, owner, up, Crash).0
    ensures StepsTo(cfg, owner, up, Crash, down, Done) && down.Down? && down.log == up.group.log
    ensures WorldInv(cfg, down)
  {
    hide WorldInv, Reachable, FilesGrow;
    ReachableInv(cfg, owner, up);
    StepKeeps(cfg, owner, up, Crash);
  }

  lemma {:induction false} FirstHistory(
    cfg: Config, owner: Text, before: Group, after: Group, id: Id, now: nat)
    requires DeliveredAs(cfg, owner, before, after, id, now) && before.log == []
    ensures |after.log| == 1 && after.log[0].timestamp == now
    ensures InFlightIds(after.log) == {id} && LastEvents(after.log) == map[id := after.log[0]]
    ensures after.log[0].deadline == now + cfg.visibility
  {
    hide Push, Tick, RuntimeAfter, LeaseOf;
    var e := after.log[0];
    assert [] + [e] == [e];
    LastEventsAppend([], e);
    assert LastEvents([]) == map[];
  }

  lemma {:induction false} OnlyLease(cfg: Config, s: Session, down: World, g: Group, id: Id, now: nat)
    requires down.Down? && LeasesInSync(Tick(cfg), s, down.log, g.inflight)
    requires |down.log| == 1 && InFlightIds(down.log) == {id} && LastEvents(down.log) == map[id := down.log[0]]
    requires down.log[0].deadline == now + cfg.visibility
    ensures id in g.inflight && g.inflight[id].bucketTick == (now + cfg.visibility) / Tick(cfg)
  {
  }

  // There the lease is lost if and only if its deadline tick lies a lap or more ahead of the tick of the opening.
  // A clock that goes back far enough between the two sessions makes it so.
  lemma {:induction false} ReopenedLosesExactly(cfg: Config, owner: Text, m: Message, t: nat, u: nat)
    returns (w: World)
    requires SaneRetryLimit(cfg) && cfg.maxInflight >= 1
    ensures RunsTo(cfg, owner, START, ReopeningRun(m, t, ConsumeClock(t, t, t, t), u), w) && w.Up?
    ensures m.id in LostIds(w.group) <==> (t + cfg.visibility) / Tick(cfg) >= u / Tick(cfg) + SLOTS
  {
    hide SaneRetryLimit, Tick, RunsTo, InSlots, TimelyReachable;
    w := ReopenedAt(cfg, owner, m, t, ConsumeClock(t, t, t, t), u);
    LostByTick(w.group, m.id);
  }

  // ---------------------------------------------------------------------------------------------
  // The visibility timeouts that are safe
  // ---------------------------------------------------------------------------------------------

  lemma {:induction false} BeyondLap(tick: nat, visibility: nat)
    requires tick >= 1 && visibility > (SLOTS - 1) * tick
    ensures (tick - 1) / tick == 0 && (tick - 1 + visibility) / tick >= SLOTS
  {
    TickSpan(tick - 1 + visibility, tick);
    assert tick - 1 + visibility >= SLOTS * tick;
    if (tick - 1 + visibility) / tick < SLOTS {
      MulMonotone((tick - 1 + visibility) / tick + 1, SLOTS, tick);
    }
  }

  // With a longer visibility timeout than 511 ticks a lease is lost although nothing fails and every clock reading
  // is one and the same: deliver a message at the end of a tick, and restart.
  lemma {:induction false} LongVisibilityLoses(cfg: Config, owner: Text, m: Message) returns (w: World)
    requires SaneRetryLimit(cfg) && cfg.maxInflight >= 1 && !SaneVisibility(cfg)
    ensures
      var t := Tick(cfg) - 1;
      RunsTo(cfg, owner, START, ReopeningRun(m, t, ConsumeClock(t, t, t, t), t), w)
    ensures w.Up? && m.id in LostIds(w.group)
  {
    hide SaneRetryLimit, RunsTo, Tick, LostIds;
    var t := Tick(cfg) - 1;
    BeyondLap(Tick(cfg), cfg.visibility);
    w := ReopenedLosesExactly(cfg, owner, m, t, t);
  }

  // Timely runs from the empty queue keep every lease on the wheel if and only if the visibility timeout is at
  // most 511 ticks. A timeout of more than a lap leaves a consume timely only if its reap reads a later time than
  // its lease; LongVisibilityLoses has the run in which they are the same.
  lemma {:induction false} SafeExactly(cfg: Config, owner: Text)
    requires SaneRetryLimit(cfg) && cfg.maxInflight >= 1
    ensures SaneVisibility(cfg) <==> forall w :: TimelyReachable(cfg, owner, w) ==> WheelSafe(w)
    ensures SaneVisibility(cfg) <==> cfg.visibility <= 511 * (if cfg.schedulerTick == 0 then 1 else cfg.schedulerTick)
  {
    hide TimelyReachable, WheelSafe, SaneRetryLimit;
    if SaneVisibility(cfg) {
      forall w | TimelyReachable(cfg, owner, w)
        ensures WheelSafe(w)
      {
        TimelyIsSafe(cfg, owner, w);
      }
    } else {
      var w := UnsafeTimely(cfg, owner);
    }
  }

  lemma {:induction false} TimelyIsSafe(cfg: Config, owner: Text, w: World)
    requires SaneRetryLimit(cfg) && SaneVisibility(cfg) && TimelyReachable(cfg, owner, w)
    ensures WheelSafe(w) && WorldInv(cfg, w)
  {
    hide WorldInv, EnabledRun, TimelyRun, Run, SaneRetryLimit, SaneVisibility, FilesGrow;
    StartInv(cfg);
    var ops :|
      EnabledRun(cfg, owner, START, ops) && TimelyRun(cfg, owner, START, ops) && Run(cfg, owner, START, ops) == w;
    RunKeeps(cfg, owner, START, ops);
    WheelNeverDropsLeases(cfg, owner, START, ops);
  }

  lemma {:induction false} UnsafeTimely(cfg: Config, owner: Text) returns (w: World)
    requires SaneRetryLimit(cfg) && cfg.maxInflight >= 1 && !SaneVisibility(cfg)
    ensures TimelyReachable(cfg, owner, w) && !WheelSafe(w)
  {
    hide SaneRetryLimit, RunsTo, TimelyReachable, Tick, InSlots;
    var t := Tick(cfg) - 1;
    BeyondLap(Tick(cfg), cfg.visibility);
    DivMonotone(t, t + cfg.visibility, Tick(cfg));
    w := ReopenedAt(cfg, owner, Message(Id(0, 0), 0), t, ConsumeClock(t + cfg.visibility, t, t, t), t);
  }

  // So every state of such a run is settled by its own consumers.
  lemma {:induction false} TimelyRunsSettle(cfg: Config, owner: Text, w: World, start: nat)
    returns (ops: seq<Op>, w': World)
    requires SaneRetryLimit(cfg) && SaneVisibility(cfg) && cfg.maxInflight >= 1
    requires TimelyReachable(cfg, owner, w) && w.Up?
    ensures |ops| <= 1 + 2 * |w.group.runtime.Keys| && SmoothAll(ops, start)
    ensures OwnSettlement(cfg, owner, w, ops, w')
  {
    hide TimelyReachable, SaneRetryLimit, SaneVisibility, WorldInv, Registered, Unblocked, OwnSettlement, SmoothAll;
    TimelyIsSafe(cfg, owner, w);
    RegisteredIsUnblocked(cfg, w.group);
    ops, w' := SettleUnblocked(cfg, owner, w, start);
  }
}
