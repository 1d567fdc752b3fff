// When a lease ends: at the latest at the next visit to its slot after its tick, and, with a 1 ms tick and
// a steady clock, exactly when a scan of all leases would end it.
module Lateness {
  import opened Transitions
  import opened Legality
  import opened Wheel
  import opened Operations
  import opened Reachability
  import opened Runs
  import opened Guarantees
  import opened WheelRuns

  // ---------------------------------------------------------------------------------------------
  // Lateness
  // ---------------------------------------------------------------------------------------------

  lemma {:induction false} NextVisitIsLeast(t: nat, base: nat, v: nat)
    requires v % SLOTS == t % SLOTS && v > t && v >= base
    ensures NextVisit(t, base) <= v
  {
    SameSlotIsNow(NextVisit(t, base), v);
  }

  lemma {:induction false} SameCountSameLast(a: seq<Event>, b: seq<Event>, id: Id)
    requires a <= b
    ensures Count(a, id) <= Count(b, id)
    ensures Count(a, id) == Count(b, id) ==>
      && (id in LastEvents(a) <==> id in LastEvents(b))
      && (id in LastEvents(a) ==> LastEvents(a)[id] == LastEvents(b)[id])
  {
    if |a| < |b| {
      SameCountSameLast(a, b[..|b| - 1], id);
    } else {
      assert a == b;
    }
  }

  // While no event of a message is logged, its lease stays as it is.
  lemma {:induction false} LeaseUnchanged(cfg: Config, s: Session, g: Group, g': Group, id: Id)
    requires Inv(cfg, s, g) && Inv(cfg, s, g') && g.log <= g'.log && Count(g.log, id) == Count(g'.log, id)
    ensures id in g.inflight <==> id in g'.inflight
    ensures id in g.inflight ==> g'.inflight[id] == g.inflight[id]
  {
    hide LiveRuntime, RuntimeInSync, History, ProperDefaults, LastEvents, Count;
    SameCountSameLast(g.log, g'.log, id);
  }

  lemma {:induction false} AdvanceLate(cfg: Config, s: Session, g: Group, now: nat, id: Id)
    requires Inv(cfg, s, g) && SaneRetryLimit(cfg) && Registered(g) && id in g.inflight
    requires Count(Advance(cfg, now, g, {}).log, id) == Count(g.log, id)
    ensures NextVisit(g.inflight[id].bucketTick, Advance(cfg, now, g, {}).base)
      <= NextVisit(g.inflight[id].bucketTick, g.base)
  {
    hide Inv, Registered, Advance, NextVisit, Count, Tick, MessageEvolves;
    var g' := Advance(cfg, now, g, {});
    var t := g.inflight[id].bucketTick;
    AdvanceKeeps(cfg, s, now, g, {});
    AdvanceBase(cfg, now, g, {});
    LeaseUnchanged(cfg, s, g, g', id);
    SurvivorNotYetVisited(cfg, s, now, g, id);
    NextVisitIsLeast(t, g'.base, NextVisit(t, g.base));
  }

  // The part of an operation before its own transition: the reap, if it has one.
  ghost function AfterReap(cfg: Config, g: Group, op: Op): Group {
    match op
    case ConsumeNext(clock, _, fails, _) => Advance(cfg, clock.scan, g, fails)
    case GetStats(scanTime, _, fails) => Advance(cfg, scanTime, g, fails)
    case _ => g
  }

  lemma {:induction false} AppendsOnly(cfg: Config)
    ensures forall g: Group, e: Event, fails: set<nat> ::
              Append(cfg, g, e, fails).base == g.base && g.log <= Append(cfg, g, e, fails).log
  {
    hide Tick, RuntimeAfter, LeaseOf, Push;
  }

  lemma {:induction false} OpAfterReap(cfg: Config, owner: Text, w: World, op: Op)
    requires w.Up? && Enabled(w, op) && !op.Crash?
    ensures var w' := Step(cfg, owner, w, op).0;
      w'.Up? && w'.group.base == AfterReap(cfg, w.group, op).base && AfterReap(cfg, w.group, op).log <= w'.group.log
  {
    hide Advance, Eligible, Ascending, Consume, Ack, Nack;
    match op {
      case ConsumeNext(clock, readable, fails, persists) =>
        ConsumeAfterReap(cfg, owner, w.segment, w.group, clock, fails, readable);
      case AckOne(id, now, fails, persists) => EndLeaseOnly(cfg, w.group, id, true, NackClock(now, now, now), fails);
      case NackOne(id, requeue, clock, fails, persists) => EndLeaseOnly(cfg, w.group, id, requeue, clock, fails);
      case GetStats(scanTime, readyTime, fails) =>
      case Produce(message) =>
    }
  }

  lemma {:induction false} ConsumeAfterReap(
    cfg: Config, owner: Text, segment: seq<Message>, g: Group, clock: ConsumeClock, fails: set<nat>, readable: bool)
    ensures
      var g', g1 := Consume(cfg, owner, segment, g, clock, fails, readable).0, Advance(cfg, clock.scan, g, fails);
      g'.base == g1.base && g1.log <= g'.log
  {
    hide Advance, Eligible, Ascending, Append, DeliveryEvent, Bump;
    AppendsOnly(cfg);
  }

  lemma {:induction false} EndLeaseOnly(cfg: Config, g: Group, id: Id, requeue: bool, clock: NackClock, fails: set<nat>)
    ensures
      var g' := Ack(cfg, g, id, clock.transition, fails).0;
      g'.base == g.base && g.log <= g'.log
    ensures
      var g' := Nack(cfg, g, id, requeue, clock, fails).0;
      g'.base == g.base && g.log <= g'.log
  {
    hide Eligible, Ascending, Append, AckEvent, NackEvent;
    AppendsOnly(cfg);
  }

  lemma {:induction false} StepLate(cfg: Config, owner: Text, w: World, op: Op, id: Id)
    requires WorldInv(cfg, w) && SaneRetryLimit(cfg) && SaneVisibility(cfg) && Enabled(w, op) && Timely(cfg, w, op)
    requires w.Up? && Registered(w.group) && !op.Crash? && id in w.group.inflight
    requires Count(Log(Step(cfg, owner, w, op).0), id) == Count(Log(w), id)
    ensures var w' := Step(cfg, owner, w, op).0;
      && w'.Up? && id in w'.group.inflight && w'.group.inflight[id] == w.group.inflight[id]
      && NextVisit(w.group.inflight[id].bucketTick, w'.group.base)
         <= NextVisit(w.group.inflight[id].bucketTick, w.group.base)
  {
    var w' := Step(cfg, owner, w, op).0;
    OpAfterReap(cfg, owner, w, op);
    StepSession(cfg, owner, w, op);
    hide Step, WorldInv, Inv, Registered, NextVisit, Count, Advance, ReapSucceeds;
    LeaseUnchanged(cfg, w.session, w.group, w'.group, id);
    if op.ConsumeNext? || op.GetStats? {
      var now := if op.ConsumeNext? then op.consumeClock.scan else op.scanTime;
      AdvanceTakesNext(cfg, now, w.group, op.fails);
      AdvanceKeeps(cfg, w.session, now, w.group, {});
      SameCountSameLast(w.group.log, Advance(cfg, now, w.group, {}).log, id);
      SameCountSameLast(Advance(cfg, now, w.group, {}).log, w'.group.log, id);
      AdvanceLate(cfg, w.session, w.group, now, id);
    }
  }

  lemma {:induction false} StepSession(cfg: Config, owner: Text, w: World, op: Op)
    requires WorldInv(cfg, w) && SaneRetryLimit(cfg) && Enabled(w, op) && w.Up? && !op.Crash?
    ensures var w' := Step(cfg, owner, w, op).0;
      && WorldInv(cfg, w') && w'.Up? && w'.session == w.session && w.group.log <= w'.group.log
      && Inv(cfg, w.session, w.group) && Inv(cfg, w.session, w'.group)
  {
    StepKeeps(cfg, owner, w, op);
    if GroupOp(op) {
      GroupOpKeeps(cfg, owner, w, op);
    }
    hide Inv, History, LastEvents, Defaults, SnapshotFits, UniqueIds, Load, Consume, Ack, Nack, Reap, MessageEvolves;
  }

  // While a lease is held, that is, as long as no event of its message is logged, the wheel has not got
  // past the next visit to its slot. So by the reap that reaches that tick the message has been
  // acknowledged, nacked or timed out.
  lemma {:induction false} LeaseEndsByNextVisit(cfg: Config, owner: Text, w: World, ops: seq<Op>, id: Id)
    requires WorldInv(cfg, w) && SaneRetryLimit(cfg) && SaneVisibility(cfg) && w.Up? && Registered(w.group)
    requires EnabledRun(cfg, owner, w, ops) && TimelyRun(cfg, owner, w, ops) && NoRestart(ops)
    requires id in w.group.inflight && Count(Log(Run(cfg, owner, w, ops)), id) == Count(Log(w), id)
    ensures var w' := Run(cfg, owner, w, ops);
      && w'.Up? && id in w'.group.inflight && w'.group.inflight[id] == w.group.inflight[id]
      && w'.group.base <= NextVisit(w.group.inflight[id].bucketTick, w'.group.base)
      && NextVisit(w.group.inflight[id].bucketTick, w'.group.base)
         <= NextVisit(w.group.inflight[id].bucketTick, w.group.base)
    decreases |ops|
  {
    hide WorldInv, Step, Enabled, Count, Registered, Timely, NextVisit, SaneVisibility, FilesGrow;
    NextVisitIsAhead(w.group.inflight[id].bucketTick, w.group.base);
    if ops != [] {
      var w1 := Step(cfg, owner, w, ops[0]).0;
      StepKeeps(cfg, owner, w, ops[0]);
      StepRegistered(cfg, owner, w, ops[0]);
      RunKeeps(cfg, owner, w1, ops[1..]);
      CountsGrow(w, w1, id);
      CountsGrow(w1, Run(cfg, owner, w1, ops[1..]), id);
      assert !ops[0].Crash?;
      StepLate(cfg, owner, w, ops[0], id);
      LeaseEndsByNextVisit(cfg, owner, w1, ops[1..], id);
    }
  }

  lemma NextVisitIsAhead(t: nat, base: nat)
    ensures base <= NextVisit(t, base)
  {
  }

  lemma {:induction false} CountsGrow(w: World, w': World, id: Id)
    requires FilesGrow(w, w')
    ensures Count(Log(w), id) <= Count(Log(w'), id)
  {
    hide Count, LastEvents, Defaults;
    SameCountSameLast(Log(w), Log(w'), id);
  }

  // In numbers: a lease with deadline tick t that is held when the wheel stands at base is over once a
  // reap has reached tick max(t, base) + 512.
  lemma {:induction false} LeaseOverAfterOneLap(cfg: Config, owner: Text, w: World, ops: seq<Op>, id: Id)
    requires WorldInv(cfg, w) && SaneRetryLimit(cfg) && SaneVisibility(cfg) && w.Up? && Registered(w.group)
    requires EnabledRun(cfg, owner, w, ops) && TimelyRun(cfg, owner, w, ops) && NoRestart(ops)
    requires id in w.group.inflight
    requires Run(cfg, owner, w, ops).Up?
    requires
      var t := w.group.inflight[id].bucketTick;
      Run(cfg, owner, w, ops).group.base > (if t >= w.group.base then t else w.group.base) + SLOTS
    ensures Count(Log(Run(cfg, owner, w, ops)), id) > Count(Log(w), id)
  {
    hide WorldInv, Step, Enabled, Count, Registered, Timely, SaneVisibility;
    RunKeeps(cfg, owner, w, ops);
    hide Run, EnabledRun, TimelyRun, FilesGrow;
    CountsGrow(w, Run(cfg, owner, w, ops), id);
    if Count(Log(Run(cfg, owner, w, ops)), id) == Count(Log(w), id) {
      LeaseEndsByNextVisit(cfg, owner, w, ops, id);
    }
  }

  // ---------------------------------------------------------------------------------------------
  // The wheel as a scan
  // ---------------------------------------------------------------------------------------------

  // The operation reads one and the same time wherever it reads the clock.
  ghost predicate OneClock(op: Op, t: nat) {
    match op
    case ConsumeNext(clock, _, _, _) => clock.scan == t && clock.ready == t && clock.lease == t
    case AckOne(_, now, _, _) => now == t
    case NackOne(_, _, clock, _, _) => clock == NackClock(t, t, t)
    case GetStats(scanTime, readyTime, _) => scanTime == t && readyTime == t
    case Produce(_) => true
    case OpenGroup(_) => false
    case Crash => false
  }

  // No IN_FLIGHT message has a deadline the wheel has passed.
  ghost predicate AheadOfWheel(g: Group, t: nat) {
    && g.base <= t + 1
    && forall id ::
      id in g.runtime && g.runtime[id].state == InFlight ==> id in g.inflight && g.inflight[id].deadline >= g.base
  }

  lemma {:induction false} AdvanceAhead(cfg: Config, s: Session, g: Group, t: nat, now: nat)
    requires Inv(cfg, s, g) && SaneRetryLimit(cfg) && Registered(g) && Tick(cfg) == 1
    requires AheadOfWheel(g, t) && t <= now
    ensures AheadOfWheel(Advance(cfg, now, g, {}), now) && Advance(cfg, now, g, {}).base == now + 1
  {
    hide Inv, Registered, Advance, Tick, TimedOut;
    var g' := Advance(cfg, now, g, {});
    AdvanceKeeps(cfg, s, now, g, {});
    AdvanceBase(cfg, now, g, {});
    AdvanceReaps(cfg, s, now, g, {});
    forall id | id in g'.runtime && g'.runtime[id].state == InFlight
      ensures id in g'.inflight && g'.inflight[id].deadline >= g'.base
    {
      assert LeaseReaped(cfg, now, g, g', id);
      RuntimeWithinBudget(cfg, s, g', id);
      ReapIsScan(cfg, s, now, g, id);
    }
  }

  lemma {:induction false} EndLeaseAhead(cfg: Config, g: Group, e: Event, fails: set<nat>, t: nat, now: nat)
    requires AheadOfWheel(g, t) && t <= now && e.state != InFlight && e.id in g.runtime
    ensures AheadOfWheel(Append(cfg, g.(next := g.next + 1), e, fails), now)
  {
    var g1 := g.(next := g.next + 1);
    if e.sequence !in fails {
      ApplyFields(Tick(cfg), g1.(log := g1.log + [e]), e);
    }
    hide Apply, Tick;
  }

  lemma {:induction false} DeliverAhead(
    cfg: Config, owner: Text, g: Group, offset: nat, m: Message, clock: ConsumeClock, fails: set<nat>, now: nat)
    requires AheadOfWheel(g, now) && clock.lease == now && cfg.visibility >= 1 && m.id in g.runtime
    ensures AheadOfWheel(Deliver(cfg, owner, g, offset, m, clock, fails).0, now)
  {
    hide Apply, Bump, Push;
    var e := DeliveryEvent(cfg, owner, g.next, m.id, g.runtime[m.id].retry, clock.lease);
    var g1 := g.(next := g.next + 1);
    ApplyFields(Tick(cfg), g1.(log := g1.log + [e]), e);
    hide Tick;
  }

  lemma {:induction false} ReapAhead(cfg: Config, s: Session, g: Group, t: nat, now: nat, fails: set<nat>)
    requires Inv(cfg, s, g) && SaneRetryLimit(cfg) && Registered(g) && Tick(cfg) == 1
    requires AheadOfWheel(g, t) && t <= now && ReapSucceeds(cfg, now, g, fails)
    ensures AheadOfWheel(Reap(cfg, g, now, now, fails), now)
  {
    hide Inv, Advance, Registered, Tick, Eligible, AheadOfWheel, ReapSucceeds;
    AdvanceTakesNext(cfg, now, g, fails);
    AdvanceAhead(cfg, s, g, t, now);
    SameAhead(Advance(cfg, now, g, {}), Reap(cfg, g, now, now, fails), now);
  }

  lemma {:induction false} ConsumeAhead(
    cfg: Config, owner: Text, s: Session, segment: seq<Message>, g: Group, clock: ConsumeClock, fails: set<nat>,
    readable: bool, t: nat, now: nat)
    requires Inv(cfg, s, g) && SaneRetryLimit(cfg) && Registered(g) && Tick(cfg) == 1 && cfg.visibility >= 1
    requires OffsetsInSegment(segment, s.defaults) && ReapSucceeds(cfg, now, g, fails)
    requires AheadOfWheel(g, t) && t <= now && clock.scan == clock.ready == clock.lease == now
    ensures AheadOfWheel(Consume(cfg, owner, segment, g, clock, fails, readable).0, now)
  {
    hide Inv, Reap, Deliver, OffsetsInSegment, Registered, Tick, AheadOfWheel, ReapSucceeds;
    var g1 := Reap(cfg, g, now, now, fails);
    ReapAhead(cfg, s, g, t, now, fails);
    if |g1.inflight.Keys| < cfg.maxInflight && g1.ready != [] {
      var offset := g1.ready[0];
      var g2 := g1.(ready := g1.ready[1..]);
      SameAhead(g1, g2, now);
      if readable && offset < |segment| {
        ReapOffers(cfg, s, segment, g, now, now, fails, offset);
        DeliverAhead(cfg, owner, g2, offset, segment[offset], clock, fails, now);
      }
    }
  }

  lemma SameAhead(g: Group, g': Group, now: nat)
    requires AheadOfWheel(g, now) && g'.base == g.base && g'.runtime == g.runtime && g'.inflight == g.inflight
    ensures AheadOfWheel(g', now)
  {
  }

  lemma {:induction false} NackAhead(
    cfg: Config, s: Session, g: Group, id: Id, requeue: bool, clock: NackClock, fails: set<nat>, t: nat, now: nat)
    requires Inv(cfg, s, g) && Tick(cfg) == 1
    requires AheadOfWheel(g, t) && t <= now && clock == NackClock(now, now, now)
    ensures AheadOfWheel(Nack(cfg, g, id, requeue, clock, fails).0, now)
  {
    hide Inv, Tick, Append, AheadOfWheel, Bump, Eligible, Ascending;
    LaterAhead(g, t, now);
    if id in g.inflight {
      LeasedIsLoaded(cfg, s, g, id);
      var e := NackEvent(cfg, g.next, id, g.runtime[id].retry, requeue, clock);
      var g1 := Append(cfg, g.(next := g.next + 1), e, fails);
      EndLeaseAhead(cfg, g, e, fails, t, now);
      SameAhead(g1, BuildReady(g1, now), now);
    }
  }

  lemma {:induction false} StepAhead(cfg: Config, owner: Text, w: World, op: Op, t: nat, now: nat)
    requires WorldInv(cfg, w) && SaneRetryLimit(cfg) && Enabled(w, op) && Timely(cfg, w, op)
    requires w.Up? && Registered(w.group) && Tick(cfg) == 1 && cfg.visibility >= 1
    requires AheadOfWheel(w.group, t) && t <= now && OneClock(op, now)
    ensures Step(cfg, owner, w, op).0.Up? && AheadOfWheel(Step(cfg, owner, w, op).0.group, now)
  {
    hide Inv, History, LastEvents, Defaults, SnapshotFits, UniqueIds, Registered, Consume;
    hide Nack, Reap, Tick, Append, AheadOfWheel, Bump, Eligible, ReapSucceeds;
    match op {
      case ConsumeNext(clock, readable, fails, persists) =>
        SessionOffsets(cfg, w);
        ConsumeAhead(cfg, owner, w.session, w.segment, w.group, clock, fails, readable, t, now);
      case AckOne(id, ackTime, fails, persists) =>
        LaterAhead(w.group, t, now);
        if id in w.group.inflight {
          LeasedIsLoaded(cfg, w.session, w.group, id);
          EndLeaseAhead(cfg, w.group, AckEvent(w.group.next, id, w.group.runtime[id].retry, now), fails, t, now);
        }
      case NackOne(id, requeue, clock, fails, persists) =>
        NackAhead(cfg, w.session, w.group, id, requeue, clock, fails, t, now);
      case GetStats(scanTime, readyTime, fails) =>
        ReapAhead(cfg, w.session, w.group, t, now, fails);
      case Produce(message) =>
        LaterAhead(w.group, t, now);
    }
  }

  lemma LaterAhead(g: Group, t: nat, now: nat)
    requires AheadOfWheel(g, t) && t <= now
    ensures AheadOfWheel(g, now)
  {
  }

  // A run whose operations each read one time, and these times do not go back.
  ghost predicate Clocked(ops: seq<Op>, times: seq<nat>, start: nat)
    decreases |ops|
  {
    && |ops| == |times|
    && (ops != [] ==> start <= times[0] && OneClock(ops[0], times[0]) && Clocked(ops[1..], times[1..], times[0]))
  }

  function LastTime(times: seq<nat>, start: nat): nat {
    if times == [] then start else times[|times| - 1]
  }

  lemma {:induction false} RunAhead(cfg: Config, owner: Text, w: World, ops: seq<Op>, times: seq<nat>, start: nat)
    requires WorldInv(cfg, w) && SaneRetryLimit(cfg) && SaneVisibility(cfg) && Tick(cfg) == 1 && cfg.visibility >= 1
    requires w.Up? && Registered(w.group) && AheadOfWheel(w.group, start)
    requires EnabledRun(cfg, owner, w, ops) && TimelyRun(cfg, owner, w, ops) && Clocked(ops, times, start)
    ensures var w' := Run(cfg, owner, w, ops);
      WorldInv(cfg, w') && w'.Up? && Registered(w'.group) && AheadOfWheel(w'.group, LastTime(times, start))
    decreases |ops|
  {
    hide WorldInv, Step, Enabled, Registered, Timely, SaneVisibility, AheadOfWheel, OneClock, FilesGrow, Tick;
    if ops != [] {
      var w1 := Step(cfg, owner, w, ops[0]).0;
      StepKeeps(cfg, owner, w, ops[0]);
      StepRegistered(cfg, owner, w, ops[0]);
      StepAhead(cfg, owner, w, ops[0], start, times[0]);
      RunAhead(cfg, owner, w1, ops[1..], times[1..], times[0]);
    }
  }

  // From the opening of a group on, with a 1 ms tick, one clock reading per operation, a clock that does
  // not go back and successful appends, a reap ends exactly the leases of this session that are due.
  lemma {:induction false} WheelIsScan(
    cfg: Config, owner: Text, down: World, opening: LoadClock, ops: seq<Op>, times: seq<nat>, now: nat, id: Id)
    requires WorldInv(cfg, down) && SaneRetryLimit(cfg) && SaneVisibility(cfg)
    requires cfg.schedulerTick <= 1 && cfg.visibility >= 1
    requires down.Down? && Timely(cfg, down, OpenGroup(opening))
    requires
      var w := Step(cfg, owner, down, OpenGroup(opening)).0;
      && EnabledRun(cfg, owner, w, ops) && TimelyRun(cfg, owner, w, ops) && Clocked(ops, times, opening.base)
      && LastTime(times, opening.base) <= now
    ensures
      var w := Run(cfg, owner, Step(cfg, owner, down, OpenGroup(opening)).0, ops);
      && w.Up?
      && (id in w.group.runtime && w.group.runtime[id].state == InFlight ==>
        && id in w.group.inflight
        && (id in Advance(cfg, now, w.group, {}).inflight <==> w.group.inflight[id].deadline > now))
  {
    assert Tick(cfg) == 1;
    var w := Step(cfg, owner, down, OpenGroup(opening)).0;
    OpenedAhead(cfg, owner, down, opening);
    StepKeeps(cfg, owner, down, OpenGroup(opening));
    StepRegistered(cfg, owner, down, OpenGroup(opening));
    OpenIsUp(cfg, owner, down, opening);
    hide WorldInv, Step, Enabled, Registered, Timely, SaneVisibility, AheadOfWheel, OneClock, FilesGrow, Tick, Advance;
    RunAhead(cfg, owner, w, ops, times, opening.base);
    var w' := Run(cfg, owner, w, ops);
    hide Run, EnabledRun, TimelyRun, Clocked;
    if id in w'.group.runtime && w'.group.runtime[id].state == InFlight {
      AheadAt(w'.group, LastTime(times, opening.base), id);
      InvOfWorld(cfg, w');
      ReapIsScan(cfg, w'.session, now, w'.group, id);
    }
  }

  lemma AheadAt(g: Group, t: nat, id: Id)
    requires AheadOfWheel(g, t) && id in g.runtime && g.runtime[id].state == InFlight
    ensures id in g.inflight && g.inflight[id].deadline >= g.base
  {
  }

  lemma {:induction false} OpenIsUp(cfg: Config, owner: Text, w: World, clock: LoadClock)
    requires w.Down?
    ensures Step(cfg, owner, w, OpenGroup(clock)).0.Up?
  {
    hide Load;
  }

  lemma {:induction false} OpenedAhead(cfg: Config, owner: Text, w: World, clock: LoadClock)
    requires WorldInv(cfg, w) && w.Down? && Tick(cfg) == 1
    ensures Step(cfg, owner, w, OpenGroup(clock)).0.Up?
    ensures AheadOfWheel(Step(cfg, owner, w, OpenGroup(clock)).0.group, clock.base)
  {
    hide Inv, History, LastEvents, Defaults, SnapshotFits, UniqueIds, Load, Tick, ReplayedRuntime;
    LoadIsReplay(cfg, w.segment, w.snapshot, w.log, clock);
  }
}
