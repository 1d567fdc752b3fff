// When a group can be settled. Acknowledging every lease always does it. Without acknowledging anybody else's
// delivery it can be done exactly if the lost leases leave room for another one and none of them belongs to
// an IN_FLIGHT message; a restart always makes it so.
module Settlement {
  import opened Transitions
  import opened Legality
  import opened Wheel
  import opened Operations
  import opened Reachability
  import opened Runs
  import opened WheelRuns
  import opened Delivery
  import opened LostLeases
  import opened Liveness
  import opened FirstDelivery

  // ---------------------------------------------------------------------------------------------
  // Acknowledging every lease
  // ---------------------------------------------------------------------------------------------

  // The leased messages are ACKED, the others as they were.
  ghost predicate LeasedAcked(g: Group, runtime: map<Id, Runtime>) {
    && runtime.Keys == g.runtime.Keys
    && forall id :: id in runtime ==>
      if id in g.inflight then runtime[id].state == Acked else runtime[id] == g.runtime[id]
  }

  lemma {:induction false} AckLeased(cfg: Config, owner: Text, w: World, t: nat) returns (ops: seq<Op>, w': World)
    requires WorldInv(cfg, w) && SaneRetryLimit(cfg) && w.Up?
    ensures |ops| == |w.group.inflight.Keys| && SmoothAll(ops, t) && RunsTo(cfg, owner, w, ops, w')
    ensures WorldInv(cfg, w') && w'.Up? && w'.group.inflight == map[] && LeasedAcked(w.group, w'.group.runtime)
    decreases |w.group.inflight.Keys|
  {
    hide WorldInv, StepsTo, Step, Enabled, Ack, SaneRetryLimit, Inv, OthersAlike, DiffersAt, LeasedAcked;
    if w.group.inflight.Keys == {} {
      ops, w' := [], w;
      NothingToAck(w.group);
    } else {
      hide RunsTo;
      var id :| id in w.group.inflight.Keys;
      InvOfWorld(cfg, w);
      LeasedIsLoaded(cfg, w.session, w.group, id);
      AckSettles(cfg, w.group, id, t);
      var w1, done := StepAck(cfg, owner, w, id, t);
      StepsToKeeps(cfg, owner, w, AckOp(id, t), w1, done);
      assert w1.group.inflight.Keys == w.group.inflight.Keys - {id};
      var rest;
      rest, w' := AckLeased(cfg, owner, w1, t);
      OneThenRest(cfg, owner, w, AckOp(id, t), w1, done, rest, w');
      AckedOneMore(w.group, w1.group, id, w'.group.runtime);
      ops := [AckOp(id, t)] + rest;
    }
  }

  lemma NothingToAck(g: Group)
    requires g.inflight.Keys == {}
    ensures g.inflight == map[] && LeasedAcked(g, g.runtime)
  {
  }

  lemma AckedOneMore(g: Group, g1: Group, id: Id, runtime: map<Id, Runtime>)
    requires DiffersAt(g.runtime, g1.runtime, id) && g1.runtime[id].state == Acked
    requires id in g.inflight && g1.inflight == g.inflight - {id} && LeasedAcked(g1, runtime)
    ensures LeasedAcked(g, runtime)
  {
  }

  lemma {:induction false} NoLeasesQuiet(g: Group, t: nat)
    requires g.inflight == map[] && forall id :: id in g.runtime ==> g.runtime[id].availableAfter <= t
    ensures Quiet(g, t)
  {
  }

  lemma {:induction false} ReadyAndLeased(g: Group, runtime: map<Id, Runtime>)
    requires LeasedAcked(g, runtime) && g.inflight.Keys <= g.runtime.Keys
    ensures |g.inflight.Keys| + |ReadyIds(runtime)| <= |runtime.Keys|
  {
    assert g.inflight.Keys !! ReadyIds(runtime);
    SmallerSet(g.inflight.Keys + ReadyIds(runtime), runtime.Keys);
  }

  // From every state of a loaded group, whatever has become of its leases, acknowledging all of them and then
  // each delivery settles every message, by successful operations no earlier than the given time.
  lemma {:induction false} SettleLoaded(cfg: Config, owner: Text, w: World, start: nat)
    returns (ops: seq<Op>, w': World)
    requires WorldInv(cfg, w) && SaneRetryLimit(cfg) && cfg.maxInflight >= 1 && w.Up?
    ensures |ops| <= 2 * |w.group.runtime.Keys| && SmoothAll(ops, start) && RunsTo(cfg, owner, w, ops, w')
    ensures w'.Up? && w'.group.runtime.Keys == w.group.runtime.Keys && AllSettled(w'.group.runtime)
  {
    hide WorldInv, RunsTo, ReadyIds, Quiet, AllSettled, OwnRun, SmoothAll, SaneRetryLimit, Inv;
    var acks, w1 := AckLeased(cfg, owner, w, start);
    var t := VisibleBy(w1.group.runtime, w1.group.runtime.Keys, start);
    NoLeasesQuiet(w1.group, t);
    var rest;
    rest, w' := Drain(cfg, owner, w1, t);
    OwnRunIsRun(cfg, owner, w1, rest, {}, w');
    RunsJoin(cfg, owner, w, acks, w1, rest, w');
    SmoothEarlier(rest, t, start);
    SmoothJoin(acks, rest, start);
    InvOfWorld(cfg, w);
    AllLoaded(cfg, w.session, w.group);
    ReadyAndLeased(w.group, w1.group.runtime);
    ops := acks + rest;
  }

  lemma {:induction false} AllLoaded(cfg: Config, s: Session, g: Group)
    requires Inv(cfg, s, g)
    ensures g.inflight.Keys <= g.runtime.Keys
  {
    hide Inv;
    forall id | id in g.inflight
      ensures id in g.runtime
    {
      LeasedIsLoaded(cfg, s, g, id);
    }
  }

  // From every state satisfying the invariant of all runs, loaded or down, a schedule of at most 1 + 2n
  // successful operations leaves all n messages of the group ACKED or DEAD.
  lemma {:induction false} NoMessageIsStuck(cfg: Config, owner: Text, w: World, start: nat)
    returns (ops: seq<Op>, w': World)
    requires WorldInv(cfg, w) && SaneRetryLimit(cfg) && cfg.maxInflight >= 1
    ensures SmoothAll(ops, start) && RunsTo(cfg, owner, w, ops, w')
    ensures w'.Up? && AllSettled(w'.group.runtime)
    ensures w'.group.runtime.Keys == if w.Up? then w.group.runtime.Keys else Defaults(w.segment).Keys
    ensures |ops| <= 1 + 2 * |w'.group.runtime.Keys|
  {
    hide WorldInv, StepsTo, RunsTo, AllSettled, SmoothAll, Defaults, SaneRetryLimit;
    if w.Up? {
      ops, w' := SettleLoaded(cfg, owner, w, start);
    } else {
      var w1, done := StepOpen(cfg, owner, w, start);
      var rest;
      rest, w' := SettleLoaded(cfg, owner, w1, start);
      ops := [OpenOp(start)] + rest;
      OneSmooth(OpenOp(start), start);
      SmoothJoin([OpenOp(start)], rest, start);
      OneThenRest(cfg, owner, w, OpenOp(start), w1, done, rest, w');
    }
  }

  lemma OneSmooth(op: Op, start: nat)
    requires Smooth(op, start)
    ensures SmoothAll([op], start)
  {
  }

  // ---------------------------------------------------------------------------------------------
  // Waiting for the wheel instead
  // ---------------------------------------------------------------------------------------------

  // Every lost lease is of a READY message, and they leave room for another lease.
  ghost predicate Unblocked(cfg: Config, g: Group) {
    && (forall id :: id in LostIds(g) ==> id in g.runtime && g.runtime[id].state == Ready)
    && |LostIds(g)| < cfg.maxInflight
  }

  function LapLater(cfg: Config, g: Group, start: nat): nat {
    start + (g.base + SLOTS) * Tick(cfg)
  }

  lemma {:induction false} LapLaterIsLater(cfg: Config, g: Group, start: nat)
    ensures LapLater(cfg, g, start) / Tick(cfg) >= g.base + SLOTS && LapLater(cfg, g, start) >= start
  {
    var tick := Tick(cfg);
    var n := g.base + SLOTS;
    assert (start + n * tick) / tick >= n by {
      DivAfterMul(start, n, tick);
    }
  }

  lemma {:induction false} DivAfterMul(a: nat, n: nat, tick: nat)
    requires tick >= 1
    ensures (a + n * tick) / tick >= n
  {
    TickSpan(a + n * tick, tick);
    var q := (a + n * tick) / tick;
    if q < n {
      MulMonotone(q + 1, n, tick);
    }
  }

  // After a reap one lap on only the lost leases are left, and if they do not block, the group is quiet.
  lemma {:induction false} ReapedQuiet(cfg: Config, s: Session, g: Group, now: nat, t: nat)
    requires Inv(cfg, s, g) && SaneRetryLimit(cfg) && Unblocked(cfg, g) && now / Tick(cfg) >= g.base + SLOTS
    requires
      var g' := Reap(cfg, g, now, now, {});
      forall id :: id in g'.runtime ==> g'.runtime[id].availableAfter <= t
    ensures
      var g' := Reap(cfg, g, now, now, {});
      Quiet(g', t) && |g'.inflight.Keys| < cfg.maxInflight && g'.runtime.Keys == g.runtime.Keys
  {
    hide Inv, Advance, Eligible, Ascending, TimedOut, SaneRetryLimit, Lost, Tick;
    var g1 := Advance(cfg, now, g, {});
    LapLeavesLost(cfg, s, now, g);
    AdvanceReaps(cfg, s, now, g, {});
    AdvanceKeeps(cfg, s, now, g, {});
    forall id | id in g1.inflight
      ensures Lost(BuildReady(g1, now), id) && id in g1.runtime && g1.runtime[id].state == Ready
    {
      assert id in LostIds(g);
      assert LeaseReaped(cfg, now, g, g1, id);
      AdvanceKeepsLost(cfg, now, g, {}, id);
      SameWheelLost(g1, BuildReady(g1, now), id);
    }
  }

  // A run that settles every message of the group and ends no delivery but its own.
  ghost predicate OwnSettlement(cfg: Config, owner: Text, w: World, ops: seq<Op>, w': World)
    requires w.Up?
  {
    && OwnRun(cfg, owner, w, ops, {}, w')
    && w'.Up? && w'.group.runtime.Keys == w.group.runtime.Keys && AllSettled(w'.group.runtime)
  }

  // Unless it is blocked, a group is settled by waiting one lap, reaping, waiting for the backoffs, and then
  // one Consume and one Ack for each message left.
  lemma {:induction false} SettleUnblocked(cfg: Config, owner: Text, w: World, start: nat)
    returns (ops: seq<Op>, w': World)
    requires WorldInv(cfg, w) && SaneRetryLimit(cfg) && w.Up? && Unblocked(cfg, w.group)
    ensures |ops| <= 1 + 2 * |w.group.runtime.Keys| && SmoothAll(ops, start)
    ensures OwnSettlement(cfg, owner, w, ops, w')
  {
    hide WorldInv, StepsTo, OwnRun, ReadyIds, Reap, LapLater, AllSettled, SaneRetryLimit, SmoothAll, Quiet, Inv,
      Unblocked;
    var t := LapLater(cfg, w.group, start);
    LapLaterIsLater(cfg, w.group, start);
    var w1, done := StepReap(cfg, owner, w, t);
    StepsToKeeps(cfg, owner, w, GetStats(t, t, {}), w1, done);
    var u := VisibleBy(w1.group.runtime, w1.group.runtime.Keys, t);
    InvOfWorld(cfg, w);
    ReapedQuiet(cfg, w.session, w.group, t, u);
    var rest;
    rest, w' := Drain(cfg, owner, w1, u);
    FewReady(w1.group.runtime);
    ops := [GetStats(t, t, {})] + rest;
    SmoothEarlier(rest, u, start);
    OneSmooth(GetStats(t, t, {}), start);
    SmoothJoin([GetStats(t, t, {})], rest, start);
    assert {} + DeliveredBy(done) == {};
    OwnThen(cfg, owner, w, GetStats(t, t, {}), w1, done, rest, {}, w');
  }

  // ---------------------------------------------------------------------------------------------
  // What lost leases block
  // ---------------------------------------------------------------------------------------------

  // The lost lease of the message and its entry are as they were.
  ghost predicate StillLost(g: Group, g': Group, id: Id) {
    && Lost(g, id) && Lost(g', id) && g'.inflight[id] == g.inflight[id]
    && id in g.runtime && id in g'.runtime && g'.runtime[id] == g.runtime[id]
  }

  lemma StillLostThen(a: Group, b: Group, c: Group, id: Id)
    requires StillLost(a, b, id) && StillLost(b, c, id)
    ensures StillLost(a, c, id)
  {
  }

  lemma {:induction false} ReapStillLost(
    cfg: Config, s: Session, g: Group, scanTime: nat, readyTime: nat, fails: set<nat>, id: Id)
    requires Inv(cfg, s, g) && SaneRetryLimit(cfg) && Lost(g, id)
    ensures StillLost(g, Reap(cfg, g, scanTime, readyTime, fails), id)
  {
    hide Inv, Advance, Eligible, Ascending, TimedOut, SaneRetryLimit, Awaited;
    var g1 := Advance(cfg, scanTime, g, fails);
    LeasedIsLoaded(cfg, s, g, id);
    AdvanceReaps(cfg, s, scanTime, g, fails);
    AdvanceKeepsLost(cfg, scanTime, g, fails, id);
    assert LeaseReaped(cfg, scanTime, g, g1, id);
    SameWheelLost(g1, BuildReady(g1, readyTime), id);
  }

  // A transition of another message, logged or failed.
  lemma {:induction false} AppendStillLost(cfg: Config, g: Group, e: Event, fails: set<nat>, id: Id)
    requires Lost(g, id) && id in g.runtime && e.id in g.runtime && e.id != id
    ensures StillLost(g, Append(cfg, g.(next := g.next + 1), e, fails), id)
  {
    hide Apply, Tick, Push, RuntimeAfter, LeaseOf, Awaited, NoNewEntry;
    var g1 := g.(next := g.next + 1);
    var g' := Append(cfg, g1, e, fails);
    ApplyFields(Tick(cfg), g1.(log := g1.log + [e]), e);
    SameEntries(g.wheel, id);
    if e.state == InFlight {
      PushNoNewEntry(g.wheel, e.deadline / Tick(cfg), e.id, id);
    }
    FewerEntriesLost(g, g', id);
  }

  lemma {:induction false} SameStillLost(g: Group, g': Group, id: Id)
    requires Lost(g, id) && id in g.runtime && g'.inflight == g.inflight && g'.runtime == g.runtime
    requires g'.base == g.base && g'.wheel == g.wheel
    ensures StillLost(g, g', id)
  {
    hide Awaited;
    SameWheelLost(g, g', id);
  }

  // Consuming leaves the lost lease of an IN_FLIGHT message alone: only READY messages are delivered.
  lemma {:induction false} ConsumeStillLost(
    cfg: Config, owner: Text, s: Session, segment: seq<Message>, g: Group, clock: ConsumeClock, fails: set<nat>,
    readable: bool, id: Id)
    requires Inv(cfg, s, g) && SaneRetryLimit(cfg) && OffsetsInSegment(segment, s.defaults)
    requires Lost(g, id) && id in g.runtime && g.runtime[id].state == InFlight
    ensures
      var (g', outcome) := Consume(cfg, owner, segment, g, clock, fails, readable);
      StillLost(g, g', id) && id !in DeliveredBy(outcome)
  {
    hide Inv, Reap, Deliver, OffsetsInSegment, SaneRetryLimit, Lost;
    var g1 := Reap(cfg, g, clock.scan, clock.ready, fails);
    ReapStillLost(cfg, s, g, clock.scan, clock.ready, fails, id);
    if |g1.inflight.Keys| < cfg.maxInflight && g1.ready != [] {
      var offset := g1.ready[0];
      var g2 := g1.(ready := g1.ready[1..]);
      SameStillLost(g1, g2, id);
      StillLostThen(g, g1, g2, id);
      if readable && offset < |segment| {
        ReapOffers(cfg, s, segment, g, clock.scan, clock.ready, fails, offset);
        DeliverStillLost(cfg, owner, g2, offset, segment[offset], clock, fails, id);
        StillLostThen(g, g2, Deliver(cfg, owner, g2, offset, segment[offset], clock, fails).0, id);
      }
    }
  }

  lemma {:induction false} DeliverStillLost(
    cfg: Config, owner: Text, g: Group, offset: nat, m: Message, clock: ConsumeClock, fails: set<nat>, id: Id)
    requires Lost(g, id) && id in g.runtime && m.id in g.runtime && m.id != id
    ensures
      var (g', outcome) := Deliver(cfg, owner, g, offset, m, clock, fails);
      StillLost(g, g', id) && id !in DeliveredBy(outcome)
  {
    hide Append, StillLost, Lost, Bump;
    var e := DeliveryEvent(cfg, owner, g.next, m.id, g.runtime[m.id].retry, clock.lease);
    AppendStillLost(cfg, g, e, fails, id);
  }

  lemma {:induction false} EndStillLost(
    cfg: Config, s: Session, g: Group, ended: Id, requeue: bool, clock: NackClock, fails: set<nat>, id: Id)
    requires Inv(cfg, s, g) && Lost(g, id) && ended != id
    ensures StillLost(g, Ack(cfg, g, ended, clock.transition, fails).0, id)
    ensures StillLost(g, Nack(cfg, g, ended, requeue, clock, fails).0, id)
  {
    hide Inv, Append, Lost, Eligible, Ascending, Bump;
    LostIsLeased(g, id);
    LeasedIsLoaded(cfg, s, g, id);
    SameStillLost(g, g, id);
    if ended in g.inflight {
      LeasedIsLoaded(cfg, s, g, ended);
      AppendStillLost(cfg, g, AckEvent(g.next, ended, g.runtime[ended].retry, clock.transition), fails, id);
      var e := NackEvent(cfg, g.next, ended, g.runtime[ended].retry, requeue, clock);
      AppendStillLost(cfg, g, e, fails, id);
      var g1 := Append(cfg, g.(next := g.next + 1), e, fails);
      SameStillLost(g1, BuildReady(g1, clock.ready), id);
      StillLostThen(g, g1, BuildReady(g1, clock.ready), id);
    }
  }

  // The operation neither ends the lease of the message by name nor restarts the process.
  predicate Spares(op: Op, id: Id) {
    match op
    case AckOne(ended, _, _, _) => ended != id
    case NackOne(ended, _, _, _, _) => ended != id
    case Crash => false
    case _ => true
  }

  lemma {:induction false} StepStillLost(cfg: Config, owner: Text, w: World, op: Op, id: Id)
    requires WorldInv(cfg, w) && SaneRetryLimit(cfg) && Enabled(w, op) && w.Up? && Spares(op, id)
    requires Lost(w.group, id) && id in w.group.runtime && w.group.runtime[id].state == InFlight
    ensures
      var (w', outcome) := Step(cfg, owner, w, op);
      w'.Up? && StillLost(w.group, w'.group, id) && id !in DeliveredBy(outcome)
  {
    hide WorldInv, Inv, Consume, Ack, Nack, Reap, Lost, SaneRetryLimit, StillLost;
    InvOfWorld(cfg, w);
    match op {
      case ConsumeNext(clock, readable, fails, persists) =>
        SessionOffsets(cfg, w);
        ConsumeStillLost(cfg, owner, w.session, w.segment, w.group, clock, fails, readable, id);
      case AckOne(ended, now, fails, persists) =>
        EndStillLost(cfg, w.session, w.group, ended, true, NackClock(now, now, now), fails, id);
        AckDeliversNothing(cfg, w.group, ended, now, fails);
      case NackOne(ended, requeue, clock, fails, persists) =>
        EndStillLost(cfg, w.session, w.group, ended, requeue, clock, fails, id);
        NackDeliversNothing(cfg, w.group, ended, requeue, clock, fails);
      case GetStats(scanTime, readyTime, fails) =>
        ReapStillLost(cfg, w.session, w.group, scanTime, readyTime, fails, id);
      case Produce(message) =>
        SameStillLost(w.group, w.group, id);
    }
  }

  lemma AckDeliversNothing(cfg: Config, g: Group, id: Id, now: nat, fails: set<nat>)
    ensures !Ack(cfg, g, id, now, fails).1.Delivery?
  {
  }

  lemma NackDeliversNothing(cfg: Config, g: Group, id: Id, requeue: bool, clock: NackClock, fails: set<nat>)
    ensures !Nack(cfg, g, id, requeue, clock, fails).1.Delivery?
  {
  }

  // The lost lease of an IN_FLIGHT message outlives every run, however long and whatever its clock, that does
  // not acknowledge or reject that message and does not restart: the message is never retried.
  lemma {:induction false} LostLeaseStays(cfg: Config, owner: Text, w: World, ops: seq<Op>, id: Id)
    requires WorldInv(cfg, w) && SaneRetryLimit(cfg) && EnabledRun(cfg, owner, w, ops) && w.Up?
    requires Lost(w.group, id) && id in w.group.runtime && w.group.runtime[id].state == InFlight
    requires forall k :: 0 <= k < |ops| ==> Spares(ops[k], id)
    ensures var w' := Run(cfg, owner, w, ops); w'.Up? && StillLost(w.group, w'.group, id)
    decreases |ops|
  {
    hide WorldInv, Step, Enabled, Lost, SaneRetryLimit, FilesGrow, Spares;
    if ops == [] {
      SameStillLost(w.group, w.group, id);
    } else {
      var w1 := Step(cfg, owner, w, ops[0]).0;
      StepStillLost(cfg, owner, w, ops[0], id);
      StepKeeps(cfg, owner, w, ops[0]);
      LostLeaseStays(cfg, owner, w1, ops[1..], id);
      StillLostThen(w.group, w1.group, Run(cfg, owner, w, ops).group, id);
    }
  }

  // An own run never gets to end the lost lease of an IN_FLIGHT message.
  lemma {:induction false} OwnRunStillLost(
    cfg: Config, owner: Text, w: World, ops: seq<Op>, delivered: set<Id>, w': World, id: Id)
    requires WorldInv(cfg, w) && SaneRetryLimit(cfg) && OwnRun(cfg, owner, w, ops, delivered, w') && w.Up?
    requires Lost(w.group, id) && id in w.group.runtime && w.group.runtime[id].state == InFlight && id !in delivered
    ensures w'.Up? && StillLost(w.group, w'.group, id)
    decreases |ops|
  {
    hide WorldInv, Step, Enabled, Lost, SaneRetryLimit, FilesGrow, DeliveredBy;
    if ops == [] {
      SameStillLost(w.group, w.group, id);
    } else {
      var (w1, outcome) := Step(cfg, owner, w, ops[0]);
      StepStillLost(cfg, owner, w, ops[0], id);
      StepKeeps(cfg, owner, w, ops[0]);
      OwnRunStillLost(cfg, owner, w1, ops[1..], delivered + DeliveredBy(outcome), w', id);
      StillLostThen(w.group, w1.group, w'.group, id);
    }
  }

  // With as many lost leases as the limit allows, nobody is given anything.
  lemma {:induction false} StepStillFull(cfg: Config, owner: Text, w: World, op: Op)
    requires WorldInv(cfg, w) && SaneRetryLimit(cfg) && Enabled(w, op) && w.Up? && OwnOp(op, {})
    requires |LostIds(w.group)| >= cfg.maxInflight
    ensures
      var (w', outcome) := Step(cfg, owner, w, op);
      w'.Up? && LostIds(w.group) <= LostIds(w'.group) && DeliveredBy(outcome) == {}
  {
    hide WorldInv, Inv, Deliver, Reap, Lost, SaneRetryLimit, LostIds;
    InvOfWorld(cfg, w);
    match op {
      case ConsumeNext(clock, readable, fails, persists) =>
        ReapStillFull(cfg, w.session, w.group, clock.scan, clock.ready, fails);
      case GetStats(scanTime, readyTime, fails) =>
        ReapStillFull(cfg, w.session, w.group, scanTime, readyTime, fails);
      case Produce(message) =>
    }
  }

  lemma {:induction false} ReapStillFull(
    cfg: Config, s: Session, g: Group, scanTime: nat, readyTime: nat, fails: set<nat>)
    requires Inv(cfg, s, g) && SaneRetryLimit(cfg)
    ensures
      var g' := Reap(cfg, g, scanTime, readyTime, fails);
      LostIds(g) <= LostIds(g') && |g'.inflight.Keys| >= |LostIds(g)|
  {
    hide Inv, Reap, SaneRetryLimit, Lost;
    var g' := Reap(cfg, g, scanTime, readyTime, fails);
    forall id | id in LostIds(g)
      ensures id in LostIds(g')
    {
      ReapStillLost(cfg, s, g, scanTime, readyTime, fails, id);
      LostIsLeased(g', id);
    }
    SmallerSet(LostIds(g), g'.inflight.Keys);
  }

  lemma {:induction false} OwnRunStillFull(cfg: Config, owner: Text, w: World, ops: seq<Op>, w': World)
    requires WorldInv(cfg, w) && SaneRetryLimit(cfg) && OwnRun(cfg, owner, w, ops, {}, w') && w.Up?
    requires |LostIds(w.group)| >= cfg.maxInflight
    ensures WorldInv(cfg, w') && w'.Up? && LostIds(w.group) <= LostIds(w'.group)
    decreases |ops|
  {
    hide WorldInv, Step, Enabled, LostIds, SaneRetryLimit, FilesGrow, OwnOp, DeliveredBy;
    if ops != [] {
      var (w1, outcome) := Step(cfg, owner, w, ops[0]);
      StepStillFull(cfg, owner, w, ops[0]);
      StepKeeps(cfg, owner, w, ops[0]);
      SmallerSet(LostIds(w.group), LostIds(w1.group));
      assert {} + DeliveredBy(outcome) == {};
      OwnRunStillFull(cfg, owner, w1, ops[1..], w');
    }
  }

  // A blocked group is settled by no run that ends only its own deliveries.
  lemma {:induction false} BlockedIsStuck(cfg: Config, owner: Text, w: World, ops: seq<Op>, w': World)
    requires WorldInv(cfg, w) && SaneRetryLimit(cfg) && cfg.maxInflight >= 1 && w.Up? && !Unblocked(cfg, w.group)
    ensures !OwnSettlement(cfg, owner, w, ops, w')
  {
    hide WorldInv, Inv, OwnRun, Lost, SaneRetryLimit;
    InvOfWorld(cfg, w);
    if OwnRun(cfg, owner, w, ops, {}, w') {
      if |LostIds(w.group)| >= cfg.maxInflight {
        OwnRunStillFull(cfg, owner, w, ops, w');
        var id :| id in LostIds(w.group);
        InvOfWorld(cfg, w');
        LostIsLive(cfg, w'.session, w'.group, id);
      } else {
        var id :| id in LostIds(w.group) && !(id in w.group.runtime && w.group.runtime[id].state == Ready);
        LostIsLive(cfg, w.session, w.group, id);
        OwnRunStillLost(cfg, owner, w, ops, {}, w', id);
      }
    }
  }

  lemma {:induction false} LostIsLive(cfg: Config, s: Session, g: Group, id: Id)
    requires Inv(cfg, s, g) && id in LostIds(g)
    ensures id in g.runtime && Live(g.runtime[id].state)
  {
    hide Inv, Lost;
    LeasedIsLoaded(cfg, s, g, id);
    RuntimeWithinBudget(cfg, s, g, id);
  }

  // A loaded group can be settled without ending anybody else's delivery, at any time to come, if and only if
  // it is not blocked.
  lemma {:induction false} SettlesOnItsOwn(cfg: Config, owner: Text, w: World, start: nat)
    requires WorldInv(cfg, w) && SaneRetryLimit(cfg) && cfg.maxInflight >= 1 && w.Up?
    ensures (exists ops, w' :: SmoothAll(ops, start) && OwnSettlement(cfg, owner, w, ops, w')) <==>
      Unblocked(cfg, w.group)
  {
    hide WorldInv, OwnSettlement, SmoothAll, Unblocked, SaneRetryLimit;
    if Unblocked(cfg, w.group) {
      var ops, w' := SettleUnblocked(cfg, owner, w, start);
    } else {
      forall ops, w'
        ensures !OwnSettlement(cfg, owner, w, ops, w')
      {
        BlockedIsStuck(cfg, owner, w, ops, w');
      }
    }
  }

  // While the wheel holds every lease nothing is blocked.
  lemma {:induction false} RegisteredIsUnblocked(cfg: Config, g: Group)
    requires Registered(g) && cfg.maxInflight >= 1
    ensures Unblocked(cfg, g)
  {
    hide Registered, LostIds;
    RegisteredNotLost(g);
  }

  // ---------------------------------------------------------------------------------------------
  // A restart unblocks
  // ---------------------------------------------------------------------------------------------

  lemma {:induction false} DeadlinesBy(log: seq<Event>, start: nat) returns (t: nat)
    ensures t >= start && forall i :: 0 <= i < |log| ==> log[i].deadline <= t
  {
    t := start;
    for k := 0 to |log|
      invariant t >= start && forall i :: 0 <= i < k ==> log[i].deadline <= t
    {
      if t < log[k].deadline {
        t := log[k].deadline;
      }
    }
  }

  lemma {:induction false} DivMonotone(a: nat, b: nat, tick: nat)
    requires tick >= 1 && a <= b
    ensures a / tick <= b / tick
  {
    TickSpan(a, tick);
    TickSpan(b, tick);
    if a / tick > b / tick {
      MulMonotone(b / tick + 1, a / tick, tick);
    }
  }

  // A group opened when every logged deadline has passed has no lost lease.
  lemma {:induction false} OpenedNoneLost(cfg: Config, w: World, t: nat)
    requires WorldInv(cfg, w) && w.Down? && forall i :: 0 <= i < |w.log| ==> w.log[i].deadline <= t
    ensures LostIds(Load(cfg, w.segment, w.snapshot, w.log, LoadClock(t, t, t))) == {}
  {
    hide WorldInv, Load, Defaults, LastEvents, Arrival, Tick, InFlightIds, InSlots;
    var g := Load(cfg, w.segment, w.snapshot, w.log, LoadClock(t, t, t));
    LoadedKeys(cfg, w, LoadClock(t, t, t));
    LoadInSlots(cfg, w.segment, w.snapshot, w.log, LoadClock(t, t, t));
    forall id | id in g.inflight
      ensures !Lost(g, id)
    {
      var e := LastEvents(w.log)[id];
      LeaseTick(Tick(cfg), e, Defaults(w.segment)[id].offset);
      DivMonotone(e.deadline, t, Tick(cfg));
      InItsSlot(g, id);
      assert AwaitedIn(g, id, g.inflight[id].bucketTick % SLOTS);
    }
  }

  lemma InItsSlot(g: Group, id: Id)
    requires InSlots(g) && id in g.inflight
    ensures id in g.wheel[g.inflight[id].bucketTick % SLOTS]
  {
  }

  // A group that is down, whatever its leases were, can be opened and settled without ending anybody else's
  // delivery.
  lemma {:induction false} SettlesAfterRestart(cfg: Config, owner: Text, w: World, start: nat)
    returns (ops: seq<Op>, w': World)
    requires WorldInv(cfg, w) && SaneRetryLimit(cfg) && cfg.maxInflight >= 1 && w.Down?
    ensures SmoothAll(ops, start) && OwnRun(cfg, owner, w, ops, {}, w')
    ensures w'.Up? && w'.group.runtime.Keys == Defaults(w.segment).Keys && AllSettled(w'.group.runtime)
    ensures |ops| <= 2 + 2 * |w'.group.runtime.Keys|
  {
    hide WorldInv, StepsTo, OwnRun, AllSettled, SmoothAll, Defaults, SaneRetryLimit, Load, LostIds;
    var t := DeadlinesBy(w.log, start);
    var w1, done := StepOpen(cfg, owner, w, t);
    OpenedNoneLost(cfg, w, t);
    var rest;
    rest, w' := SettleUnblocked(cfg, owner, w1, start);
    ops := [OpenOp(t)] + rest;
    OneSmooth(OpenOp(t), start);
    SmoothJoin([OpenOp(t)], rest, start);
    assert {} + DeliveredBy(done) == {};
    OwnThen(cfg, owner, w, OpenOp(t), w1, done, rest, {}, w');
  }

  // ---------------------------------------------------------------------------------------------
  // Blocked groups exist
  // ---------------------------------------------------------------------------------------------

  // A lease that runs a lap or more beyond the wheel is lost when it is issued, unless an older entry of the
  // message is still about.
  lemma {:induction false} LongLeaseIsLost(
    cfg: Config, owner: Text, before: Group, after: Group, id: Id, now: nat)
    requires DeliveredAs(cfg, owner, before, after, id, now)
    requires forall slot :: 0 <= slot < SLOTS ==> id !in before.wheel[slot]
    requires after.inflight[id].bucketTick >= before.base + SLOTS
    ensures Lost(after, id)
  {
    hide DeliveryEvent, RuntimeAfter, LeaseOf;
    forall slot | 0 <= slot < SLOTS
      ensures !AwaitedIn(after, id, slot)
    {
    }
  }

  // The first delivery of a queue, all at one time t, leaves it blocked if and only if the deadline tick lies more
  // than a lap ahead of the tick of t. There is such a t exactly if the visibility timeout is longer than a lap.
  lemma {:induction false} LongVisibilityBlocks(cfg: Config, owner: Text, m: Message, t: nat) returns (w: World)
    requires SaneRetryLimit(cfg) && cfg.maxInflight >= 1
    ensures Reachable(cfg, owner, w) && w.Up? && m.id in w.group.inflight
    ensures !Unblocked(cfg, w.group) <==> (t + cfg.visibility) / Tick(cfg) > t / Tick(cfg) + SLOTS
  {
    hide DeliveredAs, SaneRetryLimit, Tick, Lost, Reachable, Registered, Unblocked, TimelyReachable;
    var before;
    w, before := FirstDelivered(cfg, owner, m, t, ConsumeClock(t, t, t, t));
    UnlistedFacts(before, m.id);
    DeliveredLease(cfg, owner, before, w.group, m.id, t);
    if (t + cfg.visibility) / Tick(cfg) > t / Tick(cfg) + SLOTS {
      LongLeaseIsLost(cfg, owner, before, w.group, m.id, t);
      LostInFlightBlocks(cfg, w.group, m.id);
    } else {
      FirstRegistered(cfg, owner, before, w.group, m.id, t);
      RegisteredIsUnblocked(cfg, w.group);
    }
  }

  lemma {:induction false} LostInFlightBlocks(cfg: Config, g: Group, id: Id)
    requires Lost(g, id) && id in g.runtime && g.runtime[id].state == InFlight
    ensures id in LostIds(g) && !Unblocked(cfg, g)
  {
    hide Lost;
    LostIsLeased(g, id);
  }

  lemma {:induction false} MoreThanALap(cfg: Config)
    ensures (exists t: nat :: (t + cfg.visibility) / Tick(cfg) > t / Tick(cfg) + SLOTS) <==>
      cfg.visibility > SLOTS * Tick(cfg)
  {
    var tick := Tick(cfg);
    if cfg.visibility > SLOTS * tick {
      FarAhead(tick - 1, cfg.visibility, tick);
    } else {
      forall t: nat
        ensures (t + cfg.visibility) / tick <= t / tick + SLOTS
      {
        NotFarAhead(t, cfg.visibility, tick);
      }
    }
  }

  lemma {:induction false} FarAhead(now: nat, visibility: nat, tick: nat)
    requires tick >= 1 && now == tick - 1 && visibility > SLOTS * tick
    ensures (now + visibility) / tick > now / tick + SLOTS
  {
    TickSpan(now + visibility, tick);
    assert now / tick == 0;
    if (now + visibility) / tick < SLOTS + 1 {
      MulMonotone((now + visibility) / tick + 1, SLOTS + 1, tick);
    }
  }

  lemma {:induction false} NotFarAhead(now: nat, visibility: nat, tick: nat)
    requires tick >= 1 && visibility <= SLOTS * tick
    ensures (now + visibility) / tick <= now / tick + SLOTS
  {
    TickSpan(now, tick);
    TickSpan(now + visibility, tick);
    var t := now / tick + 1 + SLOTS;
    assert now + visibility < t * tick;
    if (now + visibility) / tick >= t {
      MulMonotone(t, (now + visibility) / tick, tick);
    }
  }
}
