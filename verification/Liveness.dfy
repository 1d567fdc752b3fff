// No message gets stuck. From every state a finite schedule settles all loaded messages. Whether one can do so
// without acknowledging anybody else's delivery is decided by the leases the wheel has lost.
module Liveness {
  import opened Transitions
  import opened Legality
  import opened Wheel
  import opened Operations
  import opened Reachability
  import opened Runs
  import opened Delivery
  import opened LostLeases

  // The operation succeeds and reads the clock at start or later.
  ghost predicate Smooth(op: Op, start: nat) {
    match op
    case OpenGroup(clock) => clock.base >= start && clock.rewrite >= start && clock.ready >= start
    case ConsumeNext(clock, readable, fails, persists) =>
      readable && persists && fails == {}
      && clock.scan >= start && clock.ready >= start && clock.create >= start && clock.lease >= start
    case AckOne(_, now, fails, persists) => persists && fails == {} && now >= start
    case GetStats(scanTime, readyTime, fails) => fails == {} && scanTime >= start && readyTime >= start
    case _ => false
  }

  ghost predicate SmoothAll(ops: seq<Op>, start: nat) {
    forall k :: 0 <= k < |ops| ==> Smooth(ops[k], start)
  }

  lemma {:induction false} SmoothJoin(a: seq<Op>, b: seq<Op>, start: nat)
    requires SmoothAll(a, start) && SmoothAll(b, start)
    ensures SmoothAll(a + b, start)
  {
    hide Smooth;
  }

  lemma {:induction false} SmoothEarlier(ops: seq<Op>, later: nat, start: nat)
    requires SmoothAll(ops, later) && start <= later
    ensures SmoothAll(ops, start)
  {
    forall k | 0 <= k < |ops|
      ensures Smooth(ops[k], start)
    {
      assert Smooth(ops[k], later);
    }
  }

  ghost predicate AllSettled(runtime: map<Id, Runtime>) {
    forall id :: id in runtime ==> runtime[id].state == Acked || runtime[id].state == Dead
  }

  function ReadyIds(runtime: map<Id, Runtime>): set<Id> {
    set id | id in runtime && runtime[id].state == Ready
  }

  // Every lease is lost and its message READY again, and every READY message is visible at time t.
  ghost predicate Quiet(g: Group, t: nat) {
    && (forall id :: id in g.inflight ==> Lost(g, id) && id in g.runtime && g.runtime[id].state == Ready)
    && (forall id :: id in g.runtime && g.runtime[id].state == Ready ==> g.runtime[id].availableAfter <= t)
  }

  // ---------------------------------------------------------------------------------------------
  // Schedules
  // ---------------------------------------------------------------------------------------------

  ghost predicate StepsTo(cfg: Config, owner: Text, w: World, op: Op, w': World, outcome: Outcome) {
    Enabled(w, op) && Step(cfg, owner, w, op) == (w', outcome)
  }

  ghost predicate RunsTo(cfg: Config, owner: Text, w: World, ops: seq<Op>, w': World) {
    EnabledRun(cfg, owner, w, ops) && Run(cfg, owner, w, ops) == w'
  }

  function DeliveredBy(outcome: Outcome): set<Id> {
    match outcome
    case Delivery(id, _, _) => {id}
    case _ => {}
  }

  // The operation does not crash, and ends only deliveries it was given.
  predicate OwnOp(op: Op, delivered: set<Id>) {
    match op
    case AckOne(id, _, _, _) => id in delivered
    case NackOne(id, _, _, _, _) => id in delivered
    case Crash => false
    case _ => true
  }

  // The run leads from w to w', and every acknowledgement or rejection in it is for a message that an
  // earlier operation of the same run delivered, or that is among those delivered before.
  ghost predicate OwnRun(cfg: Config, owner: Text, w: World, ops: seq<Op>, delivered: set<Id>, w': World)
    decreases |ops|
  {
    if ops == [] then w' == w
    else
      && Enabled(w, ops[0]) && OwnOp(ops[0], delivered)
      && var (w1, outcome) := Step(cfg, owner, w, ops[0]);
      OwnRun(cfg, owner, w1, ops[1..], delivered + DeliveredBy(outcome), w')
  }

  lemma {:induction false} OwnRunIsRun(cfg: Config, owner: Text, w: World, ops: seq<Op>, delivered: set<Id>, w': World)
    requires OwnRun(cfg, owner, w, ops, delivered, w')
    ensures RunsTo(cfg, owner, w, ops, w')
    decreases |ops|
  {
    hide Step, Enabled, OwnOp;
    if ops != [] {
      var (w1, outcome) := Step(cfg, owner, w, ops[0]);
      OwnRunIsRun(cfg, owner, w1, ops[1..], delivered + DeliveredBy(outcome), w');
    }
  }

  lemma {:induction false} OwnMore(
    cfg: Config, owner: Text, w: World, ops: seq<Op>, delivered: set<Id>, more: set<Id>, w': World)
    requires OwnRun(cfg, owner, w, ops, delivered, w') && delivered <= more
    ensures OwnRun(cfg, owner, w, ops, more, w')
    decreases |ops|
  {
    hide Step, Enabled;
    if ops != [] {
      var (w1, outcome) := Step(cfg, owner, w, ops[0]);
      OwnMore(cfg, owner, w1, ops[1..], delivered + DeliveredBy(outcome), more + DeliveredBy(outcome), w');
    }
  }

  lemma {:induction false} OwnThen(
    cfg: Config, owner: Text, w: World, op: Op, w1: World, outcome: Outcome, rest: seq<Op>, delivered: set<Id>,
    w2: World)
    requires StepsTo(cfg, owner, w, op, w1, outcome) && OwnOp(op, delivered)
    requires OwnRun(cfg, owner, w1, rest, delivered + DeliveredBy(outcome), w2)
    ensures OwnRun(cfg, owner, w, [op] + rest, delivered, w2)
  {
    hide Step, Enabled, OwnOp;
    assert ([op] + rest)[1..] == rest;
  }

  lemma {:induction false} OneThenRest(
    cfg: Config, owner: Text, w: World, op: Op, w1: World, outcome: Outcome, rest: seq<Op>, w2: World)
    requires StepsTo(cfg, owner, w, op, w1, outcome) && RunsTo(cfg, owner, w1, rest, w2)
    ensures RunsTo(cfg, owner, w, [op] + rest, w2)
  {
    hide Step, Enabled;
    assert ([op] + rest)[1..] == rest;
  }

  lemma {:induction false} RunsJoin(
    cfg: Config, owner: Text, w: World, a: seq<Op>, w1: World, b: seq<Op>, w2: World)
    requires RunsTo(cfg, owner, w, a, w1) && RunsTo(cfg, owner, w1, b, w2)
    ensures RunsTo(cfg, owner, w, a + b, w2)
    decreases |a|
  {
    hide Step, Enabled;
    if a == [] {
      assert a + b == b;
    } else {
      RunsJoin(cfg, owner, Step(cfg, owner, w, a[0]).0, a[1..], w1, b, w2);
      assert (a + b)[1..] == a[1..] + b;
    }
  }

  lemma {:induction false} StepsToKeeps(cfg: Config, owner: Text, w: World, op: Op, w': World, outcome: Outcome)
    requires WorldInv(cfg, w) && SaneRetryLimit(cfg) && StepsTo(cfg, owner, w, op, w', outcome)
    ensures WorldInv(cfg, w')
  {
    hide Step, Enabled, WorldInv, FilesGrow;
    StepKeeps(cfg, owner, w, op);
  }

  function ConsumeAt(clock: ConsumeClock): Op {
    ConsumeNext(clock, true, {}, true)
  }

  function ConsumeOp(t: nat): Op {
    ConsumeAt(ConsumeClock(t, t, t, t))
  }

  function AckOp(id: Id, t: nat): Op {
    AckOne(id, t, {}, true)
  }

  lemma {:induction false} StepConsume(cfg: Config, owner: Text, w: World, clock: ConsumeClock)
    returns (w1: World, outcome: Outcome)
    requires w.Up?
    ensures StepsTo(cfg, owner, w, ConsumeAt(clock), w1, outcome) && w1.Up?
    ensures (w1.group, outcome) == Consume(cfg, owner, w.segment, w.group, clock, {}, true)
  {
    hide Consume;
    var result := Step(cfg, owner, w, ConsumeAt(clock));
    w1, outcome := result.0, result.1;
  }

  lemma {:induction false} StepAck(cfg: Config, owner: Text, w: World, id: Id, t: nat)
    returns (w1: World, outcome: Outcome)
    requires w.Up?
    ensures StepsTo(cfg, owner, w, AckOp(id, t), w1, outcome) && DeliveredBy(outcome) == {}
    ensures w1.Up? && w1.group == Ack(cfg, w.group, id, t, {}).0
  {
    hide Append, AckEvent;
    var result := Step(cfg, owner, w, AckOp(id, t));
    w1, outcome := result.0, result.1;
  }

  lemma {:induction false} StepReap(cfg: Config, owner: Text, w: World, t: nat) returns (w1: World, outcome: Outcome)
    requires w.Up?
    ensures StepsTo(cfg, owner, w, GetStats(t, t, {}), w1, outcome) && DeliveredBy(outcome) == {}
    ensures w1.Up? && w1.group == Reap(cfg, w.group, t, t, {})
  {
    hide Reap;
    var result := Step(cfg, owner, w, GetStats(t, t, {}));
    w1, outcome := result.0, result.1;
  }

  function OpenOp(t: nat): Op {
    OpenGroup(LoadClock(t, t, t))
  }

  lemma {:induction false} StepOpen(cfg: Config, owner: Text, w: World, t: nat) returns (w1: World, outcome: Outcome)
    requires WorldInv(cfg, w) && SaneRetryLimit(cfg) && w.Down?
    ensures StepsTo(cfg, owner, w, OpenOp(t), w1, outcome) && DeliveredBy(outcome) == {}
    ensures WorldInv(cfg, w1) && w1.Up? && w1.group == Load(cfg, w.segment, w.snapshot, w.log, LoadClock(t, t, t))
    ensures w1.group.runtime.Keys == Defaults(w.segment).Keys
  {
    hide Load, Defaults, WorldInv, FilesGrow, SaneRetryLimit, StepsTo;
    w1, outcome := OpenResult(cfg, owner, w, t);
    StepsToKeeps(cfg, owner, w, OpenOp(t), w1, outcome);
    LoadedKeys(cfg, w, LoadClock(t, t, t));
  }

  lemma {:induction false} OpenResult(cfg: Config, owner: Text, w: World, t: nat) returns (w1: World, outcome: Outcome)
    requires w.Down?
    ensures StepsTo(cfg, owner, w, OpenOp(t), w1, outcome) && outcome == Done
    ensures w1.Up? && w1.group == Load(cfg, w.segment, w.snapshot, w.log, LoadClock(t, t, t))
  {
    hide Load, Defaults;
    var result := Step(cfg, owner, w, OpenOp(t));
    w1, outcome := result.0, result.1;
  }

  lemma {:induction false} LoadedKeys(cfg: Config, w: World, clock: LoadClock)
    requires WorldInv(cfg, w) && w.Down?
    ensures Load(cfg, w.segment, w.snapshot, w.log, clock).runtime.Keys == Defaults(w.segment).Keys
    ensures LeasesInSync(Tick(cfg), Session(Defaults(w.segment), |w.log|, clock.rewrite), w.log,
                         Load(cfg, w.segment, w.snapshot, w.log, clock).inflight)
    ensures Load(cfg, w.segment, w.snapshot, w.log, clock).base == clock.base / Tick(cfg)
  {
    hide Load, Defaults, LastEvents, History, SnapshotFits, UniqueIds, Inv, ReplayedRuntime, LeasesInSync, Tick;
    LoadIsReplay(cfg, w.segment, w.snapshot, w.log, clock);
  }

  // ---------------------------------------------------------------------------------------------
  // One delivery and its acknowledgement
  // ---------------------------------------------------------------------------------------------

  // The same leases, each lost as before.
  ghost predicate LostAlike(g: Group, g': Group) {
    g'.inflight == g.inflight && forall id :: id in g.inflight && Lost(g, id) ==> Lost(g', id)
  }

  lemma {:induction false} QuietReap(cfg: Config, s: Session, g: Group, t: nat)
    requires Inv(cfg, s, g) && SaneRetryLimit(cfg) && Quiet(g, t)
    ensures var g' := Reap(cfg, g, t, t, {}); g'.runtime == g.runtime && LostAlike(g, g')
  {
    hide Inv, Advance, Eligible, Ascending, TimedOut, SaneRetryLimit, Awaited;
    var g1 := Advance(cfg, t, g, {});
    AdvanceReaps(cfg, s, t, g, {});
    AdvanceKeeps(cfg, s, t, g, {});
    forall id
      ensures id in g1.inflight <==> id in g.inflight
      ensures id in g.inflight ==> g1.inflight[id] == g.inflight[id] && Lost(g1, id)
      ensures id in g.runtime ==> g1.runtime[id] == g.runtime[id]
    {
      assert LeaseReaped(cfg, t, g, g1, id);
      if id in g.inflight {
        AdvanceKeepsLost(cfg, t, g, {}, id);
      }
    }
    forall id | id in g.inflight
      ensures Lost(BuildReady(g1, t), id)
    {
      SameWheelLost(g1, BuildReady(g1, t), id);
    }
  }

  lemma {:induction false} SameWheelLost(g: Group, g': Group, id: Id)
    requires Lost(g, id) && g'.base == g.base && g'.wheel == g.wheel
    requires id in g'.inflight && g'.inflight[id] == g.inflight[id]
    ensures Lost(g', id)
  {
    SameEntries(g.wheel, id);
    FewerEntriesLost(g, g', id);
  }

  lemma {:induction false} SomeEligible(g: Group, t: nat)
    requires Quiet(g, t) && ReadyIds(g.runtime) != {}
    ensures Eligible(g.runtime, t) != {}
  {
    var id :| id in ReadyIds(g.runtime);
    assert g.runtime[id].offset in Eligible(g.runtime, t);
  }

  // Only the entry of one message differs.
  ghost predicate DiffersAt(a: map<Id, Runtime>, b: map<Id, Runtime>, id: Id) {
    a.Keys == b.Keys && id in a && forall other :: other in a && other != id ==> b[other] == a[other]
  }

  // The leases of the others are as they were, lost ones lost.
  ghost predicate OthersAlike(g: Group, g': Group, id: Id) {
    forall other :: other != id ==>
      && (other in g.inflight <==> other in g'.inflight)
      && (other in g.inflight ==> g'.inflight[other] == g.inflight[other] && (Lost(g, other) ==> Lost(g', other)))
  }

  lemma {:induction false} DeliveredDiffers(cfg: Config, owner: Text, before: Group, after: Group, id: Id, now: nat)
    requires DeliveredAs(cfg, owner, before, after, id, now)
    ensures DiffersAt(before.runtime, after.runtime, id) && id in after.inflight && OthersAlike(before, after, id)
  {
    hide DeliveryEvent, RuntimeAfter, LeaseOf, Lost, Push;
    var e := DeliveryEvent(cfg, owner, before.next, id, before.runtime[id].retry, now);
    forall other | other != id && other in before.inflight && Lost(before, other)
      ensures Lost(after, other)
    {
      PushNoNewEntry(before.wheel, after.inflight[id].bucketTick, id, other);
      FewerEntriesLost(before, after, other);
    }
  }

  // From a quiet group with a READY message and room, a consumer is given one of them.
  lemma {:induction false} QuietConsume(cfg: Config, owner: Text, w: World, t: nat)
    returns (id: Id, after: Group, outcome: Outcome)
    requires WorldInv(cfg, w) && SaneRetryLimit(cfg) && w.Up? && |w.group.inflight.Keys| < cfg.maxInflight
    requires Quiet(w.group, t) && ReadyIds(w.group.runtime) != {}
    ensures (after, outcome) == Consume(cfg, owner, w.segment, w.group, ConsumeClock(t, t, t, t), {}, true)
    ensures DiffersAt(w.group.runtime, after.runtime, id)
    ensures DeliveredBy(outcome) == {id} && w.group.runtime[id].state == Ready
    ensures id in after.inflight && OthersAlike(w.group, after, id)
  {
    hide WorldInv, Consume, Reap, Eligible, Inv, Quiet, ReadyIds, DeliveredAs, SaneRetryLimit, Lost, OthersAlike;
    var clock := ConsumeClock(t, t, t, t);
    var before := Reap(cfg, w.group, t, t, {});
    var result := Consume(cfg, owner, w.segment, w.group, clock, {}, true);
    after, outcome := result.0, result.1;
    ConsumeDelivers(cfg, owner, w, clock, {}, true);
    InvOfWorld(cfg, w);
    QuietReap(cfg, w.session, w.group, t);
    SomeEligible(w.group, t);
    VisibleIsOffered(before.runtime, t);
    id := outcome.id;
    DeliveredDiffers(cfg, owner, before, after, id, t);
    AlikeThenOthers(w.group, before, after, id);
  }

  lemma AlikeThenOthers(a: Group, b: Group, c: Group, id: Id)
    requires LostAlike(a, b) && OthersAlike(b, c, id)
    ensures OthersAlike(a, c, id)
  {
  }

  lemma {:induction false} AckSettles(cfg: Config, g: Group, id: Id, t: nat)
    requires id in g.inflight && id in g.runtime
    ensures var g' := Ack(cfg, g, id, t, {}).0;
      && g'.inflight == g.inflight - {id} && OthersAlike(g, g', id)
      && DiffersAt(g.runtime, g'.runtime, id) && g'.runtime[id].state == Acked
  {
    hide Apply, Tick, Lost;
    var e := AckEvent(g.next, id, g.runtime[id].retry, t);
    var g1 := g.(next := g.next + 1);
    ApplyFields(Tick(cfg), g1.(log := g1.log + [e]), e);
    var g' := Ack(cfg, g, id, t, {}).0;
    forall other | other != id && other in g.inflight && Lost(g, other)
      ensures Lost(g', other)
    {
      SameWheelLost(g, g', other);
    }
  }

  // The entries after a delivery and its acknowledgement.
  lemma {:induction false} BothDiffer(a: Group, b: Group, c: Group, id: Id, t: nat)
    requires Quiet(a, t) && DiffersAt(a.runtime, b.runtime, id) && DiffersAt(b.runtime, c.runtime, id)
    requires a.runtime[id].state == Ready && c.runtime[id].state == Acked
    requires OthersAlike(a, b, id) && OthersAlike(b, c, id) && id !in c.inflight
    ensures Quiet(c, t) && c.inflight.Keys == a.inflight.Keys - {id}
    ensures c.runtime.Keys == a.runtime.Keys && |ReadyIds(c.runtime)| < |ReadyIds(a.runtime)|
  {
    hide Lost;
    assert ReadyIds(c.runtime) == ReadyIds(a.runtime) - {id} by {
      hide Quiet, OthersAlike;
    }
    assert |ReadyIds(a.runtime) - {id}| < |ReadyIds(a.runtime)|;
  }

  lemma {:induction false} ConsumeAndAck(cfg: Config, owner: Text, w: World, t: nat)
    returns (id: Id, w1: World, given: Outcome, w2: World, done: Outcome)
    requires WorldInv(cfg, w) && SaneRetryLimit(cfg) && w.Up? && |w.group.inflight.Keys| < cfg.maxInflight
    requires Quiet(w.group, t) && ReadyIds(w.group.runtime) != {}
    ensures StepsTo(cfg, owner, w, ConsumeOp(t), w1, given) && DeliveredBy(given) == {id}
    ensures StepsTo(cfg, owner, w1, AckOp(id, t), w2, done) && DeliveredBy(done) == {}
    ensures WorldInv(cfg, w2) && w2.Up? && w2.group.runtime.Keys == w.group.runtime.Keys
    ensures Quiet(w2.group, t) && |w2.group.inflight.Keys| < cfg.maxInflight
    ensures |ReadyIds(w2.group.runtime)| < |ReadyIds(w.group.runtime)|
  {
    hide WorldInv, Consume, Ack, StepsTo, Quiet, ReadyIds, DiffersAt, SaneRetryLimit, OthersAlike, DeliveredBy;
    var after, outcome;
    id, after, outcome := QuietConsume(cfg, owner, w, t);
    w1, given := StepConsume(cfg, owner, w, ConsumeClock(t, t, t, t));
    StepsToKeeps(cfg, owner, w, ConsumeOp(t), w1, given);
    DiffersHas(w.group.runtime, w1.group.runtime, id);
    AckSettles(cfg, w1.group, id, t);
    w2, done := StepAck(cfg, owner, w1, id, t);
    StepsToKeeps(cfg, owner, w1, AckOp(id, t), w2, done);
    BothDiffer(w.group, w1.group, w2.group, id, t);
    SmallerSet(w2.group.inflight.Keys, w.group.inflight.Keys);
  }

  lemma DiffersHas(a: map<Id, Runtime>, b: map<Id, Runtime>, id: Id)
    requires DiffersAt(a, b, id)
    ensures id in b
  {
  }

  // A quiet group with room for one more lease is drained by one Consume and one Ack per READY message, each
  // Ack for the delivery just before it.
  lemma {:induction false} Drain(cfg: Config, owner: Text, w: World, t: nat) returns (ops: seq<Op>, w': World)
    requires WorldInv(cfg, w) && SaneRetryLimit(cfg) && w.Up? && |w.group.inflight.Keys| < cfg.maxInflight
    requires Quiet(w.group, t)
    ensures |ops| <= 2 * |ReadyIds(w.group.runtime)| && SmoothAll(ops, t)
    ensures OwnRun(cfg, owner, w, ops, {}, w')
    ensures w'.Up? && w'.group.runtime.Keys == w.group.runtime.Keys && AllSettled(w'.group.runtime)
    decreases |ReadyIds(w.group.runtime)|
  {
    hide WorldInv, StepsTo, Quiet, ReadyIds, AllSettled, Step, Enabled, SaneRetryLimit, DeliveredBy;
    if ReadyIds(w.group.runtime) == {} {
      ops, w' := [], w;
      NothingLive(cfg, w, t);
    } else {
      hide OwnRun;
      var id, w1, given, w2, done := ConsumeAndAck(cfg, owner, w, t);
      var rest;
      rest, w' := Drain(cfg, owner, w2, t);
      OwnMore(cfg, owner, w2, rest, {}, {id} + DeliveredBy(done), w');
      OwnThen(cfg, owner, w1, AckOp(id, t), w2, done, rest, {id}, w');
      assert {} + DeliveredBy(given) == {id};
      OwnThen(cfg, owner, w, ConsumeOp(t), w1, given, [AckOp(id, t)] + rest, {}, w');
      ops := [ConsumeOp(t)] + ([AckOp(id, t)] + rest);
    }
  }

  lemma {:induction false} NothingLive(cfg: Config, w: World, t: nat)
    requires WorldInv(cfg, w) && w.Up? && Quiet(w.group, t) && ReadyIds(w.group.runtime) == {}
    ensures AllSettled(w.group.runtime)
  {
    hide WorldInv, Inv, Lost;
    InvOfWorld(cfg, w);
    forall id | id in w.group.runtime
      ensures w.group.runtime[id].state == Acked || w.group.runtime[id].state == Dead
    {
      RuntimeWithinBudget(cfg, w.session, w.group, id);
      assert id !in ReadyIds(w.group.runtime);
    }
  }

  // A time by which every READY message is visible.
  lemma {:induction false} VisibleBy(runtime: map<Id, Runtime>, ids: set<Id>, start: nat) returns (t: nat)
    requires ids <= runtime.Keys
    ensures t >= start && forall id :: id in ids ==> runtime[id].availableAfter <= t
    decreases |ids|
  {
    if ids == {} {
      t := start;
    } else {
      var id :| id in ids;
      assert ids == (ids - {id}) + {id};
      t := VisibleBy(runtime, ids - {id}, start);
      if t < runtime[id].availableAfter {
        t := runtime[id].availableAfter;
      }
    }
  }

  lemma {:induction false} FewReady(runtime: map<Id, Runtime>)
    ensures |ReadyIds(runtime)| <= |runtime.Keys|
  {
    SmallerSet(ReadyIds(runtime), runtime.Keys);
  }
}
