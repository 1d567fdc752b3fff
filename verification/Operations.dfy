// The operations of one queue and one consumer group as functions on values: ProduceOnShard,
// ConsumeOnShard, AckOnShard, NackOnShard, GetStatsOnShard, LoadGroupState and a process crash.
module Operations {
  import opened Wrappers
  import opened Transitions
  import opened Tokens
  import opened Legality
  import opened Wheel

  // A record of the segment, as far as a group reads it: its offset is its position in the segment.
  datatype Message = Message(id: Id, enqueued: nat)

  ghost predicate UniqueIds(segment: seq<Message>) {
    forall i, j :: 0 <= i < j < |segment| ==> segment[i].id != segment[j].id
  }

  // What a group snapshot (<group>.state) holds.
  datatype Snapshot = Snapshot(next: nat, items: map<Id, Runtime>)

  // ---------------------------------------------------------------------------------------------
  // The ready list
  // ---------------------------------------------------------------------------------------------

  ghost predicate StrictlyAscending(s: seq<nat>) {
    forall i, j :: 0 <= i < j < |s| ==> s[i] < s[j]
  }

  ghost function Least(s: set<nat>): (m: nat)
    requires s != {}
    ensures m in s && forall x :: x in s ==> m <= x
    decreases |s|
  {
    var x :| x in s;
    if s == {x} then x
    else
      var rest := s - {x};
      assert s == rest + {x};
      var m := Least(rest);
      if x < m then x else m
  }

  // The elements of a set of offsets in ascending order.
  ghost function Ascending(s: set<nat>): (r: seq<nat>)
    ensures StrictlyAscending(r) && |r| == |s|
    ensures forall x :: x in r <==> x in s
    decreases |s|
  {
    if s == {} then []
    else
      var m := Least(s);
      var rest := Ascending(s - {m});
      PrependLeast(s, m, rest);
      [m] + rest
  }

  lemma {:induction false} PrependLeast(s: set<nat>, m: nat, rest: seq<nat>)
    requires m in s && forall x :: x in s ==> m <= x
    requires StrictlyAscending(rest) && |rest| == |s - {m}|
    requires forall x :: x in rest <==> x in s - {m}
    ensures StrictlyAscending([m] + rest) && |[m] + rest| == |s|
    ensures forall x :: x in [m] + rest <==> x in s
  {
    assert s == (s - {m}) + {m};
    forall i, j | 0 <= i < j < |[m] + rest|
      ensures ([m] + rest)[i] < ([m] + rest)[j]
    {
      assert rest[j - 1] in rest;
    }
    forall x | x in s
      ensures x in [m] + rest
    {
      if x != m {
        assert x in rest;
      }
    }
  }

  // The offsets of the messages a consumer may be given now.
  function Eligible(runtime: map<Id, Runtime>, now: nat): set<nat> {
    set id | id in runtime && runtime[id].state == Ready && runtime[id].availableAfter <= now :: runtime[id].offset
  }

  // BuildReadyQueue
  ghost function BuildReady(g: Group, now: nat): Group {
    g.(ready := Ascending(Eligible(g.runtime, now)))
  }

  // ReapExpiredInflight. The code reads the clock once for the scan and once for the ready list.
  ghost function Reap(cfg: Config, g: Group, scanTime: nat, readyTime: nat, fails: set<nat>): Group {
    BuildReady(Advance(cfg, scanTime, g, fails), readyTime)
  }

  // ---------------------------------------------------------------------------------------------
  // Consume, ack, nack
  // ---------------------------------------------------------------------------------------------

  datatype Outcome =
    | Done
    | Nothing
    | Delivery(id: Id, offset: nat, deliveryCount: nat)
    | NotFound
    | Failed

  function DeliveryEvent(cfg: Config, owner: Text, sequence: nat, id: Id, retry: nat, now: nat): Event {
    Event(sequence, id, InFlight, retry, now, now, now + cfg.visibility, owner, Token(id, sequence), Delivered)
  }

  // The four clock readings of ConsumeOnShard; the third is read only on the path that creates an entry.
  datatype ConsumeClock = ConsumeClock(scan: nat, ready: nat, create: nat, lease: nat)

  function CreatedRuntime(offset: nat, enqueued: nat, now: nat): Runtime {
    Runtime(Ready, offset, 0, enqueued, now, 0, 0, CreatedOnConsume)
  }

  // The delivery of the record at an offset taken from the ready list.
  function Deliver(
    cfg: Config, owner: Text, g: Group, offset: nat, m: Message, clock: ConsumeClock, fails: set<nat>):
    (Group, Outcome)
  {
    var g1 := if m.id in g.runtime then g
              else g.(runtime := g.runtime[m.id := CreatedRuntime(offset, m.enqueued, clock.create)]);
    var e := DeliveryEvent(cfg, owner, g1.next, m.id, g1.runtime[m.id].retry, clock.lease);
    var g2 := Append(cfg, g1.(next := g1.next + 1), e, fails);
    if e.sequence in fails then (g2, Failed)
    else (g2, Delivery(m.id, offset, Bump(e.retry)))
  }

  ghost function Consume(
    cfg: Config, owner: Text, segment: seq<Message>, g: Group, clock: ConsumeClock, fails: set<nat>, readable: bool)
    : (Group, Outcome)
  {
    var g1 := Reap(cfg, g, clock.scan, clock.ready, fails);
    if |g1.inflight.Keys| >= cfg.maxInflight then (g1, Nothing)
    else if g1.ready == [] then (g1, Nothing)
    else
      var offset := g1.ready[0];
      var g2 := g1.(ready := g1.ready[1..]);
      if !readable || offset >= |segment| then (g2, Failed)
      else Deliver(cfg, owner, g2, offset, segment[offset], clock, fails)
  }

  function AckEvent(sequence: nat, id: Id, retry: nat, now: nat): Event {
    Event(sequence, id, Acked, retry, 0, now, 0, [], [], AckedByConsumer)
  }

  // Acknowledgement goes by message id: the lease token is not looked at and nothing is reaped first.
  function Ack(cfg: Config, g: Group, id: Id, now: nat, fails: set<nat>): (Group, Outcome) {
    if id !in g.inflight then (g, NotFound)
    else if id !in g.runtime then (g, Failed)
    else
      var e := AckEvent(g.next, id, g.runtime[id].retry, now);
      (Append(cfg, g.(next := g.next + 1), e, fails), if e.sequence in fails then Failed else Done)
  }

  // The three clock readings of NackOnShard.
  datatype NackClock = NackClock(transition: nat, visible: nat, ready: nat)

  function NackEvent(cfg: Config, sequence: nat, id: Id, retry: nat, requeue: bool, clock: NackClock): Event {
    var bumped := Bump(retry);
    if !requeue then Event(sequence, id, Dead, retry, 0, clock.transition, 0, [], [], NackDead)
    else if bumped > cfg.maxRetry then Event(sequence, id, Dead, bumped, 0, clock.transition, 0, [], [], NackDead)
    else Event(sequence, id, Ready, bumped, clock.visible + cfg.backoff, clock.transition, 0, [], [], NackRequeued)
  }

  ghost function Nack(
    cfg: Config, g: Group, id: Id, requeue: bool, clock: NackClock, fails: set<nat>): (Group, Outcome)
  {
    if id !in g.inflight then (g, NotFound)
    else if id !in g.runtime then (g, Failed)
    else
      var e := NackEvent(cfg, g.next, id, g.runtime[id].retry, requeue, clock);
      var g1 := Append(cfg, g.(next := g.next + 1), e, fails);
      if e.sequence in fails then (g1, Failed) else (BuildReady(g1, clock.ready), Done)
  }

  // ---------------------------------------------------------------------------------------------
  // Loading a group
  // ---------------------------------------------------------------------------------------------

  // The entries a group starts from: every message of the segment READY.
  function Defaults(segment: seq<Message>): map<Id, Runtime> {
    if segment == [] then map[]
    else
      var n := |segment| - 1;
      Defaults(segment[..n])[segment[n].id := DefaultRuntime(n, segment[n].enqueued)]
  }

  // Snapshot entries replace the defaults of the messages the segment still holds.
  function Overlay(defaults: map<Id, Runtime>, items: map<Id, Runtime>): map<Id, Runtime> {
    map id | id in defaults :: if id in items then items[id] else defaults[id]
  }

  function Replay(tick: nat, g: Group, events: seq<Event>): Group
    requires tick >= 1
    decreases |events|
  {
    if events == [] then g else Replay(tick, Apply(tick, g, events[0]), events[1..])
  }

  function NextAfter(next: nat, events: seq<Event>): nat
    decreases |events|
  {
    if events == [] then next
    else NextAfter(if next >= events[0].sequence + 1 then next else events[0].sequence + 1, events[1..])
  }

  function RewriteInFlight(runtime: map<Id, Runtime>, now: nat): map<Id, Runtime> {
    map id | id in runtime :: Recovered(runtime[id], now)
  }

  // The three clock readings of LoadGroupState.
  datatype LoadClock = LoadClock(base: nat, rewrite: nat, ready: nat)

  function FreshGroup(cfg: Config, segment: seq<Message>, snapshot: Option<Snapshot>, now: nat): Group {
    var defaults := Defaults(segment);
    Group([], map[],
          if snapshot.Some? then Overlay(defaults, snapshot.value.items) else defaults,
          EmptyWheel(), now / Tick(cfg),
          if snapshot.Some? then snapshot.value.next else 1,
          [])
  }

  // LoadGroupState: the segment, then the snapshot, then the whole event file, then the rewrite of
  // IN_FLIGHT messages. The leases the replay registered are not erased.
  ghost function Load(
    cfg: Config, segment: seq<Message>, snapshot: Option<Snapshot>, log: seq<Event>, clock: LoadClock): Group
  {
    var g0 := FreshGroup(cfg, segment, snapshot, clock.base);
    var g1 := Replay(Tick(cfg), g0, log);
    var g2 := g1.(runtime := RewriteInFlight(g1.runtime, clock.rewrite), next := NextAfter(g0.next, log), log := log);
    BuildReady(g2, clock.ready)
  }

  // ---------------------------------------------------------------------------------------------
  // Runs
  // ---------------------------------------------------------------------------------------------

  // A queue and a group of it. While the group is down only the segment, the event file and the snapshot
  // exist. A segment reopened with records in it is sealed: its write position is not its end.
  datatype World =
    | Up(segment: seq<Message>, sealed: bool, snapshot: Option<Snapshot>, session: Session, group: Group)
    | Down(segment: seq<Message>, sealed: bool, snapshot: Option<Snapshot>, log: seq<Event>)

  function Log(w: World): seq<Event> {
    match w
    case Up(_, _, _, _, group) => group.log
    case Down(_, _, _, log) => log
  }

  datatype Op =
    | Produce(message: Message)
    | OpenGroup(loadClock: LoadClock)
    | ConsumeNext(consumeClock: ConsumeClock, readable: bool, fails: set<nat>, persists: bool)
    | AckOne(id: Id, now: nat, fails: set<nat>, persists: bool)
    | NackOne(id: Id, requeue: bool, nackClock: NackClock, fails: set<nat>, persists: bool)
    | GetStats(scanTime: nat, readyTime: nat, fails: set<nat>)
    | Crash

  // Operations other than producing and crashing act on a loaded group; the code loads it on first use.
  // Producing needs a message id that is not in the segment yet, and a segment whose write position is
  // its end.
  ghost predicate Enabled(w: World, op: Op) {
    match op
    case Produce(message) => !w.sealed && forall i :: 0 <= i < |w.segment| ==> w.segment[i].id != message.id
    case OpenGroup(_) => w.Down?
    case Crash => true
    case _ => w.Up?
  }

  function Persist(w: World, g: Group, persists: bool): World
    requires w.Up?
  {
    w.(group := g, snapshot := if persists then Some(Snapshot(g.next, g.runtime)) else w.snapshot)
  }

  // A state-changing call persists a snapshot once its event is logged; when only that write fails, the
  // caller gets an error although the transition stands.
  function Settle(w: World, result: (Group, Outcome), persists: bool): (World, Outcome)
    requires w.Up?
  {
    if result.1.Done? || result.1.Delivery?
    then (Persist(w, result.0, persists), if persists then result.1 else Failed)
    else (w.(group := result.0), result.1)
  }

  ghost function Step(cfg: Config, owner: Text, w: World, op: Op): (World, Outcome)
    requires Enabled(w, op)
  {
    match op
    case Produce(message) => (w.(segment := w.segment + [message]), Done)
    case OpenGroup(clock) =>
      var g := Load(cfg, w.segment, w.snapshot, w.log, clock);
      (Up(w.segment, w.sealed, w.snapshot, Session(Defaults(w.segment), |w.log|, clock.rewrite), g), Done)
    case ConsumeNext(clock, readable, fails, persists) =>
      Settle(w, Consume(cfg, owner, w.segment, w.group, clock, fails, readable), persists)
    case AckOne(id, now, fails, persists) => Settle(w, Ack(cfg, w.group, id, now, fails), persists)
    case NackOne(id, requeue, clock, fails, persists) =>
      Settle(w, Nack(cfg, w.group, id, requeue, clock, fails), persists)
    case GetStats(scanTime, readyTime, fails) => (w.(group := Reap(cfg, w.group, scanTime, readyTime, fails)), Done)
    case Crash => (Down(w.segment, w.sealed || w.segment != [], w.snapshot, Log(w)), Done)
  }

  ghost predicate EnabledRun(cfg: Config, owner: Text, w: World, ops: seq<Op>)
    decreases |ops|
  {
    ops != [] ==> Enabled(w, ops[0]) && EnabledRun(cfg, owner, Step(cfg, owner, w, ops[0]).0, ops[1..])
  }

  ghost function Run(cfg: Config, owner: Text, w: World, ops: seq<Op>): World
    requires EnabledRun(cfg, owner, w, ops)
    decreases |ops|
  {
    if ops == [] then w else Run(cfg, owner, Step(cfg, owner, w, ops[0]).0, ops[1..])
  }

  const START := Down([], false, None, [])
}
