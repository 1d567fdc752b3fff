// The data of one consumer group (src/core/engine/queue_engine.h:115-167) and the effect of one logged
// transition on it. Everything a group remembers in memory turns out to be a function of its event log.
module Transitions {
  import Bytes

  type Text = Bytes.Text

  datatype Id = Id(high: nat, low: nat)

  datatype State = Ready | InFlight | Acked | Dead

  datatype Reason =
    | Produced
    | Delivered
    | AckedByConsumer
    | NackRequeued
    | NackDead
    | TimeoutRequeued
    | TimeoutDead
    | RecoveredToReady
    | Unknown(code: nat)

  // What last_transition_reason says: a logged reason, or how the entry came to be without one.
  datatype Note = DefaultReady | ReplayReady | CreatedOnConsume | Because(reason: Reason)

  datatype Event = Event(
    sequence: nat, id: Id, state: State, retry: nat, availableAfter: nat, timestamp: nat, deadline: nat,
    owner: Text, token: Text, reason: Reason)

  datatype Runtime = Runtime(
    state: State, offset: nat, retry: nat, enqueued: nat, lastTransition: nat, availableAfter: nat,
    sequence: nat, note: Note)

  datatype Lease = Lease(offset: nat, deadline: nat, bucketTick: nat, owner: Text, token: Text)

  datatype Config = Config(
    maxInflight: nat, maxRetry: nat, visibility: nat, backoff: nat, schedulerTick: nat)

  // The scheduler tick in milliseconds, at least 1.
  function Tick(cfg: Config): (tick: nat)
    ensures tick >= 1
  {
    if cfg.schedulerTick >= 1 then cfg.schedulerTick else 1
  }

  const SLOTS := 512

  function EmptyWheel(): (w: seq<seq<Id>>)
    ensures |w| == SLOTS
  {
    seq(SLOTS, _ => [])
  }

  type Wheel = w: seq<seq<Id>> | |w| == SLOTS witness EmptyWheel()

  // A group in memory, together with the event file it appends to.
  datatype Group = Group(
    ready: seq<nat>,
    inflight: map<Id, Lease>,
    runtime: map<Id, Runtime>,
    wheel: Wheel,
    base: nat,
    next: nat,
    log: seq<Event>)

  // ---------------------------------------------------------------------------------------------
  // One transition
  // ---------------------------------------------------------------------------------------------

  function RuntimeAfter(r: Runtime, e: Event): Runtime {
    r.(state := e.state, retry := e.retry, availableAfter := e.availableAfter,
       lastTransition := e.timestamp, sequence := e.sequence, note := Because(e.reason))
  }

  function LeaseOf(tick: nat, e: Event, offset: nat): Lease
    requires tick >= 1
  {
    Lease(offset, e.deadline, e.deadline / tick, e.owner, e.token)
  }

  function Push(wheel: Wheel, tick: nat, id: Id): Wheel {
    wheel[tick % SLOTS := wheel[tick % SLOTS] + [id]]
  }

  // ScheduleInflight
  function Schedule(g: Group, id: Id, lease: Lease): Group {
    g.(wheel := Push(g.wheel, lease.bucketTick, id), inflight := g.inflight[id := lease])
  }

  // ApplyTransition
  function Apply(tick: nat, g: Group, e: Event): Group
    requires tick >= 1
  {
    if e.id !in g.runtime then g
    else
      var r := RuntimeAfter(g.runtime[e.id], e);
      var g1 := g.(runtime := g.runtime[e.id := r], inflight := g.inflight - {e.id});
      if e.state == InFlight then Schedule(g1, e.id, LeaseOf(tick, e, r.offset)) else g1
  }

  // AppendTransition: the event reaches the file and the memory, or, when the append fails, neither.
  // Which appends of an operation fail is given by the sequence numbers they carry.
  function Append(cfg: Config, g: Group, e: Event, fails: set<nat>): Group {
    if e.sequence in fails then g else Apply(Tick(cfg), g.(log := g.log + [e]), e)
  }

  // ---------------------------------------------------------------------------------------------
  // The log as a history
  // ---------------------------------------------------------------------------------------------

  // The last logged event of each message.
  function LastEvents(log: seq<Event>): (m: map<Id, Event>)
    ensures forall id :: id in m ==> m[id].id == id && m[id] in log
    ensures forall e :: e in log ==> e.id in m
  {
    if log == [] then map[] else LastEvents(log[..|log| - 1])[log[|log| - 1].id := log[|log| - 1]]
  }

  lemma {:induction false} LastEventsAppend(log: seq<Event>, e: Event)
    ensures LastEvents(log + [e]) == LastEvents(log)[e.id := e]
  {
    assert (log + [e])[..|log|] == log;
  }

  function InFlightIds(log: seq<Event>): set<Id> {
    var last := LastEvents(log);
    set id | id in last && last[id].state == InFlight
  }

  // The messages with an event at position since or later.
  function Touched(log: seq<Event>, since: nat): (ids: set<Id>)
    ensures ids <= LastEvents(log).Keys
  {
    if |log| <= since then {} else Touched(log[..|log| - 1], since) + {log[|log| - 1].id}
  }

  lemma {:induction false} TouchedAppend(log: seq<Event>, e: Event, since: nat)
    requires since <= |log|
    ensures Touched(log + [e], since) == Touched(log, since) + {e.id}
  {
    assert (log + [e])[..|log|] == log;
  }

  // Touched(log, since) holds exactly the messages of the events from position since on.
  lemma {:induction false} TouchedAt(log: seq<Event>, since: nat, k: nat)
    requires since <= k < |log|
    ensures log[k].id in Touched(log, since)
  {
    if k < |log| - 1 {
      TouchedAt(log[..|log| - 1], since, k);
    }
  }

  lemma {:induction false} TouchedWhere(log: seq<Event>, since: nat, id: Id) returns (k: nat)
    requires id in Touched(log, since)
    ensures since <= k < |log| && log[k].id == id
  {
    k := |log| - 1;
    if log[k].id != id {
      k := TouchedWhere(log[..k], since, id);
    }
  }

  ghost predicate Increasing(log: seq<Event>) {
    forall i, j :: 0 <= i < j < |log| ==> log[i].sequence < log[j].sequence
  }

  ghost predicate Below(log: seq<Event>, next: nat) {
    forall i :: 0 <= i < |log| ==> log[i].sequence < next
  }

  function Count(log: seq<Event>, id: Id): nat {
    if log == [] then 0 else
    var e := log[|log| - 1];
    Count(log[..|log| - 1], id) + (if e.id == id then 1 else 0)
  }

  function Deliveries(log: seq<Event>, id: Id): nat {
    if log == [] then 0 else
    var e := log[|log| - 1];
    Deliveries(log[..|log| - 1], id) + (if e.id == id && e.state == InFlight then 1 else 0)
  }

  lemma {:induction false} CountAppend(log: seq<Event>, e: Event, id: Id)
    ensures Count(log + [e], id) == Count(log, id) + (if e.id == id then 1 else 0)
    ensures Deliveries(log + [e], id) == Deliveries(log, id) + (if e.id == id && e.state == InFlight then 1 else 0)
  {
    assert (log + [e])[..|log|] == log;
  }

  // ---------------------------------------------------------------------------------------------
  // Memory as a function of the log
  // ---------------------------------------------------------------------------------------------

  // What a session of the group starts from: the messages found in the segment when the group was
  // loaded, the length of the log at that time, and the clock reading of the IN_FLIGHT-to-READY rewrite.
  datatype Session = Session(defaults: map<Id, Runtime>, since: nat, recoveredAt: nat)

  function DefaultRuntime(offset: nat, enqueued: nat): Runtime {
    Runtime(Ready, offset, 0, enqueued, enqueued, 0, 0, DefaultReady)
  }

  function Recovered(r: Runtime, now: nat): Runtime {
    if r.state == InFlight
    then r.(state := Ready, availableAfter := now, note := Because(RecoveredToReady), lastTransition := now)
    else r
  }

  // The runtime entry the whole log leaves behind, and the entry a session that loaded it holds now.
  function ReplayedRuntime(d: Runtime, log: seq<Event>, id: Id): Runtime {
    if id in LastEvents(log) then RuntimeAfter(d, LastEvents(log)[id]) else d
  }

  function LiveRuntime(s: Session, log: seq<Event>, id: Id): Runtime
    requires id in s.defaults
  {
    var r := ReplayedRuntime(s.defaults[id], log, id);
    if id in Touched(log, s.since) then r else Recovered(r, s.recoveredAt)
  }

  ghost predicate ProperDefaults(defaults: map<Id, Runtime>) {
    forall id :: id in defaults ==> defaults[id] == DefaultRuntime(defaults[id].offset, defaults[id].enqueued)
  }

  ghost predicate RuntimeInSync(s: Session, log: seq<Event>, runtime: map<Id, Runtime>) {
    && runtime.Keys == s.defaults.Keys
    && forall id :: id in runtime ==> runtime[id] == LiveRuntime(s, log, id)
  }

  // The leases are those of the messages whose last logged state is IN_FLIGHT, as their events say.
  ghost predicate LeasesInSync(tick: nat, s: Session, log: seq<Event>, inflight: map<Id, Lease>)
    requires tick >= 1
  {
    var last := LastEvents(log);
    && inflight.Keys == InFlightIds(log)
    && forall id :: id in inflight ==>
      id in s.defaults && id in last && inflight[id] == LeaseOf(tick, last[id], s.defaults[id].offset)
  }

  ghost predicate Sync(tick: nat, s: Session, g: Group)
    requires tick >= 1
  {
    && ProperDefaults(s.defaults)
    && s.since <= |g.log|
    && LastEvents(g.log).Keys <= s.defaults.Keys
    && RuntimeInSync(s, g.log, g.runtime)
    && LeasesInSync(tick, s, g.log, g.inflight)
  }

  lemma {:induction false} LiveRuntimeAppend(s: Session, log: seq<Event>, e: Event, id: Id)
    requires id in s.defaults && s.since <= |log|
    ensures LiveRuntime(s, log + [e], id)
      == if id == e.id then RuntimeAfter(LiveRuntime(s, log, id), e) else LiveRuntime(s, log, id)
  {
    hide LastEvents, Touched;
    LastEventsAppend(log, e);
    TouchedAppend(log, e, s.since);
  }

  lemma {:induction false} InFlightIdsAppend(log: seq<Event>, e: Event)
    ensures InFlightIds(log + [e])
      == if e.state == InFlight then InFlightIds(log) + {e.id} else InFlightIds(log) - {e.id}
  {
    hide LastEvents;
    LastEventsAppend(log, e);
  }

  lemma LiveRuntimeKeepsOffset(s: Session, log: seq<Event>, id: Id)
    requires id in s.defaults
    ensures LiveRuntime(s, log, id).offset == s.defaults[id].offset
    ensures LiveRuntime(s, log, id).enqueued == s.defaults[id].enqueued
  {
  }

  lemma {:induction false} RuntimeStaysInSync(s: Session, log: seq<Event>, runtime: map<Id, Runtime>, e: Event)
    requires s.since <= |log| && RuntimeInSync(s, log, runtime) && e.id in runtime
    ensures RuntimeInSync(s, log + [e], runtime[e.id := RuntimeAfter(runtime[e.id], e)])
  {
    hide LiveRuntime, RuntimeAfter;
    forall id | id in runtime
      ensures LiveRuntime(s, log + [e], id)
        == if id == e.id then RuntimeAfter(LiveRuntime(s, log, id), e) else LiveRuntime(s, log, id)
    {
      LiveRuntimeAppend(s, log, e, id);
    }
  }

  lemma {:induction false} LeasesStayInSync(tick: nat, s: Session, log: seq<Event>, inflight: map<Id, Lease>, e: Event)
    requires tick >= 1 && LeasesInSync(tick, s, log, inflight) && e.id in s.defaults
    ensures
      var inflight' :=
        if e.state == InFlight then inflight[e.id := LeaseOf(tick, e, s.defaults[e.id].offset)] else inflight - {e.id};
      LeasesInSync(tick, s, log + [e], inflight')
  {
    hide LastEvents, InFlightIds, LeaseOf;
    LastEventsAppend(log, e);
    InFlightIdsAppend(log, e);
  }

  lemma {:induction false} ApplyFields(tick: nat, g: Group, e: Event)
    requires tick >= 1 && e.id in g.runtime
    ensures Apply(tick, g, e).log == g.log && Apply(tick, g, e).next == g.next && Apply(tick, g, e).base == g.base
    ensures Apply(tick, g, e).ready == g.ready
    ensures Apply(tick, g, e).runtime == g.runtime[e.id := RuntimeAfter(g.runtime[e.id], e)]
    ensures Apply(tick, g, e).inflight ==
            if e.state == InFlight then g.inflight[e.id := LeaseOf(tick, e, g.runtime[e.id].offset)]
            else g.inflight - {e.id}
    ensures Apply(tick, g, e).wheel ==
            if e.state == InFlight then Push(g.wheel, e.deadline / tick, e.id) else g.wheel
  {
    hide Push;
    var lease := LeaseOf(tick, e, g.runtime[e.id].offset);
    assert (g.inflight - {e.id})[e.id := lease] == g.inflight[e.id := lease];
  }

  // Applying a logged event keeps memory the function of the log that it was.
  lemma {:induction false} ApplyKeepsSync(tick: nat, s: Session, g: Group, e: Event)
    requires tick >= 1 && Sync(tick, s, g) && e.id in g.runtime
    ensures Sync(tick, s, Apply(tick, g.(log := g.log + [e]), e))
  {
    assert g.runtime[e.id].offset == s.defaults[e.id].offset by {
      hide RuntimeAfter;
      LiveRuntimeKeepsOffset(s, g.log, e.id);
    }
    hide Apply, LastEvents, LiveRuntime, InFlightIds, Push, RuntimeAfter, LeaseOf, ProperDefaults;
    RuntimeStaysInSync(s, g.log, g.runtime, e);
    LeasesStayInSync(tick, s, g.log, g.inflight, e);
    LastEventsAppend(g.log, e);
    ApplyFields(tick, g.(log := g.log + [e]), e);
  }
}
