// Every state a run reaches, crashes and restarts included, satisfies the invariant; a restart rebuilds
// memory from the event log alone.
module Reachability {
  import opened Wrappers
  import opened Transitions
  import opened Tokens
  import opened Legality
  import opened Wheel
  import opened Operations

  // ---------------------------------------------------------------------------------------------
  // The operations of a loaded group
  // ---------------------------------------------------------------------------------------------

  lemma {:induction false} BuildReadyKeeps(cfg: Config, s: Session, g: Group, now: nat)
    requires Inv(cfg, s, g)
    ensures Inv(cfg, s, BuildReady(g, now)) && Evolves(cfg, g, BuildReady(g, now))
  {
    hide Inv, Evolves, Eligible;
    InvIdle(cfg, s, g, BuildReady(g, now));
    EvolvesIdle(cfg, g, BuildReady(g, now));
  }

  lemma {:induction false} ReapKeeps(cfg: Config, s: Session, g: Group, scanTime: nat, readyTime: nat, fails: set<nat>)
    requires Inv(cfg, s, g) && SaneRetryLimit(cfg)
    ensures Inv(cfg, s, Reap(cfg, g, scanTime, readyTime, fails))
    ensures Evolves(cfg, g, Reap(cfg, g, scanTime, readyTime, fails))
  {
    hide Inv, Evolves, Advance, BuildReady;
    var g1 := Advance(cfg, scanTime, g, fails);
    AdvanceKeeps(cfg, s, scanTime, g, fails);
    BuildReadyKeeps(cfg, s, g1, readyTime);
    EvolvesTransitive(cfg, g, g1, BuildReady(g1, readyTime));
  }

  // Transitions of an operation: the next sequence number is taken, then the event is appended.
  lemma {:induction false} LogKeeps(cfg: Config, s: Session, g: Group, e: Event, fails: set<nat>)
    requires Inv(cfg, s, g) && e.sequence == g.next && Legal(cfg, g.(next := g.next + 1), e)
    ensures Inv(cfg, s, Append(cfg, g.(next := g.next + 1), e, fails))
    ensures Evolves(cfg, g, Append(cfg, g.(next := g.next + 1), e, fails))
  {
    hide Inv, Evolves, Append, Legal;
    var g1 := g.(next := g.next + 1);
    InvIdle(cfg, s, g, g1);
    EvolvesIdle(cfg, g, g1);
    AppendKeeps(cfg, s, g1, e, fails);
    EvolvesTransitive(cfg, g, g1, Append(cfg, g1, e, fails));
  }

  lemma {:induction false} AckIsLegal(cfg: Config, s: Session, g: Group, id: Id, now: nat)
    requires Inv(cfg, s, g) && id in g.inflight && id in g.runtime
    ensures Legal(cfg, g.(next := g.next + 1), AckEvent(g.next, id, g.runtime[id].retry, now))
  {
    BelowNext(cfg, s, g);
    hide Inv, Below;
  }

  lemma {:induction false} AckKeeps(cfg: Config, s: Session, g: Group, id: Id, now: nat, fails: set<nat>)
    requires Inv(cfg, s, g)
    ensures Inv(cfg, s, Ack(cfg, g, id, now, fails).0) && Evolves(cfg, g, Ack(cfg, g, id, now, fails).0)
  {
    hide Inv, Evolves, Append, Legal;
    if id in g.inflight {
      LeasedIsLoaded(cfg, s, g, id);
      AckIsLegal(cfg, s, g, id, now);
      LogKeeps(cfg, s, g, AckEvent(g.next, id, g.runtime[id].retry, now), fails);
    } else {
      EvolvesIdle(cfg, g, g);
    }
  }

  lemma {:induction false} NackEventFacts(
    cfg: Config, sequence: nat, id: Id, retry: nat, requeue: bool, clock: NackClock)
    requires SaneRetryLimit(cfg) && retry <= cfg.maxRetry
    ensures
      var e := NackEvent(cfg, sequence, id, retry, requeue, clock);
      && e.sequence == sequence && e.id == id
      && (e.state == Dead || (e.state == Ready && e.retry == retry + 1 <= cfg.maxRetry))
  {
    BumpIsPlusOne(cfg, retry);
    hide Bump;
  }

  lemma {:induction false} NackIsLegal(cfg: Config, s: Session, g: Group, id: Id, requeue: bool, clock: NackClock)
    requires Inv(cfg, s, g) && SaneRetryLimit(cfg) && id in g.inflight && id in g.runtime
    ensures Legal(cfg, g.(next := g.next + 1), NackEvent(cfg, g.next, id, g.runtime[id].retry, requeue, clock))
  {
    hide Inv, Below, NackEvent, Token, SaneRetryLimit;
    RuntimeWithinBudget(cfg, s, g, id);
    BelowNext(cfg, s, g);
    NackEventFacts(cfg, g.next, id, g.runtime[id].retry, requeue, clock);
  }

  lemma {:induction false} NackKeeps(
    cfg: Config, s: Session, g: Group, id: Id, requeue: bool, clock: NackClock, fails: set<nat>)
    requires Inv(cfg, s, g) && SaneRetryLimit(cfg)
    ensures Inv(cfg, s, Nack(cfg, g, id, requeue, clock, fails).0)
    ensures Evolves(cfg, g, Nack(cfg, g, id, requeue, clock, fails).0)
  {
    hide Inv, Evolves, Append, Legal, NackEvent, BuildReady;
    if id in g.inflight {
      LeasedIsLoaded(cfg, s, g, id);
      NackIsLegal(cfg, s, g, id, requeue, clock);
      var e := NackEvent(cfg, g.next, id, g.runtime[id].retry, requeue, clock);
      var g1 := Append(cfg, g.(next := g.next + 1), e, fails);
      assert e.sequence == g.next by {
        NackSequence(cfg, g.next, id, g.runtime[id].retry, requeue, clock);
      }
      LogKeeps(cfg, s, g, e, fails);
      BuildReadyKeeps(cfg, s, g1, clock.ready);
      EvolvesTransitive(cfg, g, g1, BuildReady(g1, clock.ready));
    } else {
      EvolvesIdle(cfg, g, g);
    }
  }

  lemma NackSequence(cfg: Config, sequence: nat, id: Id, retry: nat, requeue: bool, clock: NackClock)
    ensures NackEvent(cfg, sequence, id, retry, requeue, clock).sequence == sequence
  {
  }

  // The offsets of the loaded messages are their positions in the segment.
  ghost predicate OffsetsInSegment(segment: seq<Message>, defaults: map<Id, Runtime>) {
    forall id :: id in defaults ==>
      && defaults[id].offset < |segment|
      && segment[defaults[id].offset].id == id
      && segment[defaults[id].offset].enqueued == defaults[id].enqueued
  }

  lemma {:induction false} ReadyIsLoaded(
    cfg: Config, s: Session, segment: seq<Message>, g: Group, now: nat, offset: nat)
    requires Inv(cfg, s, g) && OffsetsInSegment(segment, s.defaults)
    requires offset in BuildReady(g, now).ready
    ensures offset < |segment| && segment[offset].id in g.runtime
    ensures var r := g.runtime[segment[offset].id]; r.offset == offset && r.state == Ready && r.availableAfter <= now
  {
    assert offset in Eligible(g.runtime, now);
    var id :| id in g.runtime && g.runtime[id].state == Ready
      && g.runtime[id].availableAfter <= now && g.runtime[id].offset == offset;
    RuntimeWithinBudget(cfg, s, g, id);
    LoadedHasDefault(cfg, s, g, id);
    hide Inv;
  }

  lemma {:induction false} LoadedHasDefault(cfg: Config, s: Session, g: Group, id: Id)
    requires Inv(cfg, s, g)
    ensures id in g.runtime <==> id in s.defaults
  {
    hide LastEvents, LiveRuntime, LeasesInSync, History, ProperDefaults;
  }

  // What a reap offers for delivery: loaded messages, READY and visible.
  lemma {:induction false} ReapOffers(
    cfg: Config, s: Session, segment: seq<Message>, g: Group, scanTime: nat, readyTime: nat, fails: set<nat>,
    offset: nat)
    requires Inv(cfg, s, g) && SaneRetryLimit(cfg) && OffsetsInSegment(segment, s.defaults)
    requires offset in Reap(cfg, g, scanTime, readyTime, fails).ready
    ensures offset < |segment| && segment[offset].id in Reap(cfg, g, scanTime, readyTime, fails).runtime
    ensures
      var r := Reap(cfg, g, scanTime, readyTime, fails).runtime[segment[offset].id];
      r.offset == offset && r.state == Ready && r.availableAfter <= readyTime
  {
    hide Inv, Advance, Eligible, OffsetsInSegment;
    AdvanceKeeps(cfg, s, scanTime, g, fails);
    ReadyIsLoaded(cfg, s, segment, Advance(cfg, scanTime, g, fails), readyTime, offset);
  }

  lemma OneMore(ids: set<Id>, id: Id)
    ensures |ids + {id}| <= |ids| + 1
  {
  }

  lemma {:induction false} DeliveryEventFacts(cfg: Config, owner: Text, sequence: nat, id: Id, retry: nat, now: nat)
    ensures
      var e := DeliveryEvent(cfg, owner, sequence, id, retry, now);
      e.sequence == sequence && e.id == id && e.state == InFlight && e.retry == retry && ProperLease(cfg, e)
  {
    hide Token;
  }

  lemma {:induction false} DeliveryIsLegal(cfg: Config, owner: Text, s: Session, g: Group, id: Id, now: nat)
    requires Inv(cfg, s, g) && id in g.runtime && g.runtime[id].state == Ready
    requires |g.inflight.Keys| < cfg.maxInflight
    ensures Legal(cfg, g.(next := g.next + 1), DeliveryEvent(cfg, owner, g.next, id, g.runtime[id].retry, now))
  {
    hide Inv, Below, DeliveryEvent, ProperLease;
    BelowNext(cfg, s, g);
    OneMore(g.inflight.Keys, id);
    DeliveryEventFacts(cfg, owner, g.next, id, g.runtime[id].retry, now);
  }

  lemma {:induction false} DeliverKeeps(
    cfg: Config, owner: Text, s: Session, g: Group, offset: nat, m: Message, clock: ConsumeClock, fails: set<nat>)
    requires Inv(cfg, s, g) && m.id in g.runtime && g.runtime[m.id].state == Ready
    requires |g.inflight.Keys| < cfg.maxInflight
    ensures Inv(cfg, s, Deliver(cfg, owner, g, offset, m, clock, fails).0)
    ensures Evolves(cfg, g, Deliver(cfg, owner, g, offset, m, clock, fails).0)
  {
    hide Inv, Evolves, Append, Legal, DeliveryEvent, Bump;
    DeliveryEventFacts(cfg, owner, g.next, m.id, g.runtime[m.id].retry, clock.lease);
    DeliveryIsLegal(cfg, owner, s, g, m.id, clock.lease);
    LogKeeps(cfg, s, g, DeliveryEvent(cfg, owner, g.next, m.id, g.runtime[m.id].retry, clock.lease), fails);
  }

  lemma {:induction false} ConsumeKeeps(
    cfg: Config, owner: Text, s: Session, segment: seq<Message>, g: Group, clock: ConsumeClock, fails: set<nat>,
    readable: bool)
    requires Inv(cfg, s, g) && SaneRetryLimit(cfg) && OffsetsInSegment(segment, s.defaults)
    ensures Inv(cfg, s, Consume(cfg, owner, segment, g, clock, fails, readable).0)
    ensures Evolves(cfg, g, Consume(cfg, owner, segment, g, clock, fails, readable).0)
  {
    hide Inv, Evolves, Reap, Deliver, OffsetsInSegment;
    var g1 := Reap(cfg, g, clock.scan, clock.ready, fails);
    ReapKeeps(cfg, s, g, clock.scan, clock.ready, fails);
    if |g1.inflight.Keys| < cfg.maxInflight && g1.ready != [] {
      var offset := g1.ready[0];
      var g2 := g1.(ready := g1.ready[1..]);
      InvIdle(cfg, s, g1, g2);
      EvolvesIdle(cfg, g1, g2);
      EvolvesTransitive(cfg, g, g1, g2);
      if readable && offset < |segment| {
        ReapOffers(cfg, s, segment, g, clock.scan, clock.ready, fails, offset);
        DeliverKeeps(cfg, owner, s, g2, offset, segment[offset], clock, fails);
        EvolvesTransitive(cfg, g, g2, Deliver(cfg, owner, g2, offset, segment[offset], clock, fails).0);
      }
    }
  }

  // ---------------------------------------------------------------------------------------------
  // Loading a group
  // ---------------------------------------------------------------------------------------------

  lemma {:induction false} DefaultsFacts(segment: seq<Message>)
    ensures ProperDefaults(Defaults(segment)) && OffsetsInSegment(segment, Defaults(segment))
    ensures forall k :: 0 <= k < |segment| ==> segment[k].id in Defaults(segment)
  {
    if segment != [] {
      var n := |segment| - 1;
      var before := Defaults(segment[..n]);
      DefaultsFacts(segment[..n]);
      forall k | 0 <= k < |segment|
        ensures segment[k].id in Defaults(segment)
      {
        if k < n {
          assert segment[..n][k].id in before;
        }
      }
    }
  }

  // What a snapshot may hold of the loaded messages: where they are, and, for a message without a logged
  // event, what it started with.
  ghost predicate SnapshotFits(defaults: map<Id, Runtime>, log: seq<Event>, snapshot: Option<Snapshot>) {
    snapshot.Some? ==>
      var items := snapshot.value.items;
      && items.Keys <= defaults.Keys
      && forall id :: id in items ==>
        && items[id].offset == defaults[id].offset && items[id].enqueued == defaults[id].enqueued
        && (id in LastEvents(log) || items[id] == defaults[id])
  }

  // The runtime entries part of the way through the replay of a log: the events done so far decide the
  // entries of their messages, and the others may still hold what a snapshot said.
  ghost predicate ReplayedSoFar(
    defaults: map<Id, Runtime>, done: seq<Event>, log: seq<Event>, runtime: map<Id, Runtime>)
  {
    && runtime.Keys == defaults.Keys
    && forall id :: id in runtime ==>
      && runtime[id].offset == defaults[id].offset && runtime[id].enqueued == defaults[id].enqueued
      && (id in LastEvents(done) ==> runtime[id] == RuntimeAfter(defaults[id], LastEvents(done)[id]))
      && (id !in LastEvents(log) ==> runtime[id] == defaults[id])
  }

  lemma {:induction false} ReplayedOneMore(
    defaults: map<Id, Runtime>, done: seq<Event>, log: seq<Event>, runtime: map<Id, Runtime>, e: Event)
    requires ReplayedSoFar(defaults, done, log, runtime) && e.id in runtime && e in log
    ensures ReplayedSoFar(defaults, done + [e], log, runtime[e.id := RuntimeAfter(runtime[e.id], e)])
  {
    hide LastEvents;
    LastEventsAppend(done, e);
  }

  lemma {:induction false} ReplayTracksLog(
    tick: nat, s: Session, g: Group, done: seq<Event>, rest: seq<Event>)
    requires tick >= 1 && LastEvents(done + rest).Keys <= s.defaults.Keys
    requires ReplayedSoFar(s.defaults, done, done + rest, g.runtime)
    requires LeasesInSync(tick, s, done, g.inflight)
    ensures ReplayedSoFar(s.defaults, done + rest, done + rest, Replay(tick, g, rest).runtime)
    ensures LeasesInSync(tick, s, done + rest, Replay(tick, g, rest).inflight)
    ensures Replay(tick, g, rest).base == g.base && Replay(tick, g, rest).next == g.next
    decreases |rest|
  {
    hide LastEvents, InFlightIds, LeasesInSync, ReplayedSoFar, Apply, LeaseOf, RuntimeAfter;
    if rest == [] {
      assert done + rest == done;
    } else {
      var e := rest[0];
      assert done + rest == (done + [e]) + rest[1..];
      assert e in done + rest;
      assert e.id in s.defaults;
      assert g.runtime.Keys == s.defaults.Keys && g.runtime[e.id].offset == s.defaults[e.id].offset by {
        EntryOffset(s.defaults, done, done + rest, g.runtime, e.id);
      }
      ApplyFields(tick, g, e);
      ReplayedOneMore(s.defaults, done, done + rest, g.runtime, e);
      LeasesStayInSync(tick, s, done, g.inflight, e);
      ReplayTracksLog(tick, s, Apply(tick, g, e), done + [e], rest[1..]);
    }
  }

  lemma EntryOffset(defaults: map<Id, Runtime>, done: seq<Event>, log: seq<Event>, runtime: map<Id, Runtime>, id: Id)
    requires ReplayedSoFar(defaults, done, log, runtime) && id in defaults
    ensures runtime.Keys == defaults.Keys && runtime[id].offset == defaults[id].offset
  {
  }

  lemma {:induction false} OverlayFits(
    defaults: map<Id, Runtime>, log: seq<Event>, snapshot: Option<Snapshot>, runtime: map<Id, Runtime>)
    requires SnapshotFits(defaults, log, snapshot)
    requires runtime == if snapshot.Some? then Overlay(defaults, snapshot.value.items) else defaults
    ensures ReplayedSoFar(defaults, [], log, runtime)
  {
    hide RuntimeAfter;
  }

  // The runtime entries that the whole log leaves behind, without the rewrite of a restart.
  ghost function ReplayedMap(defaults: map<Id, Runtime>, log: seq<Event>): map<Id, Runtime> {
    map id | id in defaults :: ReplayedRuntime(defaults[id], log, id)
  }

  // The heart of recovery: whatever snapshot was there, the runtime table is the replay of the whole log
  // followed by the rewrite, and the leases are those of the messages last logged IN_FLIGHT.
  lemma {:induction false} LoadIsReplay(
    cfg: Config, segment: seq<Message>, snapshot: Option<Snapshot>, log: seq<Event>, clock: LoadClock)
    requires LastEvents(log).Keys <= Defaults(segment).Keys && SnapshotFits(Defaults(segment), log, snapshot)
    ensures Load(cfg, segment, snapshot, log, clock).runtime
      == RewriteInFlight(ReplayedMap(Defaults(segment), log), clock.rewrite)
    ensures LeasesInSync(
      Tick(cfg), Session(Defaults(segment), |log|, clock.rewrite), log,
      Load(cfg, segment, snapshot, log, clock).inflight)
    ensures Load(cfg, segment, snapshot, log, clock).base == clock.base / Tick(cfg)
    ensures Load(cfg, segment, snapshot, log, clock).log == log
  {
    hide Defaults, LastEvents, Replay, Overlay, SnapshotFits, ReplayedSoFar, Eligible, Tick, NextAfter;
    var s := Session(Defaults(segment), |log|, clock.rewrite);
    var g0 := FreshGroup(cfg, segment, snapshot, clock.base);
    OverlayFits(s.defaults, log, snapshot, g0.runtime);
    NoLeasesYet(Tick(cfg), s, g0);
    hide LeasesInSync;
    assert [] + log == log;
    ReplayTracksLog(Tick(cfg), s, g0, [], log);
    ReplayDone(s.defaults, log, Replay(Tick(cfg), g0, log).runtime);
  }

  lemma NoLeasesYet(tick: nat, s: Session, g: Group)
    requires tick >= 1 && g.inflight == map[]
    ensures LeasesInSync(tick, s, [], g.inflight)
  {
  }

  lemma {:induction false} ReplayDone(defaults: map<Id, Runtime>, log: seq<Event>, runtime: map<Id, Runtime>)
    requires ReplayedSoFar(defaults, log, log, runtime)
    ensures runtime == ReplayedMap(defaults, log)
  {
    hide LastEvents, RuntimeAfter;
  }

  // Two loads of the same files with different snapshots differ at most in the sequence counter.
  lemma {:induction false} SnapshotIrrelevant(
    cfg: Config, segment: seq<Message>, a: Option<Snapshot>, b: Option<Snapshot>, log: seq<Event>, clock: LoadClock)
    requires LastEvents(log).Keys <= Defaults(segment).Keys
    requires SnapshotFits(Defaults(segment), log, a) && SnapshotFits(Defaults(segment), log, b)
    ensures Load(cfg, segment, a, log, clock)
      == Load(cfg, segment, b, log, clock).(next := Load(cfg, segment, a, log, clock).next)
  {
    LoadIsReplay(cfg, segment, a, log, clock);
    LoadIsReplay(cfg, segment, b, log, clock);
    var ga, gb := Load(cfg, segment, a, log, clock), Load(cfg, segment, b, log, clock);
    assert ga.inflight == gb.inflight by {
      LeasesDetermined(Tick(cfg), Session(Defaults(segment), |log|, clock.rewrite), log, ga.inflight, gb.inflight);
    }
    hide Defaults, LastEvents, SnapshotFits, Replay, Eligible;
    hide NextAfter, LeasesInSync, RewriteInFlight, ReplayedMap, Tick;
    var fa, fb := FreshGroup(cfg, segment, a, clock.base), FreshGroup(cfg, segment, b, clock.base);
    assert fa.runtime.Keys == fb.runtime.Keys;
    ReplayWheelDetermined(Tick(cfg), fa, fb, log);
  }

  lemma {:induction false} LeasesDetermined(
    tick: nat, s: Session, log: seq<Event>, a: map<Id, Lease>, b: map<Id, Lease>)
    requires tick >= 1 && LeasesInSync(tick, s, log, a) && LeasesInSync(tick, s, log, b)
    ensures a == b
  {
    hide LastEvents, InFlightIds;
  }

  lemma {:induction false} ReplayWheelDetermined(tick: nat, a: Group, b: Group, events: seq<Event>)
    requires tick >= 1 && a.runtime.Keys == b.runtime.Keys && a.wheel == b.wheel && a.base == b.base
    ensures Replay(tick, a, events).wheel == Replay(tick, b, events).wheel
    ensures Replay(tick, a, events).base == Replay(tick, b, events).base
    decreases |events|
  {
    if events != [] {
      var e := events[0];
      if e.id in a.runtime {
        ApplyFields(tick, a, e);
        ApplyFields(tick, b, e);
      }
      hide Apply, Push, RuntimeAfter, LeaseOf;
      ReplayWheelDetermined(tick, Apply(tick, a, e), Apply(tick, b, e), events[1..]);
    }
  }

  lemma {:induction false} NextAfterIsAbove(next: nat, events: seq<Event>)
    ensures NextAfter(next, events) >= next && Below(events, NextAfter(next, events))
    decreases |events|
  {
    if events != [] {
      var n := if next >= events[0].sequence + 1 then next else events[0].sequence + 1;
      NextAfterIsAbove(n, events[1..]);
      forall i | 0 <= i < |events|
        ensures events[i].sequence < NextAfter(next, events)
      {
        if i > 0 {
          assert events[1..][i - 1].sequence < NextAfter(n, events[1..]);
        }
      }
    }
  }

  lemma {:induction false} LoadedRuntimeInSync(s: Session, log: seq<Event>, runtime: map<Id, Runtime>)
    requires s.since == |log| && runtime == RewriteInFlight(ReplayedMap(s.defaults, log), s.recoveredAt)
    ensures RuntimeInSync(s, log, runtime)
  {
    hide LastEvents, ReplayedRuntime;
    assert Touched(log, |log|) == {};
  }

  lemma {:induction false} LoadKeeps(
    cfg: Config, segment: seq<Message>, snapshot: Option<Snapshot>, log: seq<Event>, clock: LoadClock)
    requires History(cfg, log)
    requires LastEvents(log).Keys <= Defaults(segment).Keys && SnapshotFits(Defaults(segment), log, snapshot)
    ensures Inv(cfg, Session(Defaults(segment), |log|, clock.rewrite), Load(cfg, segment, snapshot, log, clock))
  {
    var s := Session(Defaults(segment), |log|, clock.rewrite);
    var g := Load(cfg, segment, snapshot, log, clock);
    LoadIsReplay(cfg, segment, snapshot, log, clock);
    assert ProperDefaults(s.defaults) by {
      DefaultsFacts(segment);
    }
    assert Below(g.log, g.next) by {
      NextAfterIsAbove(FreshGroup(cfg, segment, snapshot, clock.base).next, log);
    }
    hide Defaults, LastEvents, Load, RewriteInFlight, ReplayedMap, History;
    hide LeasesInSync, RuntimeInSync, ProperDefaults, Below, SnapshotFits;
    LoadedRuntimeInSync(s, log, g.runtime);
  }
}
