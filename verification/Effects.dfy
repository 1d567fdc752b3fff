// What each operation does, field by field: the answer, the event it logs, the entry and the lease it leaves, and
// when the message is visible again.
module Effects {
  import opened Wrappers
  import opened Transitions
  import opened Legality
  import opened Wheel
  import opened Operations
  import opened Reachability
  import opened Runs
  import opened Delivery

  // One transition that ends a lease: one event under the next sequence number, the entry as it says, the lease
  // gone, and everything else as it was.
  ghost predicate Ends(
    g: Group, g': Group, id: Id, state: State, retry: nat, availableAfter: nat, now: nat, why: Reason)
  {
    && id in g.runtime
    && var r := g.runtime[id];
    && g'.log == g.log + [Event(g.next, id, state, retry, availableAfter, now, 0, [], [], why)]
    && g'.runtime
       == g.runtime[id := Runtime(state, r.offset, retry, r.enqueued, now, availableAfter, g.next, Because(why))]
    && g'.inflight == g.inflight - {id} && g'.next == g.next + 1
    && g'.wheel == g.wheel && g'.base == g.base
  }

  // The world around a group that an operation left: the snapshot is the new one if it was written.
  ghost predicate Around(w: World, w': World, persisted: bool)
    requires w.Up?
  {
    && w'.Up? && w'.segment == w.segment && w'.sealed == w.sealed && w'.session == w.session
    && w'.snapshot == if persisted then Some(Snapshot(w'.group.next, w'.group.runtime)) else w.snapshot
  }

  lemma {:induction false} EndsByEvent(
    cfg: Config, g: Group, id: Id, state: State, retry: nat, availableAfter: nat, now: nat, why: Reason,
    fails: set<nat>)
    requires id in g.runtime && state != InFlight
    ensures
      var e := Event(g.next, id, state, retry, availableAfter, now, 0, [], [], why);
      var g' := Append(cfg, g.(next := g.next + 1), e, fails);
      && g'.ready == g.ready
      && if g.next in fails then g' == g.(next := g.next + 1)
         else Ends(g, g', id, state, retry, availableAfter, now, why)
  {
    hide Apply, Tick;
    var e := Event(g.next, id, state, retry, availableAfter, now, 0, [], [], why);
    ApplyFields(Tick(cfg), g.(next := g.next + 1, log := g.log + [e]), e);
  }

  // ---------------------------------------------------------------------------------------------
  // Acknowledging
  // ---------------------------------------------------------------------------------------------

  lemma {:induction false} AckEnds(cfg: Config, g: Group, id: Id, now: nat, fails: set<nat>)
    requires id in g.inflight && id in g.runtime
    ensures
      var (g', outcome) := Ack(cfg, g, id, now, fails);
      && g'.ready == g.ready
      && if g.next in fails then outcome == Failed && g' == g.(next := g.next + 1)
         else outcome == Done && Ends(g, g', id, Acked, g.runtime[id].retry, 0, now, AckedByConsumer)
  {
    hide Append, Ends;
    EndsByEvent(cfg, g, id, Acked, g.runtime[id].retry, 0, now, AckedByConsumer, fails);
  }

  lemma {:induction false} SettleEffect(w: World, g: Group, result: Outcome, persists: bool)
    requires w.Up?
    ensures
      var (w', outcome) := Settle(w, (g, result), persists);
      var logged := result.Done? || result.Delivery?;
      && Around(w, w', logged && persists) && w'.group == g
      && outcome == if logged && !persists then Failed else result
  {
  }

  // The consumer is told that the message is acknowledged if and only if it was leased, its ACKED event is logged
  // and the snapshot written. A call that cannot log the event changes nothing but the sequence counter.
  lemma {:induction false} AckEffect(
    cfg: Config, owner: Text, w: World, id: Id, now: nat, fails: set<nat>, persists: bool)
    requires WorldInv(cfg, w) && w.Up?
    ensures
      var (w', outcome) := Step(cfg, owner, w, AckOne(id, now, fails, persists));
      var leased := id in w.group.inflight;
      var logged := leased && w.group.next !in fails;
      && outcome == (if !leased then NotFound else if logged && persists then Done else Failed)
      && Around(w, w', logged && persists) && w'.group.ready == w.group.ready
      && if !leased then w'.group == w.group
         else if !logged then w'.group == w.group.(next := w.group.next + 1)
         else
           && id in w.group.runtime
           && Ends(w.group, w'.group, id, Acked, w.group.runtime[id].retry, 0, now, AckedByConsumer)
  {
    hide WorldInv, Append, AckEvent, Ends, Settle, Around, Step;
    StepCases(cfg, owner, w, AckOne(id, now, fails, persists));
    var result := Ack(cfg, w.group, id, now, fails);
    if id in w.group.inflight {
      InvOfWorld(cfg, w);
      LeasedIsLoaded(cfg, w.session, w.group, id);
      AckEnds(cfg, w.group, id, now, fails);
    }
    hide Ack;
    SettleEffect(w, result.0, result.1, persists);
  }

  // ---------------------------------------------------------------------------------------------
  // Rejecting
  // ---------------------------------------------------------------------------------------------

  // A rejection without requeue makes the message DEAD with the retry count it had. One with requeue makes it
  // READY again with one retry more, visible a backoff later, unless its retries are used up: then it is DEAD.
  // The ready list is built anew.
  ghost predicate Rejected(cfg: Config, g: Group, g': Group, id: Id, requeue: bool, clock: NackClock) {
    && id in g.runtime && g.runtime[id].retry <= cfg.maxRetry && OffersAt(g', clock.ready)
    && var retry := g.runtime[id].retry;
    if !requeue then Ends(g, g', id, Dead, retry, 0, clock.transition, NackDead)
    else if retry == cfg.maxRetry then Ends(g, g', id, Dead, retry + 1, 0, clock.transition, NackDead)
    else Ends(g, g', id, Ready, retry + 1, clock.visible + cfg.backoff, clock.transition, NackRequeued)
  }

  lemma {:induction false} NackEffect(
    cfg: Config, owner: Text, w: World, id: Id, requeue: bool, clock: NackClock, fails: set<nat>, persists: bool)
    requires WorldInv(cfg, w) && SaneRetryLimit(cfg) && w.Up?
    ensures
      var (w', outcome) := Step(cfg, owner, w, NackOne(id, requeue, clock, fails, persists));
      var leased := id in w.group.inflight;
      var logged := leased && w.group.next !in fails;
      && outcome == (if !leased then NotFound else if logged && persists then Done else Failed)
      && Around(w, w', logged && persists)
      && if !leased then w'.group == w.group
         else if !logged then w'.group == w.group.(next := w.group.next + 1)
         else Rejected(cfg, w.group, w'.group, id, requeue, clock)
  {
    hide WorldInv, Append, Settle, Around, BuildReady, SaneRetryLimit, Rejected, Bump, Step;
    StepCases(cfg, owner, w, NackOne(id, requeue, clock, fails, persists));
    var result := Nack(cfg, w.group, id, requeue, clock, fails);
    if id in w.group.inflight {
      InvOfWorld(cfg, w);
      LeasedIsLive(cfg, w.session, w.group, id);
      NackEnds(cfg, w.group, id, requeue, clock, fails);
    }
    hide Nack;
    SettleEffect(w, result.0, result.1, persists);
  }

  lemma {:induction false} LeasedIsLive(cfg: Config, s: Session, g: Group, id: Id)
    requires Inv(cfg, s, g) && id in g.inflight
    ensures id in g.runtime && Live(g.runtime[id].state) && g.runtime[id].retry <= cfg.maxRetry
  {
    LeasedIsLoaded(cfg, s, g, id);
    RuntimeWithinBudget(cfg, s, g, id);
    hide Inv;
  }

  lemma {:induction false} NackEnds(
    cfg: Config, g: Group, id: Id, requeue: bool, clock: NackClock, fails: set<nat>)
    requires SaneRetryLimit(cfg) && id in g.inflight && id in g.runtime && g.runtime[id].retry <= cfg.maxRetry
    ensures
      var (g', outcome) := Nack(cfg, g, id, requeue, clock, fails);
      if g.next in fails then outcome == Failed && g' == g.(next := g.next + 1)
      else outcome == Done && Rejected(cfg, g, g', id, requeue, clock)
  {
    hide Append, Bump, Eligible, Ascending, OffersAt;
    var retry := g.runtime[id].retry;
    BumpIsPlusOne(cfg, retry);
    var e := NackEvent(cfg, g.next, id, retry, requeue, clock);
    EndsByEvent(cfg, g, id, e.state, e.retry, e.availableAfter, e.timestamp, e.reason, fails);
    BuildReadyOffers(Append(cfg, g.(next := g.next + 1), e, fails), clock.ready);
  }

  // ---------------------------------------------------------------------------------------------
  // Timing out
  // ---------------------------------------------------------------------------------------------

  // A reap ends only leases that are due. A message whose lease it ends is READY again with one retry more and
  // visible a backoff after the reap, unless its retries are used up: then it is DEAD. It leaves every other
  // message alone.
  lemma {:induction false} TimeoutEffect(
    cfg: Config, s: Session, g: Group, scanTime: nat, readyTime: nat, fails: set<nat>, id: Id)
    requires Inv(cfg, s, g) && SaneRetryLimit(cfg) && id in g.runtime
    ensures
      var g' := Reap(cfg, g, scanTime, readyTime, fails);
      var r := g.runtime[id];
      && OffersAt(g', readyTime) && id in g'.runtime
      && (id in g'.inflight ==> id in g.inflight && g'.inflight[id] == g.inflight[id])
      && var at := g'.runtime[id].sequence;
      if id in g.inflight && id !in g'.inflight
      then
        && g.inflight[id].deadline <= scanTime
        && LoggedLast(g', id)
        && g'.runtime[id]
           == if r.retry == cfg.maxRetry
              then Runtime(Dead, r.offset, r.retry + 1, r.enqueued, scanTime, 0, at, Because(TimeoutDead))
              else Runtime(Ready, r.offset, r.retry + 1, r.enqueued, scanTime, scanTime + cfg.backoff, at,
                           Because(TimeoutRequeued))
      else g'.runtime[id] == r
  {
    hide Inv, Advance, SaneRetryLimit, OffersAt, Eligible, Ascending, LoggedLast;
    var g1 := Advance(cfg, scanTime, g, fails);
    AdvanceReaps(cfg, s, scanTime, g, fails);
    AdvanceKeeps(cfg, s, scanTime, g, fails);
    assert LeaseReaped(cfg, scanTime, g, g1, id);
    BuildReadyOffers(g1, readyTime);
    if id in g.inflight && id !in g1.inflight {
      LeasedIsLive(cfg, s, g, id);
      BumpIsPlusOne(cfg, g.runtime[id].retry);
      EntryIsLogged(cfg, s, g1, id);
      SameLoggedLast(g1, BuildReady(g1, readyTime), id);
    }
  }

  // The entry is what the last logged event of its message says.
  ghost predicate LoggedLast(g: Group, id: Id)
    requires id in g.runtime
  {
    && id in LastEvents(g.log)
    && var e := LastEvents(g.log)[id];
    && var r := g.runtime[id];
    && r.state == e.state && r.retry == e.retry && r.lastTransition == e.timestamp
    && r.availableAfter == e.availableAfter && r.sequence == e.sequence && r.note == Because(e.reason)
  }

  lemma SameLoggedLast(g: Group, g': Group, id: Id)
    requires id in g.runtime && LoggedLast(g, id) && g'.log == g.log && g'.runtime == g.runtime
    ensures LoggedLast(g', id)
  {
  }

  lemma {:induction false} EntryIsLogged(cfg: Config, s: Session, g: Group, id: Id)
    requires Inv(cfg, s, g) && id in g.runtime
    requires g.runtime[id].note != DefaultReady && g.runtime[id].note != Because(RecoveredToReady)
    ensures LoggedLast(g, id)
  {
    hide LastEvents, Touched, History, LeasesInSync;
    LiveEntry(cfg, s, g, id);
  }

  lemma {:induction false} LiveEntry(cfg: Config, s: Session, g: Group, id: Id)
    requires Inv(cfg, s, g) && id in g.runtime
    ensures id in s.defaults && g.runtime[id] == LiveRuntime(s, g.log, id)
    ensures s.defaults[id] == DefaultRuntime(s.defaults[id].offset, s.defaults[id].enqueued)
  {
    hide LastEvents, History, LeasesInSync, LiveRuntime;
  }

  // ---------------------------------------------------------------------------------------------
  // Consuming
  // ---------------------------------------------------------------------------------------------

  // The consumer is given the message if and only if its delivery is logged and the snapshot written.
  lemma {:induction false} ConsumeAnswers(
    cfg: Config, owner: Text, w: World, clock: ConsumeClock, readable: bool, fails: set<nat>, persists: bool)
    requires WorldInv(cfg, w) && SaneRetryLimit(cfg) && w.Up?
    ensures
      var (w', outcome) := Step(cfg, owner, w, ConsumeNext(clock, readable, fails, persists));
      var before := Reap(cfg, w.group, clock.scan, clock.ready, fails);
      var none := forall id :: id in before.runtime ==> !Visible(before.runtime[id], clock.ready);
      var nothing := |before.inflight.Keys| >= cfg.maxInflight || none;
      var logged := !nothing && readable && before.next !in fails;
      && (outcome.Nothing? <==> nothing) && (outcome.Delivery? <==> logged && persists)
      && (outcome.Failed? <==> !nothing && !(logged && persists))
      && Around(w, w', logged && persists)
      && (!logged ==> w'.group == before.(ready := w'.group.ready, next := w'.group.next))
      && (logged ==> exists id :: DeliveredAs(cfg, owner, before, w'.group, id, clock.lease))
  {
    hide WorldInv, Consume, Reap, DeliveredAs, Settle, Around, Step, SaneRetryLimit, OffersAt;
    StepCases(cfg, owner, w, ConsumeNext(clock, readable, fails, persists));
    ConsumeDelivers(cfg, owner, w, clock, fails, readable);
    var result := Consume(cfg, owner, w.segment, w.group, clock, fails, readable);
    SettleEffect(w, result.0, result.1, persists);
  }

  // A message the table does not know, whatever the group: it gets an entry, READY without retries, and is delivered
  // from there; if the delivery cannot be logged the entry stays.
  lemma {:induction false} UnknownDelivered(
    cfg: Config, owner: Text, g: Group, offset: nat, m: Message, clock: ConsumeClock, fails: set<nat>)
    requires m.id !in g.runtime
    ensures
      var (after, outcome) := Deliver(cfg, owner, g, offset, m, clock, fails);
      var entry := Runtime(Ready, offset, 0, m.enqueued, clock.create, 0, 0, CreatedOnConsume);
      var known := g.(runtime := g.runtime[m.id := entry]);
      if g.next in fails then outcome == Failed && after == known.(next := g.next + 1)
      else outcome == Delivery(m.id, offset, 1) && DeliveredAs(cfg, owner, known, after, m.id, clock.lease)
  {
    hide Apply, Tick, Push, DeliveredAs;
    var entry := Runtime(Ready, offset, 0, m.enqueued, clock.create, 0, 0, CreatedOnConsume);
    DeliveredState(cfg, owner, g.(runtime := g.runtime[m.id := entry]), g.(runtime := g.runtime[m.id := entry]), m.id,
      clock.lease);
  }

  // ---------------------------------------------------------------------------------------------
  // Restarting
  // ---------------------------------------------------------------------------------------------

  // The entry a group that is opened holds of the message at an offset: READY from the start if nothing was logged
  // of it; READY and visible from the time of the opening on if it was IN_FLIGHT; and otherwise as its last
  // event says, so that a backoff outlasts the restart.
  ghost predicate Restored(log: seq<Event>, m: Message, offset: nat, r: Runtime, now: nat) {
    if m.id !in LastEvents(log)
    then r == Runtime(Ready, offset, 0, m.enqueued, m.enqueued, 0, 0, DefaultReady)
    else
      var e := LastEvents(log)[m.id];
      if e.state == InFlight
      then r == Runtime(Ready, offset, e.retry, m.enqueued, now, now, e.sequence, Because(RecoveredToReady))
      else
        r == Runtime(
          e.state, offset, e.retry, m.enqueued, e.timestamp, e.availableAfter, e.sequence, Because(e.reason))
  }

  // The lease it holds: that of its last event if that is a delivery, even though the message is READY.
  ghost predicate LeaseRestored(cfg: Config, log: seq<Event>, m: Message, offset: nat, inflight: map<Id, Lease>) {
    if m.id in LastEvents(log) && LastEvents(log)[m.id].state == InFlight
    then
      var e := LastEvents(log)[m.id];
      m.id in inflight && inflight[m.id] == Lease(offset, e.deadline, e.deadline / Tick(cfg), e.owner, e.token)
    else m.id !in inflight
  }

  lemma {:induction false} RestartEffect(cfg: Config, owner: Text, w: World, clock: LoadClock, offset: nat)
    requires WorldInv(cfg, w) && w.Down? && offset < |w.segment|
    ensures
      var (w', outcome) := Step(cfg, owner, w, OpenGroup(clock));
      var m := w.segment[offset];
      && w'.Up? && outcome == Done && w'.segment == w.segment && w'.snapshot == w.snapshot && Log(w') == w.log
      && m.id in w'.group.runtime
      && Restored(w.log, m, offset, w'.group.runtime[m.id], clock.rewrite)
      && LeaseRestored(cfg, w.log, m, offset, w'.group.inflight)
      && OffersAt(w'.group, clock.ready)
      && (offset in w'.group.ready <==> Visible(w'.group.runtime[m.id], clock.ready))
      && w'.group.base == clock.base / Tick(cfg)
  {
    hide WorldInv, Load, Defaults, Step, Restored, LeaseRestored, OffersAt, Tick, LeasesInSync;
    hide UniqueIds, History, LastEvents;
    StepCases(cfg, owner, w, OpenGroup(clock));
    var g := Load(cfg, w.segment, w.snapshot, w.log, clock);
    var s := Session(Defaults(w.segment), |w.log|, clock.rewrite);
    DownFilesFit(cfg, w);
    LoadIsReplay(cfg, w.segment, w.snapshot, w.log, clock);
    LoadKeeps(cfg, w.segment, w.snapshot, w.log, clock);
    UniqueDefaults(w.segment, offset);
    RestoredEntry(s, w.log, w.segment[offset], offset, g.runtime, clock.rewrite);
    RestoredLease(cfg, s, w.log, w.segment[offset], offset, g.inflight);
    LoadOffers(cfg, w.segment, w.snapshot, w.log, clock);
    DefaultsFacts(w.segment);
    OffsetOffered(cfg, s, w.segment, g, clock.ready, offset);
  }

  lemma {:induction false} DownFilesFit(cfg: Config, w: World)
    requires WorldInv(cfg, w) && w.Down?
    ensures LastEvents(w.log).Keys <= Defaults(w.segment).Keys && SnapshotFits(Defaults(w.segment), w.log, w.snapshot)
    ensures History(cfg, w.log) && UniqueIds(w.segment)
  {
    hide History, LastEvents, Defaults, SnapshotFits, UniqueIds;
  }

  lemma {:induction false} UniqueDefaults(segment: seq<Message>, offset: nat)
    requires UniqueIds(segment) && offset < |segment|
    ensures segment[offset].id in Defaults(segment)
    ensures Defaults(segment)[segment[offset].id] == DefaultRuntime(offset, segment[offset].enqueued)
  {
    var n := |segment| - 1;
    if offset < n {
      assert segment[..n][offset] == segment[offset];
      UniqueDefaults(segment[..n], offset);
    }
  }

  lemma {:induction false} RestoredEntry(
    s: Session, log: seq<Event>, m: Message, offset: nat, runtime: map<Id, Runtime>, now: nat)
    requires runtime == RewriteInFlight(ReplayedMap(s.defaults, log), now)
    requires m.id in s.defaults && s.defaults[m.id] == DefaultRuntime(offset, m.enqueued)
    ensures m.id in runtime && Restored(log, m, offset, runtime[m.id], now)
  {
    hide LastEvents;
  }

  lemma {:induction false} RestoredLease(
    cfg: Config, s: Session, log: seq<Event>, m: Message, offset: nat, inflight: map<Id, Lease>)
    requires LeasesInSync(Tick(cfg), s, log, inflight)
    requires m.id in s.defaults && s.defaults[m.id].offset == offset
    ensures LeaseRestored(cfg, log, m, offset, inflight)
  {
    hide LastEvents, Tick;
  }

  lemma {:induction false} LoadOffers(
    cfg: Config, segment: seq<Message>, snapshot: Option<Snapshot>, log: seq<Event>, clock: LoadClock)
    ensures
      var g := Load(cfg, segment, snapshot, log, clock);
      g == BuildReady(g, clock.ready) && OffersAt(g, clock.ready)
  {
    hide Replay, FreshGroup, RewriteInFlight, NextAfter, Eligible, Ascending, OffersAt;
    BuildReadyOffers(Load(cfg, segment, snapshot, log, clock), clock.ready);
  }

  // An offset is in a ready list that was just built if and only if its message is READY and visible.
  lemma {:induction false} OffsetOffered(
    cfg: Config, s: Session, segment: seq<Message>, g: Group, now: nat, offset: nat)
    requires Inv(cfg, s, g) && OffsetsInSegment(segment, s.defaults)
    requires offset < |segment| && segment[offset].id in g.runtime && g.runtime[segment[offset].id].offset == offset
    ensures offset in BuildReady(g, now).ready <==> Visible(g.runtime[segment[offset].id], now)
  {
    hide Inv, OffsetsInSegment;
    if offset in BuildReady(g, now).ready {
      ReadyIsLoaded(cfg, s, segment, g, now, offset);
    }
    VisibleIsOffered(g.runtime, now);
  }

  // ---------------------------------------------------------------------------------------------
  // The sequence counter
  // ---------------------------------------------------------------------------------------------

  // After a restart numbering goes on at the counter of the snapshot, or at 1, or behind the last logged number,
  // whichever is the largest.
  lemma {:induction false} CounterAfterRestart(cfg: Config, owner: Text, w: World, clock: LoadClock)
    requires WorldInv(cfg, w) && w.Down?
    ensures
      var next := Step(cfg, owner, w, OpenGroup(clock)).0.group.next;
      var start := if w.snapshot.Some? then w.snapshot.value.next else 1;
      next == if w.log != [] && w.log[|w.log| - 1].sequence >= start then w.log[|w.log| - 1].sequence + 1 else start
  {
    hide WorldInv, Defaults, Step, Replay, Eligible, Ascending, Overlay, RewriteInFlight, NextAfter, History;
    StepCases(cfg, owner, w, OpenGroup(clock));
    DownFilesFit(cfg, w);
    NextAfterIncreasing(if w.snapshot.Some? then w.snapshot.value.next else 1, w.log) by {
      HistoryIncreases(cfg, w.log);
    }
  }

  lemma {:induction false} HistoryIncreases(cfg: Config, log: seq<Event>)
    requires History(cfg, log)
    ensures Increasing(log)
  {
    hide Increasing, WithinBudget, InFlightIds, ProperLeases;
  }

  lemma {:induction false} NextAfterIncreasing(next: nat, log: seq<Event>)
    requires Increasing(log)
    ensures
      NextAfter(next, log)
      == if log != [] && log[|log| - 1].sequence >= next then log[|log| - 1].sequence + 1 else next
    decreases |log|
  {
    if log != [] {
      NextAfterIncreasing(if next >= log[0].sequence + 1 then next else log[0].sequence + 1, log[1..]);
      assert |log| > 1 ==> log[1..][|log| - 2] == log[|log| - 1];
    }
  }
}
