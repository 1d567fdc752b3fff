// One queue of the engine and one consumer group of it, updated in place as src/core/engine/queue_engine.cc
// does. Each operation is proved to be the step of module Operations of the same kind, so every theorem
// about runs is a theorem about sequences of these calls.
module QueueEngines {
  import opened Wrappers
  import opened Transitions
  import opened Tokens
  import opened Legality
  import opened Wheel
  import opened Operations
  import opened Reachability
  import opened Runs
  import opened PointInTime
  import opened ConsumerGroups
  import opened FirstDelivery

  lemma {:induction false} OffsetsDistinct(cfg: Config, s: Session, segment: seq<Message>, g: Group)
    requires Inv(cfg, s, g) && OffsetsInSegment(segment, s.defaults)
    ensures DistinctOffsets(g.runtime)
  {
    hide Inv, OffsetsInSegment;
    forall a, b | a in g.runtime && b in g.runtime && g.runtime[a].offset == g.runtime[b].offset
      ensures a == b
    {
      SegmentIdOf(cfg, s, segment, g, a);
      SegmentIdOf(cfg, s, segment, g, b);
    }
  }

  lemma {:induction false} SegmentIdOf(cfg: Config, s: Session, segment: seq<Message>, g: Group, id: Id)
    requires Inv(cfg, s, g) && OffsetsInSegment(segment, s.defaults) && id in g.runtime
    ensures g.runtime[id].offset < |segment| && segment[g.runtime[id].offset].id == id
  {
    hide Inv;
    RuntimeWithinBudget(cfg, s, g, id);
    LoadedHasDefault(cfg, s, g, id);
  }

  lemma {:induction false} LoadedDistinct(cfg: Config, w: World, clock: LoadClock)
    requires WorldInv(cfg, w) && w.Down?
    ensures DistinctOffsets(Load(cfg, w.segment, w.snapshot, w.log, clock).runtime)
  {
    hide Load, Inv, History, LastEvents, Defaults, SnapshotFits, UniqueIds, DistinctOffsets, OffsetsInSegment;
    LoadKeeps(cfg, w.segment, w.snapshot, w.log, clock);
    DefaultsFacts(w.segment);
    OffsetsDistinct(cfg, Session(Defaults(w.segment), |w.log|, clock.rewrite),
      w.segment, Load(cfg, w.segment, w.snapshot, w.log, clock));
  }

  lemma {:induction false} ReplayedDistinct(cfg: Config, w: World, until: nat, now: nat)
    requires WorldInv(cfg, w)
    ensures DistinctOffsets(ReplayGroup(cfg, w.segment, Log(w), until, now).runtime)
  {
    hide Inv, History, LastEvents, Defaults, SnapshotFits, UniqueIds, ReplayGroup, UpTo;
    UpToKeys(Log(w), until);
    ReplayRuntime(cfg, w.segment, Log(w), until, now);
    DefaultsFacts(w.segment);
  }

  // The world in which a call finds its group: opened first if the process has not used it yet.
  ghost function Loaded(cfg: Config, owner: Text, w: World, clock: LoadClock): (loaded: World)
    ensures loaded.Up?
  {
    if w.Up? then w
    else
      OpenedIsUp(cfg, owner, w, clock);
      Step(cfg, owner, w, OpenGroup(clock)).0
  }

  lemma {:induction false} OpenedIsUp(cfg: Config, owner: Text, w: World, clock: LoadClock)
    requires w.Down?
    ensures Step(cfg, owner, w, OpenGroup(clock)).0.Up?
  {
    hide Load, Defaults;
  }

  class QueueEngine {
    const cfg: Config
    const owner: Text

    // On disk.
    var segment: seq<Message>
    var sealed: bool
    var events: seq<Event>
    var snapshot: Option<Snapshot>

    // In memory: the group once it has been loaded.
    var group: ConsumerGroup?
    ghost var session: Session

    ghost function Repr(): set<object>
      reads this
    {
      if group == null then {this} else {this, group, group.wheel}
    }

    ghost predicate Formed()
      reads this
    {
      group != null ==> group.Valid()
    }

    ghost function View(): World
      requires Formed()
      reads this, Repr()
    {
      if group == null then Down(segment, sealed, snapshot, events)
      else Up(segment, sealed, snapshot, session, group.State(events))
    }

    ghost predicate Valid()
      reads this, Repr()
    {
      Formed() && SaneRetryLimit(cfg) && WorldInv(cfg, View())
    }

    constructor (cfg: Config, owner: Text)
      requires SaneRetryLimit(cfg)
      ensures Valid() && fresh(Repr()) && View() == START && this.cfg == cfg && this.owner == owner
    {
      this.cfg, this.owner := cfg, owner;
      segment, sealed, events, snapshot, group := [], false, [], None, null;
      session := Session(map[], 0, 0);
      new;
      StartInv(cfg);
    }

    method Produce(message: Message)
      requires Valid() && Enabled(View(), Op.Produce(message))
      modifies this`segment
      ensures Valid() && View() == Step(cfg, owner, old(View()), Op.Produce(message)).0
    {
      hide WorldInv, FilesGrow, Step, Enabled, Settle, Operations.Consume, Operations.Ack, Operations.Nack, Reap, Load;
      hide DistinctOffsets, SaneRetryLimit;
      StepKeeps(cfg, owner, View(), Op.Produce(message));
      StepCases(cfg, owner, View(), Op.Produce(message));
      segment := segment + [message];
    }

    // A process crash: memory is gone, the files stay.
    method Crash()
      requires Valid()
      modifies this
      ensures Valid() && View() == Step(cfg, owner, old(View()), Op.Crash).0
    {
      hide WorldInv, FilesGrow, Step, Settle, Operations.Consume, Operations.Ack, Operations.Nack, Reap, Load;
      StepKeeps(cfg, owner, View(), Op.Crash);
      StepCases(cfg, owner, View(), Op.Crash);
      sealed := sealed || segment != [];
      group := null;
    }

    // Opening the group: the second part of GetGroup.
    method Open(clock: LoadClock)
      requires Valid() && group == null
      modifies this`group, this`session
      ensures Valid() && fresh(Repr() - {this}) && group != null
      ensures View() == Step(cfg, owner, old(View()), OpenGroup(clock)).0
    {
      hide WorldInv, FilesGrow, Step, Load, Tick, Defaults;
      StepKeeps(cfg, owner, View(), OpenGroup(clock));
      StepCases(cfg, owner, View(), OpenGroup(clock));
      LoadedDistinct(cfg, View(), clock);
      var loaded := new ConsumerGroup(cfg, clock.base);
      loaded.LoadGroupState(cfg, segment, snapshot, events, clock);
      group := loaded;
      session := Session(Defaults(segment), |events|, clock.rewrite);
    }

    // The group of a call, opened the first time it is asked for.
    method GetGroup(loadClock: LoadClock)
      requires Valid()
      modifies this`group, this`session
      ensures Valid() && group != null && fresh(Repr() - old(Repr()))
      ensures View() == Loaded(cfg, owner, old(View()), loadClock)
    {
      hide WorldInv, Step;
      if group == null {
        Open(loadClock);
      }
    }

    // ---------------------------------------------------------------------------------------------
    // Transitions
    // ---------------------------------------------------------------------------------------------

    method AppendTransition(e: Event, fails: set<nat>) returns (ok: bool)
      requires Formed() && group != null
      modifies this`events, group`inflight, group`runtime, group.wheel
      ensures Formed() && group.State(events) == Append(cfg, old(group.State(events)), e, fails)
      ensures ok == (e.sequence !in fails)
    {
      if e.sequence in fails {
        return false;
      }
      events := events + [e];
      group.ApplyTransition(cfg, e);
      ok := true;
    }

    method PersistGroupState(persists: bool) returns (ok: bool)
      requires Formed() && group != null
      modifies this`snapshot
      ensures ok == persists
      ensures snapshot == if persists then Some(Snapshot(group.next, group.runtime)) else old(snapshot)
    {
      if persists {
        snapshot := Some(Snapshot(group.next, group.runtime));
      }
      ok := persists;
    }

    // ---------------------------------------------------------------------------------------------
    // Reaping
    // ---------------------------------------------------------------------------------------------

    // The body of the inner loop of ReapExpiredInflight.
    method VisitLease(id: Id, now: nat, fails: set<nat>)
      requires Formed() && group != null
      modifies this`events, group`inflight, group`runtime, group`next, group.wheel
      ensures Formed() && group.State(events) == Visit(cfg, now, old(group.State(events)), id, fails)
    {
      if id !in group.inflight {
        return;
      }
      var lease := group.inflight[id];
      if lease.bucketTick > group.base {
        return;
      }
      if lease.deadline > now {
        var slot := lease.bucketTick % SLOTS;
        group.wheel[slot] := group.wheel[slot] + [id];
        assert group.wheel[..] == Push(old(group.wheel[..]), lease.bucketTick, id);
        return;
      }
      if id !in group.runtime {
        group.inflight := group.inflight - {id};
        return;
      }
      var retry := Bump(group.runtime[id].retry);
      var e: Event;
      if retry > cfg.maxRetry {
        e := Event(group.next, id, Dead, retry, 0, now, 0, [], [], TimeoutDead);
      } else {
        e := Event(group.next, id, Ready, retry, now + cfg.backoff, now, 0, [], [], TimeoutRequeued);
      }
      group.next := group.next + 1;
      var ok := AppendTransition(e, fails);
    }

    method AdvanceWheel(now: nat, fails: set<nat>)
      requires Formed() && group != null
      modifies this`events, group`inflight, group`runtime, group`next, group`base, group.wheel
      ensures Formed() && group.State(events) == Advance(cfg, now, old(group.State(events)), fails)
    {
      hide Visit;
      var nowTick := now / Tick(cfg);
      while group.base <= nowTick
        invariant Formed()
        invariant Advance(cfg, now, group.State(events), fails) == Advance(cfg, now, old(group.State(events)), fails)
        decreases nowTick + 1 - group.base
      {
        ghost var before := group.State(events);
        var slot := group.base % SLOTS;
        var bucket := group.wheel[slot];
        group.wheel[slot] := [];
        ghost var taken := group.State(events);
        assert taken == TakeSlot(before);
        var i := 0;
        while i < |bucket|
          invariant 0 <= i <= |bucket| && Formed() && group.base == before.base
          invariant VisitAll(cfg, now, group.State(events), bucket[i..], fails)
            == VisitAll(cfg, now, taken, bucket, fails)
        {
          assert bucket[i..][0] == bucket[i] && bucket[i..][1..] == bucket[i + 1..];
          VisitLease(bucket[i], now, fails);
          i := i + 1;
        }
        group.base := group.base + 1;
        assert group.State(events) == VisitSlot(cfg, now, before, fails);
      }
    }

    method ReapExpiredInflight(scanTime: nat, readyTime: nat, fails: set<nat>)
      requires Valid() && group != null
      modifies this`events, group, group.wheel
      ensures Formed() && group.State(events) == Reap(cfg, old(group.State(events)), scanTime, readyTime, fails)
    {
      ghost var w := View();
      hide WorldInv, Inv, DistinctOffsets, OffsetsInSegment, Advance, MessageEvolves, SaneRetryLimit;
      AdvanceWheel(scanTime, fails);
      InvOfWorld(cfg, w);
      SessionOffsets(cfg, w);
      AdvanceKeeps(cfg, session, scanTime, w.group, fails);
      OffsetsDistinct(cfg, session, segment, group.State(events));
      group.BuildReadyQueue(readyTime);
    }

    // ---------------------------------------------------------------------------------------------
    // The consumer's calls
    // ---------------------------------------------------------------------------------------------

    // The part of ConsumeOnShard after an offset has been taken from the ready list.
    method DeliverOffset(offset: nat, clock: ConsumeClock, fails: set<nat>) returns (outcome: Outcome)
      requires Formed() && group != null && offset < |segment|
      modifies this`events, group`inflight, group`runtime, group`next, group.wheel
      ensures Formed()
      ensures (group.State(events), outcome)
        == Deliver(cfg, owner, old(group.State(events)), offset, segment[offset], clock, fails)
    {
      hide Append, Token, Bump;
      var m := segment[offset];
      if m.id !in group.runtime {
        var created := Runtime(Ready, offset, 0, m.enqueued, clock.create, 0, 0, CreatedOnConsume);
        group.runtime := group.runtime[m.id := created];
      }
      var sequence := group.next;
      group.next := group.next + 1;
      var retry := group.runtime[m.id].retry;
      var e := Event(sequence, m.id, InFlight, retry, clock.lease, clock.lease, clock.lease + cfg.visibility, owner,
                     Token(m.id, sequence), Delivered);
      var ok := AppendTransition(e, fails);
      outcome := if ok then Delivery(m.id, offset, Bump(retry)) else Failed;
    }

    method ConsumeReady(clock: ConsumeClock, readable: bool, fails: set<nat>) returns (outcome: Outcome)
      requires Valid() && group != null
      modifies this`events, group, group.wheel
      ensures Formed()
      ensures (group.State(events), outcome)
        == Operations.Consume(cfg, owner, segment, old(group.State(events)), clock, fails, readable)
    {
      hide WorldInv, Reap, Deliver, SaneRetryLimit;
      ReapExpiredInflight(clock.scan, clock.ready, fails);
      if |group.inflight.Keys| >= cfg.maxInflight {
        return Nothing;
      }
      if group.ready == [] {
        return Nothing;
      }
      var offset := group.ready[0];
      group.ready := group.ready[1..];
      if !readable || offset >= |segment| {
        return Failed;
      }
      outcome := DeliverOffset(offset, clock, fails);
    }

    // Persists the group after a logged transition; the caller sees an error when only that fails.
    method Conclude(result: Outcome, persists: bool) returns (outcome: Outcome)
      requires Formed() && group != null
      modifies this`snapshot
      ensures (View(), outcome) == Settle(old(View()), (group.State(events), result), persists)
    {
      outcome := result;
      if result.Done? || result.Delivery? {
        var persisted := PersistGroupState(persists);
        if !persisted {
          outcome := Failed;
        }
      }
    }

    method Consume(
      loadClock: LoadClock, clock: ConsumeClock, readable: bool, fails: set<nat>, persists: bool)
      returns (outcome: Outcome)
      requires Valid()
      modifies Repr()
      ensures Valid() && fresh(Repr() - old(Repr()))
      ensures (View(), outcome)
        == Step(cfg, owner, Loaded(cfg, owner, old(View()), loadClock), ConsumeNext(clock, readable, fails, persists))
    {
      hide WorldInv, FilesGrow, Step, Operations.Consume, SaneRetryLimit, Loaded;
      GetGroup(loadClock);
      ghost var op := ConsumeNext(clock, readable, fails, persists);
      StepKeeps(cfg, owner, View(), op);
      StepCases(cfg, owner, View(), op);
      var result := ConsumeReady(clock, readable, fails);
      outcome := Conclude(result, persists);
    }

    method EndByAck(id: Id, now: nat, fails: set<nat>) returns (outcome: Outcome)
      requires Formed() && group != null
      modifies this`events, group`inflight, group`runtime, group`next, group.wheel
      ensures Formed()
      ensures (group.State(events), outcome) == Operations.Ack(cfg, old(group.State(events)), id, now, fails)
    {
      hide Append;
      if id !in group.inflight {
        return NotFound;
      }
      if id !in group.runtime {
        return Failed;
      }
      var e := Event(group.next, id, Acked, group.runtime[id].retry, 0, now, 0, [], [], AckedByConsumer);
      group.next := group.next + 1;
      var ok := AppendTransition(e, fails);
      outcome := if ok then Done else Failed;
    }

    method Ack(
      loadClock: LoadClock, id: Id, now: nat, fails: set<nat>, persists: bool)
      returns (outcome: Outcome)
      requires Valid()
      modifies Repr()
      ensures Valid() && fresh(Repr() - old(Repr()))
      ensures (View(), outcome)
        == Step(cfg, owner, Loaded(cfg, owner, old(View()), loadClock), AckOne(id, now, fails, persists))
    {
      hide WorldInv, FilesGrow, Step, Operations.Ack, SaneRetryLimit, Loaded;
      GetGroup(loadClock);
      ghost var op := AckOne(id, now, fails, persists);
      StepKeeps(cfg, owner, View(), op);
      StepCases(cfg, owner, View(), op);
      var result := EndByAck(id, now, fails);
      outcome := Conclude(result, persists);
    }

    method EndByNack(id: Id, requeue: bool, clock: NackClock, fails: set<nat>) returns (outcome: Outcome)
      requires Valid() && group != null
      modifies this`events, group, group.wheel
      ensures Formed()
      ensures (group.State(events), outcome)
        == Operations.Nack(cfg, old(group.State(events)), id, requeue, clock, fails)
    {
      hide WorldInv, Append, Bump, SaneRetryLimit, BuildReady, DistinctOffsets;
      ghost var w := View();
      if id !in group.inflight {
        return NotFound;
      }
      if id !in group.runtime {
        return Failed;
      }
      var retry := group.runtime[id].retry;
      var e: Event;
      if !requeue {
        e := Event(group.next, id, Dead, retry, 0, clock.transition, 0, [], [], NackDead);
      } else {
        retry := Bump(retry);
        if retry > cfg.maxRetry {
          e := Event(group.next, id, Dead, retry, 0, clock.transition, 0, [], [], NackDead);
        } else {
          e := Event(
            group.next, id, Ready, retry, clock.visible + cfg.backoff, clock.transition, 0, [], [], NackRequeued);
        }
      }
      group.next := group.next + 1;
      var ok := AppendTransition(e, fails);
      if !ok {
        return Failed;
      }
      NackLeavesDistinct(cfg, w, id, requeue, clock, fails, group.State(events));
      group.BuildReadyQueue(clock.ready);
      outcome := Done;
    }

    method Nack(
      loadClock: LoadClock, id: Id, requeue: bool, clock: NackClock, fails: set<nat>, persists: bool)
      returns (outcome: Outcome)
      requires Valid()
      modifies Repr()
      ensures Valid() && fresh(Repr() - old(Repr()))
      ensures (View(), outcome)
        == Step(cfg, owner, Loaded(cfg, owner, old(View()), loadClock), NackOne(id, requeue, clock, fails, persists))
    {
      hide WorldInv, FilesGrow, Step, Operations.Nack, SaneRetryLimit, Loaded;
      GetGroup(loadClock);
      ghost var op := NackOne(id, requeue, clock, fails, persists);
      StepKeeps(cfg, owner, View(), op);
      StepCases(cfg, owner, View(), op);
      var result := EndByNack(id, requeue, clock, fails);
      outcome := Conclude(result, persists);
    }

    // ---------------------------------------------------------------------------------------------
    // Statistics and replay
    // ---------------------------------------------------------------------------------------------

    // The counts are those of the states after the reap. The age is that of the oldest READY message exactly
    // if no READY message was enqueued at time 0, which the code takes for "none".
    method GetStats(
      loadClock: LoadClock, scanTime: nat, readyTime: nat, now: nat, fails: set<nat>)
      returns (counts: Counts, age: nat)
      requires Valid()
      modifies Repr()
      ensures Valid() && fresh(Repr() - old(Repr())) && group != null
      ensures View()
        == Step(cfg, owner, Loaded(cfg, owner, old(View()), loadClock), Op.GetStats(scanTime, readyTime, fails)).0
      ensures counts.ready == |set id | id in group.runtime && group.runtime[id].state == Ready|
      ensures counts.inflight == |set id | id in group.runtime && group.runtime[id].state == InFlight|
      ensures counts.acked == |set id | id in group.runtime && group.runtime[id].state == Acked|
      ensures counts.dead == |set id | id in group.runtime && group.runtime[id].state == Dead|
      ensures age == OldestReadyAge(group.runtime, now) <==> 0 !in ReadySince(group.runtime) || now == 0
    {
      hide WorldInv, FilesGrow, Step, Reap, SaneRetryLimit, CountStates, ReadySince, OldestReadyAge, AgeOf, Loaded;
      GetGroup(loadClock);
      ghost var op := Op.GetStats(scanTime, readyTime, fails);
      StepKeeps(cfg, owner, View(), op);
      StepCases(cfg, owner, View(), op);
      ReapExpiredInflight(scanTime, readyTime, fails);
      counts := group.CountEntries();
      var oldest := group.OldestReady();
      ReportedAge(group.runtime, now, oldest);
      age := AgeOf(oldest, now);
    }

    method LoadTransitions(maxSequence: nat) returns (loaded: seq<Event>)
      ensures loaded == UpTo(events, maxSequence)
    {
      loaded := [];
      assert events[..0] == [];
      for i := 0 to |events|
        invariant loaded == UpTo(events[..i], maxSequence)
      {
        assert events[..i + 1][..i] == events[..i];
        if events[i].sequence <= maxSequence {
          loaded := loaded + [events[i]];
        }
      }
      assert events[..|events|] == events;
    }

    // Rebuilds the group up to a sequence number in a group of its own; the engine itself stays as it is.
    method ReplayToSequence(until: nat, base: nat, readyTime: nat) returns (applied: nat, counts: Counts)
      requires Valid()
      ensures applied == AppliedSequence(UpTo(events, until))
      ensures counts == CountStates(ReplayGroup(cfg, segment, events, until, base).runtime)
      ensures counts.ready + counts.inflight + counts.acked + counts.dead == |segment|
    {
      hide WorldInv, UpTo, Replay, Defaults, CountStates, DistinctOffsets, BuildReady, Tick;
      ReplayedDistinct(cfg, View(), until, base);
      ReplayCountsEveryMessage(cfg, View(), until, base);
      var replay := new ConsumerGroup(cfg, base);
      assert replay.State([]).runtime == map[];
      replay.LoadMessages(segment, ReplayReady);
      var loaded := LoadTransitions(until);
      assert replay.State([]) == Group([], map[], ReplayDefaults(segment), EmptyWheel(), base / Tick(cfg), 1, []);
      replay.ReplayEvents(cfg, loaded);
      assert replay.State([]).runtime == ReplayGroup(cfg, segment, events, until, base).runtime;
      replay.BuildReadyQueue(readyTime);
      applied := if loaded == [] then 0 else loaded[|loaded| - 1].sequence;
      counts := replay.CountEntries();
    }
  }

  // The reported age is wrong in a state any queue can reach: a message enqueued at time 0 is its only one, and
  // the clock has moved on. Whatever earliest time the walk over the entries finds, 0 is reported, not the age.
  lemma {:induction false} AgeOfFirstMessage(cfg: Config, owner: Text, m: Message, t: nat, now: nat) returns (w: World)
    requires SaneRetryLimit(cfg) && m.enqueued == 0 && now > 0
    ensures Reachable(cfg, owner, w) && w.Up?
    ensures
      var g := Reap(cfg, w.group, t, t, {});
      && OldestReadyAge(g.runtime, now) == now
      && forall oldest :: oldest == 0 || oldest in ReadySince(g.runtime) ==> AgeOf(oldest, now) == 0
  {
    hide WorldInv, Advance, SaneRetryLimit, Tick, Reachable, TimelyReachable, Eligible, Ascending;
    w := FirstOpened(cfg, owner, m, t);
    TimelyIsReachable(cfg, owner, w);
    ReapOfNothing(cfg, t, w.group, m.id);
    OnlyTimeZero(w.group.runtime, m);
  }

  lemma {:induction false} OnlyTimeZero(runtime: map<Id, Runtime>, m: Message)
    requires runtime == map[m.id := DefaultRuntime(0, m.enqueued)]
    ensures ReadySince(runtime) == {m.enqueued}
  {
    assert runtime[m.id].enqueued in ReadySince(runtime);
  }

  lemma {:induction false} NackLeavesDistinct(
    cfg: Config, w: World, id: Id, requeue: bool, clock: NackClock, fails: set<nat>, g: Group)
    requires WorldInv(cfg, w) && w.Up? && SaneRetryLimit(cfg) && id in w.group.inflight && id in w.group.runtime
    requires
      var e := NackEvent(cfg, w.group.next, id, w.group.runtime[id].retry, requeue, clock);
      e.sequence !in fails && g == Append(cfg, w.group.(next := w.group.next + 1), e, fails)
    ensures DistinctOffsets(g.runtime)
  {
    hide WorldInv, Append, Inv, DistinctOffsets, OffsetsInSegment, NackEvent, Legal, MessageEvolves;
    InvOfWorld(cfg, w);
    SessionOffsets(cfg, w);
    NackIsLegal(cfg, w.session, w.group, id, requeue, clock);
    NackSequence(cfg, w.group.next, id, w.group.runtime[id].retry, requeue, clock);
    LogKeeps(cfg, w.session, w.group,
      NackEvent(cfg, w.group.next, id, w.group.runtime[id].retry, requeue, clock), fails);
    OffsetsDistinct(cfg, w.session, w.segment, g);
  }
}
