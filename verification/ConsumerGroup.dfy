// One consumer group in memory: ConsumerGroupState of src/core/engine/queue_engine.h and the methods of
// src/core/engine/queue_engine.cc that update it in place.
module ConsumerGroups {
  import opened Wrappers
  import opened Transitions
  import opened Operations
  import opened Reachability
  import opened Delivery
  import opened PointInTime

  // No two messages of the group have one offset.
  ghost predicate DistinctOffsets(runtime: map<Id, Runtime>) {
    forall a, b :: a in runtime && b in runtime && runtime[a].offset == runtime[b].offset ==> a == b
  }

  // ---------------------------------------------------------------------------------------------
  // Sorting the ready list
  // ---------------------------------------------------------------------------------------------

  ghost predicate Sorted(s: seq<nat>) {
    forall i, j :: 0 <= i < j < |s| ==> s[i] <= s[j]
  }

  ghost predicate NoDuplicates(s: seq<nat>) {
    forall i, j :: 0 <= i < j < |s| ==> s[i] != s[j]
  }

  // Stands for std::sort.
  method SortOffsets(a: seq<nat>) returns (b: seq<nat>)
    ensures Sorted(b) && multiset(b) == multiset(a)
  {
    b := [];
    for i := 0 to |a|
      invariant Sorted(b) && multiset(b) == multiset(a[..i])
    {
      assert a[..i + 1] == a[..i] + [a[i]];
      b := Insert(b, a[i]);
    }
    assert a[..|a|] == a;
  }

  method Insert(b: seq<nat>, x: nat) returns (c: seq<nat>)
    requires Sorted(b)
    ensures Sorted(c) && multiset(c) == multiset(b) + multiset{x}
  {
    var k := 0;
    while k < |b| && b[k] <= x
      invariant 0 <= k <= |b|
      invariant forall i :: 0 <= i < k ==> b[i] <= x
    {
      k := k + 1;
    }
    assert b == b[..k] + b[k..];
    c := b[..k] + [x] + b[k..];
  }

  lemma {:induction false} SortedDistinct(a: seq<nat>, b: seq<nat>)
    requires Sorted(b) && multiset(b) == multiset(a) && NoDuplicates(a)
    ensures StrictlyAscending(b) && forall x :: x in b <==> x in a
  {
    forall x
      ensures x in b <==> x in a
    {
      assert x in multiset(b) <==> x in multiset(a);
    }
    forall i, j | 0 <= i < j < |b|
      ensures b[i] != b[j]
    {
      if b[i] == b[j] {
        OccursTwice(b, i, j);
        OccursOnce(a, b[i]);
        assert false;
      }
    }
  }

  lemma {:induction false} OccursTwice(s: seq<nat>, i: nat, j: nat)
    requires i < j < |s| && s[i] == s[j]
    ensures multiset(s)[s[i]] >= 2
  {
    assert s == s[..i] + [s[i]] + s[i + 1..j] + [s[j]] + s[j + 1..];
  }

  lemma {:induction false} OccursOnce(s: seq<nat>, x: nat)
    requires NoDuplicates(s)
    ensures multiset(s)[x] <= 1
  {
    if s != [] {
      var n := |s| - 1;
      assert s == s[..n] + [s[n]];
      OccursOnce(s[..n], x);
      if s[n] == x {
        assert x !in s[..n];
      }
    }
  }

  // The offsets of the eligible messages among some ids.
  ghost function OffsetsOf(runtime: map<Id, Runtime>, now: nat, ids: set<Id>): set<nat> {
    set id | id in ids && id in runtime && runtime[id].state == Ready && runtime[id].availableAfter <= now ::
      runtime[id].offset
  }

  // A list built from the ids seen so far, in whatever order they came.
  ghost predicate Collected(runtime: map<Id, Runtime>, now: nat, ids: set<Id>, list: seq<nat>) {
    NoDuplicates(list) && forall x :: x in list <==> x in OffsetsOf(runtime, now, ids)
  }

  lemma {:induction false} CollectOne(runtime: map<Id, Runtime>, now: nat, ids: set<Id>, list: seq<nat>, id: Id)
    requires DistinctOffsets(runtime) && Collected(runtime, now, ids, list)
    requires id in runtime && id !in ids && ids <= runtime.Keys
    ensures
      var r := runtime[id];
      Collected(
        runtime, now, ids + {id}, if r.state == Ready && r.availableAfter <= now then list + [r.offset] else list)
  {
    var r := runtime[id];
    if r.state == Ready && r.availableAfter <= now {
      assert OffsetsOf(runtime, now, ids + {id}) == OffsetsOf(runtime, now, ids) + {r.offset};
      assert r.offset !in OffsetsOf(runtime, now, ids);
      assert r.offset !in list;
    } else {
      assert OffsetsOf(runtime, now, ids + {id}) == OffsetsOf(runtime, now, ids);
    }
  }

  lemma NothingCollected(runtime: map<Id, Runtime>, now: nat)
    ensures Collected(runtime, now, {}, [])
  {
  }

  // However the entries were walked, sorting what was collected gives the one ascending list.
  lemma {:induction false} AllCollected(runtime: map<Id, Runtime>, now: nat, list: seq<nat>, sorted: seq<nat>)
    requires Collected(runtime, now, runtime.Keys, list)
    requires Sorted(sorted) && multiset(sorted) == multiset(list)
    ensures sorted == Ascending(Eligible(runtime, now))
  {
    SortedDistinct(list, sorted);
    assert OffsetsOf(runtime, now, runtime.Keys) == Eligible(runtime, now);
    hide OffsetsOf, Eligible, Sorted;
    AscendingUnique(sorted, Ascending(Eligible(runtime, now)));
  }

  class ConsumerGroup {
    var ready: seq<nat>
    var inflight: map<Id, Lease>
    var runtime: map<Id, Runtime>
    const wheel: array<seq<Id>>
    var base: nat
    var next: nat

    ghost predicate Valid() {
      wheel.Length == SLOTS
    }

    // The group as a value, next to the event file it belongs to.
    ghost function State(log: seq<Event>): Group
      requires Valid()
      reads this, wheel
    {
      Group(ready, inflight, runtime, wheel[..], base, next, log)
    }

    // A new group, its scheduler initialised.
    constructor (cfg: Config, now: nat)
      ensures Valid() && fresh(wheel)
      ensures forall log :: State(log) == Group([], map[], map[], EmptyWheel(), now / Tick(cfg), 1, log)
    {
      ready, inflight, runtime := [], map[], map[];
      wheel := new seq<Id>[SLOTS](_ => []);
      base, next := now / Tick(cfg), 1;
      new;
      assert wheel[..] == EmptyWheel();
    }

    method ScheduleInflight(cfg: Config, id: Id, deadline: nat, owner: Text, token: Text, offset: nat)
      requires Valid()
      modifies this`inflight, wheel
      ensures forall log ::
        State(log) == Schedule(old(State(log)), id, Lease(offset, deadline, deadline / Tick(cfg), owner, token))
    {
      var tick := deadline / Tick(cfg);
      var slot := tick % SLOTS;
      wheel[slot] := wheel[slot] + [id];
      inflight := inflight[id := Lease(offset, deadline, tick, owner, token)];
      assert wheel[..] == Push(old(wheel[..]), tick, id);
    }

    method ApplyTransition(cfg: Config, e: Event)
      requires Valid()
      modifies this`inflight, this`runtime, wheel
      ensures forall log :: State(log) == Apply(Tick(cfg), old(State(log)), e)
    {
      if e.id !in runtime {
        return;
      }
      var r := runtime[e.id];
      runtime := runtime[e.id := r.(state := e.state, retry := e.retry, availableAfter := e.availableAfter,
        lastTransition := e.timestamp, sequence := e.sequence, note := Because(e.reason))];
      inflight := inflight - {e.id};
      if e.state == InFlight {
        ScheduleInflight(cfg, e.id, e.deadline, e.owner, e.token, r.offset);
      }
    }

    // The entries are walked in an arbitrary order, as those of a hash map are.
    method BuildReadyQueue(now: nat)
      requires Valid() && DistinctOffsets(runtime)
      modifies this`ready
      ensures forall log :: State(log) == BuildReady(old(State(log)), now)
    {
      hide Collected, OffsetsOf, DistinctOffsets, Eligible, Ascending, Sorted;
      var list: seq<nat> := [];
      NothingCollected(runtime, now);
      var todo := runtime.Keys;
      ghost var done: set<Id> := {};
      while todo != {}
        invariant todo + done == runtime.Keys && todo !! done
        invariant Collected(runtime, now, done, list)
        decreases todo
      {
        var id :| id in todo;
        CollectOne(runtime, now, done, list, id);
        if runtime[id].state == Ready && runtime[id].availableAfter <= now {
          list := list + [runtime[id].offset];
        }
        todo := todo - {id};
        done := done + {id};
      }
      ready := SortOffsets(list);
      AllCollected(runtime, now, list, ready);
    }

    // ---------------------------------------------------------------------------------------------
    // The steps of LoadGroupState
    // ---------------------------------------------------------------------------------------------

    // Every message of the segment gets a READY entry, with a note on where it came from.
    method LoadMessages(segment: seq<Message>, note: Note)
      requires runtime == map[]
      modifies this`runtime
      ensures runtime == Noted(Defaults(segment), note)
    {
      assert segment[..0] == [];
      for offset := 0 to |segment|
        invariant runtime == Noted(Defaults(segment[..offset]), note)
      {
        var m := segment[offset];
        assert segment[..offset + 1][..offset] == segment[..offset];
        runtime := runtime[m.id := Runtime(Ready, offset, 0, m.enqueued, m.enqueued, 0, 0, note)];
      }
      assert segment[..|segment|] == segment;
    }

    // Entries of the snapshot replace those of messages the segment still holds.
    method LoadSnapshot(snapshot: Snapshot)
      modifies this`runtime, this`next
      ensures runtime == Overlay(old(runtime), snapshot.items) && next == snapshot.next
    {
      next := snapshot.next;
      var todo := snapshot.items.Keys;
      while todo != {}
        invariant next == snapshot.next && todo <= snapshot.items.Keys && runtime.Keys == old(runtime).Keys
        invariant forall id :: id in runtime ==>
          runtime[id] == if id in snapshot.items && id !in todo then snapshot.items[id] else old(runtime)[id]
        decreases todo
      {
        var id :| id in todo;
        if id in runtime {
          runtime := runtime[id := snapshot.items[id]];
        }
        todo := todo - {id};
      }
    }

    method ReplayEvents(cfg: Config, events: seq<Event>)
      requires Valid()
      modifies this`inflight, this`runtime, this`next, wheel
      ensures next == NextAfter(old(next), events)
      ensures forall log :: State(log) == Replay(Tick(cfg), old(State(log)), events).(next := next)
    {
      hide Apply;
      ghost var start := next;
      ghost var g0 := State([]);
      var i := 0;
      while i < |events|
        invariant 0 <= i <= |events|
        invariant Replay(Tick(cfg), State([]).(next := start), events[i..]) == Replay(Tick(cfg), g0, events)
        invariant NextAfter(next, events[i..]) == NextAfter(start, events)
        invariant base == old(base) && ready == old(ready)
      {
        assert events[i..][0] == events[i] && events[i..][1..] == events[i + 1..];
        ghost var g := State([]);
        ApplyTransition(cfg, events[i]);
        ApplyIgnores(Tick(cfg), g, events[i], start, []);
        next := if next >= events[i].sequence + 1 then next else events[i].sequence + 1;
        i := i + 1;
      }
      forall log
        ensures State(log) == Replay(Tick(cfg), old(State(log)), events).(next := next)
      {
        ReplayIgnores(Tick(cfg), g0, events, start, log);
      }
    }

    method RewriteInFlightEntries(now: nat)
      modifies this`runtime
      ensures runtime == RewriteInFlight(old(runtime), now)
    {
      var todo := runtime.Keys;
      while todo != {}
        invariant todo <= runtime.Keys && runtime.Keys == old(runtime).Keys
        invariant forall id :: id in runtime ==>
          runtime[id] == if id in todo then old(runtime)[id] else Recovered(old(runtime)[id], now)
        decreases todo
      {
        var id :| id in todo;
        var r := runtime[id];
        if r.state == InFlight {
          runtime := runtime[id := r.(
            state := Ready, availableAfter := now, note := Because(RecoveredToReady), lastTransition := now)];
        }
        todo := todo - {id};
      }
      assert runtime == RewriteInFlight(old(runtime), now);
    }

    // LoadGroupState, on a group that was just constructed.
    method LoadGroupState(
      cfg: Config, segment: seq<Message>, snapshot: Option<Snapshot>, events: seq<Event>, clock: LoadClock)
      requires Valid() && State([]) == Group([], map[], map[], EmptyWheel(), clock.base / Tick(cfg), 1, [])
      requires DistinctOffsets(Load(cfg, segment, snapshot, events, clock).runtime)
      modifies this, wheel
      ensures State(events) == Load(cfg, segment, snapshot, events, clock)
    {
      hide Replay, Defaults, Overlay, NextAfter, RewriteInFlight, BuildReady, DistinctOffsets, Tick;
      LoadMessages(segment, DefaultReady);
      DefaultsNoted(segment);
      if snapshot.Some? {
        LoadSnapshot(snapshot.value);
      }
      assert State([]) == FreshGroup(cfg, segment, snapshot, clock.base);
      ReplayEvents(cfg, events);
      RewriteInFlightEntries(clock.rewrite);
      LoadedRuntime(cfg, segment, snapshot, events, clock, State(events));
      BuildReadyQueue(clock.ready);
    }

    // ---------------------------------------------------------------------------------------------
    // Statistics
    // ---------------------------------------------------------------------------------------------

    method CountEntries() returns (counts: Counts)
      ensures counts == CountStates(runtime)
      ensures counts.ready == |set id | id in runtime && runtime[id].state == Ready|
      ensures counts.inflight == |set id | id in runtime && runtime[id].state == InFlight|
      ensures counts.acked == |set id | id in runtime && runtime[id].state == Acked|
      ensures counts.dead == |set id | id in runtime && runtime[id].state == Dead|
    {
      counts := Counts(0, 0, 0, 0);
      var todo := runtime.Keys;
      ghost var done: set<Id> := {};
      NothingCounted(runtime);
      hide CountedAmong, CountStates;
      while todo != {}
        invariant todo + done == runtime.Keys && todo !! done
        invariant CountedAmong(runtime, done, counts)
        decreases todo
      {
        var id :| id in todo;
        CountOne(runtime, done, counts, id);
        match runtime[id].state {
          case Ready => counts := counts.(ready := counts.ready + 1);
          case InFlight => counts := counts.(inflight := counts.inflight + 1);
          case Acked => counts := counts.(acked := counts.acked + 1);
          case Dead => counts := counts.(dead := counts.dead + 1);
        }
        todo := todo - {id};
        done := done + {id};
      }
      AllCounted(runtime, counts);
      CountsMean(runtime);
    }

    // The earliest enqueue time of a READY message. Zero stands for "none yet", so a message enqueued at
    // time 0 is taken for none; with such a message the result depends on the order of the walk.
    method OldestReady() returns (oldest: nat)
      ensures oldest == 0 || oldest in ReadySince(runtime)
      ensures 0 !in ReadySince(runtime) ==> (oldest == 0 <==> ReadySince(runtime) == {})
      ensures 0 !in ReadySince(runtime) && oldest != 0 ==> forall x :: x in ReadySince(runtime) ==> oldest <= x
    {
      oldest := 0;
      var todo := runtime.Keys;
      ghost var done: set<Id> := {};
      while todo != {}
        invariant todo + done == runtime.Keys && todo !! done
        invariant oldest == 0 || exists id :: id in done && runtime[id].state == Ready && runtime[id].enqueued == oldest
        invariant 0 !in ReadySince(runtime) ==>
          forall id :: id in done && runtime[id].state == Ready ==> oldest != 0 && oldest <= runtime[id].enqueued
        decreases todo
      {
        var id :| id in todo;
        var r := runtime[id];
        if r.state == Ready && (oldest == 0 || r.enqueued < oldest) {
          assert r.enqueued in ReadySince(runtime);
          oldest := r.enqueued;
        }
        todo := todo - {id};
        done := done + {id};
      }
      assert done == runtime.Keys;
    }
  }

  // ---------------------------------------------------------------------------------------------
  // What the loops rely on
  // ---------------------------------------------------------------------------------------------

  ghost function Noted(runtime: map<Id, Runtime>, note: Note): map<Id, Runtime> {
    map id | id in runtime :: runtime[id].(note := note)
  }

  lemma {:induction false} DefaultsNoted(segment: seq<Message>)
    ensures Noted(Defaults(segment), DefaultReady) == Defaults(segment)
  {
    hide Defaults;
    DefaultsFacts(segment);
  }

  lemma {:induction false} LoadedRuntime(
    cfg: Config, segment: seq<Message>, snapshot: Option<Snapshot>, events: seq<Event>, clock: LoadClock, g: Group)
    requires
      var g0 := FreshGroup(cfg, segment, snapshot, clock.base);
      var g1 := Replay(Tick(cfg), g0, events);
      g == g1.(runtime := RewriteInFlight(g1.runtime, clock.rewrite), next := NextAfter(g0.next, events), log := events)
    ensures Load(cfg, segment, snapshot, events, clock) == BuildReady(g, clock.ready)
    ensures Load(cfg, segment, snapshot, events, clock).runtime == g.runtime
  {
    hide FreshGroup, Replay, Eligible;
  }

  lemma ApplyIgnores(tick: nat, g: Group, e: Event, next: nat, log: seq<Event>)
    requires tick >= 1
    ensures Apply(tick, g.(next := next, log := log), e) == Apply(tick, g, e).(next := next, log := log)
  {
  }

  lemma {:induction false} ReplayIgnores(tick: nat, g: Group, events: seq<Event>, next: nat, log: seq<Event>)
    requires tick >= 1
    ensures Replay(tick, g.(next := next, log := log), events) == Replay(tick, g, events).(next := next, log := log)
    decreases |events|
  {
    hide Apply;
    if events != [] {
      ApplyIgnores(tick, g, events[0], next, log);
      ReplayIgnores(tick, Apply(tick, g, events[0]), events[1..], next, log);
    }
  }

  ghost function Among(runtime: map<Id, Runtime>, ids: set<Id>, state: State): set<Id> {
    set id | id in ids && id in runtime && runtime[id].state == state
  }

  ghost predicate CountedAmong(runtime: map<Id, Runtime>, ids: set<Id>, c: Counts) {
    && c.ready == |Among(runtime, ids, Ready)| && c.inflight == |Among(runtime, ids, InFlight)|
    && c.acked == |Among(runtime, ids, Acked)| && c.dead == |Among(runtime, ids, Dead)|
  }

  lemma {:induction false} NothingCounted(runtime: map<Id, Runtime>)
    ensures CountedAmong(runtime, {}, Counts(0, 0, 0, 0))
  {
    forall state
      ensures Among(runtime, {}, state) == {}
    {
    }
  }

  lemma {:induction false} AmongOne(runtime: map<Id, Runtime>, ids: set<Id>, id: Id, state: State)
    requires id in runtime && id !in ids
    ensures |Among(runtime, ids + {id}, state)|
      == |Among(runtime, ids, state)| + (if runtime[id].state == state then 1 else 0)
  {
    if runtime[id].state == state {
      assert Among(runtime, ids + {id}, state) == Among(runtime, ids, state) + {id};
    } else {
      assert Among(runtime, ids + {id}, state) == Among(runtime, ids, state);
    }
  }

  lemma {:induction false} CountOne(runtime: map<Id, Runtime>, ids: set<Id>, c: Counts, id: Id)
    requires CountedAmong(runtime, ids, c) && id in runtime && id !in ids
    ensures CountedAmong(runtime, ids + {id}, match runtime[id].state
      case Ready => c.(ready := c.ready + 1)
      case InFlight => c.(inflight := c.inflight + 1)
      case Acked => c.(acked := c.acked + 1)
      case Dead => c.(dead := c.dead + 1))
  {
    hide Among;
    AmongOne(runtime, ids, id, Ready);
    AmongOne(runtime, ids, id, InFlight);
    AmongOne(runtime, ids, id, Acked);
    AmongOne(runtime, ids, id, Dead);
  }

  lemma {:induction false} AllCounted(runtime: map<Id, Runtime>, c: Counts)
    requires CountedAmong(runtime, runtime.Keys, c)
    ensures c == CountStates(runtime)
  {
    assert Among(runtime, runtime.Keys, Ready) == InState(runtime, Ready);
    assert Among(runtime, runtime.Keys, InFlight) == InState(runtime, InFlight);
    assert Among(runtime, runtime.Keys, Acked) == InState(runtime, Acked);
    assert Among(runtime, runtime.Keys, Dead) == InState(runtime, Dead);
  }

  lemma CountsMean(runtime: map<Id, Runtime>)
    ensures
      var c := CountStates(runtime);
      && c.ready == |set id | id in runtime && runtime[id].state == Ready|
      && c.inflight == |set id | id in runtime && runtime[id].state == InFlight|
      && c.acked == |set id | id in runtime && runtime[id].state == Acked|
      && c.dead == |set id | id in runtime && runtime[id].state == Dead|
  {
  }

  // The enqueue times of the READY messages.
  ghost function ReadySince(runtime: map<Id, Runtime>): set<nat> {
    set id | id in runtime && runtime[id].state == Ready :: runtime[id].enqueued
  }

  // What the statistics promise: the age of the oldest READY message.
  ghost function OldestReadyAge(runtime: map<Id, Runtime>, now: nat): nat {
    var times := ReadySince(runtime);
    if times == {} then 0 else if Least(times) < now then now - Least(times) else 0
  }

  // What the code makes of the earliest time it found.
  function AgeOf(oldest: nat, now: nat): nat {
    if oldest > 0 && now > oldest then now - oldest else 0
  }

  // The reported age is right exactly unless a READY message was enqueued at time 0 (and the clock has
  // moved on since).
  lemma {:induction false} ReportedAge(runtime: map<Id, Runtime>, now: nat, oldest: nat)
    requires oldest == 0 || oldest in ReadySince(runtime)
    requires 0 !in ReadySince(runtime) ==> (oldest == 0 <==> ReadySince(runtime) == {})
    requires 0 !in ReadySince(runtime) && oldest != 0 ==> forall x :: x in ReadySince(runtime) ==> oldest <= x
    ensures AgeOf(oldest, now) == OldestReadyAge(runtime, now) <==> 0 !in ReadySince(runtime) || now == 0
  {
    hide ReadySince;
  }
}
