// The deadline wheel: ReapExpiredInflight of src/core/engine/queue_engine.cc, slot by slot, and what it
// guarantees about the leases registered in it.
module Wheel {
  import opened Transitions
  import opened Tokens
  import opened Legality

  function TimeoutEvent(cfg: Config, now: nat, sequence: nat, id: Id, retry: nat): Event {
    var bumped := Bump(retry);
    if bumped > cfg.maxRetry
    then Event(sequence, id, Dead, bumped, 0, now, 0, [], [], TimeoutDead)
    else Event(sequence, id, Ready, bumped, now + cfg.backoff, now, 0, [], [], TimeoutRequeued)
  }

  function Expire(cfg: Config, now: nat, g: Group, id: Id, fails: set<nat>): Group
    requires id in g.runtime
  {
    Append(cfg, g.(next := g.next + 1), TimeoutEvent(cfg, now, g.next, id, g.runtime[id].retry), fails)
  }

  // One id taken from the slot of tick g.base. An entry of a later lap is skipped, one that is not due
  // yet goes back to its slot, and a due one is retried or dead-lettered.
  function Visit(cfg: Config, now: nat, g: Group, id: Id, fails: set<nat>): Group {
    if id !in g.inflight then g
    else if g.inflight[id].bucketTick > g.base then g
    else if g.inflight[id].deadline > now then g.(wheel := Push(g.wheel, g.inflight[id].bucketTick, id))
    else if id !in g.runtime then g.(inflight := g.inflight - {id})
    else Expire(cfg, now, g, id, fails)
  }

  function VisitAll(cfg: Config, now: nat, g: Group, bucket: seq<Id>, fails: set<nat>): (g': Group)
    ensures g'.base == g.base
    decreases |bucket|
  {
    if bucket == [] then g else VisitAll(cfg, now, Visit(cfg, now, g, bucket[0], fails), bucket[1..], fails)
  }

  function TakeSlot(g: Group): Group {
    g.(wheel := g.wheel[g.base % SLOTS := []])
  }

  function VisitSlot(cfg: Config, now: nat, g: Group, fails: set<nat>): Group {
    var g1 := VisitAll(cfg, now, TakeSlot(g), g.wheel[g.base % SLOTS], fails);
    g1.(base := g1.base + 1)
  }

  function TicksLeft(cfg: Config, now: nat, g: Group): nat {
    if g.base <= now / Tick(cfg) then now / Tick(cfg) + 1 - g.base else 0
  }

  // The loop of ReapExpiredInflight over the ticks that have passed.
  function Advance(cfg: Config, now: nat, g: Group, fails: set<nat>): Group
    decreases TicksLeft(cfg, now, g)
  {
    if g.base <= now / Tick(cfg) then Advance(cfg, now, VisitSlot(cfg, now, g, fails), fails) else g
  }

  // ---------------------------------------------------------------------------------------------
  // The reap keeps the invariant
  // ---------------------------------------------------------------------------------------------

  lemma {:induction false} TimeoutEventFacts(cfg: Config, now: nat, sequence: nat, id: Id, retry: nat)
    requires SaneRetryLimit(cfg) && retry <= cfg.maxRetry
    ensures
      var e := TimeoutEvent(cfg, now, sequence, id, retry);
      && e.sequence == sequence && e.id == id
      && (e.state == Dead || (e.state == Ready && e.retry == retry + 1 <= cfg.maxRetry))
  {
    BumpIsPlusOne(cfg, retry);
    hide Bump;
  }

  lemma {:induction false} ExpireIsLegal(cfg: Config, s: Session, now: nat, g: Group, id: Id)
    requires Inv(cfg, s, g) && SaneRetryLimit(cfg) && id in g.inflight && id in g.runtime
    ensures Legal(cfg, g.(next := g.next + 1), TimeoutEvent(cfg, now, g.next, id, g.runtime[id].retry))
  {
    hide Inv, Below, TimeoutEvent, Token, SaneRetryLimit;
    RuntimeWithinBudget(cfg, s, g, id);
    BelowNext(cfg, s, g);
    TimeoutEventFacts(cfg, now, g.next, id, g.runtime[id].retry);
  }

  lemma BelowNext(cfg: Config, s: Session, g: Group)
    requires Inv(cfg, s, g)
    ensures Below(g.log, g.next)
  {
  }

  lemma BumpIsPlusOne(cfg: Config, retry: nat)
    requires SaneRetryLimit(cfg) && retry <= cfg.maxRetry
    ensures Bump(retry) == retry + 1
  {
  }

  lemma {:induction false} VisitKeeps(cfg: Config, s: Session, now: nat, g: Group, id: Id, fails: set<nat>)
    requires Inv(cfg, s, g) && SaneRetryLimit(cfg)
    ensures Inv(cfg, s, Visit(cfg, now, g, id, fails)) && Evolves(cfg, g, Visit(cfg, now, g, id, fails))
  {
    hide Inv, Evolves, Append, Legal, TimeoutEvent, Push, SaneRetryLimit;
    var g' := Visit(cfg, now, g, id, fails);
    if id in g.inflight {
      LeasedIsLoaded(cfg, s, g, id);
      if g.inflight[id].bucketTick <= g.base && g.inflight[id].deadline <= now {
        var g1 := g.(next := g.next + 1);
        var e := TimeoutEvent(cfg, now, g.next, id, g.runtime[id].retry);
        InvIdle(cfg, s, g, g1);
        EvolvesIdle(cfg, g, g1);
        ExpireIsLegal(cfg, s, now, g, id);
        AppendKeeps(cfg, s, g1, e, fails);
        EvolvesTransitive(cfg, g, g1, g');
      } else {
        InvIdle(cfg, s, g, g');
        EvolvesIdle(cfg, g, g');
      }
    } else {
      EvolvesIdle(cfg, g, g');
    }
  }

  lemma {:induction false} VisitAllKeeps(cfg: Config, s: Session, now: nat, g: Group, bucket: seq<Id>, fails: set<nat>)
    requires Inv(cfg, s, g) && SaneRetryLimit(cfg)
    ensures Inv(cfg, s, VisitAll(cfg, now, g, bucket, fails)) && Evolves(cfg, g, VisitAll(cfg, now, g, bucket, fails))
    decreases |bucket|
  {
    hide Inv, Evolves, Visit;
    if bucket == [] {
      EvolvesIdle(cfg, g, g);
    } else {
      var g1 := Visit(cfg, now, g, bucket[0], fails);
      VisitKeeps(cfg, s, now, g, bucket[0], fails);
      VisitAllKeeps(cfg, s, now, g1, bucket[1..], fails);
      EvolvesTransitive(cfg, g, g1, VisitAll(cfg, now, g, bucket, fails));
    }
  }

  lemma {:induction false} VisitSlotKeeps(cfg: Config, s: Session, now: nat, g: Group, fails: set<nat>)
    requires Inv(cfg, s, g) && SaneRetryLimit(cfg)
    ensures Inv(cfg, s, VisitSlot(cfg, now, g, fails)) && Evolves(cfg, g, VisitSlot(cfg, now, g, fails))
  {
    hide Inv, Evolves, VisitAll;
    var g0 := TakeSlot(g);
    var bucket := g.wheel[g.base % SLOTS];
    var g1 := VisitAll(cfg, now, g0, bucket, fails);
    InvIdle(cfg, s, g, g0);
    EvolvesIdle(cfg, g, g0);
    VisitAllKeeps(cfg, s, now, g0, bucket, fails);
    EvolvesTransitive(cfg, g, g0, g1);
    var g2 := g1.(base := g1.base + 1);
    InvIdle(cfg, s, g1, g2);
    EvolvesIdle(cfg, g1, g2);
    EvolvesTransitive(cfg, g, g1, g2);
  }

  lemma {:induction false} AdvanceKeeps(cfg: Config, s: Session, now: nat, g: Group, fails: set<nat>)
    requires Inv(cfg, s, g) && SaneRetryLimit(cfg)
    ensures Inv(cfg, s, Advance(cfg, now, g, fails)) && Evolves(cfg, g, Advance(cfg, now, g, fails))
    decreases TicksLeft(cfg, now, g)
  {
    VisitSlotTakesOneTick(cfg, now, g, fails);
    hide Inv, Evolves, VisitSlot;
    if g.base <= now / Tick(cfg) {
      var g1 := VisitSlot(cfg, now, g, fails);
      VisitSlotKeeps(cfg, s, now, g, fails);
      AdvanceKeeps(cfg, s, now, g1, fails);
      EvolvesTransitive(cfg, g, g1, Advance(cfg, now, g, fails));
    } else {
      EvolvesIdle(cfg, g, g);
    }
  }

  lemma VisitSlotTakesOneTick(cfg: Config, now: nat, g: Group, fails: set<nat>)
    ensures VisitSlot(cfg, now, g, fails).base == g.base + 1
  {
  }

  lemma {:induction false} AdvanceBase(cfg: Config, now: nat, g: Group, fails: set<nat>)
    ensures Advance(cfg, now, g, fails).base == if g.base <= now / Tick(cfg) then now / Tick(cfg) + 1 else g.base
    decreases TicksLeft(cfg, now, g)
  {
    VisitSlotTakesOneTick(cfg, now, g, fails);
    hide VisitSlot;
    if g.base <= now / Tick(cfg) {
      AdvanceBase(cfg, now, VisitSlot(cfg, now, g, fails), fails);
    }
  }

  // ---------------------------------------------------------------------------------------------
  // Only due leases end, and they end in a retry or in DEAD
  // ---------------------------------------------------------------------------------------------

  ghost predicate TimedOut(cfg: Config, now: nat, id: Id, before: Runtime, after: Runtime) {
    after == RuntimeAfter(before, TimeoutEvent(cfg, now, after.sequence, id, before.retry))
  }

  ghost predicate LeaseReaped(cfg: Config, now: nat, g: Group, g': Group, id: Id) {
    && (id in g'.inflight ==> id in g.inflight && g'.inflight[id] == g.inflight[id])
    && (id in g.runtime <==> id in g'.runtime)
    && (id in g.runtime ==>
      if id in g.inflight && id !in g'.inflight
      then g.inflight[id].deadline <= now && TimedOut(cfg, now, id, g.runtime[id], g'.runtime[id])
      else g'.runtime[id] == g.runtime[id])
  }

  // No lease appears or changes; one that disappears was due and timed out; nothing else changes.
  ghost predicate Reaped(cfg: Config, now: nat, g: Group, g': Group) {
    forall id :: LeaseReaped(cfg, now, g, g', id)
  }

  lemma {:induction false} ReapedTransitive(cfg: Config, now: nat, a: Group, b: Group, c: Group)
    requires Reaped(cfg, now, a, b) && Reaped(cfg, now, b, c)
    ensures Reaped(cfg, now, a, c)
  {
    hide TimedOut;
    forall id
      ensures LeaseReaped(cfg, now, a, c, id)
    {
      assert LeaseReaped(cfg, now, a, b, id) && LeaseReaped(cfg, now, b, c, id);
    }
  }

  lemma {:induction false} ReapedIdle(cfg: Config, now: nat, g: Group, g': Group)
    requires g'.inflight == g.inflight && g'.runtime == g.runtime
    ensures Reaped(cfg, now, g, g')
  {
    hide TimedOut;
  }

  lemma {:induction false} ExpireReaps(cfg: Config, now: nat, g: Group, id: Id, fails: set<nat>)
    requires id in g.runtime && id in g.inflight && g.inflight[id].deadline <= now
    ensures Reaped(cfg, now, g, Expire(cfg, now, g, id, fails))
  {
    var e := TimeoutEvent(cfg, now, g.next, id, g.runtime[id].retry);
    var g1 := g.(next := g.next + 1);
    var g2 := g1.(log := g1.log + [e]);
    ApplyFields(Tick(cfg), g2, e);
    assert e.state != InFlight && e.id == id && e.sequence == g.next;
    hide Apply, TimeoutEvent, Tick;
  }

  lemma {:induction false} VisitReaps(cfg: Config, s: Session, now: nat, g: Group, id: Id, fails: set<nat>)
    requires Inv(cfg, s, g)
    ensures Reaped(cfg, now, g, Visit(cfg, now, g, id, fails))
  {
    hide Inv, Expire, Reaped, Push;
    if id in g.inflight {
      LeasedIsLoaded(cfg, s, g, id);
      if g.inflight[id].bucketTick <= g.base && g.inflight[id].deadline <= now {
        ExpireReaps(cfg, now, g, id, fails);
      } else {
        ReapedIdle(cfg, now, g, Visit(cfg, now, g, id, fails));
      }
    } else {
      ReapedIdle(cfg, now, g, Visit(cfg, now, g, id, fails));
    }
  }

  lemma {:induction false} VisitAllReaps(cfg: Config, s: Session, now: nat, g: Group, bucket: seq<Id>, fails: set<nat>)
    requires Inv(cfg, s, g) && SaneRetryLimit(cfg)
    ensures Reaped(cfg, now, g, VisitAll(cfg, now, g, bucket, fails))
    decreases |bucket|
  {
    hide Inv, Reaped, Visit;
    if bucket == [] {
      ReapedIdle(cfg, now, g, g);
    } else {
      var g1 := Visit(cfg, now, g, bucket[0], fails);
      VisitKeeps(cfg, s, now, g, bucket[0], fails);
      VisitReaps(cfg, s, now, g, bucket[0], fails);
      VisitAllReaps(cfg, s, now, g1, bucket[1..], fails);
      ReapedTransitive(cfg, now, g, g1, VisitAll(cfg, now, g, bucket, fails));
    }
  }

  lemma {:induction false} VisitSlotReaps(cfg: Config, s: Session, now: nat, g: Group, fails: set<nat>)
    requires Inv(cfg, s, g) && SaneRetryLimit(cfg)
    ensures Reaped(cfg, now, g, VisitSlot(cfg, now, g, fails))
  {
    hide Inv, Reaped, VisitAll;
    var g0 := TakeSlot(g);
    var g1 := VisitAll(cfg, now, g0, g.wheel[g.base % SLOTS], fails);
    InvIdle(cfg, s, g, g0);
    ReapedIdle(cfg, now, g, g0);
    VisitAllReaps(cfg, s, now, g0, g.wheel[g.base % SLOTS], fails);
    ReapedTransitive(cfg, now, g, g0, g1);
    ReapedIdle(cfg, now, g1, g1.(base := g1.base + 1));
    ReapedTransitive(cfg, now, g, g1, g1.(base := g1.base + 1));
  }

  lemma {:induction false} AdvanceReaps(cfg: Config, s: Session, now: nat, g: Group, fails: set<nat>)
    requires Inv(cfg, s, g) && SaneRetryLimit(cfg)
    ensures Reaped(cfg, now, g, Advance(cfg, now, g, fails))
    decreases TicksLeft(cfg, now, g)
  {
    VisitSlotTakesOneTick(cfg, now, g, fails);
    hide Inv, Reaped, VisitSlot;
    if g.base <= now / Tick(cfg) {
      var g1 := VisitSlot(cfg, now, g, fails);
      VisitSlotKeeps(cfg, s, now, g, fails);
      VisitSlotReaps(cfg, s, now, g, fails);
      AdvanceReaps(cfg, s, now, g1, fails);
      ReapedTransitive(cfg, now, g, g1, Advance(cfg, now, g, fails));
    } else {
      ReapedIdle(cfg, now, g, g);
    }
  }

  // ---------------------------------------------------------------------------------------------
  // Every lease stays registered, less than a lap ahead, and is dropped neither early nor for long
  // ---------------------------------------------------------------------------------------------

  // Every lease sits in the slot of its tick, and its tick is less than a lap ahead of the wheel.
  ghost predicate Registered(g: Group) {
    forall id :: id in g.inflight ==>
      && g.inflight[id].bucketTick < g.base + SLOTS
      && id in g.wheel[g.inflight[id].bucketTick % SLOTS]
  }

  ghost predicate TicksFit(tick: nat, g: Group)
    requires tick >= 1
  {
    forall id :: id in g.inflight ==> g.inflight[id].bucketTick == g.inflight[id].deadline / tick
  }

  // A lease seen at tick v of its slot is spared only at its own tick, and only if it is not due.
  ghost predicate Spared(lease: Lease, v: nat, now: nat) {
    v == lease.bucketTick && lease.deadline > now
  }

  // While the ids of the slot of g.base are visited: a lease of that slot is either still to be visited or
  // was spared and put back.
  ghost predicate RegisteredBut(g: Group, bucket: seq<Id>, now: nat) {
    forall id :: id in g.inflight ==>
      var t := g.inflight[id].bucketTick;
      && t < g.base + SLOTS
      && (if t % SLOTS == g.base % SLOTS
          then id in bucket || (id in g.wheel[t % SLOTS] && Spared(g.inflight[id], g.base, now))
          else id in g.wheel[t % SLOTS])
  }

  lemma SameSlotIsNow(t: nat, base: nat)
    requires t % SLOTS == base % SLOTS && t < base + SLOTS
    ensures t <= base
  {
  }

  lemma MulMonotone(a: nat, b: nat, c: nat)
    ensures a <= b ==> a * c <= b * c
  {
  }

  lemma TickSpan(t: nat, tick: nat)
    requires tick >= 1
    ensures (t / tick) * tick <= t < (t / tick + 1) * tick
  {
  }

  lemma {:induction false} DueAfterItsTick(tick: nat, deadline: nat, base: nat, now: nat)
    requires tick >= 1 && deadline > now && deadline / tick <= base <= now / tick
    ensures deadline / tick == base
  {
    TickSpan(deadline, tick);
    TickSpan(now, tick);
    MulMonotone(deadline / tick + 1, now / tick, tick);
  }

  lemma PushKeeps(wheel: Wheel, t: nat, id: Id, other: Id, slot: nat)
    requires slot < SLOTS
    ensures id in Push(wheel, t, id)[t % SLOTS]
    ensures other in wheel[slot] ==> other in Push(wheel, t, id)[slot]
  {
  }

  lemma {:induction false} PutBackRegisters(g: Group, id: Id, bucket: seq<Id>, now: nat, tick: nat)
    requires tick >= 1 && TicksFit(tick, g) && g.base <= now / tick
    requires bucket != [] && bucket[0] == id && RegisteredBut(g, bucket, now)
    requires id in g.inflight && g.inflight[id].bucketTick <= g.base && g.inflight[id].deadline > now
    ensures RegisteredBut(g.(wheel := Push(g.wheel, g.inflight[id].bucketTick, id)), bucket[1..], now)
  {
    var lease := g.inflight[id];
    DueAfterItsTick(tick, lease.deadline, g.base, now);
    hide Push;
    var g' := g.(wheel := Push(g.wheel, lease.bucketTick, id));
    forall other | other in g'.inflight
      ensures var t := g'.inflight[other].bucketTick;
        && t < g'.base + SLOTS
        && (if t % SLOTS == g'.base % SLOTS
            then other in bucket[1..] || (other in g'.wheel[t % SLOTS] && Spared(g'.inflight[other], g'.base, now))
            else other in g'.wheel[t % SLOTS])
    {
      PushKeeps(g.wheel, lease.bucketTick, id, other, g.inflight[other].bucketTick % SLOTS);
    }
  }

  lemma {:induction false} ExpireRegisters(cfg: Config, g: Group, id: Id, bucket: seq<Id>, now: nat)
    requires bucket != [] && bucket[0] == id && RegisteredBut(g, bucket, now)
    requires id in g.runtime
    ensures RegisteredBut(Expire(cfg, now, g, id, {}), bucket[1..], now)
    ensures Expire(cfg, now, g, id, {}).base == g.base
    ensures Expire(cfg, now, g, id, {}).inflight == g.inflight - {id}
  {
    var e := TimeoutEvent(cfg, now, g.next, id, g.runtime[id].retry);
    var g1 := g.(next := g.next + 1);
    ApplyFields(Tick(cfg), g1.(log := g1.log + [e]), e);
    assert e.state != InFlight && e.id == id;
    hide Apply, TimeoutEvent, Tick;
  }

  lemma {:induction false} SkipRegisters(g: Group, bucket: seq<Id>, now: nat)
    requires bucket != [] && RegisteredBut(g, bucket, now)
    requires bucket[0] !in g.inflight || g.inflight[bucket[0]].bucketTick > g.base
    ensures RegisteredBut(g, bucket[1..], now)
  {
    if bucket[0] in g.inflight && g.inflight[bucket[0]].bucketTick % SLOTS == g.base % SLOTS {
      SameSlotIsNow(g.inflight[bucket[0]].bucketTick, g.base);
    }
  }

  lemma {:induction false} VisitRegisters(cfg: Config, s: Session, now: nat, g: Group, bucket: seq<Id>)
    requires Inv(cfg, s, g) && g.base <= now / Tick(cfg)
    requires bucket != [] && RegisteredBut(g, bucket, now)
    ensures RegisteredBut(Visit(cfg, now, g, bucket[0], {}), bucket[1..], now)
  {
    var id := bucket[0];
    var tick := Tick(cfg);
    LeasesFit(cfg, s, g);
    hide Inv, Expire, Push, Tick, RegisteredBut, TicksFit;
    if id in g.inflight && g.inflight[id].bucketTick <= g.base {
      LeasedIsLoaded(cfg, s, g, id);
      if g.inflight[id].deadline > now {
        PutBackRegisters(g, id, bucket, now, tick);
      } else {
        ExpireRegisters(cfg, g, id, bucket, now);
      }
    } else {
      SkipRegisters(g, bucket, now);
    }
  }

  lemma {:induction false} LeasesFit(cfg: Config, s: Session, g: Group)
    requires Inv(cfg, s, g)
    ensures TicksFit(Tick(cfg), g)
  {
    hide LastEvents, InFlightIds, RuntimeInSync, History, ProperDefaults;
  }

  lemma {:induction false} VisitAllRegisters(cfg: Config, s: Session, now: nat, g: Group, bucket: seq<Id>)
    requires Inv(cfg, s, g) && SaneRetryLimit(cfg) && g.base <= now / Tick(cfg)
    requires RegisteredBut(g, bucket, now)
    ensures RegisteredBut(VisitAll(cfg, now, g, bucket, {}), [], now)
    decreases |bucket|
  {
    hide Inv, RegisteredBut;
    if bucket != [] {
      VisitKeepsBase(cfg, now, g, bucket[0], {});
      VisitKeeps(cfg, s, now, g, bucket[0], {});
      VisitRegisters(cfg, s, now, g, bucket);
      hide Visit;
      VisitAllRegisters(cfg, s, now, Visit(cfg, now, g, bucket[0], {}), bucket[1..]);
    }
  }

  lemma VisitKeepsBase(cfg: Config, now: nat, g: Group, id: Id, fails: set<nat>)
    ensures Visit(cfg, now, g, id, fails).base == g.base
  {
  }

  lemma {:induction false} VisitSlotRegisters(cfg: Config, s: Session, now: nat, g: Group)
    requires Inv(cfg, s, g) && SaneRetryLimit(cfg) && g.base <= now / Tick(cfg) && Registered(g)
    ensures Registered(VisitSlot(cfg, now, g, {}))
    ensures var after := VisitSlot(cfg, now, g, {}).inflight;
      forall id :: id in after && after[id].bucketTick % SLOTS == g.base % SLOTS ==> Spared(after[id], g.base, now)
  {
    var bucket := g.wheel[g.base % SLOTS];
    var g0 := TakeSlot(g);
    hide Inv, VisitAll, Registered, RegisteredBut, Spared, Tick;
    InvIdle(cfg, s, g, g0);
    TakeSlotRegisters(g, now);
    VisitAllRegisters(cfg, s, now, g0, bucket);
    NextSlotRegisters(VisitAll(cfg, now, g0, bucket, {}), now);
  }

  lemma {:induction false} TakeSlotRegisters(g: Group, now: nat)
    requires Registered(g)
    ensures RegisteredBut(TakeSlot(g), g.wheel[g.base % SLOTS], now)
  {
    hide Spared;
  }

  lemma NextSlotRegisters(g: Group, now: nat)
    requires RegisteredBut(g, [], now)
    ensures Registered(g.(base := g.base + 1))
    ensures forall id ::
      id in g.inflight && g.inflight[id].bucketTick % SLOTS == g.base % SLOTS ==> Spared(g.inflight[id], g.base, now)
  {
  }

  // Every tick of the lease's slot that the wheel passed from `from` to `to` spared it.
  ghost predicate PassedOver(lease: Lease, from: nat, to: nat, now: nat) {
    forall v :: from <= v < to && v % SLOTS == lease.bucketTick % SLOTS ==> Spared(lease, v, now)
  }

  // A reap whose appends succeed keeps every lease registered, and passes over a lease only at the tick
  // of its deadline, and only while it is not due.
  lemma {:induction false} AdvanceRegisters(cfg: Config, s: Session, now: nat, g: Group)
    requires Inv(cfg, s, g) && SaneRetryLimit(cfg) && Registered(g)
    ensures Registered(Advance(cfg, now, g, {}))
    ensures forall id :: id in Advance(cfg, now, g, {}).inflight ==>
      PassedOver(Advance(cfg, now, g, {}).inflight[id], g.base, Advance(cfg, now, g, {}).base, now)
    decreases TicksLeft(cfg, now, g)
  {
    VisitSlotTakesOneTick(cfg, now, g, {});
    hide Inv, VisitSlot, Registered, Spared;
    if g.base <= now / Tick(cfg) {
      var g1 := VisitSlot(cfg, now, g, {});
      var g2 := Advance(cfg, now, g1, {});
      VisitSlotKeeps(cfg, s, now, g, {});
      VisitSlotRegisters(cfg, s, now, g);
      AdvanceRegisters(cfg, s, now, g1);
      AdvanceReaps(cfg, s, now, g1, {});
      forall id | id in g2.inflight
        ensures PassedOver(g2.inflight[id], g.base, g2.base, now)
      {
        assert LeaseReaped(cfg, now, g1, g2, id);
        assert PassedOver(g2.inflight[id], g1.base, g2.base, now);
      }
    }
  }

  // The next tick of the slot of t that comes both after t and not before base.
  function NextVisit(t: nat, base: nat): (v: nat)
    ensures v % SLOTS == t % SLOTS && v > t && v >= base
    ensures v <= (if t >= base then t else base) + SLOTS
  {
    if t >= base then t + SLOTS
    else
      var gap := (base - t) % SLOTS;
      SlotAfter(t, base, gap);
      if gap == 0 then base else base + (SLOTS - gap)
  }

  lemma {:induction false} SlotAfter(t: nat, base: nat, gap: nat)
    requires t < base && gap == (base - t) % SLOTS
    ensures gap == 0 ==> base % SLOTS == t % SLOTS
    ensures (base + (SLOTS - gap)) % SLOTS == t % SLOTS
  {
    assert base - t == (base - t) / SLOTS * SLOTS + gap;
    assert base - gap == t + (base - t) / SLOTS * SLOTS;
    assert base + (SLOTS - gap) == t + ((base - t) / SLOTS + 1) * SLOTS;
    ModPlusLaps(t, (base - t) / SLOTS);
    ModPlusLaps(t, (base - t) / SLOTS + 1);
  }

  lemma ModPlusLaps(t: nat, laps: nat)
    ensures (t + laps * SLOTS) % SLOTS == t % SLOTS
  {
  }

  // A lease does not outlive the next visit to its slot after its tick.
  lemma {:induction false} SurvivorNotYetVisited(cfg: Config, s: Session, now: nat, g: Group, id: Id)
    requires Inv(cfg, s, g) && SaneRetryLimit(cfg) && Registered(g)
    requires id in Advance(cfg, now, g, {}).inflight
    ensures id in g.inflight && Advance(cfg, now, g, {}).inflight[id] == g.inflight[id]
    ensures g.base <= now / Tick(cfg) ==> now / Tick(cfg) < NextVisit(g.inflight[id].bucketTick, g.base)
  {
    hide Inv, Registered, Advance, NextVisit;
    var g' := Advance(cfg, now, g, {});
    AdvanceRegisters(cfg, s, now, g);
    AdvanceReaps(cfg, s, now, g, {});
    AdvanceBase(cfg, now, g, {});
    assert LeaseReaped(cfg, now, g, g', id);
    var lease := g'.inflight[id];
    var v := NextVisit(lease.bucketTick, g.base);
    assert PassedOver(lease, g.base, g'.base, now);
    assert v < g'.base ==> Spared(lease, v, now);
  }

  // ---------------------------------------------------------------------------------------------
  // With a 1 ms tick the wheel is the scan of all leases
  // ---------------------------------------------------------------------------------------------

  lemma FitsOneTick(g: Group, id: Id)
    requires TicksFit(1, g) && id in g.inflight
    ensures g.inflight[id].bucketTick == g.inflight[id].deadline
  {
  }

  lemma {:induction false} PassedOverAtItsTick(lease: Lease, from: nat, to: nat, now: nat)
    requires PassedOver(lease, from, to, now)
    ensures from <= lease.bucketTick < to ==> lease.deadline > now
  {
    assert from <= lease.bucketTick < to ==> Spared(lease, lease.bucketTick, now);
  }

  // With a 1 ms tick, the leases whose deadline the wheel has not passed yet expire in the first reap at
  // or after their deadline: exactly the set a scan of all leases would expire.
  lemma {:induction false} ReapIsScan(cfg: Config, s: Session, now: nat, g: Group, id: Id)
    requires Inv(cfg, s, g) && SaneRetryLimit(cfg) && Registered(g) && Tick(cfg) == 1
    requires id in g.inflight && g.inflight[id].deadline >= g.base
    ensures id in Advance(cfg, now, g, {}).inflight <==> g.inflight[id].deadline > now
  {
    LeasesFit(cfg, s, g);
    hide Inv, Registered, Advance, Tick, PassedOver, TimedOut, TicksFit;
    assert g.inflight[id].bucketTick == g.inflight[id].deadline by {
      FitsOneTick(g, id);
    }
    var g' := Advance(cfg, now, g, {});
    AdvanceReaps(cfg, s, now, g, {});
    AdvanceRegisters(cfg, s, now, g);
    AdvanceBase(cfg, now, g, {});
    assert LeaseReaped(cfg, now, g, g', id);
    LeasedIsLoaded(cfg, s, g, id);
    if id in g'.inflight {
      PassedOverAtItsTick(g.inflight[id], g.base, g'.base, now);
    }
  }

  // ---------------------------------------------------------------------------------------------
  // Reaps whose appends succeed
  // ---------------------------------------------------------------------------------------------

  // None of the sequence numbers from lo up to hi fails.
  ghost predicate SucceedsFrom(fails: set<nat>, lo: nat, hi: nat) {
    forall sequence :: sequence in fails ==> !(lo <= sequence < hi)
  }

  // Every append of the reap succeeds; others, such as that of a delivery after it, may fail.
  ghost predicate ReapSucceeds(cfg: Config, now: nat, g: Group, fails: set<nat>) {
    SucceedsFrom(fails, g.next, Advance(cfg, now, g, {}).next)
  }

  lemma {:induction false} VisitTakesNext(cfg: Config, now: nat, g: Group, id: Id, fails: set<nat>)
    ensures g.next <= Visit(cfg, now, g, id, {}).next
    ensures g.next !in fails || g.next == Visit(cfg, now, g, id, {}).next ==>
      Visit(cfg, now, g, id, fails) == Visit(cfg, now, g, id, {})
  {
    hide Push, Tick, RuntimeAfter, LeaseOf;
  }

  lemma {:induction false} VisitAllTakesNext(cfg: Config, now: nat, g: Group, bucket: seq<Id>, fails: set<nat>)
    ensures g.next <= VisitAll(cfg, now, g, bucket, {}).next
    ensures SucceedsFrom(fails, g.next, VisitAll(cfg, now, g, bucket, {}).next) ==>
      VisitAll(cfg, now, g, bucket, fails) == VisitAll(cfg, now, g, bucket, {})
    decreases |bucket|
  {
    hide Visit;
    if bucket != [] {
      VisitTakesNext(cfg, now, g, bucket[0], fails);
      VisitAllTakesNext(cfg, now, Visit(cfg, now, g, bucket[0], {}), bucket[1..], fails);
    }
  }

  lemma {:induction false} VisitSlotTakesNext(cfg: Config, now: nat, g: Group, fails: set<nat>)
    ensures g.next <= VisitSlot(cfg, now, g, {}).next
    ensures SucceedsFrom(fails, g.next, VisitSlot(cfg, now, g, {}).next) ==>
      VisitSlot(cfg, now, g, fails) == VisitSlot(cfg, now, g, {})
  {
    hide VisitAll, SucceedsFrom;
    VisitAllTakesNext(cfg, now, TakeSlot(g), g.wheel[g.base % SLOTS], fails);
  }

  lemma {:induction false} AdvanceTakesNext(cfg: Config, now: nat, g: Group, fails: set<nat>)
    ensures g.next <= Advance(cfg, now, g, {}).next
    ensures ReapSucceeds(cfg, now, g, fails) ==> Advance(cfg, now, g, fails) == Advance(cfg, now, g, {})
    decreases TicksLeft(cfg, now, g)
  {
    VisitSlotTakesOneTick(cfg, now, g, {});
    VisitSlotTakesOneTick(cfg, now, g, fails);
    hide VisitSlot;
    if g.base <= now / Tick(cfg) {
      VisitSlotTakesNext(cfg, now, g, fails);
      AdvanceTakesNext(cfg, now, VisitSlot(cfg, now, g, {}), fails);
    }
  }
}
