// Leases the wheel will never reach again. An entry is taken from its slot and dropped when its tick lies in
// a later lap or when the append of its expiry fails; a lease left without an entry stays until somebody
// acknowledges it or the process restarts.
module LostLeases {
  import opened Transitions
  import opened Legality
  import opened Wheel

  // The next tick at which the wheel, standing at base, takes a slot.
  function Arrival(slot: nat, base: nat): (v: nat)
    requires slot < SLOTS
    ensures base <= v < base + SLOTS && v % SLOTS == slot
  {
    var here := base % SLOTS;
    ArrivalSlot(slot, base);
    if here <= slot then base + (slot - here) else base + (slot + SLOTS - here)
  }

  lemma ArrivalSlot(slot: nat, base: nat)
    requires slot < SLOTS
    ensures
      var here := base % SLOTS;
      (if here <= slot then base + (slot - here) else base + (slot + SLOTS - here)) % SLOTS == slot
  {
  }

  lemma {:induction false} ArrivalStays(slot: nat, base: nat)
    requires slot < SLOTS
    ensures if slot == base % SLOTS then Arrival(slot, base) == base else Arrival(slot, base + 1) == Arrival(slot, base)
  {
    SameResidue(Arrival(slot, base), Arrival(slot, base + 1));
  }

  lemma SameResidue(a: nat, b: nat)
    ensures a % SLOTS == b % SLOTS && a < b + SLOTS && b < a + SLOTS ==> a == b
  {
  }

  // Some entry of the message is reached at the tick of its lease or later.
  ghost predicate Awaited(g: Group, id: Id)
    requires id in g.inflight
  {
    exists slot :: 0 <= slot < SLOTS && AwaitedIn(g, id, slot)
  }

  ghost predicate AwaitedIn(g: Group, id: Id, slot: nat)
    requires id in g.inflight && slot < SLOTS
  {
    id in g.wheel[slot] && g.inflight[id].bucketTick <= Arrival(slot, g.base)
  }

  ghost predicate Lost(g: Group, id: Id) {
    id in g.inflight && !Awaited(g, id)
  }

  ghost function LostIds(g: Group): set<Id> {
    set id | id in g.inflight && Lost(g, id)
  }

  // ---------------------------------------------------------------------------------------------
  // A lost lease stays lost
  // ---------------------------------------------------------------------------------------------

  // No entry of the message in b that was not there in a.
  ghost predicate NoNewEntry(a: Transitions.Wheel, b: Transitions.Wheel, id: Id) {
    forall slot :: 0 <= slot < SLOTS && id in b[slot] ==> id in a[slot]
  }

  lemma {:induction false} FewerEntriesLost(g: Group, g': Group, id: Id)
    requires Lost(g, id) && g'.base == g.base && id in g'.inflight && g'.inflight[id] == g.inflight[id]
    requires NoNewEntry(g.wheel, g'.wheel, id)
    ensures Lost(g', id)
  {
    if Awaited(g', id) {
      var slot :| 0 <= slot < SLOTS && AwaitedIn(g', id, slot);
      assert AwaitedIn(g, id, slot);
    }
  }

  lemma PushNoNewEntry(wheel: Transitions.Wheel, tick: nat, other: Id, id: Id)
    requires other != id
    ensures NoNewEntry(wheel, Push(wheel, tick, other), id)
  {
  }

  // A visit leaves alone what does not concern its message.
  lemma {:induction false} VisitOfOther(cfg: Config, now: nat, g: Group, other: Id, fails: set<nat>, id: Id)
    requires id in g.inflight && (other != id || g.inflight[id].bucketTick > g.base)
    ensures var g' := Visit(cfg, now, g, other, fails);
      g'.base == g.base && id in g'.inflight && g'.inflight[id] == g.inflight[id] && NoNewEntry(g.wheel, g'.wheel, id)
  {
    hide Push, TimeoutEvent, NoNewEntry, Tick;
    SameEntries(g.wheel, id);
    if other != id && other in g.inflight && g.inflight[other].bucketTick <= g.base {
      if g.inflight[other].deadline > now {
        PushNoNewEntry(g.wheel, g.inflight[other].bucketTick, other, id);
      } else if other in g.runtime {
        ExpireFields(cfg, now, g, other, fails);
      }
    }
  }

  lemma SameEntries(wheel: Transitions.Wheel, id: Id)
    ensures NoNewEntry(wheel, wheel, id)
  {
  }

  lemma {:induction false} ExpireFields(cfg: Config, now: nat, g: Group, id: Id, fails: set<nat>)
    requires id in g.runtime
    ensures var g' := Expire(cfg, now, g, id, fails);
      && g'.base == g.base && g'.wheel == g.wheel
      && g'.inflight == if g.next in fails then g.inflight else g.inflight - {id}
  {
    var e := TimeoutEvent(cfg, now, g.next, id, g.runtime[id].retry);
    var g1 := g.(next := g.next + 1);
    assert e.state != InFlight && e.id == id && e.sequence == g.next;
    hide Apply, TimeoutEvent, Tick;
    ApplyFields(Tick(cfg), g1.(log := g1.log + [e]), e);
  }

  lemma NoNewEntryTransitive(a: Transitions.Wheel, b: Transitions.Wheel, c: Transitions.Wheel, id: Id)
    requires NoNewEntry(a, b, id) && NoNewEntry(b, c, id)
    ensures NoNewEntry(a, c, id)
  {
  }

  lemma {:induction false} VisitAllOfOthers(cfg: Config, now: nat, g: Group, bucket: seq<Id>, fails: set<nat>, id: Id)
    requires id in g.inflight && (id in bucket ==> g.inflight[id].bucketTick > g.base)
    ensures var g' := VisitAll(cfg, now, g, bucket, fails);
      id in g'.inflight && g'.inflight[id] == g.inflight[id] && NoNewEntry(g.wheel, g'.wheel, id)
    decreases |bucket|
  {
    hide Visit, NoNewEntry;
    SameEntries(g.wheel, id);
    if bucket != [] {
      var g1 := Visit(cfg, now, g, bucket[0], fails);
      VisitOfOther(cfg, now, g, bucket[0], fails, id);
      VisitAllOfOthers(cfg, now, g1, bucket[1..], fails, id);
      NoNewEntryTransitive(g.wheel, g1.wheel, VisitAll(cfg, now, g, bucket, fails).wheel, id);
    }
  }

  lemma {:induction false} VisitSlotKeepsLost(cfg: Config, now: nat, g: Group, fails: set<nat>, id: Id)
    requires Lost(g, id)
    ensures Lost(VisitSlot(cfg, now, g, fails), id) && VisitSlot(cfg, now, g, fails).inflight[id] == g.inflight[id]
  {
    hide VisitAll;
    var here := g.base % SLOTS;
    ArrivalStays(here, g.base);
    NotAwaitedIn(g, id, here);
    VisitAllOfOthers(cfg, now, TakeSlot(g), g.wheel[here], fails, id);
    var g1 := VisitAll(cfg, now, TakeSlot(g), g.wheel[here], fails);
    var g2 := VisitSlot(cfg, now, g, fails);
    hide Arrival, TakeSlot, VisitSlot;
    assert g2 == g1.(base := g.base + 1);
    forall slot | 0 <= slot < SLOTS
      ensures !AwaitedIn(g2, id, slot)
    {
      NotAwaitedIn(g, id, slot);
      ArrivalStays(slot, g.base);
      TakenSlot(g, slot, id);
    }
  }

  lemma NotAwaitedIn(g: Group, id: Id, slot: nat)
    requires Lost(g, id) && slot < SLOTS
    ensures !AwaitedIn(g, id, slot)
  {
  }

  lemma TakenSlot(g: Group, slot: nat, id: Id)
    requires slot < SLOTS
    ensures id in TakeSlot(g).wheel[slot] <==> slot != g.base % SLOTS && id in g.wheel[slot]
  {
  }

  // Whatever the reap's clock and however its appends fare, it does not end a lost lease or find it again.
  lemma {:induction false} AdvanceKeepsLost(cfg: Config, now: nat, g: Group, fails: set<nat>, id: Id)
    requires Lost(g, id)
    ensures Lost(Advance(cfg, now, g, fails), id) && Advance(cfg, now, g, fails).inflight[id] == g.inflight[id]
    decreases TicksLeft(cfg, now, g)
  {
    VisitSlotTakesOneTick(cfg, now, g, fails);
    hide VisitSlot, Lost;
    if g.base <= now / Tick(cfg) {
      VisitSlotKeepsLost(cfg, now, g, fails, id);
      LostIsLeased(VisitSlot(cfg, now, g, fails), id);
      AdvanceKeepsLost(cfg, now, VisitSlot(cfg, now, g, fails), fails, id);
    }
    LostIsLeased(g, id);
    LostIsLeased(Advance(cfg, now, g, fails), id);
  }

  lemma LostIsLeased(g: Group, id: Id)
    ensures Lost(g, id) ==> id in g.inflight
  {
  }

  // ---------------------------------------------------------------------------------------------
  // A lease that is not lost ends within one lap
  // ---------------------------------------------------------------------------------------------

  lemma {:induction false} VisitKeepsEntries(cfg: Config, now: nat, g: Group, other: Id, id: Id, slot: nat)
    requires slot < SLOTS && id in g.wheel[slot]
    ensures id in Visit(cfg, now, g, other, {}).wheel[slot]
  {
    hide Push, TimeoutEvent, Tick, Expire;
    if other in g.inflight && g.inflight[other].bucketTick <= g.base {
      if g.inflight[other].deadline > now {
        PushKeeps(g.wheel, g.inflight[other].bucketTick, other, id, slot);
      } else if other in g.runtime {
        ExpireFields(cfg, now, g, other, {});
      }
    }
  }

  lemma {:induction false} VisitAllKeepsEntries(cfg: Config, now: nat, g: Group, bucket: seq<Id>, id: Id, slot: nat)
    requires slot < SLOTS && id in g.wheel[slot]
    ensures id in VisitAll(cfg, now, g, bucket, {}).wheel[slot]
    decreases |bucket|
  {
    hide Visit;
    if bucket != [] {
      VisitKeepsEntries(cfg, now, g, bucket[0], id, slot);
      VisitAllKeepsEntries(cfg, now, Visit(cfg, now, g, bucket[0], {}), bucket[1..], id, slot);
    }
  }

  // The lease is due, and the wheel has reached its tick.
  ghost predicate DueAt(g: Group, id: Id, now: nat, v: nat)
    requires id in g.inflight
  {
    g.inflight[id].deadline <= now && g.inflight[id].bucketTick <= v
  }

  lemma {:induction false} VisitEnds(cfg: Config, s: Session, now: nat, g: Group, id: Id)
    requires Inv(cfg, s, g) && id in g.inflight && DueAt(g, id, now, g.base)
    ensures id !in Visit(cfg, now, g, id, {}).inflight
  {
    hide Inv, Expire;
    LeasedIsLoaded(cfg, s, g, id);
    ExpireFields(cfg, now, g, id, {});
  }

  // The visits of a slot that holds a due lease end it.
  lemma {:induction false} VisitAllEnds(cfg: Config, s: Session, now: nat, g: Group, bucket: seq<Id>, id: Id)
    requires Inv(cfg, s, g) && SaneRetryLimit(cfg) && id in bucket
    requires id in g.inflight ==> DueAt(g, id, now, g.base)
    ensures id !in VisitAll(cfg, now, g, bucket, {}).inflight
    decreases |bucket|
  {
    hide Inv, Visit, SaneRetryLimit, TimedOut;
    var g1 := Visit(cfg, now, g, bucket[0], {});
    VisitKeepsBase(cfg, now, g, bucket[0], {});
    VisitKeeps(cfg, s, now, g, bucket[0], {});
    VisitReaps(cfg, s, now, g, bucket[0], {});
    assert LeaseReaped(cfg, now, g, g1, id);
    if bucket[0] == id {
      if id in g.inflight {
        VisitEnds(cfg, s, now, g, id);
      }
      VisitAllReaps(cfg, s, now, g1, bucket[1..], {});
      assert LeaseReaped(cfg, now, g1, VisitAll(cfg, now, g1, bucket[1..], {}), id);
    } else {
      VisitAllEnds(cfg, s, now, g1, bucket[1..], id);
    }
  }

  lemma {:induction false} VisitSlotEnds(cfg: Config, s: Session, now: nat, g: Group, id: Id)
    requires Inv(cfg, s, g) && SaneRetryLimit(cfg) && id in g.wheel[g.base % SLOTS]
    requires id in g.inflight ==> DueAt(g, id, now, g.base)
    ensures id !in VisitSlot(cfg, now, g, {}).inflight
  {
    hide Inv, VisitAll, SaneRetryLimit;
    InvIdle(cfg, s, g, TakeSlot(g));
    VisitAllEnds(cfg, s, now, TakeSlot(g), g.wheel[g.base % SLOTS], id);
  }

  lemma {:induction false} VisitSlotKeepsEntries(cfg: Config, now: nat, g: Group, id: Id, slot: nat)
    requires slot < SLOTS && slot != g.base % SLOTS && id in g.wheel[slot]
    ensures id in VisitSlot(cfg, now, g, {}).wheel[slot]
  {
    hide VisitAll;
    VisitAllKeepsEntries(cfg, now, TakeSlot(g), g.wheel[g.base % SLOTS], id, slot);
  }

  // A reap that gets to an entry of a due lease, at its tick or later, ends the lease.
  lemma {:induction false} AdvanceEnds(cfg: Config, s: Session, now: nat, g: Group, id: Id, slot: nat)
    requires Inv(cfg, s, g) && SaneRetryLimit(cfg) && slot < SLOTS && id in g.wheel[slot]
    requires Arrival(slot, g.base) <= now / Tick(cfg)
    requires id in g.inflight ==> DueAt(g, id, now, Arrival(slot, g.base))
    ensures id !in Advance(cfg, now, g, {}).inflight
    decreases TicksLeft(cfg, now, g)
  {
    VisitSlotTakesOneTick(cfg, now, g, {});
    hide Inv, VisitSlot, Arrival, SaneRetryLimit, TimedOut;
    var g1 := VisitSlot(cfg, now, g, {});
    VisitSlotKeeps(cfg, s, now, g, {});
    VisitSlotReaps(cfg, s, now, g, {});
    assert LeaseReaped(cfg, now, g, g1, id);
    ArrivalStays(slot, g.base);
    if slot == g.base % SLOTS {
      VisitSlotEnds(cfg, s, now, g, id);
      AdvanceReaps(cfg, s, now, g1, {});
      assert LeaseReaped(cfg, now, g1, Advance(cfg, now, g1, {}), id);
    } else {
      VisitSlotKeepsEntries(cfg, now, g, id, slot);
      AdvanceEnds(cfg, s, now, g1, id, slot);
    }
  }

  // A reap one lap on, its appends successful, leaves exactly the lost leases.
  lemma {:induction false} LapLeavesLost(cfg: Config, s: Session, now: nat, g: Group)
    requires Inv(cfg, s, g) && SaneRetryLimit(cfg) && now / Tick(cfg) >= g.base + SLOTS
    ensures Advance(cfg, now, g, {}).inflight.Keys == LostIds(g)
  {
    hide Inv, Advance, SaneRetryLimit, Arrival, TimedOut, TicksFit, Tick;
    var g' := Advance(cfg, now, g, {});
    LeasesFit(cfg, s, g);
    AdvanceReaps(cfg, s, now, g, {});
    forall id
      ensures id in g'.inflight <==> id in LostIds(g)
    {
      assert LeaseReaped(cfg, now, g, g', id);
      if Lost(g, id) {
        AdvanceKeepsLost(cfg, now, g, {}, id);
      } else if id in g.inflight {
        var slot :| 0 <= slot < SLOTS && AwaitedIn(g, id, slot);
        DueAfterLap(cfg, g, id, slot, now);
        AdvanceEnds(cfg, s, now, g, id, slot);
      }
    }
  }

  lemma {:induction false} DueAfterLap(cfg: Config, g: Group, id: Id, slot: nat, now: nat)
    requires TicksFit(Tick(cfg), g) && id in g.inflight && slot < SLOTS && AwaitedIn(g, id, slot)
    requires now / Tick(cfg) >= g.base + SLOTS
    ensures Arrival(slot, g.base) <= now / Tick(cfg) && DueAt(g, id, now, Arrival(slot, g.base))
  {
    hide Arrival, Tick;
    if g.inflight[id].deadline > now {
      DueAfterItsTick(Tick(cfg), g.inflight[id].deadline, g.base + SLOTS, now);
    }
  }

  // ---------------------------------------------------------------------------------------------
  // A registered lease is not lost
  // ---------------------------------------------------------------------------------------------

  lemma {:induction false} RegisteredNotLost(g: Group)
    requires Registered(g)
    ensures LostIds(g) == {}
  {
    forall id | id in g.inflight
      ensures !Lost(g, id)
    {
      var t := g.inflight[id].bucketTick;
      if t > Arrival(t % SLOTS, g.base) {
        SameResidue(t, Arrival(t % SLOTS, g.base));
      }
      assert AwaitedIn(g, id, t % SLOTS);
    }
  }

  // With every lease registered, a reap one lap on leaves none.
  lemma {:induction false} FullLapReapsEverything(cfg: Config, s: Session, now: nat, g: Group)
    requires Inv(cfg, s, g) && SaneRetryLimit(cfg) && Registered(g)
    requires now / Tick(cfg) >= g.base + SLOTS
    ensures Advance(cfg, now, g, {}).inflight == map[]
  {
    hide Inv, Advance, SaneRetryLimit, Registered, LostIds, Tick;
    LapLeavesLost(cfg, s, now, g);
    RegisteredNotLost(g);
    assert Advance(cfg, now, g, {}).inflight.Keys == {};
  }
}
