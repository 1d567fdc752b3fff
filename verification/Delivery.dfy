// Which message a consumer gets, in which order, and under which token.
module Delivery {
  import opened Transitions
  import opened Tokens
  import opened Legality
  import opened Wheel
  import opened Operations
  import opened Reachability
  import opened Runs

  // ---------------------------------------------------------------------------------------------
  // Order
  // ---------------------------------------------------------------------------------------------

  // An ascending list is determined by its elements: the ready list does not depend on the order in which
  // the runtime table is walked.
  lemma {:induction false} AscendingUnique(a: seq<nat>, b: seq<nat>)
    requires StrictlyAscending(a) && StrictlyAscending(b)
    requires forall x :: x in a <==> x in b
    ensures a == b
    decreases |a|
  {
    assert b != [] ==> b[0] in b;
    if a != [] {
      assert a[0] in a && a[0] in b;
      assert b[0] in b && b[0] in a;
      assert a[0] == b[0];
      forall x
        ensures x in a[1..] <==> x in b[1..]
      {
        TailMembers(a, x);
        TailMembers(b, x);
      }
      AscendingUnique(a[1..], b[1..]);
      assert a == [a[0]] + a[1..] && b == [b[0]] + b[1..];
    }
  }

  lemma {:induction false} TailMembers(s: seq<nat>, x: nat)
    requires s != [] && StrictlyAscending(s)
    ensures x in s[1..] <==> x in s && x != s[0]
  {
    if x in s[1..] {
      var k :| 0 <= k < |s[1..]| && s[1..][k] == x;
      assert s[k + 1] == x;
    }
  }

  lemma {:induction false} FirstIsLeast(s: set<nat>)
    ensures (Ascending(s) == []) <==> s == {}
    ensures Ascending(s) != [] ==> Ascending(s)[0] in s && forall x :: x in s ==> Ascending(s)[0] <= x
  {
    var r := Ascending(s);
    assert forall x :: x in s ==> x in r;
    hide Ascending;
    if r != [] {
      assert r[0] in r;
    }
  }

  // The ready list holds, in ascending order, exactly the offsets of the READY messages visible at that time.
  ghost predicate OffersAt(g: Group, now: nat) {
    && StrictlyAscending(g.ready)
    && forall offset :: offset in g.ready <==> Offered(g.runtime, now, offset)
  }

  ghost predicate Offered(runtime: map<Id, Runtime>, now: nat, offset: nat) {
    exists id :: id in runtime && runtime[id].offset == offset && Visible(runtime[id], now)
  }

  predicate Visible(r: Runtime, now: nat) {
    r.state == Ready && r.availableAfter <= now
  }

  lemma {:induction false} BuildReadyOffers(g: Group, now: nat)
    ensures OffersAt(BuildReady(g, now), now)
    ensures forall offset :: Offered(g.runtime, now, offset) <==> offset in Eligible(g.runtime, now)
  {
    hide StrictlyAscending;
  }

  // A consumer gets nothing exactly when the leases are used up or no message is READY and visible. Otherwise the
  // call fails exactly if the record cannot be read or the delivery cannot be logged, and then nothing is leased
  // or logged. In every other case, however the appends of the reap fared, the consumer gets the READY, visible
  // message of the least offset, which is then IN_FLIGHT under a new lease.
  lemma {:induction false} ConsumeDelivers(
    cfg: Config, owner: Text, w: World, clock: ConsumeClock, fails: set<nat>, readable: bool)
    requires WorldInv(cfg, w) && SaneRetryLimit(cfg) && w.Up?
    ensures
      var before := Reap(cfg, w.group, clock.scan, clock.ready, fails);
      var (after, outcome) := Consume(cfg, owner, w.segment, w.group, clock, fails, readable);
      var none := forall id :: id in before.runtime ==> !Visible(before.runtime[id], clock.ready);
      && OffersAt(before, clock.ready)
      && (outcome.Nothing? <==> |before.inflight.Keys| >= cfg.maxInflight || none)
      && (!outcome.Nothing? ==> (outcome.Failed? <==> !readable || before.next in fails))
      && (outcome.Nothing? ==> after == before)
      && (outcome.Failed? ==>
        after == before.(ready := before.ready[1..], next := if readable then before.next + 1 else before.next))
      && (!outcome.Nothing? && !outcome.Failed? ==>
        && outcome.Delivery? && outcome.id in before.runtime && outcome.id in after.runtime
        && before.runtime[outcome.id].offset == outcome.offset && Visible(before.runtime[outcome.id], clock.ready)
        && (forall id :: id in before.runtime && Visible(before.runtime[id], clock.ready) ==>
          outcome.offset <= before.runtime[id].offset)
        && outcome.deliveryCount == before.runtime[outcome.id].retry + 1
        && after.ready == before.ready[1..]
        && DeliveredAs(cfg, owner, before, after, outcome.id, clock.lease))
  {
    hide Inv, Eligible, Deliver, Advance, History, LastEvents, Defaults;
    hide SnapshotFits, UniqueIds, Ascending, OffsetsInSegment, DeliveredAs, SaneRetryLimit;
    var s, g := w.session, w.group;
    var before := Reap(cfg, g, clock.scan, clock.ready, fails);
    ReapKeeps(cfg, s, g, clock.scan, clock.ready, fails);
    BuildReadyOffers(Advance(cfg, clock.scan, g, fails), clock.ready);
    FirstIsLeast(Eligible(before.runtime, clock.ready));
    VisibleIsOffered(before.runtime, clock.ready);
    SessionOffsets(cfg, w);
    if |before.inflight.Keys| < cfg.maxInflight && before.ready != [] {
      var offset := before.ready[0];
      var g2 := before.(ready := before.ready[1..]);
      ReapOffers(cfg, s, w.segment, g, clock.scan, clock.ready, fails, offset);
      DeliverOutcome(cfg, owner, s, before, g2, offset, w.segment[offset], clock, fails);
    }
  }

  lemma {:induction false} VisibleIsOffered(runtime: map<Id, Runtime>, now: nat)
    ensures forall id :: id in runtime && Visible(runtime[id], now) ==> runtime[id].offset in Eligible(runtime, now)
    ensures Eligible(runtime, now) == {} <==> forall id :: id in runtime ==> !Visible(runtime[id], now)
  {
    forall id | id in runtime && Visible(runtime[id], now)
      ensures runtime[id].offset in Eligible(runtime, now)
    {
    }
    if offset :| offset in Eligible(runtime, now) {
      var id :| id in runtime && runtime[id].offset == offset && Visible(runtime[id], now);
    }
  }

  // The state after a delivery: the message is IN_FLIGHT with its retry count, under a lease of one visibility
  // timeout and with a token of its own, and no other message changed.
  ghost predicate DeliveredAs(cfg: Config, owner: Text, before: Group, after: Group, id: Id, now: nat) {
    && id in before.runtime
    && var deadline := now + cfg.visibility;
    LeasedUntil(before, after, id, now, deadline, deadline / Tick(cfg), owner, Token(id, before.next))
  }

  ghost predicate LeasedUntil(
    before: Group, after: Group, id: Id, now: nat, deadline: nat, tick: nat, owner: Text, token: Text)
    requires id in before.runtime
  {
    && var r := before.runtime[id];
    && after.log
       == before.log + [Event(before.next, id, InFlight, r.retry, now, now, deadline, owner, token, Delivered)]
    && var leased := Runtime(InFlight, r.offset, r.retry, r.enqueued, now, now, before.next, Because(Delivered));
    && after.runtime == before.runtime[id := leased]
    && after.inflight == before.inflight[id := Lease(r.offset, deadline, tick, owner, token)]
    && after.wheel == Push(before.wheel, tick, id)
    && after.next == before.next + 1 && after.base == before.base
  }

  lemma {:induction false} DeliverOutcome(
    cfg: Config, owner: Text, s: Session, before: Group, g: Group, offset: nat, m: Message, clock: ConsumeClock,
    fails: set<nat>)
    requires Inv(cfg, s, before) && SaneRetryLimit(cfg) && m.id in before.runtime && before.runtime[m.id].state == Ready
    requires g == before.(ready := g.ready)
    ensures
      var (after, outcome) := Deliver(cfg, owner, g, offset, m, clock, fails);
      if before.next in fails then outcome == Failed && after == before.(ready := g.ready, next := before.next + 1)
      else
        && outcome == Delivery(m.id, offset, before.runtime[m.id].retry + 1)
        && m.id in after.runtime && after.ready == g.ready
        && DeliveredAs(cfg, owner, before, after, m.id, clock.lease)
  {
    hide Inv, DeliveryEvent, Apply, Tick, RuntimeAfter, Bump, Push, DeliveredAs;
    var retry := before.runtime[m.id].retry;
    RuntimeWithinBudget(cfg, s, before, m.id);
    BumpIsPlusOne(cfg, retry);
    DeliveryEventFacts(cfg, owner, g.next, m.id, retry, clock.lease);
    DeliveredState(cfg, owner, before, g, m.id, clock.lease);
  }

  lemma {:induction false} DeliveredState(cfg: Config, owner: Text, before: Group, g: Group, id: Id, now: nat)
    requires id in before.runtime && g == before.(ready := g.ready)
    ensures
      var e := DeliveryEvent(cfg, owner, g.next, id, g.runtime[id].retry, now);
      var after := Apply(Tick(cfg), g.(next := g.next + 1, log := g.log + [e]), e);
      id in after.runtime && after.ready == g.ready && DeliveredAs(cfg, owner, before, after, id, now)
  {
    hide Apply, Tick, Push, Token;
    DeliveryEventFacts(cfg, owner, g.next, id, g.runtime[id].retry, now);
    var e := DeliveryEvent(cfg, owner, g.next, id, g.runtime[id].retry, now);
    ApplyFields(Tick(cfg), g.(next := g.next + 1, log := g.log + [e]), e);
  }

  // ---------------------------------------------------------------------------------------------
  // Sequence numbers and lease tokens
  // ---------------------------------------------------------------------------------------------

  // Over the whole life of the event file sequence numbers strictly increase, a loaded group never reuses
  // one, and no two logged deliveries carry the same lease token.
  lemma {:induction false} SequencesAndTokens(cfg: Config, owner: Text, w: World, i: nat, j: nat)
    requires SaneRetryLimit(cfg) && Reachable(cfg, owner, w) && i < j < |Log(w)|
    ensures Log(w)[i].sequence < Log(w)[j].sequence
    ensures w.Up? ==> Log(w)[j].sequence < w.group.next
    ensures Log(w)[i].state == InFlight && Log(w)[j].state == InFlight ==> Log(w)[i].token != Log(w)[j].token
  {
    ReachableInv(cfg, owner, w);
    hide Reachable, Token, Sync, Defaults, SnapshotFits, UniqueIds, WithinBudget, InFlightIds;
    var a, b := Log(w)[i], Log(w)[j];
    assert ProperLease(cfg, a) && ProperLease(cfg, b);
    if a.state == InFlight && b.state == InFlight && a.token == b.token {
      TokenInjective(a.id, a.sequence, b.id, b.sequence);
    }
  }

  // ---------------------------------------------------------------------------------------------
  // The retry limit
  // ---------------------------------------------------------------------------------------------

  // "Retry budget overflow transitions to DEAD": of a message within its budget, a timeout, and a rejection
  // with requeue, makes a dead letter exactly if the budget is used up.
  ghost predicate TimeoutsEnforceLimit(cfg: Config) {
    forall now: nat, sequence: nat, id: Id, retry: nat :: retry <= cfg.maxRetry ==>
      (TimeoutEvent(cfg, now, sequence, id, retry).state == Dead <==> retry == cfg.maxRetry)
  }

  ghost predicate NacksEnforceLimit(cfg: Config) {
    forall sequence: nat, id: Id, retry: nat, clock: NackClock :: retry <= cfg.maxRetry ==>
      (NackEvent(cfg, sequence, id, retry, true, clock).state == Dead <==> retry == cfg.maxRetry)
  }

  // The code keeps this promise exactly below the largest 32-bit limit, where the counter wraps before it can
  // exceed it.
  lemma {:induction false} RetryLimitEnforced(cfg: Config)
    requires cfg.maxRetry < 0x1_0000_0000
    ensures SaneRetryLimit(cfg) <==> TimeoutsEnforceLimit(cfg)
    ensures SaneRetryLimit(cfg) <==> NacksEnforceLimit(cfg)
  {
    if SaneRetryLimit(cfg) {
      forall retry: nat | retry <= cfg.maxRetry
        ensures Bump(retry) == retry + 1
      {
        BumpIsPlusOne(cfg, retry);
      }
    } else {
      assert Bump(cfg.maxRetry) == 0;
      assert TimeoutEvent(cfg, 0, 0, Id(0, 0), cfg.maxRetry).state == Ready;
      assert NackEvent(cfg, 0, Id(0, 0), cfg.maxRetry, true, NackClock(0, 0, 0)).state == Ready;
    }
  }

  lemma {:induction false} RetryLimitWraps(cfg: Config, now: nat, sequence: nat, id: Id)
    requires cfg.maxRetry == 0xffff_ffff
    ensures
      var e := TimeoutEvent(cfg, now, sequence, id, 0xffff_ffff);
      e.state == Ready && e.retry == 0
  {
    assert Bump(0xffff_ffff) == 0;
  }
}
