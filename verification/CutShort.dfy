// What an operation has logged when the process dies in the middle of it: every first part of the events it
// logs is what the same operation logs when its later appends fail. So every crash inside an operation is one
// between operations.
module CutShort {
  import opened Transitions
  import opened Tokens
  import opened Legality
  import opened Wheel
  import opened Operations
  import opened Runs

  // ---------------------------------------------------------------------------------------------
  // A reap depends on the failures of its own appends only
  // ---------------------------------------------------------------------------------------------

  ghost predicate SameBelow(a: set<nat>, b: set<nat>, hi: nat) {
    forall sequence: nat :: sequence < hi ==> (sequence in a <==> sequence in b)
  }

  ghost predicate FailFrom(fails: set<nat>, lo: nat, hi: nat) {
    forall sequence: nat :: lo <= sequence < hi ==> sequence in fails
  }

  lemma {:induction false} VisitDepends(cfg: Config, now: nat, g: Group, id: Id, a: set<nat>, b: set<nat>)
    ensures var g' := Visit(cfg, now, g, id, a);
      && g.log <= g'.log && |g'.log| <= |g.log| + 1 && g.next <= g'.next <= g.next + 1 && g'.base == g.base
      && (g'.next == g.next || (g.next in a <==> g.next in b) ==> g' == Visit(cfg, now, g, id, b))
      && (g'.next == g.next || g.next in a ==> g'.log == g.log)
  {
    hide Push, Tick, RuntimeAfter, LeaseOf;
  }

  lemma {:induction false} VisitAllDepends(
    cfg: Config, now: nat, g: Group, bucket: seq<Id>, a: set<nat>, b: set<nat>)
    ensures var g' := VisitAll(cfg, now, g, bucket, a);
      && g.log <= g'.log && g.next <= g'.next
      && (SameBelow(a, b, g'.next) ==> g' == VisitAll(cfg, now, g, bucket, b))
    decreases |bucket|
  {
    hide Visit;
    if bucket != [] {
      var g1 := Visit(cfg, now, g, bucket[0], a);
      VisitDepends(cfg, now, g, bucket[0], a, b);
      VisitAllDepends(cfg, now, g1, bucket[1..], a, b);
    }
  }

  lemma {:induction false} VisitSlotDepends(cfg: Config, now: nat, g: Group, a: set<nat>, b: set<nat>)
    ensures var g' := VisitSlot(cfg, now, g, a);
      && g.log <= g'.log && g.next <= g'.next
      && (SameBelow(a, b, g'.next) ==> g' == VisitSlot(cfg, now, g, b))
  {
    hide VisitAll, SameBelow;
    VisitAllDepends(cfg, now, TakeSlot(g), g.wheel[g.base % SLOTS], a, b);
  }

  lemma {:induction false} AdvanceLogs(cfg: Config, now: nat, g: Group, fails: set<nat>)
    ensures g.log <= Advance(cfg, now, g, fails).log && g.next <= Advance(cfg, now, g, fails).next
    decreases TicksLeft(cfg, now, g)
  {
    VisitSlotTakesOneTick(cfg, now, g, fails);
    hide VisitSlot;
    if g.base <= now / Tick(cfg) {
      VisitSlotDepends(cfg, now, g, fails, fails);
      AdvanceLogs(cfg, now, VisitSlot(cfg, now, g, fails), fails);
    }
  }

  // ---------------------------------------------------------------------------------------------
  // A reap whose appends all fail logs nothing
  // ---------------------------------------------------------------------------------------------

  lemma {:induction false} VisitAllStops(cfg: Config, now: nat, g: Group, bucket: seq<Id>) returns (g': Group)
    ensures g'.log == g.log && g.next <= g'.next
    ensures forall fails: set<nat> :: FailFrom(fails, g.next, g'.next) ==> VisitAll(cfg, now, g, bucket, fails) == g'
    decreases |bucket|
  {
    hide Visit;
    g' := g;
    if bucket != [] {
      var g1 := Visit(cfg, now, g, bucket[0], {g.next});
      VisitDepends(cfg, now, g, bucket[0], {g.next}, {});
      g' := VisitAllStops(cfg, now, g1, bucket[1..]);
      forall fails: set<nat> | FailFrom(fails, g.next, g'.next)
        ensures VisitAll(cfg, now, g, bucket, fails) == g'
      {
        VisitDepends(cfg, now, g, bucket[0], {g.next}, fails);
      }
    }
  }

  lemma {:induction false} VisitSlotStops(cfg: Config, now: nat, g: Group) returns (g': Group)
    ensures g'.log == g.log && g.next <= g'.next && g'.base == g.base + 1
    ensures forall fails: set<nat> :: FailFrom(fails, g.next, g'.next) ==> VisitSlot(cfg, now, g, fails) == g'
  {
    hide VisitAll, FailFrom;
    var g1 := VisitAllStops(cfg, now, TakeSlot(g), g.wheel[g.base % SLOTS]);
    g' := g1.(base := g.base + 1);
  }

  lemma {:induction false} AdvanceStops(cfg: Config, now: nat, g: Group) returns (g': Group)
    ensures g'.log == g.log && g.next <= g'.next
    ensures forall fails: set<nat> :: FailFrom(fails, g.next, g'.next) ==> Advance(cfg, now, g, fails) == g'
    decreases TicksLeft(cfg, now, g)
  {
    hide VisitSlot;
    g' := g;
    if g.base <= now / Tick(cfg) {
      var g1 := VisitSlotStops(cfg, now, g);
      g' := AdvanceStops(cfg, now, g1);
      forall fails: set<nat> | FailFrom(fails, g.next, g'.next)
        ensures Advance(cfg, now, g, fails) == g'
      {
        VisitSlotTakesOneTick(cfg, now, g, fails);
      }
    }
  }

  // ---------------------------------------------------------------------------------------------
  // A reap whose appends fail from some point on
  // ---------------------------------------------------------------------------------------------

  // The given failures up to a sequence number, and all from there on.
  ghost predicate CutAs(cut: set<nat>, fails: set<nat>, lo: nat, hi: nat) {
    SameBelow(cut, fails, lo) && FailFrom(cut, lo, hi)
  }

  lemma {:induction false} VisitAllCut(
    cfg: Config, now: nat, g: Group, bucket: seq<Id>, fails: set<nat>, n: nat) returns (lo: nat, g': Group)
    requires |g.log| <= n <= |VisitAll(cfg, now, g, bucket, fails).log|
    ensures g'.log == VisitAll(cfg, now, g, bucket, fails).log[..n] && g.next <= lo <= g'.next
    ensures forall cut: set<nat> :: CutAs(cut, fails, lo, g'.next) ==> VisitAll(cfg, now, g, bucket, cut) == g'
    decreases |bucket|
  {
    hide Visit, SameBelow, FailFrom;
    VisitAllDepends(cfg, now, g, bucket, fails, fails);
    if n == |g.log| {
      lo := g.next;
      g' := VisitAllStops(cfg, now, g, bucket);
    } else {
      var g1 := Visit(cfg, now, g, bucket[0], fails);
      VisitDepends(cfg, now, g, bucket[0], fails, fails);
      lo, g' := VisitAllCut(cfg, now, g1, bucket[1..], fails, n);
      forall cut: set<nat> | CutAs(cut, fails, lo, g'.next)
        ensures VisitAll(cfg, now, g, bucket, cut) == g'
      {
        SameAt(cut, fails, lo, g.next);
        VisitDepends(cfg, now, g, bucket[0], fails, cut);
      }
    }
  }

  lemma SameAt(a: set<nat>, b: set<nat>, hi: nat, sequence: nat)
    requires SameBelow(a, b, hi)
    ensures sequence < hi ==> (sequence in a <==> sequence in b)
  {
  }

  lemma {:induction false} VisitSlotCut(
    cfg: Config, now: nat, g: Group, fails: set<nat>, n: nat) returns (lo: nat, g': Group)
    requires |g.log| <= n <= |VisitSlot(cfg, now, g, fails).log|
    ensures g'.log == VisitSlot(cfg, now, g, fails).log[..n] && g.next <= lo <= g'.next && g'.base == g.base + 1
    ensures forall cut: set<nat> :: CutAs(cut, fails, lo, g'.next) ==> VisitSlot(cfg, now, g, cut) == g'
  {
    hide VisitAll, CutAs;
    var g1;
    lo, g1 := VisitAllCut(cfg, now, TakeSlot(g), g.wheel[g.base % SLOTS], fails, n);
    g' := g1.(base := g.base + 1);
  }

  lemma CutNarrows(cut: set<nat>, fails: set<nat>, lo: nat, mid: nat, hi: nat)
    requires CutAs(cut, fails, lo, hi) && lo <= mid <= hi
    ensures CutAs(cut, fails, lo, mid) && FailFrom(cut, mid, hi)
  {
  }

  lemma CutAgrees(cut: set<nat>, fails: set<nat>, lo: nat, hi: nat, below: nat)
    requires CutAs(cut, fails, lo, hi) && below <= lo
    ensures SameBelow(fails, cut, below)
  {
  }

  lemma {:induction false} AdvanceCut(
    cfg: Config, now: nat, g: Group, fails: set<nat>, n: nat) returns (lo: nat, g': Group)
    requires |g.log| <= n <= |Advance(cfg, now, g, fails).log|
    ensures g'.log == Advance(cfg, now, g, fails).log[..n] && g.next <= lo <= g'.next
    ensures forall cut: set<nat> :: CutAs(cut, fails, lo, g'.next) ==> Advance(cfg, now, g, cut) == g'
    decreases TicksLeft(cfg, now, g)
  {
    hide VisitSlot, CutAs, SameBelow, FailFrom;
    VisitSlotTakesOneTick(cfg, now, g, fails);
    lo, g' := g.next, g;
    if g.base <= now / Tick(cfg) {
      var g1 := VisitSlot(cfg, now, g, fails);
      VisitSlotDepends(cfg, now, g, fails, fails);
      if n <= |g1.log| {
        AdvanceLogs(cfg, now, g1, fails);
        var h;
        lo, h := VisitSlotCut(cfg, now, g, fails, n);
        g' := AdvanceStops(cfg, now, h);
        forall cut: set<nat> | CutAs(cut, fails, lo, g'.next)
          ensures Advance(cfg, now, g, cut) == g'
        {
          CutNarrows(cut, fails, lo, h.next, g'.next);
        }
      } else {
        lo, g' := AdvanceCut(cfg, now, g1, fails, n);
        forall cut: set<nat> | CutAs(cut, fails, lo, g'.next)
          ensures Advance(cfg, now, g, cut) == g'
        {
          CutAgrees(cut, fails, lo, g'.next, g1.next);
          VisitSlotDepends(cfg, now, g, fails, cut);
        }
      }
    }
  }

  // ---------------------------------------------------------------------------------------------
  // Operations
  // ---------------------------------------------------------------------------------------------

  function Between(lo: nat, hi: nat): (r: set<nat>)
    ensures forall sequence: nat :: sequence in r <==> lo <= sequence < hi
    decreases hi - lo
  {
    if hi <= lo then {} else {lo} + Between(lo + 1, hi)
  }

  function CutSet(fails: set<nat>, lo: nat, hi: nat): set<nat> {
    (set sequence | sequence in fails && sequence < lo) + Between(lo, hi)
  }

  lemma {:induction false} CutSetCuts(fails: set<nat>, lo: nat, mid: nat, hi: nat)
    requires lo <= mid <= hi
    ensures CutAs(CutSet(fails, lo, hi), fails, lo, mid)
    ensures forall sequence: nat :: lo <= sequence < hi ==> sequence in CutSet(fails, lo, hi)
  {
  }

  // Of what a reap logs, the first part is logged under some failures, and those may include the next
  // append after it.
  lemma {:induction false} ReapCut(
    cfg: Config, g: Group, scanTime: nat, readyTime: nat, fails: set<nat>, n: nat) returns (cut: set<nat>)
    requires |g.log| <= n <= |Reap(cfg, g, scanTime, readyTime, fails).log|
    ensures Reap(cfg, g, scanTime, readyTime, cut).log == Reap(cfg, g, scanTime, readyTime, fails).log[..n]
    ensures Reap(cfg, g, scanTime, readyTime, cut).next in cut
  {
    hide Advance, Eligible, Ascending, CutAs, CutSet;
    var lo, g' := AdvanceCut(cfg, scanTime, g, fails, n);
    cut := CutSet(fails, lo, g'.next + 1);
    CutSetCuts(fails, lo, g'.next, g'.next + 1);
  }

  lemma {:induction false} DeliverLog(
    cfg: Config, owner: Text, g: Group, offset: nat, m: Message, clock: ConsumeClock, fails: set<nat>)
    ensures var log := Deliver(cfg, owner, g, offset, m, clock, fails).0.log;
      if g.next in fails then log == g.log else g.log <= log && |log| == |g.log| + 1
  {
    hide Tick, Token, Bump, RuntimeAfter, LeaseOf, Push;
  }

  lemma {:induction false} ConsumeCut(
    cfg: Config, owner: Text, segment: seq<Message>, g: Group, clock: ConsumeClock, fails: set<nat>, readable: bool,
    n: nat)
    returns (cut: set<nat>)
    requires |g.log| <= n <= |Consume(cfg, owner, segment, g, clock, fails, readable).0.log|
    ensures Consume(cfg, owner, segment, g, clock, cut, readable).0.log
            == Consume(cfg, owner, segment, g, clock, fails, readable).0.log[..n]
  {
    hide Reap, Deliver;
    var g1 := Reap(cfg, g, clock.scan, clock.ready, fails);
    var log' := Consume(cfg, owner, segment, g, clock, fails, readable).0.log;
    ConsumeLog(cfg, owner, segment, g, clock, fails, readable);
    if n <= |g1.log| {
      cut := ReapCut(cfg, g, clock.scan, clock.ready, fails, n);
      ConsumeLog(cfg, owner, segment, g, clock, cut, readable);
    } else {
      cut := fails;
      assert log'[..n] == log';
    }
  }

  // Consuming logs what its reap logs, and then at most the delivery.
  lemma {:induction false} ConsumeLog(
    cfg: Config, owner: Text, segment: seq<Message>, g: Group, clock: ConsumeClock, fails: set<nat>, readable: bool)
    ensures
      var g1 := Reap(cfg, g, clock.scan, clock.ready, fails);
      var log := Consume(cfg, owner, segment, g, clock, fails, readable).0.log;
      && g1.log <= log && |log| <= |g1.log| + 1
      && (g1.next in fails ==> log == g1.log)
  {
    hide Reap, Deliver;
    var g1 := Reap(cfg, g, clock.scan, clock.ready, fails);
    if |g1.inflight.Keys| < cfg.maxInflight && g1.ready != [] {
      var offset := g1.ready[0];
      if readable && offset < |segment| {
        DeliverLog(cfg, owner, g1.(ready := g1.ready[1..]), offset, segment[offset], clock, fails);
      }
    }
  }

  lemma {:induction false} EndLog(
    cfg: Config, g: Group, id: Id, requeue: bool, clock: NackClock, fails: set<nat>)
    ensures
      var log := Ack(cfg, g, id, clock.transition, fails).0.log;
      g.log <= log && |log| <= |g.log| + 1 && (g.next in fails ==> log == g.log)
    ensures
      var log := Nack(cfg, g, id, requeue, clock, fails).0.log;
      g.log <= log && |log| <= |g.log| + 1 && (g.next in fails ==> log == g.log)
  {
    hide Tick, Bump, RuntimeAfter, LeaseOf, Push, Eligible, Ascending;
  }

  // The failures under which an acknowledgement or rejection logs that much of what it logs.
  function EndCut(g: Group, fails: set<nat>, n: nat): set<nat> {
    if n == |g.log| then {g.next} else fails
  }

  // The world with the first n events of an operation logged, its snapshot the old one.
  ghost predicate CutAt(w: World, after: World, x: World, n: nat) {
    && w.Up? && n <= |Log(after)|
    && x.Up? && x == w.(group := x.group) && Log(x) == Log(after)[..n]
  }

  lemma {:induction false} StopShort(cfg: Config, owner: Text, w: World, op: Op, n: nat) returns (cut: Op)
    requires w.Up? && GroupOp(op) && |Log(w)| <= n <= |Log(Step(cfg, owner, w, op).0)|
    ensures GroupOp(cut) && CutAt(w, Step(cfg, owner, w, op).0, Step(cfg, owner, w, cut).0, n)
  {
    hide Consume, Reap, Ack, Nack, EndCut;
    match op {
      case ConsumeNext(clock, readable, fails, persists) =>
        var failing := ConsumeCut(cfg, owner, w.segment, w.group, clock, fails, readable, n);
        cut := ConsumeNext(clock, readable, failing, false);
      case AckOne(id, now, fails, persists) =>
        cut := AckOne(id, now, EndCut(w.group, fails, n), false);
        EndCutLog(cfg, w.group, id, true, NackClock(now, now, now), fails, n);
      case NackOne(id, requeue, clock, fails, persists) =>
        cut := NackOne(id, requeue, clock, EndCut(w.group, fails, n), false);
        EndCutLog(cfg, w.group, id, requeue, clock, fails, n);
      case GetStats(scanTime, readyTime, fails) =>
        var failing := ReapCut(cfg, w.group, scanTime, readyTime, fails, n);
        cut := GetStats(scanTime, readyTime, failing);
    }
  }

  lemma {:induction false} EndCutLog(
    cfg: Config, g: Group, id: Id, requeue: bool, clock: NackClock, fails: set<nat>, n: nat)
    requires |g.log| <= n
    ensures var log := Ack(cfg, g, id, clock.transition, fails).0.log;
      n <= |log| ==> Ack(cfg, g, id, clock.transition, EndCut(g, fails, n)).0.log == log[..n]
    ensures var log := Nack(cfg, g, id, requeue, clock, fails).0.log;
      n <= |log| ==> Nack(cfg, g, id, requeue, clock, EndCut(g, fails, n)).0.log == log[..n]
  {
    hide Ack, Nack;
    EndLog(cfg, g, id, requeue, clock, fails);
    EndLog(cfg, g, id, requeue, clock, EndCut(g, fails, n));
  }

  // However many of its events an operation has logged when the process dies, and whether or not it has
  // persisted its snapshot after the last: what is then on disk is what a reachable state leaves behind.
  lemma {:induction false} DiesReachable(
    cfg: Config, owner: Text, w: World, op: Op, n: nat, persisted: bool) returns (down: World)
    requires SaneRetryLimit(cfg) && Reachable(cfg, owner, w) && Enabled(w, op)
    requires |Log(w)| <= n <= |Log(Step(cfg, owner, w, op).0)|
    requires persisted ==> n == |Log(Step(cfg, owner, w, op).0)|
    ensures
      var after := Step(cfg, owner, w, op).0;
      && down.Down? && down.log == Log(after)[..n]
      && down.segment == (if persisted then after.segment else w.segment)
      && down.snapshot == (if persisted then after.snapshot else w.snapshot)
    ensures Reachable(cfg, owner, down) && WorldInv(cfg, down)
  {
    hide Reachable, WorldInv, Load, Consume, Ack, Nack, Reap, FilesGrow;
    var after := Step(cfg, owner, w, op).0;
    var last := w;
    if persisted {
      StepReaches(cfg, owner, w, op);
      last := after;
    } else if GroupOp(op) {
      var cut := StopShort(cfg, owner, w, op, n);
      StepReaches(cfg, owner, w, cut);
      last := Step(cfg, owner, w, cut).0;
    } else {
      OtherStepKeepsLog(cfg, owner, w, op);
    }
    assert Log(last) == Log(after)[..n];
    down := Step(cfg, owner, last, Crash).0;
    StepReaches(cfg, owner, last, Crash);
    ReachableInv(cfg, owner, down);
  }
}
