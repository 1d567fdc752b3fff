// What every reachable state of a loaded group satisfies, which transitions the operations log, and the
// measures those transitions use up.
module Legality {
  import opened Transitions
  import opened Tokens

  // retry_count is a 32-bit unsigned integer.
  function Bump(retry: nat): nat {
    (retry + 1) % 0x1_0000_0000
  }

  predicate SaneRetryLimit(cfg: Config) {
    cfg.maxRetry < 0xffff_ffff
  }

  predicate Live(state: State) {
    state == Ready || state == InFlight
  }

  ghost predicate WithinBudget(cfg: Config, log: seq<Event>) {
    var last := LastEvents(log);
    forall id :: id in last && Live(last[id].state) ==> last[id].retry <= cfg.maxRetry
  }

  // A logged delivery carries the token of its sequence number and a deadline one visibility timeout on.
  ghost predicate ProperLease(cfg: Config, e: Event) {
    e.state == InFlight ==> e.token == Token(e.id, e.sequence) && e.deadline == e.timestamp + cfg.visibility
  }

  ghost predicate ProperLeases(cfg: Config, log: seq<Event>) {
    forall i :: 0 <= i < |log| ==> ProperLease(cfg, log[i])
  }

  // What the event file satisfies across restarts.
  ghost predicate History(cfg: Config, log: seq<Event>) {
    Increasing(log) && WithinBudget(cfg, log) && |InFlightIds(log)| <= cfg.maxInflight && ProperLeases(cfg, log)
  }

  ghost predicate Inv(cfg: Config, s: Session, g: Group) {
    Sync(Tick(cfg), s, g) && History(cfg, g.log) && Below(g.log, g.next)
  }

  // The transitions the operations log: a delivery takes a READY message, everything else ends a lease.
  ghost predicate Legal(cfg: Config, g: Group, e: Event) {
    && e.id in g.runtime
    && e.sequence < g.next && Below(g.log, e.sequence)
    && ProperLease(cfg, e)
    && match e.state
       case InFlight =>
         && g.runtime[e.id].state == Ready && e.retry == g.runtime[e.id].retry
         && |g.inflight.Keys + {e.id}| <= cfg.maxInflight
       case Ready =>
         e.id in g.inflight && e.retry == g.runtime[e.id].retry + 1 <= cfg.maxRetry
       case Acked => e.id in g.inflight
       case Dead => e.id in g.inflight
  }

  // ---------------------------------------------------------------------------------------------
  // Measures
  // ---------------------------------------------------------------------------------------------

  // How many more transitions a message can take within a session.
  function Rank(cfg: Config, r: Runtime): int {
    match r.state
    case Ready => 2 * (cfg.maxRetry - r.retry) + 2
    case InFlight => 2 * (cfg.maxRetry - r.retry) + 1
    case Acked => 0
    case Dead => 0
  }

  // How many more times it can be delivered.
  function DeliveriesLeft(cfg: Config, r: Runtime): int {
    match r.state
    case Ready => cfg.maxRetry - r.retry + 1
    case InFlight => cfg.maxRetry - r.retry
    case Acked => 0
    case Dead => 0
  }

  // What happened to one message between two states of a session: its events used up rank, its
  // deliveries used up deliveries, and without an event nothing changed.
  ghost predicate MessageEvolves(cfg: Config, g: Group, g': Group, id: Id)
    requires id in g.runtime && id in g'.runtime
  {
    && Count(g'.log, id) >= Count(g.log, id)
    && Rank(cfg, g'.runtime[id]) + Count(g'.log, id) <= Rank(cfg, g.runtime[id]) + Count(g.log, id)
    && DeliveriesLeft(cfg, g'.runtime[id]) + Deliveries(g'.log, id)
       <= DeliveriesLeft(cfg, g.runtime[id]) + Deliveries(g.log, id)
    && (Count(g'.log, id) == Count(g.log, id) ==>
      g'.runtime[id] == g.runtime[id] && Deliveries(g'.log, id) == Deliveries(g.log, id))
  }

  ghost predicate Evolves(cfg: Config, g: Group, g': Group) {
    && g'.runtime.Keys == g.runtime.Keys
    && g.log <= g'.log
    && g.next <= g'.next
    && forall id :: id in g.runtime ==> MessageEvolves(cfg, g, g', id)
  }

  lemma {:induction false} EvolvesTransitive(cfg: Config, a: Group, b: Group, c: Group)
    requires Evolves(cfg, a, b) && Evolves(cfg, b, c)
    ensures Evolves(cfg, a, c)
  {
    hide Rank, DeliveriesLeft, Count, Deliveries;
    forall id | id in a.runtime
      ensures MessageEvolves(cfg, a, c, id)
    {
      assert MessageEvolves(cfg, a, b, id) && MessageEvolves(cfg, b, c, id);
    }
  }

  // States that differ only in the ready list, the wheel and the sequence counter.
  lemma EvolvesIdle(cfg: Config, g: Group, g': Group)
    requires g'.runtime == g.runtime && g'.log == g.log && g.next <= g'.next
    ensures Evolves(cfg, g, g')
  {
  }

  lemma {:induction false} InvIdle(cfg: Config, s: Session, g: Group, g': Group)
    requires Inv(cfg, s, g)
    requires g'.runtime == g.runtime && g'.log == g.log && g'.inflight == g.inflight && g.next <= g'.next
    ensures Inv(cfg, s, g')
  {
    hide LastEvents, InFlightIds, LiveRuntime, RuntimeInSync, LeasesInSync, History, ProperDefaults;
  }

  // In a reachable state a live message is within its retry budget, and a leased one is READY or IN_FLIGHT.
  lemma {:induction false} RuntimeWithinBudget(cfg: Config, s: Session, g: Group, id: Id)
    requires Inv(cfg, s, g) && id in g.runtime
    ensures Live(g.runtime[id].state) ==> g.runtime[id].retry <= cfg.maxRetry
    ensures id in g.inflight ==> Live(g.runtime[id].state)
    ensures g.runtime[id].state == InFlight ==> id in g.inflight
    ensures g.runtime[id].offset == s.defaults[id].offset
  {
    hide Touched;
    assert g.runtime[id] == LiveRuntime(s, g.log, id);
  }

  lemma {:induction false} LeasedIsLoaded(cfg: Config, s: Session, g: Group, id: Id)
    requires Inv(cfg, s, g) && id in g.inflight
    ensures id in g.runtime
  {
    hide LastEvents, Touched, InFlightIds, LiveRuntime;
  }

  // ---------------------------------------------------------------------------------------------
  // A legal transition keeps the invariant and uses up the measures
  // ---------------------------------------------------------------------------------------------

  lemma {:induction false} SmallerSet<T>(a: set<T>, b: set<T>)
    requires a <= b
    ensures |a| <= |b|
  {
    assert b == a + (b - a);
  }

  lemma IncreasingExtends(log: seq<Event>, e: Event)
    requires Increasing(log) && Below(log, e.sequence)
    ensures Increasing(log + [e]) && Below(log + [e], e.sequence + 1)
  {
  }

  lemma {:induction false} WithinBudgetExtends(cfg: Config, log: seq<Event>, e: Event)
    requires WithinBudget(cfg, log) && (Live(e.state) ==> e.retry <= cfg.maxRetry)
    ensures WithinBudget(cfg, log + [e])
  {
    hide LastEvents;
    LastEventsAppend(log, e);
  }

  lemma {:induction false} ProperLeasesExtend(cfg: Config, log: seq<Event>, e: Event)
    requires ProperLeases(cfg, log) && ProperLease(cfg, e)
    ensures ProperLeases(cfg, log + [e])
  {
    hide ProperLease;
  }

  lemma {:induction false} HistoryExtends(cfg: Config, log: seq<Event>, e: Event)
    requires History(cfg, log) && Below(log, e.sequence) && ProperLease(cfg, e)
    requires Live(e.state) ==> e.retry <= cfg.maxRetry
    requires e.state == InFlight ==> |InFlightIds(log) + {e.id}| <= cfg.maxInflight
    ensures History(cfg, log + [e])
  {
    hide LastEvents, InFlightIds, Increasing, WithinBudget, Below, ProperLeases, ProperLease;
    ProperLeasesExtend(cfg, log, e);
    IncreasingExtends(log, e);
    WithinBudgetExtends(cfg, log, e);
    InFlightIdsAppend(log, e);
    if e.state != InFlight {
      SmallerSet(InFlightIds(log) - {e.id}, InFlightIds(log));
    }
  }

  lemma {:induction false} LegalWithinBudget(cfg: Config, s: Session, g: Group, e: Event)
    requires Inv(cfg, s, g) && Legal(cfg, g, e)
    ensures Live(e.state) ==> e.retry <= cfg.maxRetry
    ensures g.inflight.Keys == InFlightIds(g.log)
    ensures Live(g.runtime[e.id].state)
  {
    RuntimeWithinBudget(cfg, s, g, e.id);
    hide LastEvents, LiveRuntime, RuntimeInSync, History, InFlightIds;
  }

  lemma {:induction false} LegalKeepsInv(cfg: Config, s: Session, g: Group, e: Event)
    requires Inv(cfg, s, g) && Legal(cfg, g, e)
    ensures Inv(cfg, s, Apply(Tick(cfg), g.(log := g.log + [e]), e))
  {
    hide InFlightIds, Apply, Sync, History, Below, Tick, ProperLease;
    var g1 := g.(log := g.log + [e]);
    LegalWithinBudget(cfg, s, g, e);
    ApplyKeepsSync(Tick(cfg), s, g, e);
    HistoryExtends(cfg, g.log, e);
    ApplyFields(Tick(cfg), g1, e);
    assert Below(g1.log, g.next) by {
      BelowExtends(g.log, e, g.next);
    }
  }

  lemma BelowExtends(log: seq<Event>, e: Event, next: nat)
    requires Below(log, e.sequence) && e.sequence < next
    ensures Below(log + [e], next)
  {
  }

  lemma {:induction false} LogStepEvolves(cfg: Config, g: Group, g': Group, e: Event, r: Runtime)
    requires e.id in g.runtime && g'.runtime == g.runtime[e.id := r]
    requires g'.log == g.log + [e] && g'.next == g.next
    requires Rank(cfg, r) < Rank(cfg, g.runtime[e.id])
    requires DeliveriesLeft(cfg, r) + (if e.state == InFlight then 1 else 0) <= DeliveriesLeft(cfg, g.runtime[e.id])
    ensures Evolves(cfg, g, g')
  {
    hide Count, Deliveries, Rank, DeliveriesLeft;
    forall id | id in g.runtime
      ensures MessageEvolves(cfg, g, g', id)
    {
      CountAppend(g.log, e, id);
    }
  }

  lemma {:induction false} LegalEvolves(cfg: Config, s: Session, g: Group, e: Event)
    requires Inv(cfg, s, g) && Legal(cfg, g, e)
    ensures Evolves(cfg, g, Apply(Tick(cfg), g.(log := g.log + [e]), e))
  {
    LegalMeasures(cfg, s, g, e);
    hide Inv, Apply, Rank, DeliveriesLeft, RuntimeAfter, Legal, Evolves, Tick;
    var g1 := g.(log := g.log + [e]);
    ApplyFields(Tick(cfg), g1, e);
    LogStepEvolves(cfg, g, Apply(Tick(cfg), g1, e), e, RuntimeAfter(g.runtime[e.id], e));
  }

  lemma {:induction false} LegalMeasures(cfg: Config, s: Session, g: Group, e: Event)
    requires Inv(cfg, s, g) && Legal(cfg, g, e)
    ensures Rank(cfg, RuntimeAfter(g.runtime[e.id], e)) < Rank(cfg, g.runtime[e.id])
    ensures DeliveriesLeft(cfg, RuntimeAfter(g.runtime[e.id], e)) + (if e.state == InFlight then 1 else 0)
      <= DeliveriesLeft(cfg, g.runtime[e.id])
    ensures e.id in g.runtime
  {
    LegalWithinBudget(cfg, s, g, e);
    RuntimeWithinBudget(cfg, s, g, e.id);
    hide Inv;
  }

  lemma {:induction false} AppendKeeps(cfg: Config, s: Session, g: Group, e: Event, fails: set<nat>)
    requires Inv(cfg, s, g) && Legal(cfg, g, e)
    ensures Inv(cfg, s, Append(cfg, g, e, fails)) && Evolves(cfg, g, Append(cfg, g, e, fails))
  {
    hide Inv, Apply, Legal, Evolves;
    if e.sequence in fails {
      EvolvesIdle(cfg, g, g);
    } else {
      LegalKeepsInv(cfg, s, g, e);
      LegalEvolves(cfg, s, g, e);
    }
  }
}
