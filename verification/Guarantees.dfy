// What the queue promises over every run: recovery from the event log, permanence of ACKED and DEAD, the
// leases after any number of restarts, and bounds on transitions and deliveries.
module Guarantees {
  import opened Wrappers
  import opened Transitions
  import opened Legality
  import opened Operations
  import opened Reachability
  import opened Runs

  // ---------------------------------------------------------------------------------------------
  // Recovery
  // ---------------------------------------------------------------------------------------------

  // A restart after any run finds the same group whether it has no snapshot, the current one, or one left
  // from any earlier point of the run; only the sequence counter may differ.
  lemma {:induction false} RestartIgnoresSnapshot(
    cfg: Config, owner: Text, before: seq<Op>, after: seq<Op>, clock: LoadClock)
    requires SaneRetryLimit(cfg) && EnabledRun(cfg, owner, START, before)
    requires EnabledRun(cfg, owner, Run(cfg, owner, START, before), after)
    ensures
      var earlier := Run(cfg, owner, START, before);
      var w := Run(cfg, owner, earlier, after);
      var plain := Load(cfg, w.segment, None, Log(w), clock);
      && (var g := Load(cfg, w.segment, w.snapshot, Log(w), clock); g == plain.(next := g.next))
      && (var g := Load(cfg, w.segment, earlier.snapshot, Log(w), clock); g == plain.(next := g.next))
  {
    hide Step, Enabled, Load, FilesGrow;
    var earlier := Run(cfg, owner, START, before);
    var w := Run(cfg, owner, earlier, after);
    StartInv(cfg);
    RunKeeps(cfg, owner, START, before);
    RunKeeps(cfg, owner, earlier, after);
    SnapshotsFitLater(cfg, earlier, w);
    hide WorldInv, Run, EnabledRun, SnapshotFits, LastEvents, Defaults;
    SnapshotIrrelevant(cfg, w.segment, w.snapshot, None, Log(w), clock);
    SnapshotIrrelevant(cfg, w.segment, earlier.snapshot, None, Log(w), clock);
  }

  lemma {:induction false} SnapshotsFitLater(cfg: Config, earlier: World, w: World)
    requires WorldInv(cfg, earlier) && WorldInv(cfg, w) && FilesGrow(earlier, w)
    ensures LastEvents(Log(w)).Keys <= Defaults(w.segment).Keys
    ensures SnapshotFits(Defaults(w.segment), Log(w), w.snapshot)
    ensures SnapshotFits(Defaults(w.segment), Log(w), earlier.snapshot)
    ensures SnapshotFits(Defaults(w.segment), Log(w), None)
  {
    hide Inv, History, LastEvents, Defaults, UniqueIds;
    SnapshotStaysFitting(Defaults(earlier.segment), Log(earlier), Defaults(w.segment), Log(w), earlier.snapshot);
  }

  // After a restart the runtime table is, message by message, what the last logged event says, or the
  // default of a message without one, with IN_FLIGHT rewritten to READY.
  lemma {:induction false} RestartIsReplay(cfg: Config, owner: Text, w: World, clock: LoadClock, id: Id)
    requires WorldInv(cfg, w) && w.Down? && id in Defaults(w.segment)
    ensures
      var g := Step(cfg, owner, w, OpenGroup(clock)).0.group;
      && g.runtime.Keys == Defaults(w.segment).Keys
      && g.runtime[id] == Recovered(ReplayedRuntime(Defaults(w.segment)[id], w.log, id), clock.rewrite)
  {
    hide Inv, History, LastEvents, Defaults, SnapshotFits, UniqueIds, Load, ReplayedRuntime;
    LoadIsReplay(cfg, w.segment, w.snapshot, w.log, clock);
  }

  // ---------------------------------------------------------------------------------------------
  // Leases, whatever restarts happened
  // ---------------------------------------------------------------------------------------------

  // In every reachable state of a loaded group the leased messages are exactly those last logged
  // IN_FLIGHT, at most max_inflight of them. Every IN_FLIGHT message is leased; a leased message that is
  // not IN_FLIGHT is READY and has had no event since the group was loaded.
  lemma {:induction false} LeasesExact(cfg: Config, w: World, id: Id)
    requires WorldInv(cfg, w) && w.Up?
    ensures id in w.group.inflight <==> id in LastEvents(w.group.log) && LastEvents(w.group.log)[id].state == InFlight
    ensures |w.group.inflight.Keys| <= cfg.maxInflight
    ensures id in w.group.inflight ==> id in w.group.runtime
    ensures id in w.group.runtime && w.group.runtime[id].state == InFlight ==> id in w.group.inflight
    ensures id in w.group.inflight && w.group.runtime[id].state != InFlight ==>
      && w.group.runtime[id].state == Ready
      && (forall k :: w.session.since <= k < |w.group.log| ==> w.group.log[k].id != id)
  {
    var s, g := w.session, w.group;
    LeasesAreLogged(cfg, s, g);
    if id in g.inflight {
      LeasedIsLoaded(cfg, s, g, id);
    }
    if id in g.runtime {
      RuntimeWithinBudget(cfg, s, g, id);
      if id in g.inflight && g.runtime[id].state != InFlight {
        ResidualIsUntouched(cfg, s, g, id);
      }
    }
  }

  lemma {:induction false} LeasesAreLogged(cfg: Config, s: Session, g: Group)
    requires Inv(cfg, s, g)
    ensures g.inflight.Keys == InFlightIds(g.log) && |InFlightIds(g.log)| <= cfg.maxInflight
  {
    hide LastEvents, LiveRuntime, RuntimeInSync, ProperDefaults;
  }

  lemma {:induction false} ResidualIsUntouched(cfg: Config, s: Session, g: Group, id: Id)
    requires Inv(cfg, s, g) && id in g.inflight && id in g.runtime && g.runtime[id].state != InFlight
    ensures g.runtime[id].state == Ready
    ensures forall k :: s.since <= k < |g.log| ==> g.log[k].id != id
  {
    LeasesAreLogged(cfg, s, g);
    assert g.runtime[id] == LiveRuntime(s, g.log, id);
    hide Inv;
    forall k | s.since <= k < |g.log|
      ensures g.log[k].id != id
    {
      TouchedAt(g.log, s.since, k);
    }
  }

  // An acknowledgement is accepted exactly for a leased message. The documentation promises it only for
  // IN_FLIGHT messages; the code also accepts it for a READY message whose lease survived a restart.
  lemma {:induction false} AckAccepted(cfg: Config, w: World, id: Id, now: nat)
    requires WorldInv(cfg, w) && w.Up?
    ensures Ack(cfg, w.group, id, now, {}).1.Done? <==> id in w.group.inflight
    ensures Ack(cfg, w.group, id, now, {}).1.Done? && w.group.runtime[id].state != InFlight ==>
      w.group.runtime[id].state == Ready && id !in Touched(w.group.log, w.session.since)
  {
    LeasesExact(cfg, w, id);
    if id in w.group.inflight && id in Touched(w.group.log, w.session.since) {
      var k := TouchedWhere(w.group.log, w.session.since, id);
    }
    hide WorldInv, LastEvents, Touched;
  }

  // The promise that acknowledgements are for IN_FLIGHT messages only, and when the code keeps it.
  ghost predicate AcksOnlyInFlight(cfg: Config, g: Group, now: nat) {
    forall id :: Ack(cfg, g, id, now, {}).1.Done? ==> id in g.runtime && g.runtime[id].state == InFlight
  }

  // It is kept exactly when every message that was IN_FLIGHT at the restart has had an event since.
  lemma {:induction false} AcksOnlyInFlightWhen(cfg: Config, w: World, now: nat)
    requires WorldInv(cfg, w) && w.Up?
    ensures AcksOnlyInFlight(cfg, w.group, now) <==> InFlightIds(w.group.log) <= Touched(w.group.log, w.session.since)
  {
    var s, g := w.session, w.group;
    LeasesAreLogged(cfg, s, g);
    forall id
      ensures Ack(cfg, g, id, now, {}).1.Done? <==> id in InFlightIds(g.log)
      ensures id in InFlightIds(g.log) ==>
        id in g.runtime && (g.runtime[id].state == InFlight <==> id in Touched(g.log, s.since))
    {
      AckAccepted(cfg, w, id, now);
      if id in InFlightIds(g.log) {
        LeasedIsLoaded(cfg, s, g, id);
        LeasedState(cfg, s, g, id);
      }
    }
  }

  // Right after a restart the promise is broken exactly if some message was IN_FLIGHT when the process went
  // down: its acknowledgement is accepted although the message is READY again.
  lemma {:induction false} AcksAfterRestart(cfg: Config, owner: Text, w: World, clock: LoadClock, now: nat)
    requires WorldInv(cfg, w) && w.Down?
    ensures Step(cfg, owner, w, OpenGroup(clock)).0.Up?
    ensures AcksOnlyInFlight(cfg, Step(cfg, owner, w, OpenGroup(clock)).0.group, now) <==> InFlightIds(w.log) == {}
  {
    hide WorldInv, InFlightIds, AcksOnlyInFlight, Load, Defaults;
    var w' := Step(cfg, owner, w, OpenGroup(clock)).0;
    OpenKeeps(cfg, owner, w, clock);
    OpenedKeys(cfg, owner, w, clock);
    assert Touched(w.log, |w.log|) == {};
    AcksOnlyInFlightWhen(cfg, w', now);
  }

  lemma {:induction false} LeasedState(cfg: Config, s: Session, g: Group, id: Id)
    requires Inv(cfg, s, g) && id in InFlightIds(g.log) && id in g.runtime
    ensures g.runtime[id].state == InFlight <==> id in Touched(g.log, s.since)
  {
    assert g.runtime[id] == LiveRuntime(s, g.log, id);
  }

  // ---------------------------------------------------------------------------------------------
  // ACKED and DEAD are permanent
  // ---------------------------------------------------------------------------------------------

  ghost predicate Settled(w: World, id: Id, state: State) {
    && !Live(state)
    && id in LastEvents(Log(w)) && LastEvents(Log(w))[id].state == state
  }

  lemma {:induction false} SettledRuntime(cfg: Config, w: World, id: Id)
    requires WorldInv(cfg, w) && w.Up? && id in w.group.runtime
    ensures !Live(w.group.runtime[id].state) <==>
      id in LastEvents(w.group.log) && !Live(LastEvents(w.group.log)[id].state)
    ensures !Live(w.group.runtime[id].state) ==> LastEvents(w.group.log)[id].state == w.group.runtime[id].state
  {
    hide LastEvents, Touched, Defaults, History, SnapshotFits, UniqueIds;
    assert w.group.runtime[id] == LiveRuntime(w.session, w.group.log, id);
    assert w.session.defaults[id].state == Ready;
  }

  lemma {:induction false} SettledIsLoaded(cfg: Config, w: World, id: Id)
    requires WorldInv(cfg, w) && w.Up? && id in LastEvents(w.group.log)
    ensures id in w.group.runtime
  {
    hide LastEvents, Defaults, History, SnapshotFits, UniqueIds, LiveRuntime, LeasesInSync;
  }

  lemma {:induction false} EvolvesSettled(cfg: Config, g: Group, g': Group, id: Id)
    requires Evolves(cfg, g, g') && id in g.runtime && !Live(g.runtime[id].state)
    requires Live(g'.runtime[id].state) ==> g'.runtime[id].retry <= cfg.maxRetry
    ensures g'.runtime[id] == g.runtime[id]
    ensures Count(g'.log, id) == Count(g.log, id) && Deliveries(g'.log, id) == Deliveries(g.log, id)
  {
    hide Count, Deliveries;
    assert MessageEvolves(cfg, g, g', id);
  }

  lemma {:induction false} StepKeepsSettled(cfg: Config, owner: Text, w: World, op: Op, id: Id, state: State)
    requires WorldInv(cfg, w) && SaneRetryLimit(cfg) && Enabled(w, op) && Settled(w, id, state)
    ensures var w' := Step(cfg, owner, w, op).0;
      && Settled(w', id, state)
      && Count(Log(w'), id) == Count(Log(w), id) && Deliveries(Log(w'), id) == Deliveries(Log(w), id)
  {
    var w' := Step(cfg, owner, w, op).0;
    if GroupOp(op) {
      GroupOpKeepsSettled(cfg, owner, w, op, id);
    } else {
      OtherStepKeepsLog(cfg, owner, w, op);
    }
    hide Step, WorldInv, LastEvents, Count, Deliveries;
  }

  lemma {:induction false} GroupOpKeepsSettled(cfg: Config, owner: Text, w: World, op: Op, id: Id)
    requires WorldInv(cfg, w) && SaneRetryLimit(cfg) && Enabled(w, op) && GroupOp(op)
    requires id in LastEvents(Log(w)) && !Live(LastEvents(Log(w))[id].state)
    ensures var log' := Log(Step(cfg, owner, w, op).0);
      && id in LastEvents(log') && LastEvents(log')[id].state == LastEvents(Log(w))[id].state
      && Count(log', id) == Count(Log(w), id) && Deliveries(log', id) == Deliveries(Log(w), id)
  {
    var w' := Step(cfg, owner, w, op).0;
    assert w.Up?;
    GroupOpKeeps(cfg, owner, w, op);
    hide Step, WorldInv, LastEvents, Count, Deliveries, Inv, Evolves;
    EvolvedIsLoaded(cfg, w.group, w'.group, id);
    SettledIsLoaded(cfg, w, id);
    SettledRuntime(cfg, w, id);
    RuntimeWithinBudget(cfg, w'.session, w'.group, id);
    EvolvesSettled(cfg, w.group, w'.group, id);
    SettledRuntime(cfg, w', id);
  }

  // Once ACKED or DEAD is logged for a message, no run, whatever it does, logs another event for it or
  // delivers it again, and every session that holds the message shows it in that state.
  lemma {:induction false} TerminalIsPermanent(cfg: Config, owner: Text, w: World, ops: seq<Op>, id: Id, state: State)
    requires WorldInv(cfg, w) && SaneRetryLimit(cfg) && EnabledRun(cfg, owner, w, ops) && Settled(w, id, state)
    ensures var w' := Run(cfg, owner, w, ops);
      && Settled(w', id, state)
      && Count(Log(w'), id) == Count(Log(w), id) && Deliveries(Log(w'), id) == Deliveries(Log(w), id)
      && (w'.Up? ==> id in w'.group.runtime && w'.group.runtime[id].state == state && id !in w'.group.inflight)
    decreases |ops|
  {
    hide Step, Enabled, Settled, Count, Deliveries, WorldInv;
    if ops == [] {
      if w.Up? {
        SettledShows(cfg, w, id, state);
      }
    } else {
      StepKeeps(cfg, owner, w, ops[0]);
      StepKeepsSettled(cfg, owner, w, ops[0], id, state);
      TerminalIsPermanent(cfg, owner, Step(cfg, owner, w, ops[0]).0, ops[1..], id, state);
    }
  }

  lemma {:induction false} SettledShows(cfg: Config, w: World, id: Id, state: State)
    requires WorldInv(cfg, w) && w.Up? && Settled(w, id, state)
    ensures id in w.group.runtime && w.group.runtime[id].state == state && id !in w.group.inflight
  {
    SettledIsLoaded(cfg, w, id);
    SettledRuntime(cfg, w, id);
    LeasesExact(cfg, w, id);
    hide WorldInv, LastEvents;
  }

  // ---------------------------------------------------------------------------------------------
  // Messages produced after the group was loaded
  // ---------------------------------------------------------------------------------------------

  // A message produced while a group is loaded waits for a restart: until then no run delivers it, logs an event
  // for it or enters it in the table. The next session holds it, READY.
  lemma {:induction false} LateMessageWaits(
    cfg: Config, owner: Text, w: World, m: Message, ops: seq<Op>, clock: LoadClock)
    requires WorldInv(cfg, w) && SaneRetryLimit(cfg) && w.Up? && Enabled(w, Produce(m)) && NoRestart(ops)
    requires EnabledRun(cfg, owner, Step(cfg, owner, w, Produce(m)).0, ops)
    ensures var w' := Run(cfg, owner, Step(cfg, owner, w, Produce(m)).0, ops);
      && w'.Up? && m.id !in w'.group.runtime && m.id !in w'.group.inflight
      && m.id !in LastEvents(Log(w')) && Deliveries(Log(w'), m.id) == 0
      && var g := Load(cfg, w'.segment, w'.snapshot, Log(w'), clock);
      m.id in g.runtime && g.runtime[m.id] == DefaultRuntime(|w.segment|, m.enqueued)
  {
    hide WorldInv, Run, EnabledRun, Load, Evolves, LastEvents, Deliveries, FilesGrow, Defaults;
    var w1 := Step(cfg, owner, w, Produce(m)).0;
    var w' := Run(cfg, owner, w1, ops);
    NotYetInSegment(cfg, w, m);
    StepKeeps(cfg, owner, w, Produce(m));
    SessionEvolves(cfg, owner, w1, ops);
    EvolvedIsLoaded(cfg, w1.group, w'.group, m.id);
    NotLoadedNotLogged(cfg, w', m.id);
    LeasesExact(cfg, w', m.id);
    RunKeeps(cfg, owner, w1, ops);
    ProducedDefault(w.segment, m);
    LoadedDefault(cfg, w1, w', m.id, clock);
  }

  lemma {:induction false} NotYetInSegment(cfg: Config, w: World, m: Message)
    requires WorldInv(cfg, w) && w.Up? && Enabled(w, Produce(m))
    ensures m.id !in w.group.runtime
  {
    hide LastEvents, Defaults, History, SnapshotFits, UniqueIds, LiveRuntime, LeasesInSync;
    OnlySegmentIds(w.segment, m.id);
  }

  lemma {:induction false} OnlySegmentIds(segment: seq<Message>, id: Id)
    ensures id in Defaults(segment) ==> exists k :: 0 <= k < |segment| && segment[k].id == id
  {
    if segment != [] {
      var n := |segment| - 1;
      OnlySegmentIds(segment[..n], id);
      if k :| 0 <= k < n && segment[..n][k].id == id {
        assert segment[k].id == id;
      }
    }
  }

  lemma {:induction false} ProducedDefault(segment: seq<Message>, m: Message)
    ensures m.id in Defaults(segment + [m])
    ensures Defaults(segment + [m])[m.id] == DefaultRuntime(|segment|, m.enqueued)
  {
    assert (segment + [m])[..|segment|] == segment;
  }

  lemma {:induction false} LoadedDefault(cfg: Config, w: World, later: World, id: Id, clock: LoadClock)
    requires WorldInv(cfg, later) && FilesGrow(w, later) && id in Defaults(w.segment)
    requires Defaults(w.segment)[id].state == Ready && id !in LastEvents(Log(later))
    ensures
      var g := Load(cfg, later.segment, later.snapshot, Log(later), clock);
      id in g.runtime && g.runtime[id] == Defaults(w.segment)[id]
  {
    hide Inv, History, LastEvents, Defaults, SnapshotFits, UniqueIds, Load;
    LoadIsReplay(cfg, later.segment, later.snapshot, Log(later), clock);
  }

  // ---------------------------------------------------------------------------------------------
  // Bounds
  // ---------------------------------------------------------------------------------------------

  ghost predicate NoRestart(ops: seq<Op>) {
    forall k :: 0 <= k < |ops| ==> !ops[k].Crash?
  }

  lemma {:induction false} SessionEvolves(cfg: Config, owner: Text, w: World, ops: seq<Op>)
    requires WorldInv(cfg, w) && SaneRetryLimit(cfg) && EnabledRun(cfg, owner, w, ops) && w.Up? && NoRestart(ops)
    ensures var w' := Run(cfg, owner, w, ops);
      WorldInv(cfg, w') && w'.Up? && w'.session == w.session && Evolves(cfg, w.group, w'.group)
    decreases |ops|
  {
    hide WorldInv, Evolves;
    if ops == [] {
      EvolvesIdle(cfg, w.group, w.group);
    } else {
      var w1 := Step(cfg, owner, w, ops[0]).0;
      StepKeeps(cfg, owner, w, ops[0]);
      if GroupOp(ops[0]) {
        GroupOpKeeps(cfg, owner, w, ops[0]);
      } else {
        EvolvesIdle(cfg, w.group, w1.group);
      }
      hide Step, Enabled;
      SessionEvolves(cfg, owner, w1, ops[1..]);
      EvolvesTransitive(cfg, w.group, w1.group, Run(cfg, owner, w, ops).group);
    }
  }

  // Between two restarts a message takes at most 2 * max_retry + 2 transitions.
  lemma {:induction false} TransitionsPerMessage(cfg: Config, owner: Text, w: World, ops: seq<Op>, id: Id)
    requires WorldInv(cfg, w) && SaneRetryLimit(cfg) && EnabledRun(cfg, owner, w, ops) && w.Up? && NoRestart(ops)
    requires id in w.group.runtime
    ensures Count(Log(Run(cfg, owner, w, ops)), id) <= Count(Log(w), id) + 2 * cfg.maxRetry + 2
  {
    var w' := Run(cfg, owner, w, ops);
    SessionEvolves(cfg, owner, w, ops);
    EvolvedIsLoaded(cfg, w.group, w'.group, id);
    LoadedRanks(cfg, w, id);
    LoadedRanks(cfg, w', id);
    hide WorldInv, Run, EnabledRun, Count, Rank, DeliveriesLeft;
    assert MessageEvolves(cfg, w.group, w'.group, id);
  }

  lemma {:induction false} LoadedRanks(cfg: Config, w: World, id: Id)
    requires WorldInv(cfg, w) && w.Up? && id in w.group.runtime
    ensures 0 <= Rank(cfg, w.group.runtime[id]) <= 2 * cfg.maxRetry + 2
  {
    RuntimeWithinBudget(cfg, w.session, w.group, id);
    hide WorldInv;
  }

  lemma EvolvedIsLoaded(cfg: Config, g: Group, g': Group, id: Id)
    requires Evolves(cfg, g, g')
    ensures id in g.runtime <==> id in g'.runtime
  {
  }

  // Events of messages outside a set.
  function Others(log: seq<Event>, id: Id): seq<Event> {
    if log == [] then [] else
    var e := log[|log| - 1];
    Others(log[..|log| - 1], id) + (if e.id == id then [] else [e])
  }

  lemma {:induction false} OthersCounts(log: seq<Event>, id: Id, other: Id)
    ensures |log| == |Others(log, id)| + Count(log, id)
    ensures other != id ==> Count(Others(log, id), other) == Count(log, other)
  {
    if log != [] {
      var e := log[|log| - 1];
      var before := Others(log[..|log| - 1], id);
      OthersCounts(log[..|log| - 1], id, other);
      CountAppend(before, e, other);
      assert before + [] == before;
    }
  }

  lemma {:induction false} OthersMembers(log: seq<Event>, id: Id, e: Event)
    requires e in Others(log, id)
    ensures e in log && e.id != id
  {
    var before := Others(log[..|log| - 1], id);
    if e in before {
      OthersMembers(log[..|log| - 1], id, e);
    }
  }

  ghost predicate AtMost(log: seq<Event>, ids: set<Id>, bound: nat) {
    && (forall e :: e in log ==> e.id in ids)
    && (forall id :: id in ids ==> Count(log, id) <= bound)
  }

  lemma {:induction false} OthersAtMost(log: seq<Event>, ids: set<Id>, bound: nat, id: Id)
    requires AtMost(log, ids, bound)
    ensures AtMost(Others(log, id), ids - {id}, bound)
  {
    hide Count, Others;
    forall e | e in Others(log, id)
      ensures e.id in ids - {id}
    {
      OthersMembers(log, id, e);
    }
    forall other | other in ids - {id}
      ensures Count(Others(log, id), other) <= bound
    {
      OthersCounts(log, id, other);
    }
  }

  lemma {:induction false} AtMostGives(log: seq<Event>, ids: set<Id>, bound: nat, id: Id)
    requires AtMost(log, ids, bound)
    ensures id in ids ==> Count(log, id) <= bound
    ensures ids == {} ==> log == []
  {
    assert log != [] ==> log[0] in log;
  }

  lemma {:induction false} OneIdLess(ids: set<Id>, id: Id, bound: nat)
    requires id in ids
    ensures bound * |ids| == bound * |ids - {id}| + bound
  {
    assert ids == (ids - {id}) + {id};
  }

  lemma {:induction false} CountBoundsLength(log: seq<Event>, ids: set<Id>, bound: nat)
    requires AtMost(log, ids, bound)
    ensures |log| <= bound * |ids|
    decreases |ids|
  {
    hide AtMost, Count, Others;
    if ids == {} {
      AtMostGives(log, ids, bound, Id(0, 0));
    } else {
      var id :| id in ids;
      AtMostGives(log, ids, bound, id);
      OthersAtMost(log, ids, bound, id);
      OthersCounts(log, id, id);
      OneIdLess(ids, id, bound);
      CountBoundsLength(Others(log, id), ids - {id}, bound);
    }
  }

  lemma {:induction false} CountOfSuffix(log: seq<Event>, since: nat, id: Id)
    requires since <= |log|
    ensures Count(log, id) == Count(log[..since], id) + Count(log[since..], id)
    decreases |log|
  {
    if since < |log| {
      var n := |log| - 1;
      CountOfSuffix(log[..n], since, id);
      assert log[..n][..since] == log[..since];
      assert log[since..] == log[..n][since..] + [log[n]];
      CountAppend(log[..n][since..], log[n], id);
    } else {
      assert log[..since] == log && log[since..] == [];
    }
  }

  // The events a session logs are events of its messages, each with a bounded number of them.
  lemma {:induction false} AddedEvents(cfg: Config, owner: Text, w: World, ops: seq<Op>)
    requires WorldInv(cfg, w) && SaneRetryLimit(cfg) && EnabledRun(cfg, owner, w, ops) && w.Up? && NoRestart(ops)
    ensures Log(w) <= Log(Run(cfg, owner, w, ops))
    ensures AtMost(Log(Run(cfg, owner, w, ops))[|Log(w)|..], w.group.runtime.Keys, 2 * cfg.maxRetry + 2)
  {
    hide WorldInv, EnabledRun, Run, Count;
    SessionEvolves(cfg, owner, w, ops);
    var w' := Run(cfg, owner, w, ops);
    var added := Log(w')[|Log(w)|..];
    forall id | id in w.group.runtime
      ensures Count(added, id) <= 2 * cfg.maxRetry + 2
    {
      TransitionsPerMessage(cfg, owner, w, ops, id);
      CountOfSuffix(Log(w'), |Log(w)|, id);
      assert Log(w')[..|Log(w)|] == Log(w);
    }
    forall e | e in added
      ensures e.id in w.group.runtime
    {
      LoggedIsLoaded(cfg, w, w', e);
    }
  }

  lemma {:induction false} LoggedIsLoaded(cfg: Config, w: World, w': World, e: Event)
    requires WorldInv(cfg, w') && w.Up? && w'.Up? && Evolves(cfg, w.group, w'.group) && e in w'.group.log
    ensures e.id in w.group.runtime
  {
    hide WorldInv, Count, Deliveries;
    SettledIsLoaded(cfg, w', e.id);
    EvolvedIsLoaded(cfg, w.group, w'.group, e.id);
  }

  // Between two restarts a group of n messages logs at most n * (2 * max_retry + 2) events.
  lemma {:induction false} SessionIsBounded(cfg: Config, owner: Text, w: World, ops: seq<Op>)
    requires WorldInv(cfg, w) && SaneRetryLimit(cfg) && EnabledRun(cfg, owner, w, ops) && w.Up? && NoRestart(ops)
    ensures |Log(Run(cfg, owner, w, ops))| <= |Log(w)| + (2 * cfg.maxRetry + 2) * |w.group.runtime.Keys|
  {
    hide WorldInv, EnabledRun, Run, AtMost, Log;
    AddedEvents(cfg, owner, w, ops);
    CountBoundsLength(Log(Run(cfg, owner, w, ops))[|Log(w)|..], w.group.runtime.Keys, 2 * cfg.maxRetry + 2);
  }

  function Crashes(ops: seq<Op>): nat {
    if ops == [] then 0 else (if ops[0].Crash? then 1 else 0) + Crashes(ops[1..])
  }

  // How many more times a message can be delivered if there is no further restart.
  function DeliveriesAhead(cfg: Config, w: World, id: Id): int {
    if w.Up? && id in w.group.runtime then DeliveriesLeft(cfg, w.group.runtime[id])
    else if id in LastEvents(Log(w)) then
      DeliveriesLeft(cfg, Recovered(RuntimeAfter(DefaultRuntime(0, 0), LastEvents(Log(w))[id]), 0))
    else cfg.maxRetry + 1
  }

  lemma {:induction false} DeliveriesAheadNonNegative(cfg: Config, w: World, id: Id)
    requires WorldInv(cfg, w)
    ensures DeliveriesAhead(cfg, w, id) >= 0
  {
    if w.Up? && id in w.group.runtime {
      RuntimeWithinBudget(cfg, w.session, w.group, id);
    }
    hide Inv, Defaults, LastEvents, InFlightIds, SnapshotFits, UniqueIds, Increasing;
  }

  lemma {:induction false} StepUsesDeliveries(cfg: Config, owner: Text, w: World, op: Op, id: Id)
    requires WorldInv(cfg, w) && SaneRetryLimit(cfg) && Enabled(w, op)
    ensures var w' := Step(cfg, owner, w, op).0;
      Deliveries(Log(w'), id) + DeliveriesAhead(cfg, w', id)
      <= Deliveries(Log(w), id) + DeliveriesAhead(cfg, w, id) + (if op.Crash? then 1 else 0)
  {
    var w' := Step(cfg, owner, w, op).0;
    if GroupOp(op) {
      GroupOpKeeps(cfg, owner, w, op);
      hide Step, Inv, LastEvents, Deliveries, DeliveriesLeft, Count, Defaults, History, SnapshotFits, UniqueIds;
      EvolvedIsLoaded(cfg, w.group, w'.group, id);
      if id in w.group.runtime {
        assert MessageEvolves(cfg, w.group, w'.group, id);
      } else {
        NotLoadedNotLogged(cfg, w, id);
        NotLoadedNotLogged(cfg, w', id);
      }
    } else {
      match op {
        case Produce(message) => hide LastEvents, Deliveries, DeliveriesLeft, WorldInv;
        case OpenGroup(clock) => OpenDeliveries(cfg, owner, w, clock, id);
        case Crash => CrashDeliveries(cfg, owner, w, id);
      }
    }
  }

  lemma {:induction false} NotLoadedNotLogged(cfg: Config, w: World, id: Id)
    requires WorldInv(cfg, w) && w.Up? && id !in w.group.runtime
    ensures id !in LastEvents(w.group.log) && Deliveries(w.group.log, id) == 0
  {
    if id in LastEvents(w.group.log) {
      SettledIsLoaded(cfg, w, id);
    }
    hide WorldInv;
    NeverDelivered(w.group.log, id);
  }

  lemma {:induction false} NeverDelivered(log: seq<Event>, id: Id)
    requires id !in LastEvents(log)
    ensures Deliveries(log, id) == 0
  {
    if log != [] {
      NeverDelivered(log[..|log| - 1], id);
    }
  }

  lemma {:induction false} OpenDeliveries(cfg: Config, owner: Text, w: World, clock: LoadClock, id: Id)
    requires WorldInv(cfg, w) && w.Down?
    ensures var w' := Step(cfg, owner, w, OpenGroup(clock)).0;
      Log(w') == Log(w) && DeliveriesAhead(cfg, w', id) <= DeliveriesAhead(cfg, w, id)
  {
    hide WorldInv, LastEvents, Defaults, Load;
    OpenKeeps(cfg, owner, w, clock);
    LoggedHaveDefaults(cfg, w);
    OpenedKeys(cfg, owner, w, clock);
    if id in Defaults(w.segment) {
      RestartIsReplay(cfg, owner, w, clock, id);
      DefaultsFacts(w.segment);
    }
  }

  lemma {:induction false} LoggedHaveDefaults(cfg: Config, w: World)
    requires WorldInv(cfg, w)
    ensures LastEvents(Log(w)).Keys <= Defaults(w.segment).Keys
  {
    hide LastEvents, Defaults, History, SnapshotFits, UniqueIds, Inv;
  }

  lemma {:induction false} OpenedKeys(cfg: Config, owner: Text, w: World, clock: LoadClock)
    requires WorldInv(cfg, w) && w.Down?
    ensures Step(cfg, owner, w, OpenGroup(clock)).0.Up?
    ensures Step(cfg, owner, w, OpenGroup(clock)).0.group.runtime.Keys == Defaults(w.segment).Keys
  {
    hide LastEvents, Defaults, History, SnapshotFits, UniqueIds, Inv, Load, ReplayedRuntime;
    LoadIsReplay(cfg, w.segment, w.snapshot, w.log, clock);
  }

  lemma {:induction false} CrashDeliveries(cfg: Config, owner: Text, w: World, id: Id)
    requires WorldInv(cfg, w)
    ensures var w' := Step(cfg, owner, w, Crash).0;
      Log(w') == Log(w) && DeliveriesAhead(cfg, w', id) <= DeliveriesAhead(cfg, w, id) + 1
  {
    hide WorldInv, LastEvents;
    if w.Up? {
      if id in w.group.runtime {
        CrashRuntime(cfg, w, id);
      } else {
        NotLoadedNotLogged(cfg, w, id);
      }
    }
  }

  lemma {:induction false} CrashRuntime(cfg: Config, w: World, id: Id)
    requires WorldInv(cfg, w) && w.Up? && id in w.group.runtime
    ensures
      var r :=
        if id in LastEvents(w.group.log) then RuntimeAfter(DefaultRuntime(0, 0), LastEvents(w.group.log)[id])
        else DefaultRuntime(0, 0);
      && w.group.runtime[id].retry == r.retry
      && (w.group.runtime[id].state == r.state || (r.state == InFlight && w.group.runtime[id].state == Ready))
  {
    hide LastEvents, Touched, Defaults, History, SnapshotFits, UniqueIds;
    assert w.group.runtime[id] == LiveRuntime(w.session, w.group.log, id);
    assert w.session.defaults[id] == DefaultRuntime(w.session.defaults[id].offset, w.session.defaults[id].enqueued);
  }

  lemma {:induction false} RunUsesDeliveries(cfg: Config, owner: Text, w: World, ops: seq<Op>, id: Id)
    requires WorldInv(cfg, w) && SaneRetryLimit(cfg) && EnabledRun(cfg, owner, w, ops)
    ensures var w' := Run(cfg, owner, w, ops);
      Deliveries(Log(w'), id) + DeliveriesAhead(cfg, w', id)
      <= Deliveries(Log(w), id) + DeliveriesAhead(cfg, w, id) + Crashes(ops)
    decreases |ops|
  {
    hide WorldInv, Step, Enabled, Deliveries, DeliveriesAhead, Log;
    if ops != [] {
      StepKeeps(cfg, owner, w, ops[0]);
      StepUsesDeliveries(cfg, owner, w, ops[0], id);
      RunUsesDeliveries(cfg, owner, Step(cfg, owner, w, ops[0]).0, ops[1..], id);
    }
  }

  // Over a whole run a message is delivered at most max_retry + 1 times, plus once per restart.
  lemma {:induction false} DeliveriesBounded(cfg: Config, owner: Text, ops: seq<Op>, id: Id)
    requires SaneRetryLimit(cfg) && EnabledRun(cfg, owner, START, ops)
    ensures Deliveries(Log(Run(cfg, owner, START, ops)), id) <= cfg.maxRetry + 1 + Crashes(ops)
  {
    StartInv(cfg);
    RunKeeps(cfg, owner, START, ops);
    RunUsesDeliveries(cfg, owner, START, ops, id);
    DeliveriesAheadNonNegative(cfg, Run(cfg, owner, START, ops), id);
    assert DeliveriesAhead(cfg, START, id) == cfg.maxRetry + 1;
    hide Run, EnabledRun, WorldInv, DeliveriesAhead;
  }
}
