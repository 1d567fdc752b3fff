// Theorems over whole runs: any sequence of produces, operations on the group, crashes and restarts.
module Runs {
  import opened Wrappers
  import opened Transitions
  import opened Legality
  import opened Operations
  import opened Reachability

  ghost predicate SubDefaults(a: map<Id, Runtime>, b: map<Id, Runtime>) {
    forall id :: id in a ==> id in b && a[id] == b[id]
  }

  ghost predicate WorldInv(cfg: Config, w: World) {
    && UniqueIds(w.segment)
    && History(cfg, Log(w))
    && LastEvents(Log(w)).Keys <= Defaults(w.segment).Keys
    && SnapshotFits(Defaults(w.segment), Log(w), w.snapshot)
    && (w.Up? ==> Inv(cfg, w.session, w.group) && SubDefaults(w.session.defaults, Defaults(w.segment)))
  }

  // ---------------------------------------------------------------------------------------------
  // Steps keep the invariant
  // ---------------------------------------------------------------------------------------------

  lemma {:induction false} ProduceExtends(segment: seq<Message>, message: Message)
    requires UniqueIds(segment) && forall i :: 0 <= i < |segment| ==> segment[i].id != message.id
    ensures UniqueIds(segment + [message])
    ensures SubDefaults(Defaults(segment), Defaults(segment + [message]))
    ensures Defaults(segment).Keys <= Defaults(segment + [message]).Keys
  {
    DefaultsFacts(segment);
    assert (segment + [message])[..|segment|] == segment;
    assert message.id !in Defaults(segment);
  }

  lemma SubDefaultsTransitive(a: map<Id, Runtime>, b: map<Id, Runtime>, c: map<Id, Runtime>)
    requires SubDefaults(a, b) && SubDefaults(b, c)
    ensures SubDefaults(a, c)
  {
  }

  lemma {:induction false} LastEventsGrow(a: seq<Event>, b: seq<Event>)
    requires a <= b
    ensures LastEvents(a).Keys <= LastEvents(b).Keys
  {
    if |a| < |b| {
      LastEventsGrow(a, b[..|b| - 1]);
    } else {
      assert a == b;
    }
  }

  // A snapshot that fits stays fitting while messages are added and events are logged.
  lemma {:induction false} SnapshotStaysFitting(
    d: map<Id, Runtime>, log: seq<Event>, d': map<Id, Runtime>, log': seq<Event>, snapshot: Option<Snapshot>)
    requires SnapshotFits(d, log, snapshot) && SubDefaults(d, d') && log <= log'
    ensures SnapshotFits(d', log', snapshot)
  {
    LastEventsGrow(log, log');
    hide LastEvents;
  }

  // The snapshot a loaded group persists fits.
  lemma {:induction false} PersistedFits(cfg: Config, w: World)
    requires w.Up? && Inv(cfg, w.session, w.group) && SubDefaults(w.session.defaults, Defaults(w.segment))
    ensures SnapshotFits(Defaults(w.segment), w.group.log, Some(Snapshot(w.group.next, w.group.runtime)))
  {
    hide LastEvents, Defaults, Touched, LeasesInSync, History;
    var s, g := w.session, w.group;
    forall id | id in g.runtime
      ensures g.runtime[id].offset == s.defaults[id].offset && g.runtime[id].enqueued == s.defaults[id].enqueued
      ensures id in LastEvents(g.log) || g.runtime[id] == s.defaults[id]
    {
      assert g.runtime[id] == LiveRuntime(s, g.log, id);
    }
  }

  lemma {:induction false} InvGivesHistory(cfg: Config, s: Session, g: Group)
    requires Inv(cfg, s, g)
    ensures History(cfg, g.log) && LastEvents(g.log).Keys <= s.defaults.Keys
    ensures g.runtime.Keys == s.defaults.Keys
  {
    hide LastEvents, LiveRuntime, LeasesInSync, History, ProperDefaults;
  }

  // A loaded world whose group evolved, with or without a new snapshot of it.
  lemma {:induction false} GroupStepKeeps(cfg: Config, w: World, g: Group, w': World)
    requires WorldInv(cfg, w) && w.Up? && Inv(cfg, w.session, g) && Evolves(cfg, w.group, g)
    requires w' == w.(group := g) || w' == Persist(w, g, true)
    ensures WorldInv(cfg, w')
  {
    hide History, LastEvents, Defaults, Inv, SnapshotFits, UniqueIds, MessageEvolves;
    InvGivesHistory(cfg, w.session, g);
    SnapshotStaysFitting(Defaults(w.segment), w.group.log, Defaults(w.segment), g.log, w.snapshot);
    PersistedFits(cfg, w.(group := g));
  }

  lemma {:induction false} InvOfWorld(cfg: Config, w: World)
    requires WorldInv(cfg, w) && w.Up?
    ensures Inv(cfg, w.session, w.group)
  {
    hide Inv, History, LastEvents, Defaults, SnapshotFits, UniqueIds;
  }

  ghost predicate GroupOp(op: Op) {
    op.ConsumeNext? || op.AckOne? || op.NackOne? || op.GetStats?
  }

  lemma {:induction false} SessionOffsets(cfg: Config, w: World)
    requires WorldInv(cfg, w) && w.Up?
    ensures OffsetsInSegment(w.segment, w.session.defaults)
  {
    DefaultsFacts(w.segment);
    hide Inv, History, LastEvents, Defaults, SnapshotFits;
  }

  lemma SettleCases(w: World, result: (Group, Outcome), persists: bool)
    requires w.Up?
    ensures Settle(w, result, persists).0 == w.(group := result.0)
      || Settle(w, result, persists).0 == Persist(w, result.0, true)
  {
  }

  // An operation on a loaded group keeps the invariant, and every message evolves by legal transitions.
  lemma {:induction false} GroupOpKeeps(cfg: Config, owner: Text, w: World, op: Op)
    requires WorldInv(cfg, w) && SaneRetryLimit(cfg) && Enabled(w, op) && GroupOp(op)
    ensures var w' := Step(cfg, owner, w, op).0;
      && WorldInv(cfg, w') && w'.Up? && w'.session == w.session && w'.segment == w.segment
      && Inv(cfg, w.session, w'.group) && Evolves(cfg, w.group, w'.group)
  {
    hide Inv, Evolves, History, LastEvents, Defaults, SnapshotFits;
    hide UniqueIds, Consume, Ack, Nack, Reap, OffsetsInSegment;
    var w' := Step(cfg, owner, w, op).0;
    match op {
      case ConsumeNext(clock, readable, fails, persists) =>
        SessionOffsets(cfg, w);
        ConsumeKeeps(cfg, owner, w.session, w.segment, w.group, clock, fails, readable);
        SettleCases(w, Consume(cfg, owner, w.segment, w.group, clock, fails, readable), persists);
      case AckOne(id, now, fails, persists) =>
        AckKeeps(cfg, w.session, w.group, id, now, fails);
        SettleCases(w, Ack(cfg, w.group, id, now, fails), persists);
      case NackOne(id, requeue, clock, fails, persists) =>
        NackKeeps(cfg, w.session, w.group, id, requeue, clock, fails);
        SettleCases(w, Nack(cfg, w.group, id, requeue, clock, fails), persists);
      case GetStats(scanTime, readyTime, fails) =>
        ReapKeeps(cfg, w.session, w.group, scanTime, readyTime, fails);
    }
    hide WorldInv, SubDefaults;
    GroupStepKeeps(cfg, w, w'.group, w');
  }

  lemma {:induction false} ProduceKeeps(cfg: Config, owner: Text, w: World, message: Message)
    requires WorldInv(cfg, w) && Enabled(w, Produce(message))
    ensures WorldInv(cfg, Step(cfg, owner, w, Produce(message)).0)
    ensures SubDefaults(Defaults(w.segment), Defaults(Step(cfg, owner, w, Produce(message)).0.segment))
  {
    hide Inv, History, LastEvents, Defaults, SnapshotFits, UniqueIds;
    var segment := w.segment + [message];
    ProduceExtends(w.segment, message) by {
      assert UniqueIds(w.segment);
    }
    SnapshotStaysFitting(Defaults(w.segment), Log(w), Defaults(segment), Log(w), w.snapshot);
    if w.Up? {
      SubDefaultsTransitive(w.session.defaults, Defaults(w.segment), Defaults(segment));
    }
  }

  lemma {:induction false} OpenKeeps(cfg: Config, owner: Text, w: World, clock: LoadClock)
    requires WorldInv(cfg, w) && w.Down?
    ensures WorldInv(cfg, Step(cfg, owner, w, OpenGroup(clock)).0)
    ensures Log(Step(cfg, owner, w, OpenGroup(clock)).0) == Log(w)
  {
    hide Inv, History, LastEvents, Defaults, SnapshotFits, UniqueIds, Load;
    LoadIsReplay(cfg, w.segment, w.snapshot, w.log, clock);
    LoadKeeps(cfg, w.segment, w.snapshot, w.log, clock);
  }

  lemma {:induction false} OtherStepKeepsLog(cfg: Config, owner: Text, w: World, op: Op)
    requires Enabled(w, op) && !GroupOp(op)
    ensures Log(Step(cfg, owner, w, op).0) == Log(w)
  {
    hide Defaults, Replay, Eligible, FreshGroup, RewriteInFlight, NextAfter;
  }

  // The cases of Step, one at a time.
  lemma {:induction false} StepCases(cfg: Config, owner: Text, w: World, op: Op)
    requires Enabled(w, op)
    ensures op.Produce? ==> Step(cfg, owner, w, op) == (w.(segment := w.segment + [op.message]), Done)
    ensures op.Crash? ==>
      Step(cfg, owner, w, op) == (Down(w.segment, w.sealed || w.segment != [], w.snapshot, Log(w)), Done)
    ensures op.ConsumeNext? ==>
      w.Up? && Step(cfg, owner, w, op)
        == Settle(w, Consume(cfg, owner, w.segment, w.group, op.consumeClock, op.fails, op.readable), op.persists)
    ensures op.AckOne? ==>
      w.Up? && Step(cfg, owner, w, op) == Settle(w, Ack(cfg, w.group, op.id, op.now, op.fails), op.persists)
    ensures op.NackOne? ==>
      w.Up? && Step(cfg, owner, w, op)
        == Settle(w, Nack(cfg, w.group, op.id, op.requeue, op.nackClock, op.fails), op.persists)
    ensures op.GetStats? ==>
      w.Up? && Step(cfg, owner, w, op) == (w.(group := Reap(cfg, w.group, op.scanTime, op.readyTime, op.fails)), Done)
    ensures op.OpenGroup? ==>
      && w.Down?
      && Step(cfg, owner, w, op)
         == (Up(w.segment, w.sealed, w.snapshot, Session(Defaults(w.segment), |w.log|, op.loadClock.rewrite),
                Load(cfg, w.segment, w.snapshot, w.log, op.loadClock)), Done)
  {
    hide Settle, Consume, Ack, Nack, Reap, Load, Defaults;
  }

  // What a step does to the files: messages and events are only ever added.
  ghost predicate FilesGrow(w: World, w': World) {
    SubDefaults(Defaults(w.segment), Defaults(w'.segment)) && Log(w) <= Log(w')
  }

  lemma {:induction false} CrashKeeps(cfg: Config, owner: Text, w: World)
    requires WorldInv(cfg, w)
    ensures WorldInv(cfg, Step(cfg, owner, w, Crash).0)
    ensures Log(Step(cfg, owner, w, Crash).0) == Log(w)
  {
    hide Inv, History, LastEvents, Defaults, SnapshotFits, UniqueIds;
  }

  lemma {:induction false} GroupOpGrows(cfg: Config, owner: Text, w: World, op: Op)
    requires WorldInv(cfg, w) && SaneRetryLimit(cfg) && Enabled(w, op) && GroupOp(op)
    ensures WorldInv(cfg, Step(cfg, owner, w, op).0) && FilesGrow(w, Step(cfg, owner, w, op).0)
  {
    hide Step, WorldInv, Inv, Defaults, MessageEvolves;
    GroupOpKeeps(cfg, owner, w, op);
  }

  lemma {:induction false} OtherStepKeeps(cfg: Config, owner: Text, w: World, op: Op)
    requires WorldInv(cfg, w) && Enabled(w, op) && !GroupOp(op)
    ensures WorldInv(cfg, Step(cfg, owner, w, op).0) && FilesGrow(w, Step(cfg, owner, w, op).0)
  {
    hide WorldInv, Defaults, Load, Step;
    StepCases(cfg, owner, w, op);
    match op {
      case Produce(message) => ProduceKeeps(cfg, owner, w, message);
      case OpenGroup(clock) => OpenKeeps(cfg, owner, w, clock);
      case Crash => CrashKeeps(cfg, owner, w);
    }
  }

  lemma {:induction false} StepKeeps(cfg: Config, owner: Text, w: World, op: Op)
    requires WorldInv(cfg, w) && SaneRetryLimit(cfg) && Enabled(w, op)
    ensures WorldInv(cfg, Step(cfg, owner, w, op).0) && FilesGrow(w, Step(cfg, owner, w, op).0)
  {
    hide WorldInv, FilesGrow, Step, Enabled;
    if GroupOp(op) {
      GroupOpGrows(cfg, owner, w, op);
    } else {
      OtherStepKeeps(cfg, owner, w, op);
    }
  }

  lemma {:induction false} FilesGrowTransitive(a: World, b: World, c: World)
    requires FilesGrow(a, b) && FilesGrow(b, c)
    ensures FilesGrow(a, c)
  {
    hide Defaults;
  }

  lemma {:induction false} RunKeeps(cfg: Config, owner: Text, w: World, ops: seq<Op>)
    requires WorldInv(cfg, w) && SaneRetryLimit(cfg) && EnabledRun(cfg, owner, w, ops)
    ensures WorldInv(cfg, Run(cfg, owner, w, ops)) && FilesGrow(w, Run(cfg, owner, w, ops))
    decreases |ops|
  {
    hide WorldInv, Step, Enabled, FilesGrow;
    if ops == [] {
      FilesGrowIdle(w);
    } else {
      var w1 := Step(cfg, owner, w, ops[0]).0;
      StepKeeps(cfg, owner, w, ops[0]);
      RunKeeps(cfg, owner, w1, ops[1..]);
      FilesGrowTransitive(w, w1, Run(cfg, owner, w, ops));
    }
  }

  lemma FilesGrowIdle(w: World)
    ensures FilesGrow(w, w)
  {
  }

  lemma {:induction false} StartInv(cfg: Config)
    ensures WorldInv(cfg, START)
  {
    assert InFlightIds([]) == {};
  }

  ghost predicate Reachable(cfg: Config, owner: Text, w: World) {
    exists ops :: EnabledRun(cfg, owner, START, ops) && Run(cfg, owner, START, ops) == w
  }

  lemma {:induction false} RunThenStep(cfg: Config, owner: Text, w: World, ops: seq<Op>, op: Op)
    requires EnabledRun(cfg, owner, w, ops) && Enabled(Run(cfg, owner, w, ops), op)
    ensures EnabledRun(cfg, owner, w, ops + [op])
    ensures Run(cfg, owner, w, ops + [op]) == Step(cfg, owner, Run(cfg, owner, w, ops), op).0
    decreases |ops|
  {
    hide Step, Enabled;
    if ops == [] {
      assert ops + [op] == [op] && [op][1..] == [];
    } else {
      RunThenStep(cfg, owner, Step(cfg, owner, w, ops[0]).0, ops[1..], op);
      assert (ops + [op])[1..] == ops[1..] + [op];
    }
  }

  lemma {:induction false} StepReaches(cfg: Config, owner: Text, w: World, op: Op)
    requires Reachable(cfg, owner, w) && Enabled(w, op)
    ensures Reachable(cfg, owner, Step(cfg, owner, w, op).0)
  {
    hide Step, Enabled, Run, EnabledRun;
    var ops :| EnabledRun(cfg, owner, START, ops) && Run(cfg, owner, START, ops) == w;
    RunThenStep(cfg, owner, START, ops, op);
  }

  lemma {:induction false} ReachableInv(cfg: Config, owner: Text, w: World)
    requires SaneRetryLimit(cfg) && Reachable(cfg, owner, w)
    ensures WorldInv(cfg, w)
  {
    hide WorldInv, Step, Enabled;
    StartInv(cfg);
    var ops :| EnabledRun(cfg, owner, START, ops) && Run(cfg, owner, START, ops) == w;
    RunKeeps(cfg, owner, START, ops);
  }
}
