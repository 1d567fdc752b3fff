// ReplayToSequence: the state of a group right after any logged transition, rebuilt from the files.
module PointInTime {
  import opened Transitions
  import opened Legality
  import opened Operations
  import opened Reachability
  import opened Runs
  import opened CutShort

  // The events a replay applies: those with a sequence number up to the bound.
  function UpTo(log: seq<Event>, until: nat): seq<Event> {
    if log == [] then [] else
    var e := log[|log| - 1];
    UpTo(log[..|log| - 1], until) + (if e.sequence <= until then [e] else [])
  }

  function ReplayDefaults(segment: seq<Message>): map<Id, Runtime> {
    var defaults := Defaults(segment);
    map id | id in defaults :: defaults[id].(note := ReplayReady)
  }

  function ReplayGroup(cfg: Config, segment: seq<Message>, log: seq<Event>, until: nat, now: nat): Group {
    var g0 := Group([], map[], ReplayDefaults(segment), EmptyWheel(), now / Tick(cfg), 1, []);
    Replay(Tick(cfg), g0, UpTo(log, until))
  }

  function InState(runtime: map<Id, Runtime>, state: State): set<Id> {
    set id | id in runtime && runtime[id].state == state
  }

  datatype Counts = Counts(ready: nat, inflight: nat, acked: nat, dead: nat)

  function CountStates(runtime: map<Id, Runtime>): Counts {
    Counts(|InState(runtime, Ready)|, |InState(runtime, InFlight)|, |InState(runtime, Acked)|, |InState(runtime, Dead)|)
  }

  function AppliedSequence(events: seq<Event>): nat {
    if events == [] then 0 else events[|events| - 1].sequence
  }

  // ---------------------------------------------------------------------------------------------
  // Counts
  // ---------------------------------------------------------------------------------------------

  // Every message is counted in exactly one state.
  lemma {:induction false} CountsSum(runtime: map<Id, Runtime>)
    ensures var c := CountStates(runtime); c.ready + c.inflight + c.acked + c.dead == |runtime.Keys|
  {
    var r, f := InState(runtime, Ready), InState(runtime, InFlight);
    var a, d := InState(runtime, Acked), InState(runtime, Dead);
    assert runtime.Keys == r + f + a + d && r !! f && (r + f) !! a && (r + f + a) !! d;
    hide InState;
    DisjointSizes(r, f);
    DisjointSizes(r + f, a);
    DisjointSizes(r + f + a, d);
  }

  lemma DisjointSizes(a: set<Id>, b: set<Id>)
    ensures a !! b ==> |a + b| == |a| + |b|
  {
  }

  // ---------------------------------------------------------------------------------------------
  // The bound
  // ---------------------------------------------------------------------------------------------

  lemma {:induction false} UpToAll(log: seq<Event>, until: nat)
    requires forall i :: 0 <= i < |log| ==> log[i].sequence <= until
    ensures UpTo(log, until) == log
  {
    if log != [] {
      UpToAll(log[..|log| - 1], until);
      assert log == log[..|log| - 1] + [log[|log| - 1]];
    }
  }

  // In an increasing log the events up to the sequence number of event k are the first k + 1.
  lemma {:induction false} UpToIsPrefix(log: seq<Event>, k: nat)
    requires Increasing(log) && k < |log|
    ensures UpTo(log, log[k].sequence) == log[..k + 1]
  {
    var n := |log| - 1;
    if k == n {
      UpToAll(log, log[k].sequence);
      assert log[..k + 1] == log;
    } else {
      UpToIsPrefix(log[..n], k);
      assert log[..n][..k + 1] == log[..k + 1];
    }
  }

  lemma {:induction false} UpToMembers(log: seq<Event>, until: nat, e: Event)
    ensures e in UpTo(log, until) <==> e in log && e.sequence <= until
  {
    if log != [] {
      UpToMembers(log[..|log| - 1], until, e);
      assert log == log[..|log| - 1] + [log[|log| - 1]];
    }
  }

  lemma {:induction false} UpToIncreasing(log: seq<Event>, until: nat)
    requires Increasing(log)
    ensures Increasing(UpTo(log, until))
  {
    if log != [] {
      var n := |log| - 1;
      var before := UpTo(log[..n], until);
      UpToIncreasing(log[..n], until);
      forall i | 0 <= i < |before|
        ensures before[i].sequence < log[n].sequence
      {
        UpToMembers(log[..n], until, before[i]);
      }
    }
  }

  // The reported sequence is the largest logged one up to the bound, or 0 if there is none.
  lemma {:induction false} AppliedIsLargest(log: seq<Event>, until: nat, e: Event)
    requires Increasing(log)
    ensures
      var applied := AppliedSequence(UpTo(log, until));
      && (e in log && e.sequence <= until ==> e.sequence <= applied <= until)
      && ((forall x :: x in log ==> x.sequence > until) ==> applied == 0)
      && (applied != 0 ==> exists x :: x in log && x.sequence == applied)
  {
    var events := UpTo(log, until);
    UpToIncreasing(log, until);
    UpToMembers(log, until, e);
    if events != [] {
      var last := events[|events| - 1];
      UpToMembers(log, until, last);
    }
  }

  // ---------------------------------------------------------------------------------------------
  // The state
  // ---------------------------------------------------------------------------------------------

  lemma {:induction false} ReplayRuntime(cfg: Config, segment: seq<Message>, log: seq<Event>, until: nat, now: nat)
    requires LastEvents(UpTo(log, until)).Keys <= Defaults(segment).Keys
    ensures ReplayGroup(cfg, segment, log, until, now).runtime == ReplayedMap(ReplayDefaults(segment), UpTo(log, until))
  {
    hide Defaults, LastEvents, Replay, UpTo, ReplayedSoFar, Tick, ReplayedMap;
    var events := UpTo(log, until);
    var defaults := ReplayDefaults(segment);
    var s := Session(defaults, 0, 0);
    var g0 := Group([], map[], defaults, EmptyWheel(), now / Tick(cfg), 1, []);
    NothingReplayed(defaults, events);
    NoLeasesYet(Tick(cfg), s, g0);
    hide LeasesInSync;
    assert [] + events == events;
    ReplayTracksLog(Tick(cfg), s, g0, [], events);
    ReplayDone(defaults, events, Replay(Tick(cfg), g0, events).runtime);
  }

  lemma {:induction false} NothingReplayed(defaults: map<Id, Runtime>, log: seq<Event>)
    ensures ReplayedSoFar(defaults, [], log, defaults)
  {
    hide RuntimeAfter;
  }

  lemma {:induction false} UpToKeys(log: seq<Event>, until: nat)
    ensures LastEvents(UpTo(log, until)).Keys <= LastEvents(log).Keys
  {
    forall id | id in LastEvents(UpTo(log, until))
      ensures id in LastEvents(log)
    {
      var e := LastEvents(UpTo(log, until))[id];
      UpToMembers(log, until, e);
    }
  }

  // There are as many entries as messages.
  lemma {:induction false} DefaultsCount(segment: seq<Message>)
    requires UniqueIds(segment)
    ensures |Defaults(segment).Keys| == |segment|
  {
    if segment != [] {
      var n := |segment| - 1;
      var before := Defaults(segment[..n]);
      DefaultsCount(segment[..n]);
      assert segment[n].id !in before by {
        DefaultsFacts(segment[..n]);
      }
      assert Defaults(segment).Keys == before.Keys + {segment[n].id};
    }
  }

  // The four counts of a replay add up to the number of messages.
  lemma {:induction false} ReplayCountsEveryMessage(cfg: Config, w: World, until: nat, now: nat)
    requires WorldInv(cfg, w)
    ensures
      var c := CountStates(ReplayGroup(cfg, w.segment, Log(w), until, now).runtime);
      c.ready + c.inflight + c.acked + c.dead == |w.segment|
  {
    hide Defaults, LastEvents, ReplayGroup, UpTo, CountStates, Inv, History, SnapshotFits, ReplayedRuntime, UniqueIds;
    UpToKeys(Log(w), until);
    ReplayRuntime(cfg, w.segment, Log(w), until, now);
    DefaultsCount(w.segment);
    var runtime := ReplayGroup(cfg, w.segment, Log(w), until, now).runtime;
    assert runtime.Keys == Defaults(w.segment).Keys;
    CountsSum(runtime);
  }

  // The entry a replay rebuilds, against the entry the group held. They agree, the note of a message
  // without an event aside; only a message that was IN_FLIGHT at a restart, READY in memory and without an
  // event since, is IN_FLIGHT in the replay.
  ghost predicate Reconstructs(s: Session, log: seq<Event>, id: Id, replayed: Runtime, live: Runtime) {
    if id in InFlightIds(log) && id !in Touched(log, s.since)
    then replayed.state == InFlight && live == Recovered(replayed, s.recoveredAt)
    else replayed.(note := live.note) == live && (id in LastEvents(log) ==> replayed == live)
  }

  lemma {:induction false} EntryReconstructs(s: Session, log: seq<Event>, id: Id, d: Runtime)
    requires id in s.defaults && d == s.defaults[id].(note := ReplayReady) && s.defaults[id].state == Ready
    ensures Reconstructs(s, log, id, ReplayedRuntime(d, log, id), LiveRuntime(s, log, id))
  {
    hide Touched;
  }

  lemma {:induction false} PrefixReplay(
    cfg: Config, s: Session, segment: seq<Message>, before: seq<Event>, log: seq<Event>, id: Id, now: nat)
    requires before <= log && before != [] && Increasing(log)
    requires LastEvents(before).Keys <= Defaults(segment).Keys
    requires id in s.defaults && id in Defaults(segment)
    requires Defaults(segment)[id] == s.defaults[id] && s.defaults[id].state == Ready
    ensures
      var replay := ReplayGroup(cfg, segment, log, AppliedSequence(before), now);
      id in replay.runtime && Reconstructs(s, before, id, replay.runtime[id], LiveRuntime(s, before, id))
  {
    hide Defaults, LastEvents, ReplayGroup, UpTo, ReplayedRuntime, LiveRuntime, Reconstructs, Increasing;
    var k := |before| - 1;
    assert log[k] == before[k];
    UpToIsPrefix(log, k);
    assert log[..k + 1] == before;
    ReplayRuntime(cfg, segment, log, log[k].sequence, now);
    EntryReconstructs(s, before, id, ReplayDefaults(segment)[id]);
  }

  // A transition a loaded group logs, between operations or in the middle of a reap, and any log that extends
  // it: the replay up to its sequence number rebuilds every entry as it is right after the transition.
  lemma {:induction false} TransitionReplay(
    cfg: Config, s: Session, g: Group, e: Event, segment: seq<Message>, log: seq<Event>, id: Id, now: nat)
    requires Inv(cfg, s, g) && Legal(cfg, g, e) && g.log + [e] <= log && Increasing(log)
    requires SubDefaults(s.defaults, Defaults(segment)) && id in g.runtime
    ensures
      var g' := Append(cfg, g, e, {});
      var replay := ReplayGroup(cfg, segment, log, e.sequence, now);
      && g'.log == g.log + [e] && id in g'.runtime && id in replay.runtime
      && Reconstructs(s, g'.log, id, replay.runtime[id], g'.runtime[id])
  {
    hide Legal, ReplayGroup, Reconstructs, Increasing, Defaults, Inv, Apply, Tick;
    AppendKeeps(cfg, s, g, e, {});
    var g' := Append(cfg, g, e, {});
    assert g'.log == g.log + [e] by {
      ApplyLogs(Tick(cfg), g.(log := g.log + [e]), e);
    }
    assert AppliedSequence(g'.log) == e.sequence;
    StateReplay(cfg, s, g', segment, log, id, now);
  }

  lemma ApplyLogs(tick: nat, g: Group, e: Event)
    requires tick >= 1
    ensures Apply(tick, g, e).log == g.log
  {
  }

  // A loaded state whose history is the first part of a log, and the replay up to its last event.
  lemma {:induction false} StateReplay(
    cfg: Config, s: Session, g: Group, segment: seq<Message>, log: seq<Event>, id: Id, now: nat)
    requires Inv(cfg, s, g) && g.log <= log && g.log != [] && Increasing(log)
    requires SubDefaults(s.defaults, Defaults(segment)) && id in g.runtime
    ensures
      var replay := ReplayGroup(cfg, segment, log, AppliedSequence(g.log), now);
      id in replay.runtime && Reconstructs(s, g.log, id, replay.runtime[id], g.runtime[id])
  {
    StateFacts(cfg, s, g, segment, id);
    hide Inv, ReplayGroup, Reconstructs, Increasing, Defaults, LastEvents, LiveRuntime;
    PrefixReplay(cfg, s, segment, g.log, log, id, now);
  }

  lemma {:induction false} StateFacts(cfg: Config, s: Session, g: Group, segment: seq<Message>, id: Id)
    requires Inv(cfg, s, g) && SubDefaults(s.defaults, Defaults(segment)) && id in g.runtime
    ensures LastEvents(g.log).Keys <= Defaults(segment).Keys
    ensures id in s.defaults && id in Defaults(segment) && Defaults(segment)[id] == s.defaults[id]
    ensures s.defaults[id].state == Ready && g.runtime[id] == LiveRuntime(s, g.log, id)
  {
    hide LastEvents, LiveRuntime, InFlightIds, Defaults, WithinBudget, LeasesInSync;
  }

  // Whatever happens after a state of a loaded group, crashes and restarts included, the replay up to the
  // last event that state had seen rebuilds its entries.
  lemma {:induction false} ReplayReconstructs(cfg: Config, owner: Text, w: World, ops: seq<Op>, id: Id, now: nat)
    requires WorldInv(cfg, w) && SaneRetryLimit(cfg) && w.Up? && EnabledRun(cfg, owner, w, ops)
    requires w.group.log != [] && id in w.group.runtime
    ensures
      var later := Run(cfg, owner, w, ops);
      var replay := ReplayGroup(cfg, later.segment, Log(later), AppliedSequence(w.group.log), now);
      id in replay.runtime && Reconstructs(w.session, w.group.log, id, replay.runtime[id], w.group.runtime[id])
  {
    hide Run, EnabledRun, WorldInv, FilesGrow, Defaults, ReplayGroup, Reconstructs, Increasing, Inv;
    var later := Run(cfg, owner, w, ops);
    RunKeeps(cfg, owner, w, ops);
    FilesFacts(cfg, w, later);
    StateReplay(cfg, w.session, w.group, later.segment, Log(later), id, now);
  }

  // The same for the state right after any transition, those in the middle of a reap included: mid is the state
  // in which the operation has logged its events up to that one and its later appends failed.
  lemma {:induction false} EveryTransitionReplays(
    cfg: Config, owner: Text, w: World, op: Op, k: nat, ops: seq<Op>, id: Id, now: nat) returns (mid: World)
    requires WorldInv(cfg, w) && SaneRetryLimit(cfg) && w.Up? && GroupOp(op) && id in w.group.runtime
    requires |Log(w)| <= k < |Log(Step(cfg, owner, w, op).0)|
    requires EnabledRun(cfg, owner, Step(cfg, owner, w, op).0, ops)
    ensures
      var after := Step(cfg, owner, w, op).0;
      var later := Run(cfg, owner, after, ops);
      && CutAt(w, after, mid, k + 1) && WorldInv(cfg, mid)
      && k < |Log(later)| && Log(later)[k] == Log(after)[k]
      && var replay := ReplayGroup(cfg, later.segment, Log(later), Log(later)[k].sequence, now);
      && id in replay.runtime && id in mid.group.runtime
      && Reconstructs(w.session, mid.group.log, id, replay.runtime[id], mid.group.runtime[id])
  {
    hide Step, Run, EnabledRun, WorldInv, FilesGrow, Defaults, ReplayGroup, Reconstructs, Increasing, Inv, Evolves;
    var after := Step(cfg, owner, w, op).0;
    var later := Run(cfg, owner, after, ops);
    var cut := StopShort(cfg, owner, w, op, k + 1);
    mid := Step(cfg, owner, w, cut).0;
    UpIsEnabled(w, op);
    UpIsEnabled(w, cut);
    GroupOpKeeps(cfg, owner, w, cut);
    GroupOpKeeps(cfg, owner, w, op);
    RunKeeps(cfg, owner, after, ops);
    FilesGrowFrom(cfg, w, mid, after, later, k + 1);
    EvolvesKeys(cfg, w.group, mid.group);
    StateReplay(cfg, w.session, mid.group, later.segment, Log(later), id, now);
  }

  lemma UpIsEnabled(w: World, op: Op)
    requires w.Up? && GroupOp(op)
    ensures Enabled(w, op)
  {
  }

  lemma EvolvesKeys(cfg: Config, g: Group, g': Group)
    requires Evolves(cfg, g, g')
    ensures g'.runtime.Keys == g.runtime.Keys
  {
  }

  lemma {:induction false} WorldFacts(cfg: Config, w: World)
    requires WorldInv(cfg, w)
    ensures Increasing(Log(w)) && (w.Up? ==> SubDefaults(w.session.defaults, Defaults(w.segment)))
  {
    hide Defaults, LastEvents, InFlightIds, WithinBudget, ProperLeases, SnapshotFits, UniqueIds, Inv, Increasing;
  }

  lemma {:induction false} PrefixOfPrefix(log: seq<Event>, after: seq<Event>, later: seq<Event>, n: nat)
    requires 0 < n <= |after| && log == after[..n] && after <= later
    ensures log != [] && log <= later && n <= |later| && later[n - 1] == after[n - 1]
    ensures AppliedSequence(log) == later[n - 1].sequence
  {
  }

  lemma {:induction false} FilesGrowFrom(cfg: Config, w: World, mid: World, after: World, later: World, n: nat)
    requires WorldInv(cfg, w) && CutAt(w, after, mid, n) && WorldInv(cfg, later)
    requires after.Up? && after.segment == w.segment && FilesGrow(after, later) && n > 0
    ensures mid.group.log != [] && mid.group.log <= Log(later) && Increasing(Log(later))
    ensures SubDefaults(w.session.defaults, Defaults(later.segment))
    ensures n <= |Log(later)| && AppliedSequence(mid.group.log) == Log(later)[n - 1].sequence
    ensures Log(later)[n - 1] == Log(after)[n - 1]
  {
    hide WorldInv, Defaults, AppliedSequence, Increasing, SubDefaults;
    WorldFacts(cfg, w);
    WorldFacts(cfg, later);
    PrefixOfPrefix(mid.group.log, Log(after), Log(later), n);
    SubDefaultsTransitive(w.session.defaults, Defaults(w.segment), Defaults(later.segment));
  }

  lemma {:induction false} FilesFacts(cfg: Config, w: World, later: World)
    requires WorldInv(cfg, w) && w.Up? && WorldInv(cfg, later) && FilesGrow(w, later)
    ensures Inv(cfg, w.session, w.group) && w.group.log <= Log(later) && Increasing(Log(later))
    ensures SubDefaults(w.session.defaults, Defaults(later.segment))
  {
    hide Defaults, LastEvents, InFlightIds, WithinBudget, ProperLeases, SnapshotFits, UniqueIds, Inv;
  }

  // In the first session of a group there is no restart to tell the two apart: the replay is the state.
  lemma {:induction false} FirstSessionReplay(cfg: Config, owner: Text, w: World, ops: seq<Op>, id: Id, now: nat)
    requires WorldInv(cfg, w) && SaneRetryLimit(cfg) && w.Up? && EnabledRun(cfg, owner, w, ops)
    requires w.group.log != [] && id in w.group.runtime && w.session.since == 0
    ensures
      var later := Run(cfg, owner, w, ops);
      var replay := ReplayGroup(cfg, later.segment, Log(later), AppliedSequence(w.group.log), now);
      && id in replay.runtime
      && replay.runtime[id].(note := w.group.runtime[id].note) == w.group.runtime[id]
  {
    ReplayReconstructs(cfg, owner, w, ops, id, now);
    hide WorldInv, Run, EnabledRun, ReplayGroup;
    EverythingTouched(w.group.log, id);
  }

  // And so it is right after each of its transitions.
  lemma {:induction false} FirstSessionTransitions(
    cfg: Config, owner: Text, w: World, op: Op, k: nat, ops: seq<Op>, id: Id, now: nat) returns (mid: World)
    requires WorldInv(cfg, w) && SaneRetryLimit(cfg) && w.Up? && GroupOp(op) && id in w.group.runtime
    requires |Log(w)| <= k < |Log(Step(cfg, owner, w, op).0)| && w.session.since == 0
    requires EnabledRun(cfg, owner, Step(cfg, owner, w, op).0, ops)
    ensures
      var after := Step(cfg, owner, w, op).0;
      var later := Run(cfg, owner, after, ops);
      && CutAt(w, after, mid, k + 1) && k < |Log(later)| && Log(later)[k] == Log(after)[k]
      && var replay := ReplayGroup(cfg, later.segment, Log(later), Log(later)[k].sequence, now);
      && id in replay.runtime && id in mid.group.runtime
      && replay.runtime[id].(note := mid.group.runtime[id].note) == mid.group.runtime[id]
  {
    mid := EveryTransitionReplays(cfg, owner, w, op, k, ops, id, now);
    hide WorldInv, Step, Run, EnabledRun, ReplayGroup;
    EverythingTouched(mid.group.log, id);
  }

  lemma {:induction false} EverythingTouched(log: seq<Event>, id: Id)
    ensures id in LastEvents(log) ==> id in Touched(log, 0)
  {
    if log != [] {
      EverythingTouched(log[..|log| - 1], id);
    }
  }
}
