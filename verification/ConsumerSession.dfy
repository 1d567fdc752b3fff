// Consumer sessions with credit, and the round-robin scheduler over them: src/core/consumer_session.cc.
module ConsumerSessions {
  import opened Bytes
  import opened Wrappers

  // The value of a uint32_t after unsigned arithmetic.
  function Wrap32(n: nat): u32 {
    n % 0x1_0000_0000
  }

  // ---------------------------------------------------------------------------------------------
  // Session ids in order
  // ---------------------------------------------------------------------------------------------

  // The order of std::string: byte by byte, a prefix before its extensions.
  predicate AtMost(a: Text, b: Text) {
    a == [] || (b != [] && (a[0] < b[0] || (a[0] == b[0] && AtMost(a[1..], b[1..]))))
  }

  // The two strings agree before position k, and there a has the smaller byte.
  ghost predicate SmallerAt(a: Text, b: Text, k: nat) {
    k < |a| && k < |b| && a[..k] == b[..k] && ToNumber(a[k]) < ToNumber(b[k])
  }

  // The order is that of dictionaries: a comes first, or is equal, exactly if it is a prefix of b, or has the
  // smaller byte at the first position where they differ.
  lemma {:induction false} AtMostIsLexical(a: Text, b: Text)
    ensures AtMost(a, b) <==> a <= b || exists k :: SmallerAt(a, b, k)
  {
    if a != [] && b != [] {
      hide SmallerAt;
      if a[0] == b[0] {
        AtMostIsLexical(a[1..], b[1..]);
        SameFirst(a, b);
      } else {
        OtherFirst(a, b);
      }
    }
  }

  lemma {:induction false} SameFirst(a: Text, b: Text)
    requires a != [] && b != [] && a[0] == b[0]
    ensures a <= b <==> a[1..] <= b[1..]
    ensures (exists k :: SmallerAt(a, b, k)) <==> exists k :: SmallerAt(a[1..], b[1..], k)
  {
    assert a == [a[0]] + a[1..] && b == [b[0]] + b[1..];
    SmallerLater(a, b, 0);
    if k: nat :| SmallerAt(a, b, k) {
      SmallerLater(a, b, k - 1);
    }
    if k: nat :| SmallerAt(a[1..], b[1..], k) {
      SmallerLater(a, b, k);
    }
  }

  lemma {:induction false} OtherFirst(a: Text, b: Text)
    requires a != [] && b != [] && a[0] != b[0]
    ensures (exists k :: SmallerAt(a, b, k)) <==> a[0] < b[0]
  {
    BytesCompare(a[0], b[0]);
    assert a[..0] == b[..0];
    assert SmallerAt(a, b, 0) <==> a[0] < b[0];
    forall k: nat
      ensures SmallerAt(a, b, k) ==> k == 0
    {
      AgreeFirst(a, b, k);
    }
  }

  lemma {:induction false} AgreeFirst(a: Text, b: Text, k: nat)
    ensures SmallerAt(a, b, k) && k > 0 ==> a[0] == b[0]
  {
    if 0 < k < |a| && k < |b| {
      assert a[..k][0] == a[0] && b[..k][0] == b[0];
    }
  }

  lemma {:induction false} SmallerLater(a: Text, b: Text, k: nat)
    requires a != [] && b != [] && a[0] == b[0]
    ensures SmallerAt(a[1..], b[1..], k) <==> SmallerAt(a, b, k + 1)
  {
    if k < |a| - 1 && k < |b| - 1 {
      assert a[..k + 1] == [a[0]] + a[1..][..k];
      assert b[..k + 1] == [b[0]] + b[1..][..k];
      assert a[1..][..k] == a[..k + 1][1..] && b[1..][..k] == b[..k + 1][1..];
    }
  }

  lemma BytesCompare(x: byte, y: byte)
    ensures x < y <==> ToNumber(x) < ToNumber(y)
  {
  }

  lemma {:induction false} AtMostTotal(a: Text, b: Text)
    ensures AtMost(a, b) || AtMost(b, a)
    ensures AtMost(a, b) && AtMost(b, a) ==> a == b
  {
    if a != [] && b != [] && a[0] == b[0] {
      AtMostTotal(a[1..], b[1..]);
      assert a == [a[0]] + a[1..] && b == [b[0]] + b[1..];
    }
  }

  lemma {:induction false} AtMostTransitive(a: Text, b: Text, c: Text)
    requires AtMost(a, b) && AtMost(b, c)
    ensures AtMost(a, c)
  {
    if a != [] && a[0] == b[0] == c[0] {
      AtMostTransitive(a[1..], b[1..], c[1..]);
    }
  }

  // ---------------------------------------------------------------------------------------------
  // A session
  // ---------------------------------------------------------------------------------------------

  class ConsumerSession {
    const sessionId: Text
    const consumerId: Text
    const groupId: Text
    const maxInflight: u32
    var credit: u32
    var inflight: u32
    var lastHeartbeat: u64

    constructor (sessionId: Text, consumerId: Text, groupId: Text, maxInflight: u32, credit: u32, lastHeartbeat: u64)
      ensures this.sessionId == sessionId && this.consumerId == consumerId && this.groupId == groupId
      ensures this.maxInflight == maxInflight && Balance() == Account(credit, 0) && this.lastHeartbeat == lastHeartbeat
    {
      this.sessionId, this.consumerId, this.groupId := sessionId, consumerId, groupId;
      this.maxInflight, this.credit, this.inflight, this.lastHeartbeat := maxInflight, credit, 0, lastHeartbeat;
    }

    function Balance(): Account
      reads this`credit, this`inflight
    {
      Account(credit, inflight)
    }

    predicate CanDispatch()
      reads this`credit, this`inflight
    {
      credit > 0 && inflight < maxInflight
    }

    method TryDispatch() returns (dispatched: bool)
      modifies this`credit, this`inflight
      ensures dispatched <==> old(credit) > 0 && old(inflight) < maxInflight
      ensures dispatched ==> credit == old(credit) - 1 && inflight == old(inflight) + 1
      ensures !dispatched ==> credit == old(credit) && inflight == old(inflight)
      ensures Balance() == After(maxInflight, old(Balance()), Dispatch)
    {
      if !CanDispatch() {
        return false;
      }
      credit := credit - 1;
      inflight := inflight + 1;
      dispatched := true;
    }

    method AddCredit(granted: u32)
      modifies this`credit
      ensures credit == (old(credit) + granted) % 0x1_0000_0000
      ensures Balance() == After(maxInflight, old(Balance()), Grant(granted))
    {
      credit := Wrap32(credit + granted);
    }

    method AckOne()
      modifies this`inflight
      ensures old(inflight) > 0 ==> inflight == old(inflight) - 1
      ensures old(inflight) == 0 ==> inflight == 0
      ensures Balance() == After(maxInflight, old(Balance()), Acknowledge)
    {
      if inflight > 0 {
        inflight := inflight - 1;
      }
    }

    // The last heartbeat lies more than the timeout back. A heartbeat in the future does not expire.
    predicate Expired(now: u64, timeout: u64): (expired: bool)
      reads this`lastHeartbeat
      ensures expired <==> lastHeartbeat + timeout < now
    {
      now > lastHeartbeat && now - lastHeartbeat > timeout
    }
  }

  // ---------------------------------------------------------------------------------------------
  // Credit over whole runs
  // ---------------------------------------------------------------------------------------------

  datatype Account = Account(credit: u32, inflight: u32)

  datatype SessionOp = Dispatch | Grant(granted: u32) | Acknowledge

  predicate MayDispatch(maxInflight: u32, a: Account) {
    a.credit > 0 && a.inflight < maxInflight
  }

  function After(maxInflight: u32, a: Account, op: SessionOp): Account {
    match op
    case Dispatch => if MayDispatch(maxInflight, a) then Account(a.credit - 1, a.inflight + 1) else a
    case Grant(granted) => a.(credit := Wrap32(a.credit + granted))
    case Acknowledge => if a.inflight > 0 then a.(inflight := a.inflight - 1) else a
  }

  // What happened in a run: messages dispatched, credit granted, and acknowledgements that ended one.
  datatype Tally = Tally(account: Account, dispatched: nat, granted: nat, acknowledged: nat)

  function Tallied(maxInflight: u32, a: Account, ops: seq<SessionOp>): Tally {
    if ops == [] then Tally(a, 0, 0, 0)
    else
      var t := Tallied(maxInflight, a, ops[..|ops| - 1]);
      var op := ops[|ops| - 1];
      Tally(After(maxInflight, t.account, op),
            t.dispatched + (if op.Dispatch? && MayDispatch(maxInflight, t.account) then 1 else 0),
            t.granted + (if op.Grant? then op.granted else 0),
            t.acknowledged + (if op.Acknowledge? && t.account.inflight > 0 then 1 else 0))
  }

  // The books of a run that started from a certain account.
  ghost predicate Balanced(maxInflight: u32, a: Account, t: Tally) {
    && t.account.inflight <= maxInflight
    && t.account.inflight + t.acknowledged == a.inflight + t.dispatched
    && (t.account.credit + t.dispatched) % 0x1_0000_0000 == (a.credit + t.granted) % 0x1_0000_0000
    && (a.credit + t.granted < 0x1_0000_0000 ==> t.account.credit + t.dispatched == a.credit + t.granted)
  }

  // Over every run nothing is lost and nothing exceeds the limit: the messages in flight are those
  // dispatched and not acknowledged, never more than the limit, and the credit left with the credit used
  // is what was granted, modulo 2^32. It is exactly that while the grants fit 32 bits.
  lemma {:induction false} CreditConserved(maxInflight: u32, a: Account, ops: seq<SessionOp>)
    requires a.inflight <= maxInflight
    ensures Balanced(maxInflight, a, Tallied(maxInflight, a, ops))
  {
    if ops != [] {
      hide Balanced, After;
      CreditConserved(maxInflight, a, ops[..|ops| - 1]);
      StepBalances(maxInflight, a, Tallied(maxInflight, a, ops[..|ops| - 1]), ops[|ops| - 1]);
    } else {
      NothingBalances(maxInflight, a);
    }
  }

  lemma NothingBalances(maxInflight: u32, a: Account)
    requires a.inflight <= maxInflight
    ensures Balanced(maxInflight, a, Tally(a, 0, 0, 0))
  {
  }

  lemma {:induction false} StepBalances(maxInflight: u32, a: Account, t: Tally, op: SessionOp)
    requires Balanced(maxInflight, a, t)
    ensures Balanced(maxInflight, a, Tally(
      After(maxInflight, t.account, op),
      t.dispatched + (if op.Dispatch? && MayDispatch(maxInflight, t.account) then 1 else 0),
      t.granted + (if op.Grant? then op.granted else 0),
      t.acknowledged + (if op.Acknowledge? && t.account.inflight > 0 then 1 else 0)))
  {
    if op.Grant? {
      WrapsAlike(t.account.credit, t.dispatched, a.credit + t.granted, op.granted);
      if a.credit + t.granted + op.granted < 0x1_0000_0000 {
        assert Wrap32(t.account.credit + op.granted) == t.account.credit + op.granted;
      }
      hide Wrap32;
    }
  }

  lemma WrapsAlike(credit: nat, dispatched: nat, total: nat, granted: nat)
    requires (credit + dispatched) % 0x1_0000_0000 == total % 0x1_0000_0000
    ensures (Wrap32(credit + granted) + dispatched) % 0x1_0000_0000 == (total + granted) % 0x1_0000_0000
  {
  }

  function Bursts(n: nat): seq<SessionOp> {
    if n == 0 then [] else Bursts(n - 1) + [Dispatch]
  }

  function Least3(a: nat, b: nat, c: nat): (m: nat)
    ensures m <= a && m <= b && m <= c && (m == a || m == b || m == c)
  {
    if a <= b && a <= c then a else if b <= c then b else c
  }

  // Of n dispatches in a row exactly as many succeed as there are credit and free places for.
  lemma {:induction false} BurstDispatches(maxInflight: u32, a: Account, n: nat)
    requires a.inflight <= maxInflight
    ensures
      var t := Tallied(maxInflight, a, Bursts(n));
      var d := Least3(n, a.credit, maxInflight - a.inflight);
      t.dispatched == d && t.account.credit == a.credit - d && t.account.inflight == a.inflight + d
  {
    if n > 0 {
      BurstDispatches(maxInflight, a, n - 1);
      assert Bursts(n)[..|Bursts(n)| - 1] == Bursts(n - 1);
    }
  }

  // ---------------------------------------------------------------------------------------------
  // The choice
  // ---------------------------------------------------------------------------------------------

  // How many sessions lie between a position and the next turn of another, going round.
  function Distance(n: nat, cursor: nat, k: nat): (d: nat)
    requires cursor < n && k < n
    ensures d < n
  {
    if cursor <= k then k - cursor else k + n - cursor
  }

  function Position(n: nat, cursor: nat, d: nat): (k: nat)
    requires cursor < n && d < n
    ensures k < n && k == (cursor + d) % n && Distance(n, cursor, k) == d
  {
    RoundOnce(n, cursor + d);
    if cursor + d < n then cursor + d else cursor + d - n
  }

  lemma {:induction false} RoundOnce(n: nat, x: nat)
    requires x < 2 * n
    ensures x % n == if x < n then x else x - n
  {
    if n <= x {
      RemainderIs(x, n, 1, x - n);
    }
  }

  // Of the sessions that can dispatch, the one the cursor reaches first.
  function Pick(ready: seq<bool>, cursor: nat, skipped: nat): Option<nat>
    requires cursor < |ready| && skipped <= |ready|
    decreases |ready| - skipped
  {
    if skipped == |ready| then None
    else
      var k := Position(|ready|, cursor, skipped);
      if ready[k] then Some(k) else Pick(ready, cursor, skipped + 1)
  }

  function NextCursor(n: nat, cursor: nat, choice: Option<nat>): (next: nat)
    requires cursor < n && (choice.Some? ==> choice.value < n)
    ensures next < n
  {
    match choice
    case None => cursor
    case Some(k) => if k + 1 == n then 0 else k + 1
  }

  // Nothing is chosen exactly if no session can dispatch; otherwise the choice can, and every session the
  // cursor passed over cannot.
  lemma {:induction false} PickIsFirst(ready: seq<bool>, cursor: nat, skipped: nat)
    requires cursor < |ready| && skipped <= |ready|
    requires forall k :: 0 <= k < |ready| && Distance(|ready|, cursor, k) < skipped ==> !ready[k]
    ensures
      match Pick(ready, cursor, skipped)
      case None => forall k :: 0 <= k < |ready| ==> !ready[k]
      case Some(c) =>
        && c < |ready| && ready[c]
        && forall k :: 0 <= k < |ready| && Distance(|ready|, cursor, k) < Distance(|ready|, cursor, c) ==> !ready[k]
    decreases |ready| - skipped
  {
    if skipped < |ready| {
      var k := Position(|ready|, cursor, skipped);
      if !ready[k] {
        forall j | 0 <= j < |ready| && Distance(|ready|, cursor, j) < skipped + 1
          ensures !ready[j]
        {
          if Distance(|ready|, cursor, j) == skipped {
            assert j == k;
          }
        }
        PickIsFirst(ready, cursor, skipped + 1);
      }
    }
  }

  // ---------------------------------------------------------------------------------------------
  // Fairness
  // ---------------------------------------------------------------------------------------------

  // Any number of calls; which sessions can dispatch may change in any way between them.
  ghost predicate Calls(n: nat, calls: seq<seq<bool>>) {
    forall i :: 0 <= i < |calls| ==> |calls[i]| == n
  }

  ghost predicate AlwaysReady(calls: seq<seq<bool>>, k: nat) {
    forall i :: 0 <= i < |calls| ==> k < |calls[i]| && calls[i][k]
  }

  function Served(n: nat, calls: seq<seq<bool>>, cursor: nat): (served: seq<Option<nat>>)
    requires cursor < n && forall i :: 0 <= i < |calls| ==> |calls[i]| == n
    ensures |served| == |calls|
    decreases |calls|
  {
    if calls == [] then []
    else
      PickFits(calls[0], cursor);
      var choice := Pick(calls[0], cursor, 0);
      [choice] + Served(n, calls[1..], NextCursor(n, cursor, choice))
  }

  lemma {:induction false} PickFits(ready: seq<bool>, cursor: nat)
    requires cursor < |ready|
    ensures Pick(ready, cursor, 0).Some? ==> Pick(ready, cursor, 0).value < |ready|
  {
    PickIsFirst(ready, cursor, 0);
  }

  // A call that passes over a session that can dispatch brings its turn strictly nearer.
  lemma {:induction false} TurnComesNearer(ready: seq<bool>, cursor: nat, k: nat)
    requires cursor < |ready| && k < |ready| && ready[k]
    ensures
      var n, choice := |ready|, Pick(ready, cursor, 0);
      && choice.Some? && choice.value < n
      && (choice.value != k ==>
        && Distance(n, cursor, choice.value) < Distance(n, cursor, k)
        && Distance(n, NextCursor(n, cursor, choice), k)
          == Distance(n, cursor, k) - Distance(n, cursor, choice.value) - 1)
  {
    hide Pick;
    PickIsFirst(ready, cursor, 0);
  }

  // A session that stays dispatchable is served within as many calls as there are sessions, and no later
  // than its distance from the cursor allows.
  lemma {:induction false} ServedInTurn(n: nat, calls: seq<seq<bool>>, cursor: nat, k: nat) returns (at: nat)
    requires cursor < n && k < n && Calls(n, calls) && AlwaysReady(calls, k)
    requires Distance(n, cursor, k) < |calls|
    ensures at <= Distance(n, cursor, k) < n
    ensures at < |calls| && Served(n, calls, cursor)[at] == Some(k)
    decreases |calls|
  {
    hide Pick;
    TurnComesNearer(calls[0], cursor, k);
    var choice := Pick(calls[0], cursor, 0);
    at := 0;
    if choice != Some(k) {
      var rest := ServedInTurn(n, calls[1..], NextCursor(n, cursor, choice), k);
      at := rest + 1;
    }
  }

  // While a dispatchable session k waits, no other is served twice: between two calls that serve a, there
  // is one that serves k.
  lemma {:induction false} NoneServedTwice(
    n: nat, calls: seq<seq<bool>>, cursor: nat, k: nat, a: nat, i: nat, j: nat) returns (at: nat)
    requires cursor < n && k < n && a < n && a != k && Calls(n, calls) && AlwaysReady(calls, k)
    requires i < j < |calls| && Served(n, calls, cursor)[i] == Some(a) && Served(n, calls, cursor)[j] == Some(a)
    ensures i < at < j && Served(n, calls, cursor)[at] == Some(k)
    decreases |calls|
  {
    hide Pick;
    TurnComesNearer(calls[0], cursor, k);
    var choice := Pick(calls[0], cursor, 0);
    var next := NextCursor(n, cursor, choice);
    if i > 0 {
      var rest := NoneServedTwice(n, calls[1..], next, k, a, i - 1, j - 1);
      at := rest + 1;
    } else {
      var rest := NotBeforeTurn(n, calls[1..], next, k, a, j - 1);
      at := rest + 1;
    }
  }

  // A session further from the cursor than k is not served before k.
  lemma {:induction false} NotBeforeTurn(
    n: nat, calls: seq<seq<bool>>, cursor: nat, k: nat, a: nat, j: nat) returns (at: nat)
    requires cursor < n && k < n && a < n && Calls(n, calls) && AlwaysReady(calls, k)
    requires Distance(n, cursor, k) < Distance(n, cursor, a)
    requires j < |calls| && Served(n, calls, cursor)[j] == Some(a)
    ensures at < j && Served(n, calls, cursor)[at] == Some(k)
    decreases |calls|
  {
    hide Pick;
    TurnComesNearer(calls[0], cursor, k);
    var choice := Pick(calls[0], cursor, 0);
    at := 0;
    if choice != Some(k) {
      var rest := NotBeforeTurn(n, calls[1..], NextCursor(n, cursor, choice), k, a, j - 1);
      at := rest + 1;
    }
  }

  // ---------------------------------------------------------------------------------------------
  // The scheduler
  // ---------------------------------------------------------------------------------------------

  ghost predicate InOrder(sessions: seq<ConsumerSession>) {
    forall i, j :: 0 <= i < j < |sessions| ==> AtMost(sessions[i].sessionId, sessions[j].sessionId)
  }

  function Readiness(sessions: seq<ConsumerSession>): (ready: seq<bool>)
    reads sessions
    ensures |ready| == |sessions|
    ensures forall i :: 0 <= i < |sessions| ==> ready[i] == sessions[i].CanDispatch()
  {
    if sessions == [] then [] else [sessions[0].CanDispatch()] + Readiness(sessions[1..])
  }

  class ConsumerSessionScheduler {
    var sessions: seq<ConsumerSession>
    var cursor: nat

    ghost predicate Valid()
      reads this
    {
      cursor < |sessions| || (sessions == [] && cursor == 0)
    }

    // The sessions in the order of their ids; sessions with one id keep whatever order they come out in.
    constructor (input: seq<ConsumerSession>)
      ensures Valid() && cursor == 0
      ensures InOrder(sessions) && multiset(sessions) == multiset(input)
    {
      sessions, cursor := [], 0;
      new;
      for i := 0 to |input|
        invariant cursor == 0 && InOrder(sessions) && multiset(sessions) == multiset(input[..i])
      {
        assert input[..i + 1] == input[..i] + [input[i]];
        sessions := Insert(sessions, input[i]);
      }
      assert input[..|input|] == input;
    }

    static method Insert(sorted: seq<ConsumerSession>, s: ConsumerSession) returns (longer: seq<ConsumerSession>)
      requires InOrder(sorted)
      ensures InOrder(longer) && multiset(longer) == multiset(sorted) + multiset{s}
    {
      var k := PlaceFor(sorted, s);
      assert sorted == sorted[..k] + sorted[k..];
      longer := sorted[..k] + [s] + sorted[k..];
      hide AtMost;
    }

    static method PlaceFor(sorted: seq<ConsumerSession>, s: ConsumerSession) returns (k: nat)
      requires InOrder(sorted)
      ensures k <= |sorted|
      ensures forall i :: 0 <= i < k ==> AtMost(sorted[i].sessionId, s.sessionId)
      ensures forall i :: k <= i < |sorted| ==> AtMost(s.sessionId, sorted[i].sessionId)
    {
      hide AtMost;
      k := |sorted|;
      while k > 0 && !AtMost(sorted[k - 1].sessionId, s.sessionId)
        invariant 0 <= k <= |sorted|
        invariant forall i :: k <= i < |sorted| ==> AtMost(s.sessionId, sorted[i].sessionId)
      {
        AtMostTotal(sorted[k - 1].sessionId, s.sessionId);
        k := k - 1;
      }
      forall i | 0 <= i < k
        ensures AtMost(sorted[i].sessionId, s.sessionId)
      {
        if i < k - 1 {
          AtMostTransitive(sorted[i].sessionId, sorted[k - 1].sessionId, s.sessionId);
        }
      }
    }

    method NextDispatchable() returns (choice: Option<nat>)
      requires Valid()
      modifies this`cursor
      ensures Valid()
      ensures choice.None? <==>
        forall i :: 0 <= i < |sessions| ==> sessions[i].credit == 0 || sessions[i].inflight >= sessions[i].maxInflight
      ensures choice.Some? ==>
        && choice.value < |sessions|
        && sessions[choice.value].credit > 0
        && sessions[choice.value].inflight < sessions[choice.value].maxInflight
        && cursor == (choice.value + 1) % |sessions|
      ensures choice.None? ==> cursor == old(cursor)
      ensures sessions != [] ==>
        && choice == Pick(old(Readiness(sessions)), old(cursor), 0)
        && (choice.Some? ==> choice.value < |sessions|)
        && cursor == NextCursor(|sessions|, old(cursor), choice)
    {
      if sessions == [] {
        return None;
      }
      hide Readiness, Pick, Distance, NextCursor;
      choice := FirstFromCursor();
      PickIsFirst(Readiness(sessions), cursor, 0);
      CursorMoves(|sessions|, cursor, choice);
      if choice.Some? {
        cursor := (choice.value + 1) % |sessions|;
      }
    }

    // The scan of NextDispatchable, once round from the cursor.
    method FirstFromCursor() returns (choice: Option<nat>)
      requires Valid() && sessions != []
      ensures choice == Pick(Readiness(sessions), cursor, 0)
    {
      ghost var ready := Readiness(sessions);
      hide Readiness, Pick;
      var scanned := 0;
      while scanned < |sessions|
        invariant 0 <= scanned <= |sessions|
        invariant Pick(ready, cursor, 0) == Pick(ready, cursor, scanned)
      {
        PickStep(ready, cursor, scanned);
        var idx := (cursor + scanned) % |sessions|;
        if sessions[idx].CanDispatch() {
          return Some(idx);
        }
        scanned := scanned + 1;
      }
      PickNothing(ready, cursor);
      choice := None;
    }
  }

  lemma {:induction false} CursorMoves(n: nat, cursor: nat, choice: Option<nat>)
    requires cursor < n && (choice.Some? ==> choice.value < n)
    ensures NextCursor(n, cursor, choice) == if choice.Some? then (choice.value + 1) % n else cursor
  {
    if choice.Some? {
      RoundOnce(n, choice.value + 1);
    }
  }

  lemma {:induction false} PickStep(ready: seq<bool>, cursor: nat, skipped: nat)
    requires cursor < |ready| && skipped < |ready|
    ensures
      var k := (cursor + skipped) % |ready|;
      k < |ready| && Pick(ready, cursor, skipped) == if ready[k] then Some(k) else Pick(ready, cursor, skipped + 1)
  {
    hide Position;
    var k := Position(|ready|, cursor, skipped);
  }

  lemma PickNothing(ready: seq<bool>, cursor: nat)
    requires cursor < |ready|
    ensures Pick(ready, cursor, |ready|) == None
  {
  }
}
