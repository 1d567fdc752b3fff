// The event file of a group as bytes: what AppendTransition writes and LoadTransitions reads
// (src/core/engine/queue_engine.cc).
module EventFiles {
  import opened Bytes
  import opened Wrappers
  import opened Transitions
  import opened PointInTime

  const MAX_SEQUENCE: u64 := 0xffff_ffff_ffff_ffff

  // ---------------------------------------------------------------------------------------------
  // Codes
  // ---------------------------------------------------------------------------------------------

  function StateCode(state: State): u32 {
    match state
    case Ready => 0
    case InFlight => 1
    case Acked => 2
    case Dead => 3
  }

  // A state code that is not known reads as DEAD.
  function StateOf(code: u32): State {
    if code == 0 then Ready else if code == 1 then InFlight else if code == 2 then Acked else Dead
  }

  // A reason is stored as the number it is; a number that names none is kept.
  function ReasonCode(reason: Reason): nat {
    match reason
    case Produced => 0
    case Delivered => 1
    case AckedByConsumer => 2
    case NackRequeued => 3
    case NackDead => 4
    case TimeoutRequeued => 5
    case TimeoutDead => 6
    case RecoveredToReady => 7
    case Unknown(code) => code
  }

  function ReasonOf(code: u32): Reason {
    if code == 0 then Produced
    else if code == 1 then Delivered
    else if code == 2 then AckedByConsumer
    else if code == 3 then NackRequeued
    else if code == 4 then NackDead
    else if code == 5 then TimeoutRequeued
    else if code == 6 then TimeoutDead
    else if code == 7 then RecoveredToReady
    else Unknown(code)
  }

  // The events whose fields are numbers of the width the file has for them.
  predicate Storable(e: Event) {
    && e.sequence < 0x1_0000_0000_0000_0000
    && e.id.high < 0x1_0000_0000_0000_0000 && e.id.low < 0x1_0000_0000_0000_0000
    && e.retry < 0x1_0000_0000
    && e.availableAfter < 0x1_0000_0000_0000_0000
    && e.timestamp < 0x1_0000_0000_0000_0000
    && e.deadline < 0x1_0000_0000_0000_0000
    && |e.owner| < 0x1_0000_0000_0000_0000 && |e.token| < 0x1_0000_0000_0000_0000
    && (e.reason.Unknown? ==> 8 <= e.reason.code < 0x1_0000_0000)
  }

  lemma CodesRoundTrip(state: State, reason: Reason)
    requires reason.Unknown? ==> 8 <= reason.code < 0x1_0000_0000
    ensures StateOf(StateCode(state)) == state
    ensures ReasonCode(reason) < 0x1_0000_0000 && ReasonOf(ReasonCode(reason)) == reason
  {
  }

  // ---------------------------------------------------------------------------------------------
  // The format
  // ---------------------------------------------------------------------------------------------

  const FIXED := 68

  function FrontBytes(e: Event): (bytes: seq<byte>)
    ensures |bytes| == 32
  {
    LittleEndian(e.sequence, 8) + LittleEndian(e.id.high, 8) + LittleEndian(e.id.low, 8)
    + LittleEndian(StateCode(e.state), 4) + LittleEndian(e.retry, 4)
  }

  function BackBytes(e: Event): (bytes: seq<byte>)
    ensures |bytes| == 36
  {
    LittleEndian(e.availableAfter, 8) + LittleEndian(e.timestamp, 8) + LittleEndian(e.deadline, 8)
    + LittleEndian(ReasonCode(e.reason), 4) + LittleEndian(|e.owner|, 8)
  }

  function EventBytes(e: Event): (bytes: seq<byte>)
    ensures |bytes| == FIXED + |e.owner| + 8 + |e.token|
  {
    FrontBytes(e) + BackBytes(e) + e.owner + LittleEndian(|e.token|, 8) + e.token
  }

  function LogBytes(log: seq<Event>): seq<byte> {
    if log == [] then [] else EventBytes(log[0]) + LogBytes(log[1..])
  }

  datatype ParsedEvent = ParsedEvent(event: Event, end: nat)

  // The event at a position; None when some read comes up short.
  function ParseEvent(bytes: seq<byte>, at: nat): (r: Option<ParsedEvent>)
    ensures r.Some? ==> at + FIXED + 8 <= r.value.end <= |bytes|
  {
    if at + FIXED > |bytes| then None
    else
      var o := Field64(bytes, at + 60);
      var middle := at + FIXED + o;
      if middle + 8 > |bytes| then None
      else
        var t := Field64(bytes, middle);
        var end := middle + 8 + t;
        if end > |bytes| then None
        else
          Some(ParsedEvent(
            Event(Field64(bytes, at), Id(Field64(bytes, at + 8), Field64(bytes, at + 16)),
                  StateOf(Field32(bytes, at + 24)),
                  Field32(bytes, at + 28), Field64(bytes, at + 32), Field64(bytes, at + 40), Field64(bytes, at + 48),
                  bytes[at + FIXED..middle], bytes[middle + 8..end], ReasonOf(Field32(bytes, at + 56))),
            end))
  }

  datatype Loaded = Events(events: seq<Event>) | Corruption

  function Before(events: seq<Event>, rest: Loaded): (r: Loaded)
    ensures rest.Corruption? ==> r == rest
    ensures rest.Events? ==> r == Events(events + rest.events)
  {
    match rest
    case Corruption => Corruption
    case Events(more) => Events(events + more)
  }

  // Fewer than 8 bytes end the file without complaint; an event that breaks off later is corruption.
  function LoadFrom(bytes: seq<byte>, at: nat, maxSequence: nat): Loaded
    requires at <= |bytes|
    decreases |bytes| - at
  {
    if at + 8 > |bytes| then Events([])
    else
      match ParseEvent(bytes, at)
      case None => Corruption
      case Some(parsed) =>
        Before(
          if parsed.event.sequence <= maxSequence then [parsed.event] else [],
          LoadFrom(bytes, parsed.end, maxSequence))
  }

  // ---------------------------------------------------------------------------------------------
  // The code
  // ---------------------------------------------------------------------------------------------

  // The writes of AppendTransition, to the end of the file.
  method AppendEvent(file: seq<byte>, e: Event) returns (longer: seq<byte>)
    ensures longer == file + EventBytes(e)
  {
    var front, back := WriteNumbers(e);
    hide FrontBytes, BackBytes, LittleEndian;
    longer := file + (front + back);
    longer := longer + e.owner;
    longer := longer + LittleEndian(|e.token|, 8);
    longer := longer + e.token;
    Regroup(file, FrontBytes(e) + BackBytes(e), e.owner, LittleEndian(|e.token|, 8), e.token);
  }

  method WriteNumbers(e: Event) returns (front: seq<byte>, back: seq<byte>)
    ensures front == FrontBytes(e) && back == BackBytes(e)
  {
    hide LittleEndian;
    front := LittleEndian(e.sequence, 8);
    front := front + LittleEndian(e.id.high, 8);
    front := front + LittleEndian(e.id.low, 8);
    front := front + LittleEndian(StateCode(e.state), 4);
    front := front + LittleEndian(e.retry, 4);
    back := LittleEndian(e.availableAfter, 8);
    back := back + LittleEndian(e.timestamp, 8);
    back := back + LittleEndian(e.deadline, 8);
    back := back + LittleEndian(ReasonCode(e.reason), 4);
    back := back + LittleEndian(|e.owner|, 8);
  }

  method LoadTransitions(bytes: seq<byte>, maxSequence: nat) returns (loaded: Loaded)
    ensures loaded == LoadFrom(bytes, 0, maxSequence)
  {
    hide ParseEvent, Before;
    var events: seq<Event> := [];
    var at := 0;
    BeforeNothing(LoadFrom(bytes, 0, maxSequence));
    while at + 8 <= |bytes|
      invariant at <= |bytes|
      invariant LoadFrom(bytes, 0, maxSequence) == Before(events, LoadFrom(bytes, at, maxSequence))
      decreases |bytes| - at
    {
      var parsed := ReadEvent(bytes, at);
      if parsed.None? {
        return Corruption;
      }
      var e, end := parsed.value.event, parsed.value.end;
      var kept := if e.sequence <= maxSequence then [e] else [];
      BeforeTwice(events, kept, LoadFrom(bytes, end, maxSequence));
      events := events + kept;
      at := end;
    }
    assert events + [] == events;
    loaded := Events(events);
  }

  // The reads of one event. The first 8 bytes are known to be there.
  method ReadEvent(bytes: seq<byte>, at: nat) returns (parsed: Option<ParsedEvent>)
    requires at + 8 <= |bytes|
    ensures parsed == ParseEvent(bytes, at)
  {
    hide Field64, Field32, StateOf, ReasonOf;
    if at + FIXED > |bytes| {
      return None;
    }
    var sequence := Field64(bytes, at);
    var id := Id(Field64(bytes, at + 8), Field64(bytes, at + 16));
    var state := Field32(bytes, at + 24);
    var retry := Field32(bytes, at + 28);
    var availableAfter := Field64(bytes, at + 32);
    var timestamp := Field64(bytes, at + 40);
    var deadline := Field64(bytes, at + 48);
    var reason := Field32(bytes, at + 56);
    var ownerSize := Field64(bytes, at + 60);
    var position := at + FIXED;
    if position + ownerSize + 8 > |bytes| {
      return None;
    }
    var owner := bytes[position..position + ownerSize];
    position := position + ownerSize;
    var tokenSize := Field64(bytes, position);
    position := position + 8;
    if position + tokenSize > |bytes| {
      return None;
    }
    var token := bytes[position..position + tokenSize];
    parsed := Some(ParsedEvent(
      Event(sequence, id, StateOf(state), retry, availableAfter, timestamp, deadline, owner, token, ReasonOf(reason)),
      position + tokenSize));
  }

  lemma {:induction false} BeforeNothing(rest: Loaded)
    ensures Before([], rest) == rest
  {
    if rest.Events? {
      assert [] + rest.events == rest.events;
    }
  }

  lemma {:induction false} BeforeTwice(a: seq<Event>, b: seq<Event>, rest: Loaded)
    ensures Before(a, Before(b, rest)) == Before(a + b, rest)
  {
    if rest.Events? {
      assert a + (b + rest.events) == a + b + rest.events;
    }
  }

  // ---------------------------------------------------------------------------------------------
  // Reading back what was written
  // ---------------------------------------------------------------------------------------------

  lemma {:induction false} FrontRead(e: Event, bytes: seq<byte>, at: nat)
    requires Storable(e) && at + 32 <= |bytes| && bytes[at..at + 32] == FrontBytes(e)
    ensures Field64(bytes, at) == e.sequence
    ensures Field64(bytes, at + 8) == e.id.high && Field64(bytes, at + 16) == e.id.low
    ensures StateOf(Field32(bytes, at + 24)) == e.state && Field32(bytes, at + 28) == e.retry
  {
    hide LittleEndian, Field16, Field32, Field64;
    var s, h, l := LittleEndian(e.sequence, 8), LittleEndian(e.id.high, 8), LittleEndian(e.id.low, 8);
    var c, r := LittleEndian(StateCode(e.state), 4), LittleEndian(e.retry, 4);
    assert FrontBytes(e) == (s + h) + (l + (c + r));
    hide FrontBytes;
    Window(bytes, at, s + h, l + (c + r));
    Window(bytes, at, s, h);
    Window(bytes, at + 16, l, c + r);
    Window(bytes, at + 24, c, r);
    Written64(bytes, at, e.sequence);
    Written64(bytes, at + 8, e.id.high);
    Written64(bytes, at + 16, e.id.low);
    Written32(bytes, at + 24, StateCode(e.state));
    Written32(bytes, at + 28, e.retry);
  }

  lemma {:induction false} BackLayout(e: Event, bytes: seq<byte>, at: nat)
    requires at + 36 <= |bytes| && bytes[at..at + 36] == BackBytes(e)
    ensures bytes[at..at + 8] == LittleEndian(e.availableAfter, 8)
    ensures bytes[at + 8..at + 16] == LittleEndian(e.timestamp, 8)
    ensures bytes[at + 16..at + 24] == LittleEndian(e.deadline, 8)
    ensures bytes[at + 24..at + 28] == LittleEndian(ReasonCode(e.reason), 4)
    ensures bytes[at + 28..at + 36] == LittleEndian(|e.owner|, 8)
  {
    hide LittleEndian, ReasonCode;
    var a, t, d := LittleEndian(e.availableAfter, 8), LittleEndian(e.timestamp, 8), LittleEndian(e.deadline, 8);
    var r, o := LittleEndian(ReasonCode(e.reason), 4), LittleEndian(|e.owner|, 8);
    assert BackBytes(e) == (a + t) + (d + (r + o));
    hide BackBytes;
    Window(bytes, at, a + t, d + (r + o));
    Window(bytes, at, a, t);
    Window(bytes, at + 16, d, r + o);
    Window(bytes, at + 24, r, o);
  }

  lemma {:induction false} BackRead(e: Event, bytes: seq<byte>, at: nat)
    requires Storable(e) && at + 36 <= |bytes| && bytes[at..at + 36] == BackBytes(e)
    ensures Field64(bytes, at) == e.availableAfter && Field64(bytes, at + 8) == e.timestamp
    ensures Field64(bytes, at + 16) == e.deadline && ReasonOf(Field32(bytes, at + 24)) == e.reason
    ensures Field64(bytes, at + 28) == |e.owner|
  {
    CodesRoundTrip(e.state, e.reason);
    hide LittleEndian, Field16, Field32, Field64, ReasonCode, ReasonOf, BackBytes;
    BackLayout(e, bytes, at);
    Written64(bytes, at, e.availableAfter);
    Written64(bytes, at + 8, e.timestamp);
    Written64(bytes, at + 16, e.deadline);
    Written32(bytes, at + 24, ReasonCode(e.reason));
    Written64(bytes, at + 28, |e.owner|);
  }

  // The pieces of an encoded event, at the position where it was written.
  lemma {:induction false} EventLayout(e: Event, bytes: seq<byte>, at: nat)
    requires at + |EventBytes(e)| <= |bytes| && bytes[at..at + |EventBytes(e)|] == EventBytes(e)
    ensures bytes[at..at + 32] == FrontBytes(e) && bytes[at + 32..at + FIXED] == BackBytes(e)
    ensures
      var middle := at + FIXED + |e.owner|;
      && bytes[at + FIXED..middle] == e.owner
      && bytes[middle..middle + 8] == LittleEndian(|e.token|, 8)
      && bytes[middle + 8..middle + 8 + |e.token|] == e.token
  {
    hide FrontBytes, BackBytes, LittleEndian;
    var t := LittleEndian(|e.token|, 8);
    var numbers, strings := FrontBytes(e) + BackBytes(e), e.owner + (t + e.token);
    assert EventBytes(e) == numbers + strings;
    hide EventBytes;
    Window(bytes, at, numbers, strings);
    Window(bytes, at, FrontBytes(e), BackBytes(e));
    Window(bytes, at + FIXED, e.owner, t + e.token);
    Window(bytes, at + FIXED + |e.owner|, t, e.token);
  }

  // The format, field by field, with the numbers that stand for states and reasons.
  lemma {:induction false} EventFields(e: Event)
    requires Storable(e)
    ensures
      var d, o := EventBytes(e), |e.owner|;
      && |d| == 76 + o + |e.token|
      && Number(d[0..8]) == e.sequence && Number(d[8..16]) == e.id.high && Number(d[16..24]) == e.id.low
      && Number(d[28..32]) == e.retry && Number(d[32..40]) == e.availableAfter
      && Number(d[40..48]) == e.timestamp && Number(d[48..56]) == e.deadline
      && Number(d[60..68]) == o && d[68..68 + o] == e.owner
      && Number(d[68 + o..76 + o]) == |e.token| && d[76 + o..] == e.token
    ensures
      var state := Number(EventBytes(e)[24..28]);
      && (state == 0 <==> e.state == Ready) && (state == 1 <==> e.state == InFlight)
      && (state == 2 <==> e.state == Acked) && (state == 3 <==> e.state == Dead)
    ensures
      var reason := Number(EventBytes(e)[56..60]);
      && (reason == 0 <==> e.reason == Produced) && (reason == 1 <==> e.reason == Delivered)
      && (reason == 2 <==> e.reason == AckedByConsumer) && (reason == 3 <==> e.reason == NackRequeued)
      && (reason == 4 <==> e.reason == NackDead) && (reason == 5 <==> e.reason == TimeoutRequeued)
      && (reason == 6 <==> e.reason == TimeoutDead) && (reason == 7 <==> e.reason == RecoveredToReady)
  {
    var d := EventBytes(e);
    hide FrontBytes, BackBytes, LittleEndian, Number;
    assert d[0..|d|] == d;
    EventLayout(e, d, 0);
    CodesAsNumbers(e, d);
    hide EventBytes, StateCode, ReasonCode, StateOf, ReasonOf;
    FrontRead(e, d, 0);
    BackRead(e, d, 32);
    Written64(d, FIXED + |e.owner|, |e.token|);
  }

  lemma {:induction false} CodesAsNumbers(e: Event, d: seq<byte>)
    requires Storable(e) && |d| >= FIXED && d[0..32] == FrontBytes(e) && d[32..68] == BackBytes(e)
    ensures Number(d[24..28]) == StateCode(e.state) && Number(d[56..60]) == ReasonCode(e.reason)
  {
    hide LittleEndian, Number, BackBytes, ReasonCode;
    var front := FrontBytes(e);
    assert d[24..28] == front[24..28] == LittleEndian(StateCode(e.state), 4);
    hide FrontBytes;
    BackLayout(e, d, 32);
    CodesRoundTrip(e.state, e.reason);
    Written32(d, 24, StateCode(e.state));
    Written32(d, 56, ReasonCode(e.reason));
  }

  lemma {:induction false} TokenSizeRead(e: Event, bytes: seq<byte>, at: nat)
    requires Storable(e) && at + 8 <= |bytes| && bytes[at..at + 8] == LittleEndian(|e.token|, 8)
    ensures Field64(bytes, at) == |e.token|
  {
    hide Field64, LittleEndian;
    Written64(bytes, at, |e.token|);
  }

  lemma {:induction false} EventRoundTrip(e: Event, bytes: seq<byte>, at: nat)
    requires Storable(e) && at + |EventBytes(e)| <= |bytes| && bytes[at..at + |EventBytes(e)|] == EventBytes(e)
    ensures ParseEvent(bytes, at) == Some(ParsedEvent(e, at + |EventBytes(e)|))
  {
    hide FrontBytes, BackBytes, EventBytes, Field32, Field64, StateOf, ReasonOf, Storable, LittleEndian;
    EventLayout(e, bytes, at);
    FrontRead(e, bytes, at);
    BackRead(e, bytes, at + 32);
    TokenSizeRead(e, bytes, at + FIXED + |e.owner|);
  }

  ghost predicate AllStorable(log: seq<Event>) {
    forall i :: 0 <= i < |log| ==> Storable(log[i])
  }

  lemma {:induction false} UpToFirst(log: seq<Event>, until: nat)
    requires log != []
    ensures UpTo(log, until) == (if log[0].sequence <= until then [log[0]] else []) + UpTo(log[1..], until)
    decreases |log|
  {
    var n := |log| - 1;
    if n > 0 {
      UpToFirst(log[..n], until);
      assert log[..n][1..] == log[1..][..n - 1];
    }
  }

  // Loading gets past any logged events to whatever follows them.
  lemma {:induction false} LoadPassesEvents(log: seq<Event>, bytes: seq<byte>, at: nat, until: nat)
    requires AllStorable(log) && at + |LogBytes(log)| <= |bytes| && bytes[at..at + |LogBytes(log)|] == LogBytes(log)
    ensures LoadFrom(bytes, at, until) == Before(UpTo(log, until), LoadFrom(bytes, at + |LogBytes(log)|, until))
    decreases |log|
  {
    hide EventBytes, ParseEvent, Storable, UpTo, Before;
    if log == [] {
      assert UpTo(log, until) == [] by {
        UpToNothing(until);
      }
      BeforeNothing(LoadFrom(bytes, at, until));
    } else {
      var first, rest := EventBytes(log[0]), LogBytes(log[1..]);
      Window(bytes, at, first, rest);
      EventRoundTrip(log[0], bytes, at);
      LoadPassesEvents(log[1..], bytes, at + |first|, until);
      UpToFirst(log, until);
      BeforeTwice(if log[0].sequence <= until then [log[0]] else [], UpTo(log[1..], until),
                  LoadFrom(bytes, at + |LogBytes(log)|, until));
    }
  }

  lemma UpToNothing(until: nat)
    ensures UpTo([], until) == []
  {
  }

  // Loading the file of any log gives back its events up to the bound, in order.
  lemma {:induction false} LoadsLog(log: seq<Event>, until: nat)
    requires AllStorable(log)
    ensures LoadFrom(LogBytes(log), 0, until) == Events(UpTo(log, until))
  {
    hide LogBytes, UpTo, AllStorable;
    assert LogBytes(log)[0..|LogBytes(log)|] == LogBytes(log);
    LoadPassesEvents(log, LogBytes(log), 0, until);
    assert UpTo(log, until) + [] == UpTo(log, until);
  }

  // A torn tail of fewer than 8 bytes goes unnoticed; a longer one is reported. Neither adds nor changes an
  // event.
  lemma {:induction false} LoadsTornLog(log: seq<Event>, e: Event, m: nat, until: nat)
    requires AllStorable(log) && Storable(e) && m < |EventBytes(e)|
    ensures
      LoadFrom(LogBytes(log) + EventBytes(e)[..m], 0, until) == if m < 8 then Events(UpTo(log, until)) else Corruption
  {
    hide LogBytes, UpTo, AllStorable, ParseEvent, EventBytes, Storable;
    var bytes := LogBytes(log) + EventBytes(e)[..m];
    assert bytes[0..|LogBytes(log)|] == LogBytes(log);
    LoadPassesEvents(log, bytes, 0, until);
    if m < 8 {
      assert UpTo(log, until) + [] == UpTo(log, until);
    } else {
      TornEvent(e, m, bytes, |LogBytes(log)|);
    }
  }

  lemma {:induction false} TornEvent(e: Event, m: nat, bytes: seq<byte>, at: nat)
    requires Storable(e) && m < |EventBytes(e)| && |bytes| == at + m && bytes[at..] == EventBytes(e)[..m]
    ensures ParseEvent(bytes, at) == None
  {
    EventLength(e);
    hide EventBytes, ParseEvent, Field64, Storable;
    ParsesWhenLongEnough(bytes, at);
    TornSizes(e, m, bytes, at);
  }

  lemma EventLength(e: Event)
    ensures |EventBytes(e)| == FIXED + |e.owner| + 8 + |e.token|
  {
  }

  // The size fields that are there are those of the whole event.
  lemma {:induction false} TornSizes(e: Event, m: nat, bytes: seq<byte>, at: nat)
    requires Storable(e) && m < |EventBytes(e)| && |bytes| == at + m && bytes[at..] == EventBytes(e)[..m]
    ensures FIXED <= m ==> Field64(bytes, at + 60) == |e.owner|
    ensures FIXED + |e.owner| + 8 <= m ==> Field64(bytes, at + FIXED + |e.owner|) == |e.token|
  {
    hide EventBytes, Field64, Storable;
    var full := bytes + EventBytes(e)[m..];
    Completed(bytes, at, EventBytes(e), m);
    SizesRead(e, full, at);
    if FIXED <= m {
      SameField(bytes, full, at + 60);
    }
    if FIXED + |e.owner| + 8 <= m {
      SameField(bytes, full, at + FIXED + |e.owner|);
    }
  }

  lemma {:induction false} SizesRead(e: Event, bytes: seq<byte>, at: nat)
    requires Storable(e) && at + |EventBytes(e)| <= |bytes| && bytes[at..at + |EventBytes(e)|] == EventBytes(e)
    ensures Field64(bytes, at + 60) == |e.owner| && Field64(bytes, at + FIXED + |e.owner|) == |e.token|
  {
    hide FrontBytes, BackBytes, EventBytes, Field32, Field64, ReasonOf, Storable, LittleEndian;
    EventLayout(e, bytes, at);
    BackRead(e, bytes, at + 32);
    TokenSizeRead(e, bytes, at + FIXED + |e.owner|);
  }

  lemma {:induction false} ParsesWhenLongEnough(bytes: seq<byte>, at: nat)
    ensures ParseEvent(bytes, at).Some? <==>
      && at + FIXED <= |bytes|
      && var middle := at + FIXED + Field64(bytes, at + 60);
      middle + 8 <= |bytes| && middle + 8 + Field64(bytes, middle) <= |bytes|
  {
    hide Field64, Field32, StateOf, ReasonOf;
  }

  lemma {:induction false} Completed(bytes: seq<byte>, at: nat, whole: seq<byte>, m: nat)
    requires m <= |whole| && |bytes| == at + m && bytes[at..] == whole[..m]
    ensures (bytes + whole[m..])[at..at + |whole|] == whole
  {
    assert whole == whole[..m] + whole[m..];
  }

  lemma {:induction false} SameField(bytes: seq<byte>, longer: seq<byte>, at: nat)
    requires bytes <= longer && at + 8 <= |bytes|
    ensures Field64(bytes, at) == Field64(longer, at)
  {
    assert bytes[at..at + 8] == longer[at..at + 8];
  }

  // Every sequence number is within the largest bound.
  lemma {:induction false} EveryEventUpTo(log: seq<Event>)
    requires AllStorable(log)
    ensures UpTo(log, MAX_SEQUENCE) == log
  {
    UpToAll(log, MAX_SEQUENCE);
  }

  lemma {:induction false} LogBytesAppend(log: seq<Event>, e: Event)
    ensures LogBytes(log + [e]) == LogBytes(log) + EventBytes(e)
  {
    hide EventBytes;
    if log == [] {
      assert LogBytes([e]) == EventBytes(e) + LogBytes([]);
      assert [] + [e] == [e];
    } else {
      assert (log + [e])[1..] == log[1..] + [e];
      LogBytesAppend(log[1..], e);
    }
  }
}
