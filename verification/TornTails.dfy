// An event file with a torn tail of fewer than 8 bytes loads without complaint, but the tail stays in place and
// the next event is written behind it. It is read back exactly if there was no tail.
module TornTails {
  import opened Bytes
  import opened Transitions
  import opened PointInTime
  import opened EventFiles

  // ---------------------------------------------------------------------------------------------
  // Small numbers as bytes
  // ---------------------------------------------------------------------------------------------

  lemma {:induction false} WithoutLowestBelow(n: nat, count: nat)
    requires n < Pow256(count)
    ensures WithoutLowest(n, count) == 0
    decreases count
  {
    if count > 0 {
      WithoutLowestBelow(n / 256, count - 1);
    }
  }

  lemma {:induction false} Pow256Grows(a: nat, b: nat)
    requires a <= b
    ensures Pow256(a) <= Pow256(b)
    decreases b
  {
    if a < b {
      Pow256Grows(a, b - 1);
    }
  }

  // The bytes from position `from` on of a number below 256 to that power are zero.
  lemma {:induction false} HighBytesZero(n: nat, width: nat, from: nat)
    requires n < Pow256(from)
    ensures forall i :: from <= i < width ==> LittleEndian(n, width)[i] == 0
  {
    hide ToByte;
    ToByteZero();
    forall i | from <= i < width
      ensures LittleEndian(n, width)[i] == 0
    {
      Pow256Grows(from, i);
      WithoutLowestBelow(n, i);
    }
  }

  lemma ToByteZero()
    ensures ToByte(0) == 0
  {
  }

  lemma {:induction false} CodeBytes(code: nat)
    requires 1 <= code < 256
    ensures var c := LittleEndian(code, 4); c[0] != 0 && c[1] == 0 && c[2] == 0 && c[3] == 0
  {
    hide LittleEndian, ToByte, ToNumber;
    assert Pow256(1) == 256;
    HighBytesZero(code, 4, 1);
    LowestFirst(code, 4);
    NumberOfByte(code);
    NumberOfByte(0);
    ToByteZero();
  }

  lemma {:induction false} SizeBytes(size: nat)
    requires size < 0x1_0000
    ensures var w := LittleEndian(size, 8); forall i :: 2 <= i < 8 ==> w[i] == 0
  {
    hide LittleEndian;
    assert Pow256(2) == 0x1_0000 by {
      Widths();
    }
    HighBytesZero(size, 8, 2);
  }

  // ---------------------------------------------------------------------------------------------
  // When the next event is read back
  // ---------------------------------------------------------------------------------------------

  lemma {:induction false} ReasonDetermines(code: u32)
    ensures ReasonCode(ReasonOf(code)) == code
  {
  }

  // Reason and owner size of an event, as 12 bytes in a row.
  lemma {:induction false} ReasonAndSize(e: Event, bytes: seq<byte>, at: nat)
    requires at + |EventBytes(e)| <= |bytes| && bytes[at..at + |EventBytes(e)|] == EventBytes(e)
    ensures bytes[at + 56..at + 60] == LittleEndian(ReasonCode(e.reason), 4)
    ensures bytes[at + 60..at + 68] == LittleEndian(|e.owner|, 8)
  {
    hide EventBytes, FrontBytes, BackBytes, LittleEndian, ReasonCode;
    EventLayout(e, bytes, at);
    BackLayout(e, bytes, at + 32);
  }

  // What a parsed event says of the bytes it was parsed from.
  lemma {:induction false} ParsedBytes(bytes: seq<byte>, at: nat)
    requires ParseEvent(bytes, at).Some?
    ensures
      var e := ParseEvent(bytes, at).value.event;
      && at + FIXED <= |bytes|
      && bytes[at + 56..at + 60] == LittleEndian(ReasonCode(e.reason), 4)
      && bytes[at + 60..at + 68] == LittleEndian(|e.owner|, 8)
  {
    hide LittleEndian, Number, StateOf, ReasonOf, ReasonCode;
    ReasonDetermines(Field32(bytes, at + 56));
    LittleEndianOfNumber(bytes[at + 56..at + 60]);
    LittleEndianOfNumber(bytes[at + 60..at + 68]);
  }

  // Bytes that show a reason and an owner size at a position do not show them m places behind it as well.
  lemma {:induction false} NotTwice(bytes: seq<byte>, at: nat, m: nat, code: nat, size: nat)
    requires 1 <= m <= 7 && 1 <= code < 256 && size < 0x1_0000 && at + m + 12 <= |bytes|
    requires bytes[at..at + 4] == LittleEndian(code, 4) && bytes[at + 4..at + 12] == LittleEndian(size, 8)
    ensures bytes[at + m..at + m + 4] != LittleEndian(code, 4)
      || bytes[at + m + 4..at + m + 12] != LittleEndian(size, 8)
  {
    hide LittleEndian;
    CodeBytes(code);
    SizeBytes(size);
    assert bytes[at + m..at + m + 4][0] == bytes[at + m];
    if m <= 3 {
      assert bytes[at + m] == bytes[at..at + 4][m];
    } else {
      assert bytes[at + m] == bytes[at + 4..at + 12][m - 4];
      if m <= 5 {
        assert bytes[at + 2 * m] == bytes[at + 4..at + 12][2 * m - 4];
        assert bytes[at + 2 * m] == bytes[at + m + 4..at + m + 12][m - 4];
      }
    }
  }

  // Where an event is written m places behind a position, it is not what is read at that position.
  lemma {:induction false} NotParsedBefore(bytes: seq<byte>, at: nat, m: nat, e: Event)
    requires 1 <= m <= 7 && 1 <= ReasonCode(e.reason) <= 7 && |e.owner| < 0x1_0000
    requires at + m + |EventBytes(e)| <= |bytes| && bytes[at + m..at + m + |EventBytes(e)|] == EventBytes(e)
    ensures ParseEvent(bytes, at).Some? ==> ParseEvent(bytes, at).value.event != e
  {
    hide EventBytes, ParseEvent, ReasonCode, LittleEndian;
    EventLength(e);
    ReasonAndSize(e, bytes, at + m);
    if ParseEvent(bytes, at).Some? {
      var parsed := ParseEvent(bytes, at).value.event;
      ParsedBytes(bytes, at);
      if ReasonCode(parsed.reason) == ReasonCode(e.reason) && |parsed.owner| == |e.owner| {
        NotTwice(bytes, at + 56, m, ReasonCode(e.reason), |e.owner|);
      }
    }
  }

  lemma {:induction false} OneEventBehind(log: seq<Event>, e: Event, loaded: Loaded)
    ensures Before(log, loaded) == Events(log + [e]) <==> loaded == Events([e])
  {
    if loaded.Events? {
      assert loaded.events == (log + loaded.events)[|log|..];
      assert (log + [e])[|log|..] == [e];
    }
  }

  // An event appended behind a torn tail of m bytes is read back, with all events before it, if and only if m
  // is 0. The reason codes are those the engine logs, and the owner is a group name below 64 KiB.
  lemma {:induction false} ReadBackBehindTail(log: seq<Event>, torn: Event, m: nat, e: Event)
    requires AllStorable(log) && Storable(torn) && Storable(e) && m < 8
    requires 1 <= ReasonCode(e.reason) <= 7 && |e.owner| < 0x1_0000
    ensures
      LoadFrom(LogBytes(log) + EventBytes(torn)[..m] + EventBytes(e), 0, MAX_SEQUENCE) == Events(log + [e]) <==> m == 0
  {
    hide EventBytes, LogBytes, LoadFrom, AllStorable, Storable, ParseEvent, ReasonCode, LittleEndian, UpTo;
    var bytes := LogBytes(log) + EventBytes(torn)[..m] + EventBytes(e);
    if m == 0 {
      assert bytes == LogBytes(log) + EventBytes(e);
      LogBytesAppend(log, e);
      OneMoreStorable(log, e);
      LoadsLog(log + [e], MAX_SEQUENCE);
      EveryEventUpTo(log + [e]);
    } else {
      var at := |LogBytes(log)|;
      EventLength(e);
      assert bytes[at + m..at + m + |EventBytes(e)|] == EventBytes(e);
      NotParsedBefore(bytes, at, m, e);
      NotLoadedFirst(bytes, at, e);
      assert bytes[0..at] == LogBytes(log);
      LoadPassesEvents(log, bytes, 0, MAX_SEQUENCE);
      EveryEventUpTo(log);
      OneEventBehind(log, e, LoadFrom(bytes, at, MAX_SEQUENCE));
    }
  }

  lemma OneMoreStorable(log: seq<Event>, e: Event)
    requires AllStorable(log) && Storable(e)
    ensures AllStorable(log + [e])
  {
  }

  lemma {:induction false} NotLoadedFirst(bytes: seq<byte>, at: nat, e: Event)
    requires at + 8 <= |bytes| && (ParseEvent(bytes, at).Some? ==> ParseEvent(bytes, at).value.event != e)
    ensures LoadFrom(bytes, at, MAX_SEQUENCE) != Events([e])
  {
    hide ParseEvent;
    SequencesFit(bytes, at);
    if ParseEvent(bytes, at).Some? {
      var parsed := ParseEvent(bytes, at).value;
      var rest := LoadFrom(bytes, parsed.end, MAX_SEQUENCE);
      assert LoadFrom(bytes, at, MAX_SEQUENCE) == Before([parsed.event], rest);
      if rest.Events? {
        assert ([parsed.event] + rest.events)[0] == parsed.event;
      }
    }
  }

  lemma {:induction false} SequencesFit(bytes: seq<byte>, at: nat)
    ensures ParseEvent(bytes, at).Some? ==> ParseEvent(bytes, at).value.event.sequence <= MAX_SEQUENCE
  {
    hide Field, StateOf, ReasonOf;
  }

  // ---------------------------------------------------------------------------------------------
  // What is read instead
  // ---------------------------------------------------------------------------------------------

  lemma {:induction false} NumberOfZeros(bytes: seq<byte>)
    requires forall i :: 0 <= i < |bytes| ==> bytes[i] == 0
    ensures Number(bytes) == 0
  {
    if bytes != [] {
      NumberOfZeros(bytes[1..]);
    }
  }

  lemma LowerBytes(n: nat, width: nat)
    ensures LittleEndian(n, width + 1)[..width] == LittleEndian(n, width)
  {
  }

  lemma {:induction false} ShiftedSequence(b: byte, n: nat, bytes: seq<byte>, at: nat)
    requires n < 0x100_0000_0000_0000 && at + 8 <= |bytes| && bytes[at..at + 8] == [b] + LittleEndian(n, 8)[..7]
    ensures Field64(bytes, at) == ToNumber(b) + 256 * n
  {
    hide LittleEndian, Pow256, ToNumber;
    LowerBytes(n, 7);
    NumberOfLittleEndian(n, 7);
    assert bytes[at..at + 8][1..] == LittleEndian(n, 7);
    assert Pow256(7) == 0x100_0000_0000_0000 by {
      Widths();
      PowStep();
    }
    SmallRemainder(n, Pow256(7));
  }

  lemma PowStep()
    ensures Pow256(8) == 256 * Pow256(7)
  {
  }

  lemma {:induction false} FieldOfZeros(bytes: seq<byte>, at: nat)
    requires at + 8 <= |bytes| && forall i :: at <= i < at + 8 ==> bytes[i] == 0
    ensures Field64(bytes, at) == 0
  {
    NumberOfZeros(bytes[at..at + 8]);
  }

  // Bytes 59 to 74 of an event without owner and token are zero.
  lemma {:induction false} ZeroStretch(e: Event, i: nat)
    requires e.owner == [] && e.token == [] && 1 <= ReasonCode(e.reason) <= 7 && 59 <= i < 76
    ensures |EventBytes(e)| == 76 && EventBytes(e)[i] == 0
  {
    hide LittleEndian, FrontBytes, BackBytes, ReasonCode;
    var event := EventBytes(e);
    assert event[0..|event|] == event;
    EventLayout(e, event, 0);
    BackLayout(e, event, 32);
    CodeBytes(ReasonCode(e.reason));
    assert Pow256(0) == 1;
    HighBytesZero(0, 8, 0);
    hide EventBytes;
    if i == 59 {
      assert event[59] == event[56..60][3];
    } else if i < 68 {
      assert event[i] == event[60..68][i - 60];
    } else {
      assert event[i] == event[68..76][i - 68];
    }
  }

  lemma {:induction false} FrontStart(e: Event)
    ensures EventBytes(e)[..8] == LittleEndian(e.sequence, 8)
  {
    hide LittleEndian, BackBytes, StateCode;
  }

  lemma {:induction false} ShiftedFields(e: Event, b: byte, bytes: seq<byte>, at: nat)
    requires e.owner == [] && e.token == [] && 1 <= ReasonCode(e.reason) <= 7
    requires e.sequence < 0x100_0000_0000_0000
    requires at <= |bytes| && bytes[at..] == [b] + EventBytes(e)
    ensures |bytes| == at + 77 && Field64(bytes, at) == ToNumber(b) + 256 * e.sequence
    ensures Field64(bytes, at + 60) == 0 && Field64(bytes, at + 68) == 0
  {
    hide LittleEndian, Number, Field64, EventBytes, ReasonCode, ToNumber;
    EventLength(e);
    var event := EventBytes(e);
    forall k | at + 60 <= k < at + 76
      ensures bytes[k] == 0
    {
      ZeroStretch(e, k - at - 1);
      assert bytes[k] == bytes[at..][k - at] == event[k - at - 1];
    }
    FieldOfZeros(bytes, at + 60);
    FieldOfZeros(bytes, at + 68);
    FrontStart(e);
    assert bytes[at..at + 8] == [b] + event[..8][..7];
    ShiftedSequence(b, e.sequence, bytes, at);
  }

  lemma {:induction false} ParsesShifted(bytes: seq<byte>, at: nat)
    requires |bytes| == at + 77 && Field64(bytes, at + 60) == 0 && Field64(bytes, at + 68) == 0
    ensures ParseEvent(bytes, at).Some?
    ensures ParseEvent(bytes, at).value.end == at + 76
    ensures ParseEvent(bytes, at).value.event.sequence == Field64(bytes, at)
  {
    hide Field64, Field32, StateOf, ReasonOf;
  }

  lemma {:induction false} LoadsShifted(bytes: seq<byte>, at: nat, until: nat)
    requires |bytes| == at + 77 && ParseEvent(bytes, at).Some? && ParseEvent(bytes, at).value.end == at + 76
    requires ParseEvent(bytes, at).value.event.sequence <= until
    ensures LoadFrom(bytes, at, until) == Events([ParseEvent(bytes, at).value.event])
  {
    hide ParseEvent;
    assert LoadFrom(bytes, at + 76, until) == Events([]);
  }

  lemma {:induction false} FirstByte(e: Event)
    ensures |EventBytes(e)| >= 1 && ToNumber(EventBytes(e)[0]) == e.sequence % 256
  {
    hide EventBytes, LittleEndian, ToNumber, ToByte;
    EventLength(e);
    FrontStart(e);
    LowestFirst(e.sequence, 8);
    NumberOfByte(e.sequence);
    assert EventBytes(e)[0] == EventBytes(e)[..8][0];
  }

  // Behind a tail of one byte, an event that carries no lease is read back as one event under another sequence
  // number: 256 times its own, plus the lowest byte of the torn one.
  lemma {:induction false} TornTailShiftsNextEvent(log: seq<Event>, torn: Event, e: Event) returns (x: Event)
    requires AllStorable(log) && Storable(torn) && Storable(e)
    requires e.owner == [] && e.token == [] && 1 <= ReasonCode(e.reason) <= 7 && e.sequence < 0xff_ffff_ffff_ffff
    ensures LoadFrom(LogBytes(log) + EventBytes(torn)[..1] + EventBytes(e), 0, MAX_SEQUENCE) == Events(log + [x])
    ensures x.sequence == torn.sequence % 256 + 256 * e.sequence
  {
    hide EventBytes, LogBytes, LoadFrom, AllStorable, Storable, ParseEvent, ReasonCode, UpTo, ToNumber, Field64;
    EventLength(torn);
    var tail := EventBytes(torn)[..1];
    var bytes := LogBytes(log) + tail + EventBytes(e);
    var at := |LogBytes(log)|;
    FirstByte(torn);
    assert bytes[at..] == [tail[0]] + EventBytes(e);
    ShiftedFields(e, tail[0], bytes, at);
    ParsesShifted(bytes, at);
    x := ParseEvent(bytes, at).value.event;
    LoadsShifted(bytes, at, MAX_SEQUENCE);
    assert bytes[0..at] == LogBytes(log);
    LoadPassesEvents(log, bytes, 0, MAX_SEQUENCE);
    EveryEventUpTo(log);
  }
}
