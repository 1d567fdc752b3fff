// The checksum of src/core/util/crc64.cc: the table-driven computation, the polynomial long division it
// stands for, and the burst errors it cannot miss.
module Crc64 {
  import opened Bytes

  // The generator polynomial of Annex B of ECMA-182, without its leading x^64 term.
  const GENERATOR: bv64 := 0x42F0E1EBA9EA3693
  const TOP: bv64 := 0x8000000000000000

  // A polynomial of degree below 64 over GF(2), its coefficients held in a machine word.
  datatype Poly = Poly(bits: bv64)

  const ZERO := Poly(0)

  // The operations on machine words, one function each.
  function Xor(a: bv64, b: bv64): bv64 {
    a ^ b
  }

  function Shl(a: bv64): bv64 {
    a << 1
  }

  function ShlByte(a: bv64): bv64 {
    a << 8
  }

  function ShrByte(a: bv64): bv64 {
    a >> 8
  }

  predicate HasTop(a: bv64) {
    a & TOP != 0
  }

  function TopByte(a: bv64): byte {
    (a >> 56) as bv8
  }

  // A byte as the lowest, and as the highest, eight bits of a word.
  function LowWord(b: byte): bv64 {
    b as bv64
  }

  function HighWord(b: byte): bv64 {
    (b as bv64) << 56
  }

  function Add(a: Poly, b: Poly): Poly {
    Poly(Xor(a.bits, b.bits))
  }

  // The exponents of the terms below x^64 of the generator polynomial of ECMA-182.
  const EXPONENTS := [
    0, 1, 4, 7, 9, 10, 12, 13, 17, 19, 21, 22, 23, 24, 27, 29, 31, 32, 33, 35, 37, 38, 39, 40, 45, 46, 47, 52, 53, 54,
    55, 57, 62]

  function Term(a: bv64, mask: bv64, exponent: nat): seq<nat> {
    if a & mask != 0 then [exponent] else []
  }

  // The positions of the ones among the eight lowest bits of a word, counted from a number on.
  function LowTerms(a: bv64, from: nat): seq<nat> {
    Term(a, 0x01, from) + Term(a, 0x02, from + 1) + Term(a, 0x04, from + 2) + Term(a, 0x08, from + 3)
    + Term(a, 0x10, from + 4) + Term(a, 0x20, from + 5) + Term(a, 0x40, from + 6) + Term(a, 0x80, from + 7)
  }

  // The exponents of a polynomial, in ascending order.
  function Terms(c: Poly): seq<nat> {
    (LowTerms(c.bits, 0) + LowTerms(c.bits >> 8, 8) + LowTerms(c.bits >> 16, 16) + LowTerms(c.bits >> 24, 24))
    + (LowTerms(c.bits >> 32, 32) + LowTerms(c.bits >> 40, 40) + LowTerms(c.bits >> 48, 48)
       + LowTerms(c.bits >> 56, 56))
  }

  lemma GeneratorBytes()
    ensures LowTerms(GENERATOR, 0) == [0, 1, 4, 7]
    ensures LowTerms(GENERATOR >> 8, 8) == [9, 10, 12, 13]
    ensures LowTerms(GENERATOR >> 16, 16) == [17, 19, 21, 22, 23]
    ensures LowTerms(GENERATOR >> 24, 24) == [24, 27, 29, 31]
    ensures LowTerms(GENERATOR >> 32, 32) == [32, 33, 35, 37, 38, 39]
    ensures LowTerms(GENERATOR >> 40, 40) == [40, 45, 46, 47]
    ensures LowTerms(GENERATOR >> 48, 48) == [52, 53, 54, 55]
    ensures LowTerms(GENERATOR >> 56, 56) == [57, 62]
  {
  }

  // The constant is the generator polynomial of ECMA-182, term by term.
  lemma {:induction false} GeneratorIsEcma182()
    ensures Terms(Poly(GENERATOR)) == EXPONENTS
  {
    hide LowTerms;
    GeneratorBytes();
    var low := [0, 1, 4, 7] + [9, 10, 12, 13] + [17, 19, 21, 22, 23] + [24, 27, 29, 31];
    var high := [32, 33, 35, 37, 38, 39] + [40, 45, 46, 47] + [52, 53, 54, 55] + [57, 62];
    assert low == [0, 1, 4, 7, 9, 10, 12, 13, 17, 19, 21, 22, 23, 24, 27, 29, 31];
    assert high == [32, 33, 35, 37, 38, 39, 40, 45, 46, 47, 52, 53, 54, 55, 57, 62];
    assert low + high == EXPONENTS;
  }

  // Multiplies by x and reduces by the generator.
  function TimesX(c: Poly): Poly {
    if HasTop(c.bits) then Poly(Xor(Shl(c.bits), GENERATOR)) else Poly(Shl(c.bits))
  }

  function TimesXPow(c: Poly, n: nat): Poly
    decreases n
  {
    if n == 0 then c else TimesXPow(TimesX(c), n - 1)
  }

  function Low(b: byte): Poly {
    Poly(LowWord(b))
  }

  function High(b: byte): Poly {
    Poly(HighWord(b))
  }

  function ShiftLeft(c: Poly): Poly {
    Poly(ShlByte(c.bits))
  }

  function ShiftRight(c: Poly): Poly {
    Poly(ShrByte(c.bits))
  }

  predicate ClearTop(c: Poly) {
    TopByte(c.bits) == 0
  }

  // ---------------------------------------------------------------------------------------------
  // Reference: long division over GF(2), one coefficient at a time
  // ---------------------------------------------------------------------------------------------

  function Unit(b: bool): Poly {
    Poly(if b then 1 else 0)
  }

  // Textbook long division: bring down the next coefficient of the dividend and subtract the divisor
  // when the leading coefficient calls for it.
  function LongDivision(remainder: Poly, dividend: seq<bool>): Poly
    decreases |dividend|
  {
    if dividend == [] then remainder
    else LongDivision(Add(TimesX(remainder), Unit(dividend[0])), dividend[1..])
  }

  function BitsOfByte(b: byte): seq<bool> {
    [b & 0x80 != 0, b & 0x40 != 0, b & 0x20 != 0, b & 0x10 != 0,
     b & 0x08 != 0, b & 0x04 != 0, b & 0x02 != 0, b & 0x01 != 0]
  }

  // The coefficients of a byte string, most significant first.
  function Bits(data: seq<byte>): seq<bool> {
    if data == [] then [] else BitsOfByte(data[0]) + Bits(data[1..])
  }

  function Zeros(n: nat): seq<bool> {
    if n == 0 then [] else [false] + Zeros(n - 1)
  }

  // The remainder of M(x) * x^64 by the generator, where M has the bits of data as coefficients.
  function Remainder(data: seq<byte>): bv64 {
    LongDivision(ZERO, Bits(data) + Zeros(64)).bits
  }

  // ---------------------------------------------------------------------------------------------
  // The register form used by the code
  // ---------------------------------------------------------------------------------------------

  function Entry(b: byte): Poly {
    TimesXPow(High(b), |BitsOfByte(b)|)
  }

  function Index(crc: Poly, b: byte): byte {
    TopByte(crc.bits) ^ b
  }

  function ByteStep(crc: Poly, b: byte): Poly {
    Add(Entry(Index(crc, b)), ShiftLeft(crc))
  }

  function CrcFrom(crc: Poly, data: seq<byte>): Poly
    decreases |data|
  {
    if data == [] then crc else CrcFrom(ByteStep(crc, data[0]), data[1..])
  }

  function Crc(data: seq<byte>): bv64 {
    CrcFrom(ZERO, data).bits
  }

  method TableEntry(idx: byte) returns (crc: bv64)
    ensures crc == Entry(idx).bits
  {
    hide TimesX;
    crc := (idx as bv64) << 56;
    var i := 0;
    while i < 8
      invariant 0 <= i <= 8
      invariant TimesXPow(Poly(crc), 8 - i) == Entry(idx)
    {
      TimesXOnWord(crc);
      if crc & TOP != 0 {
        crc := (crc << 1) ^ GENERATOR;
      } else {
        crc := crc << 1;
      }
      i := i + 1;
    }
  }

  lemma TimesXOnWord(c: bv64)
    ensures TimesX(Poly(c)) == Poly(if c & TOP != 0 then (c << 1) ^ GENERATOR else c << 1)
  {
  }

  ghost predicate IsTable(table: array<bv64>)
    reads table
  {
    table.Length == 256 && forall i :: 0 <= i < 256 ==> table[i] == Entry(i as bv8).bits
  }

  method Table() returns (table: array<bv64>)
    ensures fresh(table) && IsTable(table)
  {
    hide Entry;
    table := new bv64[256];
    var i := 0;
    while i < 256
      invariant 0 <= i <= 256 == table.Length
      invariant forall k :: 0 <= k < i ==> table[k] == Entry(k as bv8).bits
    {
      var e := TableEntry(i as bv8);
      table[i] := e;
      i := i + 1;
    }
  }

  // One turn of the loop of Compute.
  method Step(table: array<bv64>, crc: bv64, b: byte) returns (next: bv64)
    requires IsTable(table)
    ensures Poly(next) == ByteStep(Poly(crc), b)
  {
    var idx := ((crc >> 56) as bv8) ^ b;
    var entry := Lookup(table, idx);
    next := entry ^ (crc << 8);
    StepOnWord(crc, b, idx, entry, next);
  }

  method Lookup(table: array<bv64>, idx: byte) returns (entry: bv64)
    requires IsTable(table)
    ensures entry == Entry(idx).bits
  {
    hide Entry;
    ByteIndex(idx);
    entry := table[idx as int];
  }

  method Compute(data: seq<byte>) returns (crc: bv64)
    ensures crc == Remainder(data)
    ensures crc == Crc(data)
  {
    hide ByteStep, CrcFrom, Entry, Remainder;
    var table := Table();
    crc := 0;
    var i := 0;
    while i < |data|
      invariant 0 <= i <= |data| && IsTable(table)
      invariant CrcFrom(Poly(crc), data[i..]) == CrcFrom(ZERO, data)
    {
      var next := Step(table, crc, data[i]);
      NextByte(Poly(crc), data, i, Poly(next));
      crc := next;
      i := i + 1;
    }
    NoBytesLeft(Poly(crc), data[i..]);
    TableDrivenIsDivision(data);
  }

  lemma NoBytesLeft(c: Poly, rest: seq<byte>)
    requires rest == []
    ensures CrcFrom(c, rest) == c
  {
  }

  lemma IndexOnWord(crc: bv64, b: byte)
    ensures ((crc >> 56) as bv8) ^ b == Index(Poly(crc), b)
  {
  }

  lemma XorOnWord(crc: bv64, entry: bv64)
    ensures entry ^ (crc << 8) == Xor(entry, ShlByte(crc))
  {
  }

  lemma {:induction false} StepOnWord(crc: bv64, b: byte, idx: byte, entry: bv64, next: bv64)
    requires idx == ((crc >> 56) as bv8) ^ b && entry == Entry(idx).bits && next == entry ^ (crc << 8)
    ensures Poly(next) == ByteStep(Poly(crc), b)
  {
    IndexOnWord(crc, b);
    XorOnWord(crc, entry);
    hide Xor, ShlByte, Entry, Index;
  }

  lemma {:induction false} NextByte(before: Poly, data: seq<byte>, i: nat, after: Poly)
    requires i < |data| && after == ByteStep(before, data[i])
    ensures CrcFrom(before, data[i..]) == CrcFrom(after, data[i + 1..])
  {
    hide ByteStep;
    assert data[i..][0] == data[i] && data[i..][1..] == data[i + 1..];
  }

  lemma ByteIndex(b: byte)
    ensures 0 <= b as int < 256
    ensures (b as int) as bv8 == b
  {
  }

  // ---------------------------------------------------------------------------------------------
  // Facts about machine words
  // ---------------------------------------------------------------------------------------------

  lemma XorAssociative(a: bv64, b: bv64, c: bv64)
    ensures Xor(Xor(a, b), c) == Xor(a, Xor(b, c))
  {
  }

  lemma XorCommutes(a: bv64, b: bv64)
    ensures Xor(a, b) == Xor(b, a)
  {
  }

  lemma XorZero(a: bv64)
    ensures Xor(a, 0) == a
  {
  }

  lemma XorTwice(a: bv64, b: bv64)
    ensures Xor(a, Xor(a, b)) == b
  {
  }

  lemma {:induction false} AddLaws(a: Poly, b: Poly, c: Poly)
    ensures Add(Add(a, b), c) == Add(a, Add(b, c))
    ensures Add(a, b) == Add(b, a)
    ensures Add(a, ZERO) == a
    ensures Add(a, Add(a, b)) == b
  {
    AddAssociates(a, b, c);
    hide Xor;
    XorCommutes(a.bits, b.bits);
    XorZero(a.bits);
    XorTwice(a.bits, b.bits);
  }

  lemma {:induction false} AddAssociates(a: Poly, b: Poly, c: Poly)
    ensures Add(Add(a, b), c) == Add(a, Add(b, c))
  {
    hide Xor;
    XorAssociative(a.bits, b.bits, c.bits);
  }

  lemma {:induction false} AddCancels(a: Poly, b: Poly, c: Poly)
    requires Add(a, c) == Add(b, c) || Add(c, a) == Add(c, b)
    ensures a == b
  {
    hide Add;
    AddLaws(c, a, a);
    AddLaws(c, b, b);
    AddLaws(a, c, c);
    AddLaws(b, c, c);
  }

  // The generator with its leading term taken off: what reducing by it adds.
  const REDUCTION := Poly(GENERATOR)

  lemma {:induction false} AddWithReduction(a: Poly, b: Poly)
    ensures Add(Add(a, REDUCTION), b) == Add(Add(a, b), REDUCTION) == Add(a, Add(b, REDUCTION))
    ensures Add(Add(a, REDUCTION), Add(b, REDUCTION)) == Add(a, b)
  {
    hide *;
    var g := REDUCTION;
    AddLaws(a, g, b);
    AddLaws(a, b, g);
    AddLaws(g, b, g);
    AddLaws(a, g, Add(b, g));
    AddLaws(g, b, b);
  }

  lemma ShlXor(a: bv64, b: bv64)
    ensures Shl(Xor(a, b)) == Xor(Shl(a), Shl(b))
  {
  }

  lemma TopXor(a: bv64, b: bv64)
    ensures HasTop(Xor(a, b)) == (HasTop(a) != HasTop(b))
  {
  }

  lemma {:induction false} TimesXLinear(a: Poly, b: Poly)
    ensures TimesX(Add(a, b)) == Add(TimesX(a), TimesX(b))
  {
    hide Xor, Shl, HasTop;
    ShlXor(a.bits, b.bits);
    TopXor(a.bits, b.bits);
    AddWithReduction(Poly(Shl(a.bits)), Poly(Shl(b.bits)));
  }

  predicate Odd(a: bv64) {
    a & 1 != 0
  }

  lemma OddAfterShift(a: bv64)
    ensures !Odd(Shl(a))
    ensures Odd(Xor(Shl(a), GENERATOR))
  {
  }

  lemma ShlInjective(a: bv64, b: bv64)
    requires Shl(a) == Shl(b) && HasTop(a) == HasTop(b)
    ensures a == b
  {
  }

  // The generator has constant term 1, so x is invertible modulo it.
  lemma {:induction false} TimesXInjective(a: Poly, b: Poly)
    requires TimesX(a) == TimesX(b)
    ensures a == b
  {
    hide Xor, Shl, HasTop, Odd;
    OddAfterShift(a.bits);
    OddAfterShift(b.bits);
    if HasTop(a.bits) {
      AddCancels(Poly(Shl(a.bits)), Poly(Shl(b.bits)), REDUCTION);
    }
    ShlInjective(a.bits, b.bits);
  }

  function Rest(a: bv64): bv64 {
    a & 0x00ff_ffff_ffff_ffff
  }

  lemma TopAndRest(a: bv64)
    ensures a == Xor(HighWord(TopByte(a)), Rest(a))
    ensures TopByte(Rest(a)) == 0
    ensures ShlByte(Rest(a)) == ShlByte(a)
  {
  }

  lemma HighXor(a: byte, b: byte)
    ensures HighWord(a ^ b) == Xor(HighWord(a), HighWord(b))
  {
  }

  lemma {:induction false} HighOfIndex(crc: Poly, b: byte)
    ensures High(Index(crc, b)) == Add(High(TopByte(crc.bits)), High(b))
  {
    hide Xor, HighWord, TopByte;
    HighXor(TopByte(crc.bits), b);
  }

  lemma {:induction false} SplitTopByte(crc: Poly, b: byte) returns (rest: Poly)
    ensures Add(crc, High(b)) == Add(High(Index(crc, b)), rest)
    ensures ClearTop(rest) && ShiftLeft(rest) == ShiftLeft(crc)
  {
    hide Xor, HighWord, TopByte, Rest, ShlByte, Index;
    rest := Poly(Rest(crc.bits));
    var top := High(TopByte(crc.bits));
    TopAndRest(crc.bits);
    HighOfIndex(crc, b);
    assert crc == Add(top, rest);
    hide High;
    AddLaws(top, rest, High(b));
    AddLaws(rest, High(b), rest);
    AddLaws(top, High(b), rest);
  }

  // The n highest bits are clear.
  predicate Clear(a: bv64, n: nat)
    decreases n
  {
    n == 0 || (!HasTop(a) && Clear(Shl(a), n - 1))
  }

  function ShlPow(a: bv64, n: nat): bv64
    decreases n
  {
    if n == 0 then a else ShlPow(Shl(a), n - 1)
  }

  lemma ClearTopByte(a: bv64)
    requires TopByte(a) == 0
    ensures !HasTop(a) && !HasTop(a << 1) && !HasTop(a << 2) && !HasTop(a << 3)
  {
  }

  lemma ClearTopByteStill(a: bv64)
    requires TopByte(a) == 0
    ensures !HasTop(a << 4) && !HasTop(a << 5) && !HasTop(a << 6) && !HasTop(a << 7)
  {
  }

  lemma ShlAgain(a: bv64)
    ensures Shl(a << 1) == a << 2 && Shl(a << 2) == a << 3 && Shl(a << 3) == a << 4 && Shl(a << 4) == a << 5
    ensures Shl(a << 5) == a << 6 && Shl(a << 6) == a << 7 && Shl(a << 7) == ShlByte(a)
  {
  }

  lemma {:induction false} EightShifts(a: bv64)
    requires TopByte(a) == 0
    ensures Clear(a, 8) && ShlPow(a, 8) == ShlByte(a)
  {
    hide HasTop, ShlByte, TopByte;
    assert Shl(a) == a << 1;
    hide Shl;
    ClearTopByte(a);
    ClearTopByteStill(a);
    ShlAgain(a);
    assert Clear(a << 4, 4) && ShlPow(a << 4, 4) == ShlByte(a);
    assert Clear(a, 8) && ShlPow(a, 8) == ShlPow(a << 4, 4);
  }

  lemma LowIsHigh(b: byte)
    ensures ClearTop(Low(b)) && ClearTop(ShiftLeft(Low(b)))
    ensures ClearTop(ShiftLeft(ShiftLeft(Low(b)))) && ClearTop(ShiftLeft(ShiftLeft(ShiftLeft(Low(b)))))
  {
  }

  lemma LowIsHighStill(b: byte)
    ensures var c := ShiftLeft(ShiftLeft(ShiftLeft(ShiftLeft(Low(b)))));
      && ClearTop(c) && ClearTop(ShiftLeft(c)) && ClearTop(ShiftLeft(ShiftLeft(c)))
      && ShiftLeft(ShiftLeft(ShiftLeft(c))) == High(b)
  {
  }

  // ---------------------------------------------------------------------------------------------
  // Powers of x
  // ---------------------------------------------------------------------------------------------

  lemma {:induction false} TimesXPowLinear(a: Poly, b: Poly, n: nat)
    ensures TimesXPow(Add(a, b), n) == Add(TimesXPow(a, n), TimesXPow(b, n))
    decreases n
  {
    hide TimesX, Add;
    if n != 0 {
      TimesXLinear(a, b);
      TimesXPowLinear(TimesX(a), TimesX(b), n - 1);
    }
  }

  lemma {:induction false} TimesXPowSum(c: Poly, m: nat, n: nat)
    ensures TimesXPow(TimesXPow(c, m), n) == TimesXPow(c, m + n)
    decreases m
  {
    hide TimesX;
    if m != 0 {
      TimesXPowSum(TimesX(c), m - 1, n);
    }
  }

  lemma {:induction false} TimesXPowInjective(a: Poly, b: Poly, n: nat)
    requires TimesXPow(a, n) == TimesXPow(b, n)
    ensures a == b
    decreases n
  {
    hide TimesX;
    if n != 0 {
      TimesXPowInjective(TimesX(a), TimesX(b), n - 1);
      TimesXInjective(a, b);
    }
  }

  lemma {:induction false} TimesXPowZero(n: nat)
    ensures TimesXPow(ZERO, n) == ZERO
  {
    if n != 0 {
      assert TimesX(ZERO) == ZERO;
      TimesXPowZero(n - 1);
    }
  }

  lemma {:induction false} ShiftClearBits(a: bv64, n: nat)
    requires Clear(a, n)
    ensures TimesXPow(Poly(a), n) == Poly(ShlPow(a, n))
    decreases n
  {
    hide HasTop, Shl, Xor;
    if n != 0 {
      ShiftClearBits(Shl(a), n - 1);
    }
  }

  // A polynomial whose top byte is clear shifts without any reduction.
  lemma {:induction false} ShiftClearByte(c: Poly)
    requires ClearTop(c)
    ensures TimesXPow(c, 8) == ShiftLeft(c)
  {
    hide TopByte, Clear, ShlPow, ShlByte, TimesXPow;
    EightShifts(c.bits);
    ShiftClearBits(c.bits, 8);
  }

  lemma {:induction false} TimesXPowShift(c: Poly, n: nat)
    requires ClearTop(c)
    ensures TimesXPow(c, n + 8) == TimesXPow(ShiftLeft(c), n)
  {
    hide *;
    ShiftClearByte(c);
    TimesXPowSum(c, 8, n);
  }

  lemma {:induction false} LowTimesX56(b: byte)
    ensures TimesXPow(Low(b), 56) == High(b)
  {
    hide *;
    var c0 := Low(b);
    var c1 := ShiftLeft(c0);
    var c2 := ShiftLeft(c1);
    var c3 := ShiftLeft(c2);
    var c4 := ShiftLeft(c3);
    var c5 := ShiftLeft(c4);
    var c6 := ShiftLeft(c5);
    LowIsHigh(b);
    LowIsHighStill(b);
    TimesXPowShift(c0, 48);
    TimesXPowShift(c1, 40);
    TimesXPowShift(c2, 32);
    TimesXPowShift(c3, 24);
    TimesXPowShift(c4, 16);
    TimesXPowShift(c5, 8);
    ShiftClearByte(c6);
  }

  // ---------------------------------------------------------------------------------------------
  // The table-driven computation is the long division
  // ---------------------------------------------------------------------------------------------

  lemma {:induction false} ByteStepIsShift(crc: Poly, b: byte)
    ensures ByteStep(crc, b) == TimesXPow(Add(crc, High(b)), 8)
  {
    hide TimesXPow, Add, High, Index, ShiftLeft, ClearTop;
    var rest := SplitTopByte(crc, b);
    ShiftClearByte(rest);
    TimesXPowLinear(High(Index(crc, b)), rest, 8);
  }

  lemma {:induction false} LongDivisionConcat(p: Poly, a: seq<bool>, b: seq<bool>)
    ensures LongDivision(p, a + b) == LongDivision(LongDivision(p, a), b)
    decreases |a|
  {
    hide TimesX, Add, Unit;
    if a == [] {
      assert a + b == b;
    } else {
      assert (a + b)[0] == a[0] && (a + b)[1..] == a[1..] + b;
      LongDivisionConcat(Add(TimesX(p), Unit(a[0])), a[1..], b);
    }
  }

  lemma {:induction false} LongDivisionZeros(p: Poly, n: nat)
    ensures LongDivision(p, Zeros(n)) == TimesXPow(p, n)
    decreases n
  {
    hide TimesX, Add;
    if n != 0 {
      assert Zeros(n)[0] == false && Zeros(n)[1..] == Zeros(n - 1);
      assert Unit(false) == ZERO;
      AddLaws(TimesX(p), ZERO, ZERO);
      LongDivisionZeros(TimesX(p), n - 1);
    }
  }

  // The bits brought down so far, read as a polynomial.
  function Gather(s: seq<bool>): Poly {
    if s == [] then ZERO else Add(TimesX(Gather(s[..|s| - 1])), Unit(s[|s| - 1]))
  }

  lemma {:induction false} DivideBits(p: Poly, s: seq<bool>)
    ensures LongDivision(p, s) == Add(TimesXPow(p, |s|), Gather(s))
    decreases |s|
  {
    hide TimesX, Add, Unit;
    if s == [] {
      AddLaws(p, p, p);
    } else {
      var n := |s| - 1;
      var t, last := s[..n], [s[n]];
      var q, u := TimesXPow(p, n), Gather(t);
      assert s == t + last && last[1..] == [];
      DivideBits(p, t);
      LongDivisionConcat(p, t, last);
      assert LongDivision(Add(q, u), last) == Add(TimesX(Add(q, u)), Unit(s[n]));
      TimesXLinear(q, u);
      AddLaws(TimesX(q), TimesX(u), Unit(s[n]));
      TimesXPowSum(p, n, 1);
      assert TimesXPow(q, 1) == TimesXPow(TimesX(q), 0);
    }
  }

  lemma {:induction false} GatherStep(s: seq<bool>, k: nat)
    requires k < |s|
    ensures Gather(s[..k + 1]) == Add(TimesX(Gather(s[..k])), Unit(s[k]))
  {
    hide TimesX, Add, Unit;
    assert s[..k + 1][..k] == s[..k];
  }

  lemma GatherTop(b: byte, g0: Poly, g1: Poly, g2: Poly, g3: Poly, g4: Poly)
    requires g0 == ZERO
    requires g1 == Add(TimesX(g0), Unit(b & 0x80 != 0)) && g2 == Add(TimesX(g1), Unit(b & 0x40 != 0))
    requires g3 == Add(TimesX(g2), Unit(b & 0x20 != 0)) && g4 == Add(TimesX(g3), Unit(b & 0x10 != 0))
    ensures g4 == Low(b >> 4)
  {
  }

  lemma GatherBottom(b: byte, g4: Poly, g5: Poly, g6: Poly, g7: Poly, g8: Poly)
    requires g4 == Low(b >> 4)
    requires g5 == Add(TimesX(g4), Unit(b & 0x08 != 0)) && g6 == Add(TimesX(g5), Unit(b & 0x04 != 0))
    requires g7 == Add(TimesX(g6), Unit(b & 0x02 != 0)) && g8 == Add(TimesX(g7), Unit(b & 0x01 != 0))
    ensures g8 == Low(b)
  {
  }

  lemma {:induction false} GatherByte(b: byte)
    ensures Gather(BitsOfByte(b)) == Low(b)
  {
    hide TimesX, Add, Unit, Low;
    var s := BitsOfByte(b);
    assert s[..8] == s && Gather(s[..0]) == ZERO;
    GatherStep(s, 0);
    GatherStep(s, 1);
    GatherStep(s, 2);
    GatherStep(s, 3);
    GatherTop(b, Gather(s[..0]), Gather(s[..1]), Gather(s[..2]), Gather(s[..3]), Gather(s[..4]));
    GatherStep(s, 4);
    GatherStep(s, 5);
    GatherStep(s, 6);
    GatherStep(s, 7);
    GatherBottom(b, Gather(s[..4]), Gather(s[..5]), Gather(s[..6]), Gather(s[..7]), Gather(s[..8]));
  }

  // One table step in the register is the division of eight more bits, 64 places ahead.
  lemma {:induction false} StepCommutes(p: Poly, b: byte)
    ensures ByteStep(TimesXPow(p, 64), b) == TimesXPow(LongDivision(p, BitsOfByte(b)), 64)
  {
    hide *;
    var q := TimesXPow(p, 8);
    ByteStepIsShift(TimesXPow(p, 64), b);
    TimesXPowLinear(TimesXPow(p, 64), High(b), 8);
    TimesXPowSum(p, 64, 8);
    LowTimesX56(b);
    TimesXPowSum(Low(b), 56, 8);
    TimesXPowLinear(q, Low(b), 64);
    TimesXPowSum(p, 8, 64);
    DivideBits(p, BitsOfByte(b));
    ByteHasEightBits(b);
    GatherByte(b);
  }

  lemma ByteHasEightBits(b: byte)
    ensures |BitsOfByte(b)| == 8
  {
  }

  lemma {:induction false} DivisionOfBytes(p: Poly, data: seq<byte>)
    ensures CrcFrom(TimesXPow(p, 64), data) == TimesXPow(LongDivision(p, Bits(data)), 64)
    decreases |data|
  {
    hide TimesXPow, ByteStep, BitsOfByte;
    if data != [] {
      LongDivisionConcat(p, BitsOfByte(data[0]), Bits(data[1..]));
      StepCommutes(p, data[0]);
      DivisionOfBytes(LongDivision(p, BitsOfByte(data[0])), data[1..]);
    }
  }

  // The checksum of every byte string is the remainder of the long division.
  lemma {:induction false} TableDrivenIsDivision(data: seq<byte>)
    ensures Crc(data) == Remainder(data)
  {
    hide TimesXPow, LongDivision, CrcFrom, Bits, Zeros;
    DivisionOfBytes(ZERO, data);
    LongDivisionConcat(ZERO, Bits(data), Zeros(64));
    LongDivisionZeros(LongDivision(ZERO, Bits(data)), 64);
    TimesXPowZero(64);
  }

  // ---------------------------------------------------------------------------------------------
  // Burst errors: a change confined to 8 consecutive bytes always changes the checksum
  // ---------------------------------------------------------------------------------------------

  lemma {:induction false} CrcFromConcat(c: Poly, a: seq<byte>, b: seq<byte>)
    ensures CrcFrom(c, a + b) == CrcFrom(CrcFrom(c, a), b)
    decreases |a|
  {
    hide ByteStep;
    if a == [] {
      assert a + b == b;
    } else {
      assert (a + b)[0] == a[0] && (a + b)[1..] == a[1..] + b;
      CrcFromConcat(ByteStep(c, a[0]), a[1..], b);
    }
  }

  lemma {:induction false} ByteStepInjective(c: Poly, d: Poly, b: byte)
    requires ByteStep(c, b) == ByteStep(d, b)
    ensures c == d
  {
    hide *;
    ByteStepIsShift(c, b);
    ByteStepIsShift(d, b);
    TimesXPowInjective(Add(c, High(b)), Add(d, High(b)), 8);
    AddCancels(c, d, High(b));
  }

  // Reading the same bytes keeps different remainders different.
  lemma {:induction false} CrcFromInjective(c: Poly, d: Poly, data: seq<byte>)
    requires CrcFrom(c, data) == CrcFrom(d, data)
    ensures c == d
    decreases |data|
  {
    hide ByteStep;
    if data != [] {
      CrcFromInjective(ByteStep(c, data[0]), ByteStep(d, data[0]), data[1..]);
      ByteStepInjective(c, d, data[0]);
    }
  }

  // The bytes of a window of at most 8 bytes, left-aligned in a word.
  function Polynomial(w: seq<byte>): Poly {
    if w == [] then ZERO else Add(High(w[0]), ShiftRight(Polynomial(w[1..])))
  }

  function ShiftLeftBy(c: Poly, n: nat): Poly
    decreases n
  {
    if n == 0 then c else ShiftLeftBy(ShiftLeft(c), n - 1)
  }

  lemma {:induction false} ZeroShifts(n: nat)
    ensures ShiftLeftBy(ZERO, n) == ZERO
  {
    if n != 0 {
      assert ShiftLeft(ZERO) == ZERO;
      ZeroShifts(n - 1);
    }
  }

  lemma {:induction false} ShiftLeftBySum(c: Poly, m: nat, n: nat)
    ensures ShiftLeftBy(ShiftLeftBy(c, m), n) == ShiftLeftBy(c, m + n)
    decreases m
  {
    hide ShiftLeft;
    if m != 0 {
      ShiftLeftBySum(ShiftLeft(c), m - 1, n);
    }
  }

  predicate ClearBottom(c: Poly) {
    c.bits & 0xff == 0
  }

  lemma {:induction false} SevenShifts(c: Poly)
    ensures ShiftLeftBy(c, 7) == ShiftLeft(ShiftLeft(ShiftLeft(ShiftLeft(ShiftLeft(ShiftLeft(ShiftLeft(c)))))))
  {
    hide ShiftLeft;
    var d := ShiftLeft(ShiftLeft(ShiftLeft(c)));
    assert ShiftLeftBy(c, 7) == ShiftLeftBy(ShiftLeft(c), 6)
      == ShiftLeftBy(ShiftLeft(ShiftLeft(c)), 5) == ShiftLeftBy(d, 4);
    assert ShiftLeftBy(d, 4) == ShiftLeftBy(ShiftLeft(d), 3) == ShiftLeftBy(ShiftLeft(ShiftLeft(d)), 2);
  }

  lemma BottomIsLast(c: Poly)
    requires ShiftLeft(ShiftLeft(ShiftLeft(ShiftLeft(ShiftLeft(ShiftLeft(ShiftLeft(c))))))) == ZERO
    ensures ClearBottom(c)
  {
  }

  lemma ShiftBack(b: byte, c: Poly)
    requires ClearBottom(c)
    ensures ShiftLeft(Add(High(b), ShiftRight(c))) == c
    ensures ShiftLeft(ShiftRight(c)) == c && ClearTop(ShiftRight(c))
  {
  }

  // A word of fewer than 8 bytes leaves the bottom byte clear.
  lemma {:induction false} WordBottom(w: seq<byte>)
    requires |w| <= 7
    ensures ShiftLeftBy(Polynomial(w), |w|) == ZERO && ClearBottom(Polynomial(w))
  {
    hide ShiftLeft, ShiftRight, Add, High, ClearBottom;
    if w != [] {
      WordBottom(w[1..]);
      ShiftBack(w[0], Polynomial(w[1..]));
    }
    ShiftLeftBySum(Polynomial(w), |w|, 7 - |w|);
    ZeroShifts(7 - |w|);
    SevenShifts(Polynomial(w));
    BottomIsLast(Polynomial(w));
  }

  // A word of at most 7 bytes is the shift of a word with a clear top byte.
  lemma {:induction false} WordShifts(w: seq<byte>)
    requires |w| <= 7
    ensures ShiftLeft(ShiftRight(Polynomial(w))) == Polynomial(w)
    ensures TimesXPow(ShiftRight(Polynomial(w)), 8) == Polynomial(w)
  {
    hide *;
    WordBottom(w);
    ShiftBack(0, Polynomial(w));
    ShiftClearByte(ShiftRight(Polynomial(w)));
  }

  lemma {:induction false} AddRegroup(c: Poly, x: Poly, s: Poly, d: Poly, y: Poly, t: Poly)
    requires Add(Add(c, x), s) == Add(Add(d, y), t)
    ensures Add(c, Add(x, s)) == Add(d, Add(y, t))
  {
    hide *;
    AddLaws(c, x, s);
    AddLaws(d, y, t);
  }

  lemma {:induction false} StepDifference(c: Poly, a: byte, s: Poly, d: Poly, b: byte, t: Poly)
    requires Add(ByteStep(c, a), s) == Add(ByteStep(d, b), t)
    requires TimesXPow(ShiftRight(s), 8) == s && TimesXPow(ShiftRight(t), 8) == t
    ensures Add(c, Add(High(a), ShiftRight(s))) == Add(d, Add(High(b), ShiftRight(t)))
  {
    hide *;
    var x, y := High(a), High(b);
    ByteStepIsShift(c, a);
    ByteStepIsShift(d, b);
    TimesXPowLinear(Add(c, x), ShiftRight(s), 8);
    TimesXPowLinear(Add(d, y), ShiftRight(t), 8);
    TimesXPowInjective(Add(Add(c, x), ShiftRight(s)), Add(Add(d, y), ShiftRight(t)), 8);
    AddRegroup(c, x, ShiftRight(s), d, y, ShiftRight(t));
  }

  // Remainders that agree after a window differed before it exactly as the windows differ.
  lemma {:induction false} WindowDifference(c: Poly, v: seq<byte>, d: Poly, w: seq<byte>)
    requires |v| == |w| <= 8
    requires CrcFrom(c, v) == CrcFrom(d, w)
    ensures Add(c, Polynomial(v)) == Add(d, Polynomial(w))
    decreases |v|
  {
    hide ByteStep, Add, High, ShiftRight;
    if v == [] {
      AddLaws(c, c, c);
    } else {
      WindowDifference(ByteStep(c, v[0]), v[1..], ByteStep(d, w[0]), w[1..]);
      WordShifts(v[1..]);
      WordShifts(w[1..]);
      StepDifference(c, v[0], Polynomial(v[1..]), d, w[0], Polynomial(w[1..]));
    }
  }

  lemma TopByteSplits(a: byte, x: Poly, b: byte, y: Poly)
    requires Add(High(a), ShiftRight(x)) == Add(High(b), ShiftRight(y))
    ensures a == b && ShiftRight(x) == ShiftRight(y)
  {
  }

  lemma {:induction false} WordInjective(v: seq<byte>, w: seq<byte>)
    requires |v| == |w| <= 8
    requires Polynomial(v) == Polynomial(w)
    ensures v == w
    decreases |v|
  {
    hide Add, High, ShiftRight, ShiftLeft;
    if v != [] {
      TopByteSplits(v[0], Polynomial(v[1..]), w[0], Polynomial(w[1..]));
      WordShifts(v[1..]);
      WordShifts(w[1..]);
      WordInjective(v[1..], w[1..]);
      assert v == [v[0]] + v[1..] && w == [w[0]] + w[1..];
    }
  }

  // The strings have one length and agree outside the 8 bytes that start at position p.
  ghost predicate DifferOnlyInWindow(a: seq<byte>, b: seq<byte>, p: nat) {
    |a| == |b| && forall i :: 0 <= i < |a| && !(p <= i < p + 8) ==> a[i] == b[i]
  }

  lemma {:induction false} WindowDetected(prefix: seq<byte>, v: seq<byte>, w: seq<byte>, suffix: seq<byte>)
    requires |v| == |w| <= 8
    requires Crc(prefix + (v + suffix)) == Crc(prefix + (w + suffix))
    ensures v == w
  {
    hide CrcFrom, Polynomial;
    var c := CrcFrom(ZERO, prefix);
    CrcFromConcat(ZERO, prefix, v + suffix);
    CrcFromConcat(ZERO, prefix, w + suffix);
    CrcFromConcat(c, v, suffix);
    CrcFromConcat(c, w, suffix);
    CrcFromInjective(CrcFrom(c, v), CrcFrom(c, w), suffix);
    WindowDifference(c, v, c, w);
    AddCancels(Polynomial(v), Polynomial(w), c);
    WordInjective(v, w);
  }

  // Strings that differ, and differ only inside 8 consecutive bytes, have different checksums.
  lemma {:induction false} BurstDetected(a: seq<byte>, b: seq<byte>, p: nat)
    requires DifferOnlyInWindow(a, b, p) && a != b
    ensures Crc(a) != Crc(b)
  {
    hide Crc;
    var lo := if p <= |a| then p else |a|;
    var hi := if p + 8 <= |a| then p + 8 else |a|;
    assert a == a[..lo] + (a[lo..hi] + a[hi..]);
    assert b == b[..lo] + (b[lo..hi] + b[hi..]);
    assert a[..lo] == b[..lo] && a[hi..] == b[hi..];
    if Crc(a) == Crc(b) {
      WindowDetected(a[..lo], a[lo..hi], b[lo..hi], a[hi..]);
    }
  }
}
