// What the solver knows of conversions between bytes and numbers.
module Octets {

  lemma NumberKept(n: nat)
    requires n < 256
    ensures (n as bv8) as int == n
  {
  }

  lemma NumberDetermines(a: bv8, b: bv8)
    requires a as nat == b as nat
    ensures a == b
  {
  }
}

// Unsigned integers as byte strings: the little-endian memory layout that record.cc and queue_engine.cc
// copy to disk.
module Bytes {
  import opened Octets

  type byte = bv8

  // The contents of a std::string.
  type Text = seq<byte>

  type u16 = n: nat | n < 0x1_0000
  type u32 = n: nat | n < 0x1_0000_0000
  type u64 = n: nat | n < 0x1_0000_0000_0000_0000

  function ToByte(n: nat): byte {
    (n % 256) as bv8
  }

  function ToNumber(b: byte): (n: nat)
    ensures n < 256
  {
    b as nat
  }

  lemma {:induction false} NumberOfByte(n: nat)
    ensures ToNumber(ToByte(n)) == n % 256
  {
    NumberKept(n % 256);
  }

  lemma {:induction false} ByteOfNumber(b: byte)
    ensures ToByte(ToNumber(b)) == b
  {
    hide ToByte, ToNumber;
    NumberOfByte(ToNumber(b));
    SameNumber(ToByte(ToNumber(b)), b);
  }

  lemma {:induction false} SameNumber(a: byte, b: byte)
    requires ToNumber(a) == ToNumber(b)
    ensures a == b
  {
    NumberDetermines(a, b);
  }

  function Pow256(width: nat): (p: nat)
    ensures p >= 1
  {
    if width == 0 then 1 else 256 * Pow256(width - 1)
  }

  lemma {:induction false} Widths()
    ensures Pow256(2) == 0x1_0000 && Pow256(4) == 0x1_0000_0000 && Pow256(8) == 0x1_0000_0000_0000_0000
  {
    assert Pow256(2) == 256 * Pow256(1);
    assert Pow256(4) == 256 * (256 * Pow256(2));
    assert Pow256(6) == 256 * (256 * Pow256(4));
    assert Pow256(8) == 256 * (256 * Pow256(6));
  }

  // A number without its lowest bytes.
  function WithoutLowest(n: nat, count: nat): nat
    decreases count
  {
    if count == 0 then n else WithoutLowest(n / 256, count - 1)
  }

  // The lowest byte first.
  function LittleEndian(n: nat, width: nat): (bytes: seq<byte>)
    ensures |bytes| == width
  {
    seq(width, i requires 0 <= i < width => ToByte(WithoutLowest(n, i)))
  }

  lemma {:induction false} LowestFirst(n: nat, width: nat)
    requires width > 0
    ensures LittleEndian(n, width) == [ToByte(n)] + LittleEndian(n / 256, width - 1)
  {
    hide ToByte;
  }

  // Byte i holds the digit of weight 256^i.
  lemma {:induction false} DigitAt(n: nat, width: nat, i: nat)
    requires i < width
    ensures ToNumber(LittleEndian(n, width)[i]) == (n / Pow256(i)) % 256
  {
    hide ToByte, ToNumber;
    NumberOfByte(WithoutLowest(n, i));
    QuotientOf(n, i);
  }

  lemma {:induction false} QuotientOf(n: nat, count: nat)
    ensures WithoutLowest(n, count) == n / Pow256(count)
    decreases count
  {
    if count > 0 {
      QuotientOf(n / 256, count - 1);
      QuotientTwice(n, Pow256(count - 1));
    }
  }

  lemma {:induction false} QuotientTwice(n: nat, p: nat)
    requires p >= 1
    ensures n / 256 / p == n / (256 * p)
  {
    ModuloSplits(n, p);
    var q, r := n / (256 * p), n % (256 * p);
    var a, b := n / 256, n % 256;
    assert n == q * (256 * p) + r;
    assert r == b + 256 * (a % p);
    assert a == (a / p) * p + a % p;
    assert n == 256 * a + b;
    assert 256 * ((a / p) * p) == (a / p) * (256 * p);
    SameMultiple(256 * p, q, a / p);
  }

  lemma {:induction false} SameMultiple(d: nat, k: nat, l: nat)
    requires d >= 1 && k * d == l * d
    ensures k == l
  {
    if k < l {
      Multiples(d, k, l);
    } else if l < k {
      Multiples(d, l, k);
    }
  }

  function Number(bytes: seq<byte>): nat {
    if bytes == [] then 0 else ToNumber(bytes[0]) + 256 * Number(bytes[1..])
  }

  lemma {:induction false} NumberBounded(bytes: seq<byte>)
    ensures Number(bytes) < Pow256(|bytes|)
  {
    hide ToNumber;
    if bytes != [] {
      NumberBounded(bytes[1..]);
    }
  }

  // Reading back gives the value written, reduced to the width.
  lemma {:induction false} NumberOfLittleEndian(n: nat, width: nat)
    ensures Number(LittleEndian(n, width)) == n % Pow256(width)
    decreases width
  {
    hide ToNumber, ToByte, LittleEndian;
    if width > 0 {
      LowestFirst(n, width);
      NumberOfByte(n);
      NumberOfLittleEndian(n / 256, width - 1);
      var p := Pow256(width - 1);
      assert LittleEndian(n, width)[1..] == LittleEndian(n / 256, width - 1);
      ModuloSplits(n, p);
    }
  }

  lemma {:induction false} ModuloSplits(n: nat, p: nat)
    requires p >= 1
    ensures n % 256 + 256 * ((n / 256) % p) == n % (256 * p)
  {
    var q, r := n / 256, n % 256;
    var k, m := q / p, q % p;
    assert n == 256 * (k * p + m) + r;
    assert n == k * (256 * p) + (256 * m + r);
    assert 256 * m + r < 256 * p;
    RemainderIs(n, 256 * p, k, 256 * m + r);
  }

  lemma {:induction false} RemainderIs(n: nat, d: nat, k: nat, r: nat)
    requires d >= 1 && n == k * d + r && r < d
    ensures n % d == r
  {
    SameQuotient(d, k, r, n / d, n % d);
  }

  lemma {:induction false} SameQuotient(d: nat, k: nat, r: nat, l: nat, t: nat)
    requires r < d && t < d && k * d + r == l * d + t
    ensures r == t
  {
    if k < l {
      Multiples(d, k, l);
    } else if l < k {
      Multiples(d, l, k);
    }
  }

  lemma {:induction false} Multiples(d: nat, k: nat, l: nat)
    requires k < l
    ensures k * d + d <= l * d
  {
    assert l * d == (l - 1) * d + d;
    if k < l - 1 {
      Multiples(d, k, l - 1);
    }
  }

  lemma SmallRemainder(n: nat, d: nat)
    requires n < d
    ensures n % d == n
  {
  }

  lemma {:induction false} LittleEndianOfNumber(bytes: seq<byte>)
    ensures LittleEndian(Number(bytes), |bytes|) == bytes
  {
    hide ToNumber, ToByte, LittleEndian;
    if bytes != [] {
      var d, rest := ToNumber(bytes[0]), Number(bytes[1..]);
      LowestDigit(d, rest);
      LowestFirst(d + 256 * rest, |bytes|);
      SameByte(d + 256 * rest, d);
      ByteOfNumber(bytes[0]);
      LittleEndianOfNumber(bytes[1..]);
    }
  }

  lemma LowestDigit(d: nat, rest: nat)
    requires d < 256
    ensures (d + 256 * rest) % 256 == d % 256 && (d + 256 * rest) / 256 == rest
  {
  }

  lemma SameByte(m: nat, n: nat)
    requires m % 256 == n % 256
    ensures ToByte(m) == ToByte(n)
  {
  }

  // A field of a memory image, as a number.
  function Field(data: seq<byte>, at: nat, width: nat): nat
    requires at + width <= |data|
  {
    Number(data[at..at + width])
  }

  function Field16(data: seq<byte>, at: nat): u16
    requires at + 2 <= |data|
  {
    FieldFits(data, at, 2);
    Field(data, at, 2)
  }

  function Field32(data: seq<byte>, at: nat): u32
    requires at + 4 <= |data|
  {
    FieldFits(data, at, 4);
    Field(data, at, 4)
  }

  function Field64(data: seq<byte>, at: nat): u64
    requires at + 8 <= |data|
  {
    FieldFits(data, at, 8);
    Field(data, at, 8)
  }

  lemma {:induction false} FieldFits(data: seq<byte>, at: nat, width: nat)
    requires at + width <= |data|
    ensures Field(data, at, width) < Pow256(width)
    ensures Pow256(2) == 0x1_0000 && Pow256(4) == 0x1_0000_0000 && Pow256(8) == 0x1_0000_0000_0000_0000
  {
    hide Number, Pow256;
    NumberBounded(data[at..at + width]);
    Widths();
  }

  // What is read where a number was written.
  lemma {:induction false} FieldWritten(data: seq<byte>, at: nat, width: nat, n: nat)
    requires at + width <= |data| && data[at..at + width] == LittleEndian(n, width)
    ensures n < Pow256(width) ==> Field(data, at, width) == n
    ensures Pow256(2) == 0x1_0000 && Pow256(4) == 0x1_0000_0000 && Pow256(8) == 0x1_0000_0000_0000_0000
  {
    hide Number, Pow256, LittleEndian;
    NumberOfLittleEndian(n, width);
    Widths();
    if n < Pow256(width) {
      SmallRemainder(n, Pow256(width));
    }
  }

  lemma {:induction false} Written16(data: seq<byte>, at: nat, n: u16)
    requires at + 2 <= |data| && data[at..at + 2] == LittleEndian(n, 2)
    ensures Field16(data, at) == n
  {
    hide Field, LittleEndian, Pow256;
    FieldWritten(data, at, 2, n);
  }

  lemma {:induction false} Written32(data: seq<byte>, at: nat, n: u32)
    requires at + 4 <= |data| && data[at..at + 4] == LittleEndian(n, 4)
    ensures Field32(data, at) == n
  {
    hide Field, LittleEndian, Pow256;
    FieldWritten(data, at, 4, n);
  }

  lemma {:induction false} Written64(data: seq<byte>, at: nat, n: u64)
    requires at + 8 <= |data| && data[at..at + 8] == LittleEndian(n, 8)
    ensures Field64(data, at) == n
  {
    hide Field, LittleEndian, Pow256;
    FieldWritten(data, at, 8, n);
  }

  lemma {:induction false} Window(data: seq<byte>, at: nat, a: seq<byte>, b: seq<byte>)
    requires at + |a| + |b| <= |data| && data[at..at + |a| + |b|] == a + b
    ensures data[at..at + |a|] == a && data[at + |a|..at + |a| + |b|] == b
  {
    var image := data[at..at + |a| + |b|];
    assert data[at..at + |a|] == image[..|a|];
    assert data[at + |a|..at + |a| + |b|] == image[|a|..];
  }

  lemma Regroup(out: seq<byte>, a: seq<byte>, b: seq<byte>, c: seq<byte>, d: seq<byte>)
    ensures out + a + b + c + d == out + (a + b + c + d)
  {
  }

  // ---------------------------------------------------------------------------------------------
  // A 64-bit machine word, in the same layout
  // ---------------------------------------------------------------------------------------------

  function Byte0(c: bv64): byte { (c & 0xff) as bv8 }
  function Byte1(c: bv64): byte { ((c >> 8) & 0xff) as bv8 }
  function Byte2(c: bv64): byte { ((c >> 16) & 0xff) as bv8 }
  function Byte3(c: bv64): byte { ((c >> 24) & 0xff) as bv8 }
  function Byte4(c: bv64): byte { ((c >> 32) & 0xff) as bv8 }
  function Byte5(c: bv64): byte { ((c >> 40) & 0xff) as bv8 }
  function Byte6(c: bv64): byte { ((c >> 48) & 0xff) as bv8 }
  function Byte7(c: bv64): byte { ((c >> 56) & 0xff) as bv8 }

  function WordBytes(c: bv64): (bytes: seq<byte>)
    ensures |bytes| == 8
  {
    [Byte0(c), Byte1(c), Byte2(c), Byte3(c), Byte4(c), Byte5(c), Byte6(c), Byte7(c)]
  }

  function Joined(a: byte, b: byte, c: byte, d: byte, e: byte, f: byte, g: byte, h: byte): bv64 {
    (a as bv64) | ((b as bv64) << 8) | ((c as bv64) << 16) | ((d as bv64) << 24)
    | ((e as bv64) << 32) | ((f as bv64) << 40) | ((g as bv64) << 48) | ((h as bv64) << 56)
  }

  function Word(bytes: seq<byte>): bv64
    requires |bytes| == 8
  {
    Joined(bytes[0], bytes[1], bytes[2], bytes[3], bytes[4], bytes[5], bytes[6], bytes[7])
  }

  lemma Rejoined(c: bv64)
    ensures Joined(Byte0(c), Byte1(c), Byte2(c), Byte3(c), Byte4(c), Byte5(c), Byte6(c), Byte7(c)) == c
  {
  }

  // The lowest byte of a word comes first.
  lemma WordByteOrder(c: bv64)
    ensures WordBytes(c)[0] as bv64 == c & 0xff && WordBytes(c)[7] as bv64 == c >> 56
    ensures WordBytes(c)[1] as bv64 == (c >> 8) & 0xff && WordBytes(c)[2] as bv64 == (c >> 16) & 0xff
    ensures WordBytes(c)[3] as bv64 == (c >> 24) & 0xff && WordBytes(c)[4] as bv64 == (c >> 32) & 0xff
    ensures WordBytes(c)[5] as bv64 == (c >> 40) & 0xff && WordBytes(c)[6] as bv64 == (c >> 48) & 0xff
  {
  }

  lemma {:induction false} WordOfBytes(c: bv64)
    ensures Word(WordBytes(c)) == c
  {
    hide Joined, Byte0, Byte1, Byte2, Byte3, Byte4, Byte5, Byte6, Byte7;
    Rejoined(c);
  }
}
