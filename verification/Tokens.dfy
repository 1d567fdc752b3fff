// Lease tokens: "high:low:sequence" in decimal, and why two of them are never the same.
module Tokens {
  import opened Bytes
  import opened Transitions

  function Digit(d: nat): byte
    requires d < 10
  {
    ToByte(48 + d)
  }

  // The decimal numeral of n, as std::to_string writes it.
  function Decimal(n: nat): Text {
    if n < 10 then [Digit(n)] else Decimal(n / 10) + [Digit(n % 10)]
  }

  const COLON: byte := ToByte(58)

  function Token(id: Id, sequence: nat): Text {
    Decimal(id.high) + [COLON] + Decimal(id.low) + [COLON] + Decimal(sequence)
  }

  lemma {:induction false} DigitFacts(d: nat, e: nat)
    requires d < 10 && e < 10
    ensures Digit(d) == Digit(e) ==> d == e
    ensures Digit(d) != COLON
  {
    hide ToByte, ToNumber;
    NumberOfByte(48 + d);
    NumberOfByte(48 + e);
    NumberOfByte(58);
  }

  lemma {:induction false} DecimalLength(n: nat)
    ensures |Decimal(n)| >= 1
    ensures |Decimal(n)| == 1 <==> n < 10
  {
    hide Digit, ToByte;
    if n >= 10 {
      DecimalLength(n / 10);
    }
  }

  // What a string of ASCII digits stands for.
  function ValueOf(t: Text): int {
    if t == [] then 0 else 10 * ValueOf(t[..|t| - 1]) + ToNumber(t[|t| - 1]) - 48
  }

  // A numeral stands for its number, is made of ASCII digits, and has no leading zero.
  lemma {:induction false} DecimalReads(n: nat)
    ensures ValueOf(Decimal(n)) == n
    ensures forall i :: 0 <= i < |Decimal(n)| ==> 48 <= ToNumber(Decimal(n)[i]) <= 57
    ensures |Decimal(n)| > 1 ==> ToNumber(Decimal(n)[0]) != 48
  {
    hide ToByte, ToNumber;
    DecimalLength(n);
    NumberOfByte(48 + n % 10);
    if n >= 10 {
      DecimalReads(n / 10);
      DecimalLength(n / 10);
      assert Decimal(n)[..|Decimal(n)| - 1] == Decimal(n / 10);
      if n / 10 < 10 {
        NumberOfByte(48 + n / 10);
      }
    } else {
      assert Decimal(n)[..0] == [];
      assert ValueOf([]) == 0;
    }
  }

  lemma {:induction false} TokenParts(h: Text, l: Text, n: Text)
    ensures
      var t, a := h + [COLON] + l + [COLON] + n, |h|;
      var b := a + 1 + |l|;
      t[a] == COLON && t[b] == COLON && t[..a] == h && t[a + 1..b] == l && t[b + 1..] == n
  {
    hide ToByte;
  }

  lemma {:induction false} ColonCode()
    ensures ToNumber(COLON) == 58
  {
    hide ToByte, ToNumber;
    NumberOfByte(58);
  }

  // A token reads high, colon, low, colon, sequence number.
  lemma {:induction false} TokenReads(id: Id, sequence: nat)
    ensures
      var t := Token(id, sequence);
      var a := |Decimal(id.high)|;
      var b := a + 1 + |Decimal(id.low)|;
      && b + 1 < |t| && ToNumber(t[a]) == 58 && ToNumber(t[b]) == 58
      && ValueOf(t[..a]) == id.high && ValueOf(t[a + 1..b]) == id.low && ValueOf(t[b + 1..]) == sequence
  {
    hide Decimal, ToByte, ToNumber, ValueOf;
    DecimalReads(id.high);
    DecimalReads(id.low);
    DecimalReads(sequence);
    DecimalLength(sequence);
    ColonCode();
    TokenParts(Decimal(id.high), Decimal(id.low), Decimal(sequence));
  }

  lemma {:induction false} DecimalInjective(m: nat, n: nat)
    requires Decimal(m) == Decimal(n)
    ensures m == n
  {
    hide Digit, ToByte;
    var s, t := Decimal(m), Decimal(n);
    DecimalLength(m);
    DecimalLength(n);
    assert s[|s| - 1] == Digit(m % 10) && t[|t| - 1] == Digit(n % 10);
    DigitFacts(m % 10, n % 10);
    if m >= 10 && n >= 10 {
      assert Decimal(m / 10) == s[..|s| - 1] && Decimal(n / 10) == t[..|t| - 1];
      DecimalInjective(m / 10, n / 10);
    }
  }

  lemma {:induction false} DecimalHasNoColon(n: nat)
    ensures COLON !in Decimal(n)
  {
    hide Digit, ToByte;
    DigitFacts(n % 10, 0);
    if n >= 10 {
      DecimalHasNoColon(n / 10);
    }
  }

  lemma {:induction false} SplitAtColon(a: Text, x: Text, b: Text, y: Text)
    requires COLON !in a && COLON !in b
    requires a + [COLON] + x == b + [COLON] + y
    ensures a == b && x == y
  {
    var s := a + [COLON] + x;
    var t := b + [COLON] + y;
    assert s[|a|] == COLON && t[|b|] == COLON;
    assert |a| == |b|;
    assert a == s[..|a|] && b == t[..|b|];
    assert x == s[|a| + 1..] && y == t[|b| + 1..];
  }

  // The token of a delivery determines the message and the sequence number.
  lemma {:induction false} TokenInjective(id: Id, sequence: nat, id': Id, sequence': nat)
    requires Token(id, sequence) == Token(id', sequence')
    ensures id == id' && sequence == sequence'
  {
    hide Decimal, ToByte;
    var h, l, n := Decimal(id.high), Decimal(id.low), Decimal(sequence);
    var h', l', n' := Decimal(id'.high), Decimal(id'.low), Decimal(sequence');
    DecimalHasNoColon(id.high);
    DecimalHasNoColon(id'.high);
    DecimalHasNoColon(id.low);
    DecimalHasNoColon(id'.low);
    assert h + [COLON] + l + [COLON] + n == h + [COLON] + (l + [COLON] + n);
    assert h' + [COLON] + l' + [COLON] + n' == h' + [COLON] + (l' + [COLON] + n');
    SplitAtColon(h, l + [COLON] + n, h', l' + [COLON] + n');
    SplitAtColon(l, n, l', n');
    DecimalInjective(id.high, id'.high);
    DecimalInjective(id.low, id'.low);
    DecimalInjective(sequence, sequence');
  }
}
