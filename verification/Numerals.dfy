/** Positional notation: decimal text, and big- and little-endian bytes. */
module Numerals {
  import opened Foundations

  function Pow10(k: nat): (p: nat)
    ensures p >= 1
  {
    if k == 0 then 1 else 10 * Pow10(k - 1)
  }

  function Pow256(k: nat): (p: nat)
    ensures p >= 1
  {
    if k == 0 then 1 else 256 * Pow256(k - 1)
  }

  lemma {:induction false} Pow10Sum(a: nat, b: nat)
    ensures Pow10(a + b) == Pow10(a) * Pow10(b)
  {
    if a > 0 {
      Pow10Sum(a - 1, b);
      MulAssoc(10, Pow10(a - 1), Pow10(b));
    }
  }

  lemma {:induction false} Pow256Sum(a: nat, b: nat)
    ensures Pow256(a + b) == Pow256(a) * Pow256(b)
  {
    if a > 0 {
      Pow256Sum(a - 1, b);
      MulAssoc(256, Pow256(a - 1), Pow256(b));
    }
  }

  lemma WordSpan()
    ensures Pow256(32) == UINT256_END
  {
    assert Pow256(8) == TWO_64;
    Pow256Sum(8, 8);
    Pow256Sum(16, 16);
  }

  lemma MulAssoc(a: int, b: int, c: int)
    ensures a * (b * c) == (a * b) * c
  {
  }

  lemma MulMonotone(a: int, b: int, c: int)
    requires a <= b && 0 <= c
    ensures a * c <= b * c
  {
  }

  lemma MulStrict(a: int, b: int, c: int)
    requires a < b && 0 < c
    ensures a * c + c <= b * c
  {
    MulMonotone(a + 1, b, c);
  }

  /** Multiplying by a positive factor keeps the sign. */
  lemma SignScale(x: int, c: int)
    requires 0 < c
    ensures Sign(x * c) == Sign(x)
  {
    if x < 0 {
      MulStrict(x, 0, c);
    } else if x > 0 {
      MulStrict(0, x, c);
    }
  }

  // ---- Decimal text ----

  predicate IsDigit(b: byte) { 48 <= b <= 57 }

  predicate IsDigits(t: Text) { forall i | 0 <= i < |t| :: IsDigit(t[i]) }

  /** The number a string of decimal digits denotes. */
  function DecimalValue(t: Text): nat
    requires IsDigits(t)
  {
    if t == [] then 0 else 10 * DecimalValue(t[..|t| - 1]) + (t[|t| - 1] - 48)
  }

  /** `std::to_string` on an unsigned integer. */
  function DecimalText(n: nat): (t: Text)
    ensures |t| > 0 && IsDigits(t)
    ensures n > 0 ==> t[0] != 48
    ensures n == 0 ==> t == [48]
    ensures DecimalValue(t) == n
  {
    if n < 10 then [48 + n]
    else
      var front := DecimalText(n / 10);
      var t := front + [48 + n % 10];
      assert t[..|t| - 1] == front;
      t
  }

  lemma Horner(a: int, p: int, b: int, d: int)
    ensures 10 * (a * p + b) + d == a * (10 * p) + (10 * b + d)
  {
    MulAssoc(a, 10, p);
  }

  lemma {:induction false} DecimalConcat(a: Text, b: Text)
    requires IsDigits(a) && IsDigits(b)
    ensures IsDigits(a + b)
    ensures DecimalValue(a + b) == DecimalValue(a) * Pow10(|b|) + DecimalValue(b)
  {
    if b == [] {
      assert a + b == a;
    } else {
      var b' := b[..|b| - 1];
      DecimalConcat(a, b');
      assert (a + b)[..|a + b| - 1] == a + b';
      Horner(DecimalValue(a), Pow10(|b'|), DecimalValue(b'), b[|b| - 1] - 48);
    }
  }

  lemma {:induction false} DecimalBound(t: Text)
    requires IsDigits(t)
    ensures DecimalValue(t) < Pow10(|t|)
  {
    if t != [] {
      DecimalBound(t[..|t| - 1]);
    }
  }

  /** The most significant digit splits off. */
  lemma DecimalFront(t: Text)
    requires IsDigits(t) && t != []
    ensures DecimalValue(t) == (t[0] - 48) * Pow10(|t| - 1) + DecimalValue(t[1..])
  {
    hide DecimalValue, Pow10;
    assert t == [t[0]] + t[1..];
    OneDigit(t[0]);
    DecimalConcat([t[0]], t[1..]);
  }

  lemma OneDigit(b: byte)
    requires IsDigit(b)
    ensures IsDigits([b]) && DecimalValue([b]) == b - 48
  {
    assert [b][..0] == [];
  }

  /** Of two numbers in one base, the leading digits decide unless they agree. */
  lemma LeadingDecides(a: nat, b: nat, lowA: nat, lowB: nat, base: nat)
    requires lowA < base && lowB < base
    ensures Sign(a * base + lowA - (b * base + lowB)) == if a == b then Sign(lowA - lowB) else Sign(a - b)
  {
    if a < b {
      MulStrict(a, b, base);
    } else if b < a {
      MulStrict(b, a, base);
    }
  }

  /** A numeral without leading zero has the magnitude its length shows. */
  lemma DecimalLowerBound(t: Text)
    requires IsDigits(t) && t != [] && t[0] != 48
    ensures Pow10(|t| - 1) <= DecimalValue(t)
  {
    DecimalFront(t);
    MulMonotone(1, t[0] - 48, Pow10(|t| - 1));
  }

  function Zeros(n: nat): (t: Text)
    ensures |t| == n && IsDigits(t)
    ensures forall i | 0 <= i < n :: t[i] == 48
  {
    seq(n, i => 48)
  }

  lemma {:induction false} ZerosValue(n: nat)
    ensures DecimalValue(Zeros(n)) == 0
  {
    if n > 0 {
      ZerosValue(n - 1);
      assert Zeros(n)[..n - 1] == Zeros(n - 1);
    }
  }

  lemma DecimalPad(t: Text, n: nat)
    requires IsDigits(t)
    ensures DecimalValue(t + Zeros(n)) == DecimalValue(t) * Pow10(n)
  {
    DecimalConcat(t, Zeros(n));
    ZerosValue(n);
  }

  /** Between numerals of one length, byte order is numeric order. */
  lemma {:induction false} LexIsNumeric(a: Text, b: Text)
    requires IsDigits(a) && IsDigits(b) && |a| == |b|
    ensures LexLess(a, b) <==> DecimalValue(a) < DecimalValue(b)
    ensures a == b <==> DecimalValue(a) == DecimalValue(b)
  {
    hide DecimalValue, Pow10;
    if a != [] {
      var restA, restB := a[1..], b[1..];
      DecimalFront(a);
      DecimalFront(b);
      DecimalBound(restA);
      DecimalBound(restB);
      LexIsNumeric(restA, restB);
      LeadingDecides(a[0] - 48, b[0] - 48, DecimalValue(restA), DecimalValue(restB), Pow10(|restA|));
      assert a == [a[0]] + restA && b == [b[0]] + restB;
    }
  }

  // ---- Little-endian bytes ----

  function LittleEndian(n: nat, width: nat): (s: seq<byte>)
    ensures |s| == width
  {
    if width == 0 then [] else [n % 256] + LittleEndian(n / 256, width - 1)
  }

  function FromLittleEndian(s: seq<byte>): nat {
    if s == [] then 0 else s[0] + 256 * FromLittleEndian(s[1..])
  }

  lemma {:induction false} LittleEndianRoundTrip(n: nat, width: nat)
    requires n < Pow256(width)
    ensures FromLittleEndian(LittleEndian(n, width)) == n
  {
    if width > 0 {
      LittleEndianRoundTrip(n / 256, width - 1);
      assert LittleEndian(n, width)[1..] == LittleEndian(n / 256, width - 1);
    }
  }

  lemma {:induction false} FromLittleEndianInjective(a: seq<byte>, b: seq<byte>)
    requires |a| == |b|
    requires FromLittleEndian(a) == FromLittleEndian(b)
    ensures a == b
  {
    if a != [] {
      FromLittleEndianInjective(a[1..], b[1..]);
      assert a == [a[0]] + a[1..] && b == [b[0]] + b[1..];
    }
  }

  lemma {:induction false} FromLittleEndianAppend(s: seq<byte>, b: byte)
    ensures FromLittleEndian(s + [b]) == FromLittleEndian(s) + b * Pow256(|s|)
  {
    if s == [] {
      assert (s + [b])[1..] == [];
    } else {
      assert (s + [b])[1..] == s[1..] + [b];
      FromLittleEndianAppend(s[1..], b);
      MulAssoc(b, 256, Pow256(|s| - 1));
    }
  }

  lemma {:induction false} FromLittleEndianBound(s: seq<byte>)
    ensures FromLittleEndian(s) < Pow256(|s|)
  {
    if s != [] {
      FromLittleEndianBound(s[1..]);
    }
  }

  // ---- Big-endian bytes ----

  function FromBigEndian(s: seq<byte>): nat {
    if s == [] then 0 else 256 * FromBigEndian(s[..|s| - 1]) + s[|s| - 1]
  }

  /** The shortest big-endian form: empty for zero, no leading zero byte otherwise. */
  function MinimalBigEndian(n: nat): (s: seq<byte>)
    ensures FromBigEndian(s) == n
    ensures s != [] ==> s[0] != 0
    ensures s == [] <==> n == 0
  {
    if n == 0 then []
    else
      var s := MinimalBigEndian(n / 256) + [n % 256];
      assert s[..|s| - 1] == MinimalBigEndian(n / 256);
      s
  }

  function BigEndian(n: nat, width: nat): (s: seq<byte>)
    ensures |s| == width
  {
    if width == 0 then [] else BigEndian(n / 256, width - 1) + [n % 256]
  }

  lemma {:induction false} BigEndianRoundTrip(n: nat, width: nat)
    requires n < Pow256(width)
    ensures FromBigEndian(BigEndian(n, width)) == n
  {
    if width > 0 {
      BigEndianRoundTrip(n / 256, width - 1);
      assert BigEndian(n, width)[..width - 1] == BigEndian(n / 256, width - 1);
    }
  }

  lemma {:induction false} FromBigEndianBound(s: seq<byte>)
    ensures FromBigEndian(s) < Pow256(|s|)
  {
    if s != [] {
      FromBigEndianBound(s[..|s| - 1]);
    }
  }

  lemma {:induction false} FromBigEndianInjective(a: seq<byte>, b: seq<byte>)
    requires |a| == |b| && FromBigEndian(a) == FromBigEndian(b)
    ensures a == b
  {
    if a != [] {
      var frontA, frontB := a[..|a| - 1], b[..|b| - 1];
      FromBigEndianInjective(frontA, frontB);
      assert a == frontA + [a[|a| - 1]] && b == frontB + [b[|b| - 1]];
    }
  }

  lemma ByteSplit(n: nat, b: byte)
    ensures (256 * n + b) / 256 == n && (256 * n + b) % 256 == b
  {
  }

  lemma MinimalAppend(n: nat, b: byte)
    requires n > 0 || b > 0
    ensures MinimalBigEndian(256 * n + b) == MinimalBigEndian(n) + [b]
  {
    hide FromBigEndian;
    ByteSplit(n, b);
  }

  lemma EmptyMinimal()
    ensures MinimalBigEndian(FromBigEndian([])) == []
  {
  }

  lemma FromBigEndianLast(s: seq<byte>)
    requires s != []
    ensures FromBigEndian(s) == 256 * FromBigEndian(s[..|s| - 1]) + s[|s| - 1]
    ensures |s| == 1 ==> FromBigEndian(s[..|s| - 1]) == 0
  {
  }

  /** A byte string without leading zero is the only minimal form of its value. */
  lemma {:induction false} MinimalIsUnique(s: seq<byte>)
    requires s != [] ==> s[0] != 0
    ensures MinimalBigEndian(FromBigEndian(s)) == s
  {
    hide MinimalBigEndian, FromBigEndian;
    if s == [] {
      EmptyMinimal();
    } else {
      var front, last := s[..|s| - 1], s[|s| - 1];
      FromBigEndianLast(s);
      MinimalIsUnique(front);
      MinimalAppend(FromBigEndian(front), last);
      assert s == front + [last];
    }
  }

  lemma {:induction false} MinimalLength(n: nat, width: nat)
    requires n < Pow256(width)
    ensures |MinimalBigEndian(n)| <= width
  {
    if n > 0 {
      assert width > 0;
      MinimalLength(n / 256, width - 1);
    }
  }
}
