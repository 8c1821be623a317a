/** The share amount a submission tracks, written with 18 protocol decimals. */
module ShareAmounts {
  import opened Foundations
  import opened Numerals
  import opened ExactDecimals

  const PROTOCOL_DECIMALS: nat := 18

  /** The digits of an integer, padded so that at least one stands before the point. */
  function PaddedDigits(n: nat): (d: Text)
    ensures |d| > PROTOCOL_DECIMALS && IsDigits(d)
  {
    var d := DecimalText(n);
    if |d| <= PROTOCOL_DECIMALS then Zeros(PROTOCOL_DECIMALS + 1 - |d|) + d else d
  }

  /** `protocol_decimal`: a point 18 places from the right, then trailing zeros and a bare point dropped. */
  function ProtocolDecimal(n: nat): Text {
    var d := PaddedDigits(n);
    var cut := |d| - PROTOCOL_DECIMALS;
    var fraction := StripTrailing(d[cut..]);
    if fraction == [] then d[..cut] else d[..cut] + [DOT] + fraction
  }

  method FormatProtocolDecimal(n: nat) returns (t: Text)
    ensures t == ProtocolDecimal(n)
  {
    hide StripTrailing, DecimalText, PaddedDigits;
    var digits := DecimalText(n);
    PaddedMeans(n);
    if |digits| <= PROTOCOL_DECIMALS {
      digits := Zeros(PROTOCOL_DECIMALS + 1 - |digits|) + digits;
    }
    assert digits == PaddedDigits(n);
    var cut := |digits| - PROTOCOL_DECIMALS;
    ghost var whole, tail := digits[..cut], digits[cut..];
    t := digits[..cut] + [DOT] + digits[cut..];
    t := TrimZeros(t, whole, tail);
    ghost var fraction := StripTrailing(tail);
    assert t[|t| - 1] == if fraction == [] then DOT else fraction[|fraction| - 1];
    if t[|t| - 1] == DOT {
      t := t[..|t| - 1];
      assert t == whole;
    }
  }

  lemma PaddedMeans(n: nat)
    ensures var d := DecimalText(n);
            PaddedDigits(n) == if |d| <= PROTOCOL_DECIMALS then Zeros(PROTOCOL_DECIMALS + 1 - |d|) + d else d
  {
    hide DecimalText;
  }

  /** The loop that pops trailing zeros; the point stops it. */
  method TrimZeros(text: Text, ghost whole: Text, ghost tail: Text) returns (t: Text)
    requires IsDigits(tail) && text == whole + [DOT] + tail
    ensures t == whole + [DOT] + StripTrailing(tail)
  {
    t := text;
    ghost var fraction := tail;
    while |t| > 1 && t[|t| - 1] == 48
      invariant IsDigits(fraction) && t == whole + [DOT] + fraction
      invariant StripTrailing(fraction) == StripTrailing(tail)
    {
      assert t[|t| - 1] == if fraction == [] then DOT else fraction[|fraction| - 1];
      fraction := fraction[..|fraction| - 1];
      t := t[..|t| - 1];
    }
    assert t[|t| - 1] == if fraction == [] then DOT else fraction[|fraction| - 1];
  }

  lemma PaddedValue(n: nat)
    ensures DecimalValue(PaddedDigits(n)) == n
  {
    hide DecimalText;
    var d := DecimalText(n);
    if |d| <= PROTOCOL_DECIMALS {
      var k := PROTOCOL_DECIMALS + 1 - |d|;
      DecimalConcat(Zeros(k), d);
      ZerosValue(k);
    }
  }

  lemma FindPoint(front: Text, rest: Text)
    requires IsDigits(front)
    ensures Find(front + [DOT] + rest, DOT) == |front|
  {
    var t := front + [DOT] + rest;
    assert t[|front|] == DOT && forall j | 0 <= j < |front| :: t[j] == front[j];
  }

  lemma NoPoint(t: Text)
    requires IsDigits(t)
    ensures Find(t, DOT) == |t|
  {
  }

  /** The tracked amount is accepted text and denotes exactly `n / 10^18`. */
  lemma ProtocolDecimalIsExact(n: nat)
    ensures PlainDecimal(ProtocolDecimal(n))
    ensures Scale(ProtocolDecimal(n)) <= PROTOCOL_DECIMALS
    ensures Numerator(ProtocolDecimal(n)) * Pow10(PROTOCOL_DECIMALS - Scale(ProtocolDecimal(n))) == n
  {
    hide PaddedDigits, Pow10, PlainDecimal, Scale, Numerator, DecimalValue, StripTrailing;
    var d := PaddedDigits(n);
    var cut := |d| - PROTOCOL_DECIMALS;
    var whole, tail, t := d[..cut], d[cut..], ProtocolDecimal(n);
    var fraction := StripTrailing(tail);
    PaddedValue(n);
    assert d == whole + tail && IsDigits(whole) && IsDigits(tail);
    Parts(whole, fraction, t);
    var k := PROTOCOL_DECIMALS - |fraction|;
    assert whole + tail == (whole + fraction) + Zeros(k);
    DecimalPad(whole + fraction, k);
  }

  /** Reading the parts of a formatted amount back. */
  lemma Parts(whole: Text, fraction: Text, t: Text)
    requires IsDigits(whole) && whole != [] && IsDigits(fraction)
    requires t == if fraction == [] then whole else whole + [DOT] + fraction
    ensures PlainDecimal(t) && Scale(t) == |fraction| && IsDigits(whole + fraction)
    ensures Numerator(t) == DecimalValue(whole + fraction)
  {
    assert Unsigned(t) == t;
    if fraction == [] {
      NoPoint(t);
      assert whole + fraction == t && IntegerPart(t) == t && FractionPart(t) == [] && t + [] == t;
    } else {
      FindPoint(whole, fraction);
      assert IntegerPart(t) == whole && FractionPart(t) == fraction;
      assert t[|t| - 1] == fraction[|fraction| - 1];
    }
  }

  /** A positive amount is tracked as a positive decimal. */
  lemma ProtocolDecimalIsPositive(n: nat)
    requires n > 0
    ensures PlainDecimal(ProtocolDecimal(n))
    ensures !IsNegative(ProtocolDecimal(n)) && !IsZero(ProtocolDecimal(n))
  {
    hide ProtocolDecimal, PlainDecimal, Numerator, Pow10;
    ProtocolDecimalIsExact(n);
    SignTests(ProtocolDecimal(n));
    SignScale(Numerator(ProtocolDecimal(n)), Pow10(PROTOCOL_DECIMALS - Scale(ProtocolDecimal(n))));
  }
}
