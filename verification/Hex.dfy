/** `0x`-prefixed hexadecimal byte strings and JSON-RPC quantities (`src/chain_abi.cpp`). */
module Hex {
  import opened Foundations

  /** The value of a hexadecimal digit of either case, or -1. */
  function Nibble(c: byte): (n: int)
    ensures -1 <= n < 16
  {
    if 48 <= c <= 57 then c - 48
    else if 97 <= c <= 102 then c - 87
    else if 65 <= c <= 70 then c - 55
    else -1
  }

  function Digit(n: nat): (c: byte)
    requires n < 16
    ensures Nibble(c) == n
  {
    if n < 10 then 48 + n else 87 + n
  }

  /** The lower-case form of a digit. */
  function Lower(c: byte): byte {
    if 65 <= c <= 70 then c + 32 else c
  }

  predicate Prefixed(t: Text) { |t| >= 2 && t[0] == 48 && t[1] == 120 }

  predicate AllHex(t: Text, from: nat) { forall i | from <= i < |t| :: Nibble(t[i]) >= 0 }

  predicate IsHex(t: Text) { Prefixed(t) && |t| % 2 == 0 && AllHex(t, 2) }

  function Bytes(t: Text): (bytes: seq<byte>)
    requires IsHex(t)
    ensures |bytes| == (|t| - 2) / 2
    ensures forall i | 0 <= i < |bytes| :: bytes[i] == 16 * Nibble(t[2 * i + 2]) + Nibble(t[2 * i + 3])
  {
    seq((|t| - 2) / 2, i requires 0 <= i < (|t| - 2) / 2 => 16 * Nibble(t[2 * i + 2]) + Nibble(t[2 * i + 3]))
  }

  function Decoded(t: Text): Result<seq<byte>> {
    if IsHex(t) then Ok(Bytes(t)) else Err(InvalidField)
  }

  function DigitAt(bytes: seq<byte>, i: nat): byte
    requires i < 2 * |bytes|
  {
    Digit(if i % 2 == 0 then bytes[i / 2] / 16 else bytes[i / 2] % 16)
  }

  function Digits(bytes: seq<byte>): (t: Text)
    ensures |t| == 2 * |bytes|
  {
    seq(2 * |bytes|, i requires 0 <= i < 2 * |bytes| => DigitAt(bytes, i))
  }

  function Encoded(bytes: seq<byte>): Text { [48, 120] + Digits(bytes) }

  /** `decode_hex`. */
  method Decode(t: Text) returns (r: Result<seq<byte>>)
    ensures r == Decoded(t)
  {
    if !Prefixed(t) || |t| % 2 != 0 {
      return Err(InvalidField);
    }
    var bytes: seq<byte>, index := [], 2;
    while index < |t|
      invariant 2 <= index <= |t| && index % 2 == 0 && |bytes| == (index - 2) / 2
      invariant forall i | 2 <= i < index :: Nibble(t[i]) >= 0
      invariant forall i | 0 <= i < |bytes| :: bytes[i] == 16 * Nibble(t[2 * i + 2]) + Nibble(t[2 * i + 3])
    {
      var high, low := Nibble(t[index]), Nibble(t[index + 1]);
      if high < 0 || low < 0 {
        return Err(InvalidField);
      }
      bytes := bytes + [16 * high + low];
      index := index + 2;
    }
    assert bytes == Bytes(t);
    r := Ok(bytes);
  }

  /** `encode_hex`. */
  method Encode(bytes: seq<byte>) returns (t: Text)
    ensures t == Encoded(bytes)
  {
    hide Digit;
    t := [48, 120];
    for i := 0 to |bytes|
      invariant |t| == 2 + 2 * i && t[..2] == [48, 120]
      invariant forall j | 0 <= j < 2 * i :: t[j + 2] == DigitAt(bytes, j)
    {
      assert DigitAt(bytes, 2 * i) == Digit(bytes[i] / 16) && DigitAt(bytes, 2 * i + 1) == Digit(bytes[i] % 16);
      t := t + [Digit(bytes[i] / 16)];
      t := t + [Digit(bytes[i] % 16)];
    }
    assert t[2..] == Digits(bytes);
    assert t == t[..2] + t[2..];
  }

  predicate IsHexDigit(c: byte) { 48 <= c <= 57 || 65 <= c <= 70 || 97 <= c <= 102 }

  /** The value of a digit, in either case. */
  lemma NibbleIs(c: byte)
    ensures Nibble(c) >= 0 <==> IsHexDigit(c)
    ensures 48 <= c <= 57 ==> Nibble(c) == c - 48
    ensures 97 <= c <= 102 ==> Nibble(c) == 10 + (c - 97) && Nibble(c - 32) == Nibble(c)
  {
  }

  /** Exactly the texts of `0x` and an even number of digits, in either case, are decoded; everything else is an invalid
      field. */
  lemma DecodesExactly(t: Text)
    ensures Decoded(t).Ok? <==> |t| >= 2 && t[..2] == [48, 120] && |t| % 2 == 0 && forall i | 2 <= i < |t| :: IsHexDigit(t[i])
    ensures Decoded(t).Err? ==> Decoded(t).code == InvalidField
  {
    hide Nibble, Bytes;
    forall i | 2 <= i < |t| ensures Nibble(t[i]) >= 0 <==> IsHexDigit(t[i]) {
      NibbleIs(t[i]);
    }
  }

  /** A quantity is `0x` and digits, without a leading zero unless it is the only one; a value beyond 256 bits overflows,
      and everything else is an invalid field. */
  lemma QuantityDecides(t: Text)
    ensures var shaped := |t| >= 3 && t[..2] == [48, 120] && (|t| == 3 || t[2] != 48) && forall i | 2 <= i < |t| :: IsHexDigit(t[i]);
            && (!shaped ==> Quantity(t) == Err(InvalidField))
            && (shaped ==> AllHex(t[2..], 0)
                           && Quantity(t) == if Value(t[2..]) < UINT256_END then Ok(Value(t[2..])) else Err(NumericOverflow))
  {
    hide Nibble, Value;
    forall i | 2 <= i < |t| ensures t[2..][i - 2] == t[i] && (Nibble(t[i]) >= 0 <==> IsHexDigit(t[i])) {
      NibbleIs(t[i]);
    }
  }

  lemma EncodedShape(bytes: seq<byte>)
    ensures |Encoded(bytes)| == 2 + 2 * |bytes| && Prefixed(Encoded(bytes))
  {}

  lemma EncodedAt(bytes: seq<byte>, k: nat)
    requires 2 <= k < 2 + 2 * |bytes|
    ensures var b := bytes[(k - 2) / 2];
            |Encoded(bytes)| == 2 + 2 * |bytes| && Encoded(bytes)[k] == Digit(if k % 2 == 0 then b / 16 else b % 16)
  {
    hide Digit;
    assert Encoded(bytes)[k] == Digits(bytes)[k - 2] == DigitAt(bytes, k - 2);
    assert (k - 2) % 2 == k % 2;
  }

  lemma DecodeInvertsEncode(bytes: seq<byte>)
    ensures Decoded(Encoded(bytes)) == Ok(bytes)
  {
    hide Digit, Nibble, Encoded;
    var t := Encoded(bytes);
    EncodedShape(bytes);
    forall k | 2 <= k < |t| ensures Nibble(t[k]) >= 0 {
      EncodedAt(bytes, k);
    }
    forall i | 0 <= i < |bytes| ensures Bytes(t)[i] == bytes[i] {
      EncodedAt(bytes, 2 * i + 2);
      EncodedAt(bytes, 2 * i + 3);
    }
    assert Bytes(t) == bytes;
  }

  lemma DigitOfNibble(c: byte)
    requires Nibble(c) >= 0
    ensures Digit(Nibble(c)) == Lower(c)
  {}

  /** Accepted text re-encodes to itself in lower case. */
  lemma EncodeInvertsDecode(t: Text)
    requires IsHex(t)
    ensures var u := Encoded(Bytes(t));
            |u| == |t| && forall k | 0 <= k < |t| :: u[k] == Lower(t[k])
  {
    hide Digit, Nibble, Lower;
    var bytes := Bytes(t);
    EncodedShape(bytes);
    LowerPrefix();
    forall k | 2 <= k < |t| ensures Encoded(bytes)[k] == Lower(t[k]) {
      ReencodedAt(t, k);
    }
  }

  lemma ReencodedAt(t: Text, k: nat)
    requires IsHex(t) && 2 <= k < |t|
    ensures |Encoded(Bytes(t))| == |t| && Encoded(Bytes(t))[k] == Lower(t[k])
  {
    hide Digit, Nibble, Lower, Encoded;
    var j := (k - 2) / 2;
    assert k == 2 * j + 2 || k == 2 * j + 3;
    EncodedAt(Bytes(t), k);
    DigitOfNibble(t[k]);
    Halves(Nibble(t[2 * j + 2]), Nibble(t[2 * j + 3]));
  }

  lemma LowerPrefix()
    ensures Lower(48) == 48 && Lower(120) == 120
  {}

  lemma Halves(high: int, low: int)
    requires 0 <= low < 16
    ensures (16 * high + low) / 16 == high && (16 * high + low) % 16 == low
  {}

  // ---- Quantities ----

  function Value(digits: Text): nat
    requires AllHex(digits, 0)
  {
    if digits == [] then 0 else 16 * Value(digits[..|digits| - 1]) + Nibble(digits[|digits| - 1])
  }

  function Shortest(n: nat): (t: Text)
    ensures AllHex(t, 0) && (t == [] <==> n == 0) && (t != [] ==> t[0] != 48)
  {
    if n == 0 then [] else Shortest(n / 16) + [Digit(n % 16)]
  }

  function QuantityText(n: nat): Text { [48, 120] + if n == 0 then [48] else Shortest(n) }

  function Quantity(t: Text): Result<nat> {
    if !Prefixed(t) || |t| < 3 then Err(InvalidField)
    else if |t| > 3 && t[2] == 48 then Err(InvalidField)
    else if !AllHex(t[2..], 0) then Err(InvalidField)
    else if Value(t[2..]) >= UINT256_END then Err(NumericOverflow)
    else Ok(Value(t[2..]))
  }

  /** `decode_quantity`. */
  method DecodeQuantity(t: Text) returns (r: Result<nat>)
    ensures r == Quantity(t)
  {
    if !Prefixed(t) || |t| < 3 || (|t| > 3 && t[2] == 48) {
      return Err(InvalidField);
    }
    var value, digits := 0, t[2..];
    for i := 0 to |digits|
      invariant AllHex(digits[..i], 0) && value == Value(digits[..i])
    {
      var part := Nibble(digits[i]);
      if part < 0 {
        assert !AllHex(digits, 0);
        return Err(InvalidField);
      }
      assert digits[..i + 1][..i] == digits[..i];
      value := 16 * value + part;
    }
    assert digits[..|digits|] == digits;
    r := if value >= UINT256_END then Err(NumericOverflow) else Ok(value);
  }

  /** `encode_quantity`. */
  method EncodeQuantity(n: nat) returns (t: Text)
    ensures t == QuantityText(n)
  {
    if n == 0 {
      return [48, 120, 48];
    }
    var parsed: nat, digits: Text := n, [];
    while parsed > 0
      invariant Shortest(n) == Shortest(parsed) + digits
    {
      digits := [Digit(parsed % 16)] + digits;
      parsed := parsed / 16;
    }
    t := [48, 120] + digits;
  }

  lemma {:induction false} ShortestValue(n: nat)
    ensures Value(Shortest(n)) == n
  {
    if n > 0 {
      var t := Shortest(n);
      assert t[..|t| - 1] == Shortest(n / 16);
      ShortestValue(n / 16);
    }
  }

  lemma {:induction false} ShortestIsUnique(t: Text)
    requires AllHex(t, 0) && (t != [] ==> t[0] != 48)
    ensures |Shortest(Value(t))| == |t|
    ensures forall i | 0 <= i < |t| :: Shortest(Value(t))[i] == Lower(t[i])
  {
    if t != [] {
      var front, last := t[..|t| - 1], t[|t| - 1];
      ShortestIsUnique(front);
      DigitOfNibble(last);
      LeadingNibble(t);
      Halves(Value(front), Nibble(last));
    }
  }

  lemma LeadingNibble(t: Text)
    requires t != [] && AllHex(t, 0) && t[0] != 48
    ensures Value(t) != 0
    decreases |t|
  {
    if |t| > 1 {
      LeadingNibble(t[..|t| - 1]);
    }
  }

  lemma QuantityRoundTrip(n: nat)
    requires n < UINT256_END
    ensures Quantity(QuantityText(n)) == Ok(n)
  {
    var t := QuantityText(n);
    if n == 0 {
      assert t[2..] == [48] && [48][..0] == [];
    } else {
      assert t[2..] == Shortest(n);
      ShortestValue(n);
    }
  }

  /** Only the canonical text of a value decodes to it, up to the case of its digits. */
  lemma QuantityIsCanonical(t: Text)
    requires Quantity(t).Ok?
    ensures var u := QuantityText(Quantity(t).value);
            |u| == |t| && forall i | 0 <= i < |t| :: u[i] == Lower(t[i])
  {
    var digits := t[2..];
    if digits[0] == 48 {
      assert digits == [48] && digits[..0] == [];
      assert Value(digits) == 0;
    } else {
      LeadingNibble(digits);
      ShortestIsUnique(digits);
    }
  }
}
