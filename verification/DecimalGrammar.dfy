/** The texts that `FixedDecimal::parse` reads, what they denote, and which of them it refuses; and exact rescaling. */
module DecimalGrammar {
  import opened Foundations
  import opened Numerals
  import opened ExactDecimals
  import opened FixedDecimals

  // ---- The texts ----

  datatype Exponent = NoExponent | Exponent(mark: byte, negative: bool, digits: Text)

  /** A numeral: digits, perhaps a point among them, and perhaps `e` or `E` with a signed integer. There is at least one
      digit before the exponent and one in it. */
  predicate IsNumeral(whole: Text, point: bool, fraction: Text, e: Exponent) {
    && IsDigits(whole) && IsDigits(fraction) && whole + fraction != [] && (!point ==> fraction == [])
    && (e.Exponent? ==> e.mark in {69, 101} && e.digits != [] && IsDigits(e.digits))
  }

  function Significand(whole: Text, point: bool, fraction: Text): Text { whole + if point then [46] + fraction else [] }

  function ExponentText(e: Exponent): Text {
    match e
    case NoExponent => []
    case Exponent(mark, negative, digits) => [mark] + ((if negative then [45] else []) + digits)
  }

  function Numeral(whole: Text, point: bool, fraction: Text, e: Exponent): Text {
    Significand(whole, point, fraction) + ExponentText(e)
  }

  function ExponentNumber(e: Exponent): int
    requires e.Exponent? ==> IsDigits(e.digits)
  {
    match e
    case NoExponent => 0
    case Exponent(_, negative, digits) => var n: int := DecimalValue(digits); if negative then -n else n
  }

  lemma SignificandParts(whole: Text, point: bool, fraction: Text)
    requires IsDigits(whole) && IsDigits(fraction) && (!point ==> fraction == [])
    ensures var s := Significand(whole, point, fraction);
            && IntegerPart(s) == whole && FractionPart(s) == fraction
            && (forall i | 0 <= i < |s| :: IsDigit(s[i]) || s[i] == DOT)
  {
    hide Find;
    var s := Significand(whole, point, fraction);
    assert forall i | 0 <= i < |whole| :: s[i] == whole[i];
    if point {
      assert s[|whole|] == DOT && s[|whole| + 1..] == fraction;
      assert forall i | |whole| < i < |s| :: s[i] == fraction[i - |whole| - 1];
      assert Find(s, DOT) == |whole|;
    } else {
      assert s == whole;
    }
  }

  lemma MarkStands(s: Text, rest: Text)
    requires (forall i | 0 <= i < |s| :: IsDigit(s[i]) || s[i] == DOT) && (rest == [] || IsExponentMark(rest[0]))
    ensures FindExponent(s + rest) == |s| && (s + rest)[..|s|] == s && (s + rest)[|s|..] == rest
  {
    hide FindExponent;
    var t := s + rest;
    assert forall i | 0 <= i < |s| :: t[i] == s[i];
    assert rest != [] ==> t[|s|] == rest[0];
  }

  lemma ExponentReads(e: Exponent)
    requires e.Exponent? && e.digits != [] && IsDigits(e.digits)
    ensures var v := ExponentNumber(e);
            ExponentValue(ExponentText(e)[1..]) == if -0x8000_0000 <= v < 0x8000_0000 then Some(v) else None
  {
    hide DecimalValue;
    var body := (if e.negative then [45] else []) + e.digits;
    assert ExponentText(e)[1..] == body;
    if e.negative {
      assert body[1..] == e.digits;
    } else {
      assert body == e.digits && IsDigit(body[0]);
    }
  }

  /** A numeral is read as its digits, the number of them behind the point, and its exponent, if that has 32 bits. */
  lemma NumeralIsLexed(whole: Text, point: bool, fraction: Text, e: Exponent)
    requires IsNumeral(whole, point, fraction, e)
    ensures var v := ExponentNumber(e);
            Lex(Numeral(whole, point, fraction, e))
            == if -0x8000_0000 <= v < 0x8000_0000 then Ok(Lexeme(whole + fraction, |fraction|, v)) else Err(InvalidDecimal)
  {
    hide FindExponent, Find, DecimalValue, ExponentValue, IntegerPart, FractionPart;
    var s, rest := Significand(whole, point, fraction), ExponentText(e);
    var t := s + rest;
    SignificandParts(whole, point, fraction);
    MarkStands(s, rest);
    assert s != [] && t[0] == s[0];
    if e.Exponent? {
      ExponentReads(e);
      assert t[|s| + 1..] == rest[1..];
    }
  }

  /** Whatever is read is a numeral. */
  lemma LexedIsNumeral(t: Text) returns (whole: Text, point: bool, fraction: Text, e: Exponent)
    requires Lex(t).Ok?
    ensures IsNumeral(whole, point, fraction, e) && t == Numeral(whole, point, fraction, e)
    ensures Lex(t).value == Lexeme(whole + fraction, |fraction|, ExponentNumber(e))
  {
    hide FindExponent, Find, DecimalValue, ExponentValue, IntegerPart, FractionPart, Significand, ExponentText, ExponentNumber;
    var mark := FindExponent(t);
    var s := t[..mark];
    whole, fraction := IntegerPart(s), FractionPart(s);
    point := Find(s, DOT) < |s|;
    SignificandIs(s);
    if mark == |t| {
      e := NoExponent;
      NoExponentIs(s);
      assert s == t;
    } else {
      e := ExponentIs(t[mark], t[mark + 1..]);
      assert t == s + ([t[mark]] + t[mark + 1..]);
    }
  }

  lemma SignificandIs(s: Text)
    ensures s == Significand(IntegerPart(s), Find(s, DOT) < |s|, FractionPart(s))
    ensures Find(s, DOT) >= |s| ==> FractionPart(s) == []
  {
    hide Find;
    var dot := Find(s, DOT);
    if dot < |s| {
      Reassembled(s, dot);
    } else {
      assert s[..dot] + [] == s;
    }
  }

  lemma Reassembled(s: Text, k: nat)
    requires k < |s|
    ensures s == s[..k] + ([s[k]] + s[k + 1..])
  {
  }

  lemma NoExponentIs(s: Text)
    ensures s + ExponentText(NoExponent) == s && ExponentNumber(NoExponent) == 0
  {
  }

  lemma ExponentIs(mark: byte, body: Text) returns (e: Exponent)
    requires ExponentValue(body).Some?
    ensures e.Exponent? && e.mark == mark && e.digits != [] && IsDigits(e.digits)
    ensures ExponentText(e) == [mark] + body && Some(ExponentNumber(e)) == ExponentValue(body)
  {
    hide DecimalValue;
    e := Exponent(mark, body[0] == MINUS, Unsigned(body));
    assert body == (if body[0] == MINUS then [45] else []) + Unsigned(body);
  }

  // ---- What is refused ----

  /** Which texts are parsed, and why the others are not: a text that is no numeral is invalid; a significand of 64 bits or
      more, or a value shifted beyond that, overflows; and more than 18 digits behind the point, trailing zeros included,
      have no scale. */
  lemma ParseDecides(t: Text)
    ensures Lex(t).Err? ==> Parsed(t) == Err(InvalidDecimal)
    ensures Lex(t).Ok? ==>
              var x := Lex(t).value;
              var n, scale := DecimalValue(x.digits), x.fractional - x.exponent;
              if n >= TWO_64 || scale < -18 || (scale < 0 && n * Pow10(-scale) >= TWO_64) then Parsed(t) == Err(NumericOverflow)
              else if scale > 18 then Parsed(t) == Err(UnsupportedPrecision)
              else Parsed(t).Ok?
  {
    hide FindExponent, Find, DecimalValue, ExponentValue, IntegerPart, FractionPart, Pow10, Canonical;
  }

  /** So a text can be refused although its value is representable: `0e19` overflows. */
  lemma ZeroOverflows()
    ensures Parsed([48, 101, 49, 57]) == Err(NumericOverflow)
  {
    hide Lex, Parsed;
    var e := Exponent(101, false, [49, 57]);
    assert Numeral([48], false, [], e) == [48, 101, 49, 57] && [48] + [] == [48];
    NineteenIs();
    NumeralIsLexed([48], false, [], e);
    ParseDecides([48, 101, 49, 57]);
  }

  lemma NineteenIs()
    ensures IsDigits([49, 57]) && DecimalValue([49, 57]) == 19 && DecimalValue([48]) == 0
  {
    assert [49, 57][..1] == [49] && [49][..0] == [] && [48][..0] == [];
    assert DecimalValue([49]) == 1;
  }

  // ---- Rescaling ----

  /** Rescaling gives the same number at the scale asked for; it fails for a scale beyond 18, for units beyond 64 bits,
      and for digits that would be lost, and only then. */
  lemma RescaleIsExact(d: FixedDecimal, target: nat)
    requires Representable(d)
    ensures var r := RescaleExact(d, target);
            && (r.Ok? ==> r.value.scale == target && Representable(r.value) && SameValue(r.value, d))
            && (r == Err(UnsupportedPrecision) <==> target > 18)
            && (r == Err(NumericOverflow) <==> d.scale < target <= 18 && d.units * Pow10(target - d.scale) >= TWO_64)
            && (r == Err(InvalidDecimal) <==> target < d.scale && d.units % Pow10(d.scale - target) != 0)
            && (r.Err? ==> r.code in {UnsupportedPrecision, NumericOverflow, InvalidDecimal})
  {
    hide Pow10;
    if d.scale < target <= MAX_SCALE {
      Pow10Sum(target - d.scale, d.scale);
      MulAssoc(d.units, Pow10(target - d.scale), Pow10(d.scale));
    } else if target < d.scale && d.units % Pow10(d.scale - target) == 0 {
      Pow10Sum(d.scale - target, target);
      Shrinks(d.units, Pow10(d.scale - target), Pow10(target));
    }
  }

  lemma Shrinks(n: nat, k: nat, p: nat)
    requires k > 0 && n % k == 0
    ensures 0 <= n / k <= n && (n / k) * (k * p) == n * p
  {
    assert n == (n / k) * k;
    MulAssoc(n / k, k, p);
    MulMonotone(1, k, n / k);
  }
}
