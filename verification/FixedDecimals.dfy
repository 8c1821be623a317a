/** `FixedDecimal` (unsigned units and a decimal scale) and `Price` (ticks of a power-of-ten scale). */
module FixedDecimals {
  import opened Foundations
  import opened Numerals
  import opened ExactDecimals

  const MAX_SCALE: nat := 18

  datatype FixedDecimal = FixedDecimal(units: nat, scale: nat)

  /** Values of the C++ type that `parse` and the book decoder produce. */
  predicate Representable(d: FixedDecimal) { d.units < TWO_64 && d.scale <= MAX_SCALE }

  /** No trailing zero behind the point. */
  predicate IsCanonical(d: FixedDecimal) { d.scale == 0 || d.units % 10 != 0 }

  /** Two decimals denote the same number. */
  predicate SameValue(a: FixedDecimal, b: FixedDecimal) { a.units * Pow10(b.scale) == b.units * Pow10(a.scale) }

  // ---- Lexing ----

  datatype Lexeme = Lexeme(digits: Text, fractional: nat, exponent: int)

  predicate IsExponentMark(b: byte) { b == 101 || b == 69 }

  function FindExponent(t: Text): (i: nat)
    ensures i <= |t| && (i < |t| ==> IsExponentMark(t[i])) && forall j | 0 <= j < i :: !IsExponentMark(t[j])
  {
    if t == [] || IsExponentMark(t[0]) then 0 else 1 + FindExponent(t[1..])
  }

  /** `std::from_chars` into `int`: an optional minus, digits to the end, and a 32-bit value. */
  function ExponentValue(t: Text): Option<int> {
    var body := Unsigned(t);
    if body == [] || !IsDigits(body) then None
    else
      var n: int := DecimalValue(body);
      var v := if t[0] == MINUS then -n else n;
      if -0x8000_0000 <= v < 0x8000_0000 then Some(v) else None
  }

  function Lex(t: Text): (r: Result<Lexeme>)
    ensures r.Ok? ==> r.value.digits != [] && IsDigits(r.value.digits) && r.value.fractional <= |r.value.digits|
  {
    if t == [] || t[0] == MINUS || t[0] == 43 then Err(InvalidDecimal)
    else
      var mark := FindExponent(t);
      var significand := t[..mark];
      var whole, fraction := IntegerPart(significand), FractionPart(significand);
      if !IsDigits(whole) || !IsDigits(fraction) || whole + fraction == [] then Err(InvalidDecimal)
      else if mark == |t| then Ok(Lexeme(whole + fraction, |fraction|, 0))
      else
        match ExponentValue(t[mark + 1..])
        case Some(e) => Ok(Lexeme(whole + fraction, |fraction|, e))
        case None => Err(InvalidDecimal)
  }

  // ---- Parsing ----

  /** Drops trailing zeros behind the point. */
  function Canonical(units: nat, scale: nat): (d: FixedDecimal)
    ensures IsCanonical(d) && d.scale <= scale && d.units <= units
  {
    if scale > 0 && units % 10 == 0 then Canonical(units / 10, scale - 1) else FixedDecimal(units, scale)
  }

  function Parsed(t: Text): Result<FixedDecimal> {
    match Lex(t)
    case Err(code) => Err(code)
    case Ok(lexeme) => FromLexeme(lexeme)
  }

  function FromLexeme(lexeme: Lexeme): Result<FixedDecimal>
    requires IsDigits(lexeme.digits)
  {
    hide DecimalValue, Pow10, Canonical;
    var units, scale := DecimalValue(lexeme.digits), lexeme.fractional - lexeme.exponent;
    if units >= TWO_64 then Err(NumericOverflow)
    else if scale < 0 then
      MulMonotone(0, units, Pow10(-scale));
      if -scale > MAX_SCALE || units * Pow10(-scale) >= TWO_64 then Err(NumericOverflow)
      else Ok(FixedDecimal(units * Pow10(-scale), 0))
    else if scale > MAX_SCALE then Err(UnsupportedPrecision)
    else Ok(Canonical(units, scale))
  }

  /** `FixedDecimal::parse`, after lexing: strips the scale in a loop. */
  method Parse(t: Text) returns (r: Result<FixedDecimal>)
    ensures r == Parsed(t)
  {
    hide Lex;
    var lexeme := LexText(t);
    if lexeme.Err? {
      return Err(lexeme.code);
    }
    var units: nat := AccumulateDigits(lexeme.value.digits);
    if units >= TWO_64 {
      return Err(NumericOverflow);
    }
    var signedScale := lexeme.value.fractional - lexeme.value.exponent;
    if signedScale < 0 {
      var zeros := -signedScale;
      if zeros > MAX_SCALE {
        return Err(NumericOverflow);
      }
      var grown := CheckedMultiply(units, Pow10(zeros));
      return if grown.Ok? then Ok(FixedDecimal(grown.value, 0)) else Err(grown.code);
    }
    if signedScale > MAX_SCALE {
      return Err(UnsupportedPrecision);
    }
    var scale: nat := signedScale;
    ghost var whole := units;
    while scale > 0 && units % 10 == 0
      invariant Canonical(whole, signedScale) == Canonical(units, scale)
    {
      units := units / 10;
      scale := scale - 1;
    }
    r := Ok(FixedDecimal(units, scale));
  }

  /** The scan at the head of `parse`: collects the digits and counts those behind the point. */
  method LexText(t: Text) returns (r: Result<Lexeme>)
    ensures r == Lex(t)
  {
    if t == [] || t[0] == MINUS || t[0] == 43 {
      return Err(InvalidDecimal);
    }
    var mark := FindExponent(t);
    var significand := t[..mark];
    var scanned := ScanSignificand(significand);
    if scanned.Err? || scanned.value.0 == [] {
      return Err(InvalidDecimal);
    }
    var (digits, fractional) := scanned.value;
    var exponent := 0;
    if mark != |t| {
      var value := ExponentValue(t[mark + 1..]);
      if value.None? {
        return Err(InvalidDecimal);
      }
      exponent := value.value;
    }
    r := Ok(Lexeme(digits, fractional, exponent));
  }

  /** The digits among the first `i` bytes, with the point left out. */
  function Scanned(t: Text, dot: nat, i: nat): Text
    requires dot <= |t| && i <= |t|
  {
    if i <= dot then t[..i] else t[..dot] + t[dot + 1..i]
  }

  lemma ScanStep(t: Text, dot: nat, i: nat)
    requires dot <= |t| && i < |t|
    ensures Scanned(t, dot, 0) == []
    ensures Scanned(t, dot, i + 1) == if i == dot then Scanned(t, dot, i) else Scanned(t, dot, i) + [t[i]]
  {
  }

  /** A second point spoils the fraction; without one, the point stands alone. */
  lemma OnePoint(t: Text)
    ensures var dot := Find(t, DOT);
            if dot < |t| && Find(t[dot + 1..], DOT) < |t[dot + 1..]| then !IsDigits(FractionPart(t))
            else forall j | dot < j < |t| :: t[j] != DOT
  {
    hide Find;
    var dot := Find(t, DOT);
    if dot < |t| {
      var rest := t[dot + 1..];
      assert forall j | dot < j < |t| :: t[j] == rest[j - dot - 1];
      if Find(rest, DOT) < |rest| {
        assert FractionPart(t)[Find(rest, DOT)] == DOT;
      }
    }
  }

  lemma ScanEnds(t: Text)
    ensures Scanned(t, Find(t, DOT), |t|) == IntegerPart(t) + FractionPart(t)
    ensures |FractionPart(t)| == if Find(t, DOT) == |t| then 0 else |t| - Find(t, DOT) - 1
    ensures Scanned(t, Find(t, DOT), 0) == []
  {
    hide Find;
  }

  method ScanSignificand(significand: Text) returns (r: Result<(Text, nat)>)
    ensures var whole, fraction := IntegerPart(significand), FractionPart(significand);
            r == if IsDigits(whole) && IsDigits(fraction) then Ok((whole + fraction, |fraction|)) else Err(InvalidDecimal)
  {
    hide Find, Scanned, IntegerPart, FractionPart;
    var dot := Find(significand, DOT);
    OnePoint(significand);
    if dot < |significand| && Find(significand[dot + 1..], DOT) < |significand[dot + 1..]| {
      return Err(InvalidDecimal);
    }
    ScanEnds(significand);
    var digits: Text, fractional: nat := [], 0;
    for i := 0 to |significand|
      invariant forall j | 0 <= j < i && j != dot :: IsDigit(significand[j])
      invariant digits == Scanned(significand, dot, i)
      invariant fractional == if i <= dot then 0 else i - dot - 1
    {
      var c := significand[i];
      ScanStep(significand, dot, i);
      if c == DOT {
        assert i == dot;
      } else if !IsDigit(c) {
        RejectedAt(significand, i);
        return Err(InvalidDecimal);
      } else {
        digits := digits + [c];
        if i > dot {
          fractional := fractional + 1;
        }
      }
    }
    PartsAreDigits(significand);
    r := Ok((digits, fractional));
  }

  method AccumulateDigits(digits: Text) returns (n: nat)
    requires IsDigits(digits)
    ensures n == DecimalValue(digits)
  {
    n := 0;
    for i := 0 to |digits|
      invariant n == DecimalValue(digits[..i])
    {
      assert digits[..i + 1][..i] == digits[..i];
      n := 10 * n + (digits[i] - 48);
    }
    assert digits[..|digits|] == digits;
  }

  /** `checked_multiply`: detects 64-bit overflow by dividing before multiplying. */
  function CheckedMultiply(value: nat, factor: nat): (r: Result<nat>)
    ensures factor > 0 ==> r == if value * factor < TWO_64 then Ok(value * factor) else Err(NumericOverflow)
  {
    if factor != 0 && value > (TWO_64 - 1) / factor then
      DivideFirst(value, factor, TWO_64 - 1);
      Err(NumericOverflow)
    else
      if factor > 0 then DivideFirst(value, factor, TWO_64 - 1); Ok(value * factor) else Ok(0)
  }

  lemma DivideFirst(value: nat, factor: nat, bound: nat)
    requires factor > 0
    ensures value > bound / factor <==> value * factor > bound
  {
    var q := bound / factor;
    if value > q {
      MulStrict(q, value, factor);
    } else {
      MulMonotone(value, q, factor);
    }
  }

  // ---- Rescaling and printing ----

  function RescaleExact(d: FixedDecimal, target: nat): Result<FixedDecimal> {
    if target > MAX_SCALE then Err(UnsupportedPrecision)
    else if target == d.scale then Ok(d)
    else if target > d.scale then
      var grown :- CheckedMultiply(d.units, Pow10(target - d.scale));
      Ok(FixedDecimal(grown, target))
    else if d.units % Pow10(d.scale - target) != 0 then Err(InvalidDecimal)
    else Ok(FixedDecimal(d.units / Pow10(d.scale - target), target))
  }

  function ToText(d: FixedDecimal): Text {
    var digits := DecimalText(d.units);
    if d.scale == 0 then digits
    else
      var padded := if |digits| <= d.scale then Zeros(d.scale + 1 - |digits|) + digits else digits;
      padded[..|padded| - d.scale] + [DOT] + padded[|padded| - d.scale..]
  }

  // ---- Prices ----

  datatype Price = Price(ticks: nat, precision: nat) {
    function TickScale(): nat { Pow10(precision) }

    predicate Valid() { precision <= MAX_SCALE && ticks <= TickScale() }

    function Complement(): (p: Price)
      requires Valid()
      ensures p.Valid() && p.precision == precision && p.ticks + ticks == TickScale()
    {
      Price(TickScale() - ticks, precision)
    }
  }

  function FromTicks(ticks: nat, precision: nat): (r: Result<Price>)
    ensures r.Ok? <==> Price(ticks, precision).Valid()
    ensures r.Ok? ==> r.value == Price(ticks, precision)
    ensures r.Err? ==> r.code == if precision > 18 then UnsupportedPrecision else InvalidPrice
  {
    if precision > MAX_SCALE then Err(UnsupportedPrecision)
    else if ticks > Pow10(precision) then Err(InvalidPrice)
    else Ok(Price(ticks, precision))
  }

  // ---- Parsing is exact and canonical ----

  lemma {:induction false} CanonicalKeepsValue(units: nat, scale: nat)
    ensures SameValue(FixedDecimal(units, scale), Canonical(units, scale))
  {
    if scale > 0 && units % 10 == 0 {
      CanonicalKeepsValue(units / 10, scale - 1);
      var d := Canonical(units / 10, scale - 1);
      TenTimes(units / 10, Pow10(d.scale), d.units, Pow10(scale - 1));
    }
  }

  lemma TenTimes(a: int, b: int, c: int, d: int)
    requires a * b == c * d
    ensures (10 * a) * b == c * (10 * d)
  {
    MulAssoc(10, a, b);
    MulAssoc(c, 10, d);
  }

  /** The lexical value of a text as a fraction: digits times ten to the exponent less the fractional places. */
  predicate Denotes(x: Lexeme, d: FixedDecimal)
    requires IsDigits(x.digits)
  {
    var shift := x.exponent - x.fractional;
    if shift >= 0 then d.units == DecimalValue(x.digits) * Pow10(shift) * Pow10(d.scale)
    else d.units * Pow10(-shift) == DecimalValue(x.digits) * Pow10(d.scale)
  }

  /** A successful parse is representable, canonical and denotes exactly the text's value. */
  lemma ParseIsExact(t: Text)
    requires Parsed(t).Ok?
    ensures Lex(t).Ok? && Denotes(Lex(t).value, Parsed(t).value)
    ensures Representable(Parsed(t).value) && IsCanonical(Parsed(t).value)
  {
    hide Lex, Canonical;
    var x := Lex(t).value;
    var units, scale := DecimalValue(x.digits), x.fractional - x.exponent;
    if scale >= 0 {
      CanonicalKeepsValue(units, scale);
    }
  }

  /** Canonical decimals with one value are equal. */
  lemma {:induction false} CanonicalIsUnique(a: FixedDecimal, b: FixedDecimal)
    requires IsCanonical(a) && IsCanonical(b) && SameValue(a, b)
    ensures a == b
    decreases a.scale + b.scale
  {
    if a.scale > b.scale {
      SmallerScaleDivides(b, a);
    } else if b.scale > a.scale {
      SmallerScaleDivides(a, b);
    } else if a.units < b.units {
      MulStrict(a.units, b.units, Pow10(a.scale));
    } else if b.units < a.units {
      MulStrict(b.units, a.units, Pow10(a.scale));
    }
  }

  /** A value that needs fewer places has a trailing zero when written with more. */
  lemma TenDivides(a: nat, b: nat, q: nat, p: nat)
    requires p > 0 && a * (10 * q * p) == b * p
    ensures b % 10 == 0
  {
    var u := a * (10 * q);
    MulAssoc(a, 10 * q, p);
    if u < b {
      MulStrict(u, b, p);
    } else if b < u {
      MulStrict(b, u, p);
    }
    MulAssoc(a, 10, q);
    MulAssoc(10, a, q);
    assert b == 10 * (a * q);
  }

  lemma SmallerScaleDivides(a: FixedDecimal, b: FixedDecimal)
    requires a.scale < b.scale && SameValue(a, b)
    ensures b.units % 10 == 0
  {
    var k := b.scale - a.scale - 1;
    Pow10Sum(k + 1, a.scale);
    assert Pow10(k + 1) == 10 * Pow10(k);
    hide Pow10;
    TenDivides(a.units, b.units, Pow10(k), Pow10(a.scale));
  }

  /** The parse result is the only canonical decimal that denotes the text's value. */
  lemma ParseIsTheCanonicalForm(t: Text, d: FixedDecimal)
    requires Parsed(t).Ok? && IsCanonical(d) && Lex(t).Ok? && Denotes(Lex(t).value, d)
    ensures d == Parsed(t).value
  {
    hide Lex, Parsed, DecimalValue;
    ParseIsExact(t);
    DenotesOnce(Lex(t).value, d, Parsed(t).value);
    CanonicalIsUnique(d, Parsed(t).value);
  }

  lemma DenotesOnce(x: Lexeme, a: FixedDecimal, b: FixedDecimal)
    requires IsDigits(x.digits) && Denotes(x, a) && Denotes(x, b)
    ensures SameValue(a, b)
  {
    hide DecimalValue, Pow10;
    var shift, v := x.exponent - x.fractional, DecimalValue(x.digits);
    if shift >= 0 {
      MulAssoc(v * Pow10(shift), Pow10(a.scale), Pow10(b.scale));
      MulAssoc(v * Pow10(shift), Pow10(b.scale), Pow10(a.scale));
    } else {
      Cancel(a.units, b.units, v, Pow10(-shift), Pow10(a.scale), Pow10(b.scale));
    }
  }

  lemma Cancel(a: nat, b: nat, v: nat, k: nat, p: nat, q: nat)
    requires k > 0 && a * k == v * p && b * k == v * q
    ensures a * q == b * p
  {
    calc {
      (a * q) * k;
      (a * k) * q;
      (v * p) * q;
      (v * q) * p;
      (b * k) * p;
      (b * p) * k;
    }
    if a * q < b * p {
      MulStrict(a * q, b * p, k);
    } else if b * p < a * q {
      MulStrict(b * p, a * q, k);
    }
  }

  // ---- Printing and parsing back ----

  lemma NoExponent(t: Text)
    requires forall i | 0 <= i < |t| :: !IsExponentMark(t[i])
    ensures FindExponent(t) == |t|
  {
  }

  /** Parsing the printed form returns the canonical form of the value, hence the value itself if it is canonical. */
  lemma ParsePrinted(d: FixedDecimal)
    requires Representable(d)
    ensures Parsed(ToText(d)) == Ok(Canonical(d.units, d.scale))
    ensures IsCanonical(d) ==> Parsed(ToText(d)) == Ok(d)
  {
    hide Canonical, DecimalText, Lex, ToText;
    LexPrinted(d);
    if IsCanonical(d) {
      CanonicalFixpoint(d);
    }
  }

  lemma CanonicalFixpoint(d: FixedDecimal)
    requires IsCanonical(d)
    ensures Canonical(d.units, d.scale) == d
  {
  }

  lemma LexPrinted(d: FixedDecimal)
    ensures Lex(ToText(d)).Ok?
    ensures var x := Lex(ToText(d)).value;
            x.fractional == d.scale && x.exponent == 0 && DecimalValue(x.digits) == d.units
  {
    hide DecimalValue, Lex, ToText, IsDigits;
    var padded := PrintedDigits(d);
    var cut := |padded| - d.scale;
    var whole, fraction := padded[..cut], padded[cut..];
    DigitParts(padded, cut);
    assert padded == whole + fraction;
    LexParts(whole, fraction, ToText(d));
  }

  /** The digits that are printed, padded so that one stands before the point. */
  lemma PrintedDigits(d: FixedDecimal) returns (padded: Text)
    ensures IsDigits(padded) && |padded| > d.scale && DecimalValue(padded) == d.units
    ensures var cut := |padded| - d.scale;
            ToText(d) == if padded[cut..] == [] then padded[..cut] else padded[..cut] + [DOT] + padded[cut..]
  {
    hide DecimalText, DecimalValue, Pow10;
    var digits := DecimalText(d.units);
    if d.scale > 0 && |digits| <= d.scale {
      var pad := d.scale + 1 - |digits|;
      padded := Zeros(pad) + digits;
      DecimalConcat(Zeros(pad), digits);
      ZerosValue(pad);
    } else {
      padded := digits;
      assert padded[..|padded|] == padded;
    }
  }

  lemma DigitParts(t: Text, cut: nat)
    requires IsDigits(t) && cut <= |t|
    ensures IsDigits(t[..cut]) && IsDigits(t[cut..])
  {
  }

  lemma LexParts(whole: Text, fraction: Text, t: Text)
    requires IsDigits(whole) && IsDigits(fraction) && whole != []
    requires t == if fraction == [] then whole else whole + [DOT] + fraction
    ensures Lex(t) == Ok(Lexeme(whole + fraction, |fraction|, 0))
  {
    hide DecimalValue, Find, FindExponent, ExponentValue;
    assert t[|whole|..] == (if fraction == [] then [] else [DOT] + fraction) && t[..|whole|] == whole;
    assert forall i | 0 <= i < |whole| :: t[i] == whole[i];
    assert forall i | |whole| < i < |t| :: t[i] == fraction[i - |whole| - 1];
    assert forall i | 0 <= i < |t| :: IsDigit(t[i]) || t[i] == DOT;
    NoExponent(t);
    if fraction != [] {
      assert t[|whole|] == DOT;
    }
    assert Find(t, DOT) == |whole|;
    assert t[..|t|] == t && IntegerPart(t) == whole && FractionPart(t) == fraction;
  }
}
