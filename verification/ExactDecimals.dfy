/** `ExactDecimal` keeps the text of an API amount; `compare` orders two of them digit by digit.
    The numeric meaning of a text is the fraction `Numerator / 10^Scale`. */
module ExactDecimals {
  import opened Foundations
  import opened Numerals

  const MINUS: byte := 45
  const DOT: byte := 46

  /** The first index holding `c`, or the length when there is none. */
  function Find(t: Text, c: byte): (i: nat)
    ensures i <= |t|
    ensures i < |t| ==> t[i] == c
    ensures forall j | 0 <= j < i :: t[j] != c
  {
    if t == [] then 0 else if t[0] == c then 0 else 1 + Find(t[1..], c)
  }

  function Unsigned(t: Text): Text {
    if t != [] && t[0] == MINUS then t[1..] else t
  }

  function IntegerPart(t: Text): Text { t[..Find(t, DOT)] }

  function FractionPart(t: Text): Text {
    var dot := Find(t, DOT);
    if dot == |t| then [] else t[dot + 1..]
  }

  /** What `ExactDecimal::parse` accepts: an optional minus, digits with at most one point, at
      least one digit, and no point at the end. */
  predicate PlainDecimal(t: Text) {
    var body := Unsigned(t);
    && IsDigits(IntegerPart(body))
    && IsDigits(FractionPart(body))
    && body != []
    && body[|body| - 1] != DOT
  }

  type ExactDecimal = t: Text | PlainDecimal(t) witness [48]

  const ZERO: ExactDecimal := [48]

  /** `ExactDecimal::parse`: one pass over the text with a digit counter and a point flag. */
  method Parse(text: Text) returns (r: Result<Text>)
    ensures r == if PlainDecimal(text) then Ok(text) else Err(InvalidDecimal)
  {
    hide PlainDecimal, Find;
    if text == [] {
      EmptyIsRefused();
      return Err(InvalidDecimal);
    }
    ghost var body := Unsigned(text);
    ghost var point := Find(body, DOT);
    var start := if text[0] == MINUS then 1 else 0;
    var position := start;
    PlainMeans(text);
    if position == |text| {
      return Err(InvalidDecimal);
    }
    var dot, digitCount := false, 0;
    assert body == text[start..];
    while position < |text|
      invariant start <= position <= |text|
      invariant dot <==> point < position - start
      invariant digitCount == position - start - if dot then 1 else 0
      invariant forall j | 0 <= j < position - start && j != point :: IsDigit(body[j])
    {
      assert text[position] == body[position - start];
      if IsDigit(text[position]) {
        digitCount := digitCount + 1;
      } else if text[position] == DOT && !dot {
        dot := true;
      } else {
        RejectedAt(body, position - start);
        return Err(InvalidDecimal);
      }
      position := position + 1;
    }
    PartsAreDigits(body);
    assert text[|text| - 1] == body[|body| - 1];
    if digitCount == 0 || text[|text| - 1] == DOT {
      return Err(InvalidDecimal);
    }
    r := Ok(text);
  }

  lemma EmptyIsRefused()
    ensures !PlainDecimal([])
  {
  }

  lemma PlainMeans(text: Text)
    ensures var body := Unsigned(text);
            PlainDecimal(text) <==>
              && IsDigits(IntegerPart(body)) && IsDigits(FractionPart(body)) && body != [] && body[|body| - 1] != DOT
  {
    hide Find;
  }

  /** Digits everywhere but at the first point make digits of both parts. */
  lemma PartsAreDigits(body: Text)
    requires forall j | 0 <= j < |body| && j != Find(body, DOT) :: IsDigit(body[j])
    ensures IsDigits(IntegerPart(body)) && IsDigits(FractionPart(body))
  {
    hide Find;
    var point := Find(body, DOT);
    assert forall j | 0 <= j < |FractionPart(body)| :: FractionPart(body)[j] == body[point + 1 + j];
  }

  /** A byte that is neither a digit nor the first point spoils the whole text. */
  lemma RejectedAt(body: Text, k: nat)
    requires k < |body| && !IsDigit(body[k]) && k != Find(body, DOT)
    ensures !IsDigits(IntegerPart(body)) || !IsDigits(FractionPart(body))
  {
    hide Find;
    var dot := Find(body, DOT);
    if k < dot {
      assert IntegerPart(body)[k] == body[k];
    } else {
      assert FractionPart(body)[k - dot - 1] == body[k];
    }
  }

  // ---- Numeric meaning ----

  function Scale(t: ExactDecimal): nat { |FractionPart(Unsigned(t))| }

  function Magnitude(t: ExactDecimal): (m: int)
    ensures m >= 0
  {
    var body := Unsigned(t);
    DecimalValue(IntegerPart(body) + FractionPart(body))
  }

  function Numerator(t: ExactDecimal): int {
    if t[0] == MINUS then -Magnitude(t) else Magnitude(t)
  }

  /** The sign of `a - b` as rational numbers. */
  function NumericOrder(a: ExactDecimal, b: ExactDecimal): int {
    Sign(Numerator(a) * Pow10(Scale(b)) - Numerator(b) * Pow10(Scale(a)))
  }

  // ---- The digit-wise comparison ----

  datatype NormalDecimal = NormalDecimal(negative: bool, integer: Text, fraction: Text)

  function StripLeading(t: Text): (r: Text)
    requires IsDigits(t)
    ensures IsDigits(r) && DecimalValue(r) == DecimalValue(t)
    ensures r != [] ==> r[0] != 48
  {
    if t == [] || t[0] != 48 then t
    else
      DecimalFront(t);
      StripLeading(t[1..])
  }

  function StripTrailing(t: Text): (r: Text)
    requires IsDigits(t)
    ensures IsDigits(r) && |r| <= |t| && t == Padded(r, |t|)
  {
    if t == [] || t[|t| - 1] != 48 then t else StripTrailing(t[..|t| - 1])
  }

  function Padded(t: Text, width: nat): Text
    requires |t| <= width
  {
    t + Zeros(width - |t|)
  }

  /** `normalize`. */
  function Normal(t: ExactDecimal): (n: NormalDecimal)
    ensures IsDigits(n.integer) && IsDigits(n.fraction) && n.integer != []
    ensures n.integer[0] == 48 ==> n.integer == ZERO
  {
    hide Find, StripLeading, StripTrailing, DecimalValue;
    var body := Unsigned(t);
    var stripped := StripLeading(IntegerPart(body));
    var integer := if stripped == [] then ZERO else stripped;
    var fraction := StripTrailing(FractionPart(body));
    NormalDecimal(t[0] == MINUS && !(integer == ZERO && fraction == []), integer, fraction)
  }

  method Normalize(t: ExactDecimal) returns (n: NormalDecimal)
    ensures n == Normal(t)
  {
    hide Find, StripLeading, StripTrailing, DecimalValue, PlainDecimal;
    PlainMeans(t);
    var negative := t[0] == MINUS;
    var body: Text := if negative then t[1..] else t;
    var dot := Find(body, DOT);
    var integer: Text := body[..dot];
    var fraction: Text := if dot != |body| then body[dot + 1..] else [];
    integer := DropLeadingZeros(integer);
    if integer == [] {
      integer := ZERO;
    }
    fraction := DropTrailingZeros(fraction);
    if integer == ZERO && fraction == [] {
      negative := false;
    }
    n := NormalDecimal(negative, integer, fraction);
  }

  method DropLeadingZeros(t: Text) returns (r: Text)
    requires IsDigits(t)
    ensures r == StripLeading(t)
  {
    hide DecimalValue;
    var nonzero := 0;
    assert t[0..] == t;
    while nonzero < |t| && t[nonzero] == 48
      invariant 0 <= nonzero <= |t|
      invariant StripLeading(t) == StripLeading(t[nonzero..])
    {
      assert t[nonzero..][1..] == t[nonzero + 1..];
      nonzero := nonzero + 1;
    }
    r := t[nonzero..];
  }

  method DropTrailingZeros(t: Text) returns (r: Text)
    requires IsDigits(t)
    ensures r == StripTrailing(t)
  {
    r := t;
    while r != [] && r[|r| - 1] == 48
      invariant IsDigits(r)
      invariant StripTrailing(t) == StripTrailing(r)
    {
      r := r[..|r| - 1];
    }
  }

  /** The value of a normalized magnitude in units of `10^-width`. */
  function ScaledMagnitude(n: NormalDecimal, width: nat): nat
    requires IsDigits(n.integer) && IsDigits(n.fraction) && |n.fraction| <= width
  {
    DecimalValue(n.integer) * Pow10(width) + DecimalValue(Padded(n.fraction, width))
  }

  function DigitAt(t: Text, i: nat): byte { if i < |t| then t[i] else 48 }

  /** The order of two fractions, read from digit `i` on. */
  function FractionOrder(a: Text, b: Text, i: nat): int
    decreases Max(|a|, |b|) - i
  {
    if i >= Max(|a|, |b|) then 0
    else if DigitAt(a, i) != DigitAt(b, i) then (if DigitAt(a, i) < DigitAt(b, i) then -1 else 1)
    else FractionOrder(a, b, i + 1)
  }

  /** `magnitude_compare`. */
  function MagnitudeOrder(a: NormalDecimal, b: NormalDecimal): int {
    if |a.integer| != |b.integer| then (if |a.integer| < |b.integer| then -1 else 1)
    else if a.integer != b.integer then (if LexLess(a.integer, b.integer) then -1 else 1)
    else FractionOrder(a.fraction, b.fraction, 0)
  }

  method MagnitudeCompare(a: NormalDecimal, b: NormalDecimal) returns (r: int)
    ensures r == MagnitudeOrder(a, b)
  {
    if |a.integer| != |b.integer| {
      return if |a.integer| < |b.integer| then -1 else 1;
    }
    if a.integer != b.integer {
      return if LexLess(a.integer, b.integer) then -1 else 1;
    }
    var width := Max(|a.fraction|, |b.fraction|);
    for index := 0 to width
      invariant FractionOrder(a.fraction, b.fraction, 0) == FractionOrder(a.fraction, b.fraction, index)
    {
      var l, r' := DigitAt(a.fraction, index), DigitAt(b.fraction, index);
      if l != r' {
        return if l < r' then -1 else 1;
      }
    }
    r := 0;
  }

  /** `compare`. */
  function Compare(a: ExactDecimal, b: ExactDecimal): int {
    NormalOrder(Normal(a), Normal(b))
  }

  function NormalOrder(l: NormalDecimal, r: NormalDecimal): int {
    if l.negative != r.negative then (if l.negative then -1 else 1)
    else if l.negative then -MagnitudeOrder(l, r)
    else MagnitudeOrder(l, r)
  }

  method CompareDecimals(a: ExactDecimal, b: ExactDecimal) returns (r: int)
    ensures r == Compare(a, b)
    ensures r == NumericOrder(a, b)
  {
    var l := Normalize(a);
    var r' := Normalize(b);
    CompareIsNumeric(a, b);
    if l.negative != r'.negative {
      return if l.negative then -1 else 1;
    }
    var magnitude := MagnitudeCompare(l, r');
    r := if l.negative then -magnitude else magnitude;
  }

  predicate IsZero(t: ExactDecimal) { Compare(t, ZERO) == 0 }

  predicate IsNegative(t: ExactDecimal) { Normal(t).negative }

  // ---- Digit-wise comparison is numeric comparison ----

  /** From digit `i` on, the fraction walk orders the remaining digits as numbers. */
  lemma {:induction false} FractionOrderIsNumeric(a: Text, b: Text, i: nat, width: nat)
    requires IsDigits(a) && IsDigits(b) && |a| <= width && |b| <= width && i <= width
    ensures IsDigits(Padded(a, width)[i..]) && IsDigits(Padded(b, width)[i..])
    ensures FractionOrder(a, b, i)
         == Sign(DecimalValue(Padded(a, width)[i..]) - DecimalValue(Padded(b, width)[i..]))
    decreases width - i
  {
    hide DecimalValue, Pow10, Padded;
    var pa, pb := Padded(a, width), Padded(b, width);
    PaddedDigits(a, width);
    PaddedDigits(b, width);
    if i == width {
      assert pa[i..] == pb[i..];
    } else {
      var restA, restB := pa[i + 1..], pb[i + 1..];
      assert pa[i..][1..] == restA && pb[i..][1..] == restB;
      FractionOrderIsNumeric(a, b, i + 1, width);
      DecimalFront(pa[i..]);
      DecimalFront(pb[i..]);
      DecimalBound(restA);
      DecimalBound(restB);
      LeadingDecides(pa[i] - 48, pb[i] - 48, DecimalValue(restA), DecimalValue(restB), Pow10(|restA|));
    }
  }

  lemma PaddedDigits(t: Text, width: nat)
    requires IsDigits(t) && |t| <= width
    ensures |Padded(t, width)| == width && IsDigits(Padded(t, width))
    ensures forall i | 0 <= i < width :: Padded(t, width)[i] == DigitAt(t, i)
  {
  }

  lemma IntegerOrderIsNumeric(a: Text, b: Text)
    requires IsDigits(a) && IsDigits(b) && a != [] && b != []
    requires a[0] == 48 ==> a == ZERO
    requires b[0] == 48 ==> b == ZERO
    ensures |a| < |b| ==> DecimalValue(a) < DecimalValue(b)
    ensures |a| == |b| ==> (LexLess(a, b) <==> DecimalValue(a) < DecimalValue(b))
    ensures a == b <==> DecimalValue(a) == DecimalValue(b)
  {
    if |a| < |b| {
      ShorterIsSmaller(a, b);
    } else if |b| < |a| {
      ShorterIsSmaller(b, a);
    } else {
      LexIsNumeric(a, b);
    }
  }

  lemma ShorterIsSmaller(a: Text, b: Text)
    requires IsDigits(a) && IsDigits(b) && |a| < |b| && b[0] != 48
    ensures DecimalValue(a) < DecimalValue(b)
  {
    DecimalBound(a);
    DecimalLowerBound(b);
    Pow10Sum(|a|, |b| - 1 - |a|);
    MulMonotone(1, Pow10(|b| - 1 - |a|), Pow10(|a|));
  }

  lemma MagnitudeOrderIsNumeric(a: NormalDecimal, b: NormalDecimal, width: nat)
    requires IsDigits(a.integer) && IsDigits(a.fraction) && a.integer != []
    requires IsDigits(b.integer) && IsDigits(b.fraction) && b.integer != []
    requires a.integer[0] == 48 ==> a.integer == ZERO
    requires b.integer[0] == 48 ==> b.integer == ZERO
    requires |a.fraction| <= width && |b.fraction| <= width
    ensures MagnitudeOrder(a, b) == Sign(ScaledMagnitude(a, width) - ScaledMagnitude(b, width))
  {
    hide DecimalValue, Pow10, LexLess, FractionOrder;
    IntegerOrderIsNumeric(a.integer, b.integer);
    IntegerOrderIsNumeric(b.integer, a.integer);
    LexTotal(a.integer, b.integer);
    var fa, fb := Padded(a.fraction, width), Padded(b.fraction, width);
    DecimalBound(fa);
    DecimalBound(fb);
    FractionOrderIsNumeric(a.fraction, b.fraction, 0, width);
    assert fa[0..] == fa && fb[0..] == fb;
    LeadingDecides(DecimalValue(a.integer), DecimalValue(b.integer), DecimalValue(fa), DecimalValue(fb),
                   Pow10(width));
  }

  lemma NormalParts(t: ExactDecimal)
    ensures var body, n := Unsigned(t), Normal(t);
            && IsDigits(IntegerPart(body)) && IsDigits(FractionPart(body)) && Scale(t) == |FractionPart(body)|
            && n.fraction == StripTrailing(FractionPart(body))
            && DecimalValue(n.integer) == DecimalValue(IntegerPart(body))
  {
    hide Find, StripTrailing;
    assert DecimalValue(ZERO) == 0;
  }

  /** Normalizing keeps the magnitude. */
  lemma NormalKeepsMagnitude(t: ExactDecimal, width: nat)
    requires Scale(t) <= width
    ensures ScaledMagnitude(Normal(t), width) == Magnitude(t) * Pow10(width - Scale(t))
  {
    hide PlainDecimal, Normal, DecimalValue, Pow10, IntegerPart, FractionPart, StripTrailing;
    var body := Unsigned(t);
    var i, f, n := IntegerPart(body), FractionPart(body), Normal(t);
    NormalParts(t);
    DecimalConcat(i, f);
    assert Padded(n.fraction, width) == f + Zeros(width - |f|);
    DecimalPad(f, width - |f|);
    Pow10Sum(|f|, width - |f|);
    Distribute(DecimalValue(i), Pow10(|f|), Pow10(width - |f|), DecimalValue(f));
  }

  lemma Distribute(i: int, p: int, r: int, f: int)
    ensures i * (p * r) + f * r == (i * p + f) * r
  {
    MulAssoc(i, p, r);
  }

  lemma ZeroMagnitude(t: ExactDecimal)
    ensures Normal(t).integer == ZERO && Normal(t).fraction == [] <==> Magnitude(t) == 0
  {
    hide PlainDecimal, Normal, DecimalValue, Pow10, IntegerPart, FractionPart, StripTrailing;
    var n, body := Normal(t), Unsigned(t);
    var i, f := IntegerPart(body), FractionPart(body);
    NormalParts(t);
    DecimalConcat(i, f);
    StrippedIsPositive(f);
    IntegerIsZero(n.integer);
    ZeroSum(DecimalValue(i), Pow10(|f|), DecimalValue(f));
  }

  lemma IntegerIsZero(t: Text)
    requires IsDigits(t) && t != [] && (t[0] == 48 ==> t == ZERO)
    ensures t == ZERO <==> DecimalValue(t) == 0
  {
    hide Pow10;
    assert DecimalValue(ZERO) == 0;
    if t != ZERO {
      DecimalLowerBound(t);
    }
  }

  lemma ZeroSum(a: nat, p: nat, b: nat)
    requires p > 0
    ensures a * p + b == 0 <==> a == 0 && b == 0
  {
    if a > 0 {
      MulStrict(0, a, p);
    }
  }

  lemma {:induction false} StrippedIsPositive(t: Text)
    requires IsDigits(t)
    ensures StripTrailing(t) != [] ==> DecimalValue(t) > 0
    ensures StripTrailing(t) == [] ==> DecimalValue(t) == 0
  {
    if t != [] && t[|t| - 1] == 48 {
      StrippedIsPositive(t[..|t| - 1]);
    }
  }

  lemma MagnitudesCompare(a: ExactDecimal, b: ExactDecimal)
    ensures MagnitudeOrder(Normal(a), Normal(b))
         == Sign(Magnitude(a) * Pow10(Scale(b)) - Magnitude(b) * Pow10(Scale(a)))
  {
    hide PlainDecimal, Normal, DecimalValue, Pow10, MagnitudeOrder, ScaledMagnitude, Magnitude, StripTrailing, FractionPart,
         IntegerPart;
    var width := Scale(a) + Scale(b);
    NormalParts(a);
    NormalParts(b);
    NormalKeepsMagnitude(a, width);
    NormalKeepsMagnitude(b, width);
    MagnitudeOrderIsNumeric(Normal(a), Normal(b), width);
  }

  /** The comparison of two accepted texts is the sign of the difference of their values. */
  lemma CompareIsNumeric(a: ExactDecimal, b: ExactDecimal)
    ensures Compare(a, b) == NumericOrder(a, b)
  {
    hide Normal, Magnitude, Scale, MagnitudeOrder, NormalOrder, Pow10, Numerator;
    MagnitudesCompare(a, b);
    NegativeMeans(a);
    NegativeMeans(b);
    SignedOrder(Normal(a), Normal(b), Magnitude(a), Magnitude(b), Pow10(Scale(b)), Pow10(Scale(a)),
                Numerator(a), Numerator(b));
  }

  lemma NegativeMeans(t: ExactDecimal)
    ensures Normal(t).negative <==> Numerator(t) < 0
    ensures Numerator(t) == if Normal(t).negative then -Magnitude(t) else Magnitude(t)
  {
    ZeroMagnitude(t);
  }

  /** Comparing signed magnitudes, with negative zero counted as zero. */
  lemma SignedOrder(l: NormalDecimal, r: NormalDecimal, ma: int, mb: int, p: int, q: int, na: int, nb: int)
    requires ma >= 0 && mb >= 0 && p > 0 && q > 0
    requires na == (if l.negative then -ma else ma) && nb == (if r.negative then -mb else mb)
    requires (l.negative <==> na < 0) && (r.negative <==> nb < 0)
    requires MagnitudeOrder(l, r) == Sign(ma * p - mb * q)
    ensures NormalOrder(l, r) == Sign(na * p - nb * q)
  {
    SignScale(na, p);
    SignScale(nb, q);
    assert (-ma) * p == -(ma * p) && (-mb) * q == -(mb * q);
  }

  /** The tests that guard tracked amounts are sign tests on the numeric value. */
  lemma SignTests(t: ExactDecimal)
    ensures IsZero(t) <==> Numerator(t) == 0
    ensures IsNegative(t) <==> Numerator(t) < 0
  {
    NegativeMeans(t);
    ZeroTest(t);
  }

  lemma ZeroTest(t: ExactDecimal)
    ensures IsZero(t) <==> Numerator(t) == 0
  {
    CompareIsNumeric(t, ZERO);
    ZeroIsZero();
    assert NumericOrder(t, ZERO) == Sign(Numerator(t) * 1 - 0 * Pow10(Scale(t)));
  }

  lemma ZeroIsZero()
    ensures Scale(ZERO) == 0 && Numerator(ZERO) == 0
  {
    assert Unsigned(ZERO) == ZERO && IntegerPart(ZERO) == ZERO && FractionPart(ZERO) == [];
    assert ZERO + FractionPart(ZERO) == ZERO;
  }
}
