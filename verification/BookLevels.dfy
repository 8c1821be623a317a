/** Decoding one side of an order book: sort the levels, merge equal prices, refuse overflow. */
module BookLevels {
  import opened Foundations
  import opened Numerals
  import opened FixedDecimals

  datatype PriceLevel = PriceLevel(price: Price, quantity: FixedDecimal)

  /** A level as `convert_level` leaves it, apart from the positive-quantity check. */
  predicate Decoded(l: PriceLevel, precision: nat) {
    l.price.precision == precision && l.price.Valid() && Representable(l.quantity)
  }

  ghost predicate AllDecoded(levels: seq<PriceLevel>, precision: nat) {
    forall i | 0 <= i < |levels| :: Decoded(levels[i], precision)
  }

  /** Strictly or weakly before in the sort direction. */
  predicate Before(a: nat, b: nat, ascending: bool) { if ascending then a < b else a > b }

  predicate NotAfter(a: nat, b: nat, ascending: bool) { if ascending then a <= b else a >= b }

  // ---- Reference: totals per price ----

  /** The largest quantity scale present at a price. */
  function MaxScale(levels: seq<PriceLevel>, ticks: nat): (s: nat)
    ensures forall i | 0 <= i < |levels| && levels[i].price.ticks == ticks :: levels[i].quantity.scale <= s
  {
    if levels == [] then 0
    else
      var rest := MaxScale(levels[..|levels| - 1], ticks);
      var last := levels[|levels| - 1];
      if last.price.ticks == ticks then Max(rest, last.quantity.scale) else rest
  }

  function Contribution(l: PriceLevel, ticks: nat, scale: nat): nat {
    if l.price.ticks == ticks && l.quantity.scale <= scale then l.quantity.units * Pow10(scale - l.quantity.scale) else 0
  }

  /** The exact total quantity at a price, in units of `10^-scale`. */
  function Total(levels: seq<PriceLevel>, ticks: nat, scale: nat): nat {
    if levels == [] then 0
    else Total(levels[..|levels| - 1], ticks, scale) + Contribution(levels[|levels| - 1], ticks, scale)
  }

  function Merged(levels: seq<PriceLevel>, ticks: nat): FixedDecimal {
    FixedDecimal(Total(levels, ticks, MaxScale(levels, ticks)), MaxScale(levels, ticks))
  }

  ghost predicate HasPrice(levels: seq<PriceLevel>, ticks: nat) {
    exists i :: 0 <= i < |levels| && levels[i].price.ticks == ticks
  }

  /** Some price's total does not fit 64 bits at the largest scale present there. */
  ghost predicate Overflows(levels: seq<PriceLevel>) {
    exists i :: 0 <= i < |levels| && Merged(levels, levels[i].price.ticks).units >= TWO_64
  }

  ghost predicate StrictlySorted(levels: seq<PriceLevel>, ascending: bool) {
    forall i, j | 0 <= i < j < |levels| :: Before(levels[i].price.ticks, levels[j].price.ticks, ascending)
  }

  /** The normal form of a book side: strictly monotone prices, exactly the prices present, and at each the exact
      total quantity. */
  ghost predicate IsNormalForm(levels: seq<PriceLevel>, ascending: bool, precision: nat, out: seq<PriceLevel>) {
    && StrictlySorted(out, ascending)
    && (forall i | 0 <= i < |out| ::
          && HasPrice(levels, out[i].price.ticks)
          && out[i] == PriceLevel(Price(out[i].price.ticks, precision), Merged(levels, out[i].price.ticks)))
    && (forall i | 0 <= i < |levels| :: HasPrice(out, levels[i].price.ticks))
  }

  // ---- Sorting ----

  ghost predicate WeaklySorted(levels: seq<PriceLevel>, ascending: bool) {
    forall i, j | 0 <= i < j < |levels| :: NotAfter(levels[i].price.ticks, levels[j].price.ticks, ascending)
  }

  method SortLevels(levels: seq<PriceLevel>, ascending: bool) returns (sorted: seq<PriceLevel>)
    ensures WeaklySorted(sorted, ascending) && multiset(sorted) == multiset(levels)
  {
    sorted := [];
    for i := 0 to |levels|
      invariant WeaklySorted(sorted, ascending) && multiset(sorted) == multiset(levels[..i])
    {
      sorted := InsertLevel(sorted, levels[i], ascending);
      assert levels[..i + 1] == levels[..i] + [levels[i]];
    }
    assert levels[..|levels|] == levels;
  }

  /** Inserts a level behind every level that is not after it. */
  method InsertLevel(sorted: seq<PriceLevel>, l: PriceLevel, ascending: bool) returns (r: seq<PriceLevel>)
    requires WeaklySorted(sorted, ascending)
    ensures WeaklySorted(r, ascending) && multiset(r) == multiset(sorted) + multiset{l}
  {
    var k := |sorted|;
    while k > 0 && Before(l.price.ticks, sorted[k - 1].price.ticks, ascending)
      invariant 0 <= k <= |sorted|
      invariant forall j | k <= j < |sorted| :: Before(l.price.ticks, sorted[j].price.ticks, ascending)
    {
      k := k - 1;
    }
    InsertedIsSorted(sorted, l, k, ascending);
    assert sorted == sorted[..k] + sorted[k..];
    r := sorted[..k] + [l] + sorted[k..];
  }

  lemma InsertedIsSorted(sorted: seq<PriceLevel>, l: PriceLevel, k: nat, ascending: bool)
    requires WeaklySorted(sorted, ascending) && k <= |sorted|
    requires k > 0 ==> NotAfter(sorted[k - 1].price.ticks, l.price.ticks, ascending)
    requires forall j | k <= j < |sorted| :: Before(l.price.ticks, sorted[j].price.ticks, ascending)
    ensures WeaklySorted(sorted[..k] + [l] + sorted[k..], ascending)
  {
    var r := sorted[..k] + [l] + sorted[k..];
    forall i, j | 0 <= i < j < |r|
      ensures NotAfter(r[i].price.ticks, r[j].price.ticks, ascending)
    {
      if i < k && j == k && i < k - 1 {
        assert NotAfter(sorted[i].price.ticks, sorted[k - 1].price.ticks, ascending);
      }
    }
  }

  // ---- Merging ----

  lemma NothingToMerge(ascending: bool, precision: nat)
    ensures IsNormalForm([], ascending, precision, []) && !Overflows([])
  {
  }

  /** The next level of a sorted list, if its price is new, lies beyond all prices so far. */
  lemma BeyondAll(levels: seq<PriceLevel>, i: nat, ascending: bool, precision: nat, out: seq<PriceLevel>)
    requires i < |levels| && WeaklySorted(levels, ascending) && IsNormalForm(levels[..i], ascending, precision, out)
    requires out != [] ==> i > 0 && out[|out| - 1].price.ticks == levels[i - 1].price.ticks != levels[i].price.ticks
    ensures forall k | 0 <= k < |out| :: Before(out[k].price.ticks, levels[i].price.ticks, ascending)
  {
    hide Merged;
    forall k | 0 <= k < |out|
      ensures Before(out[k].price.ticks, levels[i].price.ticks, ascending)
    {
      assert NotAfter(levels[i - 1].price.ticks, levels[i].price.ticks, ascending);
      if k < |out| - 1 {
        assert Before(out[k].price.ticks, out[|out| - 1].price.ticks, ascending);
      }
    }
  }

  lemma OneOverflows(levels: seq<PriceLevel>, l: PriceLevel)
    requires Merged(levels + [l], l.price.ticks).units >= TWO_64
    ensures Overflows(levels + [l])
  {
    hide Merged;
    assert (levels + [l])[|levels|] == l;
  }

  lemma LastTotal(levels: seq<PriceLevel>, ascending: bool, precision: nat, out: seq<PriceLevel>)
    requires IsNormalForm(levels, ascending, precision, out) && out != [] && !Overflows(levels)
    ensures var ticks := out[|out| - 1].price.ticks;
            && out[|out| - 1] == PriceLevel(Price(ticks, precision), Merged(levels, ticks))
            && Merged(levels, ticks).units < TWO_64
  {
    hide Merged;
    var ticks := out[|out| - 1].price.ticks;
    assert HasPrice(levels, ticks);
    var j :| 0 <= j < |levels| && levels[j].price.ticks == ticks;
  }

  /** The loop over the sorted levels: equal neighbours are added at the larger scale, with 64-bit checks. */
  method MergeSorted(levels: seq<PriceLevel>, ascending: bool, precision: nat) returns (r: Result<seq<PriceLevel>>)
    requires AllDecoded(levels, precision) && WeaklySorted(levels, ascending)
    ensures r.Ok? <==> !Overflows(levels)
    ensures r.Err? ==> r.code == InvalidQuantity
    ensures r.Ok? ==> IsNormalForm(levels, ascending, precision, r.value)
  {
    hide Merged, Pow10, IsNormalForm, Overflows, WeaklySorted, Decoded, RescaleExact;
    var normalized := [];
    NothingToMerge(ascending, precision);
    assert levels[..0] == [];
    for i := 0 to |levels|
      invariant IsNormalForm(levels[..i], ascending, precision, normalized)
      invariant normalized == [] <==> i == 0
      invariant i > 0 ==> normalized[|normalized| - 1].price.ticks == levels[i - 1].price.ticks
      invariant !Overflows(levels[..i])
    {
      var level := levels[i];
      assert levels[..i + 1] == levels[..i] + [level];
      if normalized == [] || normalized[|normalized| - 1].price.ticks != level.price.ticks {
        BeyondAll(levels, i, ascending, precision, normalized);
        PushKeepsNormalForm(levels[..i], level, ascending, precision, normalized);
        normalized := normalized + [level];
      } else {
        var back := normalized[|normalized| - 1];
        LastTotal(levels[..i], ascending, precision, normalized);
        var scale := Max(back.quantity.scale, level.quantity.scale);
        MergeArithmetic(levels[..i], level, precision);
        var left := RescaleExact(back.quantity, scale);
        var right := RescaleExact(level.quantity, scale);
        if left.Err? || right.Err? || right.value.units > TWO_64 - 1 - left.value.units {
          OneOverflows(levels[..i], level);
          PrefixOverflows(levels, i + 1);
          return Err(InvalidQuantity);
        }
        ReplaceKeepsNormalForm(levels[..i], level, ascending, precision, normalized);
        normalized := normalized[..|normalized| - 1]
                      + [back.(quantity := FixedDecimal(left.value.units + right.value.units, scale))];
      }
    }
    assert levels[..|levels|] == levels;
    r := Ok(normalized);
  }

  /** `convert_levels`, from decoded wire levels on. */
  method ConvertLevels(levels: seq<PriceLevel>, ascending: bool, precision: nat, limit: nat)
    returns (r: Result<seq<PriceLevel>>)
    requires AllDecoded(levels, precision)
    ensures |levels| > limit ==> r == Err(TooManyItems)
    ensures |levels| <= limit ==>
              (r.Ok? <==> (forall i | 0 <= i < |levels| :: levels[i].quantity.units > 0) && !Overflows(levels))
    ensures |levels| <= limit && r.Err? ==> r.code == InvalidQuantity
    ensures r.Ok? ==> IsNormalForm(levels, ascending, precision, r.value)
  {
    hide MaxScale, Merged, Total;
    if |levels| > limit {
      return Err(TooManyItems);
    }
    for i := 0 to |levels|
      invariant forall j | 0 <= j < i :: levels[j].quantity.units > 0
    {
      if levels[i].quantity.units == 0 {
        return Err(InvalidQuantity);
      }
    }
    var sorted := SortLevels(levels, ascending);
    SameMembers(levels, sorted);
    assert forall i | 0 <= i < |sorted| :: sorted[i] in levels;
    r := MergeSorted(sorted, ascending, precision);
    PermutationKeepsNormalForm(sorted, levels);
  }

  // ---- Totals under appending ----

  /** A total at a finer scale is the same total in smaller units. */
  lemma {:induction false} TotalRescale(levels: seq<PriceLevel>, ticks: nat, scale: nat, k: nat)
    requires MaxScale(levels, ticks) <= scale
    ensures Total(levels, ticks, scale + k) == Total(levels, ticks, scale) * Pow10(k)
  {
    hide Pow10;
    if levels != [] {
      var front, last := levels[..|levels| - 1], levels[|levels| - 1];
      TotalRescale(front, ticks, scale, k);
      if last.price.ticks == ticks {
        Pow10Sum(scale - last.quantity.scale, k);
        MulAssoc(last.quantity.units, Pow10(scale - last.quantity.scale), Pow10(k));
      }
      SumTimes(Total(front, ticks, scale), Contribution(last, ticks, scale), Pow10(k));
    }
  }

  lemma SumTimes(a: int, b: int, c: int)
    ensures (a + b) * c == a * c + b * c
  {
  }

  lemma {:induction false} AbsentPrice(levels: seq<PriceLevel>, ticks: nat, scale: nat)
    requires !HasPrice(levels, ticks)
    ensures MaxScale(levels, ticks) == 0 && Total(levels, ticks, scale) == 0
  {
    if levels != [] {
      var front, last := levels[..|levels| - 1], levels[|levels| - 1];
      assert levels == front + [last];
      HasPriceAppend(front, last, ticks);
      AbsentPrice(front, ticks, scale);
    }
  }

  lemma MergedElsewhere(levels: seq<PriceLevel>, l: PriceLevel, ticks: nat)
    requires l.price.ticks != ticks
    ensures Merged(levels + [l], ticks) == Merged(levels, ticks)
  {
    assert (levels + [l])[..|levels|] == levels;
  }

  /** Appending a level adds its quantity at the larger of the two scales. */
  lemma MergedAppend(levels: seq<PriceLevel>, l: PriceLevel)
    ensures var t, m := l.price.ticks, Merged(levels, l.price.ticks);
            var scale := Max(m.scale, l.quantity.scale);
            && Merged(levels + [l], t).scale == scale
            && Merged(levels + [l], t).units
               == m.units * Pow10(scale - m.scale) + l.quantity.units * Pow10(scale - l.quantity.scale)
  {
    hide Pow10;
    var t, m := l.price.ticks, Merged(levels, l.price.ticks);
    var scale := Max(m.scale, l.quantity.scale);
    assert (levels + [l])[..|levels|] == levels;
    TotalRescale(levels, t, m.scale, scale - m.scale);
  }

  lemma MergedGrows(levels: seq<PriceLevel>, l: PriceLevel, ticks: nat)
    ensures Merged(levels + [l], ticks).units >= Merged(levels, ticks).units
  {
    hide Merged, Pow10;
    if l.price.ticks == ticks {
      var m := Merged(levels, ticks);
      MergedAppend(levels, l);
      MulMonotone(1, Pow10(Max(m.scale, l.quantity.scale) - m.scale), m.units);
    } else {
      MergedElsewhere(levels, l, ticks);
    }
  }

  /** An overflow in a prefix stays an overflow of the whole. */
  lemma {:induction false} PrefixOverflows(levels: seq<PriceLevel>, k: nat)
    requires k <= |levels| && Overflows(levels[..k])
    ensures Overflows(levels)
    decreases |levels| - k
  {
    hide Merged;
    if k == |levels| {
      assert levels[..k] == levels;
    } else {
      var i :| 0 <= i < k && Merged(levels[..k], levels[..k][i].price.ticks).units >= TWO_64;
      assert levels[..k + 1] == levels[..k] + [levels[k]];
      MergedGrows(levels[..k], levels[k], levels[i].price.ticks);
      assert levels[..k + 1][i] == levels[i];
      PrefixOverflows(levels, k + 1);
    }
  }

  lemma {:induction false} MaxScaleBound(levels: seq<PriceLevel>, ticks: nat, precision: nat)
    requires AllDecoded(levels, precision)
    ensures MaxScale(levels, ticks) <= MAX_SCALE
  {
    if levels != [] {
      MaxScaleBound(levels[..|levels| - 1], ticks, precision);
    }
  }

  /** Rescaling to a larger scale is exact and fails only on 64-bit overflow. */
  lemma RescaleGrows(d: FixedDecimal, scale: nat)
    requires d.units < TWO_64 && d.scale <= scale <= MAX_SCALE
    ensures var grown := d.units * Pow10(scale - d.scale);
            RescaleExact(d, scale) == if grown < TWO_64 then Ok(FixedDecimal(grown, scale)) else Err(NumericOverflow)
  {
    hide Pow10;
    if scale == d.scale {
      assert Pow10(0) == 1 by {
        PowZero();
      }
    }
  }

  lemma PowZero()
    ensures Pow10(0) == 1
  {
  }

  /** The checked additions of `convert_levels` fail exactly when the exact sum does not fit 64 bits. */
  lemma MergeArithmetic(levels: seq<PriceLevel>, l: PriceLevel, precision: nat)
    requires AllDecoded(levels, precision) && Decoded(l, precision)
    requires Merged(levels, l.price.ticks).units < TWO_64
    ensures var m, sum := Merged(levels, l.price.ticks), Merged(levels + [l], l.price.ticks);
            var scale := Max(m.scale, l.quantity.scale);
            var left, right := RescaleExact(m, scale), RescaleExact(l.quantity, scale);
            && ((left.Err? || right.Err? || right.value.units > TWO_64 - 1 - left.value.units) <==> sum.units >= TWO_64)
            && (left.Ok? && right.Ok? ==> sum == FixedDecimal(left.value.units + right.value.units, scale))
  {
    hide Pow10, RescaleExact, MaxScale, Total;
    var m := Merged(levels, l.price.ticks);
    var scale := Max(m.scale, l.quantity.scale);
    MergedAppend(levels, l);
    MaxScaleBound(levels, l.price.ticks, precision);
    RescaleGrows(m, scale);
    RescaleGrows(l.quantity, scale);
  }

  // ---- The merge loop keeps the normal form ----

  lemma HasPriceAppend(levels: seq<PriceLevel>, l: PriceLevel, ticks: nat)
    ensures HasPrice(levels + [l], ticks) <==> HasPrice(levels, ticks) || l.price.ticks == ticks
  {
    var all := levels + [l];
    if HasPrice(levels, ticks) {
      var i :| 0 <= i < |levels| && levels[i].price.ticks == ticks;
      assert all[i].price.ticks == ticks;
    } else if l.price.ticks == ticks {
      assert all[|levels|].price.ticks == ticks;
    }
  }

  /** A level with a new price, beyond all earlier ones, is appended as it is. */
  lemma PushKeepsNormalForm(levels: seq<PriceLevel>, l: PriceLevel, ascending: bool, precision: nat, out: seq<PriceLevel>)
    requires IsNormalForm(levels, ascending, precision, out) && Decoded(l, precision) && !Overflows(levels)
    requires forall i | 0 <= i < |out| :: Before(out[i].price.ticks, l.price.ticks, ascending)
    ensures IsNormalForm(levels + [l], ascending, precision, out + [l]) && !Overflows(levels + [l])
  {
    hide Merged, Pow10, MaxScale, Total;
    var all, out' := levels + [l], out + [l];
    assert !HasPrice(out, l.price.ticks);
    SamePrices(levels, ascending, precision, out, l.price.ticks);
    NewPrice(levels, l);
    forall i | 0 <= i < |out'|
      ensures HasPrice(all, out'[i].price.ticks)
      ensures out'[i] == PriceLevel(Price(out'[i].price.ticks, precision), Merged(all, out'[i].price.ticks))
    {
      HasPriceAppend(levels, l, out'[i].price.ticks);
      if i < |out| {
        MergedElsewhere(levels, l, out[i].price.ticks);
      }
    }
    forall i | 0 <= i < |all|
      ensures HasPrice(out', all[i].price.ticks) && Merged(all, all[i].price.ticks).units < TWO_64
    {
      HasPriceAppend(out, l, all[i].price.ticks);
      if i < |levels| {
        assert all[i] == levels[i] && HasPrice(levels, levels[i].price.ticks);
        MergedElsewhere(levels, l, levels[i].price.ticks);
      }
    }
  }

  lemma NewPrice(levels: seq<PriceLevel>, l: PriceLevel)
    requires !HasPrice(levels, l.price.ticks)
    ensures Merged(levels + [l], l.price.ticks) == l.quantity
  {
    hide Pow10;
    AbsentPrice(levels, l.price.ticks, 0);
    MergedAppend(levels, l);
    PowZero();
  }

  /** A level with the last price replaces the last total. */
  lemma ReplaceKeepsNormalForm(levels: seq<PriceLevel>, l: PriceLevel, ascending: bool, precision: nat,
                               out: seq<PriceLevel>)
    requires IsNormalForm(levels, ascending, precision, out) && Decoded(l, precision) && !Overflows(levels)
    requires out != [] && out[|out| - 1].price.ticks == l.price.ticks
    requires Merged(levels + [l], l.price.ticks).units < TWO_64
    ensures var last := PriceLevel(Price(l.price.ticks, precision), Merged(levels + [l], l.price.ticks));
            IsNormalForm(levels + [l], ascending, precision, out[..|out| - 1] + [last])
    ensures !Overflows(levels + [l])
  {
    hide Merged, Pow10, MaxScale, Total;
    var all := levels + [l];
    var last := PriceLevel(Price(l.price.ticks, precision), Merged(all, l.price.ticks));
    var out' := out[..|out| - 1] + [last];
    forall i | 0 <= i < |out'|
      ensures out'[i].price.ticks == out[i].price.ticks && HasPrice(all, out'[i].price.ticks)
      ensures out'[i] == PriceLevel(Price(out'[i].price.ticks, precision), Merged(all, out'[i].price.ticks))
    {
      HasPriceAppend(levels, l, out[i].price.ticks);
      if i < |out| - 1 {
        assert Before(out[i].price.ticks, out[|out| - 1].price.ticks, ascending);
        MergedElsewhere(levels, l, out[i].price.ticks);
      }
    }
    forall i | 0 <= i < |all|
      ensures HasPrice(out', all[i].price.ticks) && Merged(all, all[i].price.ticks).units < TWO_64
    {
      if all[i].price.ticks == l.price.ticks {
        assert out'[|out| - 1].price.ticks == all[i].price.ticks;
      } else {
        assert all[i] == levels[i];
        var j :| 0 <= j < |out| && out[j].price.ticks == levels[i].price.ticks;
        assert out'[j].price.ticks == all[i].price.ticks;
        MergedElsewhere(levels, l, levels[i].price.ticks);
      }
    }
  }

  // ---- The normal form is unique and order-independent ----

  lemma {:induction false} NormalFormIsUnique(levels: seq<PriceLevel>, ascending: bool, precision: nat,
                                              a: seq<PriceLevel>, b: seq<PriceLevel>)
    requires IsNormalForm(levels, ascending, precision, a) && IsNormalForm(levels, ascending, precision, b)
    ensures a == b
  {
    hide Merged;
    forall t
      ensures HasPrice(a, t) <==> HasPrice(b, t)
    {
      SamePrices(levels, ascending, precision, a, t);
      SamePrices(levels, ascending, precision, b, t);
    }
    SortedPricesAgree(a, b, ascending);
    assert forall i | 0 <= i < |a| :: a[i] == b[i];
  }

  lemma SamePrices(levels: seq<PriceLevel>, ascending: bool, precision: nat, out: seq<PriceLevel>, t: nat)
    requires IsNormalForm(levels, ascending, precision, out)
    ensures HasPrice(out, t) <==> HasPrice(levels, t)
  {
    hide Merged;
    if HasPrice(levels, t) {
      var i :| 0 <= i < |levels| && levels[i].price.ticks == t;
    }
    if HasPrice(out, t) {
      var i :| 0 <= i < |out| && out[i].price.ticks == t;
    }
  }

  /** Two strictly monotone listings of the same prices agree position by position. */
  lemma {:induction false} SortedPricesAgree(a: seq<PriceLevel>, b: seq<PriceLevel>, ascending: bool)
    requires StrictlySorted(a, ascending) && StrictlySorted(b, ascending)
    requires forall t :: HasPrice(a, t) <==> HasPrice(b, t)
    ensures |a| == |b| && forall i | 0 <= i < |a| :: a[i].price.ticks == b[i].price.ticks
    decreases |a|
  {
    assert b != [] ==> HasPrice(b, b[0].price.ticks);
    if a != [] {
      assert HasPrice(a, a[0].price.ticks);
      var j :| 0 <= j < |b| && b[j].price.ticks == a[0].price.ticks;
      var k :| 0 <= k < |a| && a[k].price.ticks == b[0].price.ticks;
      assert a[0].price.ticks == b[0].price.ticks;
      forall t
        ensures HasPrice(a[1..], t) <==> HasPrice(b[1..], t)
      {
        TailPrices(a, ascending, t);
        TailPrices(b, ascending, t);
      }
      SortedPricesAgree(a[1..], b[1..], ascending);
    }
  }

  lemma TailPrices(a: seq<PriceLevel>, ascending: bool, t: nat)
    requires StrictlySorted(a, ascending) && a != []
    ensures HasPrice(a[1..], t) <==> HasPrice(a, t) && t != a[0].price.ticks
  {
    if HasPrice(a[1..], t) {
      var i :| 0 <= i < |a[1..]| && a[1..][i].price.ticks == t;
      assert a[i + 1].price.ticks == t;
    }
    if HasPrice(a, t) && t != a[0].price.ticks {
      var i :| 0 <= i < |a| && a[i].price.ticks == t;
      assert a[1..][i - 1].price.ticks == t;
    }
  }

  lemma SameMembers(a: seq<PriceLevel>, b: seq<PriceLevel>)
    requires multiset(a) == multiset(b)
    ensures forall x :: x in a <==> x in b
    ensures forall t :: HasPrice(a, t) <==> HasPrice(b, t)
  {
    forall x
      ensures x in a <==> x in b
    {
      assert x in a <==> x in multiset(a);
      assert x in b <==> x in multiset(b);
    }
    forall t
      ensures HasPrice(a, t) <==> HasPrice(b, t)
    {
      if HasPrice(a, t) {
        var i :| 0 <= i < |a| && a[i].price.ticks == t;
        assert a[i] in b;
      }
      if HasPrice(b, t) {
        var i :| 0 <= i < |b| && b[i].price.ticks == t;
        assert b[i] in a;
      }
    }
  }

  lemma {:induction false} MaxScaleReached(levels: seq<PriceLevel>, ticks: nat)
    ensures MaxScale(levels, ticks) == 0
            || exists x :: x in levels && x.price.ticks == ticks && x.quantity.scale == MaxScale(levels, ticks)
  {
    if levels != [] {
      var front, last := levels[..|levels| - 1], levels[|levels| - 1];
      MaxScaleReached(front, ticks);
      assert last in levels && forall x | x in front :: x in levels;
    }
  }

  lemma MaxScaleCompare(a: seq<PriceLevel>, b: seq<PriceLevel>, ticks: nat)
    requires forall x | x in a :: x in b
    ensures MaxScale(a, ticks) <= MaxScale(b, ticks)
  {
    MaxScaleReached(a, ticks);
    if MaxScale(a, ticks) > 0 {
      var x :| x in a && x.price.ticks == ticks && x.quantity.scale == MaxScale(a, ticks);
      var j :| 0 <= j < |b| && b[j] == x;
    }
  }

  lemma {:induction false} TotalConcat(a: seq<PriceLevel>, b: seq<PriceLevel>, ticks: nat, scale: nat)
    ensures Total(a + b, ticks, scale) == Total(a, ticks, scale) + Total(b, ticks, scale)
  {
    hide Contribution;
    if b == [] {
      assert a + b == a;
    } else {
      assert (a + b)[..|a + b| - 1] == a + b[..|b| - 1];
      TotalConcat(a, b[..|b| - 1], ticks, scale);
    }
  }

  lemma WithoutOne(b: seq<PriceLevel>, i: nat)
    requires i < |b|
    ensures multiset(b[..i] + b[i + 1..]) == multiset(b) - multiset{b[i]}
  {
    assert b == b[..i] + ([b[i]] + b[i + 1..]);
  }

  lemma TotalWithout(b: seq<PriceLevel>, i: nat, ticks: nat, scale: nat)
    requires i < |b|
    ensures Total(b, ticks, scale) == Total(b[..i] + b[i + 1..], ticks, scale) + Total([b[i]], ticks, scale)
  {
    hide Total;
    assert b == b[..i] + ([b[i]] + b[i + 1..]);
    TotalConcat(b[..i], b[i + 1..], ticks, scale);
    TotalConcat(b[..i], [b[i]] + b[i + 1..], ticks, scale);
    TotalConcat([b[i]], b[i + 1..], ticks, scale);
  }

  /** A total depends only on which levels there are, not on their order. */
  lemma {:induction false} TotalPermutes(a: seq<PriceLevel>, b: seq<PriceLevel>, ticks: nat, scale: nat)
    requires multiset(a) == multiset(b)
    ensures Total(a, ticks, scale) == Total(b, ticks, scale)
    decreases |a|
  {
    hide Contribution, Total;
    if a == [] {
      assert |multiset(b)| == 0;
    } else {
      var k := |a| - 1;
      assert a[k] in multiset(b);
      var i :| 0 <= i < |b| && b[i] == a[k];
      WithoutOne(a, k);
      WithoutOne(b, i);
      assert a[..k] + a[k + 1..] == a[..k];
      TotalPermutes(a[..k], b[..i] + b[i + 1..], ticks, scale);
      TotalWithout(a, k, ticks, scale);
      TotalWithout(b, i, ticks, scale);
    }
  }

  lemma MergedPermutes(a: seq<PriceLevel>, b: seq<PriceLevel>, ticks: nat)
    requires multiset(a) == multiset(b)
    ensures Merged(a, ticks) == Merged(b, ticks)
  {
    hide Total, MaxScale;
    SameMembers(a, b);
    MaxScaleCompare(a, b, ticks);
    MaxScaleCompare(b, a, ticks);
    TotalPermutes(a, b, ticks, MaxScale(a, ticks));
  }

  /** Any permutation of the levels has the same normal forms and overflows in the same cases. */
  lemma PermutationKeepsNormalForm(a: seq<PriceLevel>, b: seq<PriceLevel>)
    requires multiset(a) == multiset(b)
    ensures Overflows(a) <==> Overflows(b)
    ensures forall ascending, precision, out ::
              IsNormalForm(a, ascending, precision, out) <==> IsNormalForm(b, ascending, precision, out)
  {
    hide Merged;
    SameMembers(a, b);
    forall t
      ensures Merged(a, t) == Merged(b, t)
    {
      MergedPermutes(a, b, t);
    }
    if Overflows(a) {
      OverflowsPermute(a, b);
    }
    if Overflows(b) {
      OverflowsPermute(b, a);
    }
    forall ascending, precision, out
      ensures IsNormalForm(a, ascending, precision, out) <==> IsNormalForm(b, ascending, precision, out)
    {
      assert forall i | 0 <= i < |a| :: a[i] in b;
      assert forall i | 0 <= i < |b| :: b[i] in a;
    }
  }

  lemma OverflowsPermute(a: seq<PriceLevel>, b: seq<PriceLevel>)
    requires (forall x | x in a :: x in b) && (forall t :: Merged(a, t) == Merged(b, t)) && Overflows(a)
    ensures Overflows(b)
  {
    hide Merged;
    var i :| 0 <= i < |a| && Merged(a, a[i].price.ticks).units >= TWO_64;
    assert a[i] in b;
  }

  /** Decoding is order-independent: permuted inputs overflow in the same cases and otherwise give the same result. */
  lemma NormalisationIsOrderIndependent(a: seq<PriceLevel>, b: seq<PriceLevel>, ascending: bool, precision: nat)
    requires multiset(a) == multiset(b)
    ensures Overflows(a) <==> Overflows(b)
    ensures forall outA, outB | IsNormalForm(a, ascending, precision, outA) && IsNormalForm(b, ascending, precision, outB) ::
              outA == outB
  {
    hide IsNormalForm, Overflows;
    PermutationKeepsNormalForm(a, b);
    forall outA, outB | IsNormalForm(a, ascending, precision, outA) && IsNormalForm(b, ascending, precision, outB)
      ensures outA == outB
    {
      NormalFormIsUnique(a, ascending, precision, outA, outB);
    }
  }
}
