/** Normalising the levels of one side of a book loses and adds nothing: at every price, and in all, the same number of
    shares is on offer before and after. */
module BookConservation {
  import opened Numerals
  import opened FixedDecimals
  import opened BookLevels
  import opened Liquidity

  /** The shares on offer at a price, in wei. */
  function WeiAt(levels: seq<PriceLevel>, ticks: nat): nat {
    if levels == [] then 0
    else
      var last := levels[|levels| - 1];
      WeiAt(levels[..|levels| - 1], ticks) + if last.price.ticks == ticks then QuantityWei(last.quantity) else 0
  }

  /** The shares on offer in all. */
  function WeiOf(levels: seq<PriceLevel>): nat {
    if levels == [] then 0 else WeiOf(levels[..|levels| - 1]) + QuantityWei(levels[|levels| - 1].quantity)
  }

  lemma {:induction false} TotalIsWei(levels: seq<PriceLevel>, ticks: nat, precision: nat)
    requires AllDecoded(levels, precision)
    ensures Total(levels, ticks, MAX_SCALE) == WeiAt(levels, ticks)
  {
    hide Pow10;
    if levels != [] {
      assert Decoded(levels[|levels| - 1], precision);
      TotalIsWei(levels[..|levels| - 1], ticks, precision);
    }
  }

  /** The merged level holds what its levels held. */
  lemma MergedWei(levels: seq<PriceLevel>, ticks: nat, precision: nat)
    requires AllDecoded(levels, precision)
    ensures QuantityWei(Merged(levels, ticks)) == WeiAt(levels, ticks)
  {
    hide Pow10, Total, MaxScale, WeiAt;
    MaxScaleBound(levels, ticks, precision);
    TotalRescale(levels, ticks, MaxScale(levels, ticks), MAX_SCALE - MaxScale(levels, ticks));
    TotalIsWei(levels, ticks, precision);
  }

  // ---- At every price ----

  lemma {:induction false} NowhereElse(levels: seq<PriceLevel>, ticks: nat)
    requires forall i | 0 <= i < |levels| :: levels[i].price.ticks != ticks
    ensures WeiAt(levels, ticks) == 0
  {
    if levels != [] {
      NowhereElse(levels[..|levels| - 1], ticks);
    }
  }

  lemma {:induction false} OnlyOnce(levels: seq<PriceLevel>, k: nat)
    requires k < |levels| && forall i, j | 0 <= i < j < |levels| :: levels[i].price.ticks != levels[j].price.ticks
    ensures WeiAt(levels, levels[k].price.ticks) == QuantityWei(levels[k].quantity)
  {
    hide QuantityWei;
    var front := levels[..|levels| - 1];
    if k == |levels| - 1 {
      NowhereElse(front, levels[k].price.ticks);
    } else {
      OnlyOnce(front, k);
    }
  }

  lemma SortedIsDistinct(levels: seq<PriceLevel>, ascending: bool)
    requires StrictlySorted(levels, ascending)
    ensures forall i, j | 0 <= i < j < |levels| :: levels[i].price.ticks != levels[j].price.ticks
  {
    assert forall i, j | 0 <= i < j < |levels| :: Before(levels[i].price.ticks, levels[j].price.ticks, ascending);
  }

  lemma ConservedAt(levels: seq<PriceLevel>, ascending: bool, precision: nat, out: seq<PriceLevel>, ticks: nat)
    requires AllDecoded(levels, precision) && IsNormalForm(levels, ascending, precision, out)
    ensures WeiAt(out, ticks) == WeiAt(levels, ticks)
  {
    hide QuantityWei, WeiAt, Merged, Decoded;
    SortedIsDistinct(out, ascending);
    if HasPrice(out, ticks) {
      var k :| 0 <= k < |out| && out[k].price.ticks == ticks;
      OnlyOnce(out, k);
      MergedWei(levels, ticks, precision);
    } else {
      NowhereElse(out, ticks);
      assert forall i | 0 <= i < |levels| :: HasPrice(out, levels[i].price.ticks);
      NowhereElse(levels, ticks);
    }
  }

  // ---- In all ----

  /** The shares of `levels` at the prices of `out`. */
  function WeiAtPricesOf(out: seq<PriceLevel>, levels: seq<PriceLevel>): nat {
    if out == [] then 0
    else WeiAtPricesOf(out[..|out| - 1], levels) + WeiAt(levels, out[|out| - 1].price.ticks)
  }

  lemma {:induction false} NoLevels(out: seq<PriceLevel>)
    ensures WeiAtPricesOf(out, []) == 0
  {
    if out != [] {
      NoLevels(out[..|out| - 1]);
    }
  }

  lemma AddedAt(levels: seq<PriceLevel>, ticks: nat)
    requires levels != []
    ensures var last := levels[|levels| - 1];
            WeiAt(levels, ticks)
            == WeiAt(levels[..|levels| - 1], ticks) + if last.price.ticks == ticks then QuantityWei(last.quantity) else 0
  {
    hide QuantityWei;
  }

  /** One more level adds its shares once, at its price. */
  lemma {:induction false} OneMore(out: seq<PriceLevel>, levels: seq<PriceLevel>)
    requires levels != [] && forall i, j | 0 <= i < j < |out| :: out[i].price.ticks != out[j].price.ticks
    ensures var last := levels[|levels| - 1];
            WeiAtPricesOf(out, levels)
            == WeiAtPricesOf(out, levels[..|levels| - 1])
               + if HasPrice(out, last.price.ticks) then QuantityWei(last.quantity) else 0
    decreases |out|
  {
    hide QuantityWei, WeiAt;
    if out != [] {
      var front, ticks := out[..|out| - 1], levels[|levels| - 1].price.ticks;
      OneMore(front, levels);
      AddedAt(levels, out[|out| - 1].price.ticks);
      PriceAtEnd(out, ticks);
    }
  }

  lemma PriceAtEnd(out: seq<PriceLevel>, ticks: nat)
    requires out != [] && forall i, j | 0 <= i < j < |out| :: out[i].price.ticks != out[j].price.ticks
    ensures HasPrice(out, ticks) <==> HasPrice(out[..|out| - 1], ticks) || out[|out| - 1].price.ticks == ticks
    ensures !(HasPrice(out[..|out| - 1], ticks) && out[|out| - 1].price.ticks == ticks)
  {
    var front := out[..|out| - 1];
    assert forall i | 0 <= i < |front| :: front[i] == out[i];
  }

  lemma {:induction false} AllCovered(out: seq<PriceLevel>, levels: seq<PriceLevel>)
    requires forall i, j | 0 <= i < j < |out| :: out[i].price.ticks != out[j].price.ticks
    requires forall i | 0 <= i < |levels| :: HasPrice(out, levels[i].price.ticks)
    ensures WeiAtPricesOf(out, levels) == WeiOf(levels)
    decreases |levels|
  {
    hide QuantityWei, WeiAtPricesOf, HasPrice;
    if levels == [] {
      NoLevels(out);
    } else {
      AllCovered(out, levels[..|levels| - 1]);
      OneMore(out, levels);
    }
  }

  lemma {:induction false} OutIsMerged(out: seq<PriceLevel>, levels: seq<PriceLevel>, precision: nat)
    requires AllDecoded(levels, precision)
    requires forall i | 0 <= i < |out| :: out[i].quantity == Merged(levels, out[i].price.ticks)
    ensures WeiOf(out) == WeiAtPricesOf(out, levels)
    decreases |out|
  {
    hide QuantityWei, WeiAt, Merged, Decoded;
    if out != [] {
      OutIsMerged(out[..|out| - 1], levels, precision);
      MergedWei(levels, out[|out| - 1].price.ticks, precision);
    }
  }

  /** Normalisation conserves liquidity, at every price and in all. */
  lemma NormalisationConserves(levels: seq<PriceLevel>, ascending: bool, precision: nat, out: seq<PriceLevel>)
    requires AllDecoded(levels, precision) && IsNormalForm(levels, ascending, precision, out)
    ensures forall ticks: nat :: WeiAt(out, ticks) == WeiAt(levels, ticks)
    ensures WeiOf(out) == WeiOf(levels)
  {
    hide QuantityWei, WeiAt, WeiOf, Merged, Decoded, WeiAtPricesOf;
    forall ticks: nat ensures WeiAt(out, ticks) == WeiAt(levels, ticks) {
      ConservedAt(levels, ascending, precision, out, ticks);
    }
    SortedIsDistinct(out, ascending);
    AllCovered(out, levels);
    OutIsMerged(out, levels, precision);
  }
}
