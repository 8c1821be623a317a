/** Market quotes on decoded levels, in the ticks and decimals of the book. */
module BookQuotes {
  import opened Foundations
  import opened Numerals
  import opened FixedDecimals
  import opened BookLevels
  import opened Ladder
  import opened Liquidity
  import opened LiquidityProperties
  import OrderBook

  /** The collateral of an allocation, each level rounded down to a wei. */
  function Collateral(ls: seq<PriceLevel>, xs: seq<nat>): nat
    requires |ls| == |xs|
  {
    if ls == [] then 0 else Quotient(ls[0].price.ticks * xs[0], ls[0].price.TickScale()) + Collateral(ls[1..], xs[1..])
  }

  /** Shares cost their ticks, over the ticks in one collateral token. */
  lemma CostInTicks(l: PriceLevel, x: nat)
    requires l.price.Valid()
    ensures Cost(WeiLevel(l), x) == Quotient(l.price.ticks * x, l.price.TickScale())
  {
    hide Pow10, PriceWei, QuantityWei;
    PriceIsExact(l.price);
    SameFloor(PriceWei(l.price), l.price.ticks, l.price.TickScale(), x);
  }

  lemma SameFloor(price: nat, ticks: nat, scale: nat, x: nat)
    requires scale > 0 && price * scale == ticks * ONE
    ensures price * x / ONE == Quotient(ticks * x, scale)
  {
    var a, b := price * x / ONE, Quotient(ticks * x, scale);
    FloorBounds(price * x);
    assert (price * x) * scale == (ticks * x) * ONE by {
      calc { (price * x) * scale; (price * scale) * x; (ticks * ONE) * x; (ticks * x) * ONE; }
    }
    FloorsAgree(price * x, ticks * x, ONE, scale, a, b);
  }

  lemma FloorsAgree(m: nat, n: nat, c: nat, d: nat, a: nat, b: nat)
    requires c > 0 && d > 0 && m * d == n * c && c * a <= m < c * a + c && d * b <= n < d * b + d
    ensures a == b
  {
    NotAbove(m, n, c, d, a, b);
    NotAbove(n, m, d, c, b, a);
  }

  lemma NotAbove(m: nat, n: nat, c: nat, d: nat, a: nat, b: nat)
    requires c > 0 && d > 0 && m * d == n * c && c * a <= m && n < d * b + d
    ensures a <= b
  {
    if b < a {
      MulMonotone(b + 1, a, d);
      var top := a * d;
      assert n < top;
      MulStrict(n, top, c);
      MulMonotone(c * a, m, d);
      Reorder(a, c, d);
    }
  }

  lemma Reorder(a: int, c: int, d: int)
    ensures (c * a) * d == (a * d) * c
  {
    MulAssoc(c, a, d);
  }

  lemma {:induction false} SpentInTicks(ls: seq<PriceLevel>, xs: seq<nat>)
    requires |ls| == |xs| && forall i | 0 <= i < |ls| :: ls[i].price.Valid()
    ensures Spent(WeiLevels(ls), xs) == Collateral(ls, xs)
  {
    hide Cost, WeiLevel, Pow10;
    if ls != [] {
      CostInTicks(ls[0], xs[0]);
      assert WeiLevels(ls)[1..] == WeiLevels(ls[1..]);
      SpentInTicks(ls[1..], xs[1..]);
    }
  }

  /** At most what the level offers is taken, as numbers; `whole` says that all of it is. */
  ghost predicate Offered(l: PriceLevel, x: nat, whole: bool) {
    && x * Pow10(l.quantity.scale) <= l.quantity.units * ONE
    && (whole <==> x * Pow10(l.quantity.scale) == l.quantity.units * ONE)
  }

  lemma OfferedIs(l: PriceLevel, x: nat)
    requires l.quantity.scale <= MAX_SCALE && x <= WeiLevel(l).quantity
    ensures Offered(l, x, x == WeiLevel(l).quantity)
  {
    hide Pow10, PriceWei, QuantityWei;
    QuantityIsExact(l.quantity);
    MulMonotone(x, QuantityWei(l.quantity), Pow10(l.quantity.scale));
    if x < QuantityWei(l.quantity) {
      MulStrict(x, QuantityWei(l.quantity), Pow10(l.quantity.scale));
    }
  }

  /** A buy quote on decoded asks: it takes from each level at most the quantity on offer, spends the ticks of what it takes
      rounded down level by level, and leaves more than a wei only after taking every level whole, except those whose
      whole quantity is worth less than a wei. */
  lemma BuyQuoteOnBook(value: nat, asks: seq<PriceLevel>, precision: nat)
    requires AllDecoded(asks, precision) && BuyQuote(value, WeiLevels(asks)).Ok?
    ensures var q, xs := BuyQuote(value, WeiLevels(asks)).value, BuyTakes(WeiLevels(asks), value);
            && q.value == Shares(xs) && q.filled == Collateral(asks, xs) && q.filled + q.rest == value
            && (forall i | 0 <= i < |asks| :: Offered(asks[i], xs[i], xs[i] == WeiLevels(asks)[i].quantity))
            && (q.complete <==> q.rest <= 1)
            && (forall i | 0 <= i < |asks| && !q.complete ::
                  || Offered(asks[i], xs[i], true)
                  || (xs[i] == 0 && asks[i].price.ticks * WeiLevels(asks)[i].quantity < asks[i].price.TickScale()))
            && (q.value > 0 ==> exists k: nat :: LastAt(xs, k) && q.worst * asks[k].price.TickScale() == asks[k].price.ticks * ONE)
  {
    hide Pow10, PriceWei, QuantityWei, BuyQuote, BuyTakes, Cost, Collateral, Shares, Weighted, Spent, Touched, FirstUsed;
    var ws, q := WeiLevels(asks), BuyQuote(value, WeiLevels(asks)).value;
    var xs := BuyTakes(ws, value);
    BuyQuoteFacts(value, ws);
    DecodedLevels(asks, precision);
    SpentInTicks(asks, xs);
    forall i | 0 <= i < |asks|
      ensures Offered(asks[i], xs[i], xs[i] == ws[i].quantity)
      ensures xs[i] == 0 && Dust(ws[i]) ==> asks[i].price.ticks * ws[i].quantity < asks[i].price.TickScale()
    {
      OfferedIs(asks[i], xs[i]);
      CostInTicks(asks[i], ws[i].quantity);
    }
    if q.value > 0 {
      var k: nat :| LastAt(xs, k) && q.worst == ws[k].price;
      PriceIsExact(asks[k].price);
    }
  }

  lemma DecodedLevels(ls: seq<PriceLevel>, precision: nat)
    requires AllDecoded(ls, precision)
    ensures forall i | 0 <= i < |ls| :: ls[i].price.Valid() && ls[i].quantity.scale <= MAX_SCALE
  {
    hide Pow10;
    assert forall i | 0 <= i < |ls| :: Decoded(ls[i], precision);
  }

  /** A sale on decoded bids: it returns the ticks of what each level takes, rounded down, and leaves more than a wei of
      shares only after filling every bid whole. */
  lemma SellQuoteOnBook(shares: nat, bids: seq<PriceLevel>, precision: nat)
    requires AllDecoded(bids, precision) && SellQuote(shares, WeiLevels(bids)).Ok?
    ensures var q, zs := SellQuote(shares, WeiLevels(bids)).value, SellTakes(WeiLevels(bids), shares);
            && q.filled == Shares(zs) && q.filled + q.rest == shares && q.value == Collateral(bids, zs)
            && (forall i | 0 <= i < |bids| :: Offered(bids[i], zs[i], zs[i] == WeiLevels(bids)[i].quantity))
            && (q.complete <==> q.rest <= 1)
            && (forall i | 0 <= i < |bids| && !q.complete :: Offered(bids[i], zs[i], true))
            && (q.filled > 0 ==> exists k: nat :: LastAt(zs, k) && q.worst * bids[k].price.TickScale() == bids[k].price.ticks * ONE)
  {
    hide Pow10, PriceWei, QuantityWei, SellQuote, SellTakes, Cost, Collateral, Shares, Weighted, Spent, Touched, FirstUsed;
    var ws, q := WeiLevels(bids), SellQuote(shares, WeiLevels(bids)).value;
    var zs := SellTakes(ws, shares);
    SellQuoteFacts(shares, ws);
    DecodedLevels(bids, precision);
    SpentInTicks(bids, zs);
    forall i | 0 <= i < |bids|
      ensures Offered(bids[i], zs[i], zs[i] == ws[i].quantity)
    {
      OfferedIs(bids[i], zs[i]);
    }
    if q.filled > 0 {
      var k: nat :| LastAt(zs, k) && q.worst == ws[k].price;
      PriceIsExact(bids[k].price);
    }
  }

  // ---- When there is a quote ----

  ghost predicate Tradable(ls: seq<PriceLevel>, ascending: bool, precision: nat) {
    && AllDecoded(ls, precision) && StrictlySorted(ls, ascending)
    && forall i | 0 <= i < |ls| :: ls[i].price.ticks > 0 && ls[i].quantity.units > 0
  }

  lemma TradableIsValid(ls: seq<PriceLevel>, ascending: bool, precision: nat)
    requires Tradable(ls, ascending, precision)
    ensures ValidLevels(WeiLevels(ls))
  {
    hide Pow10, PriceWei, QuantityWei;
    DecodedLevels(ls, precision);
    forall i | 0 <= i < |ls|
      ensures ValidLevel(WeiLevel(ls[i]))
    {
      PriceIsExact(ls[i].price);
      PositiveWei(ls[i].quantity);
    }
  }

  lemma PositiveWei(d: FixedDecimal)
    requires d.units > 0
    ensures QuantityWei(d) > 0
  {
    hide Pow10;
    MulStrict(0, d.units, Pow10((MAX_SCALE - d.scale) % 256));
  }

  lemma AverageFits(ls: seq<Level>, xs: seq<nat>)
    requires |ls| == |xs| && forall i | 0 <= i < |ls| :: ls[i].price <= ONE
    ensures Average(Weighted(ls, xs), Shares(xs)) <= ONE && WorstOf(ls, xs, 0) <= ONE
  {
    hide Weighted, Shares, WorstOf, Touched;
    WeightedBounds(ls, xs, 0, ONE);
    TouchedHasShares(xs);
    if Shares(xs) > 0 {
      QuotientBetween(Weighted(ls, xs), Shares(xs), 0, ONE);
      var k := LastUsed(ls, xs, 0);
    } else {
      UntouchedIsZero(ls, xs, 0);
    }
  }

  /** On sorted asks of positive price and quantity every positive value has a quote, unless its shares exceed 256 bits. */
  lemma BuyIsQuoted(value: nat, asks: seq<PriceLevel>, precision: nat)
    requires Tradable(asks, true, precision) && value < UINT256_END
    ensures var r := BuyQuote(value, WeiLevels(asks));
            if value == 0 then r == Err(InvalidQuantity)
            else if Shares(BuyTakes(WeiLevels(asks), value)) < UINT256_END then r.Ok?
            else r == Err(NumericOverflow)
  {
    hide Pow10, WeiLevels, WorstOf, Weighted, Shares, BuyTakes, BuyWalk, Spent, Average;
    var ws := WeiLevels(asks);
    var xs := BuyTakes(ws, value);
    TradableIsValid(asks, true, precision);
    OrderBook.SideIsSorted(asks, true, precision);
    BuyWalkSucceeds(ws, value, START);
    BuyWalkSums(ws, value, START);
    BuyIsGreedy(ws, value, START);
    assert forall i | 0 <= i < |ws| :: ValidLevel(ws[i]);
    AverageFits(ws, xs);
  }

  /** On sorted bids every positive quantity has a quote, unless its proceeds exceed 256 bits. */
  lemma SellIsQuoted(shares: nat, bids: seq<PriceLevel>, precision: nat)
    requires Tradable(bids, false, precision) && shares < UINT256_END
    ensures var r := SellQuote(shares, WeiLevels(bids));
            if shares == 0 then r == Err(InvalidQuantity)
            else if Spent(WeiLevels(bids), SellTakes(WeiLevels(bids), shares)) < UINT256_END then r.Ok?
            else r == Err(NumericOverflow)
  {
    hide Pow10, WeiLevels, WorstOf, Weighted, Shares, SellTakes, SellWalk, Spent, Average;
    var ws := WeiLevels(bids);
    var zs := SellTakes(ws, shares);
    TradableIsValid(bids, false, precision);
    OrderBook.SideIsSorted(bids, false, precision);
    assert forall i | 0 <= i < |ws| :: ValidLevel(ws[i]);
    SellWalkSucceeds(ws, shares, START_SELL);
    SellWalkSums(ws, shares, START_SELL);
    SellIsGreedy(ws, shares, START_SELL);
    AverageFits(ws, zs);
  }
}
