/** Exact market-order quotes against one side of a book. */
module Liquidity {
  import opened Foundations
  import opened Numerals
  import opened FixedDecimals
  import opened BookLevels
  import opened Ladder

  /** `price_wei`. */
  function PriceWei(p: Price): nat { Quotient(p.ticks * ONE, p.TickScale()) }

  function Quotient(n: nat, d: nat): (q: nat)
    requires d > 0
    ensures d * q <= n < d * q + d
  {
    DivBounds(n, d);
    n / d
  }

  /** `quantity_wei`; the exponent is an 8-bit difference. */
  function QuantityWei(d: FixedDecimal): nat { d.units * Pow10((MAX_SCALE - d.scale) % 256) }

  /** For the scales that decimals have, the conversion to wei is exact. */
  lemma QuantityIsExact(d: FixedDecimal)
    requires d.scale <= MAX_SCALE
    ensures QuantityWei(d) * Pow10(d.scale) == d.units * ONE
  {
    hide Pow10;
    Pow10Sum(MAX_SCALE - d.scale, d.scale);
    OneIsPower();
    MulAssoc(d.units, Pow10(MAX_SCALE - d.scale), Pow10(d.scale));
  }

  lemma OneIsPower()
    ensures Pow10(MAX_SCALE) == ONE
  {
    assert Pow10(9) == 1_000_000_000;
    Pow10Sum(9, 9);
  }

  /** A tick is a whole number of wei, so a price converts exactly too. */
  lemma PriceIsExact(p: Price)
    requires p.Valid()
    ensures PriceWei(p) * p.TickScale() == p.ticks * ONE
    ensures PriceWei(p) <= ONE && (PriceWei(p) > 0 <==> p.ticks > 0)
  {
    hide Pow10;
    var d, k := p.TickScale(), Pow10(MAX_SCALE - p.precision);
    Pow10Sum(MAX_SCALE - p.precision, p.precision);
    OneIsPower();
    MulAssoc(p.ticks, k, d);
    ExactQuotient(p.ticks * ONE, d, p.ticks * k);
    MulMonotone(p.ticks, d, k);
    MulMonotone(1, k, p.ticks);
  }

  lemma ExactQuotient(n: nat, d: nat, q: nat)
    requires d > 0 && n == q * d
    ensures Quotient(n, d) == q
  {
    var k := Quotient(n, d);
    if k < q {
      MulStrict(k, q, d);
    } else if q < k {
      MulStrict(q, k, d);
    }
  }

  function WeiLevel(l: PriceLevel): Level { Level(PriceWei(l.price), QuantityWei(l.quantity)) }

  function WeiLevels(ls: seq<PriceLevel>): (r: seq<Level>)
    ensures |r| == |ls|
  {
    seq(|ls|, i requires 0 <= i < |ls| => WeiLevel(ls[i]))
  }

  /** A level too small to cost a single wei. */
  predicate Dust(l: Level) { Cost(l, l.quantity) == 0 }

  // ---- Spending a value across asks ----

  /** The shares taken at one level: the whole level, what the remaining value buys, or nothing. */
  function TakeBuy(l: Level, remaining: nat): nat {
    if remaining <= 1 || l.price == 0 then 0
    else if Cost(l, l.quantity) > remaining then remaining * ONE / l.price
    else if Dust(l) then 0
    else l.quantity
  }

  /** The greedy allocation. */
  function BuyTakes(ls: seq<Level>, remaining: int): (xs: seq<nat>)
    ensures |xs| == |ls|
  {
    if ls == [] then []
    else
      var x := if remaining < 0 then 0 else TakeBuy(ls[0], remaining);
      [x] + BuyTakes(ls[1..], remaining - Cost(ls[0], x))
  }

  datatype Walk = Walk(filled: nat, value: nat, weighted: nat, worst: nat, previous: nat, levels: nat)

  /** The loop of `quote_market_buy_value`; `filled` counts shares, `value` collateral. */
  function BuyWalk(ls: seq<Level>, requested: nat, w: Walk): Result<Walk>
    decreases |ls|
  {
    if ls == [] then Ok(w)
    else if !ValidLevel(ls[0]) || w.previous > ls[0].price then Err(InvalidOrderbook)
    else
      var v := w.(previous := ls[0].price);
      if requested - w.value <= 1 then Ok(v)
      else
        var x := TakeBuy(ls[0], requested - w.value);
        BuyWalk(ls[1..], requested, if x == 0 then v else Consume(v, ls[0], x))
  }

  function Consume(w: Walk, l: Level, x: nat): Walk {
    Walk(w.filled + x, w.value + Cost(l, x), w.weighted + l.price * x, l.price, w.previous, w.levels + 1)
  }

  datatype Quote = Quote(requested: nat, filled: nat, rest: nat, value: nat, vwap: nat, worst: nat, levels: nat, complete: bool)

  function Average(weighted: nat, shares: nat): nat { if shares > 0 then weighted / shares else 0 }

  /** The final conversion to `Uint256`: every component must fit. */
  function Sealed(q: Quote): Result<Quote> {
    if q.filled < UINT256_END && q.rest < UINT256_END && q.value < UINT256_END && q.vwap < UINT256_END && q.worst < UINT256_END
    then Ok(q) else Err(NumericOverflow)
  }

  /** `filled` is the value spent. */
  function BuyQuote(value: nat, asks: seq<Level>): Result<Quote> {
    if value == 0 then Err(InvalidQuantity)
    else
      match BuyWalk(asks, value, Walk(0, 0, 0, 0, 0, 0))
      case Err(code) => Err(code)
      case Ok(w) =>
        if w.value > value then Err(NumericOverflow)
        else
          Sealed(Quote(value, w.value, value - w.value, w.filled, Average(w.weighted, w.filled), w.worst, w.levels,
                       value - w.value <= 1))
  }

  /** One level of the loop. */
  lemma BuyWalkAt(ls: seq<Level>, i: nat, requested: nat, w: Walk)
    requires i < |ls|
    ensures var v := w.(previous := ls[i].price);
            BuyWalk(ls[i..], requested, w)
            == if !ValidLevel(ls[i]) || w.previous > ls[i].price then Err(InvalidOrderbook)
               else if requested - w.value <= 1 then Ok(v)
               else
                 var x := TakeBuy(ls[i], requested - w.value);
                 BuyWalk(ls[i + 1..], requested, if x == 0 then v else Consume(v, ls[i], x))
  {
    hide Cost, TakeBuy, Consume;
    assert ls[i..][0] == ls[i] && ls[i..][1..] == ls[i + 1..];
  }

  lemma BuyWalkEnds(ls: seq<Level>, requested: nat, w: Walk)
    ensures BuyWalk(ls[|ls|..], requested, w) == Ok(w)
  {
  }

  method QuoteMarketBuyValue(value: nat, asks: seq<PriceLevel>) returns (r: Result<Quote>)
    ensures r == BuyQuote(value, WeiLevels(asks))
  {
    hide Cost, Pow10, PriceWei, QuantityWei, BuyWalk;
    if value == 0 {
      return Err(InvalidQuantity);
    }
    var spent: nat, shares: nat, weighted: nat, worst: nat, previous: nat, consumed: nat := 0, 0, 0, 0, 0, 0;
    ghost var ls := WeiLevels(asks);
    assert ls[0..] == ls;
    var i := 0;
    while i < |asks|
      invariant 0 <= i <= |asks| && spent <= value
      invariant BuyWalk(ls, value, Walk(0, 0, 0, 0, 0, 0))
             == BuyWalk(ls[i..], value, Walk(shares, spent, weighted, worst, previous, consumed))
      decreases |asks| - i
    {
      var price, quantity := PriceWei(asks[i].price), QuantityWei(asks[i].quantity);
      ghost var l := ls[i];
      assert l == Level(price, quantity);
      BuyWalkAt(ls, i, value, Walk(shares, spent, weighted, worst, previous, consumed));
      if price <= 0 || price > ONE || quantity <= 0 {
        return Err(InvalidOrderbook);
      }
      if previous > price {
        return Err(InvalidOrderbook);
      }
      previous := price;
      var remaining := value - spent;
      if remaining <= 1 {
        break;
      }
      TakeFacts(l, remaining);
      var levelCost := Cost(Level(price, quantity), quantity);
      var consumedQuantity, consumedCost := quantity, levelCost;
      if levelCost > remaining {
        consumedQuantity := remaining * ONE / price;
        consumedCost := Cost(Level(price, quantity), consumedQuantity);
      }
      if consumedQuantity > 0 && consumedCost > 0 {
        spent := spent + consumedCost;
        shares := shares + consumedQuantity;
        weighted := weighted + price * consumedQuantity;
        worst := price;
        consumed := consumed + 1;
      }
      i := i + 1;
    }
    if i == |asks| {
      BuyWalkEnds(ls, value, Walk(shares, spent, weighted, worst, previous, consumed));
    }
    assert BuyWalk(ls, value, Walk(0, 0, 0, 0, 0, 0)) == Ok(Walk(shares, spent, weighted, worst, previous, consumed));
    var unspent := value - spent;
    var vwap := if shares > 0 then weighted / shares else 0;
    r := Sealed(Quote(value, spent, unspent, shares, vwap, worst, consumed, unspent <= 1));
  }

  /** A take never exceeds the level or the remaining value; a level not taken whole is dust or leaves at most one
      wei; and whatever is taken costs at least one wei, so the loop's guards against empty partial fills never
      fire. */
  lemma TakeFacts(l: Level, remaining: nat)
    requires ValidLevel(l)
    ensures var x := TakeBuy(l, remaining);
            && x <= l.quantity && Cost(l, x) <= remaining
            && (x == l.quantity || (x == 0 && Dust(l)) || remaining - Cost(l, x) <= 1)
            && (x > 0 ==> Cost(l, x) > 0)
            && (remaining > 1 && Cost(l, l.quantity) > remaining ==> x > 0)
  {
    if remaining > 1 && Cost(l, l.quantity) > remaining {
      PartialTake(l.price, l.quantity, remaining);
    }
  }

  lemma PartialTake(price: nat, quantity: nat, remaining: nat)
    requires 0 < price <= ONE && remaining > 1 && price * quantity / ONE > remaining
    ensures var x := remaining * ONE / price;
            0 < x <= quantity && remaining - 1 <= price * x / ONE <= remaining
  {
    var x := remaining * ONE / price;
    DivBounds(remaining * ONE, price);
    FloorBounds(price * quantity);
    FloorBounds(price * x);
    if quantity < x {
      MulMonotone(quantity, x, price);
    }
  }

  lemma DivBounds(n: nat, d: nat)
    requires d > 0
    ensures 0 <= n / d && d * (n / d) <= n < d * (n / d) + d
  {
  }

  lemma DivMonotone(a: nat, b: nat, d: nat)
    requires a <= b && d > 0
    ensures a / d <= b / d
  {
    DivBounds(a, d);
    DivBounds(b, d);
    if a / d > b / d {
      MulMonotone(b / d + 1, a / d, d);
    }
  }

  // ---- Selling shares into bids ----

  function TakeSell(l: Level, remaining: int): nat { if remaining <= 1 then 0 else Min(l.quantity, remaining) }

  function SellTakes(ls: seq<Level>, remaining: int): (xs: seq<nat>)
    ensures |xs| == |ls|
  {
    if ls == [] then []
    else
      var x := TakeSell(ls[0], remaining);
      [x] + SellTakes(ls[1..], remaining - x)
  }

  /** The loop of `quote_market_sell_shares`. */
  function SellWalk(ls: seq<Level>, requested: nat, w: Walk): Result<Walk>
    decreases |ls|
  {
    if ls == [] then Ok(w)
    else if !ValidLevel(ls[0]) || w.previous < ls[0].price then Err(InvalidOrderbook)
    else
      var v := w.(previous := ls[0].price);
      if requested - w.filled <= 1 then Ok(v)
      else SellWalk(ls[1..], requested, Consume(v, ls[0], TakeSell(ls[0], requested - w.filled)))
  }

  /** `filled` is the shares sold, `value` the collateral returned. */
  function SellQuote(shares: nat, bids: seq<Level>): Result<Quote> {
    if shares == 0 then Err(InvalidQuantity)
    else
      match SellWalk(bids, shares, Walk(0, 0, 0, 0, ONE + 1, 0))
      case Err(code) => Err(code)
      case Ok(w) =>
        if w.filled > shares then Err(NumericOverflow)
        else
          Sealed(Quote(shares, w.filled, shares - w.filled, w.value, Average(w.weighted, w.filled), w.worst, w.levels,
                       shares - w.filled <= 1))
  }

  lemma SellWalkAt(ls: seq<Level>, i: nat, requested: nat, w: Walk)
    requires i < |ls|
    ensures var v := w.(previous := ls[i].price);
            SellWalk(ls[i..], requested, w)
            == if !ValidLevel(ls[i]) || w.previous < ls[i].price then Err(InvalidOrderbook)
               else if requested - w.filled <= 1 then Ok(v)
               else SellWalk(ls[i + 1..], requested, Consume(v, ls[i], TakeSell(ls[i], requested - w.filled)))
  {
    hide Cost, TakeSell, Consume;
    assert ls[i..][0] == ls[i] && ls[i..][1..] == ls[i + 1..];
  }

  lemma SellWalkEnds(ls: seq<Level>, requested: nat, w: Walk)
    ensures SellWalk(ls[|ls|..], requested, w) == Ok(w)
  {
  }

  method QuoteMarketSellShares(shares: nat, bids: seq<PriceLevel>) returns (r: Result<Quote>)
    ensures r == SellQuote(shares, WeiLevels(bids))
  {
    hide Cost, Pow10, PriceWei, QuantityWei, SellWalk;
    if shares == 0 {
      return Err(InvalidQuantity);
    }
    var sold: nat, returned: nat, weighted: nat, worst: nat, consumed: nat := 0, 0, 0, 0, 0;
    var previous: nat := ONE + 1;
    ghost var ls := WeiLevels(bids);
    assert ls[0..] == ls;
    var i := 0;
    while i < |bids|
      invariant 0 <= i <= |bids| && sold <= shares
      invariant SellWalk(ls, shares, Walk(0, 0, 0, 0, ONE + 1, 0))
             == SellWalk(ls[i..], shares, Walk(sold, returned, weighted, worst, previous, consumed))
      decreases |bids| - i
    {
      var price, quantity := PriceWei(bids[i].price), QuantityWei(bids[i].quantity);
      assert ls[i] == Level(price, quantity);
      SellWalkAt(ls, i, shares, Walk(sold, returned, weighted, worst, previous, consumed));
      if price <= 0 || price > ONE || quantity <= 0 {
        return Err(InvalidOrderbook);
      }
      if previous < price {
        return Err(InvalidOrderbook);
      }
      previous := price;
      var remaining := shares - sold;
      if remaining <= 1 {
        break;
      }
      var taken := if quantity < remaining then quantity else remaining;
      sold := sold + taken;
      returned := returned + Cost(Level(price, quantity), taken);
      weighted := weighted + price * taken;
      worst := price;
      consumed := consumed + 1;
      i := i + 1;
    }
    if i == |bids| {
      SellWalkEnds(ls, shares, Walk(sold, returned, weighted, worst, previous, consumed));
    }
    assert SellWalk(ls, shares, Walk(0, 0, 0, 0, ONE + 1, 0)) == Ok(Walk(sold, returned, weighted, worst, previous, consumed));
    var unsold := shares - sold;
    var vwap := if sold > 0 then weighted / sold else 0;
    r := Sealed(Quote(shares, sold, unsold, returned, vwap, worst, consumed, unsold <= 1));
  }

  // ---- Buying and selling straight back ----

  datatype RoundTrip = RoundTrip(buy: Quote, sell: Option<Quote>, recovered: nat, loss: nat, complete: bool)

  /** `quote_immediate_round_trip`. */
  function RoundTripQuote(value: nat, asks: seq<Level>, bids: seq<Level>): Result<RoundTrip> {
    var buy :- BuyQuote(value, asks);
    if buy.value == 0 then Ok(RoundTrip(buy, None, 0, 0, false))
    else
      var sell :- SellQuote(buy.value, bids);
      Ok(RoundTrip(buy, Some(sell), sell.value, Max(buy.filled - sell.value, 0), buy.complete && sell.complete))
  }
}
