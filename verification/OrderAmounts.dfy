/** Maker and taker amounts of market orders. */
module OrderAmounts {
  import opened Foundations
  import opened Numerals
  import opened Ladder
  import opened Liquidity
  import opened LiquidityProperties

  const MINIMUM_QUANTITY: nat := 10_000_000_000_000_000
  const BASIS_POINTS: nat := 10_000

  datatype Side = Buy | Sell | UnknownSide

  // ---- Significant digits ----

  /** `truncate_significant`: zeros every decimal digit after the first `digits`. */
  function TruncateSignificant(value: nat, digits: nat): nat {
    var n := |DecimalText(value)|;
    if value == 0 || n <= digits then value else Quotient(value, Pow10(n - digits)) * Pow10(n - digits)
  }

  method Truncate(value: nat, digits: nat) returns (r: nat)
    ensures r == TruncateSignificant(value, digits)
  {
    if value == 0 {
      return 0;
    }
    var text := DecimalText(value);
    if |text| <= digits {
      return value;
    }
    var divisor := 1;
    for index := digits to |text|
      invariant divisor == Pow10(index - digits)
    {
      divisor := 10 * divisor;
    }
    r := Quotient(value, divisor) * divisor;
  }

  /** The result is the number whose decimal text keeps the leading digits and has zeros behind them. */
  lemma TruncationKeepsLeadingDigits(value: nat, digits: nat)
    requires value > 0 && |DecimalText(value)| > digits
    ensures var text := DecimalText(value);
            TruncateSignificant(value, digits) == DecimalValue(text[..digits] + Zeros(|text| - digits))
  {
    hide DecimalText, Pow10, DecimalValue;
    var text := DecimalText(value);
    var front, back, p := text[..digits], text[digits..], Pow10(|text| - digits);
    assert text == front + back;
    DecimalConcat(front, back);
    DecimalBound(back);
    DecimalPad(front, |text| - digits);
    QuotientIs(value, p, DecimalValue(front), DecimalValue(back));
  }

  lemma QuotientIs(n: nat, d: nat, q: nat, r: nat)
    requires d > 0 && n == q * d + r && r < d
    ensures Quotient(n, d) == q
  {
    DivBounds(n, d);
    var k := Quotient(n, d);
    if k < q {
      MulStrict(k, q, d);
    } else if q < k {
      MulStrict(q, k, d);
    }
  }

  lemma TruncationBelow(value: nat, digits: nat)
    ensures TruncateSignificant(value, digits) <= value
  {
  }

  // ---- Filling a quantity ----

  datatype Processed = Processed(quantity: nat, weighted: nat, last: nat)

  function TakeExact(l: Level, remaining: int): nat { if remaining <= 0 then 0 else Min(remaining, l.quantity) }

  function FillTakes(ls: seq<Level>, remaining: int): (xs: seq<nat>)
    ensures |xs| == |ls|
  {
    if ls == [] then []
    else
      var x := TakeExact(ls[0], remaining);
      [x] + FillTakes(ls[1..], remaining - x)
  }

  /** The loop of `process_book`. */
  function FillWalk(ls: seq<Level>, requested: nat, p: Processed): Result<Processed>
    decreases |ls|
  {
    if ls == [] then Ok(p)
    else if !ValidLevel(ls[0]) then Err(InvalidOrderbook)
    else if requested - p.quantity <= 0 then Ok(p)
    else
      var x := TakeExact(ls[0], requested - p.quantity);
      FillWalk(ls[1..], requested, Processed(p.quantity + x, p.weighted + ls[0].price * x, ls[0].price))
  }

  function ProcessBook(ls: seq<Level>, requested: nat): Result<Processed> {
    var p :- FillWalk(ls, requested, Processed(0, 0, 0));
    if p.quantity < requested then Err(InvalidOrderbook) else Ok(p)
  }

  method Process(ls: seq<Level>, requested: nat) returns (r: Result<Processed>)
    ensures r == ProcessBook(ls, requested)
  {
    var p, i := Processed(0, 0, 0), 0;
    assert ls[0..] == ls;
    while i < |ls|
      invariant 0 <= i <= |ls|
      invariant FillWalk(ls, requested, Processed(0, 0, 0)) == FillWalk(ls[i..], requested, p)
      decreases |ls| - i
    {
      assert ls[i..][1..] == ls[i + 1..];
      var price, quantity := ls[i].price, ls[i].quantity;
      if price <= 0 || price > ONE || quantity <= 0 {
        return Err(InvalidOrderbook);
      }
      var remaining := requested - p.quantity;
      if remaining <= 0 {
        break;
      }
      var consumed := if remaining < quantity then remaining else quantity;
      p := Processed(p.quantity + consumed, p.weighted + price * consumed, price);
      i := i + 1;
    }
    if p.quantity < requested {
      return Err(InvalidOrderbook);
    }
    r := Ok(p);
  }

  // ---- Spending a value ----

  function TakeValue(l: Level, remaining: int): nat {
    if remaining <= 0 || l.price == 0 then 0
    else if Cost(l, l.quantity) <= remaining then l.quantity
    else Quotient(remaining * ONE, l.price)
  }

  function ValueTakes(ls: seq<Level>, remaining: int): (xs: seq<nat>)
    ensures |xs| == |ls|
  {
    if ls == [] then []
    else
      var x := TakeValue(ls[0], remaining);
      [x] + ValueTakes(ls[1..], remaining - Cost(ls[0], x))
  }

  /** The loop of the value form of `market_amounts`: shares bought and value spent. */
  function ValueWalk(ls: seq<Level>, value: nat, shares: nat, spent: nat): Result<nat>
    decreases |ls|
  {
    if ls == [] then Ok(shares)
    else if !ValidLevel(ls[0]) then Err(InvalidOrderbook)
    else if value - spent <= 0 then Ok(shares)
    else
      var x := TakeValue(ls[0], value - spent);
      ValueWalk(ls[1..], value, shares + x, spent + Cost(ls[0], x))
  }

  method WalkValue(ls: seq<Level>, value: nat) returns (r: Result<nat>)
    ensures r == ValueWalk(ls, value, 0, 0)
  {
    hide Cost;
    var shares: nat, spent: nat, i := 0, 0, 0;
    assert ls[0..] == ls;
    while i < |ls|
      invariant 0 <= i <= |ls|
      invariant ValueWalk(ls, value, 0, 0) == ValueWalk(ls[i..], value, shares, spent)
      decreases |ls| - i
    {
      assert ls[i..][1..] == ls[i + 1..];
      var price, quantity := ls[i].price, ls[i].quantity;
      if price <= 0 || price > ONE || quantity <= 0 {
        return Err(InvalidOrderbook);
      }
      var remaining := value - spent;
      if remaining <= 0 {
        break;
      }
      var levelCost := Cost(ls[i], quantity);
      if levelCost <= remaining {
        shares := shares + quantity;
        spent := spent + levelCost;
      } else {
        var partial := Quotient(remaining * ONE, price);
        shares := shares + partial;
        spent := spent + Cost(ls[i], partial);
      }
      i := i + 1;
    }
    r := Ok(shares);
  }

  // ---- Amounts ----

  datatype Amounts = Amounts(last: nat, average: nat, maker: nat, taker: nat, amount: nat)

  function SealedAmounts(a: Amounts): Result<Amounts> {
    if a.last < UINT256_END && a.average < UINT256_END && a.maker < UINT256_END && a.taker < UINT256_END && a.amount < UINT256_END
    then Ok(a) else Err(NumericOverflow)
  }

  /** A quantity reduced by slippage in basis points, never below zero. */
  function Reduced(n: nat, slippage: nat): nat {
    if slippage > BASIS_POINTS then 0 else n * (BASIS_POINTS - slippage) / BASIS_POINTS
  }

  function BuyMaker(p: Processed, quantity: nat, slippage: nat): nat {
    var base := p.last * quantity / ONE;
    if slippage > 0 then Min(base * (BASIS_POINTS + slippage) / BASIS_POINTS, quantity) else base
  }

  /** `market_quantity`. */
  function MarketQuantity(side: Side, raw: nat, slippage: nat, minOut: bool, asks: seq<Level>, bids: seq<Level>)
    : Result<Amounts>
  {
    var quantity := TruncateSignificant(raw, 5);
    if quantity < MINIMUM_QUANTITY then Err(InvalidQuantity)
    else if side == UnknownSide then Err(InvalidArgument)
    else
      var p :- ProcessBook(if side == Buy then asks else bids, quantity);
      var average := Quotient(p.weighted, quantity);
      if side == Buy && minOut then
        var signed := if p.last > 0 then Quotient(p.weighted, p.last) else 0;
        SealedAmounts(Amounts(p.last, average, p.weighted / ONE, Reduced(signed, slippage), quantity))
      else if side == Buy then
        SealedAmounts(Amounts(p.last, average, BuyMaker(p, quantity, slippage), quantity, quantity))
      else
        SealedAmounts(Amounts(p.last, average, quantity, Reduced(p.last * quantity / ONE, slippage), quantity))
  }

  /** The value form of `market_amounts`. */
  function MarketValue(value: nat, slippage: nat, minOut: bool, asks: seq<Level>, bids: seq<Level>): Result<Amounts> {
    if value < ONE then Err(InvalidQuantity)
    else
      var shares :- ValueWalk(asks, value, 0, 0);
      if shares == 0 then Err(InvalidOrderbook)
      else if TruncateSignificant(shares, 5) >= UINT256_END then Err(NumericOverflow)
      else MarketQuantity(Buy, TruncateSignificant(shares, 5), slippage, minOut, asks, bids)
  }

  method MarketAmountsForValue(value: nat, slippage: nat, minOut: bool, asks: seq<Level>, bids: seq<Level>)
    returns (r: Result<Amounts>)
    ensures r == MarketValue(value, slippage, minOut, asks, bids)
  {
    hide TruncateSignificant, ValueWalk, MarketQuantity;
    if value < ONE {
      return Err(InvalidQuantity);
    }
    var shares := WalkValue(asks, value);
    if shares.Err? {
      return Err(shares.code);
    }
    if shares.value <= 0 {
      return Err(InvalidOrderbook);
    }
    var quantity := Truncate(shares.value, 5);
    if quantity >= UINT256_END {
      return Err(NumericOverflow);
    }
    r := MarketAmountsForQuantity(Buy, quantity, slippage, minOut, asks, bids);
  }

  method MarketAmountsForQuantity(side: Side, raw: nat, slippage: nat, minOut: bool, asks: seq<Level>, bids: seq<Level>)
    returns (r: Result<Amounts>)
    ensures r == MarketQuantity(side, raw, slippage, minOut, asks, bids)
  {
    hide TruncateSignificant, ProcessBook;
    var quantity := Truncate(raw, 5);
    if quantity < MINIMUM_QUANTITY {
      return Err(InvalidQuantity);
    }
    if side != Buy && side != Sell {
      return Err(InvalidArgument);
    }
    var processed := Process(if side == Buy then asks else bids, quantity);
    if processed.Err? {
      return Err(processed.code);
    }
    var p := processed.value;
    var average := Quotient(p.weighted, quantity);
    var maker: nat, taker: nat;
    if side == Buy && minOut {
      maker := p.weighted / ONE;
      taker := Reduced(if p.last > 0 then Quotient(p.weighted, p.last) else 0, slippage);
    } else if side == Buy {
      maker := BuyMaker(p, quantity, slippage);
      taker := quantity;
    } else {
      maker := quantity;
      taker := Reduced(p.last * quantity / ONE, slippage);
    }
    r := SealedAmounts(Amounts(p.last, average, maker, taker, quantity));
  }

  // ---- The walks as allocations ----

  lemma {:induction false} FillWalkSums(ls: seq<Level>, requested: nat, p: Processed)
    requires p.quantity <= requested && FillWalk(ls, requested, p).Ok?
    ensures var v, xs := FillWalk(ls, requested, p).value, FillTakes(ls, requested - p.quantity);
            && v.quantity == p.quantity + Shares(xs) <= requested && v.weighted == p.weighted + Weighted(ls, xs)
            && v.last == WorstOf(ls, xs, p.last)
    decreases |ls|
  {
    hide FillWalk, FillTakes, TakeExact;
    FillStep(ls, requested, p);
    if ls != [] && requested > p.quantity {
      var x := TakeExact(ls[0], requested - p.quantity);
      FillWalkSums(ls[1..], requested, Processed(p.quantity + x, p.weighted + ls[0].price * x, ls[0].price));
      assert FillTakes(ls, requested - p.quantity)[1..] == FillTakes(ls[1..], requested - p.quantity - x);
    } else if ls != [] {
      NothingFilled(ls, requested - p.quantity);
    }
  }

  /** One level of a fill that succeeds. */
  lemma FillStep(ls: seq<Level>, requested: nat, p: Processed)
    requires p.quantity <= requested && FillWalk(ls, requested, p).Ok?
    ensures var remaining := requested - p.quantity;
            if ls == [] || remaining == 0 then FillWalk(ls, requested, p).value == p
            else
              var x := TakeExact(ls[0], remaining);
              var p' := Processed(p.quantity + x, p.weighted + ls[0].price * x, ls[0].price);
              && 0 < x <= remaining && FillWalk(ls, requested, p) == FillWalk(ls[1..], requested, p')
              && FillTakes(ls, remaining) == [x] + FillTakes(ls[1..], remaining - x)
  {
  }

  lemma {:induction false} NothingFilled(ls: seq<Level>, remaining: int)
    requires remaining <= 0
    ensures Shares(FillTakes(ls, remaining)) == 0 && Weighted(ls, FillTakes(ls, remaining)) == 0
    ensures forall last :: WorstOf(ls, FillTakes(ls, remaining), last) == last
    ensures forall i | 0 <= i < |ls| :: FillTakes(ls, remaining)[i] == 0
  {
    if ls != [] {
      NothingFilled(ls[1..], remaining);
    }
  }

  /** A fill takes every level whole before the last one it uses. */
  lemma {:induction false} FillIsGreedy(ls: seq<Level>, remaining: nat)
    ensures var xs := FillTakes(ls, remaining);
            Within(ls, xs) && (forall i, j | 0 <= i < j < |ls| && xs[j] > 0 :: xs[i] == ls[i].quantity)
    decreases |ls|
  {
    if ls != [] {
      var x := TakeExact(ls[0], remaining);
      var xs, rest := FillTakes(ls, remaining), FillTakes(ls[1..], remaining - x);
      FillIsGreedy(ls[1..], remaining - x);
      assert xs[0] == x && xs[1..] == rest;
      if remaining - x <= 0 {
        NothingFilled(ls[1..], remaining - x);
      }
      assert forall j | 1 <= j < |ls| :: xs[j] == rest[j - 1] && ls[j] == ls[1..][j - 1];
    }
  }

  lemma ValueTakeFacts(l: Level, remaining: nat)
    requires ValidLevel(l)
    ensures TakeValue(l, remaining) <= l.quantity && Cost(l, TakeValue(l, remaining)) <= remaining
  {
    if remaining > 0 && Cost(l, l.quantity) > remaining {
      var x := Quotient(remaining * ONE, l.price);
      FloorBounds(l.price * l.quantity);
      FloorBounds(l.price * x);
      if l.quantity < x {
        MulMonotone(l.quantity, x, l.price);
      }
    }
  }

  /** A successful value walk bought a feasible allocation that costs, floored per level, at most the value. */
  lemma {:induction false} ValueWalkSums(ls: seq<Level>, value: nat, shares: nat, spent: nat)
    requires spent <= value && ValueWalk(ls, value, shares, spent).Ok?
    ensures var xs := ValueTakes(ls, value - spent);
            && ValueWalk(ls, value, shares, spent).value == shares + Shares(xs)
            && Within(ls, xs) && spent + Spent(ls, xs) <= value
    decreases |ls|
  {
    hide Cost, TakeValue;
    if ls != [] {
      var remaining := value - spent;
      if remaining <= 0 {
        NothingBought(ls, remaining);
      } else {
        var x := TakeValue(ls[0], remaining);
        ValueTakeFacts(ls[0], remaining);
        var xs, rest := ValueTakes(ls, remaining), ValueTakes(ls[1..], remaining - Cost(ls[0], x));
        assert xs[0] == x && xs[1..] == rest;
        ValueWalkSums(ls[1..], value, shares + x, spent + Cost(ls[0], x));
        assert forall j | 1 <= j < |ls| :: xs[j] == rest[j - 1] && ls[j] == ls[1..][j - 1];
      }
    }
  }

  lemma {:induction false} NothingBought(ls: seq<Level>, remaining: int)
    requires remaining <= 0
    ensures Shares(ValueTakes(ls, remaining)) == 0 && Spent(ls, ValueTakes(ls, remaining)) == 0
    ensures forall i | 0 <= i < |ls| :: ValueTakes(ls, remaining)[i] == 0
  {
    if ls != [] {
      ZeroCost(ls[0]);
      NothingBought(ls[1..], remaining);
    }
  }

  // ---- A value walk can always be re-walked by quantity ----

  /** If the value walk succeeds with some shares, filling at most that many finds valid levels and enough liquidity. */
  lemma {:induction false} RewalkSucceeds(ls: seq<Level>, value: nat, shares: nat, spent: nat, requested: nat, p: Processed)
    requires ValueWalk(ls, value, shares, spent).Ok? && spent <= value
    requires requested <= ValueWalk(ls, value, shares, spent).value
    requires shares <= p.quantity || requested <= p.quantity
    requires p.quantity <= requested
    ensures FillWalk(ls, requested, p).Ok? && FillWalk(ls, requested, p).value.quantity == requested
    decreases |ls|
  {
    hide Cost, TakeValue;
    if ls != [] {
      if requested > p.quantity && value - spent > 0 {
        var x := TakeValue(ls[0], value - spent);
        ValueTakeFacts(ls[0], value - spent);
        var y := TakeExact(ls[0], requested - p.quantity);
        RewalkSucceeds(ls[1..], value, shares + x, spent + Cost(ls[0], x), requested,
                       Processed(p.quantity + y, p.weighted + ls[0].price * y, ls[0].price));
      }
    }
  }

  lemma ValueRewalks(ls: seq<Level>, value: nat, requested: nat)
    requires ValueWalk(ls, value, 0, 0).Ok? && requested <= ValueWalk(ls, value, 0, 0).value
    ensures ProcessBook(ls, requested).Ok?
  {
    RewalkSucceeds(ls, value, 0, 0, requested, Processed(0, 0, 0));
  }

  // ---- Bounds ----

  /** On sorted asks, filling a quantity is at least as cheap as any allocation with as many shares. */
  lemma FillIsCheapest(ls: seq<Level>, requested: nat, ys: seq<nat>)
    requires Ascending(ls) && Within(ls, ys) && Shares(FillTakes(ls, requested)) <= Shares(ys)
    ensures Weighted(ls, FillTakes(ls, requested)) <= Weighted(ls, ys)
  {
    hide FillTakes, Shares, Weighted, Touched;
    var xs := FillTakes(ls, requested);
    FillIsGreedy(ls, requested);
    TouchedHasShares(xs);
    if Touched(xs) == 0 {
      UntouchedIsZero(ls, xs, 0);
    } else {
      var k := LastUsed(ls, xs, 0);
      Exchange(ls, xs, ys, ls[k].price);
      FewerIsLess(ls[k].price, Shares(ys), Shares(xs), Weighted(ls, ys), Weighted(ls, xs));
    }
  }

  lemma {:induction false} TouchedBelow(xs: seq<nat>)
    ensures Touched(xs) <= |xs|
  {
    if xs != [] {
      TouchedBelow(xs[1..]);
    }
  }

  /** The facts of a successful fill that the amount formulas rest on. */
  lemma ProcessFacts(ls: seq<Level>, requested: nat)
    requires ProcessBook(ls, requested).Ok? && requested > 0
    ensures var p, xs := ProcessBook(ls, requested).value, FillTakes(ls, requested);
            && p.quantity == requested == Shares(xs) && p.weighted == Weighted(ls, xs) && p.last == WorstOf(ls, xs, 0)
            && (Ascending(ls) ==> p.weighted <= p.last * requested)
            && (Descending(ls) ==> p.last * requested <= p.weighted)
            && p.last <= ONE
  {
    hide FillWalk, FillTakes, Shares, Weighted, Touched, WorstOf;
    var xs := FillTakes(ls, requested);
    FillWalkSums(ls, requested, Processed(0, 0, 0));
    FillIsGreedy(ls, requested);
    TouchedHasShares(xs);
    var k := LastUsed(ls, xs, 0);
    if Ascending(ls) {
      WeightedBounds(ls, xs, 0, ls[k].price);
    }
    if Descending(ls) {
      WeightedBounds(ls, xs, ls[k].price, ls[0].price);
    }
    LastIsValid(ls, requested, Processed(0, 0, 0));
  }

  lemma {:induction false} LastIsValid(ls: seq<Level>, requested: nat, p: Processed)
    requires FillWalk(ls, requested, p).Ok? && p.last <= ONE
    ensures FillWalk(ls, requested, p).value.last <= ONE
    decreases |ls|
  {
    if ls != [] && requested - p.quantity > 0 {
      var x := TakeExact(ls[0], requested - p.quantity);
      LastIsValid(ls[1..], requested, Processed(p.quantity + x, p.weighted + ls[0].price * x, ls[0].price));
    }
  }

  /** A value buy never fails for missing liquidity or an invalid level once its walk succeeded. */
  lemma ValueBuyNeverStarves(value: nat, slippage: nat, minOut: bool, asks: seq<Level>, bids: seq<Level>)
    requires value >= ONE && ValueWalk(asks, value, 0, 0).Ok? && ValueWalk(asks, value, 0, 0).value > 0
    ensures MarketValue(value, slippage, minOut, asks, bids).Ok?
            || MarketValue(value, slippage, minOut, asks, bids).code in {InvalidQuantity, NumericOverflow}
  {
    hide ValueWalk, ProcessBook, TruncateSignificant;
    var shares := ValueWalk(asks, value, 0, 0).value;
    var quantity := TruncateSignificant(shares, 5);
    TruncationBelow(shares, 5);
    TruncationBelow(quantity, 5);
    ValueRewalks(asks, value, TruncateSignificant(quantity, 5));
  }

  /** In min-amount-out mode on sorted asks the maker amount is below the requested value plus one wei per level. */
  lemma MinOutMakerBound(value: nat, slippage: nat, asks: seq<Level>, bids: seq<Level>)
    requires Ascending(asks) && MarketValue(value, slippage, true, asks, bids).Ok?
    ensures MarketValue(value, slippage, true, asks, bids).value.maker < value + |asks|
  {
    hide ValueWalk, ProcessBook, TruncateSignificant, ValueTakes, FillTakes, Spent, Weighted, Shares, Touched, Reduced, Cost;
    var shares := ValueWalk(asks, value, 0, 0).value;
    var xs := ValueTakes(asks, value);
    ValueWalkSums(asks, value, 0, 0);
    var quantity := TruncateSignificant(TruncateSignificant(shares, 5), 5);
    TruncationBelow(shares, 5);
    TruncationBelow(TruncateSignificant(shares, 5), 5);
    ProcessFacts(asks, quantity);
    FillIsCheapest(asks, quantity, xs);
    SpentBounds(asks, xs);
    TouchedHasShares(xs);
    TouchedBelow(xs);
    FloorBounds(ProcessBook(asks, quantity).value.weighted);
  }

  /** In the other buy mode on sorted asks the maker amount covers the floored walk cost and never exceeds the
      quantity. */
  lemma BuyMakerBounds(raw: nat, slippage: nat, asks: seq<Level>, bids: seq<Level>)
    requires Ascending(asks) && MarketQuantity(Buy, raw, slippage, false, asks, bids).Ok?
    ensures var a := MarketQuantity(Buy, raw, slippage, false, asks, bids).value;
            ProcessBook(asks, a.amount).Ok? && ProcessBook(asks, a.amount).value.weighted / ONE <= a.maker <= a.amount == a.taker
  {
    hide ProcessBook, TruncateSignificant, FillTakes, Shares, Weighted, WorstOf;
    var quantity := TruncateSignificant(raw, 5);
    ProcessFacts(asks, quantity);
    var p := ProcessBook(asks, quantity).value;
    DivMonotone(p.weighted, p.last * quantity, ONE);
    MulMonotone(p.last, ONE, quantity);
    FloorBounds(p.last * quantity);
    var base := p.last * quantity / ONE;
    FloorIsSmaller(p.last * quantity, quantity);
    Inflation(base, slippage);
  }

  lemma FloorIsSmaller(n: nat, q: nat)
    requires n <= ONE * q
    ensures n / ONE <= q
  {
  }

  lemma Inflation(base: nat, slippage: nat)
    ensures base <= base * (BASIS_POINTS + slippage) / BASIS_POINTS
  {
    assert base * (BASIS_POINTS + slippage) == base * BASIS_POINTS + base * slippage;
    MulMonotone(0, slippage, base);
  }

  lemma Deflation(base: nat, slippage: nat)
    ensures Reduced(base, slippage) <= base
  {
    if slippage <= BASIS_POINTS {
      MulMonotone(BASIS_POINTS - slippage, BASIS_POINTS, base);
      assert base * (BASIS_POINTS - slippage) <= base * BASIS_POINTS;
    }
  }

  /** A quantity sale on sorted bids asks for no more than the floored walk proceeds. */
  lemma SellTakerBound(raw: nat, slippage: nat, minOut: bool, asks: seq<Level>, bids: seq<Level>)
    requires Descending(bids) && MarketQuantity(Sell, raw, slippage, minOut, asks, bids).Ok?
    ensures var a := MarketQuantity(Sell, raw, slippage, minOut, asks, bids).value;
            ProcessBook(bids, a.amount).Ok? && a.maker == a.amount
            && a.taker <= ProcessBook(bids, a.amount).value.weighted / ONE
  {
    hide ProcessBook, TruncateSignificant, FillTakes, Shares, Weighted, WorstOf, Reduced;
    var quantity := TruncateSignificant(raw, 5);
    ProcessFacts(bids, quantity);
    var p := ProcessBook(bids, quantity).value;
    DivMonotone(p.last * quantity, p.weighted, ONE);
    Deflation(p.last * quantity / ONE, slippage);
  }
}
