/** What the maker and taker amounts of a market order are, from the levels of the book and the slippage. */
module AmountProperties {
  import opened Foundations
  import opened Numerals
  import opened Ladder
  import opened Liquidity
  import opened LiquidityProperties
  import opened OrderAmounts

  // ---- Rounding and slippage ----

  lemma QuotientIsFloor(n: nat, d: nat)
    requires d > 0
    ensures FloorOf(Quotient(n, d), n, d) && FloorOf(n / d, n, d)
  {
    DivBounds(n, d);
    var q := Quotient(n, d);
    Spread(d, q, 1);
  }

  /** `t` is `base` less the slippage, rounded down; more than all of it leaves nothing. */
  ghost predicate Discounted(t: nat, base: nat, slippage: nat) {
    if slippage > 10_000 then t == 0 else t * 10_000 <= base * (10_000 - slippage) < (t + 1) * 10_000
  }

  /** `m` is `base` and the slippage on top, rounded down, but at most the quantity; without slippage exactly `base`. */
  ghost predicate MarkedUp(m: nat, base: nat, slippage: nat, quantity: nat) {
    if slippage == 0 then m == base
    else exists top: nat :: FloorOf(top, base * (10_000 + slippage), 10_000) && m == Min(top, quantity)
  }

  lemma ReducedIs(base: nat, slippage: nat)
    ensures Discounted(Reduced(base, slippage), base, slippage)
  {
    if slippage <= BASIS_POINTS {
      QuotientIsFloor(base * (BASIS_POINTS - slippage), BASIS_POINTS);
    }
  }

  lemma MakerIs(p: Processed, quantity: nat, slippage: nat)
    ensures MarkedUp(BuyMaker(p, quantity, slippage), p.last * quantity / ONE, slippage, quantity)
  {
    var base := p.last * quantity / ONE;
    QuotientIsFloor(base * (BASIS_POINTS + slippage), BASIS_POINTS);
  }

  // ---- Amounts for a quantity ----

  /** The amounts of an order for `a.amount` shares that fills `xs` of the ladder and last uses level `k`. `base` is the
      collateral of the whole quantity at that level's price; in min-amount-out mode, the shares that the exact cost of
      the fill buys at that price. */
  ghost predicate AmountsOf(side: Side, slippage: nat, minOut: bool, ls: seq<Level>, a: Amounts, k: nat, base: nat) {
    var xs := FillTakes(ls, a.amount);
    && Within(ls, xs) && Shares(xs) == a.amount && LastAt(xs, k) && a.last == ls[k].price
    && (forall i | 0 <= i < k :: xs[i] == ls[i].quantity)
    && FloorOf(a.average, Weighted(ls, xs), a.amount)
    && if side == Buy && minOut then
         FloorOf(a.maker, Weighted(ls, xs), ONE) && FloorOf(base, Weighted(ls, xs), a.last) && Discounted(a.taker, base, slippage)
       else
         && FloorOf(base, a.last * a.amount, ONE)
         && if side == Buy then MarkedUp(a.maker, base, slippage, a.amount) && a.taker == a.amount
            else a.maker == a.amount && Discounted(a.taker, base, slippage)
  }

  /** Every market order for a quantity keeps the leading five digits of it, and its amounts follow from the fill of that
      quantity and the price of the last level the fill uses, which has a positive price. */
  lemma QuantityAmounts(side: Side, raw: nat, slippage: nat, minOut: bool, asks: seq<Level>, bids: seq<Level>)
    returns (k: nat, base: nat)
    requires MarketQuantity(side, raw, slippage, minOut, asks, bids).Ok?
    ensures var a, ls := MarketQuantity(side, raw, slippage, minOut, asks, bids).value, if side == Buy then asks else bids;
            && side in {Buy, Sell} && a.amount == TruncateSignificant(raw, 5) && a.amount >= 10_000_000_000_000_000
            && a.last > 0 && AmountsOf(side, slippage, minOut, ls, a, k, base)
  {
    hide ProcessBook, TruncateSignificant, FillTakes, Shares, Weighted, WorstOf, Reduced, BuyMaker, Discounted, MarkedUp, FloorOf, Touched;
    var ls, quantity := if side == Buy then asks else bids, TruncateSignificant(raw, 5);
    var p, xs := ProcessBook(ls, quantity).value, FillTakes(ls, quantity);
    ProcessFacts(ls, quantity);
    FillIsGreedy(ls, quantity);
    TouchedHasShares(xs);
    k := LastUsed(ls, xs, 0);
    LastIsPositive(ls, quantity, k);
    QuotientIsFloor(p.weighted, quantity);
    if side == Buy && minOut {
      base := Quotient(p.weighted, p.last);
      QuotientIsFloor(p.weighted, p.last);
      QuotientIsFloor(p.weighted, ONE);
    } else {
      base := p.last * quantity / ONE;
      QuotientIsFloor(p.last * quantity, ONE);
    }
    ReducedIs(base, slippage);
    MakerIs(p, quantity, slippage);
  }

  /** A fill that succeeds uses valid levels only. */
  lemma LastIsPositive(ls: seq<Level>, quantity: nat, k: nat)
    requires ProcessBook(ls, quantity).Ok? && LastAt(FillTakes(ls, quantity), k)
    ensures ls[k].price > 0
  {
    hide FillTakes;
    UsedAreValid(ls, quantity, Processed(0, 0, 0), k);
  }

  lemma {:induction false} UsedAreValid(ls: seq<Level>, requested: nat, p: Processed, k: nat)
    requires p.quantity <= requested && FillWalk(ls, requested, p).Ok? && k < |ls|
    requires FillTakes(ls, requested - p.quantity)[k] > 0
    ensures ValidLevel(ls[k])
    decreases |ls|
  {
    hide FillWalk, FillTakes, TakeExact;
    FillStep(ls, requested, p);
    if requested == p.quantity {
      NothingFilled(ls, 0);
      assert false;
    } else if k > 0 {
      var x := TakeExact(ls[0], requested - p.quantity);
      assert FillTakes(ls, requested - p.quantity)[k] == FillTakes(ls[1..], requested - p.quantity - x)[k - 1];
      UsedAreValid(ls[1..], requested, Processed(p.quantity + x, p.weighted + ls[0].price * x, ls[0].price), k - 1);
    } else {
      FirstIsValid(ls, requested, p);
    }
  }

  lemma FirstIsValid(ls: seq<Level>, requested: nat, p: Processed)
    requires ls != [] && FillWalk(ls, requested, p).Ok?
    ensures ValidLevel(ls[0])
  {
  }

  // ---- When a fill succeeds ----

  /** The first `n` levels hold the quantity, and they and the next one, which is looked at before the loop ends, are valid. */
  ghost predicate Fillable(ls: seq<Level>, requested: int, n: nat) {
    && n <= |ls| && Shares(Quantities(ls[..n])) >= requested
    && forall i | 0 <= i < n + 1 && i < |ls| :: ValidLevel(ls[i])
  }

  ghost predicate CanFill(ls: seq<Level>, requested: int) { exists n: nat :: Fillable(ls, requested, n) }

  /** A fill succeeds exactly on a ladder whose leading levels hold the quantity and are valid; otherwise it fails with an
      order-book error. */
  lemma ProcessDecides(ls: seq<Level>, requested: nat)
    ensures ProcessBook(ls, requested).Ok? <==> CanFill(ls, requested)
    ensures ProcessBook(ls, requested).Err? ==> ProcessBook(ls, requested).code == InvalidOrderbook
  {
    hide FillWalk, CanFill;
    WalkDecides(ls, requested, Processed(0, 0, 0));
  }

  ghost predicate Walks(ls: seq<Level>, requested: nat, p: Processed) {
    var r := FillWalk(ls, requested, p);
    r.Ok? && r.value.quantity >= requested
  }

  lemma {:induction false} WalkDecides(ls: seq<Level>, requested: nat, p: Processed)
    requires p.quantity <= requested
    ensures Walks(ls, requested, p) <==> CanFill(ls, requested - p.quantity)
    ensures FillWalk(ls, requested, p).Err? ==> FillWalk(ls, requested, p).code == InvalidOrderbook
    decreases |ls|
  {
    hide CanFill, TakeExact;
    var need := requested - p.quantity;
    FillableEnds(ls, need);
    if ls != [] && ValidLevel(ls[0]) && need > 0 {
      var x := TakeExact(ls[0], need);
      TakesMin(ls[0], need);
      WalkDecides(ls[1..], requested, Processed(p.quantity + x, p.weighted + ls[0].price * x, ls[0].price));
      FillableStep(ls, need);
    }
  }

  lemma TakesMin(l: Level, need: nat)
    requires need > 0
    ensures TakeExact(l, need) == Min(need, l.quantity)
  {
  }

  lemma FillableEnds(ls: seq<Level>, need: nat)
    ensures ls == [] ==> (CanFill(ls, need) <==> need == 0)
    ensures ls != [] && !ValidLevel(ls[0]) ==> !CanFill(ls, need)
    ensures ls != [] && ValidLevel(ls[0]) && need == 0 ==> CanFill(ls, need)
  {
    assert Quantities(ls[..0]) == [];
    assert need == 0 && (ls != [] ==> ValidLevel(ls[0])) ==> Fillable(ls, need, 0);
  }

  lemma FillableStep(ls: seq<Level>, need: nat)
    requires ls != [] && ValidLevel(ls[0]) && need > 0
    ensures CanFill(ls, need) <==> CanFill(ls[1..], need - Min(need, ls[0].quantity))
  {
    hide ValidLevel;
    var rest := need - Min(need, ls[0].quantity);
    if CanFill(ls, need) {
      var n: nat :| Fillable(ls, need, n);
      assert n > 0 by {
        assert Quantities(ls[..0]) == [];
      }
      LeadingShares(ls, n);
      assert forall i | 0 <= i < n && i < |ls| - 1 :: ls[1..][i] == ls[i + 1];
      assert Fillable(ls[1..], rest, n - 1);
    }
    if CanFill(ls[1..], rest) {
      var m: nat :| Fillable(ls[1..], rest, m);
      LeadingShares(ls, m + 1);
      forall i | 0 <= i < m + 2 && i < |ls| ensures ValidLevel(ls[i]) {
        assert i > 0 ==> ls[i] == ls[1..][i - 1];
      }
      assert Fillable(ls, need, m + 1);
    }
  }

  lemma LeadingShares(ls: seq<Level>, n: nat)
    requires 0 < n <= |ls|
    ensures Shares(Quantities(ls[..n])) == ls[0].quantity + Shares(Quantities(ls[1..][..n - 1]))
  {
    assert Quantities(ls[..n])[1..] == Quantities(ls[1..][..n - 1]);
  }

  /** Which of the refusals a quantity order meets, in the order they are tested. */
  lemma QuantityDecides(side: Side, raw: nat, slippage: nat, minOut: bool, asks: seq<Level>, bids: seq<Level>)
    ensures var r, quantity := MarketQuantity(side, raw, slippage, minOut, asks, bids), TruncateSignificant(raw, 5);
            var ls := if side == Buy then asks else bids;
            if quantity < 10_000_000_000_000_000 then r == Err(InvalidQuantity)
            else if side == UnknownSide then r == Err(InvalidArgument)
            else if !CanFill(ls, quantity) then r == Err(InvalidOrderbook)
            else r.Ok? || r == Err(NumericOverflow)
  {
    hide ProcessBook, TruncateSignificant, Reduced, BuyMaker, CanFill;
    ProcessDecides(if side == Buy then asks else bids, TruncateSignificant(raw, 5));
  }

  // ---- Spending a value ----

  /** What is left of the value before level `i`. */
  function Left(ls: seq<Level>, xs: seq<nat>, value: nat, i: nat): int
    requires |ls| == |xs| && i <= |ls|
  {
    value - Spent(ls[..i], xs[..i])
  }

  /** A level is taken whole exactly when what is left pays its rounded cost; otherwise as many shares are taken as what
      is left pays for, so that one more unit would cost more. */
  ghost predicate BoughtAt(l: Level, x: nat, left: int) {
    if left <= 0 then x == 0
    else if Cost(l, l.quantity) <= left then x == l.quantity
    else FloorOf(x, left * ONE, l.price)
  }

  lemma {:induction false} ValueTakesAre(ls: seq<Level>, value: nat, i: nat)
    requires i < |ls| && forall j | 0 <= j <= i :: ValidLevel(ls[j])
    ensures BoughtAt(ls[i], ValueTakes(ls, value)[i], Left(ls, ValueTakes(ls, value), value, i))
    decreases |ls|
  {
    hide Cost, BoughtAt, TakeValue;
    var x := TakeValue(ls[0], value);
    var xs, rest := ValueTakes(ls, value), ValueTakes(ls[1..], value - Cost(ls[0], x));
    assert xs[0] == x && xs[1..] == rest;
    if i == 0 {
      assert Spent(ls[..0], xs[..0]) == 0;
      TakeValueIs(ls[0], value);
    } else {
      ValueTakeFacts(ls[0], value);
      ValueTakesAre(ls[1..], value - Cost(ls[0], x), i - 1);
      assert ls[..i][1..] == ls[1..][..i - 1] && xs[..i][1..] == rest[..i - 1];
    }
  }

  lemma TakeValueIs(l: Level, left: int)
    requires ValidLevel(l)
    ensures BoughtAt(l, TakeValue(l, left), left)
  {
    hide Cost;
    if left > 0 {
      QuotientIsFloor(left * ONE, l.price);
    }
  }

  /** The shares a value buy orders: the leading five digits of what the value walk buys, level by level. */
  lemma ValueAmounts(value: nat, slippage: nat, minOut: bool, asks: seq<Level>, bids: seq<Level>) returns (k: nat, base: nat)
    requires MarketValue(value, slippage, minOut, asks, bids).Ok?
    ensures var a, shares := MarketValue(value, slippage, minOut, asks, bids).value, Shares(ValueTakes(asks, value));
            && value >= ONE && a.amount == TruncateSignificant(shares, 5)
            && Within(asks, ValueTakes(asks, value)) && Spent(asks, ValueTakes(asks, value)) <= value
            && AmountsOf(Buy, slippage, minOut, asks, a, k, base)
  {
    hide ValueWalk, ValueTakes, TruncateSignificant, MarketQuantity, AmountsOf, Spent, Shares;
    ValueWalkSums(asks, value, 0, 0);
    var shares := ValueWalk(asks, value, 0, 0).value;
    k, base := QuantityAmounts(Buy, TruncateSignificant(shares, 5), slippage, minOut, asks, bids);
    TruncationIsIdempotent(shares, 5);
  }

  /** Truncating again changes nothing. */
  lemma TruncationIsIdempotent(value: nat, digits: nat)
    requires digits > 0
    ensures TruncateSignificant(TruncateSignificant(value, digits), digits) == TruncateSignificant(value, digits)
  {
    hide DecimalText, DecimalValue;
    var text, t := DecimalText(value), TruncateSignificant(value, digits);
    if value > 0 && |text| > digits {
      TruncationKeepsLeadingDigits(value, digits);
      var kept := text[..digits] + Zeros(|text| - digits);
      TextIs(kept);
      assert DecimalText(t) == kept && kept[..digits] == text[..digits];
      TruncationKeepsLeadingDigits(t, digits);
    }
  }

  /** The text of a number is the only numeral without a leading zero that denotes it. */
  lemma TextIs(t: Text)
    requires IsDigits(t) && t != [] && t[0] != 48
    ensures DecimalText(DecimalValue(t)) == t && DecimalValue(t) > 0
  {
    hide DecimalText, DecimalValue, Pow10;
    var n := DecimalValue(t);
    DecimalLowerBound(t);
    var u := DecimalText(n);
    DecimalLowerBound(u);
    DecimalBound(t);
    DecimalBound(u);
    SameLength(|t|, |u|);
    LexIsNumeric(t, u);
  }

  lemma SameLength(a: nat, b: nat)
    requires a > 0 && b > 0 && Pow10(a - 1) < Pow10(b) && Pow10(b - 1) < Pow10(a)
    ensures a == b
  {
    if a < b {
      PowerGrows(a, b - 1);
    } else if b < a {
      PowerGrows(b, a - 1);
    }
  }

  lemma PowerGrows(a: nat, b: nat)
    requires a <= b
    ensures Pow10(a) <= Pow10(b)
  {
    Pow10Sum(b - a, a);
    MulMonotone(1, Pow10(b - a), Pow10(a));
  }
}
