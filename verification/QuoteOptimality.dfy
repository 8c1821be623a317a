/** Exactly when a market-buy quote is optimal, although it skips levels worth less than one wei. */
module QuoteOptimality {
  import opened Foundations
  import opened Ladder
  import opened Liquidity
  import opened LiquidityProperties
  import opened OrderAmounts

  /** No allocation within the level sizes whose exact cost is at most the quoted one buys more shares. */
  ghost predicate Optimal(ls: seq<Level>, value: nat) {
    forall ys | Within(ls, ys) && Weighted(ls, ys) <= Weighted(ls, BuyTakes(ls, value)) ::
      Shares(ys) <= Shares(BuyTakes(ls, value))
  }

  lemma {:induction false} FillShares(ls: seq<Level>, n: nat)
    ensures Shares(FillTakes(ls, n)) == Min(n, Shares(Quantities(ls)))
    decreases |ls|
  {
    if ls != [] {
      FillShares(ls[1..], n - TakeExact(ls[0], n));
      assert Quantities(ls)[1..] == Quantities(ls[1..]);
    }
  }

  lemma {:induction false} WithinIsFewer(ls: seq<Level>, ys: seq<nat>)
    requires Within(ls, ys)
    ensures Shares(ys) <= Shares(Quantities(ls))
    decreases |ls|
  {
    if ls != [] {
      WithinIsFewer(ls[1..], ys[1..]);
      assert Quantities(ls)[1..] == Quantities(ls[1..]);
    }
  }

  /** On sorted asks the quote is optimal exactly when it has bought the whole ladder, or filling one unit more from the
      cheapest levels, dust included, costs more than the quote did. */
  lemma OptimalIff(ls: seq<Level>, value: nat)
    requires ValidLevels(ls) && Ascending(ls)
    ensures var xs := BuyTakes(ls, value);
            Optimal(ls, value) <==>
              || Shares(xs) == Shares(Quantities(ls))
              || Weighted(ls, FillTakes(ls, Shares(xs) + 1)) > Weighted(ls, xs)
  {
    hide BuyTakes, BuyWalk, FillTakes, Weighted, Shares, Quantities;
    var xs := BuyTakes(ls, value);
    var more := FillTakes(ls, Shares(xs) + 1);
    FillShares(ls, Shares(xs) + 1);
    FillIsGreedy(ls, Shares(xs) + 1);
    forall ys | Within(ls, ys) && Shares(ys) > Shares(xs)
      ensures Shares(xs) < Shares(Quantities(ls)) && Weighted(ls, more) <= Weighted(ls, ys)
    {
      WithinIsFewer(ls, ys);
      FillIsCheapest(ls, Shares(xs) + 1, ys);
    }
    BuyWalkSucceeds(ls, value, START);
    BuyIsGreedy(ls, value, START);
    WithinIsFewer(ls, xs);
  }

  /** Dust does harm only below the last price used: without such dust the quote is optimal. */
  lemma OptimalUnlessDustIsCheaper(ls: seq<Level>, value: nat)
    requires ValidLevels(ls) && Ascending(ls)
    requires forall i | 0 <= i < |ls| && Dust(ls[i]) :: ls[i].price >= WorstOf(ls, BuyTakes(ls, value), 0)
    ensures Optimal(ls, value)
  {
    hide Cost, Dust, BuyTakes, BuyWalk, Weighted, Shares, Touched, WorstOf;
    var xs := BuyTakes(ls, value);
    BuyWalkSucceeds(ls, value, START);
    BuyIsGreedy(ls, value, START);
    forall ys | Within(ls, ys) && Weighted(ls, ys) <= Weighted(ls, xs)
      ensures Shares(ys) <= Shares(xs)
    {
      if Touched(xs) == 0 {
        UntouchedIsZero(ls, xs, 0);
        SharesBelowWeighted(ls, ys);
      } else {
        var k := LastUsed(ls, xs, 0);
        Exchange(ls, xs, ys, ls[k].price);
        PivotDecides(ls[k].price, Shares(xs), Shares(ys), Weighted(ls, xs), Weighted(ls, ys));
      }
    }
  }

  // ---- One condition for every value ----

  /** The ladder without its dust: the levels that a quote can use. */
  function Solids(ls: seq<Level>): (r: seq<Level>)
    ensures |r| == |ls|
    ensures forall i | 0 <= i < |ls| :: r[i] == Level(ls[i].price, if Dust(ls[i]) then 0 else ls[i].quantity)
  {
    seq(|ls|, i requires 0 <= i < |ls| => Level(ls[i].price, if Dust(ls[i]) then 0 else ls[i].quantity))
  }

  lemma SolidsTail(ls: seq<Level>)
    requires ls != []
    ensures Solids(ls)[0] == Level(ls[0].price, if Dust(ls[0]) then 0 else ls[0].quantity) && Solids(ls)[1..] == Solids(ls[1..])
  {
    hide Dust;
  }

  lemma {:induction false} SolidsCost(ls: seq<Level>, xs: seq<nat>)
    requires |ls| == |xs|
    ensures Weighted(Solids(ls), xs) == Weighted(ls, xs)
    decreases |ls|
  {
    hide Dust;
    if ls != [] {
      SolidsTail(ls);
      SolidsCost(ls[1..], xs[1..]);
    }
  }

  function Size(ls: seq<Level>): nat { if ls == [] then 0 else ls[0].quantity + Size(ls[1..]) }

  lemma {:induction false} SizeIs(ls: seq<Level>)
    ensures Shares(Quantities(ls)) == Size(ls)
    decreases |ls|
  {
    if ls != [] {
      SizeIs(ls[1..]);
      assert Quantities(ls)[1..] == Quantities(ls[1..]);
    }
  }

  lemma {:induction false} SolidsAreFewer(ls: seq<Level>)
    ensures Size(Solids(ls)) <= Size(ls)
    decreases |ls|
  {
    hide Dust;
    if ls != [] {
      SolidsTail(ls);
      SolidsAreFewer(ls[1..]);
    }
  }

  /** The price of the unit after the first `n`. */
  function Margin(ls: seq<Level>, n: nat): nat
    requires n < Size(ls)
    decreases |ls|
  {
    if n < ls[0].quantity then ls[0].price else Margin(ls[1..], n - ls[0].quantity)
  }

  lemma {:induction false} FillGrows(ls: seq<Level>, n: nat)
    requires n < Size(ls)
    ensures Weighted(ls, FillTakes(ls, n + 1)) == Weighted(ls, FillTakes(ls, n)) + Margin(ls, n)
    decreases |ls|
  {
    hide Weighted, FillTakes;
    var q := ls[0].quantity;
    FillSplits(ls, n);
    FillSplits(ls, n + 1);
    if n < q {
      NothingFilled(ls[1..], 0);
      assert ls[0].price * (n + 1) == ls[0].price * n + ls[0].price;
    } else {
      FillGrows(ls[1..], n - q);
    }
  }

  lemma FillSplits(ls: seq<Level>, n: nat)
    requires ls != []
    ensures var x := Min(n, ls[0].quantity);
            && FillTakes(ls, n) == [x] + FillTakes(ls[1..], n - x)
            && Weighted(ls, FillTakes(ls, n)) == ls[0].price * x + Weighted(ls[1..], FillTakes(ls[1..], n - x))
  {
    var x := Min(n, ls[0].quantity);
    assert FillTakes(ls, n)[1..] == FillTakes(ls[1..], n - x);
  }

  lemma {:induction false} MarginAbove(ls: seq<Level>, n: nat, floor: nat)
    requires n < Size(ls) && forall i | 0 <= i < |ls| :: floor <= ls[i].price
    ensures floor <= Margin(ls, n)
    decreases |ls|
  {
    if n >= ls[0].quantity {
      MarginAbove(ls[1..], n - ls[0].quantity, floor);
    }
  }

  /** An earlier unit of the whole ladder is no dearer than a later one of its solid part. */
  lemma {:induction false} EarlierIsCheaper(ls: seq<Level>, m: nat, n: nat)
    requires Ascending(ls) && m <= n < Size(Solids(ls))
    ensures m < Size(ls) && Margin(ls, m) <= Margin(Solids(ls), n)
    decreases |ls|
  {
    hide Dust;
    SolidsTail(ls);
    SolidsAreFewer(ls);
    var s, q := Solids(ls)[0].quantity, ls[0].quantity;
    if n < s {
    } else if m < q {
      MarginAbove(Solids(ls[1..]), n - s, ls[0].price);
    } else {
      EarlierIsCheaper(ls[1..], m - q, n - s);
    }
  }

  /** Once a dust unit has come before, the whole ladder is one unit ahead of its solid part. */
  lemma {:induction false} OneAhead(ls: seq<Level>, n: nat)
    requires ValidLevels(ls) && Ascending(ls) && n < Size(Solids(ls)) && FillTakes(ls, n) != FillTakes(Solids(ls), n)
    ensures n + 1 < Size(ls) && Margin(ls, n + 1) <= Margin(Solids(ls), n)
    decreases |ls|
  {
    hide Dust, FillTakes;
    SolidsTail(ls);
    FillSplits(ls, n);
    FillSplits(Solids(ls), n);
    SolidsAreFewer(ls[1..]);
    var q := ls[0].quantity;
    assert ValidLevel(ls[0]);
    SolidStart(ls, n);
    if Dust(ls[0]) {
      if n + 1 < q {
        MarginAbove(Solids(ls[1..]), n, ls[0].price);
      } else {
        EarlierIsCheaper(ls[1..], n + 1 - q, n);
      }
    } else {
      OneAhead(ls[1..], n - q);
    }
  }

  /** Within a solid first level the two ladders are filled alike. */
  lemma SolidStart(ls: seq<Level>, n: nat)
    requires ls != []
    ensures !Dust(ls[0]) && n <= ls[0].quantity ==> FillTakes(ls, n) == FillTakes(Solids(ls), n)
  {
    hide Dust, FillTakes;
    SolidsTail(ls);
    FillSplits(ls, n);
    FillSplits(Solids(ls), n);
    NothingFilled(ls[1..], 0);
    NothingFilled(Solids(ls[1..]), 0);
    assert FillTakes(ls[1..], 0) == FillTakes(Solids(ls[1..]), 0);
  }

  /** What a quote takes is a fill of the solid part. */
  lemma {:induction false} TakesAreFill(ls: seq<Level>, remaining: int)
    requires ValidLevels(ls)
    ensures FillTakes(Solids(ls), Shares(BuyTakes(ls, remaining))) == BuyTakes(ls, remaining)
    decreases |ls|
  {
    hide Dust, Cost, FillTakes, TakeBuy;
    if ls == [] {
      assert FillTakes(Solids(ls), 0) == [];
    } else {
      var x := if remaining < 0 then 0 else TakeBuy(ls[0], remaining);
      var rest := BuyTakes(ls[1..], remaining - Cost(ls[0], x));
      assert ValidLevel(ls[0]) && BuyTakes(ls, remaining)[1..] == rest;
      SolidsTail(ls);
      TakesAreFill(ls[1..], remaining - Cost(ls[0], x));
      FillSplits(Solids(ls), Shares(BuyTakes(ls, remaining)));
      SolidTake(ls[0], remaining);
      if x < Solids(ls)[0].quantity {
        NothingTaken(ls[1..], remaining - Cost(ls[0], x));
        ZeroShares(rest);
      }
    }
  }

  lemma SolidTake(l: Level, remaining: int)
    requires ValidLevel(l)
    ensures var x := if remaining < 0 then 0 else TakeBuy(l, remaining);
            var s := if Dust(l) then 0 else l.quantity;
            x <= s && (x < s ==> remaining - Cost(l, x) <= 1)
  {
    if remaining >= 0 {
      TakeFacts(l, remaining);
    } else {
      ZeroCost(l);
    }
  }

  lemma {:induction false} ZeroShares(xs: seq<nat>)
    requires forall i | 0 <= i < |xs| :: xs[i] == 0
    ensures Shares(xs) == 0
  {
    if xs != [] {
      ZeroShares(xs[1..]);
    }
  }

  /** Enough value takes the whole solid part. */
  lemma {:induction false} EnoughTakesAll(ls: seq<Level>, value: int)
    requires ValidLevels(ls) && value >= Spent(ls, Quantities(ls)) + 2
    ensures BuyTakes(ls, value) == Quantities(Solids(ls))
    decreases |ls|
  {
    hide Cost;
    if ls != [] {
      assert ValidLevel(ls[0]) && Quantities(ls)[1..] == Quantities(ls[1..]);
      SolidsTail(ls);
      ZeroCost(ls[0]);
      EnoughTakesAll(ls[1..], value - Cost(ls[0], TakeBuy(ls[0], value)));
      assert Quantities(Solids(ls)) == [Solids(ls)[0].quantity] + Quantities(Solids(ls[1..]));
    }
  }

  /** Buying `n` solid units costs at least as much as the cheapest `n + 1` units of the ladder. */
  ghost predicate Beaten(ls: seq<Level>, n: nat) {
    n < Size(ls) && Weighted(ls, FillTakes(ls, n + 1)) <= Weighted(ls, FillTakes(Solids(ls), n))
  }

  lemma BeatenOnwards(ls: seq<Level>, n: nat)
    requires ValidLevels(ls) && Ascending(ls) && n < Size(Solids(ls)) && Beaten(ls, n)
    ensures Beaten(ls, n + 1)
  {
    hide Dust, FillTakes, Weighted, Margin;
    var solids := Solids(ls);
    FillGrows(ls, n);
    MarginAbove(ls, n, 1);
    OneAhead(ls, n);
    FillGrows(ls, n + 1);
    FillGrows(solids, n);
    SolidsCost(ls, FillTakes(solids, n));
    SolidsCost(ls, FillTakes(solids, n + 1));
  }

  lemma {:induction false} BeatenToTheEnd(ls: seq<Level>, n: nat)
    requires ValidLevels(ls) && Ascending(ls) && n <= Size(Solids(ls)) && Beaten(ls, n)
    ensures Beaten(ls, Size(Solids(ls)))
    decreases Size(Solids(ls)) - n
  {
    hide Beaten, Size, Solids;
    if n < Size(Solids(ls)) {
      BeatenOnwards(ls, n);
      BeatenToTheEnd(ls, n + 1);
    }
  }

  /** A quote is not optimal exactly when the units it took are beaten. */
  lemma OptimalOrBeaten(ls: seq<Level>, value: nat)
    requires ValidLevels(ls) && Ascending(ls)
    ensures Optimal(ls, value) <==> !Beaten(ls, Shares(BuyTakes(ls, value)))
    ensures Shares(BuyTakes(ls, value)) <= Size(Solids(ls))
  {
    hide BuyTakes, FillTakes, Weighted, Shares, Quantities, Dust, Optimal, BuyWalk;
    var xs := BuyTakes(ls, value);
    OptimalIff(ls, value);
    TakesAreFill(ls, value);
    SizeIs(ls);
    SizeIs(Solids(ls));
    FillShares(Solids(ls), Shares(xs));
    BuyWalkSucceeds(ls, value, START);
    BuyIsGreedy(ls, value, START);
    WithinIsFewer(ls, xs);
  }

  /** Every quote on a sorted ladder is optimal, whatever the value, exactly when the ladder has no dust, or the solid
      levels together cost less than the cheapest way to one unit more than they hold. */
  lemma AlwaysOptimalIff(ls: seq<Level>)
    requires ValidLevels(ls) && Ascending(ls)
    ensures var solid := Quantities(Solids(ls));
            (forall value: nat :: Optimal(ls, value)) <==>
              || Shares(solid) == Shares(Quantities(ls))
              || Weighted(ls, FillTakes(ls, Shares(solid) + 1)) > Weighted(ls, solid)
  {
    hide BuyTakes, FillTakes, Weighted, Shares, Quantities, Dust, Optimal, Beaten, Solids;
    var enough := Spent(ls, Quantities(ls)) + 2;
    EnoughTakesAll(ls, enough);
    OptimalIff(ls, enough);
    OptimalOrBeaten(ls, enough);
    SizeIs(Solids(ls));
    forall value: nat | !Optimal(ls, value)
      ensures !Optimal(ls, enough)
    {
      OptimalOrBeaten(ls, value);
      BeatenToTheEnd(ls, Shares(BuyTakes(ls, value)));
    }
  }
}
