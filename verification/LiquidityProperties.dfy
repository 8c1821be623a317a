/** What the quotes promise: exact accounting, price bounds, greedy optimality and no free round trip. */
module LiquidityProperties {
  import Foundations
  import opened Numerals
  import opened Ladder
  import opened Liquidity

  // ---- The walks are the greedy allocations ----

  function WorstOf(ls: seq<Level>, xs: seq<nat>, start: nat): nat
    requires |ls| == |xs|
  {
    if ls == [] then start else WorstOf(ls[1..], xs[1..], if xs[0] > 0 then ls[0].price else start)
  }

  lemma {:induction false} NothingLeft(ls: seq<Level>, remaining: int)
    requires remaining <= 1
    ensures Shares(BuyTakes(ls, remaining)) == 0 && Spent(ls, BuyTakes(ls, remaining)) == 0
    ensures Weighted(ls, BuyTakes(ls, remaining)) == 0 && Touched(BuyTakes(ls, remaining)) == 0
    ensures forall worst :: WorstOf(ls, BuyTakes(ls, remaining), worst) == worst
    ensures Shares(SellTakes(ls, remaining)) == 0 && Spent(ls, SellTakes(ls, remaining)) == 0
    ensures Weighted(ls, SellTakes(ls, remaining)) == 0 && Touched(SellTakes(ls, remaining)) == 0
    ensures forall worst :: WorstOf(ls, SellTakes(ls, remaining), worst) == worst
  {
    if ls != [] {
      assert Cost(ls[0], 0) == 0;
      NothingLeft(ls[1..], remaining);
    }
  }

  /** A successful buy walk has spent, bought and weighted exactly what the greedy allocation does. */
  lemma {:induction false} BuyWalkSums(ls: seq<Level>, requested: nat, w: Walk)
    requires w.value <= requested && BuyWalk(ls, requested, w).Ok?
    ensures var v, xs := BuyWalk(ls, requested, w).value, BuyTakes(ls, requested - w.value);
            && v.filled == w.filled + Shares(xs) && v.value == w.value + Spent(ls, xs)
            && v.weighted == w.weighted + Weighted(ls, xs) && v.levels == w.levels + Touched(xs)
            && v.worst == WorstOf(ls, xs, w.worst)
    decreases |ls|
  {
    hide Cost, ValidLevel, TakeBuy, Dust;
    if ls != [] {
      var remaining := requested - w.value;
      if remaining <= 1 {
        NothingLeft(ls, remaining);
      } else {
        var x, v := TakeBuy(ls[0], remaining), w.(previous := ls[0].price);
        TakeFacts(ls[0], remaining);
        ZeroCost(ls[0]);
        var w' := if x == 0 then v else Consume(v, ls[0], x);
        assert BuyTakes(ls, remaining)[1..] == BuyTakes(ls[1..], requested - w'.value);
        BuyWalkSums(ls[1..], requested, w');
      }
    }
  }

  lemma ZeroCost(l: Level)
    ensures Cost(l, 0) == 0
  {
  }

  lemma {:induction false} SellWalkSums(ls: seq<Level>, requested: nat, w: Walk)
    requires w.filled <= requested && SellWalk(ls, requested, w).Ok?
    ensures var v, xs := SellWalk(ls, requested, w).value, SellTakes(ls, requested - w.filled);
            && v.filled == w.filled + Shares(xs) && v.value == w.value + Spent(ls, xs)
            && v.weighted == w.weighted + Weighted(ls, xs) && v.levels == w.levels + Touched(xs)
            && v.worst == WorstOf(ls, xs, w.worst)
    decreases |ls|
  {
    hide Cost;
    if ls != [] {
      var remaining := requested - w.filled;
      if remaining <= 1 {
        NothingLeft(ls, remaining);
      } else {
        var x := TakeSell(ls[0], remaining);
        var w' := Consume(w.(previous := ls[0].price), ls[0], x);
        assert SellTakes(ls, remaining)[1..] == SellTakes(ls[1..], requested - w'.filled);
        SellWalkSums(ls[1..], requested, w');
      }
    }
  }

  /** On a valid, sorted ladder the walk does not fail. */
  lemma {:induction false} BuyWalkSucceeds(ls: seq<Level>, requested: nat, w: Walk)
    requires ValidLevels(ls) && Ascending(ls) && (ls != [] ==> w.previous <= ls[0].price)
    ensures BuyWalk(ls, requested, w).Ok?
    decreases |ls|
  {
    hide Cost, ValidLevel;
    if ls != [] && requested - w.value > 1 {
      assert ls[0] == ls[0];
      var x, v := TakeBuy(ls[0], requested - w.value), w.(previous := ls[0].price);
      BuyWalkSucceeds(ls[1..], requested, if x == 0 then v else Consume(v, ls[0], x));
    }
  }

  lemma {:induction false} SellWalkSucceeds(ls: seq<Level>, requested: nat, w: Walk)
    requires ValidLevels(ls) && Descending(ls) && (ls != [] ==> w.previous >= ls[0].price)
    ensures SellWalk(ls, requested, w).Ok?
    decreases |ls|
  {
    hide Cost;
    if ls != [] && requested - w.filled > 1 {
      SellWalkSucceeds(ls[1..], requested, Consume(w.(previous := ls[0].price), ls[0], TakeSell(ls[0], requested - w.filled)));
    }
  }

  const START: Walk := Walk(0, 0, 0, 0, 0, 0)
  const START_SELL: Walk := Walk(0, 0, 0, 0, ONE + 1, 0)

  // ---- The shape of the greedy allocations ----

  /** Everything before the last level used is taken whole, or is dust and skipped. */
  ghost predicate Greedy(ls: seq<Level>, xs: seq<nat>) {
    && Within(ls, xs)
    && (forall i, j | 0 <= i < j < |ls| && xs[j] > 0 :: xs[i] == ls[i].quantity || (xs[i] == 0 && Dust(ls[i])))
  }

  /** The prices of the levels used never fall, and start at `floor` or above. */
  ghost predicate UsedAscending(ls: seq<Level>, xs: seq<nat>, floor: nat)
    requires |ls| == |xs|
  {
    && (forall i | 0 <= i < |ls| && xs[i] > 0 :: floor <= ls[i].price)
    && (forall i, j | 0 <= i < j < |ls| && xs[i] > 0 && xs[j] > 0 :: ls[i].price <= ls[j].price)
  }

  ghost predicate UsedDescending(ls: seq<Level>, xs: seq<nat>, ceiling: nat)
    requires |ls| == |xs|
  {
    && (forall i | 0 <= i < |ls| && xs[i] > 0 :: ls[i].price <= ceiling)
    && (forall i, j | 0 <= i < j < |ls| && xs[i] > 0 && xs[j] > 0 :: ls[i].price >= ls[j].price)
  }

  /** Greedy, within the value, and a level is left over only as dust or with at most a wei to spend. */
  ghost predicate GreedyWithin(ls: seq<Level>, xs: seq<nat>, remaining: int) {
    && Greedy(ls, xs) && Spent(ls, xs) <= remaining
    && (forall i | 0 <= i < |ls| ::
          xs[i] == ls[i].quantity || (xs[i] == 0 && Dust(ls[i])) || remaining - Spent(ls, xs) <= 1)
  }

  lemma GreedyCons(ls: seq<Level>, xs: seq<nat>, remaining: int)
    requires ls != [] && |xs| == |ls| && xs[0] <= ls[0].quantity
    requires var left := remaining - Cost(ls[0], xs[0]);
             && (xs[0] == ls[0].quantity || (xs[0] == 0 && Dust(ls[0])) || left <= 1)
             && GreedyWithin(ls[1..], xs[1..], left)
             && (left <= 1 ==> forall i | 0 <= i < |ls| - 1 :: xs[1..][i] == 0)
    ensures GreedyWithin(ls, xs, remaining)
  {
    hide Cost, Dust;
    assert forall j | 1 <= j < |ls| :: xs[j] == xs[1..][j - 1] && ls[j] == ls[1..][j - 1];
  }

  /** One level of a walk that goes on. */
  lemma BuyStep(ls: seq<Level>, requested: nat, w: Walk) returns (next: Walk)
    requires ls != [] && w.value <= requested && requested - w.value > 1 && BuyWalk(ls, requested, w).Ok?
    ensures var remaining, x := requested - w.value, TakeBuy(ls[0], requested - w.value);
            && x <= ls[0].quantity && next.value == w.value + Cost(ls[0], x) <= requested
            && (x == ls[0].quantity || (x == 0 && Dust(ls[0])) || requested - next.value <= 1)
            && w.previous <= ls[0].price == next.previous && BuyWalk(ls[1..], requested, next).Ok?
            && BuyTakes(ls, remaining) == [x] + BuyTakes(ls[1..], requested - next.value)
  {
    hide Cost, TakeBuy, ValidLevel;
    var x, v := TakeBuy(ls[0], requested - w.value), w.(previous := ls[0].price);
    TakeFacts(ls[0], requested - w.value);
    ZeroCost(ls[0]);
    next := if x == 0 then v else Consume(v, ls[0], x);
  }

  /** A walk that succeeds, on whatever ladder, is greedy and stays within the value. */
  lemma {:induction false} BuyIsGreedy(ls: seq<Level>, requested: nat, w: Walk)
    requires w.value <= requested && BuyWalk(ls, requested, w).Ok?
    ensures GreedyWithin(ls, BuyTakes(ls, requested - w.value), requested - w.value)
    decreases |ls|
  {
    hide Cost, TakeBuy, BuyWalk, Dust;
    if ls != [] {
      var remaining := requested - w.value;
      if remaining <= 1 {
        NothingTaken(ls, remaining);
        NothingLeft(ls, remaining);
      } else {
        var next := BuyStep(ls, requested, w);
        var xs, left := BuyTakes(ls, remaining), requested - next.value;
        BuyIsGreedy(ls[1..], requested, next);
        if left <= 1 {
          NothingTaken(ls[1..], left);
        }
        assert xs[1..] == BuyTakes(ls[1..], left);
        GreedyCons(ls, xs, remaining);
      }
    }
  }

  /** A walk that succeeds uses rising prices. */
  lemma {:induction false} BuyPricesRise(ls: seq<Level>, requested: nat, w: Walk)
    requires w.value <= requested && BuyWalk(ls, requested, w).Ok?
    ensures UsedAscending(ls, BuyTakes(ls, requested - w.value), w.previous)
    decreases |ls|
  {
    hide Cost, TakeBuy, BuyWalk;
    if ls != [] {
      var remaining := requested - w.value;
      if remaining <= 1 {
        NothingTaken(ls, remaining);
      } else {
        var next := BuyStep(ls, requested, w);
        var xs, rest := BuyTakes(ls, remaining), BuyTakes(ls[1..], requested - next.value);
        BuyPricesRise(ls[1..], requested, next);
        assert forall j | 1 <= j < |ls| :: xs[j] == rest[j - 1] && ls[j] == ls[1..][j - 1];
      }
    }
  }

  lemma {:induction false} NothingTaken(ls: seq<Level>, remaining: int)
    requires remaining <= 1
    ensures forall i | 0 <= i < |ls| :: BuyTakes(ls, remaining)[i] == 0 && SellTakes(ls, remaining)[i] == 0
  {
    hide Cost;
    if ls != [] {
      ZeroCost(ls[0]);
      NothingTaken(ls[1..], remaining);
    }
  }

  /** Fills whole levels in order until at most a wei of shares is left. */
  ghost predicate SoldWithin(ls: seq<Level>, xs: seq<nat>, remaining: int) {
    && Within(ls, xs) && Shares(xs) <= remaining
    && (forall i, j | 0 <= i < j < |ls| && xs[j] > 0 :: xs[i] == ls[i].quantity)
    && (forall i | 0 <= i < |ls| :: xs[i] == ls[i].quantity || remaining - Shares(xs) <= 1)
  }

  lemma SoldCons(ls: seq<Level>, xs: seq<nat>, remaining: int)
    requires ls != [] && |xs| == |ls| && xs[0] <= ls[0].quantity
    requires var left := remaining - xs[0];
             && (xs[0] == ls[0].quantity || left <= 1) && SoldWithin(ls[1..], xs[1..], left)
             && (left <= 1 ==> forall i | 0 <= i < |ls| - 1 :: xs[1..][i] == 0)
    ensures SoldWithin(ls, xs, remaining)
  {
    assert forall j | 1 <= j < |ls| :: xs[j] == xs[1..][j - 1] && ls[j] == ls[1..][j - 1];
  }

  lemma SellStep(ls: seq<Level>, requested: nat, w: Walk) returns (next: Walk)
    requires ls != [] && w.filled <= requested && requested - w.filled > 1 && SellWalk(ls, requested, w).Ok?
    ensures var remaining, x := requested - w.filled, TakeSell(ls[0], requested - w.filled);
            && x <= ls[0].quantity && next.filled == w.filled + x <= requested
            && (x == ls[0].quantity || requested - next.filled <= 1)
            && w.previous >= ls[0].price == next.previous && SellWalk(ls[1..], requested, next).Ok?
            && SellTakes(ls, remaining) == [x] + SellTakes(ls[1..], requested - next.filled)
  {
    hide Cost;
    next := Consume(w.(previous := ls[0].price), ls[0], TakeSell(ls[0], requested - w.filled));
  }

  lemma {:induction false} SellIsGreedy(ls: seq<Level>, requested: nat, w: Walk)
    requires w.filled <= requested && SellWalk(ls, requested, w).Ok?
    ensures SoldWithin(ls, SellTakes(ls, requested - w.filled), requested - w.filled)
    ensures UsedDescending(ls, SellTakes(ls, requested - w.filled), w.previous)
    decreases |ls|
  {
    hide SellWalk, TakeSell;
    if ls != [] {
      var remaining := requested - w.filled;
      if remaining <= 1 {
        NothingTaken(ls, remaining);
        NothingLeft(ls, remaining);
      } else {
        var next := SellStep(ls, requested, w);
        var xs, left := SellTakes(ls, remaining), requested - next.filled;
        var rest := SellTakes(ls[1..], left);
        SellIsGreedy(ls[1..], requested, next);
        if left <= 1 {
          NothingTaken(ls[1..], left);
        }
        assert xs[1..] == rest;
        SoldCons(ls, xs, remaining);
        assert forall j | 1 <= j < |ls| :: xs[j] == rest[j - 1] && ls[j] == ls[1..][j - 1];
      }
    }
  }

  // ---- Level by level ----

  /** What is taken of an ask when `left` of the value remains: nothing for at most a wei, all of a level that the rest
      pays for unless it is dust, and otherwise as many shares as the rest pays for. */
  ghost predicate BoughtFrom(l: Level, x: nat, left: int) {
    if left <= 1 then x == 0
    else if Cost(l, l.quantity) <= left then x == if Dust(l) then 0 else l.quantity
    else FloorOf(x, left * ONE, l.price)
  }

  lemma {:induction false} BuyTakesAre(ls: seq<Level>, value: int, i: nat)
    requires i < |ls| && forall j | 0 <= j <= i :: ValidLevel(ls[j])
    ensures var xs := BuyTakes(ls, value); BoughtFrom(ls[i], xs[i], value - Spent(ls[..i], xs[..i]))
    decreases |ls|
  {
    hide Cost, BoughtFrom, TakeBuy, ValidLevel;
    var x := if value < 0 then 0 else TakeBuy(ls[0], value);
    var xs, rest := BuyTakes(ls, value), BuyTakes(ls[1..], value - Cost(ls[0], x));
    assert xs[0] == x && xs[1..] == rest;
    if i == 0 {
      assert Spent(ls[..0], xs[..0]) == 0;
      BoughtIs(ls[0], value);
    } else {
      BuyTakesAre(ls[1..], value - Cost(ls[0], x), i - 1);
      assert ls[..i][1..] == ls[1..][..i - 1] && xs[..i][1..] == rest[..i - 1];
    }
  }

  lemma BoughtIs(l: Level, left: int)
    requires ValidLevel(l)
    ensures BoughtFrom(l, if left < 0 then 0 else TakeBuy(l, left), left)
  {
    hide Cost, Dust;
    if left > 1 {
      DivBounds(left * ONE, l.price);
      Spread(l.price, left * ONE / l.price, 1);
    }
  }

  /** What is sold into a bid when `left` shares remain: as much as it takes, or nothing for a single wei. */
  lemma {:induction false} SellTakesAre(ls: seq<Level>, shares: int, i: nat)
    requires i < |ls|
    ensures var zs := SellTakes(ls, shares);
            var left := shares - Shares(zs[..i]);
            zs[i] == if left <= 1 then 0 else if left < ls[i].quantity then left else ls[i].quantity
    decreases |ls|
  {
    var x := TakeSell(ls[0], shares);
    var zs, rest := SellTakes(ls, shares), SellTakes(ls[1..], shares - x);
    assert zs[0] == x && zs[1..] == rest;
    if i == 0 {
      assert Shares(zs[..0]) == 0;
    } else {
      SellTakesAre(ls[1..], shares - x, i - 1);
      assert zs[..i][1..] == rest[..i - 1];
    }
  }

  // ---- First and last level used ----

  function FirstUsed(xs: seq<nat>): (k: nat)
    ensures k <= |xs| && (k < |xs| ==> xs[k] > 0) && forall i | 0 <= i < k :: xs[i] == 0
  {
    if xs == [] || xs[0] > 0 then 0 else 1 + FirstUsed(xs[1..])
  }

  lemma {:induction false} LastUsed(ls: seq<Level>, xs: seq<nat>, start: nat) returns (k: nat)
    requires |ls| == |xs| && Touched(xs) > 0
    ensures k < |xs| && xs[k] > 0 && (forall i | k < i < |xs| :: xs[i] == 0)
    ensures WorstOf(ls, xs, start) == ls[k].price
  {
    if Touched(xs[1..]) > 0 {
      k := LastUsed(ls[1..], xs[1..], if xs[0] > 0 then ls[0].price else start);
      assert forall i | k + 1 < i < |xs| :: xs[i] == xs[1..][i - 1];
      k := k + 1;
    } else {
      k := 0;
      UntouchedIsZero(ls[1..], xs[1..], ls[0].price);
      assert forall i | 0 < i < |xs| :: xs[i] == xs[1..][i - 1];
    }
  }

  lemma {:induction false} UntouchedIsZero(ls: seq<Level>, xs: seq<nat>, start: nat)
    requires |ls| == |xs| && Touched(xs) == 0
    ensures (forall i | 0 <= i < |xs| :: xs[i] == 0) && Shares(xs) == 0 && Weighted(ls, xs) == 0
    ensures WorstOf(ls, xs, start) == start
  {
    if xs != [] {
      UntouchedIsZero(ls[1..], xs[1..], start);
      assert forall i | 0 < i < |xs| :: xs[i] == xs[1..][i - 1];
    }
  }

  lemma {:induction false} TouchedHasShares(xs: seq<nat>)
    ensures Touched(xs) > 0 <==> Shares(xs) > 0
  {
    if xs != [] {
      TouchedHasShares(xs[1..]);
    }
  }

  /** `k` is the last level that the allocation uses. */
  ghost predicate LastAt(xs: seq<nat>, k: nat) { k < |xs| && xs[k] > 0 && forall i | k < i < |xs| :: xs[i] == 0 }

  /** `m` is `n / d`, rounded down. */
  predicate FloorOf(m: nat, n: nat, d: nat) { m * d <= n < (m + 1) * d }

  /** The average and worst price of a quote, from the levels it uses. */
  ghost predicate PricesOf(ls: seq<Level>, xs: seq<nat>, vwap: nat, worst: nat)
    requires |ls| == |xs|
  {
    if Shares(xs) == 0 then vwap == 0 && worst == 0
    else FloorOf(vwap, Weighted(ls, xs), Shares(xs)) && exists k: nat :: LastAt(xs, k) && worst == ls[k].price
  }

  lemma PricesAre(ls: seq<Level>, xs: seq<nat>)
    requires |ls| == |xs|
    ensures PricesOf(ls, xs, Average(Weighted(ls, xs), Shares(xs)), WorstOf(ls, xs, 0))
  {
    hide Weighted, Shares, Touched, WorstOf;
    TouchedHasShares(xs);
    if Shares(xs) == 0 {
      UntouchedIsZero(ls, xs, 0);
    } else {
      var k := LastUsed(ls, xs, 0);
      assert LastAt(xs, k);
      DivBounds(Weighted(ls, xs), Shares(xs));
      Spread(Shares(xs), Average(Weighted(ls, xs), Shares(xs)), 1);
    }
  }

  // ---- Greedy optimality ----

  /** No allocation within the level sizes that skips dust and costs at most as much as the greedy buy, in exact
      price-weighted cost, buys more shares. */
  lemma BuyIsOptimal(ls: seq<Level>, value: nat, ys: seq<nat>)
    requires ValidLevels(ls) && Ascending(ls) && Within(ls, ys)
    requires forall i | 0 <= i < |ls| && Dust(ls[i]) :: ys[i] == 0
    requires Weighted(ls, ys) <= Weighted(ls, BuyTakes(ls, value))
    ensures Shares(ys) <= Shares(BuyTakes(ls, value))
  {
    hide Cost, Dust, BuyTakes, BuyWalk;
    var xs := BuyTakes(ls, value);
    BuyWalkSucceeds(ls, value, START);
    BuyIsGreedy(ls, value, START);
    if Touched(xs) == 0 {
      UntouchedIsZero(ls, xs, 0);
      SharesBelowWeighted(ls, ys);
    } else {
      var k := LastUsed(ls, xs, 0);
      Exchange(ls, xs, ys, ls[k].price);
      PivotDecides(ls[k].price, Shares(xs), Shares(ys), Weighted(ls, xs), Weighted(ls, ys));
    }
  }

  lemma PivotDecides(pivot: nat, sx: nat, sy: nat, wx: nat, wy: nat)
    requires pivot > 0 && wy - wx >= pivot * (sy - sx) && wy <= wx
    ensures sy <= sx
  {
    if sy > sx {
      MulStrict(0, sy - sx, pivot);
    }
  }

  /** Without dust levels the restriction disappears. */
  lemma BuyIsOptimalWithoutDust(ls: seq<Level>, value: nat, ys: seq<nat>)
    requires ValidLevels(ls) && Ascending(ls) && Within(ls, ys)
    requires forall i | 0 <= i < |ls| :: !Dust(ls[i])
    requires Weighted(ls, ys) <= Weighted(ls, BuyTakes(ls, value))
    ensures Shares(ys) <= Shares(BuyTakes(ls, value))
  {
    hide Cost, Dust, BuyTakes;
    BuyIsOptimal(ls, value, ys);
  }

  /** With a dust level the quote is not optimal: a cheap level worth less than one wei is skipped although its
      shares could replace dearer ones. */
  lemma DustBreaksOptimality()
    ensures var ls := [Level(1, 9), Level(ONE, 10)];
            var xs, ys := BuyTakes(ls, 2), [9, 1];
            && ValidLevels(ls) && Ascending(ls) && Dust(ls[0]) && Within(ls, ys)
            && Weighted(ls, ys) <= Weighted(ls, xs) && Shares(ys) > Shares(xs)
  {
    hide BuyTakes, Weighted, Shares;
    DustyTakes();
    TwoLevels(Level(1, 9), Level(ONE, 10), 0, 2);
    TwoLevels(Level(1, 9), Level(ONE, 10), 9, 1);
  }

  lemma TwoLevels(a: Level, b: Level, x: nat, y: nat)
    ensures Shares([x, y]) == x + y && Weighted([a, b], [x, y]) == a.price * x + b.price * y
  {
    assert [x, y][1..] == [y] && [y][1..] == [] && [a, b][1..] == [b] && [b][1..] == [];
    assert Shares([y]) == y && Weighted([b], [y]) == b.price * y;
  }

  lemma DustyTakes()
    ensures BuyTakes([Level(1, 9), Level(ONE, 10)], 2) == [0, 2]
  {
    var dust, level := Level(1, 9), Level(ONE, 10);
    assert [dust, level][1..] == [level] && [level][1..] == [];
    assert TakeBuy(dust, 2) == 0 && Cost(dust, 0) == 0;
    assert Cost(level, 10) == 10 && TakeBuy(level, 2) == 2;
    assert BuyTakes([], 2 - Cost(level, 2)) == [];
    assert BuyTakes([level], 2) == [2] + [];
  }

  /** No allocation of at most the sold shares has a larger price-weighted return than the greedy sale. */
  lemma SellIsOptimal(ls: seq<Level>, shares: nat, ys: seq<nat>)
    requires ValidLevels(ls) && Descending(ls) && Within(ls, ys)
    requires Shares(ys) <= Shares(SellTakes(ls, shares))
    ensures Weighted(ls, ys) <= Weighted(ls, SellTakes(ls, shares))
  {
    hide SellTakes, Shares, Weighted, Touched, SellWalk;
    var xs := SellTakes(ls, shares);
    assert ls != [] ==> ValidLevel(ls[0]);
    SellWalkSucceeds(ls, shares, START_SELL);
    SellIsGreedy(ls, shares, START_SELL);
    TouchedHasShares(xs);
    TouchedHasShares(ys);
    if Touched(xs) == 0 {
      UntouchedIsZero(ls, ys, 0);
    } else {
      var k := LastUsed(ls, xs, 0);
      Exchange(ls, ys, xs, ls[k].price);
      FewerIsLess(ls[k].price, Shares(xs), Shares(ys), Weighted(ls, xs), Weighted(ls, ys));
    }
  }

  lemma FewerIsLess(pivot: nat, sx: nat, sy: nat, wx: nat, wy: nat)
    requires wx - wy >= pivot * (sx - sy) && sy <= sx
    ensures wy <= wx
  {
    MulMonotone(0, sx - sy, pivot);
  }

  // ---- Exact accounting of a buy ----

  /** Spent and unspent add up to the request; a level not taken whole is dust or leaves at most one wei; an
      incomplete quote has spent the floored cost of the entire ladder; and the average price lies between the
      first and the last price used. */
  lemma BuyQuoteFacts(value: nat, ls: seq<Level>)
    requires BuyQuote(value, ls).Ok?
    ensures var q, xs := BuyQuote(value, ls).value, BuyTakes(ls, value);
            && q.filled + q.rest == value && q.filled == Spent(ls, xs) && q.value == Shares(xs) && q.levels == Touched(xs)
            && Within(ls, xs)
            && (forall i | 0 <= i < |ls| :: xs[i] == ls[i].quantity || (xs[i] == 0 && Dust(ls[i])) || q.rest <= 1)
            && (q.complete <==> q.rest <= 1)
            && (!q.complete ==> q.filled == Spent(ls, Quantities(ls)))
            && PricesOf(ls, xs, q.vwap, q.worst)
            && (q.value > 0 ==> FirstUsed(xs) < |ls| && ls[FirstUsed(xs)].price <= q.vwap <= q.worst)
  {
    hide Cost, Dust, BuyTakes, BuyWalk, FirstUsed, PricesOf;
    var xs := BuyTakes(ls, value);
    PricesAre(ls, xs);
    BuyWalkSums(ls, value, START);
    BuyIsGreedy(ls, value, START);
    BuyPricesRise(ls, value, START);
    if value - Spent(ls, xs) > 1 {
      WholeLadderSpent(ls, xs);
    }
    if Shares(xs) > 0 {
      AverageBounds(ls, xs);
    }
  }

  lemma {:induction false} WholeLadderSpent(ls: seq<Level>, xs: seq<nat>)
    requires |xs| == |ls| && forall i | 0 <= i < |ls| :: xs[i] == ls[i].quantity || (xs[i] == 0 && Dust(ls[i]))
    ensures Spent(ls, xs) == Spent(ls, Quantities(ls))
  {
    hide Cost;
    if ls != [] {
      ZeroCost(ls[0]);
      assert Quantities(ls)[1..] == Quantities(ls[1..]);
      assert forall i | 0 <= i < |ls[1..]| :: xs[1..][i] == xs[i + 1] && ls[1..][i] == ls[i + 1];
      WholeLadderSpent(ls[1..], xs[1..]);
    }
  }

  lemma AverageBounds(ls: seq<Level>, xs: seq<nat>)
    requires |xs| == |ls| && UsedAscending(ls, xs, 0) && Shares(xs) > 0
    ensures FirstUsed(xs) < |ls|
    ensures ls[FirstUsed(xs)].price <= Average(Weighted(ls, xs), Shares(xs)) <= WorstOf(ls, xs, 0)
  {
    hide Weighted, Shares, Touched, WorstOf, FirstUsed;
    TouchedHasShares(xs);
    var k := LastUsed(ls, xs, 0);
    var low, high := ls[FirstUsed(xs)].price, ls[k].price;
    WeightedBounds(ls, xs, low, high);
    QuotientBetween(Weighted(ls, xs), Shares(xs), low, high);
  }

  lemma QuotientBetween(n: nat, d: nat, low: nat, high: nat)
    requires d > 0 && low * d <= n <= high * d
    ensures low <= n / d <= high
  {
    DivBounds(n, d);
    if n / d < low {
      MulStrict(n / d, low, d);
    }
    if n / d > high {
      MulStrict(high, n / d, d);
    }
  }

  /** Sold and unsold add up; an incomplete sale has sold the entire ladder; the return is within one wei per level
      of the exact proceeds; and the average price lies between the last and the first price used. */
  lemma SellQuoteFacts(shares: nat, ls: seq<Level>)
    requires SellQuote(shares, ls).Ok?
    ensures var q, zs := SellQuote(shares, ls).value, SellTakes(ls, shares);
            && q.filled + q.rest == shares && q.filled == Shares(zs) && q.value == Spent(ls, zs) && q.levels == Touched(zs)
            && Within(ls, zs) && (q.complete <==> q.rest <= 1)
            && (!q.complete ==> zs == Quantities(ls))
            && PricesOf(ls, zs, q.vwap, q.worst)
            && q.value * ONE <= Weighted(ls, zs) <= (q.value + q.levels) * ONE
            && (q.filled > 0 ==> FirstUsed(zs) < |ls| && q.worst <= q.vwap <= ls[FirstUsed(zs)].price)
  {
    hide SellTakes, SellWalk, FirstUsed, Weighted, Shares, Touched, WorstOf, Spent, PricesOf;
    var zs := SellTakes(ls, shares);
    PricesAre(ls, zs);
    SellWalkSums(ls, shares, START_SELL);
    SellIsGreedy(ls, shares, START_SELL);
    SpentBounds(ls, zs);
    if Shares(zs) > 0 {
      TouchedHasShares(zs);
      var k := LastUsed(ls, zs, 0);
      var low, high := ls[k].price, ls[FirstUsed(zs)].price;
      WeightedBounds(ls, zs, low, high);
      QuotientBetween(Weighted(ls, zs), Shares(zs), low, high);
    }
  }

  // ---- The round trip ----

  lemma {:induction false} SellWithin(ls: seq<Level>, remaining: nat)
    ensures Shares(SellTakes(ls, remaining)) <= remaining
    decreases |ls|
  {
    if ls != [] {
      SellWithin(ls[1..], remaining - TakeSell(ls[0], remaining));
    }
  }

  /** A round trip sells exactly what its buy bought, reports the shortfall of what it recovers against what it spent,
      and is complete when both legs are; a buy of nothing is not sold on. */
  lemma RoundTripFacts(value: nat, asks: seq<Level>, bids: seq<Level>)
    requires RoundTripQuote(value, asks, bids).Ok?
    ensures var t := RoundTripQuote(value, asks, bids).value;
            && BuyQuote(value, asks) == Foundations.Ok(t.buy)
            && (t.sell.None? <==> t.buy.value == 0)
            && (t.sell.None? ==> t.recovered == 0 && t.loss == 0 && !t.complete)
            && (t.sell.Some? ==>
                  && t.sell.value.requested == t.buy.value && SellQuote(t.buy.value, bids) == Foundations.Ok(t.sell.value)
                  && t.recovered == t.sell.value.value
                  && (if t.recovered < t.buy.filled then t.recovered + t.loss == t.buy.filled else t.loss == 0)
                  && (t.complete <==> t.buy.rest <= 1 && t.sell.value.rest <= 1))
  {
    hide BuyWalk, SellWalk;
  }

  /** Buying from asks and selling into bids that are no dearer recovers less than what was spent plus one wei per
      ask level used. */
  lemma RoundTripNeverGains(value: nat, asks: seq<Level>, bids: seq<Level>)
    requires Ascending(asks) && Descending(bids)
    requires asks != [] && bids != [] ==> bids[0].price <= asks[0].price
    requires RoundTripQuote(value, asks, bids).Ok?
    ensures var t := RoundTripQuote(value, asks, bids).value;
            && (t.sell.Some? ==> t.recovered < t.buy.filled + t.buy.levels)
            && (t.sell.None? ==> t.recovered == 0 && t.buy.value == 0)
  {
    hide BuyWalk, SellWalk, BuyTakes, SellTakes, Cost, Weighted, Shares, Touched, Spent, WorstOf;
    var buy := BuyQuote(value, asks).value;
    var xs := BuyTakes(asks, value);
    BuyWalkSums(asks, value, START);
    if buy.value > 0 {
      var zs := SellTakes(bids, buy.value);
      SellWalkSums(bids, buy.value, START_SELL);
      SellWithin(bids, buy.value);
      TouchedHasShares(xs);
      SpentBounds(asks, xs);
      SpentBounds(bids, zs);
      AsksAboveBids(asks, bids, xs, zs);
    }
  }

  lemma AsksAboveBids(asks: seq<Level>, bids: seq<Level>, xs: seq<nat>, zs: seq<nat>)
    requires Ascending(asks) && Descending(bids) && |asks| == |xs| && |bids| == |zs| && Shares(zs) <= Shares(xs)
    requires asks != [] && bids != [] ==> bids[0].price <= asks[0].price
    ensures Weighted(bids, zs) <= Weighted(asks, xs)
  {
    if bids != [] && asks != [] {
      var b, a := bids[0].price, asks[0].price;
      var top := WorstPrice(asks);
      WeightedBounds(bids, zs, 0, b);
      WeightedBounds(asks, xs, a, top);
      MulMonotone(Shares(zs), Shares(xs), b);
      MulMonotone(b, a, Shares(xs));
    } else if asks == [] {
      TouchedHasShares(zs);
      UntouchedIsZero(bids, zs, 0);
    }
  }

  ghost function WorstPrice(ls: seq<Level>): (p: nat)
    requires Ascending(ls) && ls != []
    ensures forall i | 0 <= i < |ls| :: ls[i].price <= p
  {
    ls[|ls| - 1].price
  }
}
