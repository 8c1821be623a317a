/** Allocations over a price ladder in 18-decimal integers: floored costs, sums, and the exchange argument that
    makes greedy fills optimal. */
module Ladder {
  import opened Numerals

  /** One collateral token, and one share, in wei. */
  const ONE: nat := 1_000_000_000_000_000_000

  datatype Level = Level(price: nat, quantity: nat)

  /** A price in (0, 1] and a positive quantity. */
  predicate ValidLevel(l: Level) { 0 < l.price <= ONE && 0 < l.quantity }

  ghost predicate ValidLevels(ls: seq<Level>) { forall i | 0 <= i < |ls| :: ValidLevel(ls[i]) }

  ghost predicate Ascending(ls: seq<Level>) { forall i, j | 0 <= i < j < |ls| :: ls[i].price <= ls[j].price }

  ghost predicate Descending(ls: seq<Level>) { forall i, j | 0 <= i < j < |ls| :: ls[i].price >= ls[j].price }

  /** The collateral that `q` shares cost at a level, rounded down. */
  function Cost(l: Level, q: nat): nat { l.price * q / ONE }

  // ---- Sums over an allocation ----

  function Shares(xs: seq<nat>): nat { if xs == [] then 0 else xs[0] + Shares(xs[1..]) }

  function Weighted(ls: seq<Level>, xs: seq<nat>): nat
    requires |ls| == |xs|
  {
    if ls == [] then 0 else ls[0].price * xs[0] + Weighted(ls[1..], xs[1..])
  }

  /** The sum of the floored costs of the levels. */
  function Spent(ls: seq<Level>, xs: seq<nat>): nat
    requires |ls| == |xs|
  {
    if ls == [] then 0 else Cost(ls[0], xs[0]) + Spent(ls[1..], xs[1..])
  }

  /** The number of levels an allocation touches. */
  function Touched(xs: seq<nat>): nat { if xs == [] then 0 else (if xs[0] > 0 then 1 else 0) + Touched(xs[1..]) }

  function Quantities(ls: seq<Level>): (qs: seq<nat>)
    ensures |qs| == |ls|
  {
    seq(|ls|, i requires 0 <= i < |ls| => ls[i].quantity)
  }

  /** An allocation takes at most what each level offers. */
  ghost predicate Within(ls: seq<Level>, xs: seq<nat>) {
    |xs| == |ls| && forall i | 0 <= i < |ls| :: xs[i] <= ls[i].quantity
  }

  lemma FloorBounds(n: nat)
    ensures n / ONE * ONE <= n < (n / ONE + 1) * ONE
  {
  }

  /** Rounding loses less than one wei per level touched. */
  lemma {:induction false} SpentBounds(ls: seq<Level>, xs: seq<nat>)
    requires |ls| == |xs|
    ensures Spent(ls, xs) * ONE <= Weighted(ls, xs)
    ensures Weighted(ls, xs) <= (Spent(ls, xs) + Touched(xs)) * ONE
    ensures Touched(xs) > 0 ==> Weighted(ls, xs) < (Spent(ls, xs) + Touched(xs)) * ONE
  {
    if ls != [] {
      SpentBounds(ls[1..], xs[1..]);
      FloorBounds(ls[0].price * xs[0]);
      if xs[0] == 0 {
        assert ls[0].price * xs[0] == 0;
      }
    }
  }

  /** If every level used has a price between two bounds, so has the average price. */
  lemma {:induction false} WeightedBounds(ls: seq<Level>, xs: seq<nat>, low: nat, high: nat)
    requires |ls| == |xs| && forall i | 0 <= i < |ls| && xs[i] > 0 :: low <= ls[i].price <= high
    ensures low * Shares(xs) <= Weighted(ls, xs) <= high * Shares(xs)
  {
    if ls != [] {
      WeightedBounds(ls[1..], xs[1..], low, high);
      if xs[0] > 0 {
        MulMonotone(low, ls[0].price, xs[0]);
        MulMonotone(ls[0].price, high, xs[0]);
      }
      Spread(low, xs[0], Shares(xs[1..]));
      Spread(high, xs[0], Shares(xs[1..]));
    }
  }

  lemma Spread(p: int, a: int, b: int)
    ensures p * (a + b) == p * a + p * b
  {
  }

  /** The exchange argument: if moving from `xs` to `ys` only adds shares at or above a pivot price and only
      removes shares at or below it, then the change in weighted cost is at least the pivot times the change in
      shares. */
  lemma {:induction false} Exchange(ls: seq<Level>, xs: seq<nat>, ys: seq<nat>, pivot: nat)
    requires |ls| == |xs| == |ys|
    requires forall i | 0 <= i < |ls| :: (ls[i].price >= pivot || ys[i] <= xs[i]) && (ls[i].price <= pivot || ys[i] >= xs[i])
    ensures Weighted(ls, ys) - Weighted(ls, xs) >= pivot * (Shares(ys) - Shares(xs))
  {
    if ls != [] {
      Exchange(ls[1..], xs[1..], ys[1..], pivot);
      ExchangeOne(ls[0].price, xs[0], ys[0], pivot);
      var x: int, y: int, restX: int, restY: int := xs[0], ys[0], Shares(xs[1..]), Shares(ys[1..]);
      Spread(pivot, y - x, restY - restX);
    }
  }

  lemma ExchangeOne(price: nat, x: nat, y: nat, pivot: nat)
    requires (price >= pivot || y <= x) && (price <= pivot || y >= x)
    ensures price * y - price * x >= pivot * (y - x)
  {
    assert price * y - price * x == price * (y - x);
    if price > pivot {
      MulMonotone(pivot, price, y - x);
    } else if price < pivot {
      MulMonotone(price, pivot, x - y);
      assert price * (y - x) == -(price * (x - y)) && pivot * (y - x) == -(pivot * (x - y));
    }
  }

  /** With positive prices an allocation costs at least one unit per share. */
  lemma {:induction false} SharesBelowWeighted(ls: seq<Level>, xs: seq<nat>)
    requires |ls| == |xs| && ValidLevels(ls)
    ensures Shares(xs) <= Weighted(ls, xs)
  {
    if ls != [] {
      assert ValidLevel(ls[0]) && ValidLevels(ls[1..]);
      SharesBelowWeighted(ls[1..], xs[1..]);
      MulMonotone(1, ls[0].price, xs[0]);
    }
  }
}
