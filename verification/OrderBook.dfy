/** A decoded book: both sides normalised, best bid below best ask; and the NO view derived from it. */
module OrderBook {
  import opened Foundations
  import opened Numerals
  import opened FixedDecimals
  import opened BookLevels
  import opened Ladder
  import opened Liquidity
  import opened LiquidityProperties

  datatype Book = Book(asks: seq<PriceLevel>, bids: seq<PriceLevel>, precision: nat)

  /** What a successfully decoded book satisfies. */
  ghost predicate ValidBook(b: Book) {
    && AllDecoded(b.asks, b.precision) && AllDecoded(b.bids, b.precision)
    && StrictlySorted(b.asks, true) && StrictlySorted(b.bids, false)
    && (b.asks != [] && b.bids != [] ==> b.bids[0].price.ticks < b.asks[0].price.ticks)
  }

  /** The normal form of decoded levels consists of decoded levels. */
  lemma NormalFormIsDecoded(levels: seq<PriceLevel>, ascending: bool, precision: nat, out: seq<PriceLevel>)
    requires AllDecoded(levels, precision) && IsNormalForm(levels, ascending, precision, out) && !Overflows(levels)
    ensures AllDecoded(out, precision)
  {
    hide Merged, Pow10;
    forall i | 0 <= i < |out|
      ensures Decoded(out[i], precision)
    {
      var j :| 0 <= j < |levels| && levels[j].price.ticks == out[i].price.ticks;
      assert Decoded(levels[j], precision) && levels[j].price == Price(out[i].price.ticks, precision);
      MergedScale(levels, out[i].price.ticks, precision);
    }
  }

  lemma MergedScale(levels: seq<PriceLevel>, ticks: nat, precision: nat)
    requires AllDecoded(levels, precision)
    ensures Merged(levels, ticks).scale <= MAX_SCALE
  {
    MaxScaleBound(levels, ticks, precision);
  }

  /** What one side must satisfy to be decoded. */
  ghost predicate SideConverts(levels: seq<PriceLevel>, limit: nat) {
    |levels| <= limit && (forall i | 0 <= i < |levels| :: levels[i].quantity.units > 0) && !Overflows(levels)
  }

  /** Some bid is at or above some ask. */
  ghost predicate Crossed(asks: seq<PriceLevel>, bids: seq<PriceLevel>) {
    exists i, j :: 0 <= i < |asks| && 0 <= j < |bids| && bids[j].price.ticks >= asks[i].price.ticks
  }

  /** The best prices of the two normal forms cross exactly when any input levels do. */
  lemma BestPricesDecide(asks: seq<PriceLevel>, bids: seq<PriceLevel>, precision: nat, a: seq<PriceLevel>, b: seq<PriceLevel>)
    requires IsNormalForm(asks, true, precision, a) && IsNormalForm(bids, false, precision, b)
    ensures a != [] && b != [] && b[0].price.ticks >= a[0].price.ticks <==> Crossed(asks, bids)
  {
    hide Merged;
    if a != [] && b != [] && b[0].price.ticks >= a[0].price.ticks {
      var i :| 0 <= i < |asks| && asks[i].price.ticks == a[0].price.ticks;
      var j :| 0 <= j < |bids| && bids[j].price.ticks == b[0].price.ticks;
    }
    if Crossed(asks, bids) {
      var i, j :| 0 <= i < |asks| && 0 <= j < |bids| && bids[j].price.ticks >= asks[i].price.ticks;
      var k :| 0 <= k < |a| && a[k].price.ticks == asks[i].price.ticks;
      var l :| 0 <= l < |b| && b[l].price.ticks == bids[j].price.ticks;
    }
  }

  /** The level conversion and crossing check of `convert_orderbook`. */
  method ConvertOrderbook(asks: seq<PriceLevel>, bids: seq<PriceLevel>, precision: nat, limit: nat)
    returns (r: Result<Book>)
    requires AllDecoded(asks, precision) && AllDecoded(bids, precision)
    ensures r.Ok? ==> && ValidBook(r.value) && r.value.precision == precision
                      && IsNormalForm(asks, true, precision, r.value.asks)
                      && IsNormalForm(bids, false, precision, r.value.bids)
    ensures r.Ok? <==> SideConverts(asks, limit) && SideConverts(bids, limit) && !Crossed(asks, bids)
    ensures SideConverts(asks, limit) && SideConverts(bids, limit) && r.Err? ==> r.code == InvalidOrderbook
    ensures !SideConverts(asks, limit) || !SideConverts(bids, limit) ==> r.Err? && r.code in {TooManyItems, InvalidQuantity}
  {
    hide Decoded, Merged, Overflows, Crossed;
    var a := ConvertLevels(asks, true, precision, limit);
    if a.Err? {
      return Err(a.code);
    }
    var b := ConvertLevels(bids, false, precision, limit);
    if b.Err? {
      return Err(b.code);
    }
    NormalFormIsDecoded(asks, true, precision, a.value);
    NormalFormIsDecoded(bids, false, precision, b.value);
    BestPricesDecide(asks, bids, precision, a.value, b.value);
    if a.value != [] && b.value != [] && b.value[0].price.ticks >= a.value[0].price.ticks {
      return Err(InvalidOrderbook);
    }
    r := Ok(Book(a.value, b.value, precision));
  }

  function Flip(l: PriceLevel): PriceLevel
    requires l.price.Valid()
  {
    PriceLevel(l.price.Complement(), l.quantity)
  }

  function FlipAll(ls: seq<PriceLevel>): (r: seq<PriceLevel>)
    requires forall i | 0 <= i < |ls| :: ls[i].price.Valid()
    ensures |r| == |ls| && forall i | 0 <= i < |ls| :: r[i] == Flip(ls[i])
  {
    if ls == [] then [] else [Flip(ls[0])] + FlipAll(ls[1..])
  }

  /** `derive_no_book`: NO asks are complemented YES bids and the other way round. */
  function NoView(b: Book): Book
    requires forall i | 0 <= i < |b.asks| :: b.asks[i].price.Valid()
    requires forall i | 0 <= i < |b.bids| :: b.bids[i].price.Valid()
  {
    Book(FlipAll(b.bids), FlipAll(b.asks), b.precision)
  }

  /** The NO view of a valid book is a valid book, and its NO view is the book itself. */
  lemma NoViewIsValid(b: Book)
    requires ValidBook(b)
    ensures ValidBook(NoView(b)) && NoView(NoView(b)) == b
  {
    hide Pow10, Flip, Decoded, StrictlySorted;
    DecodedIsValid(b.asks, b.precision);
    DecodedIsValid(b.bids, b.precision);
    FlipTwice(b.asks, b.precision);
    FlipTwice(b.bids, b.precision);
    FlipReverses(b.asks, true, b.precision);
    FlipReverses(b.bids, false, b.precision);
    if b.asks != [] && b.bids != [] {
      FlipOrders(b.bids[0], b.asks[0], b.precision);
    }
    var n := NoView(b);
    DecodedIsValid(n.asks, b.precision);
    DecodedIsValid(n.bids, b.precision);
  }

  /** A level of the NO view: the same quantity, at the price that makes up one token with the YES price. */
  ghost predicate Mirrors(no: PriceLevel, yes: PriceLevel) {
    && no.quantity == yes.quantity && no.price.precision == yes.price.precision
    && no.price.ticks + yes.price.ticks == yes.price.TickScale()
    && PriceWei(no.price) + PriceWei(yes.price) == ONE
  }

  /** The k-th NO ask mirrors the k-th YES bid, and the k-th NO bid the k-th YES ask. */
  lemma NoViewMirrors(b: Book)
    requires ValidBook(b)
    ensures (forall i | 0 <= i < |b.asks| :: b.asks[i].price.Valid()) && forall i | 0 <= i < |b.bids| :: b.bids[i].price.Valid()
    ensures var n := NoView(b);
            && n.precision == b.precision && |n.asks| == |b.bids| && |n.bids| == |b.asks|
            && (forall k | 0 <= k < |b.bids| :: Mirrors(n.asks[k], b.bids[k]))
            && (forall k | 0 <= k < |b.asks| :: Mirrors(n.bids[k], b.asks[k]))
  {
    hide Pow10, Flip, Mirrors;
    DecodedIsValid(b.asks, b.precision);
    DecodedIsValid(b.bids, b.precision);
    forall k | 0 <= k < |b.bids| ensures Mirrors(Flip(b.bids[k]), b.bids[k]) {
      FlipMirrors(b.bids[k]);
    }
    forall k | 0 <= k < |b.asks| ensures Mirrors(Flip(b.asks[k]), b.asks[k]) {
      FlipMirrors(b.asks[k]);
    }
  }

  lemma FlipMirrors(l: PriceLevel)
    requires l.price.Valid()
    ensures Mirrors(Flip(l), l)
  {
    hide Pow10, PriceWei;
    var p, q, d := l.price, l.price.Complement(), l.price.TickScale();
    PriceIsExact(p);
    PriceIsExact(q);
    Spread(ONE, p.ticks, q.ticks);
    Spread(d, PriceWei(p), PriceWei(q));
    var sum := PriceWei(p) + PriceWei(q);
    if sum < ONE {
      MulStrict(sum, ONE, d);
    } else if ONE < sum {
      MulStrict(ONE, sum, d);
    }
  }

  lemma DecodedIsValid(ls: seq<PriceLevel>, precision: nat)
    requires AllDecoded(ls, precision)
    ensures forall i | 0 <= i < |ls| :: ls[i].price.Valid()
  {
    hide Pow10;
    assert forall i | 0 <= i < |ls| :: Decoded(ls[i], precision);
  }

  /** Complementing two prices swaps their order. */
  lemma FlipOrders(a: PriceLevel, b: PriceLevel, precision: nat)
    requires Decoded(a, precision) && Decoded(b, precision)
    ensures a.price.ticks < b.price.ticks <==> Flip(b).price.ticks < Flip(a).price.ticks
  {
    hide Pow10;
  }

  lemma FlipReverses(ls: seq<PriceLevel>, ascending: bool, precision: nat)
    requires AllDecoded(ls, precision) && StrictlySorted(ls, ascending)
    ensures (forall i | 0 <= i < |ls| :: ls[i].price.Valid()) && StrictlySorted(FlipAll(ls), !ascending)
  {
    hide Pow10, Flip, Decoded;
    DecodedIsValid(ls, precision);
    forall i, j | 0 <= i < j < |ls|
      ensures Before(FlipAll(ls)[i].price.ticks, FlipAll(ls)[j].price.ticks, !ascending)
    {
      assert Before(ls[i].price.ticks, ls[j].price.ticks, ascending);
      FlipOrders(ls[i], ls[j], precision);
      FlipOrders(ls[j], ls[i], precision);
    }
  }

  lemma FlipTwice(ls: seq<PriceLevel>, precision: nat)
    requires AllDecoded(ls, precision)
    ensures AllDecoded(FlipAll(ls), precision) && FlipAll(FlipAll(ls)) == ls
  {
    hide Pow10, Flip, Decoded;
    DecodedIsValid(ls, precision);
    forall i | 0 <= i < |ls|
      ensures Decoded(Flip(ls[i]), precision) && Flip(ls[i]).price.Valid() && Flip(Flip(ls[i])) == ls[i]
    {
      FlipOnce(ls[i], precision);
    }
  }

  lemma FlipOnce(l: PriceLevel, precision: nat)
    requires Decoded(l, precision)
    ensures Decoded(Flip(l), precision) && Flip(l).price.Valid() && Flip(Flip(l)) == l
  {
    hide Pow10;
  }

  lemma PriceOrder(a: Price, b: Price)
    requires a.precision == b.precision && a.ticks <= b.ticks
    ensures PriceWei(a) <= PriceWei(b)
  {
    hide Pow10;
    DivMonotone(a.ticks * ONE, b.ticks * ONE, a.TickScale());
  }

  lemma SideIsSorted(ls: seq<PriceLevel>, ascending: bool, precision: nat)
    requires AllDecoded(ls, precision) && StrictlySorted(ls, ascending)
    ensures if ascending then Ascending(WeiLevels(ls)) else Descending(WeiLevels(ls))
  {
    hide PriceWei, Pow10;
    var ws := WeiLevels(ls);
    forall i, j | 0 <= i < j < |ls|
      ensures if ascending then ws[i].price <= ws[j].price else ws[i].price >= ws[j].price
    {
      assert Decoded(ls[i], precision) && Decoded(ls[j], precision) && Before(ls[i].price.ticks, ls[j].price.ticks, ascending);
      if ascending {
        PriceOrder(ls[i].price, ls[j].price);
      } else {
        PriceOrder(ls[j].price, ls[i].price);
      }
    }
  }

  /** On a decoded book, for the YES side and for the derived NO side, an immediate round trip recovers less than
      the value spent plus one wei per ask level used. */
  lemma NoFreeRoundTrip(b: Book, value: nat)
    requires ValidBook(b)
    requires RoundTripQuote(value, WeiLevels(b.asks), WeiLevels(b.bids)).Ok?
    ensures var t := RoundTripQuote(value, WeiLevels(b.asks), WeiLevels(b.bids)).value;
            t.sell.Some? ==> t.recovered < t.buy.filled + t.buy.levels
  {
    hide RoundTripQuote, PriceWei;
    SideIsSorted(b.asks, true, b.precision);
    SideIsSorted(b.bids, false, b.precision);
    if b.asks != [] && b.bids != [] {
      assert Decoded(b.asks[0], b.precision) && Decoded(b.bids[0], b.precision);
      PriceOrder(b.bids[0].price, b.asks[0].price);
    }
    LiquidityProperties.RoundTripNeverGains(value, WeiLevels(b.asks), WeiLevels(b.bids));
  }

  lemma NoFreeRoundTripOnNo(b: Book, value: nat)
    requires ValidBook(b)
    ensures ValidBook(NoView(b))
    ensures var n := NoView(b);
            var r := RoundTripQuote(value, WeiLevels(n.asks), WeiLevels(n.bids));
            r.Ok? && r.value.sell.Some? ==> r.value.recovered < r.value.buy.filled + r.value.buy.levels
  {
    hide RoundTripQuote;
    NoViewIsValid(b);
    var n := NoView(b);
    if RoundTripQuote(value, WeiLevels(n.asks), WeiLevels(n.bids)).Ok? {
      NoFreeRoundTrip(n, value);
    }
  }
}
