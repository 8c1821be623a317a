/** `cancelOrders` calldata: an array of tuples with dynamic signatures, and the account routing around it
    (`src/chain_operations.cpp`). */
module CancelOrders {
  import opened Foundations
  import opened Numerals
  import opened Abi
  import Hex

  datatype SignedOrder = SignedOrder(
    salt: Uint256, maker: Address, signer: Address, taker: Option<Address>, tokenId: Uint256, makerAmount: Uint256,
    takerAmount: Uint256, expiration: Uint256, nonce: Uint256, feeRateBps: Uint256, side: byte, signatureType: byte,
    signature: Text)

  /** The order as the contract sees it: the public taker is the zero address, the signature is bytes. */
  datatype ContractOrder = ContractOrder(
    salt: nat, maker: Address, signer: Address, taker: Address, tokenId: nat, makerAmount: nat, takerAmount: nat,
    expiration: nat, nonce: nat, feeRateBps: nat, side: nat, signatureType: nat, signature: seq<byte>)

  predicate InRange(c: ContractOrder) {
    && c.salt < UINT256_END && c.tokenId < UINT256_END && c.makerAmount < UINT256_END && c.takerAmount < UINT256_END
    && c.expiration < UINT256_END && c.nonce < UINT256_END && c.feeRateBps < UINT256_END
    && c.side < 256 && c.signatureType < 256 && 0 < |c.signature| < TWO_64
  }

  function ZeroAddress(): Address { Zeroes(20) }

  function Seen(o: SignedOrder): (r: Result<ContractOrder>)
    ensures r.Err? ==> r.code == InvalidField
  {
    var signature := Hex.Decoded(o.signature);
    if signature.Err? || signature.value == [] then Err(InvalidField)
    else
      Ok(ContractOrder(o.salt, o.maker, o.signer, if o.taker.Some? then o.taker.value else ZeroAddress(), o.tokenId,
                       o.makerAmount, o.takerAmount, o.expiration, o.nonce, o.feeRateBps, o.side, o.signatureType,
                       signature.value))
  }

  // ---- One tuple ----

  function Head(c: ContractOrder): (ws: seq<seq<byte>>)
    ensures |ws| == 13 && AreWords(ws)
  {
    [Word(c.salt), AddressWord(c.maker), AddressWord(c.signer), AddressWord(c.taker), Word(c.tokenId),
     Word(c.makerAmount), Word(c.takerAmount), Word(c.expiration), Word(c.nonce), Word(c.feeRateBps), Word(c.side),
     Word(c.signatureType), Word(416)]
  }

  function Tuple(c: ContractOrder): seq<byte> { Flat(Head(c)) + Tail(c.signature) }

  function ReadTuple(t: seq<byte>): Option<ContractOrder> {
    if |t| < 416 then None
    else
      var maker, signer, taker := ReadAddress(t, 32), ReadAddress(t, 64), ReadAddress(t, 96);
      var side, kind := ReadUint(t, 320).value, ReadUint(t, 352).value;
      var signature := ReadBytes(t, ReadUint(t, 384).value);
      if maker.None? || signer.None? || taker.None? || side >= 256 || kind >= 256 || signature.None? then None
      else
        Some(ContractOrder(ReadUint(t, 0).value, maker.value, signer.value, taker.value, ReadUint(t, 128).value,
                           ReadUint(t, 160).value, ReadUint(t, 192).value, ReadUint(t, 224).value, ReadUint(t, 256).value,
                           ReadUint(t, 288).value, side, kind, signature.value))
  }

  lemma TupleSize(c: ContractOrder)
    ensures |Tuple(c)| == 448 + |c.signature| + Padding(|c.signature|) && |Tuple(c)| % 32 == 0
  {
    hide Word, Head, Padding;
    FlatSize(Head(c));
    PaddingAligns(|c.signature|);
  }

  lemma ReadHeadUint(ws: seq<seq<byte>>, i: nat, n: nat, rest: seq<byte>)
    requires AreWords(ws) && i < |ws| && n < UINT256_END && ws[i] == Word(n)
    ensures ReadUint(Flat(ws) + rest, 32 * i) == Some(n)
  {
    hide Word, FromBigEndian, WordAt, Flat;
    WordOf(ws, i, rest);
    WordRoundTrip(n);
  }

  lemma ReadHeadAddress(ws: seq<seq<byte>>, i: nat, a: Address, rest: seq<byte>)
    requires AreWords(ws) && i < |ws| && ws[i] == AddressWord(a)
    ensures ReadAddress(Flat(ws) + rest, 32 * i) == Some(a)
  {
    hide WordAt, Flat;
    WordOf(ws, i, rest);
    assert AddressWord(a)[..12] == Zeroes(12) && AddressWord(a)[12..] == a;
  }

  /** A reader recovers every field and the signature from a tuple, whatever follows it. */
  lemma TupleReads(c: ContractOrder, rest: seq<byte>)
    requires InRange(c)
    ensures ReadTuple(Tuple(c) + rest) == Some(c)
  {
    hide Word, AddressWord, Flat, Tail, ReadUint, ReadAddress, ReadBytes;
    var ws, after := Head(c), Tail(c.signature) + rest;
    var t := Tuple(c) + rest;
    assert t == Flat(ws) + after;
    FlatSize(ws);
    ReadHeadUint(ws, 0, c.salt, after);
    ReadHeadAddress(ws, 1, c.maker, after);
    ReadHeadAddress(ws, 2, c.signer, after);
    ReadHeadAddress(ws, 3, c.taker, after);
    ReadHeadUint(ws, 4, c.tokenId, after);
    ReadHeadUint(ws, 5, c.makerAmount, after);
    ReadHeadUint(ws, 6, c.takerAmount, after);
    ReadHeadUint(ws, 7, c.expiration, after);
    ReadHeadUint(ws, 8, c.nonce, after);
    ReadHeadUint(ws, 9, c.feeRateBps, after);
    ReadHeadUint(ws, 10, c.side, after);
    ReadHeadUint(ws, 11, c.signatureType, after);
    ReadHeadUint(ws, 12, 416, after);
    ReadTail(Flat(ws), c.signature, rest);
  }

  // ---- The array of tuples ----

  function Offsets(tuples: seq<seq<byte>>, start: nat): (ws: seq<seq<byte>>)
    ensures |ws| == |tuples| && AreWords(ws)
    decreases |tuples|
  {
    if tuples == [] then [] else [Word(start)] + Offsets(tuples[1..], start + |tuples[0]|)
  }

  /** Offsets are relative to the first offset word. */
  function Body(tuples: seq<seq<byte>>): seq<byte> { Flat(Offsets(tuples, 32 * |tuples|)) + Flat(tuples) }

  function Calldata(selector: seq<byte>, tuples: seq<seq<byte>>): seq<byte> {
    selector + Word(32) + Word(|tuples|) + Body(tuples)
  }

  function Tuples(cs: seq<ContractOrder>): (ts: seq<seq<byte>>)
    ensures |ts| == |cs| && forall i | 0 <= i < |cs| :: ts[i] == Tuple(cs[i])
  {
    seq(|cs|, i requires 0 <= i < |cs| => Tuple(cs[i]))
  }

  lemma {:induction false} OffsetAt(tuples: seq<seq<byte>>, start: nat, i: nat)
    requires i < |tuples|
    ensures Offsets(tuples, start)[i] == Word(start + |Flat(tuples[..i])|)
    decreases |tuples|
  {
    hide Word;
    if i == 0 {
      assert tuples[..0] == [];
    } else {
      OffsetAt(tuples[1..], start + |tuples[0]|, i - 1);
      assert tuples[..i][0] == tuples[0] && tuples[..i][1..] == tuples[1..][..i - 1];
    }
  }

  /** The i-th offset word holds the exact position of the i-th tuple. */
  lemma OffsetLands(tuples: seq<seq<byte>>, i: nat)
    requires i < |tuples| && |Body(tuples)| < TWO_64
    ensures var at := 32 * |tuples| + |Flat(tuples[..i])|;
            && ReadUint(Body(tuples), 32 * i) == Some(at) && at + |tuples[i]| <= |Body(tuples)|
            && Body(tuples)[at..] == tuples[i] + Flat(tuples[i + 1..])
            && Body(tuples)[at..at + |tuples[i]|] == tuples[i]
  {
    hide Word, ReadUint, Offsets;
    var ws := Offsets(tuples, 32 * |tuples|);
    var at := 32 * |tuples| + |Flat(tuples[..i])|;
    FlatSize(ws);
    OffsetAt(tuples, 32 * |tuples|, i);
    FlatSplit(tuples, i);
    assert tuples[i..][0] == tuples[i] && tuples[i..][1..] == tuples[i + 1..];
    assert Body(tuples) == Flat(ws) + Flat(tuples[..i]) + (tuples[i] + Flat(tuples[i + 1..]));
    ReadHeadUint(ws, i, at, Flat(tuples));
  }

  /** Reads orders `i` to `count` by following their offsets. */
  function ReadOrders(body: seq<byte>, i: nat, count: nat): Option<seq<ContractOrder>>
    requires i <= count
    decreases count - i
  {
    if i == count then Some([])
    else
      var at := ReadUint(body, 32 * i);
      if at.None? || at.value > |body| then None
      else
        var order, rest := ReadTuple(body[at.value..]), ReadOrders(body, i + 1, count);
        if order.None? || rest.None? then None else Some([order.value] + rest.value)
  }

  /** Follows the root offset to the array, reads its length, then each element. */
  function ReadCalldata(args: seq<byte>): Option<seq<ContractOrder>> {
    var root := ReadUint(args, 0);
    if root.None? || root.value > |args| then None
    else
      var tail := args[root.value..];
      var count := ReadUint(tail, 0);
      if count.None? then None else ReadOrders(tail[32..], 0, count.value)
  }

  predicate AllInRange(cs: seq<ContractOrder>) { forall i | 0 <= i < |cs| :: InRange(cs[i]) }

  lemma {:induction false} OrdersRead(cs: seq<ContractOrder>, i: nat)
    requires AllInRange(cs) && i <= |cs| && |Body(Tuples(cs))| < TWO_64
    ensures ReadOrders(Body(Tuples(cs)), i, |cs|) == Some(cs[i..])
    decreases |cs| - i
  {
    hide Body, Tuple, ReadTuple, InRange, ReadUint;
    if i == |cs| {
      assert cs[i..] == [];
    } else {
      var tuples := Tuples(cs);
      OffsetLands(tuples, i);
      TupleReads(cs[i], Flat(tuples[i + 1..]));
      OrdersRead(cs, i + 1);
      assert [cs[i]] + cs[i + 1..] == cs[i..];
    }
  }

  /** A contract that follows the offsets recovers every order. */
  lemma CalldataReads(selector: seq<byte>, cs: seq<ContractOrder>)
    requires AllInRange(cs) && |Body(Tuples(cs))| < TWO_64
    ensures ReadCalldata(Calldata(selector, Tuples(cs))[|selector|..]) == Some(cs)
  {
    hide Body, Tuples, Word, ReadUint, ReadOrders;
    var body := Body(Tuples(cs));
    var tail := Word(|cs|) + body;
    var args := Word(32) + tail;
    BodySize(Tuples(cs));
    assert Calldata(selector, Tuples(cs)) == selector + args;
    assert args == [] + Word(32) + tail && tail == [] + Word(|cs|) + body;
    ReadWord([], 32, tail);
    ReadWord([], |cs|, body);
    assert args[32..] == tail && tail[32..] == body;
    OrdersRead(cs, 0);
  }

  lemma BodySize(tuples: seq<seq<byte>>)
    ensures |Body(tuples)| == 32 * |tuples| + |Flat(tuples)|
  {
    FlatSize(Offsets(tuples, 32 * |tuples|));
  }

  /** Equal calldata cancels equal orders. */
  lemma CalldataIsInjective(selector: seq<byte>, cs: seq<ContractOrder>, ds: seq<ContractOrder>)
    requires AllInRange(cs) && |Body(Tuples(cs))| < TWO_64
    requires AllInRange(ds) && |Body(Tuples(ds))| < TWO_64
    requires Calldata(selector, Tuples(cs)) == Calldata(selector, Tuples(ds))
    ensures cs == ds
  {
    hide Body, Tuples, Calldata, ReadCalldata;
    CalldataReads(selector, cs);
    CalldataReads(selector, ds);
  }

  /** What the contract sees of a signed order: every field as it was signed, the zero address for a public taker, and the
      bytes of the signature, which must be hexadecimal and not empty. */
  lemma SeenIs(o: SignedOrder)
    ensures Seen(o).Ok? <==> Hex.Decoded(o.signature).Ok? && Hex.Decoded(o.signature).value != []
    ensures Seen(o).Ok? ==>
              var c := Seen(o).value;
              && c.salt == o.salt && c.maker == o.maker && c.signer == o.signer && c.tokenId == o.tokenId
              && c.makerAmount == o.makerAmount && c.takerAmount == o.takerAmount && c.expiration == o.expiration
              && c.nonce == o.nonce && c.feeRateBps == o.feeRateBps && c.side == o.side && c.signatureType == o.signatureType
              && (o.taker.Some? ==> c.taker == o.taker.value) && (o.taker.None? ==> forall i | 0 <= i < 20 :: c.taker[i] == 0)
              && Hex.Decoded(o.signature).value == c.signature
  {
    hide Hex.Decoded;
  }

  /** An account route needs an account other than the zero address. */
  lemma UnroutableIs(route: Route)
    ensures Unroutable(route) <==>
              route.PredictAccount? && (route.account.Some? ==> forall i | 0 <= i < 20 :: route.account.value[i] == 0)
  {
    if route.PredictAccount? && route.account.Some? && (forall i | 0 <= i < 20 :: route.account.value[i] == 0) {
      assert route.account.value == ZeroAddress();
    }
  }

  // ---- The encoders ----

  /** The thirteen words of a tuple's head. */
  method EncodeHead(o: SignedOrder) returns (words: seq<seq<byte>>)
    requires Seen(o).Ok?
    ensures words == Head(Seen(o).value)
  {
    hide Word, AddressWord, Hex.IsHex;
    var salt := EncodeWord(o.salt);
    var token := EncodeWord(o.tokenId);
    var makerAmount := EncodeWord(o.makerAmount);
    var takerAmount := EncodeWord(o.takerAmount);
    var expiration := EncodeWord(o.expiration);
    var nonce := EncodeWord(o.nonce);
    var fee := EncodeWord(o.feeRateBps);
    var side := EncodeWord(o.side);
    var kind := EncodeWord(o.signatureType);
    var offset := EncodeWord(13 * 32);
    var taker := if o.taker.Some? then AddressWord(o.taker.value) else Zeroes(32);
    PublicTaker();
    words := [salt.value, AddressWord(o.maker), AddressWord(o.signer), taker, token.value, makerAmount.value,
              takerAmount.value, expiration.value, nonce.value, fee.value, side.value, kind.value, offset.value];
  }

  /** `encode_order_tuple`. */
  method EncodeOrderTuple(o: SignedOrder) returns (r: Result<seq<byte>>)
    requires |o.signature| < TWO_64
    ensures Seen(o).Err? ==> r == Err(Seen(o).code)
    ensures Seen(o).Ok? ==> InRange(Seen(o).value) && r == Ok(Tuple(Seen(o).value))
  {
    hide Word, Head, Flat, Hex.IsHex;
    var signature := Hex.Decode(o.signature);
    if signature.Err? || signature.value == [] {
      return Err(InvalidField);
    }
    var words := EncodeHead(o);
    var length := EncodeWord(|signature.value|);
    var encoded := AppendAll([], words);
    assert [] + Flat(words) == Flat(words);
    encoded := encoded + length.value;
    encoded := encoded + signature.value;
    encoded := encoded + Zeroes(Padding(|signature.value|));
    assert encoded == Tuple(Seen(o).value);
    r := Ok(encoded);
  }

  lemma PublicTaker()
    ensures AddressWord(ZeroAddress()) == Zeroes(32)
  {}

  /** The orders as the contract sees them, or the error of the first that cannot be encoded. */
  function SeenAll(os: seq<SignedOrder>): (r: Result<seq<ContractOrder>>)
    ensures r.Ok? ==> |r.value| == |os| && forall i | 0 <= i < |os| :: Seen(os[i]) == Ok(r.value[i])
    ensures r.Err? ==> r.code == InvalidField && exists i | 0 <= i < |os| :: Seen(os[i]).Err?
  {
    if os == [] then Ok([])
    else
      var first :- Seen(os[0]);
      var rest :- SeenAll(os[1..]);
      Ok([first] + rest)
  }

  /** The calldata fits in memory. */
  ghost predicate Addressable(os: seq<SignedOrder>) {
    && (forall i | 0 <= i < |os| :: |os[i].signature| < TWO_64)
    && (SeenAll(os).Ok? ==> |Body(Tuples(SeenAll(os).value))| < TWO_64)
  }

  /** `encode_cancel_orders`: fails exactly when an order has no usable signature, and otherwise returns hexadecimal
      calldata from which a reader recovers the selector and every order. */
  method EncodeCancelOrders(selector: seq<byte>, os: seq<SignedOrder>) returns (r: Result<Text>)
    requires Addressable(os)
    ensures r.Err? <==> exists i | 0 <= i < |os| :: Seen(os[i]).Err?
    ensures r.Err? ==> r.code == InvalidField
    ensures r.Ok? ==> Hex.Decoded(r.value).Ok? && selector <= Hex.Decoded(r.value).value
    ensures r.Ok? ==> SeenAll(os).Ok? && ReadCalldata(Hex.Decoded(r.value).value[|selector|..]) == Some(SeenAll(os).value)
  {
    hide Seen, Tuple, ReadCalldata, Word, Offsets, Flat, InRange, Hex.IsHex;
    var tuples: seq<seq<byte>> := [];
    for i := 0 to |os|
      invariant |tuples| == i
      invariant forall j | 0 <= j < i :: Seen(os[j]).Ok? && InRange(Seen(os[j]).value) && tuples[j] == Tuple(Seen(os[j]).value)
    {
      var encoded := EncodeOrderTuple(os[i]);
      if encoded.Err? {
        return Err(encoded.code);
      }
      tuples := tuples + [encoded.value];
    }
    assert SeenAll(os).Ok?;
    ghost var cs := SeenAll(os).value;
    assert tuples == Tuples(cs);
    assert AllInRange(cs) by {
      forall i | 0 <= i < |cs| ensures InRange(cs[i]) {
        assert Seen(os[i]) == Ok(cs[i]);
      }
    }
    var encoded := LayOut(selector, tuples);
    CalldataReads(selector, cs);
    assert Calldata(selector, Tuples(cs))[..|selector|] == selector;
    Hex.DecodeInvertsEncode(encoded);
    var text := Hex.Encode(encoded);
    r := Ok(text);
  }

  /** Selector, root offset, count, running offsets, tuples. */
  method LayOut(selector: seq<byte>, tuples: seq<seq<byte>>) returns (encoded: seq<byte>)
    requires |Body(tuples)| < TWO_64
    ensures encoded == Calldata(selector, tuples)
  {
    hide Word, Body;
    BodySize(tuples);
    var root := EncodeWord(32);
    var count := EncodeWord(|tuples|);
    var heads := RunningOffsets(tuples);
    encoded := AppendAll(selector + root.value + count.value, heads);
    encoded := AppendAll(encoded, tuples);
    assert encoded == Calldata(selector, tuples) by {
      BodyParts(tuples);
    }
  }

  lemma BodyParts(tuples: seq<seq<byte>>)
    ensures Body(tuples) == Flat(Offsets(tuples, 32 * |tuples|)) + Flat(tuples)
  {}

  method RunningOffsets(tuples: seq<seq<byte>>) returns (heads: seq<seq<byte>>)
    requires 32 * |tuples| + |Flat(tuples)| < TWO_64
    ensures heads == Offsets(tuples, 32 * |tuples|)
  {
    hide Word, Offsets;
    heads := [];
    var offset := |tuples| * 32;
    for i := 0 to |tuples|
      invariant |heads| == i && offset == 32 * |tuples| + |Flat(tuples[..i])|
      invariant forall j | 0 <= j < i :: heads[j] == Word(32 * |tuples| + |Flat(tuples[..j])|)
    {
      FlatSplit(tuples, i + 1);
      FlatSplit(tuples[..i + 1], i);
      assert tuples[..i + 1][..i] == tuples[..i] && tuples[..i + 1][i..] == [tuples[i]];
      assert Flat([tuples[i]]) == tuples[i];
      var head := EncodeWord(offset);
      heads := heads + [head.value];
      offset := offset + |tuples[i]|;
    }
    forall j | 0 <= j < |tuples| ensures heads[j] == Offsets(tuples, 32 * |tuples|)[j] {
      OffsetAt(tuples, 32 * |tuples|, j);
    }
  }

  // ---- Routing through an account contract ----

  datatype UnsignedTransaction = UnsignedTransaction(to: Address, data: Text, value: Uint256)

  datatype Route = Eoa | PredictAccount(account: Option<Address>)

  /** What the account contract executes: recipient, value and inner calldata, packed. */
  function ReadExecution(v: seq<byte>): Option<(Address, nat, seq<byte>)> {
    if |v| < 52 then None else Some((v[..20], FromBigEndian(v[20..52]), v[52..]))
  }

  predicate Unroutable(route: Route) {
    route.PredictAccount? && (route.account.None? || route.account.value == ZeroAddress())
  }

  /** `route_transaction`: an externally owned account sends the call itself; otherwise the account contract receives a
      call whose bytes argument unpacks to the original recipient, value and calldata. */
  method RouteTransaction(selector: seq<byte>, tx: UnsignedTransaction, route: Route) returns (r: Result<UnsignedTransaction>)
    requires |tx.data| < TWO_64
    ensures route.Eoa? ==> r == Ok(tx)
    ensures Unroutable(route) ==> r == Err(InvalidArgument)
    ensures route.PredictAccount? && !Unroutable(route) && Hex.Decoded(tx.data).Err? ==> r == Err(InvalidField)
    ensures route.PredictAccount? && !Unroutable(route) && Hex.Decoded(tx.data).Ok? ==>
              && r.Ok? && r.value.to == route.account.value && r.value.value == 0 && Hex.Decoded(r.value.data).Ok?
              && selector <= Hex.Decoded(r.value.data).value
              && ReadRouted(Hex.Decoded(r.value.data).value[|selector|..])
                 == Some((tx.to, tx.value, Hex.Decoded(tx.data).value))
  {
    hide Hex.IsHex, Word, FromBigEndian, Flat, CallWithBytes, ReadRouted, ZeroAddress;
    if route.Eoa? {
      return Ok(tx);
    }
    if route.account.None? || route.account.value == ZeroAddress() {
      return Err(InvalidArgument);
    }
    var inner := Hex.Decode(tx.data);
    if inner.Err? {
      return Err(inner.code);
    }
    var value := EncodeWord(tx.value);
    var execution := tx.to + value.value + inner.value;
    var encoded := EncodeCallWithBytes(selector, [Zeroes(32)], execution);
    RoutedReads(selector, tx.to, tx.value, inner.value);
    Hex.DecodeInvertsEncode(encoded);
    var data := Hex.Encode(encoded);
    r := Ok(UnsignedTransaction(route.account.value, data, 0));
  }

  /** The account contract's view: a zero word, the offset of the bytes, and what they unpack to. */
  function ReadRouted(args: seq<byte>): Option<(Address, nat, seq<byte>)> {
    var mode, offset := ReadUint(args, 0), ReadUint(args, 32);
    if mode != Some(0) || offset.None? then None
    else
      match ReadBytes(args, offset.value)
      case None => None
      case Some(v) => ReadExecution(v)
  }

  lemma RoutedReads(selector: seq<byte>, to: Address, value: Uint256, inner: seq<byte>)
    requires |inner| < TWO_64 / 2
    ensures var call := CallWithBytes(selector, [Zeroes(32)], to + Word(value) + inner);
            selector <= call && ReadRouted(call[|selector|..]) == Some((to, value, inner))
  {
    hide Word, FromBigEndian, Flat, WordAt, ReadBytes, CallWithBytes;
    var v, words := to + Word(value) + inner, [Zeroes(32)];
    var call := CallWithBytes(selector, words, v);
    StartsWithSelector(selector, words, v);
    CallWithBytesReads(selector, words, v);
    var args := call[|selector|..];
    assert WordAt(args, 32 * 0) == words[0];
    ZeroWord();
    WordRoundTrip(value);
    assert v[..20] == to && v[20..52] == Word(value) && v[52..] == inner;
  }

  lemma StartsWithSelector(selector: seq<byte>, words: seq<seq<byte>>, v: seq<byte>)
    ensures selector <= CallWithBytes(selector, words, v)
  {}

  lemma ZeroWord()
    ensures FromBigEndian(Zeroes(32)) == 0
  {
    ZeroBytes(32);
  }

  lemma {:induction false} ZeroBytes(n: nat)
    ensures FromBigEndian(Zeroes(n)) == 0
  {
    if n > 0 {
      ZeroBytes(n - 1);
      assert Zeroes(n)[..n - 1] == Zeroes(n - 1);
    }
  }
}
