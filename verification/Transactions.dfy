/** EIP-155 legacy transactions: the payload that is signed and the raw signed bytes
    (`src/chain_transaction.cpp`). */
module Transactions {
  import opened Foundations
  import opened Numerals
  import opened Rlp
  import Hex

  /** What a legacy transaction says: the six encoded fields and the chain. */
  datatype Fields = Fields(nonce: nat, gasPrice: nat, gasLimit: nat, to: seq<byte>, value: nat, data: seq<byte>,
                           chainId: nat)

  /** `PopulatedTransaction`, without the sender, which is never encoded; `data` is hexadecimal text. */
  datatype PopulatedTransaction = PopulatedTransaction(
    chainId: uint64, to: Address, nonce: Uint256, gasPrice: Uint256, gasLimit: Uint256, value: Uint256, data: Text)

  datatype Signature = Signature(recovery: nat, r: nat, s: nat)

  predicate Encodable(f: Fields) {
    && f.nonce < UINT256_END && f.gasPrice < UINT256_END && f.gasLimit < UINT256_END && f.value < UINT256_END
    && |f.to| == 20 && |f.data| < TWO_64 / 2 && f.chainId < TWO_64
  }

  predicate Word(sig: Signature) { sig.recovery < 2 && sig.r < UINT256_END && sig.s < UINT256_END }

  function FieldsOf(tx: PopulatedTransaction): (r: Result<Fields>) {
    var data :- Hex.Decoded(tx.data);
    Ok(Fields(tx.nonce, tx.gasPrice, tx.gasLimit, tx.to, tx.value, data, tx.chainId))
  }

  function Base(f: Fields): seq<seq<byte>> {
    [MinimalBigEndian(f.nonce), MinimalBigEndian(f.gasPrice), MinimalBigEndian(f.gasLimit), f.to,
     MinimalBigEndian(f.value), f.data]
  }

  function SigningStrings(f: Fields): seq<seq<byte>> { Base(f) + [MinimalBigEndian(f.chainId), [], []] }

  /** EIP-155: the recovery id and the chain in one number. */
  function V(recovery: nat, chainId: nat): nat { recovery + 35 + 2 * chainId }

  function SignedStrings(f: Fields, sig: Signature): seq<seq<byte>> {
    Base(f) + [MinimalBigEndian(V(sig.recovery, f.chainId)), MinimalBigEndian(sig.r), MinimalBigEndian(sig.s)]
  }

  // ---- Sizes ----

  lemma EncodedSize(v: seq<byte>)
    requires |v| < TWO_64
    ensures |EncodeBytes(v)| <= |v| + 9
  {
    hide MinimalBigEndian;
    LengthWidth(|v|);
  }

  lemma {:induction false} AllEncodedSize(vs: seq<seq<byte>>, bound: nat)
    requires bound < TWO_64 && forall i | 0 <= i < |vs| :: |vs[i]| <= bound
    ensures |EncodeAll(vs)| <= |vs| * (bound + 9)
    decreases |vs|
  {
    hide EncodeBytes;
    if vs != [] {
      EncodedSize(vs[0]);
      AllEncodedSize(vs[1..], bound);
      assert |vs| * (bound + 9) == (|vs| - 1) * (bound + 9) + (bound + 9);
    }
  }

  lemma {:induction false} EncodeAllConcat(a: seq<seq<byte>>, b: seq<seq<byte>>)
    requires forall i | 0 <= i < |a| :: |a[i]| < TWO_64
    requires forall i | 0 <= i < |b| :: |b[i]| < TWO_64
    ensures EncodeAll(a + b) == EncodeAll(a) + EncodeAll(b)
    decreases |a|
  {
    hide EncodeBytes;
    if a == [] {
      assert a + b == b;
    } else {
      assert (a + b)[0] == a[0] && (a + b)[1..] == a[1..] + b;
      EncodeAllConcat(a[1..], b);
    }
  }

  lemma WordWidth(n: nat)
    requires n < UINT256_END
    ensures |MinimalBigEndian(n)| <= 32
  {
    hide MinimalBigEndian;
    WordSpan();
    MinimalLength(n, 32);
  }

  /** Six small strings around a payload of half the address space still fit in it. */
  lemma NineStringsAreSized(a: seq<seq<byte>>, data: seq<byte>, b: seq<seq<byte>>)
    requires |a| + |b| <= 8 && |data| < TWO_64 / 2
    requires forall i | 0 <= i < |a| :: |a[i]| <= 32
    requires forall i | 0 <= i < |b| :: |b[i]| <= 32
    ensures Sized(a + [data] + b)
  {
    hide EncodeBytes, EncodeAll;
    var vs := a + [data] + b;
    assert forall i | 0 <= i < |vs| :: |vs[i]| < TWO_64;
    EncodeAllConcat(a + [data], b);
    EncodeAllConcat(a, [data]);
    AllEncodedSize(a, 32);
    AllEncodedSize(b, 32);
    AllEncodedSize([data], |data|);
  }

  lemma SigningSized(f: Fields)
    requires Encodable(f)
    ensures Sized(SigningStrings(f))
  {
    hide Sized, MinimalBigEndian;
    BaseWidths(f);
    WordWidth(f.chainId);
    NineStringsAreSized(Base(f)[..5], f.data, [MinimalBigEndian(f.chainId), [], []]);
    assert Base(f)[..5] + [f.data] == Base(f);
  }

  lemma SignedSized(f: Fields, sig: Signature)
    requires Encodable(f) && Word(sig)
    ensures Sized(SignedStrings(f, sig))
  {
    hide Sized, MinimalBigEndian;
    BaseWidths(f);
    WordWidth(V(sig.recovery, f.chainId));
    WordWidth(sig.r);
    WordWidth(sig.s);
    var tail := [MinimalBigEndian(V(sig.recovery, f.chainId)), MinimalBigEndian(sig.r), MinimalBigEndian(sig.s)];
    NineStringsAreSized(Base(f)[..5], f.data, tail);
    assert Base(f)[..5] + [f.data] == Base(f);
  }

  lemma BaseWidths(f: Fields)
    requires Encodable(f)
    ensures forall i | 0 <= i < 5 :: |Base(f)[..5][i]| <= 32
  {
    hide MinimalBigEndian;
    WordWidth(f.nonce);
    WordWidth(f.gasPrice);
    WordWidth(f.gasLimit);
    WordWidth(f.value);
  }

  function SigningPayload(f: Fields): seq<byte>
    requires Encodable(f)
  {
    SigningSized(f);
    EncodeList(SigningStrings(f))
  }

  function RawTransaction(f: Fields, sig: Signature): seq<byte>
    requires Encodable(f) && Word(sig)
  {
    SignedSized(f, sig);
    EncodeList(SignedStrings(f, sig))
  }

  // ---- What a node reads back ----

  predicate Minimal(s: seq<byte>) { s != [] ==> s[0] != 0 }

  /** Nine strings, the integers among the first seven minimal, the recipient twenty bytes. */
  predicate WellFormed(vs: seq<seq<byte>>) {
    && |vs| == 9 && |vs[3]| == 20
    && Minimal(vs[0]) && Minimal(vs[1]) && Minimal(vs[2]) && Minimal(vs[4]) && Minimal(vs[6])
  }

  function ReadFields(vs: seq<seq<byte>>, chainId: nat): Fields
    requires WellFormed(vs)
  {
    Fields(FromBigEndian(vs[0]), FromBigEndian(vs[1]), FromBigEndian(vs[2]), vs[3], FromBigEndian(vs[4]), vs[5], chainId)
  }

  function ReadSigning(input: seq<byte>): Option<Fields> {
    match DecodeList(input)
    case None => None
    case Some(vs) =>
      if WellFormed(vs) && vs[7] == [] && vs[8] == [] then Some(ReadFields(vs, FromBigEndian(vs[6]))) else None
  }

  function ReadSigned(input: seq<byte>): Option<(Fields, Signature)> {
    match DecodeList(input)
    case None => None
    case Some(vs) =>
      if WellFormed(vs) && Minimal(vs[7]) && Minimal(vs[8]) && FromBigEndian(vs[6]) >= 35 then
        var v := FromBigEndian(vs[6]) - 35;
        Some((ReadFields(vs, v / 2), Signature(v % 2, FromBigEndian(vs[7]), FromBigEndian(vs[8]))))
      else None
  }

  lemma BaseIsWellFormed(f: Fields, a: nat, b: seq<byte>, c: seq<byte>)
    requires |f.to| == 20
    ensures var vs := Base(f) + [MinimalBigEndian(a), b, c];
            WellFormed(vs) && ReadFields(vs, f.chainId) == f && FromBigEndian(vs[6]) == a && vs[7] == b && vs[8] == c
  {
    hide MinimalBigEndian, FromBigEndian;
  }

  /** The signed payload determines every field and the chain. */
  lemma SigningRoundTrip(f: Fields)
    requires Encodable(f)
    ensures ReadSigning(SigningPayload(f)) == Some(f)
  {
    hide DecodeList, EncodeList, Sized, MinimalBigEndian, FromBigEndian, WellFormed, ReadFields;
    SigningSized(f);
    ListRoundTrip(SigningStrings(f));
    BaseIsWellFormed(f, f.chainId, [], []);
  }

  /** Two transactions with the same payload to sign are the same transaction. */
  lemma SigningIsInjective(f: Fields, g: Fields)
    requires Encodable(f) && Encodable(g) && SigningPayload(f) == SigningPayload(g)
    ensures f == g
  {
    hide SigningPayload, ReadSigning;
    SigningRoundTrip(f);
    SigningRoundTrip(g);
  }

  /** The raw transaction determines every field, the chain, the recovery id and both signature words. */
  lemma SignedRoundTrip(f: Fields, sig: Signature)
    requires Encodable(f) && Word(sig)
    ensures ReadSigned(RawTransaction(f, sig)) == Some((f, sig))
  {
    hide DecodeList, EncodeList, Sized, MinimalBigEndian, FromBigEndian, WellFormed, ReadFields;
    SignedSized(f, sig);
    ListRoundTrip(SignedStrings(f, sig));
    BaseIsWellFormed(f, V(sig.recovery, f.chainId), MinimalBigEndian(sig.r), MinimalBigEndian(sig.s));
  }

  lemma BaseIsCanonical(vs: seq<seq<byte>>, chainId: nat)
    requires WellFormed(vs)
    ensures Base(ReadFields(vs, chainId)) == vs[..6] && MinimalBigEndian(FromBigEndian(vs[6])) == vs[6]
  {
    hide MinimalBigEndian, FromBigEndian;
    MinimalIsUnique(vs[0]);
    MinimalIsUnique(vs[1]);
    MinimalIsUnique(vs[2]);
    MinimalIsUnique(vs[4]);
    MinimalIsUnique(vs[6]);
  }

  /** A payload a strict reader accepts is the payload of what it read, so no payload has two readings or two spellings. */
  lemma SigningIsCanonical(input: seq<byte>)
    requires |input| < TWO_64 && ReadSigning(input).Some? && Encodable(ReadSigning(input).value)
    ensures SigningPayload(ReadSigning(input).value) == input
  {
    hide DecodeList, EncodeList, Sized, MinimalBigEndian, FromBigEndian, WellFormed, ReadFields, Base, Encodable;
    var vs, f := DecodeList(input).value, ReadSigning(input).value;
    ListIsCanonical(input);
    NineParts(vs);
    BaseIsCanonical(vs, FromBigEndian(vs[6]));
    ReadChain(vs, FromBigEndian(vs[6]));
    assert SigningStrings(f) == vs;
  }

  lemma SignedIsCanonical(input: seq<byte>)
    requires |input| < TWO_64 && ReadSigned(input).Some?
    requires Encodable(ReadSigned(input).value.0) && Word(ReadSigned(input).value.1)
    ensures RawTransaction(ReadSigned(input).value.0, ReadSigned(input).value.1) == input
  {
    hide DecodeList, EncodeList, Sized, MinimalBigEndian, FromBigEndian, WellFormed, ReadFields, Base, Encodable;
    var vs, f, sig := DecodeList(input).value, ReadSigned(input).value.0, ReadSigned(input).value.1;
    ListIsCanonical(input);
    NineParts(vs);
    BaseIsCanonical(vs, f.chainId);
    MinimalIsUnique(vs[7]);
    MinimalIsUnique(vs[8]);
    ReadChain(vs, (FromBigEndian(vs[6]) - 35) / 2);
    assert V(sig.recovery, f.chainId) == FromBigEndian(vs[6]);
    assert SignedStrings(f, sig) == vs;
  }

  lemma NineParts(vs: seq<seq<byte>>)
    requires WellFormed(vs)
    ensures |vs| == 9 && vs == vs[..6] + [vs[6], vs[7], vs[8]]
  {}

  lemma ReadChain(vs: seq<seq<byte>>, chainId: nat)
    requires WellFormed(vs)
    ensures ReadFields(vs, chainId).chainId == chainId
  {}

  // ---- Signing ----

  /** `trim_word`: the word from its first non-zero byte on. */
  method TrimWord(word: seq<byte>) returns (r: seq<byte>)
    ensures r == MinimalBigEndian(FromBigEndian(word))
  {
    var first := 0;
    while first < |word| && word[first] == 0
      invariant 0 <= first <= |word|
      invariant forall i | 0 <= i < first :: word[i] == 0
    {
      first := first + 1;
    }
    r := word[first..];
    LeadingZeros(word, first);
    MinimalIsUnique(r);
  }

  lemma {:induction false} LeadingZeros(word: seq<byte>, k: nat)
    requires k <= |word| && forall i | 0 <= i < k :: word[i] == 0
    ensures FromBigEndian(word[k..]) == FromBigEndian(word)
    decreases |word|
  {
    if |word| > k {
      var front := word[..|word| - 1];
      LeadingZeros(front, k);
      assert word[k..][..|word[k..]| - 1] == front[k..];
    } else if k > 0 {
      var front := word[..k - 1];
      LeadingZeros(front, k - 1);
      assert front[k - 1..] == word[k..];
    }
  }

  /** `signature_bytes`: 65 bytes whose last is 27 or 28. */
  function ParseSignature(t: Text): Result<Signature> {
    var bytes := Hex.Decoded(t);
    if bytes.Err? || |bytes.value| != 65 || bytes.value[64] !in {27, 28} then Err(InvalidField)
    else Ok(Signature(bytes.value[64] - 27, FromBigEndian(bytes.value[..32]), FromBigEndian(bytes.value[32..64])))
  }

  lemma ParsedIsWord(t: Text)
    requires ParseSignature(t).Ok?
    ensures Word(ParseSignature(t).value)
  {
    hide FromBigEndian;
    var bytes := Hex.Decoded(t).value;
    FromBigEndianBound(bytes[..32]);
    FromBigEndianBound(bytes[32..64]);
    WordSpan();
  }

  /** A signature text is `r`, `s` and 27 or 28 for the recovery id, in 65 bytes of hexadecimal; nothing else is one. */
  lemma SignatureIs(t: Text, sig: Signature)
    ensures ParseSignature(t) == Ok(sig) <==>
              Word(sig) && Hex.Decoded(t) == Ok(BigEndian(sig.r, 32) + BigEndian(sig.s, 32) + [27 + sig.recovery])
    ensures ParseSignature(t).Err? ==> ParseSignature(t).code == InvalidField
  {
    hide Hex.Decoded, BigEndian, FromBigEndian, ParseSignature;
    if ParseSignature(t) == Ok(sig) {
      SignatureWritten(t, sig);
    }
    if Word(sig) && Hex.Decoded(t) == Ok(BigEndian(sig.r, 32) + BigEndian(sig.s, 32) + [27 + sig.recovery]) {
      SignatureRead(t, sig);
    }
    RefusedSignature(t);
  }

  lemma RefusedSignature(t: Text)
    ensures ParseSignature(t).Err? ==> ParseSignature(t).code == InvalidField
  {
    hide Hex.Decoded, FromBigEndian;
  }

  lemma SignatureWritten(t: Text, sig: Signature)
    requires ParseSignature(t) == Ok(sig)
    ensures Word(sig) && Hex.Decoded(t) == Ok(BigEndian(sig.r, 32) + BigEndian(sig.s, 32) + [27 + sig.recovery])
  {
    hide Hex.Decoded, BigEndian, FromBigEndian;
    var bytes := Hex.Decoded(t).value;
    ParsedIsWord(t);
    WordsBack(bytes[..32]);
    WordsBack(bytes[32..64]);
    assert bytes == bytes[..32] + bytes[32..64] + [bytes[64]];
  }

  lemma SignatureRead(t: Text, sig: Signature)
    requires Word(sig) && Hex.Decoded(t) == Ok(BigEndian(sig.r, 32) + BigEndian(sig.s, 32) + [27 + sig.recovery])
    ensures ParseSignature(t) == Ok(sig)
  {
    hide Hex.Decoded, BigEndian, FromBigEndian;
    WordSpan();
    var bytes := Hex.Decoded(t).value;
    assert bytes[..32] == BigEndian(sig.r, 32) && bytes[32..64] == BigEndian(sig.s, 32) && bytes[64] == 27 + sig.recovery;
    BigEndianRoundTrip(sig.r, 32);
    BigEndianRoundTrip(sig.s, 32);
  }

  lemma WordsBack(w: seq<byte>)
    requires |w| == 32
    ensures BigEndian(FromBigEndian(w), 32) == w
  {
    hide BigEndian, FromBigEndian;
    FromBigEndianBound(w);
    BigEndianRoundTrip(FromBigEndian(w), 32);
    FromBigEndianInjective(BigEndian(FromBigEndian(w), 32), w);
  }

  /** What is signed: the transaction's own fields and the decoded call data, with the signer's signature. Without a signer
      the argument is invalid; otherwise the first of bad call data, a signer's error and a bad signature is reported. */
  lemma OutcomeIs(tx: PopulatedTransaction, signer: Option<Result<Text>>)
    ensures var r, data := Outcome(tx, signer), Hex.Decoded(tx.data);
            && (signer.None? ==> r == Err(InvalidArgument))
            && (signer.Some? && data.Err? ==> r == Err(data.code))
            && (signer.Some? && data.Ok? && signer.value.Err? ==> r == Err(signer.value.code))
            && (signer.Some? && data.Ok? && signer.value.Ok? && ParseSignature(signer.value.value).Err? ==> r == Err(InvalidField))
            && (r.Ok? <==> signer.Some? && data.Ok? && signer.value.Ok? && ParseSignature(signer.value.value).Ok?)
            && (r.Ok? ==>
                  var f := r.value.0;
                  && f.nonce == tx.nonce && f.gasPrice == tx.gasPrice && f.gasLimit == tx.gasLimit && f.to == tx.to
                  && f.value == tx.value && f.chainId == tx.chainId && data == Ok(f.data)
                  && ParseSignature(signer.value.value) == Ok(r.value.1))
  {
    hide Hex.Decoded, FromBigEndian;
  }

  lemma FieldsAreEncodable(tx: PopulatedTransaction)
    requires |tx.data| < TWO_64 && FieldsOf(tx).Ok?
    ensures Encodable(FieldsOf(tx).value)
  {}

  /** The outcome of signing, given the signer's answer to the digest, if there is a signer. */
  function Outcome(tx: PopulatedTransaction, signer: Option<Result<Text>>): (r: Result<(Fields, Signature)>) {
    if signer.None? then Err(InvalidArgument)
    else
      var f :- FieldsOf(tx);
      var text :- signer.value;
      var sig :- ParseSignature(text);
      Ok((f, sig))
  }

  /** The bytes `legacy_transaction_signing_digest` hashes. */
  method EncodeSigning(tx: PopulatedTransaction) returns (r: Result<seq<byte>>)
    requires |tx.data| < TWO_64
    ensures r.Err? <==> FieldsOf(tx).Err?
    ensures r.Err? ==> r.code == FieldsOf(tx).code
    ensures r.Ok? ==> ReadSigning(r.value) == Some(FieldsOf(tx).value)
  {
    hide Hex.IsHex, ReadSigning, MinimalBigEndian, EncodeList, EncodeAll, EncodeBytes, Sized;
    var data := Hex.Decode(tx.data);
    if data.Err? {
      return Err(data.code);
    }
    ghost var f := FieldsOf(tx).value;
    FieldsAreEncodable(tx);
    SigningSized(f);
    var nonce := IntegerBytes(tx.nonce);
    var gasPrice := IntegerBytes(tx.gasPrice);
    var gasLimit := IntegerBytes(tx.gasLimit);
    var value := IntegerBytes(tx.value);
    var chain := IntegerBytes(tx.chainId);
    var strings := [nonce, gasPrice, gasLimit, tx.to, value, data.value, chain, [], []];
    assert strings == SigningStrings(f);
    var payload := AppendStrings(strings);
    SigningRoundTrip(f);
    r := Ok(payload);
  }

  /** `sign_legacy_transaction`: the hexadecimal bytes it returns read back as the transaction and the signature. */
  method SignLegacyTransaction(tx: PopulatedTransaction, signer: Option<Result<Text>>) returns (r: Result<Text>)
    requires |tx.data| < TWO_64
    ensures r.Err? <==> Outcome(tx, signer).Err?
    ensures r.Err? ==> r.code == Outcome(tx, signer).code
    ensures r.Ok? ==> Hex.Decoded(r.value).Ok? && ReadSigned(Hex.Decoded(r.value).value) == Some(Outcome(tx, signer).value)
  {
    hide Hex.IsHex, RawTransaction, ReadSigned, MinimalBigEndian, FromBigEndian, EncodeList, EncodeAll, EncodeBytes, Sized, Encodable;
    if signer.None? {
      return Err(InvalidArgument);
    }
    var data := Hex.Decode(tx.data);
    if data.Err? {
      return Err(data.code);
    }
    if signer.value.Err? {
      return Err(signer.value.code);
    }
    var bytes := Hex.Decode(signer.value.value);
    if bytes.Err? || |bytes.value| != 65 || bytes.value[64] !in {27, 28} {
      return Err(InvalidField);
    }
    ghost var f, sig := FieldsOf(tx).value, ParseSignature(signer.value.value).value;
    FieldsAreEncodable(tx);
    ParsedIsWord(signer.value.value);
    var raw := EncodeSigned(tx, data.value, bytes.value, f, sig);
    var text := Hex.Encode(raw);
    SignedRoundTrip(f, sig);
    Hex.DecodeInvertsEncode(raw);
    r := Ok(text);
  }

  /** `base_fields` and the nine encoded strings of a raw transaction. */
  method EncodeSigned(tx: PopulatedTransaction, data: seq<byte>, signature: seq<byte>, ghost f: Fields, ghost sig: Signature)
    returns (raw: seq<byte>)
    requires f == Fields(tx.nonce, tx.gasPrice, tx.gasLimit, tx.to, tx.value, data, tx.chainId)
    requires |signature| == 65 && signature[64] in {27, 28}
    requires sig == Signature(signature[64] - 27, FromBigEndian(signature[..32]), FromBigEndian(signature[32..64]))
    requires Encodable(f) && Word(sig)
    ensures raw == RawTransaction(f, sig)
  {
    hide MinimalBigEndian, FromBigEndian, EncodeList, EncodeAll, EncodeBytes, Sized;
    var nonce := IntegerBytes(tx.nonce);
    var gasPrice := IntegerBytes(tx.gasPrice);
    var gasLimit := IntegerBytes(tx.gasLimit);
    var value := IntegerBytes(tx.value);
    var v := IntegerBytes((signature[64] - 27) + 35 + tx.chainId * 2);
    var r := TrimWord(signature[..32]);
    var s := TrimWord(signature[32..64]);
    var strings := [nonce, gasPrice, gasLimit, tx.to, value, data, v, r, s];
    assert strings == SignedStrings(f, sig);
    SignedSized(f, sig);
    raw := AppendStrings(strings);
  }

  /** Encodes each string, then the list of them. */
  method AppendStrings(strings: seq<seq<byte>>) returns (r: seq<byte>)
    requires Sized(strings)
    ensures r == EncodeList(strings)
  {
    hide EncodeBytes, EncodeAll;
    var fields: seq<seq<byte>> := [];
    for i := 0 to |strings|
      invariant |fields| == i && forall j | 0 <= j < i :: fields[j] == EncodeBytes(strings[j])
    {
      var field := AppendBytes(strings[i]);
      fields := fields + [field];
    }
    r := AppendList(fields, strings);
  }
}
