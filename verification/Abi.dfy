/** Contract ABI words, dynamic bytes and the encoders that place them (`src/chain_abi.cpp`), with a reader that
    follows offsets as the Solidity ABI specification prescribes. */
module Abi {
  import opened Foundations
  import opened Numerals

  /** One 32-byte big-endian word. */
  function Word(n: nat): (w: seq<byte>)
    ensures |w| == 32
  {
    BigEndian(n, 32)
  }

  function Zeroes(n: nat): (z: seq<byte>)
    ensures |z| == n && forall i | 0 <= i < n :: z[i] == 0
  {
    seq(n, _ => 0)
  }

  function AddressWord(a: Address): (w: seq<byte>)
    ensures |w| == 32
  {
    Zeroes(12) + a
  }

  predicate AreWords(ws: seq<seq<byte>>) { forall i | 0 <= i < |ws| :: |ws[i]| == 32 }

  function Flat(parts: seq<seq<byte>>): seq<byte> {
    if parts == [] then [] else parts[0] + Flat(parts[1..])
  }

  function Padding(n: nat): nat { (n + 31) / 32 * 32 - n }

  /** The tail of a dynamic `bytes` argument. */
  function Tail(v: seq<byte>): seq<byte> { Word(|v|) + v + Zeroes(Padding(|v|)) }

  // ---- Reading ----

  function WordAt(t: seq<byte>, at: nat): (w: seq<byte>)
    requires at + 32 <= |t|
    ensures |w| == 32
  {
    t[at..at + 32]
  }

  function ReadUint(t: seq<byte>, at: nat): Option<nat> {
    if at + 32 <= |t| then Some(FromBigEndian(WordAt(t, at))) else None
  }

  function ReadAddress(t: seq<byte>, at: nat): Option<Address> {
    if at + 32 <= |t| && WordAt(t, at)[..12] == Zeroes(12) then Some(WordAt(t, at)[12..]) else None
  }

  /** The bytes whose tail starts at `at`: the length, the bytes, and zeroes up to the next word. */
  function ReadBytes(t: seq<byte>, at: nat): Option<seq<byte>> {
    match ReadUint(t, at)
    case None => None
    case Some(n) =>
      var from := at + 32;
      if from + n + Padding(n) <= |t| && t[from + n..from + n + Padding(n)] == Zeroes(Padding(n))
      then Some(t[from..from + n]) else None
  }

  lemma PaddingAligns(n: nat)
    ensures 0 <= Padding(n) < 32 && (n + Padding(n)) % 32 == 0
  {}

  lemma WordRoundTrip(n: nat)
    requires n < UINT256_END
    ensures FromBigEndian(Word(n)) == n
  {
    hide FromBigEndian, BigEndian;
    WordSpan();
    BigEndianRoundTrip(n, 32);
  }

  lemma ReadWord(before: seq<byte>, n: nat, after: seq<byte>)
    requires n < UINT256_END
    ensures ReadUint(before + Word(n) + after, |before|) == Some(n)
  {
    hide Word, FromBigEndian;
    WordRoundTrip(n);
    assert WordAt(before + Word(n) + after, |before|) == Word(n);
  }

  lemma ReadTail(before: seq<byte>, v: seq<byte>, after: seq<byte>)
    requires |v| < UINT256_END
    ensures ReadBytes(before + Tail(v) + after, |before|) == Some(v)
  {
    hide Word, ReadUint, Padding;
    var t, from, p := before + Tail(v) + after, |before| + 32, Padding(|v|);
    var rest := v + Zeroes(p) + after;
    assert t == before + Word(|v|) + rest;
    ReadWord(before, |v|, rest);
    assert t[from..from + |v|] == v;
    assert t[from + |v|..from + |v| + p] == Zeroes(p);
  }

  lemma {:induction false} FlatSize(ws: seq<seq<byte>>)
    requires AreWords(ws)
    ensures |Flat(ws)| == 32 * |ws|
    decreases |ws|
  {
    if ws != [] {
      FlatSize(ws[1..]);
    }
  }

  /** Splitting the laid-out parts at the i-th one. */
  lemma {:induction false} FlatSplit(parts: seq<seq<byte>>, i: nat)
    requires i <= |parts|
    ensures Flat(parts) == Flat(parts[..i]) + Flat(parts[i..])
    decreases i
  {
    if i == 0 {
      assert parts[..0] == [] && parts[0..] == parts;
    } else {
      FlatSplit(parts[1..], i - 1);
      assert parts[..i][0] == parts[0] && parts[..i][1..] == parts[1..][..i - 1] && parts[1..][i - 1..] == parts[i..];
    }
  }

  /** The i-th word of a head is where its index says. */
  lemma WordOf(ws: seq<seq<byte>>, i: nat, rest: seq<byte>)
    requires AreWords(ws) && i < |ws|
    ensures 32 * i + 32 <= |Flat(ws) + rest| && WordAt(Flat(ws) + rest, 32 * i) == ws[i]
  {
    FlatSplit(ws, i);
    FlatSize(ws[..i]);
    FlatSize(ws);
    assert ws[i..][0] == ws[i];
    var tail := Flat(ws[i..][1..]);
    assert Flat(ws[i..]) == ws[i] + tail;
    assert Flat(ws) + rest == Flat(ws[..i]) + (ws[i] + (tail + rest));
  }

  // ---- Encoders ----

  /** `word(Uint256)`: fills a 32-byte buffer from the back. */
  method EncodeWord(n: nat) returns (r: Result<seq<byte>>)
    ensures r == if n < UINT256_END then Ok(Word(n)) else Err(NumericOverflow)
  {
    hide BigEndian, Pow256;
    var result := new byte[32];
    var parsed: nat := n;
    var filled := 0;
    assert result[32..] == [];
    BigEndianStep(n, 0);
    while filled < 32
      invariant 0 <= filled <= 32
      invariant n < UINT256_END <==> parsed < Pow256(32 - filled)
      invariant BigEndian(n, 32) == BigEndian(parsed, 32 - filled) + result[32 - filled..]
    {
      ghost var tail := result[32 - filled..];
      result[31 - filled] := parsed % 256;
      BigEndianStep(parsed, 32 - filled);
      assert result[31 - filled..] == [parsed % 256] + tail;
      parsed := parsed / 256;
      filled := filled + 1;
    }
    BigEndianStep(parsed, 0);
    assert filled == 32;
    if parsed != 0 {
      return Err(NumericOverflow);
    }
    assert BigEndian(n, 32) == [] + result[0..] == result[..];
    r := Ok(result[..]);
  }

  lemma BigEndianStep(n: nat, width: nat)
    ensures BigEndian(n, 0) == [] && Pow256(0) == 1 && Pow256(32) == UINT256_END
    ensures width > 0 ==> BigEndian(n, width) == BigEndian(n / 256, width - 1) + [n % 256]
    ensures width > 0 ==> (n < Pow256(width) <==> n / 256 < Pow256(width - 1))
  {
    WordSpan();
  }

  /** `encode_call_with_bytes` before its hexadecimal rendering. */
  function CallWithBytes(selector: seq<byte>, words: seq<seq<byte>>, v: seq<byte>): seq<byte> {
    selector + Flat(words) + Word(32 * (|words| + 1)) + Tail(v)
  }

  method EncodeCallWithBytes(selector: seq<byte>, words: seq<seq<byte>>, v: seq<byte>) returns (encoded: seq<byte>)
    requires AreWords(words) && 32 * (|words| + 1) < TWO_64 && |v| < TWO_64
    ensures encoded == CallWithBytes(selector, words, v)
  {
    hide Word, Flat;
    var offset := EncodeWord(32 * (|words| + 1));
    var length := EncodeWord(|v|);
    encoded := AppendAll(selector, words);
    encoded := encoded + offset.value;
    encoded := encoded + length.value;
    encoded := encoded + v;
    encoded := encoded + Zeroes(Padding(|v|));
    assert encoded == CallWithBytes(selector, words, v);
  }

  method AppendAll(before: seq<byte>, parts: seq<seq<byte>>) returns (r: seq<byte>)
    ensures r == before + Flat(parts)
  {
    r := before;
    for i := 0 to |parts|
      invariant r == before + Flat(parts[..i])
    {
      FlatSplit(parts[..i + 1], i);
      assert parts[..i + 1][..i] == parts[..i] && parts[..i + 1][i..] == [parts[i]];
      assert Flat([parts[i]]) == parts[i];
      r := r + parts[i];
    }
    assert parts[..|parts|] == parts;
  }

  /** A reader that follows the offset behind the fixed words recovers the bytes. */
  lemma CallWithBytesReads(selector: seq<byte>, words: seq<seq<byte>>, v: seq<byte>)
    requires AreWords(words) && 32 * (|words| + 1) < TWO_64 && |v| < TWO_64
    ensures var args := CallWithBytes(selector, words, v)[|selector|..];
            && (forall i | 0 <= i < |words| :: 32 * i + 32 <= |args| && WordAt(args, 32 * i) == words[i])
            && ReadUint(args, 32 * |words|) == Some(32 * (|words| + 1))
            && ReadBytes(args, 32 * (|words| + 1)) == Some(v)
  {
    hide Word, Flat, Tail, ReadBytes, ReadUint, WordAt;
    var call := CallWithBytes(selector, words, v);
    var offset := Word(32 * (|words| + 1));
    var args := Flat(words) + offset + Tail(v);
    assert call == selector + args;
    FlatSize(words);
    ReadWord(Flat(words), 32 * (|words| + 1), Tail(v));
    ReadTail(Flat(words) + offset, v, []);
    assert args + [] == args;
    forall i | 0 <= i < |words| ensures 32 * i + 32 <= |args| && WordAt(args, 32 * i) == words[i] {
      WordOf(words, i, offset + Tail(v));
      assert args == Flat(words) + (offset + Tail(v));
    }
  }

  /** `encode_call_with_uint_array` before its hexadecimal rendering: a dynamic array between fixed words. */
  function CallWithArray(selector: seq<byte>, before: seq<seq<byte>>, values: seq<Uint256>, after: seq<seq<byte>>): seq<byte> {
    selector + Flat(before + [Word(32 * (|before| + 1 + |after|))] + after + [Word(|values|)] + ValueWords(values))
  }

  function ValueWords(values: seq<Uint256>): (ws: seq<seq<byte>>)
    ensures |ws| == |values| && AreWords(ws) && forall i | 0 <= i < |values| :: ws[i] == Word(values[i])
  {
    seq(|values|, i requires 0 <= i < |values| => Word(values[i]))
  }

  method EncodeCallWithArray(selector: seq<byte>, before: seq<seq<byte>>, values: seq<Uint256>, after: seq<seq<byte>>)
    returns (encoded: seq<byte>)
    requires AreWords(before) && AreWords(after) && 32 * (|before| + 1 + |after|) < TWO_64 && |values| < TWO_64
    ensures encoded == CallWithArray(selector, before, values, after)
  {
    hide Word, Flat;
    var offset := EncodeWord(32 * (|before| + 1 + |after|));
    var length := EncodeWord(|values|);
    var words := before + [offset.value] + after + [length.value];
    for i := 0 to |values|
      invariant words == before + [offset.value] + after + [length.value] + ValueWords(values)[..i]
    {
      var w := EncodeWord(values[i]);
      words := words + [w.value];
    }
    assert ValueWords(values)[..|values|] == ValueWords(values);
    encoded := AppendAll(selector, words);
  }

  /** The offset between the fixed words leads to the count, and the values follow it. */
  lemma CallWithArrayReads(selector: seq<byte>, before: seq<seq<byte>>, values: seq<Uint256>, after: seq<seq<byte>>)
    requires AreWords(before) && AreWords(after) && 32 * (|before| + 1 + |after|) < TWO_64 && |values| < TWO_64
    ensures var args, tail := CallWithArray(selector, before, values, after)[|selector|..], 32 * (|before| + 1 + |after|);
            && ReadUint(args, 32 * |before|) == Some(tail)
            && ReadUint(args, tail) == Some(|values|)
            && (forall i | 0 <= i < |values| :: ReadUint(args, tail + 32 + 32 * i) == Some(values[i]))
            && (forall i | 0 <= i < |before| :: 32 * i + 32 <= |args| && WordAt(args, 32 * i) == before[i])
            && (forall i | 0 <= i < |after| ::
                 32 * (|before| + 1 + i) + 32 <= |args| && WordAt(args, 32 * (|before| + 1 + i)) == after[i])
  {
    hide Word, Flat, WordAt, FromBigEndian;
    var n := |before| + 1 + |after|;
    var ws := before + [Word(32 * n)] + after + [Word(|values|)] + ValueWords(values);
    var call, args := CallWithArray(selector, before, values, after), Flat(ws);
    assert call[|selector|..] == args;
    forall i | 0 <= i < |ws| ensures 32 * i + 32 <= |args| && WordAt(args, 32 * i) == ws[i] {
      WordOf(ws, i, []);
      assert Flat(ws) + [] == Flat(ws);
    }
    WordRoundTrip(32 * n);
    WordRoundTrip(|values|);
    assert ws[|before|] == Word(32 * n) && ws[n] == Word(|values|);
    forall i | 0 <= i < |values| ensures ReadUint(args, 32 * n + 32 + 32 * i) == Some(values[i]) {
      assert ws[n + 1 + i] == Word(values[i]);
      WordRoundTrip(values[i]);
    }
    assert forall i | 0 <= i < |after| :: ws[|before| + 1 + i] == after[i];
  }
}
