/** Recursive Length Prefix encoding of byte strings and flat lists (Ethereum Yellow Paper, Appendix B), with a
    strict decoder. */
module Rlp {
  import opened Foundations
  import opened Numerals

  /** A header: short lengths in one byte, longer ones as a minimal big-endian length. */
  function Header(length: nat, short: byte, long: byte): seq<byte>
    requires length < TWO_64 && short <= 0xc0 && long <= 0xf7
  {
    if length <= 55 then [short + length]
    else
      LengthWidth(length);
      [long + |MinimalBigEndian(length)|] + MinimalBigEndian(length)
  }

  lemma LengthWidth(length: nat)
    requires length < TWO_64
    ensures |MinimalBigEndian(length)| <= 8
  {
    assert Pow256(8) == TWO_64;
    MinimalLength(length, 8);
  }

  function EncodeBytes(v: seq<byte>): seq<byte>
    requires |v| < TWO_64
  {
    if |v| == 1 && v[0] < 0x80 then v else Header(|v|, 0x80, 0xb7) + v
  }

  function EncodeAll(vs: seq<seq<byte>>): seq<byte>
    requires forall i | 0 <= i < |vs| :: |vs[i]| < TWO_64
  {
    if vs == [] then [] else EncodeBytes(vs[0]) + EncodeAll(vs[1..])
  }

  /** Every string, and the encoded list together, has a length that fits `size_t`. */
  predicate Sized(vs: seq<seq<byte>>) {
    (forall i | 0 <= i < |vs| :: |vs[i]| < TWO_64) && |EncodeAll(vs)| < TWO_64
  }

  function EncodeList(vs: seq<seq<byte>>): seq<byte>
    requires Sized(vs)
  {
    Header(|EncodeAll(vs)|, 0xc0, 0xf7) + EncodeAll(vs)
  }

  // ---- The imperative encoder ----

  lemma MinimalStep(n: nat)
    ensures MinimalBigEndian(0) == []
    ensures n != 0 ==> MinimalBigEndian(n) == MinimalBigEndian(n / 256) + [n % 256]
  {}

  /** `append_length` and its twin in `rlp_list`: fills an eight-byte buffer from the back. */
  method AppendLength(out: seq<byte>, length: nat, long: byte) returns (r: seq<byte>)
    requires 55 < length < TWO_64 && long <= 0xf7
    ensures |MinimalBigEndian(length)| <= 8
    ensures r == out + [long + |MinimalBigEndian(length)|] + MinimalBigEndian(length)
  {
    hide MinimalBigEndian, FromBigEndian;
    LengthWidth(length);
    var encoded := new byte[8];
    var cursor: nat, value: nat := 8, length;
    assert encoded[8..] == [];
    while value != 0
      invariant 0 <= cursor <= 8
      invariant MinimalBigEndian(length) == MinimalBigEndian(value) + encoded[cursor..]
    {
      MinimalStep(value);
      ghost var tail := encoded[cursor..];
      cursor := cursor - 1;
      encoded[cursor] := value % 256;
      assert encoded[cursor..] == [value % 256] + tail;
      value := value / 256;
    }
    MinimalStep(0);
    assert MinimalBigEndian(length) == encoded[cursor..];
    r := out + [long + (8 - cursor)] + encoded[cursor..];
  }

  /** `rlp_bytes`. */
  method AppendBytes(v: seq<byte>) returns (r: seq<byte>)
    requires |v| < TWO_64
    ensures r == EncodeBytes(v)
  {
    if |v| == 1 && v[0] < 0x80 {
      return v;
    }
    if |v| <= 55 {
      r := [0x80 + |v|];
    } else {
      r := AppendLength([], |v|, 0xb7);
      assert r == Header(|v|, 0x80, 0xb7);
    }
    r := r + v;
  }

  /** `rlp_integer`: collects bytes least significant first, then reverses. */
  method IntegerBytes(n: nat) returns (bytes: seq<byte>)
    ensures bytes == MinimalBigEndian(n)
  {
    hide MinimalBigEndian, FromBigEndian, Reversed;
    var value: nat, reversed: seq<byte> := n, [];
    ReversedEmpty();
    while value != 0
      invariant MinimalBigEndian(n) == MinimalBigEndian(value) + Reversed(reversed)
    {
      MinimalStep(value);
      ReversedAppend(reversed, value % 256);
      reversed := reversed + [value % 256];
      value := value / 256;
    }
    MinimalStep(0);
    bytes := Reversed(reversed);
  }

  function Reversed(s: seq<byte>): seq<byte> { if s == [] then [] else [s[|s| - 1]] + Reversed(s[..|s| - 1]) }

  lemma ReversedEmpty()
    ensures Reversed([]) == []
  {
  }

  lemma ReversedAppend(s: seq<byte>, b: byte)
    ensures Reversed(s + [b]) == [b] + Reversed(s)
  {
    assert (s + [b])[..|s|] == s;
  }

  /** `rlp_list` over already encoded fields. */
  method AppendList(fields: seq<seq<byte>>, ghost vs: seq<seq<byte>>) returns (r: seq<byte>)
    requires Sized(vs) && |fields| == |vs| && forall i | 0 <= i < |vs| :: fields[i] == EncodeBytes(vs[i])
    ensures r == EncodeList(vs)
  {
    hide EncodeBytes;
    var body := [];
    for i := 0 to |fields|
      invariant body + EncodeAll(vs[i..]) == EncodeAll(vs)
    {
      assert vs[i..][0] == vs[i] && vs[i..][1..] == vs[i + 1..];
      assert body + (fields[i] + EncodeAll(vs[i + 1..])) == (body + fields[i]) + EncodeAll(vs[i + 1..]);
      body := body + fields[i];
    }
    assert vs[|fields|..] == [] && body + [] == body;
    if |body| <= 55 {
      r := [0xc0 + |body|];
    } else {
      r := AppendLength([], |body|, 0xf7);
      assert r == Header(|body|, 0xc0, 0xf7);
    }
    r := r + body;
  }

  // ---- A strict decoder ----

  /** The kind of an item, its content, and what follows it. */
  datatype Item = Item(isList: bool, content: seq<byte>, rest: seq<byte>)

  function Content(isList: bool, length: nat, input: seq<byte>): Option<Item> {
    if |input| < length then None else Some(Item(isList, input[..length], input[length..]))
  }

  /** A long length must be minimal and above 55. */
  function LongContent(isList: bool, width: nat, input: seq<byte>): (r: Option<Item>)
    ensures r.Some? ==> r.value.isList == isList
  {
    if |input| < width || width == 0 then None
    else
      var length := FromBigEndian(input[..width]);
      if input[0] == 0 || length <= 55 then None else Content(isList, length, input[width..])
  }

  function DecodeItem(input: seq<byte>): Option<Item> {
    if input == [] then None
    else
      var b, tail := input[0], input[1..];
      if b < 0x80 then Some(Item(false, [b], tail))
      else if b <= 0xb7 then
        match Content(false, b - 0x80, tail)
        case None => None
        case Some(item) => if |item.content| == 1 && item.content[0] < 0x80 then None else Some(item)
      else if b <= 0xbf then LongContent(false, b - 0xb7, tail)
      else if b <= 0xf7 then Content(true, b - 0xc0, tail)
      else LongContent(true, b - 0xf7, tail)
  }

  /** The strings a byte sequence consists of. */
  function DecodeStrings(input: seq<byte>): Option<seq<seq<byte>>>
    decreases |input|
  {
    if input == [] then Some([])
    else
      match DecodeItem(input)
      case None => None
      case Some(item) =>
        if item.isList || |item.rest| >= |input| then None
        else
          match DecodeStrings(item.rest)
          case None => None
          case Some(more) => Some([item.content] + more)
  }

  function DecodeList(input: seq<byte>): Option<seq<seq<byte>>> {
    match DecodeItem(input)
    case None => None
    case Some(item) => if item.isList && item.rest == [] then DecodeStrings(item.content) else None
  }

  // ---- Decoding inverts encoding ----

  lemma LongContentInverts(isList: bool, content: seq<byte>, rest: seq<byte>)
    requires 55 < |content|
    ensures var w := MinimalBigEndian(|content|);
            LongContent(isList, |w|, w + (content + rest)) == Some(Item(isList, content, rest))
  {
    var w := MinimalBigEndian(|content|);
    var input := w + (content + rest);
    assert input[..|w|] == w && input[|w|..] == content + rest;
    assert (content + rest)[..|content|] == content && (content + rest)[|content|..] == rest;
  }

  lemma DecodeShort(v: seq<byte>, rest: seq<byte>)
    requires |v| <= 55 && !(|v| == 1 && v[0] < 0x80)
    ensures DecodeItem([0x80 + |v|] + v + rest) == Some(Item(false, v, rest))
  {
    hide LongContent;
    var input := [0x80 + |v|] + v + rest;
    assert input[1..] == v + rest && (v + rest)[..|v|] == v && (v + rest)[|v|..] == rest;
  }

  lemma DecodeLong(v: seq<byte>, rest: seq<byte>)
    requires 55 < |v| < TWO_64
    ensures DecodeItem(Header(|v|, 0x80, 0xb7) + v + rest) == Some(Item(false, v, rest))
  {
    hide MinimalBigEndian, FromBigEndian, LongContent;
    LengthWidth(|v|);
    var input := Header(|v|, 0x80, 0xb7) + v + rest;
    assert input[1..] == MinimalBigEndian(|v|) + (v + rest);
    LongContentInverts(false, v, rest);
  }

  lemma DecodeBytes(v: seq<byte>, rest: seq<byte>)
    requires |v| < TWO_64
    ensures DecodeItem(EncodeBytes(v) + rest) == Some(Item(false, v, rest))
  {
    hide LongContent, MinimalBigEndian, FromBigEndian;
    if |v| == 1 && v[0] < 0x80 {
      assert (v + rest)[1..] == rest && [(v + rest)[0]] == v;
    } else if |v| <= 55 {
      hide DecodeItem;
      DecodeShort(v, rest);
    } else {
      hide DecodeItem;
      DecodeLong(v, rest);
    }
  }

  lemma DecodeListHeader(content: seq<byte>)
    requires |content| < TWO_64
    ensures DecodeItem(Header(|content|, 0xc0, 0xf7) + content) == Some(Item(true, content, []))
  {
    hide MinimalBigEndian, FromBigEndian, LongContent;
    var input := Header(|content|, 0xc0, 0xf7) + content;
    if |content| <= 55 {
      assert input[1..] == content && content[..|content|] == content && content[|content|..] == [];
    } else {
      LengthWidth(|content|);
      var w := MinimalBigEndian(|content|);
      assert input[1..] == w + (content + []);
      LongContentInverts(true, content, []);
    }
  }

  lemma {:induction false} DecodeAll(vs: seq<seq<byte>>)
    requires forall i | 0 <= i < |vs| :: |vs[i]| < TWO_64
    ensures DecodeStrings(EncodeAll(vs)) == Some(vs)
    decreases |vs|
  {
    hide DecodeItem;
    if vs != [] {
      var rest := EncodeAll(vs[1..]);
      DecodeBytes(vs[0], rest);
      DecodeAll(vs[1..]);
      assert vs == [vs[0]] + vs[1..];
    }
  }

  lemma ListRoundTrip(vs: seq<seq<byte>>)
    requires Sized(vs)
    ensures DecodeList(EncodeList(vs)) == Some(vs)
  {
    hide DecodeItem;
    DecodeListHeader(EncodeAll(vs));
    DecodeAll(vs);
  }

  // ---- Accepted input has exactly one encoding ----

  lemma LongContentIsCanonical(isList: bool, width: nat, input: seq<byte>)
    requires LongContent(isList, width, input).Some?
    ensures var item := LongContent(isList, width, input).value;
            && item.isList == isList && |item.content| > 55 && |MinimalBigEndian(|item.content|)| == width
            && input == MinimalBigEndian(|item.content|) + item.content + item.rest
  {
    var w := input[..width];
    MinimalIsUnique(w);
    var length := FromBigEndian(w);
    assert input == w + (input[width..][..length] + input[width..][length..]);
  }

  lemma ShortIsCanonical(input: seq<byte>)
    requires input != [] && 0x80 <= input[0] <= 0xb7 && DecodeItem(input).Some?
    ensures var item := DecodeItem(input).value;
            |item.content| < TWO_64 && input == EncodeBytes(item.content) + item.rest
  {
    hide LongContent, MinimalBigEndian, FromBigEndian;
    var item, tail := DecodeItem(input).value, input[1..];
    assert Content(false, input[0] - 0x80, tail) == Some(item);
    assert tail == item.content + item.rest && |item.content| == input[0] - 0x80;
    hide DecodeItem, Content;
    assert EncodeBytes(item.content) == [input[0]] + item.content;
    assert input == [input[0]] + tail;
  }

  lemma LongIsCanonical(input: seq<byte>)
    requires |input| < TWO_64 && input != [] && 0xb7 < input[0] <= 0xbf && DecodeItem(input).Some?
    ensures var item := DecodeItem(input).value;
            |item.content| < TWO_64 && input == EncodeBytes(item.content) + item.rest
  {
    hide LongContent, MinimalBigEndian, FromBigEndian;
    assert input == [input[0]] + input[1..];
    LongContentIsCanonical(false, input[0] - 0xb7, input[1..]);
  }

  lemma DecodedStringIsCanonical(input: seq<byte>)
    requires |input| < TWO_64 && DecodeItem(input).Some? && !DecodeItem(input).value.isList
    ensures var item := DecodeItem(input).value;
            |item.content| < TWO_64 && input == EncodeBytes(item.content) + item.rest
  {
    hide LongContent, MinimalBigEndian, FromBigEndian, Header;
    if input[0] < 0x80 {
      assert input == [input[0]] + input[1..];
    } else if input[0] <= 0xb7 {
      ShortIsCanonical(input);
    } else {
      LongIsCanonical(input);
    }
  }

  lemma DecodedListIsCanonical(input: seq<byte>)
    requires |input| < TWO_64 && DecodeItem(input).Some? && DecodeItem(input).value.isList
    ensures var item := DecodeItem(input).value;
            |item.content| < TWO_64 && input == Header(|item.content|, 0xc0, 0xf7) + item.content + item.rest
  {
    hide MinimalBigEndian, FromBigEndian, LongContent;
    var item, tail := DecodeItem(input).value, input[1..];
    assert input == [input[0]] + tail;
    if input[0] <= 0xf7 {
      assert tail == item.content + item.rest;
    } else {
      LongContentIsCanonical(true, input[0] - 0xf7, tail);
    }
  }

  lemma {:induction false} DecodedStringsAreCanonical(input: seq<byte>)
    requires |input| < TWO_64 && DecodeStrings(input).Some?
    ensures var vs := DecodeStrings(input).value;
            (forall i | 0 <= i < |vs| :: |vs[i]| < TWO_64) && EncodeAll(vs) == input
    decreases |input|
  {
    hide DecodeItem, EncodeBytes;
    if input != [] {
      var item := DecodeItem(input).value;
      DecodedStringIsCanonical(input);
      DecodedStringsAreCanonical(item.rest);
      var vs := DecodeStrings(input).value;
      assert vs[0] == item.content && vs[1..] == DecodeStrings(item.rest).value;
    }
  }

  /** The decoder accepts only what the encoder produces: decoding and re-encoding gives the input back. */
  lemma ListIsCanonical(input: seq<byte>)
    requires |input| < TWO_64 && DecodeList(input).Some?
    ensures Sized(DecodeList(input).value) && EncodeList(DecodeList(input).value) == input
  {
    hide DecodeItem, DecodeStrings, EncodeAll;
    var item := DecodeItem(input).value;
    DecodedListIsCanonical(input);
    DecodedStringsAreCanonical(item.content);
    assert Header(|item.content|, 0xc0, 0xf7) + item.content + [] == input;
  }
}
