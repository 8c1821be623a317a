/** The binary record of one tracked order, and its decoder. */
module JournalCodec {
  import opened Foundations
  import opened Numerals
  import opened ExactDecimals
  import opened Lifecycle

  const RECORD_VERSION: byte := 1

  const STATES: seq<OrderState> :=
    [SubmissionPending, Accepted, Open, PartiallyFilled, Filled, BookRemoved, Cancelled, Expired, Rejected,
     TransactionPending, TransactionFailed, Ambiguous, Unknown]

  /** The enumerator's position in its declaration. */
  function StateByte(s: OrderState): (b: byte)
    ensures b < |STATES| && STATES[b] == s
  {
    match s
    case SubmissionPending => 0
    case Accepted => 1
    case Open => 2
    case PartiallyFilled => 3
    case Filled => 4
    case BookRemoved => 5
    case Cancelled => 6
    case Expired => 7
    case Rejected => 8
    case TransactionPending => 9
    case TransactionFailed => 10
    case Ambiguous => 11
    case Unknown => 12
  }

  /** Two's complement of a signed 64-bit timestamp. */
  function ToUnsigned(t: int64): uint64 { if t < 0 then t + TWO_64 else t }

  function ToSigned(n: uint64): int64 { if n >= 0x8000_0000_0000_0000 then n - TWO_64 else n }

  function IdText(o: TrackedOrder): Text { if o.id.Some? then o.id.value else [] }

  /** A length-prefixed string. */
  function TextField(t: Text): seq<byte> { LittleEndian(|t|, 4) + t }

  function TextFields(ts: seq<Text>): seq<byte> {
    if ts == [] then [] else TextField(ts[0]) + TextFields(ts[1..])
  }

  function Texts(o: TrackedOrder): seq<Text> { [o.hash, IdText(o), o.amount, o.filled, o.reason] }

  function Payload(o: TrackedOrder): seq<byte> {
    [RECORD_VERSION, StateByte(o.state), if o.flagged then 1 else 0, if o.id.Some? then 1 else 0]
    + (LittleEndian(o.generation, 8) + (LittleEndian(ToUnsigned(o.timestamp), 8) + TextFields(Texts(o))))
  }

  /** Every string has a 32-bit length. */
  predicate ShortTexts(o: TrackedOrder) { forall i | 0 <= i < 5 :: |Texts(o)[i]| < TWO_32 }

  function Encoded(o: TrackedOrder, maximum: nat): Result<seq<byte>> {
    if !ShortTexts(o) then Err(NumericOverflow)
    else if |Payload(o)| > maximum then Err(BodyTooLarge)
    else Ok(Payload(o))
  }

  // ---- Decoding ----

  function ReadNumber(input: seq<byte>, width: nat): (r: Result<(nat, seq<byte>)>)
    ensures r.Ok? ==> r.value.0 < Pow256(width) && |r.value.1| <= |input|
  {
    if |input| < width then Err(JournalCorrupt)
    else
      FromLittleEndianBound(input[..width]);
      Ok((FromLittleEndian(input[..width]), input[width..]))
  }

  function ReadText(input: seq<byte>): Result<(Text, seq<byte>)> {
    var (size, rest) :- ReadNumber(input, 4);
    if size > |rest| then Err(JournalCorrupt) else Ok((rest[..size], rest[size..]))
  }

  function ReadTexts(input: seq<byte>, count: nat): (r: Result<(seq<Text>, seq<byte>)>)
    ensures r.Ok? ==> |r.value.0| == count
    ensures r.Err? ==> r.code == JournalCorrupt
  {
    if count == 0 then Ok(([], input))
    else
      var (t, rest) :- ReadText(input);
      var (ts, end) :- ReadTexts(rest, count - 1);
      Ok(([t] + ts, end))
  }

  function Decoded(payload: seq<byte>): Result<TrackedOrder> {
    if |payload| < 4 || payload[0] != RECORD_VERSION || payload[1] >= |STATES| then Err(JournalCorrupt)
    else
      assert Pow256(8) == TWO_64;
      var (generation, r1) :- ReadNumber(payload[4..], 8);
      var (stamp, r2) :- ReadNumber(r1, 8);
      var (texts, end) :- ReadTexts(r2, 5);
      if end != [] || !PlainDecimal(texts[2]) || !PlainDecimal(texts[3]) then Err(JournalCorrupt)
      else
        Ok(TrackedOrder(texts[0], if payload[3] != 0 then Some(texts[1]) else None, texts[2], texts[3],
                        STATES[payload[1]], payload[2] != 0, generation, ToSigned(stamp), texts[4]))
  }

  // ---- The imperative codec ----

  /** `append_le`: pushes the low byte, then shifts. */
  method AppendLittleEndian(out: seq<byte>, value: nat, width: nat) returns (r: seq<byte>)
    ensures r == out + LittleEndian(value, width)
  {
    r := out;
    var bits, index := value, 0;
    while index < width
      invariant 0 <= index <= width
      invariant r + LittleEndian(bits, width - index) == out + LittleEndian(value, width)
    {
      ghost var rest := LittleEndian(bits / 256, width - index - 1);
      assert r + ([bits % 256] + rest) == (r + [bits % 256]) + rest;
      r := r + [bits % 256];
      bits := bits / 256;
      index := index + 1;
    }
    assert r + LittleEndian(bits, 0) == r;
  }

  /** `append_string`: refuses a string whose length does not fit 32 bits. */
  method AppendText(out: seq<byte>, t: Text) returns (r: Result<seq<byte>>)
    ensures r == if |t| < TWO_32 then Ok(out + TextField(t)) else Err(NumericOverflow)
  {
    if |t| > 0xffff_ffff {
      return Err(NumericOverflow);
    }
    var next := AppendLittleEndian(out, |t|, 4);
    assert next + t == out + TextField(t);
    r := Ok(next + t);
  }

  /** The chain of `append_string` calls in `encode`. */
  method AppendTexts(out: seq<byte>, texts: seq<Text>) returns (r: Result<seq<byte>>)
    ensures r == if forall i | 0 <= i < |texts| :: |texts[i]| < TWO_32 then Ok(out + TextFields(texts))
                 else Err(NumericOverflow)
  {
    hide TextField;
    var payload := out;
    assert payload + TextFields([]) == payload;
    for i := 0 to |texts|
      invariant payload == out + TextFields(texts[..i])
      invariant forall k | 0 <= k < i :: |texts[k]| < TWO_32
    {
      var next := AppendText(payload, texts[i]);
      if next.Err? {
        return Err(NumericOverflow);
      }
      TextFieldsAppend(texts[..i], texts[i]);
      assert texts[..i + 1] == texts[..i] + [texts[i]];
      payload := next.value;
    }
    assert texts[..|texts|] == texts;
    r := Ok(payload);
  }

  /** `encode`. */
  method Encode(o: TrackedOrder, maximum: nat) returns (r: Result<seq<byte>>)
    ensures r == Encoded(o, maximum)
  {
    hide PlainDecimal, StateByte, LittleEndian, TextFields;
    var payload := [RECORD_VERSION, StateByte(o.state), if o.flagged then 1 else 0, if o.id.Some? then 1 else 0];
    payload := AppendLittleEndian(payload, o.generation, 8);
    payload := AppendLittleEndian(payload, ToUnsigned(o.timestamp), 8);
    var texts := [o.hash, IdText(o), o.amount, o.filled, o.reason];
    assert texts == Texts(o);
    var all := AppendTexts(payload, texts);
    if all.Err? {
      return Err(NumericOverflow);
    }
    assert all.value == Payload(o);
    if |all.value| > maximum {
      return Err(BodyTooLarge);
    }
    r := Ok(all.value);
  }

  lemma {:induction false} TextFieldsAppend(ts: seq<Text>, t: Text)
    ensures TextFields(ts + [t]) == TextFields(ts) + TextField(t)
  {
    if ts == [] {
      assert [t][1..] == [];
      assert ts + [t] == [t];
    } else {
      assert (ts + [t])[0] == ts[0] && (ts + [t])[1..] == ts[1..] + [t];
      TextFieldsAppend(ts[1..], t);
    }
  }

  /** `read_le`: assembles the number byte by byte from a cursor. */
  method ReadLittleEndian(input: seq<byte>, offset: nat, width: nat) returns (r: Result<(nat, nat)>)
    ensures offset > |input| ==> r == Err(JournalCorrupt)
    ensures offset <= |input| ==>
              match ReadNumber(input[offset..], width)
              case Ok((n, rest)) => r == Ok((n, offset + width)) && offset + width <= |input| && rest == input[offset + width..]
              case Err(code) => r == Err(code)
  {
    if offset > |input| || |input| - offset < width {
      return Err(JournalCorrupt);
    }
    var value: nat, weight: nat, index := 0, 1, 0;
    assert input[offset..][..width] == input[offset..offset + width];
    while index < width
      invariant 0 <= index <= width
      invariant value == FromLittleEndian(input[offset..offset + index]) && weight == Pow256(index)
    {
      FromLittleEndianAppend(input[offset..offset + index], input[offset + index]);
      assert input[offset..offset + index + 1] == input[offset..offset + index] + [input[offset + index]];
      value := value + input[offset + index] * weight;
      weight := 256 * weight;
      index := index + 1;
    }
    r := Ok((value, offset + width));
  }

  /** `read_string`. */
  method ReadTextAt(input: seq<byte>, offset: nat) returns (r: Result<(Text, nat)>)
    ensures offset > |input| ==> r == Err(JournalCorrupt)
    ensures offset <= |input| ==>
              match ReadText(input[offset..])
              case Ok((t, rest)) => r.Ok? && r.value.0 == t && r.value.1 <= |input| && rest == input[r.value.1..]
              case Err(code) => r == Err(code)
  {
    var size := ReadLittleEndian(input, offset, 4);
    if size.Err? || size.value.1 > |input| || size.value.0 > |input| - size.value.1 {
      return Err(JournalCorrupt);
    }
    var (n, next) := size.value;
    assert input[next..][..n] == input[next..next + n] && input[next..][n..] == input[next + n..];
    r := Ok((input[next..next + n], next + n));
  }

  /** The chain of `read_string` calls in `decode`. */
  method ReadTextsAt(input: seq<byte>, start: nat, count: nat) returns (r: Result<(seq<Text>, nat)>)
    requires start <= |input|
    ensures match ReadTexts(input[start..], count)
            case Ok((ts, rest)) => r.Ok? && r.value.0 == ts && r.value.1 <= |input| && rest == input[r.value.1..]
            case Err(code) => r.Err?
  {
    hide ReadText, ReadNumber, ReadTexts, PlainDecimal;
    var offset: nat, texts: seq<Text> := start, [];
    PrependNothing(ReadTexts(input[start..], count));
    for i := 0 to count
      invariant |texts| == i && offset <= |input|
      invariant Prepended(texts, ReadTexts(input[offset..], count - i)) == ReadTexts(input[start..], count)
    {
      var text := ReadTextAt(input, offset);
      PrependOne(texts, input[offset..], count - i);
      if text.Err? {
        return Err(JournalCorrupt);
      }
      texts := texts + [text.value.0];
      offset := text.value.1;
    }
    PrependAll(texts, input[offset..]);
    r := Ok((texts, offset));
  }

  lemma PrependOne(texts: seq<Text>, input: seq<byte>, count: nat)
    requires count > 0
    ensures Prepended(texts, ReadTexts(input, count))
         == match ReadText(input)
            case Ok((t, rest)) => Prepended(texts + [t], ReadTexts(rest, count - 1))
            case Err(code) => Err(code)
  {
    hide ReadText;
    if ReadText(input).Ok? {
      var (t, rest) := ReadText(input).value;
      var tail := ReadTexts(rest, count - 1);
      if tail.Ok? {
        assert texts + ([t] + tail.value.0) == (texts + [t]) + tail.value.0;
      }
    }
  }

  lemma PrependAll(texts: seq<Text>, input: seq<byte>)
    ensures Prepended(texts, ReadTexts(input, 0)) == Ok((texts, input))
  {
    assert texts + [] == texts;
  }

  lemma PrependNothing(r: Result<(seq<Text>, seq<byte>)>)
    ensures Prepended([], r) == r
  {
    if r.Ok? {
      assert [] + r.value.0 == r.value.0;
    }
  }

  /** `decode`: one cursor over the payload. */
  method Decode(payload: seq<byte>) returns (r: Result<TrackedOrder>)
    ensures r == Decoded(payload)
  {
    hide PlainDecimal, ReadTexts;
    if |payload| < 4 || payload[0] != RECORD_VERSION || payload[1] >= |STATES| {
      return Err(JournalCorrupt);
    }
    assert Pow256(8) == TWO_64;
    var generation := ReadLittleEndian(payload, 4, 8);
    if generation.Err? {
      return Err(JournalCorrupt);
    }
    var stamp := ReadLittleEndian(payload, generation.value.1, 8);
    if stamp.Err? {
      return Err(JournalCorrupt);
    }
    var read := ReadTextsAt(payload, stamp.value.1, 5);
    if read.Err? || read.value.1 != |payload| {
      return Err(JournalCorrupt);
    }
    var texts := read.value.0;
    if !PlainDecimal(texts[2]) || !PlainDecimal(texts[3]) {
      return Err(JournalCorrupt);
    }
    r := Ok(TrackedOrder(texts[0], if payload[3] != 0 then Some(texts[1]) else None, texts[2], texts[3],
                         STATES[payload[1]], payload[2] != 0, generation.value.0, ToSigned(stamp.value.0), texts[4]));
  }

  ghost function Prepended(ts: seq<Text>, r: Result<(seq<Text>, seq<byte>)>): Result<(seq<Text>, seq<byte>)> {
    match r
    case Ok((more, rest)) => Ok((ts + more, rest))
    case Err(code) => Err(code)
  }

  // ---- Round trip ----

  lemma ReadNumberInverts(n: nat, width: nat, rest: seq<byte>)
    requires n < Pow256(width)
    ensures ReadNumber(LittleEndian(n, width) + rest, width) == Ok((n, rest))
  {
    var input := LittleEndian(n, width) + rest;
    assert input[..width] == LittleEndian(n, width) && input[width..] == rest;
    LittleEndianRoundTrip(n, width);
  }

  lemma ReadTextInverts(t: Text, rest: seq<byte>)
    requires |t| < TWO_32
    ensures ReadText(TextField(t) + rest) == Ok((t, rest))
  {
    assert Pow256(4) == TWO_32;
    assert TextField(t) + rest == LittleEndian(|t|, 4) + (t + rest);
    ReadNumberInverts(|t|, 4, t + rest);
    assert (t + rest)[..|t|] == t && (t + rest)[|t|..] == rest;
  }

  lemma {:induction false} ReadTextsInverts(ts: seq<Text>)
    requires forall i | 0 <= i < |ts| :: |ts[i]| < TWO_32
    ensures ReadTexts(TextFields(ts), |ts|) == Ok((ts, []))
  {
    if ts != [] {
      ReadTextInverts(ts[0], TextFields(ts[1..]));
      ReadTextsInverts(ts[1..]);
      assert ts == [ts[0]] + ts[1..];
    }
  }

  /** Decoding a record returns the order that was encoded, in every field. */
  lemma DecodeInvertsEncode(o: TrackedOrder)
    requires ShortTexts(o)
    ensures Decoded(Payload(o)) == Ok(o)
  {
    hide PlainDecimal, LittleEndian, TextFields, ReadNumber, ReadTexts;
    var payload, texts := Payload(o), Texts(o);
    var tail := TextFields(texts);
    var stamp := LittleEndian(ToUnsigned(o.timestamp), 8) + tail;
    assert payload[4..] == LittleEndian(o.generation, 8) + stamp;
    assert Pow256(8) == TWO_64;
    ReadNumberInverts(o.generation, 8, stamp);
    ReadNumberInverts(ToUnsigned(o.timestamp), 8, tail);
    ReadTextsInverts(texts);
  }

  /** The size of a record does not depend on state, flag, generation or timestamp. */
  lemma SizeIgnoresFixedFields(a: TrackedOrder, b: TrackedOrder)
    requires Texts(a) == Texts(b)
    ensures |Payload(a)| == |Payload(b)|
  {
  }
}
