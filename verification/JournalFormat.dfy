/** The journal's file format, for every file there may be: which bytes are a record, which file replays, to what, and
    which is refused. */
module JournalFormat {
  import opened Foundations
  import opened Numerals
  import opened ExactDecimals
  import opened Lifecycle
  import opened JournalCodec
  import opened Journal
  import opened Checksum

  // ---- Records ----

  /** The bytes of a record: version, state, flag, presence of an id, generation, timestamp, and five texts with their
      lengths. A flag is any nonzero byte, and the id text of an order without one is not looked at. */
  ghost predicate Spells(p: seq<byte>, o: TrackedOrder, flag: byte, has: byte, id: Text) {
    && p == [1, StateByte(o.state), flag, has]
            + (LittleEndian(o.generation, 8)
               + (LittleEndian(ToUnsigned(o.timestamp), 8) + TextFields([o.hash, id, o.amount, o.filled, o.reason])))
    && (flag != 0 <==> o.flagged) && (has != 0 <==> o.id.Some?) && (o.id.Some? ==> id == o.id.value)
    && |o.hash| < TWO_32 && |id| < TWO_32 && |o.amount| < TWO_32 && |o.filled| < TWO_32 && |o.reason| < TWO_32
  }

  lemma ReadBack(s: seq<byte>)
    ensures LittleEndian(FromLittleEndian(s), |s|) == s
  {
    hide LittleEndian, FromLittleEndian;
    FromLittleEndianBound(s);
    LittleEndianRoundTrip(FromLittleEndian(s), |s|);
    FromLittleEndianInjective(LittleEndian(FromLittleEndian(s), |s|), s);
  }

  lemma NumberWasThere(input: seq<byte>, width: nat)
    requires ReadNumber(input, width).Ok?
    ensures var (n, rest) := ReadNumber(input, width).value; input == LittleEndian(n, width) + rest && n < Pow256(width)
  {
    hide LittleEndian, FromLittleEndian;
    ReadBack(input[..width]);
    assert input == input[..width] + input[width..];
  }

  lemma TextWasThere(input: seq<byte>)
    requires ReadText(input).Ok?
    ensures var (t, rest) := ReadText(input).value; input == TextField(t) + rest && |t| < TWO_32
  {
    hide LittleEndian, ReadNumber;
    NumberWasThere(input, 4);
    assert Pow256(4) == TWO_32;
    var (size, rest) := ReadNumber(input, 4).value;
    assert rest == rest[..size] + rest[size..];
  }

  lemma {:induction false} TextsWereThere(input: seq<byte>, count: nat)
    requires ReadTexts(input, count).Ok?
    ensures var (ts, rest) := ReadTexts(input, count).value;
            input == TextFields(ts) + rest && forall t | t in ts :: |t| < TWO_32
    decreases count
  {
    hide ReadText, TextField;
    if count > 0 {
      TextWasThere(input);
      var (t, rest) := ReadText(input).value;
      TextsWereThere(rest, count - 1);
      var (ts, end) := ReadTexts(rest, count - 1).value;
      assert ([t] + ts)[1..] == ts;
      assert TextField(t) + (TextFields(ts) + end) == TextField(t) + TextFields(ts) + end;
    } else {
      assert TextFields([]) + input == input;
    }
  }

  lemma SignedBack(n: uint64)
    ensures ToUnsigned(ToSigned(n)) == n
  {
  }

  lemma StateBack(b: byte)
    requires b < |STATES|
    ensures StateByte(STATES[b]) == b
  {
  }

  /** Bytes that are decoded spell the order they are decoded to. */
  lemma DecodedSpells(p: seq<byte>)
    requires Decoded(p).Ok?
    ensures exists id: Text :: Spells(p, Decoded(p).value, p[2], p[3], id)
  {
    hide PlainDecimal, LittleEndian, ReadNumber, ReadTexts, TextFields, ToSigned, StateByte;
    var o := Decoded(p).value;
    assert Pow256(8) == TWO_64;
    NumberWasThere(p[4..], 8);
    var (generation, r1) := ReadNumber(p[4..], 8).value;
    NumberWasThere(r1, 8);
    var (stamp, r2) := ReadNumber(r1, 8).value;
    TextsWereThere(r2, 5);
    var (texts, end) := ReadTexts(r2, 5).value;
    SignedBack(stamp);
    StateBack(p[1]);
    assert texts == [o.hash, texts[1], o.amount, o.filled, o.reason];
    assert TextFields(texts) + [] == TextFields(texts);
    assert p[..4] == [1, StateByte(o.state), p[2], p[3]] && p == p[..4] + p[4..];
    assert Spells(p, o, p[2], p[3], texts[1]);
  }

  /** Bytes that spell an order are decoded to it. */
  lemma SpelledDecodes(p: seq<byte>, o: TrackedOrder, flag: byte, has: byte, id: Text)
    requires Spells(p, o, flag, has, id)
    ensures Decoded(p) == Ok(o)
  {
    hide PlainDecimal, LittleEndian, TextFields, ReadNumber, ReadTexts;
    var texts := [o.hash, id, o.amount, o.filled, o.reason];
    var tail := TextFields(texts);
    var stamp := LittleEndian(ToUnsigned(o.timestamp), 8) + tail;
    assert p[4..] == LittleEndian(o.generation, 8) + stamp;
    assert Pow256(8) == TWO_64;
    ReadNumberInverts(o.generation, 8, stamp);
    ReadNumberInverts(ToUnsigned(o.timestamp), 8, tail);
    ReadTextsInverts(texts);
  }

  /** The decoder accepts exactly the bytes that spell an order, and gives that order. */
  lemma DecodesExactly(p: seq<byte>, o: TrackedOrder)
    ensures Decoded(p) == Ok(o) <==> exists flag: byte, has: byte, id: Text :: Spells(p, o, flag, has, id)
    ensures Decoded(p).Err? ==> Decoded(p).code == JournalCorrupt
  {
    hide Spells, PlainDecimal;
    if Decoded(p) == Ok(o) {
      DecodedSpells(p);
    }
    if flag: byte, has: byte, id: Text :| Spells(p, o, flag, has, id) {
      SpelledDecodes(p, o, flag, has, id);
    }
  }

  /** The length of a record. */
  lemma PayloadLength(o: TrackedOrder)
    ensures |Payload(o)| == 40 + |o.hash| + |IdText(o)| + |o.amount| + |o.filled| + |o.reason|
  {
    hide PlainDecimal;
    FieldsLength(o.hash, [IdText(o), o.amount, o.filled, o.reason]);
    FieldsLength(IdText(o), [o.amount, o.filled, o.reason]);
    FieldsLength(o.amount, [o.filled, o.reason]);
    FieldsLength(o.filled, [o.reason]);
    FieldsLength(o.reason, []);
    assert Texts(o) == [o.hash] + ([IdText(o)] + ([o.amount] + ([o.filled] + ([o.reason] + []))));
    assert [IdText(o), o.amount, o.filled, o.reason] == [IdText(o)] + ([o.amount] + ([o.filled] + ([o.reason] + [])));
    assert [o.amount, o.filled, o.reason] == [o.amount] + ([o.filled] + ([o.reason] + []));
    assert [o.filled, o.reason] == [o.filled] + ([o.reason] + []);
    assert [o.reason] == [o.reason] + [];
  }

  lemma FieldsLength(t: Text, ts: seq<Text>)
    ensures |TextFields([t] + ts)| == 4 + |t| + |TextFields(ts)|
    ensures ts == [] ==> |TextFields(ts)| == 0
  {
    assert ([t] + ts)[1..] == ts;
  }

  /** An order is encoded unless one of its texts has no 32-bit length or the whole exceeds the bound; then it spells the
      order. */
  lemma EncodesExactly(o: TrackedOrder, maximum: nat)
    ensures var longest := |o.hash| >= TWO_32 || |IdText(o)| >= TWO_32 || |o.amount| >= TWO_32 || |o.filled| >= TWO_32
                           || |o.reason| >= TWO_32;
            if longest then Encoded(o, maximum) == Err(NumericOverflow)
            else if 40 + |o.hash| + |IdText(o)| + |o.amount| + |o.filled| + |o.reason| > maximum
            then Encoded(o, maximum) == Err(BodyTooLarge)
            else Encoded(o, maximum).Ok?
                 && Spells(Encoded(o, maximum).value, o, if o.flagged then 1 else 0, if o.id.Some? then 1 else 0, IdText(o))
  {
    hide PlainDecimal, LittleEndian, TextFields;
    PayloadLength(o);
    var ts := Texts(o);
    assert ts[0] == o.hash && ts[1] == IdText(o) && ts[2] == o.amount && ts[3] == o.filled && ts[4] == o.reason;
  }

  // ---- Files ----

  /** A complete frame: size, checksum and a record. */
  ghost predicate IsFrame(f: seq<byte>, o: TrackedOrder, maximum: nat) {
    && |f| >= 8 && FromLittleEndian(f[..4]) == |f| - 8 <= maximum && FromLittleEndian(f[4..8]) == Crc32(f[8..])
    && Decoded(f[8..]) == Ok(o)
  }

  function Concat(fs: seq<seq<byte>>): seq<byte> { if fs == [] then [] else fs[0] + Concat(fs[1..]) }

  /** The input is complete frames of the given orders, and then `rest`. */
  ghost predicate Splits(input: seq<byte>, fs: seq<seq<byte>>, os: seq<TrackedOrder>, rest: seq<byte>, maximum: nat) {
    && |fs| == |os| && input == Concat(fs) + rest && forall i | 0 <= i < |fs| :: IsFrame(fs[i], os[i], maximum)
  }

  /** The beginning of a frame, whose size is within the bound if it can be read at all. */
  predicate Unfinished(rest: seq<byte>, maximum: nat) {
    |rest| > 0 && (|rest| < 8 || (FromLittleEndian(rest[..4]) <= maximum && |rest| - 8 < FromLittleEndian(rest[..4])))
  }

  /** A frame that is too long, or whose record is complete and has another checksum or spells no order. */
  predicate Spoilt(rest: seq<byte>, maximum: nat) {
    && |rest| >= 8
    && var size := FromLittleEndian(rest[..4]);
       size > maximum
       || (size <= |rest| - 8
           && (FromLittleEndian(rest[4..8]) != Crc32(rest[8..8 + size]) || Decoded(rest[8..8 + size]).Err?))
  }

  lemma FrameReplays(f: seq<byte>, o: TrackedOrder, more: seq<byte>, maximum: nat, latest: Orders, records: nat, valid: nat)
    requires IsFrame(f, o, maximum)
    ensures ReplayFrom(f + more, maximum, latest, records, valid)
         == ReplayFrom(more, maximum, latest[o.hash := o], records + 1, valid + |f|)
  {
    hide PlainDecimal, Crc32, Decoded, FromLittleEndian;
    var input, size := f + more, |f| - 8;
    assert input[..4] == f[..4] && input[4..8] == f[4..8] && input[8..8 + size] == f[8..] && input[8 + size..] == more;
  }

  lemma EndReplays(rest: seq<byte>, maximum: nat, latest: Orders, records: nat, valid: nat)
    ensures rest == [] ==> ReplayFrom(rest, maximum, latest, records, valid) == Ok(Replay(latest, records, valid, false))
    ensures Unfinished(rest, maximum) ==>
              ReplayFrom(rest, maximum, latest, records, valid) == Ok(Replay(latest, records, valid, true))
    ensures Spoilt(rest, maximum) ==> ReplayFrom(rest, maximum, latest, records, valid) == Err(JournalCorrupt)
  {
    hide PlainDecimal, Crc32, Decoded, FromLittleEndian;
  }

  lemma {:induction false} SplitReplays(fs: seq<seq<byte>>, os: seq<TrackedOrder>, rest: seq<byte>, maximum: nat, latest: Orders,
                                        records: nat, valid: nat)
    requires Splits(Concat(fs) + rest, fs, os, rest, maximum)
    ensures ReplayFrom(Concat(fs) + rest, maximum, latest, records, valid)
         == ReplayFrom(rest, maximum, LastWins(latest, os), records + |os|, valid + |Concat(fs)|)
    decreases |fs|
  {
    hide PlainDecimal, IsFrame, ReplayFrom;
    if fs == [] {
      assert Concat(fs) + rest == rest;
    } else {
      assert Concat(fs) + rest == fs[0] + (Concat(fs[1..]) + rest);
      assert IsFrame(fs[0], os[0], maximum);
      FrameReplays(fs[0], os[0], Concat(fs[1..]) + rest, maximum, latest, records, valid);
      assert forall i | 0 <= i < |fs[1..]| :: fs[1..][i] == fs[i + 1] && os[1..][i] == os[i + 1];
      SplitReplays(fs[1..], os[1..], rest, maximum, latest[os[0].hash := os[0]], records + 1, valid + |fs[0]|);
    }
  }

  /** Every input is complete frames followed by nothing, by the beginning of a frame, or by a spoilt one. */
  lemma {:induction false} EverythingSplits(input: seq<byte>, maximum: nat)
    returns (fs: seq<seq<byte>>, os: seq<TrackedOrder>, rest: seq<byte>)
    ensures Splits(input, fs, os, rest, maximum) && (rest == [] || Unfinished(rest, maximum) || Spoilt(rest, maximum))
    decreases |input|
  {
    hide PlainDecimal, Crc32, Decoded, FromLittleEndian;
    if input == [] || Unfinished(input, maximum) || Spoilt(input, maximum) {
      fs, os, rest := [], [], input;
      assert Concat([]) + input == input;
    } else {
      var size := FromLittleEndian(input[..4]);
      var f, more := input[..8 + size], input[8 + size..];
      var o := Decoded(input[8..8 + size]).value;
      assert f[..4] == input[..4] && f[4..8] == input[4..8] && f[8..] == input[8..8 + size];
      fs, os, rest := EverythingSplits(more, maximum);
      assert input == f + more && ([f] + fs)[1..] == fs;
      assert f + (Concat(fs) + rest) == (f + Concat(fs)) + rest;
      fs, os := [f] + fs, [o] + os;
    }
  }

  const HEADER: Text := Ascii("PFJRNL1\n")

  lemma HeaderIsMagic()
    ensures HEADER == MAGIC
  {
    assert HEADER[0] == 80 && HEADER[1] == 70 && HEADER[2] == 74 && HEADER[3] == 82;
    assert HEADER[4] == 78 && HEADER[5] == 76 && HEADER[6] == 49 && HEADER[7] == 10;
  }

  /** Replay decides every file. Without the header it is corrupt. After it come complete frames and then, as
      `EverythingSplits` shows, nothing, the beginning of a frame, or a spoilt one: the last makes it corrupt; otherwise
      replay gives the last record of each hash, the number of records, the length up to the last complete frame, and
      whether anything follows. */
  lemma ReplayDecides(log: seq<byte>, fs: seq<seq<byte>>, os: seq<TrackedOrder>, rest: seq<byte>, maximum: nat)
    ensures |log| < 8 || log[..8] != HEADER ==> Replayed(log, maximum) == Err(JournalCorrupt)
    ensures |log| >= 8 && log[..8] == HEADER && Splits(log[8..], fs, os, rest, maximum) ==>
              && (Spoilt(rest, maximum) ==> Replayed(log, maximum) == Err(JournalCorrupt))
              && (rest == [] || Unfinished(rest, maximum) ==>
                    Replayed(log, maximum) == Ok(Replay(LastWins(map[], os), |os|, |log| - |rest|, rest != [])))
  {
    hide PlainDecimal, ReplayFrom, IsFrame, Unfinished, Spoilt;
    HeaderIsMagic();
    if |log| >= 8 && log[..8] == HEADER && Splits(log[8..], fs, os, rest, maximum) {
      SplitReplays(fs, os, rest, maximum, map[], 0, 8);
      EndReplays(rest, maximum, LastWins(map[], os), |os|, 8 + |Concat(fs)|);
      NotBoth(rest, maximum);
    }
  }

  lemma NotBoth(rest: seq<byte>, maximum: nat)
    ensures Spoilt(rest, maximum) ==> rest != [] && !Unfinished(rest, maximum)
    ensures Unfinished(rest, maximum) ==> rest != []
  {
    hide PlainDecimal, Crc32, Decoded, FromLittleEndian;
  }
}
