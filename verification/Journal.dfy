/** The append-only log: a magic header followed by checksummed frames, and its replay. */
module Journal {
  import opened Foundations
  import opened Numerals
  import opened ExactDecimals
  import opened Lifecycle
  import opened JournalCodec
  import opened Checksum
  import opened ChecksumTheory

  const MAGIC: seq<byte> := [80, 70, 74, 82, 78, 76, 49, 10]

  /** The smallest record bound that `initialize` accepts. */
  const MINIMUM_BOUND: nat := 128

  function Header(payload: seq<byte>): (h: seq<byte>)
    ensures |h| == 8
  {
    LittleEndian(|payload|, 4) + LittleEndian(Crc32(payload), 4)
  }

  function Frame(o: TrackedOrder): seq<byte> { Header(Payload(o)) + Payload(o) }

  function Frames(os: seq<TrackedOrder>): seq<byte> {
    if os == [] then [] else Frame(os[0]) + Frames(os[1..])
  }

  /** The record is small enough to be framed under the configured bound. */
  predicate Fits(o: TrackedOrder, maximum: nat) { ShortTexts(o) && |Payload(o)| <= maximum }

  ghost predicate AllFit(os: seq<TrackedOrder>, maximum: nat) { forall o | o in os :: Fits(o, maximum) }

  /** Replaying records onto a map: the last one per hash stays. */
  function LastWins(base: Orders, os: seq<TrackedOrder>): Orders
    decreases |os|
  {
    if os == [] then base else LastWins(base[os[0].hash := os[0]], os[1..])
  }

  datatype Replay = Replay(orders: Orders, records: nat, validBytes: nat, truncated: bool)

  function ReplayFrom(input: seq<byte>, maximum: nat, latest: Orders, records: nat, valid: nat): (r: Result<Replay>)
    ensures r.Ok? ==> valid <= r.value.validBytes <= valid + |input|
    decreases |input|
  {
    hide PlainDecimal, Crc32, Decoded;
    if input == [] then Ok(Replay(latest, records, valid, false))
    else if |input| < 8 then Ok(Replay(latest, records, valid, true))
    else
      var size := FromLittleEndian(input[..4]);
      if size > maximum then Err(JournalCorrupt)
      else if |input| - 8 < size then Ok(Replay(latest, records, valid, true))
      else
        var payload := input[8..8 + size];
        if Crc32(payload) != FromLittleEndian(input[4..8]) then Err(JournalCorrupt)
        else
          match Decoded(payload)
          case Err(_) => Err(JournalCorrupt)
          case Ok(o) => ReplayFrom(input[8 + size..], maximum, latest[o.hash := o], records + 1, valid + 8 + size)
  }

  function Replayed(log: seq<byte>, maximum: nat): (r: Result<Replay>)
    ensures r.Ok? ==> r.value.validBytes <= |log|
  {
    if |log| < 8 || log[..8] != MAGIC then Err(JournalCorrupt)
    else ReplayFrom(log[8..], maximum, map[], 0, 8)
  }

  /** What `append` leaves in the file: the frames before the first record that does not fit. */
  function AppendedBatch(log: seq<byte>, batch: seq<TrackedOrder>, maximum: nat): (r: (seq<byte>, Result<bool>))
    ensures r.1.Ok? ==> r.1.value
    decreases |batch|
  {
    hide PlainDecimal, Payload, Frame;
    if batch == [] then (log, Ok(true))
    else
      match Encoded(batch[0], maximum)
      case Err(code) => (log, Err(code))
      case Ok(_) => AppendedBatch(log + Frame(batch[0]), batch[1..], maximum)
  }

  function Appended(log: seq<byte>, batch: seq<TrackedOrder>, maximum: nat): (r: (seq<byte>, Result<bool>))
    ensures r.1.Ok? ==> r.1.value
  {
    if maximum < MINIMUM_BOUND then (log, Err(InvalidArgument)) else AppendedBatch(log, batch, maximum)
  }

  // ---- The imperative journal ----

  class OrderJournal {
    var log: seq<byte>
    const maximum: nat

    constructor (content: seq<byte>, maximum: nat)
      ensures log == content && this.maximum == maximum
    {
      log := content;
      this.maximum := maximum;
    }

    /** Encodes and writes record by record; a record that does not fit stops the batch but leaves
        the frames already written. */
    method Append(batch: seq<TrackedOrder>) returns (r: Result<bool>)
      modifies this`log
      ensures (log, r) == Appended(old(log), batch, maximum)
    {
      hide PlainDecimal, Crc32, Payload, Encoded, LittleEndian;
      if maximum < MINIMUM_BOUND {
        return Err(InvalidArgument);
      }
      for i := 0 to |batch|
        invariant AppendedBatch(old(log), batch, maximum) == AppendedBatch(log, batch[i..], maximum)
      {
        var encoded := Encode(batch[i], maximum);
        assert batch[i..][1..] == batch[i + 1..];
        if encoded.Err? {
          return Err(encoded.code);
        }
        EncodedIsPayload(batch[i], maximum);
        var header := AppendLittleEndian([], |encoded.value|, 4);
        var crc := ComputeCrc32(encoded.value);
        header := AppendLittleEndian(header, crc, 4);
        assert header == Header(encoded.value);
        assert (log + header) + encoded.value == log + Frame(batch[i]);
        log := log + header;
        log := log + encoded.value;
      }
      r := Ok(true);
    }

    /** Reads frames until the end of the file or a torn tail. */
    method ReplayLog() returns (r: Result<Replay>)
      ensures r == Replayed(log, maximum)
    {
      hide PlainDecimal, Crc32, Decoded, FromLittleEndian;
      if |log| < 8 || log[..8] != MAGIC {
        return Err(JournalCorrupt);
      }
      var position, latest: Orders, records: nat, valid: nat := 8, map[], 0, 8;
      var truncated := false;
      while position < |log|
        invariant 8 <= position <= |log|
        invariant Replayed(log, maximum) == ReplayFrom(log[position..], maximum, latest, records, valid)
        decreases |log| - position
      {
        ghost var input := log[position..];
        if |log| - position < 8 {
          truncated := true;
          break;
        }
        var n, expected := ReadHeader(log[position..position + 8]);
        HeaderOf(log, position);
        if n > maximum {
          return Err(JournalCorrupt);
        }
        if |log| - position - 8 < n {
          truncated := true;
          break;
        }
        var payload := log[position + 8..position + 8 + n];
        RecordOf(log, position, n);
        var crc := ComputeCrc32(payload);
        if crc != expected {
          return Err(JournalCorrupt);
        }
        var decoded := Decode(payload);
        if decoded.Err? {
          return Err(JournalCorrupt);
        }
        latest := latest[decoded.value.hash := decoded.value];
        records := records + 1;
        valid := valid + 8 + n;
        position := position + 8 + n;
      }
      r := Ok(Replay(latest, records, valid, truncated));
    }
  }

  /** The header and the record of the frame at a position. */
  lemma HeaderOf(log: seq<byte>, position: nat)
    requires position + 8 <= |log|
    ensures log[position..position + 8][..4] == log[position..][..4] && log[position..position + 8][4..8] == log[position..][4..8]
  {
    assert log[position..position + 8][4..8] == log[position + 4..position + 8] == log[position..][4..8];
  }

  lemma RecordOf(log: seq<byte>, position: nat, n: nat)
    requires position + 8 + n <= |log|
    ensures log[position + 8..position + 8 + n] == log[position..][8..8 + n]
    ensures log[position + 8 + n..] == log[position..][8 + n..]
  {
  }

  /** The size and checksum fields of a frame header. */
  method ReadHeader(header: seq<byte>) returns (size: nat, crc: nat)
    requires |header| == 8
    ensures size == FromLittleEndian(header[..4]) && crc == FromLittleEndian(header[4..8])
  {
    hide FromLittleEndian;
    assert header[0..][..4] == header[..4] && header[4..][..4] == header[4..8];
    var first := ReadLittleEndian(header, 0, 4);
    var second := ReadLittleEndian(header, 4, 4);
    size, crc := first.value.0, second.value.0;
  }

  lemma EncodedIsPayload(o: TrackedOrder, maximum: nat)
    requires Encoded(o, maximum).Ok?
    ensures Encoded(o, maximum).value == Payload(o)
  {
    hide PlainDecimal;
  }

  // ---- Frames ----

  lemma {:induction false} FramesConcat(a: seq<TrackedOrder>, b: seq<TrackedOrder>)
    ensures Frames(a + b) == Frames(a) + Frames(b)
  {
    hide PlainDecimal, Frame;
    if a == [] {
      assert a + b == b;
    } else {
      assert (a + b)[0] == a[0] && (a + b)[1..] == a[1..] + b;
      FramesConcat(a[1..], b);
    }
  }

  lemma {:induction false} LastWinsConcat(base: Orders, a: seq<TrackedOrder>, b: seq<TrackedOrder>)
    ensures LastWins(base, a + b) == LastWins(LastWins(base, a), b)
    decreases |a|
  {
    hide PlainDecimal;
    if a == [] {
      assert a + b == b;
    } else {
      assert (a + b)[0] == a[0] && (a + b)[1..] == a[1..] + b;
      LastWinsConcat(base[a[0].hash := a[0]], a[1..], b);
    }
  }

  /** One complete frame is consumed and recorded, whatever follows it. */
  lemma ReplayOneFrame(o: TrackedOrder, rest: seq<byte>, maximum: nat, latest: Orders, records: nat, valid: nat)
    requires Fits(o, maximum) && maximum < TWO_32
    ensures ReplayFrom(Frame(o) + rest, maximum, latest, records, valid)
         == ReplayFrom(rest, maximum, latest[o.hash := o], records + 1, valid + |Frame(o)|)
  {
    hide PlainDecimal, Crc32, Payload, Decoded, ShortTexts, LittleEndian, FromLittleEndian;
    var payload, input := Payload(o), Frame(o) + rest;
    HeaderReads(payload, payload + rest);
    assert input == Header(payload) + (payload + rest);
    assert input[8..8 + |payload|] == payload && input[8 + |payload|..] == rest;
    DecodeInvertsEncode(o);
  }

  lemma HeaderReads(payload: seq<byte>, rest: seq<byte>)
    requires |payload| < TWO_32
    ensures var input := Header(payload) + rest;
            FromLittleEndian(input[..4]) == |payload| && FromLittleEndian(input[4..8]) == Crc32(payload)
  {
    hide PlainDecimal, Crc32;
    var input := Header(payload) + rest;
    assert Pow256(4) == TWO_32;
    assert input[..4] == LittleEndian(|payload|, 4) && input[4..8] == LittleEndian(Crc32(payload), 4);
    LittleEndianRoundTrip(|payload|, 4);
    LittleEndianRoundTrip(Crc32(payload), 4);
  }

  /** A strict prefix of some record's frame: what a crash leaves behind. */
  ghost predicate Torn(tail: seq<byte>, maximum: nat) {
    tail == [] || exists o: TrackedOrder :: TornFrom(tail, o, maximum)
  }

  ghost predicate TornFrom(tail: seq<byte>, o: TrackedOrder, maximum: nat) {
    Fits(o, maximum) && |tail| < |Frame(o)| && tail == Frame(o)[..|tail|]
  }

  lemma ReplayTornTail(tail: seq<byte>, maximum: nat, latest: Orders, records: nat, valid: nat)
    requires Torn(tail, maximum) && maximum < TWO_32
    ensures ReplayFrom(tail, maximum, latest, records, valid) == Ok(Replay(latest, records, valid, tail != []))
  {
    hide PlainDecimal, Crc32, Payload, Decoded, ShortTexts;
    if tail != [] && |tail| >= 8 {
      var o :| TornFrom(tail, o, maximum);
      HeaderReads(Payload(o), Payload(o));
      assert Frame(o)[..4] == tail[..4];
    }
  }

  /** A log of complete frames and a torn tail replays to the last-frame-wins map, counts exactly the
      complete frames, ends its valid part exactly after them and reports the tail iff there is one. */
  lemma {:induction false} ReplayFrames(os: seq<TrackedOrder>, tail: seq<byte>, maximum: nat, latest: Orders,
                                        records: nat, valid: nat)
    requires AllFit(os, maximum) && Torn(tail, maximum) && maximum < TWO_32
    ensures ReplayFrom(Frames(os) + tail, maximum, latest, records, valid)
         == Ok(Replay(LastWins(latest, os), records + |os|, valid + |Frames(os)|, tail != []))
    decreases |os|
  {
    hide PlainDecimal, Frame, Fits, ReplayFrom;
    if os == [] {
      assert Frames(os) + tail == tail;
      ReplayTornTail(tail, maximum, latest, records, valid);
    } else {
      assert Frames(os) + tail == Frame(os[0]) + (Frames(os[1..]) + tail);
      ReplayOneFrame(os[0], Frames(os[1..]) + tail, maximum, latest, records, valid);
      ReplayFrames(os[1..], tail, maximum, latest[os[0].hash := os[0]], records + 1, valid + |Frame(os[0])|);
    }
  }

  function LogOf(os: seq<TrackedOrder>): seq<byte> { MAGIC + Frames(os) }

  lemma ReplayLogWithTail(os: seq<TrackedOrder>, tail: seq<byte>, maximum: nat)
    requires AllFit(os, maximum) && Torn(tail, maximum) && maximum < TWO_32
    ensures Replayed(LogOf(os) + tail, maximum)
         == Ok(Replay(LastWins(map[], os), |os|, |LogOf(os)|, tail != []))
  {
    hide PlainDecimal, Frames, Torn, ReplayFrom, LastWins;
    var log := LogOf(os) + tail;
    assert log[..8] == MAGIC && log[8..] == Frames(os) + tail;
    ReplayFrames(os, tail, maximum, map[], 0, 8);
  }

  // ---- Crash at any byte of an append ----

  /** Any byte prefix of a batch of frames is some complete frames and a torn tail. */
  lemma {:induction false} CutBatch(batch: seq<TrackedOrder>, n: nat, maximum: nat) returns (k: nat, tail: seq<byte>)
    requires AllFit(batch, maximum) && n <= |Frames(batch)|
    ensures k <= |batch| && Torn(tail, maximum)
    ensures Frames(batch)[..n] == Frames(batch[..k]) + tail
    decreases |batch|
  {
    hide PlainDecimal, Frame, Fits;
    if batch == [] {
      k, tail := 0, [];
    } else if n < |Frame(batch[0])| {
      k, tail := 0, Frame(batch[0])[..n];
      assert TornFrom(tail, batch[0], maximum);
      assert Frames(batch)[..n] == tail;
    } else {
      var m := n - |Frame(batch[0])|;
      k, tail := CutBatch(batch[1..], m, maximum);
      assert Frames(batch)[..n] == Frame(batch[0]) + Frames(batch[1..])[..m];
      assert batch[..k + 1][1..] == batch[1..][..k];
      k := k + 1;
    }
  }

  /** The last record with a given hash. */
  function FindLast(os: seq<TrackedOrder>, h: Text): (r: Option<TrackedOrder>)
    ensures r.Some? ==> r.value.hash == h && r.value in os
    ensures r.None? ==> forall o | o in os :: o.hash != h
  {
    hide PlainDecimal;
    if os == [] then None
    else if os[|os| - 1].hash == h then Some(os[|os| - 1])
    else FindLast(os[..|os| - 1], h)
  }

  lemma {:induction false} LastWinsPoint(base: Orders, os: seq<TrackedOrder>, h: Text)
    ensures match FindLast(os, h)
            case Some(o) => h in LastWins(base, os) && LastWins(base, os)[h] == o
            case None => (h in LastWins(base, os) <==> h in base) && (h in base ==> LastWins(base, os)[h] == base[h])
    decreases |os|
  {
    hide PlainDecimal;
    if os != [] {
      var front, last := os[..|os| - 1], os[|os| - 1];
      LastWinsPoint(base, front, h);
      assert os == front + [last];
      LastWinsConcat(base, front, [last]);
      assert [last][1..] == [];
    }
  }

  /** The value an order had before the batch, or the one the batch writes. */
  ghost predicate OldOrNew(before: Orders, batch: seq<TrackedOrder>, h: Text, o: TrackedOrder) {
    (h in before && o == before[h]) || (exists i :: 0 <= i < |batch| && batch[i].hash == h && o == batch[i])
  }

  /** After a crash inside a batch append, replay succeeds and every order has its old or its new value. */
  lemma CrashRecoversOldOrNew(os: seq<TrackedOrder>, batch: seq<TrackedOrder>, n: nat, maximum: nat)
    requires AllFit(os, maximum) && AllFit(batch, maximum) && maximum < TWO_32
    requires n <= |Frames(batch)|
    ensures var r := Replayed(LogOf(os) + Frames(batch)[..n], maximum);
            && r.Ok?
            && (forall h | h in r.value.orders :: OldOrNew(LastWins(map[], os), batch, h, r.value.orders[h]))
            && (forall h | h in LastWins(map[], os) :: h in r.value.orders)
  {
    hide PlainDecimal, Frames, Fits, LastWins, Replayed, Torn;
    var old' := LastWins(map[], os);
    var k, tail := CutBatch(batch, n, maximum);
    FramesConcat(os, batch[..k]);
    assert LogOf(os) + Frames(batch)[..n] == LogOf(os + batch[..k]) + tail;
    ReplayLogWithTail(os + batch[..k], tail, maximum);
    LastWinsConcat(map[], os, batch[..k]);
    var r := LastWins(old', batch[..k]);
    forall h
      ensures h in r ==> OldOrNew(old', batch, h, r[h])
      ensures h in old' ==> h in r
    {
      LastWinsPoint(old', batch[..k], h);
      if FindLast(batch[..k], h).Some? {
        var i :| 0 <= i < k && batch[..k][i] == FindLast(batch[..k], h).value;
        assert batch[i].hash == h && r[h] == batch[i];
      }
    }
  }

  // ---- Corruption ----

  /** A frame whose checksum field disagrees with its payload stops replay. */
  lemma MismatchIsCorrupt(payload: seq<byte>, crc: seq<byte>, rest: seq<byte>, maximum: nat, latest: Orders,
                          records: nat, valid: nat)
    requires |payload| <= maximum < TWO_32 && |crc| == 4
    requires FromLittleEndian(crc) != Crc32(payload)
    ensures ReplayFrom(LittleEndian(|payload|, 4) + crc + payload + rest, maximum, latest, records, valid)
         == Err(JournalCorrupt)
  {
    hide PlainDecimal, Crc32, Decoded;
    var input := LittleEndian(|payload|, 4) + crc + payload + rest;
    assert Pow256(4) == TWO_32;
    LittleEndianRoundTrip(|payload|, 4);
    assert input[..4] == LittleEndian(|payload|, 4) && input[4..8] == crc;
    assert input[8..8 + |payload|] == payload;
  }

  /** A frame with its checksum field replaced by another, or with its payload changed within four consecutive bytes. */
  ghost predicate Damaged(o: TrackedOrder, crc: seq<byte>, payload: seq<byte>) {
    var good := LittleEndian(Crc32(Payload(o)), 4);
    && |crc| == 4
    && ((payload == Payload(o) && crc != good) || (crc == good && BurstChanged(Payload(o), payload)))
  }

  /** The two differ, but agree outside at most four consecutive bytes. */
  ghost predicate BurstChanged(a: seq<byte>, b: seq<byte>) { |a| == |b| && a != b && exists k: nat :: AgreeOutside(a, b, k) }

  ghost predicate AgreeOutside(a: seq<byte>, b: seq<byte>, k: nat) {
    |a| == |b| && forall i | 0 <= i < |a| && !(k <= i < k + 4) :: a[i] == b[i]
  }

  lemma BurstBreaksChecksum(a: seq<byte>, b: seq<byte>)
    requires BurstChanged(a, b)
    ensures Crc32(a) != Crc32(b)
  {
    hide Crc32;
    var k: nat :| AgreeOutside(a, b, k);
    var from, to := Min(k, |a|), Min(k + 4, |a|);
    var head, tail := a[..from], a[to..];
    assert a == head + a[from..to] + tail && b == head + b[from..to] + tail;
    BurstDetected(head, a[from..to], b[from..to], tail);
  }

  /** Damage to up to four consecutive payload bytes of a completed frame, or to its checksum field, makes replay fail,
      whatever precedes it in the log and whatever follows. */
  lemma DamageIsDetected(os: seq<TrackedOrder>, o: TrackedOrder, crc: seq<byte>, payload: seq<byte>, rest: seq<byte>,
                         maximum: nat)
    requires AllFit(os, maximum) && Fits(o, maximum) && maximum < TWO_32
    requires Damaged(o, crc, payload)
    ensures Replayed(LogOf(os) + (LittleEndian(|payload|, 4) + crc + payload + rest), maximum) == Err(JournalCorrupt)
  {
    hide PlainDecimal, Frames, ReplayFrom, LastWins, LittleEndian, Fits, Damaged, Crc32, FromLittleEndian;
    var frame := LittleEndian(|payload|, 4) + crc + payload + rest;
    var log := LogOf(os) + frame;
    assert log[..8] == MAGIC && log[8..] == Frames(os) + frame;
    ReplayPrefix(os, frame, maximum, map[], 0, 8);
    DamageBreaksChecksum(o, crc, payload, maximum);
    MismatchIsCorrupt(payload, crc, rest, maximum, LastWins(map[], os), |os|, 8 + |Frames(os)|);
  }

  lemma DamageBreaksChecksum(o: TrackedOrder, crc: seq<byte>, payload: seq<byte>, maximum: nat)
    requires Damaged(o, crc, payload) && Fits(o, maximum)
    ensures FromLittleEndian(crc) != Crc32(payload) && |payload| <= maximum && |crc| == 4
  {
    hide PlainDecimal, Crc32, Payload, ShortTexts, FromLittleEndian, LittleEndian;
    var good := LittleEndian(Crc32(Payload(o)), 4);
    assert Pow256(4) == TWO_32;
    LittleEndianRoundTrip(Crc32(Payload(o)), 4);
    if payload == Payload(o) {
      if FromLittleEndian(crc) == FromLittleEndian(good) {
        FromLittleEndianInjective(crc, good);
      }
    } else {
      BurstBreaksChecksum(Payload(o), payload);
    }
  }

  /** Complete frames are consumed before whatever follows is looked at. */
  lemma {:induction false} ReplayPrefix(os: seq<TrackedOrder>, rest: seq<byte>, maximum: nat, latest: Orders,
                                        records: nat, valid: nat)
    requires AllFit(os, maximum) && maximum < TWO_32
    ensures ReplayFrom(Frames(os) + rest, maximum, latest, records, valid)
         == ReplayFrom(rest, maximum, LastWins(latest, os), records + |os|, valid + |Frames(os)|)
    decreases |os|
  {
    hide PlainDecimal, Frame, Fits, ReplayFrom;
    if os == [] {
      assert Frames(os) + rest == rest;
    } else {
      assert Frames(os) + rest == Frame(os[0]) + (Frames(os[1..]) + rest);
      ReplayOneFrame(os[0], Frames(os[1..]) + rest, maximum, latest, records, valid);
      ReplayPrefix(os[1..], rest, maximum, latest[os[0].hash := os[0]], records + 1, valid + |Frame(os[0])|);
    }
  }

  // ---- Appending ----

  function FirstMisfit(batch: seq<TrackedOrder>, maximum: nat): (k: nat)
    ensures k <= |batch|
  {
    if batch == [] || !Fits(batch[0], maximum) then 0 else 1 + FirstMisfit(batch[1..], maximum)
  }

  lemma {:induction false} FirstMisfitSplits(batch: seq<TrackedOrder>, maximum: nat)
    ensures var k := FirstMisfit(batch, maximum);
            AllFit(batch[..k], maximum) && (k < |batch| ==> !Fits(batch[k], maximum))
  {
    hide PlainDecimal, Fits;
    if batch != [] && Fits(batch[0], maximum) {
      var k := FirstMisfit(batch[1..], maximum);
      FirstMisfitSplits(batch[1..], maximum);
      assert batch[..k + 1] == [batch[0]] + batch[1..][..k];
    }
  }

  /** An append writes exactly the frames before the first record that does not fit, and succeeds iff
      there is none. */
  lemma {:induction false} AppendWrites(log: seq<byte>, batch: seq<TrackedOrder>, maximum: nat)
    ensures var k := FirstMisfit(batch, maximum);
            && AppendedBatch(log, batch, maximum).0 == log + Frames(batch[..k])
            && (AppendedBatch(log, batch, maximum).1.Ok? <==> k == |batch|)
    decreases |batch|
  {
    hide PlainDecimal, Frame, ShortTexts, Payload;
    if batch != [] && Fits(batch[0], maximum) {
      var k := FirstMisfit(batch[1..], maximum);
      AppendWrites(log + Frame(batch[0]), batch[1..], maximum);
      assert batch[..k + 1][1..] == batch[1..][..k];
      assert log + Frame(batch[0]) + Frames(batch[1..][..k]) == log + (Frame(batch[0]) + Frames(batch[1..][..k]));
    }
  }
}
