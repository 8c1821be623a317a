/** What the checksum computes and what it detects: it is the CRC-32 of IEEE 802.3, and no damage confined to four
    consecutive bytes goes unnoticed. */
module ChecksumTheory {
  import opened Foundations
  import opened Checksum

  // ---- The generator polynomial ----

  function SwapBits(c: bv32): bv32 { ((c >> 1) & 0x5555_5555) | ((c & 0x5555_5555) << 1) }
  function SwapPairs(c: bv32): bv32 { ((c >> 2) & 0x3333_3333) | ((c & 0x3333_3333) << 2) }
  function SwapNibbles(c: bv32): bv32 { ((c >> 4) & 0x0f0f_0f0f) | ((c & 0x0f0f_0f0f) << 4) }
  function SwapBytes(c: bv32): bv32 { ((c >> 8) & 0x00ff_00ff) | ((c & 0x00ff_00ff) << 8) }

  /** The register with its bits in the opposite order: the coefficient of x^31 first. */
  function Mirror(c: bv32): bv32 {
    var s := SwapBytes(SwapNibbles(SwapPairs(SwapBits(c))));
    (s >> 16) | (s << 16)
  }

  /** One shift multiplies the register's polynomial by x and reduces it by the generator
      x^32 + x^26 + x^23 + x^22 + x^16 + x^12 + x^11 + x^10 + x^8 + x^7 + x^5 + x^4 + x^2 + x + 1. */
  lemma ShiftIsReduction(c: bv32)
    ensures var m := Mirror(c);
            Mirror(Shift(c)) == (m << 1) ^ (if m & 0x8000_0000 != 0 then 0x04c1_1db7 else 0)
  {
  }

  lemma MirrorTwice(c: bv32)
    ensures Mirror(Mirror(c)) == c
  {
  }

  // ---- The check value ----

  lemma AbsorbIs(c: bv32, b: byte, r: bv32, d: bv32)
    requires Register(b) == r && Shift8(c ^ r) == d
    ensures Absorb(c, b) == d
  {
    hide Register, Shift8;
  }

  lemma AbsorbLast(c: bv32, front: seq<byte>, b: byte, d: bv32, e: bv32)
    requires AbsorbAll(c, front) == d && Absorb(d, b) == e
    ensures AbsorbAll(c, front + [b]) == e
  {
    hide Absorb;
    assert (front + [b])[..|front|] == front;
  }

  const NINE_DIGITS: seq<byte> := [49, 50, 51, 52, 53, 54, 55, 56, 57]

  lemma AbsorbDigits()
    ensures AbsorbAll(0xffff_ffff, NINE_DIGITS) == 0x340b_c6d9
  {
    hide AbsorbAll, Absorb, Shift8, Register;
    NineShifts();
    DigitRegisters();
    AbsorbIs(0xffff_ffff, 49, 49, 0x7c23_1048);
    AbsorbIs(0x7c23_1048, 50, 50, 0xb0ac_bb32);
    AbsorbIs(0xb0ac_bb32, 51, 51, 0x77b7_9c2d);
    AbsorbIs(0x77b7_9c2d, 52, 52, 0x641c_1f5c);
    AbsorbIs(0x641c_1f5c, 53, 53, 0x340a_c5e3);
    AbsorbIs(0x340a_c5e3, 54, 54, 0xf68d_2c9e);
    AbsorbIs(0xf68d_2c9e, 55, 55, 0xaffc_9660);
    AbsorbIs(0xaffc_9660, 56, 56, 0x651f_2550);
    AbsorbIs(0x651f_2550, 57, 57, 0x340b_c6d9);
    NothingAbsorbed(0xffff_ffff);
    AbsorbLast(0xffff_ffff, [], 49, 0xffff_ffff, 0x7c23_1048);
    AbsorbLast(0xffff_ffff, [] + [49], 50, 0x7c23_1048, 0xb0ac_bb32);
    AbsorbLast(0xffff_ffff, [] + [49] + [50], 51, 0xb0ac_bb32, 0x77b7_9c2d);
    AbsorbLast(0xffff_ffff, [] + [49] + [50] + [51], 52, 0x77b7_9c2d, 0x641c_1f5c);
    AbsorbLast(0xffff_ffff, [] + [49] + [50] + [51] + [52], 53, 0x641c_1f5c, 0x340a_c5e3);
    AbsorbLast(0xffff_ffff, [] + [49] + [50] + [51] + [52] + [53], 54, 0x340a_c5e3, 0xf68d_2c9e);
    AbsorbLast(0xffff_ffff, [] + [49] + [50] + [51] + [52] + [53] + [54], 55, 0xf68d_2c9e, 0xaffc_9660);
    AbsorbLast(0xffff_ffff, [] + [49] + [50] + [51] + [52] + [53] + [54] + [55], 56, 0xaffc_9660, 0x651f_2550);
    AbsorbLast(0xffff_ffff, [] + [49] + [50] + [51] + [52] + [53] + [54] + [55] + [56], 57, 0x651f_2550, 0x340b_c6d9);
    assert [] + [49] + [50] + [51] + [52] + [53] + [54] + [55] + [56] + [57] == NINE_DIGITS;
  }

  lemma DigitRegisters()
    ensures Register(49) == 49 && Register(50) == 50 && Register(51) == 51 && Register(52) == 52 && Register(53) == 53
    ensures Register(54) == 54 && Register(55) == 55 && Register(56) == 56 && Register(57) == 57
  {
  }

  lemma NothingAbsorbed(c: bv32)
    ensures AbsorbAll(c, []) == c
  {
  }

  lemma NineShifts()
    ensures Shift8(0xffff_ffff ^ 49) == 0x7c23_1048 && Shift8(0x7c23_1048 ^ 50) == 0xb0ac_bb32
    ensures Shift8(0xb0ac_bb32 ^ 51) == 0x77b7_9c2d && Shift8(0x77b7_9c2d ^ 52) == 0x641c_1f5c
    ensures Shift8(0x641c_1f5c ^ 53) == 0x340a_c5e3 && Shift8(0x340a_c5e3 ^ 54) == 0xf68d_2c9e
    ensures Shift8(0xf68d_2c9e ^ 55) == 0xaffc_9660 && Shift8(0xaffc_9660 ^ 56) == 0x651f_2550
    ensures Shift8(0x651f_2550 ^ 57) == 0x340b_c6d9
  {
  }

  /** The checksum of the nine digits `123456789` is the check value of the standard. */
  lemma CheckValue()
    ensures Crc32(NINE_DIGITS) == 0xcbf4_3926
  {
    hide AbsorbAll;
    AbsorbDigits();
    FinishDigits();
  }

  lemma FinishDigits()
    ensures Finish(0x340b_c6d9) == 0xcbf4_3926
  {
    assert RegisterBytes(!0x340b_c6d9) == [0x26, 0x39, 0xf4, 0xcb];
  }

  // ---- Bursts ----

  function Xor(a: bv32, b: bv32): bv32 { a ^ b }
  function Half(y: bv32): bv32 { y >> 1 }
  predicate Even(y: bv32) { y & 1 == 0 }

  const GENERATOR: bv32 := 0xedb8_8320

  lemma ShiftEven(c: bv32)
    requires Even(c)
    ensures Shift(c) == Half(c)
  {
    assert 0 - (c & 1) == 0;
  }

  lemma ShiftOdd(c: bv32)
    requires !Even(c)
    ensures Shift(c) == Xor(Half(c), GENERATOR)
  {
    assert c & 1 == 1;
    assert 0 - (c & 1) == 0xffff_ffff;
  }

  lemma XorFacts(x: bv32, y: bv32, p: bv32)
    ensures Xor(Xor(x, y), p) == Xor(Xor(x, p), y)
    ensures Half(Xor(x, y)) == Xor(Half(x), Half(y))
  {
  }

  lemma XorEven(x: bv32, y: bv32)
    requires Even(y)
    ensures Even(Xor(x, y)) <==> Even(x)
  {
  }

  lemma Slide(x: bv32, y: bv32)
    requires Even(y)
    ensures Shift(Xor(x, y)) == Xor(Shift(x), Half(y))
  {
    hide Shift, Xor, Half, Even;
    XorEven(x, y);
    XorFacts(x, y, 0);
    if Even(x) {
      ShiftEven(x);
      ShiftEven(Xor(x, y));
    } else {
      ShiftOdd(x);
      ShiftOdd(Xor(x, y));
      XorFacts(Half(x), Half(y), GENERATOR);
    }
  }

  lemma SlideTwice(x: bv32, y0: bv32, y1: bv32, y2: bv32)
    requires Even(y0) && Even(y1) && Half(y0) == y1 && Half(y1) == y2
    ensures Shift(Shift(Xor(x, y0))) == Xor(Shift(Shift(x)), y2)
  {
    hide Shift, Xor, Half, Even;
    Slide(x, y0);
    Slide(Shift(x), y1);
  }

  predicate LowByteIsZero(y: bv32) { y & 0xff == 0 }

  function DownByte(y: bv32): bv32 { y >> 8 }

  lemma HalfBits(y: bv32)
    requires LowByteIsZero(y)
    ensures Even(y) && Even(y >> 1) && Even(y >> 2) && Even(y >> 3) && Even(y >> 4) && Even(y >> 5) && Even(y >> 6) && Even(y >> 7)
    ensures Half(y) == y >> 1 && Half(y >> 1) == y >> 2 && Half(y >> 2) == y >> 3 && Half(y >> 3) == y >> 4
    ensures Half(y >> 4) == y >> 5 && Half(y >> 5) == y >> 6 && Half(y >> 6) == y >> 7 && Half(y >> 7) == y >> 8
  {
  }

  /** Bits above the lowest eight only move down. */
  lemma SlideByte(x: bv32, y: bv32)
    requires LowByteIsZero(y)
    ensures Shift8(Xor(x, y)) == Xor(Shift8(x), DownByte(y))
  {
    hide Shift, Xor, Half, Even, LowByteIsZero;
    HalfBits(y);
    SlideChain(x, y, y >> 1, y >> 2, y >> 3, y >> 4, y >> 5, y >> 6, y >> 7, y >> 8);
  }

  lemma SlideChain(x: bv32, y0: bv32, y1: bv32, y2: bv32, y3: bv32, y4: bv32, y5: bv32, y6: bv32, y7: bv32, y8: bv32)
    requires Even(y0) && Even(y1) && Even(y2) && Even(y3) && Even(y4) && Even(y5) && Even(y6) && Even(y7)
    requires Half(y0) == y1 && Half(y1) == y2 && Half(y2) == y3 && Half(y3) == y4
    requires Half(y4) == y5 && Half(y5) == y6 && Half(y6) == y7 && Half(y7) == y8
    ensures Shift8(Xor(x, y0)) == Xor(Shift8(x), y8)
  {
    hide Shift, Xor, Half, Even;
    var x2 := Shift(Shift(x));
    var x4 := Shift(Shift(x2));
    var x6 := Shift(Shift(x4));
    SlideTwice(x, y0, y1, y2);
    SlideTwice(x2, y2, y3, y4);
    SlideTwice(x4, y4, y5, y6);
    SlideTwice(x6, y6, y7, y8);
  }

  predicate Small(r: bv32) { r & 0xffff_ff00 == 0 }

  /** Three, two or one bytes on top of an empty one. */
  function Upper(b: bv32, c: bv32, d: bv32): bv32 { (b << 8) ^ (c << 16) ^ (d << 24) }

  lemma UpperIs(b: bv32, c: bv32, d: bv32, s: bv32)
    requires Small(b) && Small(c) && Small(d)
    ensures LowByteIsZero(Upper(b, c, d))
    ensures Xor(s, DownByte(Upper(b, c, d))) == Xor(Xor(s, b), Upper(c, d, 0))
  {
    UpperBits(s, b, c, d);
  }

  lemma UpperBits(s: bv32, b: bv32, c: bv32, d: bv32)
    requires b & 0xffff_ff00 == 0 && c & 0xffff_ff00 == 0 && d & 0xffff_ff00 == 0
    ensures ((b << 8) ^ (c << 16) ^ (d << 24)) & 0xff == 0
    ensures s ^ (((b << 8) ^ (c << 16) ^ (d << 24)) >> 8) == (s ^ b) ^ ((c << 8) ^ (d << 16) ^ (0 << 24))
  {
  }

  lemma NoUpper(s: bv32)
    ensures Small(0) && Xor(s, Upper(0, 0, 0)) == s
  {
  }

  /** Absorbing four bytes one by one is absorbing them all at once. */
  lemma FourAtOnce(x: bv32, a: bv32, b: bv32, c: bv32, d: bv32)
    requires Small(b) && Small(c) && Small(d)
    ensures Shift8(Xor(Shift8(Xor(Shift8(Xor(Shift8(Xor(x, a)), b)), c)), d))
         == Shift8(Shift8(Shift8(Shift8(Xor(Xor(x, a), Upper(b, c, d))))))
  {
    hide Shift8, Xor, Small, Upper, DownByte, LowByteIsZero;
    var s1 := Shift8(Xor(x, a));
    var s2 := Shift8(Xor(s1, b));
    var s3 := Shift8(Xor(s2, c));
    NoUpper(Xor(s3, d));
    UpperIs(b, c, d, s1);
    UpperIs(c, d, 0, s2);
    UpperIs(d, 0, 0, s3);
    SlideByte(Xor(x, a), Upper(b, c, d));
    SlideByte(Xor(s1, b), Upper(c, d, 0));
    SlideByte(Xor(s2, c), Upper(d, 0, 0));
  }

  lemma RegisterIsSmall(b: byte)
    ensures Small(Register(b))
  {
  }

  lemma UpperInjective(x: bv32, a: bv32, b: bv32, c: bv32, d: bv32, a': bv32, b': bv32, c': bv32, d': bv32)
    requires Small(a) && Small(b) && Small(c) && Small(d) && Small(a') && Small(b') && Small(c') && Small(d')
    requires Xor(Xor(x, a), Upper(b, c, d)) == Xor(Xor(x, a'), Upper(b', c', d'))
    ensures a == a' && b == b' && c == c' && d == d'
  {
    hide Xor, Upper, Small, ByteOf;
    Cancel(x, a, Upper(b, c, d), a', Upper(b', c', d'));
    BytesOfWord(a, b, c, d);
    BytesOfWord(a', b', c', d');
  }

  lemma Cancel(x: bv32, a: bv32, u: bv32, a': bv32, u': bv32)
    requires Xor(Xor(x, a), u) == Xor(Xor(x, a'), u')
    ensures Xor(a, u) == Xor(a', u')
  {
    hide Xor;
    Associates(x, a, u);
    Associates(x, a', u');
    CancelLeft(x, Xor(a, u), Xor(a', u'));
  }

  lemma Associates(x: bv32, a: bv32, u: bv32)
    ensures Xor(Xor(x, a), u) == Xor(x, Xor(a, u))
  {
  }

  lemma CancelLeft(x: bv32, p: bv32, q: bv32)
    requires Xor(x, p) == Xor(x, q)
    ensures p == q
  {
    CancelBits(x, p);
    CancelBits(x, q);
  }

  lemma CancelBits(x: bv32, p: bv32)
    ensures Xor(x, Xor(x, p)) == p
  {
  }

  function ByteOf(w: bv32, i: nat): bv32 {
    if i == 0 then w & 0xff else if i == 1 then (w >> 8) & 0xff else if i == 2 then (w >> 16) & 0xff else w >> 24
  }

  lemma BytesOfWord(a: bv32, b: bv32, c: bv32, d: bv32)
    requires Small(a) && Small(b) && Small(c) && Small(d)
    ensures var w := Xor(a, Upper(b, c, d));
            ByteOf(w, 0) == a && ByteOf(w, 1) == b && ByteOf(w, 2) == c && ByteOf(w, 3) == d
  {
  }

  /** The register with four bytes added to it at once. */
  function Loaded(x: bv32, v: seq<byte>): bv32
    requires |v| == 4
  {
    Xor(Xor(x, Register(v[0])), Upper(Register(v[1]), Register(v[2]), Register(v[3])))
  }

  lemma LoadedInjective(x: bv32, v: seq<byte>, w: seq<byte>)
    requires |v| == |w| == 4 && Loaded(x, v) == Loaded(x, w)
    ensures v == w
  {
    hide Register, Xor, Upper, Small;
    SmallRegisters(v);
    SmallRegisters(w);
    UpperInjective(x, Register(v[0]), Register(v[1]), Register(v[2]), Register(v[3]),
                   Register(w[0]), Register(w[1]), Register(w[2]), Register(w[3]));
    RegisterInjective(v[0], w[0]);
    RegisterInjective(v[1], w[1]);
    RegisterInjective(v[2], w[2]);
    RegisterInjective(v[3], w[3]);
  }

  lemma FourDiffer(x: bv32, v: seq<byte>, w: seq<byte>)
    requires |v| == |w| == 4 && AbsorbAll(x, v) == AbsorbAll(x, w)
    ensures v == w
  {
    hide Shift8, AbsorbAll, Loaded;
    FourSteps(x, v);
    FourSteps(x, w);
    var p, q := Loaded(x, v), Loaded(x, w);
    Shift8Injective(Shift8(Shift8(Shift8(p))), Shift8(Shift8(Shift8(q))));
    Shift8Injective(Shift8(Shift8(p)), Shift8(Shift8(q)));
    Shift8Injective(Shift8(p), Shift8(q));
    Shift8Injective(p, q);
    LoadedInjective(x, v, w);
  }

  lemma SmallRegisters(v: seq<byte>)
    requires |v| == 4
    ensures Small(Register(v[0])) && Small(Register(v[1])) && Small(Register(v[2])) && Small(Register(v[3]))
  {
    hide Register, Small;
    RegisterIsSmall(v[0]);
    RegisterIsSmall(v[1]);
    RegisterIsSmall(v[2]);
    RegisterIsSmall(v[3]);
  }

  lemma AbsorbXor(x: bv32, b: byte)
    ensures Absorb(x, b) == Shift8(Xor(x, Register(b)))
  {
    hide Register, Shift8;
  }

  lemma FourSteps(x: bv32, v: seq<byte>)
    requires |v| == 4
    ensures AbsorbAll(x, v) == Shift8(Shift8(Shift8(Shift8(Loaded(x, v)))))
  {
    hide Register, Shift8, AbsorbAll, Absorb, Upper, Small, Xor;
    var c1 := Absorb(x, v[0]);
    var c2 := Absorb(c1, v[1]);
    var c3 := Absorb(c2, v[2]);
    FourBytes(x, v, c1, c2, c3);
    AbsorbXor(x, v[0]);
    AbsorbXor(c1, v[1]);
    AbsorbXor(c2, v[2]);
    AbsorbXor(c3, v[3]);
    SmallRegisters(v);
    FourAtOnce(x, Register(v[0]), Register(v[1]), Register(v[2]), Register(v[3]));
  }

  lemma FourBytes(x: bv32, v: seq<byte>, c1: bv32, c2: bv32, c3: bv32)
    requires |v| == 4 && c1 == Absorb(x, v[0]) && c2 == Absorb(c1, v[1]) && c3 == Absorb(c2, v[2])
    ensures AbsorbAll(x, v) == Absorb(c3, v[3])
  {
    hide AbsorbAll, Absorb;
    NothingAbsorbed(x);
    AbsorbLast(x, [], v[0], x, c1);
    AbsorbLast(x, [] + [v[0]], v[1], c1, c2);
    AbsorbLast(x, [] + [v[0]] + [v[1]], v[2], c2, c3);
    AbsorbLast(x, [] + [v[0]] + [v[1]] + [v[2]], v[3], c3, Absorb(c3, v[3]));
    assert [] + [v[0]] + [v[1]] + [v[2]] + [v[3]] == v;
  }

  /** Up to four bytes leave the register different if they differ. */
  lemma WindowDiffers(x: bv32, v: seq<byte>, w: seq<byte>)
    requires |v| == |w| <= 4 && v != w
    ensures AbsorbAll(x, v) != AbsorbAll(x, w)
  {
    hide AbsorbAll;
    var pad := seq(4 - |v|, _ => 0);
    AbsorbConcat(x, v, pad);
    AbsorbConcat(x, w, pad);
    assert (v + pad)[..|v|] == v && (w + pad)[..|w|] == w;
    if AbsorbAll(x, v + pad) == AbsorbAll(x, w + pad) {
      FourDiffer(x, v + pad, w + pad);
    }
  }

  /** Two inputs that differ only within four consecutive bytes have different checksums. */
  lemma BurstDetected(head: seq<byte>, v: seq<byte>, w: seq<byte>, tail: seq<byte>)
    requires |v| == |w| <= 4 && v != w
    ensures Crc32(head + v + tail) != Crc32(head + w + tail)
  {
    hide AbsorbAll, Finish;
    var x: bv32 := AbsorbAll(0xffff_ffff, head);
    AbsorbConcat(0xffff_ffff, head + v, tail);
    AbsorbConcat(0xffff_ffff, head + w, tail);
    AbsorbConcat(0xffff_ffff, head, v);
    AbsorbConcat(0xffff_ffff, head, w);
    WindowDiffers(x, v, w);
    TailKeepsDifference(AbsorbAll(x, v), AbsorbAll(x, w), tail);
    FinishInjective(AbsorbAll(0xffff_ffff, head + v + tail), AbsorbAll(0xffff_ffff, head + w + tail));
  }
}
