/** The CRC-32 that guards every journal record (reflected polynomial 0xEDB88320). */
module Checksum {
  import opened Foundations
  import opened Numerals

  /** One shift of the register. */
  function Shift(crc: bv32): bv32 {
    (crc >> 1) ^ (0xedb8_8320 & (0 - (crc & 1)))
  }

  function Shift8(crc: bv32): bv32 {
    Shift(Shift(Shift(Shift(Shift(Shift(Shift(Shift(crc))))))))
  }


  /** A byte as the low bits of a register. */
  function Register(b: byte): bv32 {
    (if b % 2 == 1 then 1 else 0) |
    (if b / 2 % 2 == 1 then 2 else 0) |
    (if b / 4 % 2 == 1 then 4 else 0) |
    (if b / 8 % 2 == 1 then 8 else 0) |
    (if b / 16 % 2 == 1 then 16 else 0) |
    (if b / 32 % 2 == 1 then 32 else 0) |
    (if b / 64 % 2 == 1 then 64 else 0) |
    (if b / 128 % 2 == 1 then 128 else 0)
  }

  /** The low byte of a register. */
  function LowByte(c: bv32): byte {
    (if c & 1 != 0 then 1 else 0) +
    (if c & 2 != 0 then 2 else 0) +
    (if c & 4 != 0 then 4 else 0) +
    (if c & 8 != 0 then 8 else 0) +
    (if c & 16 != 0 then 16 else 0) +
    (if c & 32 != 0 then 32 else 0) +
    (if c & 64 != 0 then 64 else 0) +
    (if c & 128 != 0 then 128 else 0)
  }

  function Absorb(crc: bv32, b: byte): bv32 { Shift8(crc ^ Register(b)) }

  function AbsorbAll(crc: bv32, input: seq<byte>): bv32
    decreases |input|
  {
    if input == [] then crc else Absorb(AbsorbAll(crc, input[..|input| - 1]), input[|input| - 1])
  }

  /** The four bytes of a register, least significant first. */
  function RegisterBytes(c: bv32): (s: seq<byte>)
    ensures |s| == 4
  {
    [LowByte(c), LowByte(c >> 8), LowByte(c >> 16), LowByte(c >> 24)]
  }

  /** The final complement, as an unsigned number. */
  function Finish(c: bv32): (crc: nat)
    ensures crc < TWO_32
  {
    var s := RegisterBytes(!c);
    FromLittleEndianBound(s);
    assert Pow256(4) == TWO_32;
    FromLittleEndian(s)
  }

  function Crc32(input: seq<byte>): (crc: nat)
    ensures crc < TWO_32
  {
    Finish(AbsorbAll(0xffff_ffff, input))
  }

  /** The body of `crc32`'s byte loop: eight conditional shifts. */
  method AbsorbByte(crc: bv32, b: byte) returns (register: bv32)
    ensures register == Absorb(crc, b)
  {
    hide Register, Shift, Shift8;
    register := crc ^ Register(b);
    for bit := 0 to 8
      invariant register == ShiftTimes(crc ^ Register(b), bit)
    {
      OneShift(register);
      register := (register >> 1) ^ (0xedb8_8320 & (0 - (register & 1)));
    }
    EightShifts(crc ^ Register(b));
  }

  lemma OneShift(c: bv32)
    ensures (c >> 1) ^ (0xedb8_8320 & (0 - (c & 1))) == Shift(c)
  {
  }

  /** `crc32`. */
  method ComputeCrc32(input: seq<byte>) returns (crc: nat)
    ensures crc == Crc32(input)
  {
    hide Absorb, Finish;
    var register: bv32 := 0xffff_ffff;
    for index := 0 to |input|
      invariant register == AbsorbAll(0xffff_ffff, input[..index])
    {
      register := AbsorbByte(register, input[index]);
      assert input[..index + 1][..index] == input[..index];
    }
    assert input[..|input|] == input;
    crc := Finish(register);
  }

  function ShiftTimes(c: bv32, n: nat): bv32 {
    if n == 0 then c else Shift(ShiftTimes(c, n - 1))
  }

  lemma EightShifts(c: bv32)
    ensures ShiftTimes(c, 8) == Shift8(c)
  {
    hide Shift;
    assert ShiftTimes(c, 0) == c;
    assert ShiftTimes(c, 1) == Shift(c);
    assert ShiftTimes(c, 3) == Shift(Shift(Shift(c)));
    assert ShiftTimes(c, 5) == Shift(Shift(Shift(Shift(Shift(c)))));
    assert ShiftTimes(c, 7) == Shift(Shift(Shift(Shift(Shift(Shift(Shift(c)))))));
  }

  // ---- Every round is injective ----

  lemma ShiftInjective(a: bv32, b: bv32)
    requires Shift(a) == Shift(b)
    ensures a == b
  {
  }

  lemma Shift8Injective(a: bv32, b: bv32)
    requires Shift8(a) == Shift8(b)
    ensures a == b
  {
    hide Shift;
    var a4, b4 := Shift(Shift(Shift(Shift(a)))), Shift(Shift(Shift(Shift(b))));
    ShiftInjective(Shift(Shift(Shift(a4))), Shift(Shift(Shift(b4))));
    ShiftInjective(Shift(Shift(a4)), Shift(Shift(b4)));
    ShiftInjective(Shift(a4), Shift(b4));
    ShiftInjective(a4, b4);
    ShiftInjective(Shift(Shift(Shift(a))), Shift(Shift(Shift(b))));
    ShiftInjective(Shift(Shift(a)), Shift(Shift(b)));
    ShiftInjective(Shift(a), Shift(b));
    ShiftInjective(a, b);
  }

  /** The register image determines the byte, bit by bit. */
  lemma RegisterInjective(a: byte, b: byte)
    requires Register(a) == Register(b)
    ensures a == b
  {
    var r, s := Register(a), Register(b);
    assert (r & 1 != 0) == (a % 2 == 1) && (s & 1 != 0) == (b % 2 == 1);
    assert (r & 2 != 0) == (a / 2 % 2 == 1) && (s & 2 != 0) == (b / 2 % 2 == 1);
    assert (r & 4 != 0) == (a / 4 % 2 == 1) && (s & 4 != 0) == (b / 4 % 2 == 1);
    assert (r & 8 != 0) == (a / 8 % 2 == 1) && (s & 8 != 0) == (b / 8 % 2 == 1);
    assert (r & 16 != 0) == (a / 16 % 2 == 1) && (s & 16 != 0) == (b / 16 % 2 == 1);
    assert (r & 32 != 0) == (a / 32 % 2 == 1) && (s & 32 != 0) == (b / 32 % 2 == 1);
    assert (r & 64 != 0) == (a / 64 % 2 == 1) && (s & 64 != 0) == (b / 64 % 2 == 1);
    assert (r & 128 != 0) == (a / 128 % 2 == 1) && (s & 128 != 0) == (b / 128 % 2 == 1);
    BitsDetermine(a, b);
  }

  lemma BitsDetermine(a: byte, b: byte)
    requires a % 2 == b % 2 && a / 2 % 2 == b / 2 % 2 && a / 4 % 2 == b / 4 % 2 && a / 8 % 2 == b / 8 % 2
    requires a / 16 % 2 == b / 16 % 2 && a / 32 % 2 == b / 32 % 2
    requires a / 64 % 2 == b / 64 % 2 && a / 128 % 2 == b / 128 % 2
    ensures a == b
  {
    BitSum(a);
    BitSum(b);
  }

  lemma Halved(a: nat, k: nat)
    requires k > 0
    ensures a / k == 2 * (a / (2 * k)) + a / k % 2
  {
    var q, r := a / k, a % k;
    Quotient(a, 2 * k, q / 2, q % 2 * k + r);
  }

  lemma Quotient(a: nat, d: nat, q: nat, r: nat)
    requires d > 0 && r < d && a == d * q + r
    ensures a / d == q
  {
    if a / d < q {
      MulStrict(a / d, q, d);
    } else if a / d > q {
      MulStrict(q, a / d, d);
    }
  }

  lemma BitSum(a: byte)
    ensures a == a % 2 + 2 * (a / 2 % 2) + 4 * (a / 4 % 2) + 8 * (a / 8 % 2) + 16 * (a / 16 % 2)
               + 32 * (a / 32 % 2) + 64 * (a / 64 % 2) + 128 * (a / 128 % 2)
  {
    Halved(a, 1);
    Halved(a, 2);
    Halved(a, 4);
    Halved(a, 8);
    Halved(a, 16);
    Halved(a, 32);
    Halved(a, 64);
    Woven(a, a / 2, a / 4, a / 8, a / 16, a / 32, a / 64, a / 128);
  }

  lemma Woven(a: nat, a1: nat, a2: nat, a3: nat, a4: nat, a5: nat, a6: nat, a7: nat)
    requires a == 2 * a1 + a % 2 && a1 == 2 * a2 + a1 % 2 && a2 == 2 * a3 + a2 % 2 && a3 == 2 * a4 + a3 % 2
    requires a4 == 2 * a5 + a4 % 2 && a5 == 2 * a6 + a5 % 2 && a6 == 2 * a7 + a6 % 2 && a7 < 2
    ensures a == a % 2 + 2 * (a1 % 2) + 4 * (a2 % 2) + 8 * (a3 % 2) + 16 * (a4 % 2) + 32 * (a5 % 2) + 64 * (a6 % 2)
               + 128 * (a7 % 2)
  {
  }

  /** The low byte read back determines the eight low bits. */
  lemma LowByteInjective(c: bv32, d: bv32)
    requires LowByte(c) == LowByte(d)
    ensures c & 0xff == d & 0xff
  {
    LowByteBits(c);
    LowByteBits(d);
  }

  lemma LowByteBits(c: bv32)
    ensures Register(LowByte(c)) == c & 0xff
  {
    var n := LowByte(c);
    var b0, b1, b2, b3 := if c & 1 != 0 then 1 else 0, if c & 2 != 0 then 1 else 0,
                          if c & 4 != 0 then 1 else 0, if c & 8 != 0 then 1 else 0;
    var b4, b5, b6, b7 := if c & 16 != 0 then 1 else 0, if c & 32 != 0 then 1 else 0,
                          if c & 64 != 0 then 1 else 0, if c & 128 != 0 then 1 else 0;
    Halving(b0, b1, b2, b3, b4, b5, b6, b7, n);
  }

  /** Reading a sum of powers of two bit by bit. */
  lemma Halving(b0: int, b1: int, b2: int, b3: int, b4: int, b5: int, b6: int, b7: int, n: int)
    requires 0 <= b0 <= 1 && 0 <= b1 <= 1 && 0 <= b2 <= 1 && 0 <= b3 <= 1
    requires 0 <= b4 <= 1 && 0 <= b5 <= 1 && 0 <= b6 <= 1 && 0 <= b7 <= 1
    requires n == b0 + 2 * b1 + 4 * b2 + 8 * b3 + 16 * b4 + 32 * b5 + 64 * b6 + 128 * b7
    ensures n % 2 == b0 && n / 2 % 2 == b1 && n / 4 % 2 == b2 && n / 8 % 2 == b3
    ensures n / 16 % 2 == b4 && n / 32 % 2 == b5 && n / 64 % 2 == b6 && n / 128 % 2 == b7
  {
    assert n / 2 == b1 + 2 * b2 + 4 * b3 + 8 * b4 + 16 * b5 + 32 * b6 + 64 * b7;
    assert n / 4 == b2 + 2 * b3 + 4 * b4 + 8 * b5 + 16 * b6 + 32 * b7;
    assert n / 8 == b3 + 2 * b4 + 4 * b5 + 8 * b6 + 16 * b7;
    assert n / 16 == b4 + 2 * b5 + 4 * b6 + 8 * b7;
    assert n / 32 == b5 + 2 * b6 + 4 * b7;
    assert n / 64 == b6 + 2 * b7;
    assert n / 128 == b7;
  }

  lemma RegisterBytesInjective(c: bv32, d: bv32)
    requires RegisterBytes(c) == RegisterBytes(d)
    ensures c == d
  {
    hide LowByte;
    assert RegisterBytes(c)[0] == RegisterBytes(d)[0] && RegisterBytes(c)[1] == RegisterBytes(d)[1];
    assert RegisterBytes(c)[2] == RegisterBytes(d)[2] && RegisterBytes(c)[3] == RegisterBytes(d)[3];
    LowByteInjective(c, d);
    LowByteInjective(c >> 8, d >> 8);
    LowByteInjective(c >> 16, d >> 16);
    LowByteInjective(c >> 24, d >> 24);
  }

  lemma AbsorbInjective(c: bv32, d: bv32, b: byte)
    requires Absorb(c, b) == Absorb(d, b)
    ensures c == d
  {
    hide Shift8, Register;
    Shift8Injective(c ^ Register(b), d ^ Register(b));
  }

  /** Different registers stay different while the same bytes are absorbed. */
  lemma {:induction false} TailKeepsDifference(c: bv32, d: bv32, tail: seq<byte>)
    requires c != d
    ensures AbsorbAll(c, tail) != AbsorbAll(d, tail)
  {
    hide Absorb;
    if tail != [] {
      TailKeepsDifference(c, d, tail[..|tail| - 1]);
      if AbsorbAll(c, tail) == AbsorbAll(d, tail) {
        AbsorbInjective(AbsorbAll(c, tail[..|tail| - 1]), AbsorbAll(d, tail[..|tail| - 1]), tail[|tail| - 1]);
      }
    }
  }

  lemma {:induction false} AbsorbConcat(c: bv32, a: seq<byte>, b: seq<byte>)
    ensures AbsorbAll(c, a + b) == AbsorbAll(AbsorbAll(c, a), b)
  {
    hide Absorb;
    if b == [] {
      assert a + b == a;
    } else {
      assert (a + b)[..|a + b| - 1] == a + b[..|b| - 1];
      AbsorbConcat(c, a, b[..|b| - 1]);
    }
  }

  /** Changing one byte anywhere changes the checksum. */
  lemma SingleByteDetected(input: seq<byte>, k: nat, b: byte)
    requires k < |input| && input[k] != b
    ensures Crc32(input[k := b]) != Crc32(input)
  {
    hide AbsorbAll, Finish;
    var head, tail := input[..k], input[k + 1..];
    assert input == head + ([input[k]] + tail) && input[k := b] == head + ([b] + tail);
    OneByteDiffers(0xffff_ffff, head, input[k], b, tail);
    FinishInjective(AbsorbAll(0xffff_ffff, input), AbsorbAll(0xffff_ffff, input[k := b]));
  }

  lemma ComplementDiffers(c: bv32, d: bv32)
    requires c != d
    ensures !c != !d
  {
  }

  lemma FinishInjective(c: bv32, d: bv32)
    requires c != d
    ensures Finish(c) != Finish(d)
  {
    hide RegisterBytes, FromLittleEndian;
    ComplementDiffers(c, d);
    RegistersDiffer(!c, !d);
  }

  lemma OneByteDiffers(start: bv32, head: seq<byte>, a: byte, b: byte, tail: seq<byte>)
    requires a != b
    ensures AbsorbAll(start, head + ([a] + tail)) != AbsorbAll(start, head + ([b] + tail))
  {
    hide Absorb;
    var c := AbsorbAll(start, head);
    AbsorbConcat(start, head, [a] + tail);
    AbsorbConcat(start, head, [b] + tail);
    AbsorbConcat(c, [a], tail);
    AbsorbConcat(c, [b], tail);
    ByteChangesRegister(c, a, b);
    assert [a][..0] == [] && [b][..0] == [];
    TailKeepsDifference(Absorb(c, a), Absorb(c, b), tail);
  }

  lemma ByteChangesRegister(c: bv32, a: byte, b: byte)
    requires a != b
    ensures Absorb(c, a) != Absorb(c, b)
  {
    hide Shift8, Register;
    if Absorb(c, a) == Absorb(c, b) {
      Shift8Injective(c ^ Register(a), c ^ Register(b));
      RegisterInjective(a, b);
    }
  }

  lemma RegistersDiffer(c: bv32, d: bv32)
    requires c != d
    ensures FromLittleEndian(RegisterBytes(c)) != FromLittleEndian(RegisterBytes(d))
  {
    hide RegisterBytes, FromLittleEndian;
    if FromLittleEndian(RegisterBytes(c)) == FromLittleEndian(RegisterBytes(d)) {
      FromLittleEndianInjective(RegisterBytes(c), RegisterBytes(d));
      RegisterBytesInjective(c, d);
    }
  }
}
