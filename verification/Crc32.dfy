/** The journal's checksum: CRC-32 as in section 3.2.9 of IEEE 802.3, computed from a table
    one byte at a time. */
module Crc32 {
  import opened Bytes

  const POLY: bv32 := 0xEDB8_8320
  const ALL_ONES: bv32 := 0xFFFF_FFFF

  // ----- reference: one bit at a time -----

  /** Shift register with the reflected polynomial: the data bit is added to the bit that
      falls out, and feeds the polynomial back. */
  function BitStep(crc: bv32, bit: bool): bv32 {
    (crc >> 1) ^ (if (crc & 1 == 1) != bit then POLY else 0)
  }

  function CrcBits(crc: bv32, bits: seq<bool>): bv32
    decreases |bits|
  {
    if bits == [] then crc else CrcBits(BitStep(crc, bits[0]), bits[1..])
  }

  /** Bits of a byte in transmission order, least significant first. */
  function Bits(b: byte): seq<bool> {
    [b & 1 != 0, b & 2 != 0, b & 4 != 0, b & 8 != 0, b & 16 != 0, b & 32 != 0, b & 64 != 0, b & 128 != 0]
  }

  function AllBits(bs: seq<byte>): seq<bool> {
    if bs == [] then [] else Bits(bs[0]) + AllBits(bs[1..])
  }

  /** The checksum register after a byte string, by the reference. */
  function Register(crc: bv32, bs: seq<byte>): bv32 {
    CrcBits(crc, AllBits(bs))
  }

  function Checksum(bs: seq<byte>): bv32 {
    Register(ALL_ONES, bs) ^ ALL_ONES
  }

  // ----- reference of the reference: long division by the generator -----

  const GENERATOR: bv32 := 0x04C1_1DB7

  /** One step of dividing by the generator polynomial, highest power first. */
  function DivideStep(rem: bv32, bit: bool): bv32 {
    (rem << 1) ^ (if (rem & 0x8000_0000 != 0) != bit then GENERATOR else 0)
  }

  function Divide(rem: bv32, bits: seq<bool>): bv32
    decreases |bits|
  {
    if bits == [] then rem else Divide(DivideStep(rem, bits[0]), bits[1..])
  }

  /** Bit reversal of a word. */
  function Mirror(x: bv32): bv32 {
    var a := ((x & 0x5555_5555) << 1) | ((x >> 1) & 0x5555_5555);
    var b := ((a & 0x3333_3333) << 2) | ((a >> 2) & 0x3333_3333);
    var c := ((b & 0x0F0F_0F0F) << 4) | ((b >> 4) & 0x0F0F_0F0F);
    var d := ((c & 0x00FF_00FF) << 8) | ((c >> 8) & 0x00FF_00FF);
    (d << 16) | (d >> 16)
  }

  lemma MirrorStep(crc: bv32, bit: bool)
    ensures Mirror(BitStep(crc, bit)) == DivideStep(Mirror(crc), bit)
  {
  }

  /** The reflected register holds the mirror image of the division remainder. */
  lemma {:induction false} RegisterIsRemainder(crc: bv32, bits: seq<bool>)
    ensures Mirror(CrcBits(crc, bits)) == Divide(Mirror(crc), bits)
    decreases |bits|
  {
    if bits != [] {
      MirrorStep(crc, bits[0]);
      RegisterIsRemainder(BitStep(crc, bits[0]), bits[1..]);
    }
  }

  // ----- a byte at a time -----

  // Named word operations, so that the chains below can treat them as symbols.

  function Xor(x: bv32, y: bv32): bv32 {
    x ^ y
  }

  function Half(x: bv32): bv32 {
    x >> 1
  }

  function Double(x: bv32): bv32 {
    x << 1
  }

  /** A word moved up by one byte. */
  function Lift(x: bv32): bv32 {
    x << 8
  }

  function Shift1(x: bv32): bv32 {
    (x >> 1) ^ (if x & 1 == 1 then POLY else 0)
  }

  function Shift8(x: bv32): bv32 {
    Shift1(Shift1(Shift1(Shift1(Shift1(Shift1(Shift1(Shift1(x))))))))
  }

  /** The register after one more byte. */
  function ByteStep(crc: bv32, b: byte): bv32 {
    Shift8(Xor(crc, b as bv32))
  }

  lemma {:induction false} CrcBitsConcat(crc: bv32, a: seq<bool>, b: seq<bool>)
    ensures CrcBits(crc, a + b) == CrcBits(CrcBits(crc, a), b)
    decreases |a|
  {
    if a == [] {
      assert a + b == b;
    } else {
      assert (a + b)[1..] == a[1..] + b;
      CrcBitsConcat(BitStep(crc, a[0]), a[1..], b);
    }
  }

  /** Adding a data bit just before it falls out is adding it up front. */
  lemma BitAbsorbed(crc: bv32, b: bv32)
    ensures Xor(BitStep(crc, b & 1 == 1), Half(b)) == Shift1(Xor(crc, b))
  {
    hide BitStep, Shift1;
    BitAbsorbedWord(crc, b);
  }

  lemma BitAbsorbedWord(crc: bv32, b: bv32)
    ensures BitStep(crc, b & 1 == 1) ^ (b >> 1) == Shift1(crc ^ b)
  {
    assert (crc ^ b) & 1 == (crc & 1) ^ (b & 1);
  }

  /** Feeding bit i, while the word `b` still has the bits from i on. */
  lemma FeedBit(crc: bv32, b: bv32, bits: seq<bool>, i: nat) returns (crc': bv32)
    requires i < |bits| && bits[i] == (b & 1 == 1)
    ensures CrcBits(crc, bits[i..]) == CrcBits(crc', bits[i+1..])
    ensures Xor(crc', Half(b)) == Shift1(Xor(crc, b))
  {
    hide BitStep, Shift1, Xor, Half;
    crc' := BitStep(crc, bits[i]);
    assert bits[i..][1..] == bits[i+1..];
    BitAbsorbed(crc, b);
  }

  lemma ByteBits(crc: bv32, b: byte)
    ensures CrcBits(crc, Bits(b)) == ByteStep(crc, b)
  {
    hide BitStep, Shift1, CrcBits, Bits, Xor, Half;
    var bits := Bits(b);
    var w0 := b as bv32;
    var w1 := Half(w0);
    var w2 := Half(w1);
    var w3 := Half(w2);
    var w4 := Half(w3);
    var w5 := Half(w4);
    var w6 := Half(w5);
    var w7 := Half(w6);
    BitsOfByte(b);
    var c1 := FeedBit(crc, w0, bits, 0);
    var c2 := FeedBit(c1, w1, bits, 1);
    var c3 := FeedBit(c2, w2, bits, 2);
    var c4 := FeedBit(c3, w3, bits, 3);
    var c5 := FeedBit(c4, w4, bits, 4);
    var c6 := FeedBit(c5, w5, bits, 5);
    var c7 := FeedBit(c6, w6, bits, 6);
    var c8 := FeedBit(c7, w7, bits, 7);
    NothingLeft(c8);
    assert bits[0..] == bits && bits[8..] == [];
  }

  lemma NothingLeft(crc: bv32)
    ensures CrcBits(crc, []) == crc && Xor(crc, 0) == crc
  {
  }

  lemma BitsOfByte(b: byte)
    ensures var w0 := b as bv32; var bits := Bits(b);
      var w1 := Half(w0); var w2 := Half(w1); var w3 := Half(w2); var w4 := Half(w3);
      var w5 := Half(w4); var w6 := Half(w5); var w7 := Half(w6);
      && |bits| == 8
      && bits[0] == (w0 & 1 == 1) && bits[1] == (w1 & 1 == 1) && bits[2] == (w2 & 1 == 1) && bits[3] == (w3 & 1 == 1)
      && bits[4] == (w4 & 1 == 1) && bits[5] == (w5 & 1 == 1) && bits[6] == (w6 & 1 == 1) && bits[7] == (w7 & 1 == 1)
      && Half(w7) == 0
  {
  }

  /** Byte by byte is bit by bit. */
  lemma RegisterStep(crc: bv32, bs: seq<byte>)
    requires bs != []
    ensures Register(crc, bs) == Register(ByteStep(crc, bs[0]), bs[1..])
  {
    CrcBitsConcat(crc, Bits(bs[0]), AllBits(bs[1..]));
    ByteBits(crc, bs[0]);
  }

  /** Incremental computation: header first, payload after, is the CRC of both together. */
  lemma {:induction false} RegisterConcat(crc: bv32, a: seq<byte>, b: seq<byte>)
    ensures Register(crc, a + b) == Register(Register(crc, a), b)
    decreases |a|
  {
    if a == [] {
      assert a + b == b;
    } else {
      assert (a + b)[1..] == a[1..] + b;
      RegisterStep(crc, a + b);
      RegisterStep(crc, a);
      RegisterConcat(ByteStep(crc, a[0]), a[1..], b);
    }
  }

  // ----- the table -----

  /** What the table has to hold. */
  ghost predicate IsTable(table: seq<bv32>) {
    |table| == 256 && forall i :: 0 <= i < 256 ==> table[i] == Entry(i)
  }

  function Entry(i: nat): bv32
    requires i < 256
  {
    Shift8((i as byte) as bv32)
  }

  function LowByte(x: bv32): bv32 {
    x & 0xFF
  }

  /** The table index computed from a register and a data byte. */
  function Slot(x: bv32): (i: nat)
    ensures i < 256
  {
    ((x & 0xFF) as byte) as int
  }

  function Fold(crc: bv32, entry: bv32): bv32 {
    (crc >> 8) ^ entry
  }

  lemma EntryOf(x: bv32)
    ensures Entry(Slot(x)) == Shift8(LowByte(x))
  {
    hide Shift8;
    ByteRoundTrip((x & 0xFF) as byte);
    Widen(x);
  }

  lemma Widen(x: bv32)
    ensures ((x & 0xFF) as byte) as bv32 == LowByte(x)
  {
  }

  function ShiftN(x: bv32, n: nat): bv32 {
    if n == 0 then x else Shift1(ShiftN(x, n - 1))
  }

  class Crc {
    var table: array<bv32>
    var initialized: bool

    ghost predicate Valid()
      reads this, table
    {
      table.Length == 256 && (initialized ==> IsTable(table[..]))
    }

    constructor ()
      ensures Valid() && fresh(table)
    {
      table := new bv32[256];
      initialized := false;
    }

    method Init()
      requires Valid()
      modifies this`initialized, table
      ensures Valid() && initialized
    {
      hide Shift8;
      if initialized {
        return;
      }
      var i := 0;
      while i < 256
        invariant i <= 256
        invariant forall k :: 0 <= k < i ==> table[k] == Entry(k)
      {
        var crc := (i as byte) as bv32;
        var j := 0;
        while j < 8
          invariant j <= 8 && crc == ShiftN((i as byte) as bv32, j)
        {
          crc := (crc >> 1) ^ (if crc & 1 == 1 then 0xEDB8_8320 else 0);
          j := j + 1;
        }
        EightShifts((i as byte) as bv32);
        table[i] := crc;
        i := i + 1;
      }
      initialized := true;
    }

    /** The table-driven loop computes the bit-at-a-time register. */
    method Update(crc: bv32, data: seq<byte>) returns (r: bv32)
      requires Valid()
      modifies this`initialized, table
      ensures Valid() && initialized
      ensures r == Register(crc, data)
    {
      hide Shift8, Register, LowByte, Slot, Entry, ByteStep, Fold, Xor;
      Init();
      r := crc;
      var i := 0;
      while i < |data|
        invariant i <= |data| && Valid() && initialized
        invariant Register(crc, data) == Register(r, data[i..])
      {
        EntryOf(Xor(r, data[i] as bv32));
        TableStep(r, data[i]);
        RegisterStep(r, data[i..]);
        assert data[i..][1..] == data[i+1..];
        r := Fold(r, table[Slot(Xor(r, data[i] as bv32))]);
        i := i + 1;
      }
      assert data[|data|..] == [];
      EmptyRegister(r);
    }
  }

  lemma EmptyRegister(crc: bv32)
    ensures Register(crc, []) == crc
  {
  }

  lemma EightShifts(x: bv32)
    ensures ShiftN(x, 8) == Shift8(x)
  {
    hide Shift1;
    assert ShiftN(x, 0) == x;
    assert ShiftN(x, 1) == Shift1(ShiftN(x, 0));
    assert ShiftN(x, 2) == Shift1(ShiftN(x, 1));
    assert ShiftN(x, 3) == Shift1(ShiftN(x, 2));
    assert ShiftN(x, 4) == Shift1(ShiftN(x, 3));
    assert ShiftN(x, 5) == Shift1(ShiftN(x, 4));
    assert ShiftN(x, 6) == Shift1(ShiftN(x, 5));
    assert ShiftN(x, 7) == Shift1(ShiftN(x, 6));
  }

  // ----- error detection -----

  function Unshift1(y: bv32): bv32 {
    if y & 0x8000_0000 != 0 then ((y ^ POLY) << 1) | 1 else y << 1
  }

  lemma Shift1Inverse(x: bv32)
    ensures Unshift1(Shift1(x)) == x
  {
  }

  /** The byte step loses nothing: it can be run backwards. */
  lemma Shift8Injective(x: bv32, y: bv32)
    requires Shift8(x) == Shift8(y)
    ensures x == y
  {
    Back(x, y);
    var x1, y1 := Shift1(x), Shift1(y);
    Back(x1, y1);
    var x2, y2 := Shift1(x1), Shift1(y1);
    Back(x2, y2);
    var x3, y3 := Shift1(x2), Shift1(y2);
    Back(x3, y3);
    var x4, y4 := Shift1(x3), Shift1(y3);
    Back(x4, y4);
    var x5, y5 := Shift1(x4), Shift1(y4);
    Back(x5, y5);
    var x6, y6 := Shift1(x5), Shift1(y5);
    Back(x6, y6);
    Back(Shift1(x6), Shift1(y6));
  }

  lemma Back(x: bv32, y: bv32)
    ensures Shift1(x) == Shift1(y) ==> x == y
  {
    Shift1Inverse(x);
    Shift1Inverse(y);
  }

  lemma StateInjective(x: bv32, y: bv32, b: byte)
    requires ByteStep(x, b) == ByteStep(y, b)
    ensures x == y
  {
    hide Shift8, Xor;
    Shift8Injective(Xor(x, b as bv32), Xor(y, b as bv32));
    XorCancels(x, y, b as bv32);
  }

  lemma XorCancels(x: bv32, y: bv32, z: bv32)
    requires Xor(x, z) == Xor(y, z)
    ensures x == y
  {
    assert (x ^ z) ^ z == x && (y ^ z) ^ z == y;
  }

  /** Different registers stay different over the same data. */
  lemma {:induction false} RegisterInjective(x: bv32, y: bv32, bs: seq<byte>)
    requires Register(x, bs) == Register(y, bs)
    ensures x == y
    decreases |bs|
  {
    if bs != [] {
      RegisterStep(x, bs);
      RegisterStep(y, bs);
      RegisterInjective(ByteStep(x, bs[0]), ByteStep(y, bs[0]), bs[1..]);
      StateInjective(x, y, bs[0]);
    }
  }

  lemma ShiftedOnce(x: bv32, z: bv32)
    requires z <= 0x7FFF_FFFF
    ensures Shift1(Xor(x, Double(z))) == Xor(Shift1(x), z)
  {
    hide Shift1;
    ShiftedOnceWord(x, z);
  }

  lemma ShiftedOnceWord(x: bv32, z: bv32)
    requires z <= 0x7FFF_FFFF
    ensures Shift1(x ^ (z << 1)) == Shift1(x) ^ z
  {
  }

  /** What enters eight places up comes out eight shifts later, unchanged. */
  lemma ShiftedThrough(x: bv32, z: bv32)
    requires z <= 0xFF_FFFF
    ensures Shift8(Xor(x, Lift(z))) == Xor(Shift8(x), z)
  {
    hide Shift1, Xor, Double, Lift;
    var z1 := Double(z);
    var z2 := Double(z1);
    var z3 := Double(z2);
    var z4 := Double(z3);
    var z5 := Double(z4);
    var z6 := Double(z5);
    var z7 := Double(z6);
    Doublings(z);
    ShiftedOnce(x, z7);
    var x1 := Shift1(x);
    ShiftedOnce(x1, z6);
    var x2 := Shift1(x1);
    ShiftedOnce(x2, z5);
    var x3 := Shift1(x2);
    ShiftedOnce(x3, z4);
    var x4 := Shift1(x3);
    ShiftedOnce(x4, z3);
    var x5 := Shift1(x4);
    ShiftedOnce(x5, z2);
    var x6 := Shift1(x5);
    ShiftedOnce(x6, z1);
    ShiftedOnce(Shift1(x6), z);
  }

  lemma Doublings(z: bv32)
    requires z <= 0xFF_FFFF
    ensures var z1 := Double(z); var z2 := Double(z1); var z3 := Double(z2); var z4 := Double(z3);
      var z5 := Double(z4); var z6 := Double(z5); var z7 := Double(z6);
      && z <= 0x7FFF_FFFF && z1 <= 0x7FFF_FFFF && z2 <= 0x7FFF_FFFF && z3 <= 0x7FFF_FFFF && z4 <= 0x7FFF_FFFF
      && z5 <= 0x7FFF_FFFF && z6 <= 0x7FFF_FFFF && z7 <= 0x7FFF_FFFF
      && Double(z7) == Lift(z)
  {
  }

  /** Only the low byte of the register has to go through the table. */
  lemma TableStep(crc: bv32, b: byte)
    ensures Fold(crc, Shift8(LowByte(Xor(crc, b as bv32)))) == ByteStep(crc, b)
  {
    hide Shift8, Xor, Fold, Lift, LowByte;
    var x := Xor(crc, b as bv32);
    SplitLowByte(crc, b as bv32);
    ShiftedThrough(LowByte(x), crc >> 8);
    FoldIsXor(crc, Shift8(LowByte(x)));
  }

  lemma SplitLowByte(crc: bv32, b: bv32)
    requires b <= 0xFF
    ensures crc >> 8 <= 0xFF_FFFF
    ensures Xor(crc, b) == Xor(LowByte(Xor(crc, b)), Lift(crc >> 8))
  {
    assert crc ^ b == ((crc ^ b) & 0xFF) ^ ((crc >> 8) << 8);
  }

  lemma FoldIsXor(crc: bv32, entry: bv32)
    ensures Fold(crc, entry) == Xor(entry, crc >> 8)
  {
  }

  /** Four bytes as one little-endian word. */
  function Word(b0: byte, b1: byte, b2: byte, b3: byte): bv32 {
    b0 as bv32 ^ (b1 as bv32 << 8) ^ (b2 as bv32 << 16) ^ (b3 as bv32 << 24)
  }

  /** Four bytes act as one word added to the register, which is then shifted 32 times. */
  lemma FourBytes(s: bv32, b0: byte, b1: byte, b2: byte, b3: byte)
    ensures Register(s, [b0, b1, b2, b3]) == Shift8(Shift8(Shift8(Shift8(Xor(s, Word(b0, b1, b2, b3))))))
  {
    hide Shift8, Register, Xor, Lift, Word;
    var v0, v1, v2, v3 := b0 as bv32, b1 as bv32, b2 as bv32, b3 as bv32;
    FourSteps(s, b0, b1, b2, b3);
    ByteRange(b1);
    ByteRange(b2);
    ByteRange(b3);
    var t0 := Xor(Xor(s, v0), Lift(v1));
    var t1 := Xor(t0, Lift(Lift(v2)));
    ShiftedThrough(Xor(s, v0), v1);
    ShiftedThrough(Shift8(t0), v2);
    ShiftedThrough(t0, Lift(v2));
    ShiftedThrough(Shift8(Shift8(t1)), v3);
    ShiftedThrough(Shift8(t1), Lift(v3));
    ShiftedThrough(t1, Lift(Lift(v3)));
    WordIsSum(s, b0, b1, b2, b3);
  }

  lemma WordIsSum(s: bv32, b0: byte, b1: byte, b2: byte, b3: byte)
    ensures Xor(Xor(Xor(Xor(s, b0 as bv32), Lift(b1 as bv32)), Lift(Lift(b2 as bv32))), Lift(Lift(Lift(b3 as bv32))))
      == Xor(s, Word(b0, b1, b2, b3))
  {
    hide Xor, Lift, Word;
    var v0, v1, v2, v3 := b0 as bv32, Lift(b1 as bv32), Lift(Lift(b2 as bv32)), Lift(Lift(Lift(b3 as bv32)));
    WordParts(b0, b1, b2, b3);
    XorAssociates(s, v0, v1);
    XorAssociates(s, Xor(v0, v1), v2);
    XorAssociates(s, Xor(Xor(v0, v1), v2), v3);
  }

  lemma XorAssociates(x: bv32, y: bv32, z: bv32)
    ensures Xor(Xor(x, y), z) == Xor(x, Xor(y, z))
  {
    assert (x ^ y) ^ z == x ^ (y ^ z);
  }

  lemma WordParts(b0: byte, b1: byte, b2: byte, b3: byte)
    ensures Word(b0, b1, b2, b3)
      == Xor(Xor(Xor(b0 as bv32, Lift(b1 as bv32)), Lift(Lift(b2 as bv32))), Lift(Lift(Lift(b3 as bv32))))
  {
    Lifts(b2 as bv32, b3 as bv32);
  }

  lemma Lifts(x: bv32, y: bv32)
    ensures Lift(Lift(x)) == x << 16 && Lift(Lift(Lift(y))) == y << 24
  {
  }

  lemma FourSteps(s: bv32, b0: byte, b1: byte, b2: byte, b3: byte)
    ensures Register(s, [b0, b1, b2, b3]) == ByteStep(ByteStep(ByteStep(ByteStep(s, b0), b1), b2), b3)
  {
    hide Register, ByteStep;
    var s1 := ByteStep(s, b0);
    var s2 := ByteStep(s1, b1);
    var s3 := ByteStep(s2, b2);
    RegisterStep(s, [b0, b1, b2, b3]);
    RegisterStep(s1, [b1, b2, b3]);
    RegisterStep(s2, [b2, b3]);
    RegisterStep(s3, [b3]);
    EmptyRegister(ByteStep(s3, b3));
    assert [b0, b1, b2, b3][1..] == [b1, b2, b3] && [b1, b2, b3][1..] == [b2, b3];
    assert [b2, b3][1..] == [b3] && [b3][1..] == [];
  }

  lemma ByteRange(b: byte)
    ensures var v := b as bv32; v <= 0xFF_FFFF && Lift(v) <= 0xFF_FFFF && Lift(Lift(v)) <= 0xFF_FFFF
  {
  }

  lemma WordInjective(a0: byte, a1: byte, a2: byte, a3: byte, b0: byte, b1: byte, b2: byte, b3: byte)
    requires Word(a0, a1, a2, a3) == Word(b0, b1, b2, b3)
    ensures a0 == b0 && a1 == b1 && a2 == b2 && a3 == b3
  {
  }

  lemma Shift32Injective(x: bv32, y: bv32)
    requires Shift8(Shift8(Shift8(Shift8(x)))) == Shift8(Shift8(Shift8(Shift8(y))))
    ensures x == y
  {
    hide Shift8;
    Shift8Injective(Shift8(Shift8(Shift8(x))), Shift8(Shift8(Shift8(y))));
    Shift8Injective(Shift8(Shift8(x)), Shift8(Shift8(y)));
    Shift8Injective(Shift8(x), Shift8(y));
    Shift8Injective(x, y);
  }

  /** From the same register, different four-byte strings lead to different registers. */
  lemma FourInjective(s: bv32, u: seq<byte>, v: seq<byte>)
    requires |u| == |v| == 4 && Register(s, u) == Register(s, v)
    ensures u == v
  {
    hide Shift8, Register, Xor, Word;
    FourBytes(s, u[0], u[1], u[2], u[3]);
    FourBytes(s, v[0], v[1], v[2], v[3]);
    assert u == [u[0], u[1], u[2], u[3]] && v == [v[0], v[1], v[2], v[3]];
    var wu, wv := Word(u[0], u[1], u[2], u[3]), Word(v[0], v[1], v[2], v[3]);
    Shift32Injective(Xor(s, wu), Xor(s, wv));
    XorCommutes(s, wu);
    XorCommutes(s, wv);
    XorCancels(wu, wv, s);
    WordInjective(u[0], u[1], u[2], u[3], v[0], v[1], v[2], v[3]);
  }

  lemma XorCommutes(x: bv32, y: bv32)
    ensures Xor(x, y) == Xor(y, x)
  {
  }

  /** The same for shorter strings, by padding. */
  lemma BurstInjective(s: bv32, u: seq<byte>, v: seq<byte>)
    requires |u| == |v| <= 4 && Register(s, u) == Register(s, v)
    ensures u == v
  {
    hide Register;
    var pad := seq(4 - |u|, _ => 0 as byte);
    RegisterConcat(s, u, pad);
    RegisterConcat(s, v, pad);
    FourInjective(s, u + pad, v + pad);
    assert u == (u + pad)[..|u|] && v == (v + pad)[..|u|];
  }

  lemma BurstChangesRegister(s: bv32, pre: seq<byte>, u: seq<byte>, v: seq<byte>, post: seq<byte>)
    requires |u| == |v| <= 4 && Register(s, pre + u + post) == Register(s, pre + v + post)
    ensures u == v
  {
    hide Register;
    RegisterConcat(s, pre + u, post);
    RegisterConcat(s, pre + v, post);
    RegisterInjective(Register(s, pre + u), Register(s, pre + v), post);
    RegisterConcat(s, pre, u);
    RegisterConcat(s, pre, v);
    BurstInjective(Register(s, pre), u, v);
  }

  lemma ChecksumIsXor(bs: seq<byte>)
    ensures Checksum(bs) == Xor(Register(ALL_ONES, bs), ALL_ONES)
  {
    hide Register;
  }

  /** Any change confined to four consecutive bytes changes the checksum. */
  lemma DetectsBurst(pre: seq<byte>, u: seq<byte>, v: seq<byte>, post: seq<byte>)
    requires |u| == |v| <= 4 && u != v
    ensures Checksum(pre + u + post) != Checksum(pre + v + post)
  {
    hide Register, Checksum, Xor;
    if Checksum(pre + u + post) == Checksum(pre + v + post) {
      ChecksumIsXor(pre + u + post);
      ChecksumIsXor(pre + v + post);
      XorCancels(Register(ALL_ONES, pre + u + post), Register(ALL_ONES, pre + v + post), ALL_ONES);
      BurstChangesRegister(ALL_ONES, pre, u, v, post);
    }
  }

  /** The same, for two records compared position by position. */
  lemma DetectsLocalChange(a: seq<byte>, b: seq<byte>, i: nat)
    requires |a| == |b| && a != b
    requires forall k :: 0 <= k < |a| && a[k] != b[k] ==> i <= k < i + 4
    ensures Checksum(a) != Checksum(b)
  {
    hide Checksum;
    var n := |a|;
    var lo, hi := if i <= n then i else n, if i + 4 <= n then i + 4 else n;
    assert a == a[..lo] + a[lo..hi] + a[hi..];
    assert b == b[..lo] + b[lo..hi] + b[hi..];
    assert a[..lo] == b[..lo] && a[hi..] == b[hi..];
    DetectsBurst(a[..lo], a[lo..hi], b[lo..hi], a[hi..]);
  }

  // ----- the standard's conventions -----

  lemma MirrorComplement(x: bv32)
    ensures Mirror(x ^ 0xFFFF_FFFF) == Mirror(x) ^ 0xFFFF_FFFF
  {
  }

  lemma MirrorOnes()
    ensures Mirror(0xFFFF_FFFF) == 0xFFFF_FFFF
  {
  }

  /** The checksum of any byte string is, bit-reversed, the complement of the remainder of
      dividing its bits by the generator, starting from all ones. */
  lemma ChecksumIsRemainder(bs: seq<byte>)
    ensures Mirror(Checksum(bs)) == Divide(0xFFFF_FFFF, AllBits(bs)) ^ 0xFFFF_FFFF
  {
    hide Mirror, CrcBits, Divide, AllBits;
    RegisterIsRemainder(0xFFFF_FFFF, AllBits(bs));
    MirrorOnes();
    MirrorComplement(CrcBits(0xFFFF_FFFF, AllBits(bs)));
  }

  lemma OneByte(crc: bv32, bs: seq<byte>, i: nat, next: bv32)
    requires i < |bs| && Shift8(Xor(crc, bs[i] as bv32)) == next
    ensures Register(crc, bs[i..]) == Register(next, bs[i+1..])
  {
    hide Shift8, Xor, Register;
    RegisterStep(crc, bs[i..]);
    assert bs[i..][1..] == bs[i+1..];
  }

  /** A zero byte in front of a string does not go unseen. */
  lemma LeadingZeroShows(bs: seq<byte>)
    ensures Register(0xFFFF_FFFF, [0] + bs) != Register(0xFFFF_FFFF, bs)
    ensures Checksum([0] + bs) != Checksum(bs)
  {
    hide Register, Xor, Checksum;
    ZeroByte();
    OneByte(0xFFFF_FFFF, [0] + bs, 0, 0x2DFD_1072);
    assert ([0] + bs)[0..] == [0] + bs && ([0] + bs)[1..] == bs;
    if Register(0xFFFF_FFFF, [0] + bs) == Register(0xFFFF_FFFF, bs) {
      RegisterInjective(0x2DFD_1072, 0xFFFF_FFFF, bs);
    }
    if Checksum([0] + bs) == Checksum(bs) {
      ChecksumIsXor([0] + bs);
      ChecksumIsXor(bs);
      XorCancels(Register(ALL_ONES, [0] + bs), Register(ALL_ONES, bs), ALL_ONES);
    }
  }

  lemma ZeroByte()
    ensures Shift8(Xor(0xFFFF_FFFF, 0 as byte as bv32)) == 0x2DFD_1072
  {
  }

  lemma Digits()
    ensures Shift8(Xor(0xFFFF_FFFF, 0x31 as byte as bv32)) == 0x7C23_1048
    ensures Shift8(Xor(0x7C23_1048, 0x32 as byte as bv32)) == 0xB0AC_BB32
    ensures Shift8(Xor(0xB0AC_BB32, 0x33 as byte as bv32)) == 0x77B7_9C2D
    ensures Shift8(Xor(0x77B7_9C2D, 0x34 as byte as bv32)) == 0x641C_1F5C
    ensures Shift8(Xor(0x641C_1F5C, 0x35 as byte as bv32)) == 0x340A_C5E3
    ensures Shift8(Xor(0x340A_C5E3, 0x36 as byte as bv32)) == 0xF68D_2C9E
    ensures Shift8(Xor(0xF68D_2C9E, 0x37 as byte as bv32)) == 0xAFFC_9660
    ensures Shift8(Xor(0xAFFC_9660, 0x38 as byte as bv32)) == 0x651F_2550
    ensures Shift8(Xor(0x651F_2550, 0x39 as byte as bv32)) == 0x340B_C6D9
  {
  }

  /** The standard check value: the checksum of the digits 1 to 9. */
  lemma CheckValue()
    ensures Checksum([0x31, 0x32, 0x33, 0x34, 0x35, 0x36, 0x37, 0x38, 0x39]) == 0xCBF4_3926
  {
    hide Register, Shift8, Xor;
    Digits();
    var bs: seq<byte> := [0x31, 0x32, 0x33, 0x34, 0x35, 0x36, 0x37, 0x38, 0x39];
    OneByte(0xFFFF_FFFF, bs, 0, 0x7C23_1048);
    OneByte(0x7C23_1048, bs, 1, 0xB0AC_BB32);
    OneByte(0xB0AC_BB32, bs, 2, 0x77B7_9C2D);
    OneByte(0x77B7_9C2D, bs, 3, 0x641C_1F5C);
    OneByte(0x641C_1F5C, bs, 4, 0x340A_C5E3);
    OneByte(0x340A_C5E3, bs, 5, 0xF68D_2C9E);
    OneByte(0xF68D_2C9E, bs, 6, 0xAFFC_9660);
    OneByte(0xAFFC_9660, bs, 7, 0x651F_2550);
    OneByte(0x651F_2550, bs, 8, 0x340B_C6D9);
    assert bs[0..] == bs && bs[9..] == [];
    EmptyRegister(0x340B_C6D9);
  }
}
