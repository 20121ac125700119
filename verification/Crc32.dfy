/** The bitwise reflected CRC-32 loop.

    Register bit `j` holds the coefficient of `x` to the `31 - j`: the register is read
    backwards, as are the bits of every byte. */
module Crc32 {
  import opened Gf2Polynomial

  const REFLECTED: bv32 := 0xEDB8_8320
  const ONES: bv32 := 0xFFFF_FFFF

  /** x^32 + x^26 + x^23 + x^22 + x^16 + x^12 + x^11 + x^10 + x^8 + x^7 + x^5 + x^4 + x^2 + x + 1 */
  const GENERATOR: Poly := {0, 1, 2, 4, 5, 7, 8, 10, 11, 12, 16, 22, 23, 26, 32}

  // ----- the loop, as functions

  // The operators on registers have names, so that proofs can hide the bit vectors.

  function Xor(a: bv32, b: bv32): bv32 {
    a ^ b
  }

  function Half(a: bv32): bv32 {
    a >> 1
  }

  predicate IsOdd(a: bv32) {
    a & 1 == 1
  }

  function BitStep(crc: bv32): bv32 {
    if IsOdd(crc) then Xor(Half(crc), REFLECTED) else Half(crc)
  }

  function BitSteps(crc: bv32, n: nat): bv32 {
    if n == 0 then crc else BitStep(BitSteps(crc, n - 1))
  }

  function ByteStep(crc: bv32, byte: bv8): bv32 {
    BitSteps(Xor(crc, byte as bv32), 8)
  }

  /** The register after the bytes, starting from `crc`. */
  function Register(crc: bv32, data: seq<bv8>): bv32 {
    if data == [] then crc else ByteStep(Register(crc, data[..|data| - 1]), data[|data| - 1])
  }

  function Checksum(data: seq<bv8>): bv32 {
    Xor(Register(ONES, data), ONES)
  }

  // ----- the same register, one message bit at a time

  function BitOf(b: bool): bv32 {
    if b then 1 else 0
  }

  function Feed(crc: bv32, b: bool): bv32 {
    BitStep(Xor(crc, BitOf(b)))
  }

  function FeedAll(crc: bv32, bits: seq<bool>): bv32 {
    if bits == [] then crc else Feed(FeedAll(crc, bits[..|bits| - 1]), bits[|bits| - 1])
  }

  function ShiftDown(x: bv32, n: nat): bv32 {
    if n == 0 then x else Half(ShiftDown(x, n - 1))
  }

  /** The low `n` bits of `x`, the lowest first. */
  function LowBits(x: bv32, n: nat): (bits: seq<bool>)
    ensures |bits| == n
  {
    if n == 0 then [] else LowBits(x, n - 1) + [IsOdd(ShiftDown(x, n - 1))]
  }

  /** The bits of a byte in the order they are sent. */
  function ByteBits(b: bv8): (bits: seq<bool>)
    ensures |bits| == 8
  {
    LowBits(b as bv32, 8)
  }

  function MessageBits(data: seq<bv8>): (bits: seq<bool>)
    ensures |bits| == 8 * |data|
  {
    if data == [] then [] else MessageBits(data[..|data| - 1]) + ByteBits(data[|data| - 1])
  }

  lemma {:induction false} HalfXor(a: bv32, b: bv32)
    ensures Half(Xor(a, b)) == Xor(Half(a), Half(b))
  {
  }

  lemma {:induction false} OddXor(a: bv32, b: bv32)
    ensures IsOdd(Xor(a, b)) <==> IsOdd(a) != IsOdd(b)
  {
    assert a & 1 == 0 || a & 1 == 1;
    assert b & 1 == 0 || b & 1 == 1;
  }

  lemma {:induction false} SingleBit(b: bool)
    ensures Half(BitOf(b)) == 0 && (IsOdd(BitOf(b)) <==> b)
  {
  }

  lemma {:induction false} XorThird(a: bv32, b: bv32, c: bv32)
    ensures Xor(Xor(a, b), c) == Xor(Xor(a, c), b)
  {
    hide Xor;
    XorRegroups(a, b, c);
    XorSwaps(b, c);
    XorRegroups(a, c, b);
  }

  /** Bits that are still to come wait above the lowest one while it is fed. */
  lemma {:induction false} FeedOneOf(c: bv32, x: bv32)
    ensures BitStep(Xor(c, x)) == Xor(Feed(c, IsOdd(x)), Half(x))
  {
    hide Xor, Half, IsOdd, BitOf;
    HalfXor(c, x);
    HalfXor(c, BitOf(IsOdd(x)));
    OddXor(c, x);
    OddXor(c, BitOf(IsOdd(x)));
    SingleBit(IsOdd(x));
    XorZero(Half(c));
    XorThird(Half(c), Half(x), REFLECTED);
  }

  lemma {:induction false} FeedOneByOne(c: bv32, x: bv32, n: nat)
    ensures BitSteps(Xor(c, x), n) == Xor(FeedAll(c, LowBits(x, n)), ShiftDown(x, n))
  {
    hide BitStep, Feed, BitSteps, FeedAll, LowBits, ShiftDown, Xor, Half, IsOdd;
    NothingFed(c, x);
    if n == 0 {
    } else {
      FeedOneByOne(c, x, n - 1);
      FeedOneOf(FeedAll(c, LowBits(x, n - 1)), ShiftDown(x, n - 1));
      FedUnfold(c, x, n);
    }
  }

  lemma {:induction false} NothingFed(c: bv32, x: bv32)
    ensures BitSteps(Xor(c, x), 0) == Xor(FeedAll(c, LowBits(x, 0)), ShiftDown(x, 0))
  {
  }

  lemma {:induction false} FedUnfold(c: bv32, x: bv32, n: nat)
    requires n > 0
    ensures BitSteps(Xor(c, x), n) == BitStep(BitSteps(Xor(c, x), n - 1))
    ensures ShiftDown(x, n) == Half(ShiftDown(x, n - 1))
    ensures FeedAll(c, LowBits(x, n)) == Feed(FeedAll(c, LowBits(x, n - 1)), IsOdd(ShiftDown(x, n - 1)))
  {
    hide BitStep, Feed, Xor, Half, IsOdd;
    assert LowBits(x, n)[..n - 1] == LowBits(x, n - 1);
  }

  lemma {:induction false} ByteShiftsOut(b: bv8)
    ensures ShiftDown(b as bv32, 8) == 0
  {
    var x := b as bv32;
    assert ShiftDown(x, 1) == x >> 1;
    assert ShiftDown(x, 2) == x >> 2 by { ShiftsAdd(x); }
    assert ShiftDown(x, 3) == x >> 3 by { ShiftsAdd(x); }
    assert ShiftDown(x, 4) == x >> 4 by { ShiftsAdd(x); }
    assert ShiftDown(x, 5) == x >> 5 by { ShiftsAdd(x); }
    assert ShiftDown(x, 6) == x >> 6 by { ShiftsAdd(x); }
    assert ShiftDown(x, 7) == x >> 7 by { ShiftsAdd(x); }
    ByteIsSmall(b);
  }

  lemma {:induction false} ShiftsAdd(x: bv32)
    ensures (x >> 1) >> 1 == x >> 2 && (x >> 2) >> 1 == x >> 3 && (x >> 3) >> 1 == x >> 4
    ensures (x >> 4) >> 1 == x >> 5 && (x >> 5) >> 1 == x >> 6 && (x >> 6) >> 1 == x >> 7
  {
  }

  lemma {:induction false} ByteIsSmall(b: bv8)
    ensures ((b as bv32) >> 7) >> 1 == 0
  {
  }

  lemma {:induction false} XorZero(a: bv32)
    ensures Xor(a, 0) == a
  {
  }

  /** Eight bit steps after the byte has been added feed its eight bits. */
  lemma {:induction false} ByteIsBits(c: bv32, b: bv8)
    ensures ByteStep(c, b) == FeedAll(c, ByteBits(b))
  {
    hide BitSteps, FeedAll, LowBits, ShiftDown, Xor;
    FeedOneByOne(c, b as bv32, 8);
    ByteShiftsOut(b);
    XorZero(FeedAll(c, ByteBits(b)));
  }

  lemma {:induction false} FeedAllSplit(c: bv32, a: seq<bool>, b: seq<bool>)
    ensures FeedAll(c, a + b) == FeedAll(FeedAll(c, a), b)
    decreases |b|
  {
    if b == [] {
      assert a + b == a;
    } else {
      var k := |b| - 1;
      FeedAllSplit(c, a, b[..k]);
      assert (a + b)[..|a| + k] == a + b[..k];
    }
  }

  /** The byte loop feeds the bits of the message. */
  lemma {:induction false} RegisterIsFed(c: bv32, data: seq<bv8>)
    ensures Register(c, data) == FeedAll(c, MessageBits(data))
  {
    hide ByteStep, ByteBits;
    if data == [] {
    } else {
      var k := |data| - 1;
      RegisterIsFed(c, data[..k]);
      ByteIsBits(Register(c, data[..k]), data[k]);
      FeedAllSplit(c, MessageBits(data[..k]), ByteBits(data[k]));
    }
  }

  // ----- registers as polynomials

  function Mask(j: nat): bv32 {
    if j == 0 then 1 else Mask(j - 1) << 1
  }

  predicate BitAt(r: bv32, j: nat) {
    r & Mask(j) != 0
  }

  /** The polynomial a register stands for. */
  function PolyOf(r: bv32): Poly {
    set e: nat | e < 32 && HasTerm(r, e)
  }

  predicate HasTerm(r: bv32, e: nat) {
    e < 32 && BitAt(r, 31 - e)
  }

  predicate IsSingle(m: bv32) {
    m != 0 && m & (m - 1) == 0
  }

  lemma {:induction false} MaskZero(j: nat, k: nat)
    requires j <= k && Mask(j) == 0
    ensures Mask(k) == 0
    decreases k - j
  {
    if j == k {
    } else {
      assert Mask(j + 1) == Mask(j) << 1;
      MaskZero(j + 1, k);
    }
  }

  lemma {:induction false} MaskTop()
    ensures Mask(31) == 0x8000_0000
  {
    assert Mask(3) == 0x8;
    assert Mask(6) == 0x40;
    assert Mask(9) == 0x200;
    assert Mask(12) == 0x1000;
    assert Mask(15) == 0x8000;
    assert Mask(18) == 0x4_0000;
    assert Mask(21) == 0x20_0000;
    assert Mask(24) == 0x100_0000;
    assert Mask(27) == 0x800_0000;
    assert Mask(30) == 0x4000_0000;
  }

  lemma {:induction false} SingleShift(m: bv32)
    requires IsSingle(m) && m & 0x8000_0000 == 0
    ensures IsSingle(m << 1)
  {
  }

  lemma {:induction false} SingleTop(m: bv32)
    requires IsSingle(m) && m & 0x8000_0000 != 0
    ensures m << 1 == 0
  {
  }

  lemma {:induction false} MaskSingle(j: nat)
    requires j < 32
    ensures IsSingle(Mask(j))
    ensures j < 31 ==> Mask(j) & 0x8000_0000 == 0
  {
    hide IsSingle;
    MaskTop();
    if j == 0 {
      assert IsSingle(1) by { OneIsSingle(); }
    } else {
      MaskSingle(j - 1);
      SingleShift(Mask(j - 1));
    }
    if j < 31 && Mask(j) & 0x8000_0000 != 0 {
      SingleTop(Mask(j));
      assert Mask(j + 1) == Mask(j) << 1;
      MaskZero(j + 1, 31);
      assert false;
    }
  }

  lemma {:induction false} OneIsSingle()
    ensures IsSingle(1)
  {
  }

  lemma {:induction false} RawXorMasked(a: bv32, b: bv32, m: bv32)
    requires m & (m - 1) == 0
    ensures (a ^ b) & m != 0 <==> ((a & m != 0) != (b & m != 0))
  {
  }

  lemma {:induction false} XorMasked(a: bv32, b: bv32, m: bv32)
    requires IsSingle(m)
    ensures Xor(a, b) & m != 0 <==> ((a & m != 0) != (b & m != 0))
  {
    RawXorMasked(a, b, m);
  }

  lemma {:induction false} ShiftMasked(a: bv32, m: bv32)
    requires m & 0x8000_0000 == 0
    ensures Half(a) & m != 0 <==> a & (m << 1) != 0
  {
  }

  lemma {:induction false} TopShiftedIn(a: bv32)
    ensures Half(a) & 0x8000_0000 == 0
  {
  }

  lemma {:induction false} MaskNext(j: nat)
    ensures Mask(j + 1) == Mask(j) << 1
  {
  }

  lemma {:induction false} XorBit(a: bv32, b: bv32, j: nat)
    requires j < 32
    ensures BitAt(Xor(a, b), j) == (BitAt(a, j) != BitAt(b, j))
  {
    hide Mask, Xor;
    MaskSingle(j);
    XorMasked(a, b, Mask(j));
  }

  lemma {:induction false} ShiftBit(a: bv32, j: nat)
    requires j < 32
    ensures BitAt(Half(a), j) == (j < 31 && BitAt(a, j + 1))
  {
    hide Mask, Half;
    MaskSingle(j);
    if j < 31 {
      ShiftMasked(a, Mask(j));
      MaskNext(j);
    } else {
      MaskTop();
      TopShiftedIn(a);
    }
  }

  lemma {:induction false} LowBitOne(b: bool, j: nat)
    requires j < 32
    ensures BitAt(BitOf(b), j) == (b && j == 0)
  {
    assert Mask(0) == 1;
    if j > 0 {
      assert Mask(j) == Mask(j - 1) << 1;
      EvenMask(Mask(j - 1));
    }
  }

  lemma {:induction false} EvenMask(m: bv32)
    ensures 1 & (m << 1) == 0 && 0 & (m << 1) == 0
  {
  }

  /** Which register bits the reflected polynomial has. */
  lemma {:induction false} ReflectedBits(j: nat)
    requires j < 32
    ensures BitAt(REFLECTED, j) <==> 31 - j in GENERATOR
  {
    MaskValues();
  }

  lemma {:induction false} MaskValues()
    ensures Mask(0) == 0x1 && Mask(1) == 0x2 && Mask(2) == 0x4 && Mask(3) == 0x8
    ensures Mask(4) == 0x10 && Mask(5) == 0x20 && Mask(6) == 0x40 && Mask(7) == 0x80
    ensures Mask(8) == 0x100 && Mask(9) == 0x200 && Mask(10) == 0x400 && Mask(11) == 0x800
    ensures Mask(12) == 0x1000 && Mask(13) == 0x2000 && Mask(14) == 0x4000 && Mask(15) == 0x8000
    ensures Mask(16) == 0x1_0000 && Mask(17) == 0x2_0000 && Mask(18) == 0x4_0000 && Mask(19) == 0x8_0000
    ensures Mask(20) == 0x10_0000 && Mask(21) == 0x20_0000 && Mask(22) == 0x40_0000 && Mask(23) == 0x80_0000
    ensures Mask(24) == 0x100_0000 && Mask(25) == 0x200_0000 && Mask(26) == 0x400_0000 && Mask(27) == 0x800_0000
    ensures Mask(28) == 0x1000_0000 && Mask(29) == 0x2000_0000 && Mask(30) == 0x4000_0000 && Mask(31) == 0x8000_0000
  {
  }

  /** Feeding a bit: the register moves up by one power, the bit comes in at power 32, and
      the generator is taken away when that power is there. */
  lemma {:induction false} FeedDivides(c: bv32, b: bool)
    ensures PolyOf(Feed(c, b)) == Reduce(Bring(PolyOf(c), 32, b), GENERATOR, 32)
  {
    hide BitAt, Shift, Feed;
    var r := Reduce(Bring(PolyOf(c), 32, b), GENERATOR, 32);
    TopTerm(c, b);
    forall e: nat
      ensures e in PolyOf(Feed(c, b)) <==> e in r
    {
      InShift(PolyOf(c), 1, e);
      if e < 32 {
        FeedBit(c, b, 31 - e);
      }
    }
  }

  /** The term at power 32 before the reduction: the register's low bit and the new bit differ. */
  lemma {:induction false} TopTerm(c: bv32, b: bool)
    ensures 32 in Bring(PolyOf(c), 32, b) <==> BitAt(c, 0) != b
  {
    hide BitAt, Shift;
    InShift(PolyOf(c), 1, 32);
  }

  lemma {:induction false} FeedBit(c: bv32, b: bool, j: nat)
    requires j < 32
    ensures BitAt(Feed(c, b), j) <==> (j < 31 && BitAt(c, j + 1)) != (BitAt(c, 0) != b && 31 - j in GENERATOR)
  {
    hide BitAt, BitOf, Xor, Half, IsOdd;
    var x := Xor(c, BitOf(b));
    LowBitIs(x);
    XorBit(c, BitOf(b), 0);
    LowBitOne(b, 0);
    ShiftBit(x, j);
    XorBit(Half(x), REFLECTED, j);
    ReflectedBits(j);
    if j < 31 {
      XorBit(c, BitOf(b), j + 1);
      LowBitOne(b, j + 1);
    }
  }

  lemma {:induction false} LowBitIs(x: bv32)
    ensures IsOdd(x) <==> BitAt(x, 0)
  {
    assert x & 1 == 0 || x & 1 == 1;
  }

  // ----- the checksum as a remainder

  /** The message as a polynomial, its first bit the highest power. */
  function MessagePoly(bits: seq<bool>): Poly {
    if bits == [] then {}
    else
      var rest := Shift(MessagePoly(bits[..|bits| - 1]), 1);
      if bits[|bits| - 1] then Plus(rest, {0}) else rest
  }

  /** x^31 + ... + 1 */
  function AllOnes(): Poly {
    {0, 1, 2, 3, 4, 5, 6, 7, 8, 9, 10, 11, 12, 13, 14, 15,
     16, 17, 18, 19, 20, 21, 22, 23, 24, 25, 26, 27, 28, 29, 30, 31}
  }

  /** The polynomial that section 8.1.1.6.2 of ITU-T V.42 divides: the content times x^32,
      plus x^31 + ... + 1 times x^k, with k the number of bits of the content. */
  function Dividend(bits: seq<bool>): Poly {
    Plus(Shift(MessagePoly(bits), 32), Shift(AllOnes(), |bits|))
  }

  lemma {:induction false} DividendGrows(bits: seq<bool>, b: bool)
    ensures Dividend(bits + [b]) == Bring(Dividend(bits), 32, b)
  {
    hide Shift, AllOnes;
    var all := bits + [b];
    assert all[..|bits|] == bits;
    forall e: nat
      ensures e in Dividend(all) <==> e in Bring(Dividend(bits), 32, b)
    {
      InShift(MessagePoly(all), 32, e);
      InShift(AllOnes(), |all|, e);
      InShift(Dividend(bits), 1, e);
      if e >= 32 {
        InShift(MessagePoly(bits), 1, e - 32);
      }
      if e >= 1 {
        InShift(MessagePoly(bits), 32, e - 1);
        InShift(AllOnes(), |bits|, e - 1);
        assert (e - 1) - 32 == (e - 32) - 1;
        assert e - 1 - |bits| == e - |all|;
      }
    }
  }

  lemma {:induction false} OnesIsAll()
    ensures PolyOf(ONES) == AllOnes()
  {
    forall e: nat | e < 32
      ensures HasTerm(ONES, e)
    {
      MaskSingle(31 - e);
      AndOnes(Mask(31 - e));
    }
  }

  lemma {:induction false} AndOnes(m: bv32)
    ensures 0xFFFF_FFFF & m == m
  {
  }

  lemma {:induction false} FeedAllUnfold(c: bv32, bits: seq<bool>)
    requires bits != []
    ensures FeedAll(c, bits) == Feed(FeedAll(c, bits[..|bits| - 1]), bits[|bits| - 1])
  {
    hide Feed;
  }

  /** The register is the remainder of the processed prefix. */
  lemma {:induction false} FedIsRemainder(bits: seq<bool>)
    ensures IsRemainder(Dividend(bits), GENERATOR, 32, PolyOf(FeedAll(ONES, bits)))
  {
    hide Feed, FeedAll, PolyOf, Dividend, IsRemainder, Reduce, Bring;
    if bits == [] {
      StartsAsRemainder();
    } else {
      var before, b := bits[..|bits| - 1], bits[|bits| - 1];
      FedIsRemainder(before);
      FeedAllUnfold(ONES, bits);
      FeedDivides(FeedAll(ONES, before), b);
      DivisionStep(Dividend(before), GENERATOR, 32, PolyOf(FeedAll(ONES, before)), b);
      DividendGrows(before, b);
      assert before + [b] == bits;
    }
  }

  lemma {:induction false} StartsAsRemainder()
    ensures IsRemainder(Dividend([]), GENERATOR, 32, PolyOf(FeedAll(ONES, [])))
  {
    hide Shift, AllOnes;
    OnesIsAll();
    TimesZero(GENERATOR);
    forall e: nat
      ensures e in Dividend([]) <==> e in AllOnes()
    {
      InShift(AllOnes(), 0, e);
      InShift({}, 32, e);
    }
    assert Dividend([]) == Plus(Times({}, GENERATOR), AllOnes());
  }

  lemma {:induction false} Complement(r: bv32)
    ensures PolyOf(Xor(r, ONES)) == Plus(AllOnes(), PolyOf(r))
  {
    hide BitAt, Xor;
    OnesIsAll();
    forall e: nat | e < 32
      ensures HasTerm(Xor(r, ONES), e) <==> !HasTerm(r, e)
    {
      XorBit(r, ONES, 31 - e);
      assert e in AllOnes();
      assert HasTerm(ONES, e);
    }
  }

  /** For every byte sequence the checksum is the complement of the remainder that the
      standard asks for, and that remainder is the only one. */
  lemma {:induction false} ChecksumIsComplementedRemainder(data: seq<bv8>)
    ensures exists r ::
      && IsRemainder(Dividend(MessageBits(data)), GENERATOR, 32, r)
      && (forall r' :: IsRemainder(Dividend(MessageBits(data)), GENERATOR, 32, r') ==> r' == r)
      && PolyOf(Checksum(data)) == Plus(AllOnes(), r)
  {
    hide PolyOf, Dividend, IsRemainder, FeedAll, Register;
    var bits := MessageBits(data);
    var r := PolyOf(FeedAll(ONES, bits));
    RegisterIsFed(ONES, data);
    FedIsRemainder(bits);
    Complement(Register(ONES, data));
    forall r' | IsRemainder(Dividend(bits), GENERATOR, 32, r')
      ensures r' == r
    {
      RemainderUnique(Dividend(bits), GENERATOR, 32, r', r);
    }
  }

  /** The value that section 8.1.1.6.2 of ITU-T V.42 asks for. */
  ghost predicate MeetsStandard(data: seq<bv8>, value: bv32) {
    exists r :: IsRemainder(Dividend(MessageBits(data)), GENERATOR, 32, r) && PolyOf(value) == Plus(AllOnes(), r)
  }

  lemma {:induction false} NoBitsIsZero(a: bv32)
    requires forall j :: 0 <= j < 32 ==> !BitAt(a, j)
    ensures a == 0
  {
    hide Mask;
    MaskValues();
    assert !BitAt(a, 0) && !BitAt(a, 1) && !BitAt(a, 2) && !BitAt(a, 3) && !BitAt(a, 4) && !BitAt(a, 5) && !BitAt(a, 6) && !BitAt(a, 7);
    assert !BitAt(a, 8) && !BitAt(a, 9) && !BitAt(a, 10) && !BitAt(a, 11) && !BitAt(a, 12) && !BitAt(a, 13) && !BitAt(a, 14) && !BitAt(a, 15);
    assert !BitAt(a, 16) && !BitAt(a, 17) && !BitAt(a, 18) && !BitAt(a, 19) && !BitAt(a, 20) && !BitAt(a, 21) && !BitAt(a, 22) && !BitAt(a, 23);
    assert !BitAt(a, 24) && !BitAt(a, 25) && !BitAt(a, 26) && !BitAt(a, 27) && !BitAt(a, 28) && !BitAt(a, 29) && !BitAt(a, 30) && !BitAt(a, 31);
    MasksCover(a);
  }

  lemma {:induction false} MasksCover(a: bv32)
    requires a & 0x1 == 0 && a & 0x2 == 0 && a & 0x4 == 0 && a & 0x8 == 0
    requires a & 0x10 == 0 && a & 0x20 == 0 && a & 0x40 == 0 && a & 0x80 == 0
    requires a & 0x100 == 0 && a & 0x200 == 0 && a & 0x400 == 0 && a & 0x800 == 0
    requires a & 0x1000 == 0 && a & 0x2000 == 0 && a & 0x4000 == 0 && a & 0x8000 == 0
    requires a & 0x1_0000 == 0 && a & 0x2_0000 == 0 && a & 0x4_0000 == 0 && a & 0x8_0000 == 0
    requires a & 0x10_0000 == 0 && a & 0x20_0000 == 0 && a & 0x40_0000 == 0 && a & 0x80_0000 == 0
    requires a & 0x100_0000 == 0 && a & 0x200_0000 == 0 && a & 0x400_0000 == 0 && a & 0x800_0000 == 0
    requires a & 0x1000_0000 == 0 && a & 0x2000_0000 == 0 && a & 0x4000_0000 == 0 && a & 0x8000_0000 == 0
    ensures a == 0
  {
  }

  /** A register is known by its polynomial. */
  lemma {:induction false} PolyInjective(a: bv32, b: bv32)
    requires PolyOf(a) == PolyOf(b)
    ensures a == b
  {
    hide BitAt, Xor;
    forall j | 0 <= j < 32
      ensures !BitAt(Xor(a, b), j)
    {
      XorBit(a, b, j);
      assert 31 - j in PolyOf(a) <==> HasTerm(a, 31 - j);
      assert 31 - j in PolyOf(b) <==> HasTerm(b, 31 - j);
    }
    NoBitsIsZero(Xor(a, b));
    XorNone(a, b);
  }

  lemma {:induction false} XorNone(a: bv32, b: bv32)
    requires Xor(a, b) == 0
    ensures a == b
  {
  }

  /** The checksum is the only value that meets the standard. */
  lemma {:induction false} OnlyTheChecksum(data: seq<bv8>, value: bv32)
    ensures MeetsStandard(data, value) <==> value == Checksum(data)
  {
    hide PolyOf, Dividend, IsRemainder, Checksum;
    ChecksumIsComplementedRemainder(data);
    if MeetsStandard(data, value) {
      PolyInjective(value, Checksum(data));
    }
  }

  // ----- short bursts

  /** A bit step can be undone: the top bit of the result tells the low bit that was lost. */
  lemma {:induction false} StepInjective(a: bv32, b: bv32)
    requires BitStep(a) == BitStep(b)
    ensures a == b
  {
    StepTop(a);
    StepTop(b);
    HalfInjective(a, b);
    XorCancels(Half(a), Half(b), REFLECTED);
  }

  lemma {:induction false} StepTop(a: bv32)
    ensures BitStep(a) & 0x8000_0000 != 0 <==> IsOdd(a)
  {
  }

  lemma {:induction false} HalfInjective(a: bv32, b: bv32)
    requires IsOdd(a) == IsOdd(b)
    ensures Half(a) == Half(b) ==> a == b
  {
  }

  lemma {:induction false} XorCancels(a: bv32, b: bv32, c: bv32)
    ensures Xor(a, c) == Xor(b, c) ==> a == b
  {
  }

  /** A bit step is linear. */
  lemma {:induction false} StepLinear(a: bv32, b: bv32)
    ensures BitStep(Xor(a, b)) == Xor(BitStep(a), BitStep(b))
  {
    assert a & 1 == 0 || a & 1 == 1;
    assert b & 1 == 0 || b & 1 == 1;
  }

  lemma {:induction false} SameTail(c: bv32, d: bv32, bits: seq<bool>)
    requires FeedAll(c, bits) == FeedAll(d, bits)
    ensures c == d
  {
    hide BitStep, Xor;
    if bits == [] {
    } else {
      var k := |bits| - 1;
      var x, y := FeedAll(c, bits[..k]), FeedAll(d, bits[..k]);
      StepInjective(Xor(x, BitOf(bits[k])), Xor(y, BitOf(bits[k])));
      XorCancels(x, y, BitOf(bits[k]));
      SameTail(c, d, bits[..k]);
    }
  }

  /** The smallest register whose highest bit is `31 - n` or above. */
  function Floor(n: nat): bv32 {
    if n == 0 then 0x8000_0000 else Half(Floor(n - 1))
  }

  predicate AtLeast(a: bv32, floor: bv32) {
    a >= floor
  }

  lemma {:induction false} FloorValues(n: nat)
    requires n < 32
    ensures Floor(n) != 0
    ensures n < 31 ==> !IsOdd(Floor(n))
  {
    FloorTable();
  }

  lemma {:induction false} FloorTable()
    ensures Floor(0) == 0x8000_0000 && Floor(1) == 0x4000_0000 && Floor(2) == 0x2000_0000 && Floor(3) == 0x1000_0000
    ensures Floor(4) == 0x800_0000 && Floor(5) == 0x400_0000 && Floor(6) == 0x200_0000 && Floor(7) == 0x100_0000
    ensures Floor(8) == 0x80_0000 && Floor(9) == 0x40_0000 && Floor(10) == 0x20_0000 && Floor(11) == 0x10_0000
    ensures Floor(12) == 0x8_0000 && Floor(13) == 0x4_0000 && Floor(14) == 0x2_0000 && Floor(15) == 0x1_0000
    ensures Floor(16) == 0x8000 && Floor(17) == 0x4000 && Floor(18) == 0x2000 && Floor(19) == 0x1000
    ensures Floor(20) == 0x800 && Floor(21) == 0x400 && Floor(22) == 0x200 && Floor(23) == 0x100
    ensures Floor(24) == 0x80 && Floor(25) == 0x40 && Floor(26) == 0x20 && Floor(27) == 0x10
    ensures Floor(28) == 0x8 && Floor(29) == 0x4 && Floor(30) == 0x2 && Floor(31) == 0x1
  {
  }

  /** A difference sinks by at most one bit in a step. */
  lemma {:induction false} DifferenceSinks(d: bv32, b: bool, floor: bv32)
    requires AtLeast(d, floor) && !IsOdd(floor)
    ensures AtLeast(BitStep(Xor(d, BitOf(b))), Half(floor))
  {
    hide BitStep;
    LowBitKeepsFloor(d, floor);
    StepSinks(Xor(d, BitOf(b)), floor);
  }

  lemma {:induction false} LowBitKeepsFloor(d: bv32, floor: bv32)
    requires d >= floor && floor & 1 != 1
    ensures d ^ 0 >= floor && d ^ 1 >= floor
  {
  }

  lemma {:induction false} StepSinks(x: bv32, floor: bv32)
    requires AtLeast(x, floor)
    ensures AtLeast(BitStep(x), Half(floor))
  {
  }

  /** What one message bit does to the difference of two registers. */
  lemma {:induction false} FeedDifference(x: bv32, y: bv32, b: bool, d: bool)
    ensures Xor(Feed(x, b), Feed(y, d)) == BitStep(Xor(Xor(x, y), BitOf(b != d)))
  {
    hide BitStep, Xor;
    StepLinear(Xor(x, BitOf(b)), Xor(y, BitOf(d)));
    XorShuffle(x, y, b, d);
  }

  lemma {:induction false} XorShuffle(x: bv32, y: bv32, b: bool, d: bool)
    ensures Xor(Xor(x, BitOf(b)), Xor(y, BitOf(d))) == Xor(Xor(x, y), BitOf(b != d))
  {
    hide Xor;
    XorPairs(x, BitOf(b), y, BitOf(d));
    XorBits();
  }

  lemma {:induction false} XorPairs(x: bv32, p: bv32, y: bv32, q: bv32)
    ensures Xor(Xor(x, p), Xor(y, q)) == Xor(Xor(x, y), Xor(p, q))
  {
    hide Xor;
    XorRegroups(x, p, Xor(y, q));
    XorRegroups(p, y, q);
    XorSwaps(p, y);
    XorRegroups(y, p, q);
    XorRegroups(x, y, Xor(p, q));
  }

  lemma {:induction false} XorRegroups(a: bv32, b: bv32, c: bv32)
    ensures Xor(Xor(a, b), c) == Xor(a, Xor(b, c))
  {
  }

  lemma {:induction false} XorSwaps(a: bv32, b: bv32)
    ensures Xor(a, b) == Xor(b, a)
  {
  }

  lemma {:induction false} XorBits()
    ensures Xor(0, 0) == 0 && Xor(0, 1) == 1 && Xor(1, 0) == 1 && Xor(1, 1) == 0
  {
  }

  /** Two registers that were equal part by as much as they can. */
  lemma {:induction false} EqualPart(a: bv32, n: nat)
    ensures AtLeast(BitStep(Xor(Xor(a, a), BitOf(true))), Floor(n))
  {
    FloorBelow(n);
    XorSelf(a);
    assert BitStep(1) == REFLECTED;
  }

  lemma {:induction false} XorSelf(a: bv32)
    ensures Xor(a, a) == 0 && Xor(0, 1) == 1
  {
  }

  lemma {:induction false} FeedUnfold(c: bv32, u: seq<bool>, k: nat)
    requires k + 1 == |u|
    ensures FeedAll(c, u) == Feed(FeedAll(c, u[..k]), u[k])
  {
  }

  /** After different strings of equal length the registers differ in a bit that is at most
      as far down as the strings are long. */
  lemma {:induction false} DifferenceStays(c: bv32, u: seq<bool>, v: seq<bool>)
    requires |u| == |v| <= 32 && u != v
    ensures u != [] && AtLeast(Xor(FeedAll(c, u), FeedAll(c, v)), Floor(|u| - 1))
  {
    hide Xor, BitStep, Feed, FeedAll, Floor, BitOf, IsOdd, Half, AtLeast;
    var k := |u| - 1;
    var x, y := FeedAll(c, u[..k]), FeedAll(c, v[..k]);
    FeedDifference(x, y, u[k], v[k]);
    FeedUnfold(c, u, k);
    FeedUnfold(c, v, k);
    if u[..k] == v[..k] {
      assert u[..k] + [u[k]] == u && v[..k] + [v[k]] == v;
      EqualPart(x, k);
    } else {
      DifferenceStays(c, u[..k], v[..k]);
      FloorValues(k - 1);
      DifferenceSinks(Xor(x, y), u[k] != v[k], Floor(k - 1));
      FloorNext(k);
    }
  }

  lemma {:induction false} FloorNext(n: nat)
    requires n > 0
    ensures Floor(n) == Half(Floor(n - 1))
  {
  }

  lemma {:induction false} FloorBelow(n: nat)
    ensures Floor(n) <= 0x8000_0000
  {
    if n == 0 {
    } else {
      FloorBelow(n - 1);
    }
  }

  lemma {:induction false} NothingBelow(floor: bv32)
    ensures AtLeast(0, floor) ==> floor == 0
  {
  }

  /** No burst of up to 32 bits goes unnoticed, wherever it lies in the message. */
  lemma {:induction false} BurstDetected(c: bv32, before: seq<bool>, u: seq<bool>, v: seq<bool>, after: seq<bool>)
    requires |u| == |v| <= 32 && u != v
    ensures FeedAll(c, before + u + after) != FeedAll(c, before + v + after)
  {
    hide Xor, Floor, FeedAll, AtLeast;
    var start := FeedAll(c, before);
    FeedAllSplit(c, before + u, after);
    FeedAllSplit(c, before + v, after);
    FeedAllSplit(c, before, u);
    FeedAllSplit(c, before, v);
    DifferenceStays(start, u, v);
    FloorValues(|u| - 1);
    XorSelf(FeedAll(start, u));
    NothingBelow(Floor(|u| - 1));
    if FeedAll(c, before + u + after) == FeedAll(c, before + v + after) {
      SameTail(FeedAll(start, u), FeedAll(start, v), after);
    }
  }

  lemma {:induction false} MessageBitsSplit(a: seq<bv8>, b: seq<bv8>)
    ensures MessageBits(a + b) == MessageBits(a) + MessageBits(b)
    decreases |b|
  {
    hide ByteBits;
    if b == [] {
      assert a + b == a;
    } else {
      var k := |b| - 1;
      MessageBitsSplit(a, b[..k]);
      assert (a + b)[..|a| + k] == a + b[..k];
    }
  }

  lemma {:induction false} LowBitsAt(x: bv32, n: nat, i: nat)
    requires i < n
    ensures LowBits(x, n)[i] == IsOdd(ShiftDown(x, i))
  {
    hide IsOdd, ShiftDown;
    if i == n - 1 {
    } else {
      LowBitsAt(x, n - 1, i);
    }
  }

  predicate ByteHas(b: bv8, i: nat) {
    IsOdd(ShiftDown(b as bv32, i))
  }

  lemma {:induction false} ByteBitsInjective(a: bv8, b: bv8)
    requires ByteBits(a) == ByteBits(b)
    ensures a == b
  {
    hide LowBits, ShiftDown, IsOdd, ByteHas;
    forall i: nat | i < 8
      ensures ByteHas(a, i) == ByteHas(b, i)
    {
      ByteBitsAt(a, i);
      ByteBitsAt(b, i);
    }
    ByteShifts(a);
    ByteShifts(b);
    EqualBits(a, b);
  }

  lemma {:induction false} ByteBitsAt(b: bv8, i: nat)
    requires i < 8
    ensures ByteBits(b)[i] == ByteHas(b, i)
  {
    hide LowBits, ShiftDown, IsOdd;
    LowBitsAt(b as bv32, 8, i);
  }

  predicate Masked(b: bv8, m: bv8) {
    b & m != 0
  }

  lemma {:induction false} EqualBits(a: bv8, b: bv8)
    requires Masked(a, 0x01) == Masked(b, 0x01) && Masked(a, 0x02) == Masked(b, 0x02)
    requires Masked(a, 0x04) == Masked(b, 0x04) && Masked(a, 0x08) == Masked(b, 0x08)
    requires Masked(a, 0x10) == Masked(b, 0x10) && Masked(a, 0x20) == Masked(b, 0x20)
    requires Masked(a, 0x40) == Masked(b, 0x40) && Masked(a, 0x80) == Masked(b, 0x80)
    ensures a == b
  {
  }

  lemma {:induction false} ByteShifts(b: bv8)
    ensures ByteHas(b, 0) == Masked(b, 0x01) && ByteHas(b, 1) == Masked(b, 0x02)
    ensures ByteHas(b, 2) == Masked(b, 0x04) && ByteHas(b, 3) == Masked(b, 0x08)
    ensures ByteHas(b, 4) == Masked(b, 0x10) && ByteHas(b, 5) == Masked(b, 0x20)
    ensures ByteHas(b, 6) == Masked(b, 0x40) && ByteHas(b, 7) == Masked(b, 0x80)
  {
    hide IsOdd, Half, Masked;
    var x := b as bv32;
    ShiftedThrice(x);
    ShiftedThrice(x >> 3);
    ShiftedThrice(x >> 6);
    ShiftsAdd(x);
    ShiftedBits(b);
  }

  lemma {:induction false} ShiftedThrice(x: bv32)
    ensures Half(x) == x >> 1 && Half(Half(x)) == x >> 2 && Half(Half(Half(x))) == x >> 3
  {
  }

  lemma {:induction false} ShiftedBits(b: bv8)
    ensures IsOdd(b as bv32) == Masked(b, 0x01) && IsOdd((b as bv32) >> 1) == Masked(b, 0x02)
    ensures IsOdd((b as bv32) >> 2) == Masked(b, 0x04) && IsOdd((b as bv32) >> 3) == Masked(b, 0x08)
    ensures IsOdd((b as bv32) >> 4) == Masked(b, 0x10) && IsOdd((b as bv32) >> 5) == Masked(b, 0x20)
    ensures IsOdd((b as bv32) >> 6) == Masked(b, 0x40) && IsOdd((b as bv32) >> 7) == Masked(b, 0x80)
  {
  }

  lemma {:induction false} MessageBitsInjective(a: seq<bv8>, b: seq<bv8>)
    requires |a| == |b| && MessageBits(a) == MessageBits(b)
    ensures a == b
  {
    hide ByteBits;
    if a == [] {
    } else {
      var k := |a| - 1;
      var x, y := MessageBits(a[..k]), MessageBits(b[..k]);
      assert MessageBits(a)[..8 * k] == x && MessageBits(b)[..8 * k] == y;
      assert MessageBits(a)[8 * k..] == ByteBits(a[k]) && MessageBits(b)[8 * k..] == ByteBits(b[k]);
      MessageBitsInjective(a[..k], b[..k]);
      ByteBitsInjective(a[k], b[k]);
      assert a == a[..k] + [a[k]] && b == b[..k] + [b[k]];
    }
  }

  /** Two byte strings of equal length that differ only inside four adjacent bytes never have
      the same checksum. */
  lemma {:induction false} ShortBurstDetected(before: seq<bv8>, u: seq<bv8>, v: seq<bv8>, after: seq<bv8>)
    requires |u| == |v| <= 4 && u != v
    ensures Checksum(before + u + after) != Checksum(before + v + after)
  {
    hide Xor, FeedAll, MessageBits, Register;
    if MessageBits(u) == MessageBits(v) {
      MessageBitsInjective(u, v);
    }
    BitsAround(before, u, after);
    BitsAround(before, v, after);
    BurstDetected(ONES, MessageBits(before), MessageBits(u), MessageBits(v), MessageBits(after));
    XorCancels(Register(ONES, before + u + after), Register(ONES, before + v + after), ONES);
  }

  lemma {:induction false} BitsAround(before: seq<bv8>, u: seq<bv8>, after: seq<bv8>)
    ensures Register(ONES, before + u + after) ==
              FeedAll(ONES, MessageBits(before) + MessageBits(u) + MessageBits(after))
  {
    hide MessageBits, FeedAll, Register;
    RegisterIsFed(ONES, before + u + after);
    MessageBitsSplit(before + u, after);
    MessageBitsSplit(before, u);
  }

  // ----- the tool

  datatype CrcError = TooLong | Diverged
  datatype Outcome<+T> = Success(value: T) | Failure(error: CrcError)

  datatype BitTrace = BitTrace(bit: nat, before: bv32, after: bv32)
  datatype ByteTrace = ByteTrace(index: nat, byte: bv8, after: bv32, bits: seq<BitTrace>)
  datatype CrcTrace = CrcTrace(steps: seq<ByteTrace>, result: bv32)

  /** Each bit step starts where the one before it ended. */
  ghost predicate TrueBits(crc: bv32, byte: bv8, bits: seq<BitTrace>) {
    forall k :: 0 <= k < |bits| ==>
      bits[k] == BitTrace(k, BitSteps(Xor(crc, byte as bv32), k), BitSteps(Xor(crc, byte as bv32), k + 1))
  }

  ghost predicate TrueSteps(data: seq<bv8>, steps: seq<ByteTrace>) {
    && |steps| <= |data|
    && forall k :: 0 <= k < |steps| ==>
         && steps[k].index == k && steps[k].byte == data[k]
         && steps[k].after == Register(ONES, data[..k + 1])
         && |steps[k].bits| == 8 && TrueBits(Register(ONES, data[..k]), data[k], steps[k].bits)
  }

  lemma {:induction false} NextByte(data: seq<bv8>, k: nat)
    requires k < |data|
    ensures Register(ONES, data[..k + 1]) == ByteStep(Register(ONES, data[..k]), data[k])
  {
    assert data[..k + 1][..k] == data[..k];
  }

  /** The tool on the UTF-8 bytes of the text. `expected` is what zlib computes for them; if that
      is what the standard asks for, the two never diverge. */
  method Crc32Utf8(data: seq<bv8>, expected: bv32) returns (outcome: Outcome<CrcTrace>)
    ensures |data| > 64 ==> outcome == Failure(TooLong)
    ensures |data| <= 64 && expected != Checksum(data) ==> outcome == Failure(Diverged)
    ensures |data| <= 64 && expected == Checksum(data) ==>
      outcome.Success? && outcome.value.result == Checksum(data)
      && |outcome.value.steps| == |data| && TrueSteps(data, outcome.value.steps)
    ensures |data| <= 64 && MeetsStandard(data, expected) ==> outcome.Success?
  {
    if |data| > 64 {
      return Failure(TooLong);
    }
    hide Register, TrueSteps, Xor, MeetsStandard;
    OnlyTheChecksum(data, expected);
    var crc, steps := RunBytes(data);
    var result := crc ^ 0xFFFF_FFFF;
    OnesFlip(crc);
    if result != expected {
      return Failure(Diverged);
    }
    return Success(CrcTrace(steps, result));
  }

  lemma {:induction false} OnesFlip(crc: bv32)
    ensures crc ^ 0xFFFF_FFFF == Xor(crc, ONES)
  {
  }

  /** The loops, for any number of bytes. */
  method RunBytes(data: seq<bv8>) returns (crc: bv32, steps: seq<ByteTrace>)
    ensures crc == Register(ONES, data)
    ensures |steps| == |data| && TrueSteps(data, steps)
  {
    hide BitSteps, Xor, Register;
    crc := 0xFFFF_FFFF;
    steps := [];
    NothingRead(data);
    for index := 0 to |data|
      invariant crc == Register(ONES, data[..index])
      invariant |steps| == index && TrueSteps(data, steps)
    {
      NextByte(data, index);
      var bits;
      crc, bits := RunBits(crc, data[index]);
      steps := steps + [ByteTrace(index, data[index], crc, bits)];
    }
    assert data[..|data|] == data;
  }

  lemma {:induction false} NothingRead(data: seq<bv8>)
    ensures Register(ONES, data[..0]) == ONES
  {
  }

  lemma {:induction false} FirstBit(c: bv32)
    ensures BitSteps(c, 0) == c
  {
  }

  lemma {:induction false} NextBit(c: bv32, n: nat)
    ensures BitSteps(c, n + 1) == BitStep(BitSteps(c, n))
  {
    hide BitStep;
  }

  function Masked32(c: bv32): bv32 {
    c & 0xFFFF_FFFF
  }

  lemma {:induction false} MaskKeeps(c: bv32)
    ensures Masked32(c) == c
  {
  }

  method RunBits(start: bv32, byte: bv8) returns (crc: bv32, bits: seq<BitTrace>)
    ensures crc == ByteStep(start, byte)
    ensures |bits| == 8 && TrueBits(start, byte, bits)
  {
    hide BitSteps, Xor, Half, IsOdd, Masked32;
    crc := Xor(start, byte as bv32);
    bits := [];
    ghost var first := crc;
    FirstBit(first);
    for bit := 0 to 8
      invariant crc == BitSteps(first, bit)
      invariant |bits| == bit && TrueBits(start, byte, bits)
    {
      var before := crc;
      NextBit(first, bit);
      if IsOdd(crc) {
        crc := Xor(Half(crc), REFLECTED);
      } else {
        crc := Half(crc);
      }
      MaskKeeps(crc);
      crc := Masked32(crc);
      bits := bits + [BitTrace(bit, before, crc)];
    }
  }
}
