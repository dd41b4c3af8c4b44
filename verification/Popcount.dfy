/** popcount in device-scheduler/grpalloc/scorer/scorer.go, against a count of the bits one by one. */
module Popcount {
  function Bit(b: bv64): nat {
    if b & 1 == 1 then 1 else 0
  }

  /** The number of one bits among the lowest `n`. */
  function Ones(b: bv64, n: nat): nat
    decreases n
  {
    if n == 0 then 0 else Bit(b) + Ones(b >> 1, n - 1)
  }

  lemma AndBits(a: bv64, b: bv64)
    ensures (a & b) >> 1 == (a >> 1) & (b >> 1) && (Bit(a & b) == 1 ==> Bit(a) == 1)
  {
  }

  lemma {:induction false} OnesOfAnd(a: bv64, b: bv64, n: nat)
    ensures Ones(a & b, n) <= Ones(a, n)
    decreases n
  {
    if n > 0 {
      AndBits(a, b);
      OnesOfAnd(a >> 1, b >> 1, n - 1);
    }
  }

  lemma OnesWithin(a: bv64, b: bv64, c: bv64, n: nat)
    requires c == a & b
    ensures Ones(c, n) <= Ones(a, n)
  {
    OnesOfAnd(a, b, n);
  }

  // ---- Single bits ----

  /** Bit `i`, counted from the lowest. */
  function BitAt(b: bv64, i: nat): bool
    decreases i
  {
    if i == 0 then Bit(b) == 1 else BitAt(b >> 1, i - 1)
  }

  lemma AndLow(a: bv64, b: bv64)
    ensures (a & b) >> 1 == (a >> 1) & (b >> 1) && (Bit(a & b) == 1 <==> Bit(a) == 1 && Bit(b) == 1)
  {
  }

  lemma OrLow(a: bv64, b: bv64)
    ensures (a | b) >> 1 == (a >> 1) | (b >> 1) && (Bit(a | b) == 1 <==> Bit(a) == 1 || Bit(b) == 1)
  {
  }

  lemma {:induction false} AndAt(a: bv64, b: bv64, i: nat)
    ensures BitAt(a & b, i) <==> BitAt(a, i) && BitAt(b, i)
    decreases i
  {
    AndLow(a, b);
    if i > 0 {
      AndAt(a >> 1, b >> 1, i - 1);
    }
  }

  lemma {:induction false} OrAt(a: bv64, b: bv64, i: nat)
    ensures BitAt(a | b, i) <==> BitAt(a, i) || BitAt(b, i)
    decreases i
  {
    OrLow(a, b);
    if i > 0 {
      OrAt(a >> 1, b >> 1, i - 1);
    }
  }

  lemma {:induction false} ZeroHasNoBit(i: nat)
    ensures !BitAt(0, i)
    decreases i
  {
    if i > 0 {
      ZeroHasNoBit(i - 1);
    }
  }

  lemma HalfIsLess(b: bv64)
    requires Bit(b) == 0 && b != 0
    ensures b >> 1 != 0 && b >> 1 < b
  {
  }

  lemma {:induction false} NonzeroHasBit(b: bv64) returns (i: nat)
    requires b != 0
    ensures BitAt(b, i)
    decreases b
  {
    i := 0;
    if Bit(b) == 0 {
      HalfIsLess(b);
      i := NonzeroHasBit(b >> 1);
      i := i + 1;
    }
  }

  // ---- Counting within each byte ----

  function Pairs(x: bv64): bv64 {
    (x & 0x5555555555555555) + ((x >> 1) & 0x5555555555555555)
  }

  function Nibbles(x: bv64): bv64 {
    (x & 0x3333333333333333) + ((x >> 2) & 0x3333333333333333)
  }

  function Bytes(x: bv64): bv64 {
    (x + (x >> 4)) & 0x0f0f0f0f0f0f0f0f
  }

  function Low(x: bv64): bv8 {
    (x & 0xff) as bv8
  }

  function Count8(b: bv8): bv8 {
    (b & 1) + ((b >> 1) & 1) + ((b >> 2) & 1) + ((b >> 3) & 1) + ((b >> 4) & 1) + ((b >> 5) & 1) + ((b >> 6) & 1) +
        (b >> 7)
  }

  lemma LowLane(x: bv64)
    ensures Low(Bytes(Nibbles(Pairs(x)))) == Count8(Low(x))
  {
  }

  lemma PairsShift(x: bv64)
    ensures Pairs(x) >> 8 == Pairs(x >> 8)
  {
  }

  lemma NibblesShift(x: bv64)
    ensures Nibbles(x) >> 8 == Nibbles(x >> 8)
  {
  }

  lemma NibblesSmall(x: bv64)
    ensures Nibbles(Pairs(x)) & 0x8888888888888888 == 0
  {
  }

  lemma BytesShift(x: bv64)
    requires x & 0x8888888888888888 == 0
    ensures Bytes(x) >> 8 == Bytes(x >> 8)
  {
  }

  lemma TwoStages(x: bv64)
    ensures Nibbles(Pairs(x)) >> 8 == Nibbles(Pairs(x >> 8))
  {
    PairsShift(x);
    NibblesShift(Pairs(x));
  }

  /** Nothing carries from one byte into the next. */
  lemma NextLane(x: bv64)
    ensures Bytes(Nibbles(Pairs(x))) >> 8 == Bytes(Nibbles(Pairs(x >> 8)))
  {
    NibblesSmall(x);
    TwoStages(x);
    BytesShift(Nibbles(Pairs(x)));
  }

  function Bit8(b: bv8): nat {
    if b & 1 == 1 then 1 else 0
  }

  lemma Count8IsBits(b: bv8)
    ensures Count8(b) <= 8
    ensures Count8(b) as int
         == Bit8(b) + Bit8(b >> 1) + Bit8(b >> 2) + Bit8(b >> 3) + Bit8(b >> 4) + Bit8(b >> 5) + Bit8(b >> 6) +
             Bit8(b >> 7)
  {
  }

  lemma LowBits(x: bv64)
    ensures Count8(Low(x)) as int
         == Bit(x) + Bit(x >> 1) + Bit(x >> 2) + Bit(x >> 3) + Bit(x >> 4) + Bit(x >> 5) + Bit(x >> 6) + Bit(x >> 7)
  {
    Count8IsBits(Low(x));
  }

  lemma FourOnes(x: bv64, n: nat)
    requires n >= 4
    ensures Ones(x, n) == Bit(x) + Bit(x >> 1) + Bit(x >> 2) + Bit(x >> 3) + Ones(x >> 4, n - 4)
  {
    assert (x >> 1) >> 1 == x >> 2 && (x >> 2) >> 1 == x >> 3 && (x >> 3) >> 1 == x >> 4;
    assert Ones(x, n) == Bit(x) + Ones(x >> 1, n - 1);
    assert Ones(x >> 1, n - 1) == Bit(x >> 1) + Ones(x >> 2, n - 2);
    assert Ones(x >> 2, n - 2) == Bit(x >> 2) + Ones(x >> 3, n - 3);
  }

  lemma FourMore(x: bv64, n: nat)
    requires n >= 4
    ensures Ones(x >> 4, n) == Bit(x >> 4) + Bit(x >> 5) + Bit(x >> 6) + Bit(x >> 7) + Ones(x >> 8, n - 4)
  {
    assert (x >> 4) >> 1 == x >> 5 && (x >> 5) >> 1 == x >> 6 && (x >> 6) >> 1 == x >> 7 && (x >> 7) >> 1 == x >> 8;
    assert Ones(x >> 4, n) == Bit(x >> 4) + Ones(x >> 5, n - 1);
    assert Ones(x >> 5, n - 1) == Bit(x >> 5) + Ones(x >> 6, n - 2);
    assert Ones(x >> 6, n - 2) == Bit(x >> 6) + Ones(x >> 7, n - 3);
  }

  lemma ByteOnes(x: bv64, n: nat)
    requires n >= 8
    ensures Ones(x, n) == Count8(Low(x)) as int + Ones(x >> 8, n - 8)
  {
    FourOnes(x, n);
    FourMore(x, n - 4);
    LowBits(x);
  }

  /** The sum of the lowest `n` bytes. */
  function ByteSum(y: bv64, n: nat): nat
    decreases n
  {
    if n == 0 then 0 else Low(y) as int + ByteSum(y >> 8, n - 1)
  }

  lemma {:induction false} LanesCountOnes(x: bv64, n: nat)
    ensures ByteSum(Bytes(Nibbles(Pairs(x))), n) == Ones(x, 8 * n)
    decreases n
  {
    if n > 0 {
      LowLane(x);
      NextLane(x);
      ByteOnes(x, 8 * n);
      LanesCountOnes(x >> 8, n - 1);
    }
  }

  ghost predicate SmallBytes(y: bv64, n: nat)
    decreases n
  {
    n == 0 || (Low(y) <= 8 && SmallBytes(y >> 8, n - 1))
  }

  lemma {:induction false} LanesSmall(x: bv64, n: nat)
    ensures SmallBytes(Bytes(Nibbles(Pairs(x))), n)
    decreases n
  {
    if n > 0 {
      LowLane(x);
      NextLane(x);
      Count8IsBits(Low(x));
      LanesSmall(x >> 8, n - 1);
    }
  }

  // ---- Adding the bytes up ----

  function By2(y: bv64): bv64 {
    y * 0x101
  }

  function By4(z: bv64): bv64 {
    z * 0x10001
  }

  function By8(w: bv64): bv64 {
    w * 0x100000001
  }

  function TimesH01(y: bv64): bv64 {
    y * 0x0101010101010101
  }

  lemma By2Then4(y: bv64)
    ensures By4(y * 0x101) == y * 0x1010101
  {
  }

  lemma By4Then8(y: bv64)
    ensures By8(y * 0x1010101) == TimesH01(y)
  {
  }

  /** Multiplying by h01 adds every byte into the top one, in three steps. */
  lemma ThreeSteps(y: bv64)
    ensures TimesH01(y) == By8(By4(By2(y)))
  {
    assert By2(y) == y * 0x101;
    By2Then4(y);
    By4Then8(y);
  }

  /** Within a byte that cannot overflow, adding is adding. */
  lemma AddSmall(a: bv8, b: bv8, r: bv8, m: bv8)
    requires a <= m && b <= m && m <= 32 && r == a + b
    ensures r <= m + m && r as int == a as int + b as int
  {
  }

  /** The bytes of `z` at odd positions are those of `y` added in pairs. */
  lemma TopOfTwo(y: bv64, z: bv64)
    requires y & 0xf0f0f0f0f0f0f0f0 == 0 && z == By2(y)
    ensures z & 0xe0e0e0e0e0e0e0e0 == 0
    ensures Low(z >> 8) == Low(y) + Low(y >> 8) && Low(z >> 24) == Low(y >> 16) + Low(y >> 24)
    ensures Low(z >> 40) == Low(y >> 32) + Low(y >> 40) && Low(z >> 56) == Low(y >> 48) + Low(y >> 56)
  {
  }

  lemma TopOfFour(z: bv64, w: bv64)
    requires z & 0xe0e0e0e0e0e0e0e0 == 0 && w == By4(z)
    ensures w & 0xc0c0c0c0c0c0c0c0 == 0
    ensures Low(w >> 24) == Low(z >> 8) + Low(z >> 24) && Low(w >> 56) == Low(z >> 40) + Low(z >> 56)
  {
  }

  lemma TopOfEight(w: bv64, t: bv64)
    requires w & 0xc0c0c0c0c0c0c0c0 == 0 && t == By8(w)
    ensures Low(t >> 56) == Low(w >> 24) + Low(w >> 56)
  {
  }

  lemma SmallBytesAre(y: bv64)
    requires SmallBytes(y, 8)
    ensures Low(y) <= 8 && Low(y >> 8) <= 8 && Low(y >> 16) <= 8 && Low(y >> 24) <= 8
    ensures Low(y >> 32) <= 8 && Low(y >> 40) <= 8 && Low(y >> 48) <= 8 && Low(y >> 56) <= 8
  {
    assert (y >> 8) >> 8 == y >> 16 && (y >> 16) >> 8 == y >> 24 && (y >> 24) >> 8 == y >> 32;
    assert (y >> 32) >> 8 == y >> 40 && (y >> 40) >> 8 == y >> 48 && (y >> 48) >> 8 == y >> 56;
    assert SmallBytes(y >> 8, 7) && SmallBytes(y >> 16, 6) && SmallBytes(y >> 24, 5);
    assert SmallBytes(y >> 32, 4) && SmallBytes(y >> 40, 3) && SmallBytes(y >> 48, 2) && SmallBytes(y >> 56, 1);
  }

  lemma ByteSumIs(y: bv64)
    ensures ByteSum(y, 8) == Low(y) as int + Low(y >> 8) as int + Low(y >> 16) as int + Low(y >> 24) as int
                           + Low(y >> 32) as int + Low(y >> 40) as int + Low(y >> 48) as int + Low(y >> 56) as int
  {
    assert (y >> 8) >> 8 == y >> 16 && (y >> 16) >> 8 == y >> 24 && (y >> 24) >> 8 == y >> 32;
    assert (y >> 32) >> 8 == y >> 40 && (y >> 40) >> 8 == y >> 48 && (y >> 48) >> 8 == y >> 56;
    assert ByteSum(y, 8) == Low(y) as int + ByteSum(y >> 8, 7);
    assert ByteSum(y >> 8, 7) == Low(y >> 8) as int + ByteSum(y >> 16, 6);
    assert ByteSum(y >> 16, 6) == Low(y >> 16) as int + ByteSum(y >> 24, 5);
    assert ByteSum(y >> 24, 5) == Low(y >> 24) as int + ByteSum(y >> 32, 4);
    assert ByteSum(y >> 32, 4) == Low(y >> 32) as int + ByteSum(y >> 40, 3);
    assert ByteSum(y >> 40, 3) == Low(y >> 40) as int + ByteSum(y >> 48, 2);
  }

  lemma PairsOfSmallBytes(y: bv64, z: bv64)
    requires y & 0xf0f0f0f0f0f0f0f0 == 0 && z == By2(y)
    requires Low(y) <= 8 && Low(y >> 8) <= 8 && Low(y >> 16) <= 8 && Low(y >> 24) <= 8
    requires Low(y >> 32) <= 8 && Low(y >> 40) <= 8 && Low(y >> 48) <= 8 && Low(y >> 56) <= 8
    ensures z & 0xe0e0e0e0e0e0e0e0 == 0 && Low(z >> 8) <= 16 && Low(z >> 24) <= 16 && Low(z >> 40) <= 16 &&
            Low(z >> 56) <= 16
    ensures Low(z >> 8) as int == Low(y) as int + Low(y >> 8) as int
    ensures Low(z >> 24) as int == Low(y >> 16) as int + Low(y >> 24) as int
    ensures Low(z >> 40) as int == Low(y >> 32) as int + Low(y >> 40) as int
    ensures Low(z >> 56) as int == Low(y >> 48) as int + Low(y >> 56) as int
  {
    TopOfTwo(y, z);
    AddSmall(Low(y), Low(y >> 8), Low(z >> 8), 8);
    AddSmall(Low(y >> 16), Low(y >> 24), Low(z >> 24), 8);
    AddSmall(Low(y >> 32), Low(y >> 40), Low(z >> 40), 8);
    AddSmall(Low(y >> 48), Low(y >> 56), Low(z >> 56), 8);
  }

  lemma PairsOfBytes(y: bv64, z: bv64)
    requires y & 0xf0f0f0f0f0f0f0f0 == 0 && z == By2(y) && SmallBytes(y, 8)
    ensures z & 0xe0e0e0e0e0e0e0e0 == 0 && Low(z >> 8) <= 16 && Low(z >> 24) <= 16 && Low(z >> 40) <= 16 &&
            Low(z >> 56) <= 16
    ensures Low(z >> 8) as int == Low(y) as int + Low(y >> 8) as int
    ensures Low(z >> 24) as int == Low(y >> 16) as int + Low(y >> 24) as int
    ensures Low(z >> 40) as int == Low(y >> 32) as int + Low(y >> 40) as int
    ensures Low(z >> 56) as int == Low(y >> 48) as int + Low(y >> 56) as int
  {
    SmallBytesAre(y);
    PairsOfSmallBytes(y, z);
  }

  lemma FoursOfBytes(z: bv64, w: bv64)
    requires z & 0xe0e0e0e0e0e0e0e0 == 0 && w == By4(z)
    requires Low(z >> 8) <= 16 && Low(z >> 24) <= 16 && Low(z >> 40) <= 16 && Low(z >> 56) <= 16
    ensures w & 0xc0c0c0c0c0c0c0c0 == 0 && Low(w >> 24) <= 32 && Low(w >> 56) <= 32
    ensures Low(w >> 24) as int == Low(z >> 8) as int + Low(z >> 24) as int
    ensures Low(w >> 56) as int == Low(z >> 40) as int + Low(z >> 56) as int
  {
    TopOfFour(z, w);
    AddSmall(Low(z >> 8), Low(z >> 24), Low(w >> 24), 16);
    AddSmall(Low(z >> 40), Low(z >> 56), Low(w >> 56), 16);
  }

  lemma AllBytes(w: bv64, t: bv64)
    requires w & 0xc0c0c0c0c0c0c0c0 == 0 && t == By8(w) && Low(w >> 24) <= 32 && Low(w >> 56) <= 32
    ensures Low(t >> 56) as int == Low(w >> 24) as int + Low(w >> 56) as int
  {
    TopOfEight(w, t);
    AddSmall(Low(w >> 24), Low(w >> 56), Low(t >> 56), 32);
  }

  lemma TreeIsSum(y: bv64, z: bv64, w: bv64, t: bv64)
    requires Low(z >> 8) as int == Low(y) as int + Low(y >> 8) as int
    requires Low(z >> 24) as int == Low(y >> 16) as int + Low(y >> 24) as int
    requires Low(z >> 40) as int == Low(y >> 32) as int + Low(y >> 40) as int
    requires Low(z >> 56) as int == Low(y >> 48) as int + Low(y >> 56) as int
    requires Low(w >> 24) as int == Low(z >> 8) as int + Low(z >> 24) as int
    requires Low(w >> 56) as int == Low(z >> 40) as int + Low(z >> 56) as int
    requires Low(t >> 56) as int == Low(w >> 24) as int + Low(w >> 56) as int
    ensures Low(t >> 56) as int == ByteSum(y, 8)
  {
    ByteSumIs(y);
  }

  lemma TopIsByteSum(y: bv64, z: bv64, w: bv64, t: bv64)
    requires y & 0xf0f0f0f0f0f0f0f0 == 0 && SmallBytes(y, 8)
    requires z == By2(y) && w == By4(z) && t == By8(w)
    ensures Low(t >> 56) as int == ByteSum(y, 8)
  {
    PairsOfBytes(y, z);
    FoursOfBytes(z, w);
    AllBytes(w, t);
    TreeIsSum(y, z, w, t);
  }

  lemma TopIs(y: bv64)
    requires y & 0xf0f0f0f0f0f0f0f0 == 0 && SmallBytes(y, 8)
    ensures Low(TimesH01(y) >> 56) as int == ByteSum(y, 8)
  {
    ThreeSteps(y);
    TopIsByteSum(y, By2(y), By4(By2(y)), TimesH01(y));
  }

  lemma HighHalvesClear(x: bv64)
    ensures Bytes(x) & 0xf0f0f0f0f0f0f0f0 == 0
  {
  }

  lemma LanesTop(x: bv64, y: bv64)
    requires y == Bytes(Nibbles(Pairs(x)))
    ensures Low(TimesH01(y) >> 56) as int == Ones(x, 64)
  {
    HighHalvesClear(Nibbles(Pairs(x)));
    LanesSmall(x, 8);
    TopIs(y);
    LanesCountOnes(x, 8);
  }

  /** Taking the upper bit off a pair leaves the sum of its two bits. */
  lemma PairsAdd(x: bv64, r: bv64)
    requires r == x - ((x >> 1) & 0x5555555555555555)
    ensures r == Pairs(x)
  {
  }

  lemma Stages(x: bv64, a: bv64, b: bv64, c: bv64)
    requires a == x - ((x >> 1) & 0x5555555555555555)
    requires b == (a & 0x3333333333333333) + ((a >> 2) & 0x3333333333333333)
    requires c == (b + (b >> 4)) & 0x0f0f0f0f0f0f0f0f
    ensures c == Bytes(Nibbles(Pairs(x)))
  {
    PairsAdd(x, a);
    assert b == Nibbles(a);
    assert c == Bytes(b);
  }

  method Popcount(x: bv64) returns (n: int)
    ensures n == Ones(x, 64)
  {
    var y := x - ((x >> 1) & 0x5555555555555555);
    ghost var a := y;
    y := (y & 0x3333333333333333) + ((y >> 2) & 0x3333333333333333);
    ghost var b := y;
    y := (y + (y >> 4)) & 0x0f0f0f0f0f0f0f0f;
    Stages(x, a, b, y);
    LanesTop(x, y);
    n := Low(TimesH01(y) >> 56) as int;
  }
}
