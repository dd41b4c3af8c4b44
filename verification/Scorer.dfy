/** The score functions of device-scheduler/grpalloc/scorer. */
module Scorer {
  import opened Collections
  import opened Popcount

  datatype ScoreResult = ScoreResult(found: bool, score: real, usedByContainer: int, usedByPod: int, usedByNode: int)

  datatype ScoreFunc = LeftoverScoreFunc | EnumScoreFunc

  function Total(requested: seq<int>): int {
    if requested == [] then 0 else Total(requested[..|requested| - 1]) + requested[|requested| - 1]
  }

  lemma TotalAppend(requested: seq<int>, r: int)
    ensures Total(requested + [r]) == Total(requested) + r
  {
    assert (requested + [r])[..|requested|] == requested;
  }

  lemma TotalOne(x: int)
    ensures Total([x]) == x
  {
    TotalAppend([], x);
    assert [] + [x] == [x];
  }

  /** What a container asking for `total` leaves the pod using: running containers add up, an init container
      only raises the high-water mark. */
  function PodAfter(usedByPod: int, total: int, initContainer: bool): int {
    if initContainer then Max(usedByPod, total) else usedByPod + total
  }

  function Fraction(leftover: int, allocatable: int): real {
    if allocatable != 0 then 1.0 - leftover as real / allocatable as real else 0.0
  }

  function Leftover(allocatable: int, usedByPod: int, usedByNode: int, requested: seq<int>,
                    initContainer: bool): ScoreResult {
    var total := Total(requested);
    var pod := PodAfter(usedByPod, total, initContainer);
    var node := usedByNode + (pod - usedByPod);
    ScoreResult(allocatable - node >= 0, Fraction(allocatable - node, allocatable), total, pod, node)
  }

  const TWO64: int := 0x1_0000_0000_0000_0000

  /** An int64 as its 64 bits, and back. */
  function Bits(x: int): bv64 {
    (x % TWO64) as bv64
  }

  function Signed(b: bv64): int {
    var u := b as int;
    if u < TWO64 / 2 then u else u - TWO64
  }

  lemma SameBits(b: bv64)
    ensures 0 <= b as int < TWO64 && (b as int) as bv64 == b
  {
  }

  lemma Wraps(u: int, x: int)
    requires 0 <= u < TWO64 && (x == u || x == u - TWO64)
    ensures x % TWO64 == u
  {
  }

  lemma SignedBits(b: bv64)
    ensures Bits(Signed(b)) == b
  {
    SameBits(b);
    Wraps(b as int, Signed(b));
  }

  function Mask(requested: seq<int>): bv64 {
    if requested == [] then 0 else Mask(requested[..|requested| - 1]) | Bits(requested[|requested| - 1])
  }

  /** The allocatable bits that the pod will use. */
  function UsedBits(allocatable: bv64, usedByPod: bv64, total: bv64): bv64 {
    allocatable & (usedByPod | total)
  }

  function ShareOfCounts(allocatable: int, used: int): real {
    Fraction(allocatable - used, allocatable)
  }

  function UsedShare(allocatable: bv64, used: bv64): real {
    ShareOfCounts(Ones(allocatable, 64), Ones(used, 64))
  }

  /** Nothing is requested, or at least one allocatable bit is. */
  function BitsFound(allocatable: bv64, total: bv64): bool {
    total == 0 || allocatable & total != 0
  }

  function EnumScore(allocatable: int, usedByPod: int, requested: seq<int>): ScoreResult {
    var total := Mask(requested);
    var used := UsedBits(Bits(allocatable), Bits(usedByPod), total);
    ScoreResult(BitsFound(Bits(allocatable), total), UsedShare(Bits(allocatable), used), Signed(total), Signed(used), 0)
  }

  // ---- The loops ----

  method FractionOf(leftover: int, allocatable: int) returns (score: real)
    ensures score == Fraction(leftover, allocatable)
  {
    score := 0.0;
    if allocatable != 0 {
      score := 1.0 - leftover as real / allocatable as real;
    }
  }

  method LeftoverScorer(allocatable: int, usedByPod: int, usedByNode: int, requested: seq<int>, initContainer: bool)
      returns (r: ScoreResult)
    ensures r == Leftover(allocatable, usedByPod, usedByNode, requested, initContainer)
  {
    var total := 0;
    for i := 0 to |requested|
      invariant total == Total(requested[..i])
    {
      TotalAppend(requested[..i], requested[i]);
      assert requested[..i + 1] == requested[..i] + [requested[i]];
      total := total + requested[i];
    }
    assert requested[..|requested|] == requested;
    var pod := usedByPod;
    if !initContainer {
      pod := usedByPod + total;
    } else if total > usedByPod {
      pod := total;
    }
    var node := usedByNode + (pod - usedByPod);
    var leftover := allocatable - node;
    var score := FractionOf(leftover, allocatable);
    r := ScoreResult(leftover >= 0, score, total, pod, node);
  }

  method MaskOf(requested: seq<int>) returns (total: bv64)
    ensures total == Mask(requested)
  {
    total := 0;
    for i := 0 to |requested|
      invariant total == Mask(requested[..i])
    {
      assert requested[..i + 1][..i] == requested[..i];
      total := total | Bits(requested[i]);
    }
    assert requested[..|requested|] == requested;
  }

  method EnumBits(allocatable: bv64, usedByPod: bv64, total: bv64) returns (found: bool, score: real, used: bv64)
    ensures found == BitsFound(allocatable, total) && used == UsedBits(allocatable, usedByPod, total)
    ensures score == UsedShare(allocatable, used)
  {
    used := allocatable & (usedByPod | total);
    score := ShareOf(allocatable, used);
    found := true;
    if total != 0 {
      found := allocatable & total != 0;
    }
  }

  method EnumScorer(allocatable: int, usedByPod: int, requested: seq<int>) returns (r: ScoreResult)
    ensures r == EnumScore(allocatable, usedByPod, requested)
  {
    var total := MaskOf(requested);
    var found, score, used := EnumBits(Bits(allocatable), Bits(usedByPod), total);
    r := ScoreResult(found, score, Signed(total), Signed(used), 0);
  }

  method ShareOf(allocatable: bv64, used: bv64) returns (score: real)
    ensures score == UsedShare(allocatable, used)
  {
    var countAlloc := Popcount.Popcount(allocatable);
    var countUsed := Popcount.Popcount(used);
    score := CountsShare(countAlloc, countUsed);
  }

  method CountsShare(countAlloc: int, countUsed: int) returns (score: real)
    ensures score == ShareOfCounts(countAlloc, countUsed)
  {
    score := FractionOf(countAlloc - countUsed, countAlloc);
  }

  // ---- What a score can be ----

  /** The score of a quantity is the share of it that is in use. */
  lemma FractionIsShare(use: int, allocatable: int)
    requires allocatable != 0
    ensures Fraction(allocatable - use, allocatable) == use as real / allocatable as real
  {
    var u, a := use as real, allocatable as real;
    assert (a - u) / a == a / a - u / a;
  }

  lemma FractionRange(leftover: int, allocatable: int)
    requires allocatable > 0
    ensures 0.0 <= Fraction(leftover, allocatable) <==> leftover <= allocatable
    ensures Fraction(leftover, allocatable) <= 1.0 <==> leftover >= 0
  {
    var l, a := leftover as real, allocatable as real;
    assert l / a <= 1.0 <==> l <= a;
    assert l / a >= 0.0 <==> l >= 0.0;
  }

  lemma NegativeFraction(leftover: int, allocatable: int)
    requires allocatable < 0 && leftover >= 0
    ensures Fraction(leftover, allocatable) >= 1.0
    ensures Fraction(leftover, allocatable) == 1.0 <==> leftover == 0
  {
    var l, a := leftover as real, allocatable as real;
    assert l / a <= 0.0;
    assert l / a == 0.0 <==> l == 0.0;
  }

  /**
   * A score of a fitting request is said to be between 0 and 1. It is, exactly when nothing is allocatable,
   * or the node's use is not negative and not above a positive capacity, or the use is the capacity.
   */
  lemma LeftoverScoreRange(allocatable: int, usedByPod: int, usedByNode: int, requested: seq<int>, initContainer: bool)
    ensures var r := Leftover(allocatable, usedByPod, usedByNode, requested, initContainer);
      var use := usedByNode + PodAfter(usedByPod, Total(requested), initContainer) - usedByPod;
      r.found ==> (0.0 <= r.score <= 1.0 <==> allocatable == 0 || use == allocatable || (allocatable > 0 && use >= 0))
  {
    var use := usedByNode + PodAfter(usedByPod, Total(requested), initContainer) - usedByPod;
    if allocatable > 0 {
      FractionRange(allocatable - use, allocatable);
    } else if allocatable < 0 && use <= allocatable {
      NegativeFraction(allocatable - use, allocatable);
    }
  }

  /** A node that is said to use less than nothing: the request fits and scores below 0. */
  lemma NegativeUseScoresBelowZero()
    ensures var r := Leftover(10, 0, -5, [1], false); r.found && r.score < 0.0
  {
    TotalOne(1);
    FractionRange(14, 10);
  }

  ghost predicate SameUse(r: ScoreResult, t: ScoreResult) {
    r.usedByPod == t.usedByPod && r.usedByNode == t.usedByNode && r.score == t.score && r.found == t.found
  }

  lemma {:induction false} TotalConcat(xs: seq<int>, ys: seq<int>)
    ensures Total(xs + ys) == Total(xs) + Total(ys)
  {
    if ys == [] {
      assert xs + ys == xs;
    } else {
      var n := |ys| - 1;
      TotalConcat(xs, ys[..n]);
      assert (xs + ys)[..|xs| + n] == xs + ys[..n];
    }
  }

  /** For a running container, scoring requests in two goes, the second from where the first ends, is scoring them at
      once: usage, score and whether it fits. */
  lemma LeftoverComposes(allocatable: int, usedByPod: int, usedByNode: int, xs: seq<int>, ys: seq<int>)
    ensures var r := Leftover(allocatable, usedByPod, usedByNode, xs, false);
      SameUse(Leftover(allocatable, r.usedByPod, r.usedByNode, ys, false),
              Leftover(allocatable, usedByPod, usedByNode, xs + ys, false))
  {
    TotalConcat(xs, ys);
  }

  /** For an init container, which only raises the high-water mark, the order of two goes does not matter, and going
      again over the same requests changes nothing. */
  lemma LeftoverInitOrder(allocatable: int, usedByPod: int, usedByNode: int, xs: seq<int>, ys: seq<int>)
    ensures var r, t := Leftover(allocatable, usedByPod, usedByNode, xs, true),
                        Leftover(allocatable, usedByPod, usedByNode, ys, true);
      && SameUse(Leftover(allocatable, r.usedByPod, r.usedByNode, ys, true),
                 Leftover(allocatable, t.usedByPod, t.usedByNode, xs, true))
      && SameUse(Leftover(allocatable, r.usedByPod, r.usedByNode, xs, true), r)
  {
    assert Max(Max(usedByPod, Total(xs)), Total(ys)) == Max(Max(usedByPod, Total(ys)), Total(xs));
  }

  lemma ShareWithin(count: nat, used: nat, score: real)
    requires used <= count && score == Fraction(count - used, count)
    ensures 0.0 <= score <= 1.0
  {
    if count > 0 {
      FractionRange(count - used, count);
    }
  }

  lemma UsedWithin(allocatable: bv64, usedByPod: bv64, total: bv64)
    ensures Ones(UsedBits(allocatable, usedByPod, total), 64) <= Ones(allocatable, 64)
  {
    OnesWithin(allocatable, usedByPod | total, UsedBits(allocatable, usedByPod, total), 64);
  }

  /** The share of the allocatable bits in use is between 0 and 1 whatever the bits are. */
  lemma EnumScoreRange(allocatable: bv64, usedByPod: bv64, total: bv64, used: bv64)
    requires used == UsedBits(allocatable, usedByPod, total)
    ensures 0.0 <= UsedShare(allocatable, used) <= 1.0
  {
    UsedWithin(allocatable, usedByPod, total);
    ShareWithin(Ones(allocatable, 64), Ones(used, 64), UsedShare(allocatable, used));
  }

  /** Some request asks for bit `i`. */
  ghost predicate Asked(requested: seq<int>, i: nat) {
    exists k :: 0 <= k < |requested| && BitAt(Bits(requested[k]), i)
  }

  lemma EitherAt(a: bv64, b: bv64, c: bv64, i: nat)
    requires c == a | b
    ensures BitAt(c, i) <==> BitAt(a, i) || BitAt(b, i)
  {
    OrAt(a, b, i);
  }

  lemma AskedStep(requested: seq<int>, i: nat)
    requires requested != []
    ensures Asked(requested, i) <==>
              Asked(requested[..|requested| - 1], i) || BitAt(Bits(requested[|requested| - 1]), i)
  {
    var init := requested[..|requested| - 1];
    if Asked(init, i) {
      var k :| 0 <= k < |init| && BitAt(Bits(init[k]), i);
      assert requested[k] == init[k];
    }
    if Asked(requested, i) {
      var k :| 0 <= k < |requested| && BitAt(Bits(requested[k]), i);
      assert k < |init| ==> init[k] == requested[k];
    }
  }

  /** The mask has the bits that some request asks for. */
  lemma {:induction false} MaskAt(requested: seq<int>, i: nat)
    ensures BitAt(Mask(requested), i) <==> Asked(requested, i)
  {
    if requested == [] {
      ZeroHasNoBit(i);
    } else {
      MaskAt(requested[..|requested| - 1], i);
      EitherAt(Mask(requested[..|requested| - 1]), Bits(requested[|requested| - 1]), Mask(requested), i);
      AskedStep(requested, i);
    }
  }

  ghost predicate HasBit(b: bv64) {
    exists i: nat :: BitAt(b, i)
  }

  lemma HasBitIff(b: bv64)
    ensures b != 0 <==> HasBit(b)
  {
    if b == 0 {
      forall i: nat ensures !BitAt(b, i) {
        ZeroHasNoBit(i);
      }
    } else {
      var i := NonzeroHasBit(b);
    }
  }

  ghost predicate Meet(a: bv64, b: bv64) {
    exists i: nat :: BitAt(a, i) && BitAt(b, i)
  }

  lemma MeetIff(a: bv64, b: bv64)
    ensures HasBit(a & b) <==> Meet(a, b)
  {
    forall i: nat ensures BitAt(a & b, i) <==> BitAt(a, i) && BitAt(b, i) {
      AndAt(a, b, i);
    }
  }

  lemma FoundIff(allocatable: bv64, total: bv64)
    ensures BitsFound(allocatable, total) <==> !HasBit(total) || Meet(allocatable, total)
  {
    HasBitIff(total);
    HasBitIff(allocatable & total);
    MeetIff(allocatable, total);
  }

  lemma UsedAt(allocatable: bv64, usedByPod: bv64, total: bv64, i: nat)
    ensures BitAt(UsedBits(allocatable, usedByPod, total), i) <==>
              BitAt(allocatable, i) && (BitAt(usedByPod, i) || BitAt(total, i))
  {
    AndAt(allocatable, usedByPod | total, i);
    OrAt(usedByPod, total, i);
  }

  /** Masks bit by bit: the requests fit if they ask for no bit at all, or for at least one that is allocatable; and the
      pod then uses the allocatable bits that it used or they ask for. */
  lemma EnumScoreBits(allocatable: int, usedByPod: int, requested: seq<int>, r: ScoreResult)
    requires r == EnumScore(allocatable, usedByPod, requested)
    ensures r.found <==> (forall i: nat :: !Asked(requested, i)) ||
                         (exists i: nat :: BitAt(Bits(allocatable), i) && Asked(requested, i))
    ensures forall i: nat :: BitAt(Bits(r.usedByPod), i) <==>
              BitAt(Bits(allocatable), i) && (BitAt(Bits(usedByPod), i) || Asked(requested, i))
  {
    var total := Mask(requested);
    FoundIff(Bits(allocatable), total);
    forall i: nat ensures BitAt(total, i) <==> Asked(requested, i) {
      MaskAt(requested, i);
    }
    SignedBits(UsedBits(Bits(allocatable), Bits(usedByPod), total));
    forall i: nat
      ensures BitAt(Bits(r.usedByPod), i) <==>
                BitAt(Bits(allocatable), i) && (BitAt(Bits(usedByPod), i) || BitAt(total, i))
    {
      UsedAt(Bits(allocatable), Bits(usedByPod), total, i);
    }
  }

  function Score(fn: ScoreFunc, allocatable: int, usedByPod: int, usedByNode: int, requested: seq<int>,
                 initContainer: bool): ScoreResult {
    match fn
    case LeftoverScoreFunc => Leftover(allocatable, usedByPod, usedByNode, requested, initContainer)
    case EnumScoreFunc => EnumScore(allocatable, usedByPod, requested)
  }

  lemma LeftoverScore(allocatable: int, usedByPod: int, usedByNode: int, requested: seq<int>, initContainer: bool)
    ensures var r := Score(LeftoverScoreFunc, allocatable, usedByPod, usedByNode, requested, initContainer);
      && r.usedByPod == PodAfter(usedByPod, Total(requested), initContainer)
      && r.usedByNode == usedByNode + r.usedByPod - usedByPod
      && r.found == (r.usedByNode <= allocatable) && r.score == Fraction(allocatable - r.usedByNode, allocatable)
  {
  }

  method CallScorer(fn: ScoreFunc, allocatable: int, usedByPod: int, usedByNode: int, requested: seq<int>,
                    initContainer: bool)
      returns (r: ScoreResult)
    ensures r == Score(fn, allocatable, usedByPod, usedByNode, requested, initContainer)
  {
    match fn
    case LeftoverScoreFunc => r := LeftoverScorer(allocatable, usedByPod, usedByNode, requested, initContainer);
    case EnumScoreFunc => r := EnumScorer(allocatable, usedByPod, requested);
  }
}
