/** pickOneNodeForPreemption of kube-scheduler/pkg/core/generic_scheduler.go. */
module PickNode {
  import opened Collections

  const MAX_INT32: int := 0x7fff_ffff
  const MAX_INT64: int := 0x7fff_ffff_ffff_ffff

  /** The priorities of a node's victims, in order, and how many of them violate a disruption budget. */
  datatype Victims = Victims(priorities: seq<int>, numPDBViolations: int)

  type Candidates = map<string, Victims>

  /** What the int32 and int types of the source leave possible, with victim lists short enough not to overflow
      the sum. */
  ghost predicate InRange(c: Candidates) {
    forall n :: n in c ==>
      && c[n].numPDBViolations <= MAX_INT32 && |c[n].priorities| <= MAX_INT32
      && forall i :: 0 <= i < |c[n].priorities| ==> -MAX_INT32 - 1 <= c[n].priorities[i] <= MAX_INT32
  }

  function ShiftedSum(priorities: seq<int>): int {
    if priorities == [] then 0
    else ShiftedSum(priorities[..|priorities| - 1]) + priorities[|priorities| - 1] + MAX_INT32 + 1
  }

  lemma {:induction false} ShiftedSumBound(priorities: seq<int>)
    requires forall i :: 0 <= i < |priorities| ==> -MAX_INT32 - 1 <= priorities[i] <= MAX_INT32
    ensures 0 <= ShiftedSum(priorities) <= |priorities| * (2 * MAX_INT32 + 1)
  {
    if priorities != [] {
      ShiftedSumBound(priorities[..|priorities| - 1]);
    }
  }

  // The four criteria.
  function Violations(c: Candidates): string -> int {
    n => if n in c then c[n].numPDBViolations else 0
  }

  function Highest(c: Candidates): string -> int {
    n => if n in c && c[n].priorities != [] then c[n].priorities[0] else 0
  }

  function PrioritySum(c: Candidates): string -> int {
    n => if n in c then ShiftedSum(c[n].priorities) else 0
  }

  function NumPods(c: Candidates): string -> int {
    n => if n in c then |c[n].priorities| else 0
  }

  /** How far a priority is above the least one there is. */
  ghost function Height(): int -> int {
    priority => priority + 0x8000_0000
  }

  /** Two lists of victims in the order of the four criteria: budget violations, priority of the first victim, sum of
      the priorities counted from the least one, number of victims. */
  ghost predicate NoWorse(a: Victims, b: Victims)
    requires a.priorities != [] && b.priorities != []
  {
    var sum, sum' := Tally(multiset(a.priorities), Height()), Tally(multiset(b.priorities), Height());
    || a.numPDBViolations < b.numPDBViolations
    || (a.numPDBViolations == b.numPDBViolations &&
        (|| a.priorities[0] < b.priorities[0]
         || (a.priorities[0] == b.priorities[0] &&
             (sum < sum' || (sum == sum' && |a.priorities| <= |b.priorities|)))))
  }

  ghost predicate NoneBetter(c: Candidates, n: string)
    requires n in c && forall m :: m in c ==> c[m].priorities != []
  {
    forall m :: m in c ==> NoWorse(c[n], c[m])
  }

  lemma {:induction false} ShiftedSumIsTally(priorities: seq<int>)
    ensures ShiftedSum(priorities) == Tally(multiset(priorities), Height())
  {
    if priorities == [] {
      assert multiset(priorities) == multiset{};
    } else {
      var init, last := priorities[..|priorities| - 1], priorities[|priorities| - 1];
      assert priorities == init + [last];
      ShiftedSumIsTally(init);
      TallyAdd(multiset(init), Height(), last);
      assert multiset(priorities) == multiset(init) + multiset{last};
    }
  }

  /** `least` holds exactly the elements of `all` with the least score. */
  ghost predicate IsLeastOf(all: seq<string>, least: seq<string>, score: string -> int) {
    forall x :: x in least <==> Least(all, x, score)
  }

  ghost predicate Least(all: seq<string>, x: string, score: string -> int) {
    x in all && forall y :: y in all ==> score(x) <= score(y)
  }

  /** State of a scoring loop that has seen `seen`: `kept` are those with score `min`, which is the least if any was
      seen. */
  ghost predicate Keeping(seen: seq<string>, kept: seq<string>, score: string -> int, min: int) {
    && (forall x :: x in seen ==> score(x) >= min)
    && (forall x :: x in kept <==> x in seen && score(x) == min)
    && (seen != [] ==> kept != [])
  }

  lemma KeepingStep(seen: seq<string>, kept: seq<string>, score: string -> int, min: int, x: string)
    requires Keeping(seen, kept, score, min) && (seen == [] ==> score(x) <= min)
    ensures score(x) < min ==> Keeping(seen + [x], [x], score, score(x))
    ensures score(x) == min ==> Keeping(seen + [x], kept + [x], score, min)
    ensures score(x) > min ==> Keeping(seen + [x], kept, score, min)
  {
  }

  /** The second, third and fourth loop: copy the nodes with the least score from one buffer into the other. */
  method KeepLeast(src: array<string>, n: nat, dst: array<string>, score: string -> int, limit: int) returns (len: nat)
    requires src != dst && n <= src.Length && n <= dst.Length
    requires forall i :: 0 <= i < n ==> score(src[i]) <= limit
    modifies dst
    ensures len <= n && (n > 0 ==> len > 0) && IsLeastOf(src[..n], dst[..len], score)
  {
    var min := limit;
    len := 0;
    for i := 0 to n
      invariant len <= i && Keeping(src[..i], dst[..len], score, min) && (i == 0 ==> min == limit)
    {
      var x := src[i];
      KeepingStep(src[..i], dst[..len], score, min, x);
      assert src[..i + 1] == src[..i] + [x];
      if score(x) < min {
        min := score(x);
        len := 0;
      }
      if score(x) == min {
        dst[len] := x;
        len := len + 1;
        assert dst[..len] == dst[..len - 1] + [x];
      }
    }
    KeptIsLeast(src[..n], dst[..len], score, min);
  }

  lemma KeptIsLeast(seen: seq<string>, kept: seq<string>, score: string -> int, min: int)
    requires Keeping(seen, kept, score, min)
    ensures IsLeastOf(seen, kept, score)
  {
    if seen != [] {
      var k := kept[0];
      assert k in kept;
      forall x ensures x in kept <==> Least(seen, x, score) {
        if Least(seen, x, score) {
          assert score(x) <= score(k);
        }
      }
    }
  }

  /** The first loop, over the candidates in any order: a node without victims ends it at once. */
  method FirstStage(c: Candidates) returns (free: Option<string>, least: seq<string>, ghost all: seq<string>)
    requires InRange(c)
    ensures free.Some? ==> free.value in c && c[free.value].priorities == []
    ensures free.None? ==> (forall n :: n in c <==> n in all) && (forall n :: n in c ==> c[n].priorities != [])
    ensures free.None? ==> IsLeastOf(all, least, Violations(c)) && (c != map[] ==> least != [])
  {
    var min := MAX_INT32;
    least, all := [], [];
    var todo := c.Keys;
    while todo != {}
      invariant todo <= c.Keys && (forall n :: n in all <==> n in c.Keys - todo)
      invariant Keeping(all, least, Violations(c), min) && (all == [] ==> min == MAX_INT32)
      invariant forall n :: n in c.Keys - todo ==> c[n].priorities != []
    {
      var n :| n in todo;
      if c[n].priorities == [] {
        return Some(n), least, all;
      }
      KeepingStep(all, least, Violations(c), min, n);
      if c[n].numPDBViolations < min {
        min := c[n].numPDBViolations;
        least := [];
      }
      if c[n].numPDBViolations == min {
        least := least + [n];
      }
      assert [] + [n] == [n];
      todo, all := todo - {n}, all + [n];
    }
    KeptIsLeast(all, least, Violations(c), min);
    free := None;
  }

  lemma SumInRange(c: Candidates, n: string)
    requires InRange(c) && n in c
    ensures PrioritySum(c)(n) <= MAX_INT64
  {
    ShiftedSumBound(c[n].priorities);
    assert |c[n].priorities| * (2 * MAX_INT32 + 1) <= MAX_INT32 * (2 * MAX_INT32 + 1);
  }

  /** Each stage narrows the choice: what survives all stages, or is alone after some stage, is no worse than
      any node. */
  lemma Narrowed(c: Candidates, all: seq<string>, s1: seq<string>, s2: seq<string>, s3: seq<string>, s4: seq<string>,
                 r: string, m: string)
    requires IsLeastOf(all, s1, Violations(c)) && r in s1 && m in all
    requires s1 == [r] || (IsLeastOf(s1, s2, Highest(c)) && r in s2)
    requires s1 == [r] || s2 == [r] || (IsLeastOf(s2, s3, PrioritySum(c)) && r in s3)
    requires s1 == [r] || s2 == [r] || s3 == [r] || (IsLeastOf(s3, s4, NumPods(c)) && r in s4)
    requires r in c && m in c && c[r].priorities != [] && c[m].priorities != []
    ensures NoWorse(c[r], c[m])
  {
    var v, h, s := Violations(c), Highest(c), PrioritySum(c);
    ShiftedSumIsTally(c[r].priorities);
    ShiftedSumIsTally(c[m].priorities);
    assert Least(all, r, v);
    if v(r) == v(m) {
      assert Least(all, m, v);
      assert m in s1;
      if s1 != [r] {
        assert Least(s1, r, h);
        if h(r) == h(m) {
          assert Least(s1, m, h);
          assert m in s2;
          if s2 != [r] {
            assert Least(s2, r, s);
            if s(r) == s(m) {
              assert Least(s2, m, s);
              assert m in s3;
            }
          }
        }
      }
    }
  }

  /** pickOneNodeForPreemption: a node without victims if there is one, otherwise a least one in the order of
      the four criteria. */
  method PickOneNodeForPreemption(c: Candidates) returns (r: Option<string>)
    requires InRange(c)
    ensures c == map[] <==> r.None?
    ensures r.Some? ==> r.value in c
    ensures r.Some? && (exists n :: n in c && c[n].priorities == []) ==> c[r.value].priorities == []
    ensures r.Some? && (forall n :: n in c ==> c[n].priorities != []) ==> NoneBetter(c, r.value)
  {
    if c == map[] {
      return None;
    }
    var free, least, all := FirstStage(c);
    if free.Some? {
      return free;
    }
    var first := least[0];
    LeastKnown(c, all, least, Violations(c));
    if |least| == 1 {
      assert least == [first];
      forall m | m in c ensures NoWorse(c[first], c[m]) { Narrowed(c, all, least, [], [], [], first, m); }
      return Some(first);
    }
    var minNodes1 := new string[|least|](i requires 0 <= i < |least| => least[i]);
    assert minNodes1[..|least|] == least;
    var node := LaterStages(c, minNodes1, all);
    r := Some(node);
  }

  ghost predicate Known(c: Candidates, nodes: seq<string>) {
    forall i :: 0 <= i < |nodes| ==> nodes[i] in c
  }

  lemma LeastKnown(c: Candidates, all: seq<string>, least: seq<string>, score: string -> int)
    requires Known(c, all) && IsLeastOf(all, least, score)
    ensures Known(c, least)
  {
    forall i | 0 <= i < |least| ensures least[i] in c {
      assert least[i] in least;
      assert Least(all, least[i], score);
    }
  }

  /** The second loop, which picks by the first victim, and the loops after it; they use two buffers in turns. */
  method LaterStages(c: Candidates, minNodes1: array<string>, ghost all: seq<string>) returns (r: string)
    requires InRange(c) && minNodes1.Length > 0 && Known(c, all) &&
             (forall n :: n in c ==> n in all && c[n].priorities != [])
    requires IsLeastOf(all, minNodes1[..], Violations(c))
    modifies minNodes1
    ensures r in c && NoneBetter(c, r)
  {
    var len1 := minNodes1.Length;
    ghost var s1 := minNodes1[..];
    assert s1 == minNodes1[..len1];
    var minNodes2 := new string[len1];
    LeastKnown(c, all, s1, Violations(c));
    assert forall i :: 0 <= i < len1 ==> minNodes1[i] == s1[i];
    var len2 := KeepLeast(minNodes1, len1, minNodes2, Highest(c), MAX_INT32);
    ghost var s2 := minNodes2[..len2];
    LeastKnown(c, s1, s2, Highest(c));
    r := minNodes2[0];
    if len2 == 1 {
      assert s2 == [r] && Least(s1, r, Highest(c));
      forall m | m in c ensures NoWorse(c[r], c[m]) { Narrowed(c, all, s1, s2, [], [], r, m); }
      return;
    }
    r := LastStages(c, minNodes1, minNodes2, len2, all, s1);
  }

  /** The third loop, by the sum of priorities, and the fourth, by the number of victims. */
  method LastStages(c: Candidates, minNodes1: array<string>, minNodes2: array<string>, len2: nat,
                    ghost all: seq<string>, ghost s1: seq<string>)
    returns (r: string)
    requires InRange(c) && minNodes1 != minNodes2 && 0 < len2 <= minNodes2.Length == minNodes1.Length &&
             Known(c, minNodes2[..len2])
    requires forall n :: n in c ==> n in all && c[n].priorities != []
    requires IsLeastOf(all, s1, Violations(c)) && IsLeastOf(s1, minNodes2[..len2], Highest(c))
    modifies minNodes1, minNodes2
    ensures r in c && NoneBetter(c, r)
  {
    ghost var s2 := minNodes2[..len2];
    forall i | 0 <= i < len2 ensures PrioritySum(c)(minNodes2[i]) <= MAX_INT64 {
      assert minNodes2[i] == s2[i];
      SumInRange(c, minNodes2[i]);
    }
    var len3 := KeepLeast(minNodes2, len2, minNodes1, PrioritySum(c), MAX_INT64);
    ghost var s3 := minNodes1[..len3];
    LeastKnown(c, s2, s3, PrioritySum(c));
    r := minNodes1[0];
    assert r == s3[0];
    if len3 > 1 {
      assert forall i :: 0 <= i < len3 ==> minNodes1[i] == s3[i];
      var len4 := KeepLeast(minNodes1, len3, minNodes2, NumPods(c), MAX_INT32);
      ghost var s4 := minNodes2[..len4];
      LeastKnown(c, s3, s4, NumPods(c));
      r := minNodes2[0];
      assert r == s4[0];
      ChosenIsBest(c, all, s1, s2, s3, s4, r);
    } else {
      assert s3 == [r];
      ChosenIsBest(c, all, s1, s2, s3, [], r);
    }
  }

  lemma ChosenIsBest(c: Candidates, all: seq<string>, s1: seq<string>, s2: seq<string>, s3: seq<string>,
                     s4: seq<string>, r: string)
    requires IsLeastOf(all, s1, Violations(c)) && IsLeastOf(s1, s2, Highest(c)) && IsLeastOf(s2, s3, PrioritySum(c))
    requires if s3 == [r] then true else IsLeastOf(s3, s4, NumPods(c)) && r in s4
    requires r in c && forall n :: n in c ==> n in all && c[n].priorities != []
    ensures NoneBetter(c, r)
  {
    assert s3 != [r] ==> Least(s3, r, NumPods(c));
    assert r in s3 && Least(s2, r, PrioritySum(c));
    assert r in s2 && Least(s1, r, Highest(c));
    forall m | m in c ensures NoWorse(c[r], c[m]) { Narrowed(c, all, s1, s2, s3, s4, r, m); }
  }
}
