/** Finite sums, greatest elements and zero-valued map reads shared by the other modules. */
module Collections {

  datatype Option<+T> = None | Some(value: T)

  /** A Go map read: an absent key reads as zero. */
  function Lookup<K>(m: map<K, int>, k: K): int {
    if k in m then m[k] else 0
  }

  function Max(a: int, b: int): int {
    if a < b then b else a
  }

  ghost predicate Distinct<T>(s: seq<T>) {
    forall i, j :: 0 <= i < j < |s| ==> s[i] != s[j]
  }

  /** `s` without position `i`, if it has one. */
  function Without<T>(s: seq<T>, i: nat): seq<T> {
    if i < |s| then s[..i] + s[i + 1..] else s
  }

  /** Overwrite the element at `i` with the last and drop the last. */
  function SwapRemoved<T>(s: seq<T>, i: nat): seq<T>
    requires i < |s|
  {
    s[i := s[|s| - 1]][..|s| - 1]
  }

  lemma SwapRemovedElements<T>(s: seq<T>, i: nat)
    requires i < |s|
    ensures multiset(SwapRemoved(s, i)) == multiset(s) - multiset{s[i]}
  {
    var n := |s| - 1;
    assert s == s[..n] + [s[n]];
    if i < n {
      assert SwapRemoved(s, i) == s[..n][i := s[n]];
    } else {
      assert SwapRemoved(s, i) == s[..n];
    }
  }

  lemma MultisetAppend<T>(s: seq<T>, x: T)
    ensures multiset(s + [x]) == multiset(s) + multiset{x}
  {
  }

  lemma CountAppend<T>(s: seq<T>, x: T, y: T)
    ensures multiset(s + [x])[y] == multiset(s)[y] + if y == x then 1 else 0
  {
    MultisetAppend(s, x);
  }

  lemma MultisetInsert<T>(s: seq<T>, j: nat, x: T)
    requires j <= |s|
    ensures multiset(s[..j] + [x] + s[j..]) == multiset(s) + multiset{x}
  {
    assert s == s[..j] + s[j..];
    MultisetAppend(s[..j], x);
  }

  /** The sum of `f` over a finite set; the choice of element does not matter (see SumRemove). */
  ghost function Sum<T>(s: set<T>, f: T -> int): int {
    if s == {} then 0 else
      var x :| x in s;
      f(x) + Sum(s - {x}, f)
  }

  lemma {:induction false} SumRemove<T>(s: set<T>, f: T -> int, x: T)
    requires x in s
    ensures Sum(s, f) == f(x) + Sum(s - {x}, f)
  {
    var y :| y in s && Sum(s, f) == f(y) + Sum(s - {y}, f);
    if y != x {
      SumRemove(s - {y}, f, x);
      SumRemove(s - {x}, f, y);
      assert s - {y} - {x} == s - {x} - {y};
    }
  }

  lemma SumAdd<T>(s: set<T>, f: T -> int, x: T)
    requires x !in s
    ensures Sum(s + {x}, f) == Sum(s, f) + f(x)
  {
    SumRemove(s + {x}, f, x);
    assert s + {x} - {x} == s;
  }

  lemma {:induction false} SumUnion<T>(a: set<T>, b: set<T>, f: T -> int)
    requires a !! b
    ensures Sum(a + b, f) == Sum(a, f) + Sum(b, f)
  {
    if b == {} {
      assert a + b == a;
    } else {
      var x :| x in b;
      SumUnion(a, b - {x}, f);
      SumRemove(b, f, x);
      SumAdd(a + (b - {x}), f, x);
      assert a + (b - {x}) + {x} == a + b;
    }
  }

  lemma {:induction false} SumCongruence<T>(s: set<T>, f: T -> int, g: T -> int)
    requires forall x :: x in s ==> f(x) == g(x)
    ensures Sum(s, f) == Sum(s, g)
  {
    if s != {} {
      var x :| x in s;
      SumCongruence(s - {x}, f, g);
      SumRemove(s, f, x);
      SumRemove(s, g, x);
    }
  }

  lemma {:induction false} SumMonotone<T>(s: set<T>, f: T -> int, g: T -> int)
    requires forall x :: x in s ==> f(x) <= g(x)
    ensures Sum(s, f) <= Sum(s, g)
  {
    if s != {} {
      var x :| x in s;
      SumMonotone(s - {x}, f, g);
      SumRemove(s, f, x);
      SumRemove(s, g, x);
    }
  }

  lemma {:induction false} SumNonNegative<T>(s: set<T>, f: T -> int)
    requires forall x :: x in s ==> f(x) >= 0
    ensures Sum(s, f) >= 0
  {
    if s != {} {
      var x :| x in s;
      SumNonNegative(s - {x}, f);
      SumRemove(s, f, x);
    }
  }

  /** The greatest of `floor` and the values of `f` on `s`. */
  ghost function Greatest<T>(s: set<T>, f: T -> int, floor: int): int {
    if s == {} then floor else
      var x :| x in s;
      Max(f(x), Greatest(s - {x}, f, floor))
  }

  lemma {:induction false} GreatestIs<T>(s: set<T>, f: T -> int, floor: int)
    ensures floor <= Greatest(s, f, floor)
    ensures forall x :: x in s ==> f(x) <= Greatest(s, f, floor)
    ensures Greatest(s, f, floor) == floor || exists x :: x in s && f(x) == Greatest(s, f, floor)
  {
    if s != {} {
      var x :| x in s && Greatest(s, f, floor) == Max(f(x), Greatest(s - {x}, f, floor));
      var t := s - {x};
      GreatestIs(t, f, floor);
      assert Greatest(s, f, floor) == Max(f(x), Greatest(t, f, floor));
      assert forall y :: y in s ==> y == x || y in t;
      assert forall y :: y in t ==> y in s;
    }
  }

  lemma GreatestAdd<T>(s: set<T>, f: T -> int, floor: int, x: T)
    ensures Greatest(s + {x}, f, floor) == Max(Greatest(s, f, floor), f(x))
  {
    GreatestIs(s, f, floor);
    GreatestIs(s + {x}, f, floor);
    assert x in s + {x};
    assert forall y :: y in s ==> y in s + {x};
  }

  lemma GreatestCongruence<T>(s: set<T>, f: T -> int, g: T -> int, floor: int)
    requires forall x :: x in s ==> f(x) == g(x)
    ensures Greatest(s, f, floor) == Greatest(s, g, floor)
  {
    GreatestIs(s, f, floor);
    GreatestIs(s, g, floor);
  }

  lemma GreatestFloor<T>(s: set<T>, f: T -> int, a: int, b: int)
    ensures Greatest(s, f, Max(a, b)) == Max(a, Greatest(s, f, b))
  {
    GreatestIs(s, f, Max(a, b));
    GreatestIs(s, f, b);
  }

  /** The sum of `f` over a multiset, counting multiplicities. */
  ghost function Tally<T>(m: multiset<T>, f: T -> int): int {
    if m == multiset{} then 0 else
      var x :| x in m;
      f(x) + Tally(m - multiset{x}, f)
  }

  lemma {:induction false} TallyRemove<T>(m: multiset<T>, f: T -> int, x: T)
    requires x in m
    ensures Tally(m, f) == f(x) + Tally(m - multiset{x}, f)
    decreases |m|
  {
    var y :| y in m && Tally(m, f) == f(y) + Tally(m - multiset{y}, f);
    if y != x {
      var z := m - multiset{x} - multiset{y};
      assert m - multiset{y} - multiset{x} == z;
      TallyRemove(m - multiset{y}, f, x);
      TallyRemove(m - multiset{x}, f, y);
    }
  }

  lemma TallyAdd<T>(m: multiset<T>, f: T -> int, x: T)
    ensures Tally(m + multiset{x}, f) == Tally(m, f) + f(x)
  {
    TallyRemove(m + multiset{x}, f, x);
    assert m + multiset{x} - multiset{x} == m;
  }
}
