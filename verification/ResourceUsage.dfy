/** What a choice of locations draws from each allocatable resource. */
module ResourceUsage {
  import opened Collections
  import opened Placement

  /** Amounts by global resource name; an absent name is an amount of zero. */
  type Usage = map<Path, int>

  /** What name `n` contributes to the draw on `k`. */
  ghost function Share(required: map<Path, int>, from: map<Path, Path>, k: Path): Path -> int {
    n => if n in from && from[n] == k then Lookup(required, n) else 0
  }

  /** The total requested of resource `k` by `names` under the choice `from`. */
  ghost function Drawn(required: map<Path, int>, from: map<Path, Path>, names: set<Path>, k: Path): int {
    Sum(names, Share(required, from, k))
  }

  lemma DrawnFrame(required: map<Path, int>, from: map<Path, Path>, from': map<Path, Path>, names: set<Path>, k: Path)
    requires forall n :: n in names ==> n in from && n in from' && from[n] == from'[n]
    ensures Drawn(required, from, names, k) == Drawn(required, from', names, k)
  {
    SumCongruence(names, Share(required, from, k), Share(required, from', k));
  }

  /** Usage raised, resource by resource, by what `names` draw under `from`. */
  ghost predicate Raised(before: Usage, after: Usage, required: map<Path, int>, from: map<Path, Path>,
                         names: set<Path>) {
    forall k {:trigger Drawn(required, from, names, k)} ::
        Lookup(after, k) == Lookup(before, k) + Drawn(required, from, names, k)
  }

  lemma RaisedTwice(u: Usage, v: Usage, w: Usage, required: map<Path, int>, f: map<Path, Path>, f': map<Path, Path>,
                    s: set<Path>, t: set<Path>)
    requires Raised(u, v, required, f, s) && Raised(v, w, required, f', t)
    requires s !! t
    requires forall n :: n in s ==> n in f && n in f' && f[n] == f'[n]
    ensures Raised(u, w, required, f', s + t)
  {
    forall k ensures Lookup(w, k) == Lookup(u, k) + Drawn(required, f', s + t, k) {
      DrawnFrame(required, f, f', s, k);
      SumUnion(s, t, Share(required, f', k));
      assert Lookup(v, k) == Lookup(u, k) + Drawn(required, f, s, k);
      assert Lookup(w, k) == Lookup(v, k) + Drawn(required, f', t, k);
    }
  }

  lemma RaiseStep(u: Usage, v: Usage, required: map<Path, int>, f: map<Path, Path>, s: set<Path>, n: Path, k0: Path)
    requires Raised(u, v, required, f, s) && n !in s && n in required
    requires forall m :: m in s ==> m in f
    ensures Raised(u, v[k0 := Lookup(v, k0) + required[n]], required, f[n := k0], s + {n})
  {
    forall k
      ensures Lookup(v[k0 := Lookup(v, k0) + required[n]], k) == Lookup(u, k) + Drawn(required, f[n := k0], s + {n}, k)
    {
      DrawnFrame(required, f, f[n := k0], s, k);
      SumAdd(s, Share(required, f[n := k0], k), n);
      assert Lookup(v, k) == Lookup(u, k) + Drawn(required, f, s, k);
    }
  }

  lemma DrawnNone(required: map<Path, int>, from: map<Path, Path>, names: set<Path>, k: Path)
    requires forall n :: n in names && n in from ==> from[n] != k
    ensures Drawn(required, from, names, k) == 0
  {
    SumCongruence(names, Share(required, from, k), n => 0);
    SumZero(names);
  }

  lemma {:induction false} SumZero(names: set<Path>)
    ensures Sum(names, n => 0) == 0
  {
    if names != {} {
      var x :| x in names;
      SumRemove(names, n => 0, x);
      SumZero(names - {x});
    }
  }

  ghost predicate AgreesOutside(f: map<Path, Path>, f': map<Path, Path>, names: set<Path>) {
    forall n :: n !in names ==> (n in f' <==> n in f) && (n in f' ==> f'[n] == f[n])
  }
}
