/** Topology of a group allocation: resource names are paths of the form
    base/group/index/group/index/.../leaf, and an allocation may only rename indices. */
module Placement {
  type Path = seq<string>

  /** At least group, index and one further segment remain below `base`. */
  predicate IsSub(base: Path, n: Path) {
    base <= n && |base| + 3 <= |n|
  }

  /** `to` has the group names and the leaf of `rel`; only the indices may differ. */
  ghost predicate SameShape(rel: Path, to: Path) {
    if |rel| <= 2 then to == rel else |to| == |rel| && to[0] == rel[0] && SameShape(rel[2..], to[2..])
  }

  /** `n` and `m` lie in the same required group instance `k` levels below `base`. */
  ghost predicate SharesGroup(base: Path, n: Path, m: Path, k: nat) {
    |base| + 2 * k < |n| && |base| + 2 * k < |m| && n[..|base| + 2 * k] == m[..|base| + 2 * k]
  }

  ghost predicate Drawable(reqBase: Path, allocBase: Path, names: set<Path>, from: map<Path, Path>) {
    forall n :: n in names ==>
      n in from && reqBase <= n && allocBase <= from[n] && SameShape(n[|reqBase|..], from[n][|allocBase|..])
  }

  ghost predicate KeepsGroups(reqBase: Path, allocBase: Path, names: set<Path>, from: map<Path, Path>) {
    forall n, m, k: nat :: n in names && m in names && n in from && m in from && SharesGroup(reqBase, n, m, k) ==>
      |allocBase| + 2 * k <= |from[n]| && |allocBase| + 2 * k <= |from[m]| &&
      from[n][..|allocBase| + 2 * k] == from[m][..|allocBase| + 2 * k]
  }

  /** Every name keeps its shape, and names of one required group instance are drawn from one instance. */
  ghost predicate Placed(reqBase: Path, allocBase: Path, names: set<Path>, from: map<Path, Path>) {
    Drawable(reqBase, allocBase, names, from) && KeepsGroups(reqBase, allocBase, names, from)
  }

  lemma {:induction false} SameShapeLength(rel: Path, to: Path)
    requires SameShape(rel, to)
    ensures |rel| == |to|
  {
  }

  lemma PlacedLeaves(reqBase: Path, allocBase: Path, names: set<Path>, from: map<Path, Path>)
    requires forall n :: n in names ==> n in from && reqBase <= n && |n| <= |reqBase| + 2
    requires forall n :: n in names ==> from[n] == allocBase + n[|reqBase|..]
    ensures Placed(reqBase, allocBase, names, from)
  {
    forall n | n in names
      ensures allocBase <= from[n] && SameShape(n[|reqBase|..], from[n][|allocBase|..])
    {
      assert from[n][|allocBase|..] == n[|reqBase|..];
    }
  }

  /** A placement inside one subgroup is a placement of the enclosing group. */
  lemma PlacedInSubGroup(reqBase: Path, allocBase: Path, g: string, i: string, j: string, names: set<Path>,
                         from: map<Path, Path>)
    requires Placed(reqBase + [g, i], allocBase + [g, j], names, from)
    requires forall n :: n in names ==> |reqBase| + 3 <= |n|
    ensures Placed(reqBase, allocBase, names, from)
  {
    var r, a := reqBase + [g, i], allocBase + [g, j];
    forall n | n in names
      ensures reqBase <= n && allocBase <= from[n] && SameShape(n[|reqBase|..], from[n][|allocBase|..])
    {
      var rel, to := n[|reqBase|..], from[n][|allocBase|..];
      assert rel[2..] == n[|r|..] && to[2..] == from[n][|a|..];
      SameShapeLength(n[|r|..], from[n][|a|..]);
      assert n[|reqBase|] == r[|reqBase|] && from[n][|allocBase|] == a[|allocBase|];
    }
    forall n, m, k: nat | n in names && m in names && SharesGroup(reqBase, n, m, k)
      ensures |allocBase| + 2 * k <= |from[n]| && |allocBase| + 2 * k <= |from[m]|
      ensures from[n][..|allocBase| + 2 * k] == from[m][..|allocBase| + 2 * k]
    {
      if k == 0 {
        assert from[n][..|allocBase|] == allocBase == from[m][..|allocBase|];
      } else {
        assert SharesGroup(r, n, m, k - 1);
      }
    }
  }

  /** What is drawn for a name of a sub group instance is in an instance of the same group. */
  lemma DrawnInGroup(reqBase: Path, allocBase: Path, g: string, i: string, names: set<Path>, from: map<Path, Path>,
                     n: Path)
    requires Placed(reqBase, allocBase, names, from) && n in names
    requires IsSub(reqBase, n) && n[|reqBase|] == g && n[|reqBase| + 1] == i
    ensures IsSub(allocBase, from[n]) && |from[n]| - |allocBase| == |n| - |reqBase| && from[n][|allocBase|] == g
    ensures SameShape(n[|reqBase| + 2..], from[n][|allocBase| + 2..])
  {
    var rel, to := n[|reqBase|..], from[n][|allocBase|..];
    SameShapeLength(rel, to);
    assert to[0] == rel[0] && SameShape(rel[2..], to[2..]);
    assert rel[2..] == n[|reqBase| + 2..] && to[2..] == from[n][|allocBase| + 2..];
  }

  ghost predicate InInstance(base: Path, names: set<Path>, g: string, i: string) {
    forall n :: n in names ==> IsSub(base, n) && n[|base|] == g && n[|base| + 1] == i
  }

  /** All names of a sub group instance are drawn from one instance, which a name `m` tells. */
  lemma DrawnBelow(reqBase: Path, allocBase: Path, g: string, i: string, names: set<Path>, from: map<Path, Path>,
                   m: Path, n: Path)
    requires Placed(reqBase, allocBase, names, from) && InInstance(reqBase, names, g, i) && m in names && n in names
    ensures IsSub(allocBase, from[m]) && IsSub(allocBase, from[n])
    ensures from[n][..|allocBase| + 2] == allocBase + [g, from[m][|allocBase| + 1]]
  {
    DrawnInGroup(reqBase, allocBase, g, i, names, from, n);
    DrawnInGroup(reqBase, allocBase, g, i, names, from, m);
    assert n[..|reqBase| + 2] == reqBase + [g, i] == m[..|reqBase| + 2];
    assert SharesGroup(reqBase, n, m, 1);
    assert from[n][..|allocBase| + 2] == from[m][..|allocBase| + 2] == allocBase + [g, from[m][|allocBase| + 1]];
  }

  /** Conversely, a placement of one subgroup's names in the enclosing group is inside an instance of the subgroup. */
  lemma PlacedBelow(reqBase: Path, allocBase: Path, g: string, i: string, names: set<Path>, from: map<Path, Path>,
                    m: Path)
    requires Placed(reqBase, allocBase, names, from) && InInstance(reqBase, names, g, i) && m in names
    ensures IsSub(allocBase, from[m])
    ensures Placed(reqBase + [g, i], allocBase + [g, from[m][|allocBase| + 1]], names, from)
  {
    DrawnBelow(reqBase, allocBase, g, i, names, from, m, m);
    var r, a := reqBase + [g, i], allocBase + [g, from[m][|allocBase| + 1]];
    forall n | n in names ensures r <= n && a <= from[n] && SameShape(n[|r|..], from[n][|a|..]) {
      DrawnInGroup(reqBase, allocBase, g, i, names, from, n);
      DrawnBelow(reqBase, allocBase, g, i, names, from, m, n);
      assert n[..|reqBase| + 2] == r;
    }
    forall n, n', k: nat | n in names && n' in names && SharesGroup(r, n, n', k)
      ensures |a| + 2 * k <= |from[n]| && |a| + 2 * k <= |from[n']| && from[n][..|a| + 2 * k] == from[n'][..|a| + 2 * k]
    {
      assert SharesGroup(reqBase, n, n', k + 1);
    }
  }

  lemma SharesOutermost(base: Path, n: Path, m: Path, k: nat)
    requires SharesGroup(base, n, m, k)
    ensures k > 0 ==> SharesGroup(base, n, m, 1) && SharesGroup(base, m, n, 1)
  {
    if k > 0 {
      assert n[..|base| + 2] == n[..|base| + 2 * k][..|base| + 2];
      assert m[..|base| + 2] == m[..|base| + 2 * k][..|base| + 2];
    }
  }

  /** Placements of two parts that share no proper subgroup combine. */
  lemma PlacedUnion(reqBase: Path, allocBase: Path, s: set<Path>, t: set<Path>, from: map<Path, Path>)
    requires Placed(reqBase, allocBase, s, from) && Placed(reqBase, allocBase, t, from)
    requires forall n, m :: n in s && m in t ==> !SharesGroup(reqBase, n, m, 1)
    ensures Placed(reqBase, allocBase, s + t, from)
  {
    forall n, m, k: nat | n in s + t && m in s + t && SharesGroup(reqBase, n, m, k)
      ensures |allocBase| + 2 * k <= |from[n]| && |allocBase| + 2 * k <= |from[m]|
      ensures from[n][..|allocBase| + 2 * k] == from[m][..|allocBase| + 2 * k]
    {
      SharesOutermost(reqBase, n, m, k);
      if k == 0 {
        assert from[n][..|allocBase|] == allocBase == from[m][..|allocBase|];
      }
    }
  }

  lemma PlacedFrame(reqBase: Path, allocBase: Path, names: set<Path>, from: map<Path, Path>, from': map<Path, Path>)
    requires Placed(reqBase, allocBase, names, from)
    requires forall n :: n in names ==> n in from' && from'[n] == from[n]
    ensures Placed(reqBase, allocBase, names, from')
  {
  }

  // ---- The map of group instances ----

  /** `p` is the required group instance that `n` lies in `k` levels below `base`. */
  ghost predicate LiesIn(base: Path, n: Path, k: nat, p: Path) {
    |base| + 2 * k < |n| && p == n[..|base| + 2 * k]
  }

  /** Where group instance `p` goes, read off any name in it. */
  ghost function PlaceOf(reqBase: Path, allocBase: Path, names: set<Path>, from: map<Path, Path>, p: Path, k: nat): Path
    requires Placed(reqBase, allocBase, names, from) && exists n :: n in names && LiesIn(reqBase, n, k, p)
  {
    var n :| n in names && LiesIn(reqBase, n, k, p);
    assert SharesGroup(reqBase, n, n, k);
    from[n][..|allocBase| + 2 * k]
  }

  lemma {:induction false} SameShapeAt(rel: Path, to: Path, k: nat)
    requires SameShape(rel, to) && 2 * k < |rel|
    ensures |to| == |rel|
    ensures 2 * k + 2 < |rel| ==> to[2 * k] == rel[2 * k]
    ensures |rel| <= 2 * k + 2 ==> to[2 * k..] == rel[2 * k..]
  {
    if k > 0 {
      SameShapeAt(rel[2..], to[2..], k - 1);
      assert |rel| <= 2 * k + 2 ==> to[2..][2 * k - 2..] == to[2 * k..] && rel[2..][2 * k - 2..] == rel[2 * k..];
    } else if |rel| > 2 {
      SameShapeLength(rel, to);
    }
  }

  lemma NamesAgree(reqBase: Path, allocBase: Path, names: set<Path>, from: map<Path, Path>, n: Path, m: Path, k: nat,
                   p: Path)
    requires Placed(reqBase, allocBase, names, from) && n in names && m in names
    requires LiesIn(reqBase, n, k, p) && LiesIn(reqBase, m, k, p)
    ensures |allocBase| + 2 * k <= |from[n]| && |allocBase| + 2 * k <= |from[m]|
    ensures from[n][..|allocBase| + 2 * k] == from[m][..|allocBase| + 2 * k]
  {
    assert SharesGroup(reqBase, n, m, k);
  }

  lemma AnyNameTells(reqBase: Path, allocBase: Path, names: set<Path>, from: map<Path, Path>, n: Path, k: nat, p: Path)
    requires Placed(reqBase, allocBase, names, from) && n in names && LiesIn(reqBase, n, k, p)
    ensures |allocBase| + 2 * k <= |from[n]| &&
            PlaceOf(reqBase, allocBase, names, from, p, k) == from[n][..|allocBase| + 2 * k]
  {
    NamesAgree(reqBase, allocBase, names, from, n, n, k, p);
    forall m | m in names && LiesIn(reqBase, m, k, p)
      ensures |allocBase| + 2 * k <= |from[m]| && from[m][..|allocBase| + 2 * k] == from[n][..|allocBase| + 2 * k]
    {
      NamesAgree(reqBase, allocBase, names, from, n, m, k, p);
    }
  }

  /**
   * An allocation is one parent-consistent map of group instances: the instance `q` in `p` goes to an instance `j` of
   * the same group below the place of `p`, and a leaf is drawn from the place of its group.
   */
  lemma PlacementIsMap(reqBase: Path, allocBase: Path, names: set<Path>, from: map<Path, Path>, n: Path, k: nat,
                       p: Path, q: Path)
      returns (j: string)
    requires Placed(reqBase, allocBase, names, from) && n in names && LiesIn(reqBase, n, k, p)
    ensures k == 0 ==> PlaceOf(reqBase, allocBase, names, from, p, k) == allocBase
    ensures LiesIn(reqBase, n, k + 1, q) ==>
      PlaceOf(reqBase, allocBase, names, from, q, k + 1) == PlaceOf(reqBase, allocBase, names, from, p, k) + [n[|p|], j]
    ensures |n| <= |p| + 2 ==> from[n] == PlaceOf(reqBase, allocBase, names, from, p, k) + n[|p|..]
  {
    var rel, to := n[|reqBase|..], from[n][|allocBase|..];
    AnyNameTells(reqBase, allocBase, names, from, n, k, p);
    SameShapeAt(rel, to, k);
    assert from[n] == allocBase + to && n == reqBase + rel;
    j := "";
    if LiesIn(reqBase, n, k + 1, q) {
      AnyNameTells(reqBase, allocBase, names, from, n, k + 1, q);
      j := to[2 * k + 1];
      assert from[n][..|allocBase| + 2 * k + 2] == from[n][..|allocBase| + 2 * k] + [rel[2 * k], j];
    } else if |n| <= |p| + 2 {
      assert from[n] == from[n][..|allocBase| + 2 * k] + to[2 * k..] && n[|p|..] == rel[2 * k..];
    }
  }
}
