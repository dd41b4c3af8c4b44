/** The order in which NodeTree.Next of kube-scheduler/pkg/internal/cache/node_tree.go visits nodes, zone by zone. */
module NodeRing {
  import opened Collections

  /** The nodes of each zone, how many of them were visited since the last reset, and the zone to look at next. */
  datatype Ring = Ring(nodes: seq<seq<string>>, last: seq<nat>, zone: nat)
  {
    ghost predicate Valid() {
      && |nodes| == |last| && |nodes| > 0
      && (forall z :: 0 <= z < |nodes| ==> |nodes[z]| > 0)
    }

    /** No zone was visited beyond its nodes. */
    ghost predicate InRange() {
      |nodes| == |last| && forall z :: 0 <= z < |nodes| ==> last[z] <= |nodes[z]|
    }

    ghost predicate Live(z: nat)
      requires |nodes| == |last| && z < |nodes|
    {
      last[z] < |nodes[z]|
    }

    ghost predicate Exhausted() {
      |nodes| == |last| && forall z :: 0 <= z < |nodes| ==> !Live(z)
    }

    /** Nothing visited yet: the state of a new tree and of one just reset. */
    ghost predicate Fresh() {
      zone == 0 && |nodes| == |last| && forall z :: 0 <= z < |last| ==> last[z] == 0
    }

    ghost function Reset(): Ring {
      Ring(nodes, seq(|nodes|, z => 0), 0)
    }

    /** The first zone with unvisited nodes among `n` zones from `z` on, around the ring. */
    ghost function Find(z: nat, n: nat): (r: Option<nat>)
      requires Valid() && z < |nodes|
      ensures r.Some? ==> r.value < |nodes| && Live(r.value)
      decreases n
    {
      if n == 0 then None
      else if Live(z) then Some(z)
      else Find(if z + 1 < |nodes| then z + 1 else 0, n - 1)
    }

    ghost function Start(): nat {
      if zone >= |nodes| then 0 else zone
    }

    /** The zone of the next node; with none left, the first zone of a new sweep. */
    ghost function Chosen(): nat
      requires Valid()
    {
      var f := Find(Start(), |nodes|);
      if f.Some? then f.value else 0
    }

    /** The ring the next visit starts from: this one, or a reset one when every zone is exhausted. */
    ghost function Base(): Ring
      requires Valid()
    {
      if Find(Start(), |nodes|).Some? then this else Reset()
    }

    ghost function Next(): (r: Ring)
      requires Valid()
      ensures r.Valid() && r.nodes == nodes
    {
      var z := Chosen();
      Ring(nodes, Base().last[z := Base().last[z] + 1], z + 1)
    }

    /** Zone and position of the node visited next. */
    ghost function Visit(): (p: (nat, nat))
      requires Valid()
      ensures p.0 < |nodes| && p.1 < |nodes[p.0]|
    {
      (Chosen(), Base().last[Chosen()])
    }

    /** The name that Next returns. */
    ghost function Name(): string
      requires Valid()
    {
      nodes[Visit().0][Visit().1]
    }
  }

  function TotalOf(s: seq<nat>): nat {
    if s == [] then 0 else TotalOf(s[..|s| - 1]) + s[|s| - 1]
  }

  function Sizes(nodes: seq<seq<string>>): seq<nat> {
    seq(|nodes|, z requires 0 <= z < |nodes| => |nodes[z]|)
  }

  lemma {:induction false} TotalUpdate(s: seq<nat>, z: nat, x: nat)
    requires z < |s|
    ensures TotalOf(s[z := x]) == TotalOf(s) - s[z] + x
  {
    var n := |s| - 1;
    if z < n {
      TotalUpdate(s[..n], z, x);
      assert s[z := x][..n] == s[..n][z := x];
    } else {
      assert s[z := x][..n] == s[..n];
    }
  }

  /** Pointwise below and of equal total means equal. */
  lemma {:induction false} TotalsEqual(s: seq<nat>, t: seq<nat>)
    requires |s| == |t| && forall z :: 0 <= z < |s| ==> s[z] <= t[z]
    ensures TotalOf(s) <= TotalOf(t)
    ensures TotalOf(s) == TotalOf(t) ==> s == t
  {
    if s != [] {
      var n := |s| - 1;
      TotalsEqual(s[..n], t[..n]);
      if TotalOf(s) == TotalOf(t) {
        assert s == s[..n] + [s[n]] && t == t[..n] + [t[n]];
      }
    }
  }

  lemma {:induction false} TotalZero(n: nat)
    ensures TotalOf(seq(n, z => 0)) == 0
  {
    if n > 0 {
      TotalZero(n - 1);
      var s: seq<nat> := seq(n, z => 0);
      assert s[..n - 1] == seq(n - 1, z => 0);
    }
  }

  /** Position `i` further around a ring of `n`. */
  function Around(n: nat, z: nat, i: nat): nat {
    if z + i < n then z + i else z + i - n
  }

  /** A search that fails has passed exhausted zones only. */
  lemma {:induction false} FindMisses(r: Ring, z: nat, n: nat, i: nat)
    requires r.Valid() && z < |r.nodes| && i < n <= |r.nodes| && r.Find(z, n).None?
    ensures Around(|r.nodes|, z, i) < |r.nodes| && !r.Live(Around(|r.nodes|, z, i))
    decreases n
  {
    if i > 0 {
      FindMisses(r, if z + 1 < |r.nodes| then z + 1 else 0, n - 1, i - 1);
    }
  }

  /** Searching all around the ring finds a zone if there is one. */
  lemma FindNone(r: Ring, z: nat)
    requires r.Valid() && z < |r.nodes|
    ensures r.Find(z, |r.nodes|).None? <==> r.Exhausted()
  {
    if r.Find(z, |r.nodes|).None? {
      forall y | 0 <= y < |r.nodes| ensures !r.Live(y) {
        FindMisses(r, z, |r.nodes|, if y >= z then y - z else y - z + |r.nodes|);
      }
    }
  }

  /** A visit while some zone has unvisited nodes. */
  lemma VisitLive(r: Ring)
    requires r.Valid() && !r.Exhausted()
    ensures r.Visit() == (r.Chosen(), r.last[r.Chosen()]) && r.Live(r.Chosen())
    ensures r.Next() == Ring(r.nodes, r.last[r.Chosen() := r.last[r.Chosen()] + 1], r.Chosen() + 1)
  {
    FindNone(r, r.Start());
  }

  /** A visit with all zones exhausted is the first visit of a reset ring. */
  lemma VisitExhausted(r: Ring)
    requires r.Valid() && r.Exhausted()
    ensures r.Visit() == r.Reset().Visit() == (0, 0) && r.Next() == r.Reset().Next()
  {
    FindNone(r, r.Start());
    assert r.Reset().Live(0) && r.Reset().Find(0, |r.nodes|) == Some(0);
  }

  ghost function Count(r: Ring): nat {
    TotalOf(Sizes(r.nodes))
  }

  lemma AllVisited(r: Ring)
    requires r.InRange()
    ensures r.Exhausted() <==> TotalOf(r.last) == Count(r)
  {
    TotalsEqual(r.last, Sizes(r.nodes));
    if r.Exhausted() {
      forall z | 0 <= z < |r.nodes| ensures r.last[z] == Sizes(r.nodes)[z] {
        assert !r.Live(z);
      }
      assert r.last == Sizes(r.nodes);
    } else {
      var z :| 0 <= z < |r.nodes| && r.Live(z);
      assert r.last[z] != Sizes(r.nodes)[z];
    }
  }

  // ---- Round robin ----

  /** A search that ends at `y` has passed exhausted zones only. */
  lemma {:induction false} FindIsFirst(r: Ring, z: nat, n: nat, y: nat) returns (i: nat)
    requires r.Valid() && z < |r.nodes| && n <= |r.nodes| && r.Find(z, n) == Some(y)
    ensures i < n && y == Around(|r.nodes|, z, i)
    ensures forall m :: 0 <= m < i ==> Around(|r.nodes|, z, m) < |r.nodes| && !r.Live(Around(|r.nodes|, z, m))
    decreases n
  {
    if r.Live(z) {
      i := 0;
    } else {
      var next := if z + 1 < |r.nodes| then z + 1 else 0;
      i := FindIsFirst(r, next, n - 1, y);
      i := i + 1;
      forall m | 0 <= m < i ensures Around(|r.nodes|, z, m) < |r.nodes| && !r.Live(Around(|r.nodes|, z, m)) {
        assert m > 0 ==> Around(|r.nodes|, z, m) == Around(|r.nodes|, next, m - 1);
      }
    }
  }

  /** The zones before `zone` have had their turn in round number `round`, as far as they have so many nodes. */
  ghost predicate InRound(r: Ring, round: nat) {
    && r.Valid() && r.zone <= |r.nodes|
    && forall z :: 0 <= z < |r.nodes| ==>
         r.last[z] == if |r.nodes[z]| <= round then |r.nodes[z]| else if z < r.zone then round + 1 else round
  }

  /** `p` comes before `q` when the zones take turns: in an earlier round, or in the same round in an earlier zone. */
  ghost predicate EarlierTurn(p: (nat, nat), q: (nat, nat)) {
    p.1 < q.1 || (p.1 == q.1 && p.0 < q.0)
  }

  /** The next visit is to the next zone in this round, or to the first one of the next round if there is none. */
  lemma NextTurn(r: Ring, round: nat)
    requires InRound(r, round) && !r.Exhausted()
    ensures var p := r.Visit();
      && InRound(r.Next(), p.1) && r.Next().zone == p.0 + 1
      && ((p.1 == round && r.zone <= p.0) || p.1 == round + 1)
  {
    VisitLive(r);
    var start, y := r.Start(), r.Chosen();
    FindNone(r, start);
    var i := FindIsFirst(r, start, |r.nodes|, y);
    forall z | 0 <= z < |r.nodes| && (if start <= y then start <= z < y else start <= z || z < y) ensures !r.Live(z) {
      var m := if z >= start then z - start else z - start + |r.nodes|;
      assert Around(|r.nodes|, start, m) == z;
    }
    var p, r' := r.Visit(), r.Next();
    assert r.Live(y) && p == (y, r.last[y]);
    forall z | 0 <= z < |r.nodes|
      ensures r'.last[z] == if |r.nodes[z]| <= p.1 then |r.nodes[z]| else if z < y + 1 then p.1 + 1 else p.1
    {
      assert r.Live(z) <==> r.last[z] < |r.nodes[z]|;
    }
  }

  lemma {:induction false} SweepRound(run: seq<Ring>, k: nat)
    requires IsRun(run) && k + 1 < |run| && k < Count(run[0])
    ensures InRound(run[k + 1], run[k].Visit().1) && run[k + 1].zone == run[k].Visit().0 + 1
    ensures k > 0 ==> EarlierTurn(run[k - 1].Visit(), run[k].Visit())
  {
    FirstSweep(run, k);
    assert run[k + 1] == run[k].Next();
    if k == 0 {
      NextTurn(run[0], 0);
    } else {
      SweepRound(run, k - 1);
      NextTurn(run[k], run[k - 1].Visit().1);
    }
  }

  /** In a sweep the zones take turns, each with its next node. */
  lemma {:induction false} RoundRobin(run: seq<Ring>, i: nat, j: nat)
    requires IsRun(run) && i < j && j + 1 < |run| && j < Count(run[0])
    ensures EarlierTurn(run[i].Visit(), run[j].Visit())
    decreases j
  {
    SweepRound(run, j);
    if i < j - 1 {
      RoundRobin(run, i, j - 1);
    }
  }

  /** Consecutive visits without a change of the tree, from a fresh ring. */
  ghost predicate IsRun(run: seq<Ring>) {
    && |run| > 0 && run[0].Valid() && run[0].Fresh()
    && (forall i :: 0 <= i < |run| ==> run[i].Valid() && run[i].nodes == run[0].nodes)
    && (forall i {:trigger run[i].Next()} :: 0 <= i < |run| - 1 ==> run[i + 1] == run[i].Next())
  }

  /** Within the first sweep every visit goes to an unvisited node. */
  lemma {:induction false} FirstSweep(run: seq<Ring>, k: nat)
    requires IsRun(run) && k < |run| && k <= Count(run[0])
    ensures run[k].InRange() && TotalOf(run[k].last) == k
    ensures run[k].Exhausted() <==> k == Count(run[0])
  {
    if k == 0 {
      TotalZero(|run[0].nodes|);
      assert run[0].last == seq(|run[0].nodes|, z => 0);
    } else {
      FirstSweep(run, k - 1);
      var a := run[k - 1];
      VisitLive(a);
      TotalUpdate(a.last, a.Chosen(), a.last[a.Chosen()] + 1);
      assert run[k] == a.Next();
    }
    AllVisited(run[k]);
  }

  lemma SweepStep(run: seq<Ring>, k: nat)
    requires IsRun(run) && k + 1 < |run| && k < Count(run[0])
    ensures run[k].Live(run[k].Visit().0) && run[k].Visit().1 == run[k].last[run[k].Visit().0]
    ensures run[k + 1].last == run[k].last[run[k].Visit().0 := run[k].Visit().1 + 1]
  {
    FirstSweep(run, k);
    VisitLive(run[k]);
    assert run[k + 1] == run[k].Next();
  }

  lemma {:induction false} LastGrows(run: seq<Ring>, i: nat, j: nat, z: nat)
    requires IsRun(run) && i <= j < |run| && j <= Count(run[0]) && z < |run[0].nodes|
    ensures run[i].last[z] <= run[j].last[z]
    decreases j
  {
    if i < j {
      LastGrows(run, i, j - 1, z);
      SweepStep(run, j - 1);
    }
  }

  lemma PlacesDiffer(run: seq<Ring>, i: nat, j: nat)
    requires IsRun(run) && i < j < |run| - 1 && j < Count(run[0])
    ensures run[i].Visit() != run[j].Visit()
  {
    SweepStep(run, i);
    SweepStep(run, j);
    LastGrows(run, i + 1, j, run[i].Visit().0);
  }

  /** Every visited place was visited by some visit. */
  lemma {:induction false} VisitedBy(run: seq<Ring>, k: nat, p: (nat, nat)) returns (m: nat)
    requires IsRun(run) && k < |run| && k <= Count(run[0])
    requires p.0 < |run[0].nodes| && p.1 < run[k].last[p.0]
    ensures m < k && run[m].Visit() == p
    decreases k
  {
    assert k > 0;
    SweepStep(run, k - 1);
    if p.1 < run[k - 1].last[p.0] {
      m := VisitedBy(run, k - 1, p);
    } else {
      m := k - 1;
    }
  }

  lemma SweepEnds(run: seq<Ring>)
    requires IsRun(run) && Count(run[0]) + 1 < |run|
    ensures run[Count(run[0])].Visit() == run[0].Visit() && run[Count(run[0]) + 1] == run[1]
  {
    var n := Count(run[0]);
    FirstSweep(run, n);
    VisitExhausted(run[n]);
    assert run[n].Reset() == run[0];
    assert run[n + 1] == run[n].Next() && run[1] == run[0].Next();
  }

  lemma SameNext(run: seq<Ring>, i: nat, j: nat)
    requires IsRun(run) && i + 1 < |run| && j + 1 < |run| && run[i] == run[j]
    ensures run[i].Visit() == run[j].Visit() && run[i + 1] == run[j + 1]
  {
    assert run[i + 1] == run[i].Next() && run[j + 1] == run[j].Next();
  }

  /** After a whole sweep the visits start over. */
  lemma {:induction false} Periodic(run: seq<Ring>, k: nat)
    requires IsRun(run) && k + Count(run[0]) + 1 < |run|
    ensures run[k + Count(run[0])].Visit() == run[k].Visit() && run[k + Count(run[0]) + 1] == run[k + 1]
    decreases k
  {
    if k == 0 {
      SweepEnds(run);
    } else {
      Periodic(run, k - 1);
      SameNext(run, k + Count(run[0]), k);
    }
  }

  lemma FirstWindow(run: seq<Ring>, p: (nat, nat)) returns (m: nat)
    requires IsRun(run) && Count(run[0]) < |run| && p.0 < |run[0].nodes| && p.1 < |run[0].nodes[p.0]|
    ensures m < Count(run[0]) && run[m].Visit() == p
    ensures forall j :: 0 <= j < Count(run[0]) && run[j].Visit() == p ==> j == m
  {
    var n := Count(run[0]);
    FirstSweep(run, n);
    assert !run[n].Live(p.0);
    m := VisitedBy(run, n, p);
    forall j | 0 <= j < n && run[j].Visit() == p ensures j == m {
      if j < m { PlacesDiffer(run, j, m); }
      if m < j { PlacesDiffer(run, m, j); }
    }
  }

  ghost function VisitsOf(run: seq<Ring>): (v: seq<(nat, nat)>)
    requires IsRun(run)
    ensures |v| == |run| && forall i :: 0 <= i < |v| ==> v[i] == run[i].Visit()
  {
    seq(|run|, i requires 0 <= i < |run| => run[i].Visit())
  }

  /** Among the `n` visits from `start` on, visit `m` goes to `p`, and no other does. */
  ghost predicate OnceIn(v: seq<(nat, nat)>, start: nat, n: nat, p: (nat, nat), m: nat) {
    start <= m < start + n <= |v| && v[m] == p && forall j :: start <= j < start + n && v[j] == p ==> j == m
  }

  ghost predicate RepeatsAt(v: seq<(nat, nat)>, n: nat, k: nat) {
    k + n < |v| && v[k + n] == v[k]
  }

  lemma OnceShift(v: seq<(nat, nat)>, start: nat, n: nat, p: (nat, nat), m: nat)
    requires OnceIn(v, start, n, p, m) && RepeatsAt(v, n, start)
    ensures OnceIn(v, start + 1, n, p, if m == start then start + n else m)
  {
  }

  /** What repeats after `n` visits is once in each `n` visits if it is in the first. */
  lemma {:induction false} OnceAnywhere(v: seq<(nat, nat)>, start: nat, n: nat, p: (nat, nat), first: nat)
      returns (m: nat)
    requires OnceIn(v, 0, n, p, first) && forall k: nat :: k < start ==> RepeatsAt(v, n, k)
    ensures OnceIn(v, start, n, p, m)
    decreases start
  {
    m := first;
    if start > 0 {
      var m0 := OnceAnywhere(v, start - 1, n, p, first);
      assert RepeatsAt(v, n, start - 1);
      OnceShift(v, start - 1, n, p, m0);
      m := if m0 == start - 1 then start - 1 + n else m0;
    }
  }

  lemma VisitsRepeat(run: seq<Ring>, v: seq<(nat, nat)>, k: nat)
    requires IsRun(run) && v == VisitsOf(run) && k + Count(run[0]) + 1 < |run|
    ensures RepeatsAt(v, Count(run[0]), k)
  {
    Periodic(run, k);
  }

  lemma FirstOnce(run: seq<Ring>, v: seq<(nat, nat)>, p: (nat, nat)) returns (m: nat)
    requires IsRun(run) && v == VisitsOf(run) && Count(run[0]) < |run|
    requires p.0 < |run[0].nodes| && p.1 < |run[0].nodes[p.0]|
    ensures OnceIn(v, 0, Count(run[0]), p, m)
  {
    m := FirstWindow(run, p);
  }

  lemma WindowOnce(run: seq<Ring>, v: seq<(nat, nat)>, start: nat, p: (nat, nat)) returns (m: nat)
    requires IsRun(run) && v == VisitsOf(run) && start + Count(run[0]) < |run|
    requires p.0 < |run[0].nodes| && p.1 < |run[0].nodes[p.0]|
    ensures OnceIn(v, start, Count(run[0]), p, m)
  {
    var first := FirstOnce(run, v, p);
    forall k: nat | k < start ensures RepeatsAt(v, Count(run[0]), k) {
      VisitsRepeat(run, v, k);
    }
    m := OnceAnywhere(v, start, Count(run[0]), p, first);
  }

  /** Any window of as many visits as there are nodes, wherever it starts and even across a reset, visits every place
      exactly once: some visit of the window goes there, and no other visit of the window does. */
  lemma WindowVisitsEachOnce(run: seq<Ring>, start: nat, p: (nat, nat)) returns (m: nat)
    requires IsRun(run) && start + Count(run[0]) < |run| && p.0 < |run[0].nodes| && p.1 < |run[0].nodes[p.0]|
    ensures start <= m < start + Count(run[0]) && run[m].Visit() == p
    ensures forall j :: start <= j < start + Count(run[0]) && run[j].Visit() == p ==> j == m
  {
    var v := VisitsOf(run);
    m := WindowOnce(run, v, start, p);
    forall j | start <= j < start + Count(run[0]) && run[j].Visit() == p ensures j == m {
      assert v[j] == p;
    }
  }

  // ---- Places and names ----

  ghost predicate IsPlace(nodes: seq<seq<string>>, p: (nat, nat)) {
    p.0 < |nodes| && p.1 < |nodes[p.0]|
  }

  ghost function NameAt(nodes: seq<seq<string>>, p: (nat, nat)): string
    requires IsPlace(nodes, p)
  {
    nodes[p.0][p.1]
  }

  /** No name is at two places. */
  ghost predicate NamesDiffer(nodes: seq<seq<string>>) {
    forall p, q :: IsPlace(nodes, p) && IsPlace(nodes, q) && p != q ==> NameAt(nodes, p) != NameAt(nodes, q)
  }

  /** The names that the visits return. */
  ghost function NamesOf(run: seq<Ring>): (names: seq<string>)
    requires IsRun(run)
    ensures |names| == |run| && forall i :: 0 <= i < |names| ==> names[i] == run[i].Name()
  {
    seq(|run|, i requires 0 <= i < |run| => run[i].Name())
  }

  ghost predicate DifferIn(names: seq<string>, start: nat, n: nat)
    requires start + n <= |names|
  {
    forall i, j :: start <= i < j < start + n ==> names[i] != names[j]
  }

  /** The names returned in the window of a sweep's length that begins at `start`. */
  ghost predicate WindowNamesDiffer(run: seq<Ring>, start: nat)
    requires IsRun(run) && start + Count(run[0]) < |run|
  {
    DifferIn(NamesOf(run), start, Count(run[0]))
  }

  lemma PlacesDifferInWindow(run: seq<Ring>, start: nat, i: nat, j: nat)
    requires IsRun(run) && start + Count(run[0]) < |run| && start <= i < j < start + Count(run[0])
    ensures run[i].Visit() != run[j].Visit()
  {
    var m := WindowVisitsEachOnce(run, start, run[i].Visit());
  }

  lemma DifferentNames(run: seq<Ring>, start: nat, i: nat, j: nat)
    requires IsRun(run) && start + Count(run[0]) < |run| && start <= i < j < start + Count(run[0])
    requires NamesDiffer(run[0].nodes)
    ensures run[i].Name() != run[j].Name()
  {
    PlacesDifferInWindow(run, start, i, j);
    assert NameAt(run[0].nodes, run[i].Visit()) != NameAt(run[0].nodes, run[j].Visit());
  }

  lemma DifferentPlaces(run: seq<Ring>, names: seq<string>, start: nat, p: (nat, nat), q: (nat, nat))
    requires IsRun(run) && start + Count(run[0]) < |run| && names == NamesOf(run)
    requires DifferIn(names, start, Count(run[0]))
    requires IsPlace(run[0].nodes, p) && IsPlace(run[0].nodes, q) && p != q
    ensures NameAt(run[0].nodes, p) != NameAt(run[0].nodes, q)
  {
    var m := VisitOf(run, start, p);
    var l := VisitOf(run, start, q);
    assert names[m] == NameAt(run[0].nodes, p) && names[l] == NameAt(run[0].nodes, q);
  }

  /** A window returns different names exactly when no name is at two places. */
  lemma WindowNames(run: seq<Ring>, start: nat)
    requires IsRun(run) && start + Count(run[0]) < |run|
    ensures WindowNamesDiffer(run, start) <==> NamesDiffer(run[0].nodes)
  {
    var nodes, names := run[0].nodes, NamesOf(run);
    if NamesDiffer(nodes) {
      forall i, j | start <= i < j < start + Count(run[0]) ensures names[i] != names[j] {
        DifferentNames(run, start, i, j);
      }
    }
    if WindowNamesDiffer(run, start) {
      forall p, q | IsPlace(nodes, p) && IsPlace(nodes, q) && p != q ensures NameAt(nodes, p) != NameAt(nodes, q) {
        DifferentPlaces(run, names, start, p, q);
      }
    }
  }

  lemma VisitOf(run: seq<Ring>, start: nat, p: (nat, nat)) returns (m: nat)
    requires IsRun(run) && start + Count(run[0]) < |run| && IsPlace(run[0].nodes, p)
    ensures start <= m < start + Count(run[0]) && run[m].Visit() == p && run[m].Name() == NameAt(run[0].nodes, p)
  {
    m := WindowVisitsEachOnce(run, start, p);
  }
}
