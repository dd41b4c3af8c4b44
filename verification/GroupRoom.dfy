/** Where the allocator cannot fail: ample room for a group at a location is ample room for each of its sub groups below
    it, and goes on being ample for those that are left while others are placed. */
module GroupRoom {
  import opened Collections
  import opened Scorer
  import opened Placement
  import opened ResourceUsage
  import opened SubGroupTable
  import opened GroupAllocation

  ghost predicate Asks(task: Task, names: set<Path>) {
    forall n :: n in names ==> n in task.required && task.required[n] >= 0
  }

  lemma LoadGrows(task: Task, names: set<Path>, more: set<Path>)
    requires Asks(task, names + more) && names !! more
    ensures 0 <= task.Load(names) <= task.Load(names) + task.Load(more) == task.Load(names + more)
  {
    SumUnion(names, more, task.Request());
    SumNonNegative(names, task.Request());
    SumNonNegative(more, task.Request());
  }

  /** What is drawn from one resource is part of what is requested. */
  lemma DrawnWithinLoad(task: Task, from: map<Path, Path>, names: set<Path>, k: Path)
    requires Asks(task, names)
    ensures 0 <= Drawn(task.required, from, names, k) <= task.Load(names)
  {
    var share := Share(task.required, from, k);
    SumNonNegative(names, share);
    SumMonotone(names, share, task.Request());
  }

  lemma StaysRegular(task: Task, names: set<Path>, s: State, t: State)
    requires task.Regular(s.node) && task.Stepwise(names, s, t) && Asks(task, names)
    ensures task.Regular(t.node)
  {
    forall k | k in task.allocatable ensures 0 <= Lookup(t.node, k) <= task.allocatable[k] {
      DrawnWithinLoad(task, t.from, names, k);
    }
  }

  lemma FewerPlaced(g: Group, loc: string, names: set<Path>, fewer: set<Path>, from: map<Path, Path>)
    requires g.PlacedAt(loc, names, from) && fewer <= names
    ensures g.PlacedAt(loc, fewer, from)
  {
  }

  /** Once some names are placed, anywhere, there is ample room for the others where there was for all. */
  lemma AmpleForRest(g: Group, loc: string, names: set<Path>, rest: set<Path>, from: map<Path, Path>, s: State,
                     t: State)
    requires g.task.Regular(s.node) && g.Ample(loc, names + rest, from, s.node)
    requires Asks(g.task, names + rest) && names !! rest && g.task.Stepwise(names, s, t)
    ensures g.Ample(loc, rest, from, t.node)
  {
    FewerPlaced(g, loc, names + rest, rest, from);
    LoadGrows(g.task, names, rest);
    forall n | n in rest ensures Lookup(t.node, from[n]) + g.task.Load(rest) <= Lookup(g.task.allocatable, from[n]) {
      assert n in names + rest;
      DrawnWithinLoad(g.task, t.from, names, from[n]);
    }
  }

  lemma RoomyForRest(g: Group, loc: string, names: set<Path>, rest: set<Path>, s: State, t: State)
    requires g.RoomyFor(loc, names + rest, s.node) && Asks(g.task, names + rest) && names !! rest
    requires g.task.Stepwise(names, s, t)
    ensures g.RoomyFor(loc, rest, t.node)
  {
    var from :| g.Ample(loc, names + rest, from, s.node);
    AmpleForRest(g, loc, names, rest, from, s, t);
    StaysRegular(g.task, names, s, t);
  }

  lemma AmpleForSome(g: Group, loc: string, names: set<Path>, rest: set<Path>, from: map<Path, Path>, node: Usage)
    requires g.Ample(loc, names + rest, from, node) && Asks(g.task, names + rest) && names !! rest
    ensures g.Ample(loc, names, from, node)
  {
    FewerPlaced(g, loc, names + rest, names, from);
    LoadGrows(g.task, rest, names);
    assert rest + names == names + rest;
    forall n | n in names ensures Lookup(node, from[n]) + g.task.Load(names) <= Lookup(g.task.allocatable, from[n]) {
      assert n in names + rest;
    }
  }

  // ---- The group's own names ----

  lemma LeafDrawnFrom(g: Group, loc: string, from: map<Path, Path>, n: Path)
    requires g.Valid() && g.PlacedAt(loc, g.required, from) && n in g.Leaves()
    ensures from[n] == g.LeafName(loc, n) && from[n] in g.At(loc)
  {
    var a := g.allocPrefix + [loc];
    assert SameShape(n[|g.reqBase|..], from[n][|a|..]);
    assert from[n] == a + from[n][|a|..];
  }

  lemma RequestWithinLoad(task: Task, names: set<Path>, n: Path)
    requires Asks(task, names) && n in names
    ensures task.required[n] <= task.Load(names)
  {
    SumRemove(names, task.Request(), n);
    SumNonNegative(names - {n}, task.Request());
  }

  lemma RoomyLeavesFit(g: Group, loc: string, node: Usage)
    requires g.Valid()
    ensures g.RoomyFor(loc, g.required, node) ==> g.LeavesFit(loc, node)
  {
    if g.RoomyFor(loc, g.required, node) {
      var from :| g.Ample(loc, g.required, from, node);
      forall n | n in g.Leaves() ensures n in g.task.required && g.reqBase <= n && g.HasRoom(loc, n, node) {
        LeafDrawnFrom(g, loc, from, n);
        RequestWithinLoad(g.task, g.required, n);
        assert loc in g.alloc;
      }
    }
  }

  // ---- Sub groups ----

  /** The required names of the instances in `todo`. */
  ghost function Unfinished(g: Group, todo: set<(string, string)>): set<Path> {
    set n | n in g.required && IsSub(g.reqBase, n) && (n[|g.reqBase|], n[|g.reqBase| + 1]) in todo
  }

  lemma UnfinishedSteps(g: Group, subReq: SubGroups, todo: set<(string, string)>, gi: (string, string))
    requires IsSubGroups(g.reqBase, g.required, subReq)
    ensures Unfinished(g, Instances(subReq)) == SubNames(g.reqBase, g.required)
    ensures var m := Members(g.reqBase, g.required, gi.0, gi.1);
      gi in todo ==> Unfinished(g, todo) == m + Unfinished(g, todo - {gi}) && m !! Unfinished(g, todo - {gi})
  {
    forall n | n in g.required && IsSub(g.reqBase, n)
      ensures (n[|g.reqBase|], n[|g.reqBase| + 1]) in Instances(subReq)
    {
      assert n in Members(g.reqBase, g.required, n[|g.reqBase|], n[|g.reqBase| + 1]);
      assert n in Cell(subReq, n[|g.reqBase|], n[|g.reqBase| + 1]);
    }
    assert gi == (gi.0, gi.1);
  }

  /** A placement of a sub group's names in the enclosing group is one at some location of the sub group. */
  lemma SubGroupHasPlace(g: Group, loc: string, x: string, i: string, sub: Group, from: map<Path, Path>)
      returns (j: string)
    requires g.Valid() && IsSubGroup(g, loc, x, i, sub) && sub.required != {}
    requires g.PlacedAt(loc, sub.required, from)
    ensures sub.PlacedAt(j, sub.required, from)
  {
    var a := g.allocPrefix + [loc];
    var m :| m in sub.required;
    PlacedBelow(g.reqBase, a, x, i, sub.required, from, m);
    j := from[m][|a| + 1];
    assert sub.allocPrefix + [j] == a + [x, j];
    forall n | n in sub.required ensures from[n] in sub.At(j) {
      DrawnBelow(g.reqBase, a, x, i, sub.required, from, m, n);
      assert from[n][..|a| + 2][|a|] == x && from[n][..|a| + 2][|a| + 1] == j;
      assert from[n] in Members(a, g.At(loc), x, j);
    }
  }

  lemma SubGroupIsRoomy(g: Group, loc: string, gi: (string, string), sub: Group, todo: set<(string, string)>,
                        subReq: SubGroups, node: Usage)
    requires g.Valid() && IsSubGroups(g.reqBase, g.required, subReq) && gi in todo
    requires IsSubGroup(g, loc, gi.0, gi.1, sub) && sub.required != {}
    requires g.RoomyFor(loc, Unfinished(g, todo), node)
    ensures sub.Roomy(node)
  {
    UnfinishedSteps(g, subReq, todo, gi);
    var from :| g.Ample(loc, Unfinished(g, todo), from, node);
    AmpleForSome(g, loc, sub.required, Unfinished(g, todo - {gi}), from, node);
    var j := SubGroupHasPlace(g, loc, gi.0, gi.1, sub, from);
    assert sub.Ample(j, sub.required, from, node);
    assert sub.RoomyFor(j, sub.required, node);
  }

  lemma OthersStayRoomy(g: Group, loc: string, gi: (string, string), sub: Group, j: string,
                        todo: set<(string, string)>, subReq: SubGroups, s: State, t: State)
    requires g.Valid() && IsSubGroups(g.reqBase, g.required, subReq) && gi in todo
    requires IsSubGroup(g, loc, gi.0, gi.1, sub) && sub.Allocated(j, s, t)
    requires g.RoomyFor(loc, Unfinished(g, todo), s.node)
    ensures g.RoomyFor(loc, Unfinished(g, todo - {gi}), t.node)
  {
    UnfinishedSteps(g, subReq, todo, gi);
    RoomyForRest(g, loc, sub.required, Unfinished(g, todo - {gi}), s, t);
  }

  lemma RoomyForSubGroups(g: Group, loc: string, subReq: SubGroups, s: State, t: State)
    requires g.Valid() && IsSubGroups(g.reqBase, g.required, subReq)
    requires g.task.Stepwise(g.Leaves(), s, t)
    ensures g.RoomyFor(loc, g.required, s.node) ==> g.RoomyFor(loc, Unfinished(g, Instances(subReq)), t.node)
  {
    UnfinishedSteps(g, subReq, {}, ("", ""));
    var subs := SubNames(g.reqBase, g.required);
    assert g.required == g.Leaves() + subs;
    if g.RoomyFor(loc, g.required, s.node) {
      RoomyForRest(g, loc, g.Leaves(), subs, s, t);
    }
  }

  // ---- The choice ----

  lemma FullnessNotNegative(task: Task, node: Usage, k: Path)
    requires task.Regular(node) && k in task.allocatable
    ensures Fullness(task, node, k) >= 0.0
  {
    if task.allocatable[k] > 0 {
      FractionRange(task.allocatable[k] - Lookup(node, k), task.allocatable[k]);
    }
  }

  lemma {:induction false} ScoreSumNotNegative(task: Task, t: State, at: set<Path>)
    requires task.Regular(t.node) && forall k :: k in at ==> k in task.allocatable
    ensures ScoreSum(task, t, at) >= 0.0
  {
    if at != {} {
      var x :| x in at;
      ScoreRemove(task, t, at, x);
      FullnessNotNegative(task, t.node, x);
      ScoreSumNotNegative(task, t, at - {x});
    }
  }

  lemma AverageNotNegative(sum: real, n: nat)
    requires sum >= 0.0 && n > 0
    ensures sum / n as real >= 0.0
  {
  }

  lemma ScoreNotNegative(g: Group, loc: string, s: State, t: State, score: real)
    requires g.Valid() && g.task.Regular(s.node) && g.Allocated(loc, s, t) && Scored(g, loc, t, score)
    ensures score >= 0.0
  {
    StaysRegular(g.task, g.required, s, t);
    ScoreSumNotNegative(g.task, t, g.At(loc));
    AverageNotNegative(ScoreSum(g.task, t, g.At(loc)), |g.At(loc)|);
  }

  lemma RoomyHasLocation(g: Group, loc: string, node: Usage)
    requires g.required != {} && g.RoomyFor(loc, g.required, node)
    ensures loc in g.alloc
  {
    var from :| g.Ample(loc, g.required, from, node);
    var n :| n in g.required;
    assert from[n] in g.At(loc);
  }

  lemma RoomyWorks(g: Group, loc: string, s: State, used: set<Path>, o: Outcome)
    requires g.Valid() && g.RoomyFor(loc, g.required, s.node) && Genuine(g, s, used, o) && o.location == loc
    ensures o.found && o.score >= 0.0
  {
    assert Fitting(g, loc, s);
    ScoreNotNegative(g, loc, s, o.state, o.score);
  }

  lemma HighScoreIsChosen(preferUsed: bool, floor: real, tried: seq<Outcome>, at: Option<nat>, i: nat)
    requires IsChoice(preferUsed, floor, tried, at) && i < |tried| && tried[i].found && tried[i].score >= floor
    ensures at.Some?
  {
  }

  /** A location with ample room is tried, works and scores high enough, so that it or a better one is chosen. */
  lemma RoomyIsChosen(g: Group, floor: real, s: State, used: set<Path>, tried: seq<Outcome>, at: Option<nat>)
    requires g.Valid() && g.required != {} && floor <= 0.0 && g.Roomy(s.node)
    requires Ranked(g, floor, g.alloc.Keys, s, used, tried, at)
    ensures at.Some?
  {
    var loc :| g.RoomyFor(loc, g.required, s.node);
    RoomyHasLocation(g, loc, s.node);
    assert TriedAt(tried, loc);
    var i :| 0 <= i < |tried| && tried[i].location == loc;
    assert Genuine(g, s, used, tried[i]);
    RoomyWorks(g, loc, s, used, tried[i]);
    HighScoreIsChosen(g.task.preferUsed, floor, tried, at, i);
  }

  // ---- Why the use must not be negative ----

  /** A group that requests 1 under the name `n`, of a resource `k` at location `loc` of which the node has 10. */
  ghost predicate IsOneOfTen(g: Group, n: Path, loc: string, k: Path) {
    && g.Valid() && g.task.Plain() && g.required == {n} && n !in SubNames(g.reqBase, {n}) && g.task.required[n] == 1
    && g.alloc == map[loc := {k}] && g.LeafName(loc, n) == k && g.task.allocatable == map[k := 10]
  }

  lemma OnlyShare(required: map<Path, int>, from: map<Path, Path>, n: Path, k: Path)
    requires n in from && from[n] == k && n in required
    ensures Drawn(required, from, {n}, k) == required[n]
  {
    SumRemove({n}, Share(required, from, k), n);
    assert {n} - {n} == {};
  }

  lemma OneOfTenMoves(g: Group, n: Path, loc: string, k: Path, s: State, t: State)
    requires IsOneOfTen(g, n, loc, k) && Lookup(s.node, k) == -5 && g.Allocated(loc, s, t)
    ensures Lookup(t.node, k) == -4
  {
    assert t.from[n] in g.At(loc);
    OnlyShare(g.task.required, t.from, n, k);
    assert g.Charged(k, Drawn(g.task.required, t.from, g.required, k), s, t);
  }

  lemma OneOfTenScores(g: Group, n: Path, loc: string, k: Path, t: State, score: real)
    requires IsOneOfTen(g, n, loc, k) && Lookup(t.node, k) == -4 && Scored(g, loc, t, score)
    ensures score < 0.0
  {
    ScoreRemove(g.task, t, {k}, k);
    assert {k} - {k} == {} && g.At(loc) == {k};
    FractionRange(14, 10);
  }

  lemma OneOfTenHasRoom(g: Group, n: Path, loc: string, k: Path, s: State)
    requires IsOneOfTen(g, n, loc, k) && Lookup(s.node, k) == -5
    ensures g.Ample(loc, g.required, map[n := k], s.node) && Fitting(g, loc, s)
  {
    SumRemove({n}, g.task.Request(), n);
    assert {n} - {n} == {} && g.task.Load({n}) == 1;
    PlacedLeaves(g.reqBase, g.allocPrefix + [loc], {n}, map[n := k]);
    assert SubNames(g.reqBase, g.required) == {};
    assert g.HasRoom(loc, n, s.node);
  }

  lemma OneOfTenOutcome(g: Group, n: Path, loc: string, k: Path, s: State, used: set<Path>, o: Outcome)
    requires IsOneOfTen(g, n, loc, k) && Lookup(s.node, k) == -5 && Genuine(g, s, used, o)
    ensures o.found && o.score < 0.0
  {
    OneOfTenHasRoom(g, n, loc, k, s);
    OneOfTenMoves(g, n, loc, k, s, o.state);
    OneOfTenScores(g, n, loc, k, o.state, o.score);
  }

  /** With 5 less than nothing in use there is ample room, and the group can be allocated; but that scores below the
      score that the search starts from, so it ends with nothing found. */
  lemma NegativeUseHidesRoom(g: Group, n: Path, loc: string, k: Path, s: State, used: set<Path>, tried: seq<Outcome>,
                             at: Option<nat>)
    requires IsOneOfTen(g, n, loc, k) && Lookup(s.node, k) == -5 && !g.task.preferUsed
    requires Ranked(g, 0.0, g.alloc.Keys, s, used, tried, at)
    ensures g.task.WithinCapacity(s.node) && g.Ample(loc, g.required, map[n := k], s.node)
    ensures at.None? && forall i :: 0 <= i < |tried| ==> tried[i].found
  {
    OneOfTenHasRoom(g, n, loc, k, s);
    forall i | 0 <= i < |tried| ensures tried[i].found && tried[i].score < 0.0 {
      OneOfTenOutcome(g, n, loc, k, s, used, tried[i]);
    }
  }
}
