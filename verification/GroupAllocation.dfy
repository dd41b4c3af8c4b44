/** GrpAllocator of device-scheduler/grpalloc/grpallocate.go: recursive placement of a tree of required resource
    groups onto a tree of allocatable groups. Maps are walked in an arbitrary order, so what is proved holds for the
    sorted orders of the source as well. */
module GroupAllocation {
  import opened Collections
  import opened Scorer
  import opened Placement
  import opened ResourceUsage
  import opened SubGroupTable

  /** The allocator's global read-only information. */
  datatype Task = Task(
    required: map<Path, int>, reqScorer: map<Path, ScoreFunc>,
    allocatable: map<Path, int>, allocScorer: Path -> ScoreFunc,
    initContainer: bool, preferUsed: bool)
  {
    /** A running container, plain quantities only, no per-request scorer. */
    ghost predicate Plain() {
      && !initContainer
      && (forall n :: n in required ==> n !in reqScorer)
      && (forall k :: k in allocatable ==> allocScorer(k).LeftoverScoreFunc?)
    }

    ghost predicate WithinCapacity(node: Usage) {
      forall k {:trigger k in allocatable} :: k in allocatable ==> Lookup(node, k) <= allocatable[k]
    }

    /** Under the plain hypotheses, usage has moved by exactly what `names` draw and stays within capacity. */
    ghost predicate Stepwise(names: set<Path>, s: State, t: State) {
      Plain() && WithinCapacity(s.node) ==>
        && Raised(s.pod, t.pod, required, t.from, names)
        && Raised(s.node, t.node, required, t.from, names)
        && WithinCapacity(t.node)
    }

    ghost function Request(): Path -> int {
      n => Lookup(required, n)
    }

    /** What `names` request altogether, of whatever resource. */
    ghost function Load(names: set<Path>): int {
      Sum(names, Request())
    }

    /** Plain quantities, none of them negative: no request, and no use of a resource, which is within capacity. */
    ghost predicate Regular(node: Usage) {
      && Plain() && (forall n :: n in required ==> required[n] >= 0)
      && (forall k {:trigger k in allocatable} :: k in allocatable ==> 0 <= Lookup(node, k) <= allocatable[k])
    }
  }

  /** What the allocator writes as it explores: usage by the pod, usage of the node, chosen locations. */
  datatype State = State(pod: Usage, node: Usage, from: map<Path, Path>)

  ghost predicate SameUsage(s: State, t: State) {
    forall k :: Lookup(s.pod, k) == Lookup(t.pod, k) && Lookup(s.node, k) == Lookup(t.node, k)
  }

  /** The per-group read-only information: required names below `reqBase`, allocatable names by location. */
  datatype Group = Group(task: Task, required: set<Path>, alloc: map<string, set<Path>>, reqBase: Path,
                         allocPrefix: Path)
  {
    ghost predicate Valid() {
      && [] !in task.allocatable
      && (forall n :: n in required ==> reqBase <= n && n in task.required)
      && (forall loc :: loc in alloc ==> alloc[loc] != {})
      && (forall loc, a :: loc in alloc && a in alloc[loc] ==> allocPrefix + [loc] <= a && a in task.allocatable)
    }

    function At(loc: string): set<Path> {
      if loc in alloc then alloc[loc] else {}
    }

    /** The required names that belong to the group itself. */
    ghost function Leaves(): set<Path> {
      required - SubNames(reqBase, required)
    }

    function LeafName(loc: string, n: Path): Path
      requires reqBase <= n
    {
      allocPrefix + [loc] + n[|reqBase|..]
    }

    /** One required name of the group itself taken from `loc`. */
    ghost predicate LeafTaken(loc: string, n: Path, s: State, t: State)
      requires n in task.required
    {
      && reqBase <= n && LeafName(loc, n) in At(loc) && LeafName(loc, n) in task.allocatable
      && var k := LeafName(loc, n);
         && t == State(s.pod[k := Lookup(t.pod, k)], s.node[k := Lookup(t.node, k)], s.from[n := k])
         && (task.Plain() ==>
               && Lookup(t.pod, k) == Lookup(s.pod, k) + task.required[n]
               && Lookup(t.node, k) == Lookup(s.node, k) + task.required[n] <= task.allocatable[k])
    }

    ghost predicate LeavesAt(loc: string, names: set<Path>, from: map<Path, Path>) {
      forall n :: n in names ==> reqBase <= n && n in from && from[n] == LeafName(loc, n) && from[n] in At(loc)
    }

    /** All of `names` are drawn from `loc`, with their groups kept apart and together as required. */
    ghost predicate PlacedAt(loc: string, names: set<Path>, from: map<Path, Path>) {
      && (forall n :: n in names ==> n in from && from[n] in At(loc))
      && Placed(reqBase, allocPrefix + [loc], names, from)
    }

    /** Resource `k` moved by a draw of `d` in one request: a plain quantity stays within capacity. */
    ghost predicate Charged(k: Path, d: int, s: State, t: State) {
      task.allocScorer(k).LeftoverScoreFunc? ==>
        && Lookup(t.pod, k) == PodAfter(Lookup(s.pod, k), d, task.initContainer)
        && Lookup(t.node, k) - Lookup(t.pod, k) == Lookup(s.node, k) - Lookup(s.pod, k)
        && Lookup(t.node, k) <= Lookup(task.allocatable, k)
    }

    ghost predicate Unmoved(k: Path, s: State, t: State) {
      Lookup(t.pod, k) == Lookup(s.pod, k) && Lookup(t.node, k) == Lookup(s.node, k)
    }

    /** Batch recomputation over the resources `at`: those move by what is drawn, the others do not move. */
    ghost predicate Batched(at: set<Path>, s: State, t: State) {
      && (forall k :: k in at ==> Charged(k, Drawn(task.required, t.from, required, k), s, t))
      && (forall k :: k !in at ==> Unmoved(k, s, t))
    }

    /** Only plain quantities at `loc`. */
    ghost predicate Counts(loc: string) {
      forall k {:trigger k in At(loc)} :: k in At(loc) ==> task.allocScorer(k).LeftoverScoreFunc?
    }

    /** Every name is drawn from an allocatable resource, and every resource at `loc` has room for what is drawn. */
    ghost predicate BatchFits(loc: string, s: State) {
      && (forall n :: n in required ==> n in s.from && s.from[n] in task.allocatable)
      && (forall k {:trigger k in At(loc)} :: k in At(loc) ==>
            RoomFor(this, k, Drawn(task.required, s.from, required, k), s))
    }

    /** The resource for the group's own name `n` is there at `loc` and has room for it. */
    ghost predicate HasRoom(loc: string, n: Path, node: Usage)
      requires n in task.required && reqBase <= n
    {
      var k := LeafName(loc, n);
      k in At(loc) && k in task.allocatable && Lookup(node, k) + task.required[n] <= task.allocatable[k]
    }

    /** There is room at `loc` for each of the group's own names. */
    ghost predicate LeavesFit(loc: string, node: Usage) {
      && task.Plain()
      && forall n :: n in Leaves() ==> n in task.required && reqBase <= n && HasRoom(loc, n, node)
    }

    /** A group without sub groups, with room for each of its names at `loc`. */
    ghost predicate FlatFits(loc: string, node: Usage) {
      && task.Plain() && SubNames(reqBase, required) == {}
      && forall n :: n in required ==> n in task.required && reqBase <= n && HasRoom(loc, n, node)
    }

    /** A placement of `names` at `loc` on resources each of which has room for all that `names` request. */
    ghost predicate Ample(loc: string, names: set<Path>, from: map<Path, Path>, node: Usage) {
      && PlacedAt(loc, names, from)
      && forall n :: n in names ==> Lookup(node, from[n]) + task.Load(names) <= Lookup(task.allocatable, from[n])
    }

    ghost predicate RoomyFor(loc: string, names: set<Path>, node: Usage) {
      task.Regular(node) && exists from :: Ample(loc, names, from, node)
    }

    /** There is ample room for the whole group at some location. */
    ghost predicate Roomy(node: Usage) {
      exists loc :: RoomyFor(loc, required, node)
    }

    /** How far the required names reach below the base. */
    ghost function Reach(): int {
      Longest(required) - |reqBase|
    }

    /** A successful first phase at `loc`. */
    ghost predicate Tried(loc: string, s: State, t: State) {
      && PlacedAt(loc, required, t.from)
      && AgreesOutside(s.from, t.from, required)
      && task.Stepwise(required, s, t)
    }

    /** A successful allocation of the whole group at `loc`. */
    ghost predicate Allocated(loc: string, s: State, t: State) {
      && loc in alloc
      && Tried(loc, s, t)
      && Batched(At(loc), s, t)
    }
  }

  lemma LeafStep(g: Group, loc: string, s: State, t: State, u: State, done: set<Path>, n: Path)
    requires n in g.task.required && n !in done
    requires g.task.Stepwise(done, s, t) && g.LeafTaken(loc, n, t, u)
    requires forall m :: m in done ==> m in t.from
    ensures g.task.Stepwise(done + {n}, s, u)
  {
    if g.task.Plain() && g.task.WithinCapacity(s.node) {
      RaiseStep(s.pod, t.pod, g.task.required, t.from, done, n, g.LeafName(loc, n));
      RaiseStep(s.node, t.node, g.task.required, t.from, done, n, g.LeafName(loc, n));
    }
  }

  /** Usage that starts within capacity is within capacity, for plain quantities. */
  ghost predicate KeepsCapacity(task: Task, s: State, t: State) {
    task.Plain() && task.WithinCapacity(s.node) ==> task.WithinCapacity(t.node)
  }

  lemma LeafKeepsCapacity(g: Group, loc: string, s: State, t: State, n: Path)
    requires n in g.task.required && g.LeafTaken(loc, n, s, t)
    ensures KeepsCapacity(g.task, s, t)
  {
  }

  /** There is room at `loc` for all of `names`. */
  ghost predicate RoomLeft(g: Group, loc: string, names: set<Path>, node: Usage) {
    forall n :: n in names ==> n in g.task.required && g.reqBase <= n && g.HasRoom(loc, n, node)
  }

  /** Different names of a group are taken from different resources. */
  lemma RoomStep(g: Group, loc: string, names: set<Path>, n: Path, s: State, t: State)
    requires n in g.task.required && n !in names && g.LeafTaken(loc, n, s, t)
    ensures RoomLeft(g, loc, names, s.node) ==> RoomLeft(g, loc, names, t.node)
  {
    if RoomLeft(g, loc, names, s.node) {
      forall m | m in names ensures g.HasRoom(loc, m, t.node) {
        assert g.HasRoom(loc, m, s.node);
        LeafNamesDiffer(g, loc, n, m);
      }
    }
  }

  lemma LeafNamesDiffer(g: Group, loc: string, n: Path, m: Path)
    requires g.reqBase <= n && g.reqBase <= m && n != m
    ensures g.LeafName(loc, n) != g.LeafName(loc, m)
  {
    var a := g.allocPrefix + [loc];
    assert g.LeafName(loc, n)[|a|..] == n[|g.reqBase|..] && g.LeafName(loc, m)[|a|..] == m[|g.reqBase|..];
    assert n == g.reqBase + n[|g.reqBase|..] && m == g.reqBase + m[|g.reqBase|..];
  }

  /** The progress of resourceAvailable: `done` have been looked for at `loc`. */
  ghost predicate Taking(g: Group, loc: string, done: set<Path>, start: State, s: State, found: bool) {
    && AgreesOutside(start.from, s.from, done)
    && KeepsCapacity(g.task, start, s)
    && (found ==> g.LeavesAt(loc, done, s.from) && g.task.Stepwise(done, start, s))
    && (g.LeavesFit(loc, start.node) ==> found && RoomLeft(g, loc, g.Leaves() - done, s.node))
  }

  lemma TakingStep(g: Group, loc: string, done: set<Path>, start: State, s: State, t: State, found: bool, n: Path,
                   available: bool)
    requires Taking(g, loc, done, start, s, found) && n in g.Leaves() && n !in done && n in g.task.required &&
             g.reqBase <= n
    requires available ==> g.LeafTaken(loc, n, s, t)
    requires !available ==> t == s
    requires g.task.Plain() && g.HasRoom(loc, n, s.node) ==> available
    ensures Taking(g, loc, done + {n}, start, t, found && available)
  {
    if available {
      LeafKeepsCapacity(g, loc, s, t, n);
      RoomStep(g, loc, g.Leaves() - (done + {n}), n, s, t);
      if found {
        LeafStep(g, loc, start, s, t, done, n);
      }
    }
  }

  /** The requests collected against `k`, in the order they were met. */
  function Requests(requested: map<Path, seq<int>>, k: Path): seq<int> {
    if k in requested then requested[k] else []
  }

  ghost predicate Collected(task: Task, from: map<Path, Path>, names: set<Path>, requested: map<Path, seq<int>>) {
    forall k {:trigger Requests(requested, k)} :: k in task.allocatable ==>
      Total(Requests(requested, k)) == Drawn(task.required, from, names, k)
  }

  lemma CollectStep(task: Task, from: map<Path, Path>, done: set<Path>, requested: map<Path, seq<int>>, n: Path)
    requires Collected(task, from, done, requested) && n in task.required && n !in done
    ensures n in from && from[n] in task.allocatable ==>
      Collected(task, from, done + {n}, requested[from[n] := Requests(requested, from[n]) + [task.required[n]]])
    ensures !(n in from && from[n] in task.allocatable) ==> Collected(task, from, done + {n}, requested)
  {
    var hit := n in from && from[n] in task.allocatable;
    var requested' := if hit then requested[from[n] := Requests(requested, from[n]) + [task.required[n]]]
                      else requested;
    forall k | k in task.allocatable
      ensures Total(Requests(requested', k)) == Drawn(task.required, from, done + {n}, k)
    {
      SumAdd(done, Share(task.required, from, k), n);
      assert Total(Requests(requested, k)) == Drawn(task.required, from, done, k);
      TotalAppend(Requests(requested, k), task.required[n]);
    }
  }

  /** There is room on resource `k` for a draw of `d` in one request. */
  ghost predicate RoomFor(g: Group, k: Path, d: int, s: State) {
    Lookup(s.node, k) + PodAfter(Lookup(s.pod, k), d, g.task.initContainer) - Lookup(s.pod, k) <=
        Lookup(g.task.allocatable, k)
  }

  /** An attempt at a batch over `at`, whether or not all of it succeeds: plain quantities with room are charged. */
  ghost predicate Attempted(g: Group, at: set<Path>, s: State, t: State) {
    && (forall k :: k in at && g.task.allocScorer(k).LeftoverScoreFunc? ==> AttemptedAt(g, k, s, t))
    && (forall k :: k !in at ==> g.Unmoved(k, s, t))
  }

  ghost predicate AttemptedAt(g: Group, k: Path, s: State, t: State) {
    var d := Drawn(g.task.required, t.from, g.required, k);
    if RoomFor(g, k, d, s) then g.Charged(k, d, s, t) else g.Unmoved(k, s, t)
  }

  lemma AttemptStep(g: Group, at: set<Path>, s: State, t: State, u: State, k: Path, found: bool)
    requires Attempted(g, at, s, t) && k !in at && u.from == t.from
    requires var d := Drawn(g.task.required, t.from, g.required, k);
      && (g.task.allocScorer(k).LeftoverScoreFunc? ==> found == RoomFor(g, k, d, t))
      && (found ==> g.Charged(k, d, t, u)) && (!found ==> g.Unmoved(k, t, u))
    requires forall m :: m != k ==> g.Unmoved(m, t, u)
    ensures Attempted(g, at + {k}, s, u)
  {
    assert g.Unmoved(k, s, t);
    forall m | m in at && g.task.allocScorer(m).LeftoverScoreFunc? ensures AttemptedAt(g, m, s, u) {
      assert AttemptedAt(g, m, s, t) && g.Unmoved(m, t, u);
    }
    forall m | m !in at + {k} ensures g.Unmoved(m, s, u) {
      assert g.Unmoved(m, s, t) && g.Unmoved(m, t, u);
    }
  }

  lemma BatchStep(g: Group, at: set<Path>, s: State, t: State, u: State, k: Path)
    requires g.Batched(at, s, t) && k !in at && u.from == t.from
    requires g.Charged(k, Drawn(g.task.required, t.from, g.required, k), t, u)
    requires forall m :: m != k ==> g.Unmoved(m, t, u)
    ensures g.Batched(at + {k}, s, u)
  {
    assert g.Unmoved(k, s, t);
    forall m | m in at ensures g.Charged(m, Drawn(g.task.required, u.from, g.required, m), s, u) {
      assert g.Unmoved(m, t, u);
    }
    forall m | m !in at + {k} ensures g.Unmoved(m, s, u) {
      assert g.Unmoved(m, s, t) && g.Unmoved(m, t, u);
    }
  }

  /** A batch that has succeeded had room for everything. */
  lemma BatchHadRoom(g: Group, loc: string, s: State, t: State)
    requires g.Counts(loc) && g.Batched(g.At(loc), s, t) && t.from == s.from
    requires forall n :: n in g.required ==> n in s.from && s.from[n] in g.task.allocatable
    ensures g.BatchFits(loc, s)
  {
    forall k | k in g.At(loc) ensures RoomFor(g, k, Drawn(g.task.required, s.from, g.required, k), s) {
      assert g.Charged(k, Drawn(g.task.required, t.from, g.required, k), s, t);
    }
  }

  /** A batch looks at the usage it starts from, not at the locations chosen before. */
  lemma BatchedFrom(g: Group, at: set<Path>, s: State, r: State, t: State)
    requires g.Batched(at, r, t) && r.pod == s.pod && r.node == s.node
    ensures g.Batched(at, s, t)
  {
    forall k | k in at ensures g.Charged(k, Drawn(g.task.required, t.from, g.required, k), s, t) {
      assert g.Charged(k, Drawn(g.task.required, t.from, g.required, k), r, t);
    }
    forall k | k !in at ensures g.Unmoved(k, s, t) {
      assert g.Unmoved(k, r, t);
    }
  }

  /** The group instances of the table, as pairs of a group name and an index. */
  function Instances(sub: SubGroups): set<(string, string)> {
    set g, i | g in sub && i in sub[g] :: (g, i)
  }

  lemma NoInstances(base: Path, names: set<Path>, sub: SubGroups)
    requires IsSubGroups(base, names, sub) && SubNames(base, names) == {}
    ensures Instances(sub) == {}
  {
    forall g, i ensures !(g in sub && i in sub[g]) {
      assert Members(base, names, g, i) <= SubNames(base, names);
      assert Cell(sub, g, i) == {};
    }
  }

  /** The required names of the instances not in `todo`. */
  ghost function Finished(g: Group, todo: set<(string, string)>): set<Path> {
    set n | n in g.required && IsSub(g.reqBase, n) && (n[|g.reqBase|], n[|g.reqBase| + 1]) !in todo
  }

  /** A sub group instance placed at `j` below `loc` extends a placement of the instances before it. */
  lemma SubGroupPlaced(g: Group, loc: string, x: string, i: string, j: string, sub: Group,
                       from: map<Path, Path>, from': map<Path, Path>, done: set<Path>)
    requires g.Valid() && loc in g.alloc && IsSubGroup(g, loc, x, i, sub)
    requires g.PlacedAt(loc, done, from) && sub.PlacedAt(j, sub.required, from') &&
             AgreesOutside(from, from', sub.required)
    requires forall n :: n in done ==>
             n in g.required && !(IsSub(g.reqBase, n) && n[|g.reqBase|] == x && n[|g.reqBase| + 1] == i)
    ensures g.PlacedAt(loc, done + sub.required, from')
  {
    var a := g.allocPrefix + [loc];
    assert sub.allocPrefix + [j] == a + [x, j];
    SubGroupWithin(g, loc, x, i, sub, j);
    PlacedInSubGroup(g.reqBase, a, x, i, j, sub.required, from');
    forall n | n in done ensures n in from' && from'[n] == from[n] {
      assert n !in sub.required;
    }
    PlacedFrame(g.reqBase, a, done, from, from');
    forall n, m | n in done && m in sub.required ensures !SharesGroup(g.reqBase, n, m, 1) {
      SharedInstance(g.reqBase, n, m);
    }
    PlacedUnion(g.reqBase, a, done, sub.required, from');
  }

  lemma SubGroupWithin(g: Group, loc: string, x: string, i: string, sub: Group, j: string)
    requires IsSubGroup(g, loc, x, i, sub)
    ensures sub.At(j) <= g.At(loc)
  {
  }

  lemma SharedInstance(base: Path, n: Path, m: Path)
    requires base <= n && base <= m
    ensures SharesGroup(base, n, m, 1) ==>
            IsSub(base, n) && IsSub(base, m) && n[|base|] == m[|base|] && n[|base| + 1] == m[|base| + 1]
  {
    if SharesGroup(base, n, m, 1) {
      assert n[..|base| + 2][|base|] == m[..|base| + 2][|base|];
      assert n[..|base| + 2][|base| + 1] == m[..|base| + 2][|base| + 1];
    }
  }

  lemma FinishedSteps(g: Group, subReq: SubGroups, todo: set<(string, string)>, x: string, i: string)
    requires IsSubGroups(g.reqBase, g.required, subReq)
    ensures Finished(g, Instances(subReq)) == {}
    ensures Finished(g, {}) == SubNames(g.reqBase, g.required)
    ensures (x, i) in todo ==> Finished(g, todo - {(x, i)}) == Finished(g, todo) + Members(g.reqBase, g.required, x, i)
  {
    forall n | n in g.required && IsSub(g.reqBase, n)
      ensures (n[|g.reqBase|], n[|g.reqBase| + 1]) in Instances(subReq)
    {
      assert n in Members(g.reqBase, g.required, n[|g.reqBase|], n[|g.reqBase| + 1]);
      assert n in Cell(subReq, n[|g.reqBase|], n[|g.reqBase| + 1]);
    }
  }

  /** The sub group `sub` of `g` for instance `x`, `i`, to be placed at any instance of `x` below `loc`. */
  ghost predicate IsSubGroup(g: Group, loc: string, x: string, i: string, sub: Group) {
    && sub.task == g.task
    && sub.required == Members(g.reqBase, g.required, x, i)
    && sub.reqBase == g.reqBase + [x, i] && sub.allocPrefix == g.allocPrefix + [loc, x]
    && (forall j :: sub.At(j) == Members(g.allocPrefix + [loc], g.At(loc), x, j))
  }

  lemma SubGroupStep(g: Group, loc: string, x: string, i: string, j: string, sub: Group, start: State, s: State,
                     t: State,
                     todo: set<(string, string)>)
    requires g.Valid() && loc in g.alloc && IsSubGroup(g, loc, x, i, sub) && sub.Allocated(j, s, t)
    requires (x, i) in todo && g.PlacedAt(loc, Finished(g, todo), s.from)
    requires g.task.Stepwise(Finished(g, todo), start, s)
    ensures g.PlacedAt(loc, Finished(g, todo) + sub.required, t.from)
    ensures g.task.Stepwise(Finished(g, todo) + sub.required, start, t)
  {
    SubGroupPlaced(g, loc, x, i, j, sub, s.from, t.from, Finished(g, todo));
    StepwiseTwice(g.task, Finished(g, todo), sub.required, start, s, t);
  }

  /** The progress of allocateSubGroups: the instances not in `todo` have had their turn. */
  ghost predicate Placing(g: Group, loc: string, todo: set<(string, string)>, start: State, s: State, found: bool) {
    && AgreesOutside(start.from, s.from, Finished(g, todo))
    && KeepsCapacity(g.task, start, s)
    && (found ==> g.PlacedAt(loc, Finished(g, todo), s.from) && g.task.Stepwise(Finished(g, todo), start, s))
  }

  lemma PlacingStarts(g: Group, loc: string, subReq: SubGroups, start: State)
    requires IsSubGroups(g.reqBase, g.required, subReq)
    ensures Placing(g, loc, Instances(subReq), start, start, true)
  {
    FinishedSteps(g, subReq, {}, "", "");
    StepwiseNone(g.task, start);
    NonePlaced(g, loc, start.from);
  }

  lemma StepwiseNone(task: Task, s: State)
    ensures task.Stepwise({}, s, s)
  {
  }

  lemma NonePlaced(g: Group, loc: string, from: map<Path, Path>)
    ensures g.PlacedAt(loc, {}, from)
  {
  }

  lemma PlacingEnds(g: Group, loc: string, subReq: SubGroups, start: State, s: State, found: bool)
    requires IsSubGroups(g.reqBase, g.required, subReq) && Placing(g, loc, {}, start, s, found)
    ensures AgreesOutside(start.from, s.from, SubNames(g.reqBase, g.required)) && KeepsCapacity(g.task, start, s)
    ensures found ==> g.PlacedAt(loc, SubNames(g.reqBase, g.required), s.from)
    ensures found ==> g.task.Stepwise(SubNames(g.reqBase, g.required), start, s)
  {
    FinishedSteps(g, subReq, {}, "", "");
  }

  lemma PlacingStep(g: Group, loc: string, subReq: SubGroups, todo: set<(string, string)>, gi: (string, string),
                    sub: Group, j: string,
                    start: State, s: State, t: State, found: bool, foundSub: bool)
    requires g.Valid() && loc in g.alloc && IsSubGroups(g.reqBase, g.required, subReq) && gi in todo
    requires Placing(g, loc, todo, start, s, found)
    requires foundSub ==> IsSubGroup(g, loc, gi.0, gi.1, sub) && sub.Allocated(j, s, t)
    requires !foundSub ==> t == s
    ensures Placing(g, loc, todo - {gi}, start, t, found && foundSub)
  {
    FinishedSteps(g, subReq, todo, gi.0, gi.1);
    assert gi == (gi.0, gi.1);
    assert foundSub ==> AgreesOutside(s.from, t.from, sub.required) && KeepsCapacity(g.task, s, t);
    if found && foundSub {
      SubGroupStep(g, loc, gi.0, gi.1, j, sub, start, s, t, todo);
    }
  }

  /** Leaves and then sub groups make up the whole group. */
  lemma WholeGroup(g: Group, loc: string, s: State, t: State, u: State)
    requires g.Valid() && loc in g.alloc
    requires AgreesOutside(s.from, t.from, g.Leaves()) && AgreesOutside(t.from, u.from, SubNames(g.reqBase, g.required))
    requires g.PlacedAt(loc, g.Leaves(), t.from) && g.PlacedAt(loc, SubNames(g.reqBase, g.required), u.from)
    requires g.task.Stepwise(g.Leaves(), s, t) && g.task.Stepwise(SubNames(g.reqBase, g.required), t, u)
    ensures g.Tried(loc, s, u)
  {
    var subs := SubNames(g.reqBase, g.required);
    assert g.Leaves() + subs == g.required;
    StepwiseTwice(g.task, g.Leaves(), subs, s, t, u);
    PlacedFrame(g.reqBase, g.allocPrefix + [loc], g.Leaves(), t.from, u.from);
    forall n, m | n in g.Leaves() && m in subs ensures !SharesGroup(g.reqBase, n, m, 1) {
      SharedInstance(g.reqBase, n, m);
    }
    PlacedUnion(g.reqBase, g.allocPrefix + [loc], g.Leaves(), subs, u.from);
  }

  lemma RaisedHadRoom(g: Group, k: Path, s: State, u: State, r: State)
    requires g.task.Plain() && k in g.task.allocatable && r == State(s.pod, s.node, u.from)
    requires Raised(s.node, u.node, g.task.required, u.from, g.required) && g.task.WithinCapacity(u.node)
    ensures RoomFor(g, k, Drawn(g.task.required, r.from, g.required, k), r)
  {
  }

  /** A trial that succeeded step by step makes the batch from the restore point `s` succeed. */
  lemma TrialMakesBatchFit(g: Group, loc: string, s: State, u: State)
    requires g.Valid() && loc in g.alloc && g.Tried(loc, s, u)
    ensures g.task.Plain() && g.task.WithinCapacity(s.node) ==>
              g.Counts(loc) && g.BatchFits(loc, State(s.pod, s.node, u.from))
  {
    if g.task.Plain() && g.task.WithinCapacity(s.node) {
      var r := State(s.pod, s.node, u.from);
      forall k | k in g.At(loc)
        ensures g.task.allocScorer(k).LeftoverScoreFunc? &&
                RoomFor(g, k, Drawn(g.task.required, r.from, g.required, k), r)
      {
        assert k in g.task.allocatable;
        RaisedHadRoom(g, k, s, u, r);
      }
    }
  }

  /** Two-phase agreement: the batch `v` gives every resource the usage that the steps of the trial `u` gave it. */
  lemma BatchAgreesWithTrial(g: Group, loc: string, s: State, u: State, v: State, k: Path)
    requires g.Valid() && loc in g.alloc && g.task.Plain() && g.task.WithinCapacity(s.node)
    requires g.Tried(loc, s, u) && g.Batched(g.At(loc), s, v) && v.from == u.from
    ensures Lookup(v.pod, k) == Lookup(s.pod, k) + Drawn(g.task.required, u.from, g.required, k) == Lookup(u.pod, k)
    ensures Lookup(v.node, k) == Lookup(s.node, k) + Drawn(g.task.required, u.from, g.required, k) == Lookup(u.node, k)
  {
    var d := Drawn(g.task.required, u.from, g.required, k);
    assert Lookup(u.pod, k) == Lookup(s.pod, k) + d && Lookup(u.node, k) == Lookup(s.node, k) + d;
    if k in g.At(loc) {
      assert g.Charged(k, d, s, v) && k in g.task.allocatable;
    } else {
      DrawnNone(g.task.required, u.from, g.required, k);
      assert g.Unmoved(k, s, v);
    }
  }

  lemma StepwiseSameUsage(task: Task, names: set<Path>, s: State, u: State, v: State)
    requires task.Stepwise(names, s, u) && v.from == u.from
    requires task.Plain() && task.WithinCapacity(s.node) ==> SameUsage(u, v)
    ensures task.Stepwise(names, s, v)
  {
  }

  lemma TrialAndBatch(g: Group, loc: string, s: State, u: State, v: State)
    requires g.Valid() && loc in g.alloc
    requires g.Tried(loc, s, u) && g.Batched(g.At(loc), s, v) && v.from == u.from
    ensures g.task.Plain() && g.task.WithinCapacity(s.node) ==> SameUsage(u, v)
    ensures g.Allocated(loc, s, v)
  {
    assert g.task.Plain() && g.task.WithinCapacity(s.node) ==> SameUsage(u, v) by {
      if g.task.Plain() && g.task.WithinCapacity(s.node) {
        forall k ensures Lookup(u.pod, k) == Lookup(v.pod, k) && Lookup(u.node, k) == Lookup(v.node, k) {
          BatchAgreesWithTrial(g, loc, s, u, v, k);
        }
      }
    }
    StepwiseSameUsage(g.task, g.required, s, u, v);
  }

  lemma StepwiseTwice(task: Task, names: set<Path>, more: set<Path>, s: State, t: State, u: State)
    requires task.Stepwise(names, s, t) && task.Stepwise(more, t, u)
    requires names !! more && AgreesOutside(t.from, u.from, more)
    requires forall n :: n in names ==> n in t.from
    ensures task.Stepwise(names + more, s, u)
  {
    if task.Plain() && task.WithinCapacity(s.node) {
      RaisedTwice(s.pod, t.pod, u.pod, task.required, t.from, u.from, names, more);
      RaisedTwice(s.node, t.node, u.node, task.required, t.from, u.from, names, more);
    }
  }

  /** The longest name; the allocator recurses on groups whose names reach less far below their base. */
  ghost function Longest(names: set<Path>): (r: nat)
    ensures forall n :: n in names ==> |n| <= r
    ensures names != {} ==> exists n :: n in names && |n| == r
  {
    if names == {} then 0 else
      var x :| x in names;
      var r := Longest(names - {x});
      assert names == names - {x} + {x};
      if r <= |x| then |x| else r
  }

  /** What createSubGroup makes of the two tables is a group. */
  lemma SubGroupIsValid(g: Group, loc: string, subReq: SubGroups, subAlloc: SubGroups, x: string, i: string, sub: Group)
    requires g.Valid() && loc in g.alloc && IsSubGroups(g.reqBase, g.required, subReq)
    requires IsSubGroups(g.allocPrefix + [loc], g.alloc[loc], subAlloc) && x in subReq && i in subReq[x]
    requires sub == Group(g.task, subReq[x][i], if x in subAlloc then subAlloc[x] else map[],
                          g.reqBase + [x, i], g.allocPrefix + [loc, x])
    ensures sub.Valid() && IsSubGroup(g, loc, x, i, sub) && sub.required != {}
  {
    assert sub.required == Cell(subReq, x, i);
    forall n | n in sub.required ensures sub.reqBase <= n {
      MemberPrefix(g.reqBase, n);
    }
    forall j | j in sub.alloc
      ensures sub.alloc[j] != {} && sub.alloc[j] <= g.alloc[loc]
      ensures forall a :: a in sub.alloc[j] ==> sub.allocPrefix + [j] <= a
    {
      assert sub.alloc[j] == Cell(subAlloc, x, j);
      forall a | a in sub.alloc[j] ensures sub.allocPrefix + [j] <= a {
        MemberPrefix(g.allocPrefix + [loc], a);
        assert sub.allocPrefix + [j] == g.allocPrefix + [loc] + [x, j];
      }
    }
  }

  lemma SubGroupReachesLess(g: Group, loc: string, x: string, i: string, sub: Group)
    requires IsSubGroup(g, loc, x, i, sub) && sub.required != {}
    ensures sub.Reach() < g.Reach()
  {
    assert sub.required <= g.required;
  }

  lemma LeavesPlaced(g: Group, loc: string, from: map<Path, Path>)
    requires g.Valid() && g.LeavesAt(loc, g.Leaves(), from)
    ensures g.PlacedAt(loc, g.Leaves(), from)
  {
    PlacedLeaves(g.reqBase, g.allocPrefix + [loc], g.Leaves(), from);
  }

  // ---- The score ----

  /** How full resource `k` is. */
  ghost function Fullness(task: Task, node: Usage, k: Path): real {
    Fraction(Lookup(task.allocatable, k) - Lookup(node, k), Lookup(task.allocatable, k))
  }

  lemma FullnessIs(task: Task, node: Usage, k: Path, f: real)
    requires k in task.allocatable && f == Fraction(task.allocatable[k] - Lookup(node, k), task.allocatable[k])
    ensures f == Fullness(task, node, k)
  {
  }

  /** What scoring resource `k` says of it: the usage it would have. */
  lemma KeyCharged(g: Group, k: Path, requests: seq<int>, s: State, r: ScoreResult, t: State)
    requires k in g.task.allocatable && t == State(s.pod[k := r.usedByPod], s.node[k := r.usedByNode], s.from)
    requires r == Score(g.task.allocScorer(k), g.task.allocatable[k], Lookup(s.pod, k), Lookup(s.node, k), requests,
                        g.task.initContainer)
    ensures r.found ==> g.Charged(k, Total(requests), s, t)
    ensures g.task.allocScorer(k).LeftoverScoreFunc? ==> r.found == RoomFor(g, k, Total(requests), s)
    ensures g.task.Plain() && Lookup(s.node, k) + Total(requests) <= g.task.allocatable[k] ==> r.found
  {
    if g.task.allocScorer(k).LeftoverScoreFunc? {
      LeftoverScore(g.task.allocatable[k], Lookup(s.pod, k), Lookup(s.node, k), requests, g.task.initContainer);
    }
  }

  /** The score of resource `k` after a batch: how full it is, or the share of its bits that the pod uses. */
  ghost function KeyScore(task: Task, t: State, k: Path): real {
    if task.allocScorer(k).LeftoverScoreFunc? then Fullness(task, t.node, k)
    else UsedShare(Bits(Lookup(task.allocatable, k)), Bits(Lookup(t.pod, k)))
  }

  lemma KeyScored(g: Group, k: Path, requests: seq<int>, s: State, r: ScoreResult, t: State)
    requires k in g.task.allocatable && t == State(s.pod[k := r.usedByPod], s.node[k := r.usedByNode], s.from)
    requires r == Score(g.task.allocScorer(k), g.task.allocatable[k], Lookup(s.pod, k), Lookup(s.node, k), requests,
                        g.task.initContainer)
    ensures r.score == KeyScore(g.task, t, k)
  {
    var a := g.task.allocatable[k];
    if g.task.allocScorer(k).LeftoverScoreFunc? {
      LeftoverScore(a, Lookup(s.pod, k), Lookup(s.node, k), requests, g.task.initContainer);
      FullnessIs(g.task, t.node, k, r.score);
    } else {
      SignedBits(UsedBits(Bits(a), Bits(Lookup(s.pod, k)), Mask(requests)));
    }
  }

  ghost function ScoreSum(task: Task, t: State, at: set<Path>): real {
    if at == {} then 0.0 else
      var x :| x in at;
      KeyScore(task, t, x) + ScoreSum(task, t, at - {x})
  }

  lemma {:induction false} ScoreRemove(task: Task, t: State, at: set<Path>, x: Path)
    requires x in at
    ensures ScoreSum(task, t, at) == KeyScore(task, t, x) + ScoreSum(task, t, at - {x})
  {
    var y :| y in at && ScoreSum(task, t, at) == KeyScore(task, t, y) + ScoreSum(task, t, at - {y});
    if y != x {
      ScoreRemove(task, t, at - {y}, x);
      ScoreRemove(task, t, at - {x}, y);
      assert at - {y} - {x} == at - {x} - {y};
    }
  }

  lemma SameKeyScore(g: Group, t: State, u: State, k: Path)
    requires g.Unmoved(k, t, u)
    ensures KeyScore(g.task, t, k) == KeyScore(g.task, u, k)
  {
  }

  lemma {:induction false} ScoreFrame(g: Group, t: State, u: State, at: set<Path>)
    requires forall k :: k in at ==> g.Unmoved(k, t, u)
    ensures ScoreSum(g.task, t, at) == ScoreSum(g.task, u, at)
  {
    if at != {} {
      var x :| x in at;
      ScoreRemove(g.task, t, at, x);
      ScoreRemove(g.task, u, at, x);
      SameKeyScore(g, t, u, x);
      ScoreFrame(g, t, u, at - {x});
    }
  }

  lemma ScoreStep(g: Group, t: State, u: State, at: set<Path>, k: Path)
    requires k !in at && forall m :: m != k ==> g.Unmoved(m, t, u)
    ensures ScoreSum(g.task, u, at + {k}) == ScoreSum(g.task, t, at) + KeyScore(g.task, u, k)
  {
    ScoreRemove(g.task, u, at + {k}, k);
    assert at + {k} - {k} == at;
    ScoreFrame(g, t, u, at);
  }

  /** A batch over `at`, with the sum of the scores. */
  ghost predicate Summed(g: Group, at: set<Path>, s: State, t: State, score: real) {
    g.Batched(at, s, t) && score == ScoreSum(g.task, t, at)
  }

  lemma SummedStep(g: Group, at: set<Path>, s: State, t: State, u: State, score: real, score': real, k: Path)
    requires Summed(g, at, s, t, score) && k !in at && u.from == t.from
    requires g.Charged(k, Drawn(g.task.required, t.from, g.required, k), t, u)
    requires forall m :: m != k ==> g.Unmoved(m, t, u)
    requires score' == score + KeyScore(g.task, u, k)
    ensures Summed(g, at + {k}, s, u, score')
  {
    BatchStep(g, at, s, t, u, k);
    ScoreStep(g, t, u, at, k);
  }

  /** The progress of findScoreAndUpdate: `done` have been scored. */
  ghost predicate Scoring(g: Group, loc: string, done: set<Path>, start: State, s: State, score: real, total: bool,
                          found: bool) {
    && Attempted(g, done, start, s)
    && (found ==> total && Summed(g, done, start, s, score))
    && (total && g.Counts(loc) && g.BatchFits(loc, start) ==> found)
  }

  lemma ScoringStep(g: Group, loc: string, done: set<Path>, start: State, s: State, t: State, score: real,
                    score': real, k: Path, total: bool, found: bool, available: bool)
    requires Scoring(g, loc, done, start, s, score, total, found) && k in g.At(loc) && k !in done
    requires s.from == start.from && t.from == s.from && k in g.task.allocatable
    requires var d := Drawn(g.task.required, s.from, g.required, k);
      && (available ==> g.Charged(k, d, s, t)) && (!available ==> t == s)
      && (g.task.allocScorer(k).LeftoverScoreFunc? ==> available == RoomFor(g, k, d, s))
    requires forall m :: m != k ==> g.Unmoved(m, s, t)
    requires available ==> score' == score + KeyScore(g.task, t, k)
    ensures Scoring(g, loc, done + {k}, start, t, score', total, found && available)
  {
    assert g.Unmoved(k, start, s);
    AttemptStep(g, done, start, s, t, k, available);
    if found && available {
      SummedStep(g, done, start, s, t, score, score', k);
    }
    assert total && g.Counts(loc) && g.BatchFits(loc, start) ==>
           RoomFor(g, k, Drawn(g.task.required, s.from, g.required, k), s);
  }

  lemma ScoredAll(g: Group, loc: string, s: State, t: State, score: real)
    requires Summed(g, g.At(loc), s, t, score)
    ensures g.At(loc) != {} ==> Scored(g, loc, t, score / |g.At(loc)| as real)
  {
  }

  /** The score is the average over the resources at `loc`. */
  ghost predicate Scored(g: Group, loc: string, t: State, score: real) {
    g.At(loc) != {} ==> score == ScoreSum(g.task, t, g.At(loc)) / |g.At(loc)| as real
  }

  // ---- The record of used groups ----

  /** New names in the record of used groups are longer than `prefix` and start with it. */
  ghost predicate Marked(prefix: Path, was: set<Path>, now: set<Path>) {
    was <= now && forall p :: p in now && p !in was ==> prefix <= p && |prefix| < |p|
  }

  lemma MarkedTwice(prefix: Path, a: set<Path>, b: set<Path>, c: set<Path>)
    requires Marked(prefix, a, b) && Marked(prefix, b, c)
    ensures Marked(prefix, a, c)
  {
  }

  /** What a sub group marks is below the location of the enclosing group. */
  lemma MarkedBelow(prefix: Path, loc: string, g: string, was: set<Path>, now: set<Path>)
    requires Marked(prefix + [loc, g], was, now)
    ensures Marked(prefix + [loc], was, now)
  {
    assert prefix + [loc, g] == prefix + [loc] + [g];
    forall p | p in now && p !in was ensures prefix + [loc] <= p && |prefix + [loc]| < |p| {
      assert prefix + [loc, g] <= p;
    }
  }

  /** While locations below `prefix` are tried, only names further below it go on record. */
  ghost predicate Searched(prefix: Path, was: set<Path>, now: set<Path>) {
    was <= now && forall p :: p in now && p !in was ==> prefix <= p && |prefix| + 1 < |p|
  }

  lemma SearchedStep(prefix: Path, a: set<Path>, b: set<Path>, c: set<Path>, loc: string)
    requires Searched(prefix, a, b) && Marked(prefix + [loc], b, c)
    ensures Searched(prefix, a, c)
  {
    forall p | p in c && p !in a ensures prefix <= p && |prefix| + 1 < |p| {
      if p !in b {
        assert prefix + [loc] <= p;
      }
    }
  }

  /** So the record says of the locations themselves what it said before. */
  lemma SearchedTells(prefix: Path, was: set<Path>, now: set<Path>, loc: string)
    requires Searched(prefix, was, now)
    ensures prefix + [loc] in now <==> prefix + [loc] in was
  {
  }

  lemma SearchedMarks(prefix: Path, was: set<Path>, now: set<Path>, loc: string)
    requires Searched(prefix, was, now)
    ensures Marked(prefix, was, now) && Marked(prefix, was, now + {prefix + [loc]})
  {
  }

  // ---- The choice ----

  /** What came of trying a location: whether the group could be allocated there, whether the location was in use
      already, and then the score and the state. */
  datatype Outcome = Outcome(location: string, found: bool, isUsed: bool, score: real, state: State)

  /** A group that certainly can be allocated at `loc`: it has no sub groups and there is room for its names, or there
      is ample room for it and its sub groups. */
  ghost predicate Fitting(g: Group, loc: string, s: State) {
    (g.FlatFits(loc, s.node) && g.task.WithinCapacity(s.node)) || g.RoomyFor(loc, g.required, s.node)
  }

  /** An outcome is that of an allocation of the group at its location, or of a location that does not certainly fit.
      `used` are the groups in use before any was tried. */
  ghost predicate Genuine(g: Group, s: State, used: set<Path>, o: Outcome) {
    && o.location in g.alloc && o.isUsed == (g.allocPrefix + [o.location] in used)
    && if o.found then g.Allocated(o.location, s, o.state) && Scored(g, o.location, o.state, o.score)
       else !Fitting(g, o.location, s)
  }

  ghost predicate AllGenuine(g: Group, s: State, used: set<Path>, tried: seq<Outcome>) {
    forall i :: 0 <= i < |tried| ==> Genuine(g, s, used, tried[i])
  }

  ghost predicate TriedAt(tried: seq<Outcome>, loc: string) {
    exists i :: 0 <= i < |tried| && tried[i].location == loc
  }

  /** Each of `locs` has been tried once, and no other location. */
  ghost predicate EachOnce(tried: seq<Outcome>, locs: set<string>) {
    && (forall loc :: loc in locs <==> TriedAt(tried, loc))
    && forall i, j :: 0 <= i < j < |tried| ==> tried[i].location != tried[j].location
  }

  lemma EachOnceStep(tried: seq<Outcome>, locs: set<string>, o: Outcome)
    requires EachOnce(tried, locs - {o.location}) && o.location in locs
    ensures EachOnce(tried + [o], locs)
  {
    var all := tried + [o];
    assert all[|tried|] == o;
    forall loc ensures loc in locs <==> TriedAt(all, loc) {
      if TriedAt(tried, loc) {
        var i :| 0 <= i < |tried| && tried[i].location == loc;
        assert all[i].location == loc;
      }
    }
    forall i | 0 <= i < |tried| ensures tried[i].location != o.location {
      assert TriedAt(tried, tried[i].location);
    }
  }

  /** Among the successes in `tried`, in the order in which they were tried, `at` is what allocateGroup must keep: a
      group already in use if one is preferred and available, the highest score among those and the last of several with
      that score; otherwise the last with the highest score, if that reaches `floor`. */
  ghost predicate IsChoice(preferUsed: bool, floor: real, tried: seq<Outcome>, at: Option<nat>) {
    match at
    case None =>
      forall j :: 0 <= j < |tried| && tried[j].found ==> !(preferUsed && tried[j].isUsed) && tried[j].score < floor
    case Some(i) =>
      && i < |tried| && tried[i].found
      && if preferUsed && tried[i].isUsed then
           forall j :: 0 <= j < |tried| && tried[j].found && tried[j].isUsed ==> NotAbove(tried, j, i)
         else
           && tried[i].score >= floor
           && forall j :: 0 <= j < |tried| && tried[j].found ==>
                            !(preferUsed && tried[j].isUsed) && NotAbove(tried, j, i)
  }

  ghost predicate NotAbove(tried: seq<Outcome>, j: nat, i: nat)
    requires i < |tried| && j < |tried|
  {
    tried[j].score <= tried[i].score && (j > i ==> tried[j].score < tried[i].score)
  }

  /** Whether an outcome replaces the best so far. */
  predicate TakesOver(preferUsed: bool, bestIsUsed: bool, bestScore: real, isUsed: bool, score: real) {
    if !preferUsed then score >= bestScore
    else if bestIsUsed then isUsed && score >= bestScore
    else isUsed || score >= bestScore
  }

  ghost predicate Replaces(preferUsed: bool, floor: real, tried: seq<Outcome>, at: Option<nat>, o: Outcome)
    requires at.Some? ==> at.value < |tried|
  {
    o.found &&
    match at
    case None => TakesOver(preferUsed, false, floor, o.isUsed, o.score)
    case Some(i) => TakesOver(preferUsed, tried[i].isUsed, tried[i].score, o.isUsed, o.score)
  }

  lemma ChoiceStep(preferUsed: bool, floor: real, tried: seq<Outcome>, at: Option<nat>, o: Outcome)
    requires IsChoice(preferUsed, floor, tried, at)
    ensures IsChoice(preferUsed, floor, tried + [o],
                     if Replaces(preferUsed, floor, tried, at, o) then Some(|tried|) else at)
  {
    var all := tried + [o];
    assert all[|tried|] == o && forall j :: 0 <= j < |tried| ==> all[j] == tried[j];
  }

  /** The choice is right for what was tried, and what was tried is what came of each of `locs`. */
  ghost predicate Ranked(g: Group, floor: real, locs: set<string>, s: State, used: set<Path>, tried: seq<Outcome>,
                         at: Option<nat>) {
    && IsChoice(g.task.preferUsed, floor, tried, at)
    && EachOnce(tried, locs) && AllGenuine(g, s, used, tried)
  }

  /** What allocateGroup remembers of the best so far. */
  ghost predicate Recalls(tried: seq<Outcome>, at: Option<nat>, floor: real, found: bool, isUsed: bool, score: real,
                          t: State) {
    match at
    case None => !found && !isUsed && score == floor
    case Some(i) => found && i < |tried| && tried[i].isUsed == isUsed && tried[i].score == score && tried[i].state == t
  }

  /** The name that goes with the choice. */
  ghost predicate NamesChoice(g: Group, tried: seq<Outcome>, at: Option<nat>, name: Path) {
    match at
    case None => true
    case Some(i) => i < |tried| && name == g.allocPrefix + [tried[i].location]
  }

  lemma RecalledKeepsCapacity(g: Group, floor: real, locs: set<string>, s: State, used: set<Path>, tried: seq<Outcome>,
                              at: Option<nat>, found: bool, isUsed: bool, score: real, t: State)
    requires Ranked(g, floor, locs, s, used, tried, at) && Recalls(tried, at, floor, found, isUsed, score, t)
    ensures found ==> KeepsCapacity(g.task, s, t)
  {
    if found {
      assert Genuine(g, s, used, tried[at.value]);
    }
  }

  lemma RankedStep(g: Group, floor: real, locs: set<string>, s: State, used: set<Path>, tried: seq<Outcome>,
                   at: Option<nat>, found: bool, isUsed: bool, score: real, t: State, o: Outcome)
    requires Ranked(g, floor, locs - {o.location}, s, used, tried, at) && Genuine(g, s, used, o) && o.location in locs
    requires Recalls(tried, at, floor, found, isUsed, score, t)
    ensures var takesOver := o.found && TakesOver(g.task.preferUsed, isUsed, score, o.isUsed, o.score);
      && Ranked(g, floor, locs, s, used, tried + [o], if takesOver then Some(|tried|) else at)
      && (takesOver ==> Recalls(tried + [o], Some(|tried|), floor, true, o.isUsed, o.score, o.state))
      && (!takesOver ==> Recalls(tried + [o], at, floor, found, isUsed, score, t))
  {
    ChoiceStep(g.task.preferUsed, floor, tried, at, o);
    EachOnceStep(tried, locs, o);
  }
}
