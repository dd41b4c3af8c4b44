/** containerFitsGroupConstraints and PodFitsGroupConstraints of device-scheduler/grpalloc/grpallocate.go, and what
    the accounting later charges for a pod that was fitted. */
module GroupFit {
  import opened Collections
  import opened Scorer
  import opened Placement
  import opened ResourceUsage
  import opened GroupAllocation
  import opened GrpAllocators
  import opened Accounting

  /** The entries that are device-group resources. */
  function Grouped(prefix: Path, m: map<Path, int>): map<Path, int> {
    map n | n in m && prefix <= n :: m[n]
  }

  predicate HasRequests(cont: Container, prefix: Path) {
    Grouped(prefix, cont.requests) != map[]
  }

  /** No locations chosen yet, so the allocator has to choose. */
  predicate Unplaced(cont: Container, prefix: Path) {
    cont.allocateFrom.None? || (cont.allocateFrom.value == map[] && HasRequests(cont, prefix))
  }

  function TopGroup(n: NodeInfo, cont: Container, init: bool, preferUsed: bool): Group
    requires |n.prefix| >= 2
  {
    var task := Task(Grouped(n.prefix, cont.requests), cont.scorer, Grouped(n.prefix, n.allocatable), n.scorer, init,
                     preferUsed);
    var last := |n.prefix| - 1;
    Group(task, task.required.Keys, if task.allocatable == map[] then map[]
                                    else map[n.prefix[last] := task.allocatable.Keys],
          n.prefix, n.prefix[..last])
  }

  lemma TopGroupValid(n: NodeInfo, cont: Container, init: bool, preferUsed: bool)
    requires |n.prefix| >= 2
    ensures var g := TopGroup(n, cont, init, preferUsed);
            && g.Valid() && g.allocPrefix + [n.prefix[|n.prefix| - 1]] == n.prefix
            && g.At(n.prefix[|n.prefix| - 1]) == Grouped(n.prefix, n.allocatable).Keys
            && g.alloc.Keys <= {n.prefix[|n.prefix| - 1]}
  {
  }

  /** Grouped resources, if plain quantities, have moved by what `cont` draws and stay within what the node has; other
      resources have not moved. */
  ghost predicate ContainerCharged(n: NodeInfo, cont: Container, init: bool, b: Books, b': Books) {
    && (forall k :: k in n.allocatable && n.prefix <= k && n.scorer(k).LeftoverScoreFunc? ==>
          ChargedAt(n, cont, init, b, b', k))
    && (forall k :: k !in n.allocatable || !(n.prefix <= k) ==>
          Lookup(b'.pod, k) == Lookup(b.pod, k) && Lookup(b'.node, k) == Lookup(b.node, k))
  }

  ghost predicate ChargedAt(n: NodeInfo, cont: Container, init: bool, b: Books, b': Books, k: Path)
    requires k in n.allocatable
  {
    if HasRequests(cont, n.prefix) then
      && Lookup(b'.pod, k) == PodAfter(Lookup(b.pod, k), cont.Draw(n.prefix, k), init)
      && Lookup(b'.node, k) - Lookup(b'.pod, k) == Lookup(b.node, k) - Lookup(b.pod, k)
      && Lookup(b'.node, k) <= n.allocatable[k]
    else
      Lookup(b'.pod, k) == Lookup(b.pod, k) && Lookup(b'.node, k) == Lookup(b.node, k)
  }

  /** Names that are only placed or only requested draw nothing, so a fit and the accounting see the same total. */
  lemma DrawMatches(cont: Container, prefix: Path, k: Path)
    ensures Drawn(Grouped(prefix, cont.requests), cont.From(), Grouped(prefix, cont.requests).Keys, k) ==
            cont.Draw(prefix, k)
  {
    var req := Grouped(prefix, cont.requests);
    var f, g := Share(req, cont.From(), k), Share(cont.requests, cont.From(), k);
    var both, asked, placed := req.Keys * cont.Drawing(prefix), req.Keys - cont.Drawing(prefix),
        cont.Drawing(prefix) - req.Keys;
    assert both + asked == req.Keys && both + placed == cont.Drawing(prefix);
    SumUnion(both, asked, f);
    SumUnion(both, placed, g);
    SumCongruence(both, f, g);
    SumCongruence(asked, f, n => 0);
    SumCongruence(placed, g, n => 0);
    SumZero(asked);
    SumZero(placed);
  }

  lemma BatchCharges(n: NodeInfo, cont: Container, init: bool, preferUsed: bool, g: Group, loc: string, s: State,
                     t: State)
    requires |n.prefix| >= 2 && HasRequests(cont, n.prefix) && g == TopGroup(n, cont, init, preferUsed)
    requires loc == n.prefix[|n.prefix| - 1] && g.Batched(g.At(loc), s, t)
    requires cont.From() == t.from && forall m :: m in g.required ==> m in t.from
    ensures ContainerCharged(n, cont, init, Books(s.pod, s.node), Books(t.pod, t.node))
  {
    TopGroupValid(n, cont, init, preferUsed);
    forall k | k in n.allocatable && n.prefix <= k && n.scorer(k).LeftoverScoreFunc?
      ensures ChargedAt(n, cont, init, Books(s.pod, s.node), Books(t.pod, t.node), k)
    {
      DrawMatches(cont, n.prefix, k);
      assert g.Charged(k, Drawn(g.task.required, t.from, g.required, k), s, t);
    }
    forall k | k !in n.allocatable || !(n.prefix <= k)
      ensures Lookup(t.pod, k) == Lookup(s.pod, k) && Lookup(t.node, k) == Lookup(s.node, k)
    {
      assert g.Unmoved(k, s, t);
    }
  }

  /** What a successful fit leaves in a container that had no locations. */
  ghost predicate WellPlaced(cont: Container, prefix: Path) {
    cont.From().Keys == Grouped(prefix, cont.requests).Keys && Placed(prefix, prefix, cont.From().Keys, cont.From())
  }

  lemma AllocationPlaces(g: Group, loc: string, s: State, t: State)
    requires g.Tried(loc, s, t) && s.from == map[]
    ensures t.from.Keys == g.required && Placed(g.reqBase, g.allocPrefix + [loc], t.from.Keys, t.from)
  {
    assert forall m :: m in t.from ==> m in g.required;
    assert t.from.Keys == g.required;
  }

  lemma AllocationCharges(n: NodeInfo, chosen: Container, init: bool, preferUsed: bool, g: Group, loc: string,
                          s: State, t: State)
    requires |n.prefix| >= 2 && HasRequests(chosen, n.prefix) && g == TopGroup(n, chosen, init, preferUsed)
    requires g.Allocated(loc, s, t) && chosen.From() == t.from && s.from == map[]
    ensures ContainerCharged(n, chosen, init, Books(s.pod, s.node), Books(t.pod, t.node)) &&
            WellPlaced(chosen, n.prefix)
  {
    TopLocation(n, chosen, init, preferUsed, g, loc);
    AllocationPlaces(g, loc, s, t);
    BatchCharges(n, chosen, init, preferUsed, g, loc, s, t);
  }

  lemma TopLocation(n: NodeInfo, cont: Container, init: bool, preferUsed: bool, g: Group, loc: string)
    requires |n.prefix| >= 2 && g == TopGroup(n, cont, init, preferUsed) && loc in g.alloc
    ensures loc == n.prefix[|n.prefix| - 1] && g.allocPrefix + [loc] == n.prefix && g.reqBase == n.prefix
  {
    TopGroupValid(n, cont, init, preferUsed);
  }

  // ---- The verdict on a container ----

  /** Every grouped resource of the node is a plain quantity. */
  ghost predicate PlainNode(n: NodeInfo) {
    forall k :: k in n.allocatable && n.prefix <= k ==> n.scorer(k).LeftoverScoreFunc?
  }

  /** Every grouped request is drawn from a grouped resource of the node. */
  ghost predicate Located(n: NodeInfo, cont: Container) {
    forall m :: m in cont.requests && n.prefix <= m ==>
      m in cont.From() && cont.From()[m] in n.allocatable && n.prefix <= cont.From()[m]
  }

  /** Where `cont` is to be drawn from has room for it, and no other resource is in use beyond capacity. */
  ghost predicate FitsWhereItIs(n: NodeInfo, cont: Container, init: bool, b: Books) {
    Located(n, cont) && forall k :: IsPlain(n, k) ==> DrawFits(n, cont, init, b, k)
  }

  lemma TopCounts(n: NodeInfo, cont: Container, init: bool, preferUsed: bool)
    requires |n.prefix| >= 2 && PlainNode(n)
    ensures TopGroup(n, cont, init, preferUsed).Counts(n.prefix[|n.prefix| - 1])
  {
    TopGroupValid(n, cont, init, preferUsed);
  }

  lemma TopBatchFits(n: NodeInfo, cont: Container, init: bool, preferUsed: bool, g: Group, loc: string, s: State)
    requires |n.prefix| >= 2 && PlainNode(n) && g == TopGroup(n, cont, init, preferUsed)
    requires loc == n.prefix[|n.prefix| - 1] && s.from == cont.From()
    ensures g.BatchFits(loc, s) <==> FitsWhereItIs(n, cont, init, Books(s.pod, s.node))
  {
    TopGroupValid(n, cont, init, preferUsed);
    TopLocates(n, cont, init, preferUsed);
    assert forall k :: k in g.At(loc) <==> IsPlain(n, k);
    forall k | IsPlain(n, k)
      ensures RoomFor(g, k, Drawn(g.task.required, s.from, g.required, k), s) <==>
                DrawFits(n, cont, init, Books(s.pod, s.node), k)
    {
      TopRoomFor(n, cont, init, preferUsed, s, k);
    }
  }

  lemma TopLocates(n: NodeInfo, cont: Container, init: bool, preferUsed: bool)
    requires |n.prefix| >= 2
    ensures var g := TopGroup(n, cont, init, preferUsed);
      Located(n, cont) <==> forall m :: m in g.required ==> m in cont.From() && cont.From()[m] in g.task.allocatable
  {
  }

  lemma TopRoomFor(n: NodeInfo, cont: Container, init: bool, preferUsed: bool, s: State, k: Path)
    requires |n.prefix| >= 2 && IsPlain(n, k) && s.from == cont.From()
    ensures var g := TopGroup(n, cont, init, preferUsed);
      RoomFor(g, k, Drawn(g.task.required, s.from, g.required, k), s) <==>
      DrawFits(n, cont, init, Books(s.pod, s.node), k)
  {
    DrawMatches(cont, n.prefix, k);
  }

  ghost function Requests(cont: Container): Path -> int {
    m => Lookup(cont.requests, m)
  }

  /** All that `cont` requests of grouped resources. */
  ghost function Load(cont: Container, prefix: Path): int {
    Sum(Grouped(prefix, cont.requests).Keys, Requests(cont))
  }

  /** A placement of what `cont` requests on grouped resources that each have room for `load` more. */
  ghost predicate AmplyPlaced(n: NodeInfo, cont: Container, from: map<Path, Path>, node: Usage, load: int) {
    && Placed(n.prefix, n.prefix, Grouped(n.prefix, cont.requests).Keys, from)
    && forall m :: m in cont.requests && n.prefix <= m && m in from ==>
         from[m] in n.allocatable && Lookup(node, from[m]) + load <= n.allocatable[from[m]]
  }

  /** Requests that are not negative and have no scorer of their own. */
  ghost predicate PlainRequests(cont: Container, prefix: Path) {
    forall m :: m in cont.requests && prefix <= m ==> cont.requests[m] >= 0 && m !in cont.scorer
  }

  /** The node has plain quantities only, none in use beyond capacity or below zero. */
  ghost predicate PlainUsage(n: NodeInfo, node: Usage) {
    PlainNode(n) && forall k :: IsPlain(n, k) ==> 0 <= Lookup(node, k) <= n.allocatable[k]
  }

  /** A plain running container for which there is a placement with room for all of it wherever it draws. */
  ghost predicate AmpleRoom(n: NodeInfo, cont: Container, node: Usage) {
    && PlainRequests(cont, n.prefix) && PlainUsage(n, node)
    && exists from :: AmplyPlaced(n, cont, from, node, Load(cont, n.prefix))
  }

  lemma TopIsRegular(n: NodeInfo, cont: Container, preferUsed: bool, node: Usage)
    requires |n.prefix| >= 2 && PlainRequests(cont, n.prefix) && PlainUsage(n, node)
    ensures TopGroup(n, cont, false, preferUsed).task.Regular(node)
  {
    forall k | k in Grouped(n.prefix, n.allocatable) ensures 0 <= Lookup(node, k) <= n.allocatable[k] {
      assert IsPlain(n, k);
    }
  }

  lemma TopLoad(n: NodeInfo, cont: Container, init: bool, preferUsed: bool)
    requires |n.prefix| >= 2
    ensures var g := TopGroup(n, cont, init, preferUsed); g.task.Load(g.required) == Load(cont, n.prefix)
  {
    var g := TopGroup(n, cont, init, preferUsed);
    SumCongruence(g.required, g.task.Request(), Requests(cont));
  }

  lemma TopIsRoomy(n: NodeInfo, cont: Container, preferUsed: bool, node: Usage)
    requires |n.prefix| >= 2 && AmpleRoom(n, cont, node)
    ensures TopGroup(n, cont, false, preferUsed).Roomy(node)
  {
    var g, loc := TopGroup(n, cont, false, preferUsed), n.prefix[|n.prefix| - 1];
    TopGroupValid(n, cont, false, preferUsed);
    TopIsRegular(n, cont, preferUsed, node);
    TopLoad(n, cont, false, preferUsed);
    var from :| AmplyPlaced(n, cont, from, node, Load(cont, n.prefix));
    forall m | m in g.required
      ensures m in from && from[m] in g.At(loc)
      ensures Lookup(node, from[m]) + g.task.Load(g.required) <= Lookup(g.task.allocatable, from[m])
    {
      assert m in cont.requests && n.prefix <= m && n.prefix <= from[m];
    }
    assert g.Ample(loc, g.required, from, node);
    assert g.RoomyFor(loc, g.required, node);
  }

  /** The score of a container that fits: the average over the node's grouped resources once it is charged, and nothing
      for one that requests nothing. */
  ghost predicate IsScore(n: NodeInfo, cont: Container, init: bool, preferUsed: bool, b: Books, score: real)
    requires |n.prefix| >= 2
  {
    if HasRequests(cont, n.prefix) then
      Scored(TopGroup(n, cont, init, preferUsed), n.prefix[|n.prefix| - 1], State(b.pod, b.node, map[]), score)
    else score == 0.0
  }

  lemma ScoreIgnoresLocations(g: Group, loc: string, t: State, score: real)
    requires Scored(g, loc, t, score)
    ensures Scored(g, loc, State(t.pod, t.node, map[]), score)
  {
    ScoreFrame(g, t, State(t.pod, t.node, map[]), g.At(loc));
  }

  lemma FoundScore(n: NodeInfo, cont: Container, init: bool, preferUsed: bool, g: Group, loc: string, t: State,
                   score: real)
    requires |n.prefix| >= 2 && g == TopGroup(n, cont, init, preferUsed)
    requires if g.required == {} then score == 0.0 else loc in g.alloc && Scored(g, loc, t, score)
    ensures IsScore(n, cont, init, preferUsed, Books(t.pod, t.node), score)
  {
    SameTopGroup(n, cont, cont, init, preferUsed);
    if g.required != {} {
      TopLocation(n, cont, init, preferUsed, g, loc);
      ScoreIgnoresLocations(g, loc, t, score);
    }
  }

  lemma TopSucceeds(n: NodeInfo, cont: Container, init: bool, preferUsed: bool, node: Usage)
    requires |n.prefix| >= 2
    ensures !HasRequests(cont, n.prefix) || (!init && AmpleRoom(n, cont, node)) ==>
              var g := TopGroup(n, cont, init, preferUsed); g.required == {} || g.Roomy(node)
  {
    SameTopGroup(n, cont, cont, init, preferUsed);
    if !init && AmpleRoom(n, cont, node) {
      TopIsRoomy(n, cont, preferUsed, node);
    }
  }

  lemma FoundFits(n: NodeInfo, cont: Container, chosen: Container, init: bool, preferUsed: bool, g: Group, loc: string,
                  s: State, t: State, score: real)
    requires |n.prefix| >= 2 && g == TopGroup(n, cont, init, preferUsed) && s.from == map[]
    requires chosen == cont.(allocateFrom := Some(t.from)) && AllocatedOrNothing(g, loc, s, t)
    requires if g.required == {} then score == 0.0 else Scored(g, loc, t, score)
    ensures ContainerCharged(n, chosen, init, Books(s.pod, s.node), Books(t.pod, t.node))
    ensures WellPlaced(chosen, n.prefix) && IsScore(n, cont, init, preferUsed, Books(t.pod, t.node), score)
  {
    FoundCharges(n, cont, chosen, init, preferUsed, g, loc, s, t);
    FoundScore(n, cont, init, preferUsed, g, loc, t, score);
  }

  /** A container without locations: they are chosen, and the caller's tables are not written. */
  method AllocateContainer(n: NodeInfo, cont: Container, init: bool, pod: UsageTable, node: UsageTable,
                           usedGroups: UsedGroups, preferUsed: bool)
    returns (found: bool, chosen: Container, pod': UsageTable, node': UsageTable, score: real)
    requires |n.prefix| >= 2 && pod != node
    modifies usedGroups
    ensures chosen == cont.(allocateFrom := chosen.allocateFrom) && SameOrNew(pod, node, pod', node')
    ensures found ==> ContainerCharged(n, chosen, init, Books(pod.m, node.m), Books(pod'.m, node'.m))
    ensures found ==> WellPlaced(chosen, n.prefix)
    ensures !found ==> pod' == pod && node' == node
    ensures !HasRequests(cont, n.prefix) || (!init && AmpleRoom(n, cont, node.m)) ==> found
    ensures found ==> IsScore(n, cont, init, preferUsed, Books(pod'.m, node'.m), score)
  {
    TopGroupValid(n, cont, init, preferUsed);
    TopSucceeds(n, cont, init, preferUsed, node.m);
    var g := TopGroup(n, cont, init, preferUsed);
    var from;
    ghost var loc;
    found, pod', node', from, score, loc := AllocateTop(g, pod, node, usedGroups);
    chosen := cont.(allocateFrom := Some(from));
    if found {
      FoundFits(n, cont, chosen, init, preferUsed, g, loc, State(pod.m, node.m, map[]),
                State(pod'.m, node'.m, from), score);
    }
  }

  /** A new allocator on the caller's tables, and what comes of it. */
  method AllocateTop(g: Group, pod: UsageTable, node: UsageTable, usedGroups: UsedGroups)
    returns (found: bool, pod': UsageTable, node': UsageTable, from: map<Path, Path>, score: real, ghost loc: string)
    requires g.Valid() && pod != node
    modifies usedGroups
    ensures SameOrNew(pod, node, pod', node') && (!found ==> pod' == pod && node' == node)
    ensures found ==> AllocatedOrNothing(g, loc, State(pod.m, node.m, map[]), State(pod'.m, node'.m, from))
    ensures g.required == {} || g.Roomy(node.m) ==> found
    ensures found && g.required == {} ==> score == 0.0
    ensures found && g.required != {} ==> Scored(g, loc, State(pod'.m, node'.m, from), score)
  {
    var table := new LocationTable(map[]);
    var grp := new GrpAllocator(g, usedGroups, pod, node, table);
    ghost var s := grp.St();
    found, loc := grp.Allocate();
    pod', node', from, score := grp.podResource, grp.nodeResource, grp.allocateFrom.m, grp.score;
    assert found ==> AllocatedOrNothing(g, loc, s, grp.St());
  }

  ghost predicate AllocatedOrNothing(g: Group, loc: string, s: State, t: State) {
    if g.required == {} then t == s else g.Allocated(loc, s, t)
  }

  /** What an allocation leaves, also of a container that asks for nothing. */
  lemma FoundCharges(n: NodeInfo, cont: Container, chosen: Container, init: bool, preferUsed: bool, g: Group,
                     loc: string, s: State, t: State)
    requires |n.prefix| >= 2 && g == TopGroup(n, cont, init, preferUsed) && s.from == map[]
    requires chosen == cont.(allocateFrom := Some(t.from))
    requires AllocatedOrNothing(g, loc, s, t)
    ensures ContainerCharged(n, chosen, init, Books(s.pod, s.node), Books(t.pod, t.node)) &&
            WellPlaced(chosen, n.prefix)
  {
    SameTopGroup(n, cont, chosen, init, preferUsed);
    if HasRequests(chosen, n.prefix) {
      AllocationCharges(n, chosen, init, preferUsed, g, loc, s, t);
    } else {
      NothingCharged(n, chosen, init, s, t);
    }
  }

  /** The locations play no part in what is asked for. */
  lemma SameTopGroup(n: NodeInfo, cont: Container, chosen: Container, init: bool, preferUsed: bool)
    requires |n.prefix| >= 2 && chosen == cont.(allocateFrom := chosen.allocateFrom)
    ensures TopGroup(n, chosen, init, preferUsed) == TopGroup(n, cont, init, preferUsed)
    ensures HasRequests(chosen, n.prefix) <==> TopGroup(n, cont, init, preferUsed).required != {}
  {
  }

  lemma NothingCharged(n: NodeInfo, chosen: Container, init: bool, s: State, t: State)
    requires !HasRequests(chosen, n.prefix) && t == s && chosen.From() == map[]
    ensures ContainerCharged(n, chosen, init, Books(s.pod, s.node), Books(t.pod, t.node)) &&
            WellPlaced(chosen, n.prefix)
  {
  }

  /** The tables are those there were, or new ones; they are two. */
  twostate predicate SameOrNew(pod: UsageTable, node: UsageTable, new pod': UsageTable, new node': UsageTable) {
    (pod' == pod || fresh(pod')) && (node' == node || fresh(node')) && pod' != node'
  }

  /** A container with locations: they are checked, and what has room is charged in the caller's tables, even if the
      whole does not fit. */
  method RecheckContainer(n: NodeInfo, cont: Container, init: bool, pod: UsageTable, node: UsageTable,
                          usedGroups: UsedGroups, preferUsed: bool)
    returns (found: bool, score: real)
    requires |n.prefix| >= 2 && HasRequests(cont, n.prefix) && pod != node
    modifies pod, node
    ensures found ==> ContainerCharged(n, cont, init, old(Books(pod.m, node.m)), Books(pod.m, node.m))
    ensures PartlyCharged(n, cont, init, old(Books(pod.m, node.m)), Books(pod.m, node.m))
    ensures PlainNode(n) ==> (found <==> FitsWhereItIs(n, cont, init, old(Books(pod.m, node.m))))
    ensures found ==> IsScore(n, cont, init, preferUsed, Books(pod.m, node.m), score)
  {
    TopGroupValid(n, cont, init, preferUsed);
    var from := new LocationTable(cont.From());
    var grp := new GrpAllocator(TopGroup(n, cont, init, preferUsed), usedGroups, pod, node, from);
    ghost var b := Books(pod.m, node.m);
    var last := n.prefix[|n.prefix| - 1];
    found := grp.Recheck(last);
    score := grp.score;
    ghost var b' := Books(pod.m, node.m);
    ghost var s, t := State(b.pod, b.node, cont.From()), State(b'.pod, b'.node, cont.From());
    assert grp.St() == t;
    RecheckCharges(n, cont, init, preferUsed, grp.group, last, s, t, found);
    if PlainNode(n) {
      TopCounts(n, cont, init, preferUsed);
      TopBatchFits(n, cont, init, preferUsed, grp.group, last, s);
    }
    if found {
      ScoreIgnoresLocations(grp.group, last, t, score);
    }
  }

  /** Whether a draw of the container from `k` has room. */
  ghost predicate DrawFits(n: NodeInfo, cont: Container, init: bool, b: Books, k: Path)
    requires k in n.allocatable
  {
    Lookup(b.node, k) + PodAfter(Lookup(b.pod, k), cont.Draw(n.prefix, k), init) - Lookup(b.pod, k) <= n.allocatable[k]
  }

  /** The plain grouped resources with room for what `cont` draws are charged with it; nothing else moves but masks. */
  ghost predicate PartlyCharged(n: NodeInfo, cont: Container, init: bool, b: Books, b': Books) {
    && (forall k :: k in n.allocatable && n.prefix <= k && n.scorer(k).LeftoverScoreFunc? ==>
          if DrawFits(n, cont, init, b, k) then ChargedAt(n, cont, init, b, b', k) else SameAt(b, b', k))
    && (forall k :: k !in n.allocatable || !(n.prefix <= k) ==> SameAt(b, b', k))
  }

  ghost predicate SameAt(b: Books, b': Books, k: Path) {
    Lookup(b'.pod, k) == Lookup(b.pod, k) && Lookup(b'.node, k) == Lookup(b.node, k)
  }

  lemma RecheckCharges(n: NodeInfo, cont: Container, init: bool, preferUsed: bool, g: Group, loc: string, s: State,
                       t: State, found: bool)
    requires |n.prefix| >= 2 && HasRequests(cont, n.prefix) && g == TopGroup(n, cont, init, preferUsed)
    requires loc == n.prefix[|n.prefix| - 1] && Attempted(g, g.At(loc), s, t) && cont.From() == t.from
    requires found ==> g.Batched(g.At(loc), s, t) && forall m :: m in g.required ==> m in t.from
    ensures PartlyCharged(n, cont, init, Books(s.pod, s.node), Books(t.pod, t.node))
    ensures found ==> ContainerCharged(n, cont, init, Books(s.pod, s.node), Books(t.pod, t.node))
  {
    AttemptCharges(n, cont, init, preferUsed, g, loc, s, t);
    if found {
      BatchCharges(n, cont, init, preferUsed, g, loc, s, t);
    }
  }

  lemma AttemptCharges(n: NodeInfo, cont: Container, init: bool, preferUsed: bool, g: Group, loc: string, s: State,
                       t: State)
    requires |n.prefix| >= 2 && HasRequests(cont, n.prefix) && g == TopGroup(n, cont, init, preferUsed)
    requires loc == n.prefix[|n.prefix| - 1] && Attempted(g, g.At(loc), s, t) && cont.From() == t.from
    ensures PartlyCharged(n, cont, init, Books(s.pod, s.node), Books(t.pod, t.node))
  {
    TopGroupValid(n, cont, init, preferUsed);
    var b, b' := Books(s.pod, s.node), Books(t.pod, t.node);
    forall k | k in n.allocatable && n.prefix <= k && n.scorer(k).LeftoverScoreFunc?
      ensures if DrawFits(n, cont, init, b, k) then ChargedAt(n, cont, init, b, b', k) else SameAt(b, b', k)
    {
      DrawMatches(cont, n.prefix, k);
      assert AttemptedAt(g, k, s, t);
    }
    forall k | k !in n.allocatable || !(n.prefix <= k) ensures SameAt(b, b', k) {
      assert g.Unmoved(k, s, t);
    }
  }

  /** containerFitsGroupConstraints: `chosen` is the container with the locations it is charged at. */
  method ContainerFits(n: NodeInfo, cont: Container, init: bool, pod: UsageTable, node: UsageTable,
                       usedGroups: UsedGroups, preferUsed: bool)
    returns (found: bool, chosen: Container, pod': UsageTable, node': UsageTable, score: real)
    requires |n.prefix| >= 2 && pod != node
    modifies usedGroups, pod, node
    ensures chosen == cont.(allocateFrom := chosen.allocateFrom) && SameOrNew(pod, node, pod', node')
    ensures found ==> ContainerCharged(n, chosen, init, old(Books(pod.m, node.m)), Books(pod'.m, node'.m))
    ensures !Unplaced(cont, n.prefix) ==> chosen == cont && pod' == pod && node' == node
    ensures Unplaced(cont, n.prefix) || !HasRequests(cont, n.prefix) ==> pod.m == old(pod.m) && node.m == old(node.m)
    ensures found && Unplaced(cont, n.prefix) ==> WellPlaced(chosen, n.prefix)
    ensures !found && Unplaced(cont, n.prefix) ==> pod' == pod && node' == node
    ensures !HasRequests(cont, n.prefix) || (Unplaced(cont, n.prefix) && !init && AmpleRoom(n, cont, old(node.m))) ==>
              found
    ensures PlainNode(n) && !Unplaced(cont, n.prefix) && HasRequests(cont, n.prefix) ==>
              (found <==> FitsWhereItIs(n, cont, init, old(Books(pod.m, node.m))))
    ensures found ==> IsScore(n, cont, init, preferUsed, Books(pod'.m, node'.m), score)
  {
    if Unplaced(cont, n.prefix) {
      found, chosen, pod', node', score := AllocateContainer(n, cont, init, pod, node, usedGroups, preferUsed);
    } else if HasRequests(cont, n.prefix) {
      found, score := RecheckContainer(n, cont, init, pod, node, usedGroups, preferUsed);
      chosen, pod', node' := cont, pod, node;
    } else {
      found, chosen, score, pod', node' := true, cont, 0.0, pod, node;
    }
  }

  /** The plain grouped quantities of the node. */
  ghost predicate IsPlain(n: NodeInfo, k: Path) {
    k in n.allocatable && n.prefix <= k && n.scorer(k).LeftoverScoreFunc?
  }

  ghost function Requesting(conts: map<string, Container>, prefix: Path): set<string> {
    set c | c in conts && HasRequests(conts[c], prefix)
  }

  /** What a fit charges for a pod: the sum of what the running containers draw, or what the init container drawing most
      draws altogether if that is more. */
  ghost function FitCharge(pod: Pod, prefix: Path, k: Path): int {
    Greatest(Requesting(pod.init, prefix), DrawOf(pod.init, prefix, k), pod.RunningDraw(prefix, k))
  }

  /** The books after fitting the containers of `pod`. */
  ghost predicate Fitted(n: NodeInfo, used: Usage, pod: Pod, b: Books) {
    && (forall k :: IsPlain(n, k) ==> FittedAt(n, used, pod, b, k))
    && (forall k :: k !in n.allocatable || !(n.prefix <= k) ==>
        Lookup(b.pod, k) == 0 && Lookup(b.node, k) == Lookup(used, k))
  }

  ghost predicate FittedAt(n: NodeInfo, used: Usage, pod: Pod, b: Books, k: Path)
    requires k in n.allocatable
  {
    && Lookup(b.pod, k) == FitCharge(pod, n.prefix, k)
    && Lookup(b.node, k) == Lookup(used, k) + FitCharge(pod, n.prefix, k)
    && (Requesting(pod.running, n.prefix) + Requesting(pod.init, n.prefix) != {} ==>
        Lookup(b.node, k) <= n.allocatable[k])
  }

  lemma NoRequestsNoDraw(cont: Container, prefix: Path, k: Path)
    requires !HasRequests(cont, prefix)
    ensures cont.Draw(prefix, k) == 0
  {
    assert Grouped(prefix, cont.requests).Keys == {};
    assert forall n :: n in cont.requests ==> n in Grouped(prefix, cont.requests) || !(prefix <= n);
    SumCongruence(cont.Drawing(prefix), Share(cont.requests, cont.From(), k), n => 0);
    SumZero(cont.Drawing(prefix));
  }

  lemma RequestingStep(conts: map<string, Container>, prefix: Path, c: string, cont: Container)
    requires c !in conts
    ensures Requesting(conts[c := cont], prefix) ==
            Requesting(conts, prefix) + if HasRequests(cont, prefix) then {c} else {}
    ensures Requesting(map[], prefix) == {}
  {
  }

  lemma RunningCharge(running: map<string, Container>, prefix: Path, c: string, cont: Container, k: Path)
    requires c !in running
    ensures FitCharge(Pod(running[c := cont], map[]), prefix, k) ==
            FitCharge(Pod(running, map[]), prefix, k) + cont.Draw(prefix, k)
  {
    var f, f' := DrawOf(running, prefix, k), DrawOf(running[c := cont], prefix, k);
    assert running[c := cont].Keys == running.Keys + {c};
    SumCongruence(running.Keys, f, f');
    SumAdd(running.Keys, f', c);
    RequestingStep(running, prefix, c, cont);
  }

  /** Adding an init container does not change what the others draw. */
  lemma InitOthers(pod: Pod, prefix: Path, c: string, cont: Container, k: Path)
    requires c !in pod.init
    ensures FitCharge(pod, prefix, k) ==
            Greatest(Requesting(pod.init, prefix), DrawOf(pod.init[c := cont], prefix, k), pod.RunningDraw(prefix, k))
  {
    GreatestCongruence(Requesting(pod.init, prefix), DrawOf(pod.init, prefix, k),
                       DrawOf(pod.init[c := cont], prefix, k),
                       pod.RunningDraw(prefix, k));
  }

  lemma InitCharge(pod: Pod, prefix: Path, c: string, cont: Container, k: Path)
    requires c !in pod.init
    ensures FitCharge(pod.(init := pod.init[c := cont]), prefix, k) ==
            if HasRequests(cont, prefix) then Max(FitCharge(pod, prefix, k), cont.Draw(prefix, k))
            else FitCharge(pod, prefix, k)
  {
    InitOthers(pod, prefix, c, cont, k);
    RequestingStep(pod.init, prefix, c, cont);
    if HasRequests(cont, prefix) {
      GreatestAdd(Requesting(pod.init, prefix), DrawOf(pod.init[c := cont], prefix, k), pod.RunningDraw(prefix, k), c);
    } else {
      assert Requesting(pod.init, prefix) + {} == Requesting(pod.init, prefix);
    }
  }

  lemma FittedAtStep(n: NodeInfo, used: Usage, pod: Pod, init: bool, c: string, cont: Container, b: Books, b': Books,
                     k: Path)
    requires k in n.allocatable && FittedAt(n, used, pod, b, k) && ChargedAt(n, cont, init, b, b', k)
    requires if init then c !in pod.init else c !in pod.running && pod.init == map[]
    ensures FittedAt(n, used, if init then pod.(init := pod.init[c := cont])
                              else pod.(running := pod.running[c := cont]), b', k)
  {
    if init {
      InitCharge(pod, n.prefix, c, cont, k);
      RequestingStep(pod.init, n.prefix, c, cont);
    } else {
      assert pod == Pod(pod.running, map[]);
      RunningCharge(pod.running, n.prefix, c, cont, k);
      RequestingStep(pod.running, n.prefix, c, cont);
      if !HasRequests(cont, n.prefix) {
        NoRequestsNoDraw(cont, n.prefix, k);
      }
    }
  }

  lemma FittedStep(n: NodeInfo, used: Usage, pod: Pod, init: bool, c: string, cont: Container, b: Books, b': Books)
    requires Fitted(n, used, pod, b) && ContainerCharged(n, cont, init, b, b')
    requires if init then c !in pod.init else c !in pod.running && pod.init == map[]
    ensures Fitted(n, used, if init then pod.(init := pod.init[c := cont])
                            else pod.(running := pod.running[c := cont]), b')
  {
    var pod' := if init then pod.(init := pod.init[c := cont]) else pod.(running := pod.running[c := cont]);
    forall k | IsPlain(n, k) ensures FittedAt(n, used, pod', b', k) {
      FittedAtStep(n, used, pod, init, c, cont, b, b', k);
    }
  }

  /** The containers of `pod` with locations filled in where there were none. */
  ghost predicate Completes(prefix: Path, conts: map<string, Container>, chosen: map<string, Container>) {
    && chosen.Keys <= conts.Keys
    && (forall c :: c in chosen ==>
          && chosen[c] == conts[c].(allocateFrom := chosen[c].allocateFrom)
          && if Unplaced(conts[c], prefix) then WellPlaced(chosen[c], prefix) else chosen[c] == conts[c])
  }

  // ---- The verdict on a pod ----

  /** What ContainerFits says of a container, from books to books. */
  ghost predicate Judged(n: NodeInfo, cont: Container, init: bool, b: Books, b': Books, fits: bool, chosen: Container) {
    && chosen == cont.(allocateFrom := chosen.allocateFrom) && (!Unplaced(cont, n.prefix) ==> chosen == cont)
    && (fits ==> ContainerCharged(n, chosen, init, b, b'))
    && (fits && Unplaced(cont, n.prefix) ==> WellPlaced(chosen, n.prefix))
    && (!HasRequests(cont, n.prefix) ==> fits)
    && (!init && Unplaced(cont, n.prefix) && AmpleRoom(n, cont, b.node) ==> fits)
    && (PlainNode(n) && !Unplaced(cont, n.prefix) && HasRequests(cont, n.prefix) ==>
          (fits <==> FitsWhereItIs(n, cont, init, b)))
  }

  ghost function With(pod: Pod, init: bool, conts: map<string, Container>): Pod {
    if init then pod.(init := conts) else pod.(running := conts)
  }

  ghost predicate AllLocated(n: NodeInfo, conts: map<string, Container>) {
    forall c :: c in conts ==> Located(n, conts[c])
  }

  /** The exact condition for a pod whose containers come with locations: every grouped request is drawn from a grouped
      resource of the node, and, if there is one, no such resource is used beyond capacity with the pod. */
  ghost predicate FitsAltogether(n: NodeInfo, used: Usage, pod: Pod) {
    && AllLocated(n, pod.running) && AllLocated(n, pod.init)
    && (Requesting(pod.running, n.prefix) + Requesting(pod.init, n.prefix) != {} ==> HasCapacity(n, used, pod))
  }

  ghost predicate HasCapacity(n: NodeInfo, used: Usage, pod: Pod) {
    forall k :: IsPlain(n, k) ==> CapacityAt(n, used, pod, k)
  }

  ghost predicate CapacityAt(n: NodeInfo, used: Usage, pod: Pod, k: Path) {
    Lookup(used, k) + FitCharge(pod, n.prefix, k) <= Lookup(n.allocatable, k)
  }

  ghost predicate AllPlaced(conts: map<string, Container>, prefix: Path) {
    forall c :: c in conts ==> !Unplaced(conts[c], prefix)
  }

  /** With one more container a pod is charged for no less. */
  lemma ChargeGrows(pod: Pod, prefix: Path, init: bool, c: string, cont: Container, k: Path)
    requires if init then c !in pod.init else c !in pod.running && pod.init == map[]
    requires forall m :: m in cont.requests ==> cont.requests[m] >= 0
    ensures var conts := (if init then pod.init else pod.running)[c := cont];
      FitCharge(pod, prefix, k) <= FitCharge(With(pod, init, conts), prefix, k)
  {
    if init {
      InitCharge(pod, prefix, c, cont, k);
    } else {
      assert pod == Pod(pod.running, map[]);
      RunningCharge(pod.running, prefix, c, cont, k);
      DrawNonNegative(cont, prefix, k);
    }
  }

  lemma FitsGrows(n: NodeInfo, used: Usage, pod: Pod, init: bool, c: string, cont: Container)
    requires if init then c !in pod.init else c !in pod.running && pod.init == map[]
    requires forall m :: m in cont.requests ==> cont.requests[m] >= 0
    ensures var conts := (if init then pod.init else pod.running)[c := cont];
      FitsAltogether(n, used, With(pod, init, conts)) ==> FitsAltogether(n, used, pod)
  {
    var conts := (if init then pod.init else pod.running)[c := cont];
    var pod' := With(pod, init, conts);
    if FitsAltogether(n, used, pod') {
      RequestingStep(if init then pod.init else pod.running, n.prefix, c, cont);
      forall d | d in pod.running ensures Located(n, pod.running[d]) {
        assert d in pod'.running && pod'.running[d] == pod.running[d];
      }
      forall d | d in pod.init ensures Located(n, pod.init[d]) {
        assert d in pod'.init && pod'.init[d] == pod.init[d];
      }
      forall k | IsPlain(n, k) ensures CapacityAt(n, used, pod', k) ==> CapacityAt(n, used, pod, k) {
        ChargeGrows(pod, n.prefix, init, c, cont, k);
      }
    }
  }

  /** A container with requests fits into the books of a fitted pod exactly if the pod with it is within capacity. */
  lemma DrawFitsIff(n: NodeInfo, used: Usage, pod: Pod, init: bool, c: string, cont: Container, b: Books, k: Path)
    requires if init then c !in pod.init else c !in pod.running && pod.init == map[]
    requires IsPlain(n, k) && FittedAt(n, used, pod, b, k) && HasRequests(cont, n.prefix)
    ensures var conts := (if init then pod.init else pod.running)[c := cont];
      DrawFits(n, cont, init, b, k) <==> CapacityAt(n, used, With(pod, init, conts), k)
  {
    if init {
      InitCharge(pod, n.prefix, c, cont, k);
    } else {
      assert pod == Pod(pod.running, map[]);
      RunningCharge(pod.running, n.prefix, c, cont, k);
    }
  }

  lemma NothingToLocate(n: NodeInfo, cont: Container)
    requires !HasRequests(cont, n.prefix)
    ensures Located(n, cont)
  {
    assert forall m :: m in cont.requests && n.prefix <= m <==> m in Grouped(n.prefix, cont.requests);
  }

  lemma LocatedWith(n: NodeInfo, pod: Pod, init: bool, c: string, cont: Container)
    requires AllLocated(n, pod.running) && AllLocated(n, pod.init)
    ensures var pod' := With(pod, init, (if init then pod.init else pod.running)[c := cont]);
      AllLocated(n, pod'.running) && AllLocated(n, pod'.init) <==> Located(n, cont)
  {
    var conts := if init then pod.init else pod.running;
    assert conts[c := cont][c] == cont;
  }

  /** One more container keeps the verdict exact, if the pod fits so far. */
  lemma FitsNext(n: NodeInfo, used: Usage, pod: Pod, init: bool, c: string, cont: Container, b: Books, fits: bool)
    requires if init then c !in pod.init else c !in pod.running && pod.init == map[]
    requires FitsAltogether(n, used, pod) && Fitted(n, used, pod, b)
    requires fits <==> !HasRequests(cont, n.prefix) || FitsWhereItIs(n, cont, init, b)
    ensures fits <==> FitsAltogether(n, used, With(pod, init, (if init then pod.init else pod.running)[c := cont]))
  {
    var conts := if init then pod.init else pod.running;
    var pod' := With(pod, init, conts[c := cont]);
    RequestingStep(conts, n.prefix, c, cont);
    LocatedWith(n, pod, init, c, cont);
    if HasRequests(cont, n.prefix) {
      forall k | IsPlain(n, k) ensures DrawFits(n, cont, init, b, k) <==> CapacityAt(n, used, pod', k) {
        DrawFitsIff(n, used, pod, init, c, cont, b, k);
      }
    } else {
      NothingToLocate(n, cont);
      forall k | IsPlain(n, k) ensures CapacityAt(n, used, pod', k) <==> CapacityAt(n, used, pod, k) {
        SameCharge(pod, n.prefix, init, c, cont, k);
      }
    }
  }

  lemma SameCharge(pod: Pod, prefix: Path, init: bool, c: string, cont: Container, k: Path)
    requires if init then c !in pod.init else c !in pod.running && pod.init == map[]
    requires !HasRequests(cont, prefix)
    ensures var conts := (if init then pod.init else pod.running)[c := cont];
      FitCharge(With(pod, init, conts), prefix, k) == FitCharge(pod, prefix, k)
  {
    if init {
      InitCharge(pod, prefix, c, cont, k);
    } else {
      assert pod == Pod(pod.running, map[]);
      RunningCharge(pod.running, prefix, c, cont, k);
      NoRequestsNoDraw(cont, prefix, k);
    }
  }

  // ---- A node that is spacious for a pod without locations ----

  ghost function LoadOf(conts: map<string, Container>, prefix: Path): string -> int {
    c => if c in conts then Load(conts[c], prefix) else 0
  }

  /** A container without locations for which there is a placement with room for `load` wherever it draws. */
  ghost predicate SpaciousFor(n: NodeInfo, used: Usage, cont: Container, load: int) {
    Unplaced(cont, n.prefix) && PlainRequests(cont, n.prefix) && exists from :: AmplyPlaced(n, cont, from, used, load)
  }

  /** Every container that requests something could be placed, on its own, on resources that each have room for all that
      the containers request together. */
  ghost predicate Spacious(n: NodeInfo, used: Usage, conts: map<string, Container>) {
    && PlainUsage(n, used)
    && forall c :: c in conts && HasRequests(conts[c], n.prefix) ==>
         SpaciousFor(n, used, conts[c], Sum(conts.Keys, LoadOf(conts, n.prefix)))
  }

  /** No resource is used by more than the containers `done` request together. */
  ghost predicate LoadLeft(n: NodeInfo, used: Usage, conts: map<string, Container>, done: set<string>, node: Usage) {
    && PlainUsage(n, node)
    && forall k :: IsPlain(n, k) ==> Lookup(node, k) <= Lookup(used, k) + Sum(done, LoadOf(conts, n.prefix))
  }

  lemma LoadNonNegative(n: NodeInfo, used: Usage, conts: map<string, Container>, c: string)
    requires Spacious(n, used, conts) && c in conts
    ensures 0 <= Load(conts[c], n.prefix) && (!HasRequests(conts[c], n.prefix) ==> Load(conts[c], n.prefix) == 0)
  {
    var cont := conts[c];
    if HasRequests(cont, n.prefix) {
      assert SpaciousFor(n, used, cont, Sum(conts.Keys, LoadOf(conts, n.prefix)));
      SumNonNegative(Grouped(n.prefix, cont.requests).Keys, Requests(cont));
    } else {
      assert Grouped(n.prefix, cont.requests).Keys == {};
    }
  }

  lemma LoadsWithinAll(n: NodeInfo, used: Usage, conts: map<string, Container>, done: set<string>, c: string)
    requires Spacious(n, used, conts) && done <= conts.Keys && c in conts && c !in done
    ensures Sum(done, LoadOf(conts, n.prefix)) + Load(conts[c], n.prefix) <= Sum(conts.Keys, LoadOf(conts, n.prefix))
  {
    var f, rest := LoadOf(conts, n.prefix), conts.Keys - (done + {c});
    assert done + {c} + rest == conts.Keys;
    forall d | d in rest ensures f(d) >= 0 {
      LoadNonNegative(n, used, conts, d);
    }
    SumNonNegative(rest, f);
    SumUnion(done + {c}, rest, f);
    SumAdd(done, f, c);
  }

  lemma SpaciousHasRoom(n: NodeInfo, used: Usage, conts: map<string, Container>, done: set<string>, c: string,
                        node: Usage)
    requires Spacious(n, used, conts) && done <= conts.Keys && c in conts && c !in done
    requires LoadLeft(n, used, conts, done, node) && HasRequests(conts[c], n.prefix)
    ensures Unplaced(conts[c], n.prefix) && AmpleRoom(n, conts[c], node)
  {
    var cont, all := conts[c], Sum(conts.Keys, LoadOf(conts, n.prefix));
    assert SpaciousFor(n, used, cont, all);
    var from :| AmplyPlaced(n, cont, from, used, all);
    LoadsWithinAll(n, used, conts, done, c);
    forall m | m in cont.requests && n.prefix <= m && m in from
      ensures from[m] in n.allocatable && Lookup(node, from[m]) + Load(cont, n.prefix) <= n.allocatable[from[m]]
    {
      assert m in Grouped(n.prefix, cont.requests).Keys;
      assert IsPlain(n, from[m]);
    }
    assert AmplyPlaced(n, cont, from, node, Load(cont, n.prefix));
  }

  lemma DrawWithinLoad(cont: Container, chosen: Container, prefix: Path, k: Path)
    requires chosen == cont.(allocateFrom := chosen.allocateFrom) && PlainRequests(cont, prefix)
    ensures 0 <= chosen.Draw(prefix, k) <= Load(cont, prefix)
  {
    var req := Grouped(prefix, cont.requests);
    DrawMatches(chosen, prefix, k);
    SumNonNegative(req.Keys, Share(req, chosen.From(), k));
    SumMonotone(req.Keys, Share(req, chosen.From(), k), Requests(cont));
  }

  lemma LoadLeftStep(n: NodeInfo, used: Usage, conts: map<string, Container>, done: set<string>, c: string,
                     chosen: Container, b: Books, b': Books)
    requires Spacious(n, used, conts) && done <= conts.Keys && c in conts && c !in done
    requires LoadLeft(n, used, conts, done, b.node)
    requires chosen == conts[c].(allocateFrom := chosen.allocateFrom) && ContainerCharged(n, chosen, false, b, b')
    ensures LoadLeft(n, used, conts, done + {c}, b'.node)
  {
    var f := LoadOf(conts, n.prefix);
    SumAdd(done, f, c);
    LoadNonNegative(n, used, conts, c);
    forall k | IsPlain(n, k)
      ensures 0 <= Lookup(b'.node, k) <= n.allocatable[k] && Lookup(b'.node, k) <= Lookup(used, k) + Sum(done + {c}, f)
    {
      assert ChargedAt(n, chosen, false, b, b', k);
      if HasRequests(chosen, n.prefix) {
        assert SpaciousFor(n, used, conts[c], Sum(conts.Keys, f));
        DrawWithinLoad(conts[c], chosen, n.prefix, k);
      }
    }
  }

  // ---- The passes over the containers ----

  /** Hypotheses under which the verdict on containers that come with locations is exact. */
  ghost predicate PlacedPass(n: NodeInfo, used: Usage, conts: map<string, Container>, fitted: Pod, start: Books) {
    && PlainNode(n) && AllPlaced(conts, n.prefix) && NonNegative(conts)
    && Fitted(n, used, fitted, start) && FitsAltogether(n, used, fitted)
  }

  /** A pass so far: `chosen` have had their turn after `fitted`, from books `start` to books `b`. */
  ghost predicate Passing(n: NodeInfo, used: Usage, conts: map<string, Container>, init: bool, fitted: Pod,
                          start: Books, chosen: map<string, Container>, b: Books, found: bool) {
    && (found ==> Completes(n.prefix, conts, chosen))
    && (found && Fitted(n, used, fitted, start) ==> Fitted(n, used, With(fitted, init, chosen), b))
  }

  /** ... and what can be said of the verdict. */
  ghost predicate Deciding(n: NodeInfo, used: Usage, conts: map<string, Container>, init: bool, fitted: Pod,
                           start: Books, chosen: map<string, Container>, b: Books, found: bool) {
    && (forall c :: c in chosen && c in conts && !Unplaced(conts[c], n.prefix) ==> chosen[c] == conts[c])
    && (PlacedPass(n, used, conts, fitted, start) ==>
          (found <==> FitsAltogether(n, used, With(fitted, init, chosen))))
    && (Requesting(conts, n.prefix) == {} ==> found)
    && (!init && start.node == used && Spacious(n, used, conts) ==>
          found && LoadLeft(n, used, conts, chosen.Keys, b.node))
  }

  lemma PassingStarts(n: NodeInfo, used: Usage, conts: map<string, Container>, init: bool, fitted: Pod, start: Books)
    requires fitted.init == map[] && (!init ==> fitted.running == map[])
    ensures Passing(n, used, conts, init, fitted, start, map[], start, true)
    ensures Deciding(n, used, conts, init, fitted, start, map[], start, true)
  {
    assert With(fitted, init, map[]) == fitted;
  }

  lemma PassingStep(n: NodeInfo, used: Usage, conts: map<string, Container>, init: bool, fitted: Pod, start: Books,
                    chosen: map<string, Container>, b: Books, found: bool, c: string, cont: Container, b': Books,
                    fits: bool)
    requires fitted.init == map[] && (!init ==> fitted.running == map[]) && c in conts && c !in chosen
    requires Passing(n, used, conts, init, fitted, start, chosen, b, found)
    requires Judged(n, conts[c], init, b, b', fits, cont)
    ensures Passing(n, used, conts, init, fitted, start, chosen[c := cont], b', found && fits)
  {
    if found && fits && Fitted(n, used, fitted, start) {
      FittedStep(n, used, With(fitted, init, chosen), init, c, cont, b, b');
    }
  }

  lemma SpaciousStep(n: NodeInfo, used: Usage, conts: map<string, Container>, done: set<string>, b: Books, c: string,
                     cont: Container, b': Books, fits: bool)
    requires Spacious(n, used, conts) && done <= conts.Keys && c in conts && c !in done
    requires LoadLeft(n, used, conts, done, b.node) && Judged(n, conts[c], false, b, b', fits, cont)
    ensures fits && LoadLeft(n, used, conts, done + {c}, b'.node)
  {
    if HasRequests(conts[c], n.prefix) {
      SpaciousHasRoom(n, used, conts, done, c, b.node);
    }
    LoadLeftStep(n, used, conts, done, c, cont, b, b');
  }

  lemma VerdictStep(n: NodeInfo, used: Usage, pod: Pod, init: bool, c: string, cont: Container, b: Books, b': Books,
                    found: bool, fits: bool)
    requires if init then c !in pod.init else c !in pod.running && pod.init == map[]
    requires PlainNode(n) && !Unplaced(cont, n.prefix) && forall m :: m in cont.requests ==> cont.requests[m] >= 0
    requires found <==> FitsAltogether(n, used, pod)
    requires found ==> Fitted(n, used, pod, b)
    requires Judged(n, cont, init, b, b', fits, cont)
    ensures found && fits <==>
            FitsAltogether(n, used, With(pod, init, (if init then pod.init else pod.running)[c := cont]))
  {
    if found {
      FitsNext(n, used, pod, init, c, cont, b, fits);
    } else {
      FitsGrows(n, used, pod, init, c, cont);
    }
  }

  lemma DecidingStep(n: NodeInfo, used: Usage, conts: map<string, Container>, init: bool, fitted: Pod, start: Books,
                     chosen: map<string, Container>, b: Books, found: bool, c: string, cont: Container, b': Books,
                     fits: bool)
    requires fitted.init == map[] && (!init ==> fitted.running == map[]) && c in conts && c !in chosen
    requires chosen.Keys <= conts.Keys && Passing(n, used, conts, init, fitted, start, chosen, b, found)
    requires Deciding(n, used, conts, init, fitted, start, chosen, b, found)
    requires Judged(n, conts[c], init, b, b', fits, cont)
    ensures Deciding(n, used, conts, init, fitted, start, chosen[c := cont], b', found && fits)
  {
    var pod := With(fitted, init, chosen);
    if PlacedPass(n, used, conts, fitted, start) {
      assert cont == conts[c];
      VerdictStep(n, used, pod, init, c, cont, b, b', found, fits);
      assert With(pod, init, chosen[c := cont]) == With(fitted, init, chosen[c := cont]);
    }
    if !init && start.node == used && Spacious(n, used, conts) {
      SpaciousStep(n, used, conts, chosen.Keys, b, c, cont, b', fits);
      assert chosen[c := cont].Keys == chosen.Keys + {c};
    }
    assert Requesting(conts, n.prefix) == {} ==> c !in Requesting(conts, n.prefix);
  }

  /** The score of a pass: that of the container fitted last, which takes all before it into account. */
  ghost predicate IsLastScore(n: NodeInfo, conts: map<string, Container>, init: bool, last: Option<string>, b: Books,
                              score: real)
    requires |n.prefix| >= 2
  {
    match last
    case None => score == 0.0
    case Some(c) => c in conts && IsScore(n, conts[c], init, true, b, score)
  }

  /** One pass of PodFitsGroupConstraints, over the running or over the init containers. */
  method ContainersFit(n: NodeInfo, pod: Pod, init: bool, podTable: UsageTable, nodeTable: UsageTable,
                       usedGroups: UsedGroups, ghost fitted: Pod)
    returns (found: bool, chosen: map<string, Container>, podTable': UsageTable, nodeTable': UsageTable, score: real,
             ghost last: Option<string>)
    requires |n.prefix| >= 2 && fitted.init == map[] && (!init ==> fitted.running == map[]) && podTable != nodeTable
    modifies usedGroups, podTable, nodeTable
    ensures chosen.Keys == (if init then pod.init else pod.running).Keys &&
            SameOrNew(podTable, nodeTable, podTable', nodeTable')
    ensures Passing(n, n.used, if init then pod.init else pod.running, init, fitted,
                    old(Books(podTable.m, nodeTable.m)), chosen, Books(podTable'.m, nodeTable'.m), found)
    ensures Deciding(n, n.used, if init then pod.init else pod.running, init, fitted,
                     old(Books(podTable.m, nodeTable.m)), chosen, Books(podTable'.m, nodeTable'.m), found)
    ensures found ==> (last.None? <==> chosen == map[])
    ensures found ==> IsLastScore(n, if init then pod.init else pod.running, init, last,
                                  Books(podTable'.m, nodeTable'.m), score)
  {
    var conts := if init then pod.init else pod.running;
    found, chosen, podTable', nodeTable', score, last := true, map[], podTable, nodeTable, 0.0, None;
    ghost var start, b := Books(podTable.m, nodeTable.m), Books(podTable.m, nodeTable.m);
    PassingStarts(n, n.used, conts, init, fitted, start);
    var todo := conts.Keys;
    while todo != {}
      invariant todo <= conts.Keys && chosen.Keys == conts.Keys - todo
      invariant SameOrNew(podTable, nodeTable, podTable', nodeTable') && b == Books(podTable'.m, nodeTable'.m)
      invariant Passing(n, n.used, conts, init, fitted, start, chosen, b, found)
      invariant Deciding(n, n.used, conts, init, fitted, start, chosen, b, found)
      invariant found ==> (last.None? <==> chosen == map[]) && IsLastScore(n, conts, init, last, b, score)
    {
      var c :| c in todo;
      todo := todo - {c};
      var fits, cont, score';
      fits, cont, podTable', nodeTable', score' :=
          ContainerFits(n, conts[c], init, podTable', nodeTable', usedGroups, true);
      ghost var b' := Books(podTable'.m, nodeTable'.m);
      PassingStep(n, n.used, conts, init, fitted, start, chosen, b, found, c, cont, b', fits);
      DecidingStep(n, n.used, conts, init, fitted, start, chosen, b, found, c, cont, b', fits);
      if fits {
        score, last := score', Some(c);
      }
      found, chosen, b := found && fits, chosen[c := cont], b';
    }
  }

  lemma NoPodFits(n: NodeInfo, used: Usage)
    ensures FitsAltogether(n, used, Pod(map[], map[]))
  {
    assert Requesting(map[], n.prefix) == {};
  }

  /** A pod fits only if it does without its init containers. */
  lemma FitsWithoutInit(n: NodeInfo, used: Usage, pod: Pod)
    requires FitsAltogether(n, used, pod)
    ensures FitsAltogether(n, used, Pod(pod.running, map[]))
  {
    assert Requesting(map[], n.prefix) == {};
    forall k | IsPlain(n, k)
      ensures FitCharge(Pod(pod.running, map[]), n.prefix, k) <= FitCharge(pod, n.prefix, k)
    {
      GreatestIs(Requesting(pod.init, n.prefix), DrawOf(pod.init, n.prefix, k), pod.RunningDraw(n.prefix, k));
    }
  }

  /** Two passes decide what the whole pod decides. */
  lemma BothPasses(n: NodeInfo, used: Usage, pod: Pod, running: map<string, Container>, init: map<string, Container>,
                   b1: Books, b2: Books, found1: bool, found2: bool)
    requires running.Keys == pod.running.Keys && init.Keys == pod.init.Keys
    requires var none, b0 := Pod(map[], map[]), Books(map[], used);
      && Passing(n, used, pod.running, false, none, b0, running, b1, found1)
      && Deciding(n, used, pod.running, false, none, b0, running, b1, found1)
    requires Deciding(n, used, pod.init, true, Pod(running, map[]), b1, init, b2, found2)
    requires PlainNode(n) && AllPlaced(pod.running, n.prefix) && AllPlaced(pod.init, n.prefix) && Asks(pod)
    ensures Pod(running, init) == pod && (found1 && found2 <==> FitsAltogether(n, used, pod))
  {
    NothingFitted(n, used);
    NoPodFits(n, used);
    assert running == pod.running && init == pod.init;
    assert PlacedPass(n, used, pod.running, Pod(map[], map[]), Books(map[], used));
    assert With(Pod(map[], map[]), false, running) == Pod(running, map[]);
    if found1 {
      assert PlacedPass(n, used, pod.init, Pod(running, map[]), b1);
      assert With(Pod(running, map[]), true, init) == pod;
    } else if FitsAltogether(n, used, pod) {
      FitsWithoutInit(n, used, pod);
    }
  }

  /** PodFitsGroupConstraints: running containers first, then init containers; an allocating fit writes the chosen
      locations into the pod. The node's own Used is copied first and not written. `b1` are the books between the
      passes and `last` is the running container fitted last. */
  method PodFits(n: NodeInfo, pod: Pod, allocating: bool)
      returns (found: bool, pod': Pod, score: real, chosen: Pod, b: Books, ghost b1: Books, ghost last: Option<string>)
    requires |n.prefix| >= 2
    ensures pod' == if allocating then chosen else pod
    ensures found ==> chosen.running.Keys == pod.running.Keys && Completes(n.prefix, pod.running, chosen.running)
    ensures found ==> chosen.init.Keys == pod.init.Keys && Completes(n.prefix, pod.init, chosen.init)
    ensures found ==> Fitted(n, n.used, chosen, b)
    ensures Requesting(pod.running, n.prefix) + Requesting(pod.init, n.prefix) == {} ==> found
    ensures PlainNode(n) && AllPlaced(pod.running, n.prefix) && AllPlaced(pod.init, n.prefix) && Asks(pod) ==>
              chosen == pod && (found <==> FitsAltogether(n, n.used, pod))
    ensures Spacious(n, n.used, pod.running) && Requesting(pod.init, n.prefix) == {} ==> found
    ensures found ==> (last.None? <==> pod.running == map[]) && Fitted(n, n.used, Pod(chosen.running, map[]), b1)
    ensures found ==> IsLastScore(n, pod.running, false, last, b1, score)
  {
    var usedGroups := new UsedGroups();
    var podTable := new UsageTable(map[]);
    var nodeTable := new UsageTable(n.used);
    NothingFitted(n, n.used);
    var found1, running, podTable1, nodeTable1, score1, last1 :=
        ContainersFit(n, pod, false, podTable, nodeTable, usedGroups, Pod(map[], map[]));
    b1, last := Books(podTable1.m, nodeTable1.m), last1;
    var found2, init, podTable2, nodeTable2, _, _ :=
        ContainersFit(n, pod, true, podTable1, nodeTable1, usedGroups, Pod(running, map[]));
    found, score, b, chosen := found1 && found2, score1, Books(podTable2.m, nodeTable2.m), Pod(running, init);
    pod' := if allocating then Pod(running, init) else pod;
    if PlainNode(n) && AllPlaced(pod.running, n.prefix) && AllPlaced(pod.init, n.prefix) && Asks(pod) {
      BothPasses(n, n.used, pod, running, init, b1, b, found1, found2);
    }
  }

  lemma NothingFitted(n: NodeInfo, used: Usage)
    ensures Fitted(n, used, Pod(map[], map[]), Books(map[], used))
  {
    assert Requesting(map[], n.prefix) == {};
  }

  ghost predicate NonNegative(conts: map<string, Container>) {
    forall c, n :: c in conts && n in conts[c].requests ==> conts[c].requests[n] >= 0
  }

  ghost predicate DrawsOnce(cont: Container, prefix: Path, k: Path) {
    forall n, m :: n in cont.Against(cont.Drawing(prefix), k) && m in cont.Against(cont.Drawing(prefix), k) ==> n == m
  }

  /** A single request is at most what its container draws altogether. */
  lemma AmountWithinDraw(cont: Container, prefix: Path, k: Path, n: Path)
    requires forall m :: m in cont.requests ==> cont.requests[m] >= 0
    requires n in cont.Against(cont.Drawing(prefix), k)
    ensures 0 <= Lookup(cont.requests, n) <= cont.Draw(prefix, k)
    ensures DrawsOnce(cont, prefix, k) ==> cont.Draw(prefix, k) == Lookup(cont.requests, n)
  {
    var f, rest := Share(cont.requests, cont.From(), k), cont.Drawing(prefix) - {n};
    SumRemove(cont.Drawing(prefix), f, n);
    SumMonotone(rest, m => 0, f);
    SumZero(rest);
    if DrawsOnce(cont, prefix, k) {
      forall m | m in rest ensures f(m) == 0 {
        assert m in cont.Against(cont.Drawing(prefix), k) ==> m == n;
      }
      SumCongruence(rest, m => 0, f);
    }
  }

  lemma DrawNonNegative(cont: Container, prefix: Path, k: Path)
    requires forall m :: m in cont.requests ==> cont.requests[m] >= 0
    ensures cont.Draw(prefix, k) >= 0
    ensures cont.Against(cont.Drawing(prefix), k) == {} ==> cont.Draw(prefix, k) == 0
  {
    var f := Share(cont.requests, cont.From(), k);
    SumZero(cont.Drawing(prefix));
    SumMonotone(cont.Drawing(prefix), m => 0, f);
    if cont.Against(cont.Drawing(prefix), k) == {} {
      forall m | m in cont.Drawing(prefix) ensures f(m) == 0 {
        assert m !in cont.Against(cont.Drawing(prefix), k);
      }
      SumCongruence(cont.Drawing(prefix), m => 0, f);
    }
  }

  lemma {:induction false} RunningNonNegative(conts: map<string, Container>, names: set<string>, prefix: Path, k: Path)
    requires NonNegative(conts)
    ensures Sum(names, DrawOf(conts, prefix, k)) >= 0
  {
    if names != {} {
      var c :| c in names;
      SumRemove(names, DrawOf(conts, prefix, k), c);
      RunningNonNegative(conts, names - {c}, prefix, k);
      if c in conts {
        DrawNonNegative(conts[c], prefix, k);
      }
    }
  }

  lemma PeakWithinFit(pod: Pod, prefix: Path, k: Path, c: string)
    requires NonNegative(pod.running) && NonNegative(pod.init) && c in pod.init
    ensures pod.init[c].Peak(prefix, k, pod.RunningDraw(prefix, k)) <= FitCharge(pod, prefix, k)
  {
    var r, cont := pod.RunningDraw(prefix, k), pod.init[c];
    RunningNonNegative(pod.running, pod.running.Keys, prefix, k);
    GreatestIs(Requesting(pod.init, prefix), DrawOf(pod.init, prefix, k), r);
    GreatestIs(cont.Against(cont.Drawing(prefix), k), cont.Amount(), r);
    if cont.Peak(prefix, k, r) != r {
      var n :| n in cont.Against(cont.Drawing(prefix), k) && cont.Amount()(n) == cont.Peak(prefix, k, r);
      AmountWithinDraw(cont, prefix, k, n);
      if HasRequests(cont, prefix) {
        assert c in Requesting(pod.init, prefix);
      } else {
        NoRequestsNoDraw(cont, prefix, k);
      }
    }
  }

  /** The accounting never charges more than the fit did. */
  lemma ChargeWithinFit(pod: Pod, prefix: Path, k: Path)
    requires NonNegative(pod.running) && NonNegative(pod.init)
    ensures pod.Charge(prefix, k) <= FitCharge(pod, prefix, k)
  {
    var r := pod.RunningDraw(prefix, k);
    var f := PeakOf(pod.init, prefix, k, r);
    GreatestIs(pod.init.Keys, f, r);
    GreatestIs(Requesting(pod.init, prefix), DrawOf(pod.init, prefix, k), r);
    forall c | c in pod.init.Keys ensures f(c) <= FitCharge(pod, prefix, k) {
      PeakWithinFit(pod, prefix, k, c);
    }
  }

  lemma DrawWithinPeak(cont: Container, prefix: Path, k: Path, floor: int)
    requires forall m :: m in cont.requests ==> cont.requests[m] >= 0
    requires DrawsOnce(cont, prefix, k) && floor >= 0
    ensures cont.Draw(prefix, k) <= cont.Peak(prefix, k, floor)
  {
    GreatestIs(cont.Against(cont.Drawing(prefix), k), cont.Amount(), floor);
    DrawNonNegative(cont, prefix, k);
    if n :| n in cont.Against(cont.Drawing(prefix), k) {
      AmountWithinDraw(cont, prefix, k, n);
    }
  }

  /** The two are equal when no init container draws twice from the resource. */
  lemma ChargeEqualsFit(pod: Pod, prefix: Path, k: Path)
    requires NonNegative(pod.running) && NonNegative(pod.init)
    requires forall c :: c in pod.init ==> DrawsOnce(pod.init[c], prefix, k)
    ensures pod.Charge(prefix, k) == FitCharge(pod, prefix, k)
  {
    ChargeWithinFit(pod, prefix, k);
    var r := pod.RunningDraw(prefix, k);
    RunningNonNegative(pod.running, pod.running.Keys, prefix, k);
    var f, g := DrawOf(pod.init, prefix, k), PeakOf(pod.init, prefix, k, r);
    GreatestIs(Requesting(pod.init, prefix), f, r);
    GreatestIs(pod.init.Keys, g, r);
    forall c | c in Requesting(pod.init, prefix) ensures f(c) <= pod.Charge(prefix, k) {
      DrawWithinPeak(pod.init[c], prefix, k, r);
      assert c in pod.init.Keys && f(c) <= g(c);
    }
  }

  /** A single init request of `d` against `k` reaches what init container `c` draws altogether. */
  ghost predicate Reaches(pod: Pod, prefix: Path, k: Path, c: string, d: string, n: Path)
    requires c in pod.init
  {
    && d in pod.init && n in pod.init[d].Against(pod.init[d].Drawing(prefix), k)
    && pod.init[c].Draw(prefix, k) <= Lookup(pod.init[d].requests, n)
  }

  /** What init container `c` draws is reached by the running containers together or by one request of an init
      container. */
  ghost predicate Reached(pod: Pod, prefix: Path, k: Path, c: string)
    requires c in pod.init
  {
    pod.init[c].Draw(prefix, k) <= pod.RunningDraw(prefix, k) || exists d, n :: Reaches(pod, prefix, k, c, d, n)
  }

  /** The charge is what the running containers draw or one request of an init container. */
  lemma ChargeIs(pod: Pod, prefix: Path, k: Path)
    ensures pod.Charge(prefix, k) == pod.RunningDraw(prefix, k)
      || exists d, n ::
           && d in pod.init && n in pod.init[d].Against(pod.init[d].Drawing(prefix), k)
           && Lookup(pod.init[d].requests, n) == pod.Charge(prefix, k)
  {
    var r := pod.RunningDraw(prefix, k);
    GreatestIs(pod.init.Keys, PeakOf(pod.init, prefix, k, r), r);
    if pod.Charge(prefix, k) != r {
      var d :| d in pod.init.Keys && PeakOf(pod.init, prefix, k, r)(d) == pod.Charge(prefix, k);
      var cont := pod.init[d];
      GreatestIs(cont.Against(cont.Drawing(prefix), k), cont.Amount(), r);
      var n :| n in cont.Against(cont.Drawing(prefix), k) && cont.Amount()(n) == pod.Charge(prefix, k);
      assert Lookup(cont.requests, n) == pod.Charge(prefix, k);
    }
  }

  lemma RequestWithinCharge(pod: Pod, prefix: Path, k: Path, d: string, n: Path)
    requires d in pod.init && n in pod.init[d].Against(pod.init[d].Drawing(prefix), k)
    ensures Lookup(pod.init[d].requests, n) <= pod.Charge(prefix, k)
  {
    var r, cont := pod.RunningDraw(prefix, k), pod.init[d];
    GreatestIs(pod.init.Keys, PeakOf(pod.init, prefix, k, r), r);
    GreatestIs(cont.Against(cont.Drawing(prefix), k), cont.Amount(), r);
    assert PeakOf(pod.init, prefix, k, r)(d) <= pod.Charge(prefix, k);
    assert cont.Amount()(n) <= cont.Peak(prefix, k, r);
  }

  lemma ReachedMeans(pod: Pod, prefix: Path, k: Path, c: string)
    requires c in pod.init
    ensures Reached(pod, prefix, k, c) <==> pod.init[c].Draw(prefix, k) <= pod.Charge(prefix, k)
  {
    RunningWithinCharge(pod, prefix, k);
    if d, n :| Reaches(pod, prefix, k, c, d, n) {
      RequestWithinCharge(pod, prefix, k, d, n);
    }
    ChargeIs(pod, prefix, k);
    if pod.init[c].Draw(prefix, k) <= pod.Charge(prefix, k) && pod.Charge(prefix, k) != pod.RunningDraw(prefix, k) {
      var d, n :| d in pod.init && n in pod.init[d].Against(pod.init[d].Drawing(prefix), k) &&
          Lookup(pod.init[d].requests, n) == pod.Charge(prefix, k);
      assert Reaches(pod, prefix, k, c, d, n);
    }
  }

  lemma RunningWithinCharge(pod: Pod, prefix: Path, k: Path)
    ensures pod.RunningDraw(prefix, k) <= pod.Charge(prefix, k)
  {
    GreatestIs(pod.init.Keys, PeakOf(pod.init, prefix, k, pod.RunningDraw(prefix, k)), pod.RunningDraw(prefix, k));
  }

  lemma FitWithin(pod: Pod, prefix: Path, k: Path, m: int)
    requires pod.RunningDraw(prefix, k) <= m
    ensures FitCharge(pod, prefix, k) <= m <==>
            forall c :: c in Requesting(pod.init, prefix) ==> pod.init[c].Draw(prefix, k) <= m
  {
    var f := DrawOf(pod.init, prefix, k);
    GreatestIs(Requesting(pod.init, prefix), f, pod.RunningDraw(prefix, k));
    assert forall c :: c in Requesting(pod.init, prefix) ==> f(c) == pod.init[c].Draw(prefix, k);
  }

  /** The charges are equal exactly when every init container's draw is reached in one go. */
  lemma ChargeEqualsFitExactly(pod: Pod, prefix: Path, k: Path)
    requires NonNegative(pod.running) && NonNegative(pod.init)
    ensures pod.Charge(prefix, k) == FitCharge(pod, prefix, k)
      <==> forall c :: c in Requesting(pod.init, prefix) ==> Reached(pod, prefix, k, c)
  {
    ChargeWithinFit(pod, prefix, k);
    RunningWithinCharge(pod, prefix, k);
    FitWithin(pod, prefix, k, pod.Charge(prefix, k));
    forall c | c in Requesting(pod.init, prefix)
      ensures Reached(pod, prefix, k, c) <==> pod.init[c].Draw(prefix, k) <= pod.Charge(prefix, k)
    {
      ReachedMeans(pod, prefix, k, c);
    }
  }

  /** Fit then take never overcommits. */
  lemma FitThenTake(n: NodeInfo, used: Usage, pod: Pod, b: Books, used': Usage, k: Path)
    requires Fitted(n, used, pod, b) && Posted(n.scorer, n.prefix, used, used', pod, 1)
    requires NonNegative(pod.running) && NonNegative(pod.init)
    requires Requesting(pod.running, n.prefix) + Requesting(pod.init, n.prefix) != {}
    requires IsPlain(n, k)
    ensures Lookup(used', k) <= Lookup(b.node, k) <= n.allocatable[k]
    ensures (forall c :: c in pod.init ==> DrawsOnce(pod.init[c], n.prefix, k)) ==>
            Lookup(used', k) == Lookup(b.node, k)
  {
    assert FittedAt(n, used, pod, b, k);
    ChargeWithinFit(pod, n.prefix, k);
    if forall c :: c in pod.init ==> DrawsOnce(pod.init[c], n.prefix, k) {
      ChargeEqualsFit(pod, n.prefix, k);
    }
  }

  ghost predicate Asks(pod: Pod) {
    NonNegative(pod.running) && NonNegative(pod.init)
  }

  lemma DrawIsNonNegative(cont: Container, prefix: Path, k: Path)
    requires forall m :: m in cont.requests ==> cont.requests[m] >= 0
    ensures cont.Draw(prefix, k) >= 0
  {
    SumNonNegative(cont.Drawing(prefix), Share(cont.requests, cont.From(), k));
  }

  lemma ChargeIsNonNegative(pod: Pod, prefix: Path, k: Path)
    requires Asks(pod)
    ensures pod.Charge(prefix, k) >= 0
  {
    var f := DrawOf(pod.running, prefix, k);
    forall c | c in pod.running ensures f(c) >= 0 {
      DrawIsNonNegative(pod.running[c], prefix, k);
    }
    SumNonNegative(pod.running.Keys, f);
    RunningWithinCharge(pod, prefix, k);
  }

  lemma {:induction false} NothingDrawn(conts: map<string, Container>, cs: set<string>, prefix: Path, k: Path)
    requires cs <= conts.Keys && Requesting(conts, prefix) == {}
    ensures Sum(cs, DrawOf(conts, prefix, k)) == 0
  {
    if cs != {} {
      var c :| c in cs;
      assert c !in Requesting(conts, prefix);
      NoRequestsNoDraw(conts[c], prefix, k);
      NothingDrawn(conts, cs - {c}, prefix, k);
      SumRemove(cs, DrawOf(conts, prefix, k), c);
    }
  }

  /** A pod that was fitted against what is used leaves a plain resource within capacity when it is taken. */
  lemma FittedTakeStaysWithin(n: NodeInfo, used: Usage, pod: Pod, b: Books, used': Usage, k: Path)
    requires Fitted(n, used, pod, b) && Posted(n.scorer, n.prefix, used, used', pod, 1) && Asks(pod)
    requires IsPlain(n, k) && Lookup(used, k) <= n.allocatable[k]
    ensures Lookup(used', k) <= n.allocatable[k]
  {
    if Requesting(pod.running, n.prefix) + Requesting(pod.init, n.prefix) != {} {
      FitThenTake(n, used, pod, b, used', k);
    } else {
      ChargeWithinFit(pod, n.prefix, k);
      assert Requesting(pod.running, n.prefix) == {} && Requesting(pod.init, n.prefix) == {};
      NothingDrawn(pod.running, pod.running.Keys, n.prefix, k);
    }
  }

  /** Pods come and go; each that comes was fitted against what was used then. `fits[i]` are the books of that fit. */
  ghost predicate IsFittedRun(n: NodeInfo, events: seq<Event>, used: seq<Usage>, fits: seq<Books>) {
    && |used| == |events| + 1 && |fits| == |events|
    && forall i {:trigger events[i]} :: 0 <= i < |events| ==>
         && Asks(events[i].pod) && Posts(n.scorer, n.prefix, used[i], used[i + 1], events[i])
         && (events[i].Take? ==> Fitted(n, used[i], events[i].pod, fits[i]))
  }

  /** No run of fitted pods overcommits a plain resource. */
  lemma {:induction false} RunNeverOvercommits(n: NodeInfo, events: seq<Event>, used: seq<Usage>, fits: seq<Books>,
                                               k: Path, i: nat)
    requires IsFittedRun(n, events, used, fits) && i < |used|
    requires IsPlain(n, k) && Lookup(used[0], k) <= n.allocatable[k]
    ensures Lookup(used[i], k) <= n.allocatable[k]
  {
    if i > 0 {
      RunNeverOvercommits(n, events, used, fits, k, i - 1);
      var e := events[i - 1];
      if e.Take? {
        FittedTakeStaysWithin(n, used[i - 1], e.pod, fits[i - 1], used[i], k);
      } else {
        ChargeIsNonNegative(e.pod, n.prefix, k);
        assert Posts(n.scorer, n.prefix, used[i - 1], used[i], e);
      }
    }
  }

  /** Requests of 2 and 3, both drawn from `k`. */
  ghost function Twice(k: Path, n: Path, m: Path): Container {
    Container(map[n := 2, m := 3], map[], Some(map[n := k, m := k]))
  }

  lemma TwiceDraws(prefix: Path, k: Path, n: Path, m: Path)
    requires prefix <= n && prefix <= m && n != m
    ensures HasRequests(Twice(k, n, m), prefix) && Twice(k, n, m).Draw(prefix, k) == 5 &&
            Twice(k, n, m).Peak(prefix, k, 0) == 3
  {
    var cont := Twice(k, n, m);
    assert n in Grouped(prefix, cont.requests);
    assert cont.Drawing(prefix) == {n, m} == cont.Against({n, m}, k);
    var f := Share(cont.requests, cont.From(), k);
    SumRemove({n, m}, f, n);
    SumRemove({m}, f, m);
    assert {n, m} - {n} == {m} && {m} - {m} == {};
    GreatestIs({n, m}, cont.Amount(), 0);
    assert cont.Amount()(n) == 2 && cont.Amount()(m) == 3;
  }

  /** An init container that draws twice from one resource: the fit sums its requests, the accounting takes
      the greater. */
  lemma DrawingTwiceChargesLess(prefix: Path, k: Path, n: Path, m: Path)
    requires prefix <= n && prefix <= m && n != m
    ensures var pod := Pod(map[], map["init" := Twice(k, n, m)]);
            pod.Charge(prefix, k) == 3 && FitCharge(pod, prefix, k) == 5
  {
    TwiceDraws(prefix, k, n, m);
    var pod := Pod(map[], map["init" := Twice(k, n, m)]);
    assert Requesting(pod.init, prefix) == {} + {"init"} == pod.init.Keys;
    GreatestAdd({}, DrawOf(pod.init, prefix, k), 0, "init");
    GreatestAdd({}, PeakOf(pod.init, prefix, k, 0), 0, "init");
  }
}
