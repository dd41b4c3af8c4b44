/** The incremental snapshot of the cache, against a full copy of it. */
module Snapshots {
  import opened Collections
  import opened NodeInfoList
  import opened CacheState

  datatype Snapshot = Snapshot(infos: map<string, Info>, generation: int)

  /** An entry that has not changed since the snapshot's generation is in the snapshot as it is. */
  ghost predicate Current(s: State, snap: Snapshot) {
    && snap.generation <= s.generation
    && forall n :: n in s.infos && s.infos[n].node.Some? && s.infos[n].generation <= snap.generation ==>
      n in snap.infos && snap.infos[n] == s.infos[n]
  }

  // ---- The cache moves on ----

  /** An entry that changed has a generation that was not used before. */
  ghost predicate Moved(was: map<string, Info>, generation: int, now: map<string, Info>) {
    forall n :: n in now ==> now[n].generation > generation || (n in was && now[n] == was[n])
  }

  ghost predicate Later(s: State, t: State) {
    s.generation <= t.generation && Moved(s.infos, s.generation, t.infos)
  }

  lemma LaterTwice(s: State, t: State, u: State)
    requires Later(s, t) && Later(t, u)
    ensures Later(s, u)
  {
  }

  lemma PodIsLater(s: State, pod: Pod)
    ensures Later(s, WithPod(s, pod)) && Later(s, WithoutPod(s, pod).state)
  {
  }

  lemma ReplaceIsLater(s: State, was: Pod, pod: Pod)
    ensures Later(s, WithPod(WithoutPod(s, was).state, pod))
  {
    var mid := WithoutPod(s, was).state;
    PodIsLater(s, was);
    PodIsLater(mid, pod);
    LaterTwice(s, mid, WithPod(mid, pod));
  }

  lemma NodeIsLater(s: State, node: Node)
    ensures Later(s, WithNode(s, node)) && Later(s, WithoutNode(s, node).state)
  {
  }

  lemma AddIsLater(s: State, pod: Pod)
    ensures Later(s, Add(s, pod).state)
  {
    PodIsLater(s, pod);
    if pod.uid in s.pods {
      ReplaceIsLater(s, s.pods[pod.uid].pod, pod);
    }
  }

  lemma UpdateIsLater(s: State, oldPod: Pod, newPod: Pod)
    ensures Later(s, Update(s, oldPod, newPod).state)
  {
    PodIsLater(s, oldPod);
    ReplaceIsLater(s, oldPod, newPod);
  }

  lemma UntrackIsLater(s: State, uid: string, pod: Pod)
    ensures Later(s, Untrack(s, uid, pod).state)
  {
    PodIsLater(s, pod);
  }

  lemma StepIsLater(s: State, op: Op)
    ensures Later(s, Step(s, op).state)
  {
    match op
    case AssumePod(pod) => PodIsLater(s, pod);
    case ForgetPod(pod) => UntrackIsLater(s, pod.uid, pod);
    case FinishBinding(_, _) =>
    case AddPod(pod) => AddIsLater(s, pod);
    case UpdatePod(oldPod, newPod) => UpdateIsLater(s, oldPod, newPod);
    case RemovePod(pod) =>
      if pod.uid in s.pods { UntrackIsLater(s, pod.uid, s.pods[pod.uid].pod); }
    case SetNode(node) => NodeIsLater(s, node);
    case RemoveNode(node) => NodeIsLater(s, node);
    case ExpirePod(uid, _) =>
      if uid in s.pods { UntrackIsLater(s, uid, s.pods[uid].pod); }
    case TakeGeneration =>
  }

  lemma LaterKeepsCurrent(s: State, t: State, snap: Snapshot)
    requires Current(s, snap) && Later(s, t)
    ensures Current(t, snap)
  {
  }

  // ---- Refreshing the snapshot ----

  /** The entries UpdateNodeInfoSnapshot copies. */
  ghost function Changed(s: State, generation: int): map<string, Info> {
    map n | n in s.infos && s.infos[n].node.Some? && s.infos[n].generation > generation :: s.infos[n]
  }

  ghost function Copied(s: State, snap: Snapshot): map<string, Info> {
    snap.infos + Changed(s, snap.generation)
  }

  ghost function Newest(s: State, generation: int): int {
    if s.order != [] && s.order[0] in s.infos then s.infos[s.order[0]].generation else generation
  }

  ghost function Pruned(m: map<string, Info>, infos: map<string, Info>): map<string, Info> {
    if |m| > |infos| then map n | n in m && n in infos :: m[n] else m
  }

  ghost function Refreshed(s: State, snap: Snapshot): Snapshot {
    Snapshot(Pruned(Copied(s, snap), s.infos), Newest(s, snap.generation))
  }

  lemma CopiedIsFresh(s: State, snap: Snapshot, n: string)
    requires Current(s, snap) && n in s.infos && s.infos[n].node.Some?
    ensures n in Copied(s, snap) && Copied(s, snap)[n] == s.infos[n]
  {
    assert s.infos[n].generation > snap.generation ==> n in Changed(s, snap.generation);
  }

  /** A refreshed snapshot has every known node as the cache has it, although only changed entries were copied. */
  lemma RefreshedIsFresh(s: State, snap: Snapshot, n: string)
    requires Current(s, snap) && n in s.infos && s.infos[n].node.Some?
    ensures n in Refreshed(s, snap).infos && Refreshed(s, snap).infos[n] == s.infos[n]
  {
    CopiedIsFresh(s, snap, n);
  }

  lemma RefreshKeepsCurrent(s: State, snap: Snapshot)
    requires ListInv(s) && Current(s, snap)
    ensures Current(s, Refreshed(s, snap))
  {
    forall n | n in s.infos && s.infos[n].node.Some?
      ensures n in Refreshed(s, snap).infos && Refreshed(s, snap).infos[n] == s.infos[n]
    {
      RefreshedIsFresh(s, snap, n);
    }
  }

  /** Names the snapshot has and the cache no longer has. */
  ghost function Gone(s: State, snap: Snapshot): set<string> {
    snap.infos.Keys - s.infos.Keys
  }

  /** Cached entries without a node that the snapshot never saw. */
  ghost function Unseen(s: State, snap: Snapshot): set<string> {
    set n | n in s.infos && s.infos[n].node.None? && n !in snap.infos
  }

  lemma CopiedKeys(s: State, snap: Snapshot)
    requires Current(s, snap)
    ensures Copied(s, snap).Keys + Unseen(s, snap) == s.infos.Keys + Gone(s, snap)
    ensures Copied(s, snap).Keys !! Unseen(s, snap)
  {
    var m := Copied(s, snap);
    assert m.Keys == snap.infos.Keys + Changed(s, snap.generation).Keys;
    forall n | n in s.infos ensures n in m || n in Unseen(s, snap) {
      if s.infos[n].node.Some? { CopiedIsFresh(s, snap, n); }
    }
  }

  lemma TwoSplits(a: set<string>, b: set<string>, c: set<string>, d: set<string>)
    requires a !! b && c !! d && a + b == c + d
    ensures |a| + |b| == |c| + |d|
  {
    assert |a + b| == |a| + |b| && |c + d| == |c| + |d|;
  }

  /** Removed nodes leave the snapshot exactly when they outnumber the entries it never saw. */
  lemma RefreshedDropsGone(s: State, snap: Snapshot)
    requires Current(s, snap)
    ensures Gone(s, Refreshed(s, snap)) == {} <==> Gone(s, snap) == {} || |Gone(s, snap)| > |Unseen(s, snap)|
  {
    var m := Copied(s, snap);
    CopiedKeys(s, snap);
    TwoSplits(m.Keys, Unseen(s, snap), s.infos.Keys, Gone(s, snap));
    assert m.Keys - s.infos.Keys == Gone(s, snap);
    assert |Gone(s, snap)| > |Unseen(s, snap)| <==> |m| > |s.infos|;
  }

  lemma NoNewNames(s: State, snap: Snapshot)
    requires Current(s, snap) && forall n :: n in s.infos ==> s.infos[n].node.Some?
    ensures Refreshed(s, snap).infos.Keys <= s.infos.Keys
  {
    RefreshedDropsGone(s, snap);
    assert Unseen(s, snap) == {};
    assert Gone(s, snap) == {} || |Gone(s, snap)| > 0;
    assert Gone(s, Refreshed(s, snap)) == {};
  }

  /** With every node known, the incremental snapshot is the full copy. */
  lemma RefreshedIsFullCopy(s: State, snap: Snapshot)
    requires Current(s, snap) && forall n :: n in s.infos ==> s.infos[n].node.Some?
    ensures Refreshed(s, snap).infos == s.infos
  {
    NoNewNames(s, snap);
    forall n | n in s.infos
      ensures n in Refreshed(s, snap).infos && Refreshed(s, snap).infos[n] == s.infos[n]
    {
      RefreshedIsFresh(s, snap, n);
    }
  }

  // ---- The walk along the list ----

  /** Where the walk that has come to `i` stops: at the first entry that has not changed. */
  ghost function Stop(s: State, generation: int, i: nat): (r: nat)
    requires i <= |s.order|
    ensures i <= r <= |s.order|
    ensures r < |s.order| && s.order[r] in s.infos ==> s.infos[s.order[r]].generation <= generation
    decreases |s.order| - i
  {
    if i < |s.order| && s.order[i] in s.infos && s.infos[s.order[i]].generation > generation then
      Stop(s, generation, i + 1)
    else i
  }

  /** What is copied from the first `i` entries. */
  ghost function Walked(s: State, generation: int, i: nat): map<string, Info>
    requires i <= |s.order|
  {
    map n | n in Changed(s, generation) && n in s.order[..i] :: s.infos[n]
  }

  /** What UpdateNodeInfoSnapshot makes of a snapshot, whether or not the list is in order. */
  ghost function WalkRefreshed(s: State, snap: Snapshot): Snapshot {
    Snapshot(Pruned(snap.infos + Walked(s, snap.generation, Stop(s, snap.generation, 0)), s.infos),
             Newest(s, snap.generation))
  }

  /** Nothing that changed is left once the walk meets an entry that did not, because the list is in order. */
  lemma WalkDone(s: State, generation: int, i: nat)
    requires ListInv(s) && i <= |s.order|
    requires i < |s.order| ==> s.infos[s.order[i]].generation <= generation
    ensures Walked(s, generation, i) == Changed(s, generation)
  {
    forall n | n in Changed(s, generation) ensures n in s.order[..i] {
      var j :| 0 <= j < |s.order| && s.order[j] == n;
      assert j < i;
      assert s.order[..i][j] == n;
    }
  }

  lemma WalkIsEnough(s: State, snap: Snapshot)
    requires ListInv(s)
    ensures WalkRefreshed(s, snap) == Refreshed(s, snap)
  {
    WalkDone(s, snap.generation, Stop(s, snap.generation, 0));
  }

  lemma SecondNode(a: Node, b: Node)
    requires a.name != b.name
    ensures var s := WithNode(WithNode(EMPTY, a), b);
            TwoNodes(s, a, b)
  {
    NodeFirst(a);
    MinusAbsent([a.name], b.name);
  }

  lemma PodOnSecond(s: State, a: Node, b: Node, pod: Pod)
    requires a.name != b.name == pod.nodeName && TwoNodes(s, a, b)
    ensures var t := WithPod(s, pod);
            && t.infos == map[a.name := Info(Some(a), [], 2), b.name := Info(Some(b), [pod], 5)]
            && t.order == [b.name, a.name]
  {
    assert [] + [pod] == [pod];
    assert Minus(s.order, b.name) == [a.name];
  }

  /** A failed update of the first node leaves it, unchanged in generation, in front of the second. */
  lemma FailedInFront(s: State, a: Node, b: Node, pod: Pod, a': Node)
    requires a'.name == a.name != b.name && s.order == [b.name, a.name]
    requires s.infos == map[a.name := Info(Some(a), [], 2), b.name := Info(Some(b), [pod], 5)]
    ensures var t := WithFailedNode(s, a');
            && t.infos == map[a.name := Info(Some(a'), [], 2), b.name := Info(Some(b), [pod], 5)]
            && t.order == [a.name, b.name]
  {
    assert s.order[1..] == [a.name];
    assert Minus(s.order, a.name) == [b.name];
  }

  lemma FirstSnapshot(s: State)
    requires ListInv(s) && s.order != [] && s.generation >= 0
    requires forall n :: n in s.infos ==> s.infos[n].node.Some? && s.infos[n].generation > 0
    ensures WalkRefreshed(s, Snapshot(map[], 0)) == Snapshot(s.infos, s.infos[s.order[0]].generation)
  {
    WalkIsEnough(s, Snapshot(map[], 0));
    RefreshedIsFullCopy(s, Snapshot(map[], 0));
  }

  lemma SecondNodeListed(a: Node, b: Node)
    ensures ListInv(WithNode(WithNode(EMPTY, a), b))
  {
    NodeKeepsList(EMPTY, a);
    NodeKeepsList(WithNode(EMPTY, a), b);
  }

  ghost predicate TwoNodes(s: State, a: Node, b: Node) {
    && s.infos == map[a.name := Info(Some(a), [], 2), b.name := Info(Some(b), [], 4)]
    && s.generation == 4 && s.order == [b.name, a.name] && s.pods == map[]
  }

  lemma TwoNodesSnapshot(s: State, a: Node, b: Node)
    requires a.name != b.name && TwoNodes(s, a, b) && ListInv(s)
    ensures WalkRefreshed(s, Snapshot(map[], 0)) == Snapshot(s.infos, 4)
  {
    FirstSnapshot(s);
  }

  /** The walk stops at the first node, whose generation the snapshot has. */
  lemma PodHidden(s: State, a: Node, b: Node, pod: Pod, a': Node, infos: map<string, Info>)
    requires a'.name == a.name != b.name && s.order == [a.name, b.name]
    requires s.infos == map[a.name := Info(Some(a'), [], 2), b.name := Info(Some(b), [pod], 5)]
    requires infos == map[a.name := Info(Some(a), [], 2), b.name := Info(Some(b), [], 4)]
    ensures WalkRefreshed(s, Snapshot(infos, 4)).infos == infos
  {
    assert s.infos.Keys == infos.Keys;
    StopsAtOnce(s, Snapshot(infos, 4));
  }

  /** Two nodes are added, a snapshot taken, a pod added on the second, and an update of the first fails: the refreshed
      snapshot does not have the pod. */
  lemma FailedNodeHidesPod(a: Node, b: Node, a': Node, pod: Pod, s1: State, s2: State, s3: State, snap: Snapshot)
    requires a'.name == a.name != b.name == pod.nodeName && pod.uid != ""
    requires s1 == WithNode(WithNode(EMPTY, a), b) && snap == WalkRefreshed(s1, Snapshot(map[], 0))
    requires s2 == Add(s1, pod).state && s3 == WithFailedNode(s2, a')
    ensures b.name in s3.infos && s3.infos[b.name] == Info(Some(b), [pod], 5)
    ensures WalkRefreshed(s3, snap).infos == s1.infos && b.name in s1.infos && s1.infos[b.name].pods == []
  {
    SecondNode(a, b);
    SecondNodeListed(a, b);
    TwoNodesSnapshot(s1, a, b);
    PodOnSecond(s1, a, b, pod);
    assert s2.infos == WithPod(s1, pod).infos && s2.order == WithPod(s1, pod).order;
    FailedInFront(s2, a, b, pod, a');
    PodHidden(s3, a, b, pod, a', s1.infos);
  }

  lemma StopsAtOnce(s: State, snap: Snapshot)
    requires s.order != [] && s.order[0] in s.infos && s.infos[s.order[0]].generation <= snap.generation
    requires |snap.infos| <= |s.infos|
    ensures WalkRefreshed(s, snap).infos == snap.infos
  {
    assert Walked(s, snap.generation, 0) == map[];
  }

  // ---- Over a whole run ----

  /** A snapshot taken again after some of the steps; NewNodeInfoSnapshot made it. */
  ghost predicate Followed(states: seq<State>, snaps: seq<Snapshot>) {
    && |snaps| == |states| > 0 && snaps[0] == Snapshot(map[], 0)
    && forall i :: 0 <= i < |snaps| - 1 ==>
       snaps[i + 1] == snaps[i] || snaps[i + 1] == Refreshed(states[i + 1], snaps[i])
  }

  lemma {:induction false} RunKeepsCurrent(states: seq<State>, ops: seq<Op>, snaps: seq<Snapshot>, i: nat)
    requires IsRun(states, ops) && Followed(states, snaps) && i < |states|
    ensures Current(states[i], snaps[i])
  {
    if i > 0 {
      RunKeepsCurrent(states, ops, snaps, i - 1);
      RunKeepsCore(states, ops, i);
      StepIsLater(states[i - 1], ops[i - 1]);
      LaterKeepsCurrent(states[i - 1], states[i], snaps[i - 1]);
      RefreshKeepsCurrent(states[i], snaps[i - 1]);
    }
  }

  /** Whenever it is refreshed, in any run, the snapshot has every known node as the cache has it. */
  lemma RunRefreshIsFresh(states: seq<State>, ops: seq<Op>, snaps: seq<Snapshot>, i: nat, n: string)
    requires IsRun(states, ops) && Followed(states, snaps) && i + 1 < |states|
    requires snaps[i + 1] == Refreshed(states[i + 1], snaps[i])
    requires n in states[i + 1].infos && states[i + 1].infos[n].node.Some?
    ensures n in snaps[i + 1].infos && snaps[i + 1].infos[n] == states[i + 1].infos[n]
  {
    RunKeepsCurrent(states, ops, snaps, i);
    StepIsLater(states[i], ops[i]);
    LaterKeepsCurrent(states[i], states[i + 1], snaps[i]);
    RefreshedIsFresh(states[i + 1], snaps[i], n);
  }

  lemma NodeFirst(a: Node)
    ensures var s := WithNode(EMPTY, a);
            s.infos == map[a.name := Info(Some(a), [], 2)] && s.generation == 2 && s.order == [a.name]
  {
  }

  lemma ThenPod(s: State, a: Node, pod: Pod)
    requires pod.nodeName != a.name && s.infos == map[a.name := Info(Some(a), [], 2)] && s.generation == 2
    ensures WithPod(s, pod).infos == map[a.name := Info(Some(a), [], 2), pod.nodeName := Info(None, [pod], 4)]
  {
    assert [] + [pod] == [pod];
  }

  lemma ThenNoNode(s: State, a: Node, pod: Pod)
    requires pod.nodeName != a.name
    requires s.infos == map[a.name := Info(Some(a), [], 2), pod.nodeName := Info(None, [pod], 4)]
    ensures WithoutNode(s, a).state.infos == map[pod.nodeName := Info(None, [pod], 4)]
  {
  }

  lemma Outdated(s: State, a: Info, n: string, b: Info, m: string)
    requires n != m && s.infos == map[m := b] && b.node.None?
    ensures Refreshed(s, Snapshot(map[n := a], 2)).infos == map[n := a]
  {
    assert Changed(s, 2) == map[];
    assert Copied(s, Snapshot(map[n := a], 2)) == map[n := a];
    assert |map[n := a]| == 1 && |map[m := b]| == 1;
  }

  /**
   * A removed node stays in the snapshot when a pod on an unknown node makes up for it in number:
   * `a` is added, a snapshot taken, a pod added on another node, `a` removed and the snapshot refreshed.
   */
  lemma RemovedNodeStays(a: Node, pod: Pod, s1: State, s2: State, s3: State)
    requires pod.uid != "" && pod.nodeName != a.name
    requires s1 == WithNode(EMPTY, a) && s2 == Add(s1, pod).state && s3 == WithoutNode(s2, a).state
    ensures a.name !in s3.infos && a.name in Refreshed(s3, Refreshed(s1, Snapshot(map[], 0))).infos
  {
    NodeFirst(a);
    ThenPod(s1, a, pod);
    ThenNoNode(s2, a, pod);
    RefreshedIsFullCopy(s1, Snapshot(map[], 0));
    Outdated(s3, Info(Some(a), [], 2), a.name, Info(None, [pod], 4), pod.nodeName);
  }
}
