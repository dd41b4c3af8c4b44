/** NodeInfo of kube-scheduler/pkg/nodeinfo/node_info.go: pod lists and the totals kept beside them. */
module NodeInfos {
  import opened Collections

  const DEFAULT_MILLI_CPU_REQUEST: int := 100
  const DEFAULT_MEMORY_REQUEST: int := 200 * 1024 * 1024

  /** The requests of one container; a missing CPU or memory request is not a request of zero. */
  datatype Requests = Requests(cpu: Option<int>, memory: Option<int>, ephemeralStorage: int, scalars: map<string, int>)

  datatype Pod = Pod(uid: string, priority: int, containers: seq<Requests>, hasAffinity: bool)

  /** Total requests, and total requests with the defaults for missing ones. */
  datatype Resource = Resource(milliCPU: int, memory: int, ephemeralStorage: int, scalars: map<string, int>,
                               non0CPU: int, non0Mem: int)

  const NOTHING: Resource := Resource(0, 0, 0, map[], 0, 0)

  function ValueOr(x: Option<int>, default: int): int {
    if x.Some? then x.value else default
  }

  /** `m` plus `sign` times `n`, name by name. */
  function PlusScalars(m: map<string, int>, n: map<string, int>, sign: int): map<string, int> {
    map k | k in m.Keys + n.Keys :: Lookup(m, k) + sign * Lookup(n, k)
  }

  function Plus(a: Resource, b: Resource, sign: int): Resource {
    Resource(a.milliCPU + sign * b.milliCPU, a.memory + sign * b.memory, a.ephemeralStorage + sign * b.ephemeralStorage,
             PlusScalars(a.scalars, b.scalars, sign), a.non0CPU + sign * b.non0CPU, a.non0Mem + sign * b.non0Mem)
  }

  function OfContainer(c: Requests): Resource {
    Resource(ValueOr(c.cpu, 0), ValueOr(c.memory, 0), c.ephemeralStorage, c.scalars,
             ValueOr(c.cpu, DEFAULT_MILLI_CPU_REQUEST), ValueOr(c.memory, DEFAULT_MEMORY_REQUEST))
  }

  /** One figure of a resource; an absent scalar counts as zero. */
  datatype Figure = MilliCPU | Memory | Ephemeral | Scalar(name: string) | NonZeroCPU | NonZeroMemory

  function Amount(r: Resource, f: Figure): int {
    match f
    case MilliCPU => r.milliCPU
    case Memory => r.memory
    case Ephemeral => r.ephemeralStorage
    case Scalar(name) => Lookup(r.scalars, name)
    case NonZeroCPU => r.non0CPU
    case NonZeroMemory => r.non0Mem
  }

  lemma AmountPlus(a: Resource, b: Resource, sign: int, f: Figure)
    ensures Amount(Plus(a, b, sign), f) == Amount(a, f) + sign * Amount(b, f)
  {
  }

  /** What a container counts for: a missing request for nothing, but for the default in the last two figures. */
  ghost function Asked(c: Requests, f: Figure): int {
    match f
    case MilliCPU => if c.cpu.None? then 0 else c.cpu.value
    case NonZeroCPU => if c.cpu.None? then DEFAULT_MILLI_CPU_REQUEST else c.cpu.value
    case Memory => if c.memory.None? then 0 else c.memory.value
    case NonZeroMemory => if c.memory.None? then DEFAULT_MEMORY_REQUEST else c.memory.value
    case Ephemeral => c.ephemeralStorage
    case Scalar(name) => if name in c.scalars then c.scalars[name] else 0
  }

  /** What the containers of a pod request of `f`, added up. */
  ghost function ContainersAmount(cs: seq<Requests>, f: Figure): int {
    if cs == [] then 0 else ContainersAmount(cs[..|cs| - 1], f) + Asked(cs[|cs| - 1], f)
  }

  ghost function PodAmount(f: Figure): Pod -> int {
    (p: Pod) => ContainersAmount(p.containers, f)
  }

  /** calculateResource. */
  method CalculateResource(pod: Pod) returns (r: Resource)
    ensures forall f :: Amount(r, f) == ContainersAmount(pod.containers, f)
  {
    r := NOTHING;
    for i := 0 to |pod.containers|
      invariant forall f :: Amount(r, f) == ContainersAmount(pod.containers[..i], f)
    {
      var c := OfContainer(pod.containers[i]);
      assert pod.containers[..i + 1][..i] == pod.containers[..i];
      forall f ensures Amount(Plus(r, c, 1), f) == ContainersAmount(pod.containers[..i + 1], f) {
        AmountPlus(r, c, 1, f);
      }
      r := Plus(r, c, 1);
    }
    assert pod.containers[..|pod.containers|] == pod.containers;
  }

  /** The process-wide generation counter. */
  class Generation {
    var last: int
    constructor ()
      ensures last == 0
    { last := 0; }

    method NextGeneration() returns (g: int)
      modifies this
      ensures g == last == old(last) + 1
    {
      last := last + 1;
      g := last;
    }
  }

  /** The totals are what the pods request. */
  ghost predicate Summed(pods: multiset<Pod>, requested: Resource) {
    forall f {:trigger PodAmount(f)} :: Amount(requested, f) == Tally(pods, PodAmount(f))
  }

  /** `affine` holds the pods with affinity constraints. */
  ghost predicate Listed(pods: multiset<Pod>, affine: multiset<Pod>) {
    forall p {:trigger affine[p]} :: affine[p] == if p.hasAffinity then pods[p] else 0
  }

  ghost predicate Aggregated(pods: multiset<Pod>, affine: multiset<Pod>, requested: Resource) {
    Summed(pods, requested) && Listed(pods, affine)
  }

  /** `r` is what `p` requests. */
  ghost predicate RequestsOf(r: Resource, p: Pod) {
    forall f :: Amount(r, f) == ContainersAmount(p.containers, f)
  }

  lemma SummedAdd(pods: multiset<Pod>, requested: Resource, p: Pod, r: Resource)
    requires Summed(pods, requested) && RequestsOf(r, p)
    ensures Summed(pods + multiset{p}, Plus(requested, r, 1))
  {
    forall f ensures Amount(Plus(requested, r, 1), f) == Tally(pods + multiset{p}, PodAmount(f)) {
      AmountPlus(requested, r, 1, f);
      TallyAdd(pods, PodAmount(f), p);
    }
  }

  lemma ListedAdd(pods: multiset<Pod>, affine: multiset<Pod>, p: Pod)
    requires Listed(pods, affine)
    ensures Listed(pods + multiset{p}, if p.hasAffinity then affine + multiset{p} else affine)
  {
  }

  ghost predicate SameRequests(p: Pod, q: Pod) {
    forall f :: ContainersAmount(p.containers, f) == ContainersAmount(q.containers, f)
  }

  /** Subtracting what `p` requests for the loss of `q` keeps the totals exactly when both request the same. */
  lemma SummedRemove(pods: multiset<Pod>, requested: Resource, q: Pod, p: Pod, r: Resource)
    requires Summed(pods, requested) && RequestsOf(r, p) && q in pods
    ensures Summed(pods - multiset{q}, Plus(requested, r, -1)) <==> SameRequests(p, q)
  {
    forall f
      ensures Amount(Plus(requested, r, -1), f) == Tally(pods - multiset{q}, PodAmount(f)) <==>
              ContainersAmount(p.containers, f) == ContainersAmount(q.containers, f)
    {
      AmountPlus(requested, r, -1, f);
      TallyRemove(pods, PodAmount(f), q);
      assert Amount(requested, f) == Tally(pods, PodAmount(f));
    }
    if Summed(pods - multiset{q}, Plus(requested, r, -1)) {
      forall f ensures ContainersAmount(p.containers, f) == ContainersAmount(q.containers, f) {
        assert Amount(Plus(requested, r, -1), f) == Tally(pods - multiset{q}, PodAmount(f));
      }
    }
  }

  ghost function Minus(m: multiset<Pod>, p: Option<Pod>): multiset<Pod> {
    if p.Some? then m - multiset{p.value} else m
  }

  ghost function IfAffine(p: Pod): Option<Pod> {
    if p.hasAffinity then Some(p) else None
  }

  /** Taking `a` off the pods with affinity for the loss of `q` keeps them right exactly when `a` is `q`, or nothing if
      `q` has no affinity constraints. */
  lemma ListedRemove(pods: multiset<Pod>, affine: multiset<Pod>, q: Pod, a: Option<Pod>)
    requires Listed(pods, affine) && q in pods && (a.Some? ==> a.value in affine)
    ensures Listed(pods - multiset{q}, Minus(affine, a)) <==> a == IfAffine(q)
  {
    var now := Minus(affine, a);
    if a != IfAffine(q) {
      var x := if q.hasAffinity then q else a.value;
      assert affine[x] > 0;
      assert now[x] != (if x.hasAffinity then (pods - multiset{q})[x] else 0);
    }
  }

  ghost function FirstOf(s: seq<Pod>, uid: string): Option<Pod> {
    if s == [] then None else if s[0].uid == uid then Some(s[0]) else FirstOf(s[1..], uid)
  }

  lemma {:induction false} FirstOfIs(s: seq<Pod>, uid: string)
    ensures FirstOf(s, uid).None? ==> forall p :: p in s ==> p.uid != uid
    ensures FirstOf(s, uid).Some? ==> FirstOf(s, uid).value in s && FirstOf(s, uid).value.uid == uid
    ensures forall i: nat :: FirstWith(s, uid, i) ==> FirstOf(s, uid) == Some(s[i])
  {
    if s != [] {
      FirstOfIs(s[1..], uid);
      assert s == [s[0]] + s[1..];
      if s[0].uid != uid {
        forall i: nat | FirstWith(s, uid, i) ensures FirstOf(s, uid) == Some(s[i]) {
          assert FirstWith(s[1..], uid, i - 1);
        }
      }
    }
  }

  ghost predicate Holds(pods: seq<Pod>, uid: string) {
    exists p :: p in pods && p.uid == uid
  }

  lemma NoneListed(pods: seq<Pod>, affine: seq<Pod>, uid: string)
    requires Listed(multiset(pods), multiset(affine))
    ensures !Holds(pods, uid) ==> FirstOf(affine, uid).None?
  {
    FirstOfIs(affine, uid);
    forall p | p in affine ensures p in pods {
      assert multiset(affine)[p] > 0 && multiset(pods)[p] > 0;
    }
  }

  /** What RemovePod(p) takes off is accounted for by what it subtracts. `q` is the pod it finds. */
  ghost predicate Accounts(q: Pod, p: Pod, affine: seq<Pod>) {
    SameRequests(p, q) && FirstOf(affine, p.uid) == IfAffine(q)
  }

  lemma RemovalAccounts(pods: multiset<Pod>, affine: seq<Pod>, requested: Resource, q: Pod, p: Pod, r: Resource)
    requires Aggregated(pods, multiset(affine), requested) && q in pods && RequestsOf(r, p)
    ensures Aggregated(pods - multiset{q}, Minus(multiset(affine), FirstOf(affine, p.uid)), Plus(requested, r, -1)) <==>
            Accounts(q, p, affine)
  {
    FirstOfIs(affine, p.uid);
    SummedRemove(pods, requested, q, p, r);
    ListedRemove(pods, multiset(affine), q, FirstOf(affine, p.uid));
  }

  /** It is for a pod that is in the list as it is, and under its UID alone. */
  lemma OwnVersion(pods: multiset<Pod>, affine: seq<Pod>, p: Pod)
    requires Listed(pods, multiset(affine)) && p in pods && forall q :: q in pods && q.uid == p.uid ==> q == p
    ensures Accounts(p, p, affine)
  {
    FirstOfIs(affine, p.uid);
    var a := FirstOf(affine, p.uid);
    if a.Some? {
      assert multiset(affine)[a.value] > 0;
    } else {
      assert p !in affine && multiset(affine)[p] == 0;
    }
  }

  /** The first position of a pod with that UID. */
  ghost predicate FirstWith(s: seq<Pod>, uid: string, i: nat) {
    i < |s| && s[i].uid == uid && forall j :: 0 <= j < i ==> s[j].uid != uid
  }

  method FindPod(s: seq<Pod>, uid: string) returns (i: Option<nat>)
    ensures i.Some? ==> FirstWith(s, uid, i.value)
    ensures i.None? ==> forall j :: 0 <= j < |s| ==> s[j].uid != uid
  {
    for j := 0 to |s|
      invariant forall m :: 0 <= m < j ==> s[m].uid != uid
    {
      if s[j].uid == uid {
        return Some(j);
      }
    }
    i := None;
  }

  class NodeInfo {
    /** The slice of pods: the first `length` cells of an array. */
    var cells: array<Pod>
    var length: nat
    var podsWithAffinity: seq<Pod>
    var requested: Resource
    var generation: int

    constructor (gen: Generation)
      modifies gen
      ensures Valid() && Issued(gen) && fresh(cells) && Pods() == [] && generation == gen.last == old(gen.last) + 1
    {
      cells := new Pod[0];
      length, podsWithAffinity, requested := 0, [], NOTHING;
      new;
      generation := gen.NextGeneration();
    }

    ghost function Pods(): seq<Pod>
      requires length <= cells.Length
      reads this, cells
    {
      cells[..length]
    }

    ghost predicate Valid()
      reads this, cells
    {
      length <= cells.Length && Aggregated(multiset(Pods()), multiset(podsWithAffinity), requested)
    }

    /** The generation was taken from the counter. */
    ghost predicate Issued(gen: Generation)
      reads this, gen
    {
      generation <= gen.last
    }

    /** append(n.pods, pod): in place while the array has room. */
    method Append(pod: Pod)
      requires length <= cells.Length
      modifies this`cells, this`length, cells
      ensures length <= cells.Length && (cells == old(cells) || fresh(cells)) && Pods() == old(Pods()) + [pod]
    {
      if length == cells.Length {
        var grown := new Pod[2 * length + 1](i requires 0 <= i reads this, cells => if i < length <=
                                             cells.Length then cells[i] else pod);
        assert grown[..length] == cells[..length];
        cells := grown;
      } else {
        cells[length] := pod;
      }
      length := length + 1;
    }

    /** The swap-delete of RemovePod, in place. */
    method DeleteAt(i: nat)
      requires length <= cells.Length && i < length
      modifies this`length, cells
      ensures length <= cells.Length && Pods() == SwapRemoved(old(Pods()), i) &&
              UnchangedBut(cells[..], old(cells[..]), i)
    {
      cells[i] := cells[length - 1];
      length := length - 1;
    }

    method Include(pod: Pod, ghost pods: multiset<Pod>)
      requires Summed(pods, requested)
      modifies this`requested
      ensures Summed(pods + multiset{pod}, requested)
    {
      var r := CalculateResource(pod);
      SummedAdd(pods, requested, pod, r);
      requested := Plus(requested, r, 1);
    }

    method ListAffine(pod: Pod, ghost pods: multiset<Pod>)
      requires Listed(pods, multiset(podsWithAffinity))
      modifies this`podsWithAffinity
      ensures Listed(pods + multiset{pod}, multiset(podsWithAffinity))
    {
      ListedAdd(pods, multiset(podsWithAffinity), pod);
      if pod.hasAffinity {
        MultisetAppend(podsWithAffinity, pod);
        podsWithAffinity := podsWithAffinity + [pod];
      }
    }

    method AddPod(pod: Pod, gen: Generation)
      requires Valid() && Issued(gen)
      modifies this, cells, gen
      ensures Valid() && Issued(gen) && (cells == old(cells) || fresh(cells))
      ensures Pods() == old(Pods()) + [pod]
      ensures old(generation) < generation == gen.last == old(gen.last) + 1
    {
      ghost var pods := Pods();
      generation := gen.NextGeneration();
      Append(pod);
      ListAffine(pod, multiset(pods));
      Include(pod, multiset(pods));
      MultisetAppend(pods, pod);
    }

    /** The first loop of RemovePod: swap-delete from podsWithAffinity. */
    method RemoveAffine(uid: string)
      modifies this`podsWithAffinity
      ensures multiset(podsWithAffinity) == Minus(multiset(old(podsWithAffinity)), FirstOf(old(podsWithAffinity), uid))
      ensures FirstOf(old(podsWithAffinity), uid).None? ==> podsWithAffinity == old(podsWithAffinity)
    {
      var at := FindPod(podsWithAffinity, uid);
      FirstOfIs(podsWithAffinity, uid);
      if at.Some? {
        SwapRemovedElements(podsWithAffinity, at.value);
        podsWithAffinity := SwapRemoved(podsWithAffinity, at.value);
      }
    }

    /** The second loop, but for the totals. */
    method Unlist(uid: string) returns (ok: bool, ghost at: nat)
      requires length <= cells.Length
      modifies this`length, cells
      ensures length <= cells.Length && ok == Holds(old(Pods()), uid)
      ensures ok ==> RemovedAt(old(Pods()), Pods(), old(cells[..]), cells[..], uid, at)
      ensures ok ==> multiset(Pods()) == multiset(old(Pods())) - multiset{old(Pods())[at]}
      ensures !ok ==> cells[..] == old(cells[..]) && Pods() == old(Pods())
    {
      ghost var pods := Pods();
      var i := FindPod(cells[..length], uid);
      if i.None? {
        return false, 0;
      }
      assert pods[i.value] in pods;
      DeleteAt(i.value);
      SwapRemovedElements(pods, i.value);
      ok, at := true, i.value;
    }

    /** What the totals lose is what the pod that is handed in requests. */
    method Exclude(pod: Pod) returns (ghost r: Resource)
      modifies this`requested
      ensures RequestsOf(r, pod) && requested == Plus(old(requested), r, -1)
    {
      var res := CalculateResource(pod);
      requested := Plus(requested, res, -1);
      r := res;
    }

    /** RemovePod: swap-delete the first pod with the UID of `pod`, at position `at`. It subtracts what `pod` requests,
        and not what the pod it finds does: the NodeInfo stays valid exactly when that, and the affinity list, agree. */
    method RemovePod(pod: Pod, gen: Generation) returns (ok: bool, ghost at: nat)
      requires Valid() && Issued(gen)
      modifies this, cells, gen
      ensures length <= cells.Length && Issued(gen) && cells == old(cells)
      ensures ok == (pod.uid != "" && Holds(old(Pods()), pod.uid))
      ensures ok ==> RemovedAt(old(Pods()), Pods(), old(cells[..]), cells[..], pod.uid, at)
      ensures ok ==> (Valid() <==> Accounts(old(Pods())[at], pod, old(podsWithAffinity)))
      ensures ok ==> old(generation) < generation == gen.last == old(gen.last) + 1
      ensures !ok ==> Valid() && cells[..] == old(cells[..]) && Pods() == old(Pods())
      ensures !ok ==> generation == old(generation) && gen.last == old(gen.last)
      ensures !ok ==> requested == old(requested) && podsWithAffinity == old(podsWithAffinity)
    {
      if pod.uid == "" {
        return false, 0;
      }
      ok, at := Release(pod);
      if ok {
        generation := gen.NextGeneration();
      }
    }

    /** RemovePod but for the generation. */
    method Release(pod: Pod) returns (ok: bool, ghost at: nat)
      requires Valid()
      modifies this`podsWithAffinity, this`length, this`requested, cells
      ensures length <= cells.Length && ok == Holds(old(Pods()), pod.uid)
      ensures ok ==> RemovedAt(old(Pods()), Pods(), old(cells[..]), cells[..], pod.uid, at)
      ensures ok ==> (Valid() <==> Accounts(old(Pods())[at], pod, old(podsWithAffinity)))
      ensures !ok ==> Valid() && cells[..] == old(cells[..]) && Pods() == old(Pods())
      ensures !ok ==> requested == old(requested) && podsWithAffinity == old(podsWithAffinity)
    {
      ghost var pods, affine, was := Pods(), podsWithAffinity, requested;
      NoneListed(pods, affine, pod.uid);
      RemoveAffine(pod.uid);
      ok, at := Unlist(pod.uid);
      if ok {
        ghost var now, left := Pods(), podsWithAffinity;
        ghost var r := Exclude(pod);
        RemovalAccounts(multiset(pods), affine, was, pods[at], pod, r);
        assert Pods() == now && podsWithAffinity == left;
        assert Valid() == Aggregated(multiset(now), multiset(left), Plus(was, r, -1));
      }
    }

    /** Clone: an equal NodeInfo on an array of its own. */
    method Clone() returns (c: NodeInfo)
      requires Valid()
      ensures fresh(c) && fresh(c.cells) && c.Valid() && c.Pods() == Pods() && c.cells.Length == length
      ensures c.generation == generation && c.requested == requested && c.podsWithAffinity == podsWithAffinity
    {
      c := new NodeInfo.Copy(this);
      assert c.cells[..c.length] == c.cells[..];
    }

    constructor Copy(n: NodeInfo)
      requires n.Valid()
      ensures fresh(cells) && cells.Length == length == n.length && cells[..] == n.Pods()
      ensures generation == n.generation && requested == n.requested && podsWithAffinity == n.podsWithAffinity
    {
      cells := new Pod[n.length](i requires 0 <= i < n.length <= n.cells.Length reads n, n.cells => n.cells[i]);
      length, podsWithAffinity, requested, generation := n.length, n.podsWithAffinity, n.requested, n.generation;
    }
  }

  /** The first pod with that UID, at `at`, left the list by a swap with the last one; no other cell changed. */
  ghost predicate RemovedAt(was: seq<Pod>, now: seq<Pod>, cellsWas: seq<Pod>, cellsNow: seq<Pod>, uid: string,
                            at: nat) {
    FirstWith(was, uid, at) && now == SwapRemoved(was, at) && UnchangedBut(cellsNow, cellsWas, at)
  }

  ghost predicate UnchangedBut(a: seq<Pod>, b: seq<Pod>, i: nat) {
    |a| == |b| && forall j :: 0 <= j < |a| && j != i ==> a[j] == b[j]
  }
}
