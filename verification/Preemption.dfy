/** Victim selection of kube-scheduler/pkg/core/generic_scheduler.go. Whether the pod to be scheduled fits is a
    predicate on the pods that stay on the node. */
module Preemption {
  import opened Collections
  import opened NodeInfos

  type Fit = multiset<Pod> -> bool

  /** Taking pods away never makes the pod stop fitting. */
  ghost predicate Antitone(fits: Fit) {
    forall a: multiset<Pod>, b: multiset<Pod> {:trigger Below(a, b)} :: Below(a, b) && fits(b) ==> fits(a)
  }

  ghost predicate Below(a: multiset<Pod>, b: multiset<Pod>) {
    a <= b
  }

  /** A disruption budget: the pods it covers, and how many more of them may be disrupted. */
  datatype Budget = Budget(covers: Pod -> bool, disruptionsAllowed: int)

  ghost predicate Violates(pod: Pod, pdbs: seq<Budget>) {
    exists i :: 0 <= i < |pdbs| && pdbs[i].covers(pod) && pdbs[i].disruptionsAllowed <= 0
  }

  // ---------- Greedy selection ----------

  /** For each pod of `order`, in order: whether it can stay beside `base` and the pods before it that stay. */
  ghost function Stays(fits: Fit, base: multiset<Pod>, order: seq<Pod>): (flags: seq<bool>)
    ensures |flags| == |order|
  {
    if order == [] then [] else
      var n := |order| - 1;
      var before := Stays(fits, base, order[..n]);
      before + [fits(base + Chosen(order[..n], before) + multiset{order[n]})]
  }

  /** The pods of `order` whose flag is set. */
  ghost function Chosen(order: seq<Pod>, flags: seq<bool>): multiset<Pod>
    requires |flags| == |order|
  {
    if order == [] then multiset{} else
      var n := |order| - 1;
      Chosen(order[..n], flags[..n]) + if flags[n] then multiset{order[n]} else multiset{}
  }

  /** The pods of `order` whose flag is not set, in order. */
  ghost function Rejected(order: seq<Pod>, flags: seq<bool>): seq<Pod>
    requires |flags| == |order|
  {
    if order == [] then [] else
      var n := |order| - 1;
      Rejected(order[..n], flags[..n]) + if flags[n] then [] else [order[n]]
  }

  ghost function Kept(fits: Fit, base: multiset<Pod>, order: seq<Pod>): multiset<Pod> {
    base + Chosen(order, Stays(fits, base, order))
  }

  ghost function Victims(fits: Fit, base: multiset<Pod>, order: seq<Pod>): seq<Pod> {
    Rejected(order, Stays(fits, base, order))
  }

  lemma GreedyStep(fits: Fit, base: multiset<Pod>, order: seq<Pod>, p: Pod)
    ensures var stays := fits(Kept(fits, base, order) + multiset{p});
            && Stays(fits, base, order + [p]) == Stays(fits, base, order) + [stays]
            && Kept(fits, base, order + [p]) == Kept(fits, base, order) + (if stays then multiset{p} else multiset{})
            && Victims(fits, base, order + [p]) == Victims(fits, base, order) + (if stays then [] else [p])
  {
    assert (order + [p])[..|order|] == order;
    var flags := Stays(fits, base, order + [p]);
    assert flags[..|order|] == Stays(fits, base, order);
  }

  /** The pod fits once exactly the victims are gone. */
  lemma {:induction false} FitsWithoutVictims(fits: Fit, base: multiset<Pod>, order: seq<Pod>)
    requires fits(base)
    ensures fits(Kept(fits, base, order))
    ensures Kept(fits, base, order) + multiset(Victims(fits, base, order)) == base + multiset(order)
  {
    if order == [] {
      assert Kept(fits, base, order) == base;
    } else {
      var n := |order| - 1;
      var p := order[n];
      assert order == order[..n] + [p];
      FitsWithoutVictims(fits, base, order[..n]);
      GreedyStep(fits, base, order[..n], p);
      Balance(base, order[..n], Kept(fits, base, order[..n]), Victims(fits, base, order[..n]), p);
    }
  }

  lemma Balance(base: multiset<Pod>, order: seq<Pod>, kept: multiset<Pod>, victims: seq<Pod>, p: Pod)
    requires kept + multiset(victims) == base + multiset(order)
    ensures (kept + multiset{p}) + multiset(victims + []) == base + multiset(order + [p])
    ensures (kept + multiset{}) + multiset(victims + [p]) == base + multiset(order + [p]) && kept + multiset{} == kept
  {
    assert victims + [] == victims && multiset(victims + [p]) == multiset(victims) + multiset{p};
    assert multiset(order + [p]) == multiset(order) + multiset{p};
    assert (kept + multiset{p}) + multiset(victims) == (kept + multiset(victims)) + multiset{p};
    assert kept + (multiset(victims) + multiset{p}) == (kept + multiset(victims)) + multiset{p};
    assert base + (multiset(order) + multiset{p}) == (base + multiset(order)) + multiset{p};
    assert kept + multiset{} == kept;
  }

  lemma {:induction false} KeptGrows(fits: Fit, base: multiset<Pod>, order: seq<Pod>, i: nat)
    requires i <= |order|
    ensures Kept(fits, base, order[..i]) <= Kept(fits, base, order)
    ensures Stays(fits, base, order)[..i] == Stays(fits, base, order[..i])
    decreases |order|
  {
    var n := |order| - 1;
    if i < |order| {
      assert order == order[..n] + [order[n]] && order[..n][..i] == order[..i];
      KeptGrows(fits, base, order[..n], i);
      GreedyStep(fits, base, order[..n], order[n]);
    } else {
      assert order[..i] == order;
    }
  }

  lemma GreedyAt(fits: Fit, base: multiset<Pod>, order: seq<Pod>, i: nat)
    requires i < |order|
    ensures Stays(fits, base, order)[i] == fits(Kept(fits, base, order[..i]) + multiset{order[i]})
    ensures Kept(fits, base, order[..i]) <= Kept(fits, base, order)
    ensures Stays(fits, base, order)[..i] == Stays(fits, base, order[..i])
  {
    assert order[..i + 1] == order[..i] + [order[i]];
    KeptGrows(fits, base, order, i);
    KeptGrows(fits, base, order, i + 1);
    GreedyStep(fits, base, order[..i], order[i]);
    assert Stays(fits, base, order)[i] == Stays(fits, base, order)[..i + 1][i];
  }

  /** No victim can be put back. */
  lemma NoVictimCanStay(fits: Fit, base: multiset<Pod>, order: seq<Pod>, i: nat)
    requires Antitone(fits) && i < |order| && !Stays(fits, base, order)[i]
    ensures !fits(Kept(fits, base, order) + multiset{order[i]})
  {
    GreedyAt(fits, base, order, i);
    StillFits(fits, Kept(fits, base, order[..i]) + multiset{order[i]}, Kept(fits, base, order) + multiset{order[i]});
  }

  lemma StillFits(fits: Fit, a: multiset<Pod>, b: multiset<Pod>)
    requires Antitone(fits) && a <= b
    ensures fits(b) ==> fits(a)
  {
    assert Below(a, b);
  }

  /** `a` keeps more than `b` at the first place where they differ. */
  ghost predicate Beats(a: seq<bool>, b: seq<bool>) {
    |a| == |b| && exists i :: 0 <= i < |a| && a[..i] == b[..i] && a[i] && !b[i]
  }

  lemma {:induction false} ChosenGrows(order: seq<Pod>, flags: seq<bool>, i: nat)
    requires |flags| == |order| && i <= |order|
    ensures Chosen(order[..i], flags[..i]) <= Chosen(order, flags)
    decreases |order|
  {
    if i < |order| {
      var n := |order| - 1;
      assert order[..n][..i] == order[..i] && flags[..n][..i] == flags[..i];
      ChosenGrows(order[..n], flags[..n], i);
    } else {
      assert order[..i] == order && flags[..i] == flags;
    }
  }

  /** No feasible choice of pods to keep beats the greedy one in the order of the pods. */
  lemma NothingBeatsGreedy(fits: Fit, base: multiset<Pod>, order: seq<Pod>, flags: seq<bool>)
    requires Antitone(fits) && |flags| == |order| && fits(base + Chosen(order, flags))
    ensures !Beats(flags, Stays(fits, base, order))
    ensures flags != Stays(fits, base, order) ==> Beats(Stays(fits, base, order), flags)
  {
    var greedy := Stays(fits, base, order);
    forall i | 0 <= i < |order| && flags[..i] == greedy[..i] && flags[i] ensures greedy[i] {
      FeasibleStays(fits, base, order, flags, i);
    }
    if flags != greedy {
      var i := FirstDifference(flags, greedy);
      assert greedy[i] && !flags[i];
    }
  }

  lemma FirstDifference(a: seq<bool>, b: seq<bool>) returns (i: nat)
    requires |a| == |b| && a != b
    ensures i < |a| && a[..i] == b[..i] && a[i] != b[i]
  {
    i := 0;
    while a[i] == b[i]
      invariant i < |a| && a[..i] == b[..i] && a[i..] != b[i..]
      decreases |a| - i
    {
      assert a[i..] == [a[i]] + a[i + 1..] && b[i..] == [b[i]] + b[i + 1..];
      i := i + 1;
    }
  }

  lemma FeasibleStays(fits: Fit, base: multiset<Pod>, order: seq<Pod>, flags: seq<bool>, i: nat)
    requires Antitone(fits) && |flags| == |order| && fits(base + Chosen(order, flags))
    requires i < |order| && flags[..i] == Stays(fits, base, order)[..i] && flags[i]
    ensures Stays(fits, base, order)[i]
  {
    GreedyAt(fits, base, order, i);
    ChosenGrows(order, flags, i + 1);
    ChosenStep(order, flags, i);
    StillFits(fits, Kept(fits, base, order[..i]) + multiset{order[i]}, base + Chosen(order, flags));
  }

  lemma ChosenStep(order: seq<Pod>, flags: seq<bool>, i: nat)
    requires |flags| == |order| && i < |order| && flags[i]
    ensures Chosen(order[..i + 1], flags[..i + 1]) == Chosen(order[..i], flags[..i]) + multiset{order[i]}
  {
    assert order[..i + 1][..i] == order[..i] && flags[..i + 1][..i] == flags[..i];
  }

  // ---------- The loops ----------

  ghost predicate Identified(pods: seq<Pod>) {
    && (forall p :: p in pods ==> p.uid != "")
    && (forall i, j :: 0 <= i < j < |pods| ==> pods[i].uid != pods[j].uid)
  }

  /** The pods of lower priority, in order. */
  ghost function Lower(pods: seq<Pod>, priority: int): seq<Pod> {
    if pods == [] then [] else
      var n := |pods| - 1;
      Lower(pods[..n], priority) + if pods[n].priority < priority then [pods[n]] else []
  }

  lemma LowerAppend(pods: seq<Pod>, p: Pod, priority: int)
    ensures Lower(pods + [p], priority) ==
            if p.priority < priority then Lower(pods, priority) + [p] else Lower(pods, priority)
  {
    assert (pods + [p])[..|pods|] == pods;
    assert Lower(pods, priority) + [] == Lower(pods, priority);
  }

  lemma {:induction false} LowerCount(pods: seq<Pod>, priority: int, p: Pod)
    ensures multiset(Lower(pods, priority))[p] == if p.priority < priority then multiset(pods)[p] else 0
  {
    if pods != [] {
      var rest, q := pods[..|pods| - 1], pods[|pods| - 1];
      assert pods == rest + [q];
      LowerCount(rest, priority, p);
      LowerCountStep(rest, q, priority, p);
    }
  }

  lemma LowerCountStep(pods: seq<Pod>, q: Pod, priority: int, p: Pod)
    requires multiset(Lower(pods, priority))[p] == if p.priority < priority then multiset(pods)[p] else 0
    ensures multiset(Lower(pods + [q], priority))[p] == if p.priority < priority then multiset(pods + [q])[p] else 0
  {
    LowerAppend(pods, q, priority);
    CountAppend(pods, q, p);
    CountAppend(Lower(pods, priority), q, p);
  }

  /** The state of the first loop before cell `i`: the cells from `i` on are as they were, and the pods left are those
      not collected. */
  ghost predicate Collecting(orig: seq<Pod>, priority: int, cells: seq<Pod>, pods: seq<Pod>, i: nat) {
    && i <= |orig| <= |cells| && |pods| <= |orig| && pods == cells[..|pods|]
    && (forall m :: i <= m < |orig| ==> cells[m] == orig[m])
    && multiset(pods) == multiset(orig) - multiset(Lower(orig[..i], priority))
  }

  lemma StillThere(orig: seq<Pod>, priority: int, cells: seq<Pod>, pods: seq<Pod>, i: nat)
    requires Identified(orig) && i < |orig| && Collecting(orig, priority, cells, pods, i)
    ensures orig[i] in pods && forall p :: p in pods ==> p in orig
    ensures forall p :: p in pods && p.uid == orig[i].uid ==> p == orig[i]
    ensures forall at: nat :: FirstWith(pods, orig[i].uid, at) ==> at <= i
  {
    LowerCount(orig[..i], priority, orig[i]);
    assert orig[i] !in orig[..i];
    assert multiset(orig)[orig[i]] > 0;
    assert orig[i] in multiset(pods);
    forall p | p in pods ensures p in orig {
      assert p in multiset(pods);
      assert p in multiset(orig);
    }
  }

  lemma CollectStep(orig: seq<Pod>, priority: int, cells: seq<Pod>, pods: seq<Pod>, cells': seq<Pod>, pods': seq<Pod>,
                    i: nat, at: nat)
    requires Identified(orig) && i < |orig| && Collecting(orig, priority, cells, pods, i) && orig[i].priority < priority
    requires FirstWith(pods, orig[i].uid, at) && pods' == SwapRemoved(pods, at) && UnchangedBut(cells', cells, at)
    requires |pods'| <= |cells'| && pods' == cells'[..|pods'|]
    ensures Collecting(orig, priority, cells', pods', i + 1)
  {
    StillThere(orig, priority, cells, pods, i);
    assert orig[..i + 1][..i] == orig[..i];
    SwapRemovedElements(pods, at);
    assert pods[at] in pods && pods[at] == orig[i];
    var l := Lower(orig[..i], priority);
    assert Lower(orig[..i + 1], priority) == l + [orig[i]];
    assert multiset(l + [orig[i]]) == multiset(l) + multiset{orig[i]};
  }

  lemma SkipStep(orig: seq<Pod>, priority: int, cells: seq<Pod>, pods: seq<Pod>, i: nat)
    requires i < |orig| && Collecting(orig, priority, cells, pods, i) && orig[i].priority >= priority
    ensures Collecting(orig, priority, cells, pods, i + 1)
  {
    assert orig[..i + 1][..i] == orig[..i];
    assert Lower(orig[..i + 1], priority) == Lower(orig[..i], priority) + [] == Lower(orig[..i], priority);
  }

  /** The first loop of selectVictimsOnNode. It ranges over the cells of the slice it had at first, while RemovePod
      overwrites cells and shortens the slice; and yet it meets each pod exactly once. */
  method RemoveLowerPriority(info: NodeInfo, priority: int, gen: Generation) returns (victims: seq<Pod>)
    requires info.Valid() && info.Issued(gen) && Identified(info.Pods())
    modifies info, info.cells, gen
    ensures info.Valid() && info.Issued(gen) && info.cells == old(info.cells)
    ensures victims == Lower(old(info.Pods()), priority)
    ensures multiset(info.Pods()) == multiset(old(info.Pods())) - multiset(victims)
  {
    victims := [];
    var n := info.length;
    ghost var orig := info.Pods();
    for i := 0 to n
      invariant info.Valid() && info.Issued(gen) && info.cells == old(info.cells)
      invariant Collecting(orig, priority, info.cells[..], info.Pods(), i)
      invariant victims == Lower(orig[..i], priority)
    {
      victims := VisitCell(info, i, priority, gen, victims, orig);
    }
    assert orig[..n] == orig;
  }

  /** The body of the loop. */
  method VisitCell(info: NodeInfo, i: nat, priority: int, gen: Generation, victims: seq<Pod>, ghost orig: seq<Pod>)
    returns (victims': seq<Pod>)
    requires info.Valid() && info.Issued(gen) && Identified(orig) && i < |orig|
    requires Collecting(orig, priority, info.cells[..], info.Pods(), i) && victims == Lower(orig[..i], priority)
    modifies info, info.cells, gen
    ensures info.Valid() && info.Issued(gen) && info.cells == old(info.cells)
    ensures Collecting(orig, priority, info.cells[..], info.Pods(), i + 1) && victims' == Lower(orig[..i + 1], priority)
  {
    var p := info.cells[i];
    LowerStep(orig, priority, i);
    if p.priority < priority {
      victims' := victims + [p];
      CollectCell(info, i, priority, gen, orig, p);
    } else {
      victims' := victims;
      SkipStep(orig, priority, info.cells[..], info.Pods(), i);
    }
  }

  lemma LowerStep(orig: seq<Pod>, priority: int, i: nat)
    requires i < |orig|
    ensures Lower(orig[..i + 1], priority) ==
            if orig[i].priority < priority then Lower(orig[..i], priority) + [orig[i]] else Lower(orig[..i], priority)
  {
    assert orig[..i + 1] == orig[..i] + [orig[i]];
    LowerAppend(orig[..i], orig[i], priority);
  }

  method CollectCell(info: NodeInfo, ghost i: nat, ghost priority: int, gen: Generation, ghost orig: seq<Pod>, p: Pod)
    requires info.Valid() && info.Issued(gen) && Identified(orig) && i < |orig| && p == orig[i] && p.priority < priority
    requires Collecting(orig, priority, info.cells[..], info.Pods(), i)
    modifies info, info.cells, gen
    ensures info.Valid() && info.Issued(gen) && info.cells == old(info.cells)
    ensures Collecting(orig, priority, info.cells[..], info.Pods(), i + 1)
  {
    ghost var cells, pods := info.cells[..], info.Pods();
    StillThere(orig, priority, cells, pods, i);
    ghost var at := TakeBack(info, p, gen);
    CollectStep(orig, priority, cells, pods, info.cells[..], info.Pods(), i, at);
  }

  /** Higher priority first. */
  ghost predicate Sorted(pods: seq<Pod>) {
    forall i, j :: 0 <= i < j < |pods| ==> pods[i].priority >= pods[j].priority
  }

  method InsertByPriority(pods: seq<Pod>, p: Pod) returns (r: seq<Pod>)
    requires Sorted(pods)
    ensures Sorted(r) && multiset(r) == multiset(pods) + multiset{p}
  {
    var j := 0;
    while j < |pods| && pods[j].priority >= p.priority
      invariant j <= |pods| && forall m :: 0 <= m < j ==> pods[m].priority >= p.priority
    {
      j := j + 1;
    }
    InsertedSorted(pods, j, p);
    MultisetInsert(pods, j, p);
    r := pods[..j] + [p] + pods[j..];
  }

  lemma InsertedSorted(pods: seq<Pod>, j: nat, p: Pod)
    requires Sorted(pods) && j <= |pods| && (forall m :: 0 <= m < j ==> pods[m].priority >= p.priority)
    requires j < |pods| ==> pods[j].priority < p.priority
    ensures Sorted(pods[..j] + [p] + pods[j..])
  {
    var r := pods[..j] + [p] + pods[j..];
    forall m | 0 <= m < |r| ensures r[m] == if m < j then pods[m] else if m == j then p else pods[m - 1] {
    }
  }

  /** SortableList.Sort with HigherPriorityPod: pods of equal priority may end up in any order. */
  method SortByPriority(pods: seq<Pod>) returns (r: seq<Pod>)
    ensures Sorted(r) && multiset(r) == multiset(pods)
  {
    r := [];
    for i := 0 to |pods|
      invariant Sorted(r) && multiset(r) == multiset(pods[..i])
    {
      assert pods[..i + 1] == pods[..i] + [pods[i]];
      r := InsertByPriority(r, pods[i]);
    }
    assert pods[..|pods|] == pods;
  }

  /** The pods that do, or do not, violate a budget, in the order given. */
  ghost function Where(pods: seq<Pod>, pdbs: seq<Budget>, violating: bool): seq<Pod> {
    if pods == [] then [] else
      var n := |pods| - 1;
      Where(pods[..n], pdbs, violating) + if Violates(pods[n], pdbs) == violating then [pods[n]] else []
  }

  method IsViolating(pod: Pod, pdbs: seq<Budget>) returns (r: bool)
    ensures r == Violates(pod, pdbs)
  {
    for i := 0 to |pdbs|
      invariant forall j :: 0 <= j < i ==> !(pdbs[j].covers(pod) && pdbs[j].disruptionsAllowed <= 0)
    {
      if pdbs[i].covers(pod) && pdbs[i].disruptionsAllowed <= 0 {
        return true;
      }
    }
    r := false;
  }

  /** filterPodsWithPDBViolation. */
  method FilterPodsWithPDBViolation(pods: seq<Pod>, pdbs: seq<Budget>)
      returns (violating: seq<Pod>, nonViolating: seq<Pod>)
    ensures violating == Where(pods, pdbs, true) && nonViolating == Where(pods, pdbs, false)
  {
    violating, nonViolating := [], [];
    for i := 0 to |pods|
      invariant violating == Where(pods[..i], pdbs, true) && nonViolating == Where(pods[..i], pdbs, false)
    {
      assert pods[..i + 1][..i] == pods[..i];
      var violated := IsViolating(pods[i], pdbs);
      if violated {
        violating := violating + [pods[i]];
      } else {
        nonViolating := nonViolating + [pods[i]];
      }
    }
    assert pods[..|pods|] == pods;
  }

  lemma {:induction false} WhereMember(pods: seq<Pod>, pdbs: seq<Budget>, violating: bool, i: nat)
    requires i < |Where(pods, pdbs, violating)|
    ensures Where(pods, pdbs, violating)[i] in pods && Violates(Where(pods, pdbs, violating)[i], pdbs) == violating
  {
    var n := |pods| - 1;
    if i < |Where(pods[..n], pdbs, violating)| {
      WhereMember(pods[..n], pdbs, violating, i);
    }
  }

  /** Filtering keeps the order of priorities. */
  lemma {:induction false} WhereSorted(pods: seq<Pod>, pdbs: seq<Budget>, violating: bool)
    requires Sorted(pods)
    ensures Sorted(Where(pods, pdbs, violating))
  {
    if pods != [] {
      var n := |pods| - 1;
      WhereSorted(pods[..n], pdbs, violating);
      var w := Where(pods[..n], pdbs, violating);
      forall i | 0 <= i < |w| ensures w[i].priority >= pods[n].priority {
        WhereMember(pods[..n], pdbs, violating, i);
      }
    }
  }

  lemma WhereStep(pods: seq<Pod>, pdbs: seq<Budget>, violating: bool, p: Pod)
    ensures Where(pods + [p], pdbs, violating) ==
            if Violates(p, pdbs) == violating then Where(pods, pdbs, violating) + [p] else Where(pods, pdbs, violating)
  {
    assert (pods + [p])[..|pods|] == pods;
    assert Where(pods, pdbs, violating) + [] == Where(pods, pdbs, violating);
  }

  lemma {:induction false} WhereParts(pods: seq<Pod>, pdbs: seq<Budget>)
    ensures multiset(Where(pods, pdbs, true)) + multiset(Where(pods, pdbs, false)) == multiset(pods)
  {
    if pods != [] {
      var rest, p := pods[..|pods| - 1], pods[|pods| - 1];
      assert pods == rest + [p];
      WhereParts(rest, pdbs);
      WhereStep(rest, pdbs, true, p);
      WhereStep(rest, pdbs, false, p);
      MultisetAppend(rest, p);
      MultisetAppend(Where(rest, pdbs, Violates(p, pdbs)), p);
    }
  }

  /** Filtering loses no pod. */
  lemma WhereAll(pods: seq<Pod>, pdbs: seq<Budget>)
    ensures multiset(Where(pods, pdbs, true) + Where(pods, pdbs, false)) == multiset(pods)
  {
    WhereParts(pods, pdbs);
  }

  /** reprievePod: put the pod back, and take it away again if the pod to be scheduled no longer fits. */
  method ReprievePod(info: NodeInfo, p: Pod, fits: Fit, gen: Generation, ghost orig: seq<Pod>) returns (stays: bool)
    requires info.Valid() && info.Issued(gen) && Identified(orig) &&
             multiset(info.Pods()) + multiset{p} <= multiset(orig)
    modifies info, info.cells, gen
    ensures info.Valid() && info.Issued(gen) && (info.cells == old(info.cells) || fresh(info.cells))
    ensures stays == fits(multiset(old(info.Pods())) + multiset{p})
    ensures multiset(info.Pods()) == multiset(old(info.Pods())) + if stays then multiset{p} else multiset{}
  {
    ghost var before := info.Pods();
    info.AddPod(p, gen);
    MultisetAppend(before, p);
    stays := fits(multiset(info.cells[..info.length]));
    if !stays {
      SameUid(orig, info.Pods(), p);
      var _ := TakeBack(info, p, gen);
    }
  }

  /** RemovePod of a pod that is there as it is. */
  method TakeBack(info: NodeInfo, p: Pod, gen: Generation) returns (ghost at: nat)
    requires info.Valid() && info.Issued(gen) && p in info.Pods() && p.uid != ""
    requires forall q :: q in info.Pods() && q.uid == p.uid ==> q == p
    modifies info, info.cells, gen
    ensures info.Valid() && info.Issued(gen) && info.cells == old(info.cells)
    ensures multiset(info.Pods()) == multiset(old(info.Pods())) - multiset{p}
    ensures RemovedAt(old(info.Pods()), info.Pods(), old(info.cells[..]), info.cells[..], p.uid, at)
  {
    ghost var pods := info.Pods();
    OwnVersion(multiset(pods), info.podsWithAffinity, p);
    var ok, i := info.RemovePod(p, gen);
    SwapRemovedElements(pods, i);
    at := i;
  }

  /** Among pods of one node a UID belongs to one pod. */
  lemma SameUid(orig: seq<Pod>, pods: seq<Pod>, p: Pod)
    requires Identified(orig) && multiset(pods) <= multiset(orig) && p in pods
    ensures p.uid != "" && forall q :: q in pods && q.uid == p.uid ==> q == p
  {
    forall q | q in pods ensures q in orig {
      assert q in multiset(pods);
      assert q in multiset(orig);
    }
  }

  /** The reprieve loops: `before` has been gone through already. */
  method Reprieve(info: NodeInfo, list: seq<Pod>, fits: Fit, gen: Generation, ghost orig: seq<Pod>,
                  ghost base: multiset<Pod>, ghost before: seq<Pod>)
    returns (victims: seq<Pod>)
    requires info.Valid() && info.Issued(gen) && Identified(orig) && fits(base) &&
             base + multiset(before + list) <= multiset(orig)
    requires multiset(info.Pods()) == Kept(fits, base, before)
    modifies info, info.cells, gen
    ensures info.Valid() && info.Issued(gen) && (info.cells == old(info.cells) || fresh(info.cells))
    ensures multiset(info.Pods()) == Kept(fits, base, before + list)
    ensures Victims(fits, base, before + list) == Victims(fits, base, before) + victims
  {
    victims := [];
    assert before + [] == before && list[..0] == [];
    for i := 0 to |list|
      invariant info.Valid() && info.Issued(gen) && (info.cells == old(info.cells) || fresh(info.cells))
      invariant multiset(info.Pods()) == Kept(fits, base, before + list[..i])
      invariant Victims(fits, base, before + list[..i]) == Victims(fits, base, before) + victims
    {
      victims := ReprieveNext(info, list[i], fits, gen, victims, orig, base, before, list, i);
    }
    assert list[..|list|] == list;
  }

  /** The body of the reprieve loops. */
  method ReprieveNext(info: NodeInfo, p: Pod, fits: Fit, gen: Generation, victims: seq<Pod>, ghost orig: seq<Pod>,
                      ghost base: multiset<Pod>, ghost before: seq<Pod>, ghost list: seq<Pod>, ghost i: nat)
    returns (victims': seq<Pod>)
    requires info.Valid() && info.Issued(gen) && Identified(orig) && fits(base) &&
             base + multiset(before + list) <= multiset(orig)
    requires i < |list| && p == list[i] && multiset(info.Pods()) == Kept(fits, base, before + list[..i])
    requires Victims(fits, base, before + list[..i]) == Victims(fits, base, before) + victims
    modifies info, info.cells, gen
    ensures info.Valid() && info.Issued(gen) && (info.cells == old(info.cells) || fresh(info.cells))
    ensures multiset(info.Pods()) == Kept(fits, base, before + list[..i + 1])
    ensures Victims(fits, base, before + list[..i + 1]) == Victims(fits, base, before) + victims'
  {
    KeptWithin(fits, base, before, list, i, orig);
    NextInOrder(before, list, i);
    victims' := ReprieveOne(info, p, fits, gen, victims, orig, base, before + list[..i], Victims(fits, base, before));
  }

  lemma NextInOrder(before: seq<Pod>, list: seq<Pod>, i: nat)
    requires i < |list|
    ensures before + list[..i + 1] == before + list[..i] + [list[i]]
  {
  }

  /** `order` has been gone through, and `first` were the victims before the loop. */
  method ReprieveOne(info: NodeInfo, p: Pod, fits: Fit, gen: Generation, victims: seq<Pod>, ghost orig: seq<Pod>,
                      ghost base: multiset<Pod>, ghost order: seq<Pod>, ghost first: seq<Pod>)
    returns (victims': seq<Pod>)
    requires info.Valid() && info.Issued(gen) && Identified(orig)
    requires multiset(info.Pods()) == Kept(fits, base, order) && Kept(fits, base, order) + multiset{p} <= multiset(orig)
    requires Victims(fits, base, order) == first + victims
    modifies info, info.cells, gen
    ensures info.Valid() && info.Issued(gen) && (info.cells == old(info.cells) || fresh(info.cells))
    ensures multiset(info.Pods()) == Kept(fits, base, order + [p])
    ensures Victims(fits, base, order + [p]) == first + victims'
  {
    GreedyStep(fits, base, order, p);
    var stays := ReprievePod(info, p, fits, gen, orig);
    victims' := if stays then victims else victims + [p];
  }

  lemma KeptWithin(fits: Fit, base: multiset<Pod>, before: seq<Pod>, list: seq<Pod>, i: nat, orig: seq<Pod>)
    requires fits(base) && i < |list| && base + multiset(before + list) <= multiset(orig)
    ensures Kept(fits, base, before + list[..i]) + multiset{list[i]} <= multiset(orig)
  {
    var order := before + list[..i];
    FitsWithoutVictims(fits, base, order);
    PrefixWithin(before, list, i);
    OneMore(Kept(fits, base, order), base + multiset(order), multiset{list[i]});
  }

  lemma PrefixWithin(before: seq<Pod>, list: seq<Pod>, i: nat)
    requires i < |list|
    ensures multiset(before + list[..i]) + multiset{list[i]} <= multiset(before + list)
  {
    var order, rest := before + list[..i], list[i + 1..];
    MultisetAppend(order, list[i]);
    assert before + list == order + [list[i]] + rest;
  }

  lemma OneMore(a: multiset<Pod>, b: multiset<Pod>, c: multiset<Pod>)
    requires a <= b
    ensures a + c <= b + c
  {
  }

  /** The pods that stay in any case. */
  ghost function Base(pods: seq<Pod>, priority: int): multiset<Pod> {
    multiset(pods) - multiset(Lower(pods, priority))
  }

  /** The pods of lower priority in the order of reprieve: first those whose budget would be violated, then the others,
      each part sorted by priority. */
  ghost predicate IsOrder(pods: seq<Pod>, priority: int, pdbs: seq<Budget>, order: seq<Pod>, k: nat) {
    && multiset(order) == multiset(Lower(pods, priority)) && k <= |order|
    && Sorted(order[..k]) && Sorted(order[k..])
    && (forall i :: 0 <= i < |order| ==> Violates(order[i], pdbs) == (i < k))
  }

  /** selectVictimsOnNode; it works on a clone of `nodeInfo`. */
  method SelectVictimsOnNode(priority: int, nodeInfo: NodeInfo?, fits: Fit, pdbs: seq<Budget>, gen: Generation)
    returns (victims: seq<Pod>, numViolating: nat, ok: bool, ghost order: seq<Pod>, ghost k: nat)
    requires nodeInfo != null ==> nodeInfo.Valid() && nodeInfo.Issued(gen) && Identified(nodeInfo.Pods())
    modifies gen
    ensures ok == (nodeInfo != null && fits(Base(nodeInfo.Pods(), priority)))
    ensures !ok ==> victims == [] && numViolating == 0
    ensures ok ==> IsOrder(nodeInfo.Pods(), priority, pdbs, order, k)
    ensures ok ==> victims == Victims(fits, Base(nodeInfo.Pods(), priority), order)
    ensures ok ==> numViolating == |Victims(fits, Base(nodeInfo.Pods(), priority), order[..k])|
  {
    victims, numViolating, ok, order, k := [], 0, false, [], 0;
    if nodeInfo != null {
      var info := nodeInfo.Clone();
      victims, numViolating, ok, order, k := VictimsOnCopy(priority, info, fits, pdbs, gen);
    }
  }

  /** selectVictimsOnNode on its copy of the node. */
  method VictimsOnCopy(priority: int, info: NodeInfo, fits: Fit, pdbs: seq<Budget>, gen: Generation)
    returns (victims: seq<Pod>, numViolating: nat, ok: bool, ghost order: seq<Pod>, ghost k: nat)
    requires info.Valid() && info.Issued(gen) && Identified(info.Pods())
    modifies info, info.cells, gen
    ensures ok == fits(Base(old(info.Pods()), priority))
    ensures !ok ==> victims == [] && numViolating == 0
    ensures ok ==> IsOrder(old(info.Pods()), priority, pdbs, order, k)
    ensures ok ==> victims == Victims(fits, Base(old(info.Pods()), priority), order)
    ensures ok ==> numViolating == |Victims(fits, Base(old(info.Pods()), priority), order[..k])|
  {
    ghost var orig, base := info.Pods(), Base(info.Pods(), priority);
    var potential := RemoveLowerPriority(info, priority, gen);
    potential := SortByPriority(potential);
    ok := fits(multiset(info.cells[..info.length]));
    victims, numViolating, order, k := [], 0, [], 0;
    if ok {
      var violating, nonViolating := FilterPodsWithPDBViolation(potential, pdbs);
      order, k := violating + nonViolating, |violating|;
      OrderFound(orig, priority, pdbs, potential);
      BaseAndOrder(orig, priority, order);
      victims, numViolating := ReprieveAll(info, violating, nonViolating, fits, gen, orig, base);
      assert order[..k] == violating;
    }
  }

  method ReprieveAll(info: NodeInfo, violating: seq<Pod>, nonViolating: seq<Pod>, fits: Fit, gen: Generation,
                     ghost orig: seq<Pod>, ghost base: multiset<Pod>)
    returns (victims: seq<Pod>, numViolating: nat)
    requires info.Valid() && info.Issued(gen) && Identified(orig) && fits(base) &&
             base + multiset(violating + nonViolating) == multiset(orig)
    requires multiset(info.Pods()) == base
    modifies info, info.cells, gen
    ensures victims == Victims(fits, base, violating + nonViolating) && numViolating == |Victims(fits, base, violating)|
  {
    PartWithin(base, violating, nonViolating, multiset(orig));
    assert [] + violating == violating;
    assert Kept(fits, base, []) == base + multiset{} == base;
    var first := Reprieve(info, violating, fits, gen, orig, base, []);
    var second := Reprieve(info, nonViolating, fits, gen, orig, base, violating);
    assert Victims(fits, base, violating) == [] + first == first;
    victims, numViolating := first + second, |first|;
  }

  lemma OrderFound(pods: seq<Pod>, priority: int, pdbs: seq<Budget>, potential: seq<Pod>)
    requires Sorted(potential) && multiset(potential) == multiset(Lower(pods, priority))
    ensures var v, w := Where(potential, pdbs, true), Where(potential, pdbs, false);
            IsOrder(pods, priority, pdbs, v + w, |v|)
  {
    var v, w := Where(potential, pdbs, true), Where(potential, pdbs, false);
    WhereSorted(potential, pdbs, true);
    WhereSorted(potential, pdbs, false);
    WhereAll(potential, pdbs);
    assert (v + w)[..|v|] == v && (v + w)[|v|..] == w;
    forall i | 0 <= i < |v + w| ensures Violates((v + w)[i], pdbs) == (i < |v|) {
      if i < |v| {
        WhereMember(potential, pdbs, true, i);
      } else {
        WhereMember(potential, pdbs, false, i - |v|);
      }
    }
  }

  /** What stays in any case and what may go make up the node. */
  lemma BaseAndOrder(pods: seq<Pod>, priority: int, order: seq<Pod>)
    requires multiset(order) == multiset(Lower(pods, priority))
    ensures Base(pods, priority) + multiset(order) == multiset(pods)
  {
    forall p ensures multiset(order)[p] <= multiset(pods)[p] {
      LowerCount(pods, priority, p);
    }
  }

  lemma PartWithin(base: multiset<Pod>, v: seq<Pod>, w: seq<Pod>, all: multiset<Pod>)
    requires base + multiset(v + w) == all
    ensures base + multiset([] + v) <= all
  {
    assert [] + v == v && multiset(v + w) == multiset(v) + multiset(w);
  }

  /** How many of the pods violate a budget. */
  ghost function ViolatingCount(pods: seq<Pod>, pdbs: seq<Budget>): nat {
    |Where(pods, pdbs, true)|
  }

  lemma {:induction false} RejectedMember(order: seq<Pod>, flags: seq<bool>, i: nat) returns (j: nat)
    requires |flags| == |order| && i < |Rejected(order, flags)|
    ensures j < |order| && !flags[j] && order[j] == Rejected(order, flags)[i]
  {
    var n := |order| - 1;
    if i < |Rejected(order[..n], flags[..n])| {
      j := RejectedMember(order[..n], flags[..n], i);
    } else {
      j := n;
    }
  }

  lemma {:induction false} CountAll(pods: seq<Pod>, pdbs: seq<Budget>)
    requires forall i :: 0 <= i < |pods| ==> Violates(pods[i], pdbs)
    ensures Where(pods, pdbs, true) == pods
  {
    if pods != [] {
      var n := |pods| - 1;
      CountAll(pods[..n], pdbs);
      assert pods == pods[..n] + [pods[n]];
    }
  }

  lemma {:induction false} CountMore(pods: seq<Pod>, more: seq<Pod>, pdbs: seq<Budget>)
    requires forall i :: 0 <= i < |more| ==> !Violates(more[i], pdbs)
    ensures Where(pods + more, pdbs, true) == Where(pods, pdbs, true)
  {
    if more == [] {
      assert pods + more == pods;
    } else {
      var n := |more| - 1;
      CountMore(pods, more[..n], pdbs);
      assert (pods + more)[..|pods| + n] == pods + more[..n];
    }
  }

  /** The victims so far, with the pod that comes next if it does not stay. */
  lemma OneMoreVictim(fits: Fit, base: multiset<Pod>, order: seq<Pod>) returns (last: seq<Pod>)
    requires |order| > 0
    ensures last == [] || last == [order[|order| - 1]]
    ensures Victims(fits, base, order) == Victims(fits, base, order[..|order| - 1]) + last
  {
    var n := |order| - 1;
    assert order == order[..n] + [order[n]];
    GreedyStep(fits, base, order[..n], order[n]);
    last := if fits(Kept(fits, base, order[..n]) + multiset{order[n]}) then [] else [order[n]];
  }

  /** Beyond place `k` only pods from beyond place `k` become victims. */
  lemma {:induction false} VictimsExtend(fits: Fit, base: multiset<Pod>, order: seq<Pod>, k: nat, pdbs: seq<Budget>)
      returns (more: seq<Pod>)
    requires k <= |order| && forall i :: k <= i < |order| ==> !Violates(order[i], pdbs)
    ensures Victims(fits, base, order) == Victims(fits, base, order[..k]) + more
    ensures forall i :: 0 <= i < |more| ==> !Violates(more[i], pdbs)
    decreases |order|
  {
    if k == |order| {
      more := [];
      assert order[..k] == order;
    } else {
      var n := |order| - 1;
      assert order[..n][..k] == order[..k];
      var rest := VictimsExtend(fits, base, order[..n], k, pdbs);
      var last := OneMoreVictim(fits, base, order);
      more := rest + last;
      assert !Violates(order[n], pdbs);
    }
  }

  lemma FirstPartViolates(fits: Fit, base: multiset<Pod>, order: seq<Pod>, pdbs: seq<Budget>)
    requires forall i :: 0 <= i < |order| ==> Violates(order[i], pdbs)
    ensures Where(Victims(fits, base, order), pdbs, true) == Victims(fits, base, order)
  {
    var victims := Victims(fits, base, order);
    forall i | 0 <= i < |victims| ensures Violates(victims[i], pdbs) {
      var j := RejectedMember(order, Stays(fits, base, order), i);
    }
    CountAll(victims, pdbs);
  }

  /** The count that is returned is the number of victims whose budget is violated. */
  lemma CountIsRight(fits: Fit, pods: seq<Pod>, priority: int, pdbs: seq<Budget>, order: seq<Pod>, k: nat)
    requires IsOrder(pods, priority, pdbs, order, k)
    ensures var base := Base(pods, priority);
            |Victims(fits, base, order[..k])| == ViolatingCount(Victims(fits, base, order), pdbs)
  {
    var base := Base(pods, priority);
    FirstPartViolates(fits, base, order[..k], pdbs);
    var more := VictimsExtend(fits, base, order, k, pdbs);
    CountMore(Victims(fits, base, order[..k]), more, pdbs);
  }

  /** The pod fits once exactly the victims are gone. */
  lemma SelectionFits(fits: Fit, pods: seq<Pod>, priority: int, pdbs: seq<Budget>, order: seq<Pod>, k: nat)
    requires IsOrder(pods, priority, pdbs, order, k) && fits(Base(pods, priority))
    ensures var base := Base(pods, priority);
            var victims := Victims(fits, base, order);
            && multiset(victims) <= multiset(pods) && fits(multiset(pods) - multiset(victims))
            && Kept(fits, base, order) == multiset(pods) - multiset(victims)
  {
    FitsWithoutVictims(fits, Base(pods, priority), order);
    BaseAndOrder(pods, priority, order);
    Difference(Kept(fits, Base(pods, priority), order), multiset(Victims(fits, Base(pods, priority), order)),
               multiset(pods));
  }

  lemma Difference(a: multiset<Pod>, b: multiset<Pod>, all: multiset<Pod>)
    requires a + b == all
    ensures b <= all && all - b == a
  {
  }

  /** Victims are pods of the node of lower priority. */
  lemma VictimsAreLower(fits: Fit, pods: seq<Pod>, priority: int, pdbs: seq<Budget>, order: seq<Pod>, k: nat, v: Pod)
    requires IsOrder(pods, priority, pdbs, order, k) && v in Victims(fits, Base(pods, priority), order)
    ensures v in pods && v.priority < priority
  {
    var base := Base(pods, priority);
    var i :| 0 <= i < |Victims(fits, base, order)| && Victims(fits, base, order)[i] == v;
    var j := RejectedMember(order, Stays(fits, base, order), i);
    assert v in multiset(order);
    LowerCount(pods, priority, v);
    assert v in multiset(pods);
  }

  /** If taking pods away never hurts, then no victim can be put back. */
  lemma NoVictimCanReturn(fits: Fit, pods: seq<Pod>, priority: int, pdbs: seq<Budget>, order: seq<Pod>, k: nat, v: Pod)
    requires IsOrder(pods, priority, pdbs, order, k) && fits(Base(pods, priority)) && Antitone(fits)
    requires v in Victims(fits, Base(pods, priority), order)
    ensures !fits(multiset(pods) - multiset(Victims(fits, Base(pods, priority), order)) + multiset{v})
  {
    var base := Base(pods, priority);
    SelectionFits(fits, pods, priority, pdbs, order, k);
    var i :| 0 <= i < |Victims(fits, base, order)| && Victims(fits, base, order)[i] == v;
    var j := RejectedMember(order, Stays(fits, base, order), i);
    NoVictimCanStay(fits, base, order, j);
  }

  /** And no feasible choice of pods to keep beats the one made, in the order of reprieve: violating pods by priority,
      then the others by priority. */
  lemma SelectionIsBest(fits: Fit, pods: seq<Pod>, priority: int, pdbs: seq<Budget>, order: seq<Pod>, k: nat,
                        flags: seq<bool>)
    requires IsOrder(pods, priority, pdbs, order, k) && Antitone(fits)
    requires |flags| == |order| && fits(Base(pods, priority) + Chosen(order, flags))
    ensures var stays := Stays(fits, Base(pods, priority), order);
      !Beats(flags, stays) && (flags == stays || Beats(stays, flags))
  {
    NothingBeatsGreedy(fits, Base(pods, priority), order, flags);
  }
}
