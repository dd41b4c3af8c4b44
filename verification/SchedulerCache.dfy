/** kube-scheduler/pkg/internal/cache/cache.go. */
module SchedulerCaches {
  import opened Collections
  import opened NodeInfoList
  import opened CacheState
  import opened Snapshots

  /** `items` are the items of the names in `order`. */
  ghost predicate Filed(nodes: map<string, Item>, order: seq<string>, items: seq<Item>) {
    && |order| == |items| && Distinct(order)
    && forall i :: 0 <= i < |order| ==> order[i] in nodes && nodes[order[i]] == items[i]
  }

  lemma MinusIsWithout(s: seq<string>, name: string) returns (k: nat)
    requires Distinct(s)
    ensures k <= |s| && (k < |s| <==> name in s) && (k < |s| ==> s[k] == name)
    ensures Minus(s, name) == Without(s, k)
  {
    if name in s {
      k :| 0 <= k < |s| && s[k] == name;
      MinusSkips(s, k);
    } else {
      k := |s|;
      MinusAbsent(s, name);
    }
  }

  lemma FiledWithout(nodes: map<string, Item>, order: seq<string>, items: seq<Item>, k: nat)
    requires Filed(nodes, order, items)
    ensures Filed(nodes, Without(order, k), Without(items, k))
    ensures k < |order| ==> order[k] !in Without(order, k)
  {
    var o, s := Without(order, k), Without(items, k);
    assert forall i :: 0 <= i < |o| ==>
           o[i] == order[if i < k then i else i + 1] && s[i] == items[if i < k then i else i + 1];
  }

  lemma FiledInFront(nodes: map<string, Item>, order: seq<string>, items: seq<Item>, name: string)
    requires Filed(nodes, order, items) && name in nodes && name !in order
    ensures Filed(nodes, [name] + order, [nodes[name]] + items)
  {
  }

  lemma WithoutName(nodes: map<string, Item>, order: seq<string>, items: seq<Item>, name: string)
    requires Filed(nodes, order, items) && name !in order
    ensures Filed(nodes - {name}, order, items)
  {
    assert forall i :: 0 <= i < |order| ==> order[i] != name;
  }

  lemma ItemsFiled(nodes: map<string, Item>, order: seq<string>, items: seq<Item>)
    requires Filed(nodes, order, items)
    ensures forall x :: x in items ==> x in nodes.Values
  {
  }

  /** What the list becomes when `name` moves to its head. */
  lemma Promoted(nodes: map<string, Item>, order: seq<string>, items: seq<Item>, name: string)
      returns (k: nat, o: seq<string>, s: seq<Item>)
    requires Filed(nodes, order, items) && name in nodes
    ensures k <= |order| && (k < |order| <==> name in order) && (k < |order| ==> order[k] == name)
    ensures o == [name] + Minus(order, name) && s == [nodes[name]] + Without(items, k) && Filed(nodes, o, s)
  {
    k := MinusIsWithout(order, name);
    o, s := [name] + Minus(order, name), [nodes[name]] + Without(items, k);
    FiledWithout(nodes, order, items, k);
    FiledInFront(nodes, Without(order, k), Without(items, k), name);
  }

  /** What the list becomes when `name` leaves it. */
  lemma Shortened(nodes: map<string, Item>, order: seq<string>, items: seq<Item>, name: string)
      returns (k: nat, o: seq<string>, s: seq<Item>)
    requires Filed(nodes, order, items) && name in order
    ensures k < |order| && order[k] == name && o == Minus(order, name) && s == Without(items, k)
    ensures Filed(nodes - {name}, o, s)
  {
    k := MinusIsWithout(order, name);
    o, s := Minus(order, name), Without(items, k);
    FiledWithout(nodes, order, items, k);
    WithoutName(nodes, o, s, name);
  }

  /** An item that is first in the list is already where it should be. */
  lemma AlreadyFirst(order: seq<string>, name: string)
    requires |order| > 0 && order[0] == name
    ensures order == [name] + Minus(order, name)
  {
  }

  ghost function Entries(nodes: map<string, Item>): map<string, Info>
    reads nodes.Values
  {
    map n | n in nodes :: nodes[n].info
  }

  /** Each entry has an item of its own. */
  ghost predicate Named(nodes: map<string, Item>) {
    forall n :: n in nodes ==> nodes[n].name == n
  }

  /** An entry that is not in the list is new. */
  ghost predicate NewOrListed(nodes: map<string, Item>, order: seq<string>, items: seq<Item>, name: string)
    reads nodes.Values
  {
    name in nodes && name !in order ==> nodes[name] !in items && nodes[name].prev == null && nodes[name].next == null
  }

  method Promote(name: string, h: Item?, nodes: map<string, Item>, ghost order: seq<string>, ghost items: seq<Item>)
      returns (ghost o: seq<string>, ghost s: seq<Item>)
    requires Filed(nodes, order, items) && Linked(h, items) && NewOrListed(nodes, order, items, name)
    requires name in nodes && nodes[name] != h
    modifies nodes.Values
    ensures Filed(nodes, o, s) && Linked(nodes[name], s) && o == [name] + Minus(order, name)
    ensures Entries(nodes) == old(Entries(nodes))
  {
    ghost var k;
    k, o, s := Promoted(nodes, order, items, name);
    ItemsFiled(nodes, order, items);
    MoveToFront(nodes[name], h, items, k);
  }

  method Extract(name: string, h: Item?, nodes: map<string, Item>, ghost order: seq<string>, ghost items: seq<Item>)
      returns (first: Item?, ghost o: seq<string>, ghost s: seq<Item>)
    requires Filed(nodes, order, items) && Linked(h, items) && name in nodes && name in order
    modifies nodes.Values
    ensures Linked(first, s) && Filed(nodes - {name}, o, s) && o == Minus(order, name)
    ensures Entries(nodes - {name}) == old(Entries(nodes)) - {name}
  {
    ghost var k;
    k, o, s := Shortened(nodes, order, items, name);
    ItemsFiled(nodes, order, items);
    var ni := nodes[name];
    Unlink(ni, h, items, k);
    first := h;
    if ni == h {
      first := ni.next;
    }
  }

  method SetEntry(ni: Item, info: Info, ghost nodes: map<string, Item>, ghost name: string)
    requires Named(nodes) && name in nodes && ni == nodes[name]
    modifies ni`info
    ensures Entries(nodes) == old(Entries(nodes))[name := info]
  {
    ni.info := info;
  }

  lemma Enlisted(nodes: map<string, Item>, order: seq<string>, items: seq<Item>, name: string, n: Item)
    requires Filed(nodes, order, items) && name !in nodes
    ensures name !in order && Filed(nodes[name := n], order, items)
  {
  }

  /** The search and the removal in NodeInfo.RemovePod. */
  method TakeOut(pods: seq<Pod>, uid: string) returns (found: bool, rest: seq<Pod>)
    ensures found == Holds(pods, uid)
    ensures found ==> rest == TakenOut(pods, uid)
  {
    found, rest := false, pods;
    for i := 0 to |pods|
      invariant forall j :: 0 <= j < i ==> pods[j].uid != uid
    {
      if pods[i].uid == uid {
        TakenOutIs(pods, i);
        return true, pods[i := pods[|pods| - 1]][..|pods| - 1];
      }
    }
  }

  lemma WithPodIs(s: State, pod: Pod, mid: map<string, Info>, t: State)
    requires mid == s.infos[pod.nodeName := EntryOf(s, pod.nodeName)] && t.generation == NextGeneration(s, pod.nodeName)
    requires var info := mid[pod.nodeName];
      t.infos == mid[pod.nodeName := info.(pods := info.pods + [pod], generation := t.generation)]
    requires t.order == [pod.nodeName] + Minus(s.order, pod.nodeName) && t.pods == s.pods && t.assumed == s.assumed
    ensures t == WithPod(s, pod)
  {
    assert t.infos == WithPod(s, pod).infos;
  }

  ghost function Replaced(s: State, uid: string, oldPod: Pod, newPod: Pod, ps: PodState, a: set<string>): Result {
    var r := WithoutPod(s, oldPod);
    if r.outcome != Done then r
    else Result(WithPod(r.state, newPod).(pods := s.pods[uid := ps], assumed := a), Done)
  }

  lemma WithNodeIs(s: State, node: Node, mid: map<string, Info>, t: State)
    requires mid == s.infos[node.name := EntryOf(s, node.name)] && t.generation == NextGeneration(s, node.name)
    requires t.infos == mid[node.name := mid[node.name].(node := Some(node), generation := t.generation)]
    requires t.order == [node.name] + Minus(s.order, node.name) && t.pods == s.pods && t.assumed == s.assumed
    ensures t == WithNode(s, node)
  {
    assert t.infos == WithNode(s, node).infos;
  }

  lemma WithFailedNodeIs(s: State, node: Node, mid: map<string, Info>, t: State)
    requires mid == s.infos[node.name := EntryOf(s, node.name)]
    requires t.generation + 1 == NextGeneration(s, node.name)
    requires t.infos == mid[node.name := mid[node.name].(node := Some(node))]
    requires t.order == [node.name] + Minus(s.order, node.name) && t.pods == s.pods && t.assumed == s.assumed
    ensures t == WithFailedNode(s, node)
  {
    assert t.infos == WithFailedNode(s, node).infos;
  }

  /** The assumed pods among `done` that have expired. */
  ghost function Lapsed(s: State, done: set<string>, now: int): set<string> {
    set u | u in done && Overdue(s, u, now)
  }

  ghost predicate Removed(p: map<string, PodState>, a: set<string>, q: map<string, PodState>, b: set<string>,
                          gone: set<string>) {
    q == p - gone && b == a - gone
  }

  lemma LapsedStep(s: State, t: State, u: State, left: set<string>, uid: string, now: int)
    requires uid in left && left <= s.assumed
    requires Removed(s.pods, s.assumed, t.pods, t.assumed, Lapsed(s, s.assumed - left, now))
    requires Removed(t.pods, t.assumed, u.pods, u.assumed, if Overdue(t, uid, now) then {uid} else {})
    ensures Removed(s.pods, s.assumed, u.pods, u.assumed, Lapsed(s, s.assumed - (left - {uid}), now))
  {
    assert Overdue(t, uid, now) == Overdue(s, uid, now);
    assert Lapsed(s, s.assumed - (left - {uid}), now)
        == Lapsed(s, s.assumed - left, now) + (if Overdue(s, uid, now) then {uid} else {});
  }

  /** The turns of cleanupAssumedPods for `uids`, one after the other. */
  ghost function ExpireAll(s: State, uids: seq<string>, now: int): State {
    if uids == [] then s else Expire(ExpireAll(s, uids[..|uids| - 1], now), uids[|uids| - 1], now).state
  }

  /** Each of `uids` has had one turn. */
  ghost predicate Turns(turns: seq<string>, uids: set<string>) {
    Distinct(turns) && forall uid :: uid in turns <==> uid in uids
  }

  lemma TurnTaken(s: State, turns: seq<string>, uid: string, now: int, uids: set<string>)
    requires Turns(turns, uids) && uid !in uids
    ensures Turns(turns + [uid], uids + {uid})
    ensures ExpireAll(s, turns + [uid], now) == Expire(ExpireAll(s, turns, now), uid, now).state
  {
    assert (turns + [uid])[..|turns|] == turns;
  }

  lemma ExpireRemoves(s: State, uid: string, now: int)
    requires Inv(s) && uid in s.assumed
    ensures var u := Expire(s, uid, now).state;
            Removed(s.pods, s.assumed, u.pods, u.assumed, if Overdue(s, uid, now) then {uid} else {})
  {
    ExpireKeeps(s, uid, now);
  }

  /** In any order, the turns take the expired pods off the records, and no others. */
  lemma {:induction false} ExpireAllRemoves(s: State, turns: seq<string>, now: int, uids: set<string>)
    requires Inv(s) && Turns(turns, uids) && uids <= s.assumed
    ensures var t := ExpireAll(s, turns, now);
            Inv(t) && Removed(s.pods, s.assumed, t.pods, t.assumed, Lapsed(s, uids, now))
    decreases |turns|
  {
    if turns == [] {
      assert Lapsed(s, uids, now) == {};
    } else {
      var n := |turns| - 1;
      var uid, before := turns[n], uids - {turns[n]};
      assert turns == turns[..n] + [uid];
      assert Turns(turns[..n], before);
      ExpireAllRemoves(s, turns[..n], now, before);
      TurnRemoves(s, ExpireAll(s, turns[..n], now), before, uid, now);
      assert before + {uid} == uids;
    }
  }

  lemma TurnRemoves(s: State, t: State, before: set<string>, uid: string, now: int)
    requires Inv(t) && before <= s.assumed && uid in s.assumed && uid !in before
    requires Removed(s.pods, s.assumed, t.pods, t.assumed, Lapsed(s, before, now))
    ensures var u := Expire(t, uid, now).state;
            Inv(u) && Removed(s.pods, s.assumed, u.pods, u.assumed, Lapsed(s, before + {uid}, now))
  {
    ExpireKeeps(t, uid, now);
    ExpireRemoves(t, uid, now);
    var left := s.assumed - before;
    assert s.assumed - left == before && s.assumed - (left - {uid}) == before + {uid};
    LapsedStep(s, t, Expire(t, uid, now).state, left, uid, now);
  }

  /** A turn takes no other pod off the records. */
  lemma {:induction false} ExpireAllKeeps(s: State, turns: seq<string>, now: int, uid: string)
    requires uid in s.assumed && uid !in turns
    ensures uid in ExpireAll(s, turns, now).assumed
    decreases |turns|
  {
    if turns != [] {
      ExpireAllKeeps(s, turns[..|turns| - 1], now, uid);
    }
  }

  lemma NextTurn(s: State, turns: seq<string>, now: int, left: set<string>, uid: string)
    requires left <= s.assumed && uid in left && Turns(turns, s.assumed - left)
    ensures uid in ExpireAll(s, turns, now).assumed && Turns(turns + [uid], s.assumed - (left - {uid}))
    ensures ExpireAll(s, turns + [uid], now) == Expire(ExpireAll(s, turns, now), uid, now).state
  {
    ExpireAllKeeps(s, turns, now, uid);
    TurnTaken(s, turns, uid, now, s.assumed - left);
    assert s.assumed - (left - {uid}) == s.assumed - left + {uid};
  }

  // ---- The walk of UpdateNodeInfoSnapshot ----

  lemma WalkStep(s: State, generation: int, i: nat)
    requires i < |s.order| && s.order[i] in s.infos && s.infos[s.order[i]].generation > generation
    ensures var info := s.infos[s.order[i]];
      Walked(s, generation, i + 1) == if info.node.Some? then Walked(s, generation, i)[s.order[i] := info]
                                      else Walked(s, generation, i)
  {
    assert s.order[..i + 1] == s.order[..i] + [s.order[i]];
  }

  class NodeInfoSnapshot {
    var infos: map<string, Info>
    var generation: int

    constructor ()
      ensures infos == map[] && generation == 0
    {
      infos, generation := map[], 0;
    }

    ghost function Value(): Snapshot
      reads this
    {
      Snapshot(infos, generation)
    }

    /** The last loop of UpdateNodeInfoSnapshot. */
    method Prune(names: set<string>)
      modifies this`infos
      ensures infos == map n | n in old(infos) && n in names :: old(infos)[n]
    {
      var left := infos.Keys;
      while left != {}
        invariant left <= infos.Keys <= old(infos).Keys
        invariant forall n :: n in infos ==> infos[n] == old(infos)[n]
        invariant forall n :: n in infos && n !in left ==> n in names
        invariant forall n :: n in old(infos) && n in names ==> n in infos
        decreases |left|
      {
        var name :| name in left;
        left := left - {name};
        if name !in names {
          infos := infos - {name};
        }
      }
    }
  }

  /** The items hold the entries of `s` in its order, under the names of their nodes. */
  ghost predicate Mirrors(s: State, items: seq<Item>)
    reads items
  {
    |s.order| == |items| && forall i :: 0 <= i < |items| ==> Mirrored(s, s.order[i], items[i].info)
  }

  ghost predicate Mirrored(s: State, n: string, info: Info) {
    n in s.infos && s.infos[n] == info && (info.node.Some? ==> info.node.value.name == n)
  }

  lemma CopyStep(s: State, was: map<string, Info>, generation: int, i: nat)
    requires i < |s.order| && s.order[i] in s.infos && s.infos[s.order[i]].generation > generation
    ensures var info := s.infos[s.order[i]]; var copied := was + Walked(s, generation, i);
      was + Walked(s, generation, i + 1) == if info.node.Some? then copied[s.order[i] := info] else copied
  {
    WalkStep(s, generation, i);
  }

  /** The walk: it stops at the first entry that has not changed. */
  method CopyChanged(h: Item?, snap: NodeInfoSnapshot, ghost items: seq<Item>, ghost s: State)
    requires Linked(h, items) && Mirrors(s, items)
    modifies snap`infos
    ensures snap.infos == old(snap.infos) + Walked(s, snap.generation, Stop(s, snap.generation, 0))
  {
    var node := h;
    ghost var i, was := 0, snap.infos;
    while node != null && node.info.generation > snap.generation
      invariant 0 <= i <= |items| && node == At(items, i)
      invariant Stop(s, snap.generation, i) == Stop(s, snap.generation, 0)
      invariant snap.infos == was + Walked(s, snap.generation, i)
      decreases |items| - i
    {
      assert Mirrored(s, s.order[i], items[i].info);
      CopyStep(s, was, snap.generation, i);
      if node.info.node.Some? {
        snap.infos := snap.infos[node.info.node.value.name := node.info];
      }
      node, i := node.next, i + 1;
    }
    assert i < |items| ==> Mirrored(s, s.order[i], items[i].info);
  }

  /** The end of UpdateNodeInfoSnapshot. */
  method Settle(h: Item?, names: set<string>, snap: NodeInfoSnapshot, ghost s: State)
    requires names == s.infos.Keys
    requires if s.order == [] then h == null else h != null && Mirrored(s, s.order[0], h.info)
    modifies snap
    ensures snap.infos == Pruned(old(snap.infos), s.infos)
    ensures snap.generation == Newest(s, old(snap.generation))
  {
    if h != null {
      snap.generation := h.info.generation;
    }
    if |snap.infos.Keys| > |names| {
      snap.Prune(names);
    }
  }

  method Refresh(h: Item?, names: set<string>, snap: NodeInfoSnapshot, ghost items: seq<Item>, ghost s: State)
    requires Linked(h, items) && Mirrors(s, items) && names == s.infos.Keys
    modifies snap
    ensures snap.Value() == WalkRefreshed(s, old(snap.Value()))
  {
    assert s.order != [] ==> Mirrored(s, s.order[0], items[0].info);
    CopyChanged(h, snap, items, s);
    Settle(h, names, snap, s);
  }

  class SchedulerCache {
    var nodes: map<string, Item>
    var head: Item?
    var pods: map<string, PodState>
    var assumed: set<string>
    var generation: int
    ghost var order: seq<string>
    ghost var items: seq<Item>

    constructor ()
      ensures Valid() && St() == EMPTY
    {
      nodes, head, pods, assumed, generation := map[], null, map[], {}, 0;
      order, items := [], [];
    }

    ghost predicate Listed()
      reads this, items
    {
      Filed(nodes, order, items) && Linked(head, items) && Named(nodes)
    }

    ghost function St(): State
      reads this, nodes.Values
    {
      State(Entries(nodes), order, generation, pods, assumed)
    }

    method MoveNodeInfoToHead(name: string)
      requires Listed() && NewOrListed(nodes, order, items, name)
      modifies this`head, this`order, this`items, nodes.Values
      ensures Listed() && Entries(nodes) == old(Entries(nodes))
      ensures order == if name in nodes then [name] + Minus(old(order), name) else old(order)
      ensures nodes == old(nodes) && generation == old(generation) && pods == old(pods) && assumed == old(assumed)
    {
      if name !in nodes {
        return;
      }
      var ni := nodes[name];
      if ni == head {
        assert items[0] == ni && order[0] == name;
        AlreadyFirst(order, name);
        return;
      }
      order, items := Promote(name, head, nodes, order, items);
      head := ni;
    }

    method RemoveNodeInfoFromList(name: string)
      requires Listed() && (name in nodes ==> name in order)
      modifies this`nodes, this`head, this`order, this`items, nodes.Values
      ensures Listed()
      ensures name !in old(nodes) ==>
              nodes == old(nodes) && Entries(nodes) == old(Entries(nodes)) && order == old(order)
      ensures name in old(nodes) ==> nodes == old(nodes) - {name} && order == Minus(old(order), name)
      ensures name in old(nodes) ==> Entries(nodes) == old(Entries(nodes)) - {name}
      ensures generation == old(generation) && pods == old(pods) && assumed == old(assumed)
    {
      if name in nodes {
        var h, o, s := Extract(name, head, nodes, order, items);
        head, order, items, nodes := h, o, s, nodes - {name};
      }
    }

    /** The entry of a node, made if there is none. */
    method GetOrCreate(name: string)
      requires Listed() && (name in nodes ==> name in order)
      modifies this`nodes, this`generation
      ensures Listed() && NewOrListed(nodes, order, items, name) && fresh(nodes.Values - old(nodes.Values))
      ensures name in nodes && Entries(nodes) == old(Entries(nodes))[name := EntryOf(old(St()), name)]
      ensures generation + 1 == NextGeneration(old(St()), name)
      ensures order == old(order) && items == old(items) && pods == old(pods) && assumed == old(assumed)
    {
      if name !in nodes {
        generation := generation + 1;
        var n := new Item(name, Info(None, [], generation));
        ItemsFiled(nodes, order, items);
        Enlisted(nodes, order, items, name, n);
        nodes := nodes[name := n];
      }
    }

    /** A change to an entry: it takes a new generation and moves to the head. */
    method ChangeEntry(name: string, info: Info)
      requires Listed() && NewOrListed(nodes, order, items, name) && name in nodes
      modifies this`head, this`order, this`items, this`generation, nodes.Values
      ensures generation == old(generation) + 1 && order == [name] + Minus(old(order), name)
      ensures Listed() && Entries(nodes) == old(Entries(nodes))[name := info.(generation := generation)]
      ensures nodes == old(nodes) && pods == old(pods) && assumed == old(assumed)
    {
      generation := generation + 1;
      SetEntry(nodes[name], info.(generation := generation), nodes, name);
      MoveNodeInfoToHead(name);
    }

    /** addPod. */
    method AddToNode(pod: Pod)
      requires Listed() && (pod.nodeName in nodes ==> pod.nodeName in order)
      modifies this`nodes, this`head, this`order, this`items, this`generation, nodes.Values
      ensures Listed() && St() == WithPod(old(St()), pod) && fresh(nodes.Values - old(nodes.Values))
      ensures pods == old(pods) && assumed == old(assumed)
    {
      var name := pod.nodeName;
      ghost var s := St();
      GetOrCreate(name);
      ghost var mid := Entries(nodes);
      var info := nodes[name].info;
      ChangeEntry(name, info.(pods := info.pods + [pod]));
      WithPodIs(s, pod, mid, St());
    }

    /** What removePod and RemoveNode do with an entry that lost a pod or its node. */
    method KeepOrDrop(name: string, info: Info)
      requires Listed() && name in nodes && name in order
      modifies this`nodes, this`head, this`order, this`items, this`generation, nodes.Values
      ensures Listed() && St() == PutOrDrop(old(St()), name, info) && fresh(nodes.Values - old(nodes.Values))
      ensures pods == old(pods) && assumed == old(assumed)
    {
      ghost var s := St();
      if info.pods == [] && info.node.None? {
        generation := generation + 1;
        RemoveNodeInfoFromList(name);
        assert St() == PutOrDrop(s, name, info);
      } else {
        ChangeEntry(name, info);
        assert St() == PutOrDrop(s, name, info);
      }
    }

    /** removePod. */
    method RemoveFromNode(pod: Pod) returns (outcome: Outcome)
      requires Listed() && ListInv(St())
      modifies this`nodes, this`head, this`order, this`items, this`generation, nodes.Values
      ensures Result(St(), outcome) == WithoutPod(old(St()), pod) && pods == old(pods) && assumed == old(assumed)
      ensures Listed() && ListInv(St()) && fresh(nodes.Values - old(nodes.Values))
    {
      ghost var s := St();
      var name := pod.nodeName;
      if name !in nodes || pod.uid == "" {
        return Failed;
      }
      var info := nodes[name].info;
      assert info == s.infos[name];
      var found, rest := TakeOut(info.pods, pod.uid);
      if !found {
        return if info.node.Some? then Failed else Fatal;
      }
      DropKeepsList(s, name, info.(pods := rest));
      KeepOrDrop(name, info.(pods := rest));
      return Done;
    }

    /** What every operation keeps, whatever it is called with. */
    ghost predicate Kept()
      reads this, nodes.Values, items
    {
      Listed() && Core(St())
    }

    /** What every operation keeps as long as UpdatePod is called with versions of one pod. */
    ghost predicate Valid()
      reads this, nodes.Values, items
    {
      Kept() && Inv(St())
    }

    method SetTables(p: map<string, PodState>, a: set<string>)
      requires Listed()
      modifies this`pods, this`assumed
      ensures Listed() && St() == old(St()).(pods := p, assumed := a)
    {
      pods, assumed := p, a;
    }

    /** addPod, with the pod entered in the tables. */
    method Track(uid: string, pod: Pod, ps: PodState, a: set<string>)
      requires Listed() && (pod.nodeName in nodes ==> pod.nodeName in order)
      modifies this, nodes.Values
      ensures Listed() && St() == WithPod(old(St()), pod).(pods := old(pods)[uid := ps], assumed := a)
      ensures fresh(nodes.Values - old(nodes.Values))
    {
      AddToNode(pod);
      SetTables(pods[uid := ps], a);
    }

    /** Both invariants go on to `s`, the state after `op`. */
    lemma Keeps(op: Op) returns (s: State)
      requires Kept()
      ensures s == Step(St(), op).state && Core(s) && (Valid() && Proper(op) ==> Inv(s))
    {
      s := Step(St(), op).state;
      StepKeepsCore(St(), op);
      if Inv(St()) && Proper(op) {
        StepKeepsInv(St(), op);
      }
    }

    lemma Now(s: State)
      requires Listed() && St() == s && Core(s)
      ensures Kept() && (Inv(s) ==> Valid())
    {
    }

    method AssumePod(pod: Pod) returns (outcome: Outcome)
      requires Kept()
      modifies this, nodes.Values
      ensures Kept() && (old(Valid()) ==> Valid()) && Result(St(), outcome) == Assume(old(St()), pod)
      ensures fresh(nodes.Values - old(nodes.Values))
    {
      ghost var s := Keeps(Op.AssumePod(pod));
      if pod.uid == "" || pod.uid in pods {
        return Failed;
      }
      assert pod.nodeName in nodes ==> pod.nodeName in St().infos;
      Track(pod.uid, pod, PodState(pod, None, false), assumed + {pod.uid});
      Now(s);
      return Done;
    }

    method FinishBinding(pod: Pod, deadline: int) returns (outcome: Outcome)
      requires Kept()
      modifies this`pods, this`assumed
      ensures Kept() && (old(Valid()) ==> Valid()) && Result(St(), outcome) == Finish(old(St()), pod, deadline)
    {
      ghost var s := Keeps(Op.FinishBinding(pod, deadline));
      if pod.uid == "" {
        return Failed;
      }
      if pod.uid in pods && pod.uid in assumed {
        SetTables(pods[pod.uid := pods[pod.uid].(deadline := Some(deadline), bindingFinished := true)], assumed);
        Now(s);
      }
      return Done;
    }

    /** removePod and, if that worked, the pod's removal from both tables. */
    method Drop(uid: string, pod: Pod) returns (outcome: Outcome)
      requires Listed() && ListInv(St())
      modifies this, nodes.Values
      ensures Listed() && Result(St(), outcome) == Untrack(old(St()), uid, pod)
      ensures fresh(nodes.Values - old(nodes.Values))
    {
      outcome := RemoveFromNode(pod);
      if outcome == Done {
        SetTables(pods - {uid}, assumed - {uid});
      }
    }

    method ForgetPod(pod: Pod) returns (outcome: Outcome)
      requires Kept()
      modifies this, nodes.Values
      ensures Kept() && (old(Valid()) ==> Valid()) && Result(St(), outcome) == Forget(old(St()), pod)
      ensures fresh(nodes.Values - old(nodes.Values))
    {
      ghost var s := Keeps(Op.ForgetPod(pod));
      if pod.uid == "" {
        return Failed;
      }
      if pod.uid in pods && pods[pod.uid].pod.nodeName != pod.nodeName {
        return Failed;
      }
      if pod.uid in pods && pod.uid in assumed {
        outcome := Drop(pod.uid, pod);
        Now(s);
      } else {
        return Failed;
      }
    }

    method RemovePod(pod: Pod) returns (outcome: Outcome)
      requires Kept()
      modifies this, nodes.Values
      ensures Kept() && (old(Valid()) ==> Valid()) && Result(St(), outcome) == Remove(old(St()), pod)
      ensures fresh(nodes.Values - old(nodes.Values))
    {
      ghost var s := Keeps(Op.RemovePod(pod));
      if pod.uid == "" || pod.uid !in pods || pod.uid in assumed {
        return Failed;
      }
      if pods[pod.uid].pod.nodeName != pod.nodeName {
        return Fatal;
      }
      outcome := Drop(pod.uid, pods[pod.uid].pod);
      Now(s);
    }

    method AddPod(pod: Pod) returns (outcome: Outcome)
      requires Kept()
      modifies this, nodes.Values
      ensures Kept() && (old(Valid()) ==> Valid()) && Result(St(), outcome) == Add(old(St()), pod)
      ensures fresh(nodes.Values - old(nodes.Values))
    {
      ghost var s := Keeps(Op.AddPod(pod));
      if pod.uid == "" {
        return Failed;
      }
      if pod.uid !in pods {
        assert pod.nodeName in nodes ==> pod.nodeName in St().infos;
        Track(pod.uid, pod, PodState(pod, None, false), assumed);
        outcome := Done;
      } else if pod.uid in assumed {
        outcome := Confirm(pod);
      } else {
        return Failed;
      }
      Now(s);
    }

    /** AddPod for an assumed pod. That removePod fails is not looked at. */
    method Confirm(pod: Pod) returns (outcome: Outcome)
      requires Listed() && ListInv(St()) && pod.uid != "" && pod.uid in pods && pod.uid in assumed
      modifies this, nodes.Values
      ensures Listed() && Result(St(), outcome) == Add(old(St()), pod)
      ensures fresh(nodes.Values - old(nodes.Values))
    {
      var ps := pods[pod.uid].(pod := pod, deadline := None);
      if pods[pod.uid].pod.nodeName != pod.nodeName {
        outcome := RemoveFromNode(pods[pod.uid].pod);
        if outcome == Fatal {
          return;
        }
        assert pod.nodeName in nodes ==> pod.nodeName in St().infos;
        Track(pod.uid, pod, ps, assumed - {pod.uid});
      } else {
        SetTables(pods[pod.uid := ps], assumed - {pod.uid});
      }
      outcome := Done;
    }

    /** removePod, then addPod, with the pod's record in the tables. */
    method Replace(uid: string, oldPod: Pod, newPod: Pod, ps: PodState, a: set<string>) returns (outcome: Outcome)
      requires Listed() && ListInv(St())
      modifies this, nodes.Values
      ensures Listed() && fresh(nodes.Values - old(nodes.Values))
      ensures Result(St(), outcome) == Replaced(old(St()), uid, oldPod, newPod, ps, a)
    {
      outcome := RemoveFromNode(oldPod);
      if outcome == Done {
        assert newPod.nodeName in nodes ==> newPod.nodeName in St().infos;
        Track(uid, newPod, ps, a);
      }
    }

    method UpdatePod(oldPod: Pod, newPod: Pod) returns (outcome: Outcome)
      requires Kept()
      modifies this, nodes.Values
      ensures Kept() && Result(St(), outcome) == Update(old(St()), oldPod, newPod)
      ensures old(Valid()) && oldPod.uid == newPod.uid ==> Valid()
      ensures fresh(nodes.Values - old(nodes.Values))
    {
      ghost var s := Keeps(Op.UpdatePod(oldPod, newPod));
      if oldPod.uid == "" || oldPod.uid !in pods || oldPod.uid in assumed {
        return Failed;
      }
      if pods[oldPod.uid].pod.nodeName != newPod.nodeName {
        return Fatal;
      }
      outcome := Replace(oldPod.uid, oldPod, newPod, pods[oldPod.uid].(pod := newPod), assumed);
      Now(s);
    }

    /** AddNode and UpdateNode; `decodes` tells whether SetNode can read the node's annotations. If it cannot, the entry
        has moved to the head without a new generation. */
    method SetNode(node: Node, decodes: bool) returns (outcome: Outcome)
      requires Kept()
      modifies this, nodes.Values
      ensures Listed() && fresh(nodes.Values - old(nodes.Values))
      ensures decodes ==> Kept() && (old(Valid()) ==> Valid()) && outcome == Done && St() == WithNode(old(St()), node)
      ensures !decodes ==> outcome == Failed && St() == WithFailedNode(old(St()), node)
      ensures !decodes ==> (Kept() <==> node.name !in old(St()).infos || old(order)[0] == node.name)
    {
      assert node.name in nodes ==> node.name in St().infos;
      if decodes {
        ghost var s := Keeps(Op.SetNode(node));
        PutNode(node);
        Now(s);
        return Done;
      } else {
        FailedNodeKeepsCore(St(), node);
        PutFailedNode(node);
        return Failed;
      }
    }

    method RemoveNode(node: Node) returns (outcome: Outcome)
      requires Kept()
      modifies this, nodes.Values
      ensures Kept() && (old(Valid()) ==> Valid()) && Result(St(), outcome) == WithoutNode(old(St()), node)
      ensures fresh(nodes.Values - old(nodes.Values))
    {
      ghost var s := Keeps(Op.RemoveNode(node));
      outcome := Unset(node);
      Now(s);
    }

    method Unset(node: Node) returns (outcome: Outcome)
      requires Listed() && ListInv(St())
      modifies this, nodes.Values
      ensures Listed() && Result(St(), outcome) == WithoutNode(old(St()), node)
      ensures fresh(nodes.Values - old(nodes.Values))
    {
      if node.name !in nodes {
        return Failed;
      }
      var info := nodes[node.name].info;
      assert info == St().infos[node.name];
      KeepOrDrop(node.name, info.(node := None));
      return Done;
    }

    /** moveNodeInfoToHead, and then the change of the entry. */
    method ChangeAtHead(name: string, info: Info)
      requires Listed() && NewOrListed(nodes, order, items, name) && name in nodes
      modifies this`head, this`order, this`items, nodes.Values
      ensures order == [name] + Minus(old(order), name) && generation == old(generation)
      ensures Listed() && Entries(nodes) == old(Entries(nodes))[name := info]
      ensures nodes == old(nodes) && pods == old(pods) && assumed == old(assumed)
    {
      MoveNodeInfoToHead(name);
      SetEntry(nodes[name], info, nodes, name);
    }

    method PutNode(node: Node)
      requires Listed() && (node.name in nodes ==> node.name in order)
      modifies this`nodes, this`head, this`order, this`items, this`generation, nodes.Values
      ensures Listed() && St() == WithNode(old(St()), node) && fresh(nodes.Values - old(nodes.Values))
    {
      ghost var s := St();
      GetOrCreate(node.name);
      ghost var mid := Entries(nodes);
      generation := generation + 1;
      ChangeAtHead(node.name, nodes[node.name].info.(node := Some(node), generation := generation));
      WithNodeIs(s, node, mid, St());
    }

    /** The same when SetNode fails. */
    method PutFailedNode(node: Node)
      requires Listed() && (node.name in nodes ==> node.name in order)
      modifies this`nodes, this`head, this`order, this`items, this`generation, nodes.Values
      ensures Listed() && St() == WithFailedNode(old(St()), node) && fresh(nodes.Values - old(nodes.Values))
    {
      ghost var s := St();
      GetOrCreate(node.name);
      ghost var mid := Entries(nodes);
      ChangeAtHead(node.name, nodes[node.name].info.(node := Some(node)));
      WithFailedNodeIs(s, node, mid, St());
    }

    /** One turn of cleanupAssumedPods: the pod has a record, and a deadline if its binding has finished. */
    method ExpirePod(uid: string, now: int) returns (outcome: Outcome)
      requires Kept() && uid in assumed
      modifies this, nodes.Values
      ensures Kept() && (old(Valid()) ==> Valid()) && Result(St(), outcome) == Expire(old(St()), uid, now)
      ensures fresh(nodes.Values - old(nodes.Values))
    {
      ghost var s := Keeps(Op.ExpirePod(uid, now));
      outcome := DropOverdue(uid, now);
      Now(s);
    }

    method DropOverdue(uid: string, now: int) returns (outcome: Outcome)
      requires Kept() && uid in assumed
      modifies this, nodes.Values
      ensures Listed() && Result(St(), outcome) == Expire(old(St()), uid, now)
      ensures fresh(nodes.Values - old(nodes.Values))
    {
      CleanupIsSafe(St(), uid, now);
      var ps := pods[uid];
      outcome := Done;
      if ps.bindingFinished && now > ps.deadline.value {
        outcome := Drop(uid, ps.pod);
      }
    }

    method TakeTurn(uid: string, now: int, ghost s: State, ghost turns: seq<string>, ghost left: set<string>)
        returns (outcome: Outcome)
      requires Kept() && left <= s.assumed && uid in left && Turns(turns, s.assumed - left)
      requires St() == ExpireAll(s, turns, now)
      modifies this, nodes.Values
      ensures Kept() && (old(Valid()) ==> Valid() && outcome == Done) && fresh(nodes.Values - old(nodes.Values))
      ensures outcome == Expire(ExpireAll(s, turns, now), uid, now).outcome
      ensures St() == ExpireAll(s, turns + [uid], now) && Turns(turns + [uid], s.assumed - (left - {uid}))
    {
      NextTurn(s, turns, now, left, uid);
      if Inv(St()) {
        ExpireKeeps(St(), uid, now);
      }
      outcome := ExpirePod(uid, now);
    }

    /** cleanupAssumedPods: a turn for each assumed pod, in an order that Go leaves open. A turn that fails is skipped;
        one in which removePod dereferences nil, which no valid cache has, ends it. */
    method CleanupAssumedPods(now: int) returns (outcome: Outcome, ghost turns: seq<string>)
      requires Kept()
      modifies this, nodes.Values
      ensures Kept() && St() == ExpireAll(old(St()), turns, now)
      ensures outcome != Fatal ==> Turns(turns, old(assumed))
      ensures old(Valid()) ==> Valid() && outcome == Done
      ensures old(Valid()) ==> pods == old(pods) - Lapsed(old(St()), old(assumed), now)
      ensures old(Valid()) ==> assumed == old(assumed) - Lapsed(old(St()), old(assumed), now)
    {
      ghost var s, valid := St(), Valid();
      var left := assumed;
      outcome, turns := Done, [];
      while left != {}
        invariant Kept() && (valid ==> Valid()) && outcome == Done
        invariant left <= s.assumed && fresh(nodes.Values - old(nodes.Values))
        invariant St() == ExpireAll(s, turns, now) && Turns(turns, s.assumed - left)
        decreases |left|
      {
        var uid :| uid in left;
        var o := TakeTurn(uid, now, s, turns, left);
        left, turns := left - {uid}, turns + [uid];
        if o == Fatal {
          outcome := Fatal;
          return;
        }
      }
      assert s.assumed - left == s.assumed;
      if valid {
        ExpireAllRemoves(s, turns, now, s.assumed);
      }
    }

    /** Whether or not the list is in order. */
    method UpdateNodeInfoSnapshot(snap: NodeInfoSnapshot)
      requires Listed() && NodesNamed(St().infos)
      modifies snap
      ensures snap.Value() == WalkRefreshed(old(St()), old(snap.Value()))
      ensures ListInv(old(St())) ==> snap.Value() == Refreshed(old(St()), old(snap.Value()))
    {
      ghost var s, was := St(), snap.Value();
      ItemsMirror();
      if ListInv(s) {
        WalkIsEnough(s, was);
      }
      Refresh(head, nodes.Keys, snap, items, s);
    }

    lemma ItemsMirror()
      requires Listed() && NodesNamed(St().infos)
      ensures Mirrors(St(), items) && Linked(head, items)
      ensures nodes.Keys == St().infos.Keys
    {
      forall i | 0 <= i < |items| ensures Mirrored(St(), order[i], items[i].info) {
        assert order[i] in St().infos;
      }
    }
  }
}
