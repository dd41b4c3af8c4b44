/** NodeTree of kube-scheduler/pkg/internal/cache/node_tree.go. A node comes with its name and its zone key. */
module NodeTrees {
  import opened Collections
  import opened NodeRing

  datatype NodeArray = NodeArray(nodes: seq<string>, lastIndex: nat)

  type Zones = map<string, NodeArray>

  /** The zone arrays in the order of `zones`. */
  ghost function RingOf(tree: Zones, zones: seq<string>, zoneIndex: nat): Ring
    requires forall z :: z in zones ==> z in tree
  {
    Ring(seq(|zones|, i requires 0 <= i < |zones| => tree[zones[i]].nodes),
         seq(|zones|, i requires 0 <= i < |zones| => tree[zones[i]].lastIndex), zoneIndex)
  }

  lemma WithoutDistinct(s: seq<string>, i: nat)
    requires Distinct(s) && i < |s|
    ensures Distinct(Without(s, i)) && (set x | x in Without(s, i)) == (set x | x in s) - {s[i]}
  {
    var w := Without(s, i);
    forall x ensures x in w <==> x in s && x != s[i] {
      if x in s && x != s[i] {
        var j :| 0 <= j < |s| && s[j] == x;
        assert w[if j < i then j else j - 1] == x;
      }
      if x in w {
        var j :| 0 <= j < |w| && w[j] == x;
        assert s[if j < i then j else j + 1] == x;
      }
    }
  }

  ghost function SizeOf(nodes: map<string, seq<string>>): string -> int {
    z => if z in nodes then |nodes[z]| else 0
  }

  /** The number of nodes of all zones. */
  ghost function NodeCount(nodes: map<string, seq<string>>): int {
    Sum(nodes.Keys, SizeOf(nodes))
  }

  ghost function NodesOf(tree: Zones): map<string, seq<string>> {
    map z | z in tree :: tree[z].nodes
  }

  lemma CountUpdate(nodes: map<string, seq<string>>, z: string, s: seq<string>)
    ensures NodeCount(nodes[z := s]) == NodeCount(nodes) - SizeOf(nodes)(z) + |s|
    ensures NodeCount(nodes - {z}) == NodeCount(nodes) - SizeOf(nodes)(z)
  {
    var rest := nodes.Keys - {z};
    assert nodes[z := s].Keys == rest + {z} && (nodes - {z}).Keys == rest;
    SumCongruence(rest, SizeOf(nodes), SizeOf(nodes[z := s]));
    SumCongruence(rest, SizeOf(nodes), SizeOf(nodes - {z}));
    SumAdd(rest, SizeOf(nodes[z := s]), z);
    if z in nodes {
      SumRemove(nodes.Keys, SizeOf(nodes), z);
    } else {
      assert rest == nodes.Keys;
    }
  }

  /** numNodes is the length of a sweep. */
  lemma {:induction false} CountIsTotal(tree: Zones, zones: seq<string>, zoneIndex: nat)
    requires Distinct(zones) && forall z :: z in zones ==> z in tree
    ensures Count(RingOf(tree, zones, zoneIndex)) == Sum((set z | z in zones), SizeOf(NodesOf(tree)))
    decreases zones
  {
    if zones != [] {
      var n := |zones| - 1;
      var init, f := zones[..n], SizeOf(NodesOf(tree));
      CountIsTotal(tree, init, zoneIndex);
      assert Sizes(RingOf(tree, zones, zoneIndex).nodes)[..n] == Sizes(RingOf(tree, init, zoneIndex).nodes);
      assert (set z | z in zones) == (set z | z in init) + {zones[n]};
      SumAdd((set z | z in init), f, zones[n]);
    }
  }

  /** The contents with a node added to a zone. */
  ghost function Added(nodes: map<string, seq<string>>, zone: string, name: string): map<string, seq<string>> {
    if zone !in nodes then nodes[zone := [name]]
    else if name in nodes[zone] then nodes
    else nodes[zone := nodes[zone] + [name]]
  }

  /** The contents with a node taken out of a zone; a zone left without nodes goes too. */
  ghost predicate IsRemoved(nodes: map<string, seq<string>>, nodes': map<string, seq<string>>, zone: string,
                            name: string)
    requires zone in nodes && name in nodes[zone]
  {
    exists i :: 0 <= i < |nodes[zone]| && nodes[zone][i] == name &&
                nodes' == if |nodes[zone]| == 1 then nodes - {zone} else nodes[zone := Without(nodes[zone], i)]
  }

  /** `zones` lists the zones without repetition, no zone is empty or repeats a node, and `numNodes` counts
      the nodes. */
  ghost predicate Sound(tree: Zones, zones: seq<string>, numNodes: int) {
    && Distinct(zones) && tree.Keys == (set z | z in zones)
    && (forall z :: z in tree ==> tree[z].nodes != [] && Distinct(tree[z].nodes))
    && numNodes == NodeCount(NodesOf(tree))
  }

  lemma ZoneChanged(tree: Zones, zones: seq<string>, numNodes: int, zone: string, na: NodeArray)
    requires Sound(tree, zones, numNodes) && zone in tree && na.nodes != [] && Distinct(na.nodes)
    ensures NodesOf(tree[zone := na]) == NodesOf(tree)[zone := na.nodes]
    ensures Sound(tree[zone := na], zones, numNodes - |tree[zone].nodes| + |na.nodes|)
  {
    assert NodesOf(tree[zone := na]) == NodesOf(tree)[zone := na.nodes];
    CountUpdate(NodesOf(tree), zone, na.nodes);
  }

  lemma NodeTakenOut(tree: Zones, zones: seq<string>, numNodes: int, zone: string, i: nat)
    requires Sound(tree, zones, numNodes) && zone in tree && 1 < |tree[zone].nodes| && i < |tree[zone].nodes|
    ensures var na := tree[zone].(nodes := Without(tree[zone].nodes, i));
            Sound(tree[zone := na], zones, numNodes - 1) && NodesOf(tree[zone := na]) == NodesOf(tree)[zone := na.nodes]
  {
    WithoutDistinct(tree[zone].nodes, i);
    ZoneChanged(tree, zones, numNodes, zone, tree[zone].(nodes := Without(tree[zone].nodes, i)));
  }

  lemma ZoneAdded(tree: Zones, zones: seq<string>, numNodes: int, zone: string, name: string)
    requires Sound(tree, zones, numNodes) && zone !in tree
    ensures NodesOf(tree[zone := NodeArray([name], 0)]) == NodesOf(tree)[zone := [name]]
    ensures Sound(tree[zone := NodeArray([name], 0)], zones + [zone], numNodes + 1)
  {
    assert NodesOf(tree[zone := NodeArray([name], 0)]) == NodesOf(tree)[zone := [name]];
    assert zone !in zones;
    CountUpdate(NodesOf(tree), zone, [name]);
  }

  lemma ZoneRemoved(tree: Zones, zones: seq<string>, numNodes: int, at: nat)
    requires Sound(tree, zones, numNodes) && at < |zones|
    ensures NodesOf(tree - {zones[at]}) == NodesOf(tree) - {zones[at]}
    ensures Sound(tree - {zones[at]}, Without(zones, at), numNodes - |tree[zones[at]].nodes|)
  {
    assert NodesOf(tree - {zones[at]}) == NodesOf(tree) - {zones[at]};
    WithoutDistinct(zones, at);
    CountUpdate(NodesOf(tree), zones[at], []);
  }

  lemma RingTake(tree: Zones, zones: seq<string>, zoneIndex: nat, z: nat)
    requires Distinct(zones) && (forall x :: x in zones ==> x in tree) && z < |zones|
    ensures var na := tree[zones[z]];
            var tree', r := tree[zones[z] := na.(lastIndex := na.lastIndex + 1)], RingOf(tree, zones, zoneIndex);
            && NodesOf(tree') == NodesOf(tree)
            && RingOf(tree', zones, z + 1) == Ring(r.nodes, r.last[z := r.last[z] + 1], z + 1)
  {
  }

  lemma RingReset(tree: Zones, zones: seq<string>, zoneIndex: nat)
    requires forall x :: x in zones ==> x in tree
    ensures var tree' := map z | z in tree :: tree[z].(lastIndex := 0);
            NodesOf(tree') == NodesOf(tree) && RingOf(tree', zones, 0) == RingOf(tree, zones, zoneIndex).Reset()
  {
  }

  /** append(s[:i], s[i+1:]...) in place: the elements after `i` move one to the left, the last cell keeps its value. */
  method Shift(a: array<string>, i: nat, length: nat)
    requires i < length <= a.Length
    modifies a
    ensures a[..length - 1] == Without(old(a[..length]), i)
    ensures a[length - 1..] == old(a[length - 1..])
  {
    ghost var s := a[..];
    for j := i to length - 1
      invariant a[..j] == s[..i] + s[i + 1..j + 1] && a[j..] == s[j..]
    {
      a[j] := a[j + 1];
    }
    assert s[..length] == old(a[..length]);
    assert a[..length - 1] == Without(s[..length], i);
  }

  /** The loop of removeZone. It goes on over the array it deletes from, at the length it had at first, and shifts the
      later zones left under its own feet; this deletes the zone and nothing else because no zone is there twice. */
  method DeleteGoingOn(a: array<string>, zone: string, ghost at: nat) returns (length: nat)
    requires Distinct(a[..]) && at < a.Length && a[at] == zone
    modifies a
    ensures length == a.Length - 1 && a[..length] == Without(old(a[..]), at)
  {
    ghost var s := a[..];
    length := a.Length;
    for i := 0 to a.Length
      invariant i <= at ==> length == a.Length && a[..] == s
      invariant i > at ==> length == a.Length - 1 && a[..length] == Without(s, at) && a[length] == s[length]
    {
      if i > at {
        assert a[i] == if i < length then Without(s, at)[i] else s[length];
        assert a[i] == s[if i < length then i + 1 else length];
      }
      if a[i] == zone {
        assert i == at && s == a[..a.Length];
        Shift(a, i, length);
        length := length - 1;
        assert a[length..][0] == s[length..][0];
      }
    }
  }

  class NodeTree {
    var tree: Zones
    var zones: seq<string>
    var zoneIndex: nat
    var numNodes: int

    constructor ()
      ensures Valid() && tree == map[]
    {
      tree, zones, zoneIndex, numNodes := map[], [], 0, 0;
    }

    ghost predicate Valid()
      reads this
    {
      Sound(tree, zones, numNodes)
    }

    ghost function St(): Ring
      requires Valid()
      reads this
    {
      RingOf(tree, zones, zoneIndex)
    }

    /** The nodes by zone. */
    ghost function Contents(): map<string, seq<string>>
      reads this
    {
      NodesOf(tree)
    }

    method ResetExhausted()
      requires Valid()
      modifies this`tree, this`zoneIndex
      ensures Valid() && Contents() == old(Contents()) && St() == old(St()).Reset()
    {
      RingReset(tree, zones, zoneIndex);
      tree := map z | z in tree :: tree[z].(lastIndex := 0);
      zoneIndex := 0;
    }

    method AddNode(name: string, zone: string)
      requires Valid()
      modifies this
      ensures Valid() && Contents() == Added(old(Contents()), zone, name)
    {
      if zone in tree {
        var na := tree[zone];
        if name in na.nodes {
          return;
        }
        ZoneChanged(tree, zones, numNodes, zone, na.(nodes := na.nodes + [name]));
        tree := tree[zone := na.(nodes := na.nodes + [name])];
      } else {
        ZoneAdded(tree, zones, numNodes, zone, name);
        zones := zones + [zone];
        tree := tree[zone := NodeArray([name], 0)];
      }
      numNodes := numNodes + 1;
    }

    method RemoveZone(zone: string) returns (ghost at: nat)
      requires zone in tree && zone in zones && Distinct(zones)
      modifies this`tree, this`zones
      ensures tree == old(tree) - {zone}
      ensures at < |old(zones)| && old(zones)[at] == zone && zones == Without(old(zones), at)
    {
      tree := tree - {zone};
      at :| 0 <= at < |zones| && zones[at] == zone;
      var backing := new string[|zones|](i requires 0 <= i < |zones| reads this => zones[i]);
      assert backing[..] == zones;
      var length := DeleteGoingOn(backing, zone, at);
      zones := backing[..length];
    }

    /** removeNode: the first node of the zone with that name. */
    method RemoveNode(name: string, zone: string) returns (ok: bool)
      requires Valid()
      modifies this
      ensures Valid() && ok == (zone in old(Contents()) && name in old(Contents())[zone])
      ensures if ok then IsRemoved(old(Contents()), Contents(), zone, name) else Contents() == old(Contents())
    {
      if zone !in tree {
        return false;
      }
      var na := tree[zone];
      for i := 0 to |na.nodes|
        invariant name !in na.nodes[..i]
        invariant tree == old(tree) && zones == old(zones) && numNodes == old(numNodes)
      {
        if na.nodes[i] == name {
          RemoveAt(zone, i);
          return true;
        }
      }
      ok := false;
    }

    method RemoveAt(zone: string, i: nat)
      requires Valid() && zone in tree && i < |tree[zone].nodes|
      modifies this
      ensures Valid()
      ensures Contents() == if |old(Contents())[zone]| == 1 then old(Contents()) - {zone}
                            else old(Contents())[zone := Without(old(Contents())[zone], i)]
    {
      var na := tree[zone];
      if |na.nodes| == 1 {
        ghost var at := RemoveZone(zone);
        ZoneRemoved(old(tree), old(zones), numNodes, at);
      } else {
        NodeTakenOut(tree, zones, numNodes, zone, i);
        tree := tree[zone := na.(nodes := Without(na.nodes, i))];
      }
      numNodes := numNodes - 1;
    }

    /** UpdateNode: a node that changes zones is taken out of the old one, if it is there, and added to the new one. */
    method UpdateNode(name: string, oldZone: string, newZone: string)
      requires Valid()
      modifies this
      ensures Valid() && (oldZone == newZone ==> Contents() == old(Contents()))
      ensures oldZone != newZone && !(oldZone in old(Contents()) && name in old(Contents())[oldZone]) ==>
        Contents() == Added(old(Contents()), newZone, name)
      ensures oldZone != newZone && oldZone in old(Contents()) && name in old(Contents())[oldZone] ==>
        exists nodes :: IsRemoved(old(Contents()), nodes, oldZone, name) && Contents() == Added(nodes, newZone, name)
    {
      if oldZone != newZone {
        var _ := RemoveNode(name, oldZone);
        AddNode(name, newZone);
      }
    }

    /** next of the array of zone number `z`, which has an unvisited node. */
    method TakeFrom(z: nat) returns (name: string)
      requires Valid() && z < |zones| && tree[zones[z]].lastIndex < |tree[zones[z]].nodes|
      modifies this`tree, this`zoneIndex
      ensures Valid() && Contents() == old(Contents())
      ensures St() == Ring(old(St()).nodes, old(St()).last[z := old(St()).last[z] + 1], z + 1)
      ensures name == old(St()).nodes[z][old(St()).last[z]]
    {
      RingTake(tree, zones, zoneIndex, z);
      var na := tree[zones[z]];
      name := na.nodes[na.lastIndex];
      tree := tree[zones[z] := na.(lastIndex := na.lastIndex + 1)];
      zoneIndex := z + 1;
    }

    /** NumNodes is the number of visits of a sweep. */
    lemma NumNodesIsCount()
      requires Valid()
      ensures numNodes == Count(St())
    {
      CountIsTotal(tree, zones, zoneIndex);
      assert NodesOf(tree).Keys == tree.Keys;
    }

    lemma RingIsValid()
      requires Valid() && zones != []
      ensures St().Valid() && |St().nodes| == |zones|
    {
    }

    /** One round of Next: move to the next zone and ask it for a node. */
    method TryZone() returns (name: string, exhausted: bool)
      requires Valid() && zones != []
      modifies this`tree, this`zoneIndex
      ensures Valid() && Contents() == old(Contents()) && old(St()).Valid()
      ensures var c := old(St());
              var z := c.Start();
              && exhausted == !c.Live(z)
              && St() == (if exhausted then c.(zone := z + 1) else Ring(c.nodes, c.last[z := c.last[z] + 1], z + 1))
              && (!exhausted ==> name == c.nodes[z][c.last[z]])
    {
      RingIsValid();
      if zoneIndex >= |zones| {
        zoneIndex := 0;
      }
      var z := zoneIndex;
      exhausted := tree[zones[z]].lastIndex >= |tree[zones[z]].nodes|;
      if exhausted {
        name, zoneIndex := "", z + 1;
      } else {
        name := TakeFrom(z);
      }
    }

    /** One turn of the loop of Next. */
    method Search(numExhausted: nat, ghost r: Ring, ghost wasReset: bool)
        returns (name: string, exhausted: bool, ghost isReset: bool)
      requires Valid() && zones != [] && |zones| == |r.nodes| && Searching(r, St(), numExhausted, wasReset)
      modifies this`tree, this`zoneIndex
      ensures Valid() && Contents() == old(Contents())
      ensures !exhausted ==> St() == r.Next() && name == r.nodes[r.Visit().0][r.Visit().1]
      ensures exhausted ==>
                !wasReset && isReset == (numExhausted + 1 >= |zones|) && Searching(r, St(), numExhausted + 1, isReset)
    {
      SearchStep(r, St(), numExhausted, wasReset);
      name, exhausted := TryZone();
      isReset := wasReset;
      if exhausted && numExhausted + 1 >= |zones| {
        ResetExhausted();
        isReset := true;
      }
    }

    /** Next: the node the ring visits next; the loop ends because a full round over exhausted zones resets the tree. */
    method Next() returns (name: string)
      requires Valid()
      modifies this`tree, this`zoneIndex
      ensures Valid() && Contents() == old(Contents())
      ensures zones == [] ==> name == "" && tree == old(tree) && zoneIndex == old(zoneIndex)
      ensures zones != [] ==> old(St()).Valid() && St() == old(St()).Next()
      ensures zones != [] ==> name == old(St()).nodes[old(St()).Visit().0][old(St()).Visit().1]
    {
      if |zones| == 0 {
        return "";
      }
      RingIsValid();
      var numExhausted := 0;
      ghost var r, wasReset := St(), false;
      while true
        invariant Valid() && Contents() == old(Contents()) && numExhausted <= |zones| == |r.nodes|
        invariant Searching(r, St(), numExhausted, wasReset)
        decreases if wasReset then 0 else 1, |zones| - numExhausted
      {
        var exhausted;
        name, exhausted, wasReset := Search(numExhausted, r, wasReset);
        if !exhausted {
          return;
        }
        numExhausted := numExhausted + 1;
      }
    }
  }

  /** Where the loop of Next stands: `c` is the ring `r` it started from with the pointer moved past `passed` exhausted
      zones, or, with all zones exhausted, the reset ring. */
  ghost predicate Searching(r: Ring, c: Ring, passed: nat, wasReset: bool) {
    && r.Valid() && c.Valid() && c.nodes == r.nodes
    && if wasReset then c == r.Reset() && r.Find(r.Start(), |r.nodes|).None?
       else
         && passed < |r.nodes| && c.last == r.last
         && r.Find(r.Start(), |r.nodes|) == r.Find(c.Start(), |r.nodes| - passed)
  }

  lemma SearchStep(r: Ring, c: Ring, passed: nat, wasReset: bool)
    requires Searching(r, c, passed, wasReset)
    ensures c.Live(c.Start()) ==>
      && r.Next() == Ring(r.nodes, c.last[c.Start() := c.last[c.Start()] + 1], c.Start() + 1)
      && r.Visit() == (c.Start(), c.last[c.Start()])
    ensures !c.Live(c.Start()) ==>
      && !wasReset
      && var c' := c.(zone := c.Start() + 1);
         if passed + 1 < |r.nodes| then Searching(r, c', passed + 1, false)
         else Searching(r, c'.Reset(), passed + 1, true)
  {
    var z, k := c.Start(), |r.nodes| - passed;
    if wasReset {
      assert r.Reset().Live(0);
    } else if c.Live(z) {
      assert r.Live(z) && r.Find(z, k) == Some(z);
    } else {
      assert !r.Live(z) && r.Find(z, k) == r.Find(c.(zone := z + 1).Start(), k - 1);
    }
  }

  // ---- Names in several zones ----

  /** No name is in two zones. */
  ghost predicate OneZoneEach(nodes: map<string, seq<string>>) {
    forall y, z, name :: y in nodes && z in nodes && y != z ==> !(name in nodes[y] && name in nodes[z])
  }

  /** `name` is in a zone other than `zone`. */
  ghost predicate Elsewhere(nodes: map<string, seq<string>>, zone: string, name: string) {
    exists z :: z in nodes && z != zone && name in nodes[z]
  }

  lemma PlacesOf(tree: Zones, zones: seq<string>, zoneIndex: nat, p: (nat, nat))
    requires forall z :: z in zones ==> z in tree
    ensures IsPlace(RingOf(tree, zones, zoneIndex).nodes, p) <==> p.0 < |zones| && p.1 < |tree[zones[p.0]].nodes|
    ensures IsPlace(RingOf(tree, zones, zoneIndex).nodes, p) ==>
      NameAt(RingOf(tree, zones, zoneIndex).nodes, p) == tree[zones[p.0]].nodes[p.1]
  {
  }

  lemma TreeNamesDiffer(tree: Zones, zones: seq<string>, zoneIndex: nat, numNodes: int, p: (nat, nat), q: (nat, nat))
    requires Sound(tree, zones, numNodes) && OneZoneEach(NodesOf(tree)) && p != q
    requires IsPlace(RingOf(tree, zones, zoneIndex).nodes, p) && IsPlace(RingOf(tree, zones, zoneIndex).nodes, q)
    ensures NameAt(RingOf(tree, zones, zoneIndex).nodes, p) != NameAt(RingOf(tree, zones, zoneIndex).nodes, q)
  {
    PlacesOf(tree, zones, zoneIndex, p);
    PlacesOf(tree, zones, zoneIndex, q);
    var y, z := zones[p.0], zones[q.0];
    assert NodesOf(tree)[y] == tree[y].nodes && NodesOf(tree)[z] == tree[z].nodes;
    if p.0 == q.0 {
      assert Distinct(tree[y].nodes) && p.1 != q.1;
    } else {
      assert y != z && tree[y].nodes[p.1] in NodesOf(tree)[y];
      assert tree[z].nodes[q.1] in NodesOf(tree)[z];
    }
  }

  lemma RingNamesDiffer(tree: Zones, zones: seq<string>, zoneIndex: nat, numNodes: int, y: string, z: string,
                        name: string)
    requires Sound(tree, zones, numNodes) && NamesDiffer(RingOf(tree, zones, zoneIndex).nodes) && y in tree &&
             z in tree && y != z
    ensures !(name in tree[y].nodes && name in tree[z].nodes)
  {
    if name in tree[y].nodes && name in tree[z].nodes {
      var i: nat :| i < |zones| && zones[i] == y;
      var j: nat :| j < |zones| && zones[j] == z;
      var a: nat :| a < |tree[y].nodes| && tree[y].nodes[a] == name;
      var b: nat :| b < |tree[z].nodes| && tree[z].nodes[b] == name;
      PlacesOf(tree, zones, zoneIndex, (i, a));
      PlacesOf(tree, zones, zoneIndex, (j, b));
    }
  }

  /** The ring of a tree has no name at two places exactly when no name is in two zones. */
  lemma NamesDifferInTree(tree: Zones, zones: seq<string>, zoneIndex: nat, numNodes: int)
    requires Sound(tree, zones, numNodes)
    ensures NamesDiffer(RingOf(tree, zones, zoneIndex).nodes) <==> OneZoneEach(NodesOf(tree))
  {
    var nodes := RingOf(tree, zones, zoneIndex).nodes;
    if OneZoneEach(NodesOf(tree)) {
      forall p: (nat, nat), q: (nat, nat) | IsPlace(nodes, p) && IsPlace(nodes, q) && p != q
        ensures NameAt(nodes, p) != NameAt(nodes, q)
      {
        TreeNamesDiffer(tree, zones, zoneIndex, numNodes, p, q);
      }
    }
    if NamesDiffer(nodes) {
      forall y, z, name | y in tree && z in tree && y != z ensures !(name in tree[y].nodes && name in tree[z].nodes) {
        RingNamesDiffer(tree, zones, zoneIndex, numNodes, y, z, name);
      }
    }
  }

  /** Adding a node keeps each name in one zone exactly when the name is in no other zone. */
  lemma AddKeepsOneZone(nodes: map<string, seq<string>>, zone: string, name: string)
    requires OneZoneEach(nodes)
    ensures OneZoneEach(Added(nodes, zone, name)) <==> !Elsewhere(nodes, zone, name)
  {
    var nodes' := Added(nodes, zone, name);
    assert zone in nodes' && name in nodes'[zone];
    if z :| z in nodes && z != zone && name in nodes[z] {
      assert z in nodes' && nodes'[z] == nodes[z];
    }
  }

  /** Removing a node always does. */
  lemma RemoveKeepsOneZone(nodes: map<string, seq<string>>, nodes': map<string, seq<string>>, zone: string,
                           name: string)
    requires OneZoneEach(nodes) && zone in nodes && name in nodes[zone] && IsRemoved(nodes, nodes', zone, name)
    ensures OneZoneEach(nodes')
  {
    forall z, x | z in nodes' && x in nodes'[z] ensures z in nodes && x in nodes[z] {
    }
  }

  /** Updating a node does exactly when its zone stays, or it was in the zone it is said to have been in, or it is in no
      zone but the new one. */
  lemma UpdateKeepsOneZone(nodes: map<string, seq<string>>, nodes': map<string, seq<string>>,
                           mid: map<string, seq<string>>, oldZone: string, newZone: string, name: string)
    requires OneZoneEach(nodes) && forall z :: z in nodes ==> Distinct(nodes[z])
    requires oldZone == newZone ==> nodes' == nodes
    requires oldZone != newZone ==> nodes' == Added(mid, newZone, name)
    requires oldZone != newZone ==>
             if oldZone in nodes && name in nodes[oldZone] then IsRemoved(nodes, mid, oldZone, name) else mid == nodes
    ensures OneZoneEach(nodes') <==>
      oldZone == newZone || (oldZone in nodes && name in nodes[oldZone]) || !Elsewhere(nodes, newZone, name)
  {
    if oldZone != newZone {
      if oldZone in nodes && name in nodes[oldZone] {
        RemoveKeepsOneZone(nodes, mid, oldZone, name);
        GoneFromZone(nodes, mid, oldZone, name);
      }
      AddKeepsOneZone(mid, newZone, name);
    }
  }

  lemma GoneFromZone(nodes: map<string, seq<string>>, mid: map<string, seq<string>>, zone: string, name: string)
    requires OneZoneEach(nodes) && zone in nodes && name in nodes[zone] && Distinct(nodes[zone]) &&
             IsRemoved(nodes, mid, zone, name)
    ensures forall z :: z in mid ==> name !in mid[z]
  {
    var i :| 0 <= i < |nodes[zone]| && nodes[zone][i] == name &&
             mid == if |nodes[zone]| == 1 then nodes - {zone} else nodes[zone := Without(nodes[zone], i)];
    WithoutDistinct(nodes[zone], i);
    assert name !in (set x | x in Without(nodes[zone], i));
  }

  /** One name in two zones: two calls of Next in a row return the same node. */
  method SameNodeTwice() returns (n: int, x: string, y: string)
    ensures n == 2 && x == "a" && y == "a"
  {
    var t := new NodeTree();
    ghost var none := t.Contents();
    t.AddNode("a", "z1");
    t.AddNode("a", "z2");
    TwoZones(none);
    n := t.numNodes;
    x := TheName(t);
    y := TheName(t);
  }

  ghost const TWO_ZONES: map<string, seq<string>> := map["z1" := ["a"], "z2" := ["a"]]

  method TheName(t: NodeTree) returns (x: string)
    requires t.Valid() && t.Contents() == TWO_ZONES
    modifies t
    ensures t.Valid() && t.Contents() == TWO_ZONES && old(t.numNodes) == 2 && x == "a"
  {
    OnlyName(t.tree, t.zones, t.zoneIndex, t.numNodes);
    ghost var r := t.St();
    x := t.Next();
    assert IsPlace(r.nodes, r.Visit()) && x == NameAt(r.nodes, r.Visit());
  }

  lemma TwoZones(none: map<string, seq<string>>)
    requires none == map[]
    ensures Added(Added(none, "z1", "a"), "z2", "a") == TWO_ZONES && !OneZoneEach(TWO_ZONES)
  {
    assert "a" in TWO_ZONES["z1"] && "a" in TWO_ZONES["z2"];
  }

  lemma OnlyName(tree: Zones, zones: seq<string>, zoneIndex: nat, numNodes: int)
    requires Sound(tree, zones, numNodes) && NodesOf(tree) == TWO_ZONES
    ensures zones != [] && numNodes == 2
    ensures forall p: (nat, nat) :: IsPlace(RingOf(tree, zones, zoneIndex).nodes, p) ==>
            NameAt(RingOf(tree, zones, zoneIndex).nodes, p) == "a"
  {
    TwoNodes();
    assert "z1" in NodesOf(tree) && "z1" in tree && "z1" in zones;
    forall p: (nat, nat) | IsPlace(RingOf(tree, zones, zoneIndex).nodes, p)
      ensures NameAt(RingOf(tree, zones, zoneIndex).nodes, p) == "a"
    {
      PlacesOf(tree, zones, zoneIndex, p);
      assert zones[p.0] in tree && NodesOf(tree)[zones[p.0]] == ["a"];
    }
  }

  lemma TwoNodes()
    ensures NodeCount(TWO_ZONES) == 2
  {
    CountUpdate(map[], "z1", ["a"]);
    CountUpdate(map["z1" := ["a"]], "z2", ["a"]);
    assert map["z1" := ["a"]]["z2" := ["a"]] == TWO_ZONES;
  }
}
