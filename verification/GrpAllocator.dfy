/** The allocator itself: GrpAllocator of device-scheduler/grpalloc/grpallocate.go, with the three maps it writes as it
    explores as objects of their own, which allocators share, copy and exchange by reference. */
module GrpAllocators {
  import opened Collections
  import opened Scorer
  import opened Placement
  import opened ResourceUsage
  import opened SubGroupTable
  import opened GroupAllocation
  import opened GroupRoom

  /** A map from resources to quantities, in place. */
  class UsageTable {
    var m: Usage

    constructor (m: Usage)
      ensures this.m == m
    {
      this.m := m;
    }
  }

  /** A map from required names to the resources they are drawn from, in place. */
  class LocationTable {
    var m: map<Path, Path>

    constructor (m: map<Path, Path>)
      ensures this.m == m
    {
      this.m := m;
    }
  }

  /** The copying loop of cloneGroup and of initNodeResource. */
  method CopyUsage(t: UsageTable) returns (c: UsageTable)
    ensures fresh(c) && c.m == t.m
  {
    c := new UsageTable(map[]);
    var todo := t.m.Keys;
    while todo != {}
      invariant todo <= t.m.Keys && c.m.Keys == t.m.Keys - todo
      invariant forall k :: k in c.m ==> c.m[k] == t.m[k]
    {
      var k :| k in todo;
      todo := todo - {k};
      c.m := c.m[k := t.m[k]];
    }
  }

  method CopyLocations(t: LocationTable) returns (c: LocationTable)
    ensures fresh(c) && c.m == t.m
  {
    c := new LocationTable(map[]);
    var todo := t.m.Keys;
    while todo != {}
      invariant todo <= t.m.Keys && c.m.Keys == t.m.Keys - todo
      invariant forall k :: k in c.m ==> c.m[k] == t.m[k]
    {
      var k :| k in todo;
      todo := todo - {k};
      c.m := c.m[k := t.m[k]];
    }
  }

  /** The shared record of groups already in use, written by every branch of the exploration. */
  class UsedGroups {
    var names: set<Path>
    /** How often a batch has failed after a successful trial, in this allocation and all that it led to. */
    ghost var failures: nat

    constructor ()
      ensures names == {} && failures == 0
    {
      names, failures := {}, 0;
    }
  }

  /** A new allocator with new tables. */
  twostate predicate IsNew(new a: GrpAllocator)
    reads a
  {
    fresh(a) && fresh(a.podResource) && fresh(a.nodeResource) && fresh(a.allocateFrom)
  }

  class GrpAllocator {
    const group: Group
    const usedGroups: UsedGroups
    var isReqSubGrp: set<Path>
    var score: real
    var podResource: UsageTable
    var nodeResource: UsageTable
    var allocateFrom: LocationTable

    constructor (group: Group, usedGroups: UsedGroups, podResource: UsageTable, nodeResource: UsageTable,
                 allocateFrom: LocationTable)
      ensures this.group == group && this.usedGroups == usedGroups && score == 0.0
      ensures this.podResource == podResource && this.nodeResource == nodeResource && this.allocateFrom == allocateFrom
    {
      this.group, this.usedGroups := group, usedGroups;
      this.podResource, this.nodeResource, this.allocateFrom := podResource, nodeResource, allocateFrom;
      score, isReqSubGrp := 0.0, {};
    }

    ghost function St(): State
      reads this, podResource, nodeResource, allocateFrom
    {
      State(podResource.m, nodeResource.m, allocateFrom.m)
    }

    /** Each table is the one there was, or a new one. */
    twostate predicate SameOrNew()
      reads this
    {
      && (podResource == old(podResource) || fresh(podResource))
      && (nodeResource == old(nodeResource) || fresh(nodeResource))
      && (allocateFrom == old(allocateFrom) || fresh(allocateFrom))
    }

    twostate predicate SameTables()
      reads this
    {
      podResource == old(podResource) && nodeResource == old(nodeResource) && allocateFrom == old(allocateFrom)
    }

    /** Plain quantities, within capacity. */
    ghost predicate Good()
      reads this, nodeResource
    {
      group.task.Plain() && group.task.WithinCapacity(nodeResource.m)
    }

    /** If all was good, all is, and no batch has failed. */
    twostate predicate StaysGood()
      reads this, nodeResource, usedGroups
    {
      old(Good()) ==> Good() && usedGroups.failures == old(usedGroups.failures)
    }

    /** The two usage tables are different objects. */
    ghost predicate Apart()
      reads this
    {
      podResource != nodeResource
    }

    /** createSubGroup: a shallow copy, so that the sub group has the very tables of the enclosing group. */
    method CreateSubGroup(location: string, subReq: SubGroups, subAlloc: SubGroups, g: string, i: string)
        returns (sub: GrpAllocator)
      requires group.Valid() && location in group.alloc
      requires IsSubGroups(group.reqBase, group.required, subReq)
      requires IsSubGroups(group.allocPrefix + [location], group.alloc[location], subAlloc)
      requires g in subReq && i in subReq[g]
      ensures fresh(sub) && sub.group.Valid() && sub.usedGroups == usedGroups && sub.score == 0.0
      ensures sub.podResource == podResource && sub.nodeResource == nodeResource && sub.allocateFrom == allocateFrom
      ensures IsSubGroup(group, location, g, i, sub.group) && sub.group.required != {}
    {
      var alloc := if g in subAlloc then subAlloc[g] else map[];
      var sg := Group(group.task, subReq[g][i], alloc, group.reqBase + [g, i], group.allocPrefix + [location, g]);
      SubGroupIsValid(group, location, subReq, subAlloc, g, i, sg);
      sub := new GrpAllocator(sg, usedGroups, podResource, nodeResource, allocateFrom);
    }

    /** cloneGroup: tables of its own with equal contents. */
    method CloneGroup() returns (c: GrpAllocator)
      ensures IsNew(c) && c.Apart() && c.group == group && c.usedGroups == usedGroups
      ensures c.isReqSubGrp == isReqSubGrp && c.score == score && c.St() == St()
    {
      var from := CopyLocations(allocateFrom);
      var pod := CopyUsage(podResource);
      var node := CopyUsage(nodeResource);
      c := new GrpAllocator(group, usedGroups, pod, node, from);
      c.isReqSubGrp, c.score := isReqSubGrp, score;
    }

    /** takeGroup: from here on the two allocators have the same tables. */
    method TakeGroup(o: GrpAllocator)
      modifies this`allocateFrom, this`podResource, this`nodeResource, this`score
      ensures podResource == old(o.podResource) && nodeResource == old(o.nodeResource) &&
              allocateFrom == old(o.allocateFrom)
      ensures St() == old(o.St()) && score == old(o.score)
    {
      allocateFrom, podResource, nodeResource, score := o.allocateFrom, o.podResource, o.nodeResource, o.score;
    }

    /** resetGroup: usage and score go back to the restore point, the chosen locations stay. */
    method ResetGroup(restorePoint: GrpAllocator)
      modifies this`podResource, this`nodeResource, this`score
      ensures podResource == old(restorePoint.podResource) && nodeResource == old(restorePoint.nodeResource)
      ensures St() == State(old(restorePoint.podResource.m), old(restorePoint.nodeResource.m), old(allocateFrom.m))
      ensures score == old(restorePoint.score)
    {
      podResource, nodeResource, score := restorePoint.podResource, restorePoint.nodeResource, restorePoint.score;
    }

    method TakeLeaf(location: string, n: Path) returns (found: bool)
      requires group.Valid() && n in group.required && Apart()
      modifies podResource, nodeResource, allocateFrom
      ensures found ==> group.LeafTaken(location, n, old(St()), St())
      ensures !found ==> St() == old(St())
      ensures group.task.Plain() && group.reqBase <= n && group.HasRoom(location, n, old(nodeResource.m)) ==> found
    {
      var globalName := group.LeafName(location, n);
      if globalName !in group.At(location) {
        return false;
      }
      var scoreFn := if n in group.task.reqScorer then group.task.reqScorer[n] else group.task.allocScorer(globalName);
      var r := CallScorer(scoreFn, group.task.allocatable[globalName], Lookup(podResource.m, globalName),
                          Lookup(nodeResource.m, globalName), [group.task.required[n]], group.task.initContainer);
      TotalOne(group.task.required[n]);
      if !r.found {
        return false;
      }
      podResource.m := podResource.m[globalName := r.usedByPod];
      nodeResource.m := nodeResource.m[globalName := r.usedByNode];
      allocateFrom.m := allocateFrom.m[n := globalName];
      return true;
    }

    /** resourceAvailable: test and take, one by one, the group's own resources at `location`. */
    method ResourceAvailable(location: string) returns (found: bool)
      requires group.Valid() && location in group.alloc && isReqSubGrp == SubNames(group.reqBase, group.required) &&
               Apart()
      modifies podResource, nodeResource, allocateFrom
      ensures AgreesOutside(old(allocateFrom.m), allocateFrom.m, group.Leaves())
      ensures KeepsCapacity(group.task, old(St()), St())
      ensures found ==> group.PlacedAt(location, group.Leaves(), allocateFrom.m)
      ensures found ==> group.task.Stepwise(group.Leaves(), old(St()), St())
      ensures group.LeavesFit(location, old(nodeResource.m)) ==> found
    {
      found := true;
      var todo := group.required;
      ghost var done: set<Path>, start, s := {}, St(), St();
      while todo != {}
        invariant todo <= group.required && done == group.Leaves() - todo && s == St()
        invariant Taking(group, location, done, start, s, found)
      {
        var n :| n in todo;
        if n !in isReqSubGrp {
          var available := TakeLeaf(location, n);
          TakingStep(group, location, done, start, s, St(), found, n, available);
          found := found && available;
          done, s := done + {n}, St();
        }
        todo := todo - {n};
      }
      assert done == group.Leaves();
      if found {
        LeavesPlaced(group, location, allocateFrom.m);
      }
    }

    /** findScoreAndUpdate, first half: the requests against each allocatable resource under the chosen locations. */
    method CollectRequests() returns (found: bool, requested: map<Path, seq<int>>)
      requires group.Valid()
      ensures Collected(group.task, allocateFrom.m, group.required, requested)
      ensures found <==> forall n :: n in group.required ==>
              n in allocateFrom.m && allocateFrom.m[n] in group.task.allocatable
    {
      found, requested := true, map[];
      var todo := group.required;
      ghost var done: set<Path> := {};
      while todo != {}
        invariant todo <= group.required && done == group.required - todo
        invariant Collected(group.task, allocateFrom.m, done, requested)
        invariant found <==> forall n :: n in done ==>
                  n in allocateFrom.m && allocateFrom.m[n] in group.task.allocatable
      {
        var n :| n in todo;
        todo := todo - {n};
        CollectStep(group.task, allocateFrom.m, done, requested, n);
        if n in allocateFrom.m && allocateFrom.m[n] in group.task.allocatable {
          var k := allocateFrom.m[n];
          requested := requested[k := Requests(requested, k) + [group.task.required[n]]];
        } else {
          found := false;
        }
        done := done + {n};
      }
      assert done == group.required;
    }

    /** The scorer of `key`, and the state once its usage is taken over, if it finds room. */
    method CallKeyScorer(key: Path, requests: seq<int>) returns (r: ScoreResult, ghost t: State)
      requires key in group.task.allocatable
      ensures t == if r.found then State(St().pod[key := r.usedByPod], St().node[key := r.usedByNode], St().from)
                   else St()
      ensures r.found ==> group.Charged(key, Total(requests), St(), t) && r.score == KeyScore(group.task, t, key)
      ensures group.task.allocScorer(key).LeftoverScoreFunc? ==> r.found == RoomFor(group, key, Total(requests), St())
      ensures group.task.Plain() && Lookup(nodeResource.m, key) + Total(requests) <= group.task.allocatable[key]
              ==> r.found
      ensures forall m :: m != key ==> group.Unmoved(m, St(), t)
    {
      r := CallScorer(group.task.allocScorer(key), group.task.allocatable[key], Lookup(podResource.m, key),
                      Lookup(nodeResource.m, key), requests, group.task.initContainer);
      ghost var s := St();
      t := State(s.pod[key := r.usedByPod], s.node[key := r.usedByNode], s.from);
      KeyCharged(group, key, requests, s, r, t);
      KeyScored(group, key, requests, s, r, t);
      t := if r.found then t else s;
    }

    method ScoreKey(key: Path, requests: seq<int>) returns (found: bool)
      requires key in group.task.allocatable && Apart()
      modifies podResource, nodeResource, this`score
      ensures found ==> group.Charged(key, Total(requests), old(St()), St())
      ensures !found ==> St() == old(St())
      ensures allocateFrom.m == old(allocateFrom.m) && forall m :: m != key ==> group.Unmoved(m, old(St()), St())
      ensures group.task.allocScorer(key).LeftoverScoreFunc? ==>
              found == RoomFor(group, key, Total(requests), old(St()))
      ensures group.task.Plain() && Lookup(old(nodeResource.m), key) + Total(requests) <= group.task.allocatable[key]
              ==> found
      ensures found ==> score == old(score) + KeyScore(group.task, St(), key)
    {
      var r, t := CallKeyScorer(key, requests);
      found := r.found;
      if found {
        score := score + r.score;
        podResource.m := podResource.m[key := r.usedByPod];
        nodeResource.m := nodeResource.m[key := r.usedByNode];
      }
      assert St() == t;
    }

    /** findScoreAndUpdate: recompute usage in one batch from the chosen locations, and score the group. A batch that
        fails has charged the plain quantities that had room. */
    method FindScoreAndUpdate(location: string) returns (found: bool)
      requires group.Valid() && Apart()
      modifies podResource, nodeResource, this`score
      ensures allocateFrom.m == old(allocateFrom.m) && Attempted(group, group.At(location), old(St()), St())
      ensures found ==> group.Batched(group.At(location), old(St()), St())
      ensures found ==> forall n :: n in group.required ==>
              n in allocateFrom.m && allocateFrom.m[n] in group.task.allocatable
      ensures group.Counts(location) ==> (found <==> group.BatchFits(location, old(St())))
      ensures found ==> Scored(group, location, St(), score)
    {
      var total, requested := CollectRequests();
      score := 0.0;
      ghost var start := St();
      found := ScoreAll(location, requested, total);
      if found {
        ScoredAll(group, location, start, St(), score);
        if group.Counts(location) {
          BatchHadRoom(group, location, start, St());
        }
      }
      if group.At(location) != {} {
        score := score / |group.At(location)| as real;
      }
    }

    /** findScoreAndUpdate for locations that were chosen before; it writes into the tables the caller gave it. */
    method Recheck(location: string) returns (found: bool)
      requires group.Valid() && Apart()
      modifies podResource, nodeResource, this`score
      ensures allocateFrom.m == old(allocateFrom.m) && Attempted(group, group.At(location), old(St()), St())
      ensures found ==> group.Batched(group.At(location), old(St()), St())
      ensures found ==> forall n :: n in group.required ==> n in allocateFrom.m
      ensures group.Counts(location) ==> (found <==> group.BatchFits(location, old(St())))
      ensures found ==> Scored(group, location, St(), score)
    {
      found := FindScoreAndUpdate(location);
    }

    /** findScoreAndUpdate, second half: score the resources at `location` one by one. */
    method ScoreAll(location: string, requested: map<Path, seq<int>>, total: bool) returns (found: bool)
      requires group.Valid() && score == 0.0 && Collected(group.task, allocateFrom.m, group.required, requested) &&
               Apart()
      modifies podResource, nodeResource, this`score
      ensures allocateFrom.m == old(allocateFrom.m) && Attempted(group, group.At(location), old(St()), St())
      ensures found ==> total && Summed(group, group.At(location), old(St()), St(), score)
      ensures total && group.Counts(location) && group.BatchFits(location, old(St())) ==> found
    {
      found := total;
      var todo := group.At(location);
      ghost var done: set<Path>, start := {}, St();
      while todo != {}
        invariant todo <= group.At(location) && done == group.At(location) - todo && allocateFrom.m == start.from
        invariant Scoring(group, location, done, start, St(), score, total, found)
      {
        var key :| key in todo;
        todo := todo - {key};
        found := ScoreNext(location, key, requested, total, found, done, start);
        done := done + {key};
      }
      assert done == group.At(location);
    }

    /** One turn of that loop. */
    method ScoreNext(location: string, key: Path, requested: map<Path, seq<int>>, total: bool, found: bool,
                     ghost done: set<Path>, ghost start: State)
        returns (found': bool)
      requires group.Valid() && Apart() && key in group.At(location) && key !in done && allocateFrom.m == start.from
      requires Collected(group.task, allocateFrom.m, group.required, requested)
      requires Scoring(group, location, done, start, St(), score, total, found)
      modifies podResource, nodeResource, this`score
      ensures allocateFrom.m == start.from && Scoring(group, location, done + {key}, start, St(), score, total, found')
    {
      ghost var s, before := St(), score;
      var available := ScoreKey(key, Requests(requested, key));
      ScoringStep(group, location, done, start, s, St(), before, score, key, total, found, available);
      found' := found && available;
    }

    method AllocateSubGroup(location: string, subReq: SubGroups, subAlloc: SubGroups, g: string, i: string)
        returns (found: bool, ghost sg: Group, ghost j: string)
      requires group.Valid() && location in group.alloc && Apart()
      requires IsSubGroups(group.reqBase, group.required, subReq)
      requires IsSubGroups(group.allocPrefix + [location], group.alloc[location], subAlloc)
      requires g in subReq && i in subReq[g]
      modifies this`allocateFrom, this`podResource, this`nodeResource, this`score, usedGroups
      ensures IsSubGroup(group, location, g, i, sg) && sg.required != {}
      ensures found ==> sg.Allocated(j, old(St()), St())
      ensures !found ==> St() == old(St())
      ensures sg.Roomy(old(nodeResource.m)) ==> found
      ensures SameOrNew() && Apart() && StaysGood()
      ensures Marked(group.allocPrefix + [location], old(usedGroups.names), usedGroups.names)
      decreases group.Reach(), 0
    {
      var sub := CreateSubGroup(location, subReq, subAlloc, g, i);
      sg := sub.group;
      SubGroupReachesLess(group, location, g, i, sg);
      ghost var was := usedGroups.names;
      found, j := AllocateAndTake(sub);
      MarkedBelow(group.allocPrefix, location, g, was, usedGroups.names);
    }

    /** allocateGroup for a sub group, and takeGroup if that works. */
    method AllocateAndTake(sub: GrpAllocator) returns (found: bool, ghost j: string)
      requires sub != this && sub.group.Valid() && sub.group.task == group.task && sub.group.required != {}
      requires sub.usedGroups == usedGroups && Apart()
      requires sub.podResource == podResource && sub.nodeResource == nodeResource && sub.allocateFrom == allocateFrom
      modifies this`allocateFrom, this`podResource, this`nodeResource, this`score, sub, usedGroups
      ensures found ==> sub.group.Allocated(j, old(St()), St())
      ensures !found ==> St() == old(St())
      ensures sub.group.Roomy(old(nodeResource.m)) && old(sub.score) <= 0.0 ==> found
      ensures SameOrNew() && Apart() && StaysGood()
      ensures Marked(sub.group.allocPrefix, old(usedGroups.names), usedGroups.names)
      decreases sub.group.Reach(), 10
    {
      assert sub.Good() == Good();
      found, j := sub.Allocate();
      if found {
        TakeGroup(sub);
      }
    }

    /** allocateSubGroups: place every required sub group below `location`, one after the other. */
    method AllocateSubGroups(location: string, subReq: SubGroups, subAlloc: SubGroups) returns (found: bool)
      requires group.Valid() && location in group.alloc && Apart()
      requires IsSubGroups(group.reqBase, group.required, subReq)
      requires IsSubGroups(group.allocPrefix + [location], group.alloc[location], subAlloc)
      modifies this`allocateFrom, this`podResource, this`nodeResource, this`score, usedGroups
      ensures SameOrNew() && Apart() && StaysGood()
      ensures Marked(group.allocPrefix + [location], old(usedGroups.names), usedGroups.names)
      ensures AgreesOutside(old(allocateFrom.m), allocateFrom.m, SubNames(group.reqBase, group.required))
      ensures found ==> group.PlacedAt(location, SubNames(group.reqBase, group.required), allocateFrom.m)
      ensures found ==> group.task.Stepwise(SubNames(group.reqBase, group.required), old(St()), St())
      ensures Instances(subReq) == {} ==> found
      ensures group.RoomyFor(location, Unfinished(group, Instances(subReq)), old(nodeResource.m)) ==> found
      decreases group.Reach(), 2
    {
      found := true;
      var todo := Instances(subReq);
      ghost var start := St();
      PlacingStarts(group, location, subReq, start);
      while todo != {}
        invariant todo <= Instances(subReq) && SameOrNew() && Apart() && StaysGood()
        invariant Marked(group.allocPrefix + [location], old(usedGroups.names), usedGroups.names)
        invariant Placing(group, location, todo, start, St(), found)
        invariant Instances(subReq) == {} ==> found
        invariant group.RoomyFor(location, Unfinished(group, Instances(subReq)), start.node) ==>
                    found && group.RoomyFor(location, Unfinished(group, todo), nodeResource.m)
      {
        var gi :| gi in todo;
        ghost var names := usedGroups.names;
        found := PlaceNext(location, subReq, subAlloc, gi, found, todo, start);
        MarkedTwice(group.allocPrefix + [location], old(usedGroups.names), names, usedGroups.names);
        todo := todo - {gi};
      }
      PlacingEnds(group, location, subReq, start, St(), found);
    }

    /** One turn of that loop. */
    method PlaceNext(location: string, subReq: SubGroups, subAlloc: SubGroups, gi: (string, string), found: bool,
                     ghost todo: set<(string, string)>, ghost start: State)
        returns (found': bool)
      requires group.Valid() && location in group.alloc && Apart()
      requires IsSubGroups(group.reqBase, group.required, subReq)
      requires IsSubGroups(group.allocPrefix + [location], group.alloc[location], subAlloc)
      requires gi in todo && gi in Instances(subReq) && Placing(group, location, todo, start, St(), found)
      modifies this`allocateFrom, this`podResource, this`nodeResource, this`score, usedGroups
      ensures SameOrNew() && Apart() && Placing(group, location, todo - {gi}, start, St(), found') && StaysGood()
      ensures Marked(group.allocPrefix + [location], old(usedGroups.names), usedGroups.names)
      ensures found && group.RoomyFor(location, Unfinished(group, todo), old(nodeResource.m)) ==>
                found' && group.RoomyFor(location, Unfinished(group, todo - {gi}), nodeResource.m)
      decreases group.Reach(), 1
    {
      ghost var s := St();
      var foundSubGrp, sub, j := AllocateSubGroup(location, subReq, subAlloc, gi.0, gi.1);
      PlacingStep(group, location, subReq, todo, gi, sub, j, start, s, St(), found, foundSubGrp);
      found' := found && foundSubGrp;
      if found && group.RoomyFor(location, Unfinished(group, todo), s.node) {
        SubGroupIsRoomy(group, location, gi, sub, todo, subReq, s.node);
        OthersStayRoomy(group, location, gi, sub, j, todo, subReq, s, St());
      }
    }

    /** allocateGroupAt, first phase: take resources step by step, leaves first and then sub groups. */
    method Trial(location: string, subReq: SubGroups) returns (found: bool)
      requires group.Valid() && location in group.alloc
      requires IsSubGroups(group.reqBase, group.required, subReq)
      requires isReqSubGrp == SubNames(group.reqBase, group.required) && Apart()
      modifies this`allocateFrom, this`podResource, this`nodeResource, this`score, usedGroups, podResource,
               nodeResource, allocateFrom
      ensures SameOrNew() && StaysGood()
      ensures Marked(group.allocPrefix + [location], old(usedGroups.names), usedGroups.names)
      ensures found ==> group.Tried(location, old(St()), St())
      ensures group.FlatFits(location, old(nodeResource.m)) ==> found
      ensures group.RoomyFor(location, group.required, old(nodeResource.m)) ==> found
      decreases group.Reach(), 3
    {
      var subAlloc, _ := FindSubGroups(group.allocPrefix + [location], group.alloc[location]);
      ghost var start := St();
      if SubNames(group.reqBase, group.required) == {} {
        NoInstances(group.reqBase, group.required, subReq);
      }
      RoomyLeavesFit(group, location, start.node);
      var foundRes := ResourceAvailable(location);
      ghost var taken := St();
      if foundRes {
        RoomyForSubGroups(group, location, subReq, start, taken);
      }
      assert old(Good()) ==> Good();
      var foundNext := AllocateSubGroups(location, subReq, subAlloc);
      found := foundRes && foundNext;
      if found {
        WholeGroup(group, location, start, taken, St());
      }
    }

    /** allocateGroupAt: a trial, then, from the restore point, one batch over the locations the trial chose.
        `trial` tells whether the first phase succeeded and `tried` is the usage it left. */
    method AllocateGroupAt(location: string, subReq: SubGroups)
        returns (found: bool, ghost trial: bool, ghost tried: State)
      requires group.Valid() && location in group.alloc
      requires IsSubGroups(group.reqBase, group.required, subReq)
      requires isReqSubGrp == SubNames(group.reqBase, group.required) && Apart()
      modifies this`allocateFrom, this`podResource, this`nodeResource, this`score, usedGroups, podResource,
               nodeResource, allocateFrom
      ensures SameOrNew() && StaysGood()
      ensures Marked(group.allocPrefix + [location], old(usedGroups.names), usedGroups.names)
      ensures found ==> Apart()
      ensures found ==> trial && group.Allocated(location, old(St()), St())
      ensures found ==> Scored(group, location, St(), score)
      ensures group.task.Plain() && old(group.task.WithinCapacity(nodeResource.m)) && trial ==>
              found && SameUsage(tried, St())
      ensures group.FlatFits(location, old(nodeResource.m)) ==> trial
      ensures group.RoomyFor(location, group.required, old(nodeResource.m)) ==> trial
      decreases group.Reach(), 4
    {
      ghost var start := St();
      var restorePoint := CloneGroup();
      found := Trial(location, subReq);
      trial, tried := found, St();
      if found {
        found := Batch(location, restorePoint, start);
      }
    }

    /** allocateGroupAt, second phase. */
    method Batch(location: string, restorePoint: GrpAllocator, ghost start: State) returns (found: bool)
      requires group.Valid() && location in group.alloc && restorePoint != this && restorePoint.St() == start
      requires group.Tried(location, start, St()) && restorePoint.Apart()
      requires restorePoint.podResource != podResource && restorePoint.podResource != nodeResource
      requires restorePoint.nodeResource != podResource && restorePoint.nodeResource != nodeResource
      modifies this`podResource, this`nodeResource, this`score, restorePoint.podResource, restorePoint.nodeResource
      modifies usedGroups`failures
      ensures usedGroups.failures == old(usedGroups.failures) + if found then 0 else 1
      ensures podResource == restorePoint.podResource && nodeResource == restorePoint.nodeResource && Apart()
      ensures found ==> group.Allocated(location, start, St()) && Scored(group, location, St(), score)
      ensures group.task.Plain() && group.task.WithinCapacity(start.node) ==>
                found && SameUsage(old(St()), St()) && Good()
    {
      ghost var tried := St();
      ResetGroup(restorePoint);
      TrialMakesBatchFit(group, location, start, tried);
      ghost var restored := St();
      found := FindScoreAndUpdate(location);
      if found {
        BatchedFrom(group, group.At(location), start, restored, St());
        TrialAndBatch(group, location, start, tried, St());
      } else {
        usedGroups.failures := usedGroups.failures + 1;
      }
    }

    method TryLocation(location: string, subReq: SubGroups) returns (check: GrpAllocator, found: bool)
      requires group.Valid() && location in group.alloc
      requires IsSubGroups(group.reqBase, group.required, subReq)
      requires isReqSubGrp == SubNames(group.reqBase, group.required)
      modifies usedGroups
      ensures IsNew(check) && StaysGood()
      ensures Marked(group.allocPrefix + [location], old(usedGroups.names), usedGroups.names)
      ensures found ==> check.Apart() && group.Allocated(location, St(), check.St())
      ensures found ==> Scored(group, location, check.St(), check.score)
      ensures Fitting(group, location, St()) ==> found
      decreases group.Reach(), 5
    {
      check := CloneGroup();
      assert check.Good() == Good();
      var fits, _, _ := check.AllocateGroupAt(location, subReq);
      found := fits;
    }

    /** allocateGroup: try every location on a clone and keep the best. No table that existed before is written, whether
        a place is found or not: the usage of a placed group is in new tables. */
    method AllocateGroup() returns (found: bool, ghost tried: seq<Outcome>, ghost at: Option<nat>, ghost isUsed: bool)
      requires group.Valid() && Apart()
      modifies this, usedGroups
      ensures !found || group.required == {} ==> SameTables() && St() == old(St())
      ensures found && group.required != {} ==> fresh(podResource) && fresh(nodeResource) && fresh(allocateFrom)
      ensures Apart() && StaysGood()
      ensures group.required != {} ==>
                Ranked(group, old(score), group.alloc.Keys, old(St()), old(usedGroups.names), tried, at)
      ensures group.required != {} ==> Recalls(tried, at, old(score), found, isUsed, score, St())
      ensures Marked(group.allocPrefix, old(usedGroups.names), usedGroups.names)
      ensures found && group.required != {} ==> group.allocPrefix + [tried[at.value].location] in usedGroups.names
      ensures group.required == {} ==> found && score == old(score)
      ensures group.Roomy(old(nodeResource.m)) && old(score) <= 0.0 ==> found
      decreases group.Reach(), 8
    {
      if group.required == {} {
        return true, [], None, false;
      }
      var subReq;
      subReq, isReqSubGrp := FindSubGroups(group.reqBase, group.required);
      ghost var start, floor, names := St(), score, usedGroups.names;
      found, tried, at, isUsed := Choose(subReq);
      if group.Roomy(start.node) && floor <= 0.0 {
        RoomyIsChosen(group, floor, start, names, tried, at);
      }
    }

    /** allocateGroup, for a group that requires something. */
    method Choose(subReq: SubGroups)
        returns (found: bool, ghost tried: seq<Outcome>, ghost at: Option<nat>, ghost isUsed: bool)
      requires group.Valid() && Apart() && IsSubGroups(group.reqBase, group.required, subReq)
      requires isReqSubGrp == SubNames(group.reqBase, group.required)
      modifies this`allocateFrom, this`podResource, this`nodeResource, this`score, usedGroups
      ensures !found ==> SameTables() && St() == old(St())
      ensures found ==> fresh(podResource) && fresh(nodeResource) && fresh(allocateFrom)
      ensures Apart() && StaysGood()
      ensures Ranked(group, old(score), group.alloc.Keys, old(St()), old(usedGroups.names), tried, at)
      ensures Recalls(tried, at, old(score), found, isUsed, score, St())
      ensures Marked(group.allocPrefix, old(usedGroups.names), usedGroups.names)
      ensures found ==> group.allocPrefix + [tried[at.value].location] in usedGroups.names
      decreases group.Reach(), 7, 2
    {
      ghost var start, floor, was := St(), score, usedGroups.names;
      var best, name;
      found, best, name, isUsed, tried, at := FindBest(subReq);
      ghost var t := best.St();
      RecalledKeepsCapacity(group, floor, group.alloc.Keys, start, was, tried, at, found, isUsed, best.score, t);
      Adopt(best, found, name, was, if found then tried[at.value].location else "");
      assert St() == t;
    }

    /** allocateGroup, for a caller to whom the choice does not matter. */
    method Allocate() returns (found: bool, ghost location: string)
      requires group.Valid() && Apart()
      modifies this, usedGroups
      ensures !found || group.required == {} ==> SameTables() && St() == old(St())
      ensures SameOrNew() && Apart() && StaysGood()
      ensures Marked(group.allocPrefix, old(usedGroups.names), usedGroups.names)
      ensures found && group.required != {} ==>
                group.Allocated(location, old(St()), St()) && Scored(group, location, St(), score)
      ensures group.required == {} ==> found && score == old(score)
      ensures group.Roomy(old(nodeResource.m)) && old(score) <= 0.0 ==> found
      decreases group.Reach(), 9
    {
      ghost var start, used := St(), usedGroups.names;
      var fits, tried, at, _ := AllocateGroup();
      found, location := fits, "";
      if found && group.required != {} {
        location := tried[at.value].location;
        assert Genuine(group, start, used, tried[at.value]);
      }
    }

    /** The end of allocateGroup. */
    method Adopt(best: GrpAllocator, found: bool, name: Path, ghost was: set<Path>, ghost location: string)
      requires Searched(group.allocPrefix, was, usedGroups.names)
      requires found ==> name == group.allocPrefix + [location]
      modifies this`allocateFrom, this`podResource, this`nodeResource, this`score, usedGroups`names
      ensures podResource == old(best.podResource) && nodeResource == old(best.nodeResource) &&
              allocateFrom == old(best.allocateFrom)
      ensures St() == old(best.St()) && score == old(best.score)
      ensures Marked(group.allocPrefix, was, usedGroups.names) && (found ==> name in usedGroups.names)
    {
      SearchedMarks(group.allocPrefix, was, usedGroups.names, location);
      TakeGroup(best);
      if found {
        usedGroups.names := usedGroups.names + {name};
      }
    }

    /** The loop of allocateGroup. */
    method FindBest(subReq: SubGroups)
        returns (found: bool, best: GrpAllocator, name: Path, isUsed: bool, ghost tried: seq<Outcome>,
                 ghost at: Option<nat>)
      requires group.Valid() && IsSubGroups(group.reqBase, group.required, subReq)
      requires isReqSubGrp == SubNames(group.reqBase, group.required)
      modifies usedGroups
      ensures if found then IsNew(best) && best.Apart() else best == this
      ensures Ranked(group, score, group.alloc.Keys, St(), old(usedGroups.names), tried, at)
      ensures Recalls(tried, at, score, found, isUsed, best.score, best.St())
      ensures found ==> name == group.allocPrefix + [tried[at.value].location]
      ensures StaysGood() && Searched(group.allocPrefix, old(usedGroups.names), usedGroups.names)
      decreases group.Reach(), 7, 1
    {
      found, best, name, isUsed, tried, at := false, this, [], false, [], None;
      var todo := group.alloc.Keys;
      ghost var start, t, names := St(), St(), usedGroups.names;
      while todo != {}
        invariant todo <= group.alloc.Keys && St() == start && best.St() == t
        invariant if found then IsNew(best) && best.Apart() else best == this
        invariant Ranked(group, score, group.alloc.Keys - todo, start, names, tried, at)
        invariant Recalls(tried, at, score, found, isUsed, best.score, t)
        invariant NamesChoice(group, tried, at, name)
        invariant StaysGood() && Searched(group.allocPrefix, names, usedGroups.names)
      {
        var location :| location in todo;
        todo := todo - {location};
        assert group.alloc.Keys - todo - {location} == group.alloc.Keys - (todo + {location});
        found, best, name, isUsed, tried, at, t :=
            Turn(location, subReq, found, best, name, isUsed, group.alloc.Keys - todo, names, tried, at, start, t);
      }
    }

    /** One turn of that loop. */
    method Turn(location: string, subReq: SubGroups, found: bool, best: GrpAllocator, name: Path, isUsed: bool,
                ghost locs: set<string>, ghost names: set<Path>, ghost tried: seq<Outcome>, ghost at: Option<nat>,
                ghost start: State, ghost t: State)
        returns (found': bool, best': GrpAllocator, name': Path, isUsed': bool, ghost tried': seq<Outcome>,
                 ghost at': Option<nat>, ghost t': State)
      requires group.Valid() && IsSubGroups(group.reqBase, group.required, subReq) && location in group.alloc
      requires isReqSubGrp == SubNames(group.reqBase, group.required) && St() == start && location in locs
      requires Ranked(group, score, locs - {location}, start, names, tried, at)
      requires Recalls(tried, at, score, found, isUsed, best.score, t) && best.St() == t
      requires NamesChoice(group, tried, at, name)
      requires Searched(group.allocPrefix, names, usedGroups.names)
      modifies usedGroups
      ensures if best' == best then found' == found else found' && IsNew(best') && best'.Apart()
      ensures Ranked(group, score, locs, start, names, tried', at')
      ensures Recalls(tried', at', score, found', isUsed', best'.score, t') && best'.St() == t'
      ensures NamesChoice(group, tried', at', name')
      ensures StaysGood() && Searched(group.allocPrefix, names, usedGroups.names)
      decreases group.Reach(), 7, 0
    {
      found', best', name', isUsed', t' := found, best, name, isUsed, t;
      var takesOver, check, used;
      takesOver, check, used, tried', at' :=
          Consider(location, subReq, isUsed, best.score, locs, names, tried, at, found, start, t);
      if takesOver {
        found', best', name', isUsed', t' := true, check, group.allocPrefix + [location], used, check.St();
      }
    }

    /** A location is tried on a clone: is it the best so far? */
    method Consider(location: string, subReq: SubGroups, isUsed: bool, score: real, ghost locs: set<string>,
                    ghost names: set<Path>, ghost tried: seq<Outcome>, ghost at: Option<nat>, ghost found: bool,
                    ghost start: State, ghost t: State)
        returns (takesOver: bool, check: GrpAllocator, used: bool, ghost tried': seq<Outcome>, ghost at': Option<nat>)
      requires group.Valid() && IsSubGroups(group.reqBase, group.required, subReq) && location in group.alloc
      requires isReqSubGrp == SubNames(group.reqBase, group.required) && St() == start && location in locs
      requires Ranked(group, this.score, locs - {location}, start, names, tried, at)
      requires Recalls(tried, at, this.score, found, isUsed, score, t)
      requires Searched(group.allocPrefix, names, usedGroups.names)
      modifies usedGroups
      ensures IsNew(check) && (takesOver ==> check.Apart())
      ensures Ranked(group, this.score, locs, start, names, tried', at')
      ensures takesOver ==> Recalls(tried', at', this.score, true, used, check.score, check.St())
      ensures !takesOver ==> Recalls(tried', at', this.score, found, isUsed, score, t)
      ensures tried < tried' && at' == if takesOver then Some(|tried|) else at
      ensures takesOver ==> tried'[|tried|].location == location
      ensures StaysGood() && Searched(group.allocPrefix, names, usedGroups.names)
      decreases group.Reach(), 6
    {
      var fits;
      ghost var before := usedGroups.names;
      check, fits := TryLocation(location, subReq);
      SearchedStep(group.allocPrefix, names, before, usedGroups.names, location);
      used := group.allocPrefix + [location] in usedGroups.names;
      SearchedTells(group.allocPrefix, names, usedGroups.names, location);
      takesOver := fits && TakesOver(group.task.preferUsed, isUsed, score, used, check.score);
      ghost var o := Outcome(location, fits, used, check.score, check.St());
      RankedStep(group, this.score, locs, start, names, tried, at, found, isUsed, score, t, o);
      tried', at' := tried + [o], if takesOver then Some(|tried|) else at;
    }
  }
}
