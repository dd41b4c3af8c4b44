/** The totals that the cache's NodeInfos keep beside their pods (kube-scheduler/pkg/internal/cache/cache.go on top of
    kube-scheduler/pkg/nodeinfo/node_info.go). A NodeInfo adds what a pod requests when the pod comes, and subtracts
    what the version of the pod that it is handed requests when the pod goes. `w` is any one figure that is summed. */
module CacheTotals {
  import opened Collections
  import opened NodeInfoList
  import opened CacheState

  type Figures = map<string, int>

  ghost function PodsAt(infos: map<string, Info>, n: string): seq<Pod> {
    if n in infos then infos[n].pods else []
  }

  function Weight(pods: seq<Pod>, w: Pod -> int): int {
    if pods == [] then 0 else Weight(pods[..|pods| - 1], w) + w(pods[|pods| - 1])
  }

  /** The total of an entry is the sum over its pods. */
  ghost predicate TotalAt(infos: map<string, Info>, total: Figures, n: string, w: Pod -> int) {
    Lookup(total, n) == Weight(PodsAt(infos, n), w)
  }

  ghost predicate Totals(infos: map<string, Info>, total: Figures, w: Pod -> int) {
    forall n :: TotalAt(infos, total, n, w)
  }

  /** The version of a pod that an entry holds. */
  ghost function Version(pods: seq<Pod>, uid: string): Pod
    requires Holds(pods, uid)
  {
    var i :| 0 <= i < |pods| && pods[i].uid == uid;
    pods[i]
  }

  // ---- What an operation takes off an entry, and puts on one ----

  ghost predicate MovesTo(s: State, pod: Pod) {
    pod.uid in s.pods && pod.uid in s.assumed && s.pods[pod.uid].pod.nodeName != pod.nodeName
  }

  /** The pod is on record for the node that is given with it. */
  ghost predicate KnownAt(s: State, pod: Pod, n: string) {
    pod.uid != "" && pod.uid in s.pods && s.pods[pod.uid].pod.nodeName == n
  }

  /** The version of a pod that the operation hands to NodeInfo.RemovePod, and that is found there. */
  ghost function TakesOff(s: State, op: Op): Option<Pod> {
    match op
    case ForgetPod(pod) => if KnownAt(s, pod, pod.nodeName) && pod.uid in s.assumed then Some(pod) else None
    case AddPod(pod) => if pod.uid != "" && MovesTo(s, pod) then Some(s.pods[pod.uid].pod) else None
    case UpdatePod(oldPod, newPod) =>
      if KnownAt(s, oldPod, oldPod.nodeName) && oldPod.uid !in s.assumed && newPod.nodeName == oldPod.nodeName then
        Some(oldPod)
      else None
    case RemovePod(pod) =>
      if KnownAt(s, pod, pod.nodeName) && pod.uid !in s.assumed then Some(s.pods[pod.uid].pod) else None
    case ExpirePod(uid, now) => if uid in s.assumed && Overdue(s, uid, now) then Some(s.pods[uid].pod) else None
    case _ => None
  }

  /** And the one that it hands to NodeInfo.AddPod. */
  ghost function PutsOn(s: State, op: Op): Option<Pod> {
    match op
    case AssumePod(pod) => if pod.uid != "" && pod.uid !in s.pods then Some(pod) else None
    case AddPod(pod) => if pod.uid != "" && (pod.uid !in s.pods || MovesTo(s, pod)) then Some(pod) else None
    case UpdatePod(_, newPod) => if TakesOff(s, op).Some? then Some(newPod) else None
    case _ => None
  }

  ghost function AfterOff(s: State, off: Option<Pod>): State {
    if off.Some? then WithoutPod(s, off.value).state else s
  }

  ghost function AfterOn(s: State, on: Option<Pod>): State {
    if on.Some? then WithPod(s, on.value) else s
  }

  /** A pod that is taken off was there. */
  lemma OffIsThere(s: State, op: Op)
    requires Inv(s) && TakesOff(s, op).Some?
    ensures var p := TakesOff(s, op).value; On(s.infos, p.nodeName, p.uid) && WithoutPod(s, p).outcome == Done
  {
    var p := TakesOff(s, op).value;
    var uid := if op.ExpirePod? then op.uid else if op.UpdatePod? then op.oldPod.uid else op.pod.uid;
    assert StateOk(uid, s.pods[uid], uid in s.assumed);
    assert p.uid == uid && uid in Places(s.pods) && Places(s.pods)[uid] == p.nodeName;
    WithoutPodKeeps(s, p, Places(s.pods));
  }

  /** Only these two change the pods of an entry. */
  lemma StepMovesPods(s: State, op: Op)
    requires Inv(s) && !op.SetNode? && !op.RemoveNode?
    ensures Step(s, op).state.infos == AfterOn(AfterOff(s, TakesOff(s, op)), PutsOn(s, op)).infos
  {
    if TakesOff(s, op).Some? {
      OffIsThere(s, op);
    }
    match op
    case UpdatePod(oldPod, newPod) => UpdateMovesPods(s, oldPod, newPod);
    case AddPod(pod) => AddMovesPods(s, pod);
    case _ =>
  }

  lemma AddMovesPods(s: State, pod: Pod)
    requires Inv(s) && (TakesOff(s, AddPod(pod)).Some? ==> WithoutPod(s, s.pods[pod.uid].pod).outcome == Done)
    ensures Add(s, pod).state.infos == AfterOn(AfterOff(s, TakesOff(s, AddPod(pod))), PutsOn(s, AddPod(pod))).infos
  {
  }

  /** An update goes through exactly if it takes the old version off; otherwise it changes nothing. */
  lemma UpdateGoesThrough(s: State, oldPod: Pod, newPod: Pod)
    requires Inv(s)
    ensures Update(s, oldPod, newPod).outcome == Done <==> TakesOff(s, UpdatePod(oldPod, newPod)).Some?
    ensures Update(s, oldPod, newPod).outcome != Done ==> Update(s, oldPod, newPod).state == s
  {
    var uid, n := oldPod.uid, oldPod.nodeName;
    if uid in s.pods {
      assert On(s.infos, n, uid) <==> uid in Places(s.pods) && Places(s.pods)[uid] == n;
    }
  }

  lemma UpdateMovesPods(s: State, oldPod: Pod, newPod: Pod)
    requires Inv(s)
    ensures var op := UpdatePod(oldPod, newPod);
            Update(s, oldPod, newPod).state.infos == AfterOn(AfterOff(s, TakesOff(s, op)), PutsOn(s, op)).infos
  {
    UpdateGoesThrough(s, oldPod, newPod);
  }

  // ---- The totals ----

  ghost function Charge(total: Figures, pod: Pod, w: Pod -> int): Figures {
    total[pod.nodeName := Lookup(total, pod.nodeName) + w(pod)]
  }

  /** The total goes with its entry. */
  ghost function Release(total: Figures, pod: Pod, after: State, w: Pod -> int): Figures {
    if pod.nodeName in after.infos then total[pod.nodeName := Lookup(total, pod.nodeName) - w(pod)]
    else total - {pod.nodeName}
  }

  ghost function AfterRelease(s: State, total: Figures, off: Option<Pod>, w: Pod -> int): Figures {
    if off.Some? then Release(total, off.value, AfterOff(s, off), w) else total
  }

  ghost function AfterCharge(total: Figures, on: Option<Pod>, w: Pod -> int): Figures {
    if on.Some? then Charge(total, on.value, w) else total
  }

  /** The totals after an operation. */
  ghost function NextTotals(s: State, total: Figures, op: Op, w: Pod -> int): Figures {
    if op.RemoveNode? && op.node.name !in Step(s, op).state.infos then total - {op.node.name}
    else AfterCharge(AfterRelease(s, total, TakesOff(s, op), w), PutsOn(s, op), w)
  }

  lemma WithPodPods(s: State, pod: Pod, n: string)
    ensures PodsAt(WithPod(s, pod).infos, n) == if n == pod.nodeName then PodsAt(s.infos, n) + [pod]
                                                else PodsAt(s.infos, n)
  {
  }

  lemma WithoutPodPods(s: State, pod: Pod, n: string)
    requires WithoutPod(s, pod).outcome == Done
    ensures PodsAt(WithoutPod(s, pod).state.infos, n) ==
            if n == pod.nodeName then TakenOut(PodsAt(s.infos, n), pod.uid) else PodsAt(s.infos, n)
  {
  }

  lemma ChargedTotal(was: map<string, Info>, now: map<string, Info>, total: Figures, pod: Pod, w: Pod -> int, n: string)
    requires PodsAt(now, n) == if n == pod.nodeName then PodsAt(was, n) + [pod] else PodsAt(was, n)
    ensures TotalAt(now, Charge(total, pod, w), n, w) <==> TotalAt(was, total, n, w)
  {
    if n == pod.nodeName {
      WeightAppend(PodsAt(was, n), pod, w);
    }
  }

  lemma ChargeKeeps(s: State, total: Figures, pod: Pod, w: Pod -> int)
    ensures Totals(WithPod(s, pod).infos, Charge(total, pod, w), w) <==> Totals(s.infos, total, w)
  {
    var infos := WithPod(s, pod).infos;
    forall n ensures TotalAt(infos, Charge(total, pod, w), n, w) <==> TotalAt(s.infos, total, n, w) {
      WithPodPods(s, pod, n);
      ChargedTotal(s.infos, infos, total, pod, w, n);
    }
    SameTotals(infos, Charge(total, pod, w), s.infos, total, w);
  }

  lemma SameTotals(now: map<string, Info>, totalNow: Figures, was: map<string, Info>, total: Figures, w: Pod -> int)
    requires forall n :: TotalAt(now, totalNow, n, w) <==> TotalAt(was, total, n, w)
    ensures Totals(now, totalNow, w) <==> Totals(was, total, w)
  {
  }

  lemma WeightAppend(pods: seq<Pod>, pod: Pod, w: Pod -> int)
    ensures Weight(pods + [pod], w) == Weight(pods, w) + w(pod)
  {
    assert (pods + [pod])[..|pods|] == pods;
  }

  lemma {:induction false} WeightIsTally(pods: seq<Pod>, w: Pod -> int)
    ensures Weight(pods, w) == Tally(multiset(pods), w)
  {
    if pods != [] {
      var rest, p := pods[..|pods| - 1], pods[|pods| - 1];
      assert pods == rest + [p];
      WeightIsTally(rest, w);
      TallyAppend(rest, p, w);
    }
  }

  lemma TallyAppend(pods: seq<Pod>, p: Pod, w: Pod -> int)
    ensures Tally(multiset(pods + [p]), w) == Tally(multiset(pods), w) + w(p)
  {
    MultisetAppend(pods, p);
    TallyAdd(multiset(pods), w, p);
  }

  lemma TakenOutWeight(pods: seq<Pod>, uid: string, w: Pod -> int)
    requires Unique(pods) && Holds(pods, uid)
    ensures Weight(TakenOut(pods, uid), w) == Weight(pods, w) - w(Version(pods, uid))
  {
    var k :| 0 <= k < |pods| && pods[k].uid == uid && Version(pods, uid) == pods[k];
    TakenOutIs(pods, k);
    SwapRemovedElements(pods, k);
    WeightIsTally(pods, w);
    WeightIsTally(TakenOut(pods, uid), w);
    TallyRemove(multiset(pods), w, pods[k]);
  }

  /** The entry is there for this pod alone. */
  ghost predicate OnlyFor(info: Info) {
    info.node.None? && |info.pods| == 1
  }

  /** What is subtracted is what was added, or nothing is left to be wrong. */
  ghost predicate Matches(s: State, pod: Pod, w: Pod -> int)
    requires On(s.infos, pod.nodeName, pod.uid)
  {
    w(pod) == w(Version(s.infos[pod.nodeName].pods, pod.uid)) || OnlyFor(s.infos[pod.nodeName])
  }

  lemma EntryGoes(s: State, pod: Pod)
    requires EntryInv(s.infos) && WithoutPod(s, pod).outcome == Done
    ensures pod.nodeName !in WithoutPod(s, pod).state.infos <==> OnlyFor(s.infos[pod.nodeName])
  {
    var info := s.infos[pod.nodeName];
    assert EntryOk(pod.nodeName, info);
    var k :| 0 <= k < |info.pods| && info.pods[k].uid == pod.uid;
    TakenOutIs(info.pods, k);
  }

  lemma ReleaseKeeps(s: State, total: Figures, pod: Pod, w: Pod -> int)
    requires EntryInv(s.infos) && Totals(s.infos, total, w) && WithoutPod(s, pod).outcome == Done
    ensures var after := WithoutPod(s, pod).state;
            Totals(after.infos, Release(total, pod, after, w), w) <==> Matches(s, pod, w)
  {
    var after, n := WithoutPod(s, pod).state, pod.nodeName;
    var total' := Release(total, pod, after, w);
    forall m | m != n ensures TotalAt(after.infos, total', m, w) {
      assert TotalAt(s.infos, total, m, w);
      WithoutPodPods(s, pod, m);
    }
    ReleasedTotal(s, total, pod, w);
    assert Totals(after.infos, total', w) <==> TotalAt(after.infos, total', n, w);
  }

  lemma ReleasedTotal(s: State, total: Figures, pod: Pod, w: Pod -> int)
    requires EntryInv(s.infos) && Totals(s.infos, total, w) && WithoutPod(s, pod).outcome == Done
    ensures var after := WithoutPod(s, pod).state;
            TotalAt(after.infos, Release(total, pod, after, w), pod.nodeName, w) <==> Matches(s, pod, w)
  {
    var n, after := pod.nodeName, WithoutPod(s, pod).state;
    assert EntryOk(n, s.infos[n]) && TotalAt(s.infos, total, n, w);
    WithoutPodPods(s, pod, n);
    EntryGoes(s, pod);
    if n in after.infos {
      TakenOutWeight(s.infos[n].pods, pod.uid, w);
    }
  }

  lemma NodeKeepsTotals(s: State, total: Figures, op: Op, w: Pod -> int)
    requires Totals(s.infos, total, w) && (op.SetNode? || op.RemoveNode?)
    ensures Totals(Step(s, op).state.infos, NextTotals(s, total, op, w), w)
  {
    var infos, total' := Step(s, op).state.infos, NextTotals(s, total, op, w);
    forall n ensures TotalAt(infos, total', n, w) {
      assert TotalAt(s.infos, total, n, w) && PodsAt(infos, n) == PodsAt(s.infos, n);
    }
  }

  /** An operation keeps the totals exactly when the version it takes off requests what the version it finds does. */
  lemma StepKeepsTotals(s: State, total: Figures, op: Op, w: Pod -> int)
    requires Inv(s) && Totals(s.infos, total, w)
    ensures TakesOff(s, op).Some? ==> On(s.infos, TakesOff(s, op).value.nodeName, TakesOff(s, op).value.uid)
    ensures Totals(Step(s, op).state.infos, NextTotals(s, total, op, w), w) <==>
            (TakesOff(s, op).Some? ==> Matches(s, TakesOff(s, op).value, w))
  {
    if op.SetNode? || op.RemoveNode? {
      NodeKeepsTotals(s, total, op, w);
    } else {
      StepMovesPods(s, op);
      var off, on := TakesOff(s, op), PutsOn(s, op);
      if off.Some? {
        OffIsThere(s, op);
        ReleaseKeeps(s, total, off.value, w);
      }
      if on.Some? {
        ChargeKeeps(AfterOff(s, off), AfterRelease(s, total, off, w), on.value, w);
      }
    }
  }

  // ---- Over a run ----

  ghost predicate AsRecorded(pods: map<string, PodState>, p: Pod, w: Pod -> int) {
    p.uid in pods ==> w(p) == w(pods[p.uid].pod)
  }

  /** What the entries hold requests what the table of pods has on record. */
  ghost predicate Recorded(infos: map<string, Info>, pods: map<string, PodState>, w: Pod -> int) {
    forall n, p :: p in PodsAt(infos, n) ==> AsRecorded(pods, p, w)
  }

  /** Other pods keep their records, or lose them. */
  ghost predicate RecordsBut(now: map<string, PodState>, was: map<string, PodState>, uid: string) {
    forall u :: u in now && u != uid ==> u in was && now[u].pod == was[u].pod
  }

  lemma NotOnAny(infos: map<string, Info>, at: map<string, string>, uid: string)
    requires Tracked(infos, at) && uid !in at
    ensures forall n, p :: p in PodsAt(infos, n) ==> p.uid != uid
  {
    forall n, p | p in PodsAt(infos, n) ensures p.uid != uid {
      if p.uid == uid {
        assert On(infos, n, uid);
      }
    }
  }

  lemma WithPodRecorded(s: State, pod: Pod, was: map<string, PodState>, now: map<string, PodState>, w: Pod -> int)
    requires Recorded(s.infos, was, w) && RecordsBut(now, was, pod.uid) && pod.uid in now && now[pod.uid].pod == pod
    requires forall n, p :: p in PodsAt(s.infos, n) ==> p.uid != pod.uid
    ensures Recorded(WithPod(s, pod).infos, now, w)
  {
    forall n, p | p in PodsAt(WithPod(s, pod).infos, n) ensures AsRecorded(now, p, w) {
      WithPodPods(s, pod, n);
      assert p in PodsAt(s.infos, n) ==> AsRecorded(was, p, w);
    }
  }

  lemma {:induction false} TakenOutMembers(pods: seq<Pod>, uid: string, p: Pod)
    requires p in TakenOut(pods, uid)
    ensures p in pods
  {
    if pods != [] && pods[0].uid != uid && p != pods[0] {
      TakenOutMembers(pods[1..], uid, p);
    }
  }

  lemma WithoutPodRecorded(s: State, pod: Pod, pods: map<string, PodState>, w: Pod -> int)
    requires Recorded(s.infos, pods, w) && WithoutPod(s, pod).outcome == Done
    ensures Recorded(WithoutPod(s, pod).state.infos, pods, w)
  {
    forall n, p | p in PodsAt(WithoutPod(s, pod).state.infos, n) ensures AsRecorded(pods, p, w) {
      WithoutPodPods(s, pod, n);
      if n == pod.nodeName {
        TakenOutMembers(PodsAt(s.infos, n), pod.uid, p);
      }
      assert p in PodsAt(s.infos, n);
    }
  }

  /** AddPod for an assumed pod that is where it was assumed to be: the record changes, the entry does not. */
  ghost predicate Confirms(s: State, op: Op) {
    && op.AddPod? && op.pod.uid in s.pods && op.pod.uid in s.assumed
    && s.pods[op.pod.uid].pod.nodeName == op.pod.nodeName
  }

  lemma ConfirmKeepsRecord(s: State, op: Op, w: Pod -> int)
    requires Inv(s) && Recorded(s.infos, s.pods, w) && Confirms(s, op)
    ensures var s' := Step(s, op).state;
            Recorded(s'.infos, s'.pods, w) <==> w(op.pod) == w(s.pods[op.pod.uid].pod)
  {
    var s', uid := Step(s, op).state, op.pod.uid;
    assert StateOk(uid, s.pods[uid], true);
    assert On(s.infos, op.pod.nodeName, uid) by {
      assert uid in Places(s.pods) && Places(s.pods)[uid] == op.pod.nodeName;
    }
    var i :| 0 <= i < |s.infos[op.pod.nodeName].pods| && s.infos[op.pod.nodeName].pods[i].uid == uid;
    var v := s.infos[op.pod.nodeName].pods[i];
    assert v in PodsAt(s.infos, op.pod.nodeName) && AsRecorded(s.pods, v, w);
    if w(op.pod) == w(s.pods[uid].pod) {
      forall n, p | p in PodsAt(s'.infos, n) ensures AsRecorded(s'.pods, p, w) {
        assert AsRecorded(s.pods, p, w);
      }
    } else {
      assert v in PodsAt(s'.infos, op.pod.nodeName) && !AsRecorded(s'.pods, v, w);
    }
  }

  ghost predicate OnRecord(on: Option<Pod>, now: map<string, PodState>, was: map<string, PodState>) {
    if on.Some? then
      RecordsBut(now, was, on.value.uid) && on.value.uid in now && now[on.value.uid].pod == on.value
    else forall u :: u in now ==> u in was && now[u].pod == was[u].pod
  }

  /** A pod that is put on goes on record; no other record changes, except through a confirmation. */
  lemma StepRecords(s: State, op: Op)
    requires Inv(s) && Proper(op) && !Confirms(s, op)
    ensures OnRecord(PutsOn(s, op), Step(s, op).state.pods, s.pods)
  {
    if TakesOff(s, op).Some? {
      OffIsThere(s, op);
    }
    match op
    case UpdatePod(oldPod, newPod) => UpdateRecords(s, oldPod, newPod);
    case AddPod(pod) => AddRecords(s, pod);
    case _ =>
  }

  lemma AddRecords(s: State, pod: Pod)
    requires Inv(s) && !Confirms(s, AddPod(pod))
    requires TakesOff(s, AddPod(pod)).Some? ==> WithoutPod(s, s.pods[pod.uid].pod).outcome == Done
    ensures OnRecord(PutsOn(s, AddPod(pod)), Add(s, pod).state.pods, s.pods)
  {
  }

  lemma UpdateRecords(s: State, oldPod: Pod, newPod: Pod)
    requires Inv(s) && oldPod.uid == newPod.uid
    ensures OnRecord(PutsOn(s, UpdatePod(oldPod, newPod)), Update(s, oldPod, newPod).state.pods, s.pods)
  {
    UpdateGoesThrough(s, oldPod, newPod);
    if Update(s, oldPod, newPod).outcome == Done {
      RecordReplaced(s.pods, oldPod.uid, s.pods[oldPod.uid].(pod := newPod));
    }
  }

  lemma RecordReplaced(pods: map<string, PodState>, uid: string, ps: PodState)
    requires ps.pod.uid == uid
    ensures OnRecord(Some(ps.pod), pods[uid := ps], pods)
  {
  }

  lemma MoveKeepsRecord(s: State, op: Op, w: Pod -> int)
    requires Inv(s) && Recorded(s.infos, s.pods, w) && Proper(op) && !Confirms(s, op) && !op.SetNode? && !op.RemoveNode?
    ensures var s' := Step(s, op).state; Recorded(s'.infos, s'.pods, w)
  {
    var off, on := TakesOff(s, op), PutsOn(s, op);
    var t, infos, now := AfterOff(s, off), Step(s, op).state.infos, Step(s, op).state.pods;
    StepMovesPods(s, op);
    StepRecords(s, op);
    if off.Some? {
      OffIsThere(s, op);
      WithoutPodRecorded(s, off.value, s.pods, w);
    }
    if on.Some? {
      NotThereBefore(s, op);
      WithPodRecorded(t, on.value, s.pods, now, w);
    } else {
      FewerRecords(t.infos, s.pods, now, w);
    }
  }

  lemma FewerRecords(infos: map<string, Info>, was: map<string, PodState>, now: map<string, PodState>, w: Pod -> int)
    requires Recorded(infos, was, w) && forall u :: u in now ==> u in was && now[u].pod == was[u].pod
    ensures Recorded(infos, now, w)
  {
    forall n, p | p in PodsAt(infos, n) ensures AsRecorded(now, p, w) {
      assert AsRecorded(was, p, w);
    }
  }

  /** A pod that is put on an entry is on none. */
  lemma NotThereBefore(s: State, op: Op)
    requires Inv(s) && Proper(op) && PutsOn(s, op).Some?
    ensures forall n, p :: p in PodsAt(AfterOff(s, TakesOff(s, op)).infos, n) ==> p.uid != PutsOn(s, op).value.uid
  {
    var off, on := TakesOff(s, op), PutsOn(s, op).value;
    if off.Some? {
      OffIsThere(s, op);
      assert StateOk(on.uid, s.pods[on.uid], on.uid in s.assumed);
      assert On(s.infos, off.value.nodeName, off.value.uid);
      WithoutPodKeeps(s, off.value, Places(s.pods));
      NotOnAny(AfterOff(s, off).infos, Places(s.pods) - {on.uid}, on.uid);
    } else {
      NotOnAny(s.infos, Places(s.pods), on.uid);
    }
  }

  lemma NodeKeepsRecord(s: State, op: Op, w: Pod -> int)
    requires Recorded(s.infos, s.pods, w) && (op.SetNode? || op.RemoveNode?)
    ensures var s' := Step(s, op).state; Recorded(s'.infos, s'.pods, w)
  {
    var s' := Step(s, op).state;
    forall n, p | p in PodsAt(s'.infos, n) ensures AsRecorded(s'.pods, p, w) {
      assert PodsAt(s'.infos, n) == PodsAt(s.infos, n);
    }
  }

  /** The record goes on to tell what the entries hold, except through a confirmation that changes what the pod
      requests. */
  lemma StepKeepsRecord(s: State, op: Op, w: Pod -> int)
    requires Inv(s) && Recorded(s.infos, s.pods, w) && Proper(op)
    ensures var s' := Step(s, op).state;
            Recorded(s'.infos, s'.pods, w) <==> (Confirms(s, op) ==> w(op.pod) == w(s.pods[op.pod.uid].pod))
  {
    if Confirms(s, op) {
      ConfirmKeepsRecord(s, op, w);
    } else if op.SetNode? || op.RemoveNode? {
      NodeKeepsRecord(s, op, w);
    } else {
      MoveKeepsRecord(s, op, w);
    }
  }

  /** What the callers owe: a version of a pod that is on record requests what the record does. */
  ghost predicate Consistent(s: State, op: Op, w: Pod -> int) {
    match op
    case ForgetPod(pod) => pod.uid in s.pods ==> w(pod) == w(s.pods[pod.uid].pod)
    case UpdatePod(oldPod, _) => oldPod.uid in s.pods ==> w(oldPod) == w(s.pods[oldPod.uid].pod)
    case AddPod(pod) => Confirms(s, op) ==> w(pod) == w(s.pods[pod.uid].pod)
    case _ => true
  }

  lemma ConsistentMatches(s: State, op: Op, w: Pod -> int)
    requires Inv(s) && Recorded(s.infos, s.pods, w) && Consistent(s, op, w) && TakesOff(s, op).Some?
    requires On(s.infos, TakesOff(s, op).value.nodeName, TakesOff(s, op).value.uid)
    ensures Matches(s, TakesOff(s, op).value, w)
  {
    var p := TakesOff(s, op).value;
    var uid := if op.ExpirePod? then op.uid else if op.UpdatePod? then op.oldPod.uid else op.pod.uid;
    assert StateOk(uid, s.pods[uid], uid in s.assumed);
    var v := Version(s.infos[p.nodeName].pods, p.uid);
    assert v in PodsAt(s.infos, p.nodeName) && AsRecorded(s.pods, v, w);
  }

  ghost predicate IsLedger(states: seq<State>, ops: seq<Op>, totals: seq<Figures>, w: Pod -> int) {
    && IsRun(states, ops) && AllProper(ops) && |totals| == |states| && totals[0] == map[]
    && forall i {:trigger ops[i]} :: 0 <= i < |ops| ==>
         Consistent(states[i], ops[i], w) && totals[i + 1] == NextTotals(states[i], totals[i], ops[i], w)
  }

  /** Whatever the cache does, every total is the sum over the pods of its entry. */
  lemma {:induction false} RunKeepsTotals(states: seq<State>, ops: seq<Op>, totals: seq<Figures>, w: Pod -> int, i: nat)
    requires IsLedger(states, ops, totals, w) && i < |states|
    ensures Totals(states[i].infos, totals[i], w) && Recorded(states[i].infos, states[i].pods, w)
  {
    if i > 0 {
      RunKeepsTotals(states, ops, totals, w, i - 1);
      RunKeepsInv(states, ops, i - 1);
      var s, op := states[i - 1], ops[i - 1];
      StepKeepsTotals(s, totals[i - 1], op, w);
      StepKeepsRecord(s, op, w);
      if TakesOff(s, op).Some? {
        ConsistentMatches(s, op, w);
      }
    }
  }

  /** A pod that is confirmed where it was assumed and then removed leaves the total right exactly if both versions
      request the same, or the entry goes with the pod. */
  lemma ConfirmThenRemove(s: State, total: Figures, pod: Pod, w: Pod -> int, s1: State, s2: State)
    requires Inv(s) && Totals(s.infos, total, w) && Recorded(s.infos, s.pods, w) && Confirms(s, AddPod(pod))
    requires s1 == Step(s, AddPod(pod)).state && s2 == Step(s1, RemovePod(pod)).state
    ensures NextTotals(s, total, AddPod(pod), w) == total && pod.nodeName in s.infos
    ensures Totals(s2.infos, NextTotals(s1, total, RemovePod(pod), w), w) <==>
            w(pod) == w(s.pods[pod.uid].pod) || OnlyFor(s.infos[pod.nodeName])
  {
    assert StateOk(pod.uid, s.pods[pod.uid], true);
    StepKeepsInv(s, AddPod(pod));
    ConfirmedPod(s, pod, s1);
    StepKeepsTotals(s1, total, RemovePod(pod), w);
    HeldAsRecorded(s, pod, w);
  }

  /** A confirmation leaves the entries alone, and the pod can then be removed. */
  lemma ConfirmedPod(s: State, pod: Pod, s1: State)
    requires Inv(s) && Confirms(s, AddPod(pod)) && pod.uid != "" && s1 == Step(s, AddPod(pod)).state
    ensures s1.infos == s.infos && TakesOff(s, AddPod(pod)).None? && PutsOn(s, AddPod(pod)).None?
    ensures TakesOff(s1, RemovePod(pod)) == Some(pod) && PutsOn(s1, RemovePod(pod)).None?
  {
  }

  /** What the entry holds of a pod on record requests what the record does. */
  lemma HeldAsRecorded(s: State, pod: Pod, w: Pod -> int)
    requires Inv(s) && Recorded(s.infos, s.pods, w) && KnownAt(s, pod, pod.nodeName)
    ensures On(s.infos, pod.nodeName, pod.uid)
    ensures w(Version(s.infos[pod.nodeName].pods, pod.uid)) == w(s.pods[pod.uid].pod)
  {
    assert pod.uid in Places(s.pods) && Places(s.pods)[pod.uid] == pod.nodeName;
    assert On(s.infos, pod.nodeName, pod.uid);
    var v := Version(s.infos[pod.nodeName].pods, pod.uid);
    assert v in PodsAt(s.infos, pod.nodeName) && AsRecorded(s.pods, v, w);
  }

  /** A pod is assumed on a known node. */
  lemma AssumedOnNode(node: Node, p: Pod, w: Pod -> int, s1: State, s2: State, total: Figures)
    requires p.uid != "" && p.nodeName == node.name && s1 == Step(EMPTY, SetNode(node)).state
    requires s2 == Step(s1, AssumePod(p)).state && total == NextTotals(s1, map[], AssumePod(p), w)
    ensures Inv(s2) && Totals(s2.infos, total, w) && Recorded(s2.infos, s2.pods, w)
    ensures p.uid in s2.pods && s2.pods[p.uid].pod == p && p.uid in s2.assumed
    ensures node.name in s2.infos && s2.infos[node.name].node == Some(node)
  {
    var states, ops := [EMPTY, s1, s2], [SetNode(node), AssumePod(p)];
    RunKeepsTotals(states, ops, [map[], map[], total], w, 2);
    RunKeepsInv(states, ops, 2);
    assert node.name in s1.infos && s1.infos[node.name].node == Some(node);
  }

  /** On a known node the entry stays, and the total is wrong. */
  lemma ConfirmedPodBreaks(node: Node, p: Pod, q: Pod, w: Pod -> int, s1: State, s2: State, s3: State, s4: State)
    requires p.uid == q.uid != "" && p.nodeName == q.nodeName == node.name && w(p) != w(q)
    requires s1 == Step(EMPTY, SetNode(node)).state && s2 == Step(s1, AssumePod(p)).state
    requires s3 == Step(s2, AddPod(q)).state && s4 == Step(s3, RemovePod(q)).state
    ensures var total := NextTotals(s1, map[], AssumePod(p), w);
            Totals(s2.infos, total, w) && !Totals(s4.infos, NextTotals(s3, total, RemovePod(q), w), w)
  {
    var total := NextTotals(s1, map[], AssumePod(p), w);
    AssumedOnNode(node, p, w, s1, s2, total);
    ConfirmThenRemove(s2, total, q, w, s3, s4);
  }
}
