/** Which version of each node and pod the cache of kube-scheduler/pkg/internal/cache/cache.go holds: what an operation
    was given, and until when it stays. */
module CacheVersions {
  import opened Collections
  import opened NodeInfoList
  import opened CacheState

  // ---- Nodes ----

  ghost function NodeOf(s: State, name: string): Option<Node> {
    if name in s.infos then s.infos[name].node else None
  }

  lemma PodLeavesNodes(s: State, pod: Pod, name: string)
    ensures NodeOf(WithPod(s, pod), name) == NodeOf(s, name) == NodeOf(WithoutPod(s, pod).state, name)
  {
  }

  lemma ReplaceLeavesNodes(s: State, was: Pod, pod: Pod, name: string)
    ensures NodeOf(WithPod(WithoutPod(s, was).state, pod), name) == NodeOf(s, name)
  {
    PodLeavesNodes(s, was, name);
    PodLeavesNodes(WithoutPod(s, was).state, pod, name);
  }

  /** Only AddNode, UpdateNode and RemoveNode of a node change what is known of it. */
  lemma NodeFollows(s: State, op: Op, name: string)
    ensures NodeOf(Step(s, op).state, name) ==
      match op
      case SetNode(node) => if node.name == name then Some(node) else NodeOf(s, name)
      case RemoveNode(node) => if node.name == name then None else NodeOf(s, name)
      case _ => NodeOf(s, name)
  {
    match op
    case AssumePod(pod) => PodLeavesNodes(s, pod, name);
    case FinishBinding(_, _) =>
    case ForgetPod(pod) => PodLeavesNodes(s, pod, name);
    case AddPod(pod) =>
      PodLeavesNodes(s, pod, name);
      if pod.uid in s.pods {
        PodLeavesNodes(s, s.pods[pod.uid].pod, name);
        ReplaceLeavesNodes(s, s.pods[pod.uid].pod, pod, name);
      }
    case UpdatePod(oldPod, newPod) =>
      PodLeavesNodes(s, oldPod, name);
      ReplaceLeavesNodes(s, oldPod, newPod, name);
    case RemovePod(pod) =>
      if pod.uid in s.pods { PodLeavesNodes(s, s.pods[pod.uid].pod, name); }
    case SetNode(_) =>
    case RemoveNode(_) =>
    case ExpirePod(uid, _) =>
      if uid in s.pods { PodLeavesNodes(s, s.pods[uid].pod, name); }
    case TakeGeneration =>
  }

  /** What the operations have last said of a node. */
  ghost function LastNode(ops: seq<Op>, name: string): Option<Node> {
    if ops == [] then None else
      match ops[|ops| - 1]
      case SetNode(node) => if node.name == name then Some(node) else LastNode(ops[..|ops| - 1], name)
      case RemoveNode(node) => if node.name == name then None else LastNode(ops[..|ops| - 1], name)
      case _ => LastNode(ops[..|ops| - 1], name)
  }

  /** In every run the cache has of each node what it was last told. */
  lemma {:induction false} RunKnowsNodes(states: seq<State>, ops: seq<Op>, i: nat, name: string)
    requires IsRun(states, ops) && i < |states|
    ensures NodeOf(states[i], name) == LastNode(ops[..i], name)
  {
    if i > 0 {
      RunKnowsNodes(states, ops, i - 1, name);
      NodeFollows(states[i - 1], ops[i - 1], name);
      assert states[i] == Step(states[i - 1], ops[i - 1]).state;
      assert ops[..i][..i - 1] == ops[..i - 1];
    }
  }

  // ---- Pods ----

  /** This very version of a pod is on node `n`. */
  ghost predicate HeldOn(s: State, n: string, pod: Pod) {
    n in s.infos && pod in s.infos[n].pods
  }

  lemma ArrivalHolds(s: State, pod: Pod, n: string, q: Pod)
    ensures HeldOn(WithPod(s, pod), n, q) <==> HeldOn(s, n, q) || (n == pod.nodeName && q == pod)
  {
  }

  lemma TakenOutMembers(pods: seq<Pod>, uid: string, q: Pod)
    requires Unique(pods) && Holds(pods, uid)
    ensures q in TakenOut(pods, uid) <==> q in pods && q.uid != uid
  {
    var k :| 0 <= k < |pods| && pods[k].uid == uid;
    TakenOutIs(pods, k);
    var rest := TakenOut(pods, uid);
    if q in pods && q.uid != uid {
      var i :| 0 <= i < |pods| && pods[i] == q;
      assert rest[if i == |pods| - 1 then k else i] == q;
    }
  }

  lemma DepartureHolds(s: State, pod: Pod, n: string, q: Pod)
    requires EntryInv(s.infos) && WithoutPod(s, pod).outcome == Done
    ensures HeldOn(WithoutPod(s, pod).state, n, q) <==>
            HeldOn(s, n, q) && !(n == pod.nodeName && q.uid == pod.uid)
  {
    assert EntryOk(pod.nodeName, s.infos[pod.nodeName]);
    TakenOutMembers(s.infos[pod.nodeName].pods, pod.uid, q);
  }

  /** A pod of the cache is only on the node of its record. */
  lemma HeldWhereRecorded(s: State, n: string, q: Pod)
    requires Inv(s) && HeldOn(s, n, q)
    ensures q.uid in s.pods && s.pods[q.uid].pod.nodeName == n
  {
    var i :| 0 <= i < |s.infos[n].pods| && s.infos[n].pods[i] == q;
    assert On(s.infos, n, q.uid);
  }

  /** Where a pod is dropped from its node, no version of it is left anywhere. */
  lemma DroppedHolds(s: State, pod: Pod, n: string, q: Pod)
    requires Inv(s) && WithoutPod(s, pod).outcome == Done
    requires pod.uid in s.pods && s.pods[pod.uid].pod.nodeName == pod.nodeName
    ensures HeldOn(WithoutPod(s, pod).state, n, q) <==> HeldOn(s, n, q) && q.uid != pod.uid
  {
    DepartureHolds(s, pod, n, q);
    if HeldOn(s, n, q) {
      HeldWhereRecorded(s, n, q);
    }
  }

  lemma ReplacedHolds(s: State, was: Pod, pod: Pod, n: string, q: Pod)
    requires Inv(s) && WithoutPod(s, was).outcome == Done
    requires was.uid in s.pods && s.pods[was.uid].pod.nodeName == was.nodeName
    ensures HeldOn(WithPod(WithoutPod(s, was).state, pod), n, q) <==>
            (HeldOn(s, n, q) && q.uid != was.uid) || (n == pod.nodeName && q == pod)
  {
    DroppedHolds(s, was, n, q);
    ArrivalHolds(WithoutPod(s, was).state, pod, n, q);
  }

  lemma NotYetHeld(s: State, uid: string, n: string, q: Pod)
    requires Inv(s) && uid !in s.pods && q.uid == uid
    ensures !HeldOn(s, n, q)
  {
    if HeldOn(s, n, q) {
      HeldWhereRecorded(s, n, q);
    }
  }

  /** AddPod puts the given version on its node, unless it confirms an assumed pod where it is or is refused. */
  lemma AddHolds(s: State, pod: Pod, n: string, q: Pod)
    requires Inv(s)
    ensures var arrives := pod.uid != "" &&
                           (pod.uid !in s.pods ||
                            (pod.uid in s.assumed && s.pods[pod.uid].pod.nodeName != pod.nodeName));
      HeldOn(Add(s, pod).state, n, q) <==>
      if arrives && q.uid == pod.uid then n == pod.nodeName && q == pod else HeldOn(s, n, q)
  {
    if pod.uid in s.pods {
      var was := s.pods[pod.uid].pod;
      assert StateOk(pod.uid, s.pods[pod.uid], pod.uid in s.assumed);
      WithoutPodKeeps(s, was, Places(s.pods));
      ReplacedHolds(s, was, pod, n, q);
    } else {
      ArrivalHolds(s, pod, n, q);
      if q.uid == pod.uid {
        NotYetHeld(s, pod.uid, n, q);
      }
    }
  }

  lemma UpdateHolds(s: State, oldPod: Pod, newPod: Pod, n: string, q: Pod)
    requires Inv(s) && Update(s, oldPod, newPod).outcome == Done
    ensures HeldOn(Update(s, oldPod, newPod).state, n, q) <==>
            (HeldOn(s, n, q) && q.uid != oldPod.uid) || (n == newPod.nodeName && q == newPod)
  {
    assert On(s.infos, oldPod.nodeName, oldPod.uid);
    assert oldPod.uid in Places(s.pods) && Places(s.pods)[oldPod.uid] == oldPod.nodeName;
    ReplacedHolds(s, oldPod, newPod, n, q);
  }

  lemma UntrackHolds(s: State, pod: Pod, n: string, q: Pod)
    requires Inv(s) && pod.uid in s.pods && s.pods[pod.uid].pod.nodeName == pod.nodeName
    ensures HeldOn(Untrack(s, pod.uid, pod).state, n, q) <==> HeldOn(s, n, q) && q.uid != pod.uid
    ensures pod.uid !in Untrack(s, pod.uid, pod).state.pods
  {
    assert StateOk(pod.uid, s.pods[pod.uid], pod.uid in s.assumed);
    WithoutPodKeeps(s, pod, Places(s.pods));
    DroppedHolds(s, pod, n, q);
  }

  lemma NodeHolds(s: State, node: Node, n: string, q: Pod)
    ensures HeldOn(WithNode(s, node), n, q) <==> HeldOn(s, n, q)
    ensures HeldOn(WithoutNode(s, node).state, n, q) <==> HeldOn(s, n, q)
  {
  }

  lemma AssumeHolds(s: State, pod: Pod, n: string, q: Pod)
    requires Inv(s) && pod.uid !in s.pods && pod.uid != ""
    ensures HeldOn(Assume(s, pod).state, n, q) <==>
            if q.uid == pod.uid then n == pod.nodeName && q == pod else HeldOn(s, n, q)
  {
    ArrivalHolds(s, pod, n, q);
    if q.uid == pod.uid {
      NotYetHeld(s, pod.uid, n, q);
    }
  }

  /** Which versions are on which node after an operation: an assumed, added or updated pod as it was given, a pod that
      leaves the cache nowhere, any other as before. */
  lemma HeldFollows(s: State, op: Op, n: string, q: Pod)
    requires Inv(s)
    ensures HeldOn(Step(s, op).state, n, q) <==>
      match op
      case AssumePod(pod) =>
        if q.uid == pod.uid && q.uid != "" && q.uid !in s.pods then n == pod.nodeName && q == pod else HeldOn(s, n, q)
      case AddPod(pod) =>
        if q.uid == pod.uid && q.uid != "" &&
           (q.uid !in s.pods || (q.uid in s.assumed && s.pods[q.uid].pod.nodeName != pod.nodeName)) then
          n == pod.nodeName && q == pod
        else HeldOn(s, n, q)
      case UpdatePod(oldPod, newPod) =>
        if Step(s, op).outcome != Done then HeldOn(s, n, q)
        else (HeldOn(s, n, q) && q.uid != oldPod.uid) || (n == newPod.nodeName && q == newPod)
      case _ => HeldOn(s, n, q) && q.uid in Step(s, op).state.pods
  {
    if HeldOn(s, n, q) {
      HeldWhereRecorded(s, n, q);
    }
    match op
    case AssumePod(pod) =>
      if pod.uid !in s.pods && pod.uid != "" { AssumeHolds(s, pod, n, q); }
    case FinishBinding(_, _) =>
    case ForgetPod(pod) =>
      if pod.uid in s.pods && s.pods[pod.uid].pod.nodeName == pod.nodeName { UntrackHolds(s, pod, n, q); }
    case AddPod(pod) => AddHolds(s, pod, n, q);
    case UpdatePod(oldPod, newPod) =>
      if Step(s, op).outcome == Done { UpdateHolds(s, oldPod, newPod, n, q); }
    case RemovePod(pod) =>
      if pod.uid in s.pods { LeavesHolds(s, pod.uid, n, q); }
    case SetNode(node) => NodeHolds(s, node, n, q);
    case RemoveNode(node) => NodeHolds(s, node, n, q);
    case ExpirePod(uid, _) =>
      if uid in s.pods { LeavesHolds(s, uid, n, q); }
    case TakeGeneration =>
  }

  lemma LeavesHolds(s: State, uid: string, n: string, q: Pod)
    requires Inv(s) && uid in s.pods
    ensures HeldOn(Untrack(s, uid, s.pods[uid].pod).state, n, q) <==> HeldOn(s, n, q) && q.uid != uid
    ensures uid !in Untrack(s, uid, s.pods[uid].pod).state.pods
  {
    assert StateOk(uid, s.pods[uid], uid in s.assumed);
    UntrackHolds(s, s.pods[uid].pod, n, q);
  }

  /** The version on record: the one last given to AssumePod, AddPod or UpdatePod with success. */
  lemma RecordFollows(s: State, op: Op, uid: string)
    requires uid in Step(s, op).state.pods
    ensures Step(s, op).state.pods[uid].pod ==
      if uid !in s.pods then op.pod
      else
        match op
        case AddPod(pod) => if pod.uid == uid && Step(s, op).outcome == Done then pod else s.pods[uid].pod
        case UpdatePod(oldPod, newPod) =>
          if oldPod.uid == uid && Step(s, op).outcome == Done then newPod else s.pods[uid].pod
        case _ => s.pods[uid].pod
    ensures uid !in s.pods ==> (op.AssumePod? || op.AddPod?) && op.pod.uid == uid
  {
  }
}
