/** The state machine a pod goes through in the cache (kube-scheduler/pkg/internal/cache/interface.go). */
module PodPhases {
  import opened Collections
  import opened NodeInfoList
  import opened CacheState

  /** Initial, Expired and Deleted pods are alike: they are not in the cache. */
  datatype Phase = Absent | Assumed | Added

  ghost function PhaseOf(s: State, uid: string): Phase {
    if uid !in s.pods then Absent else if uid in s.assumed then Assumed else Added
  }

  ghost predicate Concerns(op: Op, uid: string) {
    match op
    case ExpirePod(u, _) => u == uid
    case UpdatePod(oldPod, _) => oldPod.uid == uid
    case SetNode(_) => false
    case RemoveNode(_) => false
    case TakeGeneration => false
    case _ => op.pod.uid == uid
  }

  /** The arrows of the diagram; an event without one leaves the phase alone. */
  ghost function Arrow(s: State, op: Op, uid: string): Phase {
    var phase := PhaseOf(s, uid);
    match phase
    case Absent => if op.AssumePod? then Assumed else if op.AddPod? then Added else Absent
    case Assumed =>
      if op.AddPod? then Added
      else if op.ForgetPod? && op.pod.nodeName == s.pods[uid].pod.nodeName then Absent
      else if op.ExpirePod? && Overdue(s, uid, op.now) then Absent
      else Assumed
    case Added => if op.RemovePod? && op.pod.nodeName == s.pods[uid].pod.nodeName then Absent else Added
  }

  lemma OthersKeepPhase(s: State, op: Op, uid: string)
    requires !Concerns(op, uid)
    ensures PhaseOf(Step(s, op).state, uid) == PhaseOf(s, uid)
  {
    match op
    case AssumePod(_) =>
    case FinishBinding(_, _) =>
    case ForgetPod(_) =>
    case AddPod(_) =>
    case UpdatePod(_, _) =>
    case RemovePod(_) =>
    case SetNode(_) =>
    case RemoveNode(_) =>
    case ExpirePod(_, _) =>
    case TakeGeneration =>
  }

  lemma StepFollowsDiagram(s: State, op: Op, uid: string)
    requires Inv(s) && uid != "" && Concerns(op, uid)
    ensures PhaseOf(Step(s, op).state, uid) == Arrow(s, op, uid)
  {
    if uid in s.pods {
      assert StateOk(uid, s.pods[uid], uid in s.assumed);
    }
    match op
    case AssumePod(_) =>
    case FinishBinding(_, _) =>
    case ForgetPod(pod) =>
      if uid in s.pods && pod.nodeName == s.pods[uid].pod.nodeName { UntrackKeeps(s, uid, pod); }
    case AddPod(pod) => NoFatalAdd(s, pod);
    case UpdatePod(_, _) =>
    case RemovePod(_) =>
      if uid in s.pods { UntrackKeeps(s, uid, s.pods[uid].pod); }
    case ExpirePod(_, _) =>
      if uid in s.pods { UntrackKeeps(s, uid, s.pods[uid].pod); }
  }

  /** The process ends only where a caller's node contradicts the record, never in cleanupAssumedPods. */
  lemma FatalOnlyOnMismatch(s: State, op: Op)
    requires Inv(s) && Step(s, op).outcome == Fatal
    ensures op.UpdatePod? || op.RemovePod?
    ensures op.RemovePod? ==> PhaseOf(s, op.pod.uid) == Added && op.pod.nodeName != s.pods[op.pod.uid].pod.nodeName
    ensures op.UpdatePod? ==> PhaseOf(s, op.oldPod.uid) == Added
    ensures op.UpdatePod? ==>
              var n := s.pods[op.oldPod.uid].pod.nodeName;
              op.newPod.nodeName != n || op.oldPod.nodeName != n
  {
    match op
    case ForgetPod(pod) => NoFatalForget(s, pod);
    case AddPod(pod) => NoFatalAdd(s, pod);
    case RemovePod(pod) => FatalRemove(s, pod);
    case UpdatePod(oldPod, newPod) => FatalUpdate(s, oldPod, newPod);
    case ExpirePod(uid, now) => ExpireKeeps(s, uid, now);
    case _ =>
  }

  lemma NoFatalForget(s: State, pod: Pod)
    requires Inv(s)
    ensures Forget(s, pod).outcome != Fatal
  {
    if pod.uid in s.pods && pod.nodeName == s.pods[pod.uid].pod.nodeName {
      UntrackKeeps(s, pod.uid, pod);
    }
  }

  lemma NoFatalAdd(s: State, pod: Pod)
    requires Inv(s)
    ensures Add(s, pod).outcome != Fatal
  {
    if pod.uid in s.pods {
      assert StateOk(pod.uid, s.pods[pod.uid], pod.uid in s.assumed);
      WithoutPodKeeps(s, s.pods[pod.uid].pod, Places(s.pods));
    }
  }

  lemma FatalRemove(s: State, pod: Pod)
    requires Inv(s) && Remove(s, pod).outcome == Fatal
    ensures PhaseOf(s, pod.uid) == Added && pod.nodeName != s.pods[pod.uid].pod.nodeName
  {
    assert StateOk(pod.uid, s.pods[pod.uid], false);
    UntrackKeeps(s, pod.uid, s.pods[pod.uid].pod);
  }

  lemma FatalUpdate(s: State, oldPod: Pod, newPod: Pod)
    requires Inv(s) && Update(s, oldPod, newPod).outcome == Fatal
    ensures PhaseOf(s, oldPod.uid) == Added
    ensures var n := s.pods[oldPod.uid].pod.nodeName; newPod.nodeName != n || oldPod.nodeName != n
  {
    if oldPod.nodeName == s.pods[oldPod.uid].pod.nodeName {
      UntrackKeeps(s, oldPod.uid, oldPod);
    }
  }

  // ---- When an assumed pod expires ----

  ghost predicate Finishes(op: Op, uid: string) {
    op.FinishBinding? && op.pod.uid == uid
  }

  /** A step writes into the record of a pod that stays assumed a finished binding and its deadline, or nothing. */
  lemma AssumedRecord(s: State, op: Op, uid: string)
    requires uid != "" && PhaseOf(s, uid) == Assumed && PhaseOf(Step(s, op).state, uid) == Assumed
    ensures var ps := Step(s, op).state.pods[uid];
      if Finishes(op, uid) then ps.bindingFinished && ps.deadline == Some(op.deadline) else ps == s.pods[uid]
  {
    match op
    case AssumePod(_) =>
    case FinishBinding(_, _) =>
    case ForgetPod(_) =>
    case AddPod(_) =>
    case UpdatePod(_, _) =>
    case RemovePod(_) =>
    case SetNode(_) =>
    case RemoveNode(_) =>
    case ExpirePod(_, _) =>
    case TakeGeneration =>
  }

  /** Whatever was on record before, a pod whose binding finishes with a deadline is gone from the first cleanup after
      the deadline on, and stays until then. */
  lemma FinishThenExpire(s: State, pod: Pod, deadline: int, now: int)
    requires Inv(s) && PhaseOf(s, pod.uid) == Assumed
    ensures var t := Step(s, FinishBinding(pod, deadline)).state;
      PhaseOf(t, pod.uid) == Assumed
      && PhaseOf(Step(t, ExpirePod(pod.uid, now)).state, pod.uid) == if now > deadline then Absent else Assumed
  {
    var op := FinishBinding(pod, deadline);
    assert StateOk(pod.uid, s.pods[pod.uid], true);
    StepFollowsDiagram(s, op, pod.uid);
    AssumedRecord(s, op, pod.uid);
    FinishKeeps(s, pod, deadline);
    StepFollowsDiagram(Step(s, op).state, ExpirePod(pod.uid, now), pod.uid);
  }

  /** Step f is the last one between i and j that finishes the pod's binding. */
  ghost predicate IsLastFinish(ops: seq<Op>, i: nat, f: nat, j: nat, uid: string) {
    i < f < j <= |ops| && Finishes(ops[f], uid) && forall k :: f < k < j ==> !Finishes(ops[k], uid)
  }

  /** The pod is assumed by step i and still assumed before step j. */
  ghost predicate AssumedFrom(states: seq<State>, ops: seq<Op>, i: nat, j: nat, uid: string) {
    && IsRun(states, ops) && i < j < |states| && ops[i].AssumePod? && ops[i].pod.uid == uid
    && PhaseOf(states[i], uid) == Absent && forall k :: i < k <= j ==> PhaseOf(states[k], uid) == Assumed
  }

  /** The record of an assumed pod is what the last finished binding since it was assumed has left, if there is one. */
  lemma {:induction false} LastFinishOnRecord(states: seq<State>, ops: seq<Op>, i: nat, j: nat, uid: string)
      returns (f: Option<nat>)
    requires AssumedFrom(states, ops, i, j, uid)
    ensures states[j].pods[uid].bindingFinished <==> f.Some?
    ensures f.Some? ==> IsLastFinish(ops, i, f.value, j, uid) &&
                        states[j].pods[uid].deadline == Some(ops[f.value].deadline)
    ensures f.None? ==> forall k :: i < k < j ==> !Finishes(ops[k], uid)
    decreases j
  {
    assert PhaseOf(states[j], uid) == Assumed && states[j] == Step(states[j - 1], ops[j - 1]).state;
    if j - 1 == i {
      f := None;
    } else {
      f := LastFinishOnRecord(states, ops, i, j - 1, uid);
      assert uid != "" by {
        assert PhaseOf(states[i + 1], uid) == Assumed && states[i + 1] == Step(states[i], ops[i]).state;
      }
      AssumedRecord(states[j - 1], ops[j - 1], uid);
      if Finishes(ops[j - 1], uid) {
        f := Some(j - 1);
      }
    }
  }

  ghost predicate DeadlinePassed(ops: seq<Op>, i: nat, j: nat, uid: string, now: int) {
    exists f: nat :: IsLastFinish(ops, i, f, j, uid) && ops[f].deadline < now
  }

  /** The cleanup at step j drops a pod that was assumed at step i only if its binding has finished since, the last time
      with a deadline that has passed; and if callers pass what they should, it always drops such a pod. */
  lemma ExpiresAfterDeadline(states: seq<State>, ops: seq<Op>, i: nat, j: nat, uid: string)
    requires j < |ops| && AssumedFrom(states, ops, i, j, uid) && ops[j].ExpirePod?
    ensures PhaseOf(states[j + 1], uid) == Absent ==> ops[j].uid == uid && DeadlinePassed(ops, i, j, uid, ops[j].now)
    ensures AllProper(ops) && ops[j].uid == uid && DeadlinePassed(ops, i, j, uid, ops[j].now) ==>
              PhaseOf(states[j + 1], uid) == Absent
  {
    assert PhaseOf(states[j], uid) == Assumed && states[j + 1] == Step(states[j], ops[j]).state;
    var last := LastFinishOnRecord(states, ops, i, j, uid);
    if ops[j].uid != uid {
      OthersKeepPhase(states[j], ops[j], uid);
    } else if AllProper(ops) && DeadlinePassed(ops, i, j, uid, ops[j].now) {
      RunKeepsInv(states, ops, j);
      assert StateOk(uid, states[j].pods[uid], true);
      StepFollowsDiagram(states[j], ops[j], uid);
    }
  }
}
