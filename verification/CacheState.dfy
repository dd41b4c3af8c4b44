/** What the scheduler cache holds, and what each of its operations does to it. */
module CacheState {
  import opened Collections
  import opened NodeInfoList

  datatype PodState = PodState(pod: Pod, deadline: Option<int>, bindingFinished: bool)

  /** `order` lists the names of the linked list from its head on. */
  datatype State = State(infos: map<string, Info>, order: seq<string>, generation: int,
                         pods: map<string, PodState>, assumed: set<string>)

  const EMPTY := State(map[], [], 0, map[], {})

  /** Fatal stands for klog.Fatalf and for a nil dereference: the process ends. */
  datatype Outcome = Done | Failed | Fatal

  datatype Result = Result(state: State, outcome: Outcome)

  // ---- The entries and their order ----

  ghost function Minus(s: seq<string>, name: string): seq<string> {
    if s == [] then [] else if s[0] == name then s[1..] else [s[0]] + Minus(s[1..], name)
  }

  ghost predicate SkipsAt(rest: seq<string>, s: seq<string>, k: nat) {
    |rest| == |s| - 1 && forall i {:trigger rest[i]} :: 0 <= i < |rest| ==> rest[i] == s[if i < k then i else i + 1]
  }

  lemma {:induction false} MinusSkips(s: seq<string>, k: nat)
    requires k < |s| && forall i :: 0 <= i < k ==> s[i] != s[k]
    ensures SkipsAt(Minus(s, s[k]), s, k)
  {
    if k > 0 {
      MinusSkips(s[1..], k - 1);
    }
  }

  lemma {:induction false} MinusAbsent(s: seq<string>, name: string)
    requires name !in s
    ensures Minus(s, name) == s
  {
    if s != [] {
      MinusAbsent(s[1..], name);
      assert s == [s[0]] + s[1..];
    }
  }

  lemma {:induction false} MinusMembers(s: seq<string>, name: string, n: string)
    requires n != name
    ensures n in Minus(s, name) <==> n in s
  {
    if s != [] {
      MinusMembers(s[1..], name, n);
      assert s == [s[0]] + s[1..];
    }
  }

  /** Most recently changed first. */
  ghost predicate Descending(infos: map<string, Info>, order: seq<string>) {
    && (forall i :: 0 <= i < |order| ==> order[i] in infos)
    && (forall i, j :: 0 <= i < j < |order| ==> infos[order[i]].generation > infos[order[j]].generation)
  }

  /** The list names each entry once, most recently changed first. */
  ghost predicate Sorted(infos: map<string, Info>, order: seq<string>) {
    Descending(infos, order) && forall n :: n in infos ==> n in order
  }

  ghost predicate Within(infos: map<string, Info>, generation: int) {
    forall n :: n in infos ==> infos[n].generation <= generation
  }

  lemma MinusDescending(infos: map<string, Info>, order: seq<string>, name: string)
    requires Descending(infos, order)
    ensures Descending(infos, Minus(order, name)) && name !in Minus(order, name)
  {
    if name in order {
      var k :| 0 <= k < |order| && order[k] == name;
      MinusSkips(order, k);
    } else {
      MinusAbsent(order, name);
    }
  }

  lemma DropSorted(infos: map<string, Info>, order: seq<string>, name: string)
    requires Sorted(infos, order)
    ensures Sorted(infos - {name}, Minus(order, name))
  {
    MinusDescending(infos, order, name);
    forall n | n in infos - {name} ensures n in Minus(order, name) {
      MinusMembers(order, name, n);
    }
  }

  lemma InFrontDescending(infos: map<string, Info>, rest: seq<string>, name: string, info: Info)
    requires Descending(infos, rest) && name !in rest && Within(infos, info.generation - 1)
    ensures Descending(infos[name := info], [name] + rest)
  {
    var now, order := infos[name := info], [name] + rest;
    forall i | 0 <= i < |order|
      ensures order[i] in now && (i > 0 ==> order[i] == rest[i - 1] && now[order[i]] == infos[rest[i - 1]])
    {
    }
  }

  /** Moving an entry to the head with a generation never used before keeps the order. */
  lemma ToHeadSorted(infos: map<string, Info>, order: seq<string>, name: string, info: Info)
    requires Sorted(infos, order) && Within(infos, info.generation - 1)
    ensures Sorted(infos[name := info], [name] + Minus(order, name))
    ensures Within(infos[name := info], info.generation)
  {
    MinusDescending(infos, order, name);
    InFrontDescending(infos, Minus(order, name), name, info);
    forall n | n in infos && n != name ensures n in [name] + Minus(order, name) {
      MinusMembers(order, name, n);
    }
  }

  // ---- The pods of an entry ----

  ghost predicate Holds(pods: seq<Pod>, uid: string) {
    exists i :: 0 <= i < |pods| && pods[i].uid == uid
  }

  ghost predicate Unique(pods: seq<Pod>) {
    forall i, j :: 0 <= i < j < |pods| ==> pods[i].uid != pods[j].uid
  }

  /** The first pod with that UID leaves; the last one takes its place. */
  function TakenOut(pods: seq<Pod>, uid: string): seq<Pod> {
    if pods == [] then []
    else if pods[0].uid != uid then [pods[0]] + TakenOut(pods[1..], uid)
    else if |pods| == 1 then [] else [pods[|pods| - 1]] + pods[1..|pods| - 1]
  }

  lemma {:induction false} TakenOutIs(pods: seq<Pod>, k: nat)
    requires k < |pods| && forall i :: 0 <= i < k ==> pods[i].uid != pods[k].uid
    ensures TakenOut(pods, pods[k].uid) == pods[k := pods[|pods| - 1]][..|pods| - 1]
  {
    if k > 0 {
      TakenOutIs(pods[1..], k - 1);
      assert pods == [pods[0]] + pods[1..];
    }
  }

  ghost predicate LastMovedTo(rest: seq<Pod>, pods: seq<Pod>, k: nat) {
    k < |pods| == |rest| + 1 && forall i :: 0 <= i < |rest| ==> rest[i] == pods[if i == k then |pods| - 1 else i]
  }

  lemma LastMovedUnique(rest: seq<Pod>, pods: seq<Pod>, k: nat)
    requires Unique(pods) && LastMovedTo(rest, pods, k)
    ensures Unique(rest) && !Holds(rest, pods[k].uid)
  {
  }

  lemma LastMovedHolds(rest: seq<Pod>, pods: seq<Pod>, k: nat, uid: string)
    requires LastMovedTo(rest, pods, k) && uid != pods[k].uid
    ensures Holds(rest, uid) <==> Holds(pods, uid)
  {
    if Holds(pods, uid) {
      var i :| 0 <= i < |pods| && pods[i].uid == uid;
      assert rest[if i == |pods| - 1 then k else i].uid == uid;
    }
  }

  lemma TakenOutHolds(pods: seq<Pod>, k: nat, uid: string)
    requires Unique(pods) && k < |pods|
    ensures Unique(TakenOut(pods, pods[k].uid))
    ensures Holds(TakenOut(pods, pods[k].uid), uid) <==> Holds(pods, uid) && uid != pods[k].uid
  {
    TakenOutIs(pods, k);
    var rest := TakenOut(pods, pods[k].uid);
    assert LastMovedTo(rest, pods, k);
    LastMovedUnique(rest, pods, k);
    if uid != pods[k].uid {
      LastMovedHolds(rest, pods, k, uid);
    }
  }

  lemma AppendedHolds(pods: seq<Pod>, pod: Pod, uid: string)
    requires Unique(pods) && !Holds(pods, pod.uid)
    ensures Unique(pods + [pod])
    ensures Holds(pods + [pod], uid) <==> Holds(pods, uid) || uid == pod.uid
  {
    var all := pods + [pod];
    assert all[|pods|] == pod;
    if Holds(pods, uid) {
      var i :| 0 <= i < |pods| && pods[i].uid == uid;
      assert all[i].uid == uid;
    }
  }

  // ---- The invariant ----

  /** An entry is kept only for a known node or for pods, and holds each of its pods once. */
  ghost predicate EntryOk(n: string, info: Info) {
    && Unique(info.pods) && (forall i :: 0 <= i < |info.pods| ==> info.pods[i].nodeName == n)
    && (info.node.Some? ==> info.node.value.name == n)
    && (info.node.Some? || info.pods != [])
  }

  ghost predicate On(infos: map<string, Info>, n: string, uid: string) {
    n in infos && Holds(infos[n].pods, uid)
  }

  /** A pod is on exactly the node that `at` gives for it. */
  ghost predicate Tracked(infos: map<string, Info>, at: map<string, string>) {
    forall n, uid :: On(infos, n, uid) <==> uid in at && at[uid] == n
  }

  ghost function Places(pods: map<string, PodState>): map<string, string> {
    map uid | uid in pods :: pods[uid].pod.nodeName
  }

  ghost predicate StateOk(uid: string, ps: PodState, assumed: bool) {
    && uid != "" && ps.pod.uid == uid
    && (assumed && ps.bindingFinished ==> ps.deadline.Some?)
  }

  ghost predicate ListInv(s: State) {
    Sorted(s.infos, s.order) && Within(s.infos, s.generation)
  }

  ghost predicate EntryInv(infos: map<string, Info>) {
    forall n :: n in infos ==> EntryOk(n, infos[n])
  }

  ghost predicate PodInv(pods: map<string, PodState>, assumed: set<string>) {
    assumed <= pods.Keys && forall uid :: uid in pods ==> StateOk(uid, pods[uid], uid in assumed)
  }

  /** The entries of `s` are in order and hold the pods of `at` where it says. */
  ghost predicate Sound(s: State, at: map<string, string>) {
    ListInv(s) && EntryInv(s.infos) && Tracked(s.infos, at)
  }

  ghost predicate Inv(s: State) {
    PodInv(s.pods, s.assumed) && Sound(s, Places(s.pods))
  }

  // ---- Changing one entry ----

  /** The entry of a node, or the one NewNodeInfo makes. */
  ghost function EntryOf(s: State, n: string): Info {
    if n in s.infos then s.infos[n] else Info(None, [], s.generation + 1)
  }

  /** NewNodeInfo takes a generation, and so does the change that follows it. */
  ghost function NextGeneration(s: State, n: string): int {
    if n in s.infos then s.generation + 1 else s.generation + 2
  }

  ghost function Put(s: State, n: string, info: Info, generation: int): State {
    s.(infos := s.infos[n := info.(generation := generation)], order := [n] + Minus(s.order, n),
       generation := generation)
  }

  /** An entry that lost a pod or its node stays unless nothing is left of it. */
  ghost function PutOrDrop(s: State, n: string, info: Info): State {
    if info.pods == [] && info.node.None? then
      s.(infos := s.infos - {n}, order := Minus(s.order, n), generation := s.generation + 1)
    else Put(s, n, info, s.generation + 1)
  }

  ghost function WithPod(s: State, pod: Pod): State {
    var info := EntryOf(s, pod.nodeName);
    Put(s, pod.nodeName, info.(pods := info.pods + [pod]), NextGeneration(s, pod.nodeName))
  }

  ghost function WithoutPod(s: State, pod: Pod): Result {
    if pod.nodeName !in s.infos || pod.uid == "" then Result(s, Failed)
    else
      var info := s.infos[pod.nodeName];
      if Holds(info.pods, pod.uid) then
        Result(PutOrDrop(s, pod.nodeName, info.(pods := TakenOut(info.pods, pod.uid))), Done)
      else Result(s, if info.node.Some? then Failed else Fatal)
  }

  lemma PutKeepsList(s: State, n: string, info: Info, generation: int)
    requires ListInv(s) && generation > s.generation
    ensures ListInv(Put(s, n, info, generation))
  {
    ToHeadSorted(s.infos, s.order, n, info.(generation := generation));
  }

  lemma DropKeepsList(s: State, n: string, info: Info)
    requires ListInv(s)
    ensures ListInv(PutOrDrop(s, n, info))
  {
    if info.pods == [] && info.node.None? {
      DropSorted(s.infos, s.order, n);
    } else {
      PutKeepsList(s, n, info, s.generation + 1);
    }
  }

  ghost predicate SameBut(now: map<string, Info>, was: map<string, Info>, n: string) {
    forall m :: m != n ==> (m in now <==> m in was) && (m in was ==> now[m] == was[m])
  }

  lemma EntryChanged(was: map<string, Info>, now: map<string, Info>, n: string)
    requires EntryInv(was) && SameBut(now, was, n) && (n in now ==> EntryOk(n, now[n]))
    ensures EntryInv(now)
  {
    forall m | m in now ensures EntryOk(m, now[m]) {
      assert m != n ==> m in was;
    }
  }

  lemma PodArrives(was: map<string, Info>, now: map<string, Info>, at: map<string, string>, n: string, k: string)
    requires Tracked(was, at) && SameBut(now, was, n) && k !in at
    requires forall uid :: On(now, n, uid) <==> On(was, n, uid) || uid == k
    ensures Tracked(now, at[k := n])
  {
    forall m, uid ensures On(now, m, uid) <==> uid in at[k := n] && at[k := n][uid] == m {
      assert On(was, m, uid) <==> uid in at && at[uid] == m;
      assert m != n ==> (On(now, m, uid) <==> On(was, m, uid));
    }
  }

  lemma PodLeaves(was: map<string, Info>, now: map<string, Info>, at: map<string, string>, n: string, k: string)
    requires Tracked(was, at) && SameBut(now, was, n) && k in at && at[k] == n
    requires forall uid :: On(now, n, uid) <==> On(was, n, uid) && uid != k
    ensures Tracked(now, at - {k})
  {
    forall m, uid ensures On(now, m, uid) <==> uid in at - {k} && (at - {k})[uid] == m {
      assert On(was, m, uid) <==> uid in at && at[uid] == m;
      assert m != n ==> (On(now, m, uid) <==> On(was, m, uid));
    }
  }

  lemma WithPodKeeps(s: State, pod: Pod, at: map<string, string>)
    requires Sound(s, at) && pod.uid !in at
    ensures Sound(WithPod(s, pod), at[pod.uid := pod.nodeName])
  {
    var n, was, r := pod.nodeName, EntryOf(s, pod.nodeName), WithPod(s, pod);
    PutKeepsList(s, n, was.(pods := was.pods + [pod]), NextGeneration(s, n));
    assert !On(s.infos, n, pod.uid);
    forall uid
      ensures Unique(was.pods + [pod]) && (On(r.infos, n, uid) <==> On(s.infos, n, uid) || uid == pod.uid)
    {
      AppendedHolds(was.pods, pod, uid);
    }
    EntryChanged(s.infos, r.infos, n);
    PodArrives(s.infos, r.infos, at, n, pod.uid);
  }

  lemma EntryLosesPod(n: string, was: Info, uid: string)
    requires EntryOk(n, was) && Holds(was.pods, uid)
    ensures var rest := TakenOut(was.pods, uid);
      Unique(rest) && (forall i :: 0 <= i < |rest| ==> rest[i].nodeName == n)
      && forall u :: Holds(rest, u) <==> Holds(was.pods, u) && u != uid
  {
    var k :| 0 <= k < |was.pods| && was.pods[k].uid == uid;
    TakenOutIs(was.pods, k);
    forall u
      ensures Unique(TakenOut(was.pods, uid)) && (Holds(TakenOut(was.pods, uid), u) <==> Holds(was.pods, u) && u != uid)
    {
      TakenOutHolds(was.pods, k, u);
    }
  }

  lemma WithoutPodKeeps(s: State, pod: Pod, at: map<string, string>)
    requires Sound(s, at) && pod.uid != "" && pod.uid in at && at[pod.uid] == pod.nodeName
    ensures WithoutPod(s, pod).outcome == Done && Sound(WithoutPod(s, pod).state, at - {pod.uid})
  {
    var n, r := pod.nodeName, WithoutPod(s, pod).state;
    assert On(s.infos, n, pod.uid);
    var was := s.infos[n];
    EntryLosesPod(n, was, pod.uid);
    DropKeepsList(s, n, was.(pods := TakenOut(was.pods, pod.uid)));
    EntryChanged(s.infos, r.infos, n);
    PodLeaves(s.infos, r.infos, at, n, pod.uid);
  }

  // ---- The operations ----

  datatype Op =
    | AssumePod(pod: Pod)
    | FinishBinding(pod: Pod, deadline: int)
    | ForgetPod(pod: Pod)
    | AddPod(pod: Pod)
    | UpdatePod(oldPod: Pod, newPod: Pod)
    | RemovePod(pod: Pod)
    | SetNode(node: Node)      // AddNode and UpdateNode
    | RemoveNode(node: Node)
    | ExpirePod(uid: string, now: int)
    | TakeGeneration           // by a NodeInfo that is not in the cache

  ghost function Assume(s: State, pod: Pod): Result {
    if pod.uid == "" || pod.uid in s.pods then Result(s, Failed)
    else
      Result(WithPod(s, pod).(pods := s.pods[pod.uid := PodState(pod, None, false)], assumed := s.assumed + {pod.uid}),
             Done)
  }

  ghost function Finish(s: State, pod: Pod, deadline: int): Result {
    if pod.uid == "" then Result(s, Failed)
    else if pod.uid in s.pods && pod.uid in s.assumed then
      Result(s.(pods := s.pods[pod.uid := s.pods[pod.uid].(deadline := Some(deadline), bindingFinished := true)]), Done)
    else Result(s, Done)
  }

  /** removePod and, if that worked, the pod's removal from both tables. */
  ghost function Untrack(s: State, uid: string, pod: Pod): Result {
    var r := WithoutPod(s, pod);
    if r.outcome != Done then r
    else Result(r.state.(pods := s.pods - {uid}, assumed := s.assumed - {uid}), Done)
  }

  ghost function Forget(s: State, pod: Pod): Result {
    if pod.uid == "" then Result(s, Failed)
    else if pod.uid in s.pods && s.pods[pod.uid].pod.nodeName != pod.nodeName then Result(s, Failed)
    else if pod.uid in s.pods && pod.uid in s.assumed then Untrack(s, pod.uid, pod)
    else Result(s, Failed)
  }

  ghost function Add(s: State, pod: Pod): Result {
    if pod.uid == "" then Result(s, Failed)
    else if pod.uid !in s.pods then
      Result(WithPod(s, pod).(pods := s.pods[pod.uid := PodState(pod, None, false)]), Done)
    else if pod.uid in s.assumed then
      var was := s.pods[pod.uid];
      var r := WithoutPod(s, was.pod);
      if was.pod.nodeName != pod.nodeName && r.outcome == Fatal then r
      else
        var moved := if was.pod.nodeName == pod.nodeName then s else WithPod(r.state, pod);
        Result(moved.(pods := s.pods[pod.uid := was.(pod := pod, deadline := None)], assumed := s.assumed - {pod.uid}),
               Done)
    else Result(s, Failed)
  }

  ghost function Update(s: State, oldPod: Pod, newPod: Pod): Result {
    if oldPod.uid == "" || oldPod.uid !in s.pods || oldPod.uid in s.assumed then Result(s, Failed)
    else
      var was := s.pods[oldPod.uid];
      if was.pod.nodeName != newPod.nodeName then Result(s, Fatal)
      else
        var r := WithoutPod(s, oldPod);
        if r.outcome != Done then r
        else Result(WithPod(r.state, newPod).(pods := s.pods[oldPod.uid := was.(pod := newPod)]), Done)
  }

  ghost function Remove(s: State, pod: Pod): Result {
    if pod.uid == "" || pod.uid !in s.pods || pod.uid in s.assumed then Result(s, Failed)
    else if s.pods[pod.uid].pod.nodeName != pod.nodeName then Result(s, Fatal)
    else Untrack(s, pod.uid, s.pods[pod.uid].pod)
  }

  ghost function WithNode(s: State, node: Node): State {
    Put(s, node.name, EntryOf(s, node.name).(node := Some(node)), NextGeneration(s, node.name))
  }

  ghost function WithoutNode(s: State, node: Node): Result {
    if node.name !in s.infos then Result(s, Failed)
    else Result(PutOrDrop(s, node.name, s.infos[node.name].(node := None)), Done)
  }

  /** One turn of cleanupAssumedPods; its two ways to fail are Fatal. */
  ghost function Expire(s: State, uid: string, now: int): Result {
    if uid !in s.assumed then Result(s, Done)
    else if uid !in s.pods then Result(s, Fatal)
    else if !s.pods[uid].bindingFinished then Result(s, Done)
    else if s.pods[uid].deadline.None? then Result(s, Fatal)
    else if now > s.pods[uid].deadline.value then Untrack(s, uid, s.pods[uid].pod)
    else Result(s, Done)
  }

  ghost function Step(s: State, op: Op): Result {
    match op
    case AssumePod(pod) => Assume(s, pod)
    case FinishBinding(pod, deadline) => Finish(s, pod, deadline)
    case ForgetPod(pod) => Forget(s, pod)
    case AddPod(pod) => Add(s, pod)
    case UpdatePod(oldPod, newPod) => Update(s, oldPod, newPod)
    case RemovePod(pod) => Remove(s, pod)
    case SetNode(node) => Result(WithNode(s, node), Done)
    case RemoveNode(node) => WithoutNode(s, node)
    case ExpirePod(uid, now) => Expire(s, uid, now)
    case TakeGeneration => Result(s.(generation := s.generation + 1), Done)
  }

  // ---- Every operation keeps the invariant ----

  lemma PodRecorded(pods: map<string, PodState>, assumed: set<string>, uid: string, ps: PodState, a: set<string>)
    requires PodInv(pods, assumed) && StateOk(uid, ps, uid in a)
    requires a <= assumed + {uid} && assumed <= a + {uid}
    ensures PodInv(pods[uid := ps], a) && Places(pods[uid := ps]) == Places(pods)[uid := ps.pod.nodeName]
  {
  }

  lemma PodDropped(pods: map<string, PodState>, assumed: set<string>, uid: string)
    requires PodInv(pods, assumed)
    ensures PodInv(pods - {uid}, assumed - {uid}) && Places(pods - {uid}) == Places(pods) - {uid}
  {
  }

  lemma AssumeKeeps(s: State, pod: Pod)
    requires Inv(s)
    ensures Inv(Assume(s, pod).state)
  {
    if pod.uid != "" && pod.uid !in s.pods {
      WithPodKeeps(s, pod, Places(s.pods));
      PodRecorded(s.pods, s.assumed, pod.uid, PodState(pod, None, false), s.assumed + {pod.uid});
    }
  }

  lemma FinishKeeps(s: State, pod: Pod, deadline: int)
    requires Inv(s)
    ensures Inv(Finish(s, pod, deadline).state)
  {
    if pod.uid in s.pods && pod.uid in s.assumed {
      var ps := s.pods[pod.uid].(deadline := Some(deadline), bindingFinished := true);
      assert StateOk(pod.uid, s.pods[pod.uid], true);
      PodRecorded(s.pods, s.assumed, pod.uid, ps, s.assumed);
      assert Places(s.pods)[pod.uid := ps.pod.nodeName] == Places(s.pods);
    }
  }

  /** A pod on record is where its record says, so taking it off works. */
  lemma UntrackKeeps(s: State, uid: string, pod: Pod)
    requires Inv(s) && uid in s.pods && pod.uid == uid && s.pods[uid].pod.nodeName == pod.nodeName
    ensures Untrack(s, uid, pod).outcome == Done && Inv(Untrack(s, uid, pod).state)
  {
    WithoutPodKeeps(s, pod, Places(s.pods));
    PodDropped(s.pods, s.assumed, uid);
  }

  lemma AddKeeps(s: State, pod: Pod)
    requires Inv(s)
    ensures Inv(Add(s, pod).state)
  {
    if pod.uid != "" && pod.uid !in s.pods {
      WithPodKeeps(s, pod, Places(s.pods));
      PodRecorded(s.pods, s.assumed, pod.uid, PodState(pod, None, false), s.assumed);
    } else if pod.uid in s.pods && pod.uid in s.assumed {
      var was := s.pods[pod.uid];
      assert StateOk(pod.uid, was, true);
      ReplaceKeeps(s, was.pod, pod, Places(s.pods));
      PodRecorded(s.pods, s.assumed, pod.uid, was.(pod := pod, deadline := None), s.assumed - {pod.uid});
    }
  }

  lemma ReplaceKeeps(s: State, was: Pod, pod: Pod, at: map<string, string>)
    requires Sound(s, at) && was.uid == pod.uid != "" && pod.uid in at && at[pod.uid] == was.nodeName
    ensures WithoutPod(s, was).outcome == Done
    ensures Sound(WithPod(WithoutPod(s, was).state, pod), at[pod.uid := pod.nodeName])
  {
    WithoutPodKeeps(s, was, at);
    WithPodKeeps(WithoutPod(s, was).state, pod, at - {pod.uid});
    MovedTo(at, pod.uid, pod.nodeName);
  }

  lemma MovedTo(at: map<string, string>, uid: string, n: string)
    ensures (at - {uid})[uid := n] == at[uid := n]
  {
  }

  lemma UpdateKeeps(s: State, oldPod: Pod, newPod: Pod)
    requires Inv(s) && oldPod.uid == newPod.uid
    ensures Inv(Update(s, oldPod, newPod).state)
  {
    if oldPod.uid != "" && oldPod.uid in s.pods && oldPod.uid !in s.assumed && WithoutPod(s, oldPod).outcome == Done {
      var was := s.pods[oldPod.uid];
      assert StateOk(oldPod.uid, was, false);
      assert On(s.infos, oldPod.nodeName, oldPod.uid);
      ReplaceKeeps(s, oldPod, newPod, Places(s.pods));
      PodRecorded(s.pods, s.assumed, newPod.uid, was.(pod := newPod), s.assumed);
    }
  }

  lemma NodeKeeps(s: State, node: Node)
    requires Inv(s)
    ensures Inv(WithNode(s, node)) && Inv(WithoutNode(s, node).state)
  {
    var n, with, without := node.name, WithNode(s, node), WithoutNode(s, node).state;
    PutKeepsList(s, n, EntryOf(s, n).(node := Some(node)), NextGeneration(s, n));
    EntryChanged(s.infos, with.infos, n);
    SamePods(s.infos, with.infos, Places(s.pods), n);
    if n in s.infos {
      DropKeepsList(s, n, s.infos[n].(node := None));
      EntryChanged(s.infos, without.infos, n);
      SamePods(s.infos, without.infos, Places(s.pods), n);
    }
  }

  lemma SamePods(was: map<string, Info>, now: map<string, Info>, at: map<string, string>, n: string)
    requires Tracked(was, at) && SameBut(now, was, n)
    requires (if n in now then now[n].pods else []) == (if n in was then was[n].pods else [])
    ensures Tracked(now, at)
  {
    forall m, uid ensures On(now, m, uid) <==> On(was, m, uid) {
    }
  }

  lemma ExpireKeeps(s: State, uid: string, now: int)
    requires Inv(s)
    ensures Inv(Expire(s, uid, now).state) && Expire(s, uid, now).outcome == Done
  {
    if uid in s.assumed {
      assert StateOk(uid, s.pods[uid], true);
      UntrackKeeps(s, uid, s.pods[uid].pod);
    }
  }

  /** What UpdatePod's caller owes: the two versions are of one pod. */
  ghost predicate Proper(op: Op) {
    op.UpdatePod? ==> op.oldPod.uid == op.newPod.uid
  }

  lemma StepKeepsInv(s: State, op: Op)
    requires Inv(s) && Proper(op)
    ensures Inv(Step(s, op).state)
  {
    match op
    case AssumePod(pod) => AssumeKeeps(s, pod);
    case FinishBinding(pod, deadline) => FinishKeeps(s, pod, deadline);
    case ForgetPod(pod) =>
      if pod.uid in s.pods && s.pods[pod.uid].pod.nodeName == pod.nodeName { UntrackKeeps(s, pod.uid, pod); }
    case AddPod(pod) => AddKeeps(s, pod);
    case UpdatePod(oldPod, newPod) => UpdateKeeps(s, oldPod, newPod);
    case RemovePod(pod) =>
      if pod.uid in s.pods {
        assert StateOk(pod.uid, s.pods[pod.uid], pod.uid in s.assumed);
        UntrackKeeps(s, pod.uid, s.pods[pod.uid].pod);
      }
    case SetNode(node) => NodeKeeps(s, node);
    case RemoveNode(node) => NodeKeeps(s, node);
    case ExpirePod(uid, now) => ExpireKeeps(s, uid, now);
    case TakeGeneration =>
  }

  // ---- What holds whatever the callers pass ----

  /** The entry of a node is under its name. */
  ghost predicate NodesNamed(infos: map<string, Info>) {
    forall n :: n in infos && infos[n].node.Some? ==> infos[n].node.value.name == n
  }

  /** What cleanupAssumedPods relies on: an assumed pod has a record, and a deadline if its binding has finished. */
  ghost predicate Deadlined(pods: map<string, PodState>, assumed: set<string>) {
    && assumed <= pods.Keys
    && forall uid :: uid in assumed && pods[uid].bindingFinished ==> pods[uid].deadline.Some?
  }

  ghost predicate Core(s: State) {
    ListInv(s) && NodesNamed(s.infos) && Deadlined(s.pods, s.assumed)
  }

  lemma InvHasCore(s: State)
    requires Inv(s)
    ensures Core(s)
  {
    forall n | n in s.infos ensures EntryOk(n, s.infos[n]) {
    }
    forall uid | uid in s.assumed ensures StateOk(uid, s.pods[uid], true) {
    }
  }

  lemma PodKeepsList(s: State, pod: Pod)
    requires ListInv(s)
    ensures ListInv(WithPod(s, pod)) && ListInv(WithoutPod(s, pod).state)
  {
    var info := EntryOf(s, pod.nodeName);
    PutKeepsList(s, pod.nodeName, info.(pods := info.pods + [pod]), NextGeneration(s, pod.nodeName));
    DropKeepsList(s, pod.nodeName, info.(pods := TakenOut(info.pods, pod.uid)));
  }

  lemma ReplaceKeepsList(s: State, was: Pod, pod: Pod)
    requires ListInv(s)
    ensures ListInv(WithPod(WithoutPod(s, was).state, pod))
  {
    PodKeepsList(s, was);
    PodKeepsList(WithoutPod(s, was).state, pod);
  }

  lemma NodeKeepsList(s: State, node: Node)
    requires ListInv(s)
    ensures ListInv(WithNode(s, node)) && ListInv(WithoutNode(s, node).state)
  {
    var info := EntryOf(s, node.name);
    PutKeepsList(s, node.name, info.(node := Some(node)), NextGeneration(s, node.name));
    DropKeepsList(s, node.name, info.(node := None));
  }

  lemma UntrackKeepsList(s: State, uid: string, pod: Pod)
    requires ListInv(s)
    ensures ListInv(Untrack(s, uid, pod).state)
  {
    PodKeepsList(s, pod);
  }

  /** Only these can be the entries and the list after AddPod. */
  lemma AddIsOneOf(s: State, pod: Pod)
    ensures var r := Add(s, pod).state;
      || SameList(r, s) || SameList(r, WithPod(s, pod))
      || (pod.uid in s.pods && SameList(r, WithPod(WithoutPod(s, s.pods[pod.uid].pod).state, pod)))
  {
  }

  ghost predicate SameList(s: State, t: State) {
    s.infos == t.infos && s.order == t.order && s.generation == t.generation
  }

  lemma AddKeepsList(s: State, pod: Pod)
    requires ListInv(s)
    ensures ListInv(Add(s, pod).state)
  {
    AddIsOneOf(s, pod);
    PodKeepsList(s, pod);
    if pod.uid in s.pods {
      ReplaceKeepsList(s, s.pods[pod.uid].pod, pod);
    }
  }

  lemma UpdateKeepsList(s: State, oldPod: Pod, newPod: Pod)
    requires ListInv(s)
    ensures ListInv(Update(s, oldPod, newPod).state)
  {
    PodKeepsList(s, oldPod);
    ReplaceKeepsList(s, oldPod, newPod);
  }

  /** Every operation, with any arguments, keeps the list in order. */
  lemma StepKeepsList(s: State, op: Op)
    requires ListInv(s)
    ensures ListInv(Step(s, op).state)
  {
    match op
    case AssumePod(pod) => PodKeepsList(s, pod);
    case FinishBinding(_, _) =>
    case ForgetPod(pod) => UntrackKeepsList(s, pod.uid, pod);
    case AddPod(pod) => AddKeepsList(s, pod);
    case UpdatePod(oldPod, newPod) => UpdateKeepsList(s, oldPod, newPod);
    case RemovePod(pod) =>
      if pod.uid in s.pods { UntrackKeepsList(s, pod.uid, s.pods[pod.uid].pod); }
    case SetNode(node) => NodeKeepsList(s, node);
    case RemoveNode(node) => NodeKeepsList(s, node);
    case ExpirePod(uid, _) =>
      if uid in s.pods { UntrackKeepsList(s, uid, s.pods[uid].pod); }
    case TakeGeneration =>
  }

  lemma PodKeepsNames(s: State, pod: Pod)
    requires NodesNamed(s.infos)
    ensures NodesNamed(WithPod(s, pod).infos) && NodesNamed(WithoutPod(s, pod).state.infos)
  {
  }

  lemma ReplaceKeepsNames(s: State, was: Pod, pod: Pod)
    requires NodesNamed(s.infos)
    ensures NodesNamed(WithPod(WithoutPod(s, was).state, pod).infos)
  {
    PodKeepsNames(s, was);
    PodKeepsNames(WithoutPod(s, was).state, pod);
  }

  lemma AddKeepsNames(s: State, pod: Pod)
    requires NodesNamed(s.infos)
    ensures NodesNamed(Add(s, pod).state.infos)
  {
    AddIsOneOf(s, pod);
    PodKeepsNames(s, pod);
    if pod.uid in s.pods {
      ReplaceKeepsNames(s, s.pods[pod.uid].pod, pod);
    }
  }

  lemma StepKeepsNames(s: State, op: Op)
    requires NodesNamed(s.infos)
    ensures NodesNamed(Step(s, op).state.infos)
  {
    match op
    case AssumePod(pod) => PodKeepsNames(s, pod);
    case FinishBinding(_, _) =>
    case ForgetPod(pod) => PodKeepsNames(s, pod);
    case AddPod(pod) => AddKeepsNames(s, pod);
    case UpdatePod(oldPod, newPod) =>
      PodKeepsNames(s, oldPod);
      ReplaceKeepsNames(s, oldPod, newPod);
    case RemovePod(pod) =>
      if pod.uid in s.pods { PodKeepsNames(s, s.pods[pod.uid].pod); }
    case SetNode(_) =>
    case RemoveNode(_) =>
    case ExpirePod(uid, _) =>
      if uid in s.pods { PodKeepsNames(s, s.pods[uid].pod); }
    case TakeGeneration =>
  }

  /** Every operation keeps what the cleanup relies on. */
  lemma StepKeepsDeadlines(s: State, op: Op)
    requires Deadlined(s.pods, s.assumed)
    ensures Deadlined(Step(s, op).state.pods, Step(s, op).state.assumed)
  {
  }

  lemma StepKeepsCore(s: State, op: Op)
    requires Core(s)
    ensures Core(Step(s, op).state)
  {
    StepKeepsList(s, op);
    StepKeepsNames(s, op);
    StepKeepsDeadlines(s, op);
  }

  /** The cleanup meets neither the panic nor a missing deadline; it is left with what removePod says of the pod. */
  lemma CleanupIsSafe(s: State, uid: string, now: int)
    requires Core(s) && uid in s.assumed
    ensures uid in s.pods && (s.pods[uid].bindingFinished ==> s.pods[uid].deadline.Some?)
    ensures Expire(s, uid, now) == if Overdue(s, uid, now) then Untrack(s, uid, s.pods[uid].pod) else Result(s, Done)
  {
  }

  /** The deadline that a finished binding left for the pod has passed. */
  ghost predicate Overdue(s: State, uid: string, now: int) {
    uid in s.pods && s.pods[uid].bindingFinished && s.pods[uid].deadline.Some? && now > s.pods[uid].deadline.value
  }

  /** An update that goes through keeps the cache consistent exactly when both versions are of one pod. */
  lemma UpdateOfAnotherPod(s: State, oldPod: Pod, newPod: Pod)
    requires Inv(s) && Update(s, oldPod, newPod).outcome == Done
    ensures Inv(Update(s, oldPod, newPod).state) <==> oldPod.uid == newPod.uid
  {
    var r := Update(s, oldPod, newPod).state;
    if oldPod.uid == newPod.uid {
      UpdateKeeps(s, oldPod, newPod);
    } else {
      assert !StateOk(oldPod.uid, r.pods[oldPod.uid], oldPod.uid in r.assumed);
    }
  }

  /** A pod is added and then updated to another pod: the update goes through and breaks the cache. */
  lemma UpdateOfAnotherPodBreaks(p: Pod, q: Pod, s: State)
    requires p.uid != "" && q.uid != p.uid && q.nodeName == p.nodeName && s == Add(EMPTY, p).state
    ensures Inv(s) && Update(s, p, q).outcome == Done && !Inv(Update(s, p, q).state)
  {
    assert Tracked(EMPTY.infos, Places(EMPTY.pods));
    AddKeeps(EMPTY, p);
    assert On(s.infos, p.nodeName, p.uid) by {
      assert p.uid in Places(s.pods) && Places(s.pods)[p.uid] == p.nodeName;
    }
    UpdateOfAnotherPod(s, p, q);
  }

  /** AddNode and UpdateNode when SetNode fails on the node's annotations: the entry has moved to the head and has the
      node, but no new generation. */
  ghost function WithFailedNode(s: State, node: Node): State {
    var info := EntryOf(s, node.name);
    Put(s, node.name, info.(node := Some(node)), info.generation)
      .(generation := if node.name in s.infos then s.generation else s.generation + 1)
  }

  lemma HeadIsMinus(order: seq<string>)
    requires order != []
    ensures [order[0]] + Minus(order, order[0]) == order
  {
  }

  lemma FailedNodeKeepsOthers(s: State, node: Node)
    requires Inv(s)
    ensures var r := WithFailedNode(s, node); EntryInv(r.infos) && Tracked(r.infos, Places(s.pods))
  {
    var r := WithFailedNode(s, node);
    EntryChanged(s.infos, r.infos, node.name);
    SamePods(s.infos, r.infos, Places(s.pods), node.name);
  }

  lemma FailedNewNode(s: State, node: Node)
    requires ListInv(s) && node.name !in s.infos
    ensures ListInv(WithFailedNode(s, node))
  {
    ToHeadSorted(s.infos, s.order, node.name, Info(Some(node), [], s.generation + 1));
  }

  lemma FailedHead(s: State, node: Node)
    requires ListInv(s) && node.name in s.infos && s.order[0] == node.name
    ensures ListInv(WithFailedNode(s, node))
  {
    HeadIsMinus(s.order);
    assert WithFailedNode(s, node).order == s.order;
  }

  lemma FailedOther(s: State, node: Node)
    requires ListInv(s) && node.name in s.infos && s.order[0] != node.name
    ensures !ListInv(WithFailedNode(s, node))
  {
    var r, first := WithFailedNode(s, node), s.order[0];
    MinusMembers(s.order, node.name, first);
    OlderThanHead(s.infos, s.order, node.name);
    assert r.order[1..] == Minus(s.order, node.name);
    HeadNotNewest(r.infos, r.order, first);
  }

  /** The list stays in order then exactly when the node is new to the cache, or was first in the list already.
      Otherwise the entries behind it are newer, and the walk of UpdateNodeInfoSnapshot can stop before them. */
  lemma FailedNodeKeepsList(s: State, node: Node)
    requires ListInv(s)
    ensures ListInv(WithFailedNode(s, node)) <==> node.name !in s.infos || s.order[0] == node.name
  {
    if node.name !in s.infos {
      FailedNewNode(s, node);
    } else if s.order[0] == node.name {
      FailedHead(s, node);
    } else {
      FailedOther(s, node);
    }
  }

  lemma HeadNotNewest(infos: map<string, Info>, order: seq<string>, n: string)
    requires order != [] && n in order[1..] && order[0] in infos && n in infos
    requires infos[order[0]].generation <= infos[n].generation
    ensures !Descending(infos, order)
  {
    var j :| 0 <= j < |order[1..]| && order[1..][j] == n;
    assert order[j + 1] == n;
  }

  lemma FailedNodeKeepsCore(s: State, node: Node)
    requires Core(s)
    ensures Core(WithFailedNode(s, node)) <==> node.name !in s.infos || s.order[0] == node.name
  {
    FailedNodeKeepsList(s, node);
  }

  lemma FailedNodeKeepsInv(s: State, node: Node)
    requires Inv(s)
    ensures Inv(WithFailedNode(s, node)) <==> node.name !in s.infos || s.order[0] == node.name
  {
    FailedNodeKeepsOthers(s, node);
    FailedNodeKeepsList(s, node);
  }

  lemma OlderThanHead(infos: map<string, Info>, order: seq<string>, n: string)
    requires Sorted(infos, order) && n in infos && order[0] != n
    ensures infos[n].generation < infos[order[0]].generation
  {
    var k :| 0 <= k < |order| && order[k] == n;
    assert infos[order[0]].generation > infos[order[k]].generation;
  }

  lemma FailedNodeBreaks(a: Node, b: Node, s: State)
    requires a.name != b.name && s == WithNode(WithNode(EMPTY, a), b)
    ensures Inv(s) && !Inv(WithFailedNode(s, a))
  {
    assert Tracked(EMPTY.infos, Places(EMPTY.pods));
    NodeKeeps(EMPTY, a);
    NodeKeeps(WithNode(EMPTY, a), b);
    FailedNodeKeepsInv(s, a);
  }

  ghost predicate IsRun(states: seq<State>, ops: seq<Op>) {
    && |states| == |ops| + 1 && states[0] == EMPTY
    && forall i :: 0 <= i < |ops| ==> states[i + 1] == Step(states[i], ops[i]).state
  }

  ghost predicate AllProper(ops: seq<Op>) {
    forall i :: 0 <= i < |ops| ==> Proper(ops[i])
  }

  /** In every run, with any arguments. */
  lemma {:induction false} RunKeepsCore(states: seq<State>, ops: seq<Op>, i: nat)
    requires IsRun(states, ops) && i < |states|
    ensures Core(states[i])
  {
    if i > 0 {
      RunKeepsCore(states, ops, i - 1);
      StepKeepsCore(states[i - 1], ops[i - 1]);
    }
  }

  lemma {:induction false} RunKeepsInv(states: seq<State>, ops: seq<Op>, i: nat)
    requires IsRun(states, ops) && AllProper(ops) && i < |states|
    ensures Inv(states[i])
  {
    if i == 0 {
      assert Tracked(EMPTY.infos, Places(EMPTY.pods));
    } else {
      RunKeepsInv(states, ops, i - 1);
      StepKeepsInv(states[i - 1], ops[i - 1]);
    }
  }
}
