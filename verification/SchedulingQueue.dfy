/** PriorityQueue of kube-scheduler/pkg/internal/queue/scheduling_queue.go. A locked method is one step; a pod's key
    stands for its namespace and name, which both key functions of the source determine. */
module SchedulingQueue {
  import opened Collections
  import opened KeyedHeap
  import opened PodBackoffs
  import opened BackoffQueues

  /** activeQComp: higher priority first, then longer in the queue. */
  predicate ActiveQComp(a: PodInfo, b: PodInfo) {
    a.pod.priority > b.pod.priority || (a.pod.priority == b.pod.priority && a.timestamp < b.timestamp)
  }

  function ActiveQOrder(): (PodInfo, PodInfo) -> bool {
    (a: PodInfo, b: PodInfo) => ActiveQComp(a, b)
  }

  lemma ActiveQCompIsStrictWeak()
    ensures StrictWeak(ActiveQOrder())
  {
  }

  datatype Queues = Queues(active: Pods, backoff: Pods, unschedulable: Pods, cycle: int, moveCycle: int)
  {
    /** No pod is in two queues. */
    ghost predicate Partition() {
      && active.Keys !! backoff.Keys && active.Keys !! unschedulable.Keys && backoff.Keys !! unschedulable.Keys
      && Keyed(active) && Keyed(backoff) && Keyed(unschedulable)
    }

    ghost function Pending(): set<string> {
      active.Keys + backoff.Keys + unschedulable.Keys
    }
  }

  const EMPTY: Queues := Queues(map[], map[], map[], 0, -1)

  /** The operations, with the choices that other parts of the scheduler make as arguments: which pods are still backing
      off, which unschedulable pods a move concerns, and the pod a heap puts first. */
  datatype Op =
    | Add(p: PodInfo)
    | AddIfNotPresent(p: PodInfo)
    | AddUnschedulable(p: PodInfo, podCycle: int)
    | Pop(key: string)
    | Update(oldPod: Option<Pod>, newPod: Pod, now: int)
    | Delete(key: string)
    | Move(keys: set<string>, backingOff: set<string>)
    | FlushBackoff(keys: set<string>)

  function Select(m: Pods, keys: set<string>): Pods {
    map k | k in m && k in keys :: m[k]
  }

  ghost function Apply(q: Queues, op: Op): Queues {
    match op
    case Add(p) => q.(active := q.active[p.pod.key := p], backoff := q.backoff - {p.pod.key},
                      unschedulable := q.unschedulable - {p.pod.key})
    case AddIfNotPresent(p) => if p.pod.key in q.Pending() then q else q.(active := q.active[p.pod.key := p])
    case AddUnschedulable(p, c) =>
      if p.pod.key in q.Pending() then q
      else if q.moveCycle >= c then q.(backoff := q.backoff[p.pod.key := p])
      else q.(unschedulable := q.unschedulable[p.pod.key := p])
    case Pop(k) => if k in q.active then q.(active := q.active - {k}, cycle := q.cycle + 1) else q
    case Update(o, n, now) => Updated(q, o, n, now)
    case Delete(k) => if k in q.active then q.(active := q.active - {k})
                      else q.(backoff := q.backoff - {k}, unschedulable := q.unschedulable - {k})
    case Move(keys, b) =>
      q.(active := q.active + Select(q.unschedulable, keys - b),
         backoff := q.backoff + Select(q.unschedulable, keys * b),
         unschedulable := q.unschedulable - keys, moveCycle := q.cycle)
    case FlushBackoff(keys) => q.(active := q.active + Select(q.backoff, keys), backoff := q.backoff - keys)
  }

  ghost function Updated(q: Queues, oldPod: Option<Pod>, newPod: Pod, now: int): Queues {
    if oldPod.Some? && oldPod.value.key in q.active then
      q.(active := q.active[newPod.key := PodInfo(newPod, q.active[oldPod.value.key].timestamp)])
    else if oldPod.Some? && oldPod.value.key in q.backoff then
      q.(backoff := q.backoff - {oldPod.value.key},
         active := q.active[newPod.key := PodInfo(newPod, q.backoff[oldPod.value.key].timestamp)])
    else if newPod.key in q.unschedulable then
      var p := PodInfo(newPod, q.unschedulable[newPod.key].timestamp);
      if oldPod.Some? && oldPod.value.content ==
          newPod.content then q.(unschedulable := q.unschedulable[newPod.key := p])
      else q.(unschedulable := q.unschedulable - {newPod.key}, active := q.active[newPod.key := p])
    else
      q.(active := q.active[newPod.key := PodInfo(newPod, now)])
  }

  /** An update names the pod it replaces. */
  ghost predicate Proper(op: Op) {
    op.Update? ==> op.oldPod.Some? && op.oldPod.value.key == op.newPod.key
  }

  // ---- Where each operation leaves a pod ----

  datatype Place = InActive(info: PodInfo) | InBackoff(info: PodInfo) | InUnschedulable(info: PodInfo) | NotPending

  ghost function PlaceOf(q: Queues, key: string): Place {
    if key in q.active then InActive(q.active[key])
    else if key in q.backoff then InBackoff(q.backoff[key])
    else if key in q.unschedulable then InUnschedulable(q.unschedulable[key])
    else NotPending
  }

  /** The place of one pod after an operation, from its place before. Only a new pod brings a new timestamp. */
  ghost function Arrow(q: Queues, op: Op, key: string): Place {
    var at := PlaceOf(q, key);
    match op
    case Add(p) => if key == p.pod.key then InActive(p) else at
    case AddIfNotPresent(p) => if key == p.pod.key && at.NotPending? then InActive(p) else at
    case AddUnschedulable(p, podCycle) =>
      if key != p.pod.key || !at.NotPending? then at
      else if podCycle <= q.moveCycle then InBackoff(p) else InUnschedulable(p)
    case Pop(k) => if k == key && at.InActive? then NotPending else at
    case Update(o, n, now) =>
      if key != n.key then at
      else if at.NotPending? then InActive(PodInfo(n, now))
      else
        var p := PodInfo(n, at.info.timestamp);
        if at.InUnschedulable? && o.Some? && o.value.content == n.content then InUnschedulable(p) else InActive(p)
    case Delete(k) => if k == key then NotPending else at
    case Move(keys, backingOff) =>
      if !at.InUnschedulable? || key !in keys then at
      else if key in backingOff then InBackoff(at.info) else InActive(at.info)
    case FlushBackoff(keys) => if at.InBackoff? && key in keys then InActive(at.info) else at
  }

  lemma AddedPlace(q: Queues, p: PodInfo, c: int, key: string)
    requires q.Partition()
    ensures PlaceOf(Apply(q, Add(p)), key) == Arrow(q, Add(p), key)
    ensures PlaceOf(Apply(q, AddIfNotPresent(p)), key) == Arrow(q, AddIfNotPresent(p), key)
    ensures PlaceOf(Apply(q, AddUnschedulable(p, c)), key) == Arrow(q, AddUnschedulable(p, c), key)
  {
  }

  lemma UpdatedPlace(q: Queues, oldPod: Pod, newPod: Pod, now: int, key: string)
    requires q.Partition() && oldPod.key == newPod.key
    ensures PlaceOf(Updated(q, Some(oldPod), newPod, now), key) == Arrow(q, Update(Some(oldPod), newPod, now), key)
  {
  }

  lemma MovedPlace(q: Queues, keys: set<string>, b: set<string>, key: string)
    requires q.Partition()
    ensures PlaceOf(Apply(q, Move(keys, b)), key) == Arrow(q, Move(keys, b), key)
    ensures PlaceOf(Apply(q, FlushBackoff(keys)), key) == Arrow(q, FlushBackoff(keys), key)
  {
  }

  /** Every operation takes every pod along its arrow. */
  lemma PlaceFollowsArrow(q: Queues, op: Op, key: string)
    requires q.Partition() && Proper(op)
    ensures PlaceOf(Apply(q, op), key) == Arrow(q, op, key)
  {
    match op
    case Add(p) => AddedPlace(q, p, 0, key);
    case AddIfNotPresent(p) => AddedPlace(q, p, 0, key);
    case AddUnschedulable(p, c) => AddedPlace(q, p, c, key);
    case Pop(_) =>
    case Update(o, n, now) => UpdatedPlace(q, o.value, n, now, key);
    case Delete(_) =>
    case Move(keys, b) => MovedPlace(q, keys, b, key);
    case FlushBackoff(keys) => MovedPlace(q, keys, {}, key);
  }

  lemma AddKeepsPartition(q: Queues, p: PodInfo, c: int)
    requires q.Partition()
    ensures Apply(q, Add(p)).Partition() && Apply(q, AddIfNotPresent(p)).Partition()
    ensures Apply(q, AddUnschedulable(p, c)).Partition()
  {
  }

  lemma TakeKeepsPartition(q: Queues, k: string)
    requires q.Partition()
    ensures Apply(q, Pop(k)).Partition() && Apply(q, Delete(k)).Partition()
  {
  }

  lemma MoveKeepsPartition(q: Queues, keys: set<string>, b: set<string>)
    requires q.Partition()
    ensures Apply(q, Move(keys, b)).Partition() && Apply(q, FlushBackoff(keys)).Partition()
  {
  }

  /** Whether Update leaves every pod in one queue: the new pod must not wait in a queue that Update does not take it
      from. */
  ghost predicate UpdateIsSafe(q: Queues, oldPod: Option<Pod>, newPod: Pod) {
    if oldPod.Some? && oldPod.value.key in q.active then newPod.key !in q.backoff && newPod.key !in q.unschedulable
    else if oldPod.Some? && oldPod.value.key in q.backoff then
      (newPod.key == oldPod.value.key || newPod.key !in q.backoff) && newPod.key !in q.unschedulable
    else newPod.key !in q.backoff
  }

  /** Update keeps the partition exactly then. (Without the old pod, for a pod in unschedulableQ, the source
      dereferences nil.) */
  lemma UpdateKeepsPartition(q: Queues, oldPod: Option<Pod>, newPod: Pod, now: int)
    requires q.Partition() && (oldPod.None? ==> newPod.key !in q.unschedulable)
    ensures Apply(q, Update(oldPod, newPod, now)).Partition() <==> UpdateIsSafe(q, oldPod, newPod)
  {
    var q' := Apply(q, Update(oldPod, newPod, now));
    assert newPod.key in q'.active || newPod.key in q'.unschedulable;
  }

  lemma StepKeepsPartition(q: Queues, op: Op)
    requires q.Partition() && Proper(op)
    ensures Apply(q, op).Partition()
  {
    match op
    case Add(p) => AddKeepsPartition(q, p, 0);
    case AddIfNotPresent(p) => AddKeepsPartition(q, p, 0);
    case AddUnschedulable(p, c) => AddKeepsPartition(q, p, c);
    case Pop(k) => TakeKeepsPartition(q, k);
    case Delete(k) => TakeKeepsPartition(q, k);
    case Update(o, n, now) => UpdateKeepsPartition(q, o, n, now);
    case Move(keys, b) => MoveKeepsPartition(q, keys, b);
    case FlushBackoff(keys) => MoveKeepsPartition(q, keys, {});
  }

  /** No pod is in podBackoffQ and unschedulableQ at once, whatever Update is called with. */
  ghost predicate Apart(q: Queues) {
    q.backoff.Keys !! q.unschedulable.Keys
  }

  lemma StepKeepsApart(q: Queues, op: Op)
    requires Apart(q)
    ensures Apart(Apply(q, op))
  {
    var q' := Apply(q, op);
    if op.Move? {
      assert q'.backoff.Keys == q.backoff.Keys + (q.unschedulable.Keys * op.keys * op.backingOff);
    } else {
      assert q'.backoff.Keys <= q.backoff.Keys || q'.unschedulable == q.unschedulable;
    }
  }

  /** A pod that goes to podBackoffQ after a move, and is then updated without its old version, is in two queues. */
  lemma UpdateWithoutOldPodBreaks(p: PodInfo, newPod: Pod, now: int, q1: Queues, q2: Queues)
    requires q1 == Apply(EMPTY, Move({}, {})) && q2 == Apply(q1, AddUnschedulable(p, q1.cycle)) &&
             newPod.key == p.pod.key
    ensures q2.Partition() && !Apply(q2, Update(None, newPod, now)).Partition()
  {
    assert p.pod.key in q2.backoff;
    UpdateKeepsPartition(q2, None, newPod, now);
  }

  /** And so is one that replaces an active pod with another key. */
  lemma UpdateOfAnotherPodBreaks(p: PodInfo, o: PodInfo, newPod: Pod, now: int, q1: Queues, q2: Queues, q3: Queues)
    requires q1 == Apply(EMPTY, Move({}, {})) && q2 == Apply(q1, AddUnschedulable(p, q1.cycle)) &&
             q3 == Apply(q2, Add(o))
    requires newPod.key == p.pod.key != o.pod.key
    ensures q3.Partition() && !Apply(q3, Update(Some(o.pod), newPod, now)).Partition()
  {
    assert p.pod.key in q3.backoff && o.pod.key in q3.active;
    UpdateKeepsPartition(q3, Some(o.pod), newPod, now);
  }

  /** What each operation does to the pods that wait in some queue: only Pop and Delete take one away, and Delete takes
      it away from all queues although it looks at two of them only when activeQ did not have it. */
  lemma StepKeepsPending(q: Queues, op: Op)
    requires q.Partition() && Proper(op)
    ensures Apply(q, op).Pending() ==
            match op
            case Add(p) => q.Pending() + {p.pod.key}
            case AddIfNotPresent(p) => q.Pending() + {p.pod.key}
            case AddUnschedulable(p, _) => q.Pending() + {p.pod.key}
            case Update(_, n, _) => q.Pending() + {n.key}
            case Pop(k) => if k in q.active then q.Pending() - {k} else q.Pending()
            case Delete(k) => q.Pending() - {k}
            case Move(_, _) => q.Pending()
            case FlushBackoff(_) => q.Pending()
  {
  }

  /** Update leaves every pending pod pending exactly when it does not take an old pod out of podBackoffQ for a new one
      with another key. */
  lemma UpdateKeepsPending(q: Queues, oldPod: Option<Pod>, newPod: Pod, now: int)
    requires q.Partition() && (oldPod.None? ==> newPod.key !in q.unschedulable)
    ensures q.Pending() <= Apply(q, Update(oldPod, newPod, now)).Pending() <==>
            (oldPod.Some? && oldPod.value.key in q.backoff ==> oldPod.value.key == newPod.key)
  {
    var q' := Apply(q, Update(oldPod, newPod, now));
    if oldPod.Some? && oldPod.value.key in q.backoff {
      assert oldPod.value.key in q.Pending() && oldPod.value.key !in q.active;
    }
  }

  /** A pod in podBackoffQ that is updated to one with another key is in no queue any more. */
  lemma UpdateLosesPod(p: PodInfo, newPod: Pod, now: int, q1: Queues, q2: Queues)
    requires q1 == Apply(EMPTY, Move({}, {})) && q2 == Apply(q1, AddUnschedulable(p, q1.cycle))
    requires newPod.key != p.pod.key
    ensures p.pod.key in q2.Pending() && p.pod.key !in Apply(q2, Update(Some(p.pod), newPod, now)).Pending()
  {
    assert q2.backoff == map[p.pod.key := p] && p.pod.key !in q2.active;
  }

  /** `run[i + 1]` is `run[i]` after `ops[i]`. */
  ghost predicate IsRun(run: seq<Queues>, ops: seq<Op>) {
    |run| == |ops| + 1 && forall i {:trigger ops[i]} :: 0 <= i < |ops| ==> run[i + 1] == Apply(run[i], ops[i])
  }

  ghost predicate AllProper(ops: seq<Op>) {
    forall i :: 0 <= i < |ops| ==> Proper(ops[i])
  }

  lemma {:induction false} RunKeepsPartition(run: seq<Queues>, ops: seq<Op>, i: nat)
    requires IsRun(run, ops) && AllProper(ops) && run[0].Partition() && i < |run|
    ensures run[i].Partition()
  {
    if i > 0 {
      RunKeepsPartition(run, ops, i - 1);
      StepKeepsPartition(run[i - 1], ops[i - 1]);
    }
  }

  /** An operation that takes `k` away, or can: an Update that replaces it by a pod with another key. */
  ghost predicate Takes(op: Op, k: string) {
    op == Pop(k) || op == Delete(k) || (op.Update? && op.oldPod.Some? && op.oldPod.value.key == k != op.newPod.key)
  }

  lemma StaysPending(q: Queues, op: Op, k: string)
    requires k in q.Pending() && !Takes(op, k)
    ensures k in Apply(q, op).Pending()
  {
  }

  /** In every run a pending pod stays pending until an operation of its own takes it away. */
  lemma {:induction false} PendingUntilTaken(run: seq<Queues>, ops: seq<Op>, i: nat, j: nat, k: string)
    requires IsRun(run, ops) && i <= j < |run| && k in run[i].Pending()
    requires forall m :: i <= m < j ==> !Takes(ops[m], k)
    ensures k in run[j].Pending()
  {
    if i < j {
      PendingUntilTaken(run, ops, i, j - 1, k);
      StaysPending(run[j - 1], ops[j - 1], k);
      assert run[j] == Apply(run[j - 1], ops[j - 1]);
    }
  }

  lemma {:induction false} CyclesGrow(run: seq<Queues>, ops: seq<Op>, i: nat, j: nat)
    requires IsRun(run, ops) && run[0].moveCycle <= run[0].cycle && i <= j < |run|
    ensures run[i].cycle <= run[j].cycle && run[j].moveCycle <= run[j].cycle && run[i].moveCycle <= run[j].moveCycle
    decreases j
  {
    if i < j {
      CyclesGrow(run, ops, i, j - 1);
      assert run[j] == Apply(run[j - 1], ops[j - 1]);
    } else if j > 0 {
      CyclesGrow(run, ops, j - 1, j - 1);
      assert run[j] == Apply(run[j - 1], ops[j - 1]);
    }
  }

  lemma {:induction false} MoveCycleTellsMoves(run: seq<Queues>, ops: seq<Op>, i: nat, j: nat)
    requires IsRun(run, ops) && run[0].moveCycle <= run[0].cycle && 0 < i <= j < |run|
    requires ops[i - 1].Pop? && ops[i - 1].key in run[i - 1].active
    ensures run[j].moveCycle >= run[i].cycle <==> exists m :: i <= m < j && ops[m].Move?
  {
    if i == j {
      CyclesGrow(run, ops, i - 1, i - 1);
      assert run[i] == Apply(run[i - 1], ops[i - 1]);
    } else {
      MoveCycleTellsMoves(run, ops, i, j - 1);
      CyclesGrow(run, ops, i, j - 1);
      assert run[j] == Apply(run[j - 1], ops[j - 1]);
      if ops[j - 1].Move? {
        assert i <= j - 1 < j && ops[j - 1].Move?;
      }
    }
  }

  /** No lost wakeup: a pod popped as cycle `c` and found unschedulable goes to podBackoffQ, instead of unschedulableQ,
      exactly when a move was requested after that Pop. */
  lemma NoLostWakeup(run: seq<Queues>, ops: seq<Op>, i: nat, j: nat, p: PodInfo)
    requires IsRun(run, ops) && run[0] == EMPTY && 0 < i <= j < |run|
    requires ops[i - 1].Pop? && ops[i - 1].key in run[i - 1].active && p.pod.key !in run[j].Pending()
    ensures var q := Apply(run[j], AddUnschedulable(p, run[i].cycle));
            var moved := exists m :: i <= m < j && ops[m].Move?;
            && (p.pod.key in q.backoff <==> moved)
            && (p.pod.key in q.unschedulable <==> !moved)
  {
    MoveCycleTellsMoves(run, ops, i, j);
  }

  /** What Pop finds. */
  datatype Popped = Head(pod: Pod) | QueueClosed | Waits

  class PriorityQueue {
    const activeQ: Heap<PodInfo>
    const backoffs: BackoffQueue
    var unschedulableQ: Pods
    var schedulingCycle: int
    var moveRequestCycle: int
    var closed: bool
    /** What the two heaps hold, and the backoff entries. */
    ghost var active: Pods
    ghost var waiting: Pods
    ghost var entries: Times

    constructor (ghost now: int)
      ensures Valid() && St() == EMPTY && entries == map[] && !closed
    {
      ActiveQCompIsStrictWeak();
      backoffs := new BackoffQueue(now);
      activeQ := new Heap(PodInfoKey(), ActiveQOrder());
      unschedulableQ, schedulingCycle, moveRequestCycle, closed := map[], 0, -1, false;
      active, waiting, entries := map[], map[], map[];
    }

    ghost predicate Valid()
      reads this`active, this`waiting, this`entries, activeQ, backoffs, backoffs.queue, backoffs.podBackoff.expiryQ
    {
      && active == activeQ.Contents() && waiting == backoffs.Contents() && entries == backoffs.Entries()
      && activeQ.Valid() && activeQ.keyFunc == PodInfoKey() && activeQ.lessFunc == ActiveQOrder() &&
         activeQ.order == ActiveQOrder()
      && backoffs.Valid() && activeQ != backoffs.queue
    }

    ghost function St(): Queues
      reads this
    {
      Queues(active, waiting, unschedulableQ, schedulingCycle, moveRequestCycle)
    }

    /** The pods that are backing off. */
    ghost function BackingOff(now: int): set<string>
      reads this
    {
      set k | k in entries && now < entries[k].lastUpdate + entries[k].backoff
    }

    /** activeQ.Add. */
    method Activate(p: PodInfo)
      requires Valid()
      modifies this`active, activeQ`items, activeQ`queue
      ensures Valid() && active == old(active)[p.pod.key := p]
      ensures waiting == old(waiting) && entries == old(entries)
    {
      var _ := activeQ.Add(p);
      active := active[p.pod.key := p];
    }

    /** podBackoffQ.Add. */
    method PutOff(p: PodInfo)
      requires Valid()
      modifies this`waiting, backoffs.queue`items, backoffs.queue`queue
      ensures Valid() && waiting == old(waiting)[p.pod.key := p]
      ensures active == old(active) && entries == old(entries)
    {
      backoffs.Add(p);
      waiting := waiting[p.pod.key := p];
    }

    /** podBackoffQ.Delete. */
    method TakeOff(key: string)
      requires Valid()
      modifies this`waiting, backoffs.queue`items, backoffs.queue`queue
      ensures Valid() && waiting == old(waiting) - {key}
      ensures active == old(active) && entries == old(entries)
    {
      var _ := backoffs.Delete(key);
      waiting := waiting - {key};
    }

    /** clearPodBackoff, for a pod that is not in podBackoffQ. */
    method ClearBackoff(key: string)
      requires Valid() && key !in waiting
      modifies this`entries, backoffs`clock, backoffs.queue`lessFunc, backoffs.queue`order
      modifies backoffs.podBackoff.expiryQ`items, backoffs.podBackoff.expiryQ`queue
      ensures Valid() && waiting == old(waiting) && active == old(active)
      ensures entries == old(entries) - {key} && backoffs.clock == old(backoffs.clock)
    {
      backoffs.Clear(key);
      entries := entries - {key};
    }

    method AddPod(pod: Pod, now: int)
      requires Valid()
      modifies this`active, this`waiting, this`unschedulableQ, activeQ`items, activeQ`queue, backoffs.queue`items,
               backoffs.queue`queue
      ensures Valid() && St() == Apply(old(St()), Add(PodInfo(pod, now))) && entries == old(entries)
    {
      Activate(PodInfo(pod, now));
      unschedulableQ := unschedulableQ - {pod.key};
      TakeOff(pod.key);
    }

    method AddPodIfNotPresent(pod: Pod, now: int)
      requires Valid()
      modifies this`active, activeQ`items, activeQ`queue
      ensures Valid() && St() == Apply(old(St()), AddIfNotPresent(PodInfo(pod, now))) && entries == old(entries)
    {
      var pending := IsPending(pod.key);
      if !pending {
        Activate(PodInfo(pod, now));
      }
    }

    method IsPending(key: string) returns (pending: bool)
      requires Valid()
      ensures pending == (key in St().Pending())
    {
      pending := key in unschedulableQ || activeQ.GetByKey(key).Some? || backoffs.queue.GetByKey(key).Some?;
    }

    method AddUnschedulableIfNotPresent(pod: Pod, podSchedulingCycle: int, now: int, zero: int) returns (ok: bool)
      requires Valid() && backoffs.clock <= now
      modifies this`waiting, this`entries, this`unschedulableQ, backoffs`clock, backoffs.queue,
               backoffs.podBackoff.expiryQ`items, backoffs.podBackoff.expiryQ`queue
      ensures Valid() && ok == (pod.key !in old(St().Pending()))
      ensures St() == Apply(old(St()), AddUnschedulable(PodInfo(pod, now), podSchedulingCycle))
      ensures entries == if ok then Restarted(backoffs.podBackoff, old(entries), pod.key, now, zero) else old(entries)
    {
      var pending := IsPending(pod.key);
      ok := !pending;
      if ok {
        PutAside(PodInfo(pod, now), moveRequestCycle >= podSchedulingCycle, now, zero);
      }
    }

    /** Back the pod off, to podBackoffQ or unschedulableQ. */
    method PutAside(p: PodInfo, moved: bool, now: int, zero: int)
      requires Valid() && backoffs.clock <= now && p.pod.key !in waiting
      modifies this`waiting, this`entries, this`unschedulableQ, backoffs`clock, backoffs.queue
      modifies backoffs.podBackoff.expiryQ`items, backoffs.podBackoff.expiryQ`queue
      ensures Valid() && active == old(active)
      ensures entries == Restarted(backoffs.podBackoff, old(entries), p.pod.key, now, zero)
      ensures waiting == if moved then old(waiting)[p.pod.key := p] else old(waiting)
      ensures unschedulableQ == if moved then old(unschedulableQ) else old(unschedulableQ)[p.pod.key := p]
    {
      BackoffPod(p.pod.key, now, zero);
      if moved {
        PutOff(p);
      } else {
        unschedulableQ := unschedulableQ[p.pod.key := p];
      }
    }

    /** backoffPod. */
    method BackoffPod(key: string, now: int, zero: int)
      requires Valid() && backoffs.clock <= now && key !in waiting
      modifies this`entries, backoffs`clock, backoffs.queue`lessFunc, backoffs.queue`order
      modifies backoffs.podBackoff.expiryQ`items, backoffs.podBackoff.expiryQ`queue
      ensures Valid() && waiting == old(waiting) && active == old(active)
      ensures entries == Restarted(backoffs.podBackoff, old(entries), key, now, zero)
    {
      backoffs.Backoff(key, now, zero);
      entries := Restarted(backoffs.podBackoff, entries, key, now, zero);
    }

    /** One look of Pop at the queue: of the active pods of the highest priority one that has waited longest. With none,
        Pop fails if the queue is closed, and otherwise waits for another look. */
    method PopPod() returns (popped: Popped)
      requires Valid()
      modifies this`active, this`schedulingCycle, activeQ`items, activeQ`queue
      ensures Valid() && entries == old(entries) && (popped.Head? <==> old(St()).active != map[])
      ensures !popped.Head? ==> St() == old(St()) && (popped.QueueClosed? <==> closed)
      ensures popped.Head? ==> IsNextPod(old(St()).active, popped.pod) && St() == Apply(old(St()), Pop(popped.pod.key))
    {
      var first := activeQ.Peek();
      if first.None? {
        return if closed then QueueClosed else Waits;
      }
      ghost var q := St();
      var p := TakeFirst();
      FirstIsNextPod(q.active, p);
      schedulingCycle := schedulingCycle + 1;
      popped := Head(p.pod);
      assert active == q.active - {p.pod.key};
      assert waiting == q.backoff && unschedulableQ == q.unschedulable;
    }

    /** Close: every later look at an empty activeQ fails. */
    method Close()
      requires Valid()
      modifies this`closed
      ensures Valid() && closed && St() == old(St()) && entries == old(entries)
    {
      closed := true;
    }

    /** activeQ.Pop. */
    method TakeFirst() returns (p: PodInfo)
      requires Valid() && active != map[]
      modifies this`active, activeQ`items, activeQ`queue
      ensures Valid() && IsFirst(ActiveQOrder(), PodInfoKey(), old(active), p)
      ensures active == old(active) - {p.pod.key}
      ensures waiting == old(waiting) && entries == old(entries)
    {
      p := activeQ.Pop();
      active := active - {p.pod.key};
    }

    /** Delete. The pod leaves podBackoffQ before its entry is cleared here, and after it in the source; the heap does
        not look at a pod that it removes. */
    method DeletePod(pod: Pod)
      requires Valid()
      modifies this`active, this`waiting, this`entries, this`unschedulableQ, activeQ`items, activeQ`queue,
               backoffs`clock, backoffs.queue
      modifies backoffs.podBackoff.expiryQ`items, backoffs.podBackoff.expiryQ`queue
      ensures Valid() && St() == Apply(old(St()), Delete(pod.key))
      ensures entries == if pod.key in old(St()).active then old(entries) else old(entries) - {pod.key}
    {
      ghost var q := St();
      var ok := Deactivate(pod.key);
      if !ok {
        Forget(pod.key);
        assert active == q.active;
      }
    }

    /** Delete, for a pod that is not in activeQ. */
    method Forget(key: string)
      requires Valid()
      modifies this`waiting, this`entries, this`unschedulableQ, backoffs`clock, backoffs.queue
      modifies backoffs.podBackoff.expiryQ`items, backoffs.podBackoff.expiryQ`queue
      ensures Valid() && active == old(active) && waiting == old(waiting) - {key} && entries == old(entries) - {key}
      ensures unschedulableQ == old(unschedulableQ) - {key}
    {
      TakeOff(key);
      ClearBackoff(key);
      unschedulableQ := unschedulableQ - {key};
    }

    /** activeQ.Delete. */
    method Deactivate(key: string) returns (ok: bool)
      requires Valid()
      modifies this`active, activeQ`items, activeQ`queue
      ensures Valid() && ok == (key in old(active)) && active == old(active) - {key}
      ensures waiting == old(waiting) && entries == old(entries)
    {
      ok := activeQ.Delete(PodInfo(Pod(key, 0, 0), 0));
      active := active - {key};
    }

    method UpdatePod(oldPod: Option<Pod>, newPod: Pod, now: int)
      requires Valid() && (oldPod.None? ==> newPod.key !in unschedulableQ)
      requires newPod.key in unschedulableQ ==> newPod.key !in waiting
      modifies this`active, this`waiting, this`entries, this`unschedulableQ, activeQ`items, activeQ`queue,
               backoffs`clock, backoffs.queue
      modifies backoffs.podBackoff.expiryQ`items, backoffs.podBackoff.expiryQ`queue
      ensures Valid() && St() == Apply(old(St()), Update(oldPod, newPod, now))
      ensures entries == if UpdateClears(old(St()), oldPod, newPod) then old(entries) - {newPod.key} else old(entries)
    {
      if oldPod.Some? {
        var known := activeQ.GetByKey(oldPod.value.key);
        if known.Some? {
          Activate(PodInfo(newPod, known.value.timestamp));
          return;
        }
        var waiting := backoffs.queue.GetByKey(oldPod.value.key);
        if waiting.Some? {
          TakeOff(oldPod.value.key);
          Activate(PodInfo(newPod, waiting.value.timestamp));
          return;
        }
      }
      UpdateUnschedulable(oldPod, newPod, now);
    }

    /** The second half of Update, for a pod in neither heap. */
    method UpdateUnschedulable(oldPod: Option<Pod>, newPod: Pod, now: int)
      requires Valid() && (oldPod.None? ==> newPod.key !in unschedulableQ)
      requires newPod.key in unschedulableQ ==> newPod.key !in waiting
      requires oldPod.Some? ==> oldPod.value.key !in St().active && oldPod.value.key !in St().backoff
      modifies this`active, this`entries, this`unschedulableQ, activeQ`items, activeQ`queue, backoffs`clock,
               backoffs.queue`lessFunc, backoffs.queue`order
      modifies backoffs.podBackoff.expiryQ`items, backoffs.podBackoff.expiryQ`queue
      ensures Valid() && St() == Apply(old(St()), Update(oldPod, newPod, now))
      ensures entries == if UpdateClears(old(St()), oldPod, newPod) then old(entries) - {newPod.key} else old(entries)
    {
      if newPod.key in unschedulableQ {
        var p := PodInfo(newPod, unschedulableQ[newPod.key].timestamp);
        if oldPod.value.content != newPod.content {
          ClearBackoff(newPod.key);
          unschedulableQ := unschedulableQ - {newPod.key};
          Activate(p);
        } else {
          unschedulableQ := unschedulableQ[newPod.key := p];
        }
      } else {
        Activate(PodInfo(newPod, now));
      }
    }

    method MovePod(k: string, now: int)
      requires Valid() && k in unschedulableQ && unschedulableQ[k].pod.key == k
      modifies this`active, this`waiting, this`unschedulableQ, activeQ`items, activeQ`queue, backoffs.queue`items,
               backoffs.queue`queue
      ensures Valid() && entries == old(entries) && St() == MoveOne(old(St()), k, old(BackingOff(now)))
    {
      var p := unschedulableQ[k];
      var waits := IsBackingOff(k, now);
      if waits {
        PutOff(p);
      } else {
        Activate(p);
      }
      unschedulableQ := unschedulableQ - {k};
    }

    /** isPodBackingOff. */
    method IsBackingOff(k: string, now: int) returns (waits: bool)
      requires Valid()
      ensures waits == (k in BackingOff(now))
    {
      waits := backoffs.IsBackingOff(k, now);
    }

    /** movePodsToActiveQueue. */
    method MovePodsToActiveQueue(keys: set<string>, now: int)
      requires Valid() && keys <= unschedulableQ.Keys && Keyed(unschedulableQ)
      modifies this`active, this`waiting, this`unschedulableQ, this`moveRequestCycle, activeQ`items, activeQ`queue,
               backoffs.queue`items, backoffs.queue`queue
      ensures Valid() && entries == old(entries)
      ensures St() == Apply(old(St()), Move(keys, old(BackingOff(now))))
    {
      MoveEach(keys, now);
      moveRequestCycle := schedulingCycle;
    }

    /** The loop of movePodsToActiveQueue. */
    method MoveEach(keys: set<string>, now: int)
      requires Valid() && keys <= unschedulableQ.Keys && Keyed(unschedulableQ)
      modifies this`active, this`waiting, this`unschedulableQ, activeQ`items, activeQ`queue, backoffs.queue`items,
               backoffs.queue`queue
      ensures Valid() && entries == old(entries) && St() == Moved(old(St()), keys, old(BackingOff(now)))
    {
      var todo := keys;
      ghost var start, b, m, done := St(), BackingOff(now), entries, {};
      MovedNone(start, b);
      while todo != {}
        invariant Valid() && entries == m && todo <= keys && done == keys - todo
        invariant St() == Moved(start, done, b)
      {
        var k :| k in todo;
        MovedStep(start, done, b, k);
        MovePod(k, now);
        todo, done := todo - {k}, done + {k};
      }
      assert done == keys;
    }

    /** MoveAllToActiveQueue. */
    method MoveAllToActiveQueue(now: int)
      requires Valid() && Keyed(unschedulableQ)
      modifies this`active, this`waiting, this`unschedulableQ, this`moveRequestCycle, activeQ`items, activeQ`queue,
               backoffs.queue`items, backoffs.queue`queue
      ensures Valid() && entries == old(entries)
      ensures St() == Apply(old(St()), Move(old(unschedulableQ.Keys), old(BackingOff(now))))
    {
      MovePodsToActiveQueue(unschedulableQ.Keys, now);
    }

    /** AssignedPodAdded and AssignedPodUpdated: move the pods with an affinity term that matches. */
    method AssignedPodChanged(matching: set<string>, now: int)
      requires Valid() && Keyed(unschedulableQ)
      modifies this`active, this`waiting, this`unschedulableQ, this`moveRequestCycle, activeQ`items, activeQ`queue,
               backoffs.queue`items, backoffs.queue`queue
      ensures Valid() && entries == old(entries)
      ensures St() == Apply(old(St()), Move(matching * old(unschedulableQ.Keys), old(BackingOff(now))))
    {
      MovePodsToActiveQueue(matching * unschedulableQ.Keys, now);
    }

    /** flushUnschedulableQLeftover: move the pods that have been unschedulable for longer than 60 seconds. */
    method FlushUnschedulableQLeftover(now: int)
      requires Valid() && Keyed(unschedulableQ)
      modifies this`active, this`waiting, this`unschedulableQ, this`moveRequestCycle, activeQ`items, activeQ`queue,
               backoffs.queue`items, backoffs.queue`queue
      ensures Valid() && entries == old(entries)
      ensures var stale := set k | k in old(unschedulableQ) && now - old(unschedulableQ)[k].timestamp > 60;
              St() == if stale == {} then old(St()) else Apply(old(St()), Move(stale, old(BackingOff(now))))
    {
      var podsToMove := set k | k in unschedulableQ && now - unschedulableQ[k].timestamp > 60;
      if podsToMove != {} {
        MovePodsToActiveQueue(podsToMove, now);
      }
    }

    /** One round of flushBackoffQCompleted. */
    method FlushHead(now: int) returns (moved: bool, ghost k: string)
      requires Valid() && backoffs.clock <= now
      modifies this`active, this`waiting, activeQ`items, activeQ`queue, backoffs`clock, backoffs.queue
      ensures Valid() && entries == old(entries) && backoffs.clock == now
      ensures moved ==> k in old(St()).backoff && k !in BackingOff(now) && St() == FlushOne(old(St()), k)
      ensures !moved ==> St() == old(St()) && St().backoff.Keys <= BackingOff(now)
    {
      k := "";
      ghost var q := St();
      var p := TakeReady(now);
      moved := p.Some?;
      if moved {
        k := p.value.pod.key;
        Activate(p.value);
        assert active == q.active[k := q.backoff[k]];
        assert waiting == q.backoff - {k};
      }
    }

    /** The head of podBackoffQ, unless it is backing off. */
    method TakeReady(now: int) returns (p: Option<PodInfo>)
      requires Valid() && backoffs.clock <= now
      modifies this`waiting, backoffs`clock, backoffs.queue
      ensures Valid() && backoffs.clock == now
      ensures p.None? ==> waiting == old(waiting) && waiting.Keys <= BackingOff(now)
      ensures p.Some? ==> p.value.pod.key in old(waiting) && old(waiting)[p.value.pod.key] == p.value
      ensures p.Some? ==> p.value.pod.key !in BackingOff(now) && waiting == old(waiting) - {p.value.pod.key}
    {
      p := backoffs.PopReady(now);
      if p.Some? {
        waiting := waiting - {p.value.pod.key};
      }
    }

    /** flushBackoffQCompleted: exactly the pods that are not backing off move to activeQ, although it stops at the
        first head that is. */
    method FlushBackoffQCompleted(now: int)
      requires Valid() && backoffs.clock <= now
      modifies this`active, this`waiting, activeQ`items, activeQ`queue, backoffs`clock, backoffs.queue
      ensures Valid() && entries == old(entries)
      ensures St() == Apply(old(St()), FlushBackoff(old(St()).backoff.Keys - old(BackingOff(now))))
    {
      ghost var start, b, m, keys := St(), BackingOff(now), entries, {};
      FlushedNone(start);
      var moved := true;
      while moved
        invariant Valid() && entries == m && backoffs.clock <= now && keys <= start.backoff.Keys - b
        invariant St() == Apply(start, FlushBackoff(keys))
        invariant !moved ==> St().backoff.Keys <= b
        decreases moved, St().backoff
      {
        ghost var k;
        moved, k := FlushHead(now);
        if moved {
          FlushedStep(start, keys, k);
          keys := keys + {k};
        }
      }
      AllFlushed(start, keys, b);
    }
  }

  /** `pod` is active, no active pod has a higher priority, and of those with its priority none has waited longer. */
  ghost predicate IsNextPod(active: Pods, pod: Pod) {
    && pod.key in active && active[pod.key].pod == pod
    && (forall k :: k in active ==> active[k].pod.priority <= pod.priority)
    && (forall k :: k in active && active[k].pod.priority == pod.priority ==>
          active[pod.key].timestamp <= active[k].timestamp)
  }

  lemma FirstIsNextPod(active: Pods, p: PodInfo)
    requires IsFirst(ActiveQOrder(), PodInfoKey(), active, p)
    ensures IsNextPod(active, p.pod)
  {
    forall k | k in active
      ensures active[k].pod.priority <= p.pod.priority
      ensures active[k].pod.priority == p.pod.priority ==> p.timestamp <= active[k].timestamp
    {
      assert !ActiveQOrder()(active[k], p);
    }
  }

  ghost function Restarted(b: PodBackoff, m: Times, key: string, now: int, zero: int): Times {
    b.Restarted(b.Live(m, now), key, now, zero)
  }

  /** Update clears the backoff of a pod that changed while it was unschedulable. */
  ghost predicate UpdateClears(q: Queues, oldPod: Option<Pod>, newPod: Pod) {
    && oldPod.Some? && oldPod.value.key !in q.active && oldPod.value.key !in q.backoff
    && newPod.key in q.unschedulable && oldPod.value.content != newPod.content
  }

  lemma AllFlushed(q: Queues, keys: set<string>, b: set<string>)
    requires keys <= q.backoff.Keys - b && Apply(q, FlushBackoff(keys)).backoff.Keys <= b
    ensures keys == q.backoff.Keys - b
  {
    forall k | k in q.backoff && k !in b ensures k in keys {
      assert k !in Apply(q, FlushBackoff(keys)).backoff;
    }
  }

  /** Move one unschedulable pod on: to podBackoffQ while it is backing off, otherwise to activeQ. */
  ghost function MoveOne(q: Queues, k: string, b: set<string>): Queues
    requires k in q.unschedulable
  {
    var p := q.unschedulable[k];
    q.(active := if k in b then q.active else q.active[k := p],
       backoff := if k in b then q.backoff[k := p] else q.backoff,
       unschedulable := q.unschedulable - {k})
  }

  ghost function FlushOne(q: Queues, k: string): Queues
    requires k in q.backoff
  {
    q.(active := q.active[k := q.backoff[k]], backoff := q.backoff - {k})
  }

  /** A move before it sets moveRequestCycle. */
  ghost function Moved(q: Queues, keys: set<string>, b: set<string>): Queues {
    Apply(q, Move(keys, b)).(moveCycle := q.moveCycle)
  }

  lemma SelectAdd(base: Pods, m: Pods, keys: set<string>, k: string)
    requires k in m
    ensures base + Select(m, keys + {k}) == (base + Select(m, keys))[k := m[k]]
  {
  }

  lemma MovedNone(q: Queues, b: set<string>)
    ensures Moved(q, {}, b) == q
  {
    assert Select(q.unschedulable, {} - b) == map[] && Select(q.unschedulable, {} * b) == map[];
    assert q.active + map[] == q.active && q.backoff + map[] == q.backoff && q.unschedulable - {} == q.unschedulable;
  }

  lemma MovedStep(q: Queues, keys: set<string>, b: set<string>, k: string)
    requires k in q.unschedulable && k !in keys
    ensures k in Moved(q, keys, b).unschedulable && Moved(q, keys, b).unschedulable[k] == q.unschedulable[k]
    ensures Moved(q, keys + {k}, b) == MoveOne(Moved(q, keys, b), k, b)
  {
    assert (keys + {k}) - b == if k in b then keys - b else keys - b + {k};
    assert (keys + {k}) * b == if k in b then keys * b + {k} else keys * b;
    SelectAdd(q.active, q.unschedulable, keys - b, k);
    SelectAdd(q.backoff, q.unschedulable, keys * b, k);
    assert q.unschedulable - (keys + {k}) == q.unschedulable - keys - {k};
  }

  lemma FlushedNone(q: Queues)
    ensures Apply(q, FlushBackoff({})) == q
  {
    assert Select(q.backoff, {}) == map[];
    assert q.active + map[] == q.active && q.backoff - {} == q.backoff;
  }

  lemma FlushedStep(q: Queues, keys: set<string>, k: string)
    requires k in Apply(q, FlushBackoff(keys)).backoff
    ensures k in q.backoff && Apply(q, FlushBackoff(keys + {k})) == FlushOne(Apply(q, FlushBackoff(keys)), k)
  {
    SelectAdd(q.active, q.backoff, keys, k);
    assert q.backoff - (keys + {k}) == q.backoff - keys - {k};
  }
}
