/** podBackoff and podBackoffQ of kube-scheduler/pkg/internal/queue/scheduling_queue.go: a heap of pods that is ordered
    by backoff entries which change underneath it. */
module BackoffQueues {
  import opened Collections
  import opened KeyedHeap
  import opened PodBackoffs

  /** `content` is what isPodUpdated compares: the pod without its status, resource version and generation. */
  datatype Pod = Pod(key: string, priority: int, content: int)

  datatype PodInfo = PodInfo(pod: Pod, timestamp: int)

  /** podInfoKeyFunc. */
  function PodInfoKey(): PodInfo -> Option<string> {
    (p: PodInfo) => Some(p.pod.key)
  }

  type Pods = map<string, PodInfo>

  type Times = map<string, Entry>

  // ---- The order ----

  /** When the backoff of `k` completes; nothing, which comes before all times, without an entry. */
  function TimeOf(m: Times, k: string): Option<int> {
    if k in m then Some(m[k].BackoffTime()) else None
  }

  predicate Before(a: Option<int>, b: Option<int>) {
    b.Some? && (a.None? || a.value < b.value)
  }

  /** podsCompareBackoffCompleted, with the entries as they are. */
  function Sooner(m: Times): (PodInfo, PodInfo) -> bool {
    (a: PodInfo, b: PodInfo) => IsSooner(m, a, b)
  }

  predicate IsSooner(m: Times, a: PodInfo, b: PodInfo) {
    Before(TimeOf(m, a.pod.key), TimeOf(m, b.pod.key))
  }

  /** When the backoff of `k` completes, seen from time `r`: all that is past counts as `r`. */
  ghost function Rank(m: Times, r: int, k: string): int {
    if k in m && m[k].BackoffTime() > r then m[k].BackoffTime() else r
  }

  ghost function ByRank(m: Times, r: int): (PodInfo, PodInfo) -> bool {
    (a: PodInfo, b: PodInfo) => RanksBelow(m, r, a, b)
  }

  ghost predicate RanksBelow(m: Times, r: int, a: PodInfo, b: PodInfo) {
    Rank(m, r, a.pod.key) < Rank(m, r, b.pod.key)
  }

  lemma ByRankAgrees(m: Times, r: int)
    ensures StrictWeak(ByRank(m, r)) && Agrees(ByRank(m, r), Sooner(m))
  {
  }

  /** Seen from `r`, the pods of `pods` are where they were with the entries `m`. */
  ghost predicate SameRanks(pods: Pods, m: Times, m': Times, r: int) {
    forall k :: k in pods ==> Rank(m', r, k) == Rank(m, r, k)
  }

  ghost predicate Keyed(pods: Pods) {
    forall k :: k in pods ==> pods[k].pod.key == k
  }

  lemma OtherRanks(pods: Pods, m: Times, m': Times, key: string, r: int)
    requires key !in pods && m - {key} == m' - {key}
    ensures SameRanks(pods, m, m', r)
  {
    forall k | k in pods ensures Rank(m', r, k) == Rank(m, r, k) {
      assert k in m - {key} <==> k in m;
      assert k in m' - {key} <==> k in m';
      assert k in m ==> (m - {key})[k] == m[k] && (m' - {key})[k] == m'[k];
    }
  }

  /** Time goes on, and entries of other pods change: the order only loses distinctions. */
  lemma OrderGoesOn(pods: Pods, m: Times, r: int, m': Times, r': int)
    requires Keyed(pods) && r <= r' && SameRanks(pods, m, m', r')
    ensures forall k, l :: k in pods && l in pods && ByRank(m', r')(pods[k], pods[l]) ==> ByRank(m, r)(pods[k], pods[l])
  {
  }

  class BackoffQueue {
    const podBackoff: PodBackoff
    const queue: Heap<PodInfo>
    /** The last time that mattered. */
    ghost var clock: int

    constructor (ghost now: int)
      ensures Valid() && Contents() == map[] && Entries() == map[] && clock == now
      ensures fresh(podBackoff) && fresh(podBackoff.expiryQ) && fresh(queue)
    {
      ByRankAgrees(map[], now);
      podBackoff := new PodBackoff(1, 10);
      queue := new Heap(PodInfoKey(), (a: PodInfo, b: PodInfo) => false);
      clock := now;
      new;
      queue.Reorder(Sooner(map[]), ByRank(map[], now));
    }

    ghost predicate Valid()
      reads this, queue, podBackoff.expiryQ
    {
      && podBackoff.Valid() && queue.Valid() && queue.keyFunc == PodInfoKey()
      && queue.lessFunc == Sooner(Entries()) && queue.order == ByRank(Entries(), clock)
    }

    ghost function Contents(): Pods
      reads queue
    {
      queue.Contents()
    }

    function Entries(): Times
      reads podBackoff.expiryQ
    {
      podBackoff.Entries()
    }

    /** The pods that are backing off. */
    ghost function BackingOff(now: int): set<string>
      reads podBackoff.expiryQ
    {
      set k | k in Entries() && now < Entries()[k].lastUpdate + Entries()[k].backoff
    }

    lemma ContentsKeyed()
      requires Valid()
      ensures Keyed(Contents())
    {
      forall k | k in Contents() ensures Contents()[k].pod.key == k {
        queue.KeyOfContents(k);
      }
    }

    /** The entries were `m`, and it is now `now`. */
    method Resync(ghost m: Times, ghost now: int)
      requires podBackoff.Valid() && queue.Valid() && queue.keyFunc == PodInfoKey() && queue.order == ByRank(m, clock)
      requires clock <= now && Keyed(Contents()) && SameRanks(Contents(), m, Entries(), now)
      modifies this`clock, queue`lessFunc, queue`order
      ensures Valid() && clock == now && Contents() == old(Contents()) && Entries() == old(Entries())
    {
      ByRankAgrees(Entries(), now);
      OrderGoesOn(Contents(), m, clock, Entries(), now);
      queue.Reorder(Sooner(Entries()), ByRank(Entries(), now));
      clock := now;
    }

    method Add(p: PodInfo)
      requires Valid()
      modifies queue`items, queue`queue
      ensures Valid() && Contents() == old(Contents())[p.pod.key := p] && Entries() == old(Entries())
    {
      var _ := queue.Add(p);
    }

    method Delete(key: string) returns (ok: bool)
      requires Valid()
      modifies queue`items, queue`queue
      ensures Valid() && ok == (key in old(Contents())) && Contents() == old(Contents()) - {key} &&
              Entries() == old(Entries())
    {
      ok := queue.Delete(PodInfo(Pod(key, 0, 0), 0));
    }

    /** isPodBackingOff. */
    method IsBackingOff(k: string, now: int) returns (waits: bool)
      requires Valid()
      ensures waits == (k in BackingOff(now))
    {
      var boTime := podBackoff.GetBackoffTime(k);
      waits := boTime.Some? && boTime.value > now;
    }

    /** backoffPod: expired entries go, and the pod's backoff starts again if it has run out. */
    method Backoff(key: string, now: int, zero: int)
      requires Valid() && clock <= now && key !in Contents()
      modifies this`clock, queue`lessFunc, queue`order, podBackoff.expiryQ`items, podBackoff.expiryQ`queue
      ensures Valid() && clock == now && Contents() == old(Contents())
      ensures Entries() == podBackoff.Restarted(podBackoff.Live(old(Entries()), now), key, now, zero)
    {
      Collect(now);
      var boTime := podBackoff.GetBackoffTime(key);
      if boTime.None? || boTime.value < now {
        Restart(key, now, zero);
      }
    }

    method Collect(now: int)
      requires Valid() && clock <= now
      modifies this`clock, queue`lessFunc, queue`order, podBackoff.expiryQ`items, podBackoff.expiryQ`queue
      ensures Valid() && clock == now && Contents() == old(Contents()) &&
              Entries() == podBackoff.Live(old(Entries()), now)
    {
      ContentsKeyed();
      ghost var m := Entries();
      podBackoff.Gc(now);
      GcKeepsRanks(Contents(), m, now);
      Resync(m, now);
    }

    method Restart(key: string, now: int, zero: int)
      requires Valid() && clock <= now && key !in Contents()
      modifies this`clock, queue`lessFunc, queue`order, podBackoff.expiryQ`items, podBackoff.expiryQ`queue
      ensures Valid() && clock == now && Contents() == old(Contents())
      ensures var e := old(podBackoff.EntryOf(key, zero)).(lastUpdate := now).Next(podBackoff.maxDuration);
              Entries() == old(Entries())[key := e]
    {
      ContentsKeyed();
      ghost var m := Entries();
      var _ := podBackoff.BackoffPod(key, now, zero);
      OtherRanks(Contents(), m, Entries(), key, now);
      Resync(m, now);
    }

    /** What Gc collects has run out, and counts as past with or without its entry. */
    lemma GcKeepsRanks(pods: Pods, m: Times, now: int)
      requires podBackoff.Capped(m)
      ensures SameRanks(pods, m, podBackoff.Live(m, now), now)
    {
    }

    /** clearPodBackoff, for a pod that is not in the queue. */
    method Clear(key: string)
      requires Valid() && key !in Contents()
      modifies this`clock, queue`lessFunc, queue`order, podBackoff.expiryQ`items, podBackoff.expiryQ`queue
      ensures Valid() && clock == old(clock) && Contents() == old(Contents()) && Entries() == old(Entries()) - {key}
    {
      ContentsKeyed();
      ghost var m := Entries();
      var _ := podBackoff.ClearPodBackoff(key);
      OtherRanks(Contents(), m, Entries(), key, clock);
      Resync(m, clock);
    }

    /** The head of the queue, unless it is backing off; then every pod in the queue is. */
    method PopReady(now: int) returns (p: Option<PodInfo>)
      requires Valid() && clock <= now
      modifies this`clock, queue
      ensures Valid() && clock == now && Entries() == old(Entries())
      ensures p.None? ==> Contents() == old(Contents()) && Contents().Keys <= BackingOff(now)
      ensures p.Some? ==> p.value.pod.key in old(Contents()) && old(Contents())[p.value.pod.key] == p.value
      ensures p.Some? ==> p.value.pod.key !in BackingOff(now) && Contents() == old(Contents()) - {p.value.pod.key}
    {
      ContentsKeyed();
      Resync(Entries(), now);
      p := queue.Peek();
      if p.Some? {
        var waits := IsBackingOff(p.value.pod.key, now);
        if waits {
          AllWait(Contents(), Entries(), now, p.value);
          p := None;
        } else {
          DropHead(p.value);
        }
      }
    }

    method DropHead(ghost p: PodInfo)
      requires Valid() && |queue.queue| > 0 && queue.Objects()[0] == p
      modifies queue`items, queue`queue
      ensures Valid() && Contents() == old(Contents()) - {p.pod.key} && Entries() == old(Entries())
    {
      assert queue.queue[0] in queue.Contents();
      var _ := queue.Pop();
    }

    lemma AllWait(pods: Pods, m: Times, now: int, p: PodInfo)
      requires Keyed(pods) && IsFirst(ByRank(m, now), PodInfoKey(), pods, p) && p.pod.key in m &&
               m[p.pod.key].BackoffTime() > now
      ensures forall k :: k in pods ==> k in m && m[k].BackoffTime() > now
    {
      forall k | k in pods ensures k in m && m[k].BackoffTime() > now {
        assert !ByRank(m, now)(pods[k], p);
      }
    }
  }
}
