/** PodBackoff of kube-scheduler/pkg/util/backoff_utils.go, a client of the heap. Times and durations are integers. */
module PodBackoffs {
  import opened Collections
  import opened KeyedHeap

  /** backoffEntry; an entry's lock is not modelled. */
  datatype Entry = Entry(podName: string, initialized: bool, backoff: int, lastUpdate: int)
  {
    /** backoffTime: when the entry completes its backoff. */
    function BackoffTime(): int {
      lastUpdate + backoff
    }

    /** getBackoff: the first call keeps the initial duration, the later ones double it up to `maxDuration`. */
    function Next(maxDuration: int): Entry {
      if !initialized then this.(initialized := true)
      else this.(backoff := if 2 * backoff > maxDuration then maxDuration else 2 * backoff)
    }
  }

  function EntryKey(): Entry -> Option<string> {
    (e: Entry) => Some(e.podName)
  }

  function UpdatedBefore(): (Entry, Entry) -> bool {
    (a: Entry, b: Entry) => a.lastUpdate < b.lastUpdate
  }

  lemma UpdatedBeforeIsStrictWeak()
    ensures StrictWeak(UpdatedBefore())
  {
  }

  lemma SecondUpdateWins(m: map<string, Entry>, k: string, e: Entry, e': Entry)
    ensures m[k := e][k := e'] == m[k := e']
  {
  }

  class PodBackoff {
    const expiryQ: Heap<Entry>
    const defaultDuration: int
    const maxDuration: int

    constructor (defaultDuration: int, maxDuration: int)
      requires defaultDuration <= maxDuration
      ensures Valid() && fresh(expiryQ) && Entries() == map[]
      ensures this.defaultDuration == defaultDuration && this.maxDuration == maxDuration
    {
      UpdatedBeforeIsStrictWeak();
      expiryQ := new Heap(EntryKey(), UpdatedBefore());
      this.defaultDuration, this.maxDuration := defaultDuration, maxDuration;
    }

    ghost predicate Valid()
      reads expiryQ
    {
      && expiryQ.Valid() && expiryQ.keyFunc == EntryKey() && expiryQ.lessFunc == UpdatedBefore() &&
         expiryQ.order == UpdatedBefore()
      && defaultDuration <= maxDuration && Capped(Entries())
    }

    function Entries(): map<string, Entry>
      reads expiryQ
    {
      expiryQ.Contents()
    }

    /** No backoff is longer than the maximum. */
    ghost predicate Capped(m: map<string, Entry>) {
      forall k :: k in m ==> m[k].backoff <= maxDuration
    }

    ghost predicate Expired(e: Entry, now: int) {
      now - e.lastUpdate > maxDuration
    }

    /** The entries that have not expired. */
    ghost function Live(m: map<string, Entry>, now: int): map<string, Entry> {
      map k | k in m && !Expired(m[k], now) :: m[k]
    }

    lemma LiveWithout(m: map<string, Entry>, now: int, k: string)
      requires k in m && Expired(m[k], now)
      ensures Live(m - {k}, now) == Live(m, now) && |m - {k}| == |m| - 1
    {
      assert m.Keys == (m - {k}).Keys + {k};
    }

    /** An entry that none was updated before tells whether any has expired. */
    lemma OldestTells(m: map<string, Entry>, now: int, e: Entry, f: Entry)
      requires IsFirst(UpdatedBefore(), EntryKey(), m, e) && IsFirst(UpdatedBefore(), EntryKey(), m, f)
      ensures Expired(e, now) == Expired(f, now)
      ensures !Expired(e, now) ==> Live(m, now) == m
    {
      assert !UpdatedBefore()(m[e.podName], f) && !UpdatedBefore()(m[f.podName], e);
    }

    /** The entry of a pod, or the one getEntry makes up, last updated at the zero time. */
    ghost function EntryOf(podID: string, zero: int): Entry
      reads expiryQ
    {
      if podID in Entries() then Entries()[podID] else Entry(podID, false, defaultDuration, zero)
    }

    /** What backoffPod of the scheduling queue makes of the entries: a backoff that has run out starts again. */
    ghost function Restarted(m: map<string, Entry>, podID: string, now: int, zero: int): map<string, Entry> {
      var e := if podID in m then m[podID] else Entry(podID, false, defaultDuration, zero);
      if podID in m && e.BackoffTime() >= now then m else m[podID := e.(lastUpdate := now).Next(maxDuration)]
    }

    /** A backoff that has not run out goes on; a first one is for the default duration from now, and a later one from
        now for twice the last, but at most the maximum. */
    lemma RestartedUntil(m: map<string, Entry>, podID: string, now: int, zero: int)
      ensures var m' := Restarted(m, podID, now, zero);
        if podID in m && now <= m[podID].lastUpdate + m[podID].backoff then m' == m
        else
          && m'.Keys == m.Keys + {podID} && (forall k :: k in m && k != podID ==> m'[k] == m[k])
          && m'[podID].lastUpdate + m'[podID].backoff ==
             now + if podID !in m then defaultDuration
                   else if !m[podID].initialized then m[podID].backoff
                   else if 2 * m[podID].backoff <= maxDuration then 2 * m[podID].backoff else maxDuration
    {
    }

    /** getEntry: look the entry up, adding a new one if there is none. */
    method GetEntry(podID: string, zero: int) returns (e: Entry)
      requires Valid()
      modifies expiryQ`items, expiryQ`queue
      ensures Valid() && e == old(EntryOf(podID, zero)) && e.podName == podID
      ensures Entries() == old(Entries())[podID := e]
    {
      var known := expiryQ.GetByKey(podID);
      if known.None? {
        e := Entry(podID, false, defaultDuration, zero);
        var _ := expiryQ.Add(e);
      } else {
        e := known.value;
        expiryQ.KeyOfContents(podID);
        assert Entries()[podID := e] == Entries();
      }
    }

    /** BackoffPod: restart the pod's backoff at `now` and return its new duration. The duration is changed after the
        heap is repaired, which is the same as before, because the order looks at `lastUpdate` only. */
    method BackoffPod(podID: string, now: int, zero: int) returns (duration: int)
      requires Valid()
      modifies expiryQ`items, expiryQ`queue
      ensures Valid()
      ensures Entries() == old(Entries())[podID := old(EntryOf(podID, zero)).(lastUpdate := now).Next(maxDuration)]
      ensures duration == Entries()[podID].backoff && Entries()[podID].lastUpdate == now
    {
      var known := GetEntry(podID, zero);
      var e := known.(lastUpdate := now).Next(maxDuration);
      SecondUpdateWins(old(Entries()), podID, known, e);
      var _ := expiryQ.Add(e);
      duration := e.backoff;
    }

    /** One round of Gc: drop the head if it has expired; if it has not, no entry has. */
    method DropExpired(now: int) returns (dropped: bool)
      requires Valid()
      modifies expiryQ`items, expiryQ`queue
      ensures Valid()
      ensures Live(Entries(), now) == Live(old(Entries()), now)
      ensures if dropped then |Entries()| < |old(Entries())| else Entries() == Live(old(Entries()), now)
    {
      var head := expiryQ.Peek();
      dropped := head.Some? && now - head.value.lastUpdate > maxDuration;
      ghost var entries := Entries();
      if dropped {
        var e := expiryQ.Pop();
        OldestTells(entries, now, head.value, e);
        LiveWithout(entries, now, e.podName);
      } else if head.Some? {
        OldestTells(entries, now, head.value, head.value);
      }
    }

    /** Gc: stops at the first entry that has not expired, and yet removes exactly the expired ones. */
    method Gc(now: int)
      requires Valid()
      modifies expiryQ`items, expiryQ`queue
      ensures Valid() && Entries() == Live(old(Entries()), now)
    {
      var more := true;
      while more
        invariant Valid() && Live(Entries(), now) == Live(old(Entries()), now)
        invariant !more ==> Entries() == Live(old(Entries()), now)
        decreases more, |Entries()|
      {
        more := DropExpired(now);
      }
    }

    /** GetBackoffTime: when the pod completes its backoff, if it is backing off at all. */
    method GetBackoffTime(podID: string) returns (t: Option<int>)
      requires Valid()
      ensures t == if podID in Entries() then Some(Entries()[podID].lastUpdate + Entries()[podID].backoff) else None
    {
      var e := expiryQ.GetByKey(podID);
      t := if e.Some? then Some(e.value.BackoffTime()) else None;
    }

    /** ClearPodBackoff. */
    method ClearPodBackoff(podID: string) returns (ok: bool)
      requires Valid()
      modifies expiryQ`items, expiryQ`queue
      ensures Valid() && ok == (podID in old(Entries())) && Entries() == old(Entries()) - {podID}
    {
      var e := expiryQ.GetByKey(podID);
      if e.Some? {
        expiryQ.KeyOfContents(podID);
        ok := expiryQ.Delete(e.value);
      } else {
        ok := false;
      }
    }
  }

  function Power2(n: nat): int {
    if n == 0 then 1 else 2 * Power2(n - 1)
  }

  /** The entry after `n` calls of getBackoff. */
  function Backed(e: Entry, maxDuration: int, n: nat): Entry {
    if n == 0 then e else Backed(e, maxDuration, n - 1).Next(maxDuration)
  }

  /** A fresh entry backs off for the default duration, then for twice, four times, ... as long, but at most
      `maxDuration`. */
  lemma {:induction false} BackoffDoubles(podID: string, lastUpdate: int, defaultDuration: int, maxDuration: int,
                                          n: nat)
    requires 0 <= defaultDuration <= maxDuration
    ensures var e := Backed(Entry(podID, false, defaultDuration, lastUpdate), maxDuration, n + 1);
            && e.initialized
            && e.backoff == if Power2(n) * defaultDuration > maxDuration then maxDuration
                            else Power2(n) * defaultDuration
  {
    if n > 0 {
      BackoffDoubles(podID, lastUpdate, defaultDuration, maxDuration, n - 1);
      assert Power2(n) * defaultDuration == 2 * (Power2(n - 1) * defaultDuration);
    } else {
      assert Backed(Entry(podID, false, defaultDuration, lastUpdate), maxDuration, 1) ==
             Entry(podID, false, defaultDuration, lastUpdate).Next(maxDuration);
    }
  }
}
