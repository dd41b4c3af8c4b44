/** Node usage accounting of device-scheduler/grpalloc/grpallocate.go: ComputePodGroupResources, Take and Return. */
module Accounting {
  import opened Collections
  import opened Scorer
  import opened Placement
  import opened ResourceUsage

  /** A container's device requests, its request scorers, and where each request is drawn from (nil until allocated). */
  datatype Container = Container(requests: map<Path, int>, scorer: map<Path, ScoreFunc>,
                                 allocateFrom: Option<map<Path, Path>>)
  {
    /** Reading a nil map. */
    function From(): map<Path, Path> {
      if allocateFrom.Some? then allocateFrom.value else map[]
    }

    /** The placed requests that are device-group resources. */
    function Drawing(prefix: Path): set<Path> {
      set n | n in From() && prefix <= n
    }

    ghost function Amount(): Path -> int {
      n => Lookup(requests, n)
    }

    ghost function Against(names: set<Path>, k: Path): set<Path> {
      set n | n in names && n in From() && From()[n] == k
    }

    /** What this container draws from `k` altogether. */
    ghost function Draw(prefix: Path, k: Path): int {
      Drawn(requests, From(), Drawing(prefix), k)
    }

    /** The greatest single request against `k`, if above `floor`. */
    ghost function Peak(prefix: Path, k: Path, floor: int): int {
      Greatest(Against(Drawing(prefix), k), Amount(), floor)
    }

    /** Usage of `k` by the pod after the requests `names`, one by one, from a usage of `p`. */
    ghost function After(init: bool, names: set<Path>, k: Path, p: int): int {
      if init then Greatest(Against(names, k), Amount(), p) else p + Drawn(requests, From(), names, k)
    }

    lemma AfterStep(init: bool, names: set<Path>, n: Path, k: Path, p: int)
      requires n in From() && n !in names
      ensures After(init, names + {n}, k, p) ==
              if From()[n] == k then PodAfter(After(init, names, k, p), Lookup(requests, n), init)
              else After(init, names, k, p)
    {
      SumAdd(names, Share(requests, From(), k), n);
      if From()[n] == k {
        assert Against(names + {n}, k) == Against(names, k) + {n};
        GreatestAdd(Against(names, k), Amount(), p, n);
      } else {
        assert Against(names + {n}, k) == Against(names, k);
      }
    }
  }

  ghost function DrawOf(conts: map<string, Container>, prefix: Path, k: Path): string -> int {
    c => if c in conts then conts[c].Draw(prefix, k) else 0
  }

  ghost function PeakOf(conts: map<string, Container>, prefix: Path, k: Path, floor: int): string -> int {
    c => if c in conts then conts[c].Peak(prefix, k, floor) else floor
  }

  datatype Pod = Pod(running: map<string, Container>, init: map<string, Container>)
  {
    ghost function RunningDraw(prefix: Path, k: Path): int {
      Sum(running.Keys, DrawOf(running, prefix, k))
    }

    /** What the accounting charges a node for this pod: the sum of what the running containers draw, or the greatest
        single request of an init container if that is more. */
    ghost function Charge(prefix: Path, k: Path): int {
      var r := RunningDraw(prefix, k);
      Greatest(init.Keys, PeakOf(init, prefix, k, r), r)
    }
  }

  /** The usage a computation has reached: by the pod, and of the node. */
  datatype Books = Books(pod: Usage, node: Usage)

  /** Plain quantities have moved by the requests `names` of `cont`, node and pod alike. */
  ghost predicate Settled(scorer: Path -> ScoreFunc, cont: Container, init: bool, names: set<Path>, b: Books,
                          b': Books) {
    forall k {:trigger cont.After(init, names, k, Lookup(b.pod, k))} :: scorer(k).LeftoverScoreFunc? ==>
      && Lookup(b'.pod, k) == cont.After(init, names, k, Lookup(b.pod, k))
      && Lookup(b'.node, k) - Lookup(b'.pod, k) == Lookup(b.node, k) - Lookup(b.pod, k)
  }

  lemma SettleStep(scorer: Path -> ScoreFunc, cont: Container, init: bool, names: set<Path>, b: Books, b': Books,
                   n: Path, a: int)
    requires Settled(scorer, cont, init, names, b, b') && n in cont.From() && n !in names
    ensures var from := cont.From()[n];
            var r := Score(scorer(from), a, Lookup(b'.pod, from), Lookup(b'.node, from), [Lookup(cont.requests, n)],
                           init);
            Settled(scorer, cont, init, names + {n}, b,
                    Books(b'.pod[from := r.usedByPod], b'.node[from := r.usedByNode]))
  {
    TotalOne(Lookup(cont.requests, n));
    var from := cont.From()[n];
    var r := Score(scorer(from), a, Lookup(b'.pod, from), Lookup(b'.node, from), [Lookup(cont.requests, n)], init);
    var b'' := Books(b'.pod[from := r.usedByPod], b'.node[from := r.usedByNode]);
    forall k | scorer(k).LeftoverScoreFunc?
      ensures Lookup(b''.pod, k) == cont.After(init, names + {n}, k, Lookup(b.pod, k))
      ensures Lookup(b''.node, k) - Lookup(b''.pod, k) == Lookup(b.node, k) - Lookup(b.pod, k)
    {
      cont.AfterStep(init, names, n, k, Lookup(b.pod, k));
    }
  }

  /** `used'` is `used` with every plain quantity raised by `sign` times what the pod is charged. */
  ghost predicate Posted(scorer: Path -> ScoreFunc, prefix: Path, used: Usage, used': Usage, pod: Pod, sign: int) {
    forall k {:trigger pod.Charge(prefix, k)} :: scorer(k).LeftoverScoreFunc? ==>
      Lookup(used', k) == Lookup(used, k) + sign * pod.Charge(prefix, k)
  }

  ghost predicate RunningPosted(scorer: Path -> ScoreFunc, prefix: Path, pod: Pod, done: set<string>, used: Usage,
                                b: Books) {
    forall k {:trigger DrawOf(pod.running, prefix, k)} :: scorer(k).LeftoverScoreFunc? ==>
      && Lookup(b.pod, k) == Sum(done, DrawOf(pod.running, prefix, k))
      && Lookup(b.node, k) == Lookup(used, k) + Lookup(b.pod, k)
  }

  lemma RunningStep(scorer: Path -> ScoreFunc, prefix: Path, pod: Pod, done: set<string>, used: Usage, b: Books,
                    b': Books, c: string)
    requires RunningPosted(scorer, prefix, pod, done, used, b) && c in pod.running && c !in done
    requires Settled(scorer, pod.running[c], false, pod.running[c].Drawing(prefix), b, b')
    ensures RunningPosted(scorer, prefix, pod, done + {c}, used, b')
  {
    forall k | scorer(k).LeftoverScoreFunc?
      ensures Lookup(b'.pod, k) == Sum(done + {c}, DrawOf(pod.running, prefix, k))
      ensures Lookup(b'.node, k) == Lookup(used, k) + Lookup(b'.pod, k)
    {
      var f := DrawOf(pod.running, prefix, k);
      SumAdd(done, f, c);
      assert f(c) == pod.running[c].Draw(prefix, k);
      assert Lookup(b'.pod, k) == pod.running[c].After(false, pod.running[c].Drawing(prefix), k, Lookup(b.pod, k));
    }
  }

  ghost predicate InitPosted(scorer: Path -> ScoreFunc, prefix: Path, pod: Pod, done: set<string>, used: Usage,
                             b: Books) {
    forall k {:trigger pod.RunningDraw(prefix, k)} :: scorer(k).LeftoverScoreFunc? ==>
      var r := pod.RunningDraw(prefix, k);
      && Lookup(b.pod, k) == Greatest(done, PeakOf(pod.init, prefix, k, r), r)
      && Lookup(b.node, k) == Lookup(used, k) + Lookup(b.pod, k)
  }

  lemma InitStart(scorer: Path -> ScoreFunc, prefix: Path, pod: Pod, used: Usage, b: Books)
    requires RunningPosted(scorer, prefix, pod, pod.running.Keys, used, b)
    ensures InitPosted(scorer, prefix, pod, {}, used, b)
  {
    forall k | scorer(k).LeftoverScoreFunc?
      ensures Lookup(b.pod, k) == pod.RunningDraw(prefix, k) && Lookup(b.node, k) == Lookup(used, k) + Lookup(b.pod, k)
    {
      var f := DrawOf(pod.running, prefix, k);
    }
  }

  lemma InitStep(scorer: Path -> ScoreFunc, prefix: Path, pod: Pod, done: set<string>, used: Usage, b: Books,
                 b': Books, c: string)
    requires InitPosted(scorer, prefix, pod, done, used, b) && c in pod.init && c !in done
    requires Settled(scorer, pod.init[c], true, pod.init[c].Drawing(prefix), b, b')
    ensures InitPosted(scorer, prefix, pod, done + {c}, used, b')
  {
    forall k | scorer(k).LeftoverScoreFunc?
      ensures var r := pod.RunningDraw(prefix, k);
              Lookup(b'.pod, k) == Greatest(done + {c}, PeakOf(pod.init, prefix, k, r), r)
      ensures Lookup(b'.node, k) == Lookup(used, k) + Lookup(b'.pod, k)
    {
      var r, cont := pod.RunningDraw(prefix, k), pod.init[c];
      var f := PeakOf(pod.init, prefix, k, r);
      GreatestAdd(done, f, r, c);
      var p := Greatest(done, f, r);
      GreatestIs(done, f, r);
      GreatestFloor(cont.Against(cont.Drawing(prefix), k), cont.Amount(), p, r);
      assert Max(p, r) == p && f(c) == cont.Peak(prefix, k, r);
      assert Lookup(b'.pod, k) == cont.After(true, cont.Drawing(prefix), k, Lookup(b.pod, k));
    }
  }

  lemma ChargePosted(scorer: Path -> ScoreFunc, prefix: Path, pod: Pod, used: Usage, b: Books, node: Usage,
                     removePod: bool)
    requires InitPosted(scorer, prefix, pod, pod.init.Keys, used, b)
    requires !removePod ==> node == b.node
    requires removePod ==> GivenBack(scorer, used, b, b.pod.Keys, node)
    ensures forall k :: scorer(k).LeftoverScoreFunc? ==> Lookup(b.pod, k) == pod.Charge(prefix, k)
    ensures Posted(scorer, prefix, used, node, pod, if removePod then -1 else 1)
  {
    forall k | scorer(k).LeftoverScoreFunc?
      ensures Lookup(b.pod, k) == pod.Charge(prefix, k)
      ensures Lookup(node, k) == Lookup(used, k) + (if removePod then -1 else 1) * pod.Charge(prefix, k)
    {
      var r := pod.RunningDraw(prefix, k);
      assert Lookup(b.pod, k) == pod.Charge(prefix, k);
    }
  }

  /** The resources `done` are back at what was used before the pod, less what the pod uses. */
  ghost predicate GivenBack(scorer: Path -> ScoreFunc, used: Usage, b: Books, done: set<Path>, node: Usage) {
    forall k :: scorer(k).LeftoverScoreFunc? ==>
      Lookup(node, k) == if k in done then Lookup(used, k) - Lookup(b.pod, k) else Lookup(b.node, k)
  }

  class NodeInfo {
    const prefix: Path
    const allocatable: Usage
    const scorer: Path -> ScoreFunc
    var used: Usage

    /** updateGroupResourceForContainer: post the placed requests of one container, in any order. */
    method UpdateForContainer(cont: Container, init: bool, b: Books) returns (b': Books)
      ensures Settled(scorer, cont, init, cont.Drawing(prefix), b, b') && b.node.Keys <= b'.node.Keys
    {
      b' := b;
      var todo := cont.From().Keys;
      ghost var done: set<Path> := {};
      while todo != {}
        invariant todo <= cont.From().Keys && done == cont.Drawing(prefix) - todo
        invariant Settled(scorer, cont, init, done, b, b') && b.node.Keys <= b'.node.Keys
      {
        var n :| n in todo;
        todo := todo - {n};
        if prefix <= n {
          SettleStep(scorer, cont, init, done, b, b', n, Lookup(allocatable, cont.From()[n]));
          var from := cont.From()[n];
          var r := Score(scorer(from), Lookup(allocatable, from), Lookup(b'.pod, from), Lookup(b'.node, from),
                         [Lookup(cont.requests, n)], init);
          b' := Books(b'.pod[from := r.usedByPod], b'.node[from := r.usedByNode]);
          done := done + {n};
        }
      }
      assert done == cont.Drawing(prefix);
    }

    /** ComputePodGroupResources: what the pod uses, and what the node uses with the pod added or removed. */
    method ComputePodGroupResources(pod: Pod, removePod: bool) returns (podResources: Usage, updatedUsed: Usage)
      ensures forall k :: scorer(k).LeftoverScoreFunc? ==> Lookup(podResources, k) == pod.Charge(prefix, k)
      ensures Posted(scorer, prefix, used, updatedUsed, pod, if removePod then -1 else 1)
      ensures used.Keys <= updatedUsed.Keys
    {
      var b := Books(map[], used);
      var todo := pod.running.Keys;
      ghost var done: set<string> := {};
      while todo != {}
        invariant todo <= pod.running.Keys && done == pod.running.Keys - todo
        invariant RunningPosted(scorer, prefix, pod, done, used, b) && used.Keys <= b.node.Keys
      {
        var c :| c in todo;
        todo := todo - {c};
        var b' := UpdateForContainer(pod.running[c], false, b);
        RunningStep(scorer, prefix, pod, done, used, b, b', c);
        b, done := b', done + {c};
      }
      assert done == pod.running.Keys;
      InitStart(scorer, prefix, pod, used, b);
      todo, done := pod.init.Keys, {};
      while todo != {}
        invariant todo <= pod.init.Keys && done == pod.init.Keys - todo
        invariant InitPosted(scorer, prefix, pod, done, used, b) && used.Keys <= b.node.Keys
      {
        var c :| c in todo;
        todo := todo - {c};
        var b' := UpdateForContainer(pod.init[c], true, b);
        InitStep(scorer, prefix, pod, done, used, b, b', c);
        b, done := b', done + {c};
      }
      assert done == pod.init.Keys;
      podResources, updatedUsed := b.pod, b.node;
      if removePod {
        updatedUsed := GiveBack(b);
      }
      ChargePosted(scorer, prefix, pod, used, b, updatedUsed, removePod);
    }

    /** The removal loop of ComputePodGroupResources. */
    method GiveBack(b: Books) returns (node: Usage)
      ensures GivenBack(scorer, used, b, b.pod.Keys, node) && b.node.Keys <= node.Keys
    {
      node := b.node;
      var todo := b.pod.Keys;
      while todo != {}
        invariant b.node.Keys <= node.Keys
        invariant todo <= b.pod.Keys && GivenBack(scorer, used, b, b.pod.Keys - todo, node)
      {
        var k :| k in todo;
        todo := todo - {k};
        TotalOne(-b.pod[k]);
        node := node[k := Score(scorer(k), 0, 0, Lookup(used, k), [-b.pod[k]], false).usedByNode];
      }
    }

    /** TakePodGroupResource: the pod is added to the node. */
    method TakePodGroupResource(pod: Pod)
      modifies this`used
      ensures Posted(scorer, prefix, old(used), used, pod, 1)
    {
      var _, updated := ComputePodGroupResources(pod, false);
      assert used + updated == updated;
      used := used + updated;
    }

    /** ReturnPodGroupResource: the pod is removed from the node. */
    method ReturnPodGroupResource(pod: Pod)
      modifies this`used
      ensures Posted(scorer, prefix, old(used), used, pod, -1)
    {
      var _, updated := ComputePodGroupResources(pod, true);
      assert used + updated == updated;
      used := used + updated;
    }
  }

  datatype Event = Take(pod: Pod) | Return(pod: Pod)

  ghost predicate Posts(scorer: Path -> ScoreFunc, prefix: Path, used: Usage, used': Usage, e: Event) {
    Posted(scorer, prefix, used, used', e.pod, if e.Take? then 1 else -1)
  }

  /** The pods on the node after the events; a pod is only returned while it is on the node. */
  ghost function Resident(events: seq<Event>): multiset<Pod> {
    if events == [] then multiset{} else
      var before, e := Resident(events[..|events| - 1]), events[|events| - 1];
      if e.Take? then before + multiset{e.pod} else before - multiset{e.pod}
  }

  ghost predicate Proper(events: seq<Event>) {
    events != [] ==>
      var before, e := events[..|events| - 1], events[|events| - 1];
      Proper(before) && (e.Return? ==> e.pod in Resident(before))
  }

  ghost function ChargeOf(prefix: Path, k: Path): Pod -> int {
    (pod: Pod) => pod.Charge(prefix, k)
  }

  /** Conservation: however Take and Return interleave, what the node uses of `k` is what it used at first plus what its
      resident pods are charged. */
  lemma {:induction false} UsedIsConserved(scorer: Path -> ScoreFunc, prefix: Path, events: seq<Event>,
                                           used: seq<Usage>, k: Path)
    requires |used| == |events| + 1 && Proper(events)
    requires forall i :: 0 <= i < |events| ==> Posts(scorer, prefix, used[i], used[i + 1], events[i])
    requires scorer(k).LeftoverScoreFunc?
    ensures Lookup(used[|events|], k) == Lookup(used[0], k) + Tally(Resident(events), ChargeOf(prefix, k))
  {
    if events != [] {
      var n := |events| - 1;
      UsedIsConserved(scorer, prefix, events[..n], used[..n + 1], k);
      var e, before, f := events[n], Resident(events[..n]), ChargeOf(prefix, k);
      assert Posts(scorer, prefix, used[n], used[n + 1], e) && f(e.pod) == e.pod.Charge(prefix, k);
      if e.Take? {
        TallyAdd(before, f, e.pod);
      } else {
        TallyRemove(before, f, e.pod);
      }
    }
  }

  /** Return undoes Take, resource by resource. */
  lemma ReturnUndoesTake(scorer: Path -> ScoreFunc, prefix: Path, pod: Pod, u: Usage, v: Usage, w: Usage, k: Path)
    requires Posted(scorer, prefix, u, v, pod, 1) && Posted(scorer, prefix, v, w, pod, -1)
    requires scorer(k).LeftoverScoreFunc?
    ensures Lookup(w, k) == Lookup(u, k)
  {
    var charge := pod.Charge(prefix, k);
  }
}
