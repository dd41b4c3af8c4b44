/** The concurrent scan of findNodesThatFit in kube-scheduler/pkg/core/generic_scheduler.go: workers take pieces, visit
    the next node of the tree, and claim slots of `filtered` through an atomic counter. Every shared access is one step,
    and any worker may take the next step. */
module FilterScan {
  import opened Collections
  import NodeRing

  datatype Outcome = Fits | Fails | Errs

  /** Where a worker stands inside the loop of ParallelizeUntil and inside checkNode. `v` numbers the calls of Next. */
  datatype Pc =
    | Idle                            // about to take a piece
    | Took                            // has a piece, about to look at the context
    | Going                           // about to call Next
    | Checking(v: nat)                // evaluating the node of visit v
    | Counting(v: nat)                // it fits: about to increment filteredLen
    | Claimed(v: nat, length: int)    // about to store into slot length - 1
    | Over(v: nat)                    // length > numNodesToFind: about to cancel
    | Undo(v: nat)                    // about to decrement filteredLen
    | Done

  /** The shared state, the workers, and as history the visits that claimed a slot, in the order of the slots, and the
      visits that were turned away. */
  datatype State = State(
    pc: map<nat, Pc>, taken: nat, visits: nat, filteredLen: int, cancelled: bool, slots: map<int, nat>,
    claims: seq<nat>, turnedAway: set<nat>)

  /** What a scan is for: the number of nodes, how many to find, and how each visit's node turns out. */
  datatype Scan = Scan(allNodes: nat, toFind: nat, outcome: nat -> Outcome)

  ghost predicate Init(s: State) {
    && (forall w :: w in s.pc ==> s.pc[w] == Idle)
    && s.taken == 0 && s.visits == 0 && s.filteredLen == 0 && !s.cancelled && s.slots == map[]
    && s.claims == [] && s.turnedAway == {}
  }

  /** Whether an increment by a worker at `p` goes over the limit. */
  ghost predicate GoesOver(c: Scan, s: State) {
    s.filteredLen + 1 > c.toFind
  }

  /** Where the step of a worker takes it from `p`; in front of a cancelled context it stops. */
  ghost function NextPc(c: Scan, s: State, p: Pc): Pc {
    match p
    case Idle => if s.taken < c.allNodes then Took else Done
    case Took => if s.cancelled then Done else Going
    case Going => Checking(s.visits)
    case Checking(v) => if c.outcome(v).Fits? then Counting(v) else Idle
    case Counting(v) => if GoesOver(c, s) then Over(v) else Claimed(v, s.filteredLen + 1)
    case Claimed(_, _) => Idle
    case Over(v) => Undo(v)
    case Undo(_) => Idle
    case Done => Done
  }

  /** The step of worker `w`. */
  ghost function Step(c: Scan, s: State, w: nat): State
    requires w in s.pc
  {
    var p := s.pc[w];
    State(s.pc[w := NextPc(c, s, p)],
          s.taken + (if p.Idle? && s.taken < c.allNodes then 1 else 0),
          s.visits + (if p.Going? then 1 else 0),
          s.filteredLen + (if p.Counting? then 1 else if p.Undo? then -1 else 0),
          s.cancelled || p.Over?,
          if p.Claimed? then s.slots[p.length - 1 := p.v] else s.slots,
          if p.Counting? && !GoesOver(c, s) then s.claims + [p.v] else s.claims,
          if p.Counting? && GoesOver(c, s) then s.turnedAway + {p.v} else s.turnedAway)
  }

  ghost predicate IsBusy(p: Pc) {
    p.Over? || p.Undo?
  }

  ghost function Busy(s: State): set<nat> {
    set w | w in s.pc && IsBusy(s.pc[w])
  }

  /** The counter is the number of claims plus the workers on their way to take an increment back; there are such
      workers only when all slots are claimed. */
  ghost predicate Balanced(toFind: nat, filteredLen: int, claims: nat, busy: nat, turned: bool, cancelled: bool) {
    && filteredLen == claims + busy && claims <= toFind
    && (turned ==> claims == toFind)
    && (busy > 0 || cancelled ==> turned)
  }

  ghost predicate Counters(c: Scan, s: State) {
    Balanced(c.toFind, s.filteredLen, |s.claims|, |Busy(s)|, s.turnedAway != {}, s.cancelled)
  }

  lemma BusyStep(s: State, w: nat, p: Pc, s': State)
    requires w in s.pc && s'.pc == s.pc[w := p]
    ensures Busy(s') == if IsBusy(p) then Busy(s) + {w} else Busy(s) - {w}
    ensures |Busy(s')| == |Busy(s)| + (if IsBusy(p) then 1 else 0) - (if IsBusy(s.pc[w]) then 1 else 0)
  {
    var b := Busy(s) - {w};
    assert Busy(s') == if IsBusy(p) then b + {w} else b;
    assert Busy(s) == if IsBusy(s.pc[w]) then b + {w} else b;
  }

  /** An increment that stays within the limit claims the next free slot. */
  lemma NextFreeSlot(c: Scan, s: State)
    requires Counters(c, s) && s.filteredLen + 1 <= c.toFind
    ensures s.filteredLen == |s.claims| && s.turnedAway == {}
  {
  }

  lemma CountersStep(c: Scan, s: State, w: nat)
    requires w in s.pc && Counters(c, s)
    ensures Counters(c, Step(c, s, w))
  {
    var p, s' := s.pc[w], Step(c, s, w);
    BusyStep(s, w, NextPc(c, s, p), s');
    if p.Counting? {
      CountingStep(c, s, w, |Busy(s')|);
    } else {
      assert s'.claims == s.claims && s'.turnedAway == s.turnedAway;
      NotCountingStep(c, s, w, |Busy(s')|);
    }
  }

  /** The counter goes up with a claim, or with a worker that will take it back. */
  lemma CountingStep(c: Scan, s: State, w: nat, busy: nat)
    requires w in s.pc && Counters(c, s) && s.pc[w].Counting?
    requires busy == |Busy(s)| + (if GoesOver(c, s) then 1 else 0)
    ensures var s' := Step(c, s, w);
            Balanced(c.toFind, s'.filteredLen, |s'.claims|, busy, s'.turnedAway != {}, s'.cancelled)
  {
    assert GoesOver(c, s) ==> s.pc[w].v in Step(c, s, w).turnedAway;
  }

  /** The counter goes down with the workers on their way, and a worker cancels only from among them. */
  lemma NotCountingStep(c: Scan, s: State, w: nat, busy: nat)
    requires w in s.pc && Counters(c, s) && !s.pc[w].Counting?
    requires busy == |Busy(s)| - (if s.pc[w].Undo? then 1 else 0)
    ensures var s' := Step(c, s, w); Balanced(c.toFind, s'.filteredLen, |s.claims|, busy, s.turnedAway != {},
                                              s'.cancelled)
  {
    if s.pc[w].Over? {
      assert w in Busy(s);
    }
  }

  type Pcs = map<nat, Pc>

  /** Each claimed slot is either filled or about to be filled by exactly one worker; no other slot is touched. */
  ghost predicate Slots(pc: Pcs, claims: seq<nat>, slots: map<int, nat>) {
    && (forall w :: w in pc && pc[w].Claimed? ==>
          1 <= pc[w].length <= |claims| && claims[pc[w].length - 1] == pc[w].v && pc[w].length - 1 !in slots)
    && (forall w, x :: w in pc && x in pc && w != x && pc[w].Claimed? && pc[x].Claimed? ==>
        pc[w].length != pc[x].length)
    && (forall i :: i in slots ==> 0 <= i < |claims| && slots[i] == claims[i])
    && (forall i {:trigger Accounted(pc, claims, slots, i)} :: 0 <= i < |claims| ==> Accounted(pc, claims, slots, i))
  }

  /** Slot `i` is filled or will be. */
  ghost predicate Accounted(pc: Pcs, claims: seq<nat>, slots: map<int, nat>, i: int)
    requires 0 <= i < |claims|
  {
    i in slots || exists w :: w in pc && pc[w] == Claimed(claims[i], i + 1)
  }

  lemma SlotsClaim(pc: Pcs, claims: seq<nat>, slots: map<int, nat>, w: nat, v: nat)
    requires Slots(pc, claims, slots) && w in pc && !pc[w].Claimed?
    ensures Slots(pc[w := Claimed(v, |claims| + 1)], claims + [v], slots)
  {
    var pc', claims' := pc[w := Claimed(v, |claims| + 1)], claims + [v];
    forall i | 0 <= i < |claims'| ensures Accounted(pc', claims', slots, i) {
      if i < |claims| {
        assert Accounted(pc, claims, slots, i);
        if i !in slots {
          var x :| x in pc && pc[x] == Claimed(claims[i], i + 1);
          assert pc'[x] == Claimed(claims'[i], i + 1);
        }
      } else {
        assert pc'[w] == Claimed(claims'[i], i + 1);
      }
    }
  }

  /** A step that claims nothing; a worker that had claimed a slot has filled it. */
  lemma SlotsOther(pc: Pcs, claims: seq<nat>, slots: map<int, nat>, w: nat, p: Pc, slots': map<int, nat>)
    requires Slots(pc, claims, slots) && w in pc && !p.Claimed?
    requires slots' == if pc[w].Claimed? then slots[pc[w].length - 1 := pc[w].v] else slots
    ensures Slots(pc[w := p], claims, slots')
  {
    var pc' := pc[w := p];
    forall i | 0 <= i < |claims| ensures Accounted(pc', claims, slots', i) {
      assert Accounted(pc, claims, slots, i);
      if i !in slots' {
        var x :| x in pc && pc[x] == Claimed(claims[i], i + 1);
        assert pc'[x] == Claimed(claims[i], i + 1);
      }
    }
  }

  lemma SlotsStep(c: Scan, s: State, w: nat)
    requires w in s.pc && Counters(c, s) && Slots(s.pc, s.claims, s.slots)
    ensures var s' := Step(c, s, w); Slots(s'.pc, s'.claims, s'.slots)
  {
    var p, s' := s.pc[w], Step(c, s, w);
    if p.Counting? && !GoesOver(c, s) {
      NextFreeSlot(c, s);
      assert s'.pc == s.pc[w := Claimed(p.v, |s.claims| + 1)] && s'.claims == s.claims + [p.v] && s'.slots == s.slots;
      SlotsClaim(s.pc, s.claims, s.slots, w, p.v);
    } else {
      assert s'.pc == s.pc[w := NextPc(c, s, p)] && !NextPc(c, s, p).Claimed? && s'.claims == s.claims;
      SlotsOther(s.pc, s.claims, s.slots, w, NextPc(c, s, p), s'.slots);
    }
  }

  /** The visit a worker still has to bring to an end. */
  ghost predicate Pends(p: Pc, v: nat) {
    p == Checking(v) || p == Counting(v)
  }

  /** The visits with an end: those that claimed a slot and those turned away are different visits to nodes that fit. */
  ghost predicate Ended(c: Scan, visits: nat, claims: seq<nat>, away: set<nat>) {
    && Distinct(claims)
    && (forall v :: v in claims ==> v < visits && c.outcome(v).Fits? && v !in away)
    && (forall v :: v in away ==> v < visits && c.outcome(v).Fits?)
  }

  /** The visits without an end are each with one worker. */
  ghost predicate Pending(c: Scan, pc: Pcs, visits: nat, claims: seq<nat>, away: set<nat>) {
    && (forall w, v: nat {:trigger Pends(pc[w], v)} :: w in pc && Pends(pc[w], v) ==>
        v < visits && v !in claims && v !in away)
    && (forall w :: w in pc && pc[w].Counting? ==> c.outcome(pc[w].v).Fits?)
    && (forall w, x, v: nat {:trigger Pends(pc[w], v), Pends(pc[x], v)} ::
          w in pc && x in pc && Pends(pc[w], v) && Pends(pc[x], v) ==> w == x)
  }

  /** No visit to a node that fits is forgotten. */
  ghost predicate Covered(c: Scan, pc: Pcs, visits: nat, claims: seq<nat>, away: set<nat>) {
    forall v: nat :: v < visits && c.outcome(v).Fits? ==>
        v in claims || v in away || exists w :: w in pc && Pends(pc[w], v)
  }

  ghost predicate Visits(c: Scan, s: State) {
    && Ended(c, s.visits, s.claims, s.turnedAway)
    && Pending(c, s.pc, s.visits, s.claims, s.turnedAway)
    && Covered(c, s.pc, s.visits, s.claims, s.turnedAway)
  }

  lemma EndedStep(c: Scan, s: State, w: nat)
    requires w in s.pc && Visits(c, s)
    ensures var s' := Step(c, s, w); Ended(c, s'.visits, s'.claims, s'.turnedAway)
  {
    if s.pc[w].Counting? {
      assert Pends(s.pc[w], s.pc[w].v);
    }
  }

  lemma PendingStep(c: Scan, s: State, w: nat)
    requires w in s.pc && Visits(c, s)
    ensures var s' := Step(c, s, w); Pending(c, s'.pc, s'.visits, s'.claims, s'.turnedAway)
  {
    var s', p := Step(c, s, w), s.pc[w];
    forall x, v: nat | x in s'.pc && Pends(s'.pc[x], v)
      ensures v < s'.visits && v !in s'.claims && v !in s'.turnedAway
    {
      PendingBefore(c, s, w, x, v);
      if p.Counting? {
        if x != w { OnePends(c, s, w, x, p.v); }
      }
    }
    forall x, y, v: nat | x in s'.pc && y in s'.pc && Pends(s'.pc[x], v) && Pends(s'.pc[y], v) ensures x == y {
      PendingBefore(c, s, w, x, v);
      PendingBefore(c, s, w, y, v);
    }
  }

  lemma OnePends(c: Scan, s: State, w: nat, x: nat, v: nat)
    requires w in s.pc && x in s.pc && Visits(c, s) && Pends(s.pc[w], v) && x != w
    ensures !Pends(s.pc[x], v)
  {
  }

  /** A visit pending after a step was pending with the same worker before it, or is new. */
  lemma PendingBefore(c: Scan, s: State, w: nat, x: nat, v: nat)
    requires w in s.pc && x in s.pc && Visits(c, s) && Pends(Step(c, s, w).pc[x], v)
    ensures if v < s.visits then Pends(s.pc[x], v) else x == w && s.pc[w].Going? && v == s.visits
  {
    assert Step(c, s, w).pc[x] == if x == w then NextPc(c, s, s.pc[w]) else s.pc[x];
    if Pends(s.pc[x], v) {
      PendsEarlier(c, s.pc, s.visits, s.claims, s.turnedAway, x, v);
    }
  }

  lemma PendsEarlier(c: Scan, pc: Pcs, visits: nat, claims: seq<nat>, away: set<nat>, x: nat, v: nat)
    requires Pending(c, pc, visits, claims, away) && x in pc && Pends(pc[x], v)
    ensures v < visits
  {
  }

  lemma CoveredStep(c: Scan, s: State, w: nat)
    requires w in s.pc && Visits(c, s)
    ensures var s' := Step(c, s, w); Covered(c, s'.pc, s'.visits, s'.claims, s'.turnedAway)
  {
    var s' := Step(c, s, w);
    forall v: nat | v < s'.visits && c.outcome(v).Fits?
      ensures v in s'.claims || v in s'.turnedAway || exists x :: x in s'.pc && Pends(s'.pc[x], v)
    {
      if v == s.visits {
        assert Pends(s'.pc[w], v);
      } else if !(v in s.claims || v in s.turnedAway) {
        var x :| x in s.pc && Pends(s.pc[x], v);
        if x != w || s.pc[w].Checking? {
          assert Pends(s'.pc[x], v);
        }
      }
    }
  }

  ghost function Holding(s: State): set<nat> {
    set w | w in s.pc && Holds(s.pc[w])
  }

  /** A piece that was taken leads to a visit unless the scan is cancelled. */
  ghost predicate Pieces(c: Scan, s: State) {
    && s.visits + |Holding(s)| <= s.taken <= c.allNodes
    && (!s.cancelled ==> s.visits + |Holding(s)| == s.taken)
    && (forall w :: w in s.pc && s.pc[w].Done? ==> s.cancelled || s.taken == c.allNodes)
  }

  ghost predicate Holds(p: Pc) {
    p.Took? || p.Going?
  }

  lemma HoldingStep(s: State, w: nat, p: Pc, s': State)
    requires w in s.pc && s'.pc == s.pc[w := p]
    ensures |Holding(s')| == |Holding(s)| + (if Holds(p) then 1 else 0) - (if Holds(s.pc[w]) then 1 else 0)
  {
    var h := Holding(s) - {w};
    assert Holding(s) == if Holds(s.pc[w]) then h + {w} else h;
    assert Holding(s') == if Holds(p) then h + {w} else h;
  }

  lemma PiecesStep(c: Scan, s: State, w: nat)
    requires w in s.pc && Pieces(c, s)
    ensures Pieces(c, Step(c, s, w))
  {
    HoldingStep(s, w, NextPc(c, s, s.pc[w]), Step(c, s, w));
  }

  ghost predicate Inv(c: Scan, s: State) {
    Counters(c, s) && Slots(s.pc, s.claims, s.slots) && Visits(c, s) && Pieces(c, s)
  }

  /** A run of the scan: at each step some worker moves. */
  ghost predicate IsRun(c: Scan, run: seq<State>, moves: seq<nat>) {
    && |run| == |moves| + 1 && Init(run[0])
    && forall i {:trigger moves[i]} :: 0 <= i < |moves| ==>
       moves[i] in run[i].pc && run[i + 1] == Step(c, run[i], moves[i])
  }

  lemma InitInv(c: Scan, s: State)
    requires Init(s)
    ensures Inv(c, s)
  {
    assert Busy(s) == {} && Holding(s) == {};
    assert forall w, v: nat :: w in s.pc ==> !Pends(s.pc[w], v);
  }

  lemma {:induction false} RunKeepsInv(c: Scan, run: seq<State>, moves: seq<nat>, i: nat)
    requires IsRun(c, run, moves) && i < |run|
    ensures Inv(c, run[i])
  {
    if i == 0 {
      InitInv(c, run[0]);
    } else {
      RunKeepsInv(c, run, moves, i - 1);
      var s, w := run[i - 1], moves[i - 1];
      CountersStep(c, s, w);
      SlotsStep(c, s, w);
      EndedStep(c, s, w);
      PendingStep(c, s, w);
      CoveredStep(c, s, w);
      PiecesStep(c, s, w);
    }
  }

  /** The steps that a worker has before it next looks for a piece, and one more to find none. */
  ghost function Stage(p: Pc): nat {
    match p
    case Took => 7
    case Going => 6
    case Checking(_) => 5
    case Counting(_) => 4
    case Over(_) => 3
    case Undo(_) => 2
    case Claimed(_, _) => 2
    case Idle => 1
    case Done => 0
  }

  ghost function StageOf(pc: Pcs): nat -> int {
    (w: nat) => if w in pc then Stage(pc[w]) else 0
  }

  /** A bound on the steps to come. */
  ghost function StepsLeft(c: Scan, s: State): int {
    7 * (c.allNodes - s.taken) + Sum(s.pc.Keys, StageOf(s.pc))
  }

  lemma StagesStep(pc: Pcs, w: nat, p: Pc)
    requires w in pc
    ensures Sum(pc[w := p].Keys, StageOf(pc[w := p])) == Sum(pc.Keys, StageOf(pc)) - Stage(pc[w]) + Stage(p)
  {
    var pc' := pc[w := p];
    assert pc'.Keys == pc.Keys;
    SumRemove(pc.Keys, StageOf(pc), w);
    SumRemove(pc.Keys, StageOf(pc'), w);
    SumCongruence(pc.Keys - {w}, StageOf(pc), StageOf(pc'));
  }

  lemma StepsLeftFall(c: Scan, s: State, w: nat)
    requires w in s.pc && !s.pc[w].Done?
    ensures StepsLeft(c, Step(c, s, w)) < StepsLeft(c, s)
  {
    StagesStep(s.pc, w, NextPc(c, s, s.pc[w]));
  }

  lemma {:induction false} StagesAtFirst(ws: set<nat>, pc: Pcs)
    requires forall w :: w in ws ==> w in pc && pc[w] == Idle
    ensures Sum(ws, StageOf(pc)) == |ws|
  {
    if ws != {} {
      var w :| w in ws;
      StagesAtFirst(ws - {w}, pc);
      SumRemove(ws, StageOf(pc), w);
    }
  }

  /** No worker moves after it is done. */
  ghost predicate NoDoneMove(run: seq<State>, moves: seq<nat>) {
    |run| == |moves| + 1 && forall i {:trigger moves[i]} :: 0 <= i < |moves| ==>
        moves[i] in run[i].pc && !run[i].pc[moves[i]].Done?
  }

  lemma {:induction false} StepsTaken(c: Scan, run: seq<State>, moves: seq<nat>, i: nat)
    requires IsRun(c, run, moves) && NoDoneMove(run, moves) && i < |run|
    ensures i + StepsLeft(c, run[i]) <= StepsLeft(c, run[0])
  {
    if i > 0 {
      StepsTaken(c, run, moves, i - 1);
      MoveTaken(c, run, moves, i - 1);
    }
  }

  lemma MoveTaken(c: Scan, run: seq<State>, moves: seq<nat>, i: nat)
    requires IsRun(c, run, moves) && NoDoneMove(run, moves) && i < |moves|
    ensures StepsLeft(c, run[i + 1]) < StepsLeft(c, run[i])
  {
    StepsLeftFall(c, run[i], moves[i]);
  }

  /** However the workers take turns, they are done after seven steps for each piece and one more for each worker. */
  lemma ScanEnds(c: Scan, run: seq<State>, moves: seq<nat>)
    requires IsRun(c, run, moves) && NoDoneMove(run, moves)
    ensures |moves| <= 7 * c.allNodes + |run[0].pc|
  {
    StepsTaken(c, run, moves, |moves|);
    RunKeepsInv(c, run, moves, |moves|);
    SumNonNegative(run[|moves|].pc.Keys, StageOf(run[|moves|].pc));
    StagesAtFirst(run[0].pc.Keys, run[0].pc);
  }

  /** No slot is written twice. */
  lemma SlotWrittenOnce(c: Scan, run: seq<State>, moves: seq<nat>, i: nat)
    requires IsRun(c, run, moves) && i < |moves| && run[i].pc[moves[i]].Claimed?
    ensures var length := run[i].pc[moves[i]].length;
            1 <= length <= c.toFind && length - 1 !in run[i].slots &&
                run[i + 1].slots == run[i].slots[length - 1 := run[i].pc[moves[i]].v]
  {
    RunKeepsInv(c, run, moves, i);
  }

  ghost function FittingVisits(c: Scan, n: nat): set<nat> {
    set v | 0 <= v < n && c.outcome(v).Fits?
  }

  lemma {:induction false} SameWorkers(c: Scan, run: seq<State>, moves: seq<nat>, i: nat)
    requires IsRun(c, run, moves) && i < |run|
    ensures run[i].pc.Keys == run[0].pc.Keys
  {
    if i > 0 {
      SameWorkers(c, run, moves, i - 1);
      assert run[i] == Step(c, run[i - 1], moves[i - 1]);
    }
  }

  ghost function Elements(s: seq<nat>): set<nat> {
    set v | v in s
  }

  lemma {:induction false} DistinctSize(s: seq<nat>)
    requires Distinct(s)
    ensures |Elements(s)| == |s|
  {
    if s != [] {
      var n := |s| - 1;
      DistinctSize(s[..n]);
      assert Elements(s) == Elements(s[..n]) + {s[n]};
    }
  }

  /** With no visit pending, the visits to nodes that fit are the claims and those turned away. */
  lemma FittingCount(c: Scan, s: State)
    requires Visits(c, s) && forall w :: w in s.pc ==> s.pc[w].Done?
    ensures |FittingVisits(c, s.visits)| == |s.claims| + |s.turnedAway|
    ensures forall v :: v in s.claims ==> v in FittingVisits(c, s.visits)
  {
    DistinctSize(s.claims);
    assert Elements(s.claims) !! s.turnedAway;
    forall v: nat ensures v in FittingVisits(c, s.visits) <==> v in Elements(s.claims) + s.turnedAway { }
    assert FittingVisits(c, s.visits) == Elements(s.claims) + s.turnedAway;
  }

  /** The slots below filteredLen, and no others, are filled, with different visits to nodes that fit; there are as many
      as such visits were made, up to the number asked for; and if there are fewer than asked for, all nodes were
      visited. */
  ghost predicate IsResult(c: Scan, s: State) {
    && s.filteredLen == (if |FittingVisits(c, s.visits)| < c.toFind then |FittingVisits(c, s.visits)| else c.toFind)
    && (forall i :: i in s.slots <==> 0 <= i < s.filteredLen)
    && (forall i :: i in s.slots ==> s.slots[i] in FittingVisits(c, s.visits))
    && (forall i, j :: i in s.slots && j in s.slots && s.slots[i] == s.slots[j] ==> i == j)
    && s.visits <= c.allNodes && (s.filteredLen < c.toFind ==> s.visits == c.allNodes)
  }

  lemma DoneMeansResult(c: Scan, s: State)
    requires Inv(c, s) && s.pc != map[] && forall w :: w in s.pc ==> s.pc[w].Done?
    ensures IsResult(c, s)
  {
    assert Busy(s) == {} && Holding(s) == {};
    FittingCount(c, s);
    assert s.turnedAway != {} ==> |s.turnedAway| > 0;
    forall i | 0 <= i < s.filteredLen ensures i in s.slots {
      assert Accounted(s.pc, s.claims, s.slots, i);
    }
    var w :| w in s.pc;
    assert s.pc[w].Done?;
  }

  /** Whatever the interleaving, when all workers are done the scan has its result. */
  lemma ScanResult(c: Scan, run: seq<State>, moves: seq<nat>)
    requires IsRun(c, run, moves) && run[0].pc != map[]
    requires forall w :: w in run[|moves|].pc ==> run[|moves|].pc[w].Done?
    ensures IsResult(c, run[|moves|])
  {
    RunKeepsInv(c, run, moves, |moves|);
    SameWorkers(c, run, moves, |moves|);
    assert run[|moves|].pc != map[] by {
      var w :| w in run[0].pc.Keys;
      assert w in run[|moves|].pc;
    }
    DoneMeansResult(c, run[|moves|]);
  }

  /** With as many pieces as the tree has nodes, different slots hold different places of the tree, even if the tree
      starts a new sweep during the scan, and different nodes if no name is at two places. Visit number v of the scan is
      visit number start + v since the tree was fresh. */
  lemma NoNodeTwice(c: Scan, s: State, ring: seq<NodeRing.Ring>, start: nat, i: int, j: int)
    requires IsResult(c, s) && NodeRing.IsRun(ring) && c.allNodes == NodeRing.Count(ring[0]) &&
             start + c.allNodes < |ring|
    requires i in s.slots && j in s.slots && i != j
    ensures start + s.slots[i] < |ring| && start + s.slots[j] < |ring|
    ensures ring[start + s.slots[i]].Visit() != ring[start + s.slots[j]].Visit()
    ensures NodeRing.NamesDiffer(ring[0].nodes) ==> ring[start + s.slots[i]].Name() != ring[start + s.slots[j]].Name()
  {
    assert s.slots[i] in FittingVisits(c, s.visits) && s.slots[j] in FittingVisits(c, s.visits);
    var m := NodeRing.WindowVisitsEachOnce(ring, start, ring[start + s.slots[i]].Visit());
    if NodeRing.NamesDiffer(ring[0].nodes) {
      NodeRing.WindowNames(ring, start);
    }
  }

  /** The names in the slots, where `names` are those of the visits, numbered from `start`. */
  ghost predicate SlotNamesDiffer(slots: map<int, nat>, names: seq<string>, start: nat)
    requires forall i :: i in slots ==> start + slots[i] < |names|
  {
    forall i, j :: i in slots && j in slots && i != j ==> names[start + slots[i]] != names[start + slots[j]]
  }

  /** A scan that looks for all nodes and finds all to fit stores every visit. */
  lemma AllVisitsStored(c: Scan, s: State, v: nat) returns (i: int)
    requires IsResult(c, s) && c.toFind >= c.allNodes && (forall v :: c.outcome(v).Fits?) && v < c.allNodes
    ensures s.visits == c.allNodes && i in s.slots && s.slots[i] == v
  {
    AllFit(c, s.visits);
    assert s.visits == c.allNodes && s.filteredLen == c.allNodes;
    i := Stored(s.slots, c.allNodes, v);
  }

  lemma {:induction false} AllFit(c: Scan, n: nat)
    requires forall v :: c.outcome(v).Fits?
    ensures |FittingVisits(c, n)| == n
  {
    if n > 0 {
      AllFit(c, n - 1);
      assert FittingVisits(c, n) == FittingVisits(c, n - 1) + {n - 1};
    }
  }

  ghost function Below(n: nat): set<nat> {
    if n == 0 then {} else Below(n - 1) + {n - 1}
  }

  lemma {:induction false} BelowSize(n: nat)
    ensures |Below(n)| == n && forall v: nat :: v in Below(n) <==> v < n
  {
    if n > 0 {
      BelowSize(n - 1);
    }
  }

  ghost function Held(slots: map<int, nat>, k: nat): set<nat>
    requires forall i :: 0 <= i < k ==> i in slots
  {
    set i | 0 <= i < k :: slots[i]
  }

  lemma {:induction false} HeldSize(slots: map<int, nat>, k: nat)
    requires forall i :: 0 <= i < k ==> i in slots
    requires forall i, j :: 0 <= i < j < k ==> slots[i] != slots[j]
    ensures |Held(slots, k)| == k
  {
    if k > 0 {
      HeldSize(slots, k - 1);
      assert Held(slots, k) == Held(slots, k - 1) + {slots[k - 1]};
      assert slots[k - 1] !in Held(slots, k - 1);
    }
  }

  /** `n` slots with different numbers below `n` hold them all. */
  lemma Stored(slots: map<int, nat>, n: nat, v: nat) returns (i: int)
    requires (forall i :: 0 <= i < n ==> i in slots && slots[i] < n) && v < n
    requires forall i, j :: 0 <= i < j < n ==> slots[i] != slots[j]
    ensures 0 <= i < n && slots[i] == v
  {
    HeldSize(slots, n);
    BelowSize(n);
    assert Held(slots, n) <= Below(n);
    SubsetOfSameSize(Held(slots, n), Below(n));
    assert v in Held(slots, n);
    i :| 0 <= i < n && slots[i] == v;
  }

  lemma SubsetOfSameSize(a: set<nat>, b: set<nat>)
    requires a <= b && |a| == |b|
    ensures a == b
  {
    assert |b - a| == 0;
    assert b == a + (b - a);
  }

  lemma VisitsStayInRing(c: Scan, s: State, i: int)
    requires IsResult(c, s) && i in s.slots
    ensures s.slots[i] < c.allNodes
  {
    assert s.slots[i] in FittingVisits(c, s.visits);
  }

  lemma TwoSlots(c: Scan, s: State, v: nat, u: nat) returns (i: int, j: int)
    requires IsResult(c, s) && c.toFind >= c.allNodes && (forall v :: c.outcome(v).Fits?) && v < u < c.allNodes
    ensures i in s.slots && j in s.slots && s.slots[i] == v && s.slots[j] == u
  {
    i := AllVisitsStored(c, s, v);
    j := AllVisitsStored(c, s, u);
  }

  lemma NamesInSlots(slots: map<int, nat>, names: seq<string>, start: nat, i: int, j: int)
    requires (forall i :: i in slots ==> start + slots[i] < |names|) && SlotNamesDiffer(slots, names, start)
    requires i in slots && j in slots && i != j
    ensures names[start + slots[i]] != names[start + slots[j]]
  {
  }

  /** If the slots hold every visit and different names, the visits return different names. */
  lemma SlotsTell(c: Scan, s: State, names: seq<string>, start: nat)
    requires IsResult(c, s) && c.toFind >= c.allNodes && (forall v :: c.outcome(v).Fits?)
    requires start + c.allNodes < |names| && (forall i :: i in s.slots ==> start + s.slots[i] < |names|)
    requires SlotNamesDiffer(s.slots, names, start)
    ensures NodeRing.DifferIn(names, start, c.allNodes)
  {
    forall a: nat, b: nat | start <= a < b < start + c.allNodes ensures names[a] != names[b] {
      var i, j := TwoSlots(c, s, a - start, b - start);
      NamesInSlots(s.slots, names, start, i, j);
    }
  }

  /** Such a scan has different nodes in its slots exactly when no name is at two places. */
  lemma SlotNames(c: Scan, s: State, ring: seq<NodeRing.Ring>, start: nat)
    requires IsResult(c, s) && NodeRing.IsRun(ring) && c.allNodes == NodeRing.Count(ring[0]) &&
             start + c.allNodes < |ring|
    requires c.toFind >= c.allNodes && forall v :: c.outcome(v).Fits?
    ensures forall i :: i in s.slots ==> start + s.slots[i] < |ring|
    ensures SlotNamesDiffer(s.slots, NodeRing.NamesOf(ring), start) <==> NodeRing.NamesDiffer(ring[0].nodes)
  {
    var names := NodeRing.NamesOf(ring);
    forall i | i in s.slots ensures start + s.slots[i] < |ring| {
      VisitsStayInRing(c, s, i);
    }
    NodeRing.WindowNames(ring, start);
    if NodeRing.NamesDiffer(ring[0].nodes) {
      forall i, j | i in s.slots && j in s.slots && i != j
        ensures names[start + s.slots[i]] != names[start + s.slots[j]]
      {
        NoNodeTwice(c, s, ring, start, i, j);
      }
    }
    if SlotNamesDiffer(s.slots, names, start) {
      SlotsTell(c, s, names, start);
    }
  }
}
