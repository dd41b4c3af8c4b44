/** The indexed heap of kube-scheduler/pkg/util/heap.go, on the sift procedures of Go's container/heap. */
module KeyedHeap {
  import opened Collections

  datatype Item<T> = Item(obj: T, index: int)

  ghost predicate Asymmetric<T>(less: (T, T) -> bool, a: T, b: T) {
    less(a, b) ==> !less(b, a)
  }

  ghost predicate Chains<T>(less: (T, T) -> bool, a: T, b: T, c: T) {
    !less(b, a) && !less(c, b) ==> !less(c, a)
  }

  /** `less` is a strict weak order. */
  ghost predicate StrictWeak<T(!new)>(less: (T, T) -> bool) {
    (forall a, b :: Asymmetric(less, a, b)) && (forall a, b, c :: Chains(less, a, b, c))
  }

  ghost predicate AgreesOn<T>(order: (T, T) -> bool, less: (T, T) -> bool, a: T, b: T) {
    (order(a, b) ==> less(a, b)) && (less(a, b) ==> !order(b, a))
  }

  /** `less` decides all that `order` decides, and never against it. */
  ghost predicate Agrees<T(!new)>(order: (T, T) -> bool, less: (T, T) -> bool) {
    forall a, b :: AgreesOn(order, less, a, b)
  }

  lemma AgreesWithItself<T(!new)>(less: (T, T) -> bool)
    requires StrictWeak(less)
    ensures Agrees(less, less)
  {
    forall a, b ensures AgreesOn(less, less, a, b) {
      assert Asymmetric(less, a, b);
    }
  }

  ghost function Parent(i: nat): nat {
    if i == 0 then 0 else (i - 1) / 2
  }

  /** Every object is in order with its parent, among the first `n`. */
  ghost predicate Ordered<T>(less: (T, T) -> bool, o: seq<T>, n: nat)
    requires n <= |o|
  {
    forall i :: 1 <= i < n ==> !less(o[i], o[Parent(i)])
  }

  /** In order but for `j` against its parent; the children of `j` are in order with the parent of `j`. */
  ghost predicate OrderedButUp<T>(less: (T, T) -> bool, o: seq<T>, n: nat, j: nat)
    requires j < n <= |o|
  {
    && (forall i :: 1 <= i < n && i != j ==> !less(o[i], o[Parent(i)]))
    && (forall i :: 1 <= i < n && Parent(i) == j ==> !less(o[i], o[Parent(j)]))
  }

  /** In order but for the pairs with `i` in them. */
  ghost predicate Repairable<T>(less: (T, T) -> bool, o: seq<T>, n: nat, i: nat)
    requires n <= |o|
  {
    && (forall m :: 1 <= m < n && m != i && Parent(m) != i ==> !less(o[m], o[Parent(m)]))
    && (forall m :: 1 <= m < n && Parent(m) == i && 0 < i < n ==> !less(o[m], o[Parent(i)]))
  }

  ghost function Swapped<T>(o: seq<T>, i: nat, j: nat): seq<T>
    requires i < |o| && j < |o|
  {
    o[i := o[j]][j := o[i]]
  }

  lemma UpStep<T(!new)>(less: (T, T) -> bool, o: seq<T>, n: nat, j: nat)
    requires StrictWeak(less) && 1 <= j < n <= |o| && OrderedButUp(less, o, n, j) && !less(o[Parent(j)], o[j])
    ensures OrderedButUp(less, Swapped(o, Parent(j), j), n, Parent(j))
  {
    var p := Parent(j);
    var s := Swapped(o, p, j);
    forall i | 1 <= i < n && i != p ensures !less(s[i], s[Parent(i)]) {
      if Parent(i) == p && i != j {
        assert !less(o[i], o[p]) && Chains(less, o[j], o[p], o[i]);
      }
    }
    forall i | 1 <= i < n && Parent(i) == p ensures !less(s[i], s[Parent(p)]) {
      assert Asymmetric(less, s[i], s[i]);
      if p > 0 {
        assert !less(o[p], o[Parent(p)]);
        if i != j { assert !less(o[i], o[p]) && Chains(less, o[Parent(p)], o[p], o[i]); }
      } else {
        assert i != j ==> !less(o[i], o[p]) && Chains(less, o[j], o[p], o[i]);
      }
    }
  }

  lemma DownStep<T(!new)>(less: (T, T) -> bool, o: seq<T>, n: nat, i: nat, j: nat)
    requires StrictWeak(less) && i < j < n <= |o| && Parent(j) == i && Repairable(less, o, n, i) && !less(o[i], o[j])
    requires forall m :: i < m < n && Parent(m) == i ==> !less(o[m], o[j])
    ensures Repairable(less, Swapped(o, i, j), n, j) && !less(Swapped(o, i, j)[j], Swapped(o, i, j)[i])
  {
    var s := Swapped(o, i, j);
    forall m | 1 <= m < n && m != j && Parent(m) != j ensures !less(s[m], s[Parent(m)]) {
      if m == i {
        assert !less(o[j], o[Parent(i)]);
      } else if Parent(m) == i {
        assert !less(o[m], o[j]);
      }
    }
    forall m | 1 <= m < n && Parent(m) == j ensures !less(s[m], s[Parent(j)]) {
      assert !less(o[m], o[Parent(m)]);
    }
  }

  /** In a heap no object goes before the first. */
  lemma {:induction false} FirstIsLeast<T(!new)>(less: (T, T) -> bool, o: seq<T>, i: nat)
    requires StrictWeak(less) && Ordered(less, o, |o|) && i < |o|
    ensures !less(o[i], o[0])
    decreases i
  {
    if i > 0 {
      FirstIsLeast(less, o, Parent(i));
      assert !less(o[i], o[Parent(i)]) && Chains(less, o[0], o[Parent(i)], o[i]);
    } else {
      assert Asymmetric(less, o[0], o[0]);
    }
  }

  /** Changing one object of a heap leaves what `Fix` can repair. */
  lemma ChangedAt<T(!new)>(less: (T, T) -> bool, o: seq<T>, i: nat, x: T)
    requires StrictWeak(less) && Ordered(less, o, |o|) && i < |o|
    ensures Repairable(less, o[i := x], |o|, i)
  {
    forall m | 1 <= m < |o| && Parent(m) == i ensures !less(o[m], o[Parent(i)]) {
      assert !less(o[m], o[i]);
      if i > 0 { assert !less(o[i], o[Parent(i)]) && Chains(less, o[Parent(i)], o[i], o[m]); }
    }
  }

  /** The lesser of two siblings. */
  lemma SmallerChild<T(!new)>(order: (T, T) -> bool, less: (T, T) -> bool, o: seq<T>, n: nat, i: nat, j: nat)
    requires StrictWeak(order) && Agrees(order, less) && 2 * i + 1 < n <= |o|
    requires j == if 2 * i + 2 < n && less(o[2 * i + 2], o[2 * i + 1]) then 2 * i + 2 else 2 * i + 1
    ensures Parent(j) == i && forall m :: i < m < n && Parent(m) == i ==> !order(o[m], o[j])
  {
    forall m | i < m < n && Parent(m) == i ensures !order(o[m], o[j]) {
      assert m == 2 * i + 1 || m == 2 * i + 2;
      assert Asymmetric(order, o[m], o[m]) && AgreesOn(order, less, o[m], o[j]) && AgreesOn(order, less, o[j], o[m]);
    }
  }

  /** If the lesser child is not less than `i`, no child is. */
  lemma NoChildLess<T(!new)>(less: (T, T) -> bool, o: seq<T>, n: nat, i: nat, j: nat)
    requires StrictWeak(less) && i < n <= |o| && j < n && !less(o[j], o[i])
    requires forall m :: i < m < n && Parent(m) == i ==> !less(o[m], o[j])
    ensures forall m :: i < m < n && Parent(m) == i ==> !less(o[m], o[i])
  {
    forall m | i < m < n && Parent(m) == i ensures !less(o[m], o[i]) {
      assert Chains(less, o[i], o[j], o[m]);
    }
  }

  lemma InOrderBelow<T(!new)>(less: (T, T) -> bool, o: seq<T>, n: nat, i: nat)
    requires StrictWeak(less) && n <= |o| && Repairable(less, o, n, i)
    requires forall m :: i < m < n && Parent(m) == i ==> !less(o[m], o[i])
    ensures i < n ==> OrderedButUp(less, o, n, i)
    ensures 0 < i < n && !less(o[i], o[Parent(i)]) ==> Ordered(less, o, n)
  {
  }

  /** Ordered by `from`, ordered by every order that `from` decides. */
  lemma OrderedByCoarser<T>(from: (T, T) -> bool, to: (T, T) -> bool, o: seq<T>)
    requires Ordered(from, o, |o|) && forall x, y :: x in o && y in o && to(x, y) ==> from(x, y)
    ensures Ordered(to, o, |o|)
  {
  }

  /** Moving the last object to `i` leaves what can be repaired among the others. */
  lemma LastMovedTo<T(!new)>(less: (T, T) -> bool, o: seq<T>, i: nat)
    requires StrictWeak(less) && Ordered(less, o, |o|) && i < |o| - 1
    ensures Repairable(less, Swapped(o, i, |o| - 1), |o| - 1, i)
  {
    ChangedAt(less, o, i, o[|o| - 1]);
  }

  lemma OrderedButLast<T>(less: (T, T) -> bool, o: seq<T>, obj: T)
    requires Ordered(less, o, |o|)
    ensures OrderedButUp(less, o + [obj], |o| + 1, |o|)
  {
  }

  /** An object of the heap that no object of the heap goes before. */
  ghost predicate IsFirst<T>(less: (T, T) -> bool, key: T -> Option<string>, contents: map<string, T>, obj: T) {
    && key(obj).Some? && key(obj).value in contents && contents[key(obj).value] == obj
    && forall k :: k in contents ==> !less(contents[k], obj)
  }

  /** The item of `k`, if there is one, has `k` as its key, and its place in the queue as its index. */
  ghost predicate InPlace<T(!new)>(key: T -> Option<string>, items: map<string, Item<T>>, queue: seq<string>,
                                   k: string) {
    k in items ==> 0 <= items[k].index < |queue| && queue[items[k].index] == k && key(items[k].obj) == Some(k)
  }

  ghost predicate InverseOf<T(!new)>(key: T -> Option<string>, items: map<string, Item<T>>, queue: seq<string>) {
    && (forall i :: 0 <= i < |queue| ==> queue[i] in items && items[queue[i]].index == i)
    && (forall k :: InPlace(key, items, queue, k))
  }

  ghost function ObjectsOf<T(!new)>(key: T -> Option<string>, items: map<string, Item<T>>,
                                    queue: seq<string>): (o: seq<T>)
    requires InverseOf(key, items, queue)
    ensures |o| == |queue|
  {
    seq(|queue|, i requires 0 <= i < |queue| => items[queue[i]].obj)
  }

  /** Two keys trade places, and their items the indices. */
  lemma SwapKeepsInverse<T(!new)>(key: T -> Option<string>, items: map<string, Item<T>>, queue: seq<string>, i: nat,
                                  j: nat,
                                  items': map<string, Item<T>>, queue': seq<string>)
    requires InverseOf(key, items, queue) && i < |queue| && j < |queue| && queue' == queue[i := queue[j]][j := queue[i]]
    requires items' == items[queue[j] := items[queue[j]].(index := i)][queue[i] := items[queue[i]].(index := j)]
    ensures InverseOf(key, items', queue') &&
            ObjectsOf(key, items', queue') == Swapped(ObjectsOf(key, items, queue), i, j)
  {
    forall k ensures InPlace(key, items', queue', k) {
      assert InPlace(key, items, queue, k);
    }
  }

  class Heap<T(!new)> {
    const keyFunc: T -> Option<string>
    /** What the heap compares with, and the order it is known to be in. For a comparison that depends on other state,
        the two can change between operations. */
    var lessFunc: (T, T) -> bool
    ghost var order: (T, T) -> bool
    var items: map<string, Item<T>>
    var queue: seq<string>

    constructor (keyFunc: T -> Option<string>, lessFunc: (T, T) -> bool)
      requires StrictWeak(lessFunc)
      ensures this.keyFunc == keyFunc && this.lessFunc == lessFunc && order == lessFunc && Valid() &&
              Contents() == map[]
    {
      AgreesWithItself(lessFunc);
      this.keyFunc, this.lessFunc, items, queue := keyFunc, lessFunc, map[], [];
      order := lessFunc;
    }

    /** A comparison with which the heap can go on. */
    ghost predicate Sane()
      reads this
    {
      StrictWeak(order) && Agrees(order, lessFunc)
    }

    /** The comparison has changed. */
    method Reorder(less: (T, T) -> bool, ghost to: (T, T) -> bool)
      requires Valid() && StrictWeak(to) && Agrees(to, less)
      requires forall k, l :: k in Contents() && l in Contents() && to(Contents()[k], Contents()[l]) ==>
               order(Contents()[k], Contents()[l])
      modifies this`lessFunc, this`order
      ensures Valid() && lessFunc == less && order == to && Contents() == old(Contents())
    {
      forall i, j | 0 <= i < |queue| && 0 <= j < |queue| && to(Objects()[i], Objects()[j])
        ensures order(Objects()[i], Objects()[j])
      {
        assert Objects()[i] == Contents()[queue[i]] && Objects()[j] == Contents()[queue[j]];
      }
      OrderedByCoarser(order, to, Objects());
      lessFunc, order := less, to;
    }

    /** The key map and the queue are mutually inverse. */
    ghost predicate Inverse()
      reads this
    {
      InverseOf(keyFunc, items, queue)
    }

    /** The objects in queue order. */
    ghost function Objects(): (o: seq<T>)
      requires Inverse()
      reads this
      ensures |o| == |queue|
    {
      ObjectsOf(keyFunc, items, queue)
    }

    function Contents(): map<string, T>
      reads this
    {
      map k | k in items :: items[k].obj
    }

    ghost predicate Valid()
      reads this
    {
      Sane() && Inverse() && Ordered(order, Objects(), |queue|)
    }

    predicate Less(i: nat, j: nat): (r: bool)
      requires Inverse() && i < |queue| && j < |queue|
      reads this
      ensures r == lessFunc(Objects()[i], Objects()[j])
    {
      lessFunc(items[queue[i]].obj, items[queue[j]].obj)
    }

    method Swap(i: nat, j: nat)
      requires Inverse() && i < |queue| && j < |queue|
      modifies this`items, this`queue
      ensures Inverse() && Contents() == old(Contents()) && |queue| == old(|queue|)
      ensures Objects() == Swapped(old(Objects()), i, j)
    {
      ghost var m, q := items, queue;
      queue := queue[i := queue[j]][j := queue[i]];
      items := items[queue[i] := items[queue[i]].(index := i)];
      items := items[queue[j] := items[queue[j]].(index := j)];
      SwapKeepsInverse(keyFunc, m, q, i, j, items, queue);
    }

    /** up of container/heap; the objects from `n` on take no part. */
    method Up(j0: nat, ghost n: nat)
      requires Sane() && Inverse() && j0 < n <= |queue| && OrderedButUp(order, Objects(), n, j0)
      modifies this`items, this`queue
      ensures Inverse() && Contents() == old(Contents()) && |queue| == old(|queue|)
      ensures forall m :: n <= m < |queue| ==> Objects()[m] == old(Objects())[m]
      ensures Ordered(order, Objects(), n)
    {
      var j: nat := j0;
      ghost var start, o := Objects(), Objects();
      while true
        invariant j < n && Inverse() && Contents() == old(Contents()) && |queue| == old(|queue|) && o == Objects()
        invariant OrderedButUp(order, o, n, j)
        invariant forall m :: n <= m < |queue| ==> o[m] == start[m]
        decreases j
      {
        var i: nat := if j == 0 then 0 else (j - 1) / 2;
        assert AgreesOn(order, lessFunc, o[j], o[i]);
        if i == j || !Less(j, i) {
          break;
        }
        UpStep(order, o, n, j);
        Swap(i, j);
        j, o := i, Objects();
      }
    }

    method PickChild(i: nat, n: nat) returns (j: nat)
      requires Sane() && Inverse() && 2 * i + 1 < n <= |queue|
      ensures i < j < n && Parent(j) == i
      ensures forall m :: i < m < n && Parent(m) == i ==> !order(Objects()[m], Objects()[j])
    {
      j := 2 * i + 1;
      if j + 1 < n && Less(j + 1, j) {
        j := j + 1;
      }
      SmallerChild(order, lessFunc, Objects(), n, i, j);
    }

    /** down of container/heap. */
    method Down(i0: nat, n: nat) returns (moved: bool)
      requires Sane() && Inverse() && n <= |queue| && i0 <= n && Repairable(order, Objects(), n, i0)
      modifies this`items, this`queue
      ensures Inverse() && Contents() == old(Contents()) && |queue| == old(|queue|)
      ensures forall m :: n <= m < |queue| ==> Objects()[m] == old(Objects())[m]
      ensures moved ==> Ordered(order, Objects(), n)
      ensures !moved ==> Objects() == old(Objects()) && (i0 < n ==> OrderedButUp(order, Objects(), n, i0))
    {
      var i: nat := i0;
      ghost var start, o := Objects(), Objects();
      while true
        invariant i0 <= i <= n && (i == n ==> i == i0)
        invariant Inverse() && Contents() == old(Contents()) && |queue| == old(|queue|) && o == Objects()
        invariant forall m :: n <= m < |queue| ==> o[m] == start[m]
        invariant Repairable(order, o, n, i)
        invariant i == i0 ==> o == start
        invariant i != i0 ==> !order(o[i], o[Parent(i)])
        decreases n - i
      {
        var j1: nat := 2 * i + 1;
        if j1 >= n {
          InOrderBelow(order, o, n, i);
          break;
        }
        var j := PickChild(i, n);
        assert AgreesOn(order, lessFunc, o[j], o[i]);
        if !Less(j, i) {
          NoChildLess(order, o, n, i, j);
          InOrderBelow(order, o, n, i);
          break;
        }
        DownStep(order, o, n, i, j);
        Swap(i, j);
        i, o := j, Objects();
      }
      moved := i > i0;
    }

    /** heapData.Pop: drop the last key of the queue. */
    method DropLast() returns (obj: T)
      requires Sane() && Inverse() && |queue| > 0 && Ordered(order, Objects(), |queue| - 1)
      modifies this`items, this`queue
      ensures Valid() && obj == old(Objects()[|queue| - 1])
      ensures keyFunc(obj).Some? && Contents() == old(Contents()) - {keyFunc(obj).value}
    {
      ghost var o, m, q := Objects(), items, queue;
      var key := queue[|queue| - 1];
      obj := items[key].obj;
      assert InPlace(keyFunc, m, q, key);
      queue := queue[..|queue| - 1];
      items := items - {key};
      forall k ensures InPlace(keyFunc, items, queue, k) {
        assert InPlace(keyFunc, m, q, k);
      }
      assert Objects() == o[..|queue|];
    }

    /** Repair of position `i` among the first `n`: the common part of Fix and Remove. */
    method Sift(i: nat, n: nat)
      requires Sane() && Inverse() && i < n <= |queue| && Repairable(order, Objects(), n, i)
      modifies this`items, this`queue
      ensures Inverse() && Contents() == old(Contents()) && |queue| == old(|queue|)
      ensures forall m :: n <= m < |queue| ==> Objects()[m] == old(Objects())[m]
      ensures Ordered(order, Objects(), n)
    {
      var moved := Down(i, n);
      if !moved {
        Up(i, n);
      }
    }

    lemma KeyOfContents(k: string)
      requires Valid() && k in Contents()
      ensures keyFunc(Contents()[k]) == Some(k)
    {
      assert InPlace(keyFunc, items, queue, k);
    }

    /** Remove of container/heap. */
    method RemoveAt(i: nat) returns (obj: T)
      requires Valid() && i < |queue|
      modifies this`items, this`queue
      ensures Valid() && obj == old(Objects()[i])
      ensures keyFunc(obj).Some? && Contents() == old(Contents()) - {keyFunc(obj).value}
    {
      var n := |queue| - 1;
      if n != i {
        LastMovedTo(order, Objects(), i);
        Swap(i, n);
        Sift(i, n);
      }
      obj := DropLast();
    }

    /** Add, and Update: insert the object, or replace the one with the same key. */
    method Add(obj: T) returns (ok: bool)
      requires Valid()
      modifies this`items, this`queue
      ensures Valid() && ok == keyFunc(obj).Some?
      ensures Contents() == if ok then old(Contents())[keyFunc(obj).value := obj] else old(Contents())
    {
      var key := keyFunc(obj);
      if key.None? {
        return false;
      }
      if key.value in items {
        ghost var o, m := Objects(), items;
        assert InPlace(keyFunc, m, queue, key.value);
        var i := items[key.value].index;
        ChangedAt(order, o, i, obj);
        items := items[key.value := Item(obj, i)];
        forall k ensures InPlace(keyFunc, items, queue, k) {
          assert InPlace(keyFunc, m, queue, k);
        }
        assert Objects() == o[i := obj];
        Sift(i, |queue|);
      } else {
        Push(key.value, obj);
      }
      ok := true;
    }

    /** heap.Push. */
    method Push(key: string, obj: T)
      requires Valid() && key !in items && keyFunc(obj) == Some(key)
      modifies this`items, this`queue
      ensures Valid() && Contents() == old(Contents())[key := obj]
    {
      OrderedButLast(order, Objects(), obj);
      AppendItem(key, obj);
      Up(|queue| - 1, |queue|);
    }

    /** heapData.Push. */
    method AppendItem(key: string, obj: T)
      requires Inverse() && key !in items && keyFunc(obj) == Some(key)
      modifies this`items, this`queue
      ensures Inverse() && Contents() == old(Contents())[key := obj] && Objects() == old(Objects()) + [obj]
    {
      ghost var m, q := items, queue;
      items := items[key := Item(obj, |queue|)];
      queue := queue + [key];
      forall k ensures InPlace(keyFunc, items, queue, k) {
        assert InPlace(keyFunc, m, q, k);
      }
    }

    method AddIfNotPresent(obj: T) returns (ok: bool)
      requires Valid()
      modifies this`items, this`queue
      ensures Valid() && ok == keyFunc(obj).Some?
      ensures Contents() ==
        if ok && keyFunc(obj).value !in old(Contents()) then old(Contents())[keyFunc(obj).value := obj]
        else old(Contents())
    {
      var key := keyFunc(obj);
      if key.Some? && key.value !in items {
        Push(key.value, obj);
      }
      ok := key.Some?;
    }

    /** Delete: fails when the object has no key or is not there. */
    method Delete(obj: T) returns (ok: bool)
      requires Valid()
      modifies this`items, this`queue
      ensures Valid() && ok == (keyFunc(obj).Some? && keyFunc(obj).value in old(Contents()))
      ensures Contents() == if ok then old(Contents()) - {keyFunc(obj).value} else old(Contents())
    {
      var key := keyFunc(obj);
      ok := key.Some? && key.value in items;
      if ok {
        assert InPlace(keyFunc, items, queue, key.value);
        var _ := RemoveAt(items[key.value].index);
      }
    }

    /** Peek: an object no other goes before. */
    method Peek() returns (obj: Option<T>)
      requires Valid()
      ensures obj.None? <==> Contents() == map[]
      ensures obj.Some? ==> IsFirst(order, keyFunc, Contents(), obj.value) && |queue| > 0 && obj.value == Objects()[0]
    {
      if |queue| == 0 {
        assert forall k :: k in items ==> !InPlace(keyFunc, items, queue, k);
        return None;
      }
      obj := Some(items[queue[0]].obj);
      FirstOfContents();
    }

    lemma FirstOfContents()
      requires Valid() && |queue| > 0
      ensures queue[0] in items && IsFirst(order, keyFunc, Contents(), Objects()[0])
    {
      assert InPlace(keyFunc, items, queue, queue[0]);
      forall k | k in Contents() ensures !order(Contents()[k], Objects()[0]) {
        assert InPlace(keyFunc, items, queue, k);
        FirstIsLeast(order, Objects(), items[k].index);
      }
    }

    /** Pop of the heap; the source panics on an empty one. */
    method Pop() returns (obj: T)
      requires Valid() && Contents() != map[]
      modifies this`items, this`queue
      ensures Valid() && IsFirst(order, keyFunc, old(Contents()), obj) && old(|queue|) > 0 && obj == old(Objects())[0]
      ensures Contents() == old(Contents()) - {keyFunc(obj).value}
    {
      assert |queue| > 0 by {
        var k :| k in Contents();
        assert InPlace(keyFunc, items, queue, k);
      }
      FirstOfContents();
      obj := RemoveAt(0);
    }

    function GetByKey(key: string): (r: Option<T>)
      reads this
      ensures r == if key in Contents() then Some(Contents()[key]) else None
    {
      if key in items then Some(items[key].obj) else None
    }
  }
}
