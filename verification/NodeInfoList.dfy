/** The doubly linked list of NodeInfos in kube-scheduler/pkg/internal/cache/cache.go. */
module NodeInfoList {
  import opened Collections

  /** What the cache knows of a node; `detail` stands for everything else a NodeInfo holds. */
  datatype Node = Node(name: string, detail: int)

  datatype Pod = Pod(uid: string, nodeName: string, detail: int)

  datatype Info = Info(node: Option<Node>, pods: seq<Pod>, generation: int)

  class Item {
    ghost const name: string
    var info: Info
    var next: Item?
    var prev: Item?

    constructor (ghost name: string, info: Info)
      ensures this.name == name && this.info == info && next == null && prev == null
    {
      this.name, this.info, next, prev := name, info, null, null;
    }
  }

  ghost function At(items: seq<Item>, i: int): Item? {
    if 0 <= i < |items| then items[i] else null
  }

  /** From `h` on, the pointers run through `items`, forwards and backwards. */
  ghost predicate Linked(h: Item?, items: seq<Item>)
    reads items
  {
    && Distinct(items) && h == At(items, 0)
    && (forall i {:trigger items[i].next} :: 0 <= i < |items| ==> items[i].next == At(items, i + 1))
    && (forall i {:trigger items[i].prev} :: 0 <= i < |items| ==> items[i].prev == At(items, i - 1))
  }

  /** `ni` is at position `k`, or new and `k` is `|items|`. */
  ghost predicate IsAt(ni: Item, items: seq<Item>, k: nat)
    reads ni
  {
    k <= |items| && if k < |items| then ni == items[k] else ni !in items && ni.prev == null && ni.next == null
  }

  /** The first part of moveNodeInfoToHead and removeNodeInfoFromList. */
  method Unlink(ni: Item, ghost h: Item?, ghost items: seq<Item>, ghost k: nat)
    requires Linked(h, items) && IsAt(ni, items, k)
    modifies items
    ensures Linked(if ni == h then ni.next else h, Without(items, k))
    ensures ni.next == old(ni.next) && ni.prev == old(ni.prev)
    ensures forall x :: x in items ==> x.info == old(x.info)
  {
    ghost var rest := Without(items, k);
    WithoutAt(items, k);
    assert k < |items| ==> ni.prev == At(items, k - 1) && ni.next == At(items, k + 1);
    if ni.prev != null {
      ni.prev.next := ni.next;
    }
    if ni.next != null {
      ni.next.prev := ni.prev;
    }
    RestLinked(items, k);
  }

  /** `i` is linked past `k`. */
  ghost predicate LinkedPast(items: seq<Item>, k: nat, i: nat)
    requires i < |items|
    reads items
  {
    && items[i].next == At(items, if i == k - 1 then k + 1 else i + 1)
    && items[i].prev == At(items, if i == k + 1 then k - 1 else i - 1)
  }

  lemma RestLinked(items: seq<Item>, k: nat)
    requires Distinct(items) && forall i :: 0 <= i < |items| && i != k ==> LinkedPast(items, k, i)
    ensures var rest := Without(items, k);
            forall i :: 0 <= i < |rest| ==> rest[i].next == At(rest, i + 1) && rest[i].prev == At(rest, i - 1)
  {
    var rest := Without(items, k);
    WithoutAt(items, k);
    forall i | 0 <= i < |rest| ensures rest[i].next == At(rest, i + 1) && rest[i].prev == At(rest, i - 1) {
      assert LinkedPast(items, k, if i < k then i else i + 1);
    }
  }

  lemma WithoutAt(items: seq<Item>, k: nat)
    requires Distinct(items)
    ensures Distinct(Without(items, k))
    ensures forall i :: 0 <= i < |Without(items, k)| ==> Without(items, k)[i] == items[if i < k then i else i + 1]
  {
  }

  /** The rest of moveNodeInfoToHead. */
  method PushFront(ni: Item, h: Item?, ghost items: seq<Item>)
    requires Linked(h, items) && ni !in items
    modifies ni, items
    ensures Linked(ni, [ni] + items)
    ensures ni.info == old(ni.info) && forall x :: x in items ==> x.info == old(x.info)
  {
    ghost var all := [ni] + items;
    if h != null {
      h.prev := ni;
    }
    ni.next := h;
    ni.prev := null;
    forall i | 0 <= i < |all|
      ensures all[i].next == At(all, i + 1) && all[i].prev == At(all, i - 1)
    {
      assert i > 0 ==> all[i] == items[i - 1];
    }
  }

  lemma WithoutItem(ni: Item, items: seq<Item>, k: nat)
    requires Distinct(items) && IsAt(ni, items, k)
    ensures ni !in Without(items, k)
    ensures forall x :: x in Without(items, k) ==> x in items
    ensures forall x :: x in items ==> x in Without(items, k) || x == ni
  {
    var rest := Without(items, k);
    forall i | 0 <= i < |items| && i != k ensures items[i] in rest {
      assert rest[if i < k then i else i - 1] == items[i];
    }
  }

  method MoveToFront(ni: Item, h: Item?, ghost items: seq<Item>, ghost k: nat)
    requires Linked(h, items) && IsAt(ni, items, k) && ni != h
    modifies ni, items
    ensures Linked(ni, [ni] + Without(items, k))
    ensures ni.info == old(ni.info) && forall x :: x in items ==> x.info == old(x.info)
  {
    WithoutItem(ni, items, k);
    Unlink(ni, h, items, k);
    PushFront(ni, h, Without(items, k));
  }
}
