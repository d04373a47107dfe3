/** The linked list of LinkedList.c between two sentinels, with the free list of FreeList.c below it, on the heap. */
module LinkedList {
  import opened Options

  const FREELISTSIZE := 100

  /** Items are pointers; only their identity matters. */
  type Item = nat

  const NULL: Item := 0

  class ListNode {
    var prev: ListNode?
    var next: ListNode?
    var item: Item

    constructor ()
    {
      prev, next, item := null, null, NULL;
    }
  }

  /** `FreeList`: nodes that were given back, in a chain. `FreeListNode.next` lies over the first word of a node,
      which is its `prev`. */
  class FreeList {
    var head: ListNode?
    const maxFreeListLength: int
    var freeListLength: int

    ghost var chain: seq<ListNode>

    ghost predicate Valid()
      reads this, chain
    {
      && freeListLength == |chain|
      && (freeListLength == 0 || freeListLength < maxFreeListLength)
      && head == (if chain == [] then null else chain[0])
      && (forall i, j :: 0 <= i < j < |chain| ==> chain[i] != chain[j])
      && forall i {:trigger chain[i].prev} :: 0 <= i < |chain| ==>
           chain[i].prev == if i + 1 < |chain| then chain[i + 1] else null
    }

    /** `FreeListInit` */
    constructor (maxFreeListLength: int)
      ensures Valid() && chain == [] && this.maxFreeListLength == maxFreeListLength
    {
      this.maxFreeListLength := maxFreeListLength;
      head, freeListLength, chain := null, 0, [];
    }

    /** `FreeListAlloc` */
    method Alloc() returns (n: ListNode)
      requires Valid()
      modifies this
      ensures Valid()
      ensures if old(chain) == [] then fresh(n) && chain == [] else n == old(chain[0]) && chain == old(chain[1..])
      ensures n !in chain
    {
      if head != null {
        n := head;
        assert chain[0].prev == if 1 < |chain| then chain[1] else null;
        head := head.prev;
        freeListLength := freeListLength - 1;
        chain := chain[1..];
      } else {
        n := new ListNode();
      }
    }

    /** `FreeListFree` with a non-null element; an element that does not go into the chain is given to `free`. */
    method Free(n: ListNode)
      requires Valid() && n !in chain
      modifies this, n`prev
      ensures Valid()
      ensures chain == if old(|chain|) + 1 < maxFreeListLength then [n] + old(chain) else old(chain)
    {
      if freeListLength + 1 < maxFreeListLength {
        freeListLength := freeListLength + 1;
        n.prev := head;
        head := n;
        chain := [n] + chain;
      }
    }

    /** `FreeListDestroy` */
    method Destroy()
      requires Valid()
      modifies this
      ensures Valid() && chain == []
    {
      ghost var rest := chain;
      while head != null
        invariant forall i, j :: 0 <= i < j < |rest| ==> rest[i] != rest[j]
        invariant head == (if rest == [] then null else rest[0])
        invariant forall i {:trigger rest[i].prev} :: 0 <= i < |rest| ==>
          rest[i].prev == if i + 1 < |rest| then rest[i + 1] else null
        decreases |rest|
      {
        assert rest[0].prev == if 1 < |rest| then rest[1] else null;
        head := head.prev;
        rest := rest[1..];
      }
      freeListLength := 0;
      chain := [];
    }
  }

  /** `all` is linked in both directions, and no node stands in it twice. */
  ghost predicate IsLinked(all: seq<ListNode>)
    reads all
  {
    && (forall i, j :: 0 <= i < j < |all| ==> all[i] != all[j])
    && (forall i {:trigger all[i].next} :: 0 <= i < |all| - 1 ==> all[i].next == all[i + 1])
    && (forall i {:trigger all[i].prev} :: 0 < i < |all| ==> all[i].prev == all[i - 1])
  }

  twostate lemma StaysFree(list: FreeList)
    requires old(list.Valid()) && unchanged(list)
    requires forall i :: 0 <= i < |list.chain| ==> list.chain[i].prev == old(list.chain[i].prev)
    ensures list.Valid()
  {
  }

  /** No node is both in the list and free. */
  ghost predicate AreApart(all: seq<ListNode>, chain: seq<ListNode>) {
    forall i :: 0 <= i < |all| ==> all[i] !in chain
  }

  lemma ApartAt(all: seq<ListNode>, chain: seq<ListNode>, k: nat)
    requires AreApart(all, chain) && k < |all|
    ensures all[k] !in chain
  {
  }

  lemma ApartMore(all: seq<ListNode>, chain: seq<ListNode>, n: ListNode)
    requires AreApart(all, chain) && n !in all
    ensures AreApart(all, [n] + chain)
  {
  }

  lemma ApartWith(all: seq<ListNode>, k: nat, n: ListNode, chain: seq<ListNode>)
    requires AreApart(all, chain) && k <= |all| && n !in chain
    ensures AreApart(all[..k] + [n] + all[k..], chain)
  {
  }

  twostate lemma StaysLinked(all: seq<ListNode>)
    requires old(IsLinked(all))
    requires forall i :: 0 <= i < |all| ==> all[i].prev == old(all[i].prev) && all[i].next == old(all[i].next)
    ensures IsLinked(all)
  {
  }

  ghost function Items(nodes: seq<ListNode>): (r: seq<Item>)
    reads nodes
    ensures |r| == |nodes| && forall i :: 0 <= i < |nodes| ==> r[i] == nodes[i].item
  {
    seq(|nodes|, i requires 0 <= i < |nodes| reads nodes => nodes[i].item)
  }

  class LinkedList {
    const head: ListNode
    const tail: ListNode
    var size: int
    const freeNodeList: FreeList
    /** `cmp_func`, if there is one */
    const cmp: Option<(Item, Item) -> bool>
    /** Whether there is a `free_func` */
    const hasFreeFunc: bool

    /** The items that `free_func` was called for */
    ghost var freed: seq<Item>
    ghost var nodes: seq<ListNode>

    ghost function All(): seq<ListNode>
      reads this
    {
      [head] + nodes + [tail]
    }

    ghost predicate Valid()
      reads this, head, tail, nodes, freeNodeList, freeNodeList.chain
    {
      && size == |nodes|
      && IsLinked(All())
      && head.prev == null && tail.next == null
      && freeNodeList.Valid() && freeNodeList.maxFreeListLength == FREELISTSIZE
      && AreApart(All(), freeNodeList.chain)
    }

    ghost function Contents(): seq<Item>
      reads this, nodes
    {
      Items(nodes)
    }

    /** Whether `item` matches an item of the list */
    function Matches(item: Item, other: Item): bool {
      if cmp.Some? then cmp.value(item, other) else item == other
    }

    /** `ListInit` */
    constructor (cmp: Option<(Item, Item) -> bool>, hasFreeFunc: bool)
      ensures Valid() && nodes == [] && Contents() == [] && freed == []
      ensures this.cmp == cmp && this.hasFreeFunc == hasFreeFunc
      ensures fresh(head) && fresh(tail) && fresh(freeNodeList) && freeNodeList.chain == []
    {
      size := 0;
      this.cmp, this.hasFreeFunc := cmp, hasFreeFunc;
      freeNodeList := new FreeList(FREELISTSIZE);
      var h := new ListNode();
      var t := new ListNode();
      head, tail, nodes, freed := h, t, [], [];
      new;
      h.item, h.next, h.prev := NULL, t, null;
      t.item, t.prev, t.next := NULL, h, null;
    }

    /** `CreateListNode` */
    method CreateListNode(item: Item) returns (n: ListNode)
      requires Valid()
      modifies freeNodeList, freeNodeList.chain
      ensures Valid() && n !in All() && n !in freeNodeList.chain
      ensures n.prev == null && n.next == null && n.item == item
      ensures forall x <- nodes :: x.item == old(x.item)
      ensures fresh(n) || n in old(freeNodeList.chain)
      ensures freeNodeList.chain == old(if |freeNodeList.chain| == 0 then [] else freeNodeList.chain[1..])
    {
      hide IsLinked;
      n := freeNodeList.Alloc();
      n.prev := null;
      n.next := null;
      n.item := item;
      StaysLinked(All());
    }

    /** `ListAddAfter`; `k` is the index of `bnode`, counting the sentinel in front. */
    method AddAfter(item: Item, bnode: ListNode, ghost k: nat) returns (n: ListNode)
      requires Valid() && k <= |nodes| && All()[k] == bnode
      modifies this`size, this`nodes, head, tail, nodes, freeNodeList, freeNodeList.chain
      ensures Valid() && nodes == old(nodes[..k]) + [n] + old(nodes[k..]) && n.item == item
      ensures Contents() == old(Contents())[..k] + [item] + old(Contents())[k..]
      ensures fresh(n) || n in old(freeNodeList.chain)
      ensures freeNodeList.chain == old(if |freeNodeList.chain| == 0 then [] else freeNodeList.chain[1..])
    {
      hide IsLinked, FreeList.Valid;
      ghost var was, items := nodes, Contents();
      n := CreateListNode(item);
      PutAfter(n, bnode, k);
      InsertedItems(was, items, k, n);
    }

    /** The part of `ListAddAfter` that links the new node */
    method PutAfter(n: ListNode, bnode: ListNode, ghost k: nat)
      requires Valid() && k <= |nodes| && All()[k] == bnode && n !in All() && n !in freeNodeList.chain
      modifies this`size, this`nodes, n, head, tail, nodes
      ensures Valid() && nodes == old(nodes[..k]) + [n] + old(nodes[k..])
      ensures n.item == old(n.item) && forall x <- old(nodes) :: x.item == old(x.item)
    {
      hide IsLinked, FreeList.Valid, Items, AreApart;
      ghost var was := All();
      ApartAt(was, freeNodeList.chain, k + 1);
      LinkAfter(was, k, n, bnode, was[k + 1]);
      size := size + 1;
      nodes := nodes[..k] + [n] + nodes[k..];
      assert All() == was[..k + 1] + [n] + was[k + 1..];
      ApartWith(was, k + 1, n, freeNodeList.chain);
      StaysFree(freeNodeList);
    }

    /** `ListAddBefore`; `k` is the index of `anode`, counting the sentinel in front. */
    method AddBefore(item: Item, anode: ListNode, ghost k: nat) returns (n: ListNode)
      requires Valid() && 0 < k <= |nodes| + 1 && All()[k] == anode
      modifies this`size, this`nodes, head, tail, nodes, freeNodeList, freeNodeList.chain
      ensures Valid() && nodes == old(nodes[..k - 1]) + [n] + old(nodes[k - 1..]) && n.item == item
      ensures Contents() == old(Contents())[..k - 1] + [item] + old(Contents())[k - 1..]
      ensures fresh(n) || n in old(freeNodeList.chain)
      ensures freeNodeList.chain == old(if |freeNodeList.chain| == 0 then [] else freeNodeList.chain[1..])
    {
      hide IsLinked, FreeList.Valid;
      ghost var was, items := nodes, Contents();
      n := CreateListNode(item);
      PutBefore(n, anode, k - 1);
      InsertedItems(was, items, k - 1, n);
    }

    /** The part of `ListAddBefore` that links the new node */
    method PutBefore(n: ListNode, anode: ListNode, ghost k: nat)
      requires Valid() && k <= |nodes| && All()[k + 1] == anode && n !in All() && n !in freeNodeList.chain
      modifies this`size, this`nodes, n, head, tail, nodes
      ensures Valid() && nodes == old(nodes[..k]) + [n] + old(nodes[k..])
      ensures n.item == old(n.item) && forall x <- old(nodes) :: x.item == old(x.item)
    {
      hide IsLinked, FreeList.Valid, Items, AreApart;
      ghost var was := All();
      ApartAt(was, freeNodeList.chain, k + 1);
      LinkBefore(was, k + 1, n, anode, was[k]);
      size := size + 1;
      nodes := nodes[..k] + [n] + nodes[k..];
      assert All() == was[..k + 1] + [n] + was[k + 1..];
      ApartWith(was, k + 1, n, freeNodeList.chain);
      StaysFree(freeNodeList);
    }

    /** `ListAddHead` */
    method AddHead(item: Item) returns (n: ListNode)
      requires Valid()
      modifies this`size, this`nodes, head, tail, nodes, freeNodeList, freeNodeList.chain
      ensures Valid() && nodes == [n] + old(nodes) && Contents() == [item] + old(Contents())
    {
      hide IsLinked, FreeList.Valid, Items;
      ghost var items := Contents();
      n := AddAfter(item, head, 0);
      assert items[..0] + [item] + items[0..] == [item] + items;
    }

    /** `ListAddTail` */
    method AddTail(item: Item) returns (n: ListNode)
      requires Valid()
      modifies this`size, this`nodes, head, tail, nodes, freeNodeList, freeNodeList.chain
      ensures Valid() && nodes == old(nodes) + [n] && Contents() == old(Contents()) + [item]
    {
      hide IsLinked, FreeList.Valid;
      ghost var items := Contents();
      n := AddBefore(item, tail, |nodes| + 1);
      assert items[..|items|] + [item] + items[|items|..] == items + [item];
    }

    /** `ListDelNode`; `k` is the index of `dnode`, counting the sentinel in front. A sentinel is not deleted. The item
        is returned, or freed if the caller and the list say so. */
    method DelNode(dnode: ListNode, freeItem: bool, ghost k: nat) returns (item: Item)
      requires Valid() && k < |All()| && All()[k] == dnode
      modifies this`size, this`nodes, this`freed, head, tail, nodes, freeNodeList
      ensures Valid()
      ensures if k == 0 || k == |old(nodes)| + 1 then
                item == NULL && nodes == old(nodes) && Contents() == old(Contents()) && freed == old(freed)
                && freeNodeList.chain == old(freeNodeList.chain)
              else
                && item == (if freeItem && hasFreeFunc then NULL else old(Contents())[k - 1])
                && freed == old(freed) + (if freeItem && hasFreeFunc then [old(Contents())[k - 1]] else [])
                && nodes == old(nodes[..k - 1]) + old(nodes[k..])
                && Contents() == old(Contents())[..k - 1] + old(Contents())[k..]
                && freeNodeList.chain == if |old(freeNodeList.chain)| + 1 < FREELISTSIZE
                                         then [dnode] + old(freeNodeList.chain) else old(freeNodeList.chain)
    {
      hide IsLinked, FreeList.Valid;
      SentinelsDiffer(All());
      if dnode == head || dnode == tail {
        return NULL;
      }
      item := dnode.item;
      Delete(dnode, k);
      if freeItem && hasFreeFunc {
        freed := freed + [item];
        item := NULL;
      }
    }

    /** `ListDelNode` on a node that is not a sentinel */
    method Delete(dnode: ListNode, ghost k: nat)
      requires Valid() && 0 < k <= |nodes| && All()[k] == dnode
      modifies this`size, this`nodes, head, tail, nodes, freeNodeList
      ensures Valid() && nodes == old(nodes[..k - 1]) + old(nodes[k..])
      ensures Contents() == old(Contents())[..k - 1] + old(Contents())[k..]
      ensures freeNodeList.chain == if |old(freeNodeList.chain)| + 1 < FREELISTSIZE
                                    then [dnode] + old(freeNodeList.chain) else old(freeNodeList.chain)
    {
      hide IsLinked, FreeList.Valid, AreApart;
      ghost var was, items := nodes, Contents();
      TakeOut(dnode, k);
      Recycle(dnode);
      RemovedItems(was, items, k - 1);
    }

    /** `freeListNode` */
    method Recycle(n: ListNode)
      requires Valid() && n !in All() && n !in freeNodeList.chain
      modifies freeNodeList, n`prev
      ensures Valid()
      ensures freeNodeList.chain == if |old(freeNodeList.chain)| + 1 < FREELISTSIZE
                                    then [n] + old(freeNodeList.chain) else old(freeNodeList.chain)
    {
      hide IsLinked, FreeList.Valid, AreApart;
      ApartMore(All(), freeNodeList.chain, n);
      freeNodeList.Free(n);
      StaysLinked(All());
    }

    /** The part of `ListDelNode` that unlinks the node */
    method TakeOut(dnode: ListNode, ghost k: nat)
      requires Valid() && 0 < k <= |nodes| && All()[k] == dnode
      modifies this`size, this`nodes, head, tail, nodes
      ensures Valid() && nodes == old(nodes[..k - 1]) + old(nodes[k..])
      ensures dnode !in All() && dnode !in freeNodeList.chain
      ensures forall x <- old(nodes) :: x.item == old(x.item)
    {
      hide IsLinked, FreeList.Valid, Items;
      ghost var was := All();
      Unlink(was, k, dnode, was[k - 1], was[k + 1]);
      size := size - 1;
      nodes := nodes[..k - 1] + nodes[k..];
      assert All() == was[..k] + was[k + 1..];
      StaysFree(freeNodeList);
    }

    /** `ListDestroy` */
    method Destroy(freeItem: bool)
      requires Valid()
      modifies this`size, this`nodes, this`freed, head, tail, nodes, freeNodeList, freeNodeList.chain
      ensures Valid() && nodes == [] && Contents() == [] && freeNodeList.chain == []
      ensures freed == old(freed) + (if freeItem && hasFreeFunc then old(Contents()) else [])
    {
      hide IsLinked, FreeList.Valid, Items;
      ghost var was, items, k := freed, Contents(), 0;
      ContentsLength();
      while head.next != tail
        invariant Valid()
        invariant k <= |old(nodes)| == |items| && nodes == old(nodes)[k..] && Contents() == items[k..]
        invariant freed == was + (if freeItem && hasFreeFunc then items[..k] else [])
        decreases |nodes|
      {
        FirstIs(All());
        DeleteFirst(freeItem);
        assert items[..k + 1] == items[..k] + [items[k]];
        k := k + 1;
      }
      FirstIs(All());
      assert items[..k] == items;
      size := 0;
      DestroyFreeList();
      ContentsLength();
    }

    /** The body of that loop */
    method DeleteFirst(freeItem: bool)
      requires Valid() && nodes != [] && |Contents()| == |nodes|
      modifies this`size, this`nodes, this`freed, head, tail, nodes, freeNodeList
      ensures Valid() && nodes == old(nodes)[1..] && Contents() == old(Contents())[1..]
      ensures freed == old(freed) + (if freeItem && hasFreeFunc then [old(Contents())[0]] else [])
    {
      hide IsLinked, FreeList.Valid, Items;
      FirstIs(All());
      var item := DelNode(head.next, freeItem, 1);
    }

    method DestroyFreeList()
      requires Valid()
      modifies freeNodeList
      ensures Valid() && freeNodeList.chain == []
    {
      hide IsLinked, FreeList.Valid;
      freeNodeList.Destroy();
      StaysLinked(All());
    }

    lemma ContentsLength()
      ensures |Contents()| == |nodes|
    {
    }

    /** `ListHead` */
    method Head() returns (n: ListNode?)
      requires Valid()
      ensures n == if nodes == [] then null else nodes[0]
    {
      FirstIs(All());
      if size == 0 {
        return null;
      }
      n := head.next;
    }

    /** `ListTail` */
    method Tail() returns (n: ListNode?)
      requires Valid()
      ensures n == if nodes == [] then null else nodes[|nodes| - 1]
    {
      if size == 0 {
        return null;
      }
      assert All()[|nodes| + 1].prev == All()[|nodes|];
      n := tail.prev;
    }

    /** `ListNext` on the node at `k` */
    method Next(node: ListNode, ghost k: nat) returns (n: ListNode?)
      requires Valid() && k < |nodes| && nodes[k] == node
      ensures n == if k + 1 < |nodes| then nodes[k + 1] else null
    {
      assert All()[k + 1].next == All()[k + 2];
      SentinelsDiffer(All());
      n := if node.next == tail then null else node.next;
    }

    /** `ListPrev` on the node at `k` */
    method Prev(node: ListNode, ghost k: nat) returns (n: ListNode?)
      requires Valid() && k < |nodes| && nodes[k] == node
      ensures n == if k > 0 then nodes[k - 1] else null
    {
      assert All()[k + 1].prev == All()[k];
      SentinelsDiffer(All());
      n := if node.prev == head then null else node.prev;
    }

    /** `ListFind`: the first match behind `start`, or in the whole list if `start` is null; `k` is the index of
        `start`, counting the sentinel in front. */
    method Find(start: ListNode?, item: Item, ghost k: nat) returns (n: ListNode?)
      requires Valid()
      requires if start == null then k == 0 else k <= |nodes| && All()[k] == start
      ensures n == null ==> forall i :: k <= i < |nodes| ==> !Matches(item, nodes[i].item)
      ensures n != null ==>
        exists j :: k <= j < |nodes| && nodes[j] == n && Matches(item, nodes[j].item)
                    && forall i :: k <= i < j ==> !Matches(item, nodes[i].item)
    {
      var first := if start == null then head else start;
      assert All()[k].next == All()[k + 1];
      var finger := first.next;
      ghost var j := k;
      SentinelsDiffer(All());
      while finger != tail
        invariant k <= j <= |nodes| && finger == All()[j + 1]
        invariant forall i :: k <= i < j ==> !Matches(item, nodes[i].item)
        decreases |nodes| - j
      {
        if Matches(item, finger.item) {
          return finger;
        }
        assert All()[j + 1].next == All()[j + 2];
        finger := finger.next;
        j := j + 1;
      }
      n := null;
    }

    /** `ListSize` */
    method Size() returns (n: int)
      requires Valid()
      ensures n == |nodes|
    {
      n := size;
    }
  }

  lemma FirstIs(all: seq<ListNode>)
    requires IsLinked(all) && |all| > 1
    ensures all[0].next == all[1]
    ensures all[0].next == all[|all| - 1] <==> |all| == 2
  {
  }

  lemma SentinelsDiffer(all: seq<ListNode>)
    requires IsLinked(all) && |all| > 1
    ensures forall i :: 0 < i < |all| ==> all[i] != all[0]
    ensures forall i :: 0 <= i < |all| - 1 ==> all[i] != all[|all| - 1]
  {
  }

  lemma RemovedItems(was: seq<ListNode>, items: seq<Item>, k: nat)
    requires k < |was| == |items| && forall i :: 0 <= i < |was| ==> was[i].item == items[i]
    ensures Items(was[..k] + was[k + 1..]) == items[..k] + items[k + 1..]
  {
  }

  lemma InsertedItems(was: seq<ListNode>, items: seq<Item>, k: nat, n: ListNode)
    requires k <= |was| == |items| && forall i :: 0 <= i < |was| ==> was[i].item == items[i]
    ensures Items(was[..k] + [n] + was[k..]) == items[..k] + [n.item] + items[k..]
  {
  }

  /** The assignments of `ListAddAfter`: `n` goes between `a` and the node after it. */
  method LinkAfter(ghost all: seq<ListNode>, ghost k: nat, n: ListNode, a: ListNode, ghost b: ListNode)
    requires IsLinked(all) && n !in all && k + 1 < |all| && all[k] == a && all[k + 1] == b
    modifies a`next, b`prev, n`prev, n`next
    ensures IsLinked(all[..k + 1] + [n] + all[k + 1..])
    ensures all[0].prev == old(all[0].prev) && all[|all| - 1].next == old(all[|all| - 1].next)
  {
    assert all[k].next == b;
    var temp := a.next;
    a.next := n;
    n.prev := a;
    n.next := temp;
    temp.prev := n;
  }

  /** The assignments of `ListAddBefore`: `n` goes between the node before `b` and `b`. */
  method LinkBefore(ghost all: seq<ListNode>, ghost k: nat, n: ListNode, b: ListNode, ghost a: ListNode)
    requires IsLinked(all) && n !in all && 0 < k < |all| && all[k] == b && all[k - 1] == a
    modifies a`next, b`prev, n`prev, n`next
    ensures IsLinked(all[..k] + [n] + all[k..])
    ensures all[0].prev == old(all[0].prev) && all[|all| - 1].next == old(all[|all| - 1].next)
  {
    assert all[k].prev == a;
    var temp := b.prev;
    b.prev := n;
    n.next := b;
    n.prev := temp;
    temp.next := n;
  }

  /** The assignments of `ListDelNode` */
  method Unlink(ghost all: seq<ListNode>, ghost k: nat, n: ListNode, ghost a: ListNode, ghost b: ListNode)
    requires IsLinked(all) && 0 < k < |all| - 1 && all[k] == n && all[k - 1] == a && all[k + 1] == b
    modifies a`next, b`prev
    ensures IsLinked(all[..k] + all[k + 1..]) && n !in all[..k] + all[k + 1..]
    ensures all[0].prev == old(all[0].prev) && all[|all| - 1].next == old(all[|all| - 1].next)
  {
    assert all[k].prev == a && all[k].next == b;
    n.prev.next := n.next;
    n.next.prev := n.prev;
  }
}