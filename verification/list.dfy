/**
 * prac::list<T>: a doubly linked list (stl_containers/src/list.hpp).
 *
 * The ghost sequence `Nodes` lists the chain from front to back and `Contents`
 * the values the nodes hold. `Valid()` is the link invariant: the front's `last`
 * and the back's `next` are null, neighbours point at each other, no node
 * occurs twice, and `size` counts the nodes.
 *
 * The source's pop_front and pop_back leave the opposite end pointer stale when
 * they remove the only node; `PopFrontAsWritten` and `PopBackAsWritten` model
 * that code, and `PopFront` and `PopBack` add the missing reset. The rest of
 * the model uses the corrected pair.
 */
module Lists {
  import opened Seqs

  /** ListNode<T>: one value and two non-owning links. */
  class ListNode<T> {
    var val: T
    var last: ListNode?<T>
    var next: ListNode?<T>

    constructor (valIn: T)
      ensures val == valIn && last == null && next == null
    {
      val := valIn;
      last := null;
      next := null;
    }
  }

  class List<T> {
    var size: nat
    var front: ListNode?<T>
    var back: ListNode?<T>
    ghost var Nodes: seq<ListNode<T>>
    ghost var Contents: seq<T>

    ghost predicate Valid()
      reads this, Nodes
    {
      size == |Nodes| == |Contents| &&
      (forall i :: 0 <= i < |Nodes| ==> Nodes[i].val == Contents[i]) &&
      (forall i, j :: 0 <= i < j < |Nodes| ==> Nodes[i] != Nodes[j]) &&
      (Nodes == [] ==> front == null && back == null) &&
      (Nodes != [] ==>
         front == Nodes[0] && back == Nodes[|Nodes| - 1] &&
         front.last == null && back.next == null) &&
      (forall i :: 0 <= i < |Nodes| - 1 ==> Nodes[i].next == Nodes[i + 1] && Nodes[i + 1].last == Nodes[i])
    }

    /** list(): no nodes, both ends null. */
    constructor ()
      ensures Valid() && Nodes == [] && Contents == []
      ensures size == 0 && front == null && back == null
    {
      size := 0;
      front := null;
      back := null;
      Nodes := [];
      Contents := [];
    }

    /** push_back: links a fresh node after the back. */
    method PushBack(newElem: T)
      requires Valid()
      modifies this, Nodes
      ensures Valid()
      ensures Contents == old(Contents) + [newElem]
      ensures |Nodes| == |old(Nodes)| + 1 && Nodes[..|old(Nodes)|] == old(Nodes) && fresh(Nodes[|old(Nodes)|])
      ensures old(Nodes) != [] ==> front == old(front)
    {
      if front == null {
        front := new ListNode(newElem);
        back := front;
      } else {
        back.next := new ListNode(newElem);
        back.next.last := back;
        back := back.next;
      }
      size := size + 1;
      Nodes := Nodes + [back];
      Contents := Contents + [newElem];
    }

    /** push_front: links a fresh node before the front. */
    method PushFront(newElem: T)
      requires Valid()
      modifies this, Nodes
      ensures Valid()
      ensures Contents == [newElem] + old(Contents)
      ensures |Nodes| == |old(Nodes)| + 1 && Nodes[1..] == old(Nodes) && fresh(Nodes[0])
      ensures old(Nodes) != [] ==> back == old(back)
    {
      if front == null {
        front := new ListNode(newElem);
        back := front;
      } else {
        var newNode := new ListNode(newElem);
        newNode.next := front;
        front := newNode;
        front.next.last := front;
      }
      size := size + 1;
      Nodes := [front] + Nodes;
      Contents := [newElem] + Contents;
    }

    /** front(): the first value; the source leaves an empty list undefined. */
    function Front(): (x: T)
      reads this, Nodes
      requires Valid() && size > 0
      ensures x == Contents[0]
    {
      front.val
    }

    /** back(): the last value; undefined on an empty list in the source. */
    function Back(): (x: T)
      reads this, Nodes
      requires Valid() && size > 0
      ensures x == Contents[|Contents| - 1]
    {
      back.val
    }

    /** size(): the node count kept alongside the chain. */
    function Size(): (n: nat)
      reads this, Nodes
      requires Valid()
      ensures n == |Contents| == |Nodes|
    {
      size
    }

    /**
     * pop_front as written: the second node becomes the front and loses its
     * `last` link. Removing the only node leaves `back` on the removed node.
     */
    method PopFrontAsWritten()
      requires Valid() && size > 0
      modifies this, Nodes
      ensures size == old(size) - 1 && Nodes == old(Nodes)[1..] && Contents == old(Contents)[1..]
      ensures old(size) >= 2 ==> Valid()
      ensures old(size) == 1 ==> front == null && back == old(back) && back != null && !Valid()
      ensures old(size) == 1 ==> back.val == old(Contents[0])
    {
      assert |Nodes| > 1 ==> front.next == Nodes[1];
      front := front.next;
      if front != null {
        front.last := null;
      }
      size := size - 1;
      Nodes := Nodes[1..];
      Contents := Contents[1..];
    }

    /**
     * pop_back as written: the second-to-last node becomes the back and loses
     * its `next` link. Removing the only node leaves `front` on the removed node.
     */
    method PopBackAsWritten()
      requires Valid() && size > 0
      modifies this, Nodes
      ensures size == old(size) - 1 && Nodes == old(Nodes)[..|old(Nodes)| - 1]
      ensures Contents == old(Contents)[..|old(Contents)| - 1]
      ensures old(size) >= 2 ==> Valid()
      ensures old(size) == 1 ==> back == null && front == old(front) && front != null && !Valid()
      ensures old(size) == 1 ==> front.val == old(Contents[0])
    {
      assert |Nodes| > 1 ==> back.last == Nodes[|Nodes| - 2];
      back := back.last;
      if back != null {
        back.next := null;
      }
      size := size - 1;
      Nodes := Nodes[..|Nodes| - 1];
      Contents := Contents[..|Contents| - 1];
    }

    /** pop_front with the missing reset of `back` when the list becomes empty. */
    method PopFront()
      requires Valid() && size > 0
      modifies this, Nodes
      ensures Valid() && size == old(size) - 1
      ensures Nodes == old(Nodes)[1..] && Contents == old(Contents)[1..]
    {
      assert |Nodes| > 1 ==> front.next == Nodes[1];
      front := front.next;
      if front != null {
        front.last := null;
      } else {
        back := null;
      }
      size := size - 1;
      Nodes := Nodes[1..];
      Contents := Contents[1..];
    }

    /** pop_back with the missing reset of `front` when the list becomes empty. */
    method PopBack()
      requires Valid() && size > 0
      modifies this, Nodes
      ensures Valid() && size == old(size) - 1
      ensures Nodes == old(Nodes)[..|old(Nodes)| - 1] && Contents == old(Contents)[..|old(Contents)| - 1]
    {
      assert |Nodes| > 1 ==> back.last == Nodes[|Nodes| - 2];
      back := back.last;
      if back != null {
        back.next := null;
      } else {
        front := null;
      }
      size := size - 1;
      Nodes := Nodes[..|Nodes| - 1];
      Contents := Contents[..|Contents| - 1];
    }

    /** begin(): a cursor on the front node (null when there is none). */
    method Begin() returns (it: Iterator<T>)
      ensures fresh(it) && it.node == front
    {
      it := new Iterator(front);
    }

    /** end(): the null cursor. */
    method End() returns (it: Iterator<T>)
      ensures fresh(it) && it.node == null
    {
      it := new Iterator(null);
    }

    /** rbegin(): a reverse cursor on the back node. */
    method RBegin() returns (it: ReverseIterator<T>)
      ensures fresh(it) && it.node == back
    {
      it := new ReverseIterator(back);
    }

    /** rend(): the null reverse cursor. */
    method REnd() returns (it: ReverseIterator<T>)
      ensures fresh(it) && it.node == null
    {
      it := new ReverseIterator(null);
    }
  }

  /** list::iterator: a node reference, null past either end. */
  class Iterator<T> {
    var node: ListNode?<T>

    constructor (node: ListNode?<T>)
      ensures this.node == node
    {
      this.node := node;
    }

    /** Prefix ++: follows `next`. */
    method Increment()
      requires node != null
      modifies this
      ensures node == old(node.next)
    {
      node := node.next;
    }

    /** Postfix ++. */
    method PostIncrement() returns (prior: Iterator<T>)
      requires node != null
      modifies this
      ensures fresh(prior) && prior.node == old(node)
      ensures node == old(node.next)
    {
      prior := new Iterator(node);
      Increment();
    }

    /** Prefix --: follows `last`. */
    method Decrement()
      requires node != null
      modifies this
      ensures node == old(node.last)
    {
      node := node.last;
    }

    /** Postfix --. */
    method PostDecrement() returns (prior: Iterator<T>)
      requires node != null
      modifies this
      ensures fresh(prior) && prior.node == old(node)
      ensures node == old(node.last)
    {
      prior := new Iterator(node);
      Decrement();
    }

    /** `this == other`: the same node, or both null. */
    predicate Equals(other: Iterator<T>)
      reads this, other
      ensures other.node == null ==> (Equals(other) <==> node == null)
    {
      node == other.node
    }

    /** `*it`: the value of the node. */
    function Get(): (x: T)
      reads this, node
      requires node != null
      ensures x == node.val
    {
      node.val
    }
  }

  /** list::reverse_iterator: ++ follows `last`, -- follows `next`. */
  class ReverseIterator<T> {
    var node: ListNode?<T>

    constructor (node: ListNode?<T>)
      ensures this.node == node
    {
      this.node := node;
    }

    /** Prefix ++: follows `last`. */
    method Increment()
      requires node != null
      modifies this
      ensures node == old(node.last)
    {
      node := node.last;
    }

    /** Postfix ++. */
    method PostIncrement() returns (prior: ReverseIterator<T>)
      requires node != null
      modifies this
      ensures fresh(prior) && prior.node == old(node)
      ensures node == old(node.last)
    {
      prior := new ReverseIterator(node);
      Increment();
    }

    /** Prefix --: follows `next`. */
    method Decrement()
      requires node != null
      modifies this
      ensures node == old(node.next)
    {
      node := node.next;
    }

    /** Postfix --. */
    method PostDecrement() returns (prior: ReverseIterator<T>)
      requires node != null
      modifies this
      ensures fresh(prior) && prior.node == old(node)
      ensures node == old(node.next)
    {
      prior := new ReverseIterator(node);
      Decrement();
    }

    /** `this == other`: the same node, or both null. */
    predicate Equals(other: ReverseIterator<T>)
      reads this, other
      ensures other.node == null ==> (Equals(other) <==> node == null)
    {
      node == other.node
    }

    /** `*it`: the value of the node. */
    function Get(): (x: T)
      reads this, node
      requires node != null
      ensures x == node.val
    {
      node.val
    }
  }

  /** The node a forward cursor stands on after `k` steps from begin(): the null end after the last node. */
  ghost function NodeAt<T>(l: List<T>, k: nat): ListNode?<T>
    reads l
    requires k <= |l.Nodes|
  {
    if k < |l.Nodes| then l.Nodes[k] else null
  }

  /**
   * On a valid list, cursor equality (node identity) is equality of positions,
   * because no node occurs twice; a cursor on the k-th node reads the k-th value.
   */
  lemma CursorPositions<T>(l: List<T>, a: Iterator<T>, b: Iterator<T>, i: nat, j: nat)
    requires l.Valid() && i <= |l.Nodes| && j <= |l.Nodes|
    requires a.node == NodeAt(l, i) && b.node == NodeAt(l, j)
    ensures a.Equals(b) <==> i == j
    ensures i < |l.Nodes| ==> a.Get() == l.Contents[i]
  {
  }

  /**
   * The same for reverse cursors counted from rbegin(): position `k` stands on
   * node `size - 1 - k`, and equality is equality of positions.
   */
  lemma ReverseCursorPositions<T>(l: List<T>, a: ReverseIterator<T>, b: ReverseIterator<T>, i: nat, j: nat)
    requires l.Valid() && i <= |l.Nodes| && j <= |l.Nodes|
    requires a.node == (if i < |l.Nodes| then l.Nodes[|l.Nodes| - 1 - i] else null)
    requires b.node == (if j < |l.Nodes| then l.Nodes[|l.Nodes| - 1 - j] else null)
    ensures a.Equals(b) <==> i == j
    ensures i < |l.Nodes| ==> a.Get() == Reverse(l.Contents)[i]
  {
  }

  /** Walking from begin() with ++ until end() visits the values front to back. */
  method ForwardValues<T>(l: List<T>) returns (r: seq<T>)
    requires l.Valid()
    ensures r == l.Contents
    ensures |r| == l.Size()
  {
    var it := l.Begin();
    var e := l.End();
    r := [];
    ghost var k := 0;
    while !it.Equals(e)
      invariant e.node == null
      invariant k <= |l.Nodes|
      invariant it.node == (if k < |l.Nodes| then l.Nodes[k] else null)
      invariant r == l.Contents[..k]
      decreases |l.Nodes| - k
    {
      r := r + [it.Get()];
      it.Increment();
      k := k + 1;
    }
  }

  /** Walking from rbegin() with ++ until rend() visits the values back to front. */
  method ReverseValues<T>(l: List<T>) returns (r: seq<T>)
    requires l.Valid()
    ensures r == Reverse(l.Contents)
    ensures |r| == l.Size()
  {
    var it := l.RBegin();
    var e := l.REnd();
    r := [];
    ghost var n := |l.Nodes|;
    ghost var k := 0;
    while !it.Equals(e)
      invariant e.node == null
      invariant k <= n
      invariant it.node == (if k < n then l.Nodes[n - 1 - k] else null)
      invariant r == Reverse(l.Contents[n - k..])
      decreases n - k
    {
      ReverseSuffixStep(l.Contents, n - 1 - k);
      r := r + [it.Get()];
      it.Increment();
      k := k + 1;
    }
  }

  /**
   * Removing the only node with the pop_front as written: the list reports
   * size 0, yet rbegin() still differs from rend() and reads the removed value.
   */
  method PopFrontLeavesStaleBack() returns (size: nat, rbeginIsREnd: bool, seen: int)
    ensures size == 0 && !rbeginIsREnd && seen == 7
  {
    var l := new List<int>();
    l.PushBack(7);
    l.PopFrontAsWritten();
    size := l.size;
    var rb := l.RBegin();
    var re := l.REnd();
    rbeginIsREnd := rb.Equals(re);
    seen := rb.Get();
  }

  /**
   * Removing the only node with the pop_back as written: the list reports
   * size 0, yet begin() still differs from end() and reads the removed value.
   */
  method PopBackLeavesStaleFront() returns (size: nat, beginIsEnd: bool, seen: int)
    ensures size == 0 && !beginIsEnd && seen == 7
  {
    var l := new List<int>();
    l.PushFront(7);
    l.PopBackAsWritten();
    size := l.size;
    var b := l.Begin();
    var e := l.End();
    beginIsEnd := b.Equals(e);
    seen := b.Get();
  }

  /** With the corrected pops, emptying a one-element list from either end leaves begin() == end() and rbegin() == rend(). */
  method PopsEmptyBothEnds<T>(x: T) returns (fromFront: bool, fromBack: bool)
    ensures fromFront && fromBack
  {
    var l := new List<T>();
    l.PushBack(x);
    l.PopFront();
    var b := l.Begin();
    var e := l.End();
    var rb := l.RBegin();
    var re := l.REnd();
    fromFront := b.Equals(e) && rb.Equals(re);
    l.PushFront(x);
    l.PopBack();
    b := l.Begin();
    e := l.End();
    rb := l.RBegin();
    re := l.REnd();
    fromBack := b.Equals(e) && rb.Equals(re);
  }

  /** Three pushes at the front, then one pop at the back. */
  method PushFrontPopBackScenario() returns (forward: seq<int>, backward: seq<int>, afterPop: seq<int>)
    ensures forward == [3, 2, 1]
    ensures backward == [1, 2, 3]
    ensures afterPop == [3, 2]
  {
    var l := new List<int>();
    l.PushFront(1);
    l.PushFront(2);
    l.PushFront(3);
    forward := ForwardValues(l);
    backward := ReverseValues(l);
    l.PopBack();
    afterPop := ForwardValues(l);
  }
}
