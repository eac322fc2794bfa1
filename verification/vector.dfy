/**
 * prac::vector<T>: a growable contiguous array (stl_containers/src/vector.hpp).
 *
 * The buffer is an `array<T>` of `numAllocated` slots of which the first
 * `numElements` are live; the slots past the size keep whatever was last
 * stored in them. Cursors are positions: a forward cursor at `p` reads slot
 * `p`, a reverse cursor at `p` reads slot `size - p - 1`.
 */
module Vectors {
  import opened Seqs

  /** Slots every constructor allocates beyond the requested size. */
  const InitialSlack: nat := 10

  class Vector<T(0)> {
    var storage: array<T>
    var numAllocated: nat
    var numElements: nat

    /** Size within capacity, capacity is the buffer's length and never below the initial slack. */
    ghost predicate Valid()
      reads this
    {
      numElements <= numAllocated &&
      numAllocated == storage.Length &&
      InitialSlack <= numAllocated
    }

    /** The live elements, in index order. */
    ghost function Elements(): seq<T>
      reads this, storage
      requires Valid()
    {
      storage[..numElements]
    }

    /** vector(num_elements, default_value): `n` copies of the value, capacity `n + 10`. */
    constructor (n: nat, defaultValue: T)
      ensures Valid() && fresh(storage)
      ensures numAllocated == n + InitialSlack
      ensures |Elements()| == n
      ensures forall k :: 0 <= k < n ==> Elements()[k] == defaultValue
    {
      numElements := n;
      numAllocated := InitialSlack + n;
      storage := new T[InitialSlack + n];
      new;
      var i := 0;
      while i < numElements
        modifies storage
        invariant 0 <= i <= numElements
        invariant forall k :: 0 <= k < i ==> storage[k] == defaultValue
      {
        storage[i] := defaultValue;
        i := i + 1;
      }
    }

    /**
     * vector(begin, end): capacity 10, then every element of the range is
     * pushed in iteration order. The range is given by the values it yields.
     */
    constructor FromRange(src: seq<T>)
      ensures Valid() && fresh(storage)
      ensures Elements() == src
    {
      numAllocated := InitialSlack;
      numElements := 0;
      storage := new T[InitialSlack];
      new;
      var i := 0;
      while i < |src|
        invariant 0 <= i <= |src|
        invariant Valid() && fresh(storage)
        invariant Elements() == src[..i]
      {
        PushBack(src[i]);
        i := i + 1;
      }
    }

    /** push_back: appends, doubling the capacity first when the buffer is full. */
    method PushBack(newElem: T)
      requires Valid()
      modifies this, storage
      ensures Valid()
      ensures Elements() == old(Elements()) + [newElem]
      ensures old(numElements) < old(numAllocated) ==>
                storage == old(storage) && numAllocated == old(numAllocated)
      ensures old(numElements) >= old(numAllocated) ==>
                fresh(storage) && numAllocated == 2 * old(numAllocated)
    {
      if numElements >= numAllocated {
        Allocate(numAllocated * 2);
      }
      storage[numElements] := newElem;
      numElements := numElements + 1;
    }

    /** const operator[]: unchecked read of slot `i`; only the buffer's bound is required. */
    function Get(i: nat): (x: T)
      reads this, storage
      requires Valid() && i < numAllocated
      ensures i < numElements ==> x == Elements()[i]
    {
      storage[i]
    }

    /** `vec[i] = v` through the reference operator[] returns: exactly slot `i` changes. */
    method Set(i: nat, v: T)
      requires Valid() && i < numAllocated
      modifies storage
      ensures Valid()
      ensures storage[..] == old(storage[..])[i := v]
      ensures i < numElements ==> Elements() == old(Elements())[i := v]
      ensures i >= numElements ==> Elements() == old(Elements())
    {
      storage[i] := v;
    }

    /** size(): the number of live elements. */
    function Size(): (n: nat)
      reads this, storage
      requires Valid()
      ensures n == |Elements()|
    {
      numElements
    }

    /**
     * resize(sz, default_value): growing reserves `sz + 10` slots and fills the
     * new positions with the value; shrinking only lowers the size, leaving the
     * buffer and its stale slots as they were.
     */
    method Resize(sz: nat, defaultValue: T)
      requires Valid()
      modifies this, storage
      ensures Valid() && numElements == sz
      ensures storage == old(storage) || fresh(storage)
      ensures sz > old(numElements) ==>
                |Elements()| == sz &&
                Elements()[..old(numElements)] == old(Elements()) &&
                (forall k :: old(numElements) <= k < sz ==> Elements()[k] == defaultValue)
      ensures sz > old(numElements) ==>
                numAllocated == (if sz + InitialSlack > old(numAllocated) then sz + InitialSlack else old(numAllocated))
      ensures sz > old(numElements) && sz + InitialSlack <= old(numAllocated) ==>
                storage == old(storage) && storage[sz..] == old(storage[sz..])
      ensures sz > old(numElements) && sz + InitialSlack > old(numAllocated) ==> fresh(storage)
      ensures sz <= old(numElements) ==>
                storage == old(storage) && storage[..] == old(storage[..]) &&
                numAllocated == old(numAllocated) && Elements() == old(Elements())[..sz]
    {
      if sz > numElements {
        Allocate(sz + InitialSlack);
        ghost var kept := storage == old(storage);
        var i := numElements;
        while i < sz
          modifies storage
          invariant numElements <= i <= sz
          invariant kept ==> storage == old(storage) && storage[sz..] == old(storage[sz..])
          invariant storage[..numElements] == old(Elements())
          invariant forall k :: numElements <= k < i ==> storage[k] == defaultValue
        {
          storage[i] := defaultValue;
          i := i + 1;
        }
      }
      numElements := sz;
    }

    /**
     * allocate(sz): when `sz` exceeds the capacity, moves the live prefix into a
     * fresh buffer of exactly `sz` slots; otherwise nothing happens. The size
     * never changes.
     */
    method Allocate(sz: nat)
      requires Valid()
      modifies this
      ensures Valid() && numElements == old(numElements)
      ensures Elements() == old(Elements())
      ensures sz <= old(numAllocated) ==>
                storage == old(storage) && numAllocated == old(numAllocated)
      ensures sz > old(numAllocated) ==>
                fresh(storage) && numAllocated == sz
    {
      if sz > numAllocated {
        var newStorage := new T[sz];
        var i := 0;
        while i < numElements
          modifies newStorage
          invariant 0 <= i <= numElements
          invariant newStorage[..i] == storage[..i]
        {
          newStorage[i] := storage[i];
          i := i + 1;
        }
        numAllocated := sz;
        storage := newStorage;
      }
    }

    /** begin(): a forward cursor at position 0. */
    method Begin() returns (it: Iterator<T>)
      ensures fresh(it) && it.vec == this && it.pos == 0
    {
      it := new Iterator(this, 0);
    }

    /** end(): a forward cursor at position `size()`. */
    method End() returns (it: Iterator<T>)
      ensures fresh(it) && it.vec == this && it.pos == numElements
    {
      it := new Iterator(this, numElements);
    }

    /** rbegin(): a reverse cursor at position 0, which reads the last element. */
    method RBegin() returns (it: ReverseIterator<T>)
      ensures fresh(it) && it.vec == this && it.pos == 0
    {
      it := new ReverseIterator(this, 0);
    }

    /** rend(): a reverse cursor at position `size()`. */
    method REnd() returns (it: ReverseIterator<T>)
      ensures fresh(it) && it.vec == this && it.pos == numElements
    {
      it := new ReverseIterator(this, numElements);
    }
  }

  /** vector::iterator: a position into a vector. */
  class Iterator<T(0)> {
    const vec: Vector<T>
    var pos: nat

    constructor (vec: Vector<T>, pos: nat)
      ensures this.vec == vec && this.pos == pos
    {
      this.vec := vec;
      this.pos := pos;
    }

    /** Prefix ++. */
    method Increment()
      modifies this
      ensures pos == old(pos) + 1
    {
      pos := pos + 1;
    }

    /** Postfix ++: a copy at the old position, this one moved forward. */
    method PostIncrement() returns (prior: Iterator<T>)
      modifies this
      ensures fresh(prior) && prior.vec == vec && prior.pos == old(pos)
      ensures pos == old(pos) + 1
    {
      prior := new Iterator(vec, pos);
      Increment();
    }

    /** Prefix --; position 0 would wrap the unsigned position, so it is excluded. */
    method Decrement()
      requires pos > 0
      modifies this
      ensures pos == old(pos) - 1
    {
      pos := pos - 1;
    }

    /** Postfix --. */
    method PostDecrement() returns (prior: Iterator<T>)
      requires pos > 0
      modifies this
      ensures fresh(prior) && prior.vec == vec && prior.pos == old(pos)
      ensures pos == old(pos) - 1
    {
      prior := new Iterator(vec, pos);
      Decrement();
    }

    /** `this - other`: how many steps forward lead from `other` to this cursor. */
    function Distance(other: Iterator<T>): (d: nat)
      reads this, other
      requires other.pos <= pos
      ensures other.pos + d == pos
    {
      pos - other.pos
    }

    /** `this + count`: a new cursor `count` steps forward. */
    method Plus(count: nat) returns (r: Iterator<T>)
      ensures fresh(r) && r.vec == vec && r.pos == pos + count
      ensures r.Distance(this) == count
    {
      r := new Iterator(vec, pos + count);
    }

    /** `this - count`: a new cursor `count` steps back. */
    method Minus(count: nat) returns (r: Iterator<T>)
      requires count <= pos
      ensures fresh(r) && r.vec == vec && r.pos == pos - count
      ensures this.Distance(r) == count
    {
      r := new Iterator(vec, pos - count);
    }

    /** `this < other`. */
    predicate Less(other: Iterator<T>)
      reads this, other
      ensures Less(other) <==> pos <= other.pos && other.Distance(this) > 0
    {
      pos < other.pos
    }

    /** `this > other`. */
    predicate Greater(other: Iterator<T>)
      reads this, other
      ensures Greater(other) <==> other.pos <= pos && Distance(other) > 0
    {
      pos > other.pos
    }

    /** `this == other`: compares positions only. */
    predicate Equals(other: Iterator<T>)
      reads this, other
      ensures Equals(other) <==> !Less(other) && !Greater(other)
    {
      pos == other.pos
    }

    /** `*it` for reading: slot `pos` of the vector. */
    function Get(): (x: T)
      reads this, vec, vec.storage
      requires vec.Valid() && pos < vec.numAllocated
      ensures pos < vec.numElements ==> x == vec.Elements()[pos]
    {
      vec.Get(pos)
    }

    /** `*it = v`: writes slot `pos` and nothing else. */
    method Set(v: T)
      requires vec.Valid() && pos < vec.numAllocated
      modifies vec.storage
      ensures vec.Valid()
      ensures vec.storage[..] == old(vec.storage[..])[pos := v]
      ensures pos < vec.numElements ==> vec.Elements() == old(vec.Elements())[pos := v]
    {
      vec.Set(pos, v);
    }
  }

  /** vector::reverse_iterator: a position counted from the back. */
  class ReverseIterator<T(0)> {
    const vec: Vector<T>
    var pos: nat

    constructor (vec: Vector<T>, pos: nat)
      ensures this.vec == vec && this.pos == pos
    {
      this.vec := vec;
      this.pos := pos;
    }

    /** Prefix ++: one element further towards the front. */
    method Increment()
      modifies this
      ensures pos == old(pos) + 1
    {
      pos := pos + 1;
    }

    /** Postfix ++. */
    method PostIncrement() returns (prior: ReverseIterator<T>)
      modifies this
      ensures fresh(prior) && prior.vec == vec && prior.pos == old(pos)
      ensures pos == old(pos) + 1
    {
      prior := new ReverseIterator(vec, pos);
      Increment();
    }

    /** Prefix --; position 0 is excluded because the unsigned position would wrap. */
    method Decrement()
      requires pos > 0
      modifies this
      ensures pos == old(pos) - 1
    {
      pos := pos - 1;
    }

    /** Postfix --. */
    method PostDecrement() returns (prior: ReverseIterator<T>)
      requires pos > 0
      modifies this
      ensures fresh(prior) && prior.vec == vec && prior.pos == old(pos)
      ensures pos == old(pos) - 1
    {
      prior := new ReverseIterator(vec, pos);
      Decrement();
    }

    /** `this - other`. */
    function Distance(other: ReverseIterator<T>): (d: nat)
      reads this, other
      requires other.pos <= pos
      ensures other.pos + d == pos
    {
      pos - other.pos
    }

    /** `this + count`. */
    method Plus(count: nat) returns (r: ReverseIterator<T>)
      ensures fresh(r) && r.vec == vec && r.pos == pos + count
      ensures r.Distance(this) == count
    {
      r := new ReverseIterator(vec, pos + count);
    }

    /** `this - count`. */
    method Minus(count: nat) returns (r: ReverseIterator<T>)
      requires count <= pos
      ensures fresh(r) && r.vec == vec && r.pos == pos - count
      ensures this.Distance(r) == count
    {
      r := new ReverseIterator(vec, pos - count);
    }

    /** `this < other`. */
    predicate Less(other: ReverseIterator<T>)
      reads this, other
      ensures Less(other) <==> pos <= other.pos && other.Distance(this) > 0
    {
      pos < other.pos
    }

    /** `this > other`. */
    predicate Greater(other: ReverseIterator<T>)
      reads this, other
      ensures Greater(other) <==> other.pos <= pos && Distance(other) > 0
    {
      pos > other.pos
    }

    /** `this == other`: compares positions only. */
    predicate Equals(other: ReverseIterator<T>)
      reads this, other
      ensures Equals(other) <==> !Less(other) && !Greater(other)
    {
      pos == other.pos
    }

    /** The slot a reverse cursor at `pos` stands on: `size - pos - 1`. */
    function Slot(): (i: nat)
      reads this, vec, vec.storage
      requires vec.Valid() && pos < vec.numElements
      ensures i < |vec.Elements()| && vec.Elements()[i] == Reverse(vec.Elements())[pos]
    {
      vec.numElements - pos - 1
    }

    /** `*it` for reading: the element mirrored from the back. */
    function Get(): (x: T)
      reads this, vec, vec.storage
      requires vec.Valid() && pos < vec.numElements
      ensures x == vec.Elements()[|vec.Elements()| - 1 - pos]
      ensures x == Reverse(vec.Elements())[pos]
    {
      vec.Get(Slot())
    }

    /** `*it = v`: writes the mirrored slot and nothing else. */
    method Set(v: T)
      requires vec.Valid() && pos < vec.numElements
      modifies vec.storage
      ensures vec.Valid()
      ensures vec.Elements() == old(vec.Elements())[vec.numElements - pos - 1 := v]
      ensures vec.storage[..] == old(vec.storage[..])[vec.numElements - pos - 1 := v]
    {
      vec.Set(Slot(), v);
    }
  }

  /** Walking from begin() with ++ until end() reads the elements in index order. */
  method ForwardValues<T(0)>(v: Vector<T>) returns (r: seq<T>)
    requires v.Valid()
    ensures r == v.Elements()
  {
    var it := v.Begin();
    var e := v.End();
    r := [];
    while !it.Equals(e)
      invariant it.vec == v && it.pos <= v.numElements && e.pos == v.numElements
      invariant r == v.Elements()[..it.pos]
      decreases v.numElements - it.pos
    {
      var x := it.Get();
      r := r + [x];
      it.Increment();
    }
  }

  /** Walking from rbegin() with ++ until rend() reads the elements back to front. */
  method ReverseValues<T(0)>(v: Vector<T>) returns (r: seq<T>)
    requires v.Valid()
    ensures r == Reverse(v.Elements())
  {
    var it := v.RBegin();
    var e := v.REnd();
    r := [];
    ghost var elems := v.Elements();
    while !it.Equals(e)
      invariant it.vec == v && it.pos <= v.numElements && e.pos == v.numElements
      invariant r == Reverse(elems[|elems| - it.pos..])
      decreases v.numElements - it.pos
    {
      var x := it.Get();
      ReverseSuffixStep(elems, |elems| - it.pos - 1);
      r := r + [x];
      it.Increment();
    }
  }

  /**
   * Writing `vals[size - 1 - p]` through the reverse cursor at each position
   * `p` from rbegin() to rend() stores `vals` in index order.
   */
  method AssignThroughReverse<T(0)>(v: Vector<T>, vals: seq<T>)
    requires v.Valid() && |vals| == v.numElements
    modifies v.storage
    ensures v.Valid() && v.Elements() == vals
  {
    var it := v.RBegin();
    var e := v.REnd();
    while !it.Equals(e)
      modifies v.storage, it
      invariant it.vec == v && it.pos <= v.numElements && e.pos == v.numElements && v.Valid()
      invariant |v.Elements()| == |vals|
      invariant forall k :: v.numElements - it.pos <= k < v.numElements ==> v.Elements()[k] == vals[k]
      decreases v.numElements - it.pos
    {
      it.Set(vals[v.numElements - 1 - it.pos]);
      it.Increment();
    }
  }

  /**
   * Four appends onto an empty vector, then a resize that grows with a fill
   * value and one that shrinks.
   */
  method PushResizeScenario() returns (pushed: seq<int>, grown: seq<int>, shrunk: seq<int>)
    ensures pushed == [5, 3, 9, 1]
    ensures grown == [5, 3, 9, 1, 0, 0]
    ensures shrunk == [5, 3]
  {
    var v := new Vector<int>(0, 0);
    v.PushBack(5);
    v.PushBack(3);
    v.PushBack(9);
    v.PushBack(1);
    pushed := ForwardValues(v);
    v.Resize(6, 0);
    grown := ForwardValues(v);
    v.Resize(2, 0);
    shrunk := ForwardValues(v);
  }
}
