# prac containers: vector and list

This project models the two sequence containers of the `prac` namespace:

- `prac::vector<T>` (`stl_containers/src/vector.hpp`) is a growable contiguous array.
- `prac::list<T>` (`stl_containers/src/list.hpp`) is a doubly linked list.

Both are written in the source's own imperative form. Each container is a Dafny class whose methods update fields in place. Each cursor is a class whose `++`/`--` move its position or node in place; `+k`, `-k` and the postfix forms return fresh cursor objects.

The files are:

- `vector.dfy`, module `Vectors`.
  - `Vector` keeps an `array<T>` buffer, `numAllocated` (the capacity) and `numElements` (the size).
  - `Valid()` is the invariant `size <= capacity == buffer length`. Capacity is also at least 10, because every constructor allocates 10 slots of slack and capacity never shrinks.
  - `Elements()` is the abstract content, the live prefix of the buffer.
  - Every mutating method states the new `Elements()` in terms of the old one. It also states what happens to the capacity and to the buffer object (kept, or replaced by a fresh one).
  - Cursors are `Iterator` (position `p` reads slot `p`) and `ReverseIterator` (position `p` reads slot `size - p - 1`).
- `list.dfy`, module `Lists`.
  - `ListNode` holds `val`, `last` and `next`.
  - `List` keeps `size`, `front` and `back`, plus two ghost sequences: `Nodes` (the chain from front to back) and `Contents` (the values).
  - `Valid()` is the link invariant:
    - the front's `last` and the back's `next` are null;
    - `Nodes[i].next == Nodes[i+1]` and `Nodes[i+1].last == Nodes[i]`;
    - no node occurs twice;
    - both ends are null exactly when the list is empty;
    - `size == |Nodes|`.
  - Cursors hold a node reference, with null as the end sentinel.
- `seqs.dfy`, module `Seqs`: `Reverse`, which is what a reverse traversal yields, and one step lemma about it.

The traversal methods walk the containers from `begin()` to `end()` and from `rbegin()` to `rend()`. They show that the cursors visit the contents in order and in reverse order, and that the number of steps equals `size()`. For the list this is the statement that `size` counts the nodes reachable from the front.

## Where this model follows the code rather than the usual description

- `operator[]` is unchecked. The model requires only `i < capacity`, because that is the bound past which the buffer read is undefined. Within the size the result is the element. Between size and capacity it is the stale slot. The shrink test in `stl_containers/tests/vector.cpp:134-138` reads those stale slots.
- `resize` to a larger size calls `allocate(sz + 10)`. The capacity therefore becomes `max(capacity, sz + 10)`, not merely "at least `sz`".
- `resize` to a smaller or equal size only lowers the size. The buffer object and all its slots are left as they were.
- The list has no range constructor in the code, so none is modelled.
- When `pop_front` or `pop_back` removes the only node, the code leaves the opposite end pointer on the removed node. See "Findings".

## Model

| member | source | states |
|---|---|---|
| `Vectors.Vector.constructor` | stl_containers/src/vector.hpp:18-25 | size `n`, capacity `n + 10`, every index below `n` holds the default value, the invariant holds |
| `Vectors.Vector.FromRange` | stl_containers/src/vector.hpp:32-39 | starting from capacity 10 and pushing each value in order yields exactly the source sequence |
| `Vectors.Vector.PushBack` | stl_containers/src/vector.hpp:48-54 | contents become `old + [v]`; with room the buffer and capacity are kept, when full a fresh buffer of twice the capacity replaces it; the invariant is preserved |
| `Vectors.Vector.Get` | stl_containers/src/vector.hpp:67 | reading slot `i` below the capacity; below the size it is element `i` |
| `Vectors.Vector.Set` | stl_containers/src/vector.hpp:80 | writing through the reference changes exactly slot `i`; contents change only at `i` when `i` is below the size |
| `Vectors.Vector.Size` | stl_containers/src/vector.hpp:86 | the size is the length of the contents |
| `Vectors.Vector.Resize` | stl_containers/src/vector.hpp:101-113 | growing: the old elements are a prefix and `[old size, sz)` holds the fill value, capacity becomes `max(capacity, sz + 10)`; a grow that fits keeps the same buffer with its slots from `sz` on untouched, one that does not gets a fresh buffer; shrinking: the same buffer with all slots untouched, the same capacity, contents truncated to `sz` |
| `Vectors.Vector.Allocate` | stl_containers/src/vector.hpp:120-130 | a no-op when `sz` is within the capacity; otherwise a fresh buffer of exactly `sz` slots holding the same live prefix; the size never changes |
| `Vectors.Vector.Begin` | stl_containers/src/vector.hpp:206 | a cursor on this vector at position 0 |
| `Vectors.Vector.End` | stl_containers/src/vector.hpp:207 | a cursor at position `size()` |
| `Vectors.Vector.RBegin` | stl_containers/src/vector.hpp:279 | a reverse cursor at position 0 |
| `Vectors.Vector.REnd` | stl_containers/src/vector.hpp:280 | a reverse cursor at position `size()` |
| `Vectors.Iterator.constructor` | stl_containers/src/vector.hpp:143-144 | a cursor on the given vector at the given position |
| `Vectors.Iterator.Increment` | stl_containers/src/vector.hpp:147-150 | the position moves forward by one |
| `Vectors.Iterator.PostIncrement` | stl_containers/src/vector.hpp:153-157 | returns a copy at the old position and moves this one forward |
| `Vectors.Iterator.Decrement` | stl_containers/src/vector.hpp:160-163 | the position moves back by one (not from 0, where the unsigned position would wrap) |
| `Vectors.Iterator.PostDecrement` | stl_containers/src/vector.hpp:166-170 | returns a copy at the old position and moves this one back |
| `Vectors.Iterator.Distance` | stl_containers/src/vector.hpp:172-174 | `this - other` is the number of forward steps from `other` to this cursor |
| `Vectors.Iterator.Plus` | stl_containers/src/vector.hpp:176-180 | a new cursor `count` positions ahead, at distance `count` |
| `Vectors.Iterator.Minus` | stl_containers/src/vector.hpp:182-186 | a new cursor `count` positions back, at distance `count` |
| `Vectors.Iterator.Less` | stl_containers/src/vector.hpp:188-190 | `a < b` exactly when `a` lies before `b` at a positive distance `b - a` |
| `Vectors.Iterator.Greater` | stl_containers/src/vector.hpp:192-194 | `a > b` exactly when `a` lies after `b` at a positive distance `a - b` |
| `Vectors.Iterator.Equals` | stl_containers/src/vector.hpp:196-198 | equality is the case where neither `<` nor `>` holds: the ordering is total |
| `Vectors.Iterator.Get` | stl_containers/src/vector.hpp:200 | dereferencing position `p` below the size yields element `p` |
| `Vectors.Iterator.Set` | stl_containers/src/vector.hpp:202 | writing through the cursor changes exactly slot `p` |
| `Vectors.ReverseIterator.constructor` | stl_containers/src/vector.hpp:222-223 | a reverse cursor on the given vector at the given position |
| `Vectors.ReverseIterator.Increment` | stl_containers/src/vector.hpp:224-227 | the position moves one step towards the front |
| `Vectors.ReverseIterator.PostIncrement` | stl_containers/src/vector.hpp:228-232 | returns a copy at the old position and moves this one |
| `Vectors.ReverseIterator.Decrement` | stl_containers/src/vector.hpp:234-237 | the position moves back by one (not from 0) |
| `Vectors.ReverseIterator.PostDecrement` | stl_containers/src/vector.hpp:239-243 | returns a copy at the old position and moves this one back |
| `Vectors.ReverseIterator.Distance` | stl_containers/src/vector.hpp:245-247 | `this - other` is the number of steps from `other` to this cursor |
| `Vectors.ReverseIterator.Less` | stl_containers/src/vector.hpp:249-251 | `a < b` exactly when `a` lies before `b` at a positive distance `b - a` |
| `Vectors.ReverseIterator.Greater` | stl_containers/src/vector.hpp:253-255 | `a > b` exactly when `a` lies after `b` at a positive distance `a - b` |
| `Vectors.ReverseIterator.Plus` | stl_containers/src/vector.hpp:257-261 | a new cursor `count` positions further, at distance `count` |
| `Vectors.ReverseIterator.Minus` | stl_containers/src/vector.hpp:263-267 | a new cursor `count` positions back, at distance `count` |
| `Vectors.ReverseIterator.Equals` | stl_containers/src/vector.hpp:269-272 | equality is the case where neither `<` nor `>` holds |
| `Vectors.ReverseIterator.Slot` | stl_containers/src/vector.hpp:274 | the slot a reverse cursor at `p` stands on is a live index holding element `p` of the reversed contents |
| `Vectors.ReverseIterator.Get` | stl_containers/src/vector.hpp:273-275 | dereferencing position `p` yields element `size - p - 1`, which is element `p` of the reversed contents |
| `Vectors.ReverseIterator.Set` | stl_containers/src/vector.hpp:273-275 | writing through the reverse cursor changes exactly the mirrored index `size - p - 1` |
| `Vectors.ForwardValues` | stl_containers/tests/vector.cpp:52-56 | iterating from `begin()` with `++` until `end()` reads exactly the contents, in index order, in `size()` steps |
| `Vectors.ReverseValues` | stl_containers/tests/vector.cpp:93-97 | iterating from `rbegin()` until `rend()` reads exactly the reversed contents |
| `Vectors.AssignThroughReverse` | stl_containers/tests/vector.cpp:100-109 | writing `vals[size - 1 - p]` through the reverse cursor at each position stores `vals` in index order |
| `Vectors.PushResizeScenario` | stl_containers/src/vector.hpp:101-113 | four appends give `[5,3,9,1]`; growing to 6 with 0 gives `[5,3,9,1,0,0]`; shrinking to 2 gives `[5,3]` |
| `Lists.ListNode.constructor` | stl_containers/src/list.hpp:9 | a node holds the value and has both links null |
| `Lists.List.constructor` | stl_containers/src/list.hpp:17 | size 0, null front and back, the link invariant holds |
| `Lists.List.PushBack` | stl_containers/src/list.hpp:18-28 | contents become `old + [v]`; the new back is a fresh node after the old chain; the front is kept when the list was non-empty; the link invariant and the size count are preserved |
| `Lists.List.PushFront` | stl_containers/src/list.hpp:30-41 | contents become `[v] + old`; the new front is a fresh node before the old chain; the back is kept when the list was non-empty; the link invariant is preserved |
| `Lists.List.Front` | stl_containers/src/list.hpp:43-45 | on a non-empty list, the first value |
| `Lists.List.Back` | stl_containers/src/list.hpp:65-67 | on a non-empty list, the last value |
| `Lists.List.Size` | stl_containers/src/list.hpp:77 | the counter equals the number of nodes in the chain and of values |
| `Lists.List.PopFrontAsWritten` | stl_containers/src/list.hpp:47-54 | the code as written: from two or more nodes, drops the first value and keeps the invariant; from one node, leaves `back` on the removed node and breaks the invariant |
| `Lists.List.PopBackAsWritten` | stl_containers/src/list.hpp:56-63 | the code as written: from two or more nodes, drops the last value and keeps the invariant; from one node, leaves `front` on the removed node and breaks the invariant |
| `Lists.List.PopFront` | stl_containers/src/list.hpp:47-54 | on a non-empty list, drops the first node and value, resets the new front's `last` (or both ends when emptied), and keeps the invariant |
| `Lists.List.PopBack` | stl_containers/src/list.hpp:56-63 | on a non-empty list, drops the last node and value, resets the new back's `next` (or both ends when emptied), and keeps the invariant |
| `Lists.List.Begin` | stl_containers/src/list.hpp:127 | a cursor on the front node |
| `Lists.List.End` | stl_containers/src/list.hpp:128 | the null cursor |
| `Lists.List.RBegin` | stl_containers/src/list.hpp:182 | a reverse cursor on the back node |
| `Lists.List.REnd` | stl_containers/src/list.hpp:183 | the null reverse cursor |
| `Lists.Iterator.constructor` | stl_containers/src/list.hpp:89 | a cursor on the given node (null for the end) |
| `Lists.Iterator.Increment` | stl_containers/src/list.hpp:92-95 | the cursor follows `next` |
| `Lists.Iterator.PostIncrement` | stl_containers/src/list.hpp:98-102 | returns a copy on the old node and follows `next` |
| `Lists.Iterator.Decrement` | stl_containers/src/list.hpp:105-108 | the cursor follows `last` |
| `Lists.Iterator.PostDecrement` | stl_containers/src/list.hpp:111-115 | returns a copy on the old node and follows `last` |
| `Lists.Iterator.Equals` | stl_containers/src/list.hpp:117-119 | node identity; compared with the null `end()` it tells whether the cursor is past the last node |
| `Lists.Iterator.Get` | stl_containers/src/list.hpp:121-123 | the value held by the cursor's node |
| `Lists.ReverseIterator.constructor` | stl_containers/src/list.hpp:142 | a reverse cursor on the given node (null for the end) |
| `Lists.ReverseIterator.Increment` | stl_containers/src/list.hpp:145-148 | the reverse cursor follows `last` |
| `Lists.ReverseIterator.PostIncrement` | stl_containers/src/list.hpp:151-155 | returns a copy on the old node and follows `last` |
| `Lists.ReverseIterator.Decrement` | stl_containers/src/list.hpp:158-161 | the reverse cursor follows `next` |
| `Lists.ReverseIterator.PostDecrement` | stl_containers/src/list.hpp:164-168 | returns a copy on the old node and follows `next` |
| `Lists.ReverseIterator.Equals` | stl_containers/src/list.hpp:170-174 | node identity; compared with the null `rend()` it tells whether the cursor is past the first node |
| `Lists.ReverseIterator.Get` | stl_containers/src/list.hpp:176-178 | the value held by the cursor's node |
| `Lists.CursorPositions` | stl_containers/src/list.hpp:117-123 | on a valid list, two cursors `i` and `j` steps from `begin()` are equal exactly when `i == j`, and the one on node `i` reads element `i` |
| `Lists.ReverseCursorPositions` | stl_containers/src/list.hpp:170-178 | on a valid list, two reverse cursors `i` and `j` steps from `rbegin()` are equal exactly when `i == j`, and the one at step `i` reads element `i` of the reversed contents |
| `Lists.ForwardValues` | stl_containers/src/list.hpp:92-128 | on a valid list, following `next` from `begin()` until the null `end()` visits exactly the contents in order, in `size()` steps: the counter counts the reachable nodes |
| `Lists.ReverseValues` | stl_containers/src/list.hpp:145-183 | following `last` from `rbegin()` until the null `rend()` visits exactly the reversed contents, in `size()` steps |
| `Lists.PopFrontLeavesStaleBack` | stl_containers/src/list.hpp:47-54 | after `push_back(7)` and the as-written `pop_front`, the size is 0, yet `rbegin() != rend()` and `*rbegin()` is the removed 7 |
| `Lists.PopBackLeavesStaleFront` | stl_containers/src/list.hpp:56-63 | after `push_front(7)` and the as-written `pop_back`, the size is 0, yet `begin() != end()` and `*begin()` is the removed 7 |
| `Lists.PopsEmptyBothEnds` | stl_containers/src/list.hpp:47-63 | with the corrected pops, emptying a one-element list from either end gives `begin() == end()` and `rbegin() == rend()` |
| `Lists.PushFrontPopBackScenario` | stl_containers/src/list.hpp:30-41 | three `push_front`s of 1, 2, 3 traverse forward as `[3,2,1]` and backward as `[1,2,3]`; `pop_back` then leaves `[3,2]` |

## Findings

| source | as written | input that shows it | evidently intended | confidence | as-written member | corrected member |
|---|---|---|---|---|---|---|
| stl_containers/src/list.hpp:47-54 | removing the only node sets `m_front` to null but leaves `m_back` on the removed node (and does not delete it) | `push_back(7); pop_front();` gives `size() == 0` while `rbegin() != rend()` and `*rbegin() == 7` | an emptied list has both ends null | not executed; high | `Lists.List.PopFrontAsWritten`, exhibited by `Lists.PopFrontLeavesStaleBack` | `Lists.List.PopFront` |
| stl_containers/src/list.hpp:56-63 | removing the only node sets `m_back` to null but leaves `m_front` on the removed node (and does not delete it) | `push_front(7); pop_back();` gives `size() == 0` while `begin() != end()` and `*begin() == 7`; a following `push_back` would dereference the null `m_back` | an emptied list has both ends null | not executed; high | `Lists.List.PopBackAsWritten`, exhibited by `Lists.PopBackLeavesStaleFront` | `Lists.List.PopBack` |

## Left out

- Memory management is not modelled. This covers `new[]`/`delete[]` of the buffer, deletion of popped nodes, the list destructor's release loop (`stl_containers/src/list.hpp:69-75`), the vector's missing destructor and the missing copy constructors. Dafny is garbage-collected: a reallocation is a fresh array, and a popped node is simply dropped from the chain.
- `cbegin`/`cend` and `crbegin`/`crend` of both containers are not modelled. These are never-instantiated template bodies with defects:
  - `vector::crbegin`/`crend` build an `iterator` where a `reverse_iterator` is declared;
  - `vector::cbegin`/`cend` pass a `const this`;
  - `list::crbegin` starts at the front.
- The const/non-const overload pairs are not modelled separately. Each pair is one read (`Get`) plus one write (`Set`) where a write exists.
- Writing through a list cursor or through `list::front()`/`back()` (the `T&` returns) is not modelled. The list's `Contents` is a ghost field tied to the nodes' values, and a write through a node would have to update it.
- `size_t` arithmetic is not modelled: positions, sizes and capacities are unbounded `nat`.
  - The doubling `m_num_allocated * 2` cannot overflow.
  - Cursor `--` from position 0 and `a - b` with `b > a` would wrap in the source. Here they are excluded by `requires` (`pos > 0`, `other.pos <= pos`, `count <= pos`).
- `Vectors.Vector.PushBack`, `Vectors.Vector.Resize`: the element and fill value are taken by value, where the source takes `const T&`. The use-after-free on a self-aliasing argument is therefore not captured. Examples are `push_back(v[0])` on a full vector, or `resize(sz, v[0])` when `sz + 10` exceeds the capacity: `allocate` frees the old buffer before the referenced slot is read.
- `Vectors.ReverseIterator.Get`: requires `pos < size`, because `size - pos - 1` would wrap otherwise.
- The default arguments `num_elements = 0` and `default_value = T()` of the sized constructor are not modelled as defaults. A default-constructed vector is `new Vector(0, d)` for any `d`; its contents are empty whatever `d` is.
- `Vectors.Vector.FromRange`: the source range is given as the sequence of values its iterators yield. The `Other` iterator type itself is not modelled.
- `Vectors.Iterator.Get`, `Vectors.Vector.Get` and `Vectors.Iterator.Set`: the value of a slot between the size and the capacity is left unconstrained. It is whatever the buffer holds: a default-constructed `T`, or an element left behind by a shrink.
- The `std::iterator` base classes and `std::sort` over cursor ranges are foreign library code and are not modelled.
- `stl_containers/src/assert.hpp` is not modelled. It holds test-harness macros, with floating-point tolerance checks.
- The random test drivers in `stl_containers/tests/` are not modelled. Their checks appear as the traversal and scenario methods above.
