/**
 A functional model of a binary min-heap (Python's `heapq` list and
 `queue.PriorityQueue`). The heap is represented by its contents in
 ascending order: the heap's root is the first element, a push inserts at
 the sorted position and a pop removes the first element. Only the order
 of removal is observable in the modelled code, and that is the same for
 the heap and for this sorted view.
 */
module PriorityQueue {

  /** `le` is a total preorder: any two keys compare, and comparison is transitive. */
  ghost predicate TotalOrder<T(!new)>(le: (T, T) -> bool) {
    && (forall x, y :: le(x, y) || le(y, x))
    && (forall x, y, z :: le(x, y) && le(y, z) ==> le(x, z))
  }

  /** The contents are in ascending `le` order (the heap invariant, read in removal order). */
  predicate Sorted<T>(le: (T, T) -> bool, q: seq<T>) {
    forall i, j :: 0 <= i < j < |q| ==> le(q[i], q[j])
  }

  /** `heappush`: the result is still ordered and holds exactly one more copy of `x`. */
  function Push<T(!new)>(le: (T, T) -> bool, q: seq<T>, x: T): (r: seq<T>)
    requires TotalOrder(le)
    requires Sorted(le, q)
    ensures Sorted(le, r)
    ensures multiset(r) == multiset(q) + multiset{x}
    ensures |r| == |q| + 1
    decreases |q|
  {
    if |q| == 0 || le(x, q[0]) then
      BelowHead(le, x, q);
      SortedCons(le, x, q);
      [x] + q
    else
      var rest := Push(le, q[1..], x);
      assert le(q[0], x);
      BelowAll(le, q[0], q[1..], x, rest);
      SortedCons(le, q[0], rest);
      assert multiset([q[0]] + rest) == multiset{q[0]} + multiset(rest);
      assert q == [q[0]] + q[1..];
      [q[0]] + rest
  }

  /** Prepending an element at most every element keeps a queue ordered. */
  lemma SortedCons<T>(le: (T, T) -> bool, h: T, q: seq<T>)
    requires Sorted(le, q)
    requires forall k :: 0 <= k < |q| ==> le(h, q[k])
    ensures Sorted(le, [h] + q)
  {
  }

  /** A key at most the root of an ordered queue is at most all of it. */
  lemma BelowHead<T(!new)>(le: (T, T) -> bool, x: T, q: seq<T>)
    requires TotalOrder(le)
    requires Sorted(le, q)
    requires |q| == 0 || le(x, q[0])
    ensures forall k :: 0 <= k < |q| ==> le(x, q[k])
  {
  }

  /** A bound on `q` and on `x` bounds any arrangement of `q` plus `x`. */
  lemma BelowAll<T>(le: (T, T) -> bool, h: T, q: seq<T>, x: T, r: seq<T>)
    requires le(h, x)
    requires forall k :: 0 <= k < |q| ==> le(h, q[k])
    requires multiset(r) == multiset(q) + multiset{x}
    ensures forall k :: 0 <= k < |r| ==> le(h, r[k])
  {
    forall k | 0 <= k < |r|
      ensures le(h, r[k])
    {
      var y := r[k];
      assert y in multiset(r);
      if y != x {
        assert y in multiset(q);
        assert y in q;
        var i :| 0 <= i < |q| && q[i] == y;
      }
    }
  }

  /** The root of an ordered queue is a least element of the queue. */
  lemma HeadIsLeast<T(!new)>(le: (T, T) -> bool, q: seq<T>)
    requires TotalOrder(le)
    requires Sorted(le, q)
    requires |q| > 0
    ensures forall y :: y in q ==> le(q[0], y)
  {
    forall y | y in q
      ensures le(q[0], y)
    {
      var i :| 0 <= i < |q| && q[i] == y;
      if i == 0 {
        // totality at (y, y) gives reflexivity
        assert le(y, y);
      }
    }
  }

  /** `heappop`: removing the root keeps the rest ordered and loses only the root. */
  lemma PopTail<T>(le: (T, T) -> bool, q: seq<T>)
    requires Sorted(le, q)
    requires |q| > 0
    ensures Sorted(le, q[1..])
    ensures multiset(q) == multiset(q[1..]) + multiset{q[0]}
  {
    assert q == [q[0]] + q[1..];
  }
}
