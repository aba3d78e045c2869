/** The binary heap behind every queue of the kernel: a list kept in heap order
    with respect to the elements' own `<`, with the three operations the queues
    use: push, pop the least, and re-heapify after a deletion in the middle. */
module BinaryHeap {

  /** What `<` must satisfy for a heap to make sense: it is asymmetric, and
      "not less than" is transitive.  Elements may tie. */
  ghost predicate Orders<T(!new)>(lt: (T, T) -> bool) {
    && (forall a, b :: lt(a, b) ==> !lt(b, a))
    && (forall a, b, c :: !lt(a, b) && !lt(b, c) ==> !lt(a, c))
  }

  function Parent(i: int): int
    requires i > 0
  {
    (i - 1) / 2
  }

  /** Heap order on every edge whose upper end is at `from` or later. */
  ghost predicate HeapFrom<T(!new)>(q: seq<T>, from: nat, lt: (T, T) -> bool) {
    forall i :: 0 < i < |q| && Parent(i) >= from ==> !lt(q[i], q[Parent(i)])
  }

  ghost predicate IsHeap<T(!new)>(q: seq<T>, lt: (T, T) -> bool) {
    HeapFrom(q, 0, lt)
  }

  /** No element of q is less than x. */
  ghost predicate Least<T(!new)>(x: T, q: multiset<T>, lt: (T, T) -> bool) {
    forall y :: y in q ==> !lt(y, x)
  }

  /** `pos` lies in the subtree rooted at `top`. */
  ghost predicate Below(top: nat, pos: nat) {
    pos == top || (pos > top && Below(top, Parent(pos)))
  }

  /** Heap order from `from` on, except on edges that touch `pos`; what hangs
      below `pos` is still ordered with respect to what stands above it. */
  ghost predicate HeapAround<T(!new)>(q: seq<T>, from: nat, pos: nat, lt: (T, T) -> bool) {
    && from <= pos < |q|
    && Below(from, pos)
    && (forall i :: 0 < i < |q| && Parent(i) >= from && i != pos && Parent(i) != pos
                    ==> !lt(q[i], q[Parent(i)]))
    && (pos > from ==> forall i :: 0 < i < |q| && Parent(i) == pos ==> !lt(q[i], q[Parent(pos)]))
  }

  /** As HeapAround, and the edges below `pos` hold as well. */
  ghost predicate HeapButAbove<T(!new)>(q: seq<T>, from: nat, pos: nat, lt: (T, T) -> bool) {
    && HeapAround(q, from, pos, lt)
    && (forall i :: 0 < i < |q| && Parent(i) == pos ==> !lt(q[i], q[pos]))
  }

  function Swap<T>(q: seq<T>, i: nat, j: nat): (r: seq<T>)
    requires i < |q| && j < |q|
    ensures |r| == |q| && multiset(r) == multiset(q)
    ensures r[i] == q[j] && r[j] == q[i]
    ensures forall k :: 0 <= k < |q| && k != i && k != j ==> r[k] == q[k]
  {
    q[i := q[j]][j := q[i]]
  }

  /** The element at `pos` climbs until its parent is not greater. */
  method SiftTowardsRoot<T(!new)>(q: seq<T>, from: nat, pos: nat, lt: (T, T) -> bool) returns (r: seq<T>)
    requires Orders(lt)
    requires HeapButAbove(q, from, pos, lt)
    ensures HeapFrom(r, from, lt)
    ensures multiset(r) == multiset(q) && |r| == |q|
  {
    r := q;
    var p := pos;
    while p > from
      invariant from <= p && |r| == |q| && multiset(r) == multiset(q)
      invariant HeapButAbove(r, from, p, lt)
    {
      assert Below(from, Parent(p));
      var up := Parent(p);
      if !lt(r[p], r[up]) {
        break;
      }
      ClimbStep(r, from, p, lt);
      r := Swap(r, p, up);
      p := up;
    }
  }

  /** The element at `pos` first sinks to a leaf along the smaller children and
      then climbs back to its place. */
  method SiftTowardsLeaf<T(!new)>(q: seq<T>, pos: nat, lt: (T, T) -> bool) returns (r: seq<T>)
    requires Orders(lt)
    requires pos < |q|
    requires HeapFrom(q, pos + 1, lt)
    ensures HeapFrom(r, pos, lt)
    ensures multiset(r) == multiset(q) && |r| == |q|
  {
    r := q;
    var p := pos;
    var child := 2 * p + 1;
    while child < |r|
      invariant |r| == |q| && multiset(r) == multiset(q)
      invariant pos <= p < |r| && child == 2 * p + 1
      invariant HeapAround(r, pos, p, lt)
      decreases |r| - p
    {
      if child + 1 < |r| && !lt(r[child], r[child + 1]) {
        child := child + 1;
      }
      SinkStep(r, pos, p, child, lt);
      r := Swap(r, p, child);
      p := child;
      child := 2 * p + 1;
    }
    r := SiftTowardsRoot(r, pos, p, lt);
  }

  lemma ClimbStep<T(!new)>(q: seq<T>, from: nat, p: nat, lt: (T, T) -> bool)
    requires Orders(lt)
    requires HeapButAbove(q, from, p, lt) && p > from && lt(q[p], q[Parent(p)])
    ensures HeapButAbove(Swap(q, p, Parent(p)), from, Parent(p), lt)
  {
    assert Below(from, Parent(p));
    var up := Parent(p);
    var r := Swap(q, p, up);
    forall i | 0 < i < |r| && Parent(i) >= from && i != up
      ensures !lt(r[i], r[Parent(i)])
    {
      if i != p && Parent(i) != p && Parent(i) == up {
        assert !lt(q[i], q[up]) && !lt(q[up], q[p]);
      }
    }
    if up > from {
      assert Below(from, Parent(up));
      var top := Parent(up);
      assert !lt(q[up], q[top]);
      forall i | 0 < i < |r| && Parent(i) == up ensures !lt(r[i], r[top]) {
        assert i != p ==> !lt(q[i], q[up]);
      }
    }
  }

  lemma SinkStep<T(!new)>(q: seq<T>, from: nat, p: nat, child: nat, lt: (T, T) -> bool)
    requires Orders(lt)
    requires HeapAround(q, from, p, lt)
    requires child < |q| && (child == 2 * p + 1 || child == 2 * p + 2)
    requires forall i :: 0 < i < |q| && Parent(i) == p ==> !lt(q[i], q[child])
    ensures HeapAround(Swap(q, p, child), from, child, lt)
  {
    var r := Swap(q, p, child);
    assert Parent(child) == p && Below(from, child);
    forall i | 0 < i < |r| && Parent(i) >= from && i != child && Parent(i) != child
      ensures !lt(r[i], r[Parent(i)])
    {
      if i == p {
        assert !lt(q[child], q[Parent(p)]);
      }
    }
    forall i | 0 < i < |r| && Parent(i) == child ensures !lt(r[i], r[p]) {
      assert i != p;
      assert !lt(q[i], q[child]);
    }
  }

  method Push<T(!new)>(q: seq<T>, x: T, lt: (T, T) -> bool) returns (r: seq<T>)
    requires Orders(lt) && IsHeap(q, lt)
    ensures IsHeap(r, lt)
    ensures multiset(r) == multiset(q) + multiset{x}
  {
    r := q + [x];
    BelowRoot(|q|);
    r := SiftTowardsRoot(r, 0, |q|, lt);
  }

  method PopMin<T(!new)>(q: seq<T>, lt: (T, T) -> bool) returns (x: T, r: seq<T>)
    requires Orders(lt) && IsHeap(q, lt)
    requires q != []
    ensures IsHeap(r, lt)
    ensures x == q[0] && multiset(q) == multiset(r) + multiset{x}
    ensures Least(x, multiset(q), lt)
  {
    RootIsLeast(q, lt);
    x := q[0];
    var last := q[|q| - 1];
    r := q[..|q| - 1];
    assert q == r + [last];
    if r != [] {
      assert r == [x] + r[1..];
      r := r[0 := last];
      assert r == [last] + q[..|q| - 1][1..];
      r := SiftTowardsLeaf(r, 0, lt);
    }
  }

  method Heapify<T(!new)>(q: seq<T>, lt: (T, T) -> bool) returns (r: seq<T>)
    requires Orders(lt)
    ensures IsHeap(r, lt)
    ensures multiset(r) == multiset(q)
  {
    r := q;
    var i := |q| / 2;
    while i > 0
      invariant 0 <= i <= |q| / 2 && |r| == |q|
      invariant multiset(r) == multiset(q)
      invariant HeapFrom(r, i, lt)
    {
      i := i - 1;
      r := SiftTowardsLeaf(r, i, lt);
    }
  }

  lemma {:induction false} BelowRoot(pos: nat)
    ensures Below(0, pos)
  {
    if pos > 0 {
      BelowRoot(Parent(pos));
    }
  }

  /** The first element of a heap is a least one. */
  lemma RootIsLeast<T(!new)>(q: seq<T>, lt: (T, T) -> bool)
    requires Orders(lt) && IsHeap(q, lt) && q != []
    ensures Least(q[0], multiset(q), lt)
  {
    forall i | 0 <= i < |q| ensures !lt(q[i], q[0]) {
      RootNotAbove(q, i, lt);
    }
  }

  lemma {:induction false} RootNotAbove<T(!new)>(q: seq<T>, i: nat, lt: (T, T) -> bool)
    requires Orders(lt) && IsHeap(q, lt) && i < |q|
    ensures !lt(q[i], q[0])
  {
    if i > 0 {
      RootNotAbove(q, Parent(i), lt);
    }
  }
}
