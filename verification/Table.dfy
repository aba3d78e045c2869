/** A list that holds the entries of a table: each entry once, in any order. */
module Table {
  import opened BinaryHeap

  ghost predicate Holds<T(!new)>(q: seq<T>, m: map<nat, T>, key: T -> nat) {
    forall x: T :: multiset(q)[x] == if key(x) in m && m[key(x)] == x then 1 else 0
  }

  /** Every entry is filed under its own key. */
  ghost predicate Keyed<T>(m: map<nat, T>, key: T -> nat) {
    forall k :: k in m ==> key(m[k]) == k
  }

  /** An element that is least in the list is least in the table. */
  lemma HeadIsLeast<T(!new)>(q: seq<T>, m: map<nat, T>, key: T -> nat, head: T, lt: (T, T) -> bool)
    requires Holds(q, m, key) && Keyed(m, key) && head in q && Least(head, multiset(q), lt)
    ensures key(head) in m && m[key(head)] == head
    ensures forall k :: k in m ==> !lt(m[k], head)
  {
    assert multiset(q)[head] > 0;
    forall k | k in m ensures !lt(m[k], head) {
      assert multiset(q)[m[k]] == 1;
    }
  }

  lemma TakenOut<T(!new)>(q: seq<T>, r: seq<T>, m: map<nat, T>, key: T -> nat, x: T)
    requires Holds(q, m, key) && multiset(q) == multiset(r) + multiset{x}
    ensures key(x) in m && m[key(x)] == x
    ensures Holds(r, m - {key(x)}, key)
  {
    assert multiset(q)[x] == multiset(r)[x] + 1;
    forall y: T ensures multiset(q)[y] == multiset(r)[y] + (if x == y then 1 else 0) {
    }
  }

  lemma PutIn<T(!new)>(q: seq<T>, r: seq<T>, m: map<nat, T>, key: T -> nat, x: T)
    requires Holds(q, m, key) && multiset(r) == multiset(q) + multiset{x}
    requires key(x) !in m
    ensures Holds(r, m[key(x) := x], key)
  {
  }

  /** Whatever the table holds is in the list. */
  lemma FiledIsListed<T(!new)>(q: seq<T>, m: map<nat, T>, key: T -> nat)
    requires Holds(q, m, key) && Keyed(m, key)
    ensures forall k :: k in m ==> m[k] in q
    ensures forall x :: x in q ==> key(x) in m && m[key(x)] == x
  {
    forall k | k in m ensures m[k] in q {
      assert multiset(q)[m[k]] == 1;
    }
    forall x | x in q ensures key(x) in m && m[key(x)] == x {
      assert multiset(q)[x] > 0;
    }
  }
}
