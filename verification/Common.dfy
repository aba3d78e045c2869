/** Small notions shared by the other modules. */
module Common {

  datatype Option<+T> = None | Some(value: T)

  function Pow(b: int, n: nat): (p: int)
    ensures b >= 0 ==> p >= 0
  {
    if n == 0 then 1 else b * Pow(b, n - 1)
  }

  lemma {:induction false} PowMonotone(b: nat, m: nat, n: nat)
    requires b >= 1 && m <= n
    ensures 1 <= Pow(b, m) <= Pow(b, n)
  {
    if n > m {
      PowMonotone(b, m, n - 1);
      assert b * Pow(b, n - 1) >= Pow(b, n - 1);
    } else if n > 0 {
      PowMonotone(b, n - 1, n - 1);
      assert b * Pow(b, n - 1) >= 1;
    }
  }

  /** The laws of powers. */
  lemma {:induction false} PowAdds(b: int, m: nat, n: nat)
    ensures Pow(b, 0) == 1 && Pow(b, 1) == b
    ensures Pow(b, m + n) == Pow(b, m) * Pow(b, n)
  {
    assert Pow(b, 1) == b * Pow(b, 0);
    if m > 0 {
      PowAdds(b, m - 1, n);
      assert b * (Pow(b, m - 1) * Pow(b, n)) == (b * Pow(b, m - 1)) * Pow(b, n);
    }
  }

  function Max(a: int, b: int): int {
    if a >= b then a else b
  }

  function Min(a: int, b: int): int {
    if a <= b then a else b
  }

  lemma MaxMin(a: int, b: int)
    ensures a <= Max(a, b) && b <= Max(a, b) && (Max(a, b) == a || Max(a, b) == b)
    ensures Min(a, b) <= a && Min(a, b) <= b && (Min(a, b) == a || Min(a, b) == b)
  {
  }

  function Sum(s: seq<nat>): nat {
    if s == [] then 0 else Sum(s[..|s| - 1]) + s[|s| - 1]
  }

  lemma SumNext(s: seq<nat>, x: nat)
    ensures Sum([]) == 0 && Sum(s + [x]) == Sum(s) + x
  {
    assert (s + [x])[..|s|] == s;
  }

  /** No element occurs twice. */
  ghost predicate Distinct<T(!new)>(s: seq<T>) {
    forall i, j :: 0 <= i < j < |s| ==> s[i] != s[j]
  }

  /** The list with the element at one position deleted. */
  function Without<T>(s: seq<T>, i: nat): (r: seq<T>)
    requires i < |s|
    ensures multiset(s) == multiset(r) + multiset{s[i]}
  {
    assert s == s[..i] + [s[i]] + s[i + 1..];
    s[..i] + s[i + 1..]
  }
}
