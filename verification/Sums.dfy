/** Sums of a real weight over a list, and the laws the scoring proofs use. */
module Sums {

  ghost function SumBy<T(!new)>(s: seq<T>, g: T -> real): real {
    if s == [] then 0.0 else SumBy(s[..|s| - 1], g) + g(s[|s| - 1])
  }

  lemma {:induction false} SumByAppend<T(!new)>(s: seq<T>, t: seq<T>, g: T -> real)
    ensures SumBy(s + t, g) == SumBy(s, g) + SumBy(t, g)
  {
    if t == [] {
      assert s + t == s;
    } else {
      assert (s + t)[..|s + t| - 1] == s + t[..|t| - 1];
      SumByAppend(s, t[..|t| - 1], g);
    }
  }

  lemma {:induction false} SumByRemove<T(!new)>(s: seq<T>, j: nat, g: T -> real)
    requires j < |s|
    ensures SumBy(s, g) == SumBy(s[..j] + s[j + 1..], g) + g(s[j])
  {
    assert s == s[..j + 1] + s[j + 1..];
    assert s[..j + 1][..j] == s[..j];
    SumByAppend(s[..j + 1], s[j + 1..], g);
    SumByAppend(s[..j], s[j + 1..], g);
  }

  lemma {:induction false} SumByPermutation<T(!new)>(s: seq<T>, t: seq<T>, g: T -> real)
    requires multiset(s) == multiset(t)
    ensures SumBy(s, g) == SumBy(t, g)
    decreases |s|
  {
    if s == [] {
      assert |multiset(t)| == 0;
    } else {
      var x := s[|s| - 1];
      assert x in multiset(t);
      var j :| 0 <= j < |t| && t[j] == x;
      assert s == s[..|s| - 1] + [x];
      assert t == t[..j] + [x] + t[j + 1..];
      assert multiset(s[..|s| - 1]) == multiset(s) - multiset{x};
      assert multiset(t[..j] + t[j + 1..]) == multiset(t) - multiset{x};
      SumByRemove(t, j, g);
      SumByPermutation(s[..|s| - 1], t[..j] + t[j + 1..], g);
    }
  }

  lemma {:induction false} SumByLe<T(!new)>(s: seq<T>, g: T -> real, h: T -> real)
    requires forall x :: x in s ==> g(x) <= h(x)
    ensures SumBy(s, g) <= SumBy(s, h)
  {
    if s != [] {
      SumByLe(s[..|s| - 1], g, h);
    }
  }

  lemma {:induction false} SumByZero<T(!new)>(s: seq<T>, g: T -> real)
    requires forall x :: x in s ==> g(x) == 0.0
    ensures SumBy(s, g) == 0.0
  {
    if s != [] {
      SumByZero(s[..|s| - 1], g);
    }
  }

  lemma {:induction false} SumByNonNegative<T(!new)>(s: seq<T>, g: T -> real)
    requires forall x :: x in s ==> 0.0 <= g(x)
    ensures 0.0 <= SumBy(s, g)
  {
    if s != [] {
      SumByNonNegative(s[..|s| - 1], g);
    }
  }

  ghost function Map<T(!new), U>(s: seq<T>, g: T -> U): (r: seq<U>)
    ensures |r| == |s| && forall i :: 0 <= i < |s| ==> r[i] == g(s[i])
  {
    if s == [] then [] else Map(s[..|s| - 1], g) + [g(s[|s| - 1])]
  }

  lemma {:induction false} SumByMap<T(!new), U(!new)>(
    s: seq<T>, f: T -> U, g: U -> real, h: T -> real)
    requires forall x :: x in s ==> h(x) == g(f(x))
    ensures SumBy(Map(s, f), g) == SumBy(s, h)
  {
    if s != [] {
      var init := s[..|s| - 1];
      SumByMap(init, f, g, h);
      assert Map(s, f)[..|s| - 1] == Map(init, f);
    }
  }
}
