/** Python's `sorted` on a set: code-point order on strings, any total order on keys. */
module Ordering {

  /** `le` is a total order. */
  ghost predicate Total<T(!new)>(le: (T, T) -> bool) {
    && (forall x, y :: le(x, y) || le(y, x))
    && (forall x, y :: le(x, y) && le(y, x) ==> x == y)
    && (forall x, y, z :: le(x, y) && le(y, z) ==> le(x, z))
  }

  ghost predicate IsLeast<T(!new)>(s: set<T>, le: (T, T) -> bool, m: T) {
    m in s && forall x :: x in s ==> le(m, x)
  }

  lemma {:induction false} LeastExists<T(!new)>(s: set<T>, le: (T, T) -> bool)
    requires Total(le) && s != {}
    ensures exists m :: IsLeast(s, le, m)
    decreases |s|
  {
    var a :| a in s;
    if s == {a} {
      assert IsLeast(s, le, a);
    } else {
      LeastExists(s - {a}, le);
      var m :| IsLeast(s - {a}, le, m);
      var least := if le(a, m) then a else m;
      forall x | x in s ensures le(least, x) {
        assert x == a || x in s - {a};
      }
      assert IsLeast(s, le, least);
    }
  }

  /** In order and without repeats. */
  ghost predicate Ascending<T(!new)>(t: seq<T>, le: (T, T) -> bool) {
    forall i, j :: 0 <= i < j < |t| ==> le(t[i], t[j]) && t[i] != t[j]
  }

  ghost predicate Lists<T(!new)>(t: seq<T>, s: set<T>) {
    forall x :: x in t <==> x in s
  }

  /** The least member. */
  function Least<T(==,!new)>(s: set<T>, le: (T, T) -> bool): (m: T)
    requires Total(le) && s != {}
    ensures IsLeast(s, le, m)
  {
    LeastExists(s, le);
    var m :| m in s && forall x :: x in s ==> le(m, x);
    m
  }

  lemma LeastFirst<T(!new)>(s: set<T>, le: (T, T) -> bool, m: T, rest: seq<T>)
    requires IsLeast(s, le, m) && Lists(rest, s - {m}) && Ascending(rest, le)
    ensures Lists([m] + rest, s) && Ascending([m] + rest, le)
  {
    var out := [m] + rest;
    forall j | 0 < j < |out| ensures le(m, out[j]) && m != out[j] {
      assert out[j] in rest;
    }
    forall x ensures x in out <==> x in s {
      assert x in out <==> x == m || x in rest;
    }
  }

  /** The members of `s`, least first. */
  function Sorted<T(==,!new)>(s: set<T>, le: (T, T) -> bool): (out: seq<T>)
    requires Total(le)
    ensures Lists(out, s) && |out| == |s| && Ascending(out, le)
    decreases |s|
  {
    if s == {} then []
    else
      var m := Least(s, le);
      LeastFirst(s, le, m, Sorted(s - {m}, le));
      [m] + Sorted(s - {m}, le)
  }

  predicate StringLe(a: string, b: string) {
    |a| == 0 || (|b| > 0 && (a[0] < b[0] || (a[0] == b[0] && StringLe(a[1..], b[1..]))))
  }

  lemma {:induction false} StringLeTotal(a: string, b: string)
    ensures StringLe(a, b) || StringLe(b, a)
    ensures StringLe(a, b) && StringLe(b, a) ==> a == b
  {
    if |a| > 0 && |b| > 0 {
      StringLeTotal(a[1..], b[1..]);
      if a[0] == b[0] && a[1..] == b[1..] {
        assert a == [a[0]] + a[1..] == b;
      }
    }
  }

  lemma {:induction false} StringLeTransitive(a: string, b: string, c: string)
    requires StringLe(a, b) && StringLe(b, c)
    ensures StringLe(a, c)
  {
    if |a| > 0 && a[0] == b[0] && b[0] == c[0] {
      StringLeTransitive(a[1..], b[1..], c[1..]);
    }
  }

  lemma StringsTotal()
    ensures Total(StringLe)
  {
    forall x, y
      ensures StringLe(x, y) || StringLe(y, x)
      ensures StringLe(x, y) && StringLe(y, x) ==> x == y
    {
      StringLeTotal(x, y);
    }
    forall x, y, z | StringLe(x, y) && StringLe(y, z)
      ensures StringLe(x, z)
    {
      StringLeTransitive(x, y, z);
    }
  }

  function SortedStrings(s: set<string>): (out: seq<string>)
    ensures Lists(out, s) && |out| == |s| && Ascending(out, StringLe)
  {
    StringsTotal();
    Sorted(s, StringLe)
  }
}
