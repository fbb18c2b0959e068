// Stable sorting of lists.

module Sorting {
  import Sequences
  import Strings

  /** Any two elements are in order one way or the other, and order carries over. */
  ghost predicate TotalOrder<T(!new)>(atMost: (T, T) -> bool) {
    && (forall a, b :: atMost(a, b) || atMost(b, a))
    && forall a, b, c :: atMost(a, b) && atMost(b, c) ==> atMost(a, c)
  }

  ghost predicate Ordered<T>(atMost: (T, T) -> bool, s: seq<T>) {
    forall i, j :: 0 <= i < j < |s| ==> atMost(s[i], s[j])
  }

  /** Inserts before the first greater element. */
  function Insert<T>(atMost: (T, T) -> bool, x: T, s: seq<T>): (r: seq<T>)
    ensures multiset(r) == multiset{x} + multiset(s)
  {
    if s == [] then [x]
    else if !atMost(s[0], x) then [x] + s
    else
      assert s == [s[0]] + s[1..];
      [s[0]] + Insert(atMost, x, s[1..])
  }

  lemma {:induction false} InsertOrdered<T(!new)>(atMost: (T, T) -> bool, x: T, s: seq<T>)
    requires TotalOrder(atMost) && Ordered(atMost, s)
    ensures Ordered(atMost, Insert(atMost, x, s))
  {
    if s != [] && !atMost(s[0], x) {
      assert atMost(x, s[0]);
    } else if s != [] {
      var rest := s[1..];
      InsertOrdered(atMost, x, rest);
      var r := Insert(atMost, x, rest);
      forall j | 0 <= j < |r| ensures atMost(s[0], r[j]) {
        assert r[j] in multiset(r);
        if r[j] != x {
          assert r[j] in multiset(rest);
        }
      }
    }
  }

  function SortBy<T>(atMost: (T, T) -> bool, s: seq<T>): (r: seq<T>)
    ensures multiset(r) == multiset(s) && |r| == |s|
  {
    if s == [] then []
    else
      assert s == s[..|s| - 1] + [s[|s| - 1]];
      var r := Insert(atMost, s[|s| - 1], SortBy(atMost, s[..|s| - 1]));
      assert |r| == |multiset(r)|;
      r
  }

  lemma {:induction false} SortedBy<T(!new)>(atMost: (T, T) -> bool, s: seq<T>)
    requires TotalOrder(atMost)
    ensures Ordered(atMost, SortBy(atMost, s))
  {
    if s != [] {
      SortedBy(atMost, s[..|s| - 1]);
      InsertOrdered(atMost, s[|s| - 1], SortBy(atMost, s[..|s| - 1]));
    }
  }

  /** The order of a text key. */
  function ByText<T>(key: T -> string): (T, T) -> bool {
    (a: T, b: T) => key(a) == key(b) || Strings.Below(key(a), key(b))
  }

  lemma ByTextTotal<T(!new)>(key: T -> string)
    ensures TotalOrder(ByText(key))
  {
    forall a, b ensures ByText(key)(a, b) || ByText(key)(b, a) {
      Strings.Total(key(a), key(b));
    }
    forall a, b, c | ByText(key)(a, b) && ByText(key)(b, c) ensures ByText(key)(a, c) {
      if key(a) != key(b) && key(b) != key(c) {
        Strings.Transitive(key(a), key(b), key(c));
      }
    }
  }

  /** Elements with different keys stay so. */
  ghost predicate DistinctKeys<T>(key: T -> string, s: seq<T>) {
    forall i, j :: 0 <= i < j < |s| ==> key(s[i]) != key(s[j])
  }

  lemma PermutationKeepsDistinct<T>(key: T -> string, s: seq<T>, r: seq<T>)
    requires DistinctKeys(key, s) && multiset(r) == multiset(s)
    ensures DistinctKeys(key, r)
  {
    Sequences.PermutationDistinct(s, r);
    forall i, j | 0 <= i < j < |r|
      ensures key(r[i]) != key(r[j])
    {
      assert r[i] in multiset(s) && r[j] in multiset(s);
    }
  }
}
