// Facts about lists that several components share: slicing a list into
// consecutive groups, and lists without repetition.

module Sequences {

  ghost predicate Distinct<T>(s: seq<T>) {
    forall i, j :: 0 <= i < j < |s| ==> s[i] != s[j]
  }

  function Flatten<T>(parts: seq<seq<T>>): (s: seq<T>)
  {
    if parts == [] then [] else Flatten(parts[..|parts| - 1]) + parts[|parts| - 1]
  }

  lemma FlattenAppend<T>(parts: seq<seq<T>>, part: seq<T>)
    ensures Flatten(parts + [part]) == Flatten(parts) + part
  {
    assert (parts + [part])[..|parts|] == parts;
  }

  /** The slices s[0:size], s[size:2*size], ... */
  method Chunks<T>(s: seq<T>, size: nat) returns (parts: seq<seq<T>>)
    requires size > 0
    ensures Flatten(parts) == s
    ensures forall p :: p in parts ==> 0 < |p| <= size
    ensures forall k :: 0 <= k < |parts| - 1 ==> |parts[k]| == size
  {
    parts := [];
    var i := 0;
    while i < |s|
      invariant 0 <= i <= |s|
      invariant Flatten(parts) == s[..i]
      invariant forall p :: p in parts ==> 0 < |p| <= size
      invariant i < |s| ==> forall p :: p in parts ==> |p| == size
      invariant forall k :: 0 <= k < |parts| - 1 ==> |parts[k]| == size
      decreases |s| - i
    {
      var stop := if i + size <= |s| then i + size else |s|;
      FlattenAppend(parts, s[i..stop]);
      assert s[..i] + s[i..stop] == s[..stop];
      parts := parts + [s[i..stop]];
      i := stop;
    }
    assert s[..i] == s;
  }

  lemma {:induction false} FlattenMembers<T>(parts: seq<seq<T>>)
    ensures forall x :: x in Flatten(parts) <==> exists p :: p in parts && x in p
  {
    if parts != [] {
      var init, last := parts[..|parts| - 1], parts[|parts| - 1];
      FlattenMembers(init);
      assert parts == init + [last];
    }
  }

  /** The indices of a list of n elements. */
  function Indices(n: nat): (s: set<nat>)
    ensures forall i: nat :: i in s <==> i < n
    ensures |s| == n
  {
    if n == 0 then {} else Indices(n - 1) + {n - 1}
  }

  lemma TakeStep<T>(start: seq<T>, s: seq<T>, k: nat)
    requires k < |s|
    ensures start + s[..k] + [s[k]] == start + s[..k + 1]
  {
  }

  lemma ConcatEmpty<T>(s: seq<T>)
    ensures [] + s == s && s + [] == s
  {
  }

  lemma InConcat<T>(a: seq<T>, b: seq<T>, x: T)
    ensures x in a + b <==> x in a || x in b
  {
  }

  lemma ConcatAssociative<T>(a: seq<T>, b: seq<T>, c: seq<T>)
    ensures (a + b) + c == a + (b + c)
  {
  }

  /** A nonempty part of a set of tasks, in some order. */
  predicate SomeOf(tasks: seq<nat>, pending: set<nat>) {
    && tasks != [] && (forall k :: 0 <= k < |tasks| ==> tasks[k] in pending)
    && forall j, k :: 0 <= j < k < |tasks| ==> tasks[j] != tasks[k]
  }

  lemma SomeOfMeaning(tasks: seq<nat>, pending: set<nat>)
    requires SomeOf(tasks, pending)
    ensures tasks != [] && Distinct(tasks) && forall k :: 0 <= k < |tasks| ==> tasks[k] in pending
  {
  }

  function Members<T(!new)>(s: seq<T>): (m: set<T>)
    ensures forall x :: x in m <==> x in s
  {
    set x | x in s
  }

  /** A loop over a list without repetition has met exactly the elements `done`. */
  ghost predicate Visited<T>(s: seq<T>, k: nat, done: set<T>) {
    && (forall j :: 0 <= j < |s| ==> (s[j] in done <==> j < k))
    && forall x :: x in done ==> x in s
  }

  lemma VisitNext<T>(s: seq<T>, k: nat, done: set<T>)
    requires Distinct(s) && k < |s| && Visited(s, k, done)
    ensures s[k] !in done && s[k] in s && Visited(s, k + 1, done + {s[k]})
  {
  }

  lemma VisitedAll<T(!new)>(s: seq<T>, done: set<T>)
    requires Visited(s, |s|, done)
    ensures done == Members(s)
  {
  }

  lemma {:induction false} SubsetSize<T>(a: set<T>, b: set<T>)
    requires a <= b
    ensures |a| <= |b|
    ensures |a| == |b| ==> a == b
  {
    if a != {} {
      var x :| x in a;
      SubsetSize(a - {x}, b - {x});
      assert a == (a - {x}) + {x} && b == (b - {x}) + {x};
    } else if |b| == 0 {
      assert b == {};
    }
  }

  /** A permutation of a list without repetition has none either. */
  lemma PermutationDistinct<T>(s: seq<T>, r: seq<T>)
    requires Distinct(s) && multiset(r) == multiset(s)
    ensures Distinct(r)
  {
    forall i, j | 0 <= i < j < |r|
      ensures r[i] != r[j]
    {
      if r[i] == r[j] {
        TwiceIn(r, i, j);
        OnceIn(s, r[i]);
      }
    }
  }

  lemma TwiceIn<T>(s: seq<T>, i: nat, j: nat)
    requires i < j < |s| && s[i] == s[j]
    ensures multiset(s)[s[i]] >= 2
  {
    assert s == s[..i] + [s[i]] + s[i + 1..j] + [s[j]] + s[j + 1..];
  }

  lemma {:induction false} OnceIn<T>(s: seq<T>, x: T)
    requires Distinct(s)
    ensures multiset(s)[x] <= 1
  {
    if s != [] {
      var init, last := s[..|s| - 1], s[|s| - 1];
      assert s == init + [last];
      OnceIn(init, x);
      if x == last {
        assert x !in init;
      }
    }
  }
}
