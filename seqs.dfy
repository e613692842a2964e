/** Sequence helpers the model's list comprehensions and filtering loops are stated with. */
module Seqs {

  /** `f` applied to every element, in order. */
  function Map<T, U>(s: seq<T>, f: T -> U): (r: seq<U>)
    ensures |r| == |s| && forall i :: 0 <= i < |s| ==> r[i] == f(s[i])
  {
    if s == [] then [] else [f(s[0])] + Map(s[1..], f)
  }

  lemma MapAppend<T, U>(a: seq<T>, b: seq<T>, f: T -> U)
    ensures Map(a + b, f) == Map(a, f) + Map(b, f)
  {
  }

  lemma MapSnoc<T, U>(s: seq<T>, i: nat, f: T -> U)
    requires i < |s|
    ensures Map(s[..i + 1], f) == Map(s[..i], f) + [f(s[i])]
  {
    assert s[..i + 1] == s[..i] + [s[i]];
    MapAppend(s[..i], [s[i]], f);
  }

  /** Mapping two rearrangements of the same elements gives rearrangements. */
  lemma {:induction false} MapPermutation<T, U>(s: seq<T>, t: seq<T>, f: T -> U)
    requires multiset(s) == multiset(t)
    ensures multiset(Map(s, f)) == multiset(Map(t, f))
    decreases |s|
  {
    if s == [] {
      assert t == [];
    } else {
      var x := s[0];
      assert x in multiset(t);
      var j :| 0 <= j < |t| && t[j] == x;
      var rest := t[..j] + t[j + 1..];
      assert t == t[..j] + [x] + t[j + 1..];
      assert s == [x] + s[1..];
      assert multiset(s[1..]) == multiset(s) - multiset{x};
      assert multiset(rest) == multiset(t) - multiset{x};
      MapPermutation(s[1..], rest, f);
      MapAppend(t[..j] + [x], t[j + 1..], f);
      MapAppend(t[..j], [x], f);
      MapAppend(t[..j], t[j + 1..], f);
      MapAppend([x], s[1..], f);
    }
  }

  /** The concatenation of `f` over the elements, in order: a loop that appends zero or more items per element. */
  function FlatMap<T, U>(s: seq<T>, f: T -> seq<U>): seq<U> {
    if s == [] then [] else FlatMap(s[..|s| - 1], f) + f(s[|s| - 1])
  }

  lemma FlatMapSnoc<T, U>(s: seq<T>, i: nat, f: T -> seq<U>)
    requires i < |s|
    ensures FlatMap(s[..i + 1], f) == FlatMap(s[..i], f) + f(s[i])
  {
    assert s[..i + 1][..i] == s[..i];
  }

  lemma {:induction false} FlatMapAppend<T, U>(a: seq<T>, b: seq<T>, f: T -> seq<U>)
    ensures FlatMap(a + b, f) == FlatMap(a, f) + FlatMap(b, f)
    decreases |b|
  {
    if b == [] {
      assert a + b == a;
    } else {
      assert (a + b)[..|a + b| - 1] == a + b[..|b| - 1];
      FlatMapAppend(a, b[..|b| - 1], f);
    }
  }

  /** When every element gives at most one item, the result is no longer than the input. */
  lemma {:induction false} FlatMapNoLonger<T, U>(s: seq<T>, f: T -> seq<U>)
    requires forall x :: |f(x)| <= 1
    ensures |FlatMap(s, f)| <= |s|
    decreases |s|
  {
    if s != [] {
      FlatMapNoLonger(s[..|s| - 1], f);
    }
  }

  /** ... and strictly shorter when some element gives none. */
  lemma {:induction false} FlatMapDrops<T, U>(s: seq<T>, f: T -> seq<U>, i: nat)
    requires forall x :: |f(x)| <= 1
    requires i < |s| && f(s[i]) == []
    ensures |FlatMap(s, f)| < |s|
    decreases |s|
  {
    var init := s[..|s| - 1];
    if i == |s| - 1 {
      FlatMapNoLonger(init, f);
    } else {
      assert init[i] == s[i];
      FlatMapDrops(init, f, i);
    }
  }

  /** Some element satisfies `p`. */
  predicate Any<T>(s: seq<T>, p: T -> bool) {
    exists i :: 0 <= i < |s| && p(s[i])
  }

  lemma AnySnoc<T>(s: seq<T>, i: nat, p: T -> bool)
    requires i < |s|
    ensures Any(s[..i + 1], p) <==> Any(s[..i], p) || p(s[i])
  {
    assert s[..i + 1][i] == s[i];
    assert forall j :: 0 <= j < i ==> s[..i + 1][j] == s[..i][j];
  }

  lemma Assoc<T>(a: seq<T>, b: seq<T>, c: seq<T>)
    ensures a + b + c == a + (b + c)
  {
  }

  lemma AppendAssoc<T>(a: seq<T>, b: seq<T>, c: seq<T>, d: seq<T>)
    ensures a + (b + c) + d == a + b + c + d
  {
  }

  /** A longer prefix is the shorter one followed by the slice between them. */
  lemma PrefixStep<T>(s: seq<T>, i: nat, j: nat)
    requires i <= j <= |s|
    ensures s[..j] == s[..i] + s[i..j]
  {
  }

  /** A sequence is its prefix followed by its suffix. */
  lemma PrefixRest<T>(s: seq<T>, i: nat)
    requires i <= |s|
    ensures s == s[..i] + s[i..]
  {
  }
}
