/**
 * Python's `list.sort(key=...)` and `sorted(...)`: a stable sort. It is
 * modelled as insertion sort under an ordering `le`; the lemmas show that the
 * result is ordered, is a permutation of the input, and keeps elements that
 * compare equal in their input order (stability). Sorting with `le` meaning
 * "key is greater or equal" gives `reverse=True`, which Python also keeps
 * stable.
 */
module Sorting {

  /** `le` is total and transitive, as an order on sort keys is. */
  ghost predicate TotalPreorder<T(!new)>(le: (T, T) -> bool) {
    && (forall a, b :: le(a, b) || le(b, a))
    && (forall a, b, c {:trigger le(a, b), le(b, c), le(a, c)} :: le(a, b) && le(b, c) ==> le(a, c))
  }

  predicate Sorted<T>(s: seq<T>, le: (T, T) -> bool) {
    forall i, j :: 0 <= i < j < |s| ==> le(s[i], s[j])
  }

  /** `x` and `k` have equal sort keys. */
  predicate Tied<T>(le: (T, T) -> bool, x: T, k: T) {
    le(x, k) && le(k, x)
  }

  /** The elements of `s` whose sort key equals that of `k`, in order. */
  function Peers<T>(s: seq<T>, le: (T, T) -> bool, k: T): seq<T> {
    if s == [] then []
    else (if Tied(le, s[0], k) then [s[0]] else []) + Peers(s[1..], le, k)
  }

  /** Puts `x` after every element of `t` that is not greater than it. */
  function Insert<T>(t: seq<T>, x: T, le: (T, T) -> bool): (r: seq<T>)
    ensures multiset(r) == multiset(t) + multiset{x}
  {
    if t == [] then [x]
    else if le(t[0], x) then
      assert t == [t[0]] + t[1..];
      [t[0]] + Insert(t[1..], x, le)
    else [x] + t
  }

  /** Stable insertion sort; it only rearranges its input. */
  function Sort<T>(s: seq<T>, le: (T, T) -> bool): (r: seq<T>)
    ensures multiset(r) == multiset(s)
  {
    if s == [] then []
    else
      assert s == s[..|s| - 1] + [s[|s| - 1]];
      Insert(Sort(s[..|s| - 1], le), s[|s| - 1], le)
  }

  lemma {:induction false} InsertSorted<T(!new)>(t: seq<T>, x: T, le: (T, T) -> bool)
    requires TotalPreorder(le) && Sorted(t, le)
    ensures Sorted(Insert(t, x, le), le)
  {
    if t != [] && le(t[0], x) {
      var rest := Insert(t[1..], x, le);
      InsertSorted(t[1..], x, le);
      forall j | 0 <= j < |rest| ensures le(t[0], rest[j]) {
        assert rest[j] in multiset(rest);
        assert rest[j] == x || rest[j] in multiset(t[1..]);
      }
    }
  }

  /** Sorting yields an ordered sequence. */
  lemma {:induction false} SortSorted<T(!new)>(s: seq<T>, le: (T, T) -> bool)
    requires TotalPreorder(le)
    ensures Sorted(Sort(s, le), le)
  {
    if s != [] {
      SortSorted(s[..|s| - 1], le);
      InsertSorted(Sort(s[..|s| - 1], le), s[|s| - 1], le);
    }
  }

  lemma {:induction false} PeersAppend<T>(a: seq<T>, b: seq<T>, le: (T, T) -> bool, k: T)
    ensures Peers(a + b, le, k) == Peers(a, le, k) + Peers(b, le, k)
  {
    if a == [] {
      assert a + b == b;
    } else {
      var h: seq<T> := if Tied(le, a[0], k) then [a[0]] else [];
      assert a == [a[0]] + a[1..];
      assert a + b == [a[0]] + (a[1..] + b);
      PeersCons(a[0], a[1..], le, k);
      PeersCons(a[0], a[1..] + b, le, k);
      PeersAppend(a[1..], b, le, k);
      Regroup(h, Peers(a[1..], le, k), Peers(b, le, k));
    }
  }

  lemma {:induction false} PeersNone<T>(s: seq<T>, le: (T, T) -> bool, k: T)
    requires forall i :: 0 <= i < |s| ==> !Tied(le, s[i], k)
    ensures Peers(s, le, k) == []
  {
    if s != [] {
      PeersNone(s[1..], le, k);
    }
  }

  lemma Transitive<T(!new)>(le: (T, T) -> bool, a: T, b: T, c: T)
    requires TotalPreorder(le)
    ensures le(a, b) && le(b, c) ==> le(a, c)
  {
  }

  /** When `x` goes in front of a sorted `t`, nothing in `t` ties with it. */
  lemma FrontInsertHasNoPeers<T(!new)>(t: seq<T>, x: T, le: (T, T) -> bool, k: T)
    requires TotalPreorder(le) && Sorted(t, le)
    requires t != [] && !le(t[0], x) && Tied(le, x, k)
    ensures Peers(t, le, k) == []
  {
    Transitive(le, t[0], k, x);
    forall i | 0 <= i < |t| ensures !Tied(le, t[i], k) {
      Transitive(le, t[0], t[i], k);
    }
    PeersNone(t, le, k);
  }

  lemma PeersCons<T>(y: T, s: seq<T>, le: (T, T) -> bool, k: T)
    ensures Peers([y] + s, le, k) == (if Tied(le, y, k) then [y] else []) + Peers(s, le, k)
  {
    assert ([y] + s)[1..] == s;
  }

  /** Inserting `x` puts it after every element of `t` that ties with it. */
  lemma {:induction false} InsertPeers<T(!new)>(t: seq<T>, x: T, le: (T, T) -> bool, k: T)
    requires TotalPreorder(le) && Sorted(t, le)
    ensures Peers(Insert(t, x, le), le, k) == Peers(t, le, k) + (if Tied(le, x, k) then [x] else [])
  {
    if t == [] {
      PeersCons(x, [], le, k);
    } else if le(t[0], x) {
      var h: seq<T> := if Tied(le, t[0], k) then [t[0]] else [];
      var e: seq<T> := if Tied(le, x, k) then [x] else [];
      assert Insert(t, x, le) == [t[0]] + Insert(t[1..], x, le);
      assert Sorted(t[1..], le) by {
        forall i, j | 0 <= i < j < |t[1..]| ensures le(t[1..][i], t[1..][j]) {
          assert t[1..][i] == t[i + 1] && t[1..][j] == t[j + 1];
        }
      }
      InsertPeers(t[1..], x, le, k);
      PeersCons(t[0], Insert(t[1..], x, le), le, k);
      PeersCons(t[0], t[1..], le, k);
      SplitFirst(t);
      Regroup(h, Peers(t[1..], le, k), e);
    } else {
      PeersCons(x, t, le, k);
      if Tied(le, x, k) {
        FrontInsertHasNoPeers(t, x, le, k);
      }
    }
  }

  lemma Regroup<T>(a: seq<T>, b: seq<T>, c: seq<T>)
    ensures a + (b + c) == a + b + c
  {
  }

  lemma SplitLast<T>(s: seq<T>)
    requires s != []
    ensures s == s[..|s| - 1] + [s[|s| - 1]]
  {
  }

  lemma SplitFirst<T>(s: seq<T>)
    requires s != []
    ensures s == [s[0]] + s[1..]
  {
  }

  /** Stability: the elements of any one sort key come out in their input order. */
  lemma {:induction false} SortStable<T(!new)>(s: seq<T>, le: (T, T) -> bool, k: T)
    requires TotalPreorder(le)
    ensures Peers(Sort(s, le), le, k) == Peers(s, le, k)
  {
    if s != [] {
      var init, last := s[..|s| - 1], s[|s| - 1];
      assert Sort(s, le) == Insert(Sort(init, le), last, le);
      SortStable(init, le, k);
      SortSorted(init, le);
      InsertPeers(Sort(init, le), last, le, k);
      SplitLast(s);
      PeersAppend(init, [last], le, k);
      PeersCons(last, [], le, k);
      assert [last] + [] == [last];
    }
  }
}
