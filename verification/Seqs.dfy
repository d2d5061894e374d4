/** Duplicate-free sequences, which stand for the C++ deques and vectors of page and block ids. */
module Seqs {

  ghost predicate NoDup<T(!new)>(s: seq<T>) {
    forall i, j :: 0 <= i < j < |s| ==> s[i] != s[j]
  }

  function Elems<T(!new)>(s: seq<T>): (r: set<T>)
    ensures forall x :: x in r <==> x in s
  {
    set x | x in s
  }

  lemma NoDupConcat<T(!new)>(a: seq<T>, b: seq<T>)
    requires NoDup(a) && NoDup(b)
    requires forall x :: x in a ==> x !in b
    ensures NoDup(a + b)
  {
    forall i, j | 0 <= i < j < |a + b| ensures (a + b)[i] != (a + b)[j] {
      if i < |a| <= j {
        assert (a + b)[i] in a && (a + b)[j] in b;
      }
    }
  }

  lemma NoDupApart<T(!new)>(a: seq<T>, b: seq<T>)
    ensures NoDup(a + b) <==> NoDup(a) && NoDup(b) && forall x :: x in a ==> x !in b
  {
    var s := a + b;
    if NoDup(s) {
      forall i, j | 0 <= i < j < |a| ensures a[i] != a[j] { assert s[i] != s[j]; }
      forall i, j | 0 <= i < j < |b| ensures b[i] != b[j] { assert s[|a| + i] != s[|a| + j]; }
      forall x | x in a ensures x !in b {
        var i :| 0 <= i < |a| && a[i] == x;
        forall j | 0 <= j < |b| ensures b[j] != x { assert s[i] != s[|a| + j]; }
      }
    } else if NoDup(a) && NoDup(b) && forall x :: x in a ==> x !in b {
      NoDupConcat(a, b);
    }
  }

  /** Appending one element to a duplicate-free sequence keeps it so exactly when the element is new. */
  lemma NoDupSnoc<T(!new)>(a: seq<T>, x: T)
    requires NoDup(a)
    ensures NoDup(a + [x]) <==> x !in a
  {
    if x in a {
      var i :| 0 <= i < |a| && a[i] == x;
      assert (a + [x])[i] == (a + [x])[|a|];
    }
  }

  lemma NoDupSplit<T(!new)>(s: seq<T>, k: nat)
    requires NoDup(s) && k <= |s|
    ensures NoDup(s[..k]) && NoDup(s[k..])
    ensures forall x :: x in s[..k] ==> x !in s[k..]
    ensures forall x :: x in s <==> x in s[..k] || x in s[k..]
  {
    assert s == s[..k] + s[k..];
  }

  lemma NoDupCard<T(!new)>(s: seq<T>)
    requires NoDup(s)
    ensures |Elems(s)| == |s|
  {
    if s != [] {
      var front := s[..|s| - 1];
      NoDupCard(front);
      assert s == front + [s[|s| - 1]];
      assert s[|s| - 1] !in front;
      assert Elems(s) == Elems(front) + {s[|s| - 1]};
    }
  }

  /** The ids lo, lo+1, ..., hi-1. */
  function Interval(lo: int, hi: int): (s: seq<int>)
    ensures |s| == if hi <= lo then 0 else hi - lo
    ensures forall i :: 0 <= i < |s| ==> s[i] == lo + i
    decreases hi - lo
  {
    if hi <= lo then [] else Interval(lo, hi - 1) + [hi - 1]
  }

  lemma IntervalMembers(lo: int, hi: int)
    ensures NoDup(Interval(lo, hi))
    ensures forall x :: x in Interval(lo, hi) <==> lo <= x < hi
  {
    forall x | lo <= x < hi ensures x in Interval(lo, hi) {
      assert Interval(lo, hi)[x - lo] == x;
    }
  }

  lemma SubsetCard<T>(a: set<T>, b: set<T>)
    requires a <= b
    ensures |a| <= |b|
  {
    assert |b| == |a| + |b - a| by { assert b == a + (b - a); }
  }

  /** Pigeonhole: a duplicate-free sequence of ids from [lo, hi) that is as long as the interval names every id. */
  lemma FillsInterval(s: seq<int>, lo: int, hi: int)
    requires NoDup(s) && lo <= hi
    requires forall x :: x in s ==> lo <= x < hi
    ensures |s| <= hi - lo
    ensures |s| == hi - lo ==> forall x :: lo <= x < hi ==> x in s
  {
    var all := Elems(Interval(lo, hi));
    IntervalMembers(lo, hi);
    NoDupCard(Interval(lo, hi));
    NoDupCard(s);
    assert Elems(s) <= all;
    SubsetCard(Elems(s), all);
    if |s| == hi - lo {
      assert |all - Elems(s)| == 0;
      assert all == Elems(s);
    }
  }
}
