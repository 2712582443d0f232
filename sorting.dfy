/** Insertion sort by an integer key: the model of every `orderBy` and
    `Array.prototype.sort` call in the services (ascending by `key`; a
    descending order is the ascending order of the negated key). Also the
    order-preserving selection every `where` and `filter` makes. */
module Sorting {

  ghost predicate SortedBy<T>(s: seq<T>, key: T -> int) {
    forall i, j :: 0 <= i < j < |s| ==> key(s[i]) <= key(s[j])
  }

  /** Every element of `s` has a key of at least `low`. */
  ghost predicate AllAtLeast<T>(s: seq<T>, key: T -> int, low: int) {
    forall k :: 0 <= k < |s| ==> low <= key(s[k])
  }

  lemma AtLeastByMultiset<T>(s: seq<T>, t: seq<T>, key: T -> int, low: int)
    requires AllAtLeast(s, key, low)
    requires multiset(t) <= multiset(s)
    ensures AllAtLeast(t, key, low)
  {
    forall k | 0 <= k < |t| ensures low <= key(t[k]) {
      assert t[k] in multiset(t);
      assert t[k] in multiset(s);
      var i :| 0 <= i < |s| && s[i] == t[k];
    }
  }

  /** Inserts `x` in front of the first element whose key is not smaller. */
  function InsertBy<T>(x: T, s: seq<T>, key: T -> int): (r: seq<T>)
    requires SortedBy(s, key)
    ensures |r| == |s| + 1
    ensures multiset(r) == multiset(s) + multiset{x}
    ensures SortedBy(r, key)
  {
    if s == [] || key(x) <= key(s[0]) then
      [x] + s
    else
      var tail := InsertBy(x, s[1..], key);
      InsertBehindHead(x, s, key, tail);
      [s[0]] + tail
  }

  /** The recursive case of `InsertBy`: `x` goes behind the head of `s`, into
      a tail that holds the rest of `s` and `x`, all keyed at least the head. */
  lemma InsertBehindHead<T>(x: T, s: seq<T>, key: T -> int, tail: seq<T>)
    requires SortedBy(s, key) && s != [] && key(s[0]) < key(x)
    requires SortedBy(tail, key) && multiset(tail) == multiset(s[1..]) + multiset{x}
    ensures SortedBy([s[0]] + tail, key)
    ensures multiset([s[0]] + tail) == multiset(s) + multiset{x}
  {
    assert s == [s[0]] + s[1..];
    assert AllAtLeast(s[1..] + [x], key, key(s[0]));
    assert multiset(s[1..] + [x]) == multiset(s[1..]) + multiset{x};
    AtLeastByMultiset(s[1..] + [x], tail, key, key(s[0]));
    var r := [s[0]] + tail;
    forall i, j | 0 <= i < j < |r| ensures key(r[i]) <= key(r[j]) {
      if i > 0 {
        assert r[i] == tail[i - 1] && r[j] == tail[j - 1];
      } else {
        assert r[j] == tail[j - 1];
      }
    }
  }

  function SortBy<T(!new)>(s: seq<T>, key: T -> int): (r: seq<T>)
    ensures |r| == |s|
    ensures multiset(r) == multiset(s)
    ensures forall x :: x in r <==> x in s
    ensures SortedBy(r, key)
  {
    if s == [] then []
    else
      assert s == [s[0]] + s[1..];
      var r := InsertBy(s[0], SortBy(s[1..], key), key);
      assert forall x :: x in r <==> x in multiset(r);
      assert forall x :: x in s <==> x in multiset(s);
      r
  }

  /** No two elements of `s` agree on `f`. */
  ghost predicate DistinctBy<T, U>(s: seq<T>, f: T -> U) {
    forall i, j :: 0 <= i < j < |s| ==> f(s[i]) != f(s[j])
  }

  lemma {:induction false} InsertByKeepsDistinct<T, U>(x: T, s: seq<T>, key: T -> int, f: T -> U)
    requires SortedBy(s, key) && DistinctBy(s, f)
    requires forall k :: 0 <= k < |s| ==> f(s[k]) != f(x)
    ensures DistinctBy(InsertBy(x, s, key), f)
    decreases |s|
  {
    if s == [] || key(x) <= key(s[0]) {
    } else {
      var tail := InsertBy(x, s[1..], key);
      InsertByKeepsDistinct(x, s[1..], key, f);
      assert InsertBy(x, s, key) == [s[0]] + tail;
      forall k | 0 <= k < |tail| ensures f(s[0]) != f(tail[k]) {
        assert tail[k] in multiset(tail);
        if tail[k] != x {
          assert tail[k] in multiset(s[1..]);
          var i :| 0 <= i < |s[1..]| && s[1..][i] == tail[k];
          assert s[i + 1] == tail[k];
        }
      }
    }
  }

  /** Sorting keeps a sequence free of duplicates under `f`. */
  lemma {:induction false} SortByKeepsDistinct<T(!new), U>(s: seq<T>, key: T -> int, f: T -> U)
    requires DistinctBy(s, f)
    ensures DistinctBy(SortBy(s, key), f)
    decreases |s|
  {
    if s != [] {
      var rest := SortBy(s[1..], key);
      assert DistinctBy(s[1..], f) by {
        forall i, j | 0 <= i < j < |s[1..]| ensures f(s[1..][i]) != f(s[1..][j]) {
          assert s[1..][i] == s[i + 1] && s[1..][j] == s[j + 1];
        }
      }
      SortByKeepsDistinct(s[1..], key, f);
      forall k | 0 <= k < |rest| ensures f(rest[k]) != f(s[0]) {
        assert rest[k] in s[1..];
        var i :| 0 <= i < |s[1..]| && s[1..][i] == rest[k];
        assert s[i + 1] == rest[k];
      }
      InsertByKeepsDistinct(s[0], rest, key, f);
    }
  }

  // ------------------------------------------------------- subsequences

  /** `a` is `b` with some elements left out, in the same order. */
  predicate IsSubsequence<T(==)>(a: seq<T>, b: seq<T>)
    decreases |b|
  {
    || a == []
    || (&& b != []
        && ((a[|a| - 1] == b[|b| - 1] && IsSubsequence(a[..|a| - 1], b[..|b| - 1]))
            || IsSubsequence(a, b[..|b| - 1])))
  }

  /** No element occurs twice: what unique ids give a table's rows. */
  predicate NoDuplicates<T(==)>(s: seq<T>) {
    forall i, j :: 0 <= i < j < |s| ==> s[i] != s[j]
  }

  /** One more element of `b`, kept or left out. */
  lemma SubsequenceSnoc<T>(a: seq<T>, b: seq<T>)
    requires b != [] && IsSubsequence(a, b[..|b| - 1])
    ensures IsSubsequence(a + [b[|b| - 1]], b)
    ensures IsSubsequence(a, b)
  {
    assert (a + [b[|b| - 1]])[..|a|] == a;
  }

  /** A subsequence holds only elements of the sequence it was taken from. */
  lemma {:induction false} SubsequenceMembers<T>(a: seq<T>, b: seq<T>)
    requires IsSubsequence(a, b)
    ensures forall x :: x in a ==> x in b
    decreases |b|
  {
    if a != [] {
      var b0 := b[..|b| - 1];
      assert b == b0 + [b[|b| - 1]];
      if a[|a| - 1] == b[|b| - 1] && IsSubsequence(a[..|a| - 1], b0) {
        SubsequenceMembers(a[..|a| - 1], b0);
        assert a == a[..|a| - 1] + [a[|a| - 1]];
      } else {
        SubsequenceMembers(a, b0);
      }
    }
  }

  /** Taken from a sequence without duplicates, a subsequence is fixed by
      the elements it holds: two subsequences with the same members are
      equal, so each member occurs once and in the original order. */
  lemma {:induction false} SubsequenceByMembers<T>(a: seq<T>, c: seq<T>, b: seq<T>)
    requires NoDuplicates(b)
    requires IsSubsequence(a, b) && IsSubsequence(c, b)
    requires forall x :: x in a <==> x in c
    ensures a == c
    decreases |b|
  {
    if b == [] {
      assert a == [] && c == [];
    } else {
      var b0, y := b[..|b| - 1], b[|b| - 1];
      assert b == b0 + [y];
      assert NoDuplicates(b0);
      assert y !in b0;
      if y in a {
        var a0 := DropLast(a, b0, y);
        var c0 := DropLast(c, b0, y);
        SubsequenceMembers(a0, b0);
        SubsequenceMembers(c0, b0);
        forall x ensures x in a0 <==> x in c0 {
          assert x in a <==> x in a0 || x == y;
          assert x in c <==> x in c0 || x == y;
        }
        SubsequenceByMembers(a0, c0, b0);
      } else {
        KeepLast(a, b0, y);
        KeepLast(c, b0, y);
        SubsequenceByMembers(a, c, b0);
      }
    }
  }

  /** A subsequence of `b0 + [y]` holding `y`, when `y` is not in `b0`,
      ends in `y`, and the rest is a subsequence of `b0`. */
  lemma DropLast<T>(a: seq<T>, b0: seq<T>, y: T) returns (a0: seq<T>)
    requires IsSubsequence(a, b0 + [y]) && y in a && y !in b0
    ensures a == a0 + [y] && IsSubsequence(a0, b0)
  {
    assert (b0 + [y])[..|b0|] == b0;
    if !(a[|a| - 1] == y && IsSubsequence(a[..|a| - 1], b0)) {
      SubsequenceMembers(a, b0);
    }
    a0 := a[..|a| - 1];
  }

  /** A subsequence of `b0 + [y]` without `y` is a subsequence of `b0`. */
  lemma KeepLast<T>(a: seq<T>, b0: seq<T>, y: T)
    requires IsSubsequence(a, b0 + [y]) && y !in a
    ensures IsSubsequence(a, b0)
  {
    assert (b0 + [y])[..|b0|] == b0;
    if a != [] {
      assert a[|a| - 1] in a;
    }
  }
}
