/** Ordering by a timestamp, newest first: the database's
    `orderBy: { createdAt: 'desc' }` and JavaScript's
    `sort((a, b) => b.timestamp - a.timestamp)`. Timestamps are integers. */
module Sorting {

  /** Keys never increase from left to right. */
  ghost predicate SortedDesc<T>(s: seq<T>, key: T -> int) {
    forall i, j :: 0 <= i < j < |s| ==> key(s[i]) >= key(s[j])
  }

  /** Inserts `x` into a newest-first sequence before the first element
      that is not newer than it (so earlier elements of equal key stay ahead). */
  function InsertDesc<T>(x: T, s: seq<T>, key: T -> int): (r: seq<T>)
    ensures |r| == |s| + 1
    ensures multiset(r) == multiset(s) + multiset{x}
    decreases |s|
  {
    if s == [] || key(s[0]) <= key(x) then [x] + s
    else
      assert s == [s[0]] + s[1..];
      [s[0]] + InsertDesc(x, s[1..], key)
  }

  lemma {:induction false} InsertDescSorted<T>(x: T, s: seq<T>, key: T -> int)
    requires SortedDesc(s, key)
    ensures SortedDesc(InsertDesc(x, s, key), key)
    decreases |s|
  {
    if s != [] && key(s[0]) > key(x) {
      InsertDescSorted(x, s[1..], key);
      var r := InsertDesc(x, s[1..], key);
      assert forall k :: 0 <= k < |r| ==> key(r[k]) <= key(s[0]) by {
        forall k | 0 <= k < |r| ensures key(r[k]) <= key(s[0]) {
          assert r[k] in multiset(r);
          assert r[k] in multiset(s[1..]) + multiset{x};
          if r[k] != x {
            assert r[k] in s[1..];
          }
        }
      }
    }
  }

  /** A newest-first permutation of `s`. */
  function SortDesc<T>(s: seq<T>, key: T -> int): (r: seq<T>)
    ensures |r| == |s|
    ensures multiset(r) == multiset(s)
    decreases |s|
  {
    if s == [] then []
    else
      assert s == [s[0]] + s[1..];
      InsertDesc(s[0], SortDesc(s[1..], key), key)
  }

  lemma {:induction false} SortDescSorted<T>(s: seq<T>, key: T -> int)
    ensures SortedDesc(SortDesc(s, key), key)
    decreases |s|
  {
    if s != [] {
      SortDescSorted(s[1..], key);
      InsertDescSorted(s[0], SortDesc(s[1..], key), key);
    }
  }

  /** `s.slice(0, n)` (also `take: n`): at most the first `n` elements. */
  function Take<T>(s: seq<T>, n: nat): (r: seq<T>)
    ensures |r| == if |s| <= n then |s| else n
    ensures r == s[..|r|]
  {
    if |s| <= n then s else s[..n]
  }

  /** The `n` newest elements of `s`, newest first. */
  function Newest<T>(s: seq<T>, n: nat, key: T -> int): (r: seq<T>)
    ensures |r| <= n && |r| <= |s|
    ensures forall x :: x in r ==> x in s
  {
    var t := SortDesc(s, key);
    var r := Take(t, n);
    assert forall x :: x in r ==> x in s by {
      forall x | x in r ensures x in s {
        var i :| 0 <= i < |r| && r[i] == x;
        assert t[i] == x;
        assert x in multiset(s);
      }
    }
    r
  }

  /** In a newest-first sequence, every element of a prefix is at least as
      new as every element after it. */
  lemma PrefixNewerThanRest<T>(t: seq<T>, m: nat, key: T -> int)
    requires SortedDesc(t, key) && m <= |t|
    ensures forall x, y :: x in t[..m] && y in t[m..] ==> key(x) >= key(y)
  {
    forall x, y | x in t[..m] && y in t[m..] ensures key(x) >= key(y) {
      var i :| 0 <= i < m && t[..m][i] == x;
      var j :| 0 <= j < |t| - m && t[m..][j] == y;
      assert t[i] == x && t[m + j] == y;
    }
  }

  /** The elements that `Newest(s, n, key)` leaves out. */
  function LeftOut<T>(s: seq<T>, n: nat, key: T -> int): seq<T> {
    SortDesc(s, key)[|Newest(s, n, key)|..]
  }

  /** What `take` after `orderBy desc` promises: at most `n` elements, newest
      first, which together with the elements left out make up `s`, and none
      of which is older than an element left out. */
  lemma {:induction false} NewestProperties<T>(s: seq<T>, n: nat, key: T -> int)
    ensures |Newest(s, n, key)| == (if |s| <= n then |s| else n)
    ensures multiset(Newest(s, n, key)) + multiset(LeftOut(s, n, key)) == multiset(s)
    ensures SortedDesc(Newest(s, n, key), key)
    ensures forall x, y :: x in Newest(s, n, key) && y in LeftOut(s, n, key) ==> key(x) >= key(y)
  {
    var t := SortDesc(s, key);
    SortDescSorted(s, key);
    var m := |Newest(s, n, key)|;
    assert t == t[..m] + t[m..];
    PrefixNewerThanRest(t, m, key);
  }
}
