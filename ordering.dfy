/** `ORDER BY key DESC` and `LIMIT n`, as the database evaluates them for the
    device listing (by created_at) and the transaction listing (by timestamp).
    Rows with equal keys may come in any order in SQL; the model fixes one. */
module Ordering {

  /** `s` is ordered by `key`, largest first. */
  ghost predicate SortedDesc<T>(s: seq<T>, key: T -> int) {
    forall i, j :: 0 <= i < j < |s| ==> key(s[i]) >= key(s[j])
  }

  /** Inserts `x` into an already descending `s`. */
  function Insert<T>(x: T, s: seq<T>, key: T -> int): (r: seq<T>)
    requires SortedDesc(s, key)
    ensures SortedDesc(r, key)
    ensures multiset(r) == multiset(s) + multiset{x}
    ensures |r| == |s| + 1 && (r[0] == x || (s != [] && r[0] == s[0]))
  {
    if s == [] then [x]
    else if key(x) >= key(s[0]) then
      ConsSorted(x, s, key);
      [x] + s
    else
      assert s == [s[0]] + s[1..];
      var rest := Insert(x, s[1..], key);
      ConsSorted(s[0], rest, key);
      assert multiset([s[0]] + rest) == multiset{s[0]} + multiset(rest);
      [s[0]] + rest
  }

  /** A row at least as large as the head of a descending sequence can
      go in front of it. */
  lemma ConsSorted<T>(x: T, s: seq<T>, key: T -> int)
    requires SortedDesc(s, key) && (s != [] ==> key(x) >= key(s[0]))
    ensures SortedDesc([x] + s, key)
  {
    var r := [x] + s;
    forall i, j | 0 <= i < j < |r| ensures key(r[i]) >= key(r[j]) {
      if i == 0 && j > 1 {
        assert key(s[0]) >= key(s[j - 1]);
      }
    }
  }

  /** The rows of `s` in descending `key` order. */
  function SortDesc<T>(s: seq<T>, key: T -> int): (r: seq<T>)
    ensures SortedDesc(r, key)
    ensures multiset(r) == multiset(s)
    ensures |r| == |s|
  {
    if s == [] then []
    else
      assert s == [s[0]] + s[1..];
      Insert(s[0], SortDesc(s[1..], key), key)
  }

  /** `LIMIT n`: the first `n` rows, or all of them when there are fewer. */
  function Take<T>(s: seq<T>, n: nat): (r: seq<T>)
    ensures |r| == if n < |s| then n else |s|
    ensures forall i :: 0 <= i < |r| ==> r[i] == s[i]
  {
    if n < |s| then s[..n] else s
  }

  /** Cutting a descending sequence keeps its top rows: a row that beats any
      kept row by key is itself kept. */
  lemma {:induction false} TakeKeepsTop<T>(s: seq<T>, n: nat, key: T -> int)
    requires SortedDesc(s, key)
    ensures forall x, i :: x in s && 0 <= i < |Take(s, n)| && key(x) > key(Take(s, n)[i]) ==> x in Take(s, n)
  {
    var t := Take(s, n);
    forall x, i | x in s && 0 <= i < |t| && key(x) > key(t[i])
      ensures x in t
    {
      var j :| 0 <= j < |s| && s[j] == x;
      assert j < |t|;
      assert t[j] == x;
    }
  }

  /** `ORDER BY key DESC LIMIT n` over `s`: the kept rows come from `s`, a row
      of `s` that beats a kept row is kept, and with no cut every row is kept. */
  lemma TopOfSorted<T>(s: seq<T>, n: nat, key: T -> int)
    ensures multiset(Take(SortDesc(s, key), n)) <= multiset(s)
    ensures forall x, i :: x in s && 0 <= i < |Take(SortDesc(s, key), n)| && key(x) > key(Take(SortDesc(s, key), n)[i]) ==> x in Take(SortDesc(s, key), n)
    ensures n >= |s| ==> forall x :: x in s ==> x in Take(SortDesc(s, key), n)
  {
    var sorted := SortDesc(s, key);
    TakeKeepsTop(sorted, n, key);
    TakeIsPart(sorted, n);
    forall x | x in s ensures x in sorted {
      assert multiset(s)[x] > 0;
    }
  }

  /** `LIMIT n` keeps part of the rows. */
  lemma TakeIsPart<T>(s: seq<T>, n: nat)
    ensures multiset(Take(s, n)) <= multiset(s)
  {
    var t := Take(s, n);
    assert s == t + s[|t|..];
    assert multiset(s) == multiset(t) + multiset(s[|t|..]);
  }
}
