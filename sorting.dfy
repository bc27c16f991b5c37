/** The `orderBy` clause of a query: rows rearranged so that a comparison holds between
    every earlier row and every later one. An insertion sort stands for the database's sort. */
module Sorting {
  import Seqs

  /** `le` compares any two rows and is transitive: the orders an `orderBy` list produces. */
  ghost predicate TotalPreorder<T(!new)>(le: (T, T) -> bool) {
    && (forall a, b :: le(a, b) || le(b, a))
    && (forall a, b, c :: le(a, b) && le(b, c) ==> le(a, c))
  }

  /** Every row comes no later, under `le`, than each row after it. */
  ghost predicate SortedBy<T>(s: seq<T>, le: (T, T) -> bool) {
    forall i, j :: 0 <= i < j < |s| ==> le(s[i], s[j])
  }

  /** `s` with `x` placed before the first row it may precede. */
  function Insert<T>(x: T, s: seq<T>, le: (T, T) -> bool): seq<T>
  {
    if s == [] then [x]
    else if le(x, s[0]) then [x] + s
    else [s[0]] + Insert(x, s[1..], le)
  }

  /** Inserting adds exactly the one row. */
  lemma {:induction false} InsertPermutes<T>(x: T, s: seq<T>, le: (T, T) -> bool)
    ensures multiset(Insert(x, s, le)) == multiset(s) + multiset{x}
  {
    if s != [] && !le(x, s[0]) {
      InsertPermutes(x, s[1..], le);
      assert s == [s[0]] + s[1..];
    }
  }

  /** Inserting into a sorted sequence keeps it sorted. */
  lemma {:induction false} InsertSorted<T(!new)>(x: T, s: seq<T>, le: (T, T) -> bool)
    requires TotalPreorder(le)
    requires SortedBy(s, le)
    ensures SortedBy(Insert(x, s, le), le)
  {
    if s == [] {
    } else if le(x, s[0]) {
      var r := [x] + s;
      forall i, j | 0 <= i < j < |r| ensures le(r[i], r[j]) {
        if i == 0 {
          if j > 1 { assert le(s[0], s[j - 1]); }
        } else {
          assert r[i] == s[i - 1] && r[j] == s[j - 1];
        }
      }
    } else {
      var rest := Insert(x, s[1..], le);
      InsertSorted(x, s[1..], le);
      InsertPermutes(x, s[1..], le);
      assert le(s[0], x);
      forall y | y in rest ensures le(s[0], y) {
        assert y in multiset(rest);
        if y != x {
          assert y in multiset(s[1..]);
          var j :| 0 <= j < |s[1..]| && s[1..][j] == y;
          assert s[j + 1] == y;
        }
      }
      var r := [s[0]] + rest;
      forall i, j | 0 <= i < j < |r| ensures le(r[i], r[j]) {
        if i == 0 {
          assert r[j] == rest[j - 1];
          assert r[j] in rest;
        } else {
          assert r[i] == rest[i - 1] && r[j] == rest[j - 1];
        }
      }
    }
  }

  /** The rows of `s` in `le` order: a permutation of `s` that is sorted by `le`. */
  function InsertionSort<T(!new)>(s: seq<T>, le: (T, T) -> bool): (r: seq<T>)
    requires TotalPreorder(le)
    ensures multiset(r) == multiset(s)
    ensures |r| == |s|
    ensures SortedBy(r, le)
  {
    if s == [] then []
    else
      var sorted := InsertionSort(s[1..], le);
      var r := Insert(s[0], sorted, le);
      InsertPermutes(s[0], sorted, le);
      InsertSorted(s[0], sorted, le);
      assert s == [s[0]] + s[1..];
      assert |r| == |multiset(r)| == |multiset(s)| == |s|;
      r
  }

  /** A row a sorted prefix leaves out comes, under `le`, after every row the prefix keeps:
      taking the first `n` rows of a sorted sequence selects the first `n` in `le` order. */
  lemma {:induction false} PrefixComesFirst<T>(s: seq<T>, le: (T, T) -> bool, n: nat, x: T)
    requires SortedBy(s, le)
    requires n <= |s|
    requires x in s && x !in s[..n]
    ensures forall y :: y in s[..n] ==> le(y, x)
  {
    var j :| 0 <= j < |s| && s[j] == x;
    forall y | y in s[..n] ensures le(y, x) {
      var i :| 0 <= i < n && s[..n][i] == y;
      assert s[i] == y;
    }
  }

  /** `take: n` after `orderBy`: at most `n` rows, still in order, all from the input,
      and a row left out comes after every row kept; if a row is left out, `n` were kept. */
  lemma {:induction false} TakeOfSorted<T>(s: seq<T>, le: (T, T) -> bool, n: nat)
    requires SortedBy(s, le)
    ensures var r := Seqs.Take(s, n);
      && |r| <= n
      && SortedBy(r, le)
      && (forall x :: x in r ==> x in s)
      && (forall x :: x in s && x !in r ==> |r| == n && forall y :: y in r ==> le(y, x))
  {
    var r := Seqs.Take(s, n);
    assert r == s[..|r|];
    forall x | x in s && x !in r ensures |r| == n && forall y :: y in r ==> le(y, x) {
      PrefixComesFirst(s, le, |r|, x);
    }
  }

  /** The sorted selection holds exactly the rows the filter selects. */
  lemma SortedHasFiltered<T(!new)>(s: seq<T>, p: T -> bool, le: (T, T) -> bool)
    requires TotalPreorder(le)
    ensures forall x :: x in InsertionSort(Seqs.Filter(s, p), le) <==> x in s && p(x)
  {
    var sorted := InsertionSort(Seqs.Filter(s, p), le);
    forall x ensures x in sorted <==> x in s && p(x) {
      assert x in sorted <==> x in multiset(sorted);
      assert x in Seqs.Filter(s, p) <==> x in multiset(Seqs.Filter(s, p));
    }
  }
}
