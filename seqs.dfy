/** Selections over the rows of a table: a `where` filter, a row count, a `take` cap,
    and the per-key counts of a `groupBy`. Rows keep the order the table has them in. */
module Seqs {

  /** The rows of `s` that satisfy `p`, in their original order. */
  function Filter<T(!new)>(s: seq<T>, p: T -> bool): (r: seq<T>)
    ensures |r| <= |s|
    ensures forall x :: x in r <==> x in s && p(x)
    ensures forall x :: multiset(r)[x] == if p(x) then multiset(s)[x] else 0
  {
    if s == [] then []
    else
      var rest := Filter(s[1..], p);
      assert s == [s[0]] + s[1..];
      if p(s[0]) then [s[0]] + rest else rest
  }

  /** Conditions that agree on every row select the same rows. */
  lemma {:induction false} FilterExt<T(!new)>(s: seq<T>, p: T -> bool, q: T -> bool)
    requires forall x :: x in s ==> (p(x) <==> q(x))
    ensures Filter(s, p) == Filter(s, q)
  {
    if s != [] {
      FilterExt(s[1..], p, q);
    }
  }

  /** A condition every row satisfies selects the whole table, in order. */
  lemma {:induction false} FilterAll<T(!new)>(s: seq<T>, p: T -> bool)
    requires forall x :: x in s ==> p(x)
    ensures Filter(s, p) == s
  {
    if s != [] {
      assert s == [s[0]] + s[1..];
      FilterAll(s[1..], p);
    }
  }

  /** The number of rows of `s` that satisfy `p` (a `count` query with that `where`). */
  function Count<T(!new)>(s: seq<T>, p: T -> bool): nat
  {
    |Filter(s, p)|
  }

  /** At most the first `n` rows (a `take: n` clause). */
  function Take<T>(s: seq<T>, n: nat): (r: seq<T>)
    ensures |r| == if |s| <= n then |s| else n
    ensures r == s[..|r|]
  {
    if |s| <= n then s else s[..n]
  }

  /** No key occurs twice. */
  predicate Distinct<K(==)>(ks: seq<K>) {
    forall i, j :: 0 <= i < j < |ks| ==> ks[i] != ks[j]
  }

  /** Count of the rows of a non-empty table, split at its first row. */
  lemma {:induction false} CountCons<T(!new)>(s: seq<T>, p: T -> bool)
    requires s != []
    ensures Count(s, p) == (if p(s[0]) then 1 else 0) + Count(s[1..], p)
  {
  }

  /** Counting with a weaker condition finds at least as many rows. */
  lemma {:induction false} CountMono<T(!new)>(s: seq<T>, p: T -> bool, q: T -> bool)
    requires forall x :: x in s && p(x) ==> q(x)
    ensures Count(s, p) <= Count(s, q)
  {
    if s != [] {
      CountCons(s, p);
      CountCons(s, q);
      CountMono(s[1..], p, q);
    }
  }

  /** A condition that holds exactly when one of two exclusive conditions holds
      counts the rows of both. */
  lemma {:induction false} CountSplit<T(!new)>(s: seq<T>, p: T -> bool, a: T -> bool, b: T -> bool)
    requires forall x :: x in s ==> (p(x) <==> a(x) || b(x)) && !(a(x) && b(x))
    ensures Count(s, p) == Count(s, a) + Count(s, b)
  {
    if s != [] {
      CountCons(s, p);
      CountCons(s, a);
      CountCons(s, b);
      CountSplit(s[1..], p, a, b);
    }
  }

  /** A condition no row satisfies counts nothing. */
  lemma {:induction false} CountNone<T(!new)>(s: seq<T>, p: T -> bool)
    requires forall x :: x in s ==> !p(x)
    ensures Count(s, p) == 0
  {
    if s != [] {
      CountCons(s, p);
      CountNone(s[1..], p);
    }
  }

  /** A condition every row satisfies counts the whole table. */
  lemma {:induction false} CountAll<T(!new)>(s: seq<T>, p: T -> bool)
    requires forall x :: x in s ==> p(x)
    ensures Count(s, p) == |s|
  {
    if s != [] {
      CountCons(s, p);
      CountAll(s[1..], p);
    }
  }

  /** The condition "the row's key is `k`". */
  function KeyIs<T, K(==)>(key: T -> K, k: K): T -> bool {
    x => key(x) == k
  }

  /** The condition "the row's key is one of `ks`". */
  function KeyIn<T, K(==)>(key: T -> K, ks: seq<K>): T -> bool {
    x => key(x) in ks
  }

  /** The `groupBy` result: for each key of `ks` that some row has, the key and how many
      rows have it, in the order of `ks`. Keys no row has are absent, as in a SQL GROUP BY. */
  function GroupCounts<T(!new), K(==)>(s: seq<T>, key: T -> K, ks: seq<K>): (r: seq<(K, nat)>)
    ensures |r| <= |ks|
    ensures forall g :: g in r ==> g.0 in ks && g.1 > 0 && g.1 == Count(s, KeyIs(key, g.0))
    ensures forall k :: k in ks && Count(s, KeyIs(key, k)) > 0 ==> (k, Count(s, KeyIs(key, k))) in r
  {
    if ks == [] then []
    else
      var c := Count(s, KeyIs(key, ks[0]));
      (if c > 0 then [(ks[0], c)] else []) + GroupCounts(s, key, ks[1..])
  }

  /** The sum of the counts of a `groupBy` result. */
  function SumCounts<K>(gs: seq<(K, nat)>): nat
  {
    if gs == [] then 0 else gs[0].1 + SumCounts(gs[1..])
  }

  /** One more key adds its count to the sum of the group counts. */
  lemma {:induction false} SumGroupCountsCons<T(!new), K>(s: seq<T>, key: T -> K, ks: seq<K>)
    requires ks != []
    ensures SumCounts(GroupCounts(s, key, ks))
      == Count(s, KeyIs(key, ks[0])) + SumCounts(GroupCounts(s, key, ks[1..]))
  {
    var c := Count(s, KeyIs(key, ks[0]));
    var g := GroupCounts(s, key, ks);
    var tail := GroupCounts(s, key, ks[1..]);
    if c > 0 {
      assert g == [(ks[0], c)] + tail;
      assert g[0] == (ks[0], c) && g[1..] == tail;
    } else {
      assert g == tail;
    }
  }

  /** A key is among `ks` iff it is the first or among the rest, and over distinct keys
      never both. */
  lemma KeyInSplit<T(!new), K>(s: seq<T>, key: T -> K, ks: seq<K>)
    requires ks != [] && Distinct(ks)
    ensures forall x :: x in s ==>
      (KeyIn(key, ks)(x) <==> KeyIs(key, ks[0])(x) || KeyIn(key, ks[1..])(x))
      && !(KeyIs(key, ks[0])(x) && KeyIn(key, ks[1..])(x))
  {
    var k, rest := ks[0], ks[1..];
    forall x | x in s
      ensures (KeyIn(key, ks)(x) <==> KeyIs(key, k)(x) || KeyIn(key, rest)(x))
      ensures !(KeyIs(key, k)(x) && KeyIn(key, rest)(x))
    {
      assert ks == [k] + rest;
      if key(x) in rest {
        var j :| 0 <= j < |rest| && rest[j] == key(x);
        assert ks[j + 1] == key(x);
      }
    }
  }

  /** Over distinct keys, the group counts add up to the rows whose key is among them. */
  lemma {:induction false} GroupCountsSum<T(!new), K>(s: seq<T>, key: T -> K, ks: seq<K>)
    requires Distinct(ks)
    ensures SumCounts(GroupCounts(s, key, ks)) == Count(s, KeyIn(key, ks))
  {
    if ks == [] {
      CountNone(s, KeyIn(key, ks));
    } else {
      assert Distinct(ks[1..]);
      GroupCountsSum(s, key, ks[1..]);
      SumGroupCountsCons(s, key, ks);
      KeyInSplit(s, key, ks);
      CountSplit(s, KeyIn(key, ks), KeyIs(key, ks[0]), KeyIn(key, ks[1..]));
    }
  }

  /** When every row's key is among distinct keys, the group counts add up to the row count. */
  lemma GroupCountsTotal<T(!new), K>(s: seq<T>, key: T -> K, ks: seq<K>)
    requires Distinct(ks)
    requires forall x :: x in s ==> key(x) in ks
    ensures SumCounts(GroupCounts(s, key, ks)) == |s|
  {
    GroupCountsSum(s, key, ks);
    CountAll(s, KeyIn(key, ks));
  }
}
