/**
 * The relational building blocks the analytics queries are made of:
 * `GROUP BY key` with `COUNT(*)` (a tally), a stable `ORDER BY ... DESC`
 * (an insertion sort on an integer sort key) and `LIMIT`. The database
 * leaves the order of equal sort keys unspecified; the functions here pick
 * one admissible order, and every property proved about them holds for any.
 */
module Grouping {

  /** How many times `k` occurs in `ks`. */
  function Count<K(==)>(ks: seq<K>, k: K): nat
  {
    if ks == [] then 0 else (if ks[0] == k then 1 else 0) + Count(ks[1..], k)
  }

  /** The set of values occurring in `ks` (what `COUNT(DISTINCT ...)` counts). */
  function Distinct<K>(ks: seq<K>): set<K>
  {
    set k | k in ks
  }

  /** One row of a `GROUP BY key` / `COUNT(*)` result. */
  datatype Bucket<K> = Bucket(key: K, count: nat)

  function Keys<K>(bs: seq<Bucket<K>>): (r: seq<K>)
    ensures |r| == |bs| && forall i :: 0 <= i < |bs| ==> r[i] == bs[i].key
  {
    seq(|bs|, i requires 0 <= i < |bs| => bs[i].key)
  }

  function Counts<K>(bs: seq<Bucket<K>>): (r: seq<nat>)
    ensures |r| == |bs| && forall i :: 0 <= i < |bs| ==> r[i] == bs[i].count
  {
    seq(|bs|, i requires 0 <= i < |bs| => bs[i].count)
  }

  function SumCounts<K>(bs: seq<Bucket<K>>): nat
  {
    if bs == [] then 0 else bs[0].count + SumCounts(bs[1..])
  }

  predicate DistinctKeys<K(==)>(bs: seq<Bucket<K>>)
  {
    forall i, j :: 0 <= i < j < |bs| ==> bs[i].key != bs[j].key
  }

  /**
   * `bs` is a grouping of `ks` in some order: one bucket per distinct value,
   * whose count is the number of occurrences of that value.
   */
  predicate IsTally<K(==)>(bs: seq<Bucket<K>>, ks: seq<K>)
  {
    && DistinctKeys(bs)
    && (forall b :: b in bs ==> b.count == Count(ks, b.key) && b.count > 0)
    && (forall k :: k in ks ==> k in Keys(bs))
  }

  lemma {:induction false} CountPositive<K>(ks: seq<K>, k: K)
    ensures Count(ks, k) > 0 <==> k in ks
  {
    if ks != [] {
      CountPositive(ks[1..], k);
    }
  }

  lemma CountCons<K>(k: K, ks: seq<K>, x: K)
    ensures Count([k] + ks, x) == (if k == x then 1 else 0) + Count(ks, x)
  {
    assert ([k] + ks)[1..] == ks;
  }

  /** Adds one occurrence of `k` to a grouping. */
  function Bump<K(==)>(bs: seq<Bucket<K>>, k: K): (r: seq<Bucket<K>>)
    ensures |r| == if k in Keys(bs) then |bs| else |bs| + 1
    ensures SumCounts(r) == SumCounts(bs) + 1
  {
    if bs == [] then [Bucket(k, 1)]
    else if bs[0].key == k then [bs[0].(count := bs[0].count + 1)] + bs[1..]
    else
      assert Keys(bs) == [bs[0].key] + Keys(bs[1..]);
      [bs[0]] + Bump(bs[1..], k)
  }

  /** Bumping a tally of `ks` by `k` gives a tally of `[k] + ks`. */
  lemma BumpTally<K>(bs: seq<Bucket<K>>, ks: seq<K>, k: K)
    requires IsTally(bs, ks)
    ensures IsTally(Bump(bs, k), [k] + ks)
  {
    if k in Keys(bs) {
      BumpTallyPresent(bs, ks, k);
    } else {
      BumpTallyFresh(bs, ks, k);
    }
  }

  lemma BumpTallyPresent<K>(bs: seq<Bucket<K>>, ks: seq<K>, k: K)
    requires IsTally(bs, ks) && k in Keys(bs)
    ensures IsTally(Bump(bs, k), [k] + ks)
  {
    var p :| 0 <= p < |bs| && bs[p].key == k;
    BumpAt(bs, k, p);
    IncrementedTally(bs, ks, k, p);
  }

  /** Incrementing the bucket of `k` in a tally of `ks` gives a tally of `[k] + ks`. */
  lemma IncrementedTally<K>(bs: seq<Bucket<K>>, ks: seq<K>, k: K, p: nat)
    requires IsTally(bs, ks) && p < |bs| && bs[p].key == k
    ensures IsTally(bs[p := Bucket(k, bs[p].count + 1)], [k] + ks)
  {
    var r := bs[p := Bucket(k, bs[p].count + 1)];
    assert forall i :: 0 <= i < |r| ==> r[i].key == bs[i].key;
    assert Keys(r) == Keys(bs);
    forall b | b in r ensures b.count == Count([k] + ks, b.key) && b.count > 0 {
      var i :| 0 <= i < |r| && r[i] == b;
      assert bs[i] in bs;
      CountCons(k, ks, b.key);
    }
    forall x | x in [k] + ks ensures x in Keys(r) {
      if x != k {
        assert x in ks;
      }
    }
  }

  lemma BumpTallyFresh<K>(bs: seq<Bucket<K>>, ks: seq<K>, k: K)
    requires IsTally(bs, ks) && k !in Keys(bs)
    ensures IsTally(Bump(bs, k), [k] + ks)
  {
    BumpFresh(bs, k);
    var r := Bump(bs, k);
    assert Keys(r) == Keys(bs) + [k];
    BumpFreshCounts(bs, ks, k);
    forall x | x in [k] + ks ensures x in Keys(r) {
      if x != k {
        assert x in ks;
      }
    }
  }

  lemma BumpFreshCounts<K>(bs: seq<Bucket<K>>, ks: seq<K>, k: K)
    requires IsTally(bs, ks) && k !in Keys(bs)
    ensures var r := bs + [Bucket(k, 1)];
      forall b :: b in r ==> b.count == Count([k] + ks, b.key) && b.count > 0
  {
    var r := bs + [Bucket(k, 1)];
    assert k !in ks;
    CountPositive(ks, k);
    forall b | b in r ensures b.count == Count([k] + ks, b.key) && b.count > 0 {
      var i :| 0 <= i < |r| && r[i] == b;
      CountCons(k, ks, b.key);
      if i < |bs| {
        assert bs[i] in bs;
        assert bs[i].key != k;
      }
    }
  }

  /** Bumping a key that is present increments its bucket in place. */
  lemma {:induction false} BumpAt<K>(bs: seq<Bucket<K>>, k: K, p: nat)
    requires DistinctKeys(bs) && p < |bs| && bs[p].key == k
    ensures Bump(bs, k) == bs[p := Bucket(k, bs[p].count + 1)]
  {
    if p > 0 {
      BumpAt(bs[1..], k, p - 1);
    }
  }

  /** Bumping an absent key appends a new bucket of count one. */
  lemma {:induction false} BumpFresh<K>(bs: seq<Bucket<K>>, k: K)
    requires k !in Keys(bs)
    ensures Bump(bs, k) == bs + [Bucket(k, 1)]
  {
    if bs != [] {
      assert Keys(bs) == [bs[0].key] + Keys(bs[1..]);
      BumpFresh(bs[1..], k);
    }
  }

  /** `GROUP BY` with `COUNT(*)`: one bucket per distinct value of `ks`. */
  function Tally<K(==)>(ks: seq<K>): (bs: seq<Bucket<K>>)
    ensures IsTally(bs, ks)
    ensures SumCounts(bs) == |ks|
    ensures |bs| == |Distinct(ks)|
  {
    if ks == [] then []
    else
      var rest := Tally(ks[1..]);
      BumpTally(rest, ks[1..], ks[0]);
      assert [ks[0]] + ks[1..] == ks;
      assert Distinct(ks) == {ks[0]} + Distinct(ks[1..]);
      assert ks[0] in Keys(rest) <==> ks[0] in ks[1..] by {
        if ks[0] in Keys(rest) {
          var i :| 0 <= i < |rest| && rest[i].key == ks[0];
          assert rest[i] in rest;
          CountPositive(ks[1..], ks[0]);
        }
      }
      Bump(rest, ks[0])
  }

  /** Sorted by `key`, largest first (ties in any order). */
  predicate NonIncreasing<T>(s: seq<T>, key: T -> int)
  {
    forall i, j :: 0 <= i < j < |s| ==> key(s[i]) >= key(s[j])
  }

  /**
   * Putting the head of a sorted sequence in front of a sorted sequence made
   * of its tail and an element with a smaller key keeps it sorted.
   */
  lemma InsertBehindHead<T>(x: T, s: seq<T>, tail: seq<T>, key: T -> int)
    requires s != [] && NonIncreasing(s, key) && key(x) < key(s[0])
    requires NonIncreasing(tail, key)
    requires multiset(tail) == multiset(s[1..]) + multiset{x}
    ensures NonIncreasing([s[0]] + tail, key)
  {
    assert forall y :: y in tail ==> key(s[0]) >= key(y) by {
      forall y | y in tail ensures key(s[0]) >= key(y) {
        assert y in multiset(tail);
        if y != x {
          assert y in multiset(s[1..]);
          var j :| 0 <= j < |s[1..]| && s[1..][j] == y;
          assert s[j + 1] == y;
        }
      }
    }
    var r := [s[0]] + tail;
    forall i, j | 0 <= i < j < |r| ensures key(r[i]) >= key(r[j]) {
      if i == 0 {
        assert r[j] in tail;
      } else {
        assert r[i] == tail[i - 1] && r[j] == tail[j - 1];
      }
    }
  }

  /** Inserts `x` before the first element whose key is smaller than its own or equal to it. */
  function InsertDesc<T>(x: T, s: seq<T>, key: T -> int): (r: seq<T>)
    requires NonIncreasing(s, key)
    ensures NonIncreasing(r, key)
    ensures multiset(r) == multiset(s) + multiset{x}
    ensures |r| == |s| + 1
  {
    if s == [] || key(x) >= key(s[0]) then [x] + s
    else
      var tail := InsertDesc(x, s[1..], key);
      assert s == [s[0]] + s[1..];
      InsertBehindHead(x, s, tail, key);
      [s[0]] + tail
  }

  /** A stable sort on `key`, largest first (`ORDER BY key DESC`). */
  function SortDesc<T>(s: seq<T>, key: T -> int): (r: seq<T>)
    ensures NonIncreasing(r, key)
    ensures multiset(r) == multiset(s)
    ensures |r| == |s|
  {
    if s == [] then []
    else
      assert s == [s[0]] + s[1..];
      InsertDesc(s[0], SortDesc(s[1..], key), key)
  }

  /** The first `n` elements (`LIMIT n`), or all of them when there are fewer. */
  function Take<T>(s: seq<T>, n: nat): (r: seq<T>)
    ensures |r| == if |s| < n then |s| else n
    ensures r == s[..|r|]
  {
    if |s| <= n then s else s[..n]
  }

  /** In a grouping with distinct keys every bucket occurs at most once. */
  lemma {:induction false} DistinctKeysOnce<K>(bs: seq<Bucket<K>>, x: Bucket<K>)
    requires DistinctKeys(bs)
    ensures multiset(bs)[x] <= 1
  {
    if bs != [] {
      assert bs == [bs[0]] + bs[1..];
      DistinctKeysOnce(bs[1..], x);
    }
  }

  /** An element found at two positions occurs at least twice. */
  lemma RepeatedTwice<T>(s: seq<T>, i: nat, j: nat)
    requires i < j < |s| && s[i] == s[j]
    ensures multiset(s)[s[i]] >= 2
  {
    assert s == s[..j] + s[j..];
    assert s[i] in s[..j];
    assert s[j] in s[j..];
  }

  /** Reordering a grouping leaves it a grouping of the same values. */
  lemma PermutedTally<K>(bs: seq<Bucket<K>>, ps: seq<Bucket<K>>, ks: seq<K>)
    requires IsTally(bs, ks) && multiset(ps) == multiset(bs)
    ensures IsTally(ps, ks)
  {
    forall b | b in ps ensures b in bs {
      assert b in multiset(ps);
    }
    forall i, j | 0 <= i < j < |ps| ensures ps[i].key != ps[j].key {
      if ps[i] == ps[j] {
        RepeatedTwice(ps, i, j);
        DistinctKeysOnce(bs, ps[i]);
      } else {
        assert ps[i] in bs && ps[j] in bs;
        var p :| 0 <= p < |bs| && bs[p] == ps[i];
        var q :| 0 <= q < |bs| && bs[q] == ps[j];
        assert p != q;
      }
    }
    forall k | k in ks ensures k in Keys(ps) {
      var p :| 0 <= p < |bs| && bs[p].key == k;
      assert bs[p] in multiset(ps);
      var q :| 0 <= q < |ps| && ps[q] == bs[p];
      assert Keys(ps)[q] == k;
    }
  }

  /** The sort key of `ORDER BY COUNT(*) DESC`. */
  function ByCount<K>(b: Bucket<K>): int
  {
    b.count
  }

  /** `GROUP BY key`, `ORDER BY COUNT(*) DESC`, `LIMIT n`. */
  function TopN<K(==)>(ks: seq<K>, n: nat): seq<Bucket<K>>
  {
    Take(SortDesc(Tally(ks), ByCount), n)
  }

  /** A prefix of a sorted grouping: its buckets, their order, and what it leaves out. */
  lemma TakeOfSortedTally<K>(sorted: seq<Bucket<K>>, ks: seq<K>, n: nat)
    requires IsTally(sorted, ks) && NonIncreasing(sorted, ByCount)
    ensures var r := Take(sorted, n);
      && DistinctKeys(r)
      && (forall i :: 0 <= i < |r| ==> r[i].count == Count(ks, r[i].key) && r[i].count > 0)
      && (forall i, j :: 0 <= i < j < |r| ==> r[i].count >= r[j].count)
  {
    var r := Take(sorted, n);
    forall i | 0 <= i < |r| ensures r[i].count == Count(ks, r[i].key) && r[i].count > 0 {
      assert r[i] == sorted[i] && sorted[i] in sorted;
    }
    forall i, j | 0 <= i < j < |r| ensures r[i].count >= r[j].count {
      assert ByCount(sorted[i]) >= ByCount(sorted[j]);
    }
  }

  /** A value a sorted grouping's prefix leaves out counts no more than any value it keeps. */
  lemma TakeLeavesSmaller<K>(sorted: seq<Bucket<K>>, ks: seq<K>, n: nat, k: K)
    requires IsTally(sorted, ks) && NonIncreasing(sorted, ByCount)
    requires k in ks && k !in Keys(Take(sorted, n))
    ensures forall i :: 0 <= i < |Take(sorted, n)| ==> Count(ks, k) <= Take(sorted, n)[i].count
    ensures |Take(sorted, n)| == n
  {
    var r := Take(sorted, n);
    var q :| 0 <= q < |sorted| && sorted[q].key == k;
    assert sorted[q] in sorted;
    forall i | 0 <= i < |r| ensures Count(ks, k) <= r[i].count {
      assert ByCount(sorted[i]) >= ByCount(sorted[q]);
    }
  }

  /**
   * What a top-N query answers, whichever order it gives equal counts: at
   * most `n` buckets with distinct keys; each count is the number of
   * occurrences of its key; counts never increase down the list; a value
   * left out occurs no more often than any value listed; and when fewer than
   * `n` buckets come back, every value is listed.
   */
  lemma TopNSpec<K>(ks: seq<K>, n: nat)
    ensures var r := TopN(ks, n);
      && |r| == (if |Distinct(ks)| < n then |Distinct(ks)| else n)
      && DistinctKeys(r)
      && (forall i :: 0 <= i < |r| ==> r[i].count == Count(ks, r[i].key) && r[i].count > 0)
      && (forall i, j :: 0 <= i < j < |r| ==> r[i].count >= r[j].count)
      && (forall k :: k in ks && k !in Keys(r) ==>
            |r| == n && forall i :: 0 <= i < |r| ==> Count(ks, k) <= r[i].count)
  {
    var t := Tally(ks);
    var sorted := SortDesc(t, ByCount);
    PermutedTally(t, sorted, ks);
    TakeOfSortedTally(sorted, ks, n);
    forall k | k in ks && k !in Keys(Take(sorted, n))
      ensures |Take(sorted, n)| == n
      ensures forall i :: 0 <= i < |Take(sorted, n)| ==> Count(ks, k) <= Take(sorted, n)[i].count
    {
      TakeLeavesSmaller(sorted, ks, n, k);
    }
  }

  function Sum(xs: seq<nat>): nat
  {
    if xs == [] then 0 else xs[0] + Sum(xs[1..])
  }

  lemma {:induction false} SumOfCounts<K>(bs: seq<Bucket<K>>)
    ensures Sum(Counts(bs)) == SumCounts(bs)
  {
    if bs != [] {
      assert Counts(bs)[1..] == Counts(bs[1..]);
      SumOfCounts(bs[1..]);
    }
  }

  lemma {:induction false} SumInsert<K>(x: Bucket<K>, s: seq<Bucket<K>>, key: Bucket<K> -> int)
    requires NonIncreasing(s, key)
    ensures SumCounts(InsertDesc(x, s, key)) == x.count + SumCounts(s)
  {
    if s != [] && key(x) < key(s[0]) {
      SumInsert(x, s[1..], key);
    }
  }

  /** Sorting a grouping does not change the total of its counts. */
  lemma {:induction false} SumSort<K>(s: seq<Bucket<K>>, key: Bucket<K> -> int)
    ensures SumCounts(SortDesc(s, key)) == SumCounts(s)
  {
    if s != [] {
      SumSort(s[1..], key);
      SumInsert(s[0], SortDesc(s[1..], key), key);
    }
  }

  /** A sequence has at most as many distinct values as elements. */
  lemma {:induction false} DistinctAtMostLength<K>(ks: seq<K>)
    ensures |Distinct(ks)| <= |ks|
  {
    if ks != [] {
      DistinctAtMostLength(ks[1..]);
      assert Distinct(ks) == {ks[0]} + Distinct(ks[1..]);
    }
  }
}
