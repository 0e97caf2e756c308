/** Sorting latencies and reading off percentiles: benchmarks/loadtest.go.

    Durations are integers; percentiles are exact reals. */
module LatencyStatistics {

  ghost predicate Ascending(s: seq<int>) {
    forall i, j :: 0 <= i < j < |s| ==> s[i] <= s[j]
  }

  /** Where the inner loop puts a key in a sorted prefix: after all values not above it. */
  function Insert(s: seq<int>, key: int): (r: seq<int>)
    ensures |r| == |s| + 1
  {
    var n := |s| - 1;
    if s == [] || s[n] <= key then s + [key] else Insert(s[..n], key) + [s[n]]
  }

  lemma {:induction false} InsertPermutes(s: seq<int>, key: int)
    ensures multiset(Insert(s, key)) == multiset(s) + multiset{key}
  {
    var n := |s| - 1;
    if s != [] && s[n] > key {
      InsertPermutes(s[..n], key);
      assert s == s[..n] + [s[n]];
    }
  }

  lemma {:induction false} InsertAscends(s: seq<int>, key: int)
    requires Ascending(s)
    ensures Ascending(Insert(s, key))
    ensures forall v :: v in Insert(s, key) ==> v == key || v in s
  {
    var n := |s| - 1;
    if s != [] && s[n] > key {
      InsertAscends(s[..n], key);
      var r := Insert(s[..n], key);
      forall i | 0 <= i < |r|
        ensures r[i] <= s[n]
      {
        assert r[i] in r;
      }
    }
  }

  function Sorted(s: seq<int>): (r: seq<int>)
    ensures |r| == |s|
  {
    if s == [] then [] else Insert(Sorted(s[..|s| - 1]), s[|s| - 1])
  }

  /** Sorting yields an ascending permutation. */
  lemma {:induction false} SortedIsSorted(s: seq<int>)
    ensures Ascending(Sorted(s)) && multiset(Sorted(s)) == multiset(s)
  {
    var n := |s| - 1;
    if s != [] {
      SortedIsSorted(s[..n]);
      InsertAscends(Sorted(s[..n]), s[n]);
      InsertPermutes(Sorted(s[..n]), s[n]);
      assert s == s[..n] + [s[n]];
    }
  }

  /** Where the keys end up: j + 1 values stay, the new key follows, and the rest moves up by one. */
  lemma {:induction false} InsertLayout(s: seq<int>, key: int, j: int)
    requires -1 <= j < |s|
    requires j == -1 || s[j] <= key
    requires forall k :: j < k < |s| ==> s[k] > key
    ensures Insert(s, key) == s[..j + 1] + [key] + s[j + 1..]
  {
    var n := |s| - 1;
    if j < n {
      assert s[..n][..j + 1] == s[..j + 1] && s[..n][j + 1..] + [s[n]] == s[j + 1..];
      InsertLayout(s[..n], key, j);
    } else {
      assert s[..j + 1] == s && s[j + 1..] == [];
    }
  }

  /** One round of the sort: moves larger values up and puts the key of position i below them. */
  method InsertAt(a: array<int>, i: nat)
    requires i < a.Length
    modifies a
    ensures a[..] == Insert(old(a[..i]), old(a[i])) + old(a[i + 1..])
  {
    ghost var s := a[..i];
    var key, j := a[i], i - 1;
    while j >= 0 && a[j] > key
      invariant -1 <= j < i
      invariant forall k :: 0 <= k <= j ==> a[k] == s[k]
      invariant forall k :: j + 1 < k <= i ==> a[k] == s[k - 1]
      invariant forall k :: i < k < a.Length ==> a[k] == old(a[k])
      invariant forall k :: j < k < i ==> s[k] > key
    {
      a[j + 1] := a[j];
      j := j - 1;
    }
    a[j + 1] := key;
    InsertLayout(s, key, j);
    assert a[..] == (s[..j + 1] + [key] + s[j + 1..]) + old(a[i + 1..]);
  }

  lemma SortOneMore(s: seq<int>, before: seq<int>, after: seq<int>, i: nat)
    requires i < |s| && before == Sorted(s[..i]) + s[i..]
    requires after == Insert(before[..i], before[i]) + before[i + 1..]
    ensures after == Sorted(s[..i + 1]) + s[i + 1..]
  {
    assert before[..i] == Sorted(s[..i]) && before[i] == s[i] && before[i + 1..] == s[i + 1..];
    assert s[..i + 1][..i] == s[..i];
  }

  lemma SortedOne(s: seq<int>)
    requires |s| > 0
    ensures s == Sorted(s[..1]) + s[1..]
  {
    assert s[..1] == [s[0]] && s[..1][..0] == [];
  }

  /** Insertion sort in place. */
  method SortDurations(a: array<int>)
    modifies a
    ensures a[..] == Sorted(old(a[..]))
  {
    ghost var s := a[..];
    if a.Length == 0 {
      return;
    }
    SortedOne(s);
    for i := 1 to a.Length
      invariant a[..] == Sorted(s[..i]) + s[i..]
    {
      ghost var before := a[..];
      assert before[..i] == a[..i] && before[i] == a[i] && before[i + 1..] == a[i + 1..];
      InsertAt(a, i);
      SortOneMore(s, before, a[..], i);
    }
    assert s[..a.Length] == s && s[a.Length..] == [];
  }

  // ---------------------------------------------------------------------------------------
  // Percentiles
  // ---------------------------------------------------------------------------------------

  /** The least integer that is not below x. */
  function Ceil(x: real): (r: int)
    ensures r as real - 1.0 < x <= r as real
  {
    -(-x).Floor
  }

  /** How many of n samples the percentage asks for. */
  function Share(n: nat, percentile: real): real { n as real * percentile / 100.0 }

  /** The position the source computes, clamped to the list at both ends. */
  function PercentileIndex(n: nat, percentile: real): (index: int)
    requires n > 0
    ensures 0 <= index < n
    ensures 100.0 * index as real < n as real * percentile || index == 0
    ensures 100.0 * (index + 1) as real >= n as real * percentile || index == n - 1
  {
    var index := Ceil(Share(n, percentile)) - 1;
    var notBelow := if index < 0 then 0 else index;
    if notBelow >= n then n - 1 else notBelow
  }

  /** The value at a percentile of a sorted list; an empty list makes the source panic. */
  function PercentileDuration(sorted: seq<int>, percentile: real): (v: int)
    requires sorted != []
    ensures v in sorted
  {
    sorted[PercentileIndex(|sorted|, percentile)]
  }

  function CountAtMost(s: seq<int>, v: int): (c: nat)
    ensures c <= |s|
  {
    if s == [] then 0 else CountAtMost(s[..|s| - 1], v) + (if s[|s| - 1] <= v then 1 else 0)
  }

  /** The positions of the values not above v. */
  function AtMost(s: seq<int>, v: int): set<int> { set i | 0 <= i < |s| && s[i] <= v }

  lemma {:induction false} CountIsOfPositions(s: seq<int>, v: int)
    ensures CountAtMost(s, v) == |AtMost(s, v)|
    decreases |s|
  {
    if s == [] {
      assert AtMost(s, v) == {};
    } else {
      var n := |s| - 1;
      CountIsOfPositions(s[..n], v);
      assert AtMost(s, v) == if s[n] <= v then AtMost(s[..n], v) + {n} else AtMost(s[..n], v);
    }
  }

  predicate Enough(count: nat, n: nat, percentile: real) {
    100.0 * count as real >= n as real * percentile
  }

  /** At least the given percentage of the samples is not above v. */
  predicate Covers(s: seq<int>, percentile: real, v: int) {
    Enough(|AtMost(s, v)|, |s|, percentile)
  }

  lemma {:induction false} CountAfterInsert(s: seq<int>, key: int, v: int)
    ensures CountAtMost(Insert(s, key), v) == CountAtMost(s, v) + (if key <= v then 1 else 0)
  {
    var n := |s| - 1;
    if s == [] || s[n] <= key {
      assert (s + [key])[..|s|] == s;
    } else {
      var r := Insert(s[..n], key);
      assert (r + [s[n]])[..|r|] == r;
      CountAfterInsert(s[..n], key, v);
    }
  }

  lemma {:induction false} SortingKeepsCounts(s: seq<int>, v: int)
    ensures CountAtMost(Sorted(s), v) == CountAtMost(s, v)
  {
    if s != [] {
      SortingKeepsCounts(s[..|s| - 1], v);
      CountAfterInsert(Sorted(s[..|s| - 1]), s[|s| - 1], v);
    }
  }

  /** In a sorted list the first k values, and no others, are counted up to their last one. */
  lemma {:induction false} CountInSorted(s: seq<int>, v: int, k: nat)
    requires Ascending(s) && k <= |s|
    ensures k > 0 && s[k - 1] <= v ==> CountAtMost(s, v) >= k
    ensures k < |s| && v < s[k] ==> CountAtMost(s, v) <= k
  {
    var n := |s| - 1;
    if s != [] {
      CountInSorted(s[..n], v, if k <= n then k else n);
    }
  }

  lemma ShareGrows(n: nat, p: real, q: real)
    requires p <= q
    ensures Share(n, p) <= Share(n, q)
  {
    assert 0.0 <= n as real * (q - p);
  }

  lemma ShareOfAll(n: nat)
    ensures Share(n, 100.0) == n as real
  {
  }

  lemma IndexGrows(n: nat, p: real, q: real)
    requires n > 0 && p <= q
    ensures PercentileIndex(n, p) <= PercentileIndex(n, q)
    ensures q >= 100.0 ==> PercentileIndex(n, q) == n - 1
  {
    ShareGrows(n, p, q);
    if q >= 100.0 {
      ShareGrows(n, 100.0, q);
      ShareOfAll(n);
    }
  }

  lemma PercentileCovers(s: seq<int>, percentile: real)
    requires s != [] && Ascending(s) && percentile <= 100.0
    ensures Covers(s, percentile, PercentileDuration(s, percentile))
  {
    var k := PercentileIndex(|s|, percentile);
    ShareGrows(|s|, percentile, 100.0);
    ShareOfAll(|s|);
    CountInSorted(s, s[k], k + 1);
    CountIsOfPositions(s, s[k]);
  }

  lemma PercentileIsLeast(s: seq<int>, percentile: real, u: int)
    requires s != [] && Ascending(s) && u in s && Covers(s, percentile, u)
    ensures PercentileDuration(s, percentile) <= u
  {
    var k := PercentileIndex(|s|, percentile);
    if u < s[k] && k > 0 {
      CountInSorted(s, u, k);
      CountIsOfPositions(s, u);
    }
  }

  lemma SortedPercentilesGrow(s: seq<int>, p: real, q: real)
    requires s != [] && Ascending(s) && p <= q
    ensures PercentileDuration(s, p) <= PercentileDuration(s, q)
    ensures forall u :: u in s ==> u <= s[|s| - 1]
    ensures q >= 100.0 ==> PercentileDuration(s, q) == s[|s| - 1]
  {
    IndexGrows(|s|, p, q);
  }

  lemma SameMembers(samples: seq<int>, u: int)
    ensures u in samples <==> u in Sorted(samples)
  {
    SortedIsSorted(samples);
    assert u in samples <==> u in multiset(samples);
    assert u in Sorted(samples) <==> u in multiset(Sorted(samples));
  }

  lemma SameCoverage(samples: seq<int>, percentile: real, u: int)
    ensures Covers(samples, percentile, u) <==> Covers(Sorted(samples), percentile, u)
  {
    SortingKeepsCounts(samples, u);
    CountIsOfPositions(samples, u);
    CountIsOfPositions(Sorted(samples), u);
    assert Covers(Sorted(samples), percentile, u) == Enough(|AtMost(samples, u)|, |samples|, percentile);
  }

  /** The percentile read off the sorted samples is the least sample v such that enough samples, of
      the list in its original order, are at most v; from 100 on it is the largest sample. */
  lemma PercentileIsLeastCovering(samples: seq<int>, percentile: real)
    requires samples != []
    ensures var v := PercentileDuration(Sorted(samples), percentile);
            && v in samples
            && (percentile <= 100.0 ==>
                  100.0 * |AtMost(samples, v)| as real >= |samples| as real * percentile)
            && (forall u :: u in samples && 100.0 * |AtMost(samples, u)| as real >= |samples| as real * percentile ==>
                  v <= u)
            && (percentile >= 100.0 ==> forall u :: u in samples ==> u <= v)
  {
    var s, v := Sorted(samples), PercentileDuration(Sorted(samples), percentile);
    SortedIsSorted(samples);
    SameMembers(samples, v);
    if percentile <= 100.0 {
      PercentileCovers(s, percentile);
      SameCoverage(samples, percentile, v);
    }
    forall u | u in samples
      ensures Covers(samples, percentile, u) ==> v <= u
      ensures percentile >= 100.0 ==> u <= v
    {
      SameMembers(samples, u);
      SameCoverage(samples, percentile, u);
      SortedPercentilesGrow(s, percentile, percentile);
      if Covers(s, percentile, u) {
        PercentileIsLeast(s, percentile, u);
      }
    }
  }

  /** Percentiles grow with the percentage. */
  lemma PercentilesGrow(samples: seq<int>, p: real, q: real)
    requires samples != [] && p <= q
    ensures PercentileDuration(Sorted(samples), p) <= PercentileDuration(Sorted(samples), q)
  {
    SortedIsSorted(samples);
    SortedPercentilesGrow(Sorted(samples), p, q);
  }
}
