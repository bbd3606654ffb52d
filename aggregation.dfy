/** The last step of `fetch_price_data`: sort the filtered prices, drop the
    lowest and highest fifth when there are more than four, and average the
    rest. Prices are integer cents; the mean is exact. */
module Aggregation {
  import opened Text

  predicate Sorted(s: seq<int>) {
    forall i, j :: 0 <= i < j < |s| ==> s[i] <= s[j]
  }

  /** `x` inserted into sorted `s` before the first element not below it. */
  function Insert(x: int, s: seq<int>): (r: seq<int>)
    requires Sorted(s)
    ensures Sorted(r)
    ensures |r| == |s| + 1
    ensures multiset(r) == multiset(s) + multiset{x}
  {
    if s == [] then [x]
    else if x <= s[0] then [x] + s
    else
      var tail := Insert(x, s[1..]);
      assert s == [s[0]] + s[1..];
      InsertedAbove(x, s, tail);
      ConsSorted(s[0], tail);
      [s[0]] + tail
  }

  /** Every element of a permutation of `s[1..]` plus `x > s[0]` is at least `s[0]`. */
  lemma InsertedAbove(x: int, s: seq<int>, tail: seq<int>)
    requires Sorted(s) && s != [] && x > s[0]
    requires multiset(tail) == multiset(s[1..]) + multiset{x}
    ensures forall k :: 0 <= k < |tail| ==> s[0] <= tail[k]
  {
    forall k | 0 <= k < |tail|
      ensures s[0] <= tail[k]
    {
      assert tail[k] in multiset(tail);
      if tail[k] != x {
        assert tail[k] in multiset(s[1..]);
        var i :| 0 <= i < |s[1..]| && s[1..][i] == tail[k];
        assert s[i + 1] == tail[k];
      }
    }
  }

  lemma ConsSorted(h: int, t: seq<int>)
    requires Sorted(t)
    requires forall k :: 0 <= k < |t| ==> h <= t[k]
    ensures Sorted([h] + t)
  {
    forall i, j | 0 <= i < j < |[h] + t|
      ensures ([h] + t)[i] <= ([h] + t)[j]
    {
      if i > 0 {
        assert ([h] + t)[i] == t[i - 1];
      }
      assert ([h] + t)[j] == t[j - 1];
    }
  }

  /** `list.sort()` on integers: the sorted permutation. */
  function Sort(s: seq<int>): (r: seq<int>)
    ensures Sorted(r)
    ensures |r| == |s|
    ensures multiset(r) == multiset(s)
  {
    if s == [] then []
    else
      assert s == [s[0]] + s[1..];
      Insert(s[0], Sort(s[1..]))
  }

  /** Two sorted sequences with the same elements are equal. */
  lemma {:induction false} SortedUnique(a: seq<int>, b: seq<int>)
    requires Sorted(a) && Sorted(b)
    requires multiset(a) == multiset(b)
    ensures a == b
    decreases |a|
  {
    assert |a| == |b| by {
      assert |multiset(a)| == |a| && |multiset(b)| == |b|;
    }
    if a != [] {
      SortedSameHead(a, b);
      SameTails(a, b);
      SortedUnique(a[1..], b[1..]);
      assert a == [a[0]] + a[1..] && b == [b[0]] + b[1..];
    }
  }

  /** Two sorted permutations of each other start with the same (least) element. */
  lemma SortedSameHead(a: seq<int>, b: seq<int>)
    requires Sorted(a) && Sorted(b) && a != [] && b != []
    requires multiset(a) == multiset(b)
    ensures a[0] == b[0]
  {
    assert a[0] in multiset(b) && b[0] in multiset(a);
    var i :| 0 <= i < |b| && b[i] == a[0];
    var j :| 0 <= j < |a| && a[j] == b[0];
    assert b[0] <= b[i] && a[0] <= a[j];
  }

  /** Removing the same first element from two permutations leaves permutations. */
  lemma SameTails(a: seq<int>, b: seq<int>)
    requires a != [] && b != [] && a[0] == b[0]
    requires multiset(a) == multiset(b)
    ensures multiset(a[1..]) == multiset(b[1..])
  {
    assert a == [a[0]] + a[1..] && b == [b[0]] + b[1..];
    assert multiset(a) == multiset{a[0]} + multiset(a[1..]);
    assert multiset(b) == multiset{b[0]} + multiset(b[1..]);
    forall x
      ensures multiset(a[1..])[x] == multiset(b[1..])[x]
    {
      assert multiset(a)[x] == multiset(b)[x];
    }
  }

  /** Sorting depends only on the multiset of the input. */
  lemma SortOrderFree(a: seq<int>, b: seq<int>)
    requires multiset(a) == multiset(b)
    ensures Sort(a) == Sort(b)
  {
    SortedUnique(Sort(a), Sort(b));
  }

  /** Sorting a sorted sequence changes nothing. */
  lemma SortSorted(s: seq<int>)
    requires Sorted(s)
    ensures Sort(s) == s
  {
    SortedUnique(Sort(s), s);
  }

  /** How many prices are dropped at each end: a fifth, when more than four. */
  function TrimCount(n: nat): (t: nat)
    ensures n > 4 ==> 1 <= t && n - 2 * t >= 3
    ensures n <= 4 ==> t == 0
  {
    if n > 4 then n / 5 else 0
  }

  /** The slice that drops TrimCount prices from each end. */
  function Trim(s: seq<int>): (r: seq<int>)
    ensures |r| == |s| - 2 * TrimCount(|s|)
    ensures r == s[TrimCount(|s|)..|s| - TrimCount(|s|)]
    ensures s != [] ==> r != []
  {
    var t := TrimCount(|s|);
    s[t..|s| - t]
  }

  /** In a sorted sequence the dropped prices bound the kept ones from
      below and from above. */
  lemma TrimDropsExtremes(s: seq<int>)
    requires Sorted(s)
    ensures var t := TrimCount(|s|);
      Sorted(Trim(s)) &&
      (forall i, k :: 0 <= i < t && 0 <= k < |Trim(s)| ==> s[i] <= Trim(s)[k]) &&
      (forall j, k :: |s| - t <= j < |s| && 0 <= k < |Trim(s)| ==> Trim(s)[k] <= s[j])
  {
    var t := TrimCount(|s|);
    forall k | 0 <= k < |Trim(s)|
      ensures Trim(s)[k] == s[t + k]
    {
    }
  }

  function Sum(s: seq<int>): (r: int)
  {
    if s == [] then 0 else s[0] + Sum(s[1..])
  }

  /** The arithmetic mean. */
  function Mean(s: seq<int>): (m: real)
    requires s != []
  {
    Sum(s) as real / |s| as real
  }

  lemma {:induction false} SumBounds(s: seq<int>, lo: int, hi: int)
    requires forall i :: 0 <= i < |s| ==> lo <= s[i] <= hi
    ensures |s| * lo <= Sum(s) <= |s| * hi
  {
    if s != [] {
      SumBounds(s[1..], lo, hi);
    }
  }

  /** The mean lies between any two bounds of the values. */
  lemma MeanBounds(s: seq<int>, lo: int, hi: int)
    requires s != []
    requires forall i :: 0 <= i < |s| ==> lo <= s[i] <= hi
    ensures lo as real <= Mean(s) <= hi as real
  {
    var n := |s|;
    var x := Sum(s);
    assert n * lo <= x <= n * hi by {
      SumBounds(s, lo, hi);
    }
    assert lo as real * n as real <= x as real <= hi as real * n as real by {
      ProductAsReal(n, lo);
      ProductAsReal(n, hi);
    }
    QuotientBounds(x as real, n as real, lo as real, hi as real);
  }

  lemma ProductAsReal(n: int, a: int)
    ensures (n * a) as real == a as real * n as real
  {
  }

  lemma QuotientBounds(x: real, n: real, a: real, b: real)
    requires n > 0.0 && a * n <= x <= b * n
    ensures a <= x / n <= b
  {
    assert x / n - a == (x - a * n) / n;
    assert b - x / n == (b * n - x) / n;
  }

  /** The trimmed mean of the pool, or None when there is nothing to average. */
  function TrimmedMean(pool: seq<int>): (r: Option<real>)
    ensures r.None? <==> pool == []
  {
    if pool == [] then None else Some(Mean(Trim(Sort(pool))))
  }

  /** The trimmed mean lies within any bounds of the pool. */
  lemma TrimmedMeanWithin(pool: seq<int>, lo: int, hi: int)
    requires pool != []
    requires forall i :: 0 <= i < |pool| ==> lo <= pool[i] <= hi
    ensures lo as real <= TrimmedMean(pool).value <= hi as real
  {
    var sorted := Sort(pool);
    var kept := Trim(sorted);
    forall k | 0 <= k < |kept|
      ensures lo <= kept[k] <= hi
    {
      var t := TrimCount(|sorted|);
      assert kept[k] == sorted[t + k];
      assert kept[k] in multiset(sorted);
      assert kept[k] in pool;
    }
    MeanBounds(kept, lo, hi);
  }

  /** The estimate does not depend on the order the prices were found in. */
  lemma TrimmedMeanOrderFree(a: seq<int>, b: seq<int>)
    requires multiset(a) == multiset(b)
    ensures TrimmedMean(a) == TrimmedMean(b)
  {
    SortOrderFree(a, b);
    if a == [] {
      assert |b| == |multiset(b)| == 0;
    } else {
      assert |b| == |multiset(b)| == |a|;
    }
  }

  lemma MeanOfThree(s: seq<int>)
    requires |s| == 3
    ensures Mean(s) == (s[0] + s[1] + s[2]) as real / 3.0
  {
    assert s[1..][1..][1..] == [];
    assert Sum(s[1..][1..]) == s[2];
    assert Sum(s[1..]) == s[1] + s[2];
  }

  /** Of five prices the lowest and the highest are dropped and the middle
      three averaged. */
  lemma FiveSortedMean(p: seq<int>)
    requires |p| == 5 && Sorted(p)
    ensures TrimmedMean(p) == Some((p[1] + p[2] + p[3]) as real / 3.0)
  {
    var mid := p[1..4];
    assert TrimmedMean(p) == Some(Mean(mid)) by {
      SortSorted(p);
      assert TrimCount(5) == 1;
      assert Trim(p) == mid;
    }
    MeanOfThree(mid);
    assert mid[0] == p[1] && mid[1] == p[2] && mid[2] == p[3];
  }
}
