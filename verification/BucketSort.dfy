// The counting sort that orders vertices for Match_SHEM (BucketSortKeysInc,
// tools/assignment/metis/bucketsort.c).
module BucketSort {
  import opened Finite

  /** The entries of `s` whose key is `k`, in order. */
  ghost function Filter(keys: seq<int>, s: seq<int>, k: int): (r: seq<int>)
    requires InRange(s, |keys|)
  {
    if s == [] then [] else
      assert InRange(s[..|s| - 1], |keys|);
      Filter(keys, s[..|s| - 1], k) + if keys[s[|s| - 1]] == k then [s[|s| - 1]] else []
  }

  lemma {:induction false} FilterAppend(keys: seq<int>, s: seq<int>, x: int, k: int)
    requires InRange(s, |keys|) && 0 <= x < |keys|
    ensures InRange(s + [x], |keys|)
    ensures Filter(keys, s + [x], k) == Filter(keys, s, k) + if keys[x] == k then [x] else []
  {
    assert (s + [x])[..|s + [x]| - 1] == s;
  }

  lemma {:induction false} FilterMembers(keys: seq<int>, s: seq<int>, k: int, x: int)
    requires InRange(s, |keys|)
    ensures x in Filter(keys, s, k) <==> x in s && keys[x] == k
  {
    if s != [] {
      var t := s[..|s| - 1];
      assert s == t + [s[|s| - 1]];
      FilterAppend(keys, t, s[|s| - 1], k);
      FilterMembers(keys, t, k, x);
    }
  }

  lemma {:induction false} FilterDistinct(keys: seq<int>, s: seq<int>, k: int)
    requires InRange(s, |keys|) && Distinct(s)
    ensures Distinct(Filter(keys, s, k))
  {
    if s != [] {
      var t, x := s[..|s| - 1], s[|s| - 1];
      assert s == t + [x];
      FilterAppend(keys, t, x, k);
      FilterDistinct(keys, t, k);
      FilterMembers(keys, t, k, x);
      if keys[x] == k {
        DistinctAppend(Filter(keys, t, k), x);
      }
    }
  }

  /** The first entries of `s` are no more than all of them. */
  lemma {:induction false} FilterGrows(keys: seq<int>, s: seq<int>, i: int, k: int)
    requires InRange(s, |keys|) && 0 <= i <= |s|
    ensures InRange(s[..i], |keys|) && |Filter(keys, s[..i], k)| <= |Filter(keys, s, k)|
  {
    if i < |s| {
      var t := s[..|s| - 1];
      assert s[..i] == t[..i];
      FilterGrows(keys, t, i, k);
    } else {
      assert s[..i] == s;
    }
  }

  ghost function Count(keys: seq<int>, n: int, k: int): nat
    requires 0 <= n <= |keys|
  {
    if n == 0 then 0 else Count(keys, n - 1, k) + if keys[n - 1] == k then 1 else 0
  }

  ghost function Indices(keys: seq<int>, n: int, k: int): set<int>
    requires 0 <= n <= |keys|
  {
    set x | x in Range(0, n) && keys[x] == k
  }

  lemma {:induction false} CountIndices(keys: seq<int>, n: int, k: int)
    requires 0 <= n <= |keys|
    ensures Count(keys, n, k) == |Indices(keys, n, k)|
  {
    if n == 0 {
      assert Indices(keys, n, k) == {};
    } else {
      CountIndices(keys, n - 1, k);
      if keys[n - 1] == k {
        assert Indices(keys, n, k) == Indices(keys, n - 1, k) + {n - 1};
      } else {
        assert Indices(keys, n, k) == Indices(keys, n - 1, k);
      }
    }
  }

  /** A permutation holds as many entries with key `k` as there are keys equal to it. */
  lemma {:induction false} FilterCount(keys: seq<int>, s: seq<int>, k: int)
    requires IsPermutation(s, |keys|)
    ensures |Filter(keys, s, k)| == Count(keys, |keys|, k)
  {
    var f := Filter(keys, s, k);
    FilterDistinct(keys, s, k);
    DistinctSize(f);
    CountIndices(keys, |keys|, k);
    forall x
      ensures x in Elements(f) <==> x in Indices(keys, |keys|, k)
    {
      FilterMembers(keys, s, k, x);
      if 0 <= x < |keys| {
        PermutationHitsAll(s, |keys|, x);
      }
    }
    assert Elements(f) == Indices(keys, |keys|, k);
  }

  /** Where the bucket of `k` starts. */
  ghost function Start(keys: seq<int>, k: int): nat
    requires k >= 0
  {
    if k == 0 then 0 else Start(keys, k - 1) + Count(keys, |keys|, k - 1)
  }

  lemma {:induction false} StartMonotone(keys: seq<int>, k: int, l: int)
    requires 0 <= k < l
    ensures Start(keys, k) + Count(keys, |keys|, k) <= Start(keys, l)
    decreases l
  {
    if k < l - 1 {
      StartMonotone(keys, k, l - 1);
    }
  }

  ghost predicate Keyed(keys: seq<int>, max: int) {
    forall i :: 0 <= i < |keys| ==> 0 <= keys[i] <= max
  }

  ghost function CountBelow(keys: seq<int>, n: int, k: int): nat
    requires 0 <= n <= |keys| && k >= 0
  {
    if k == 0 then 0 else CountBelow(keys, n, k - 1) + Count(keys, n, k - 1)
  }

  /** All keys lie below max + 1, so the buckets fill the whole array. */
  lemma {:induction false} BelowStep(keys: seq<int>, n: int, k: int)
    requires 0 < n <= |keys| && 0 <= k && 0 <= keys[n - 1]
    ensures CountBelow(keys, n, k) == CountBelow(keys, n - 1, k) + if keys[n - 1] < k then 1 else 0
    decreases k
  {
    if k > 0 {
      BelowStep(keys, n, k - 1);
    }
  }

  lemma {:induction false} BelowAll(keys: seq<int>, n: int, max: int)
    requires Keyed(keys, max) && 0 <= n <= |keys| && max >= 0
    ensures CountBelow(keys, n, max + 1) == n
  {
    if n > 0 {
      BelowStep(keys, n, max + 1);
      BelowAll(keys, n - 1, max);
    } else {
      NoneBelow(keys, max + 1);
    }
  }

  lemma {:induction false} NoneBelow(keys: seq<int>, k: int)
    requires k >= 0
    ensures CountBelow(keys, 0, k) == 0
  {
    if k > 0 {
      NoneBelow(keys, k - 1);
    }
  }

  lemma {:induction false} StartIsBelow(keys: seq<int>, k: int)
    requires k >= 0
    ensures Start(keys, k) == CountBelow(keys, |keys|, k)
  {
    if k > 0 {
      StartIsBelow(keys, k - 1);
    }
  }

  /** Bucket `k` of `perm` holds its entries of `s`, in order. */
  ghost predicate BucketIs(keys: seq<int>, s: seq<int>, perm: seq<int>, k: int)
    requires InRange(s, |keys|) && k >= 0
  {
    && Start(keys, k) + |Filter(keys, s, k)| <= |perm|
    && perm[Start(keys, k)..Start(keys, k) + |Filter(keys, s, k)|] == Filter(keys, s, k)
  }

  /** A stable sort of `s` by key: bucket after bucket, each in the order of `s`. */
  ghost predicate StablySorted(keys: seq<int>, max: int, s: seq<int>, perm: seq<int>)
    requires InRange(s, |keys|)
  {
    |perm| == |keys| && forall k :: 0 <= k <= max ==> BucketIs(keys, s, perm, k)
  }

  /** Every position of the result lies in one bucket. */
  lemma {:induction false} FindBucket(keys: seq<int>, k: int, p: int) returns (b: int)
    requires k >= 0 && 0 <= p < Start(keys, k)
    ensures 0 <= b < k && Start(keys, b) <= p < Start(keys, b) + Count(keys, |keys|, b)
  {
    if p >= Start(keys, k - 1) {
      b := k - 1;
    } else {
      b := FindBucket(keys, k - 1, p);
    }
  }

  lemma {:induction false} BucketAt(keys: seq<int>, max: int, s: seq<int>, perm: seq<int>, p: int) returns (b: int)
    requires IsPermutation(s, |keys|) && Keyed(keys, max) && max >= 0 && StablySorted(keys, max, s, perm) && 0 <= p < |perm|
    ensures 0 <= b <= max && Start(keys, b) <= p < Start(keys, b) + |Filter(keys, s, b)|
    ensures perm[p] == Filter(keys, s, b)[p - Start(keys, b)] && perm[p] in s && keys[perm[p]] == b
  {
    StartIsBelow(keys, max + 1);
    BelowAll(keys, |keys|, max);
    b := FindBucket(keys, max + 1, p);
    FilterCount(keys, s, b);
    assert BucketIs(keys, s, perm, b);
    var f := Filter(keys, s, b);
    assert perm[Start(keys, b)..Start(keys, b) + |f|][p - Start(keys, b)] == f[p - Start(keys, b)];
    FilterMembers(keys, s, b, perm[p]);
  }

  /** In order of the keys, and every entry exactly once. */
  lemma {:induction false} SortedPermutation(keys: seq<int>, max: int, s: seq<int>, perm: seq<int>)
    requires IsPermutation(s, |keys|) && Keyed(keys, max) && max >= 0 && StablySorted(keys, max, s, perm)
    ensures IsPermutation(perm, |keys|)
    ensures forall p, q :: 0 <= p < q < |perm| ==> keys[perm[p]] <= keys[perm[q]]
  {
    forall p | 0 <= p < |perm|
      ensures 0 <= perm[p] < |keys|
    {
      var b := BucketAt(keys, max, s, perm, p);
    }
    forall p, q | 0 <= p < q < |perm|
      ensures perm[p] != perm[q] && keys[perm[p]] <= keys[perm[q]]
    {
      var b := BucketAt(keys, max, s, perm, p);
      var c := BucketAt(keys, max, s, perm, q);
      FilterCount(keys, s, c);
      if c < b {
        StartMonotone(keys, c, b);
      } else if b == c {
        FilterDistinct(keys, s, b);
      }
    }
  }

  // ---------------------------------------------------------------- the sort

  /** The write cursors after the first entries of `s` were placed. */
  ghost predicate Cursors(keys: seq<int>, max: int, s: seq<int>, counts: seq<int>)
    requires InRange(s, |keys|)
  {
    |counts| == max + 2 && forall k :: 0 <= k <= max ==> counts[k] == Start(keys, k) + |Filter(keys, s, k)|
  }

  ghost function PutAt(s: seq<int>, at: int, x: int): seq<int> {
    if 0 <= at < |s| then s[at := x] else s
  }

  ghost function CursorOf(keys: seq<int>, counts: seq<int>, x: int): int {
    if 0 <= x < |keys| && 0 <= keys[x] < |counts| then counts[keys[x]] else -1
  }

  lemma NothingPlaced(keys: seq<int>, max: int, counts: seq<int>, perm: seq<int>)
    requires Keyed(keys, max) && max >= 0 && |counts| == max + 2 && |perm| == |keys|
    requires forall k :: 0 <= k <= max ==> counts[k] == Start(keys, k)
    ensures Cursors(keys, max, [], counts)
    ensures forall k :: 0 <= k <= max ==> BucketIs(keys, [], perm, k)
  {
    StartIsBelow(keys, max + 1);
    BelowAll(keys, |keys|, max);
    forall k | 0 <= k <= max
      ensures BucketIs(keys, [], perm, k)
    {
      StartMonotone(keys, k, max + 1);
    }
  }

  /** Placing one more entry at its cursor. */
  lemma {:induction false} PlaceStep(keys: seq<int>, max: int, tperm: seq<int>, i: int, perm: seq<int>, counts: seq<int>,
                                     placed: seq<int>, perm': seq<int>)
    requires IsPermutation(tperm, |keys|) && Keyed(keys, max) && max >= 0 && 0 <= i < |tperm| && |perm| == |keys|
    requires InRange(tperm[..i], |keys|) && Cursors(keys, max, tperm[..i], counts)
    requires forall k :: 0 <= k <= max ==> BucketIs(keys, tperm[..i], perm, k)
    ensures 0 <= keys[tperm[i]] <= max && 0 <= counts[keys[tperm[i]]] < |perm|
    requires placed == tperm[..i + 1] && perm' == PutAt(perm, CursorOf(keys, counts, tperm[i]), tperm[i])
    ensures InRange(placed, |keys|)
    ensures Cursors(keys, max, placed, PutAt(counts, keys[tperm[i]], counts[keys[tperm[i]]] + 1))
    ensures forall k :: 0 <= k <= max ==> BucketIs(keys, placed, perm', k)
  {
    hide Filter, Start, Count, CountBelow, Distinct;
    var x := tperm[i];
    var b := keys[x];
    var s := tperm[..i];
    assert tperm[..i + 1] == s + [x];
    var at := counts[b];
    FilterAppend(keys, s, x, b);
    FilterGrows(keys, tperm, i + 1, b);
    FilterCount(keys, tperm, b);
    StartMonotone(keys, b, max + 1);
    StartIsBelow(keys, max + 1);
    BelowAll(keys, |keys|, max);
    assert at < Start(keys, b) + Count(keys, |keys|, b) <= |perm|;
    forall k | 0 <= k <= max
      ensures counts[b := at + 1][k] == Start(keys, k) + |Filter(keys, s + [x], k)|
      ensures BucketIs(keys, s + [x], perm', k)
    {
      FilterAppend(keys, s, x, k);
      assert BucketIs(keys, s, perm, k);
      FilterGrows(keys, tperm, i, k);
      FilterCount(keys, tperm, k);
      var lo, f := Start(keys, k), Filter(keys, s, k);
      if k == b {
        assert perm'[lo..lo + |f| + 1] == perm[lo..lo + |f|] + [x];
      } else {
        if k < b {
          StartMonotone(keys, k, b);
        } else {
          StartMonotone(keys, b, k);
        }
        assert perm'[lo..lo + |f|] == perm[lo..lo + |f|];
      }
    }
  }

  method CountKeys(keys: seq<int>, max: int) returns (counts: array<int>)
    requires Keyed(keys, max) && max >= 0
    ensures fresh(counts) && counts.Length == max + 2
    ensures forall k :: 0 <= k <= max ==> counts[k] == Count(keys, |keys|, k)
  {
    counts := new int[max + 2](_ => 0);
    for i := 0 to |keys|
      invariant forall k :: 0 <= k <= max ==> counts[k] == Count(keys, i, k)
    {
      counts[keys[i]] := counts[keys[i]] + 1;
    }
  }

  lemma StartStep(keys: seq<int>, k: int)
    requires k > 0
    ensures Start(keys, 0) == 0 && Start(keys, k) == Start(keys, k - 1) + Count(keys, |keys|, k - 1)
  {
  }

  /** Turns the counts into bucket starts, in place. */
  method MakeCsr(keys: seq<int>, max: int, counts: array<int>)
    requires max >= 0 && counts.Length == max + 2
    requires forall k :: 0 <= k <= max ==> counts[k] == Count(keys, |keys|, k)
    modifies counts
    ensures forall k :: 0 <= k <= max + 1 ==> counts[k] == Start(keys, k)
  {
    hide Start, Count;
    StartStep(keys, 1);
    var i := 1;
    while i < max + 1
      invariant 1 <= i <= max + 1
      invariant forall k :: 0 <= k < i ==> counts[k] == Start(keys, k) + Count(keys, |keys|, k)
      invariant forall k :: i <= k <= max ==> counts[k] == Count(keys, |keys|, k)
    {
      StartStep(keys, i);
      counts[i] := counts[i] + counts[i - 1];
      i := i + 1;
    }
    i := max + 1;
    while i > 0
      invariant 0 <= i <= max + 1
      invariant forall k :: 0 <= k < i ==> counts[k] == Start(keys, k) + Count(keys, |keys|, k)
      invariant forall k :: i < k <= max + 1 ==> counts[k] == Start(keys, k)
    {
      StartStep(keys, i);
      counts[i] := counts[i - 1];
      i := i - 1;
    }
    counts[0] := 0;
  }

  method BucketSortKeysInc(keys: seq<int>, max: int, tperm: seq<int>) returns (perm: array<int>)
    requires Keyed(keys, max) && max >= 0 && IsPermutation(tperm, |keys|)
    ensures StablySorted(keys, max, tperm, perm[..])
    ensures IsPermutation(perm[..], |keys|)
    ensures forall p, q :: 0 <= p < q < |keys| ==> keys[perm[..][p]] <= keys[perm[..][q]]
  {
    var counts := CountKeys(keys, max);
    MakeCsr(keys, max, counts);
    perm := new int[|keys|];
    assert tperm[..0] == [];
    NothingPlaced(keys, max, counts[..], perm[..]);
    for ii := 0 to |tperm|
      invariant InRange(tperm[..ii], |keys|) && Cursors(keys, max, tperm[..ii], counts[..])
      invariant forall k :: 0 <= k <= max ==> BucketIs(keys, tperm[..ii], perm[..], k)
    {
      ghost var p, c := perm[..], counts[..];
      var i := tperm[ii];
      PlaceStep(keys, max, tperm, ii, p, c, tperm[..ii + 1], PutAt(p, CursorOf(keys, c, i), i));
      perm[counts[keys[i]]] := i;
      counts[keys[i]] := counts[keys[i]] + 1;
    }
    assert tperm[..|tperm|] == tperm;
    SortedPermutation(keys, max, tperm, perm[..]);
  }
}
