// Matchings that coarsening contracts (Match_RM, Match_HEM and Match_SHEM,
// tools/assignment/metis/match.c).
module Match {
  import opened Finite
  import opened Csrs
  import opened Weighted
  import opened Contraction
  import opened CoarseGraph
  import opened BucketSort

  const UNMATCHED: int := -1

  /** A vertex of an unfinished matching. */
  ghost predicate PartAt(match_: seq<int>, cmap: seq<int>, cn: int, x: int)
    requires |match_| == |cmap| && 0 <= x < |cmap|
  {
    match_[x] != UNMATCHED ==>
      && 0 <= cmap[x] < cn && 0 <= match_[x] < |match_| && match_[match_[x]] == x && cmap[match_[x]] == cmap[x]
      && forall y :: 0 <= y < |cmap| && match_[y] != UNMATCHED && cmap[y] == cmap[x] ==> y == x || y == match_[x]
  }

  /** The matching after the first `i` vertices of `perm` were visited. */
  ghost predicate Partial(match_: seq<int>, cmap: seq<int>, perm: seq<int>, cn: int, i: int) {
    && |match_| == |cmap| && IsPermutation(perm, |cmap|) && 0 <= i <= |perm| && cn >= 0
    && (forall x :: 0 <= x < |cmap| ==> PartAt(match_, cmap, cn, x))
    && (forall j :: 0 <= j < i ==> match_[perm[j]] != UNMATCHED)
    && (forall j :: 0 <= j < i && cmap[perm[j]] > 0 ==> EarlierClass(cmap, perm, j, cmap[perm[j]] - 1))
    && (forall c :: 0 <= c < cn ==> EarlierClass(cmap, perm, i, c))
  }

  lemma PartialFacts(match_: seq<int>, cmap: seq<int>, perm: seq<int>, cn: int, i: int)
    requires Partial(match_, cmap, perm, cn, i)
    ensures |match_| == |cmap| == |perm| && cn >= 0 && InRange(perm, |cmap|) && 0 <= i <= |perm|
    ensures i < |perm| ==> 0 <= perm[i] < |cmap|
  {
  }

  lemma {:induction false} EarlierStays(cmap: seq<int>, cmap': seq<int>, perm: seq<int>, i: int, k: int, c: int)
    requires 0 <= i <= k <= |perm| == |cmap| == |cmap'| && InRange(perm, |cmap|) && EarlierClass(cmap, perm, i, c)
    requires forall j :: 0 <= j < i ==> cmap'[perm[j]] == cmap[perm[j]]
    ensures EarlierClass(cmap', perm, k, c)
  {
    var j :| 0 <= j < i && cmap[perm[j]] == c;
    assert cmap'[perm[j]] == c;
  }

  /** Visiting a vertex that is matched already. */
  lemma {:induction false} SkipStep(match_: seq<int>, cmap: seq<int>, perm: seq<int>, cn: int, i: int)
    requires Partial(match_, cmap, perm, cn, i) && i < |perm| && match_[perm[i]] != UNMATCHED
    ensures Partial(match_, cmap, perm, cn, i + 1)
  {
    assert PartAt(match_, cmap, cn, perm[i]);
    var next := i + 1;
    forall c | 0 <= c < cn
      ensures EarlierClass(cmap, perm, next, c)
    {
      EarlierStays(cmap, cmap, perm, i, next, c);
    }
  }

  /** Visiting an unmatched vertex pairs it with an unmatched one, possibly itself, as a new class. */
  lemma {:induction false} PairStep(match_: seq<int>, cmap: seq<int>, perm: seq<int>, cn: int, i: int, k: int)
    requires Partial(match_, cmap, perm, cn, i) && i < |perm| && 0 <= k < |cmap|
    requires match_[perm[i]] == UNMATCHED && match_[k] == UNMATCHED
    ensures var x := perm[i];
      Partial(match_[x := k][k := x], cmap[x := cn][k := cn], perm, cn + 1, i + 1)
  {
    hide PartAt, EarlierClass;
    var x := perm[i];
    var match', cmap' := match_[x := k][k := x], cmap[x := cn][k := cn];
    var cn' := cn + 1;
    forall j | 0 <= j < i
      ensures cmap'[perm[j]] == cmap[perm[j]] && match'[perm[j]] == match_[perm[j]]
    {
      assert perm[j] != x && match_[perm[j]] != UNMATCHED;
    }
    forall y | 0 <= y < |cmap|
      ensures PartAt(match', cmap', cn', y)
    {
      PairOther(match_, cmap, cn, x, k, y);
    }
    NewClassOrder(cmap, cmap', perm, cn, i, cn', i + 1);
  }

  lemma {:induction false} NewClassOrder(cmap: seq<int>, cmap': seq<int>, perm: seq<int>, cn: int, i: int, cn': int, next: int)
    requires |cmap| == |cmap'| == |perm| && InRange(perm, |cmap|) && 0 <= i < |perm| && cn >= 0 && cmap'[perm[i]] == cn
    requires cn' == cn + 1 && next == i + 1
    requires forall j :: 0 <= j < i ==> cmap'[perm[j]] == cmap[perm[j]]
    requires forall j :: 0 <= j < i && cmap[perm[j]] > 0 ==> EarlierClass(cmap, perm, j, cmap[perm[j]] - 1)
    requires forall c :: 0 <= c < cn ==> EarlierClass(cmap, perm, i, c)
    ensures forall j :: 0 <= j < next && cmap'[perm[j]] > 0 ==> EarlierClass(cmap', perm, j, cmap'[perm[j]] - 1)
    ensures forall c :: 0 <= c < cn' ==> EarlierClass(cmap', perm, next, c)
  {
    forall j | 0 <= j < next && cmap'[perm[j]] > 0
      ensures EarlierClass(cmap', perm, j, cmap'[perm[j]] - 1)
    {
      if j < i {
        EarlierStays(cmap, cmap', perm, j, j, cmap[perm[j]] - 1);
      } else {
        EarlierStays(cmap, cmap', perm, i, i, cn - 1);
      }
    }
    forall c | 0 <= c < cn'
      ensures EarlierClass(cmap', perm, next, c)
    {
      if c < cn {
        EarlierStays(cmap, cmap', perm, i, next, c);
      } else {
        assert cmap'[perm[i]] == cn;
      }
    }
  }

  lemma {:induction false} PairOther(match_: seq<int>, cmap: seq<int>, cn: int, x: int, k: int, y: int)
    requires |match_| == |cmap| && 0 <= x < |cmap| && 0 <= k < |cmap| && 0 <= y < |cmap| && cn >= 0
    requires forall z :: 0 <= z < |cmap| ==> PartAt(match_, cmap, cn, z)
    requires match_[x] == UNMATCHED && match_[k] == UNMATCHED
    ensures PartAt(match_[x := k][k := x], cmap[x := cn][k := cn], cn + 1, y)
  {
    var match', cmap' := match_[x := k][k := x], cmap[x := cn][k := cn];
    assert PartAt(match_, cmap, cn, y);
    forall z | 0 <= z < |cmap| && match'[y] != UNMATCHED && match'[z] != UNMATCHED && cmap'[z] == cmap'[y]
      ensures z == y || z == match'[y]
    {
      assert PartAt(match_, cmap, cn, z);
    }
  }

  /** A finished matching is what contraction relies on. */
  lemma {:induction false} PartialDone(match_: seq<int>, cmap: seq<int>, perm: seq<int>, cn: int)
    requires Partial(match_, cmap, perm, cn, |perm|)
    ensures ValidMatching(|cmap|, match_, cmap, cn) && Numbered(cmap, perm, cn)
  {
    forall x | 0 <= x < |cmap|
      ensures match_[x] != UNMATCHED
    {
      PermutationHitsAll(perm, |cmap|, x);
      var j :| 0 <= j < |perm| && perm[j] == x;
      assert match_[perm[j]] != UNMATCHED;
    }
    forall x | 0 <= x < |cmap|
      ensures ClassOf(match_, cmap, cn, x)
    {
      assert PartAt(match_, cmap, cn, x);
    }
  }

  // ---------------------------------------------------------------- how good the pairs are

  /** The neighbour stored at `j` was still free when `v` was visited, and light enough. */
  ghost predicate FreeThen(g: Graph, match_: seq<int>, cmap: seq<int>, maxvwgt: int, v: int, j: int)
    requires Weighted.Shaped(g) && |match_| == |cmap| == N(g) && 0 <= v < N(g) && 0 <= j < |g.adjwgt|
  {
    var k := g.csr.adjncy[j];
    0 <= k < N(g) && (match_[k] == UNMATCHED || cmap[k] >= cmap[v]) && g.vwgt[v] + g.vwgt[k] <= maxvwgt
  }

  /**
   * The choice made for `v`: itself when no neighbour was free, else a free neighbour - the first
   * one stored, in heavy-edge matching the first one behind a heaviest edge.
   */
  ghost predicate ChoiceAt(g: Graph, match_: seq<int>, cmap: seq<int>, maxvwgt: int, heavy: bool, v: int, at: int)
    requires Weighted.Shaped(g) && |match_| == |cmap| == N(g) && 0 <= v < N(g)
  {
    if match_[v] == v then
      forall j :: First(g.csr, v) <= j < Last(g.csr, v) ==> !FreeThen(g, match_, cmap, maxvwgt, v, j)
    else
      && First(g.csr, v) <= at < Last(g.csr, v) && g.csr.adjncy[at] == match_[v]
      && FreeThen(g, match_, cmap, maxvwgt, v, at)
      && forall j :: First(g.csr, v) <= j < Last(g.csr, v) && FreeThen(g, match_, cmap, maxvwgt, v, j) ==>
           (heavy && g.adjwgt[j] < g.adjwgt[at]) || ((heavy ==> g.adjwgt[j] == g.adjwgt[at]) && at <= j)
  }

  ghost predicate Choice(g: Graph, match_: seq<int>, cmap: seq<int>, maxvwgt: int, heavy: bool, v: int)
    requires Weighted.Shaped(g) && |match_| == |cmap| == N(g) && 0 <= v < N(g)
  {
    exists at :: ChoiceAt(g, match_, cmap, maxvwgt, heavy, v, at)
  }

  /** Whoever opened a class made a choice of that kind. */
  ghost predicate Opens(cmap: seq<int>, perm: seq<int>, i: int)
    requires 0 <= i < |perm| == |cmap| && InRange(perm, |cmap|)
  {
    !EarlierClass(cmap, perm, i, cmap[perm[i]])
  }

  ghost predicate GoodChoices(g: Graph, match_: seq<int>, cmap: seq<int>, perm: seq<int>, maxvwgt: int, heavy: bool, from: int, i: int)
    requires Weighted.Shaped(g) && |match_| == |cmap| == N(g) == |perm| && InRange(perm, |cmap|) && 0 <= from <= i <= |perm|
  {
    forall j :: from <= j < i && Opens(cmap, perm, j) ==> Choice(g, match_, cmap, maxvwgt, heavy, perm[j])
  }

  ghost predicate Island(g: Graph, x: int)
    requires Weighted.Shaped(g) && 0 <= x < N(g)
  {
    First(g.csr, x) == Last(g.csr, x)
  }

  /** `x` was paired by the loop over islands: it is one, or its mate is. */
  ghost predicate WithIsland(g: Graph, match_: seq<int>, x: int)
    requires Weighted.Shaped(g) && |match_| == N(g) && 0 <= x < N(g)
  {
    Island(g, x) || (0 <= match_[x] < N(g) && Island(g, match_[x]))
  }

  ghost predicate EarlyIslands(g: Graph, match_: seq<int>, perm: seq<int>, from: int)
    requires Weighted.Shaped(g) && |match_| == N(g) == |perm| && InRange(perm, N(g)) && 0 <= from <= |perm|
  {
    forall j :: 0 <= j < from ==> WithIsland(g, match_, perm[j])
  }

  /** A finished matching whose pairs from position `from` on were all chosen by scanning rows. */
  ghost predicate Finished(g: Graph, match_: seq<int>, cmap: seq<int>, perm: seq<int>, cn: int, maxvwgt: int, heavy: bool, from: int) {
    && WellFormed(g) && Weighted.Shaped(g) && |match_| == |cmap| == N(g) == |perm| && 0 <= from <= |perm|
    && Partial(match_, cmap, perm, cn, |perm|)
    && GoodChoices(g, match_, cmap, perm, maxvwgt, heavy, from, |perm|)
    && EarlyIslands(g, match_, perm, from)
  }

  /** No two adjacent vertices left alone would fit together. */
  ghost predicate Maximal(g: Graph, match_: seq<int>, maxvwgt: int)
    requires Weighted.Shaped(g) && |match_| == N(g)
  {
    forall x, y :: 0 <= x < N(g) && 0 <= y < N(g) && match_[x] == x && match_[y] == y && y in Row(g.csr, x) ==>
      g.vwgt[x] + g.vwgt[y] > maxvwgt
  }

  ghost predicate Fits(g: Graph, match_: seq<int>, maxvwgt: int, x: int)
    requires Weighted.Shaped(g) && |match_| == N(g) && 0 <= x < N(g)
  {
    0 <= match_[x] < N(g) && match_[x] in Row(g.csr, x) && g.vwgt[x] + g.vwgt[match_[x]] <= maxvwgt
  }

  /** Every pair without an island in it is joined by an edge and light enough. */
  ghost predicate PairsFit(g: Graph, match_: seq<int>, maxvwgt: int)
    requires Weighted.Shaped(g) && |match_| == N(g)
  {
    forall x :: 0 <= x < N(g) && match_[x] != x ==> Fits(g, match_, maxvwgt, x) || WithIsland(g, match_, x)
  }

  /** No two adjacent vertices that stayed alone could have been paired. */
  lemma {:induction false} MaximalMatching(g: Graph, match_: seq<int>, cmap: seq<int>, perm: seq<int>, cn: int, maxvwgt: int, heavy: bool, from: int)
    requires Finished(g, match_, cmap, perm, cn, maxvwgt, heavy, from)
    ensures Maximal(g, match_, maxvwgt)
  {
    forall x, y | 0 <= x < N(g) && 0 <= y < N(g) && match_[x] == x && match_[y] == y && y in Row(g.csr, x)
      ensures g.vwgt[x] + g.vwgt[y] > maxvwgt
    {
      if cmap[x] <= cmap[y] {
        AloneForAReason(g, match_, cmap, perm, cn, maxvwgt, heavy, from, x, y);
      } else {
        RowMutual(g, x, y);
        AloneForAReason(g, match_, cmap, perm, cn, maxvwgt, heavy, from, y, x);
      }
    }
  }

  lemma {:induction false} RowMutual(g: Graph, x: int, y: int)
    requires WellFormed(g) && Weighted.Shaped(g) && 0 <= x < N(g) && 0 <= y < N(g) && y in Row(g.csr, x)
    ensures x in Row(g.csr, y)
  {
    var i :| 0 <= i < |Row(g.csr, x)| && Row(g.csr, x)[i] == y;
    var j := First(g.csr, x) + i;
    assert GoodRow(g, x) && GoodEntry(g, x, j);
    IntoGrows(g, x, j, j, {y});
    IntoGrows(g, x, j + 1, Last(g.csr, x), {y});
    assert SameBothWays(g, x, y);
    if x !in Row(g.csr, y) {
      forall k | First(g.csr, y) <= k < Last(g.csr, y)
        ensures g.csr.adjncy[k] != x
      {
        assert Row(g.csr, y)[k - First(g.csr, y)] == g.csr.adjncy[k];
      }
      IntoEmpty(g, First(g.csr, y), Last(g.csr, y), {x});
    }
  }

  lemma {:induction false} AloneForAReason(g: Graph, match_: seq<int>, cmap: seq<int>, perm: seq<int>, cn: int, maxvwgt: int, heavy: bool,
                                           from: int, x: int, y: int)
    requires Finished(g, match_, cmap, perm, cn, maxvwgt, heavy, from)
    requires 0 <= x < N(g) && 0 <= y < N(g) && match_[x] == x && cmap[x] <= cmap[y] && y in Row(g.csr, x)
    ensures g.vwgt[x] + g.vwgt[y] > maxvwgt
  {
    PermutationHitsAll(perm, |cmap|, x);
    var p :| 0 <= p < |perm| && perm[p] == x;
    assert PartAt(match_, cmap, cn, x);
    forall q | 0 <= q < p
      ensures cmap[perm[q]] != cmap[x]
    {
      assert match_[perm[q]] != UNMATCHED && perm[q] != x;
    }
    assert Choice(g, match_, cmap, maxvwgt, heavy, x);
    var at :| ChoiceAt(g, match_, cmap, maxvwgt, heavy, x, at);
    var i :| 0 <= i < |Row(g.csr, x)| && Row(g.csr, x)[i] == y;
    assert !FreeThen(g, match_, cmap, maxvwgt, x, First(g.csr, x) + i);
  }

  // ---------------------------------------------------------------- the loops

  /** A choice once made stays what it was: later classes only get higher numbers. */
  lemma {:induction false} ChoiceStays(g: Graph, match_: seq<int>, cmap: seq<int>, cn: int, maxvwgt: int, heavy: bool, v: int, x: int, k: int)
    requires Weighted.Shaped(g) && |match_| == |cmap| == N(g) && 0 <= v < N(g) && 0 <= x < N(g) && 0 <= k < N(g)
    requires forall z :: 0 <= z < |cmap| ==> PartAt(match_, cmap, cn, z)
    requires match_[v] != UNMATCHED && match_[x] == UNMATCHED && match_[k] == UNMATCHED
    requires Choice(g, match_, cmap, maxvwgt, heavy, v)
    ensures Choice(g, match_[x := k][k := x], cmap[x := cn][k := cn], maxvwgt, heavy, v)
  {
    var match', cmap' := match_[x := k][k := x], cmap[x := cn][k := cn];
    assert PartAt(match_, cmap, cn, v);
    var at :| ChoiceAt(g, match_, cmap, maxvwgt, heavy, v, at);
    forall j | First(g.csr, v) <= j < Last(g.csr, v)
      ensures FreeThen(g, match', cmap', maxvwgt, v, j) <==> FreeThen(g, match_, cmap, maxvwgt, v, j)
    {
    }
    assert ChoiceAt(g, match', cmap', maxvwgt, heavy, v, at);
  }

  lemma {:induction false} GoodChoicesStay(g: Graph, match_: seq<int>, cmap: seq<int>, perm: seq<int>, cn: int, maxvwgt: int, heavy: bool,
                                           from: int, i: int, k: int)
    requires Weighted.Shaped(g) && |match_| == |cmap| == N(g) == |perm| && 0 <= from <= i < |perm|
    requires Partial(match_, cmap, perm, cn, i) && 0 <= k < N(g) && match_[perm[i]] == UNMATCHED && match_[k] == UNMATCHED
    requires GoodChoices(g, match_, cmap, perm, maxvwgt, heavy, from, i)
    ensures var x := perm[i];
      GoodChoices(g, match_[x := k][k := x], cmap[x := cn][k := cn], perm, maxvwgt, heavy, from, i)
  {
    hide PartAt, Choice;
    var x := perm[i];
    var match', cmap' := match_[x := k][k := x], cmap[x := cn][k := cn];
    forall j | from <= j < i && Opens(cmap', perm, j)
      ensures Choice(g, match', cmap', maxvwgt, heavy, perm[j])
    {
      forall q | 0 <= q <= j
        ensures cmap'[perm[q]] == cmap[perm[q]]
      {
        assert match_[perm[q]] != UNMATCHED && perm[q] != x;
      }
      assert Opens(cmap, perm, j);
      assert match_[perm[j]] != UNMATCHED;
      ChoiceStays(g, match_, cmap, cn, maxvwgt, heavy, perm[j], x, k);
    }
  }

  /** The neighbour stored at `j` is free and light enough. */
  ghost predicate FreeNow(g: Graph, match_: seq<int>, maxvwgt: int, v: int, j: int)
    requires Weighted.Shaped(g) && |match_| == N(g) && 0 <= v < N(g) && 0 <= j < |g.adjwgt|
  {
    var k := g.csr.adjncy[j];
    0 <= k < N(g) && match_[k] == UNMATCHED && g.vwgt[v] + g.vwgt[k] <= maxvwgt
  }

  /** What scanning the row of `i` picks: itself when no neighbour is free, else the first, or the first heaviest one. */
  ghost predicate ChosenNow(g: Graph, match_: seq<int>, maxvwgt: int, heavy: bool, i: int, k: int, at: int)
    requires Weighted.Shaped(g) && |match_| == N(g) && 0 <= i < N(g)
  {
    if k == i then
      forall j :: First(g.csr, i) <= j < Last(g.csr, i) ==> !FreeNow(g, match_, maxvwgt, i, j)
    else
      && First(g.csr, i) <= at < Last(g.csr, i) && g.csr.adjncy[at] == k && FreeNow(g, match_, maxvwgt, i, at)
      && forall j :: First(g.csr, i) <= j < Last(g.csr, i) && FreeNow(g, match_, maxvwgt, i, j) ==>
           (heavy && g.adjwgt[j] < g.adjwgt[at]) || ((heavy ==> g.adjwgt[j] == g.adjwgt[at]) && at <= j)
  }

  /** The scan of Match_RM: the first free neighbour that is light enough. */
  method ScanRandom(g: Graph, match_: array<int>, maxvwgt: int, i: int) returns (maxidx: int, ghost at: int)
    requires WellFormed(g) && Weighted.Shaped(g) && match_.Length == N(g) && 0 <= i < N(g) && match_[i] == UNMATCHED
    ensures 0 <= maxidx < N(g) && match_[maxidx] == UNMATCHED
    ensures ChosenNow(g, match_[..], maxvwgt, false, i, maxidx, at)
  {
    maxidx, at := i, First(g.csr, i);
    for j := First(g.csr, i) to Last(g.csr, i)
      invariant maxidx == i && forall l :: First(g.csr, i) <= l < j ==> !FreeNow(g, match_[..], maxvwgt, i, l)
    {
      EntryFacts(g, i, j);
      if match_[g.csr.adjncy[j]] == UNMATCHED && g.vwgt[i] + g.vwgt[g.csr.adjncy[j]] <= maxvwgt {
        maxidx := g.csr.adjncy[j];
        at := j;
        break;
      }
    }
  }

  /** The scan of Match_HEM: the free neighbour behind the heaviest edge, the first of several. */
  method ScanHeavy(g: Graph, match_: array<int>, maxvwgt: int, i: int) returns (maxidx: int, ghost at: int)
    requires WellFormed(g) && Weighted.Shaped(g) && match_.Length == N(g) && 0 <= i < N(g) && match_[i] == UNMATCHED
    ensures 0 <= maxidx < N(g) && match_[maxidx] == UNMATCHED
    ensures ChosenNow(g, match_[..], maxvwgt, true, i, maxidx, at)
  {
    maxidx, at := i, First(g.csr, i);
    var maxwgt := 0;
    for j := First(g.csr, i) to Last(g.csr, i)
      invariant 0 <= maxidx < N(g) && match_[maxidx] == UNMATCHED
      invariant maxidx == i ==> maxwgt == 0
      invariant maxidx != i ==> First(g.csr, i) <= at < j && g.csr.adjncy[at] == maxidx && maxwgt == g.adjwgt[at] && FreeNow(g, match_[..], maxvwgt, i, at)
      invariant forall l :: First(g.csr, i) <= l < j && FreeNow(g, match_[..], maxvwgt, i, l) ==>
                  maxidx != i && (g.adjwgt[l] < maxwgt || (g.adjwgt[l] == maxwgt && at <= l))
    {
      EntryFacts(g, i, j);
      var k := g.csr.adjncy[j];
      if match_[k] == UNMATCHED && maxwgt < g.adjwgt[j] && g.vwgt[i] + g.vwgt[k] <= maxvwgt {
        maxwgt := g.adjwgt[j];
        maxidx := k;
        at := j;
      }
    }
  }

  lemma EntryFacts(g: Graph, i: int, j: int)
    requires WellFormed(g) && Weighted.Shaped(g) && 0 <= i < N(g) && First(g.csr, i) <= j < Last(g.csr, i)
    ensures 0 <= g.csr.adjncy[j] < N(g) && g.csr.adjncy[j] != i && g.adjwgt[j] > 0 && |g.vwgt| == N(g)
  {
    assert GoodRow(g, i) && GoodEntry(g, i, j);
  }

  /** A choice made among the vertices free now is, once recorded, a choice among those free then. */
  lemma {:induction false} ChoiceMade(g: Graph, match_: seq<int>, cmap: seq<int>, cn: int, maxvwgt: int, heavy: bool, i: int, k: int, at: int)
    requires WellFormed(g) && Weighted.Shaped(g) && |match_| == |cmap| == N(g) && 0 <= i < N(g) && 0 <= k < N(g)
    requires forall z :: 0 <= z < |cmap| ==> PartAt(match_, cmap, cn, z)
    requires match_[i] == UNMATCHED && match_[k] == UNMATCHED
    requires ChosenNow(g, match_, maxvwgt, heavy, i, k, at)
    ensures Choice(g, match_[i := k][k := i], cmap[i := cn][k := cn], maxvwgt, heavy, i)
  {
    var match', cmap' := match_[i := k][k := i], cmap[i := cn][k := cn];
    forall j | First(g.csr, i) <= j < Last(g.csr, i)
      ensures FreeThen(g, match', cmap', maxvwgt, i, j) <==> FreeNow(g, match_, maxvwgt, i, j)
    {
      EntryFacts(g, i, j);
      assert PartAt(match_, cmap, cn, g.csr.adjncy[j]);
    }
    assert ChoiceAt(g, match', cmap', maxvwgt, heavy, i, at);
  }

  /** Recording the choice of an unmatched vertex as a new class keeps the books. */
  lemma {:induction false} VisitStep(g: Graph, match_: seq<int>, cmap: seq<int>, perm: seq<int>, cn: int, maxvwgt: int, heavy: bool,
                                     from: int, i: int, k: int, at: int)
    requires WellFormed(g) && Weighted.Shaped(g) && |match_| == |cmap| == N(g) == |perm| && 0 <= from <= i < |perm|
    requires Partial(match_, cmap, perm, cn, i) && 0 <= k < N(g) && match_[perm[i]] == UNMATCHED && match_[k] == UNMATCHED
    requires GoodChoices(g, match_, cmap, perm, maxvwgt, heavy, from, i)
    requires ChosenNow(g, match_, maxvwgt, heavy, perm[i], k, at)
    ensures var x := perm[i];
      && Partial(match_[x := k][k := x], cmap[x := cn][k := cn], perm, cn + 1, i + 1)
      && GoodChoices(g, match_[x := k][k := x], cmap[x := cn][k := cn], perm, maxvwgt, heavy, from, i + 1)
  {
    hide WellFormed, Weighted.Shaped, Choice, ChosenNow, PartAt;
    PairStep(match_, cmap, perm, cn, i, k);
    GoodChoicesStay(g, match_, cmap, perm, cn, maxvwgt, heavy, from, i, k);
    ChoiceMade(g, match_, cmap, cn, maxvwgt, heavy, perm[i], k, at);
  }

  /** A vertex found matched opens no class. */
  lemma {:induction false} SkipChoices(g: Graph, match_: seq<int>, cmap: seq<int>, perm: seq<int>, cn: int, maxvwgt: int, heavy: bool,
                                       from: int, i: int)
    requires Weighted.Shaped(g) && |match_| == |cmap| == N(g) == |perm| && 0 <= from <= i < |perm|
    requires Partial(match_, cmap, perm, cn, i) && match_[perm[i]] != UNMATCHED
    requires GoodChoices(g, match_, cmap, perm, maxvwgt, heavy, from, i)
    ensures Partial(match_, cmap, perm, cn, i + 1) && GoodChoices(g, match_, cmap, perm, maxvwgt, heavy, from, i + 1)
  {
    assert PartAt(match_, cmap, cn, perm[i]);
    assert EarlierClass(cmap, perm, i, cmap[perm[i]]);
    SkipStep(match_, cmap, perm, cn, i);
  }

  /** Two vertices become the members of a new class. */
  method Pair(match_: array<int>, cmap: array<int>, i: int, maxidx: int, cnvtxs: int)
    requires match_ != cmap && match_.Length == cmap.Length && 0 <= i < match_.Length && 0 <= maxidx < match_.Length
    modifies match_, cmap
    ensures match_[..] == old(match_[..])[i := maxidx][maxidx := i]
    ensures cmap[..] == old(cmap[..])[i := cnvtxs][maxidx := cnvtxs]
  {
    cmap[maxidx] := cnvtxs;
    cmap[i] := cnvtxs;
    match_[i] := maxidx;
    match_[maxidx] := i;
  }

  /** What the unmatched start looks like to the loops. */
  lemma NothingMatched(g: Graph, match_: seq<int>, cmap: seq<int>, perm: seq<int>, maxvwgt: int, heavy: bool)
    requires Weighted.Shaped(g) && |match_| == |cmap| == N(g) && IsPermutation(perm, N(g))
    requires forall x :: 0 <= x < |match_| ==> match_[x] == UNMATCHED
    ensures Partial(match_, cmap, perm, 0, 0) && GoodChoices(g, match_, cmap, perm, maxvwgt, heavy, 0, 0)
  {
  }

  /** The first vertex of a class that `perm` meets made the choice. */
  lemma {:induction false} OpenerExists(match_: seq<int>, cmap: seq<int>, perm: seq<int>, cn: int, x: int) returns (p: int)
    requires Partial(match_, cmap, perm, cn, |perm|) && 0 <= x < |cmap|
    ensures 0 <= match_[x] < |match_| && 0 <= p < |perm| && Opens(cmap, perm, p) && (perm[p] == x || perm[p] == match_[x])
    ensures match_[match_[x]] == x
  {
    PartialDone(match_, cmap, perm, cn);
    assert Contraction.ClassOf(match_, cmap, cn, x);
    PermutationHitsAll(perm, |cmap|, x);
    p :| 0 <= p < |perm| && perm[p] == x;
    while EarlierClass(cmap, perm, p, cmap[x])
      invariant 0 <= p < |perm| && cmap[perm[p]] == cmap[x]
      decreases p
    {
      var q :| 0 <= q < p && cmap[perm[q]] == cmap[x];
      p := q;
    }
  }

  lemma {:induction false} PairFits(g: Graph, match_: seq<int>, cmap: seq<int>, perm: seq<int>, cn: int, maxvwgt: int, heavy: bool, from: int,
                                    x: int)
    requires Finished(g, match_, cmap, perm, cn, maxvwgt, heavy, from) && 0 <= x < N(g) && match_[x] != x
    ensures Fits(g, match_, maxvwgt, x) || (from > 0 && WithIsland(g, match_, x))
  {
    var p := OpenerExists(match_, cmap, perm, cn, x);
    var v := perm[p];
    if p < from {
      assert WithIsland(g, match_, v);
    } else {
      assert Choice(g, match_, cmap, maxvwgt, heavy, v);
      var at :| ChoiceAt(g, match_, cmap, maxvwgt, heavy, v, at);
      assert match_[v] in Row(g.csr, v) by {
        PartStep(g.csr, v, at);
      }
      if v != x {
        RowMutual(g, v, match_[v]);
      }
    }
  }

  /** What every matcher leaves for contraction, whatever order it visited the vertices in. */
  lemma {:induction false} FinishedMatching(g: Graph, match_: seq<int>, cmap: seq<int>, perm: seq<int>, cn: int, maxvwgt: int, heavy: bool, from: int)
    requires Finished(g, match_, cmap, perm, cn, maxvwgt, heavy, from)
    ensures ValidMatching(N(g), match_, cmap, cn) && Numbered(cmap, perm, cn)
    ensures Maximal(g, match_, maxvwgt) && PairsFit(g, match_, maxvwgt)
    ensures from == 0 ==> PairsJoined(g, match_)
  {
    PartialDone(match_, cmap, perm, cn);
    MaximalMatching(g, match_, cmap, perm, cn, maxvwgt, heavy, from);
    forall x | 0 <= x < N(g) && match_[x] != x
      ensures Fits(g, match_, maxvwgt, x) || (from > 0 && WithIsland(g, match_, x))
    {
      PairFits(g, match_, cmap, perm, cn, maxvwgt, heavy, from, x);
    }
  }

  // ---------------------------------------------------------------- the matchers

  /** Who was matched keeps its mate. */
  ghost predicate Extends(match_: seq<int>, match': seq<int>) {
    |match_| == |match'| && forall x :: 0 <= x < |match_| && match_[x] != UNMATCHED ==> match'[x] == match_[x]
  }

  /** The loop of all matchers: visit `perm` from position `from` on and match what is still free. */
  method MatchFrom(g: Graph, match_: array<int>, cmap: array<int>, perm: seq<int>, maxvwgt: int, heavy: bool, from: int, cn0: int) returns (cnvtxs: int)
    requires WellFormed(g) && Weighted.Shaped(g) && match_ != cmap && match_.Length == cmap.Length == N(g) == |perm| && 0 <= from <= |perm|
    requires Partial(match_[..], cmap[..], perm, cn0, from) && EarlyIslands(g, match_[..], perm, from)
    modifies match_, cmap
    ensures Finished(g, match_[..], cmap[..], perm, cnvtxs, maxvwgt, heavy, from)
    ensures Extends(old(match_[..]), match_[..])
  {
    hide WellFormed, Weighted.Shaped, Partial, GoodChoices, EarlyIslands, ChosenNow;
    cnvtxs := cn0;
    NoChoices(g, match_[..], cmap[..], perm, cnvtxs, maxvwgt, heavy, from);
    for ii := from to |perm|
      invariant Partial(match_[..], cmap[..], perm, cnvtxs, ii)
      invariant GoodChoices(g, match_[..], cmap[..], perm, maxvwgt, heavy, from, ii)
      invariant EarlyIslands(g, match_[..], perm, from)
      invariant Extends(old(match_[..]), match_[..])
    {
      PartialFacts(match_[..], cmap[..], perm, cnvtxs, ii);
      var i := perm[ii];
      ghost var m, c := match_[..], cmap[..];
      if match_[i] == UNMATCHED {
        var maxidx;
        ghost var at;
        if heavy {
          maxidx, at := ScanHeavy(g, match_, maxvwgt, i);
        } else {
          maxidx, at := ScanRandom(g, match_, maxvwgt, i);
        }
        VisitStep(g, m, c, perm, cnvtxs, maxvwgt, heavy, from, ii, maxidx, at);
        EarlyStays(g, m, c, perm, cnvtxs, from, ii, i, maxidx);
        Pair(match_, cmap, i, maxidx, cnvtxs);
        cnvtxs := cnvtxs + 1;
      } else {
        SkipChoices(g, m, c, perm, cnvtxs, maxvwgt, heavy, from, ii);
      }
    }
  }

  lemma NoChoices(g: Graph, match_: seq<int>, cmap: seq<int>, perm: seq<int>, cn: int, maxvwgt: int, heavy: bool, from: int)
    requires Weighted.Shaped(g) && |match_| == |cmap| == N(g) == |perm| && 0 <= from <= |perm| && Partial(match_, cmap, perm, cn, from)
    ensures IsPermutation(perm, |cmap|) && GoodChoices(g, match_, cmap, perm, maxvwgt, heavy, from, from)
  {
  }

  lemma EarlyStays(g: Graph, match_: seq<int>, cmap: seq<int>, perm: seq<int>, cn: int, from: int, i: int, x: int, k: int)
    requires Weighted.Shaped(g) && |match_| == |cmap| == N(g) == |perm| && 0 <= from <= i <= |perm| && Partial(match_, cmap, perm, cn, i)
    requires EarlyIslands(g, match_, perm, from) && 0 <= x < N(g) && 0 <= k < N(g) && match_[x] == UNMATCHED && match_[k] == UNMATCHED
    ensures EarlyIslands(g, match_[x := k][k := x], perm, from)
  {
    hide PartAt, EarlierClass;
    forall j | 0 <= j < from
      ensures WithIsland(g, match_[x := k][k := x], perm[j])
    {
      assert match_[perm[j]] != UNMATCHED && WithIsland(g, match_, perm[j]);
    }
  }

  method Match_RM(g: Graph, maxvwgt: int) returns (matching: seq<int>, classes: seq<int>, perm: seq<int>, cnvtxs: int)
    requires WellFormed(g) && Weighted.Shaped(g)
    ensures Finished(g, matching, classes, perm, cnvtxs, maxvwgt, false, 0)
    ensures ValidMatching(N(g), matching, classes, cnvtxs) && Numbered(classes, perm, cnvtxs)
    ensures Maximal(g, matching, maxvwgt) && PairsFit(g, matching, maxvwgt) && PairsJoined(g, matching)
  {
    GraphFacts(g);
    hide WellFormed, Weighted.Shaped, Finished, PairsJoined;
    var match_ := new int[N(g)](_ => UNMATCHED);
    var cmap := new int[N(g)];
    perm := RandomPermute(N(g));
    NothingMatched(g, match_[..], cmap[..], perm, maxvwgt, false);
    cnvtxs := MatchFrom(g, match_, cmap, perm, maxvwgt, false, 0, 0);
    matching, classes := match_[..], cmap[..];
    FinishedMatching(g, matching, classes, perm, cnvtxs, maxvwgt, false, 0);
  }

  method Match_HEM(g: Graph, maxvwgt: int) returns (matching: seq<int>, classes: seq<int>, perm: seq<int>, cnvtxs: int)
    requires WellFormed(g) && Weighted.Shaped(g)
    ensures Finished(g, matching, classes, perm, cnvtxs, maxvwgt, true, 0)
    ensures ValidMatching(N(g), matching, classes, cnvtxs) && Numbered(classes, perm, cnvtxs)
    ensures Maximal(g, matching, maxvwgt) && PairsFit(g, matching, maxvwgt) && PairsJoined(g, matching)
  {
    GraphFacts(g);
    hide WellFormed, Weighted.Shaped, Finished, PairsJoined;
    var match_ := new int[N(g)](_ => UNMATCHED);
    var cmap := new int[N(g)];
    perm := RandomPermute(N(g));
    NothingMatched(g, match_[..], cmap[..], perm, maxvwgt, true);
    cnvtxs := MatchFrom(g, match_, cmap, perm, maxvwgt, true, 0, 0);
    matching, classes := match_[..], cmap[..];
    FinishedMatching(g, matching, classes, perm, cnvtxs, maxvwgt, true, 0);
  }

  // ---------------------------------------------------------------- Match_SHEM

  /** Only pairs with an island in them so far. */
  ghost predicate OnlyIslands(g: Graph, match_: seq<int>)
    requires Weighted.Shaped(g) && |match_| == N(g)
  {
    forall x :: 0 <= x < N(g) && match_[x] != UNMATCHED ==> WithIsland(g, match_, x)
  }

  /** The island at position `j` stayed alone only because every other vertex behind it was taken by an island. */
  ghost predicate Served(g: Graph, match_: seq<int>, perm: seq<int>, j: int)
    requires Weighted.Shaped(g) && |match_| == N(g) == |perm| && InRange(perm, N(g)) && 0 <= j < |perm|
  {
    match_[perm[j]] == perm[j] ==>
      forall q :: j < q < |perm| && !Island(g, perm[q]) ==> match_[perm[q]] != UNMATCHED && WithIsland(g, match_, perm[q])
  }

  ghost predicate IslandsServed(g: Graph, match_: seq<int>, perm: seq<int>, ii: int)
    requires Weighted.Shaped(g) && |match_| == N(g) == |perm| && InRange(perm, N(g)) && 0 <= ii <= |perm|
  {
    && (forall j :: 0 <= j < ii ==> Served(g, match_, perm, j))
    && (forall j :: ii <= j < |perm| ==> match_[perm[j]] != perm[j])
  }

  /** The last vertex behind position `ii` that is free and no island, if there is one. */
  method LastFree(g: Graph, match_: array<int>, perm: seq<int>, ii: int) returns (maxidx: int)
    requires Weighted.Shaped(g) && match_.Length == N(g) && IsPermutation(perm, N(g)) && 0 <= ii < |perm|
    requires match_[perm[ii]] == UNMATCHED && Island(g, perm[ii])
    ensures 0 <= maxidx < N(g) && match_[maxidx] == UNMATCHED
    ensures maxidx == perm[ii] ==> forall q :: ii < q < |perm| && !Island(g, perm[q]) ==> match_[perm[q]] != UNMATCHED
    ensures maxidx != perm[ii] ==> !Island(g, maxidx)
  {
    maxidx := perm[ii];
    var j := |perm| - 1;
    while j > ii
      invariant ii <= j < |perm| && maxidx == perm[ii]
      invariant forall q :: j < q < |perm| && !Island(g, perm[q]) ==> match_[perm[q]] != UNMATCHED
    {
      var k := perm[j];
      if match_[k] == UNMATCHED && First(g.csr, k) < Last(g.csr, k) {
        maxidx := k;
        break;
      }
      j := j - 1;
    }
  }

  lemma {:induction false} IslandStep(g: Graph, match_: seq<int>, cmap: seq<int>, perm: seq<int>, cn: int, ii: int, k: int)
    requires Weighted.Shaped(g) && |match_| == |cmap| == N(g) == |perm| && 0 <= ii < |perm| && Partial(match_, cmap, perm, cn, ii)
    requires OnlyIslands(g, match_) && IslandsServed(g, match_, perm, ii)
    requires match_[perm[ii]] == UNMATCHED && Island(g, perm[ii]) && 0 <= k < N(g) && match_[k] == UNMATCHED
    requires k == perm[ii] ==> forall q :: ii < q < |perm| && !Island(g, perm[q]) ==> match_[perm[q]] != UNMATCHED
    ensures InRange(perm, N(g))
    ensures var i := perm[ii]; OnlyIslands(g, match_[i := k][k := i]) && IslandsServed(g, match_[i := k][k := i], perm, ii + 1)
  {
    hide Partial, Island;
    PartialFacts(match_, cmap, perm, cn, ii);
    var i := perm[ii];
    var match' := match_[i := k][k := i];
    forall x | 0 <= x < N(g) && match'[x] != UNMATCHED
      ensures WithIsland(g, match', x)
    {
      assert match_[x] != UNMATCHED ==> WithIsland(g, match_, x);
    }
    forall j | 0 <= j < ii + 1
      ensures Served(g, match', perm, j)
    {
      VisitedMatched(match_, cmap, perm, cn, ii, j);
      if j < ii {
        assert Served(g, match_, perm, j);
      }
    }
    forall j | ii + 1 <= j < |perm|
      ensures match'[perm[j]] != perm[j]
    {
      Apart(match_, cmap, perm, cn, ii, j);
    }
  }

  lemma Apart(match_: seq<int>, cmap: seq<int>, perm: seq<int>, cn: int, ii: int, j: int)
    requires Partial(match_, cmap, perm, cn, ii) && 0 <= ii < j < |perm|
    ensures 0 <= perm[j] < |cmap| && 0 <= perm[ii] < |cmap| && perm[j] != perm[ii]
  {
  }

  lemma VisitedMatched(match_: seq<int>, cmap: seq<int>, perm: seq<int>, cn: int, ii: int, j: int)
    requires Partial(match_, cmap, perm, cn, ii) && 0 <= j <= ii < |perm|
    ensures |match_| == |cmap| && 0 <= perm[j] < |cmap| && 0 <= perm[ii] < |cmap|
    ensures j < ii ==> match_[perm[j]] != UNMATCHED && perm[j] != perm[ii]
  {
  }

  lemma {:induction false} IslandSkip(g: Graph, match_: seq<int>, cmap: seq<int>, perm: seq<int>, cn: int, ii: int)
    requires Weighted.Shaped(g) && |match_| == |cmap| == N(g) == |perm| && 0 <= ii < |perm| && Partial(match_, cmap, perm, cn, ii)
    requires IslandsServed(g, match_, perm, ii) && match_[perm[ii]] != UNMATCHED
    ensures Partial(match_, cmap, perm, cn, ii + 1) && IslandsServed(g, match_, perm, ii + 1)
  {
    SkipStep(match_, cmap, perm, cn, ii);
  }

  /** The loop over islands; it stops at the first free vertex that has neighbours. */
  method MatchIslands(g: Graph, match_: array<int>, cmap: array<int>, perm: seq<int>) returns (ii: int, cnvtxs: int)
    requires WellFormed(g) && Weighted.Shaped(g) && match_ != cmap && match_.Length == cmap.Length == N(g) == |perm|
    requires IsPermutation(perm, N(g)) && forall x :: 0 <= x < match_.Length ==> match_[x] == UNMATCHED
    modifies match_, cmap
    ensures 0 <= ii <= |perm| && Partial(match_[..], cmap[..], perm, cnvtxs, ii)
    ensures EarlyIslands(g, match_[..], perm, ii) && IslandsServed(g, match_[..], perm, ii)
    ensures ii < |perm| ==> match_[perm[ii]] == UNMATCHED && !Island(g, perm[ii])
  {
    hide WellFormed, Partial, OnlyIslands, IslandsServed, Island;
    ii, cnvtxs := 0, 0;
    NoIslandsYet(g, match_[..], cmap[..], perm);
    while ii < |perm|
      invariant 0 <= ii <= |perm| && Partial(match_[..], cmap[..], perm, cnvtxs, ii)
      invariant OnlyIslands(g, match_[..]) && IslandsServed(g, match_[..], perm, ii)
    {
      PartialFacts(match_[..], cmap[..], perm, cnvtxs, ii);
      var i := perm[ii];
      ghost var m, c := match_[..], cmap[..];
      if match_[i] == UNMATCHED {
        IslandTest(g, i);
        if First(g.csr, i) < Last(g.csr, i) {
          break;
        }
        var maxidx := LastFree(g, match_, perm, ii);
        PairStep(m, c, perm, cnvtxs, ii, maxidx);
        IslandStep(g, m, c, perm, cnvtxs, ii, maxidx);
        Pair(match_, cmap, i, maxidx, cnvtxs);
        cnvtxs := cnvtxs + 1;
      } else {
        IslandSkip(g, m, c, perm, cnvtxs, ii);
      }
      ii := ii + 1;
    }
    VisitedWithIslands(g, match_[..], cmap[..], perm, cnvtxs, ii);
  }

  lemma IslandTest(g: Graph, i: int)
    requires Weighted.Shaped(g) && 0 <= i < N(g)
    ensures Island(g, i) <==> !(First(g.csr, i) < Last(g.csr, i))
  {
  }

  lemma NoIslandsYet(g: Graph, match_: seq<int>, cmap: seq<int>, perm: seq<int>)
    requires Weighted.Shaped(g) && |match_| == |cmap| == N(g) && IsPermutation(perm, N(g))
    requires forall x :: 0 <= x < |match_| ==> match_[x] == UNMATCHED
    ensures Partial(match_, cmap, perm, 0, 0) && OnlyIslands(g, match_) && IslandsServed(g, match_, perm, 0)
  {
  }

  lemma VisitedWithIslands(g: Graph, match_: seq<int>, cmap: seq<int>, perm: seq<int>, cn: int, ii: int)
    requires Weighted.Shaped(g) && |match_| == |cmap| == N(g) == |perm| && 0 <= ii <= |perm|
    requires Partial(match_, cmap, perm, cn, ii) && OnlyIslands(g, match_)
    ensures EarlyIslands(g, match_, perm, ii)
  {
  }

  /** Degrees above `avgdegree` count as `avgdegree`. */
  ghost function Capped(g: Graph, avgdegree: int, x: int): int
    requires Weighted.Shaped(g) && 0 <= x < N(g)
  {
    if Last(g.csr, x) - First(g.csr, x) > avgdegree then avgdegree else Last(g.csr, x) - First(g.csr, x)
  }

  lemma CappedIs(g: Graph, avgdegree: int, x: int)
    requires Weighted.Shaped(g) && 0 <= x < N(g) && avgdegree >= 0
    ensures 0 <= g.csr.xadj[x] <= g.csr.xadj[x + 1] && 0 <= Capped(g, avgdegree, x) <= avgdegree
    ensures Capped(g, avgdegree, x) in {g.csr.xadj[x + 1] - g.csr.xadj[x], avgdegree}
    ensures Capped(g, avgdegree, x) <= g.csr.xadj[x + 1] - g.csr.xadj[x]
  {
    assert RowShaped(g.csr, x);
  }

  ghost function AllCapped(g: Graph, avgdegree: int): (degrees: seq<int>)
    requires Weighted.Shaped(g)
    ensures |degrees| == N(g)
  {
    seq(N(g), x requires 0 <= x < N(g) => Capped(g, avgdegree, x))
  }

  method CappedDegrees(g: Graph, avgdegree: int) returns (degrees: seq<int>)
    requires Weighted.Shaped(g) && avgdegree >= 0
    ensures degrees == AllCapped(g, avgdegree) && Keyed(degrees, avgdegree)
  {
    var a := new int[N(g)];
    for i := 0 to N(g)
      invariant forall x :: 0 <= x < i ==> a[x] == Capped(g, avgdegree, x) && 0 <= a[x] <= avgdegree
    {
      CappedIs(g, avgdegree, i);
      a[i] := if g.csr.xadj[i + 1] - g.csr.xadj[i] > avgdegree then avgdegree else g.csr.xadj[i + 1] - g.csr.xadj[i];
    }
    degrees := a[..];
  }

  ghost predicate SortedByDegree(g: Graph, avgdegree: int, perm: seq<int>)
    requires Weighted.Shaped(g) && InRange(perm, N(g))
  {
    forall p, q :: 0 <= p < q < |perm| ==> Capped(g, avgdegree, perm[p]) <= Capped(g, avgdegree, perm[q])
  }

  /** An island is left alone only when every vertex that has neighbours went to some island. */
  ghost predicate IslandsFirst(g: Graph, match_: seq<int>)
    requires Weighted.Shaped(g) && |match_| == N(g)
  {
    forall x, y :: 0 <= x < N(g) && 0 <= y < N(g) && Island(g, x) && match_[x] == x && !Island(g, y) ==> WithIsland(g, match_, y)
  }

  lemma {:induction false} IslandsComeFirst(g: Graph, avgdegree: int, perm: seq<int>, early: seq<int>, match_: seq<int>, from: int)
    requires Weighted.Shaped(g) && |match_| == |early| == N(g) && IsPermutation(perm, N(g)) && 0 <= from <= |perm| && avgdegree >= 1
    requires SortedByDegree(g, avgdegree, perm) && IslandsServed(g, early, perm, from) && Extends(early, match_)
    requires forall j :: 0 <= j < from ==> early[perm[j]] != UNMATCHED
    requires from < |perm| ==> !Island(g, perm[from])
    ensures IslandsFirst(g, match_)
  {
    forall x, y | 0 <= x < N(g) && 0 <= y < N(g) && Island(g, x) && match_[x] == x && !Island(g, y)
      ensures WithIsland(g, match_, y)
    {
      PermutationHitsAll(perm, N(g), x);
      PermutationHitsAll(perm, N(g), y);
      var p :| 0 <= p < |perm| && perm[p] == x;
      var q :| 0 <= q < |perm| && perm[q] == y;
      assert Capped(g, avgdegree, x) == 0 < Capped(g, avgdegree, y);
      assert p < q && p < from;
      assert Served(g, early, perm, p);
      assert early[y] != UNMATCHED && WithIsland(g, early, y);
    }
  }

  lemma VisitedAreMatched(match_: seq<int>, cmap: seq<int>, perm: seq<int>, cn: int, ii: int)
    requires Partial(match_, cmap, perm, cn, ii)
    ensures IsPermutation(perm, |cmap|) && |match_| == |cmap| && 0 <= ii <= |perm|
    ensures forall j :: 0 <= j < ii ==> match_[perm[j]] != UNMATCHED
  {
  }

  lemma SortedByKeys(g: Graph, avgdegree: int, degrees: seq<int>, perm: seq<int>)
    requires Weighted.Shaped(g) && |degrees| == N(g) && IsPermutation(perm, N(g))
    requires degrees == AllCapped(g, avgdegree)
    requires forall p, q :: 0 <= p < q < N(g) ==> degrees[perm[p]] <= degrees[perm[q]]
    ensures InRange(perm, N(g)) && SortedByDegree(g, avgdegree, perm)
  {
  }

  /**
   * Visits vertices in a stable order of increasing capped degree. Islands are paired with the
   * last free vertices of that order; everything else is paired along heavy edges.
   */
  method Match_SHEM(g: Graph, maxvwgt: int, avgdegree: int)
    returns (matching: seq<int>, classes: seq<int>, perm: seq<int>, cnvtxs: int, ghost from: int, ghost tperm: seq<int>)
    requires WellFormed(g) && Weighted.Shaped(g) && avgdegree >= 0
    ensures Finished(g, matching, classes, perm, cnvtxs, maxvwgt, true, from)
    ensures ValidMatching(N(g), matching, classes, cnvtxs) && Numbered(classes, perm, cnvtxs)
    ensures Maximal(g, matching, maxvwgt) && PairsFit(g, matching, maxvwgt)
    ensures InRange(perm, N(g)) && SortedByDegree(g, avgdegree, perm)
    ensures IsPermutation(tperm, N(g)) && StablySorted(AllCapped(g, avgdegree), avgdegree, tperm, perm)
    ensures avgdegree >= 1 ==> IslandsFirst(g, matching)
  {
    GraphFacts(g);
    hide WellFormed, Weighted.Shaped, Finished, IslandsServed, Island, PairsFit, Maximal, Partial, EarlyIslands, Keyed, IslandsFirst, ValidMatching, Numbered, SortedByDegree, Extends, StablySorted, AllCapped;
    var match_ := new int[N(g)](_ => UNMATCHED);
    var cmap := new int[N(g)];
    var drawn := RandomPermute(N(g));
    tperm := drawn;
    var degrees := CappedDegrees(g, avgdegree);
    var order := BucketSortKeysInc(degrees, avgdegree, drawn);
    perm := order[..];
    SortedByKeys(g, avgdegree, degrees, perm);
    var ii;
    ii, cnvtxs := MatchIslands(g, match_, cmap, perm);
    from := ii;
    ghost var early := match_[..];
    VisitedAreMatched(early, cmap[..], perm, cnvtxs, ii);
    cnvtxs := MatchFrom(g, match_, cmap, perm, maxvwgt, true, ii, cnvtxs);
    matching, classes := match_[..], cmap[..];
    FinishedMatching(g, matching, classes, perm, cnvtxs, maxvwgt, true, from);
    if avgdegree >= 1 {
      IslandsComeFirst(g, avgdegree, perm, early, matching, from);
    }
  }
}
