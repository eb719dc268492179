// Why contracting a matching preserves meaning: any partition of the coarse graph cuts and
// weighs exactly what the partition it induces on the fine graph does.
module Contraction {
  import opened Finite
  import opened Csrs
  import opened Weighted
  import opened CoarseRows

  ghost predicate ClassOf(match_: seq<int>, cmap: seq<int>, cn: int, x: int)
    requires |match_| == |cmap| && 0 <= x < |cmap|
  {
    && 0 <= cmap[x] < cn && 0 <= match_[x] < |match_| && match_[match_[x]] == x
    && forall y :: 0 <= y < |cmap| ==> (cmap[y] == cmap[x] <==> y == x || y == match_[x])
  }

  /** `match_` is an involution and `cmap` numbers its pairs and singletons. */
  ghost predicate ValidMatching(n: int, match_: seq<int>, cmap: seq<int>, cn: int) {
    && |match_| == |cmap| == n && cn >= 0
    && forall x :: 0 <= x < n ==> ClassOf(match_, cmap, cn, x)
  }

  ghost predicate RowIs(cg: Graph, c: int, r: Row)
    requires Weighted.Shaped(cg) && 0 <= c < N(cg)
  {
    && cg.csr.adjncy[First(cg.csr, c)..Last(cg.csr, c)] == r.keys
    && cg.adjwgt[First(cg.csr, c)..Last(cg.csr, c)] == r.wgts
  }

  /** Coarse vertex `c` is what the pair of `rep[c]` contracts to. */
  ghost predicate CoarseAt(g: Graph, match_: seq<int>, cmap: seq<int>, rep: seq<int>, cg: Graph, c: int)
    requires WellFormed(g) && |match_| == |cmap| == N(g) && Weighted.Shaped(cg) && N(cg) == |rep| && 0 <= c < |rep|
  {
    && 0 <= rep[c] < N(g) && cmap[rep[c]] == c && 0 <= match_[rep[c]] < N(g)
    && var v, u := rep[c], match_[rep[c]];
    && RowIs(cg, c, CoarseRow(g, cmap, v, u, c))
    && cg.vwgt[c] == g.vwgt[v] + if u == v then 0 else g.vwgt[u]
  }

  ghost predicate IsCoarse(g: Graph, match_: seq<int>, cmap: seq<int>, rep: seq<int>, cg: Graph) {
    && WellFormed(g) && ValidMatching(N(g), match_, cmap, |rep|)
    && Weighted.Shaped(cg) && N(cg) == |rep|
    && forall c :: 0 <= c < |rep| ==> CoarseAt(g, match_, cmap, rep, cg, c)
  }

  lemma CoarseFacts(g: Graph, match_: seq<int>, cmap: seq<int>, rep: seq<int>, cg: Graph, c: int)
    requires IsCoarse(g, match_, cmap, rep, cg) && 0 <= c < |rep|
    ensures WellFormed(g) && Weighted.Shaped(g) && Weighted.Shaped(cg) && N(cg) == |rep| && |match_| == |cmap| == N(g)
    ensures forall x :: 0 <= x < N(g) ==> 0 <= cmap[x] < |rep|
    ensures CoarseAt(g, match_, cmap, rep, cg, c)
    ensures var v := rep[c];
      && 0 <= v < N(g) && 0 <= match_[v] < N(g)
      && forall y :: 0 <= y < N(g) ==> (cmap[y] == c <==> y == v || y == match_[v])
  {
    assert CoarseAt(g, match_, cmap, rep, cg, c);
    assert ClassOf(match_, cmap, |rep|, rep[c]);
    forall x | 0 <= x < N(g)
      ensures 0 <= cmap[x] < |rep|
    {
      assert ClassOf(match_, cmap, |rep|, x);
    }
  }

  // ---------------------------------------------------------------- degrees of the coarse graph

  lemma {:induction false} SliceInto(cg: Graph, r: Row, lo: int, n: int, s: set<int>)
    requires Weighted.Shaped(cg) && 0 <= lo <= lo + n <= |cg.adjwgt| && |r.keys| == |r.wgts| && 0 <= n <= |r.keys|
    requires forall i :: 0 <= i < n ==> cg.csr.adjncy[lo + i] == r.keys[i] && cg.adjwgt[lo + i] == r.wgts[i]
    ensures Into(cg, lo, lo + n, s) == RowInto(r, n, s)
  {
    if n > 0 {
      SliceInto(cg, r, lo, n - 1, s);
      assert cg.csr.adjncy[lo + (n - 1)] == r.keys[n - 1] && cg.adjwgt[lo + (n - 1)] == r.wgts[n - 1];
    }
  }

  lemma {:induction false} RowIsDeg(cg: Graph, c: int, r: Row, s: set<int>)
    requires Weighted.Shaped(cg) && 0 <= c < N(cg) && RowIs(cg, c, r)
    ensures |r.keys| == |r.wgts| == Last(cg.csr, c) - First(cg.csr, c)
    ensures Deg(cg, c, s) == Total(r, s)
  {
    var lo, hi := First(cg.csr, c), Last(cg.csr, c);
    assert |cg.csr.adjncy[lo..hi]| == hi - lo == |cg.adjwgt[lo..hi]|;
    forall i | 0 <= i < hi - lo
      ensures cg.csr.adjncy[lo + i] == r.keys[i] && cg.adjwgt[lo + i] == r.wgts[i]
    {
      assert cg.csr.adjncy[lo..hi][i] == r.keys[i] && cg.adjwgt[lo..hi][i] == r.wgts[i];
    }
    SliceInto(cg, r, lo, hi - lo, s);
  }

  /** The weight from a coarse vertex into other coarse vertices is the fine weight between them. */
  lemma {:induction false} CoarseDeg(g: Graph, match_: seq<int>, cmap: seq<int>, rep: seq<int>, cg: Graph, c: int, s: set<int>)
    requires IsCoarse(g, match_, cmap, rep, cg) && 0 <= c < |rep| && c !in s
    ensures Weighted.Shaped(cg) && c < N(cg) && Weighted.Shaped(g) && |cmap| == N(g) && 0 <= rep[c] < N(g) && |match_| == N(g) && 0 <= match_[rep[c]] < N(g)
    ensures Deg(cg, c, s) == Deg(g, rep[c], Pre(cmap, s)) + if match_[rep[c]] == rep[c] then 0 else Deg(g, match_[rep[c]], Pre(cmap, s))
  {
    CoarseFacts(g, match_, cmap, rep, cg, c);
    var v, u := rep[c], match_[rep[c]];
    CoarseRowTotal(g, cmap, v, u, c, |rep|, s);
    RowIsDeg(cg, c, CoarseRow(g, cmap, v, u, c), s);
  }

  lemma {:induction false} RowEntriesGood(cg: Graph, c: int, r: Row)
    requires Weighted.Shaped(cg) && 0 <= c < N(cg) && RowIs(cg, c, r)
    requires ValidRow(r, N(cg)) && c !in r.keys
    ensures GoodRow(cg, c)
  {
    var lo, hi := First(cg.csr, c), Last(cg.csr, c);
    forall j | lo <= j < hi
      ensures GoodEntry(cg, c, j)
    {
      assert cg.csr.adjncy[lo..hi][j - lo] == r.keys[j - lo] && cg.adjwgt[lo..hi][j - lo] == r.wgts[j - lo];
      assert r.keys[j - lo] in r.keys;
    }
  }

  /** Entries of a coarse row: in range, positive, never back to the vertex, no neighbour twice. */
  lemma {:induction false} CoarseEntries(g: Graph, match_: seq<int>, cmap: seq<int>, rep: seq<int>, cg: Graph, c: int)
    requires IsCoarse(g, match_, cmap, rep, cg) && 0 <= c < |rep|
    ensures Weighted.Shaped(cg) && c < N(cg) && GoodRow(cg, c)
    ensures Distinct(cg.csr.adjncy[First(cg.csr, c)..Last(cg.csr, c)])
    ensures cg.vwgt[c] >= 0
  {
    hide WellFormed, IsCoarse, CoarseRow;
    CoarseFacts(g, match_, cmap, rep, cg, c);
    var v, u := rep[c], match_[rep[c]];
    CoarseRowTotal(g, cmap, v, u, c, |rep|, {});
    CoarseRowNoLoop(g, cmap, v, u, c, |rep|);
    NonNegativeWeight(g, v);
    NonNegativeWeight(g, u);
    RowEntriesGood(cg, c, CoarseRow(g, cmap, v, u, c));
  }

  lemma NonNegativeWeight(g: Graph, v: int)
    requires WellFormed(g) && 0 <= v < N(g)
    ensures Weighted.Shaped(g) && g.vwgt[v] >= 0
  {
    assert GoodRow(g, v);
  }

  /** The weight between two pairs, written out. */
  lemma {:induction false} PairDeg(g: Graph, x: int, cmap: seq<int>, c: int, v: int, u: int)
    requires WellFormed(g) && |cmap| == N(g) && 0 <= x < N(g) && 0 <= v < N(g) && 0 <= u < N(g)
    requires forall y :: 0 <= y < N(g) ==> (cmap[y] == c <==> y == v || y == u)
    ensures Deg(g, x, Pre(cmap, {c})) == Deg(g, x, {v}) + if u == v then 0 else Deg(g, x, {u})
  {
    if u == v {
      assert Pre(cmap, {c}) == {v};
    } else {
      assert Pre(cmap, {c}) == {v} + {u};
      DegSplit(g, x, {v}, {u});
    }
  }

  lemma {:induction false} CoarseSymmetric(g: Graph, match_: seq<int>, cmap: seq<int>, rep: seq<int>, cg: Graph, a: int, b: int)
    requires IsCoarse(g, match_, cmap, rep, cg) && 0 <= a < |rep| && 0 <= b < |rep|
    ensures Weighted.Shaped(cg) && a < N(cg) && b < N(cg) && SameBothWays(cg, a, b)
  {
    hide WellFormed, IsCoarse, CoarseAt;
    CoarseFacts(g, match_, cmap, rep, cg, a);
    CoarseFacts(g, match_, cmap, rep, cg, b);
    if a != b {
      var v, u, x, y := rep[a], match_[rep[a]], rep[b], match_[rep[b]];
      CoarseDeg(g, match_, cmap, rep, cg, a, {b});
      CoarseDeg(g, match_, cmap, rep, cg, b, {a});
      PairDeg(g, v, cmap, b, x, y);
      PairDeg(g, u, cmap, b, x, y);
      PairDeg(g, x, cmap, a, v, u);
      PairDeg(g, y, cmap, a, v, u);
      Both(g, v, x);
      Both(g, v, y);
      Both(g, u, x);
      Both(g, u, y);
    }
  }

  lemma Both(g: Graph, u: int, v: int)
    requires WellFormed(g) && Weighted.Shaped(g) && 0 <= u < N(g) && 0 <= v < N(g)
    ensures Deg(g, u, {v}) == Deg(g, v, {u})
  {
    assert SameBothWays(g, u, v);
  }

  /** The coarse graph is again symmetric, loop-free and positively weighted, and has no duplicates. */
  lemma {:induction false} CoarseWellFormed(g: Graph, match_: seq<int>, cmap: seq<int>, rep: seq<int>, cg: Graph)
    requires IsCoarse(g, match_, cmap, rep, cg)
    ensures WellFormed(cg)
    ensures forall c :: 0 <= c < N(cg) ==> Distinct(cg.csr.adjncy[First(cg.csr, c)..Last(cg.csr, c)])
  {
    forall c | 0 <= c < N(cg)
      ensures GoodRow(cg, c) && cg.vwgt[c] >= 0 && Distinct(cg.csr.adjncy[First(cg.csr, c)..Last(cg.csr, c)])
    {
      CoarseEntries(g, match_, cmap, rep, cg, c);
    }
    forall a, b | 0 <= a < N(cg) && 0 <= b < N(cg)
      ensures SameBothWays(cg, a, b)
    {
      CoarseSymmetric(g, match_, cmap, rep, cg, a, b);
    }
  }

  // ---------------------------------------------------------------- regrouping sums by class

  /** The values of the vertices below `k` whose class is below `c`, summed. */
  ghost function ClassSum(vals: seq<int>, cmap: seq<int>, c: int, k: int): int
    requires |vals| == |cmap| && 0 <= k <= |vals|
  {
    if k == 0 then 0 else ClassSum(vals, cmap, c, k - 1) + if cmap[k - 1] < c then vals[k - 1] else 0
  }

  lemma {:induction false} ClassSumNone(vals: seq<int>, cmap: seq<int>, c: int, k: int)
    requires |vals| == |cmap| && 0 <= k <= |vals| && forall x :: 0 <= x < k ==> cmap[x] >= c
    ensures ClassSum(vals, cmap, c, k) == 0
  {
    if k > 0 {
      ClassSumNone(vals, cmap, c, k - 1);
    }
  }

  /** Admitting one more class adds the values of its one or two members. */
  lemma {:induction false} ClassSumStep(vals: seq<int>, cmap: seq<int>, c: int, k: int, v: int, u: int)
    requires |vals| == |cmap| && 0 <= k <= |vals| && 0 <= v < |vals| && 0 <= u < |vals|
    requires forall y :: 0 <= y < |vals| ==> (cmap[y] == c <==> y == v || y == u)
    ensures ClassSum(vals, cmap, c + 1, k) == ClassSum(vals, cmap, c, k)
      + (if v < k then vals[v] else 0) + (if u < k && u != v then vals[u] else 0)
  {
    if k > 0 {
      ClassSumStep(vals, cmap, c, k - 1, v, u);
    }
  }

  // ---------------------------------------------------------------- cut and weights

  /** The fine partition that a coarse one induces. */
  ghost function Induced(cmap: seq<int>, cw: seq<int>): seq<int>
    requires forall x :: 0 <= x < |cmap| ==> 0 <= cmap[x] < |cw|
  {
    seq(|cmap|, x requires 0 <= x < |cmap| => cw[cmap[x]])
  }

  ghost function Eds(g: Graph, where: seq<int>): seq<int>
    requires Weighted.Shaped(g) && |where| == N(g)
  {
    seq(N(g), x requires 0 <= x < N(g) => Ed(g, where, x))
  }

  ghost function Weights(g: Graph, where: seq<int>, p: int): seq<int>
    requires Weighted.Shaped(g) && |where| == N(g)
  {
    seq(N(g), x requires 0 <= x < N(g) => if where[x] == p then g.vwgt[x] else 0)
  }

  lemma {:induction false} EdSumAsClassSum(g: Graph, where: seq<int>, cmap: seq<int>, cn: int, k: int)
    requires Weighted.Shaped(g) && |where| == |cmap| == N(g) && 0 <= k <= N(g)
    requires forall x :: 0 <= x < N(g) ==> cmap[x] < cn
    ensures EdSum(g, where, k) == ClassSum(Eds(g, where), cmap, cn, k)
  {
    if k > 0 {
      EdSumAsClassSum(g, where, cmap, cn, k - 1);
    }
  }

  lemma {:induction false} PartWeightAsClassSum(g: Graph, where: seq<int>, p: int, cmap: seq<int>, cn: int, k: int)
    requires Weighted.Shaped(g) && |where| == |cmap| == N(g) && 0 <= k <= N(g)
    requires forall x :: 0 <= x < N(g) ==> cmap[x] < cn
    ensures PartWeight(g, where, p, k) == ClassSum(Weights(g, where, p), cmap, cn, k)
  {
    if k > 0 {
      PartWeightAsClassSum(g, where, p, cmap, cn, k - 1);
    }
  }

  /** The external degree of a coarse vertex is that of its members together. */
  lemma {:induction false} CoarseEd(g: Graph, match_: seq<int>, cmap: seq<int>, rep: seq<int>, cg: Graph, cw: seq<int>, c: int)
    requires IsCoarse(g, match_, cmap, rep, cg) && |cw| == |rep| && 0 <= c < |rep|
    ensures Weighted.Shaped(cg) && N(cg) == |cw| && Weighted.Shaped(g) && |cmap| == N(g) == |match_|
    ensures forall x :: 0 <= x < |cmap| ==> 0 <= cmap[x] < |cw|
    ensures 0 <= rep[c] < N(g) && 0 <= match_[rep[c]] < N(g)
    ensures var v, u := rep[c], match_[rep[c]];
      Ed(cg, cw, c) == Ed(g, Induced(cmap, cw), v) + if u == v then 0 else Ed(g, Induced(cmap, cw), u)
  {
    hide WellFormed, IsCoarse, CoarseAt, Deg;
    CoarseFacts(g, match_, cmap, rep, cg, c);
    var v, u := rep[c], match_[rep[c]];
    var s := Others(cw, cw[c]);
    CoarseDeg(g, match_, cmap, rep, cg, c, s);
    assert Pre(cmap, s) == Others(Induced(cmap, cw), cw[c]);
    assert cmap[u] == c;
  }

  lemma {:induction false} EdSumPreserved(g: Graph, match_: seq<int>, cmap: seq<int>, rep: seq<int>, cg: Graph, cw: seq<int>, c: int)
    requires IsCoarse(g, match_, cmap, rep, cg) && |cw| == |rep| && 0 <= c <= |rep|
    ensures Weighted.Shaped(cg) && N(cg) == |cw| && Weighted.Shaped(g) && |cmap| == N(g)
    ensures forall x :: 0 <= x < |cmap| ==> 0 <= cmap[x] < |cw|
    ensures EdSum(cg, cw, c) == ClassSum(Eds(g, Induced(cmap, cw)), cmap, c, N(g))
  {
    forall x | 0 <= x < |cmap|
      ensures 0 <= cmap[x] < |cw|
    {
      assert ClassOf(match_, cmap, |rep|, x);
    }
    hide WellFormed, Weighted.Shaped, CoarseAt, Deg, Ed;
    var vals := Eds(g, Induced(cmap, cw));
    if c == 0 {
      ClassSumNone(vals, cmap, 0, N(g));
    } else {
      EdSumPreserved(g, match_, cmap, rep, cg, cw, c - 1);
      CoarseFacts(g, match_, cmap, rep, cg, c - 1);
      CoarseEd(g, match_, cmap, rep, cg, cw, c - 1);
      ClassSumStep(vals, cmap, c - 1, N(g), rep[c - 1], match_[rep[c - 1]]);
    }
  }

  lemma {:induction false} WeightSumPreserved(g: Graph, match_: seq<int>, cmap: seq<int>, rep: seq<int>, cg: Graph, cw: seq<int>, p: int, c: int)
    requires IsCoarse(g, match_, cmap, rep, cg) && |cw| == |rep| && 0 <= c <= |rep|
    ensures Weighted.Shaped(cg) && N(cg) == |cw| && Weighted.Shaped(g) && |cmap| == N(g)
    ensures forall x :: 0 <= x < |cmap| ==> 0 <= cmap[x] < |cw|
    ensures PartWeight(cg, cw, p, c) == ClassSum(Weights(g, Induced(cmap, cw), p), cmap, c, N(g))
  {
    forall x | 0 <= x < |cmap|
      ensures 0 <= cmap[x] < |cw|
    {
      assert ClassOf(match_, cmap, |rep|, x);
    }
    var vals := Weights(g, Induced(cmap, cw), p);
    if c == 0 {
      ClassSumNone(vals, cmap, 0, N(g));
    } else {
      WeightSumPreserved(g, match_, cmap, rep, cg, cw, p, c - 1);
      CoarseFacts(g, match_, cmap, rep, cg, c - 1);
      ClassSumStep(vals, cmap, c - 1, N(g), rep[c - 1], match_[rep[c - 1]]);
      assert cmap[match_[rep[c - 1]]] == c - 1;
    }
  }

  /**
   * Contraction preserves meaning: for every partition of the coarse graph, cut and part weights
   * are those of the induced fine partition.
   */
  lemma {:induction false} ContractionPreserves(g: Graph, match_: seq<int>, cmap: seq<int>, rep: seq<int>, cg: Graph, cw: seq<int>)
    requires IsCoarse(g, match_, cmap, rep, cg) && |cw| == |rep|
    ensures Weighted.Shaped(cg) && N(cg) == |cw| && Weighted.Shaped(g) && |cmap| == N(g)
    ensures forall x :: 0 <= x < |cmap| ==> 0 <= cmap[x] < |cw|
    ensures Cut(cg, cw) == Cut(g, Induced(cmap, cw))
    ensures forall p :: PartWeight(cg, cw, p, N(cg)) == PartWeight(g, Induced(cmap, cw), p, N(g))
  {
    EdSumPreserved(g, match_, cmap, rep, cg, cw, |rep|);
    EdSumAsClassSum(g, Induced(cmap, cw), cmap, |rep|, N(g));
    forall p
      ensures PartWeight(cg, cw, p, N(cg)) == PartWeight(g, Induced(cmap, cw), p, N(g))
    {
      WeightSumPreserved(g, match_, cmap, rep, cg, cw, p, |rep|);
      PartWeightAsClassSum(g, Induced(cmap, cw), p, cmap, |rep|, N(g));
    }
  }
}
