// Weighted graphs in compressed row form, and what a partition of one weighs and cuts
// (the recomputations of tools/assignment/metis/debug.c).
module Weighted {
  import opened Finite
  import opened Csrs

  datatype Graph = Graph(csr: Csr, adjwgt: seq<int>, vwgt: seq<int>)

  function N(g: Graph): int {
    Size(g.csr)
  }

  ghost predicate Shaped(g: Graph) {
    Csrs.Shaped(g.csr) && |g.adjwgt| == |g.csr.adjncy| && |g.vwgt| == N(g)
  }

  /** The weight of the entries lo..hi that lead into `s`. */
  ghost function Into(g: Graph, lo: int, hi: int, s: set<int>): int
    requires Shaped(g) && 0 <= lo <= hi <= |g.adjwgt|
    decreases hi - lo
  {
    if lo == hi then 0 else Into(g, lo, hi - 1, s) + if g.csr.adjncy[hi - 1] in s then g.adjwgt[hi - 1] else 0
  }

  /** The weight of the edges from `u` into `s`. */
  ghost function Deg(g: Graph, u: int, s: set<int>): int
    requires Shaped(g) && 0 <= u < N(g)
  {
    Into(g, First(g.csr, u), Last(g.csr, u), s)
  }

  ghost predicate GoodEntry(g: Graph, u: int, j: int)
    requires Shaped(g) && 0 <= j < |g.adjwgt|
  {
    0 <= g.csr.adjncy[j] < N(g) && g.csr.adjncy[j] != u && g.adjwgt[j] > 0
  }

  ghost predicate GoodRow(g: Graph, u: int)
    requires Shaped(g) && 0 <= u < N(g)
  {
    forall j :: First(g.csr, u) <= j < Last(g.csr, u) ==> GoodEntry(g, u, j)
  }

  ghost predicate SameBothWays(g: Graph, u: int, v: int)
    requires Shaped(g) && 0 <= u < N(g) && 0 <= v < N(g)
  {
    Deg(g, u, {v}) == Deg(g, v, {u})
  }

  /** No loops, positive edge weights, the same weight in both directions. */
  ghost predicate WellFormed(g: Graph) {
    && Shaped(g)
    && (forall u :: 0 <= u < N(g) ==> GoodRow(g, u) && g.vwgt[u] >= 0)
    && (forall u, v :: 0 <= u < N(g) && 0 <= v < N(g) ==> SameBothWays(g, u, v))
  }

  // ---------------------------------------------------------------- degrees

  lemma {:induction false} IntoSplit(g: Graph, lo: int, hi: int, s: set<int>, t: set<int>)
    requires Shaped(g) && 0 <= lo <= hi <= |g.adjwgt| && s !! t
    ensures Into(g, lo, hi, s + t) == Into(g, lo, hi, s) + Into(g, lo, hi, t)
    decreases hi - lo
  {
    if lo < hi {
      IntoSplit(g, lo, hi - 1, s, t);
    }
  }

  lemma DegSplit(g: Graph, u: int, s: set<int>, t: set<int>)
    requires Shaped(g) && 0 <= u < N(g) && s !! t
    ensures Deg(g, u, s + t) == Deg(g, u, s) + Deg(g, u, t)
  {
    IntoSplit(g, First(g.csr, u), Last(g.csr, u), s, t);
  }

  lemma {:induction false} IntoEmpty(g: Graph, lo: int, hi: int, s: set<int>)
    requires Shaped(g) && 0 <= lo <= hi <= |g.adjwgt|
    requires forall j :: lo <= j < hi ==> g.csr.adjncy[j] !in s
    ensures Into(g, lo, hi, s) == 0
    decreases hi - lo
  {
    if lo < hi {
      IntoEmpty(g, lo, hi - 1, s);
    }
  }

  lemma DegEmpty(g: Graph, u: int)
    requires Shaped(g) && 0 <= u < N(g)
    ensures Deg(g, u, {}) == 0
  {
    IntoEmpty(g, First(g.csr, u), Last(g.csr, u), {});
  }

  lemma DegSelf(g: Graph, u: int)
    requires WellFormed(g) && 0 <= u < N(g)
    ensures Deg(g, u, {u}) == 0
  {
    assert GoodRow(g, u);
    forall j | First(g.csr, u) <= j < Last(g.csr, u)
      ensures g.csr.adjncy[j] != u
    {
      assert GoodEntry(g, u, j);
    }
    IntoEmpty(g, First(g.csr, u), Last(g.csr, u), {u});
  }

  /** Prefixes of a row only grow, and strictly where they hit `s`. */
  lemma {:induction false} IntoGrows(g: Graph, u: int, mid: int, hi: int, s: set<int>)
    requires WellFormed(g) && 0 <= u < N(g) && First(g.csr, u) <= mid <= hi <= Last(g.csr, u)
    ensures 0 <= Into(g, First(g.csr, u), mid, s) <= Into(g, First(g.csr, u), hi, s)
    decreases hi
  {
    assert GoodRow(g, u);
    if First(g.csr, u) < hi {
      assert GoodEntry(g, u, hi - 1);
      if mid == hi {
        IntoGrows(g, u, mid - 1, hi - 1, s);
      } else {
        IntoGrows(g, u, mid, hi - 1, s);
      }
    }
  }

  lemma DegNonNegative(g: Graph, u: int, s: set<int>)
    requires WellFormed(g) && 0 <= u < N(g)
    ensures Deg(g, u, s) >= 0
  {
    IntoGrows(g, u, Last(g.csr, u), Last(g.csr, u), s);
  }

  // ---------------------------------------------------------------- partitions

  /** The vertices on one side, among those below `k`. */
  ghost function Side(where: seq<int>, p: int, k: int): set<int>
    requires 0 <= k <= |where|
  {
    set u | u in Range(0, k) && where[u] == p
  }

  ghost function Others(where: seq<int>, p: int): set<int> {
    set u | u in Range(0, |where|) && where[u] != p
  }

  /** External and internal degree of `u`. */
  ghost function Ed(g: Graph, where: seq<int>, u: int): int
    requires Shaped(g) && |where| == N(g) && 0 <= u < N(g)
  {
    Deg(g, u, Others(where, where[u]))
  }

  ghost function Id(g: Graph, where: seq<int>, u: int): int
    requires Shaped(g) && |where| == N(g) && 0 <= u < N(g)
  {
    Deg(g, u, Side(where, where[u], N(g)))
  }

  /** The external degrees of the vertices below `k`, summed. */
  ghost function EdSum(g: Graph, where: seq<int>, k: int): int
    requires Shaped(g) && |where| == N(g) && 0 <= k <= N(g)
  {
    if k == 0 then 0 else EdSum(g, where, k - 1) + Ed(g, where, k - 1)
  }

  /** The cut, recomputed from scratch: every cut edge is met from both ends. */
  ghost function Cut(g: Graph, where: seq<int>): int
    requires Shaped(g) && |where| == N(g)
  {
    EdSum(g, where, N(g)) / 2
  }

  ghost function PartWeight(g: Graph, where: seq<int>, p: int, k: int): int
    requires Shaped(g) && |where| == N(g) && 0 <= k <= N(g)
  {
    if k == 0 then 0 else PartWeight(g, where, p, k - 1) + if where[k - 1] == p then g.vwgt[k - 1] else 0
  }

  // ---------------------------------------------------------------- moving one vertex

  /** How one vertex sees the move of `v` from its side to `to`. */
  lemma {:induction false} EdAfterMove(g: Graph, where: seq<int>, v: int, to: int, u: int)
    requires WellFormed(g) && |where| == N(g) && 0 <= v < N(g) && 0 <= u < N(g) && where[v] != to
    ensures var from, where' := where[v], where[v := to];
      Ed(g, where', u) == Ed(g, where, u) +
        if u == v then Id(g, where, v) - Deg(g, v, Side(where, to, N(g)))
        else if where[u] == from then Deg(g, v, {u})
        else if where[u] == to then -Deg(g, v, {u})
        else 0
  {
    assert SameBothWays(g, u, v);
    var from, where' := where[v], where[v := to];
    if u == v {
      var rest := Others(where, from) - Side(where, to, N(g));
      assert rest + Side(where, to, N(g)) == Others(where, from);
      DegSplit(g, v, rest, Side(where, to, N(g)));
      var mine := Side(where, from, N(g)) - {v};
      assert mine + {v} == Side(where, from, N(g));
      DegSplit(g, v, mine, {v});
      DegSelf(g, v);
      assert rest + mine == Others(where', to);
      DegSplit(g, v, rest, mine);
    } else if where[u] == from {
      assert Others(where', from) == Others(where, from) + {v};
      DegSplit(g, u, Others(where, from), {v});
    } else if where[u] == to {
      assert Others(where, to) == Others(where', to) + {v};
      DegSplit(g, u, Others(where', to), {v});
    } else {
      assert Others(where', where[u]) == Others(where, where[u]);
    }
  }

  lemma {:induction false} EdPlusId(g: Graph, where: seq<int>, u: int)
    requires WellFormed(g) && |where| == N(g) && 0 <= u < N(g)
    ensures Ed(g, where, u) + Id(g, where, u) == Deg(g, u, Range(0, N(g)))
  {
    assert Others(where, where[u]) + Side(where, where[u], N(g)) == Range(0, N(g));
    DegSplit(g, u, Others(where, where[u]), Side(where, where[u], N(g)));
  }

  /** Summed over all vertices, the neighbours' changes mirror the mover's own row. */
  lemma {:induction false} EdSumAfterMove(g: Graph, where: seq<int>, v: int, to: int, k: int)
    requires WellFormed(g) && Shaped(g) && |where| == N(g) && 0 <= v < N(g) && 0 <= k <= N(g) && where[v] != to
    ensures EdSum(g, where[v := to], k) == EdSum(g, where, k)
      + (if v < k then Id(g, where, v) - Deg(g, v, Side(where, to, N(g))) else 0)
      + Deg(g, v, Side(where, where[v], k)) - Deg(g, v, Side(where, to, k))
  {
    hide WellFormed, Deg, Side, Ed, Id;
    if k == 0 {
      NoSide(g, where, v, where[v]);
      NoSide(g, where, v, to);
    } else {
      var u := k - 1;
      EdSumAfterMove(g, where, v, to, u);
      EdAfterMove(g, where, v, to, u);
      DegSelf(g, v);
      SideGrows(g, where, where[v], v, u);
      SideGrows(g, where, to, v, u);
    }
  }

  lemma NoSide(g: Graph, where: seq<int>, v: int, p: int)
    requires Shaped(g) && |where| == N(g) && 0 <= v < N(g)
    ensures Deg(g, v, Side(where, p, 0)) == 0
  {
    assert Side(where, p, 0) == {};
    DegEmpty(g, v);
  }

  lemma {:induction false} SideGrows(g: Graph, where: seq<int>, p: int, v: int, u: int)
    requires Shaped(g) && |where| == N(g) && 0 <= v < N(g) && 0 <= u < N(g)
    ensures Deg(g, v, Side(where, p, u + 1)) == Deg(g, v, Side(where, p, u)) + if where[u] == p then Deg(g, v, {u}) else 0
  {
    if where[u] == p {
      assert Side(where, p, u + 1) == Side(where, p, u) + {u};
      DegSplit(g, v, Side(where, p, u), {u});
    } else {
      assert Side(where, p, u + 1) == Side(where, p, u);
    }
  }

  /** Moving `v` lowers the cut by what it gains: its degree into the new side minus its internal degree. */
  lemma {:induction false} CutAfterMove(g: Graph, where: seq<int>, v: int, to: int)
    requires WellFormed(g) && |where| == N(g) && 0 <= v < N(g) && where[v] != to
    ensures Cut(g, where[v := to]) == Cut(g, where) - (Deg(g, v, Side(where, to, N(g))) - Id(g, where, v))
  {
    EdSumAfterMove(g, where, v, to, N(g));
  }

  lemma {:induction false} WeightAfterMove(g: Graph, where: seq<int>, v: int, to: int, p: int, k: int)
    requires Shaped(g) && |where| == N(g) && 0 <= v < N(g) && 0 <= k <= N(g) && where[v] != to
    ensures PartWeight(g, where[v := to], p, k) == PartWeight(g, where, p, k) +
      if k <= v then 0 else if p == to then g.vwgt[v] else if p == where[v] then -g.vwgt[v] else 0
  {
    if k > 0 {
      WeightAfterMove(g, where, v, to, p, k - 1);
    }
  }
}
