// The adjacency list of a coarse vertex as a value: how two fine rows are merged into it and the
// pair's own edge removed (tools/assignment/metis/ccgraph.c).
module CoarseRows {
  import opened Finite
  import opened Csrs
  import opened Weighted

  /** Neighbours and edge weights, position by position. */
  datatype Row = Row(keys: seq<int>, wgts: seq<int>)

  const EMPTY: Row := Row([], [])

  ghost predicate ValidRow(r: Row, cn: int) {
    && |r.keys| == |r.wgts| && Distinct(r.keys)
    && forall i :: 0 <= i < |r.keys| ==> 0 <= r.keys[i] < cn && r.wgts[i] > 0
  }

  /** The first position of `k`. */
  ghost function Index(keys: seq<int>, k: int): (m: int)
    requires k in keys
    ensures 0 <= m < |keys| && keys[m] == k
  {
    if keys[0] == k then 0 else 1 + Index(keys[1..], k)
  }

  lemma IndexUnique(keys: seq<int>, m: int)
    requires Distinct(keys) && 0 <= m < |keys|
    ensures keys[m] in keys && Index(keys, keys[m]) == m
  {
  }

  /** One more edge of weight `w` to the coarse vertex `k`: merged into its entry, or a new entry. */
  ghost function Add(r: Row, k: int, w: int): Row
    requires |r.keys| == |r.wgts|
  {
    if k in r.keys then
      var m := Index(r.keys, k);
      Row(r.keys, r.wgts[m := r.wgts[m] + w])
    else
      Row(r.keys + [k], r.wgts + [w])
  }

  lemma RowEntries(g: Graph, u: int)
    requires WellFormed(g) && 0 <= u < N(g)
    ensures forall j :: First(g.csr, u) <= j < Last(g.csr, u) ==> 0 <= g.csr.adjncy[j] < N(g)
  {
    assert GoodRow(g, u);
    forall j | First(g.csr, u) <= j < Last(g.csr, u)
      ensures 0 <= g.csr.adjncy[j] < N(g)
    {
      assert GoodEntry(g, u, j);
    }
  }

  /** The fine entries lo..hi added to `r` one after the other. */
  ghost function Gather(g: Graph, cmap: seq<int>, r: Row, lo: int, hi: int): (r': Row)
    requires Weighted.Shaped(g) && |cmap| == N(g) && 0 <= lo <= hi <= |g.adjwgt| && |r.keys| == |r.wgts|
    requires forall j :: lo <= j < hi ==> 0 <= g.csr.adjncy[j] < N(g)
    ensures |r'.keys| == |r'.wgts| <= |r.keys| + hi - lo
    decreases hi - lo
  {
    if lo == hi then r else Add(Gather(g, cmap, r, lo, hi - 1), cmap[g.csr.adjncy[hi - 1]], g.adjwgt[hi - 1])
  }

  /** Drops position `m` by moving the last entry there. */
  ghost function RemoveAt(r: Row, m: int): Row
    requires 0 <= m < |r.keys| == |r.wgts|
  {
    var n := |r.keys| - 1;
    Row(r.keys[m := r.keys[n]][..n], r.wgts[m := r.wgts[n]][..n])
  }

  ghost function RemoveKey(r: Row, c: int): Row
    requires |r.keys| == |r.wgts|
  {
    if c in r.keys then RemoveAt(r, Index(r.keys, c)) else r
  }

  /** The list of the coarse vertex `c` made of `v` and its partner `u`. */
  ghost function CoarseRow(g: Graph, cmap: seq<int>, v: int, u: int, c: int): Row
    requires WellFormed(g) && |cmap| == N(g) && 0 <= v < N(g) && 0 <= u < N(g)
  {
    RowEntries(g, v);
    RowEntries(g, u);
    var r := Gather(g, cmap, EMPTY, First(g.csr, v), Last(g.csr, v));
    if v == u then r else RemoveKey(Gather(g, cmap, r, First(g.csr, u), Last(g.csr, u)), c)
  }

  // ---------------------------------------------------------------- weight into a set

  /** The weight of the first `n` entries that leads into `s`. */
  ghost function RowInto(r: Row, n: int, s: set<int>): int
    requires 0 <= n <= |r.keys| == |r.wgts|
  {
    if n == 0 then 0 else RowInto(r, n - 1, s) + if r.keys[n - 1] in s then r.wgts[n - 1] else 0
  }

  ghost function Total(r: Row, s: set<int>): int
    requires |r.keys| == |r.wgts|
  {
    RowInto(r, |r.keys|, s)
  }

  lemma {:induction false} RowIntoSame(r: Row, r': Row, n: int, s: set<int>)
    requires 0 <= n <= |r.keys| == |r.wgts| && n <= |r'.keys| == |r'.wgts|
    requires forall i :: 0 <= i < n ==> r.keys[i] == r'.keys[i] && r.wgts[i] == r'.wgts[i]
    ensures RowInto(r, n, s) == RowInto(r', n, s)
  {
    if n > 0 {
      RowIntoSame(r, r', n - 1, s);
    }
  }

  /** Changing one entry changes the weight by the difference. */
  lemma {:induction false} RowIntoUpdate(r: Row, r': Row, m: int, n: int, s: set<int>)
    requires 0 <= m < |r.keys| == |r.wgts| == |r'.keys| == |r'.wgts| && 0 <= n <= |r.keys|
    requires forall i :: 0 <= i < |r.keys| && i != m ==> r.keys[i] == r'.keys[i] && r.wgts[i] == r'.wgts[i]
    ensures RowInto(r', n, s) == RowInto(r, n, s) +
      if m < n then (if r'.keys[m] in s then r'.wgts[m] else 0) - (if r.keys[m] in s then r.wgts[m] else 0) else 0
  {
    if n > 0 {
      RowIntoUpdate(r, r', m, n - 1, s);
    }
  }

  lemma {:induction false} AddTotal(r: Row, k: int, w: int, s: set<int>)
    requires |r.keys| == |r.wgts|
    ensures Total(Add(r, k, w), s) == Total(r, s) + if k in s then w else 0
  {
    var r' := Add(r, k, w);
    if k in r.keys {
      RowIntoUpdate(r, r', Index(r.keys, k), |r.keys|, s);
    } else {
      RowIntoSame(r, r', |r.keys|, s);
    }
  }

  lemma {:induction false} AddValid(r: Row, k: int, w: int, cn: int)
    requires ValidRow(r, cn) && 0 <= k < cn && w > 0
    ensures ValidRow(Add(r, k, w), cn)
  {
    if k !in r.keys {
      DistinctAppend(r.keys, k);
    }
  }

  /** The fine vertices lying in one of the coarse vertices of `s`. */
  ghost function Pre(cmap: seq<int>, s: set<int>): set<int> {
    set x | x in Range(0, |cmap|) && cmap[x] in s
  }

  lemma {:induction false} GatherTotal(g: Graph, cmap: seq<int>, r: Row, lo: int, hi: int, s: set<int>)
    requires Weighted.Shaped(g) && |cmap| == N(g) && 0 <= lo <= hi <= |g.adjwgt| && |r.keys| == |r.wgts|
    requires forall j :: lo <= j < hi ==> 0 <= g.csr.adjncy[j] < N(g)
    ensures Total(Gather(g, cmap, r, lo, hi), s) == Total(r, s) + Into(g, lo, hi, Pre(cmap, s))
    decreases hi - lo
  {
    if lo < hi {
      GatherTotal(g, cmap, r, lo, hi - 1, s);
      AddTotal(Gather(g, cmap, r, lo, hi - 1), cmap[g.csr.adjncy[hi - 1]], g.adjwgt[hi - 1], s);
    }
  }

  lemma {:induction false} GatherValid(g: Graph, cmap: seq<int>, r: Row, u: int, hi: int, cn: int)
    requires WellFormed(g) && |cmap| == N(g) && ValidRow(r, cn) && 0 <= u < N(g)
    requires First(g.csr, u) <= hi <= Last(g.csr, u)
    requires forall x :: 0 <= x < N(g) ==> 0 <= cmap[x] < cn
    ensures forall j :: First(g.csr, u) <= j < hi ==> 0 <= g.csr.adjncy[j] < N(g)
    ensures ValidRow(Gather(g, cmap, r, First(g.csr, u), hi), cn)
    decreases hi
  {
    assert GoodRow(g, u);
    if First(g.csr, u) < hi {
      GatherValid(g, cmap, r, u, hi - 1, cn);
      assert GoodEntry(g, u, hi - 1);
      AddValid(Gather(g, cmap, r, First(g.csr, u), hi - 1), cmap[g.csr.adjncy[hi - 1]], g.adjwgt[hi - 1], cn);
    }
  }

  lemma {:induction false} RemoveTotal(r: Row, m: int, s: set<int>)
    requires 0 <= m < |r.keys| == |r.wgts|
    ensures Total(RemoveAt(r, m), s) == Total(r, s) - if r.keys[m] in s then r.wgts[m] else 0
  {
    var n := |r.keys| - 1;
    var full := Row(r.keys[m := r.keys[n]], r.wgts[m := r.wgts[n]]);
    RowIntoUpdate(r, full, m, n, s);
    RowIntoSame(full, RemoveAt(r, m), n, s);
  }

  lemma {:induction false} RemoveValid(r: Row, c: int, cn: int)
    requires ValidRow(r, cn)
    ensures ValidRow(RemoveKey(r, c), cn) && c !in RemoveKey(r, c).keys
    ensures forall k :: k in RemoveKey(r, c).keys ==> k in r.keys
  {
    if c in r.keys {
      var m, n := Index(r.keys, c), |r.keys| - 1;
      var r' := RemoveAt(r, m);
      forall i | 0 <= i < n
        ensures r'.keys[i] == (if i == m then r.keys[n] else r.keys[i]) && r'.keys[i] in r.keys && r'.keys[i] != c
      {
      }
    }
  }

  /** What the list of a coarse vertex weighs into any set of other coarse vertices. */
  lemma {:induction false} CoarseRowTotal(g: Graph, cmap: seq<int>, v: int, u: int, c: int, cn: int, s: set<int>)
    requires WellFormed(g) && |cmap| == N(g) && 0 <= v < N(g) && 0 <= u < N(g)
    requires forall x :: 0 <= x < N(g) ==> 0 <= cmap[x] < cn
    requires c !in s
    ensures ValidRow(CoarseRow(g, cmap, v, u, c), cn)
    ensures Total(CoarseRow(g, cmap, v, u, c), s) == Deg(g, v, Pre(cmap, s)) + if u == v then 0 else Deg(g, u, Pre(cmap, s))
  {
    GatherValid(g, cmap, EMPTY, v, Last(g.csr, v), cn);
    GatherTotal(g, cmap, EMPTY, First(g.csr, v), Last(g.csr, v), s);
    if u != v {
      var r := Gather(g, cmap, EMPTY, First(g.csr, v), Last(g.csr, v));
      GatherValid(g, cmap, r, u, Last(g.csr, u), cn);
      GatherTotal(g, cmap, r, First(g.csr, u), Last(g.csr, u), s);
      var r2 := Gather(g, cmap, r, First(g.csr, u), Last(g.csr, u));
      RemoveValid(r2, c, cn);
      if c in r2.keys {
        RemoveTotal(r2, Index(r2.keys, c), s);
      }
    }
  }

  /** Nothing in the list leads back to `c`, as long as `c` holds only `v` and `u`. */
  lemma {:induction false} CoarseRowNoLoop(g: Graph, cmap: seq<int>, v: int, u: int, c: int, cn: int)
    requires WellFormed(g) && |cmap| == N(g) && 0 <= v < N(g) && 0 <= u < N(g)
    requires forall x :: 0 <= x < N(g) ==> 0 <= cmap[x] < cn
    requires forall x :: 0 <= x < N(g) && cmap[x] == c ==> x == v || x == u
    ensures c !in CoarseRow(g, cmap, v, u, c).keys
  {
    GatherValid(g, cmap, EMPTY, v, Last(g.csr, v), cn);
    if u == v {
      GatherNoKey(g, cmap, v, Last(g.csr, v), c);
    } else {
      var r := Gather(g, cmap, EMPTY, First(g.csr, v), Last(g.csr, v));
      GatherValid(g, cmap, r, u, Last(g.csr, u), cn);
      RemoveValid(Gather(g, cmap, r, First(g.csr, u), Last(g.csr, u)), c, cn);
    }
  }

  lemma {:induction false} GatherNoKey(g: Graph, cmap: seq<int>, v: int, hi: int, c: int)
    requires WellFormed(g) && |cmap| == N(g) && 0 <= v < N(g) && First(g.csr, v) <= hi <= Last(g.csr, v)
    requires forall x :: 0 <= x < N(g) && cmap[x] == c ==> x == v
    requires forall j :: First(g.csr, v) <= j < hi ==> 0 <= g.csr.adjncy[j] < N(g)
    ensures c !in Gather(g, cmap, EMPTY, First(g.csr, v), hi).keys
    decreases hi
  {
    assert GoodRow(g, v);
    if First(g.csr, v) < hi {
      GatherNoKey(g, cmap, v, hi - 1, c);
      assert GoodEntry(g, v, hi - 1);
    }
  }
}
