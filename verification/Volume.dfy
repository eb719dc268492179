// Communication volume and its exact gains (ComputeVolume, tools/assignment/metis/kwayvolfm.c, and
// ComputeKWayVolGains, tools/assignment/metis/kwayvolrefine.c).
module Volume {
  import opened Finite
  import opened Csrs
  import opened Weighted
  import opened Kway

  /** The other parts in which `u` has neighbours: to each of them its data must be sent once. */
  ghost function Doms(g: Graph, where: seq<int>, u: int): set<int>
    requires WellFormed(g) && Weighted.Shaped(g) && |where| == N(g) && 0 <= u < N(g)
  {
    set j | First(g.csr, u) <= j < Last(g.csr, u) && where[Entry(g, u, j)] != where[u] :: where[Entry(g, u, j)]
  }

  /** The neighbour stored at position `j` of the row of `u`. */
  ghost function Entry(g: Graph, u: int, j: int): (x: int)
    requires WellFormed(g) && Weighted.Shaped(g) && 0 <= u < N(g) && First(g.csr, u) <= j < Last(g.csr, u)
    ensures 0 <= x < N(g) && x != u && x == g.csr.adjncy[j]
  {
    assert GoodRow(g, u) && GoodEntry(g, u, j);
    g.csr.adjncy[j]
  }

  /** What the first `n` vertices send in all. */
  ghost function Volume(g: Graph, vsize: seq<int>, where: seq<int>, n: int): int
    requires WellFormed(g) && Weighted.Shaped(g) && |where| == |vsize| == N(g) && 0 <= n <= N(g)
  {
    if n == 0 then 0 else Volume(g, vsize, where, n - 1) + vsize[n - 1] * |Doms(g, where, n - 1)|
  }

  lemma DomsMember(g: Graph, where: seq<int>, u: int, q: int)
    requires WellFormed(g) && Weighted.Shaped(g) && |where| == N(g) && 0 <= u < N(g)
    ensures q in Doms(g, where, u) <==>
            q != where[u] && exists j :: First(g.csr, u) <= j < Last(g.csr, u) && where[Entry(g, u, j)] == q
  {
  }

  // ---------------------------------------------------------------- one vertex's view of a move

  /** How many entries of the row of `u` before position `j` lead to part `q`. */
  ghost function Ned(g: Graph, where: seq<int>, u: int, q: int, j: int): nat
    requires WellFormed(g) && Weighted.Shaped(g) && |where| == N(g) && 0 <= u < N(g) && First(g.csr, u) <= j <= Last(g.csr, u)
    decreases j
  {
    if j == First(g.csr, u) then 0 else Ned(g, where, u, q, j - 1) + if where[Entry(g, u, j - 1)] == q then 1 else 0
  }

  lemma {:induction false} NedCounts(g: Graph, where: seq<int>, u: int, q: int, j: int, x: int)
    requires WellFormed(g) && Weighted.Shaped(g) && |where| == N(g) && 0 <= u < N(g)
    requires First(g.csr, u) <= x < j <= Last(g.csr, u) && where[Entry(g, u, x)] == q
    ensures Ned(g, where, u, q, j) >= 1
    ensures Ned(g, where, u, q, j) == 1 <==> forall y :: First(g.csr, u) <= y < j && where[Entry(g, u, y)] == q ==> y == x
    decreases j
  {
    if j - 1 == x {
      NedNone(g, where, u, q, j - 1);
    } else {
      NedCounts(g, where, u, q, j - 1, x);
    }
  }

  lemma {:induction false} NedNone(g: Graph, where: seq<int>, u: int, q: int, j: int)
    requires WellFormed(g) && Weighted.Shaped(g) && |where| == N(g) && 0 <= u < N(g) && First(g.csr, u) <= j <= Last(g.csr, u)
    ensures Ned(g, where, u, q, j) == 0 <==> forall y :: First(g.csr, u) <= y < j ==> where[Entry(g, u, y)] != q
    decreases j
  {
    if j > First(g.csr, u) {
      NedNone(g, where, u, q, j - 1);
    }
  }

  /** Where the row of `u` names `v`, if it does. */
  lemma {:induction false} BackEntry(g: Graph, v: int, j: int) returns (x: int)
    requires Simple(g) && 0 <= v < N(g) && First(g.csr, v) <= j < Last(g.csr, v)
    ensures var u := Entry(g, v, j);
      && First(g.csr, u) <= x < Last(g.csr, u) && Entry(g, u, x) == v
      && forall y :: First(g.csr, u) <= y < Last(g.csr, u) && Entry(g, u, y) == v ==> y == x
  {
    var u := Entry(g, v, j);
    EntryWeight(g, v, j);
    SomeNeighbour(g, u, {v});
    x :| First(g.csr, u) <= x < Last(g.csr, u) && g.csr.adjncy[x] in {v};
    forall y | First(g.csr, u) <= y < Last(g.csr, u) && Entry(g, u, y) == v
      ensures y == x
    {
      assert Row(g.csr, u)[y - First(g.csr, u)] == v && Row(g.csr, u)[x - First(g.csr, u)] == v;
    }
  }

  /** The change in what the neighbour `u` of `v` has to send when `v` moves to part `k`, as the gain loop sees it. */
  ghost function Delta(g: Graph, where: seq<int>, v: int, k: int, u: int): int
    requires WellFormed(g) && Weighted.Shaped(g) && |where| == N(g) && 0 <= v < N(g) && 0 <= u < N(g)
  {
    var known := k in Doms(g, where, u) || k == where[u];
    if where[u] != where[v] && Ned(g, where, u, where[v], Last(g.csr, u)) == 1 then
      if known then 1 else 0
    else
      if known then 0 else -1
  }

  lemma {:induction false} NeighbourDelta(g: Graph, where: seq<int>, v: int, k: int, j: int)
    requires Simple(g) && |where| == N(g) && 0 <= v < N(g) && k != where[v] && First(g.csr, v) <= j < Last(g.csr, v)
    ensures var u := Entry(g, v, j);
      |Doms(g, where, u)| - |Doms(g, where[v := k], u)| == Delta(g, where, v, k, u)
  {
    hide Simple, WellFormed, Weighted.Shaped, Ned, Doms;
    SimpleFacts(g);
    var u := Entry(g, v, j);
    var x := BackEntry(g, v, j);
    var me, other, where' := where[v], where[u], where[v := k];
    var a, b := Doms(g, where, u), Doms(g, where', u);
    forall q
      ensures q in b <==> if q == me then q in a && Ned(g, where, u, me, Last(g.csr, u)) != 1 else q in a || (q == k && q != other)
    {
      DomsMember(g, where, u, q);
      DomsMember(g, where', u, q);
      NedCounts(g, where, u, me, Last(g.csr, u), x);
      assert where'[Entry(g, u, x)] == k;
      forall y | First(g.csr, u) <= y < Last(g.csr, u) && y != x
        ensures where'[Entry(g, u, y)] == where[Entry(g, u, y)]
      {
      }
    }
    DomsMember(g, where, u, me);
    DomsMember(g, where, u, other);
    assert where[Entry(g, u, x)] == me;
    SetSizes(a, b, me, other, k, Ned(g, where, u, me, Last(g.csr, u)) == 1);
  }

  lemma SetSizes<T>(a: set<T>, b: set<T>, me: T, other: T, k: T, only: bool)
    requires k != me && other !in a && (me in a <==> me != other)
    requires forall q :: q in b <==> if q == me then q in a && !only else q in a || (q == k && q != other)
    ensures |a| - |b| == (if me != other && only then 1 else 0) - (if k in a || k == other then 0 else 1)
  {
    var c := if me != other && only then a - {me} else a;
    forall q
      ensures q in b <==> q in c || (q == k && k !in a && k != other)
    {
    }
    if k in a || k == other {
      assert b == c;
    } else {
      assert b == c + {k};
    }
  }

  lemma SimpleFacts(g: Graph)
    requires Simple(g)
    ensures WellFormed(g) && Weighted.Shaped(g)
  {
  }

  /** The mover itself no longer sends to its new part, but to its old one if it leaves neighbours behind. */
  lemma {:induction false} MoverDelta(g: Graph, where: seq<int>, v: int, k: int)
    requires Simple(g) && |where| == N(g) && 0 <= v < N(g) && k in Doms(g, where, v)
    ensures |Doms(g, where, v)| - |Doms(g, where[v := k], v)| == if Ned(g, where, v, where[v], Last(g.csr, v)) == 0 then 1 else 0
  {
    hide Simple, WellFormed, Weighted.Shaped, Ned, Doms;
    SimpleFacts(g);
    var me, where' := where[v], where[v := k];
    var a, b := Doms(g, where, v), Doms(g, where', v);
    forall q
      ensures q in b <==> if q == me then Ned(g, where, v, me, Last(g.csr, v)) != 0 else q in a && q != k
    {
      DomsMember(g, where, v, q);
      DomsMember(g, where', v, q);
      NedNone(g, where, v, me, Last(g.csr, v));
      assert forall y :: First(g.csr, v) <= y < Last(g.csr, v) ==> where'[Entry(g, v, y)] == where[Entry(g, v, y)];
    }
    DomsMember(g, where, v, me);
    DomsMember(g, where, v, k);
    if Ned(g, where, v, me, Last(g.csr, v)) != 0 {
      assert b == a - {k} + {me};
    } else {
      assert b == a - {k};
    }
  }

  /** Whoever is neither `v` nor one of its neighbours sends what it sent before. */
  lemma {:induction false} StrangerDelta(g: Graph, where: seq<int>, v: int, k: int, u: int)
    requires Simple(g) && |where| == N(g) && 0 <= v < N(g) && 0 <= u < N(g) && u != v && u !in Row(g.csr, v)
    ensures Doms(g, where[v := k], u) == Doms(g, where, u)
  {
    hide Doms;
    NoEntry(g, v, u);
    var where' := where[v := k];
    forall y | First(g.csr, u) <= y < Last(g.csr, u)
      ensures where'[Entry(g, u, y)] == where[Entry(g, u, y)]
    {
      if Entry(g, u, y) == v {
        EntryWeight(g, u, y);
      }
    }
    forall q
      ensures q in Doms(g, where', u) <==> q in Doms(g, where, u)
    {
      DomsMember(g, where, u, q);
      DomsMember(g, where', u, q);
    }
  }

  // ---------------------------------------------------------------- summed over the row

  /** The changes at the neighbours stored before position `j`, among those below `n`. */
  ghost function RowDelta(g: Graph, vsize: seq<int>, where: seq<int>, v: int, k: int, j: int, n: int): int
    requires WellFormed(g) && Weighted.Shaped(g) && |where| == |vsize| == N(g) && 0 <= v < N(g) && First(g.csr, v) <= j <= Last(g.csr, v)
    decreases j
  {
    if j == First(g.csr, v) then 0 else
      var u := Entry(g, v, j - 1);
      RowDelta(g, vsize, where, v, k, j - 1, n) + if u < n then vsize[u] * Delta(g, where, v, k, u) else 0
  }

  lemma {:induction false} RowDeltaNone(g: Graph, vsize: seq<int>, where: seq<int>, v: int, k: int, j: int)
    requires WellFormed(g) && Weighted.Shaped(g) && |where| == |vsize| == N(g) && 0 <= v < N(g) && First(g.csr, v) <= j <= Last(g.csr, v)
    ensures RowDelta(g, vsize, where, v, k, j, 0) == 0
    decreases j
  {
    if j > First(g.csr, v) {
      RowDeltaNone(g, vsize, where, v, k, j - 1);
    }
  }

  /** One more vertex counts, once if it is in the row. */
  lemma {:induction false} RowDeltaNext(g: Graph, vsize: seq<int>, where: seq<int>, v: int, k: int, j: int, n: int)
    requires Simple(g) && |where| == |vsize| == N(g) && 0 <= v < N(g) && First(g.csr, v) <= j <= Last(g.csr, v) && 0 <= n < N(g)
    ensures RowDelta(g, vsize, where, v, k, j, n + 1) == RowDelta(g, vsize, where, v, k, j, n) +
            if n in g.csr.adjncy[First(g.csr, v)..j] then vsize[n] * Delta(g, where, v, k, n) else 0
    decreases j
  {
    hide Delta, WellFormed;
    var lo := First(g.csr, v);
    if j > lo {
      RowDeltaNext(g, vsize, where, v, k, j - 1, n);
      assert g.csr.adjncy[lo..j] == g.csr.adjncy[lo..j - 1] + [g.csr.adjncy[j - 1]];
      NotBefore(g, v, j - 1);
    }
  }

  lemma NotBefore(g: Graph, v: int, j: int)
    requires Simple(g) && 0 <= v < N(g) && First(g.csr, v) <= j < Last(g.csr, v)
    ensures g.csr.adjncy[j] !in g.csr.adjncy[First(g.csr, v)..j]
  {
    var lo := First(g.csr, v);
    forall i | 0 <= i < j - lo
      ensures g.csr.adjncy[lo..j][i] != g.csr.adjncy[j]
    {
      assert Row(g.csr, v)[i] == g.csr.adjncy[lo + i] && Row(g.csr, v)[j - lo] == g.csr.adjncy[j];
    }
  }

  lemma {:induction false} VolumeAfterMove(g: Graph, vsize: seq<int>, where: seq<int>, v: int, k: int, n: int)
    requires Simple(g) && |where| == |vsize| == N(g) && 0 <= v < N(g) && 0 <= n <= N(g) && k in Doms(g, where, v)
    ensures Volume(g, vsize, where, n) - Volume(g, vsize, where[v := k], n) ==
            RowDelta(g, vsize, where, v, k, Last(g.csr, v), n) +
            if v < n && Ned(g, where, v, where[v], Last(g.csr, v)) == 0 then vsize[v] else 0
  {
    hide WellFormed, Weighted.Shaped, Simple, Doms, Delta, Ned, RowDelta;
    SimpleFacts(g);
    DomsMember(g, where, v, k);
    if n == 0 {
      RowDeltaNone(g, vsize, where, v, k, Last(g.csr, v));
    } else {
      var u := n - 1;
      VolumeAfterMove(g, vsize, where, v, k, u);
      RowDeltaNext(g, vsize, where, v, k, Last(g.csr, v), u);
      var d := |Doms(g, where, u)| - |Doms(g, where[v := k], u)|;
      assert vsize[u] * |Doms(g, where, u)| - vsize[u] * |Doms(g, where[v := k], u)| == vsize[u] * d;
      if u == v {
        MoverDelta(g, where, v, k);
        NotNeighbour(g, v);
      } else if u in Row(g.csr, v) {
        var i :| 0 <= i < |Row(g.csr, v)| && Row(g.csr, v)[i] == u;
        NeighbourDelta(g, where, v, k, First(g.csr, v) + i);
      } else {
        StrangerDelta(g, where, v, k, u);
      }
    }
  }

  lemma NotNeighbour(g: Graph, v: int)
    requires WellFormed(g) && Weighted.Shaped(g) && 0 <= v < N(g)
    ensures v !in Row(g.csr, v)
  {
    forall i | 0 <= i < |Row(g.csr, v)|
      ensures Row(g.csr, v)[i] != v
    {
      var x := Entry(g, v, First(g.csr, v) + i);
    }
  }
}
