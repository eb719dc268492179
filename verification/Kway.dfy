// What k-way refinement keeps beside a partition - internal and external degrees and, for every
// vertex, the list of its degrees into other parts - and why a move keeps it exact.
module Kway {
  import opened Finite
  import opened Csrs
  import opened Weighted

  /** The weight from a vertex into part `pid`. */
  datatype Degree = Degree(pid: int, ed: int)

  datatype Info = Info(id: int, ed: int, degs: seq<Degree>)

  /** A well-formed graph in which no row names a neighbour twice. */
  ghost predicate Simple(g: Graph) {
    WellFormed(g) && Weighted.Shaped(g) && forall u :: 0 <= u < N(g) ==> Distinct(Row(g.csr, u))
  }

  lemma {:induction false} IntoSingle(g: Graph, lo: int, hi: int, j: int, s: set<int>)
    requires Weighted.Shaped(g) && 0 <= lo <= j < hi <= |g.adjwgt| && g.csr.adjncy[j] in s
    requires forall i :: lo <= i < hi && i != j ==> g.csr.adjncy[i] !in s
    ensures Into(g, lo, hi, s) == g.adjwgt[j]
    decreases hi
  {
    if j == hi - 1 {
      IntoEmpty(g, lo, hi - 1, s);
    } else {
      IntoSingle(g, lo, hi - 1, j, s);
    }
  }

  /** In a simple graph the weight between two neighbours is that of one entry, seen from either end. */
  lemma {:induction false} EntryWeight(g: Graph, v: int, j: int)
    requires Simple(g) && 0 <= v < N(g) && First(g.csr, v) <= j < Last(g.csr, v)
    ensures var u := g.csr.adjncy[j];
      0 <= u < N(g) && u != v && g.adjwgt[j] > 0 && Deg(g, v, {u}) == Deg(g, u, {v}) == g.adjwgt[j]
  {
    var u, lo := g.csr.adjncy[j], First(g.csr, v);
    assert GoodRow(g, v) && GoodEntry(g, v, j) && SameBothWays(g, v, u);
    forall i | lo <= i < Last(g.csr, v) && i != j
      ensures g.csr.adjncy[i] !in {u}
    {
      assert Row(g.csr, v)[i - lo] == g.csr.adjncy[i] && Row(g.csr, v)[j - lo] == u;
    }
    IntoSingle(g, lo, Last(g.csr, v), j, {u});
  }

  /** Whoever is not in the row of `v` does not see `v` either. */
  lemma {:induction false} NoEntry(g: Graph, v: int, u: int)
    requires Simple(g) && 0 <= v < N(g) && 0 <= u < N(g) && u !in Row(g.csr, v)
    ensures Deg(g, u, {v}) == 0
  {
    assert SameBothWays(g, v, u);
    forall i | First(g.csr, v) <= i < Last(g.csr, v)
      ensures g.csr.adjncy[i] !in {u}
    {
      assert Row(g.csr, v)[i - First(g.csr, v)] == g.csr.adjncy[i];
    }
    IntoEmpty(g, First(g.csr, v), Last(g.csr, v), {u});
  }

  // ---------------------------------------------------------------- lists of degrees

  ghost predicate EntryOk(degs: seq<Degree>, me: int, want: int -> int, i: int)
    requires 0 <= i < |degs|
  {
    degs[i].pid != me && degs[i].ed == want(degs[i].pid) > 0
  }

  ghost predicate Has(degs: seq<Degree>, q: int) {
    exists i :: 0 <= i < |degs| && degs[i].pid == q
  }

  /** The list names every part but `me` towards which `want` is not 0, once, with that degree. */
  ghost predicate Lists(degs: seq<Degree>, me: int, want: int -> int) {
    && (forall i :: 0 <= i < |degs| ==> EntryOk(degs, me, want, i))
    && (forall i, j :: 0 <= i < j < |degs| ==> degs[i].pid != degs[j].pid)
    && (forall q :: q != me && want(q) != 0 ==> Has(degs, q))
  }

  /** The position of part `q`, or the length of the list. */
  function PositionOf(degs: seq<Degree>, q: int): (k: int)
    ensures 0 <= k <= |degs|
    ensures k < |degs| ==> degs[k].pid == q
    ensures forall i :: 0 <= i < k ==> degs[i].pid != q
  {
    if degs == [] then 0
    else if degs[0].pid == q then 0
    else
      var k := PositionOf(degs[1..], q);
      assert forall i :: 0 < i < 1 + k ==> degs[i] == degs[1..][i - 1];
      1 + k
  }

  /** The last entry takes the place of entry `k`. */
  function RemoveAt(degs: seq<Degree>, k: int): seq<Degree>
    requires 0 <= k < |degs|
  {
    degs[k := degs[|degs| - 1]][..|degs| - 1]
  }

  function Take(degs: seq<Degree>, q: int, w: int): seq<Degree> {
    var k := PositionOf(degs, q);
    if k == |degs| then degs
    else if degs[k].ed == w then RemoveAt(degs, k)
    else degs[k := Degree(q, degs[k].ed - w)]
  }

  function Give(degs: seq<Degree>, q: int, w: int): seq<Degree> {
    var k := PositionOf(degs, q);
    if k == |degs| then degs + [Degree(q, w)] else degs[k := Degree(q, degs[k].ed + w)]
  }

  lemma {:induction false} SetOk(degs: seq<Degree>, me: int, want: int -> int, k: int, w: int, want': int -> int)
    requires Lists(degs, me, want) && 0 <= k < |degs| && w > 0
    requires forall q :: want'(q) == if q == degs[k].pid then w else want(q)
    ensures Lists(degs[k := Degree(degs[k].pid, w)], me, want')
  {
    var d := degs[k := Degree(degs[k].pid, w)];
    forall i | 0 <= i < |d|
      ensures EntryOk(d, me, want', i)
    {
      assert EntryOk(degs, me, want, i);
    }
    forall q | q != me && want'(q) != 0
      ensures Has(d, q)
    {
      assert q == degs[k].pid || Has(degs, q);
      var i :| 0 <= i < |degs| && degs[i].pid == q;
      assert d[i].pid == q;
    }
  }

  lemma {:induction false} RemoveOk(degs: seq<Degree>, me: int, want: int -> int, k: int, want': int -> int)
    requires Lists(degs, me, want) && 0 <= k < |degs|
    requires forall q :: want'(q) == if q == degs[k].pid then 0 else want(q)
    ensures Lists(RemoveAt(degs, k), me, want')
  {
    var d, last := RemoveAt(degs, k), |degs| - 1;
    forall i | 0 <= i < |d|
      ensures EntryOk(d, me, want', i)
    {
      assert EntryOk(degs, me, want, if i == k then last else i);
    }
    forall q | q != me && want'(q) != 0
      ensures Has(d, q)
    {
      assert Has(degs, q);
      var i :| 0 <= i < |degs| && degs[i].pid == q;
      assert d[if i == last then k else i].pid == q;
    }
  }

  lemma {:induction false} AppendOk(degs: seq<Degree>, me: int, want: int -> int, p: int, w: int, want': int -> int)
    requires Lists(degs, me, want) && !Has(degs, p) && p != me && w > 0
    requires forall q :: want'(q) == if q == p then w else want(q)
    ensures Lists(degs + [Degree(p, w)], me, want')
  {
    var d := degs + [Degree(p, w)];
    forall i | 0 <= i < |d|
      ensures EntryOk(d, me, want', i)
    {
      if i < |degs| {
        assert EntryOk(degs, me, want, i) && degs[i].pid != p;
      }
    }
    forall q | q != me && want'(q) != 0
      ensures Has(d, q)
    {
      if q == p {
        assert d[|degs|].pid == p;
      } else {
        assert Has(degs, q);
        var i :| 0 <= i < |degs| && degs[i].pid == q;
        assert d[i].pid == q;
      }
    }
  }

  lemma {:induction false} TakeOk(degs: seq<Degree>, me: int, want: int -> int, p: int, w: int, want': int -> int)
    requires Lists(degs, me, want) && p != me && 0 < w <= want(p)
    requires forall q :: want'(q) == want(q) - if q == p then w else 0
    ensures Lists(Take(degs, p, w), me, want')
  {
    assert Has(degs, p);
    var k := PositionOf(degs, p);
    assert EntryOk(degs, me, want, k);
    if degs[k].ed == w {
      RemoveOk(degs, me, want, k, want');
    } else {
      SetOk(degs, me, want, k, degs[k].ed - w, want');
    }
  }

  lemma {:induction false} GiveOk(degs: seq<Degree>, me: int, want: int -> int, p: int, w: int, want': int -> int)
    requires Lists(degs, me, want) && p != me && 0 < w && want(p) >= 0
    requires forall q :: want'(q) == want(q) + if q == p then w else 0
    ensures Lists(Give(degs, p, w), me, want')
  {
    var k := PositionOf(degs, p);
    if k == |degs| {
      assert !Has(degs, p) && want(p) == 0;
      AppendOk(degs, me, want, p, w, want');
    } else {
      assert EntryOk(degs, me, want, k);
      SetOk(degs, me, want, k, degs[k].ed + w, want');
    }
  }

  lemma {:induction false} SameLists(degs: seq<Degree>, me: int, want: int -> int, want': int -> int)
    requires Lists(degs, me, want) && forall q :: want'(q) == want(q)
    ensures Lists(degs, me, want')
  {
    forall i | 0 <= i < |degs|
      ensures EntryOk(degs, me, want', i)
    {
      assert EntryOk(degs, me, want, i);
    }
  }

  // ---------------------------------------------------------------- degrees of a vertex

  ghost function Toward(g: Graph, where: seq<int>, u: int): int -> int
    requires Weighted.Shaped(g) && |where| == N(g) && 0 <= u < N(g)
  {
    q => Deg(g, u, Side(where, q, N(g)))
  }

  /** Everything stored about `u` agrees with its recomputation. */
  ghost predicate InfoAt(g: Graph, where: seq<int>, u: int, info: Info)
    requires Weighted.Shaped(g) && |where| == N(g) && 0 <= u < N(g)
  {
    info.id == Id(g, where, u) && info.ed == Ed(g, where, u) && Lists(info.degs, where[u], Toward(g, where, u))
  }

  lemma {:induction false} TowardAfterMove(g: Graph, where: seq<int>, v: int, to: int, u: int, q: int)
    requires WellFormed(g) && Weighted.Shaped(g) && |where| == N(g) && 0 <= v < N(g) && 0 <= u < N(g) && where[v] != to
    ensures Toward(g, where[v := to], u)(q) ==
            Toward(g, where, u)(q) + if q == to then Deg(g, u, {v}) else if q == where[v] then -Deg(g, u, {v}) else 0
  {
    var where' := where[v := to];
    var a, b := Side(where, q, N(g)), Side(where', q, N(g));
    if q == to {
      assert b == a + {v};
      DegSplit(g, u, a, {v});
    } else if q == where[v] {
      assert a == b + {v};
      DegSplit(g, u, b, {v});
    } else {
      assert a == b;
    }
  }

  function ShiftDegrees(info: Info, me: int, from: int, to: int, w: int): Info {
    if me == from then info.(id := info.id - w, ed := info.ed + w)
    else if me == to then info.(id := info.id + w, ed := info.ed - w)
    else info
  }

  /** What the update of one neighbour makes of its record. */
  function Updated(info: Info, me: int, from: int, to: int, w: int): Info {
    var degs1 := if me != from then Take(info.degs, from, w) else info.degs;
    ShiftDegrees(info, me, from, to, w).(degs := if me != to then Give(degs1, to, w) else degs1)
  }

  lemma {:induction false} IdAfterMove(g: Graph, where: seq<int>, v: int, to: int, u: int)
    requires WellFormed(g) && |where| == N(g) && 0 <= v < N(g) && 0 <= u < N(g) && where[v] != to && u != v
    ensures Id(g, where[v := to], u) == Id(g, where, u) +
            if where[u] == where[v] then -Deg(g, v, {u}) else if where[u] == to then Deg(g, v, {u}) else 0
  {
    EdAfterMove(g, where, v, to, u);
    EdPlusId(g, where, u);
    EdPlusId(g, where[v := to], u);
  }

  /** The record of a neighbour of `v` after `v` moved. */
  lemma {:induction false} NeighbourOk(g: Graph, where: seq<int>, v: int, to: int, u: int, info: Info, w: int)
    requires WellFormed(g) && Weighted.Shaped(g) && |where| == N(g) && 0 <= v < N(g) && 0 <= u < N(g) && u != v && where[v] != to
    requires InfoAt(g, where, u, info) && w == Deg(g, u, {v}) == Deg(g, v, {u}) && w > 0
    ensures InfoAt(g, where[v := to], u, Updated(info, where[u], where[v], to, w))
  {
    hide Take, Give, Lists, Deg, WellFormed;
    var from, me, where' := where[v], where[u], where[v := to];
    var f0, f2 := Toward(g, where, u), Toward(g, where', u);
    var f1: int -> int := q => f0(q) - if q == from then w else 0;
    forall q
      ensures f2(q) == f1(q) + (if q == to then w else 0) && f0(q) >= 0
    {
      TowardAfterMove(g, where, v, to, u, q);
      DegNonNegative(g, u, Side(where, q, N(g)));
    }
    EdAfterMove(g, where, v, to, u);
    IdAfterMove(g, where, v, to, u);
    var degs1 := if me != from then Take(info.degs, from, w) else info.degs;
    if me != from {
      PartOfSide(g, where, u, v);
      TakeOk(info.degs, me, f0, from, w, f1);
    } else {
      ListsIgnoreSelf(info.degs, me, f0, f1);
    }
    if me != to {
      GiveOk(degs1, me, f1, to, w, f2);
    } else {
      ListsIgnoreSelf(degs1, me, f1, f2);
    }
  }

  lemma {:induction false} PartOfSide(g: Graph, where: seq<int>, u: int, v: int)
    requires WellFormed(g) && Weighted.Shaped(g) && |where| == N(g) && 0 <= v < N(g) && 0 <= u < N(g)
    ensures Deg(g, u, {v}) <= Toward(g, where, u)(where[v])
  {
    var s := Side(where, where[v], N(g));
    assert s == (s - {v}) + {v};
    DegSplit(g, u, s - {v}, {v});
    DegNonNegative(g, u, s - {v});
  }

  lemma {:induction false} ListsIgnoreSelf(degs: seq<Degree>, me: int, want: int -> int, want': int -> int)
    requires Lists(degs, me, want) && forall q :: q != me ==> want'(q) == want(q)
    ensures Lists(degs, me, want')
  {
    forall i | 0 <= i < |degs|
      ensures EntryOk(degs, me, want', i)
    {
      assert EntryOk(degs, me, want, i);
    }
  }

  /** A vertex that does not see `v` notices nothing. */
  lemma {:induction false} StrangerOk(g: Graph, where: seq<int>, v: int, to: int, u: int, info: Info)
    requires WellFormed(g) && Weighted.Shaped(g) && |where| == N(g) && 0 <= v < N(g) && 0 <= u < N(g) && u != v && where[v] != to
    requires InfoAt(g, where, u, info) && Deg(g, u, {v}) == 0
    ensures InfoAt(g, where[v := to], u, info)
  {
    hide Lists, Deg, WellFormed;
    forall q
      ensures Toward(g, where[v := to], u)(q) == Toward(g, where, u)(q)
    {
      TowardAfterMove(g, where, v, to, u, q);
    }
    assert Deg(g, v, {u}) == 0 by {
      BothWays(g, u, v);
    }
    EdAfterMove(g, where, v, to, u);
    IdAfterMove(g, where, v, to, u);
    SameLists(info.degs, where[u], Toward(g, where, u), Toward(g, where[v := to], u));
  }

  lemma BothWays(g: Graph, u: int, v: int)
    requires WellFormed(g) && Weighted.Shaped(g) && 0 <= u < N(g) && 0 <= v < N(g)
    ensures Deg(g, u, {v}) == Deg(g, v, {u})
  {
    assert SameBothWays(g, u, v);
  }

  /** The mover's own record: entry `k` and the internal degree change places. */
  function Moved(info: Info, k: int, from: int): Info
    requires 0 <= k < |info.degs|
  {
    Info(info.degs[k].ed, info.ed + info.id - info.degs[k].ed,
         if info.id == 0 then RemoveAt(info.degs, k) else info.degs[k := Degree(from, info.id)])
  }

  lemma {:induction false} MoverOk(g: Graph, where: seq<int>, v: int, info: Info, k: int)
    requires WellFormed(g) && Weighted.Shaped(g) && |where| == N(g) && 0 <= v < N(g)
    requires InfoAt(g, where, v, info) && 0 <= k < |info.degs|
    ensures var to := info.degs[k].pid;
      where[v] != to && InfoAt(g, where[v := to], v, Moved(info, k, where[v]))
  {
    var from, to := where[v], info.degs[k].pid;
    var f0 := Toward(g, where, v);
    assert EntryOk(info.degs, from, f0, k);
    var where' := where[v := to];
    var f1 := Toward(g, where', v);
    hide Deg, WellFormed, Toward;
    forall q
      ensures f1(q) == f0(q)
    {
      TowardAfterMove(g, where, v, to, v, q);
      DegSelf(g, v);
    }
    SelfDegrees(g, where, v, to);
    SwapLists(info.degs, from, f0, f1, k, info.id);
  }

  lemma {:induction false} SelfDegrees(g: Graph, where: seq<int>, v: int, to: int)
    requires WellFormed(g) && Weighted.Shaped(g) && |where| == N(g) && 0 <= v < N(g) && where[v] != to
    ensures var where' := where[v := to];
      && Id(g, where', v) == Toward(g, where, v)(to) && Id(g, where, v) == Toward(g, where, v)(where[v])
      && Ed(g, where', v) == Ed(g, where, v) + Id(g, where, v) - Toward(g, where, v)(to)
      && Id(g, where, v) >= 0
  {
    EdAfterMove(g, where, v, to, v);
    TowardAfterMove(g, where, v, to, v, to);
    DegSelf(g, v);
    DegNonNegative(g, v, Side(where, where[v], N(g)));
  }

  lemma {:induction false} SwapLists(degs: seq<Degree>, from: int, want: int -> int, want': int -> int, k: int, id: int)
    requires Lists(degs, from, want) && 0 <= k < |degs| && id == want(from) >= 0 && forall q :: want'(q) == want(q)
    ensures Lists(if id == 0 then RemoveAt(degs, k) else degs[k := Degree(from, id)], degs[k].pid, want')
  {
    var to := degs[k].pid;
    if id == 0 {
      var d, last := RemoveAt(degs, k), |degs| - 1;
      forall i | 0 <= i < |d|
        ensures EntryOk(d, to, want', i)
      {
        assert EntryOk(degs, from, want, if i == k then last else i);
      }
      forall q | q != to && want'(q) != 0
        ensures Has(d, q)
      {
        assert Has(degs, q);
        var i :| 0 <= i < |degs| && degs[i].pid == q;
        assert d[if i == last then k else i].pid == q;
      }
    } else {
      var d := degs[k := Degree(from, id)];
      forall i | 0 <= i < |d|
        ensures EntryOk(d, to, want', i) && (i != k ==> d[i].pid != from)
      {
        assert EntryOk(degs, from, want, i);
      }
      forall q | q != to && want'(q) != 0
        ensures Has(d, q)
      {
        if q == from {
          assert d[k].pid == from;
        } else {
          assert Has(degs, q);
          var i :| 0 <= i < |degs| && degs[i].pid == q;
          assert d[i].pid == q;
        }
      }
    }
  }

  // ---------------------------------------------------------------- room in the shared pool

  /** Each listed part is that of some neighbour, so the list fits into a slice as long as the row. */
  lemma {:induction false} ListFits(g: Graph, where: seq<int>, u: int, info: Info)
    requires WellFormed(g) && Weighted.Shaped(g) && |where| == N(g) && 0 <= u < N(g) && InfoAt(g, where, u, info)
    ensures |info.degs| <= Last(g.csr, u) - First(g.csr, u)
  {
    var n := |info.degs|;
    DistinctParts(g, where, u, info);
    hide WellFormed, Deg, InfoAt, Weighted.Shaped;
    var f := map i | i in Range(0, n) :: Neighbour(g, where, u, info, i);
    InjectionBounds(Range(0, n), f, Range(First(g.csr, u), Last(g.csr, u)));
  }

  lemma DistinctParts(g: Graph, where: seq<int>, u: int, info: Info)
    requires Weighted.Shaped(g) && |where| == N(g) && 0 <= u < N(g) && InfoAt(g, where, u, info)
    ensures forall i, j :: 0 <= i < |info.degs| && 0 <= j < |info.degs| && info.degs[i].pid == info.degs[j].pid ==> i == j
  {
    hide Deg;
  }

  ghost function Neighbour(g: Graph, where: seq<int>, u: int, info: Info, i: int): (j: int)
    requires WellFormed(g) && Weighted.Shaped(g) && |where| == N(g) && 0 <= u < N(g) && InfoAt(g, where, u, info)
    ensures 0 <= i < |info.degs| ==> First(g.csr, u) <= j < Last(g.csr, u) && 0 <= g.csr.adjncy[j] < N(g) && where[g.csr.adjncy[j]] == info.degs[i].pid
  {
    if 0 <= i < |info.degs| then
      var s := Side(where, info.degs[i].pid, N(g));
      assert EntryOk(info.degs, where[u], Toward(g, where, u), i);
      SomeNeighbour(g, u, s);
      var j :| First(g.csr, u) <= j < Last(g.csr, u) && g.csr.adjncy[j] in s;
      j
    else 0
  }

  lemma {:induction false} SomeNeighbour(g: Graph, u: int, s: set<int>)
    requires Weighted.Shaped(g) && 0 <= u < N(g) && Deg(g, u, s) != 0
    ensures exists j :: First(g.csr, u) <= j < Last(g.csr, u) && g.csr.adjncy[j] in s
  {
    if forall j :: First(g.csr, u) <= j < Last(g.csr, u) ==> g.csr.adjncy[j] !in s {
      IntoEmpty(g, First(g.csr, u), Last(g.csr, u), s);
    }
  }
}
