// Setting up k-way refinement: from scratch, and by projecting a coarse partition
// (ComputeKWayPartitionParams and ProjectKWayPartition, tools/assignment/metis/kwayrefine.c).
module KwayRefine {
  import opened Finite
  import opened Csrs
  import opened Weighted
  import opened CoarseGraph
  import opened Contraction
  import opened Kway
  import opened KwayState
  import KwayFm
  import Boundary

  ghost function Blank(): Info {
    Info(0, 0, [])
  }

  // ---------------------------------------------------------------- building one list

  /** The weight of the entries before position `j` that lead to part `q`. */
  ghost function Seen(g: Graph, where: seq<int>, u: int, j: int): int -> int
    requires Weighted.Shaped(g) && |where| == N(g) && 0 <= u < N(g) && First(g.csr, u) <= j <= Last(g.csr, u)
  {
    q => Into(g, First(g.csr, u), j, Side(where, q, N(g)))
  }

  ghost predicate Listed(g: Graph, where: seq<int>, u: int, j: int, degs: seq<Degree>, ed: int)
    requires Weighted.Shaped(g) && |where| == N(g) && 0 <= u < N(g) && First(g.csr, u) <= j <= Last(g.csr, u)
  {
    && Lists(degs, where[u], Seen(g, where, u, j)) && |degs| <= j - First(g.csr, u)
    && ed == Into(g, First(g.csr, u), j, Others(where, where[u])) && ed >= 0 && (ed == 0 <==> degs == [])
  }

  lemma NothingListed(g: Graph, where: seq<int>, u: int)
    requires Weighted.Shaped(g) && |where| == N(g) && 0 <= u < N(g)
    ensures Listed(g, where, u, First(g.csr, u), [], 0)
  {
  }

  lemma {:induction false} ListStep(g: Graph, where: seq<int>, u: int, j: int, degs: seq<Degree>, ed: int)
    requires WellFormed(g) && Weighted.Shaped(g) && |where| == N(g) && 0 <= u < N(g) && First(g.csr, u) <= j < Last(g.csr, u)
    requires Listed(g, where, u, j, degs, ed)
    ensures 0 <= g.csr.adjncy[j] < N(g) && g.adjwgt[j] > 0
    ensures var other, w := where[g.csr.adjncy[j]], g.adjwgt[j];
      if other == where[u] then Listed(g, where, u, j + 1, degs, ed) else Listed(g, where, u, j + 1, Give(degs, other, w), ed + w)
  {
    assert GoodRow(g, u) && GoodEntry(g, u, j);
    var me, other, w := where[u], where[g.csr.adjncy[j]], g.adjwgt[j];
    var f0, f1 := Seen(g, where, u, j), Seen(g, where, u, j + 1);
    forall q
      ensures f1(q) == f0(q) + (if q == other then w else 0) && f0(q) >= 0
    {
      SeenStep(g, where, u, j, q);
    }
    hide Lists, WellFormed;
    if other == me {
      ListsIgnoreSelf(degs, me, f0, f1);
    } else {
      GiveOk(degs, me, f0, other, w, f1);
    }
  }

  lemma {:induction false} SeenStep(g: Graph, where: seq<int>, u: int, j: int, q: int)
    requires WellFormed(g) && Weighted.Shaped(g) && |where| == N(g) && 0 <= u < N(g) && First(g.csr, u) <= j < Last(g.csr, u)
    requires 0 <= g.csr.adjncy[j] < N(g)
    ensures Seen(g, where, u, j + 1)(q) == Seen(g, where, u, j)(q) + if where[g.csr.adjncy[j]] == q then g.adjwgt[j] else 0
    ensures Seen(g, where, u, j)(q) >= 0
  {
    IntoGrows(g, u, j, j, Side(where, q, N(g)));
  }

  /** A row read to the end gives the whole record. */
  lemma {:induction false} ListDone(g: Graph, where: seq<int>, u: int, degs: seq<Degree>, ed: int, total: int)
    requires WellFormed(g) && Weighted.Shaped(g) && |where| == N(g) && 0 <= u < N(g)
    requires Listed(g, where, u, Last(g.csr, u), degs, ed) && total == Deg(g, u, Range(0, N(g)))
    ensures InfoAt(g, where, u, Info(total - ed, ed, degs))
  {
    EdPlusId(g, where, u);
    SameLists(degs, where[u], Seen(g, where, u, Last(g.csr, u)), Toward(g, where, u));
  }

  /** No external degree, no list. */
  lemma {:induction false} InteriorInfo(g: Graph, where: seq<int>, u: int, total: int)
    requires WellFormed(g) && Weighted.Shaped(g) && |where| == N(g) && 0 <= u < N(g)
    requires Ed(g, where, u) == 0 && total == Deg(g, u, Range(0, N(g)))
    ensures InfoAt(g, where, u, Info(total, 0, []))
  {
    EdPlusId(g, where, u);
    var others := Others(where, where[u]);
    forall q | q != where[u]
      ensures Toward(g, where, u)(q) == 0
    {
      var s := Side(where, q, N(g));
      assert others == (others - s) + s;
      DegSplit(g, u, others - s, s);
      DegNonNegative(g, u, others - s);
      DegNonNegative(g, u, s);
    }
  }

  // ---------------------------------------------------------------- from scratch

  /** The arrays so far: exact below `i`, blank from there on. */
  ghost predicate Filled(g: Graph, where: seq<int>, infos: seq<Info>, bnd: Boundary.List, i: int, islands: bool)
  {
    && WellFormed(g) && Weighted.Shaped(g) && |where| == |infos| == |bnd.ptr| == N(g) && 0 <= i <= N(g) && Boundary.Valid(bnd)
    && (forall u :: 0 <= u < i ==> FilledAt(g, where, infos, bnd, u, islands))
    && (forall u :: i <= u < N(g) ==> infos[u] == Blank() && !Boundary.Holds(bnd, u))
  }

  ghost predicate FilledAt(g: Graph, where: seq<int>, infos: seq<Info>, bnd: Boundary.List, u: int, islands: bool)
    requires Weighted.Shaped(g) && |where| == |infos| == |bnd.ptr| == N(g) && 0 <= u < N(g)
  {
    && InfoAt(g, where, u, infos[u])
    && (Boundary.Holds(bnd, u) <==> infos[u].ed >= infos[u].id && (islands || !KwayState.Isolated(g, u)))
  }

  lemma {:induction false} FillStep(g: Graph, where: seq<int>, infos: seq<Info>, bnd: Boundary.List, i: int, islands: bool,
                                    info: Info, bnd': Boundary.List)
    requires Filled(g, where, infos, bnd, i, islands) && i < N(g) && InfoAt(g, where, i, info) && Boundary.Valid(bnd') && |bnd'.ptr| == N(g)
    requires Boundary.Holds(bnd', i) <==> info.ed >= info.id && (islands || !KwayState.Isolated(g, i))
    requires forall u :: 0 <= u < N(g) && u != i ==> (Boundary.Holds(bnd', u) <==> Boundary.Holds(bnd, u))
    ensures Filled(g, where, infos[i := info], bnd', i + 1, islands)
  {
    hide InfoAt, Boundary.Valid, Boundary.Holds;
    var infos' := infos[i := info];
    forall u | 0 <= u <= i
      ensures FilledAt(g, where, infos', bnd', u, islands)
    {
      if u < i {
        assert FilledAt(g, where, infos, bnd, u, islands);
      }
    }
  }

  lemma {:induction false} FilledExact(g: Graph, where: seq<int>, infos: seq<Info>, bnd: Boundary.List, islands: bool)
    requires Filled(g, where, infos, bnd, N(g), islands) && Simple(g)
    ensures Exact(g, State(where, infos, bnd))
  {
    hide InfoAt, Boundary.Valid, Boundary.Holds, WellFormed;
    forall u | 0 <= u < N(g)
      ensures ExactAt(g, State(where, infos, bnd), u)
    {
      assert FilledAt(g, where, infos, bnd, u, islands);
    }
  }

  /** Fresh arrays: no vertex has a record, a slice or a place on the boundary list yet. */
  method AllocateKWayPartitionMemory(g: Graph, where: array<int>, nparts: int) returns (a: KwayFm.Arrays, ghost infos: seq<Info>, ghost bnd: Boundary.List)
    requires WellFormed(g) && Weighted.Shaped(g) && where.Length == N(g) && nparts >= 0
    ensures fresh(a) && fresh(a.rinfo) && fresh(a.pool) && fresh(a.bndptr) && fresh(a.bndind) && fresh(a.pwgts)
    ensures a.where == where && a.Valid(N(g)) && a.pwgts.Length == nparts && a.cdegree == 0
    ensures a.Lists(g, infos) && a.Bnd(bnd) && forall p :: 0 <= p < nparts ==> a.pwgts[p] == 0
    ensures forall u :: 0 <= u < N(g) ==> a.rinfo[u].edegrees == -1
    ensures forall islands, w :: |w| == N(g) ==> Filled(g, w, infos, bnd, 0, islands)
  {
    var rinfo := new RInfo[where.Length](_ => RInfo(0, 0, 0, -1));
    var pool := new Degree[|g.csr.adjncy|](_ => Degree(0, 0));
    var bndptr := new int[where.Length](_ => -1);
    var bndind := new int[where.Length](_ => 0);
    var pwgts := new int[nparts](_ => 0);
    a := new KwayFm.Arrays(where, rinfo, pool, bndptr, bndind, pwgts);
    infos := seq(N(g), _ => Blank());
    bnd := Boundary.List(bndptr[..], []);
    BlankPool(g, rinfo[..], pool[..], infos);
  }

  lemma {:induction false} BlankAllocated(g: Graph, r: seq<RInfo>, k: int)
    requires Weighted.Shaped(g) && |r| == N(g) && 0 <= k <= N(g) && forall u :: 0 <= u < N(g) ==> r[u].edegrees == -1
    ensures Allocated(g, r, k) == 0
  {
    if k > 0 {
      BlankAllocated(g, r, k - 1);
    }
  }

  lemma BlankPool(g: Graph, r: seq<RInfo>, pool: seq<Degree>, infos: seq<Info>)
    requires Weighted.Shaped(g) && |r| == |infos| == N(g) && |pool| == |g.csr.adjncy|
    requires forall u :: 0 <= u < N(g) ==> r[u] == RInfo(0, 0, 0, -1) && infos[u] == Blank()
    ensures PoolOk(g, r, pool, 0, infos)
  {
    BlankAllocated(g, r, N(g));
  }

  method ExternalDegree(g: Graph, where: array<int>, i: int) returns (ed: int)
    requires WellFormed(g) && Weighted.Shaped(g) && where.Length == N(g) && 0 <= i < N(g)
    ensures ed == Ed(g, where[..], i) >= 0
  {
    ed := 0;
    for j := First(g.csr, i) to Last(g.csr, i)
      invariant ed == Into(g, First(g.csr, i), j, Others(where[..], where[i])) >= 0
    {
      assert GoodRow(g, i) && GoodEntry(g, i, j);
      if where[i] != where[g.csr.adjncy[j]] {
        ed := ed + g.adjwgt[j];
      }
    }
  }

  /** The degree list of a vertex that has external degree (lines 187 to 208). */
  method FillList(g: Graph, a: KwayFm.Arrays, i: int, ghost infos: seq<Info>) returns (ghost degs: seq<Degree>)
    requires WellFormed(g) && Weighted.Shaped(g) && a.Valid(N(g)) && a.Lists(g, infos) && |infos| == N(g) && 0 <= i < N(g) && infos[i].degs == []
    modifies a`cdegree, a.rinfo, a.pool
    ensures a.Lists(g, infos[i := infos[i].(degs := degs)])
    ensures Listed(g, a.where[..], i, Last(g.csr, i), degs, Ed(g, a.where[..], i))
    ensures a.rinfo[..] == old(a.rinfo[..])[i := a.rinfo[i]] && a.rinfo[i].edegrees != -1
  {
    hide PoolOk, Listed, WellFormed, InfoAt;
    var me := a.where[i];
    degs := [];
    ghost var ed := 0;
    a.Allocate(g, i, infos);
    NothingListed(g, a.where[..], i);
    assert infos[i := infos[i].(degs := degs)] == infos;
    for j := First(g.csr, i) to Last(g.csr, i)
      invariant Listed(g, a.where[..], i, j, degs, ed) && a.rinfo[i].edegrees != -1
      invariant a.Lists(g, infos[i := infos[i].(degs := degs)])
      invariant a.rinfo[..] == old(a.rinfo[..])[i := a.rinfo[i]]
    {
      ListStep(g, a.where[..], i, j, degs, ed);
      var other, w := a.where[g.csr.adjncy[j]], g.adjwgt[j];
      if me != other {
        ListedLength(g, a.where[..], i, j + 1, Give(degs, other, w), ed + w);
        ghost var now := infos[i := infos[i].(degs := degs)];
        a.GiveTo(g, i, other, w, now);
        degs, ed := Give(degs, other, w), ed + w;
        assert now[i := now[i].(degs := degs)] == infos[i := infos[i].(degs := degs)];
      }
    }
    ListedEd(g, a.where[..], i, degs, ed);
  }

  lemma ListedLength(g: Graph, where: seq<int>, u: int, j: int, degs: seq<Degree>, ed: int)
    requires Weighted.Shaped(g) && |where| == N(g) && 0 <= u < N(g) && First(g.csr, u) <= j <= Last(g.csr, u) && Listed(g, where, u, j, degs, ed)
    ensures |degs| <= Len(g, u)
  {
  }

  lemma ListedEd(g: Graph, where: seq<int>, u: int, degs: seq<Degree>, ed: int)
    requires Weighted.Shaped(g) && |where| == N(g) && 0 <= u < N(g) && Listed(g, where, u, Last(g.csr, u), degs, ed)
    ensures ed == Ed(g, where, u)
  {
  }

  /** The record of one vertex (lines 167 to 208). */
  method FillVertex(g: Graph, adjwgtsum: seq<int>, a: KwayFm.Arrays, i: int, ghost infos: seq<Info>, ghost bnd: Boundary.List) returns (ed: int, ghost info: Info)
    requires WellFormed(g) && Weighted.Shaped(g) && SumsOk(g, adjwgtsum) && a.Valid(N(g)) && a.Lists(g, infos) && |infos| == N(g)
    requires 0 <= i < N(g) && infos[i] == Blank() && a.rinfo[i].edegrees == -1
    requires a.Bnd(bnd) && Boundary.Valid(bnd) && |bnd.ptr| == N(g) && !Boundary.Holds(bnd, i)
    modifies a`nbnd, a`cdegree, a.rinfo, a.pool, a.bndptr, a.bndind
    ensures a.rinfo[i].edegrees != -1 <==> info.ed > 0
    ensures InfoAt(g, a.where[..], i, info) && a.Lists(g, infos[i := info]) && ed == info.ed
    ensures a.Bnd(Rebound(bnd, i, info)) && a.rinfo[..] == old(a.rinfo[..])[i := a.rinfo[i]]
  {
    hide PoolOk, Listed, WellFormed, InfoAt, Boundary.Valid, Weighted.Shaped, SumsOk, Deg, Range, Ed;
    ed := ExternalDegree(g, a.where, i);
    SumAt(g, adjwgtsum, i);
    a.SetDegrees(g, i, adjwgtsum[i] - ed, ed, infos);
    info := Info(adjwgtsum[i] - ed, ed, []);
    ghost var now := infos[i := info];
    if ed - (adjwgtsum[i] - ed) >= 0 {
      a.BNDInsert(i, bnd);
    }
    if ed > 0 {
      ghost var degs := FillList(g, a, i, now);
      info := info.(degs := degs);
      assert now[i := now[i].(degs := degs)] == infos[i := info];
      ListDone(g, a.where[..], i, degs, ed, adjwgtsum[i]);
    } else {
      InteriorInfo(g, a.where[..], i, adjwgtsum[i]);
    }
  }

  lemma SumAt(g: Graph, adjwgtsum: seq<int>, i: int)
    requires Weighted.Shaped(g) && SumsOk(g, adjwgtsum) && 0 <= i < N(g)
    ensures |adjwgtsum| == N(g) && adjwgtsum[i] == Deg(g, i, Range(0, N(g)))
  {
  }

  /** Everything refinement needs, computed from the partition alone. */
  method ComputeKWayPartitionParams(g: Graph, adjwgtsum: seq<int>, where: array<int>, nparts: int) returns (a: KwayFm.Arrays, ghost s: State)
    requires Simple(g) && Weighted.Shaped(g) && SumsOk(g, adjwgtsum) && where.Length == N(g) && nparts >= 0
    requires forall u :: 0 <= u < N(g) ==> 0 <= where[u] < nparts
    ensures fresh(a) && a.where == where && a.Valid(N(g)) && s.where == where[..]
    ensures a.Shows(g, s) && Exact(g, s) && KwayFm.Books(g, where[..], nparts, a.pwgts[..], a.mincut)
    ensures forall u :: 0 <= u < N(g) && |s.bnd.ptr| == |s.infos| == N(g) ==> (Boundary.Holds(s.bnd, u) <==> s.infos[u].ed >= s.infos[u].id)
  {
    hide PoolOk, Listed, WellFormed, InfoAt, Boundary.Valid, Filled;
    ghost var infos, bnd;
    a, infos, bnd := AllocateKWayPartitionMemory(g, where, nparts);
    ghost var w := where[..];
    var mincut := 0;
    for i := 0 to N(g)
      invariant where[..] == w && a.pwgts.Length == nparts
      invariant a.Lists(g, infos) && a.Bnd(bnd) && Filled(g, w, infos, bnd, i, true)
      invariant forall p :: 0 <= p < nparts ==> a.pwgts[p] == PartWeight(g, w, p, i)
      invariant mincut == EdSum(g, w, i)
      invariant forall u :: i <= u < N(g) ==> a.rinfo[u].edegrees == -1
    {
      a.pwgts[where[i]] := a.pwgts[where[i]] + g.vwgt[i];
      FilledFacts(g, w, infos, bnd, i, true);
      ghost var info;
      var ed;
      ed, info := FillVertex(g, adjwgtsum, a, i, infos, bnd);
      if ed > 0 {
        mincut := mincut + ed;
      }
      ReboundOk(bnd, i, info);
      FillStep(g, w, infos, bnd, i, true, info, Rebound(bnd, i, info));
      InfoDegrees(g, w, i, info);
      infos, bnd := infos[i := info], Rebound(bnd, i, info);
    }
    a.mincut := mincut / 2;
    s := State(w, infos, bnd);
    FilledExact(g, w, infos, bnd, true);
    FilledBoundary(g, w, infos, bnd);
  }

  lemma FilledFacts(g: Graph, where: seq<int>, infos: seq<Info>, bnd: Boundary.List, i: int, islands: bool)
    requires Filled(g, where, infos, bnd, i, islands) && i < N(g)
    ensures |infos| == |bnd.ptr| == N(g) && infos[i] == Blank() && !Boundary.Holds(bnd, i) && Boundary.Valid(bnd)
  {
  }

  lemma FilledBoundary(g: Graph, where: seq<int>, infos: seq<Info>, bnd: Boundary.List)
    requires Filled(g, where, infos, bnd, N(g), true)
    ensures |infos| == |bnd.ptr| == N(g)
    ensures forall u :: 0 <= u < N(g) ==> (Boundary.Holds(bnd, u) <==> infos[u].ed >= infos[u].id)
  {
    hide InfoAt;
    forall u | 0 <= u < N(g)
      ensures Boundary.Holds(bnd, u) <==> infos[u].ed >= infos[u].id
    {
      assert FilledAt(g, where, infos, bnd, u, true);
    }
  }

  lemma InfoDegrees(g: Graph, where: seq<int>, u: int, info: Info)
    requires WellFormed(g) && Weighted.Shaped(g) && |where| == N(g) && 0 <= u < N(g) && InfoAt(g, where, u, info)
    ensures info.ed == Ed(g, where, u) >= 0
  {
    DegNonNegative(g, u, Others(where, where[u]));
  }

  // ---------------------------------------------------------------- the table that finds list positions

  /** The table knows where each part stands in the list, and -1 for those that are not in it. */
  ghost predicate TableOk(ht: seq<int>, degs: seq<Degree>) {
    forall q :: 0 <= q < |ht| ==> ht[q] == if PositionOf(degs, q) == |degs| then -1 else PositionOf(degs, q)
  }

  lemma {:induction false} PositionAppend(degs: seq<Degree>, p: int, w: int, q: int)
    requires PositionOf(degs, p) == |degs|
    ensures PositionOf(degs + [Degree(p, w)], q) == if q == p then |degs| else if PositionOf(degs, q) == |degs| then |degs| + 1 else PositionOf(degs, q)
  {
    var d := degs + [Degree(p, w)];
    assert forall i :: 0 <= i < |degs| ==> d[i] == degs[i];
    assert d[|degs|].pid == p;
  }

  lemma {:induction false} PositionSet(degs: seq<Degree>, k: int, w: int, q: int)
    requires 0 <= k < |degs|
    ensures PositionOf(degs[k := Degree(degs[k].pid, w)], q) == PositionOf(degs, q)
  {
    var d := degs[k := Degree(degs[k].pid, w)];
    assert forall i :: 0 <= i < |degs| ==> d[i].pid == degs[i].pid;
  }

  lemma {:induction false} TableGive(ht: seq<int>, degs: seq<Degree>, p: int, w: int)
    requires TableOk(ht, degs) && 0 <= p < |ht|
    ensures TableOk(if ht[p] == -1 then ht[p := |degs|] else ht, Give(degs, p, w))
  {
    hide PositionOf;
    forall q | 0 <= q < |ht|
      ensures var ht' := if ht[p] == -1 then ht[p := |degs|] else ht; var d := Give(degs, p, w);
        ht'[q] == if PositionOf(d, q) == |d| then -1 else PositionOf(d, q)
    {
      if PositionOf(degs, p) == |degs| {
        PositionAppend(degs, p, w, q);
      } else {
        PositionSet(degs, PositionOf(degs, p), degs[PositionOf(degs, p)].ed + w, q);
      }
    }
  }

  /** Adds to the entry of `other`, found through the table. */
  method HashedGive(g: Graph, a: KwayFm.Arrays, htable: array<int>, u: int, other: int, w: int, ghost infos: seq<Info>)
    requires a.Lists(g, infos) && 0 <= u < N(g) == a.rinfo.Length && |infos| == N(g) && a.rinfo[u].edegrees != -1
    requires TableOk(htable[..], infos[u].degs) && 0 <= other < htable.Length && |Give(infos[u].degs, other, w)| <= Len(g, u)
    requires htable != a.where
    modifies htable, a.pool, a.rinfo
    ensures a.Lists(g, infos[u := infos[u].(degs := Give(infos[u].degs, other, w))]) && a.rinfo[u].edegrees == old(a.rinfo[u].edegrees)
    ensures TableOk(htable[..], Give(infos[u].degs, other, w)) && a.rinfo[..] == old(a.rinfo[..])[u := a.rinfo[u]]
  {
    hide PoolOk, PositionOf, Weighted.Shaped, TableOk;
    TableFacts(htable[..], infos[u].degs, other);
    a.SliceFacts(g, u, infos);
    TableGive(htable[..], infos[u].degs, other, w);
    var k := htable[other];
    ghost var ht := htable[..];
    if k == -1 {
      htable[other] := a.rinfo[u].ndegrees;
      a.AppendEntry(g, u, Degree(other, w), infos);
    } else {
      a.SetEntry(g, u, k, Degree(other, a.pool[a.rinfo[u].edegrees + k].ed + w), infos);
    }
    assert htable[..] == if ht[other] == -1 then ht[other := |infos[u].degs|] else ht;
  }

  lemma TableFacts(ht: seq<int>, degs: seq<Degree>, q: int)
    requires TableOk(ht, degs) && 0 <= q < |ht|
    ensures ht[q] == if PositionOf(degs, q) == |degs| then -1 else PositionOf(degs, q)
    ensures ht[q] == -1 || (0 <= ht[q] < |degs| && degs[ht[q]].pid == q)
  {
  }

  ghost predicate EmptyTable(ht: seq<int>) {
    forall q :: 0 <= q < |ht| ==> ht[q] == -1
  }

  lemma EmptyTableOk(ht: seq<int>)
    requires EmptyTable(ht)
    ensures TableOk(ht, [])
  {
  }

  /** Takes the list's parts out of the table again. */
  method CleanTable(g: Graph, a: KwayFm.Arrays, htable: array<int>, u: int, ghost infos: seq<Info>)
    requires a.Lists(g, infos) && 0 <= u < N(g) == a.rinfo.Length && |infos| == N(g) && TableOk(htable[..], infos[u].degs)
    requires forall k :: 0 <= k < |infos[u].degs| ==> 0 <= infos[u].degs[k].pid < htable.Length
    modifies htable
    ensures EmptyTable(htable[..])
  {
    hide PoolOk, PositionOf;
    a.SliceFacts(g, u, infos);
    forall q | 0 <= q < htable.Length
      ensures htable[q] == -1 || (0 <= htable[q] < |infos[u].degs| && infos[u].degs[htable[q]].pid == q)
    {
      TableFacts(htable[..], infos[u].degs, q);
    }
    for j := 0 to a.rinfo[u].ndegrees
      invariant forall q :: 0 <= q < htable.Length ==>
        htable[q] == -1 || (j <= htable[q] < |infos[u].degs| && infos[u].degs[htable[q]].pid == q)
    {
      assert a.pool[a.rinfo[u].edegrees + j] == infos[u].degs[j];
      htable[a.pool[a.rinfo[u].edegrees + j].pid] := -1;
    }
  }

  // ---------------------------------------------------------------- projection

  /** Reading a row through the table (lines 270 to 291). */
  method ProjectList(g: Graph, a: KwayFm.Arrays, htable: array<int>, i: int, ghost infos: seq<Info>) returns (ed: int, ghost degs: seq<Degree>)
    requires WellFormed(g) && Weighted.Shaped(g) && a.Valid(N(g)) && a.Lists(g, infos) && |infos| == N(g) && 0 <= i < N(g) && infos[i].degs == []
    requires a.rinfo[i].edegrees != -1 && EmptyTable(htable[..]) && htable != a.where
    requires forall u :: 0 <= u < N(g) ==> 0 <= a.where[u] < htable.Length
    modifies htable, a.pool, a.rinfo
    ensures Listed(g, a.where[..], i, Last(g.csr, i), degs, ed)
    ensures a.Lists(g, infos[i := infos[i].(degs := degs)]) && TableOk(htable[..], degs)
    ensures a.rinfo[..] == old(a.rinfo[..])[i := a.rinfo[i]] && a.rinfo[i].edegrees == old(a.rinfo[i].edegrees)
    ensures ed == 0 ==> a.pool[..] == old(a.pool[..]) && a.rinfo[..] == old(a.rinfo[..]) && EmptyTable(htable[..])
  {
    hide PoolOk, Listed, WellFormed, InfoAt, TableOk, EmptyTable;
    var me := a.where[i];
    ed, degs := 0, [];
    NothingListed(g, a.where[..], i);
    EmptyTableOk(htable[..]);
    assert infos[i := infos[i].(degs := degs)] == infos;
    for j := First(g.csr, i) to Last(g.csr, i)
      invariant Listed(g, a.where[..], i, j, degs, ed) && TableOk(htable[..], degs) && a.where[..] == old(a.where[..])
      invariant a.Lists(g, infos[i := infos[i].(degs := degs)])
      invariant a.rinfo[..] == old(a.rinfo[..])[i := a.rinfo[i]] && a.rinfo[i].edegrees == old(a.rinfo[i].edegrees)
      invariant ed == 0 ==> a.pool[..] == old(a.pool[..]) && a.rinfo[..] == old(a.rinfo[..]) && EmptyTable(htable[..])
      invariant ed >= 0
    {
      ListStep(g, a.where[..], i, j, degs, ed);
      var other, w := a.where[g.csr.adjncy[j]], g.adjwgt[j];
      if me != other {
        ListedLength(g, a.where[..], i, j + 1, Give(degs, other, w), ed + w);
        ghost var now := infos[i := infos[i].(degs := degs)];
        HashedGive(g, a, htable, i, other, w, now);
        degs, ed := Give(degs, other, w), ed + w;
        assert now[i := now[i].(degs := degs)] == infos[i := infos[i].(degs := degs)];
      }
    }
  }

  lemma {:induction false} ListedInRange(g: Graph, where: seq<int>, u: int, info: Info, nparts: int)
    requires WellFormed(g) && Weighted.Shaped(g) && |where| == N(g) && 0 <= u < N(g) && InfoAt(g, where, u, info)
    requires forall x :: 0 <= x < N(g) ==> 0 <= where[x] < nparts
    ensures forall k :: 0 <= k < |info.degs| ==> 0 <= info.degs[k].pid < nparts
  {
    hide WellFormed, InfoAt;
    forall k | 0 <= k < |info.degs|
      ensures 0 <= info.degs[k].pid < nparts
    {
      var j := Neighbour(g, where, u, info, k);
    }
  }

  /** A vertex with edges but no external degree is no boundary vertex. */
  lemma {:induction false} InteriorNotBoundary(g: Graph, where: seq<int>, u: int, info: Info)
    requires WellFormed(g) && Weighted.Shaped(g) && |where| == N(g) && 0 <= u < N(g) && InfoAt(g, where, u, info)
    ensures info.ed == 0 && !KwayState.Isolated(g, u) ==> info.id > 0
    ensures info.ed > 0 ==> !KwayState.Isolated(g, u)
  {
    var all := Range(0, N(g));
    EdPlusId(g, where, u);
    if KwayState.Isolated(g, u) {
      IntoEmpty(g, First(g.csr, u), Last(g.csr, u), Others(where, where[u]));
    } else {
      var j := First(g.csr, u);
      assert GoodRow(g, u) && GoodEntry(g, u, j);
      IntoGrows(g, u, j + 1, Last(g.csr, u), all);
    }
  }

  /**
   * The record of a vertex whose coarse vertex had external degree (lines 269 to 307). The slice is
   * handed back when it turns out not to be needed.
   */
  method ProjectVertex(g: Graph, adjwgtsum: seq<int>, a: KwayFm.Arrays, htable: array<int>, i: int, ghost infos: seq<Info>, ghost bnd: Boundary.List)
    returns (ghost info: Info, ghost bnd': Boundary.List)
    requires WellFormed(g) && Weighted.Shaped(g) && SumsOk(g, adjwgtsum) && a.Valid(N(g)) && a.Lists(g, infos) && |infos| == N(g)
    requires 0 <= i < N(g) && infos[i] == Blank() && a.rinfo[i].edegrees == -1
    requires a.Bnd(bnd) && Boundary.Valid(bnd) && |bnd.ptr| == N(g) && !Boundary.Holds(bnd, i)
    requires EmptyTable(htable[..]) && htable !in {a.where, a.bndptr, a.bndind}
    requires forall u :: 0 <= u < N(g) ==> 0 <= a.where[u] < htable.Length
    modifies a`nbnd, a`cdegree, a.rinfo, a.pool, a.bndptr, a.bndind, htable
    ensures InfoAt(g, a.where[..], i, info) && a.Lists(g, infos[i := info]) && EmptyTable(htable[..])
    ensures a.Bnd(bnd') && bnd' == if info.ed > 0 && info.ed >= info.id then Boundary.Insert(bnd, i) else bnd
    ensures a.rinfo[..] == old(a.rinfo[..])[i := a.rinfo[i]] && (a.rinfo[i].edegrees != -1 <==> info.ed > 0)
  {
    hide PoolOk, Listed, WellFormed, InfoAt, Boundary.Valid, TableOk, EmptyTable, Weighted.Shaped, Deg, Range;
    SumAt(g, adjwgtsum, i);
    ghost var r0, p0, cd0 := a.rinfo[..], a.pool[..], a.cdegree;
    a.Allocate(g, i, infos);
    ghost var degs;
    var ed;
    bnd' := bnd;
    ed, degs := ProjectList(g, a, htable, i, infos);
    ListDone(g, a.where[..], i, degs, ed, adjwgtsum[i]);
    info := Info(adjwgtsum[i] - ed, ed, degs);
    ListedEmpty(g, a.where[..], i, degs, ed);
    if ed == 0 {
      a.cdegree := a.cdegree - Len(g, i);
      a.rinfo[i] := a.rinfo[i].(edegrees := -1);
      assert a.rinfo[..] == r0 && a.pool[..] == p0 && a.cdegree == cd0;
      a.SetDegrees(g, i, adjwgtsum[i] - ed, ed, infos);
    } else {
      ghost var now := infos[i := infos[i].(degs := degs)];
      a.SetDegrees(g, i, adjwgtsum[i] - ed, ed, now);
      assert now[i := info] == infos[i := info];
      if ed - (adjwgtsum[i] - ed) >= 0 {
        a.BNDInsert(i, bnd);
        bnd' := Boundary.Insert(bnd, i);
      }
      ListedInRange(g, a.where[..], i, info, htable.Length);
      CleanTable(g, a, htable, i, infos[i := info]);
    }
  }

  lemma ListedEmpty(g: Graph, where: seq<int>, u: int, degs: seq<Degree>, ed: int)
    requires Weighted.Shaped(g) && |where| == N(g) && 0 <= u < N(g) && Listed(g, where, u, Last(g.csr, u), degs, ed)
    ensures ed >= 0 && (ed == 0 <==> degs == [])
  {
  }

  /** When the coarse vertex had no external degree, neither has the fine one. */
  lemma {:induction false} InteriorStays(g: Graph, match_: seq<int>, cmap: seq<int>, rep: seq<int>, cg: Graph, cw: seq<int>, u: int)
    requires IsCoarse(g, match_, cmap, rep, cg) && |cw| == |rep| && 0 <= u < N(g)
    ensures Weighted.Shaped(cg) && N(cg) == |cw| && Weighted.Shaped(g) && |cmap| == N(g)
    ensures forall x :: 0 <= x < |cmap| ==> 0 <= cmap[x] < |cw|
    ensures Ed(cg, cw, cmap[u]) >= 0 && Ed(g, Induced(cmap, cw), u) >= 0
    ensures Ed(cg, cw, cmap[u]) == 0 ==> Ed(g, Induced(cmap, cw), u) == 0
  {
    ClassInRange(g, match_, cmap, rep, cg, u);
    CoarseEd(g, match_, cmap, rep, cg, cw, cmap[u]);
    CoarseFacts(g, match_, cmap, rep, cg, cmap[u]);
    var w := Induced(cmap, cw);
    hide WellFormed, IsCoarse, Deg, Weighted.Shaped;
    WellFormedFine(g, match_, cmap, rep, cg);
    forall x | 0 <= x < N(g)
      ensures Ed(g, w, x) >= 0
    {
      DegNonNegative(g, x, Others(w, w[x]));
    }
    var v := rep[cmap[u]];
    assert u == v || u == match_[v];
  }

  lemma WellFormedFine(g: Graph, match_: seq<int>, cmap: seq<int>, rep: seq<int>, cg: Graph)
    requires IsCoarse(g, match_, cmap, rep, cg)
    ensures WellFormed(g)
  {
  }

  lemma ClassInRange(g: Graph, match_: seq<int>, cmap: seq<int>, rep: seq<int>, cg: Graph, u: int)
    requires IsCoarse(g, match_, cmap, rep, cg) && 0 <= u < N(g)
    ensures |cmap| == N(g) && 0 <= cmap[u] < |rep|
  {
    assert ClassOf(match_, cmap, |rep|, u);
  }

  /** The coarse graph, and what refinement left behind for it. */
  datatype Coarse = Coarse(cg: Graph, where: seq<int>, ed: seq<int>, pwgts: seq<int>, mincut: int)

  ghost predicate CoarseOk(c: Coarse, nparts: int) {
    && Weighted.Shaped(c.cg) && KwayFm.Books(c.cg, c.where, nparts, c.pwgts, c.mincut)
    && |c.ed| == N(c.cg) && forall k :: 0 <= k < N(c.cg) ==> c.ed[k] == Ed(c.cg, c.where, k)
  }

  /** The fine partition; `cmap` is overwritten with the coarse external degrees (lines 251 to 255). */
  method ProjectWhere(g: Graph, cmap: array<int>, c: Coarse, ghost match_: seq<int>, ghost rep: seq<int>) returns (where: array<int>)
    requires IsCoarse(g, match_, cmap[..], rep, c.cg) && |c.where| == |c.ed| == |rep| && cmap.Length == N(g)
    modifies cmap
    ensures fresh(where) && where.Length == N(g)
    ensures forall x :: 0 <= x < N(g) ==> 0 <= old(cmap[..])[x] < |rep|
    ensures where[..] == Induced(old(cmap[..]), c.where)
    ensures forall x :: 0 <= x < N(g) ==> cmap[x] == c.ed[old(cmap[..])[x]]
  {
    hide IsCoarse, WellFormed;
    where := new int[cmap.Length];
    ghost var m := cmap[..];
    forall x | 0 <= x < N(g)
      ensures 0 <= m[x] < |rep|
    {
      ClassInRange(g, match_, m, rep, c.cg, x);
    }
    for i := 0 to cmap.Length
      invariant forall x :: 0 <= x < i ==> where[x] == c.where[m[x]] && cmap[x] == c.ed[m[x]]
      invariant forall x :: i <= x < cmap.Length ==> cmap[x] == m[x]
    {
      var k := cmap[i];
      where[i] := c.where[k];
      cmap[i] := c.ed[k];
    }
  }

  /**
   * Projects a coarse partition and sets up refinement of the fine one. Vertices whose coarse vertex
   * had no external degree are skipped, and cut and part weights are copied; nothing is lost.
   */
  method ProjectKWayPartition(g: Graph, adjwgtsum: seq<int>, cmap: array<int>, c: Coarse, nparts: int, ghost match_: seq<int>, ghost rep: seq<int>)
    returns (a: KwayFm.Arrays, ghost s: State)
    requires Simple(g) && Weighted.Shaped(g) && SumsOk(g, adjwgtsum) && nparts >= 0 && cmap.Length == N(g)
    requires IsCoarse(g, match_, cmap[..], rep, c.cg) && CoarseOk(c, nparts)
    modifies cmap
    ensures fresh(a) && a.Valid(N(g)) && a.Shows(g, s) && Exact(g, s)
    ensures forall x :: 0 <= x < N(g) ==> 0 <= old(cmap[..])[x] < |c.where|
    ensures s.where == Induced(old(cmap[..]), c.where)
    ensures KwayFm.Books(g, s.where, nparts, a.pwgts[..], a.mincut)
    ensures forall u :: 0 <= u < N(g) && |s.bnd.ptr| == |s.infos| == N(g) ==>
      (Boundary.Holds(s.bnd, u) <==> s.infos[u].ed >= s.infos[u].id && First(g.csr, u) < Last(g.csr, u))
  {
    SimpleFacts(g);
    hide PoolOk, WellFormed, Boundary.Valid, Filled, IsCoarse, EmptyTable, KwayFm.Books, Simple, Exact, CoarseOk, Ed, SumsOk, Weighted.Shaped, Deg, Range, Cut, PartWeight, Boundary.Holds, Listed;
    CoarseSizes(g, match_, cmap[..], rep, c, nparts);
    ghost var m := cmap[..];
    var where := ProjectWhere(g, cmap, c, match_, rep);
    ghost var infos, bnd;
    a, infos, bnd := AllocateKWayPartitionMemory(g, where, nparts);
    s := ProjectRecords(g, adjwgtsum, cmap[..], c, nparts, a, infos, bnd, match_, m, rep);
  }

  /** Everything after the partition itself has been projected. */
  method ProjectRecords(g: Graph, adjwgtsum: seq<int>, ced: seq<int>, c: Coarse, nparts: int, a: KwayFm.Arrays, ghost infos0: seq<Info>, ghost bnd0: Boundary.List,
                        ghost match_: seq<int>, ghost m: seq<int>, ghost rep: seq<int>)
    returns (ghost s: State)
    requires Simple(g) && WellFormed(g) && Weighted.Shaped(g) && SumsOk(g, adjwgtsum) && nparts >= 0 && a.Valid(N(g))
    requires IsCoarse(g, match_, m, rep, c.cg) && CoarseOk(c, nparts) && |m| == |ced| == N(g) && |c.where| == |rep| == |c.ed|
    requires (forall x :: 0 <= x < |m| ==> 0 <= m[x] < |c.where|) && a.where[..] == Induced(m, c.where)
    requires forall x :: 0 <= x < N(g) ==> ced[x] == c.ed[m[x]]
    requires a.Lists(g, infos0) && a.Bnd(bnd0) && Filled(g, a.where[..], infos0, bnd0, 0, false)
    requires a.pwgts.Length == nparts && forall u :: 0 <= u < N(g) ==> a.rinfo[u].edegrees == -1
    modifies a, a.rinfo, a.pool, a.bndptr, a.bndind, a.pwgts
    ensures a.Shows(g, s) && Exact(g, s) && s.where == Induced(m, c.where)
    ensures KwayFm.Books(g, s.where, nparts, a.pwgts[..], a.mincut) && |s.bnd.ptr| == |s.infos| == N(g)
    ensures forall u :: 0 <= u < N(g) ==>
      (Boundary.Holds(s.bnd, u) <==> s.infos[u].ed >= s.infos[u].id && First(g.csr, u) < Last(g.csr, u))
  {
    hide PoolOk, WellFormed, Boundary.Valid, Boundary.Holds, Filled, IsCoarse, KwayFm.Books, Simple, Exact, CoarseOk, SumsOk, Weighted.Shaped;
    CoarseSizes(g, match_, m, rep, c, nparts);
    ghost var infos, bnd;
    infos, bnd := ProjectAll(g, adjwgtsum, ced, c, nparts, a, infos0, bnd0, match_, m, rep);
    Projected(g, match_, m, rep, c, nparts, infos, bnd);
    CopyWeights(a.pwgts, c.pwgts, c.cg, c.where, nparts, c.mincut);
    a.mincut := c.mincut;
    s := State(Induced(m, c.where), infos, bnd);
  }

  /** What the finished loop and the copied numbers amount to. */
  lemma Projected(g: Graph, match_: seq<int>, cmap: seq<int>, rep: seq<int>, c: Coarse, nparts: int, infos: seq<Info>, bnd: Boundary.List)
    requires IsCoarse(g, match_, cmap, rep, c.cg) && CoarseOk(c, nparts) && |c.where| == |rep| && Simple(g)
    requires |cmap| == N(g) && (forall x :: 0 <= x < |cmap| ==> 0 <= cmap[x] < |c.where|)
    requires Filled(g, Induced(cmap, c.where), infos, bnd, N(g), false)
    ensures Exact(g, State(Induced(cmap, c.where), infos, bnd))
    ensures KwayFm.Books(g, Induced(cmap, c.where), nparts, c.pwgts, c.mincut)
    ensures Weighted.Shaped(g) && |bnd.ptr| == |infos| == N(g)
    ensures forall u :: 0 <= u < N(g) ==> (Boundary.Holds(bnd, u) <==> infos[u].ed >= infos[u].id && First(g.csr, u) < Last(g.csr, u))
  {
    var w := Induced(cmap, c.where);
    FilledNoIslands(g, w, infos, bnd);
    hide IsCoarse, Filled, CoarseOk, KwayFm.Books, Exact, Simple;
    FilledExact(g, w, infos, bnd, false);
    ProjectedBooks(g, match_, cmap, rep, c, nparts);
  }

  /** The loop over the vertices (lines 259 to 308); `ced` holds the coarse external degrees. */
  method ProjectAll(g: Graph, adjwgtsum: seq<int>, ced: seq<int>, c: Coarse, nparts: int, a: KwayFm.Arrays, ghost infos0: seq<Info>, ghost bnd0: Boundary.List,
                    ghost match_: seq<int>, ghost m: seq<int>, ghost rep: seq<int>)
    returns (ghost infos: seq<Info>, ghost bnd: Boundary.List)
    requires Simple(g) && WellFormed(g) && Weighted.Shaped(g) && SumsOk(g, adjwgtsum) && nparts >= 0 && a.Valid(N(g))
    requires IsCoarse(g, match_, m, rep, c.cg) && CoarseOk(c, nparts) && |m| == |ced| == N(g) && |c.where| == |rep| == |c.ed|
    requires (forall x :: 0 <= x < |m| ==> 0 <= m[x] < |c.where|) && a.where[..] == Induced(m, c.where)
    requires forall x :: 0 <= x < N(g) ==> ced[x] == c.ed[m[x]]
    requires a.Lists(g, infos0) && a.Bnd(bnd0) && Filled(g, a.where[..], infos0, bnd0, 0, false)
    requires forall u :: 0 <= u < N(g) ==> a.rinfo[u].edegrees == -1
    modifies a`nbnd, a`cdegree, a.rinfo, a.pool, a.bndptr, a.bndind
    ensures a.Lists(g, infos) && a.Bnd(bnd) && Filled(g, a.where[..], infos, bnd, N(g), false)
  {
    CoarseSizes(g, match_, m, rep, c, nparts);
    ProjectedRange(g, m, c, nparts, a.where[..]);
    hide PoolOk, WellFormed, Boundary.Valid, Filled, IsCoarse, EmptyTable, Simple, CoarseOk, Ed, SumsOk;
    infos, bnd := infos0, bnd0;
    var htable := new int[nparts](_ => -1);
    FreshTable(htable[..]);
    for i := 0 to N(g)
      invariant EmptyTable(htable[..])
      invariant a.Lists(g, infos) && a.Bnd(bnd) && Filled(g, a.where[..], infos, bnd, i, false)
      invariant forall u :: i <= u < N(g) ==> a.rinfo[u].edegrees == -1
    {
      SkipOk(g, match_, m, rep, c, nparts, a.where[..], i);
      infos, bnd := ProjectOne(g, adjwgtsum, a, htable, i, ced[i], infos, bnd);
    }
  }

  /** One vertex: a record of its own only if its coarse vertex had external degree. */
  method ProjectOne(g: Graph, adjwgtsum: seq<int>, a: KwayFm.Arrays, htable: array<int>, i: int, ced: int, ghost infos: seq<Info>, ghost bnd: Boundary.List)
    returns (ghost infos': seq<Info>, ghost bnd': Boundary.List)
    requires WellFormed(g) && Weighted.Shaped(g) && SumsOk(g, adjwgtsum) && a.Valid(N(g)) && a.Lists(g, infos) && a.Bnd(bnd) && 0 <= i < N(g)
    requires Filled(g, a.where[..], infos, bnd, i, false) && a.rinfo[i].edegrees == -1
    requires EmptyTable(htable[..]) && htable !in {a.where, a.bndptr, a.bndind}
    requires forall u :: 0 <= u < N(g) ==> 0 <= a.where[u] < htable.Length
    requires ced > 0 || Ed(g, a.where[..], i) == 0
    modifies a`nbnd, a`cdegree, a.rinfo, a.pool, a.bndptr, a.bndind, htable
    ensures a.Lists(g, infos') && a.Bnd(bnd') && Filled(g, a.where[..], infos', bnd', i + 1, false) && EmptyTable(htable[..])
    ensures a.rinfo[..] == old(a.rinfo[..])[i := a.rinfo[i]]
  {
    hide PoolOk, WellFormed, InfoAt, Boundary.Valid, Filled, EmptyTable, Weighted.Shaped;
    FilledFacts(g, a.where[..], infos, bnd, i, false);
    SumAt(g, adjwgtsum, i);
    ghost var info;
    info, bnd' := Info(adjwgtsum[i], 0, []), bnd;
    if ced > 0 {
      info, bnd' := ProjectVertex(g, adjwgtsum, a, htable, i, infos, bnd);
      InfoDegrees(g, a.where[..], i, info);
    } else {
      a.SetDegrees(g, i, adjwgtsum[i], 0, infos);
      InteriorInfo(g, a.where[..], i, adjwgtsum[i]);
      assert infos[i].(id := adjwgtsum[i], ed := 0) == info;
    }
    ProjectStep(g, a.where[..], infos, bnd, i, info, bnd');
    infos' := infos[i := info];
  }

  lemma SimpleFacts(g: Graph)
    requires Simple(g)
    ensures WellFormed(g) && Weighted.Shaped(g) && N(g) >= 0
  {
  }

  lemma FreshTable(ht: seq<int>)
    requires forall q :: 0 <= q < |ht| ==> ht[q] == -1
    ensures EmptyTable(ht)
  {
  }

  lemma CoarseSizes(g: Graph, match_: seq<int>, cmap: seq<int>, rep: seq<int>, c: Coarse, nparts: int)
    requires IsCoarse(g, match_, cmap, rep, c.cg) && CoarseOk(c, nparts)
    ensures WellFormed(g) && |c.where| == |c.ed| == |rep| == N(c.cg) && |c.pwgts| == nparts
    ensures KwayFm.Books(c.cg, c.where, nparts, c.pwgts, c.mincut)
    ensures forall k :: 0 <= k < |c.where| ==> 0 <= c.where[k] < nparts
  {
  }

  lemma {:induction false} SkipOk(g: Graph, match_: seq<int>, cmap: seq<int>, rep: seq<int>, c: Coarse, nparts: int, w: seq<int>, i: int)
    requires IsCoarse(g, match_, cmap, rep, c.cg) && CoarseOk(c, nparts) && 0 <= i < N(g) == |cmap| && |c.where| == |rep|
    requires (forall x :: 0 <= x < |cmap| ==> 0 <= cmap[x] < |c.where|) && w == Induced(cmap, c.where)
    ensures Weighted.Shaped(g) && |c.ed| == |rep| && (c.ed[cmap[i]] > 0 || Ed(g, w, i) == 0)
  {
    hide IsCoarse;
    InteriorStays(g, match_, cmap, rep, c.cg, c.where, i);
  }

  lemma ProjectedRange(g: Graph, cmap: seq<int>, c: Coarse, nparts: int, w: seq<int>)
    requires |cmap| == N(g) && (forall x :: 0 <= x < |cmap| ==> 0 <= cmap[x] < |c.where|) && w == Induced(cmap, c.where)
    requires forall k :: 0 <= k < |c.where| ==> 0 <= c.where[k] < nparts
    ensures forall x :: 0 <= x < N(g) ==> 0 <= w[x] < nparts
  {
  }

  lemma {:induction false} ProjectStep(g: Graph, where: seq<int>, infos: seq<Info>, bnd: Boundary.List, i: int, info: Info, bnd': Boundary.List)
    requires Filled(g, where, infos, bnd, i, false) && i < N(g) && InfoAt(g, where, i, info) && info.ed >= 0
    requires bnd' == if info.ed > 0 && info.ed >= info.id then Boundary.Insert(bnd, i) else bnd
    ensures Filled(g, where, infos[i := info], bnd', i + 1, false)
  {
    InteriorNotBoundary(g, where, i, info);
    Boundary.InsertValid(bnd, i);
    hide InfoAt, Boundary.Insert;
    FillStep(g, where, infos, bnd, i, false, info, bnd');
  }

  method CopyWeights(pwgts: array<int>, cpwgts: seq<int>, ghost cg: Graph, ghost cw: seq<int>, ghost nparts: int, ghost mincut: int)
    requires pwgts.Length == nparts && KwayFm.Books(cg, cw, nparts, cpwgts, mincut)
    modifies pwgts
    ensures pwgts[..] == cpwgts
  {
    for i := 0 to pwgts.Length
      invariant forall p :: 0 <= p < i ==> pwgts[p] == cpwgts[p]
    {
      pwgts[i] := cpwgts[i];
    }
  }

  /** The copied cut and part weights are those of the fine partition. */
  lemma {:induction false} ProjectedBooks(g: Graph, match_: seq<int>, cmap: seq<int>, rep: seq<int>, c: Coarse, nparts: int)
    requires IsCoarse(g, match_, cmap, rep, c.cg) && CoarseOk(c, nparts) && |c.where| == |rep|
    ensures Weighted.Shaped(g) && |cmap| == N(g) && forall x :: 0 <= x < |cmap| ==> 0 <= cmap[x] < |c.where|
    ensures KwayFm.Books(g, Induced(cmap, c.where), nparts, c.pwgts, c.mincut)
  {
    hide IsCoarse, Cut, PartWeight;
    ContractionPreserves(g, match_, cmap, rep, c.cg, c.where);
  }

  lemma FilledNoIslands(g: Graph, where: seq<int>, infos: seq<Info>, bnd: Boundary.List)
    requires Filled(g, where, infos, bnd, N(g), false)
    ensures Weighted.Shaped(g) && |infos| == |bnd.ptr| == N(g)
    ensures forall u :: 0 <= u < N(g) ==> (Boundary.Holds(bnd, u) <==> infos[u].ed >= infos[u].id && First(g.csr, u) < Last(g.csr, u))
  {
    hide InfoAt;
    forall u | 0 <= u < N(g)
      ensures Boundary.Holds(bnd, u) <==> infos[u].ed >= infos[u].id && First(g.csr, u) < Last(g.csr, u)
    {
      assert FilledAt(g, where, infos, bnd, u, false);
    }
  }
}
