// The state of k-way refinement as values: one move, neighbour by neighbour, and the shared pool from
// which the degree lists are cut.
module KwayState {
  import opened Finite
  import opened Csrs
  import opened Weighted
  import opened Kway
  import Boundary

  datatype State = State(where: seq<int>, infos: seq<Info>, bnd: Boundary.List)

  ghost predicate Sized(g: Graph, s: State) {
    |s.where| == |s.infos| == |s.bnd.ptr| == N(g)
  }

  ghost predicate Isolated(g: Graph, u: int)
    requires Weighted.Shaped(g) && 0 <= u < N(g)
  {
    First(g.csr, u) == Last(g.csr, u)
  }

  /**
   * Boundary vertices are those whose external degree is no less than their internal one. A vertex
   * without edges may be on the list (it is after ComputeKWayPartitionParams) or not (after projection).
   */
  ghost predicate BndAt(g: Graph, s: State, u: int)
    requires Weighted.Shaped(g) && |s.infos| == |s.bnd.ptr| == N(g) && 0 <= u < N(g)
  {
    Isolated(g, u) || (Boundary.Holds(s.bnd, u) <==> s.infos[u].ed >= s.infos[u].id)
  }

  ghost predicate ExactAt(g: Graph, s: State, u: int)
    requires Weighted.Shaped(g) && Sized(g, s) && 0 <= u < N(g)
  {
    InfoAt(g, s.where, u, s.infos[u]) && BndAt(g, s, u)
  }

  /** Everything stored agrees with its recomputation. */
  ghost predicate Exact(g: Graph, s: State) {
    && Simple(g) && Weighted.Shaped(g) && Sized(g, s) && Boundary.Valid(s.bnd)
    && forall u :: 0 <= u < N(g) ==> ExactAt(g, s, u)
  }

  /** The part of the row of `v` from position `j` on. */
  ghost function Rest(g: Graph, v: int, j: int): seq<int>
    requires Weighted.Shaped(g) && 0 <= v < N(g) && First(g.csr, v) <= j <= Last(g.csr, v)
  {
    g.csr.adjncy[j..Last(g.csr, v)]
  }

  ghost predicate MidAt(g: Graph, where0: seq<int>, s: State, v: int, j: int, u: int)
    requires Weighted.Shaped(g) && Sized(g, s) && |where0| == N(g) && 0 <= v < N(g) && 0 <= u < N(g)
    requires First(g.csr, v) <= j <= Last(g.csr, v)
  {
    InfoAt(g, if u in Rest(g, v, j) then where0 else s.where, u, s.infos[u]) && BndAt(g, s, u)
  }

  /** `v` has moved from where it was in `where0`; its neighbours before position `j` know. */
  ghost predicate Mid(g: Graph, where0: seq<int>, s: State, v: int, j: int) {
    && Simple(g) && Weighted.Shaped(g) && Sized(g, s) && Boundary.Valid(s.bnd) && |where0| == N(g)
    && 0 <= v < N(g) && First(g.csr, v) <= j <= Last(g.csr, v)
    && s.where == where0[v := s.where[v]] && s.where[v] != where0[v]
    && forall u :: 0 <= u < N(g) ==> MidAt(g, where0, s, v, j, u)
  }

  // ---------------------------------------------------------------- the boundary list

  ghost function Rebound(bnd: Boundary.List, u: int, info: Info): Boundary.List
    requires Boundary.Valid(bnd) && 0 <= u < |bnd.ptr|
  {
    if info.ed >= info.id && !Boundary.Holds(bnd, u) then Boundary.Insert(bnd, u)
    else if info.ed < info.id && Boundary.Holds(bnd, u) then
      Boundary.DeleteValid(bnd, u); Boundary.Delete(bnd, u)
    else bnd
  }

  lemma ReboundOk(bnd: Boundary.List, u: int, info: Info)
    requires Boundary.Valid(bnd) && 0 <= u < |bnd.ptr|
    ensures var b := Rebound(bnd, u, info);
      && Boundary.Valid(b) && |b.ptr| == |bnd.ptr|
      && forall x :: 0 <= x < |bnd.ptr| ==>
           (Boundary.Holds(b, x) <==> if x == u then info.ed >= info.id else Boundary.Holds(bnd, x))
  {
    if info.ed >= info.id && !Boundary.Holds(bnd, u) {
      Boundary.InsertValid(bnd, u);
    } else if info.ed < info.id && Boundary.Holds(bnd, u) {
      Boundary.DeleteValid(bnd, u);
    }
  }

  // ---------------------------------------------------------------- the steps of a move

  ghost function MoveSelf(s: State, v: int, k: int): State
    requires 0 <= v < |s.where| == |s.infos| == |s.bnd.ptr| && 0 <= k < |s.infos[v].degs| && Boundary.Valid(s.bnd)
  {
    var info := Moved(s.infos[v], k, s.where[v]);
    State(s.where[v := s.infos[v].degs[k].pid], s.infos[v := info], Rebound(s.bnd, v, info))
  }

  ghost function NeighbourStep(s: State, u: int, from: int, to: int, w: int): State
    requires 0 <= u < |s.where| == |s.infos| == |s.bnd.ptr| && Boundary.Valid(s.bnd)
  {
    var info := Updated(s.infos[u], s.where[u], from, to, w);
    s.(infos := s.infos[u := info], bnd := Rebound(s.bnd, u, info))
  }

  /** The first neighbours of `v`, up to position `j` of its row, are told that it went from `from` to `to`. */
  ghost function Told(g: Graph, s: State, v: int, from: int, to: int, j: int): (r: State)
    requires WellFormed(g) && Weighted.Shaped(g) && Sized(g, s) && Boundary.Valid(s.bnd) && 0 <= v < N(g)
    requires First(g.csr, v) <= j <= Last(g.csr, v)
    ensures Sized(g, r) && Boundary.Valid(r.bnd) && r.where == s.where
    decreases j - First(g.csr, v)
  {
    if j == First(g.csr, v) then s
    else
      var t, u := Told(g, s, v, from, to, j - 1), g.csr.adjncy[j - 1];
      assert GoodRow(g, v) && GoodEntry(g, v, j - 1);
      ReboundOk(t.bnd, u, Updated(t.infos[u], t.where[u], from, to, g.adjwgt[j - 1]));
      NeighbourStep(t, u, from, to, g.adjwgt[j - 1])
  }

  lemma ToldNobody(g: Graph, s: State, v: int, from: int, to: int)
    requires WellFormed(g) && Weighted.Shaped(g) && Sized(g, s) && Boundary.Valid(s.bnd) && 0 <= v < N(g)
    ensures Told(g, s, v, from, to, First(g.csr, v)) == s
  {
  }

  lemma ToldNext(g: Graph, s: State, v: int, from: int, to: int, j: int)
    requires WellFormed(g) && Weighted.Shaped(g) && Sized(g, s) && Boundary.Valid(s.bnd) && 0 <= v < N(g)
    requires First(g.csr, v) <= j < Last(g.csr, v)
    ensures 0 <= g.csr.adjncy[j] < N(g) && |Told(g, s, v, from, to, j).infos| == N(g)
    ensures Told(g, s, v, from, to, j + 1) == NeighbourStep(Told(g, s, v, from, to, j), g.csr.adjncy[j], from, to, g.adjwgt[j])
  {
    assert GoodRow(g, v) && GoodEntry(g, v, j);
  }

  /** The whole move of `v` along entry `k` of its list. */
  ghost function MoveTo(g: Graph, s: State, v: int, k: int): (r: State)
    requires WellFormed(g) && Weighted.Shaped(g) && Sized(g, s) && Boundary.Valid(s.bnd) && 0 <= v < N(g)
    requires 0 <= k < |s.infos[v].degs|
    ensures r.where == s.where[v := s.infos[v].degs[k].pid]
  {
    ReboundOk(s.bnd, v, MoveSelf(s, v, k).infos[v]);
    Told(g, MoveSelf(s, v, k), v, s.where[v], s.infos[v].degs[k].pid, Last(g.csr, v))
  }

  lemma ExactFacts(g: Graph, s: State, v: int)
    requires Exact(g, s) && 0 <= v < N(g)
    ensures Weighted.Shaped(g) && Simple(g) && WellFormed(g) && Sized(g, s) && Boundary.Valid(s.bnd) && ExactAt(g, s, v)
  {
  }

  lemma {:induction false} MidStart(g: Graph, s: State, v: int, k: int)
    requires Exact(g, s) && Sized(g, s) && 0 <= v < N(g) && 0 <= k < |s.infos[v].degs| && Weighted.Shaped(g) && Boundary.Valid(s.bnd)
    ensures Mid(g, s.where, MoveSelf(s, v, k), v, First(g.csr, v))
  {
    hide InfoAt, Boundary.Valid, WellFormed, Moved, Rebound;
    var s', j := MoveSelf(s, v, k), First(g.csr, v);
    assert ExactAt(g, s, v);
    MoverOk(g, s.where, v, s.infos[v], k);
    ReboundOk(s.bnd, v, s'.infos[v]);
    assert Rest(g, v, j) == Row(g.csr, v);
    NotOwnNeighbour(g, v);
    forall u | 0 <= u < N(g)
      ensures MidAt(g, s.where, s', v, j, u)
    {
      assert ExactAt(g, s, u);
      if u != v && u !in Row(g.csr, v) {
        NoEntry(g, v, u);
        StrangerOk(g, s.where, v, s'.where[v], u, s.infos[u]);
      }
    }
  }

  lemma NotOwnNeighbour(g: Graph, v: int)
    requires WellFormed(g) && Weighted.Shaped(g) && 0 <= v < N(g)
    ensures v !in Row(g.csr, v)
  {
    assert GoodRow(g, v);
    forall i | 0 <= i < |Row(g.csr, v)|
      ensures Row(g.csr, v)[i] != v
    {
      assert GoodEntry(g, v, First(g.csr, v) + i);
    }
  }

  /** What the update of the neighbour stored at `j` finds, and what it establishes. */
  lemma {:induction false} MidStep(g: Graph, where0: seq<int>, s: State, v: int, j: int)
    requires Mid(g, where0, s, v, j) && Sized(g, s) && Weighted.Shaped(g) && j < Last(g.csr, v) && Boundary.Valid(s.bnd)
    ensures var u := g.csr.adjncy[j];
      && 0 <= u < N(g) && u != v && g.adjwgt[j] > 0 && !Isolated(g, u) && BndAt(g, s, u)
      && InfoAt(g, where0, u, s.infos[u])
      && Mid(g, where0, NeighbourStep(s, u, where0[v], s.where[v], g.adjwgt[j]), v, j + 1)
      && |Updated(s.infos[u], s.where[u], where0[v], s.where[v], g.adjwgt[j]).degs| <= Last(g.csr, u) - First(g.csr, u)
  {
    hide InfoAt, Boundary.Valid, WellFormed, Updated, Rebound;
    var u, w, from, to := g.csr.adjncy[j], g.adjwgt[j], where0[v], s.where[v];
    EntryWeight(g, v, j);
    SomeNeighbour(g, u, {v});
    assert Rest(g, v, j) == [u] + Rest(g, v, j + 1);
    assert MidAt(g, where0, s, v, j, u);
    NeighbourOk(g, where0, v, to, u, s.infos[u], w);
    var s' := NeighbourStep(s, u, from, to, w);
    ReboundOk(s.bnd, u, s'.infos[u]);
    OnlyOnce(g, v, j);
    ListFits(g, s.where, u, s'.infos[u]);
    var next := j + 1;
    forall x | 0 <= x < N(g)
      ensures MidAt(g, where0, s', v, next, x)
    {
      assert MidAt(g, where0, s, v, j, x);
    }
  }

  lemma OnlyOnce(g: Graph, v: int, j: int)
    requires Simple(g) && Weighted.Shaped(g) && 0 <= v < N(g) && First(g.csr, v) <= j < Last(g.csr, v)
    ensures g.csr.adjncy[j] !in Rest(g, v, j + 1)
  {
    var lo := First(g.csr, v);
    forall i | j + 1 <= i < Last(g.csr, v)
      ensures g.csr.adjncy[i] != g.csr.adjncy[j]
    {
      assert Row(g.csr, v)[i - lo] == g.csr.adjncy[i] && Row(g.csr, v)[j - lo] == g.csr.adjncy[j];
    }
  }

  lemma {:induction false} MidEnd(g: Graph, where0: seq<int>, s: State, v: int)
    requires 0 <= v < N(g) && Weighted.Shaped(g) && Mid(g, where0, s, v, Last(g.csr, v))
    ensures Exact(g, s)
  {
    hide InfoAt, Boundary.Valid, WellFormed;
    forall u | 0 <= u < N(g)
      ensures ExactAt(g, s, u)
    {
      assert MidAt(g, where0, s, v, Last(g.csr, v), u);
    }
  }

  /** After the whole move: the cut fell by the gain. */
  lemma {:induction false} GainOk(g: Graph, s: State, v: int, k: int)
    requires Exact(g, s) && Sized(g, s) && 0 <= v < N(g) && 0 <= k < |s.infos[v].degs|
    ensures Weighted.Shaped(g)
    ensures var to := s.infos[v].degs[k].pid;
      && to != s.where[v] && s.infos[v].degs[k].ed > 0
      && Cut(g, s.where[v := to]) == Cut(g, s.where) - (s.infos[v].degs[k].ed - s.infos[v].id)
      && exists u :: 0 <= u < N(g) && s.where[u] == to
  {
    hide Deg;
    assert ExactAt(g, s, v);
    var to := s.infos[v].degs[k].pid;
    assert EntryOk(s.infos[v].degs, s.where[v], Toward(g, s.where, v), k);
    CutAfterMove(g, s.where, v, to);
    var j := Neighbour(g, s.where, v, s.infos[v], k);
  }

  // ---------------------------------------------------------------- the pool

  /** The record of a vertex; its list is `ndegrees` entries of the pool from `edegrees` on (-1: none yet). */
  datatype RInfo = RInfo(id: int, ed: int, ndegrees: int, edegrees: int)

  function Len(g: Graph, u: int): int
    requires Weighted.Shaped(g) && 0 <= u < N(g)
  {
    Last(g.csr, u) - First(g.csr, u)
  }

  ghost predicate SliceAt(g: Graph, r: RInfo, pool: seq<Degree>, cdegree: int, info: Info, u: int)
    requires Weighted.Shaped(g) && 0 <= u < N(g)
  {
    && r.id == info.id && r.ed == info.ed && r.ndegrees == |info.degs|
    && if r.edegrees == -1 then info.degs == [] else
         && 0 <= r.edegrees && r.edegrees + Len(g, u) <= cdegree <= |pool| && |info.degs| <= Len(g, u)
         && pool[r.edegrees..r.edegrees + |info.degs|] == info.degs
  }

  ghost predicate Apart(g: Graph, r: seq<RInfo>, u: int, v: int)
    requires Weighted.Shaped(g) && |r| == N(g) && 0 <= u < N(g) && 0 <= v < N(g)
  {
    u != v && r[u].edegrees != -1 && r[v].edegrees != -1 ==>
      r[u].edegrees + Len(g, u) <= r[v].edegrees || r[v].edegrees + Len(g, v) <= r[u].edegrees
  }

  /** How much of the pool the first `k` vertices have taken. */
  ghost function Allocated(g: Graph, r: seq<RInfo>, k: int): int
    requires Weighted.Shaped(g) && |r| == N(g) && 0 <= k <= N(g)
  {
    if k == 0 then 0 else Allocated(g, r, k - 1) + if r[k - 1].edegrees == -1 then 0 else Len(g, k - 1)
  }

  ghost predicate PoolOk(g: Graph, r: seq<RInfo>, pool: seq<Degree>, cdegree: int, infos: seq<Info>) {
    && Weighted.Shaped(g) && |r| == |infos| == N(g) && |pool| == |g.csr.adjncy|
    && 0 <= cdegree == Allocated(g, r, N(g)) <= |pool|
    && (forall u :: 0 <= u < N(g) ==> SliceAt(g, r[u], pool, cdegree, infos[u], u))
    && (forall u, v :: 0 <= u < N(g) && 0 <= v < N(g) ==> Apart(g, r, u, v))
  }

  lemma {:induction false} AllocatedRoom(g: Graph, r: seq<RInfo>, u: int, k: int)
    requires Weighted.Shaped(g) && |r| == N(g) && 0 <= u < N(g) && 0 < k <= N(g) && r[u].edegrees == -1
    ensures 0 <= Allocated(g, r, k) + (if u < k then Len(g, u) else 0) <= Last(g.csr, k - 1) - First(g.csr, 0)
  {
    assert RowShaped(g.csr, k - 1) && RowShaped(g.csr, 0);
    if k > 1 {
      AllocatedRoom(g, r, u, k - 1);
      assert RowShaped(g.csr, k - 2);
    }
  }

  lemma {:induction false} AllocatedUpdate(g: Graph, r: seq<RInfo>, u: int, x: RInfo, k: int)
    requires Weighted.Shaped(g) && |r| == N(g) && 0 <= u < N(g) && 0 <= k <= N(g)
    ensures Allocated(g, r[u := x], k) == Allocated(g, r, k) +
            if u >= k || (x.edegrees == -1) == (r[u].edegrees == -1) then 0
            else if x.edegrees == -1 then -Len(g, u) else Len(g, u)
  {
    if k > 0 {
      AllocatedUpdate(g, r, u, x, k - 1);
    }
  }

  /** A vertex may do what it likes inside its own slice. */
  lemma {:induction false} SliceChange(g: Graph, r: seq<RInfo>, pool: seq<Degree>, cdegree: int, infos: seq<Info>, u: int,
                                       x: RInfo, pool': seq<Degree>, info: Info)
    requires PoolOk(g, r, pool, cdegree, infos) && 0 <= u < N(g) && r[u].edegrees == x.edegrees
    requires |pool'| == |pool| && SliceAt(g, x, pool', cdegree, info, u)
    requires forall i :: 0 <= i < |pool| && !(0 <= r[u].edegrees <= i < r[u].edegrees + Len(g, u)) ==> pool'[i] == pool[i]
    ensures PoolOk(g, r[u := x], pool', cdegree, infos[u := info])
  {
    hide Weighted.Shaped;
    var r', infos' := r[u := x], infos[u := info];
    AllocatedUpdate(g, r, u, x, N(g));
    forall v | 0 <= v < N(g)
      ensures SliceAt(g, r'[v], pool', cdegree, infos'[v], v)
    {
      if v != u {
        assert SliceAt(g, r[v], pool, cdegree, infos[v], v) && Apart(g, r, u, v);
        OthersKeep(g, r, pool, cdegree, infos, u, v, pool');
      }
    }
    forall v, z | 0 <= v < N(g) && 0 <= z < N(g)
      ensures Apart(g, r', v, z)
    {
      assert Apart(g, r, v, z);
    }
  }

  lemma OthersKeep(g: Graph, r: seq<RInfo>, pool: seq<Degree>, cdegree: int, infos: seq<Info>, u: int, v: int, pool': seq<Degree>)
    requires Weighted.Shaped(g) && |r| == |infos| == N(g) && 0 <= u < N(g) && 0 <= v < N(g) && u != v
    requires SliceAt(g, r[v], pool, cdegree, infos[v], v) && Apart(g, r, u, v) && |pool'| == |pool|
    requires forall i :: 0 <= i < |pool| && !(0 <= r[u].edegrees <= i < r[u].edegrees + Len(g, u)) ==> pool'[i] == pool[i]
    requires r[u].edegrees >= -1
    ensures SliceAt(g, r[v], pool', cdegree, infos[v], v)
  {
    if r[v].edegrees != -1 {
      var lo, hi := r[v].edegrees, r[v].edegrees + |infos[v].degs|;
      assert pool'[lo..hi] == pool[lo..hi];
    }
  }

  /** A vertex without a slice gets the next one. */
  lemma {:induction false} AllocateOk(g: Graph, r: seq<RInfo>, pool: seq<Degree>, cdegree: int, infos: seq<Info>, u: int)
    requires PoolOk(g, r, pool, cdegree, infos) && 0 <= u < N(g) && r[u].edegrees == -1
    ensures PoolOk(g, r[u := r[u].(edegrees := cdegree)], pool, cdegree + Len(g, u), infos)
  {
    var x := r[u].(edegrees := cdegree);
    var r', cd' := r[u := x], cdegree + Len(g, u);
    AllocatedUpdate(g, r, u, x, N(g));
    AllocatedRoom(g, r, u, N(g));
    assert RowShaped(g.csr, N(g) - 1) && RowShaped(g.csr, 0);
    forall v | 0 <= v < N(g)
      ensures SliceAt(g, r'[v], pool, cd', infos[v], v)
    {
      assert SliceAt(g, r[v], pool, cdegree, infos[v], v);
    }
    forall v, z | 0 <= v < N(g) && 0 <= z < N(g)
      ensures Apart(g, r', v, z)
    {
      assert Apart(g, r, v, z) && SliceAt(g, r[v], pool, cdegree, infos[v], v) && SliceAt(g, r[z], pool, cdegree, infos[z], z);
    }
  }
}
