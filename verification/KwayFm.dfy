// K-way refinement by moving boundary vertices (Random_KWayEdgeRefine, tools/assignment/metis/kwayfm.c).
module KwayFm {
  import opened Finite
  import opened Csrs
  import opened Weighted
  import opened Kway
  import opened KwayState
  import opened KwayGreedy
  import Boundary

  class Arrays {
    const where: array<int>
    const rinfo: array<RInfo>
    const pool: array<Degree>
    const bndptr: array<int>
    const bndind: array<int>
    const pwgts: array<int>
    var nbnd: int
    var cdegree: int
    var mincut: int

    constructor (where: array<int>, rinfo: array<RInfo>, pool: array<Degree>, bndptr: array<int>, bndind: array<int>, pwgts: array<int>)
      ensures this.where == where && this.rinfo == rinfo && this.pool == pool && this.bndptr == bndptr && this.bndind == bndind
      ensures this.pwgts == pwgts && nbnd == 0 && cdegree == 0 && mincut == 0
    {
      this.where, this.rinfo, this.pool := where, rinfo, pool;
      this.bndptr, this.bndind, this.pwgts := bndptr, bndind, pwgts;
      nbnd, cdegree, mincut := 0, 0, 0;
    }

    predicate Valid(n: int) {
      && where.Length == rinfo.Length == bndptr.Length == bndind.Length == n
      && where !in {bndptr, bndind, pwgts} && bndptr !in {bndind, pwgts} && bndind != pwgts
    }

    ghost predicate Lists(g: Graph, infos: seq<Info>)
      reads this`cdegree, rinfo, pool
    {
      PoolOk(g, rinfo[..], pool[..], cdegree, infos)
    }

    ghost predicate Bnd(bnd: Boundary.List)
      reads this`nbnd, bndptr, bndind
    {
      0 <= nbnd <= bndind.Length && bndptr[..] == bnd.ptr && bndind[..nbnd] == bnd.ind
    }

    ghost predicate Shows(g: Graph, s: State)
      reads this`nbnd, this`cdegree, where, rinfo, pool, bndptr, bndind
    {
      where[..] == s.where && Lists(g, s.infos) && Bnd(s.bnd)
    }

    // -------------------------------------------------------------- the boundary list

    method BNDInsert(vtx: int, ghost bnd: Boundary.List)
      requires Valid(where.Length) && Bnd(bnd) && Boundary.Valid(bnd) && 0 <= vtx < where.Length && !Boundary.Holds(bnd, vtx)
      modifies this`nbnd, bndptr, bndind
      ensures Bnd(Boundary.Insert(bnd, vtx))
    {
      Boundary.InsertValid(bnd, vtx);
      bndind[nbnd] := vtx;
      bndptr[vtx] := nbnd;
      nbnd := nbnd + 1;
      assert bndind[..nbnd] == bnd.ind + [vtx];
    }

    method BNDDelete(vtx: int, ghost bnd: Boundary.List)
      requires Valid(where.Length) && Bnd(bnd) && Boundary.Valid(bnd) && 0 <= vtx < where.Length && Boundary.Holds(bnd, vtx)
      modifies this`nbnd, bndptr, bndind
      ensures 0 <= bnd.ptr[vtx] < |bnd.ind| && 0 <= bnd.ind[|bnd.ind| - 1] < |bnd.ptr|
      ensures Bnd(Boundary.Delete(bnd, vtx))
    {
      Boundary.DeleteValid(bnd, vtx);
      nbnd := nbnd - 1;
      bndind[bndptr[vtx]] := bndind[nbnd];
      bndptr[bndind[nbnd]] := bndptr[vtx];
      bndptr[vtx] := -1;
    }

    // -------------------------------------------------------------- one vertex's list

    /** Hands out a slice of the pool the first time a vertex needs one. */
    method Allocate(g: Graph, u: int, ghost infos: seq<Info>)
      requires Lists(g, infos) && 0 <= u < N(g) == rinfo.Length
      modifies this`cdegree, rinfo
      ensures Lists(g, infos) && rinfo[u].edegrees != -1 && rinfo[..] == old(rinfo[..])[u := rinfo[u]]
      ensures Weighted.Shaped(g)
      ensures old(rinfo[u].edegrees) == -1 ==>
        cdegree == old(cdegree) + Len(g, u) && rinfo[u] == old(rinfo[u]).(edegrees := old(cdegree))
    {
      if rinfo[u].edegrees == -1 {
        AllocateOk(g, rinfo[..], pool[..], cdegree, infos, u);
        ghost var r, x := rinfo[..], rinfo[u].(edegrees := cdegree);
        rinfo[u] := rinfo[u].(edegrees := cdegree);
        cdegree := cdegree + Len(g, u);
        assert rinfo[..] == r[u := x];
      }
    }

    /** Where a vertex's list starts, and what it holds. */
    lemma SliceFacts(g: Graph, u: int, infos: seq<Info>)
      requires Lists(g, infos) && 0 <= u < N(g)
      ensures rinfo.Length == |infos| == N(g) && Weighted.Shaped(g)
      ensures rinfo[u].id == infos[u].id && rinfo[u].ed == infos[u].ed && rinfo[u].ndegrees == |infos[u].degs|
      ensures rinfo[u].edegrees == -1 ==> infos[u].degs == []
      ensures rinfo[u].edegrees != -1 ==>
        && 0 <= rinfo[u].edegrees && rinfo[u].edegrees + Len(g, u) <= pool.Length && |infos[u].degs| <= Len(g, u)
        && forall k :: 0 <= k < |infos[u].degs| ==> pool[rinfo[u].edegrees + k] == infos[u].degs[k]
    {
      assert SliceAt(g, rinfo[..][u], pool[..], cdegree, infos[u], u);
      if rinfo[u].edegrees != -1 {
        var off, n := rinfo[u].edegrees, |infos[u].degs|;
        forall k | 0 <= k < n
          ensures pool[off + k] == infos[u].degs[k]
        {
          assert pool[..][off..off + n][k] == pool[off + k];
        }
      }
    }

    /** The position of part `q` in the list of `u`, by scanning it. */
    method Scan(g: Graph, u: int, q: int, ghost infos: seq<Info>) returns (k: int)
      requires Lists(g, infos) && 0 <= u < N(g) && rinfo.Length == |infos| == N(g) && rinfo[u].edegrees != -1
      ensures k == PositionOf(infos[u].degs, q)
    {
      SliceFacts(g, u, infos);
      k := 0;
      while k < rinfo[u].ndegrees
        invariant 0 <= k <= rinfo[u].ndegrees
        invariant forall i :: 0 <= i < k ==> infos[u].degs[i].pid != q
      {
        if pool[rinfo[u].edegrees + k].pid == q {
          break;
        }
        k := k + 1;
      }
    }

    method SetDegrees(g: Graph, u: int, id: int, ed: int, ghost infos: seq<Info>)
      requires Lists(g, infos) && 0 <= u < N(g) == rinfo.Length && |infos| == N(g)
      modifies rinfo
      ensures Lists(g, infos[u := infos[u].(id := id, ed := ed)]) && rinfo[u].edegrees == old(rinfo[u].edegrees)
      ensures rinfo[..] == old(rinfo[..])[u := rinfo[u]]
    {
      ghost var x := rinfo[u].(id := id, ed := ed);
      assert SliceAt(g, rinfo[..][u], pool[..], cdegree, infos[u], u);
      SliceChange(g, rinfo[..], pool[..], cdegree, infos, u, x, pool[..], infos[u].(id := id, ed := ed));
      ghost var r := rinfo[..];
      rinfo[u] := rinfo[u].(id := id, ed := ed);
      assert rinfo[..] == r[u := x];
    }

    /** Overwrites entry `k`. */
    method SetEntry(g: Graph, u: int, k: int, d: Degree, ghost infos: seq<Info>)
      requires Lists(g, infos) && 0 <= u < N(g) == rinfo.Length && |infos| == N(g) && 0 <= k < |infos[u].degs|
      modifies pool
      ensures Lists(g, infos[u := infos[u].(degs := infos[u].degs[k := d])])
    {
      SliceFacts(g, u, infos);
      ghost var off, info := rinfo[u].edegrees, infos[u].(degs := infos[u].degs[k := d]);
      ghost var p := pool[..][off + k := d];
      assert SliceAt(g, rinfo[..][u], pool[..], cdegree, infos[u], u);
      assert p[off..off + |info.degs|] == info.degs;
      SliceChange(g, rinfo[..], pool[..], cdegree, infos, u, rinfo[u], p, info);
      pool[rinfo[u].edegrees + k] := d;
      assert pool[..] == p && rinfo[..] == rinfo[..][u := rinfo[u]];
    }

    /** Appends an entry; there is room as long as the list stays no longer than the row. */
    method AppendEntry(g: Graph, u: int, d: Degree, ghost infos: seq<Info>)
      requires Lists(g, infos) && 0 <= u < N(g) == rinfo.Length && |infos| == N(g) && rinfo[u].edegrees != -1
      requires |infos[u].degs| < Len(g, u)
      modifies pool, rinfo
      ensures Lists(g, infos[u := infos[u].(degs := infos[u].degs + [d])]) && rinfo[u].edegrees == old(rinfo[u].edegrees)
      ensures rinfo[..] == old(rinfo[..])[u := rinfo[u]]
    {
      SliceFacts(g, u, infos);
      ghost var off, n, info := rinfo[u].edegrees, |infos[u].degs|, infos[u].(degs := infos[u].degs + [d]);
      ghost var p, x, r := pool[..][off + n := d], rinfo[u].(ndegrees := n + 1), rinfo[..];
      assert SliceAt(g, rinfo[..][u], pool[..], cdegree, infos[u], u);
      assert p[off..off + n + 1] == info.degs;
      SliceChange(g, r, pool[..], cdegree, infos, u, x, p, info);
      pool[rinfo[u].edegrees + rinfo[u].ndegrees] := d;
      rinfo[u] := rinfo[u].(ndegrees := rinfo[u].ndegrees + 1);
      assert pool[..] == p && rinfo[..] == r[u := x];
    }

    /** Drops entry `k`: the last one takes its place. */
    method RemoveEntry(g: Graph, u: int, k: int, ghost infos: seq<Info>)
      requires Lists(g, infos) && 0 <= u < N(g) == rinfo.Length && |infos| == N(g) && 0 <= k < |infos[u].degs|
      modifies pool, rinfo
      ensures Lists(g, infos[u := infos[u].(degs := RemoveAt(infos[u].degs, k))]) && rinfo[u].edegrees == old(rinfo[u].edegrees)
      ensures rinfo[..] == old(rinfo[..])[u := rinfo[u]]
    {
      SliceFacts(g, u, infos);
      ghost var off, n, info := rinfo[u].edegrees, |infos[u].degs|, infos[u].(degs := RemoveAt(infos[u].degs, k));
      ghost var p, x, r := pool[..][off + k := pool[off + n - 1]], rinfo[u].(ndegrees := n - 1), rinfo[..];
      assert SliceAt(g, rinfo[..][u], pool[..], cdegree, infos[u], u);
      assert p[off..off + n - 1] == info.degs;
      SliceChange(g, r, pool[..], cdegree, infos, u, x, p, info);
      rinfo[u] := rinfo[u].(ndegrees := rinfo[u].ndegrees - 1);
      pool[rinfo[u].edegrees + k] := pool[rinfo[u].edegrees + rinfo[u].ndegrees];
      assert pool[..] == p && rinfo[..] == r[u := x];
    }

    /** Takes `w` off the entry of part `from`, dropping it when nothing is left. */
    method TakeFrom(g: Graph, u: int, from: int, w: int, ghost infos: seq<Info>)
      requires Lists(g, infos) && 0 <= u < N(g) == rinfo.Length && |infos| == N(g) && rinfo[u].edegrees != -1
      modifies pool, rinfo
      ensures Lists(g, infos[u := infos[u].(degs := Take(infos[u].degs, from, w))]) && rinfo[u].edegrees == old(rinfo[u].edegrees)
      ensures rinfo[..] == old(rinfo[..])[u := rinfo[u]]
    {
      hide PoolOk, PositionOf, Weighted.Shaped;
      SliceFacts(g, u, infos);
      var k := Scan(g, u, from, infos);
      if k < rinfo[u].ndegrees {
        var d := pool[rinfo[u].edegrees + k];
        if d.ed == w {
          RemoveEntry(g, u, k, infos);
        } else {
          SetEntry(g, u, k, Degree(from, d.ed - w), infos);
        }
      } else {
        assert infos[u := infos[u].(degs := infos[u].degs)] == infos;
      }
    }

    /** Adds `w` to the entry of part `to`, appending it when there is none. */
    method GiveTo(g: Graph, u: int, to: int, w: int, ghost infos: seq<Info>)
      requires Lists(g, infos) && 0 <= u < N(g) == rinfo.Length && |infos| == N(g) && rinfo[u].edegrees != -1
      requires |Give(infos[u].degs, to, w)| <= Len(g, u)
      modifies pool, rinfo
      ensures Lists(g, infos[u := infos[u].(degs := Give(infos[u].degs, to, w))]) && rinfo[u].edegrees == old(rinfo[u].edegrees)
      ensures rinfo[..] == old(rinfo[..])[u := rinfo[u]]
    {
      hide PoolOk, PositionOf, Weighted.Shaped;
      SliceFacts(g, u, infos);
      var k := Scan(g, u, to, infos);
      if k < rinfo[u].ndegrees {
        SetEntry(g, u, k, Degree(to, pool[rinfo[u].edegrees + k].ed + w), infos);
      } else {
        AppendEntry(g, u, Degree(to, w), infos);
      }
    }

    // -------------------------------------------------------------- a move

    /** The degrees and the boundary entry of a neighbour (lines 149 to 160). */
    method ShiftNeighbour(g: Graph, u: int, from: int, to: int, w: int, ghost infos: seq<Info>, ghost bnd: Boundary.List)
      requires Valid(N(g)) && Lists(g, infos) && |infos| == N(g) && Bnd(bnd) && Boundary.Valid(bnd) && 0 <= u < N(g) && |bnd.ptr| == N(g)
      requires from != to && w > 0 && (Boundary.Holds(bnd, u) <==> infos[u].ed >= infos[u].id)
      modifies this`nbnd, rinfo, bndptr, bndind
      ensures Lists(g, infos[u := ShiftDegrees(infos[u], where[u], from, to, w)])
      ensures Bnd(Rebound(bnd, u, ShiftDegrees(infos[u], where[u], from, to, w))) && rinfo[u].edegrees == old(rinfo[u].edegrees)
    {
      hide PoolOk, Boundary.Valid;
      SliceFacts(g, u, infos);
      var me := where[u];
      if me == from {
        SetDegrees(g, u, rinfo[u].id - w, rinfo[u].ed + w, infos);
        SliceFacts(g, u, infos[u := ShiftDegrees(infos[u], me, from, to, w)]);
        if rinfo[u].ed - rinfo[u].id >= 0 && bndptr[u] == -1 {
          BNDInsert(u, bnd);
        }
      } else if me == to {
        SetDegrees(g, u, rinfo[u].id + w, rinfo[u].ed - w, infos);
        SliceFacts(g, u, infos[u := ShiftDegrees(infos[u], me, from, to, w)]);
        if rinfo[u].ed - rinfo[u].id < 0 && bndptr[u] != -1 {
          BNDDelete(u, bnd);
        }
      } else {
        assert infos[u := infos[u]] == infos;
      }
    }

    /** One iteration of the update loop: the neighbour stored at `j` of the mover's row. */
    method UpdateNeighbour(g: Graph, v: int, j: int, from: int, to: int, ghost where0: seq<int>, ghost s: State) returns (ghost s': State)
      requires Valid(N(g)) && Mid(g, where0, s, v, j) && Sized(g, s) && Weighted.Shaped(g) && j < Last(g.csr, v) && Shows(g, s)
      requires from == where0[v] && to == s.where[v]
      modifies this`nbnd, this`cdegree, rinfo, pool, bndptr, bndind
      ensures Shows(g, s') && Sized(g, s') && s'.where == s.where && Mid(g, where0, s', v, j + 1)
      ensures 0 <= g.csr.adjncy[j] < N(g) && Boundary.Valid(s.bnd) && s' == NeighbourStep(s, g.csr.adjncy[j], from, to, g.adjwgt[j])
    {
      hide PoolOk, Boundary.Valid, Mid, InfoAt, Take, Give;
      MidFacts(g, where0, s, v, j);
      MidStep(g, where0, s, v, j);
      var ii, w := g.csr.adjncy[j], g.adjwgt[j];
      s' := NeighbourStep(s, ii, from, to, w);
      var me := where[ii];
      Allocate(g, ii, s.infos);
      ShiftNeighbour(g, ii, from, to, w, s.infos, s.bnd);
      ghost var i1 := s.infos[ii := ShiftDegrees(s.infos[ii], me, from, to, w)];
      ghost var i2 := i1;
      if me != from {
        TakeFrom(g, ii, from, w, i1);
        i2 := i1[ii := i1[ii].(degs := Take(i1[ii].degs, from, w))];
      }
      if me != to {
        GiveTo(g, ii, to, w, i2);
        i2 := i2[ii := i2[ii].(degs := Give(i2[ii].degs, to, w))];
      }
      assert i2 == s'.infos;
      MidFacts(g, where0, s', v, j + 1);
    }

    /** The mover's own record (lines 122 to 133). */
    method MoveSelfRecord(g: Graph, v: int, k: int, ghost s: State)
      requires Valid(N(g)) && Exact(g, s) && Sized(g, s) && Weighted.Shaped(g) && 0 <= v < N(g) && Shows(g, s)
      requires 0 <= k < |s.infos[v].degs| && Boundary.Valid(s.bnd) && Boundary.Holds(s.bnd, v)
      modifies this`nbnd, where, rinfo, pool, bndptr, bndind
      ensures Shows(g, MoveSelf(s, v, k))
    {
      hide PoolOk, Boundary.Valid, Exact, InfoAt;
      SliceFacts(g, v, s.infos);
      var from := where[v];
      var d := pool[rinfo[v].edegrees + k];
      var id := rinfo[v].id;
      where[v] := d.pid;
      SetDegrees(g, v, d.ed, rinfo[v].ed + (id - d.ed), s.infos);
      ghost var i1 := s.infos[v := s.infos[v].(id := d.ed, ed := s.infos[v].ed + (id - d.ed))];
      if id == 0 {
        RemoveEntry(g, v, k, i1);
      } else {
        SetEntry(g, v, k, Degree(from, id), i1);
      }
      ghost var s' := MoveSelf(s, v, k);
      assert i1[v := i1[v].(degs := s'.infos[v].degs)] == s'.infos;
      SliceFacts(g, v, s'.infos);
      if rinfo[v].ed - rinfo[v].id < 0 {
        BNDDelete(v, s.bnd);
      }
    }

    /** Moves `v` to the part of its list entry `k`; everything stays exact and the cut falls by the gain. */
    method MoveVertex(g: Graph, v: int, k: int, nparts: int, ghost s: State) returns (ghost s': State)
      requires Valid(N(g)) && Exact(g, s) && Sized(g, s) && 0 <= v < N(g) && Shows(g, s)
      requires 0 <= k < |s.infos[v].degs| && Boundary.Valid(s.bnd) && Boundary.Holds(s.bnd, v)
      requires Books(g, s.where, nparts, pwgts[..], mincut)
      modifies this`nbnd, this`cdegree, this`mincut, where, rinfo, pool, bndptr, bndind, pwgts
      ensures WellFormed(g) && Weighted.Shaped(g) && s' == MoveTo(g, s, v, k)
      ensures Shows(g, s') && Exact(g, s') && s'.where == s.where[v := s.infos[v].degs[k].pid]
      ensures Books(g, s'.where, nparts, pwgts[..], mincut)
      ensures mincut == old(mincut) - (s.infos[v].degs[k].ed - s.infos[v].id)
    {
      hide PoolOk, Boundary.Valid, Mid, Exact, InfoAt, MoveSelf, Books, WellFormed, Told, NeighbourStep;
      ExactFacts(g, s, v);
      SliceFacts(g, v, s.infos);
      var from, to := where[v], pool[rinfo[v].edegrees + k].pid;
      MoveBooks(g, s, v, k, nparts, pwgts[..], mincut);
      MidStart(g, s, v, k);
      mincut := mincut - (pool[rinfo[v].edegrees + k].ed - rinfo[v].id);
      pwgts[to] := pwgts[to] + g.vwgt[v];
      pwgts[from] := pwgts[from] - g.vwgt[v];
      MoveSelfRecord(g, v, k, s);
      s' := MoveSelf(s, v, k);
      MoveSelfFacts(s, v, k);
      ghost var m := s';
      ToldNobody(g, m, v, from, to);
      ghost var pw, cut := pwgts[..], mincut;
      for j := First(g.csr, v) to Last(g.csr, v)
        invariant Shows(g, s') && Sized(g, s') && s'.where == s.where[v := to] && Mid(g, s.where, s', v, j)
        invariant s' == Told(g, m, v, from, to, j)
        invariant pwgts[..] == pw && mincut == cut
      {
        MidFacts(g, s.where, s', v, j);
        ToldNext(g, m, v, from, to, j);
        s' := UpdateNeighbour(g, v, j, from, to, s.where, s');
      }
      MidEnd(g, s.where, s', v);
    }

    /** The first entry that allows the move, or the length of the list. */
    method FirstCandidate(g: Graph, v: int, l: Limits, nparts: int, ghost s: State) returns (k: int)
      requires Exact(g, s) && Sized(g, s) && 0 <= v < N(g) && Shows(g, s) && Books(g, s.where, nparts, pwgts[..], mincut)
      requires Fit(g, s.where, l) && nparts == |l.minwgt| && rinfo.Length == N(g)
      ensures 0 <= k <= |s.infos[v].degs|
      ensures if k == |s.infos[v].degs| then forall q :: !Allowed(g, s.where, l, v, q) else BestOf(g, s, l, v, k + 1, k)
    {
      hide PoolOk, Exact, Books, Pull, Heft, Id, BestOf, Fit, Allowed, HasRoom, Near;
      SliceFacts(g, v, s.infos);
      ghost var degs, w := s.infos[v].degs, s.where;
      var vwgt, off, n, id := g.vwgt[v], rinfo[v].edegrees, rinfo[v].ndegrees, rinfo[v].id;
      k := 0;
      while k < n
        invariant 0 <= k <= n
        invariant forall j :: 0 <= j < k ==> !Allowed(g, w, l, v, degs[j].pid)
      {
        var d := pool[off + k];
        EntryCounts(g, s, l, v, k, nparts, pwgts[..], mincut);
        var gain := d.ed - id;
        if pwgts[d.pid] + vwgt <= l.maxwgt[d.pid] + l.ffactor * gain && gain >= 0 {
          FirstAllowed(g, s, l, v, k);
          return;
        }
        k := k + 1;
      }
      NoneAllowed(g, s, l, v);
    }

    /** From candidate `k0` on, the best entry: the greatest gain among parts with room, then the relatively lightest part. */
    method BestCandidate(g: Graph, v: int, k0: int, l: Limits, nparts: int, ghost s: State) returns (k: int)
      requires Exact(g, s) && Sized(g, s) && 0 <= v < N(g) && Shows(g, s) && Books(g, s.where, nparts, pwgts[..], mincut)
      requires Fit(g, s.where, l) && nparts == |l.minwgt| && rinfo.Length == N(g) && BestOf(g, s, l, v, k0 + 1, k0)
      requires 0 <= k0 < |s.infos[v].degs|
      ensures 0 <= k < |s.infos[v].degs| && Target(g, s.where, l, v, s.infos[v].degs[k].pid)
    {
      hide PoolOk, Exact, Books, Pull, Heft, Id, BestOf, Target, Fit, Allowed, HasRoom, Near, Lighter;
      SliceFacts(g, v, s.infos);
      var vwgt, off, n := g.vwgt[v], rinfo[v].edegrees, rinfo[v].ndegrees;
      k := k0;
      for j := k + 1 to n
        invariant 0 <= k < j && BestOf(g, s, l, v, j, k)
      {
        var d, b := pool[off + j], pool[off + k];
        EntryCounts(g, s, l, v, j, nparts, pwgts[..], mincut);
        EntryCounts(g, s, l, v, k, nparts, pwgts[..], mincut);
        BestOfNext(g, s, l, v, j, k);
        LighterCounts(g, s.where, l, nparts, pwgts[..], mincut, d.pid, b.pid);
        if (d.ed > b.ed && pwgts[d.pid] + vwgt <= l.maxwgt[d.pid]) ||
           (d.ed == b.ed && l.itpwgts[b.pid] * pwgts[d.pid] < l.itpwgts[d.pid] * pwgts[b.pid])
        {
          k := j;
        }
      }
      BestOfAll(g, s, l, v, k);
    }

    /**
     * The entry to move `v` along, or -1. A vertex goes to a best target, if its part can spare it and the
     * move gains something or is worth making without; and it stays only for lack of one of these.
     */
    method Choose(g: Graph, v: int, iii: int, l: Limits, nparts: int, ghost s: State) returns (k: int)
      requires Valid(N(g)) && Exact(g, s) && Sized(g, s) && 0 <= v < N(g) && Shows(g, s) && Books(g, s.where, nparts, pwgts[..], mincut)
      requires |l.minwgt| == |l.maxwgt| == |l.itpwgts| == nparts
      ensures Fit(g, s.where, l) && (k == -1 || 0 <= k < |s.infos[v].degs|)
      ensures if k == -1 then Stays(g, s.where, l, iii, v) else Goes(g, s.where, l, iii, v, s.infos[v].degs[k].pid)
    {
      hide PoolOk, Exact, Books, Pull, Heft, Id, BestOf, Target, Fit, Allowed, HasRoom, Near;
      SliceFacts(g, v, s.infos);
      BooksFit(g, s.where, l, nparts, pwgts[..], mincut);
      var from, vwgt, off, id := where[v], g.vwgt[v], rinfo[v].edegrees, rinfo[v].id;
      IdTells(g, s, v);
      if id > 0 && pwgts[from] - vwgt < l.minwgt[from] {
        return -1;
      }
      k := FirstCandidate(g, v, l, nparts, s);
      if k == rinfo[v].ndegrees {
        return -1;
      }
      k := BestCandidate(g, v, k, l, nparts, s);
      var b := pool[off + k];
      EntryCounts(g, s, l, v, k, nparts, pwgts[..], mincut);
      WorthCounts(g, s.where, l, nparts, pwgts[..], mincut, iii, v, b.pid);
      if !(b.ed - id > 0 ||
           (b.ed - id == 0 && (iii % 8 == 0 || pwgts[from] >= l.maxwgt[from] ||
                               l.itpwgts[from] * (pwgts[b.pid] + vwgt) < l.itpwgts[b.pid] * pwgts[from])))
      {
        assert Target(g, s.where, l, v, b.pid) && !Worth(g, s.where, l, iii, v, b.pid) by {
          TargetGain(g, s.where, l, v, b.pid);
        }
        return -1;
      }
    }

    /** One visit: of the vertex at position `ii` of the boundary list, unless the list has become too short. */
    method VisitPosition(g: Graph, l: Limits, nparts: int, ii: int, iii: int, ghost s: State) returns (ghost s': State)
      requires Valid(N(g)) && Sane(g, l, s) && Shows(g, s) && Books(g, s.where, nparts, pwgts[..], mincut) && ii >= 0
      requires |l.minwgt| == |l.maxwgt| == |l.itpwgts| == nparts
      modifies this`nbnd, this`cdegree, this`mincut, where, rinfo, pool, bndptr, bndind, pwgts
      ensures Shows(g, s') && Sane(g, l, s') && Books(g, s'.where, nparts, pwgts[..], mincut) && mincut <= old(mincut)
      ensures Visit(g, l, s, ii, iii, s')
    {
      hide PoolOk, Boundary.Valid, Exact, Books, WellFormed, Visit, Sane, Stays, Goes, Fit, MoveTo;
      s' := s;
      SaneFacts(g, l, s);
      if ii >= nbnd {
        Skipped(g, l, s, ii, iii);
        return;
      }
      var i := bndind[ii];
      ListedVertex(g, s, ii);
      var k := Choose(g, i, iii, l, nparts, s);
      if k != -1 {
        NoLoss(g, l, s, iii, i, k);
        s' := MoveVertex(g, i, k, nparts, s);
        BooksFit(g, s'.where, l, nparts, pwgts[..], mincut);
        SaneSo(g, l, s');
      }
      Visited(g, l, s, ii, iii, k, s');
    }

    /**
     * One pass over the boundary, in random order; the weight limits are computed by the caller. `sw` tells it
     * visit by visit: each vertex visited stays, with reason, or moves, with reason.
     */
    method Pass(g: Graph, l: Limits, nparts: int, ghost s: State) returns (ghost s': State, ghost sw: Sweep)
      requires Valid(N(g)) && Exact(g, s) && Shows(g, s) && Books(g, s.where, nparts, pwgts[..], mincut)
      requires |l.minwgt| == |l.maxwgt| == |l.itpwgts| == nparts
      modifies this`nbnd, this`cdegree, this`mincut, where, rinfo, pool, bndptr, bndind, pwgts
      ensures Shows(g, s') && Exact(g, s') && Books(g, s'.where, nparts, pwgts[..], mincut) && mincut <= old(mincut)
      ensures Swept(g, l, sw, s, s')
    {
      hide PoolOk, Exact, Books, Visit, Sweeping, Sane;
      s' := s;
      var perm := RandomPermute(nbnd);
      BooksFit(g, s'.where, l, nparts, pwgts[..], mincut);
      SaneSo(g, l, s');
      SweepBegins(g, l, perm, s);
      sw := Sweep(perm, [s]);
      for iii := 0 to |perm|
        invariant Shows(g, s') && Sane(g, l, s') && Books(g, s'.where, nparts, pwgts[..], mincut) && mincut <= old(mincut)
        invariant Sweeping(g, l, sw, iii) && sw.perm == perm && |sw.states| == iii + 1 && sw.states[iii] == s' && sw.states[0] == s
      {
        s' := VisitPosition(g, l, nparts, perm[iii], iii, s');
        SweepGrows(g, l, sw, iii, s');
        sw := sw.(states := sw.states + [s']);
      }
      SaneFacts(g, l, s');
    }

    /**
     * Refines, pass after pass, until one leaves the cut as it was: the cut never rises and every array stays
     * exact. `run` are the passes, `states` what they lead through.
     */
    method Random_KWayEdgeRefine(g: Graph, l: Limits, npasses: int, nparts: int, ghost s: State)
      returns (ghost s': State, ghost run: seq<Sweep>, ghost states: seq<State>)
      requires Valid(N(g)) && Exact(g, s) && Shows(g, s) && Books(g, s.where, nparts, pwgts[..], mincut)
      requires |l.minwgt| == |l.maxwgt| == |l.itpwgts| == nparts && npasses >= 0
      modifies this`nbnd, this`cdegree, this`mincut, where, rinfo, pool, bndptr, bndind, pwgts
      ensures Shows(g, s') && Exact(g, s') && Books(g, s'.where, nparts, pwgts[..], mincut) && mincut <= old(mincut)
      ensures Sweeps(g, l, run, states) && |states| == |run| + 1 && states[0] == s && states[|run|] == s'
      ensures |run| <= npasses
      ensures |run| < npasses ==> run != [] && Idle(g, states[|run| - 1], states[|run|])
    {
      hide Exact, Books, PoolOk, Swept, Idle, Sweeps;
      s' := s;
      run, states := [], [s];
      NoSweeps(g, l, s);
      for pass := 0 to npasses
        invariant Shows(g, s') && Exact(g, s') && Books(g, s'.where, nparts, pwgts[..], mincut) && mincut <= old(mincut)
        invariant Sweeps(g, l, run, states) && |run| == pass && |states| == pass + 1 && states[0] == s && states[pass] == s'
        invariant run != [] ==> !Idle(g, states[|run| - 1], states[|run|])
      {
        var oldcut := mincut;
        ghost var s1, sw := s', Sweep([], []);
        BooksCut(g, s1.where, nparts, pwgts[..], mincut);
        s', sw := Pass(g, l, nparts, s');
        BooksCut(g, s'.where, nparts, pwgts[..], mincut);
        SweepsGrow(g, l, run, states, sw, s');
        run, states := run + [sw], states + [s'];
        if mincut == oldcut {
          Idles(g, s1, s', mincut);
          break;
        }
        Works(g, s1, s', oldcut, mincut);
      }
    }
  }

  /** Part weights and cut, recomputed. */
  ghost predicate Books(g: Graph, where: seq<int>, nparts: int, pwgts: seq<int>, mincut: int) {
    && Weighted.Shaped(g) && |where| == N(g) && |pwgts| == nparts
    && (forall u :: 0 <= u < N(g) ==> 0 <= where[u] < nparts)
    && (forall p :: 0 <= p < nparts ==> pwgts[p] == PartWeight(g, where, p, N(g)))
    && mincut == Cut(g, where)
  }

  lemma {:induction false} MoveBooks(g: Graph, s: State, v: int, k: int, nparts: int, pwgts: seq<int>, mincut: int)
    requires Exact(g, s) && Sized(g, s) && 0 <= v < N(g) && 0 <= k < |s.infos[v].degs| && Books(g, s.where, nparts, pwgts, mincut)
    ensures |g.vwgt| == N(g)
    ensures var from, to := s.where[v], s.infos[v].degs[k].pid;
      && 0 <= from < |pwgts| && 0 <= to < |pwgts| && from != to
      && Books(g, s.where[v := to], nparts, pwgts[to := pwgts[to] + g.vwgt[v]][from := pwgts[from] - g.vwgt[v]],
               mincut - (s.infos[v].degs[k].ed - s.infos[v].id))
  {
    hide Exact, Cut;
    GainOk(g, s, v, k);
    var from, to := s.where[v], s.infos[v].degs[k].pid;
    var where', pwgts' := s.where[v := to], pwgts[to := pwgts[to] + g.vwgt[v]][from := pwgts[from] - g.vwgt[v]];
    forall p | 0 <= p < nparts
      ensures pwgts'[p] == PartWeight(g, where', p, N(g))
    {
      WeightAfterMove(g, s.where, v, to, p, N(g));
    }
  }

  lemma BooksCut(g: Graph, where: seq<int>, nparts: int, pwgts: seq<int>, mincut: int)
    requires Books(g, where, nparts, pwgts, mincut)
    ensures Weighted.Shaped(g) && |where| == N(g) && mincut == Cut(g, where)
  {
  }

  lemma BooksFit(g: Graph, where: seq<int>, l: Limits, nparts: int, pwgts: seq<int>, mincut: int)
    requires Books(g, where, nparts, pwgts, mincut) && |l.minwgt| == |l.maxwgt| == |l.itpwgts| == nparts
    ensures Fit(g, where, l) && Weighted.Shaped(g) && |where| == |g.vwgt| == N(g) && |pwgts| == nparts
    ensures forall u :: 0 <= u < N(g) ==> 0 <= where[u] < nparts && pwgts[where[u]] == Heft(g, where, where[u])
  {
  }

  lemma SaneSo(g: Graph, l: Limits, s: State)
    requires Exact(g, s) && Fit(g, s.where, l)
    ensures Sane(g, l, s)
  {
  }

  /** What the entry says, and the books say of its part. */
  lemma EntryCounts(g: Graph, s: State, l: Limits, v: int, k: int, nparts: int, pwgts: seq<int>, mincut: int)
    requires Exact(g, s) && Sized(g, s) && Fit(g, s.where, l) && 0 <= v < N(g) && 0 <= k < |s.infos[v].degs|
    requires Books(g, s.where, nparts, pwgts, mincut) && nparts == |l.minwgt|
    ensures var q := s.infos[v].degs[k].pid;
      && 0 <= q < nparts == |pwgts| == |l.maxwgt| == |l.itpwgts| && Near(g, s.where, l, v, q) && pwgts[q] == Heft(g, s.where, q)
      && s.infos[v].degs[k].ed == Pull(g, s.where, v, q)
      && var gain := s.infos[v].degs[k].ed - s.infos[v].id;
      && (Allowed(g, s.where, l, v, q) <==> gain >= 0 && pwgts[q] + g.vwgt[v] <= l.maxwgt[q] + l.ffactor * gain)
      && (HasRoom(g, s.where, l, v, q) <==> pwgts[q] + g.vwgt[v] <= l.maxwgt[q])
  {
    hide Pull, Exact, Cut, Id;
    EntryTells(g, s, l, v, k);
  }

  lemma LighterCounts(g: Graph, where: seq<int>, l: Limits, nparts: int, pwgts: seq<int>, mincut: int, r: int, q: int)
    requires Fit(g, where, l) && Books(g, where, nparts, pwgts, mincut) && nparts == |l.minwgt| == |pwgts|
    requires 0 <= r < nparts && 0 <= q < nparts
    ensures Lighter(g, where, l, r, q) <==> l.itpwgts[q] * pwgts[r] < l.itpwgts[r] * pwgts[q]
  {
    hide Cut;
  }

  lemma WorthCounts(g: Graph, where: seq<int>, l: Limits, nparts: int, pwgts: seq<int>, mincut: int, iii: int, v: int, q: int)
    requires Fit(g, where, l) && Books(g, where, nparts, pwgts, mincut) && nparts == |l.minwgt| == |pwgts|
    requires 0 <= v < N(g) == |where| == |g.vwgt| && 0 <= q < nparts && Weighted.Shaped(g)
    ensures 0 <= where[v] < nparts
    ensures var from := where[v];
      Worth(g, where, l, iii, v, q) <==>
        || Pull(g, where, v, q) > Id(g, where, v) || iii % 8 == 0 || pwgts[from] >= l.maxwgt[from]
        || l.itpwgts[from] * (pwgts[q] + g.vwgt[v]) < l.itpwgts[q] * pwgts[from]
  {
    hide Cut, Pull, Id;
  }

  lemma TargetGain(g: Graph, where: seq<int>, l: Limits, v: int, q: int)
    requires Fit(g, where, l) && 0 <= v < N(g) && Target(g, where, l, v, q)
    ensures Pull(g, where, v, q) >= Id(g, where, v)
  {
    hide Pull, Id;
  }

  lemma IdTells(g: Graph, s: State, v: int)
    requires Exact(g, s) && Sized(g, s) && Weighted.Shaped(g) && 0 <= v < N(g)
    ensures s.infos[v].id == Id(g, s.where, v)
  {
    hide Id;
    assert ExactAt(g, s, v);
  }

  lemma Skipped(g: Graph, l: Limits, s: State, ii: int, iii: int)
    requires Sane(g, l, s) && !(0 <= ii < |s.bnd.ind|)
    ensures Visit(g, l, s, ii, iii, s)
  {
  }

  lemma Visited(g: Graph, l: Limits, s: State, ii: int, iii: int, k: int, s': State)
    requires Sane(g, l, s) && Exact(g, s) && Fit(g, s.where, l) && 0 <= ii < |s.bnd.ind| && Sized(g, s)
    requires 0 <= s.bnd.ind[ii] < N(g) && (k == -1 || 0 <= k < |s.infos[s.bnd.ind[ii]].degs|)
    requires WellFormed(g) && Weighted.Shaped(g) && Boundary.Valid(s.bnd)
    requires var v := s.bnd.ind[ii];
      if k == -1 then Stays(g, s.where, l, iii, v) && s' == s
      else Goes(g, s.where, l, iii, v, s.infos[v].degs[k].pid) && s' == MoveTo(g, s, v, k)
    ensures Visit(g, l, s, ii, iii, s')
  {
    hide Exact, Stays, Goes, MoveTo, Fit;
  }

  /** A vertex that goes does not raise the cut. */
  lemma NoLoss(g: Graph, l: Limits, s: State, iii: int, v: int, k: int)
    requires Exact(g, s) && Sized(g, s) && Fit(g, s.where, l) && 0 <= v < N(g) && 0 <= k < |s.infos[v].degs|
    requires Goes(g, s.where, l, iii, v, s.infos[v].degs[k].pid)
    ensures s.infos[v].degs[k].ed >= s.infos[v].id
  {
    hide Exact, Pull, Id, HeldBack, Worth, Near, Backed, NotBetter;
    EntryTells(g, s, l, v, k);
  }

  lemma NoSweeps(g: Graph, l: Limits, s: State)
    ensures Sweeps(g, l, [], [s])
  {
  }

  lemma Idles(g: Graph, s: State, s': State, mincut: int)
    requires Weighted.Shaped(g) && |s.where| == |s'.where| == N(g) && Cut(g, s.where) == mincut == Cut(g, s'.where)
    ensures Idle(g, s, s')
  {
  }

  lemma Works(g: Graph, s: State, s': State, oldcut: int, mincut: int)
    requires Weighted.Shaped(g) && |s.where| == |s'.where| == N(g) && Cut(g, s.where) == oldcut != mincut == Cut(g, s'.where)
    ensures !Idle(g, s, s')
  {
  }

  lemma MoveSelfFacts(s: State, v: int, k: int)
    requires 0 <= v < |s.where| == |s.infos| == |s.bnd.ptr| && 0 <= k < |s.infos[v].degs| && Boundary.Valid(s.bnd)
    ensures var s' := MoveSelf(s, v, k);
      && s'.where == s.where[v := s.infos[v].degs[k].pid] && |s'.infos| == |s.infos| && |s'.bnd.ptr| == |s.bnd.ptr|
      && Boundary.Valid(s'.bnd)
  {
    ReboundOk(s.bnd, v, MoveSelf(s, v, k).infos[v]);
  }

  lemma MidFacts(g: Graph, where0: seq<int>, s: State, v: int, j: int)
    requires Mid(g, where0, s, v, j)
    ensures Simple(g) && Weighted.Shaped(g) && Sized(g, s) && Boundary.Valid(s.bnd) && |where0| == N(g) && 0 <= v < N(g)
    ensures First(g.csr, v) <= j <= Last(g.csr, v) && s.where[v] != where0[v]
    ensures forall u :: 0 <= u < N(g) ==> BndAt(g, s, u)
  {
    forall u | 0 <= u < N(g)
      ensures BndAt(g, s, u)
    {
      assert MidAt(g, where0, s, v, j, u);
    }
  }
}
