// Counting common nodes with a small hashed table and writing the dual graph
// (GENDUALMETIS, tools/assignment/metis/mesh.c).
module Dual {
  import opened Finite
  import opened Kway
  import opened MeshDual
  import CoarseGraph

  const MASK: int := 2047
  const CANDIDATES: int := 200

  // ---------------------------------------------------------------- what the counters count

  /** The elements after `i` by how many nodes they share: `j` nodes done, and `scanned` share the next one. */
  ghost function Weights(m: Mesh, i: int, j: int, scanned: set<int>): int -> int
    requires Sized(m) && 0 <= i < m.ne && 0 <= j <= m.esize
  {
    f => if i < f < m.ne then Shared(m, i, f, j) + (if f in scanned then 1 else 0) else 0
  }

  /** The elements after `i` that share a node with it. */
  ghost function Candidates(m: Mesh, i: int): set<int>
    requires Sized(m) && 0 <= i < m.ne
  {
    set f | f in Range(i + 1, m.ne) && Shared(m, i, f, m.esize) > 0
  }

  ghost function Neighbours(m: Mesh, e: int): set<int>
    requires Sized(m)
  {
    set f | f in Range(0, m.ne) && Adjacent(m, e, f)
  }

  /** The sizes the source's arrays allow for. */
  ghost predicate Fits(m: Mesh, e: int)
    requires Sized(m) && 0 <= e < m.ne
  {
    |Candidates(m, e)| <= CANDIDATES && |Neighbours(m, e)| <= m.esize
  }

  ghost function Pids(degs: seq<Degree>): (r: seq<int>)
    ensures |r| == |degs|
  {
    seq(|degs|, i requires 0 <= i < |degs| => degs[i].pid)
  }

  lemma {:induction false} PidsPosition(degs: seq<Degree>, q: int)
    ensures q in Pids(degs) <==> PositionOf(degs, q) < |degs|
  {
    var p := Pids(degs);
    if q in p {
      var i :| 0 <= i < |p| && p[i] == q;
      assert degs[i].pid == q;
    }
    if PositionOf(degs, q) < |degs| {
      assert p[PositionOf(degs, q)] == q;
    }
  }

  /** No more counters are needed than there are candidates. */
  lemma {:induction false} FewEnough(m: Mesh, i: int, j: int, scanned: set<int>, degs: seq<Degree>)
    requires Sized(m) && 0 <= i < m.ne && Fits(m, i) && 0 <= j <= m.esize && Lists(degs, i, Weights(m, i, j, scanned))
    requires forall f :: f in scanned ==> i < f < m.ne ==> j < m.esize && HasNode(m, f, Node(m, i, j))
    ensures |degs| <= CANDIDATES
  {
    hide Lists, HasNode, Shared;
    var p := Pids(degs);
    PidsDistinct(degs, i, Weights(m, i, j, scanned));
    DistinctSize(p);
    forall f | f in Elements(p)
      ensures f in Candidates(m, i)
    {
      var k :| 0 <= k < |p| && p[k] == f;
      EntryFacts(degs, i, Weights(m, i, j, scanned), k);
      SharedSoon(m, i, f, j, f in scanned);
    }
    SubsetSize(Elements(p), Candidates(m, i));
  }

  lemma PidsDistinct(degs: seq<Degree>, me: int, want: int -> int)
    requires Lists(degs, me, want)
    ensures Distinct(Pids(degs))
  {
  }

  lemma EntryFacts(degs: seq<Degree>, me: int, want: int -> int, k: int)
    requires Lists(degs, me, want) && 0 <= k < |degs|
    ensures degs[k].pid != me && degs[k].ed == want(degs[k].pid) > 0
  {
    assert EntryOk(degs, me, want, k);
  }

  lemma {:induction false} SharedSoon(m: Mesh, i: int, f: int, j: int, more: bool)
    requires Sized(m) && 0 <= i < m.ne && 0 <= f < m.ne && 0 <= j <= m.esize
    requires Shared(m, i, f, j) > 0 || more
    requires more ==> j < m.esize && HasNode(m, f, Node(m, i, j))
    ensures Shared(m, i, f, m.esize) > 0
  {
    SharedGrows(m, i, f, j, j);
    SharedGrows(m, i, f, j, m.esize);
    if more {
      SharedGrows(m, i, f, j + 1, m.esize);
    }
  }

  // ---------------------------------------------------------------- the table of candidates

  class Table {
    const ind: array<int>
    const wgt: array<int>
    const mark: array<int>

    constructor ()
      ensures fresh(ind) && fresh(wgt) && fresh(mark) && Valid() && CoarseGraph.AllEmpty(mark[..])
    {
      ind := new int[CANDIDATES];
      wgt := new int[CANDIDATES];
      mark := new int[MASK + 1](_ => -1);
    }

    predicate Valid() {
      ind.Length == wgt.Length == CANDIDATES && mark.Length == MASK + 1 && ind != wgt && ind != mark && wgt != mark
    }

    /** The first entries are `degs`, and the marks find them. */
    ghost predicate Shows(degs: seq<Degree>)
      reads ind, wgt, mark
    {
      && |degs| <= ind.Length == wgt.Length
      && (forall k :: 0 <= k < |degs| ==> ind[k] == degs[k].pid && wgt[k] == degs[k].ed)
      && CoarseGraph.HashOk(mark[..], Pids(degs))
    }

    /** One more common node with element `kk` (lines 114 to 134). */
    method Count(kk: int, m0: int, ghost degs: seq<Degree>) returns (m: int)
      requires Valid() && Shows(degs) && m0 == |degs| && kk >= 0 && |Give(degs, kk, 1)| <= CANDIDATES
      requires Distinct(Pids(degs))
      modifies ind, wgt, mark
      ensures Shows(Give(degs, kk, 1)) && m == |Give(degs, kk, 1)|
    {
      hide PositionOf, CoarseGraph.HashOk, CoarseGraph.Slot;
      m := m0;
      var kkk := CoarseGraph.Slot(kk, mark.Length);
      HashFacts(degs, kk);
      ghost var d := Give(degs, kk, 1);
      GivePids(degs, kk);
      ghost var before := mark[..];
      if mark[kkk] == -1 {
        ind[m] := kk;
        wgt[m] := 1;
        mark[kkk] := m;
        m := m + 1;
        assert mark[..] == before[kkk := m0];
      } else if ind[mark[kkk]] == kk {
        Pointed(degs, kk, mark[kkk]);
        wgt[mark[kkk]] := wgt[mark[kkk]] + 1;
        assert mark[..] == before;
      } else {
        var jj := Search(kk, m, degs);
        if jj == m {
          ind[m] := kk;
          wgt[m] := 1;
          m := m + 1;
        } else {
          wgt[jj] := wgt[jj] + 1;
        }
        assert mark[..] == before;
      }
    }

    method Search(kk: int, m: int, ghost degs: seq<Degree>) returns (jj: int)
      requires Valid() && Shows(degs) && m == |degs|
      ensures jj == PositionOf(degs, kk)
    {
      jj := 0;
      while jj < m
        invariant 0 <= jj <= m && forall k :: 0 <= k < jj ==> degs[k].pid != kk
      {
        if ind[jj] == kk {
          break;
        }
        jj := jj + 1;
      }
    }

    lemma HashFacts(degs: seq<Degree>, kk: int)
      requires Valid() && Shows(degs) && kk >= 0
      ensures var h := CoarseGraph.Slot(kk, mark.Length);
        && 0 <= h < mark.Length
        && (mark[h] == -1 ==> PositionOf(degs, kk) == |degs|)
        && (mark[h] != -1 ==> 0 <= mark[h] < |degs|)
        && (mark[h] == -1 ==> CoarseGraph.HashOk(mark[..][h := |degs|], Pids(degs) + [kk]))
        && (mark[h] != -1 ==> CoarseGraph.HashOk(mark[..], Pids(degs) + [kk]))
    {
      hide CoarseGraph.Slot, CoarseGraph.HashOk, PositionOf;
      var p := Pids(degs);
      CoarseGraph.HashAppend(mark[..], p, kk);
      PidsPosition(degs, kk);
      if mark[..][CoarseGraph.Slot(kk, mark.Length)] == -1 {
        CoarseGraph.HashMiss(mark[..], p, kk);
      } else {
        CoarseGraph.HashHit(mark[..], p, kk);
      }
    }

    /** Forgets the candidates again (line 143). */
    method Clear(m: int, ghost degs: seq<Degree>)
      requires Valid() && Shows(degs) && m == |degs| && forall k :: 0 <= k < |degs| ==> degs[k].pid >= 0
      modifies mark
      ensures CoarseGraph.AllEmpty(mark[..])
    {
      hide CoarseGraph.Slot;
      ghost var p := Pids(degs);
      forall h | 0 <= h < mark.Length && mark[h] != -1
        ensures 0 <= mark[h] < m && CoarseGraph.Slot(ind[mark[h]], MASK + 1) == h
      {
        assert CoarseGraph.HashAt(mark[..], p, h);
      }
      for j := 0 to m
        invariant forall h :: 0 <= h < mark.Length && mark[h] != -1 ==> j <= mark[h] < m && CoarseGraph.Slot(ind[mark[h]], MASK + 1) == h
      {
        mark[CoarseGraph.Slot(ind[j], MASK + 1)] := -1;
      }
    }
  }

  lemma Pointed(degs: seq<Degree>, kk: int, l: int)
    requires Distinct(Pids(degs)) && 0 <= l < |degs| && degs[l].pid == kk
    ensures PositionOf(degs, kk) == l
  {
    var p := Pids(degs);
    assert p[l] == kk;
    var k := PositionOf(degs, kk);
    assert p[k] == degs[k].pid;
  }

  lemma GivePids(degs: seq<Degree>, kk: int)
    ensures PositionOf(degs, kk) == |degs| ==> Pids(Give(degs, kk, 1)) == Pids(degs) + [kk] && Give(degs, kk, 1) == degs + [Degree(kk, 1)]
    ensures PositionOf(degs, kk) < |degs| ==> Pids(Give(degs, kk, 1)) == Pids(degs)
    ensures PositionOf(degs, kk) < |degs| ==>
      Give(degs, kk, 1) == degs[PositionOf(degs, kk) := Degree(kk, degs[PositionOf(degs, kk)].ed + 1)]
  {
    hide PositionOf;
  }

  lemma EmptyShows(t: Table)
    requires t.Valid() && CoarseGraph.AllEmpty(t.mark[..])
    ensures t.Shows([])
  {
    assert Pids([]) == [];
  }

  // ---------------------------------------------------------------- counting for one element

  /** The elements after `i` found at positions `lo` and later in the list of a node. */
  ghost function Scanned(nind: seq<int>, lo: int, hi: int, i: int): set<int>
    requires 0 <= lo <= hi <= |nind|
  {
    set p | lo <= p < hi && nind[p] > i :: nind[p]
  }

  lemma {:induction false} ScannedStep(nind: seq<int>, lo: int, hi: int, i: int)
    requires 0 < lo <= hi <= |nind| && nind[lo - 1] > i && forall p, q :: lo - 1 <= p < q < hi ==> nind[p] < nind[q]
    ensures forall f :: f in Scanned(nind, lo - 1, hi, i) <==> f in Scanned(nind, lo, hi, i) || f == nind[lo - 1]
    ensures nind[lo - 1] !in Scanned(nind, lo, hi, i)
  {
  }

  /** Scanning the list of a node from its end stops at `i` itself, having met every later element with that node. */
  lemma {:induction false} ScannedAll(m: Mesh, nptr: seq<int>, nind: seq<int>, i: int, j: int, lo: int, f: int)
    requires Sized(m) && 0 <= i < m.ne && 0 <= j < m.esize && i < f < m.ne && NodeLists(m, nptr, nind)
    requires var n := Node(m, i, j); 0 <= nptr[n] <= lo <= nptr[n + 1] <= |nind| && 0 <= lo && (lo > nptr[n] ==> nind[lo - 1] <= i)
    ensures var n := Node(m, i, j); f in Scanned(nind, lo, nptr[n + 1], i) <==> HasNode(m, f, n)
  {
    hide HasNode;
    var n := Node(m, i, j);
    assert AroundNode(m, nptr, nind, n);
    if HasNode(m, f, n) {
      var a, b := nptr[n], nptr[n + 1];
      var k :| 0 <= k < b - a && nind[a..b][k] == f;
      assert nind[a + k] == f;
    }
  }

  /** While element `i` is counted: node `j`, its list scanned from position `k` on. */
  ghost predicate Counting(m: Mesh, nptr: seq<int>, nind: seq<int>, i: int, j: int, k: int, degs: seq<Degree>) {
    && Sized(m) && NodeLists(m, nptr, nind) && 0 <= i < m.ne && 0 <= j < m.esize
    && var n := Node(m, i, j);
      && 0 <= nptr[n] <= k <= nptr[n + 1] <= |nind|
      && Lists(degs, i, Weights(m, i, j, Scanned(nind, k, nptr[n + 1], i)))
  }

  lemma {:induction false} CountStep(m: Mesh, nptr: seq<int>, nind: seq<int>, i: int, j: int, k: int, degs: seq<Degree>)
    requires Counting(m, nptr, nind, i, j, k, degs) && nptr[Node(m, i, j)] < k && nind[k - 1] > i && Fits(m, i)
    ensures Counting(m, nptr, nind, i, j, k - 1, Give(degs, nind[k - 1], 1))
    ensures |Give(degs, nind[k - 1], 1)| <= CANDIDATES && Distinct(Pids(degs))
  {
    hide Lists, HasNode, Shared, Fits;
    var n := Node(m, i, j);
    assert AroundNode(m, nptr, nind, n);
    var hi := nptr[n + 1];
    var s0, s1 := Scanned(nind, k, hi, i), Scanned(nind, k - 1, hi, i);
    ScannedStep(nind, k, hi, i);
    var w0, w1 := Weights(m, i, j, s0), Weights(m, i, j, s1);
    var kk := nind[k - 1];
    forall q
      ensures w1(q) == w0(q) + (if q == kk then 1 else 0) && w0(q) >= 0
    {
      if i < q < m.ne {
        SharedGrows(m, i, q, j, j);
      }
    }
    GiveOk(degs, i, w0, kk, 1, w1);
    PidsDistinct(degs, i, w0);
    forall f | f in s1 && i < f < m.ne
      ensures HasNode(m, f, n)
    {
      var p :| k - 1 <= p < hi && nind[p] > i && nind[p] == f;
    }
    FewEnough(m, i, j, s1, Give(degs, kk, 1));
  }

  /** A node is done: everyone who has it was counted. */
  lemma {:induction false} CountNext(m: Mesh, nptr: seq<int>, nind: seq<int>, i: int, j: int, k: int, degs: seq<Degree>)
    requires Counting(m, nptr, nind, i, j, k, degs) && (k > nptr[Node(m, i, j)] ==> nind[k - 1] <= i)
    ensures Lists(degs, i, Weights(m, i, j + 1, {}))
  {
    hide Lists, HasNode;
    var n := Node(m, i, j);
    var s := Scanned(nind, k, nptr[n + 1], i);
    var w0, w1 := Weights(m, i, j, s), Weights(m, i, j + 1, {});
    forall q
      ensures w1(q) == w0(q)
    {
      if i < q < m.ne {
        ScannedAll(m, nptr, nind, i, j, k, q);
      }
    }
    SameLists(degs, i, w0, w1);
  }

  lemma CountStart(m: Mesh, nptr: seq<int>, nind: seq<int>, i: int, j: int, degs: seq<Degree>)
    requires Sized(m) && NodeLists(m, nptr, nind) && 0 <= i < m.ne && 0 <= j < m.esize && Lists(degs, i, Weights(m, i, j, {}))
    ensures Counting(m, nptr, nind, i, j, nptr[Node(m, i, j) + 1], degs)
  {
    hide Lists, HasNode, Shared;
    var n := Node(m, i, j);
    assert AroundNode(m, nptr, nind, n);
    var s := Scanned(nind, nptr[n + 1], nptr[n + 1], i);
    SameLists(degs, i, Weights(m, i, j, {}), Weights(m, i, j, s));
  }

  lemma NothingCounted(m: Mesh, i: int)
    requires Sized(m) && 0 <= i < m.ne
    ensures Lists([], i, Weights(m, i, 0, {}))
  {
  }

  /** The inner loop over the list of one node (lines 110 to 135). */
  method CountNode(m: Mesh, nptr: seq<int>, nind: seq<int>, t: Table, i: int, j: int, cnt0: int, ghost degs0: seq<Degree>) returns (cnt: int, ghost degs: seq<Degree>)
    requires Sized(m) && NodeLists(m, nptr, nind) && 0 <= i < m.ne && 0 <= j < m.esize && Fits(m, i)
    requires t.Valid() && t.Shows(degs0) && cnt0 == |degs0| && Lists(degs0, i, Weights(m, i, j, {}))
    modifies t.ind, t.wgt, t.mark
    ensures t.Shows(degs) && cnt == |degs| && Lists(degs, i, Weights(m, i, j + 1, {}))
  {
    hide NodeLists, Counting, Lists, Fits, Weights, Give;
    var n := Node(m, i, j);
    CountStart(m, nptr, nind, i, j, degs0);
    ListBounds(m, nptr, nind, n);
    cnt, degs := cnt0, degs0;
    var k := nptr[n + 1] - 1;
    while k >= nptr[n]
      invariant nptr[n] - 1 <= k < nptr[n + 1] && t.Shows(degs) && cnt == |degs| && Counting(m, nptr, nind, i, j, k + 1, degs)
    {
      var kk := nind[k];
      if kk <= i {
        break;
      }
      CountStep(m, nptr, nind, i, j, k + 1, degs);
      cnt := t.Count(kk, cnt, degs);
      degs := Give(degs, kk, 1);
      k := k - 1;
    }
    CountNext(m, nptr, nind, i, j, k + 1, degs);
  }

  lemma ListBounds(m: Mesh, nptr: seq<int>, nind: seq<int>, n: int)
    requires Sized(m) && NodeLists(m, nptr, nind) && 0 <= n < m.nn
    ensures |nptr| == m.nn + 1 && 0 <= nptr[n] <= nptr[n + 1] <= |nind|
  {
    assert AroundNode(m, nptr, nind, n);
  }

  /** All nodes of one element (lines 108 to 136): how many each later element shares with it. */
  method CountElement(m: Mesh, nptr: seq<int>, nind: seq<int>, t: Table, i: int) returns (cnt: int, ghost degs: seq<Degree>)
    requires Sized(m) && NodeLists(m, nptr, nind) && 0 <= i < m.ne && Fits(m, i) && t.Valid() && CoarseGraph.AllEmpty(t.mark[..])
    modifies t.ind, t.wgt, t.mark
    ensures t.Shows(degs) && cnt == |degs| && Lists(degs, i, Weights(m, i, m.esize, {}))
  {
    hide NodeLists, Lists, Fits, Weights;
    cnt, degs := 0, [];
    EmptyShows(t);
    NothingCounted(m, i);
    for j := 0 to m.esize
      invariant t.Shows(degs) && cnt == |degs| && Lists(degs, i, Weights(m, i, j, {}))
    {
      cnt, degs := CountNode(m, nptr, nind, t, i, j, cnt, degs);
    }
  }

  // ---------------------------------------------------------------- writing the rows

  ghost predicate RowShown(m: Mesh, dxadj: seq<int>, dadjncy: seq<int>, row: seq<int>, e: int)
    requires 0 <= e < |dxadj|
  {
    && |row| <= m.esize && dxadj[e] == Base(m.esize, e) + |row|
    && 0 <= Base(m.esize, e) && Base(m.esize, e) + |row| <= |dadjncy|
    && dadjncy[Base(m.esize, e)..Base(m.esize, e) + |row|] == row
  }

  /** Each element has room for `esize` neighbours; `rows` is what is there so far. */
  ghost predicate RowsShown(m: Mesh, dxadj: seq<int>, dadjncy: seq<int>, rows: seq<seq<int>>) {
    && m.esize > 0 && m.ne >= 0 && |rows| == m.ne < |dxadj| && |dadjncy| == Base(m.esize, m.ne)
    && forall e :: 0 <= e < m.ne ==> RowShown(m, dxadj, dadjncy, rows[e], e)
  }

  /** The pair of `e` and `f` has been dealt with: up to element `i`, and there the partners in `part`. */
  ghost predicate Known(e: int, f: int, i: int, part: set<int>) {
    var lo, hi := if e < f then e else f, if e < f then f else e;
    lo < i || (lo == i && hi in part)
  }

  ghost predicate RowKnows(m: Mesh, rows: seq<seq<int>>, i: int, part: set<int>, e: int)
    requires Sized(m) && 0 <= e < |rows|
  {
    Distinct(rows[e]) && forall f :: f in rows[e] <==> Adjacent(m, e, f) && Known(e, f, i, part)
  }

  ghost predicate RowsKnow(m: Mesh, rows: seq<seq<int>>, i: int, part: set<int>) {
    Sized(m) && |rows| == m.ne && forall e :: 0 <= e < m.ne ==> RowKnows(m, rows, i, part, e)
  }

  method Append(m: Mesh, dxadj: array<int>, dadjncy: array<int>, e: int, f: int, ghost rows: seq<seq<int>>)
    requires dxadj != dadjncy && RowsShown(m, dxadj[..], dadjncy[..], rows) && 0 <= e < m.ne && |rows[e]| < m.esize
    modifies dxadj, dadjncy
    ensures RowsShown(m, dxadj[..], dadjncy[..], rows[e := rows[e] + [f]])
  {
    hide Base;
    assert RowShown(m, dxadj[..], dadjncy[..], rows[e], e);
    BaseSteps(m.esize, e, m.ne);
    ghost var x, a := dxadj[..], dadjncy[..];
    dadjncy[dxadj[e]] := f;
    dxadj[e] := dxadj[e] + 1;
    ghost var rows' := rows[e := rows[e] + [f]];
    forall d | 0 <= d < m.ne
      ensures RowShown(m, dxadj[..], dadjncy[..], rows'[d], d)
    {
      assert RowShown(m, x, a, rows[d], d);
      if d < e {
        BaseSteps(m.esize, d, e);
      } else if e < d {
        BaseSteps(m.esize, e, d);
      }
      if d != e {
        assert dadjncy[..][Base(m.esize, d)..Base(m.esize, d) + |rows[d]|] == a[Base(m.esize, d)..Base(m.esize, d) + |rows[d]|];
      } else {
        assert dadjncy[..][Base(m.esize, d)..Base(m.esize, d) + |rows[d]| + 1] == a[Base(m.esize, d)..Base(m.esize, d) + |rows[d]|] + [f];
      }
    }
  }

  /** A neighbour still missing from a row fits into it. */
  lemma {:induction false} RoomInRow(m: Mesh, row: seq<int>, e: int, f: int)
    requires Sized(m) && 0 <= e < m.ne && Fits(m, e) && Distinct(row) && f !in row && Adjacent(m, e, f)
    requires forall x :: x in row ==> Adjacent(m, e, x)
    ensures |row| < m.esize
  {
    hide Adjacent;
    DistinctAppend(row, f);
    var r := row + [f];
    DistinctSize(r);
    forall x | x in Elements(r)
      ensures x in Neighbours(m, e)
    {
      InNeighbours(m, e, x);
    }
    SubsetSize(Elements(r), Neighbours(m, e));
  }

  lemma InNeighbours(m: Mesh, e: int, x: int)
    requires Sized(m) && Adjacent(m, e, x)
    ensures x in Neighbours(m, e)
  {
  }

  /** Recording an edge in both rows. */
  lemma {:induction false} EdgeKnown(m: Mesh, rows: seq<seq<int>>, i: int, part: set<int>, k: int)
    requires RowsKnow(m, rows, i, part) && 0 <= i < k < m.ne && k !in part && Sized(m)
    ensures Adjacent(m, i, k) ==>
      && k !in rows[i] && i !in rows[k]
      && RowsKnow(m, rows[i := rows[i] + [k]][k := rows[k] + [i]], i, part + {k})
    ensures !Adjacent(m, i, k) ==> RowsKnow(m, rows, i, part + {k})
  {
    hide Adjacent;
    assert RowKnows(m, rows, i, part, i) && RowKnows(m, rows, i, part, k);
    AdjacentBothWays(m, i, k);
    var rows' := if Adjacent(m, i, k) then rows[i := rows[i] + [k]][k := rows[k] + [i]] else rows;
    forall e | 0 <= e < m.ne
      ensures RowKnows(m, rows', i, part + {k}, e)
    {
      assert RowKnows(m, rows, i, part, e);
      if Adjacent(m, i, k) && e == i {
        DistinctAppend(rows[i], k);
      } else if Adjacent(m, i, k) && e == k {
        DistinctAppend(rows[k], i);
      }
    }
  }

  /** A counter says whether two elements are neighbours. */
  lemma {:induction false} CounterDecides(m: Mesh, i: int, degs: seq<Degree>, j: int)
    requires MeshOk(m) && Sized(m) && 0 <= i < m.ne && Lists(degs, i, Weights(m, i, m.esize, {})) && 0 <= j < |degs|
    ensures i < degs[j].pid < m.ne && (degs[j].ed == m.mgcnum <==> Adjacent(m, i, degs[j].pid))
  {
    hide MeshOk, Lists, Shared;
    EntryFacts(degs, i, Weights(m, i, m.esize, {}), j);
    SharedIsCommon(m, i, degs[j].pid, m.esize);
  }

  /** All neighbours were among the candidates, so the element is finished. */
  lemma {:induction false} ElementFinished(m: Mesh, rows: seq<seq<int>>, i: int, degs: seq<Degree>, part: set<int>)
    requires MeshOk(m) && Sized(m) && m.mgcnum > 0 && 0 <= i < m.ne && Lists(degs, i, Weights(m, i, m.esize, {}))
    requires RowsKnow(m, rows, i, part) && forall j :: 0 <= j < |degs| ==> degs[j].pid in part
    ensures RowsKnow(m, rows, i + 1, {})
  {
    hide MeshOk, Shared, Adjacent;
    var next := i + 1;
    forall e | 0 <= e < m.ne
      ensures RowKnows(m, rows, next, {}, e)
    {
      assert RowKnows(m, rows, i, part, e);
      forall f
        ensures f in rows[e] <==> Adjacent(m, e, f) && Known(e, f, next, {})
      {
        AdjacentDiffers(m, e, f);
        if Adjacent(m, e, f) && Known(e, f, next, {}) && !Known(e, f, i, part) {
          PartnerCounted(m, i, degs, e, f);
        }
      }
    }
  }

  lemma AdjacentDiffers(m: Mesh, e: int, f: int)
    requires Sized(m)
    ensures Adjacent(m, e, f) ==> e != f && 0 <= e < m.ne && 0 <= f < m.ne
  {
  }

  lemma {:induction false} PartnerCounted(m: Mesh, i: int, degs: seq<Degree>, e: int, f: int)
    requires MeshOk(m) && Sized(m) && m.mgcnum > 0 && 0 <= i < m.ne && Lists(degs, i, Weights(m, i, m.esize, {}))
    requires Adjacent(m, e, f) && (e == i < f || f == i < e)
    ensures exists j :: 0 <= j < |degs| && degs[j].pid == if e == i then f else e
  {
    hide MeshOk, Shared;
    var k := if e == i then f else e;
    AdjacentBothWays(m, e, f);
    SharedIsCommon(m, i, k, m.esize);
    assert Weights(m, i, m.esize, {})(k) != 0;
    assert Has(degs, k);
  }

  /** Lines 137 to 144: edges to the candidates that share the right number of nodes. */
  method EmitEdges(m: Mesh, t: Table, dxadj: array<int>, dadjncy: array<int>, i: int, cnt: int, ghost degs: seq<Degree>, ghost rows0: seq<seq<int>>)
    returns (ghost rows: seq<seq<int>>)
    requires MeshOk(m) && Sized(m) && m.mgcnum > 0 && 0 <= i < m.ne && (forall e :: 0 <= e < m.ne ==> Fits(m, e))
    requires t.Valid() && t.Shows(degs) && cnt == |degs| && Lists(degs, i, Weights(m, i, m.esize, {}))
    requires RowsShown(m, dxadj[..], dadjncy[..], rows0) && RowsKnow(m, rows0, i, {})
    requires dxadj != dadjncy && {dxadj, dadjncy} !! {t.ind, t.wgt, t.mark}
    modifies dxadj, dadjncy
    ensures RowsShown(m, dxadj[..], dadjncy[..], rows) && RowsKnow(m, rows, i + 1, {})
  {
    hide MeshOk, Lists, Weights, RowsKnow, RowsShown, Fits, CoarseGraph.HashOk, Adjacent;
    rows := rows0;
    ghost var part := {};
    RowCount(m, rows, i, part);
    PidsDistinct(degs, i, Weights(m, i, m.esize, {}));
    for j := 0 to cnt
      invariant RowsShown(m, dxadj[..], dadjncy[..], rows) && RowsKnow(m, rows, i, part) && |rows| == m.ne
      invariant forall l :: 0 <= l < j ==> degs[l].pid in part
      invariant forall x :: x in part ==> x in Pids(degs)[..j]
    {
      CounterDecides(m, i, degs, j);
      ghost var k0 := degs[j].pid;
      NotYet(degs, j);
      EdgeKnown(m, rows, i, part, k0);
      if t.wgt[j] == m.mgcnum {
        var k := t.ind[j];
        AdjacentBothWays(m, i, k);
        RowsRoom(m, rows, i, part, i, k);
        RowsRoom(m, rows, i, part, k, i);
        Append(m, dxadj, dadjncy, i, k, rows);
        ghost var between := rows[i := rows[i] + [k]];
        Append(m, dxadj, dadjncy, k, i, between);
        rows := between[k := between[k] + [i]];
      }
      part := part + {k0};
    }
    ElementFinished(m, rows, i, degs, part);
  }

  lemma RowCount(m: Mesh, rows: seq<seq<int>>, i: int, part: set<int>)
    requires RowsKnow(m, rows, i, part)
    ensures |rows| == m.ne
  {
  }

  lemma NotYet(degs: seq<Degree>, j: int)
    requires Distinct(Pids(degs)) && 0 <= j < |degs|
    ensures degs[j].pid !in Pids(degs)[..j] && Pids(degs)[..j + 1] == Pids(degs)[..j] + [degs[j].pid]
  {
    var p := Pids(degs);
    assert p[j] == degs[j].pid;
  }

  lemma RowsRoom(m: Mesh, rows: seq<seq<int>>, i: int, part: set<int>, e: int, f: int)
    requires RowsKnow(m, rows, i, part) && Sized(m) && 0 <= e < m.ne && Fits(m, e) && Adjacent(m, e, f) && !Known(e, f, i, part)
    ensures |rows| == m.ne && |rows[e]| < m.esize
  {
    hide Adjacent, Fits;
    assert RowKnows(m, rows, i, part, e);
    RoomInRow(m, rows[e], e, f);
  }

  // ---------------------------------------------------------------- closing the gaps

  ghost function Flat(rows: seq<seq<int>>, k: int): (s: seq<int>)
    requires 0 <= k <= |rows|
  {
    if k == 0 then [] else Flat(rows, k - 1) + rows[k - 1]
  }

  lemma {:induction false} FlatRoom(m: Mesh, rows: seq<seq<int>>, k: int)
    requires 0 <= k <= |rows| && m.esize > 0 && forall e :: 0 <= e < |rows| ==> |rows[e]| <= m.esize
    ensures |Flat(rows, k)| <= Base(m.esize, k)
  {
    if k > 0 {
      FlatRoom(m, rows, k - 1);
      BaseSteps(m.esize, k - 1, k);
    } else {
      BaseSteps(m.esize, 0, 1);
    }
  }

  lemma {:induction false} FlatGrows(rows: seq<seq<int>>, j: int, k: int)
    requires 0 <= j <= k <= |rows|
    ensures Flat(rows, j) <= Flat(rows, k)
  {
    if j < k {
      FlatGrows(rows, j, k - 1);
    }
  }

  /** The rows from `i` on are still in their old places. */
  ghost predicate Waiting(m: Mesh, dxadj: seq<int>, dadjncy: seq<int>, rows: seq<seq<int>>, i: int)
    requires |rows| == m.ne < |dxadj|
  {
    forall e :: i <= e < m.ne && 0 <= e ==> RowShown(m, dxadj, dadjncy, rows[e], e)
  }

  lemma ShownRow(m: Mesh, dxadj: seq<int>, dadjncy: seq<int>, rows: seq<seq<int>>, i: int, e: int)
    requires |rows| == m.ne < |dxadj| && Waiting(m, dxadj, dadjncy, rows, i) && 0 <= i <= e < m.ne
    ensures |rows[e]| <= m.esize && dxadj[e] == Base(m.esize, e) + |rows[e]|
    ensures 0 <= Base(m.esize, e) && Base(m.esize, e) + |rows[e]| <= |dadjncy|
    ensures forall x :: 0 <= x < |rows[e]| ==> dadjncy[Base(m.esize, e) + x] == rows[e][x]
  {
    assert RowShown(m, dxadj, dadjncy, rows[e], e);
    var lo, hi := Base(m.esize, e), Base(m.esize, e) + |rows[e]|;
    assert forall x :: 0 <= x < |rows[e]| ==> dadjncy[lo..hi][x] == dadjncy[lo + x];
  }

  /** Moving one row down, over places that are no longer needed (lines 149 to 151). */
  method MoveRow(m: Mesh, dxadj: array<int>, dadjncy: array<int>, i: int, j0: int, ghost rows: seq<seq<int>>) returns (j: int)
    requires dxadj != dadjncy && |rows| == m.ne < dxadj.Length && 0 <= i < m.ne && m.esize > 0
    requires Waiting(m, dxadj[..], dadjncy[..], rows, i) && j0 == |Flat(rows, i)| <= Base(m.esize, i) <= dadjncy.Length && dadjncy[..j0] == Flat(rows, i)
    modifies dxadj, dadjncy
    ensures j == |Flat(rows, i + 1)| <= dadjncy.Length && dadjncy[..j] == Flat(rows, i + 1)
    ensures dxadj[..] == old(dxadj[..])[i := j] && Waiting(m, dxadj[..], dadjncy[..], rows, i + 1)
  {
    hide Base, Flat, Waiting;
    ghost var x, a := dxadj[..], dadjncy[..];
    ShownRow(m, x, a, rows, i, i);
    FlatStep(rows, i);
    BaseSteps(m.esize, i, i + 1);
    j := j0;
    ghost var b, row := Base(m.esize, i), rows[i];
    var k := Base(m.esize, i);
    while k < dxadj[i]
      invariant b <= k <= b + |row| && j == j0 + (k - b) && dxadj[..] == x && dadjncy.Length == |a|
      invariant forall p :: k <= p < |a| ==> dadjncy[p] == a[p]
      invariant dadjncy[..j] == Flat(rows, i) + row[..k - b]
    {
      ghost var before := dadjncy[..j];
      assert dadjncy[k] == a[k] == row[k - b];
      dadjncy[j] := dadjncy[k];
      assert dadjncy[..j] == before && dadjncy[..j + 1] == before + [row[k - b]];
      assert row[..k - b + 1] == row[..k - b] + [row[k - b]];
      k, j := k + 1, j + 1;
    }
    assert row[..|row|] == row;
    dxadj[i] := j;
    StillWaiting(m, x, a, dxadj[..], dadjncy[..], rows, i);
  }

  lemma FlatStep(rows: seq<seq<int>>, i: int)
    requires 0 <= i < |rows|
    ensures Flat(rows, i + 1) == Flat(rows, i) + rows[i]
  {
  }

  lemma {:induction false} StillWaiting(m: Mesh, x: seq<int>, a: seq<int>, x': seq<int>, a': seq<int>, rows: seq<seq<int>>, i: int)
    requires |rows| == m.ne < |x| == |x'| && |a| == |a'| && 0 <= i < m.ne && m.esize > 0 && Waiting(m, x, a, rows, i)
    requires (forall e :: i < e < m.ne ==> x'[e] == x[e]) && forall p :: 0 <= Base(m.esize, i) + |rows[i]| <= p < |a| ==> a'[p] == a[p]
    ensures Waiting(m, x', a', rows, i + 1)
  {
    hide Base;
    ShownRow(m, x, a, rows, i, i);
    forall e | i + 1 <= e < m.ne
      ensures RowShown(m, x', a', rows[e], e)
    {
      assert RowShown(m, x, a, rows[e], e);
      BaseSteps(m.esize, i, e);
      var lo, hi := Base(m.esize, e), Base(m.esize, e) + |rows[e]|;
      assert a'[lo..hi] == a[lo..hi];
    }
  }

  /** The dual graph in compressed rows. */
  ghost predicate DualRow(m: Mesh, dxadj: seq<int>, dadjncy: seq<int>, e: int)
    requires Sized(m) && 0 <= e < |dxadj| - 1
  {
    && 0 <= dxadj[e] <= dxadj[e + 1] <= |dadjncy| && Distinct(dadjncy[dxadj[e]..dxadj[e + 1]])
    && forall f :: f in dadjncy[dxadj[e]..dxadj[e + 1]] <==> Adjacent(m, e, f)
  }

  /** Row starts in order, and rows one after the other. */
  ghost predicate Packed(dxadj: seq<int>, dadjncy: seq<int>, rows: seq<seq<int>>) {
    && |dxadj| == |rows| + 1 && |Flat(rows, |rows|)| <= |dadjncy| && dadjncy[..|Flat(rows, |rows|)|] == Flat(rows, |rows|)
    && forall e :: 0 <= e <= |rows| ==> dxadj[e] == |Flat(rows, e)|
  }

  /** Lines 147 to 155. */
  method Consolidate(m: Mesh, dxadj: array<int>, dadjncy: array<int>, ghost rows: seq<seq<int>>)
    requires dxadj != dadjncy && RowsShown(m, dxadj[..], dadjncy[..], rows) && dxadj.Length == m.ne + 1
    modifies dxadj, dadjncy
    ensures Packed(dxadj[..], dadjncy[..], rows)
  {
    hide Base, RowShown, Waiting;
    var j := 0;
    RowLengths(m, dxadj[..], dadjncy[..], rows);
    for i := 0 to m.ne
      invariant 0 <= j == |Flat(rows, i)| <= dadjncy.Length && dadjncy[..j] == Flat(rows, i)
      invariant forall e :: 0 <= e < i ==> dxadj[e] == FlatLength(rows, e + 1)
      invariant Waiting(m, dxadj[..], dadjncy[..], rows, i)
    {
      FlatRoom(m, rows, i);
      BaseSteps(m.esize, i, m.ne);
      j := MoveRow(m, dxadj, dadjncy, i, j, rows);
    }
    ghost var a := dadjncy[..];
    var i := m.ne;
    while i > 0
      invariant 0 <= i <= m.ne && dadjncy[..] == a
      invariant forall e :: 0 <= e < i ==> dxadj[e] == FlatLength(rows, e + 1)
      invariant forall e :: i < e <= m.ne ==> dxadj[e] == FlatLength(rows, e)
    {
      dxadj[i] := dxadj[i - 1];
      i := i - 1;
    }
    dxadj[0] := 0;
  }

  ghost function FlatLength(rows: seq<seq<int>>, k: int): int {
    if 0 <= k <= |rows| then |Flat(rows, k)| else 0
  }

  lemma RowLengths(m: Mesh, dxadj: seq<int>, dadjncy: seq<int>, rows: seq<seq<int>>)
    requires RowsShown(m, dxadj, dadjncy, rows)
    ensures m.ne >= 0 && m.esize > 0 && |rows| == m.ne < |dxadj| && |dadjncy| == Base(m.esize, m.ne)
    ensures forall e :: 0 <= e < |rows| ==> |rows[e]| <= m.esize
    ensures Waiting(m, dxadj, dadjncy, rows, 0)
  {
    hide Base;
    forall e | 0 <= e < |rows|
      ensures |rows[e]| <= m.esize
    {
      assert RowShown(m, dxadj, dadjncy, rows[e], e);
    }
  }

  lemma {:induction false} PackedRows(m: Mesh, dxadj: seq<int>, dadjncy: seq<int>, rows: seq<seq<int>>, e: int)
    requires Sized(m) && Packed(dxadj, dadjncy, rows) && RowsKnow(m, rows, m.ne, {}) && 0 <= e < m.ne && |rows| == m.ne
    ensures DualRow(m, dxadj, dadjncy, e)
  {
    hide Adjacent;
    FlatGrows(rows, e, e + 1);
    FlatGrows(rows, e + 1, |rows|);
    var all := Flat(rows, |rows|);
    assert dadjncy[dxadj[e]..dxadj[e + 1]] == all[dxadj[e]..dxadj[e + 1]] == rows[e] by {
      assert all[..dxadj[e + 1]] == Flat(rows, e) + rows[e];
    }
    assert RowKnows(m, rows, m.ne, {}, e);
    forall f
      ensures f in rows[e] <==> Adjacent(m, e, f)
    {
      AdjacentDiffers(m, e, f);
    }
  }

  /** The first rows, still empty. */
  lemma NoRows(m: Mesh, dxadj: seq<int>, dadjncy: seq<int>, rows: seq<seq<int>>)
    requires Sized(m) && |rows| == m.ne < |dxadj| && |dadjncy| == Base(m.esize, m.ne)
    requires forall e :: 0 <= e < m.ne ==> rows[e] == [] && dxadj[e] == Base(m.esize, e)
    ensures RowsShown(m, dxadj, dadjncy, rows) && RowsKnow(m, rows, 0, {})
  {
    forall e | 0 <= e < m.ne
      ensures RowShown(m, dxadj, dadjncy, rows[e], e)
    {
      BaseSteps(m.esize, e, m.ne);
    }
  }

  /**
   * The dual graph of a mesh: symmetric compressed rows in which two elements are neighbours exactly
   * when they share the right number of nodes.
   */
  method BuildDual(m: Mesh) returns (dxadj: array<int>, dadjncy: array<int>)
    requires MeshOk(m) && Sized(m) && m.mgcnum > 0 && forall e :: 0 <= e < m.ne ==> Fits(m, e)
    ensures dxadj.Length == m.ne + 1 && forall e :: 0 <= e < m.ne ==> DualRow(m, dxadj[..], dadjncy[..], e)
  {
    hide MeshOk, RowsShown, RowsKnow, Fits, Base, NodeLists, CoarseGraph.AllEmpty, Packed, DualRow, Lists;
    BaseTotal(m);
    dxadj := new int[m.ne + 1](_ => 0);
    dadjncy := new int[|m.elmnts|];
    if m.nn == 0 {
      NoNodesNoElements(m);
      return;
    }
    var nptr, nind := BuildNodeLists(m);
    var lists, starts := nind[..], nptr[..];
    for i := 0 to m.ne
      invariant forall e :: 0 <= e < i ==> dxadj[e] == Base(m.esize, e)
    {
      dxadj[i] := Base(m.esize, i);
    }
    var t := new Table();
    ghost var rows: seq<seq<int>> := seq(m.ne, _ => []);
    NoRows(m, dxadj[..], dadjncy[..], rows);
    for i := 0 to m.ne
      invariant RowsShown(m, dxadj[..], dadjncy[..], rows) && RowsKnow(m, rows, i, {}) && CoarseGraph.AllEmpty(t.mark[..])
    {
      var cnt;
      ghost var degs;
      cnt, degs := CountElement(m, starts, lists, t, i);
      rows := EmitEdges(m, t, dxadj, dadjncy, i, cnt, degs, rows);
      PidsNonNegative(m, i, degs);
      t.Clear(cnt, degs);
    }
    RowCount(m, rows, m.ne, {});
    Consolidate(m, dxadj, dadjncy, rows);
    forall e | 0 <= e < m.ne
      ensures DualRow(m, dxadj[..], dadjncy[..], e)
    {
      PackedRows(m, dxadj[..], dadjncy[..], rows, e);
    }
  }

  /** The same for a mesh of elements of type `etype`: triangles, tetrahedra, hexahedra or quadrilaterals. */
  method GENDUALMETIS(ne: int, nn: int, etype: int, elmnts: seq<int>) returns (dxadj: array<int>, dadjncy: array<int>)
    requires 1 <= etype <= 4
    requires var m := MeshOf(etype, ne, nn, elmnts); MeshOk(m) && Sized(m) && forall e :: 0 <= e < m.ne ==> Fits(m, e)
    ensures dxadj.Length == ne + 1 && forall e :: 0 <= e < ne ==> DualRow(MeshOf(etype, ne, nn, elmnts), dxadj[..], dadjncy[..], e)
  {
    var esizes, mgcnums := [-1, 3, 4, 8, 4], [-1, 2, 3, 4, 2];
    dxadj, dadjncy := BuildDual(Mesh(esizes[etype], mgcnums[etype], ne, nn, elmnts));
  }

  /** The rows mirror each other. */
  lemma DualSymmetric(m: Mesh, dxadj: seq<int>, dadjncy: seq<int>, e: int, f: int)
    requires Sized(m) && |dxadj| == m.ne + 1 && 0 <= e < m.ne && 0 <= f < m.ne
    requires DualRow(m, dxadj, dadjncy, e) && DualRow(m, dxadj, dadjncy, f)
    ensures f in dadjncy[dxadj[e]..dxadj[e + 1]] <==> e in dadjncy[dxadj[f]..dxadj[f + 1]]
  {
    hide Adjacent;
    AdjacentBothWays(m, e, f);
  }

  lemma BaseTotal(m: Mesh)
    requires Sized(m)
    ensures |m.elmnts| == Base(m.esize, m.ne)
  {
  }

  lemma NoNodesNoElements(m: Mesh)
    requires Sized(m) && m.nn == 0
    ensures m.ne == 0
  {
    if m.ne > 0 {
      var n := Node(m, 0, 0);
    }
  }

  lemma PidsNonNegative(m: Mesh, i: int, degs: seq<Degree>)
    requires Sized(m) && 0 <= i < m.ne && Lists(degs, i, Weights(m, i, m.esize, {}))
    ensures forall k :: 0 <= k < |degs| ==> degs[k].pid >= 0
  {
    hide Shared;
    forall k | 0 <= k < |degs|
      ensures degs[k].pid >= 0
    {
      EntryFacts(degs, i, Weights(m, i, m.esize, {}), k);
    }
  }
}
