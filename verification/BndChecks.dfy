// The program's own check of a k-way boundary list (CheckBnd2, tools/assignment/metis/debug.c:82-112),
// and when the lists that refinement works with pass it.
module BndChecks {
  import opened Finite
  import opened Csrs
  import opened Weighted
  import opened Kway
  import opened KwayState
  import Boundary

  /** Vertices the check expects on the list: those with edges, at least half of them external. */
  ghost predicate Expected(g: Graph, where: seq<int>, u: int)
    requires Weighted.Shaped(g) && |where| == N(g) && 0 <= u < N(g)
  {
    Ed(g, where, u) >= Id(g, where, u) && First(g.csr, u) < Last(g.csr, u)
  }

  ghost function AllExpected(g: Graph, where: seq<int>): set<int>
    requires Weighted.Shaped(g) && |where| == N(g)
  {
    set u | u in Range(0, N(g)) && Expected(g, where, u)
  }

  /** Each of them is linked both ways, and the list is exactly as long as there are such vertices. */
  ghost predicate CheckBnd2(g: Graph, where: seq<int>, bnd: Boundary.List)
    requires Weighted.Shaped(g) && |where| == |bnd.ptr| == N(g)
  {
    && (forall u :: 0 <= u < N(g) && Expected(g, where, u) ==> Boundary.Holds(bnd, u) && Boundary.Linked(bnd, u))
    && |bnd.ind| == |AllExpected(g, where)|
  }

  /** An exact state passes if and only if its list holds no vertex without edges. */
  lemma {:induction false} PassesExactly(g: Graph, s: State)
    requires Exact(g, s)
    ensures Weighted.Shaped(g) && |s.where| == |s.bnd.ptr| == N(g)
    ensures CheckBnd2(g, s.where, s.bnd) <==> forall u :: 0 <= u < N(g) && Isolated(g, u) ==> !Boundary.Holds(s.bnd, u)
  {
    var listed, expected := Elements(s.bnd.ind), AllExpected(g, s.where);
    Boundary.Enumerates(s.bnd);
    DistinctSize(s.bnd.ind);
    forall u | 0 <= u < N(g)
      ensures Boundary.Linked(s.bnd, u) && (Expected(g, s.where, u) ==> Boundary.Holds(s.bnd, u))
      ensures Boundary.Holds(s.bnd, u) && !Isolated(g, u) ==> Expected(g, s.where, u)
    {
      ExactFacts(g, s, u);
    }
    assert expected <= listed;
    SubsetSize(expected, listed);
    forall u | u in listed
      ensures 0 <= u < N(g) && Boundary.Holds(s.bnd, u)
    {
      var k :| 0 <= k < |s.bnd.ind| && s.bnd.ind[k] == u;
      assert Boundary.LinkedBack(s.bnd, k);
    }
    if forall u :: 0 <= u < N(g) && Isolated(g, u) ==> !Boundary.Holds(s.bnd, u) {
      assert listed <= expected;
      SubsetSize(listed, expected);
    }
    if |listed| == |expected| {
      assert listed == expected;
      forall u | 0 <= u < N(g) && Isolated(g, u)
        ensures !Boundary.Holds(s.bnd, u)
      {
        assert u !in expected;
      }
    }
  }

  /** What ComputeKWayPartitionParams leaves passes if and only if every vertex has edges. */
  lemma {:induction false} AfterComputing(g: Graph, s: State)
    requires Exact(g, s) && Sized(g, s) && forall u :: 0 <= u < N(g) ==> (Boundary.Holds(s.bnd, u) <==> s.infos[u].ed >= s.infos[u].id)
    ensures Weighted.Shaped(g) && |s.where| == |s.bnd.ptr| == N(g)
    ensures CheckBnd2(g, s.where, s.bnd) <==> forall u :: 0 <= u < N(g) ==> !Isolated(g, u)
  {
    PassesExactly(g, s);
    forall u | 0 <= u < N(g) && Isolated(g, u)
      ensures Boundary.Holds(s.bnd, u)
    {
      ExactFacts(g, s, u);
      IntoEmpty(g, First(g.csr, u), Last(g.csr, u), Others(s.where, s.where[u]));
      IntoEmpty(g, First(g.csr, u), Last(g.csr, u), Side(s.where, s.where[u], N(g)));
    }
  }

  /** What ProjectKWayPartition leaves always passes. */
  lemma {:induction false} AfterProjecting(g: Graph, s: State)
    requires Exact(g, s) && Sized(g, s) && Weighted.Shaped(g)
    requires forall u :: 0 <= u < N(g) ==> (Boundary.Holds(s.bnd, u) <==> s.infos[u].ed >= s.infos[u].id && First(g.csr, u) < Last(g.csr, u))
    ensures |s.where| == |s.bnd.ptr| == N(g) && CheckBnd2(g, s.where, s.bnd)
  {
    PassesExactly(g, s);
  }
}
