// A pass of k-way refinement that gains nothing although it could: the boundary list is renumbered while
// it is being visited (tools/assignment/metis/kwayfm.c:57-63), so one vertex is visited twice, there and
// back, and another not at all.
module Overlooked {
  import opened Finite
  import opened Csrs
  import opened Weighted
  import opened Kway
  import opened KwayState
  import opened KwayGreedy
  import Boundary

  /** Three vertices, the first of weight 2; edges 0-1 and 1-2 of weight 2 and 0-2 of weight 1. */
  function Triangle(): Graph {
    Graph(Csr([0, 2, 4, 6], [1, 2, 0, 2, 0, 1]), [2, 1, 2, 2, 1, 2], [2, 1, 1])
  }

  /** Two parts of equal share, with all the room they need. */
  const LIMITS: Limits := Limits([0, 0], [10, 10], [2, 2], 1)

  function Home(bnd: Boundary.List): State {
    State([1, 0, 0], [Info(0, 3, [Degree(0, 3)]), Info(2, 2, [Degree(1, 2)]), Info(2, 1, [Degree(1, 1)])], bnd)
  }

  /** Vertex 1 has gone over to vertex 0. */
  function Away(): State {
    State([1, 1, 0], [Info(2, 1, [Degree(0, 1)]), Info(2, 2, [Degree(0, 2)]), Info(0, 3, [Degree(1, 3)])],
          Boundary.List([-1, 0, 1], [1, 2]))
  }

  const BEFORE: Boundary.List := Boundary.List([0, 1, -1], [0, 1])
  const AFTER: Boundary.List := Boundary.List([1, 0, -1], [1, 0])

  lemma TriangleShaped()
    ensures Weighted.Shaped(Triangle()) && N(Triangle()) == 3
    ensures forall u :: 0 <= u < 3 ==> First(Triangle().csr, u) == 2 * u && Last(Triangle().csr, u) == 2 * u + 2
  {
    var c := Triangle().csr;
    assert RowShaped(c, 0) && RowShaped(c, 1) && RowShaped(c, 2);
  }

  /** The weight of the edges between two vertices. */
  function Weight(u: int, v: int): int {
    if u == v then 0 else if u == 1 || v == 1 then 2 else 1
  }

  lemma DegIs(u: int, s: set<int>)
    requires 0 <= u < 3
    ensures Weighted.Shaped(Triangle()) && N(Triangle()) == 3
    ensures Deg(Triangle(), u, s) ==
      (if 0 in s then Weight(u, 0) else 0) + (if 1 in s then Weight(u, 1) else 0) + (if 2 in s then Weight(u, 2) else 0)
  {
    TriangleShaped();
    var g := Triangle();
    assert Into(g, 2 * u, 2 * u, s) == 0;
    assert Into(g, 2 * u, 2 * u + 1, s) == if g.csr.adjncy[2 * u] in s then g.adjwgt[2 * u] else 0;
  }

  lemma {:induction false} TriangleSimple()
    ensures Simple(Triangle()) && Weighted.Shaped(Triangle()) && N(Triangle()) == 3
  {
    TriangleShaped();
    var g := Triangle();
    forall u | 0 <= u < 3
      ensures GoodRow(g, u) && Distinct(Row(g.csr, u))
    {
      forall j | First(g.csr, u) <= j < Last(g.csr, u)
        ensures GoodEntry(g, u, j)
      {
      }
      assert Row(g.csr, u) == [g.csr.adjncy[2 * u], g.csr.adjncy[2 * u + 1]];
    }
    forall u, v | 0 <= u < 3 && 0 <= v < 3
      ensures SameBothWays(g, u, v)
    {
      DegIs(u, {v});
      DegIs(v, {u});
    }
  }

  /** The weight from `u` into part `q`. */
  function Pulled(where: seq<int>, u: int, q: int): int
    requires |where| == 3
  {
    (if where[0] == q then Weight(u, 0) else 0) + (if where[1] == q then Weight(u, 1) else 0) + (if where[2] == q then Weight(u, 2) else 0)
  }

  lemma PullIs(where: seq<int>, u: int, q: int)
    requires |where| == 3 && 0 <= u < 3
    ensures Weighted.Shaped(Triangle()) && N(Triangle()) == 3
    ensures Pull(Triangle(), where, u, q) == Toward(Triangle(), where, u)(q) == Pulled(where, u, q)
    ensures Id(Triangle(), where, u) == Pulled(where, u, where[u])
    ensures Ed(Triangle(), where, u) == Weight(u, 0) + Weight(u, 1) + Weight(u, 2) - Pulled(where, u, where[u])
  {
    TriangleShaped();
    DegIs(u, Side(where, q, 3));
    DegIs(u, Side(where, where[u], 3));
    DegIs(u, Others(where, where[u]));
  }

  lemma HeftIs(where: seq<int>, q: int)
    requires |where| == 3
    ensures Weighted.Shaped(Triangle()) && N(Triangle()) == 3
    ensures Heft(Triangle(), where, q) ==
      (if where[0] == q then 2 else 0) + (if where[1] == q then 1 else 0) + (if where[2] == q then 1 else 0)
  {
    TriangleShaped();
    var g := Triangle();
    assert PartWeight(g, where, q, 0) == 0;
    assert PartWeight(g, where, q, 1) == if where[0] == q then 2 else 0;
    assert PartWeight(g, where, q, 2) == PartWeight(g, where, q, 1) + if where[1] == q then 1 else 0;
  }

  /** In two parts every list has at most one entry. */
  lemma {:induction false} InfoIs(where: seq<int>, u: int, info: Info)
    requires |where| == 3 && InRange(where, 2) && 0 <= u < 3
    requires var q := 1 - where[u];
      Pulled(where, u, q) > 0 && info == Info(Pulled(where, u, where[u]), Pulled(where, u, q), [Degree(q, Pulled(where, u, q))])
    ensures Weighted.Shaped(Triangle()) && N(Triangle()) == 3 && InfoAt(Triangle(), where, u, info)
  {
    hide Deg, Weight, Toward, Id, Ed, Triangle;
    PullIs(where, u, where[u]);
    var g := Triangle();
    forall q
      ensures Toward(g, where, u)(q) == Pulled(where, u, q)
    {
      PullIs(where, u, q);
    }
    assert info.degs[0].pid == 1 - where[u];
    assert Lists(info.degs, where[u], Toward(g, where, u));
  }

  ghost predicate BoundaryIs(bnd: Boundary.List, infos: seq<Info>) {
    |bnd.ptr| == |infos| == 3 && Boundary.Valid(bnd) && forall u :: 0 <= u < 3 ==> (Boundary.Holds(bnd, u) <==> infos[u].ed >= infos[u].id)
  }

  lemma {:induction false} ExactSo(s: State)
    requires |s.where| == |s.infos| == 3 && InRange(s.where, 2) && BoundaryIs(s.bnd, s.infos)
    requires forall u :: 0 <= u < 3 ==> var q := 1 - s.where[u];
      && Pulled(s.where, u, q) > 0
      && s.infos[u] == Info(Pulled(s.where, u, s.where[u]), Pulled(s.where, u, q), [Degree(q, Pulled(s.where, u, q))])
    ensures Sane(Triangle(), LIMITS, s)
  {
    TriangleSimple();
    hide Triangle, Simple, InfoAt, Pulled, Weighted.Shaped, Boundary.Valid;
    forall u | 0 <= u < 3
      ensures ExactAt(Triangle(), s, u)
    {
      InfoIs(s.where, u, s.infos[u]);
    }
  }

  /** Either list of the boundary is right for the parts as they are at first. */
  lemma HomeExact(bnd: Boundary.List)
    requires bnd in {BEFORE, AFTER}
    ensures BoundaryIs(bnd, Home(bnd).infos) && Sane(Triangle(), LIMITS, Home(bnd))
  {
    var s := Home(bnd);
    assert BoundaryIs(bnd, s.infos);
    hide BoundaryIs, Sane, Triangle;
    ExactSo(s);
  }

  lemma AwayExact()
    ensures BoundaryIs(Away().bnd, Away().infos) && Sane(Triangle(), LIMITS, Away())
  {
    var s := Away();
    assert BoundaryIs(s.bnd, s.infos);
    hide BoundaryIs, Sane, Triangle;
    ExactSo(s);
  }

  // ---------------------------------------------------------------- there and back

  /** The record of a neighbour in the part left, and of one in the part joined. */
  lemma OneEntry(id: int, ed: int, e: int, from: int, to: int, w: int)
    requires from != to && e != w
    ensures Updated(Info(id, ed, [Degree(to, e)]), from, from, to, w) == Info(id - w, ed + w, [Degree(to, e + w)])
    ensures Updated(Info(id, ed, [Degree(from, e)]), to, from, to, w) == Info(id + w, ed - w, [Degree(from, e - w)])
  {
    assert PositionOf([Degree(to, e)], to) == 0 && PositionOf([Degree(from, e)], from) == 0;
    assert [Degree(to, e)][0 := Degree(to, e + w)] == [Degree(to, e + w)];
    assert [Degree(from, e)][0 := Degree(from, e - w)] == [Degree(from, e - w)];
  }

  /** The records as vertex 1 goes over, and as it comes back. */
  lemma Records()
    ensures Moved(Info(2, 2, [Degree(1, 2)]), 0, 0) == Info(2, 2, [Degree(0, 2)])
    ensures Updated(Info(0, 3, [Degree(0, 3)]), 1, 0, 1, 2) == Info(2, 1, [Degree(0, 1)])
    ensures Updated(Info(2, 1, [Degree(1, 1)]), 0, 0, 1, 2) == Info(0, 3, [Degree(1, 3)])
    ensures Moved(Info(2, 2, [Degree(0, 2)]), 0, 1) == Info(2, 2, [Degree(1, 2)])
    ensures Updated(Info(2, 1, [Degree(0, 1)]), 1, 1, 0, 2) == Info(0, 3, [Degree(0, 3)])
    ensures Updated(Info(0, 3, [Degree(1, 3)]), 0, 1, 0, 2) == Info(2, 1, [Degree(1, 1)])
  {
    hide Updated;
    OneEntry(0, 3, 3, 0, 1, 2);
    OneEntry(2, 1, 1, 0, 1, 2);
    OneEntry(2, 1, 1, 1, 0, 2);
    OneEntry(0, 3, 3, 1, 0, 2);
    assert [Degree(1, 2)][0 := Degree(0, 2)] == [Degree(0, 2)] && [Degree(0, 2)][0 := Degree(1, 2)] == [Degree(1, 2)];
  }

  const ALONE: Boundary.List := Boundary.List([-1, 0, -1], [1])
  const ALL: Boundary.List := Boundary.List([2, 0, 1], [1, 2, 0])

  lemma BoundaryLists()
    ensures Boundary.Valid(BEFORE) && Boundary.Valid(ALONE) && Boundary.Valid(Away().bnd) && Boundary.Valid(ALL)
    ensures Rebound(BEFORE, 1, Info(2, 2, [Degree(0, 2)])) == BEFORE
    ensures Rebound(BEFORE, 0, Info(2, 1, [Degree(0, 1)])) == ALONE
    ensures Rebound(ALONE, 2, Info(0, 3, [Degree(1, 3)])) == Away().bnd
    ensures Rebound(Away().bnd, 1, Info(2, 2, [Degree(1, 2)])) == Away().bnd
    ensures Rebound(Away().bnd, 0, Info(0, 3, [Degree(0, 3)])) == ALL
    ensures Rebound(ALL, 2, Info(2, 1, [Degree(1, 1)])) == AFTER
  {
    assert Boundary.Delete(BEFORE, 0) == ALONE;
    assert Boundary.Insert(ALONE, 2) == Away().bnd;
    assert Boundary.Insert(Away().bnd, 0) == ALL;
    assert Boundary.Delete(ALL, 2) == AFTER;
  }

  /** Both neighbours of vertex 1 are told of its move, one after the other. */
  lemma TwoSteps(s: State, from: int, to: int)
    requires Sized(Triangle(), s) && Boundary.Valid(s.bnd)
    ensures WellFormed(Triangle()) && Weighted.Shaped(Triangle()) && N(Triangle()) == 3
    ensures First(Triangle().csr, 1) == 2 && Last(Triangle().csr, 1) == 4
    ensures var t := NeighbourStep(s, 0, from, to, 2);
      && Boundary.Valid(t.bnd) && |t.infos| == |t.where| == |t.bnd.ptr| == 3
      && Told(Triangle(), s, 1, from, to, 4) == NeighbourStep(t, 2, from, to, 2)
  {
    hide Boundary.Valid, Told, NeighbourStep, WellFormed;
    TriangleSimple();
    TriangleShaped();
    var g := Triangle();
    ToldNobody(g, s, 1, from, to);
    ToldNext(g, s, 1, from, to, 2);
    ToldNext(g, s, 1, from, to, 3);
  }

  lemma {:induction false} GoesOver()
    ensures Exact(Triangle(), Home(BEFORE)) && WellFormed(Triangle()) && Weighted.Shaped(Triangle())
    ensures Sized(Triangle(), Home(BEFORE)) && Boundary.Valid(BEFORE) && N(Triangle()) == 3
    ensures MoveTo(Triangle(), Home(BEFORE), 1, 0) == Away()
  {
    HomeExact(BEFORE);
    hide Exact, Boundary.Valid, WellFormed, Told, Triangle, Moved, Updated, Rebound, BoundaryIs;
    SaneFacts(Triangle(), LIMITS, Home(BEFORE));
    TriangleSimple();
    Records();
    BoundaryLists();
    var m := MoveSelf(Home(BEFORE), 1, 0);
    assert m.where == [1, 1, 0];
    TwoSteps(m, 0, 1);
    assert MoveTo(Triangle(), Home(BEFORE), 1, 0).infos == Away().infos;
  }

  lemma {:induction false} ComesBack()
    ensures Exact(Triangle(), Away()) && WellFormed(Triangle()) && Weighted.Shaped(Triangle())
    ensures Sized(Triangle(), Away()) && Boundary.Valid(Away().bnd) && N(Triangle()) == 3
    ensures MoveTo(Triangle(), Away(), 1, 0) == Home(AFTER)
  {
    AwayExact();
    hide Exact, Boundary.Valid, WellFormed, Told, Triangle, Moved, Updated, Rebound, BoundaryIs;
    SaneFacts(Triangle(), LIMITS, Away());
    TriangleSimple();
    Records();
    BoundaryLists();
    var m := MoveSelf(Away(), 1, 0);
    assert m.where == [1, 0, 0];
    TwoSteps(m, 1, 0);
    assert MoveTo(Triangle(), Away(), 1, 0).infos == Home(AFTER).infos;
  }

  // ---------------------------------------------------------------- why it goes

  lemma {:induction false} OnlyTarget(where: seq<int>, v: int, q: int)
    requires |where| == 3 && InRange(where, 2) && 0 <= v < 3 && q == 1 - where[v] && Fit(Triangle(), where, LIMITS) && N(Triangle()) == 3
    requires Pulled(where, v, q) >= Pulled(where, v, where[v]) && Pulled(where, v, q) > 0
    ensures Target(Triangle(), where, LIMITS, v, q) && !HeldBack(Triangle(), where, LIMITS, v) && HasRoom(Triangle(), where, LIMITS, v, q)
  {
    hide Deg, PartWeight, Id, Pulled;
    PullIs(where, v, q);
    HeftIs(where, q);
    HeftIs(where, where[v]);
    var g := Triangle();
    assert HasRoom(g, where, LIMITS, v, q);
    assert Backed(g, where, LIMITS, v, q);
    forall r
      ensures NotBetter(g, where, LIMITS, v, r, q)
    {
    }
  }

  lemma GoodReasons()
    ensures Fit(Triangle(), Home(BEFORE).where, LIMITS) && Fit(Triangle(), Away().where, LIMITS) && N(Triangle()) == 3
    ensures Goes(Triangle(), Home(BEFORE).where, LIMITS, 0, 1, 1)
    ensures Goes(Triangle(), Away().where, LIMITS, 1, 1, 0)
  {
    TriangleShaped();
    OnlyTarget(Home(BEFORE).where, 1, 1);
    OnlyTarget(Away().where, 1, 0);
    hide Target, HeldBack, Pull, Id, Heft;
    HeftIs(Away().where, 0);
    HeftIs(Away().where, 1);
  }

  lemma FirstVisit()
    ensures Visit(Triangle(), LIMITS, Home(BEFORE), 1, 0, Away())
  {
    HomeExact(BEFORE);
    GoesOver();
    GoodReasons();
    hide Triangle, Sane, Exact, Goes, Stays, MoveTo, Fit, WellFormed, Boundary.Valid, BoundaryIs;
    assert Settled(Triangle(), LIMITS, Home(BEFORE), 0, 1, Away());
  }

  lemma SecondVisit()
    ensures Visit(Triangle(), LIMITS, Away(), 0, 1, Home(AFTER))
  {
    AwayExact();
    ComesBack();
    GoodReasons();
    hide Triangle, Sane, Exact, Goes, Stays, MoveTo, Fit, WellFormed, Boundary.Valid, BoundaryIs;
    assert Settled(Triangle(), LIMITS, Away(), 1, 1, Home(AFTER));
  }

  lemma TwoVisits(g: Graph, l: Limits, s0: State, s1: State, s2: State, p0: int, p1: int)
    requires Sane(g, l, s0) && Sane(g, l, s1) && Sane(g, l, s2) && IsPermutation([p0, p1], |s0.bnd.ind|)
    requires Visit(g, l, s0, p0, 0, s1) && Visit(g, l, s1, p1, 1, s2)
    ensures Swept(g, l, Sweep([p0, p1], [s0, s1, s2]), s0, s2)
  {
    hide Sane, Visit, Sweeping;
    SweepBegins(g, l, [p0, p1], s0);
    SweepGrows(g, l, Sweep([p0, p1], [s0]), 0, s1);
    assert [s0] + [s1] == [s0, s1];
    SweepGrows(g, l, Sweep([p0, p1], [s0, s1]), 1, s2);
    assert [s0, s1] + [s2] == [s0, s1, s2];
  }

  lemma GainLeft()
    ensures var where := Home(AFTER).where;
      && N(Triangle()) == 3 && Fit(Triangle(), where, LIMITS) && !NothingToGain(Triangle(), where, LIMITS, 0)
      && Pull(Triangle(), where, 0, 0) - Id(Triangle(), where, 0) == 3
  {
    var where := Home(AFTER).where;
    GoodReasons();
    OnlyTarget(where, 0, 0);
    PullIs(where, 0, 0);
    hide Triangle, Fit, Pull, Id, HeldBack, HasRoom, Target, Goes, Toward;
  }

  const PASS: Sweep := Sweep([1, 0], [Home(BEFORE), Away(), Home(AFTER)])

  lemma PassIsSwept()
    ensures Swept(Triangle(), LIMITS, PASS, Home(BEFORE), Home(AFTER))
  {
    assert IsPermutation([1, 0], |Home(BEFORE).bnd.ind|);
    hide *;
    HomeExact(BEFORE);
    HomeExact(AFTER);
    AwayExact();
    FirstVisit();
    SecondVisit();
    TwoVisits(Triangle(), LIMITS, Home(BEFORE), Away(), Home(AFTER), 1, 0);
  }

  lemma SameParts()
    ensures Home(AFTER).where == Home(BEFORE).where && Idle(Triangle(), Home(BEFORE), Home(AFTER))
    ensures 0 in BEFORE.ind && 0 in AFTER.ind
  {
    TriangleShaped();
    assert BEFORE.ind[0] == 0 && AFTER.ind[1] == 0;
    hide Triangle, Cut;
  }

  /**
   * A pass over this graph visits vertex 1 twice and vertex 0 never: all parts are as before and the cut
   * has not changed, so the refinement ends here; and yet vertex 0 was on the list before and is on it now,
   * and moving it would gain 3.
   */
  lemma {:induction false} GainOverlooked()
    ensures Swept(Triangle(), LIMITS, PASS, Home(BEFORE), Home(AFTER))
    ensures Home(AFTER).where == Home(BEFORE).where && Idle(Triangle(), Home(BEFORE), Home(AFTER))
    ensures 0 in BEFORE.ind && 0 in AFTER.ind && N(Triangle()) == 3
    ensures var where := Home(AFTER).where;
      && Fit(Triangle(), where, LIMITS) && !NothingToGain(Triangle(), where, LIMITS, 0)
      && Pull(Triangle(), where, 0, 0) - Id(Triangle(), where, 0) == 3
  {
    hide *;
    PassIsSwept();
    SameParts();
    GainLeft();
  }
}
