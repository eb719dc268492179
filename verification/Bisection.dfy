// The redundant state that two-way refinement keeps beside a bisection - internal and external
// degrees, boundary list, queue gains - and why moving one vertex keeps it exact.
module Bisection {
  import opened Finite
  import opened Csrs
  import opened Weighted
  import Boundary

  /** The refinement arrays as values. */
  datatype State = State(where: seq<int>, id: seq<int>, ed: seq<int>, bnd: Boundary.List)

  ghost predicate Isolated(g: Graph, u: int)
    requires Weighted.Shaped(g) && 0 <= u < N(g)
  {
    First(g.csr, u) == Last(g.csr, u)
  }

  ghost predicate Sized(g: Graph, s: State) {
    |s.where| == |s.id| == |s.ed| == |s.bnd.ptr| == N(g)
  }

  ghost predicate TwoSided(s: State) {
    forall u :: 0 <= u < |s.where| ==> s.where[u] == 0 || s.where[u] == 1
  }

  /** Boundary membership of one vertex; islands count as boundary. */
  ghost predicate BndAt(g: Graph, s: State, u: int)
    requires Weighted.Shaped(g) && Sized(g, s) && 0 <= u < N(g)
  {
    Boundary.Holds(s.bnd, u) <==> s.ed[u] > 0 || Isolated(g, u)
  }

  ghost predicate ExactAt(g: Graph, s: State, u: int)
    requires Weighted.Shaped(g) && Sized(g, s) && 0 <= u < N(g)
  {
    s.ed[u] == Ed(g, s.where, u) && s.id[u] == Id(g, s.where, u) && BndAt(g, s, u)
  }

  /** Everything stored agrees with its recomputation. */
  ghost predicate Exact(g: Graph, s: State) {
    && Weighted.Shaped(g) && Sized(g, s) && TwoSided(s) && Boundary.Valid(s.bnd)
    && forall u :: 0 <= u < N(g) ==> ExactAt(g, s, u)
  }

  // ---------------------------------------------------------------- a move in progress

  /**
   * `v` has changed sides and the entries of its row before `j` have been handed to their
   * vertices: each such vertex gained or lost external degree by what those entries weigh.
   */
  ghost predicate MidAt(g: Graph, where0: seq<int>, s: State, v: int, j: int, u: int)
    requires WellFormed(g) && Sized(g, s) && |where0| == N(g) && 0 <= v < N(g) && 0 <= u < N(g)
    requires First(g.csr, v) <= j <= Last(g.csr, v)
  {
    && s.ed[u] + s.id[u] == Deg(g, u, Range(0, N(g)))
    && s.ed[u] == Ed(g, where0, u)
         + (if u == v then Id(g, where0, v) - Ed(g, where0, v)
            else if where0[u] == where0[v] then Into(g, First(g.csr, v), j, {u})
            else -Into(g, First(g.csr, v), j, {u}))
    && BndAt(g, s, u)
  }

  ghost predicate Mid(g: Graph, where0: seq<int>, s: State, v: int, j: int) {
    && WellFormed(g) && Sized(g, s) && TwoSided(s) && Boundary.Valid(s.bnd)
    && |where0| == N(g) && 0 <= v < N(g) && First(g.csr, v) <= j <= Last(g.csr, v)
    && where0 == s.where[v := 1 - s.where[v]]
    && forall u :: 0 <= u < N(g) ==> MidAt(g, where0, s, v, j, u)
  }

  lemma MidFacts(g: Graph, where0: seq<int>, s: State, v: int, j: int, k: int)
    requires Mid(g, where0, s, v, j) && 0 <= k < N(g)
    ensures Weighted.Shaped(g) && Sized(g, s) && Boundary.Valid(s.bnd) && s.where[k] in {0, 1} && s.where[v] == 1 - where0[v]
    ensures MidAt(g, where0, s, v, j, k) && BndAt(g, s, k)
  {
  }

  /** The new degrees of a vertex never leave 0..adjwgtsum, even halfway through a move. */
  lemma {:induction false} MidBounds(g: Graph, where0: seq<int>, s: State, v: int, j: int, u: int)
    requires Mid(g, where0, s, v, j) && 0 <= u < N(g)
    ensures 0 <= s.ed[u] && 0 <= s.id[u] && s.ed[u] + s.id[u] == Deg(g, u, Range(0, N(g)))
  {
    assert MidAt(g, where0, s, v, j, u);
    EdPlusId(g, where0, u);
    DegNonNegative(g, u, Others(where0, where0[u]));
    DegNonNegative(g, u, Side(where0, where0[u], N(g)));
    if u != v {
      IntoGrows(g, v, j, Last(g.csr, v), {u});
      assert SameBothWays(g, u, v);
      assert forall i :: 0 <= i < N(g) && i != v ==> s.where[i] == where0[i];
      DegAtLeast(g, u, v, if where0[u] == where0[v] then Side(where0, where0[u], N(g)) else Others(where0, where0[u]));
    }
  }

  lemma {:induction false} DegAtLeast(g: Graph, u: int, v: int, s: set<int>)
    requires WellFormed(g) && 0 <= u < N(g) && v in s
    ensures Deg(g, u, {v}) <= Deg(g, u, s)
  {
    assert (s - {v}) + {v} == s;
    DegSplit(g, u, s - {v}, {v});
    DegNonNegative(g, u, s - {v});
  }

  /** A neighbour's new degrees and boundary membership, as every refinement loop updates them. */
  function Shift(s: State, k: int, kwgt: int): State
    requires 0 <= k < |s.id| == |s.ed|
  {
    s.(id := s.id[k := s.id[k] + kwgt], ed := s.ed[k := s.ed[k] - kwgt])
  }

  ghost function Rebound(s: State, k: int): State
    requires Boundary.Valid(s.bnd) && 0 <= k < |s.ed| == |s.bnd.ptr|
  {
    if Boundary.Holds(s.bnd, k) && s.ed[k] == 0 then
      Boundary.DeleteValid(s.bnd, k); s.(bnd := Boundary.Delete(s.bnd, k))
    else if !Boundary.Holds(s.bnd, k) && s.ed[k] > 0 then
      s.(bnd := Boundary.Insert(s.bnd, k))
    else s
  }

  lemma {:induction false} ReboundOk(g: Graph, s: State, k: int)
    requires Weighted.Shaped(g) && Sized(g, s) && Boundary.Valid(s.bnd) && 0 <= k < N(g) && s.ed[k] >= 0
    requires !Isolated(g, k)
    ensures var s' := Rebound(s, k);
      && Sized(g, s') && Boundary.Valid(s'.bnd) && BndAt(g, s', k)
      && (forall u :: 0 <= u < N(g) && u != k ==> (Boundary.Holds(s'.bnd, u) <==> Boundary.Holds(s.bnd, u)))
  {
    if Boundary.Holds(s.bnd, k) && s.ed[k] == 0 {
      Boundary.DeleteValid(s.bnd, k);
    } else if !Boundary.Holds(s.bnd, k) && s.ed[k] > 0 {
      Boundary.InsertValid(s.bnd, k);
    }
  }

  /** What the sign of the update is: towards the side `v` has moved to, or away from it. */
  function Kwgt(s: State, v: int, k: int, w: int): int
    requires 0 <= v < |s.where| && 0 <= k < |s.where|
  {
    if s.where[v] == s.where[k] then w else -w
  }

  /** Handing one entry of the row to its vertex. */
  lemma {:induction false} MidStep(g: Graph, where0: seq<int>, s: State, v: int, j: int)
    requires Mid(g, where0, s, v, j) && j < Last(g.csr, v)
    ensures var k := g.csr.adjncy[j];
      && 0 <= k < N(g) && k != v && !Isolated(g, k)
      && Boundary.Valid(Shift(s, k, Kwgt(s, v, k, g.adjwgt[j])).bnd)
      && Mid(g, where0, Rebound(Shift(s, k, Kwgt(s, v, k, g.adjwgt[j])), k), v, j + 1)
  {
    var k := g.csr.adjncy[j];
    assert GoodRow(g, v) && GoodEntry(g, v, j);
    var s1 := Shift(s, k, Kwgt(s, v, k, g.adjwgt[j]));
    assert MidAt(g, where0, s, v, j, k);
    ShiftAt(g, where0, s, v, j);
    MidDegrees(g, where0, s, v, j);
    ReboundOk(g, s1, k);
    var s2, next := Rebound(s1, k), j + 1;
    forall u | 0 <= u < N(g)
      ensures MidAt(g, where0, s2, v, next, u)
    {
      assert MidAt(g, where0, s, v, j, u);
      assert Into(g, First(g.csr, v), next, {u}) == Into(g, First(g.csr, v), j, {u}) + if u == k then g.adjwgt[j] else 0;
    }
  }

  lemma {:induction false} ShiftAt(g: Graph, where0: seq<int>, s: State, v: int, j: int)
    requires Mid(g, where0, s, v, j) && j < Last(g.csr, v)
    ensures 0 <= g.csr.adjncy[j] < N(g) && g.csr.adjncy[j] != v && g.adjwgt[j] > 0
    ensures !Isolated(g, g.csr.adjncy[j])
  {
    var k := g.csr.adjncy[j];
    assert GoodRow(g, v) && GoodEntry(g, v, j);
    assert SameBothWays(g, v, k);
    IntoGrows(g, v, j, j, {k});
    IntoGrows(g, v, j + 1, Last(g.csr, v), {k});
  }

  /** After the shift the external degree is still non-negative. */
  lemma {:induction false} MidDegrees(g: Graph, where0: seq<int>, s: State, v: int, j: int)
    requires Mid(g, where0, s, v, j) && j < Last(g.csr, v)
    requires 0 <= g.csr.adjncy[j] < N(g) && g.csr.adjncy[j] != v && g.adjwgt[j] > 0
    ensures var k := g.csr.adjncy[j];
      s.ed[k] - Kwgt(s, v, k, g.adjwgt[j]) >= 0
  {
    var k := g.csr.adjncy[j];
    assert MidAt(g, where0, s, v, j, k);
    DegNonNegative(g, k, Others(where0, where0[k]));
    IntoGrows(g, v, j + 1, Last(g.csr, v), {k});
    IntoGrows(g, v, j, j, {k});
    assert SameBothWays(g, v, k);
    assert where0[k] == s.where[k];
    if where0[k] != where0[v] {
      DegAtLeast(g, k, v, Others(where0, where0[k]));
    }
  }

  // ---------------------------------------------------------------- start and end of a move

  /** The mover itself: it changes sides, its degrees trade places, its membership follows. */
  ghost function MoveSelf(g: Graph, s: State, v: int): State
    requires Exact(g, s) && 0 <= v < N(g)
  {
    var s1 := s.(where := s.where[v := 1 - s.where[v]], id := s.id[v := s.ed[v]], ed := s.ed[v := s.id[v]]);
    if Isolated(g, v) then s1 else Rebound(s1, v)
  }

  lemma {:induction false} MoveStarts(g: Graph, s: State, v: int)
    requires WellFormed(g) && Exact(g, s) && 0 <= v < N(g)
    ensures Mid(g, s.where, MoveSelf(g, s, v), v, First(g.csr, v))
  {
    var s1 := s.(where := s.where[v := 1 - s.where[v]], id := s.id[v := s.ed[v]], ed := s.ed[v := s.id[v]]);
    assert ExactAt(g, s, v);
    DegNonNegative(g, v, Side(s.where, s.where[v], N(g)));
    if Isolated(g, v) {
      IntoEmpty(g, First(g.csr, v), Last(g.csr, v), Side(s.where, s.where[v], N(g)));
      IntoEmpty(g, First(g.csr, v), Last(g.csr, v), Others(s.where, s.where[v]));
    } else {
      ReboundOk(g, s1, v);
    }
    var s2 := MoveSelf(g, s, v);
    forall u | 0 <= u < N(g)
      ensures MidAt(g, s.where, s2, v, First(g.csr, v), u)
    {
      assert ExactAt(g, s, u);
      EdPlusId(g, s.where, u);
    }
    assert s2.where[v := 1 - s2.where[v]] == s.where;
  }

  lemma {:induction false} MoveEnds(g: Graph, where0: seq<int>, s: State, v: int)
    requires WellFormed(g) && 0 <= v < N(g) && Mid(g, where0, s, v, Last(g.csr, v))
    ensures Exact(g, s)
  {
    var to := s.where[v];
    assert s.where == where0[v := to];
    assert forall i :: 0 <= i < N(g) && i != v ==> s.where[i] == where0[i];
    forall u | 0 <= u < N(g)
      ensures ExactAt(g, s, u)
    {
      assert MidAt(g, where0, s, v, Last(g.csr, v), u);
      EdAfterMove(g, where0, v, to, u);
      EdPlusId(g, s.where, u);
      OtherSide(g, where0, v, to);
    }
  }

  /** With two sides, everything not on one side is on the other. */
  lemma OtherSide(g: Graph, where: seq<int>, v: int, to: int)
    requires |where| == N(g) && 0 <= v < N(g) && to == 1 - where[v]
    requires forall u :: 0 <= u < |where| ==> where[u] == 0 || where[u] == 1
    ensures Side(where, to, N(g)) == Others(where, where[v])
  {
  }

  // ---------------------------------------------------------------- the gain queues

  /**
   * One queue's entry for one vertex: present exactly when the vertex is eligible, on the queue's
   * side, and (unless the queue takes everybody) on the boundary; and then with its current gain.
   */
  ghost predicate QueueAt(s: State, eligible: set<int>, everybody: bool, q: map<int, int>, p: int, k: int)
    requires |s.where| == |s.ed| == |s.id| == |s.bnd.ptr|
  {
    && (k in q <==> 0 <= k < |s.where| && k in eligible && s.where[k] == p && (everybody || Boundary.Holds(s.bnd, k)))
    && (k in q ==> q[k] == s.ed[k] - s.id[k])
  }

  ghost predicate QueueOk(s: State, eligible: set<int>, everybody: bool, q: map<int, int>, p: int)
    requires |s.where| == |s.ed| == |s.id| == |s.bnd.ptr|
  {
    forall k :: QueueAt(s, eligible, everybody, q, p, k)
  }

  /** The queue after the neighbour `k` changed from `s` to `s'`. */
  ghost function Requeue(q: map<int, int>, s': State, eligible: set<int>, everybody: bool, p: int, k: int): map<int, int>
    requires 0 <= k < |s'.where| == |s'.ed| == |s'.id| == |s'.bnd.ptr|
  {
    if k in eligible && s'.where[k] == p then
      if everybody || Boundary.Holds(s'.bnd, k) then q[k := s'.ed[k] - s'.id[k]] else q - {k}
    else q
  }

  lemma {:induction false} RequeueOk(s: State, s': State, eligible: set<int>, everybody: bool, q: map<int, int>, p: int, k: int)
    requires |s.where| == |s.ed| == |s.id| == |s.bnd.ptr| == |s'.ed| == |s'.id| == |s'.bnd.ptr|
    requires 0 <= k < |s.where| && s'.where == s.where
    requires QueueOk(s, eligible, everybody, q, p)
    requires forall u :: 0 <= u < |s.ed| && u != k ==>
               s'.ed[u] == s.ed[u] && s'.id[u] == s.id[u] && (Boundary.Holds(s'.bnd, u) <==> Boundary.Holds(s.bnd, u))
    ensures QueueOk(s', eligible, everybody, Requeue(q, s', eligible, everybody, p, k), p)
  {
    forall u
      ensures QueueAt(s', eligible, everybody, Requeue(q, s', eligible, everybody, p, k), p, u)
    {
      assert QueueAt(s, eligible, everybody, q, p, u);
    }
  }
}
