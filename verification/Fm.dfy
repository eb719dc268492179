// Two-way refinement by moving vertices one at a time (tools/assignment/metis/fm.c and
// Bnd2WayBalance of tools/assignment/metis/balance.c).
module Fm {
  import opened Finite
  import opened Csrs
  import opened Weighted
  import opened Bisection
  import opened Greedy
  import Boundary

  /**
   * The gain queue by its contract: each node at most once, gains within the range the queue was
   * set up for, deletions and updates naming the gain on record, and extraction of a maximum.
   */
  class PQueue {
    var gain: map<int, int>
    const maxgain: int

    constructor (maxgain: int)
      ensures gain == map[] && this.maxgain == maxgain
    {
      gain := map[];
      this.maxgain := maxgain;
    }

    method Reset()
      modifies this
      ensures gain == map[]
    {
      gain := map[];
    }

    method Insert(node: int, g: int)
      requires node >= 0 && node !in gain && -maxgain <= g <= maxgain
      modifies this
      ensures gain == old(gain)[node := g]
    {
      gain := gain[node := g];
    }

    method Delete(node: int, g: int)
      requires node in gain && gain[node] == g
      modifies this
      ensures gain == old(gain) - {node}
    {
      gain := gain - {node};
    }

    method Update(node: int, oldgain: int, newgain: int)
      requires node in gain && gain[node] == oldgain && -maxgain <= newgain <= maxgain
      modifies this
      ensures gain == old(gain)[node := newgain]
    {
      gain := gain[node := newgain];
    }

    method GetMax() returns (node: int)
      requires forall k :: k in gain ==> k >= 0
      modifies this
      ensures node == -1 <==> old(gain) == map[]
      ensures node == -1 ==> gain == old(gain)
      ensures node != -1 ==> node in old(gain) && gain == old(gain) - {node}
      ensures node != -1 ==> forall k :: k in old(gain) ==> old(gain)[k] <= old(gain)[node]
    {
      if gain == map[] {
        return -1;
      }
      assert gain.Keys != {};
      var rest := gain.Keys;
      node := Pick(rest);
      rest := rest - {node};
      while rest != {}
        invariant gain == old(gain) && node in gain && rest <= gain.Keys
        invariant forall k :: k in gain && k !in rest ==> gain[k] <= gain[node]
        decreases rest
      {
        var k := Pick(rest);
        rest := rest - {k};
        if gain[k] > gain[node] {
          node := k;
        }
      }
      gain := gain - {node};
    }
  }

  /** The refinement arrays of a graph, and the bookkeeping of one call. */
  class Arrays {
    const where: array<int>
    const id: array<int>
    const ed: array<int>
    const bndptr: array<int>
    const bndind: array<int>
    const pwgts: array<int>
    const moved: array<int>
    const swaps: array<int>
    var nbnd: int
    var mincut: int

    constructor (where: array<int>, id: array<int>, ed: array<int>, bndptr: array<int>, bndind: array<int>,
                 pwgts: array<int>, moved: array<int>, swaps: array<int>, nbnd: int, mincut: int)
      ensures this.where == where && this.id == id && this.ed == ed && this.bndptr == bndptr && this.bndind == bndind
      ensures this.pwgts == pwgts && this.moved == moved && this.swaps == swaps && this.nbnd == nbnd && this.mincut == mincut
    {
      this.where, this.id, this.ed, this.bndptr, this.bndind := where, id, ed, bndptr, bndind;
      this.pwgts, this.moved, this.swaps, this.nbnd, this.mincut := pwgts, moved, swaps, nbnd, mincut;
    }

    predicate Valid(n: int) {
      && where.Length == id.Length == ed.Length == bndptr.Length == bndind.Length == moved.Length == swaps.Length == n
      && pwgts.Length == 2
      && where !in {id, ed, bndptr, bndind, pwgts, moved, swaps} && id !in {ed, bndptr, bndind, pwgts, moved, swaps}
      && ed !in {bndptr, bndind, pwgts, moved, swaps} && bndptr !in {bndind, pwgts, moved, swaps}
      && bndind !in {pwgts, moved, swaps} && pwgts !in {moved, swaps} && moved != swaps
    }

    ghost predicate Shows(s: State)
      reads this`nbnd, where, id, ed, bndptr, bndind
    {
      && 0 <= nbnd <= bndind.Length
      && where[..] == s.where && id[..] == s.id && ed[..] == s.ed && bndptr[..] == s.bnd.ptr && bndind[..nbnd] == s.bnd.ind
    }

    method INC_DEC(to: int, from: int, w: int)
      requires pwgts.Length == 2 && 0 <= to < 2 && from == 1 - to
      modifies pwgts
      ensures pwgts[..] == old(pwgts[..])[to := old(pwgts[to]) + w][from := old(pwgts[from]) - w]
    {
      pwgts[to] := pwgts[to] + w;
      pwgts[from] := pwgts[from] - w;
    }

    method BNDInsert(vtx: int, ghost s: State)
      requires Valid(where.Length) && Shows(s) && 0 <= vtx < where.Length
      requires Boundary.Valid(s.bnd) && !Boundary.Holds(s.bnd, vtx)
      modifies this`nbnd, bndptr, bndind
      ensures Shows(s.(bnd := Boundary.Insert(s.bnd, vtx)))
    {
      Boundary.InsertValid(s.bnd, vtx);
      bndind[nbnd] := vtx;
      bndptr[vtx] := nbnd;
      nbnd := nbnd + 1;
      assert bndind[..nbnd] == s.bnd.ind + [vtx];
    }

    method BNDDelete(vtx: int, ghost s: State)
      requires Valid(where.Length) && Shows(s) && 0 <= vtx < where.Length
      requires Boundary.Valid(s.bnd) && Boundary.Holds(s.bnd, vtx)
      modifies this`nbnd, bndptr, bndind
      ensures 0 <= s.bnd.ptr[vtx] < |s.bnd.ind| && 0 <= s.bnd.ind[|s.bnd.ind| - 1] < |s.bnd.ptr|
      ensures Shows(s.(bnd := Boundary.Delete(s.bnd, vtx)))
    {
      Boundary.DeleteValid(s.bnd, vtx);
      nbnd := nbnd - 1;
      bndind[bndptr[vtx]] := bndind[nbnd];
      bndptr[bndind[nbnd]] := bndptr[vtx];
      bndptr[vtx] := -1;
    }
  }

  function Wants(p: Policy, moved: int, where: int, vwgt: int): bool {
    moved == -1 && (p.side == -1 || (where == p.side && vwgt <= p.maxw))
  }

  ghost function Eligible(g: Graph, p: Policy, moved: seq<int>, where: seq<int>): set<int>
    requires |moved| == |where| == |g.vwgt|
  {
    set k | k in Range(0, |where|) && Wants(p, moved[k], where[k], g.vwgt[k])
  }

  lemma EligibleAt(g: Graph, p: Policy, moved: seq<int>, where: seq<int>, k: int)
    requires |moved| == |where| == |g.vwgt| && 0 <= k < |where|
    ensures k in Eligible(g, p, moved, where) <==> Wants(p, moved[k], where[k], g.vwgt[k])
  {
  }

  /** Both queues, as far as the policy uses them. */
  ghost predicate Queued(s: State, p: Policy, eligible: set<int>, q0: map<int, int>, q1: map<int, int>)
    requires |s.where| == |s.ed| == |s.id| == |s.bnd.ptr|
  {
    && (p.side != 1 ==> QueueOk(s, eligible, false, q0, 0))
    && (p.side != 0 ==> QueueOk(s, eligible, false, q1, 1))
  }

  lemma MidShape(g: Graph, where0: seq<int>, s: State, v: int, j: int)
    requires Mid(g, where0, s, v, j)
    ensures WellFormed(g) && Weighted.Shaped(g) && Sized(g, s) && Boundary.Valid(s.bnd) && 0 <= v < N(g)
    ensures First(g.csr, v) <= j <= Last(g.csr, v)
  {
  }

  /** What the update of one neighbour needs to know about it, and what it establishes. */
  lemma {:induction false} NeighbourFacts(g: Graph, where0: seq<int>, s: State, v: int, j: int, p: Policy,
                                          e: set<int>, q0: map<int, int>, q1: map<int, int>, maxgain: int)
    requires WellFormed(g) && 0 <= v < N(g) && First(g.csr, v) <= j < Last(g.csr, v) && Sized(g, s)
    requires Mid(g, where0, s, v, j) && Queued(s, p, e, q0, q1)
    requires forall u :: 0 <= u < N(g) ==> Deg(g, u, Range(0, N(g))) <= maxgain
    ensures var k := g.csr.adjncy[j];
      && 0 <= k < N(g) && k != v && s.where[k] in {0, 1} && s.ed[k] >= 0
      && var s1 := Shift(s, k, Kwgt(s, v, k, g.adjwgt[j]));
      && Boundary.Valid(s1.bnd)
      && var s2 := Rebound(s1, k);
      && Mid(g, where0, s2, v, j + 1) && Sized(g, s2) && s2.where == s.where
      && -maxgain <= s2.ed[k] - s2.id[k] <= maxgain
      && s2.ed[k] >= 0
      && (Boundary.Holds(s2.bnd, k) <==> s2.ed[k] > 0)
      && Queued(s2, p, e, Requeue(q0, s2, e, false, 0, k), Requeue(q1, s2, e, false, 1, k))
  {
    hide Mid, MidAt, WellFormed, QueueOk, Boundary.Valid, Deg;
    var k := g.csr.adjncy[j];
    MidFacts(g, where0, s, v, j, v);
    ShiftAt(g, where0, s, v, j);
    MidFacts(g, where0, s, v, j, k);
    MidBounds(g, where0, s, v, j, k);
    MidStep(g, where0, s, v, j);
    var s1 := Shift(s, k, Kwgt(s, v, k, g.adjwgt[j]));
    var s2 := Rebound(s1, k);
    MidFacts(g, where0, s2, v, j + 1, k);
    MidBounds(g, where0, s2, v, j + 1, k);
    ReboundOk(g, s1, k);
    if p.side != 1 {
      RequeueOk(s, s2, e, false, q0, 0, k);
    }
    if p.side != 0 {
      RequeueOk(s, s2, e, false, q1, 1, k);
    }
  }

  /** One iteration of the update loop: the neighbour stored at `j` of the moved vertex's row. */
  method UpdateNeighbour(g: Graph, a: Arrays, p: Policy, p0: PQueue, p1: PQueue, v: int, j: int, to: int,
                         ghost where0: seq<int>, ghost s: State, ghost e: set<int>, ghost q0: map<int, int>, ghost q1: map<int, int>)
    returns (ghost s': State)
    requires WellFormed(g) && 0 <= v < N(g) && First(g.csr, v) <= j < Last(g.csr, v) && Sized(g, s)
    requires Mid(g, where0, s, v, j) && Queued(s, p, e, q0, q1)
    requires a.Valid(N(g)) && a.Shows(s) && p0 != p1 && p0.gain == q0 && p1.gain == q1 && to == s.where[v]
    requires e == Eligible(g, p, a.moved[..], s.where)
    requires p0.maxgain == p1.maxgain && forall u :: 0 <= u < N(g) ==> Deg(g, u, Range(0, N(g))) <= p0.maxgain
    modifies a`nbnd, a.id, a.ed, a.bndptr, a.bndind, p0, p1
    ensures a.Shows(s') && Sized(g, s') && s'.where == s.where
    ensures Mid(g, where0, s', v, j + 1) && Queued(s', p, e, p0.gain, p1.gain)
  {
    hide Mid, WellFormed, QueueOk, Boundary.Valid, Queued, Eligible, Deg;
    MidShape(g, where0, s, v, j);
    NeighbourFacts(g, where0, s, v, j, p, e, q0, q1, p0.maxgain);
    var k := g.csr.adjncy[j];
    var oldgain := a.ed[k] - a.id[k];
    var kwgt := if to == a.where[k] then g.adjwgt[j] else -g.adjwgt[j];
    a.id[k] := a.id[k] + kwgt;
    a.ed[k] := a.ed[k] - kwgt;
    ghost var s1 := Shift(s, k, kwgt);
    s' := Rebound(s1, k);
    var q := if a.where[k] == 0 then p0 else p1;
    QueueEntry(s, p, e, q0, q1, k);
    EligibleAt(g, p, a.moved[..], s.where, k);
    RefileNeighbour(g, a, p, q, k, oldgain, s1, e, q.gain);
  }

  /** The second half of that iteration: the boundary list and the vertex's place in its queue. */
  method RefileNeighbour(g: Graph, a: Arrays, p: Policy, q: PQueue, k: int, oldgain: int,
                         ghost s: State, ghost e: set<int>, ghost q0: map<int, int>)
    requires a.Valid(|g.vwgt|) && a.Shows(s) && Boundary.Valid(s.bnd) && 0 <= k < |g.vwgt| && q.gain == q0
    requires s.ed[k] >= 0 && -q.maxgain <= s.ed[k] - s.id[k] <= q.maxgain
    requires k in e <==> Wants(p, a.moved[k], a.where[k], g.vwgt[k])
    requires k in e ==> (k in q0 <==> Boundary.Holds(s.bnd, k)) && (k in q0 ==> q0[k] == oldgain)
    modifies a`nbnd, a.bndptr, a.bndind, q
    ensures a.Shows(Rebound(s, k))
    ensures q.gain == Requeue(q0, Rebound(s, k), e, false, s.where[k], k)
  {
    hide Boundary.Valid;
    if a.bndptr[k] != -1 {
      if a.ed[k] == 0 {  /* it leaves the list */
        a.BNDDelete(k, s);
        if Wants(p, a.moved[k], a.where[k], g.vwgt[k]) {
          q.Delete(k, oldgain);
        }
      } else {
        if Wants(p, a.moved[k], a.where[k], g.vwgt[k]) {
          q.Update(k, oldgain, a.ed[k] - a.id[k]);
        }
      }
    } else {
      if a.ed[k] > 0 {  /* it joins the list */
        a.BNDInsert(k, s);
        if Wants(p, a.moved[k], a.where[k], g.vwgt[k]) {
          q.Insert(k, a.ed[k] - a.id[k]);
        }
      }
    }
  }

  /** The queue's record of one vertex. */
  lemma QueueEntry(s: State, p: Policy, e: set<int>, q0: map<int, int>, q1: map<int, int>, k: int)
    requires |s.where| == |s.ed| == |s.id| == |s.bnd.ptr| && 0 <= k < |s.where| && s.where[k] in {0, 1}
    requires Queued(s, p, e, q0, q1)
    ensures var q := if s.where[k] == 0 then q0 else q1;
      (p.side == -1 || p.side == s.where[k]) && p.side in {-1, 0, 1} ==>
        && (k in q <==> k in e && Boundary.Holds(s.bnd, k))
        && (k in q ==> q[k] == s.ed[k] - s.id[k])
  {
    var q := if s.where[k] == 0 then q0 else q1;
    if (p.side == -1 || p.side == s.where[k]) && p.side in {-1, 0, 1} {
      assert QueueAt(s, e, false, q, s.where[k], k);
    }
  }

  /** Taking a vertex out of the queue is the same as making it ineligible. */
  lemma {:induction false} PopOk(s: State, e: set<int>, q: map<int, int>, p: int, v: int)
    requires |s.where| == |s.ed| == |s.id| == |s.bnd.ptr|
    requires QueueOk(s, e, false, q, p)
    ensures QueueOk(s, e - {v}, false, q - {v}, p)
  {
    forall k
      ensures QueueAt(s, e - {v}, false, q - {v}, p, k)
    {
      assert QueueAt(s, e, false, q, p, k);
    }
  }

  lemma {:induction false} NotQueued(s: State, e: set<int>, q: map<int, int>, p: int, v: int)
    requires |s.where| == |s.ed| == |s.id| == |s.bnd.ptr|
    requires QueueOk(s, e, false, q, p) && 0 <= v < |s.where| && s.where[v] != p
    ensures v !in q
  {
    assert QueueAt(s, e, false, q, p, v);
  }

  /** The mover itself no longer concerns the queues. */
  lemma {:induction false} SelfMoveQueue(g: Graph, s: State, v: int, e: set<int>, q: map<int, int>, p: int)
    requires WellFormed(g) && Exact(g, s) && 0 <= v < N(g) && v !in e
    requires QueueOk(s, e, false, q, p)
    ensures Sized(g, MoveSelf(g, s, v)) && QueueOk(MoveSelf(g, s, v), e, false, q, p)
  {
    var s' := MoveSelf(g, s, v);
    MoveSelfOthers(g, s, v);
    forall k
      ensures QueueAt(s', e, false, q, p, k)
    {
      assert QueueAt(s, e, false, q, p, k);
    }
  }

  lemma SelfMoveQueues(g: Graph, s: State, v: int, p: Policy, e: set<int>, q0: map<int, int>, q1: map<int, int>)
    requires WellFormed(g) && Exact(g, s) && Sized(g, s) && 0 <= v < N(g) && v !in e && Queued(s, p, e, q0, q1)
    ensures Sized(g, MoveSelf(g, s, v)) && Queued(MoveSelf(g, s, v), p, e, q0, q1)
  {
    hide WellFormed, Exact, QueueOk, MoveSelf;
    MoveSelfOthers(g, s, v);
    if p.side != 1 {
      SelfMoveQueue(g, s, v, e, q0, 0);
    }
    if p.side != 0 {
      SelfMoveQueue(g, s, v, e, q1, 1);
    }
  }

  lemma {:induction false} MoveSelfOthers(g: Graph, s: State, v: int)
    requires WellFormed(g) && Exact(g, s) && 0 <= v < N(g)
    ensures var s' := MoveSelf(g, s, v);
      && Sized(g, s') && s'.where == s.where[v := 1 - s.where[v]]
      && s'.id == s.id[v := s.ed[v]] && s'.ed == s.ed[v := s.id[v]]
      && (forall u :: 0 <= u < N(g) && u != v ==> (Boundary.Holds(s'.bnd, u) <==> Boundary.Holds(s.bnd, u)))
  {
    var s1 := s.(where := s.where[v := 1 - s.where[v]], id := s.id[v := s.ed[v]], ed := s.ed[v := s.id[v]]);
    assert ExactAt(g, s, v);
    DegNonNegative(g, v, Side(s.where, s.where[v], N(g)));
    if !Isolated(g, v) {
      ReboundOk(g, s1, v);
    }
  }

  lemma EligibleAfterMove(g: Graph, p: Policy, moved: seq<int>, where: seq<int>, v: int, n: int, to: int)
    requires |moved| == |where| == |g.vwgt| && 0 <= v < |where| && n >= 0
    ensures Eligible(g, p, moved[v := n], where[v := to]) == Eligible(g, p, moved, where) - {v}
  {
    var a, b := Eligible(g, p, moved[v := n], where[v := to]), Eligible(g, p, moved, where) - {v};
    forall k
      ensures k in a <==> k in b
    {
      if 0 <= k < |where| {
        EligibleAt(g, p, moved, where, k);
        EligibleAt(g, p, moved[v := n], where[v := to], k);
      }
    }
  }

  lemma ExactFacts(g: Graph, s: State, v: int)
    requires WellFormed(g) && Exact(g, s) && 0 <= v < N(g)
    ensures Weighted.Shaped(g) && Sized(g, s) && s.where[v] in {0, 1} && Boundary.Valid(s.bnd)
    ensures s.ed[v] == Ed(g, s.where, v) && s.id[v] == Id(g, s.where, v) && BndAt(g, s, v)
    ensures s.id[v] >= 0 && s.ed[v] >= 0
  {
    assert ExactAt(g, s, v);
    DegNonNegative(g, v, Side(s.where, s.where[v], N(g)));
    DegNonNegative(g, v, Others(s.where, s.where[v]));
  }

  /** Swapping the mover's degrees and refiling it on the boundary list, where it already is. */
  method SwapSelf(g: Graph, a: Arrays, v: int, to: int, ghost s: State)
    requires WellFormed(g) && Exact(g, s) && 0 <= v < N(g) && to == 1 - s.where[v] && Boundary.Holds(s.bnd, v)
    requires a.Valid(N(g)) && a.Shows(s)
    modifies a`nbnd, a.where, a.id, a.ed, a.bndptr, a.bndind
    ensures a.Shows(MoveSelf(g, s, v))
  {
    hide Exact, WellFormed, Boundary.Valid;
    ExactFacts(g, s, v);
    a.where[v] := to;
    var tmp := a.id[v];
    a.id[v] := a.ed[v];
    a.ed[v] := tmp;
    ghost var s1 := s.(where := s.where[v := 1 - s.where[v]], id := s.id[v := s.ed[v]], ed := s.ed[v := s.id[v]]);
    assert a.Shows(s1);
    if a.ed[v] == 0 && First(g.csr, v) < Last(g.csr, v) {
      a.BNDDelete(v, s1);
    }
  }

  /**
   * Moves the extracted vertex `v` to the other side: every array stays exact, and so do the
   * queues, with `v` out of them for good.
   */
  method MoveVertex(g: Graph, a: Arrays, p: Policy, p0: PQueue, p1: PQueue, v: int, nswaps: int, to: int,
                    ghost s: State, ghost e: set<int>, ghost moved: seq<int>)
    returns (ghost s': State)
    requires WellFormed(g) && Exact(g, s) && 0 <= v < N(g) && to == 1 - s.where[v] && Boundary.Holds(s.bnd, v) && nswaps >= 0
    requires a.Valid(N(g)) && a.Shows(s) && a.moved[..] == moved && p0 != p1
    requires Sized(g, s) && Queued(s, p, e - {v}, p0.gain, p1.gain) && e == Eligible(g, p, moved, s.where)
    requires p0.maxgain == p1.maxgain && forall u :: 0 <= u < N(g) ==> Deg(g, u, Range(0, N(g))) <= p0.maxgain
    modifies a`nbnd, a.where, a.id, a.ed, a.bndptr, a.bndind, a.moved, p0, p1
    ensures a.Shows(s') && Exact(g, s') && s'.where == s.where[v := to] && a.moved[..] == moved[v := nswaps]
    ensures Queued(s', p, e - {v}, p0.gain, p1.gain) && e - {v} == Eligible(g, p, a.moved[..], s'.where)
  {
    hide Exact, WellFormed, Mid, Boundary.Valid, Boundary.Holds, QueueOk, Queued, Eligible, Deg, MoveSelf;
    ExactFacts(g, s, v);
    SwapSelf(g, a, v, to, s);
    a.moved[v] := nswaps;
    EligibleAfterMove(g, p, moved, s.where, v, nswaps, to);
    MoveStarts(g, s, v);
    MoveSelfOthers(g, s, v);
    s' := MoveSelf(g, s, v);
    ghost var e' := e - {v};
    SelfMoveQueues(g, s, v, p, e', p0.gain, p1.gain);
    for j := First(g.csr, v) to Last(g.csr, v)
      invariant a.Shows(s') && Sized(g, s') && Mid(g, s.where, s', v, j) && s'.where == s.where[v := to]
      invariant a.moved[..] == moved[v := nswaps] && Queued(s', p, e', p0.gain, p1.gain)
    {
      s' := UpdateNeighbour(g, a, p, p0, p1, v, j, to, s.where, s', e', p0.gain, p1.gain);
    }
    MoveEnds(g, s.where, s', v);
  }

  // ---------------------------------------------------------------- undoing a move

  /** Taking one move back: the same exact update without the queues. */
  method UndoMove(g: Graph, a: Arrays, v: int, ghost s: State) returns (ghost s': State)
    requires WellFormed(g) && Exact(g, s) && 0 <= v < N(g)
    requires a.Valid(N(g)) && a.Shows(s)
    modifies a`nbnd, a.where, a.id, a.ed, a.bndptr, a.bndind, a.pwgts
    ensures a.Shows(s') && Exact(g, s') && s'.where == s.where[v := 1 - s.where[v]]
    ensures s.where[v] in {0, 1}
    ensures a.pwgts[..] == old(a.pwgts[..])[1 - s.where[v] := old(a.pwgts[1 - s.where[v]]) + g.vwgt[v]]
                                           [s.where[v] := old(a.pwgts[s.where[v]]) - g.vwgt[v]]
  {
    hide Exact, WellFormed, Mid, Boundary.Valid, Boundary.Holds, Deg, MoveSelf, Rebound;
    ExactFacts(g, s, v);
    var to := (a.where[v] + 1) % 2;
    UndoSelf(g, a, v, to, s);
    MoveStarts(g, s, v);
    MoveSelfOthers(g, s, v);
    s' := MoveSelf(g, s, v);
    a.INC_DEC(to, (to + 1) % 2, g.vwgt[v]);
    ghost var pw := a.pwgts[..];
    for j := First(g.csr, v) to Last(g.csr, v)
      invariant a.Shows(s') && Sized(g, s') && Mid(g, s.where, s', v, j) && s'.where == s.where[v := to]
      invariant a.pwgts[..] == pw
    {
      s' := UndoNeighbour(g, a, v, j, to, s.where, s');
    }
    MoveEnds(g, s.where, s', v);
  }

  method UndoSelf(g: Graph, a: Arrays, v: int, to: int, ghost s: State)
    requires WellFormed(g) && Exact(g, s) && 0 <= v < N(g) && to == 1 - s.where[v]
    requires a.Valid(N(g)) && a.Shows(s)
    modifies a`nbnd, a.where, a.id, a.ed, a.bndptr, a.bndind
    ensures a.Shows(MoveSelf(g, s, v))
  {
    hide Exact, WellFormed, Boundary.Valid;
    ExactFacts(g, s, v);
    IsolatedBoundary(g, s, v);
    a.where[v] := to;
    var tmp := a.id[v];
    a.id[v] := a.ed[v];
    a.ed[v] := tmp;
    ghost var s1 := s.(where := s.where[v := 1 - s.where[v]], id := s.id[v := s.ed[v]], ed := s.ed[v := s.id[v]]);
    assert a.Shows(s1);
    if a.ed[v] == 0 && a.bndptr[v] != -1 && First(g.csr, v) < Last(g.csr, v) {
      a.BNDDelete(v, s1);
    } else if a.ed[v] > 0 && a.bndptr[v] == -1 {
      a.BNDInsert(v, s1);
    }
  }

  lemma IsolatedBoundary(g: Graph, s: State, v: int)
    requires WellFormed(g) && Exact(g, s) && Weighted.Shaped(g) && Sized(g, s) && 0 <= v < N(g)
    ensures Isolated(g, v) ==> Boundary.Holds(s.bnd, v)
  {
    assert ExactAt(g, s, v);
  }

  method UndoNeighbour(g: Graph, a: Arrays, v: int, j: int, to: int, ghost where0: seq<int>, ghost s: State)
    returns (ghost s': State)
    requires WellFormed(g) && 0 <= v < N(g) && First(g.csr, v) <= j < Last(g.csr, v) && Sized(g, s)
    requires Mid(g, where0, s, v, j) && a.Valid(N(g)) && a.Shows(s) && to == s.where[v]
    modifies a`nbnd, a.id, a.ed, a.bndptr, a.bndind
    ensures a.Shows(s') && Sized(g, s') && s'.where == s.where && Mid(g, where0, s', v, j + 1)
    ensures var k := g.csr.adjncy[j];
      && 0 <= k < N(g) && Boundary.Valid(Shift(s, k, Kwgt(s, v, k, g.adjwgt[j])).bnd)
      && s' == Rebound(Shift(s, k, Kwgt(s, v, k, g.adjwgt[j])), k)
  {
    hide Mid, WellFormed, Boundary.Valid;
    MidShape(g, where0, s, v, j);
    ShiftAt(g, where0, s, v, j);
    MidDegrees(g, where0, s, v, j);
    MidStep(g, where0, s, v, j);
    var k := g.csr.adjncy[j];
    var kwgt := if to == a.where[k] then g.adjwgt[j] else -g.adjwgt[j];
    a.id[k] := a.id[k] + kwgt;
    a.ed[k] := a.ed[k] - kwgt;
    ghost var s1 := Shift(s, k, kwgt);
    assert a.Shows(s1);
    s' := Rebound(s1, k);
    if a.bndptr[k] != -1 && a.ed[k] == 0 {
      a.BNDDelete(k, s1);
    }
    if a.bndptr[k] == -1 && a.ed[k] > 0 {
      a.BNDInsert(k, s1);
    }
  }

  // ---------------------------------------------------------------- cut and weights along the way

  function Min(x: int, y: int): (m: int)
    ensures m <= x && m <= y && m in {x, y}
  {
    if x < y then x else y
  }

  ghost predicate WeightsOk(g: Graph, where: seq<int>, pwgts: seq<int>)
    requires Weighted.Shaped(g) && |where| == N(g)
  {
    |pwgts| == 2 && pwgts[0] == PartWeight(g, where, 0, N(g)) && pwgts[1] == PartWeight(g, where, 1, N(g))
  }

  /** What the program books for a move is what the move does to the cut and to the weights. */
  lemma {:induction false} MoveBooks(g: Graph, s: State, v: int)
    requires WellFormed(g) && Exact(g, s) && 0 <= v < N(g)
    ensures Cut(g, s.where[v := 1 - s.where[v]]) == Cut(g, s.where) - (s.ed[v] - s.id[v])
    ensures forall p :: PartWeight(g, s.where[v := 1 - s.where[v]], p, N(g)) ==
              PartWeight(g, s.where, p, N(g)) + if p == 1 - s.where[v] then g.vwgt[v] else if p == s.where[v] then -g.vwgt[v] else 0
  {
    assert ExactAt(g, s, v);
    var to := 1 - s.where[v];
    CutAfterMove(g, s.where, v, to);
    OtherSide(g, s.where, v, to);
    forall p
      ensures PartWeight(g, s.where[v := to], p, N(g)) ==
              PartWeight(g, s.where, p, N(g)) + if p == to then g.vwgt[v] else if p == s.where[v] then -g.vwgt[v] else 0
    {
      WeightAfterMove(g, s.where, v, to, p, N(g));
    }
  }

  /**
   * The best state seen: `best` is what undoing everything after the swap `order` leads back to,
   * and `mincut`, `mindiff` are its cut and its distance from the target weight.
   */
  ghost predicate Best(g: Graph, where: seq<int>, swaps: seq<int>, best: seq<int>, order: int, mincut: int, mindiff: int, target: int)
    requires Weighted.Shaped(g) && |where| == N(g)
  {
    && -1 <= order < |swaps| && InRange(swaps, N(g)) && |best| == N(g)
    && where == Toggle(best, swaps[order + 1..])
    && mincut == Cut(g, best) && mindiff == Abs(target - PartWeight(g, best, 0, N(g)))
  }

  lemma {:induction false} BestGrows(g: Graph, where: seq<int>, swaps: seq<int>, best: seq<int>, order: int, mincut: int,
                                     mindiff: int, target: int, v: int)
    requires Weighted.Shaped(g) && |where| == N(g) && 0 <= v < N(g)
    requires Best(g, where, swaps, best, order, mincut, mindiff, target)
    ensures Best(g, where[v := 1 - where[v]], swaps + [v], best, order, mincut, mindiff, target)
  {
    hide Cut, PartWeight, Toggle;
    ToggleAppend(best, swaps[order + 1..], v);
    assert (swaps + [v])[order + 1..] == swaps[order + 1..] + [v];
  }

  lemma {:induction false} BestShrinks(g: Graph, where: seq<int>, swaps: seq<int>, best: seq<int>, order: int, mincut: int,
                                       mindiff: int, target: int)
    requires Weighted.Shaped(g) && |where| == N(g)
    requires Best(g, where, swaps, best, order, mincut, mindiff, target) && order < |swaps| - 1
    ensures var v := swaps[|swaps| - 1];
      0 <= v < N(g) && Best(g, where[v := 1 - where[v]], swaps[..|swaps| - 1], best, order, mincut, mindiff, target)
  {
    var sw := swaps[order + 1..];
    var v := swaps[|swaps| - 1];
    assert sw[|sw| - 1] == v;
    assert swaps[..|swaps| - 1][order + 1..] == sw[..|sw| - 1];
    var t := Toggle(best, sw[..|sw| - 1]);
    assert where[v := 1 - where[v]] == t;
  }

  /**
   * `best` is one of the states the swaps lead through from `where0`, and none of the others beats
   * it: none within the allowance has a smaller cut, none with the same cut is better balanced.
   */
  ghost predicate BestPrefix(g: Graph, where0: seq<int>, swaps: seq<int>, best: seq<int>, order: int, mincut: int, mindiff: int,
                             target: int, allowance: int)
    requires Weighted.Shaped(g) && |where0| == N(g)
  {
    && -1 <= order < |swaps| && InRange(swaps, N(g)) && best == Toggle(where0, swaps[..order + 1])
    && forall i :: 0 <= i <= |swaps| ==> NotBeaten(g, where0, swaps, i, mincut, mindiff, target, allowance)
  }

  ghost predicate NotBeaten(g: Graph, where0: seq<int>, swaps: seq<int>, i: int, mincut: int, mindiff: int, target: int, allowance: int)
    requires Weighted.Shaped(g) && |where0| == N(g) && 0 <= i <= |swaps| && InRange(swaps, N(g))
  {
    var w := Toggle(where0, swaps[..i]);
    !Beats(Cut(g, w), Abs(target - PartWeight(g, w, 0, N(g))), mincut, mindiff, allowance)
  }

  lemma {:induction false} BestPrefixStep(g: Graph, where0: seq<int>, swaps: seq<int>, best: seq<int>, order: int, mincut: int, mindiff: int,
                             target: int, allowance: int, v: int)
    requires Weighted.Shaped(g) && |where0| == N(g) && 0 <= v < N(g)
    requires BestPrefix(g, where0, swaps, best, order, mincut, mindiff, target, allowance)
    requires NoWorse(Cut(g, where0), Abs(target - PartWeight(g, where0, 0, N(g))), mincut, mindiff, allowance)
    ensures InRange(swaps, N(g))
    ensures var w := Toggle(where0, swaps);
      var w' := w[v := 1 - w[v]];
      var cut, diff := Cut(g, w'), Abs(target - PartWeight(g, w', 0, N(g)));
      && w' == Toggle(where0, swaps + [v])
      && (Beats(cut, diff, mincut, mindiff, allowance) ==>
            BestPrefix(g, where0, swaps + [v], w', |swaps|, cut, diff, target, allowance))
      && (!Beats(cut, diff, mincut, mindiff, allowance) ==>
            BestPrefix(g, where0, swaps + [v], best, order, mincut, mindiff, target, allowance))
  {
    hide Cut, PartWeight;
    var w := Toggle(where0, swaps);
    var w' := w[v := 1 - w[v]];
    var cut, diff := Cut(g, w'), Abs(target - PartWeight(g, w', 0, N(g)));
    var sw := swaps + [v];
    assert sw[..|sw| - 1] == swaps && sw[..|sw|] == sw && sw[..order + 1] == swaps[..order + 1];
    forall i | 0 <= i <= |swaps|
      ensures NotBeaten(g, where0, sw, i, mincut, mindiff, target, allowance)
      ensures Beats(cut, diff, mincut, mindiff, allowance) ==> NotBeaten(g, where0, sw, i, cut, diff, target, allowance)
    {
      assert NotBeaten(g, where0, swaps, i, mincut, mindiff, target, allowance);
      assert sw[..i] == swaps[..i];
    }
    var last := |swaps| + 1;
    assert Beats(cut, diff, mincut, mindiff, allowance) ==> NotBeaten(g, where0, sw, last, cut, diff, target, allowance);
    assert !Beats(cut, diff, mincut, mindiff, allowance) ==> NotBeaten(g, where0, sw, last, mincut, mindiff, target, allowance);
  }

  lemma BestNow(g: Graph, where: seq<int>, swaps: seq<int>, v: int, target: int)
    requires Weighted.Shaped(g) && |where| == N(g) && InRange(swaps, N(g)) && 0 <= v < N(g)
    ensures var w := where[v := 1 - where[v]];
      Best(g, w, swaps + [v], w, |swaps|, Cut(g, w), Abs(target - PartWeight(g, w, 0, N(g))), target)
  {
    assert (swaps + [v])[|swaps| + 1..] == [];
  }

  // ---------------------------------------------------------------- one pass

  /** Inserts the boundary vertices the policy wants, in the order of `perm`. */
  method FillQueues(g: Graph, a: Arrays, p: Policy, p0: PQueue, p1: PQueue, perm: seq<int>, ghost s: State)
    requires WellFormed(g) && Exact(g, s) && a.Valid(N(g)) && a.Shows(s) && IsPermutation(perm, a.nbnd)
    requires p0 != p1 && p0.gain == map[] && p1.gain == map[] && p.side in {-1, 0, 1}
    requires p0.maxgain == p1.maxgain && forall u :: 0 <= u < N(g) ==> Deg(g, u, Range(0, N(g))) <= p0.maxgain
    modifies p0, p1
    ensures Sized(g, s) && Queued(s, p, Eligible(g, p, a.moved[..], s.where), p0.gain, p1.gain)
  {
    hide Exact, WellFormed, Deg, QueueOk, Eligible, Boundary.Valid, Range;
    ExactShape(g, s);
    ghost var e := Eligible(g, p, a.moved[..], s.where);
    ghost var done: set<int> := {};
    EmptyQueues(s, p, e * done);
    for ii := 0 to |perm|
      invariant Queued(s, p, e * done, p0.gain, p1.gain)
      invariant forall u :: u in done <==> exists i :: 0 <= i < ii && s.bnd.ind[perm[i]] == u
    {
      var i := a.bndind[perm[ii]];
      assert i == s.bnd.ind[perm[ii]];
      ListedFacts(g, s, perm[ii]);
      EligibleAt(g, p, a.moved[..], s.where, i);
      ListedOnce(g, s, perm, ii);
      assert i !in done;
      QueueEntry(s, p, e * done, p0.gain, p1.gain, i);
      InsertOk(g, s, p, e, done, p0.gain, p1.gain, i);
      if Wants(p, a.moved[i], a.where[i], g.vwgt[i]) {
        if a.where[i] == 0 {
          p0.Insert(i, a.ed[i] - a.id[i]);
        } else {
          p1.Insert(i, a.ed[i] - a.id[i]);
        }
      }
      done := done + {i};
    }
    AllListed(g, s, perm, done);
    Filled(s, p, e, done, p0.gain, p1.gain);
  }

  lemma ExactShape(g: Graph, s: State)
    requires WellFormed(g) && Exact(g, s)
    ensures Weighted.Shaped(g) && Sized(g, s) && Boundary.Valid(s.bnd)
  {
  }

  lemma EmptyQueues(s: State, p: Policy, e: set<int>)
    requires |s.where| == |s.ed| == |s.id| == |s.bnd.ptr| && e == {}
    ensures Queued(s, p, e, map[], map[])
  {
    assert forall q, k :: QueueAt(s, e, false, map[], q, k);
  }

  lemma {:induction false} ListedFacts(g: Graph, s: State, i: int)
    requires WellFormed(g) && Exact(g, s) && 0 <= i < |s.bnd.ind|
    ensures Sized(g, s)
    ensures var v := s.bnd.ind[i];
      && 0 <= v < N(g) && Boundary.Holds(s.bnd, v) && s.where[v] in {0, 1}
      && -Deg(g, v, Range(0, N(g))) <= s.ed[v] - s.id[v] <= Deg(g, v, Range(0, N(g)))
  {
    assert Boundary.LinkedBack(s.bnd, i);
    var v := s.bnd.ind[i];
    ExactFacts(g, s, v);
    EdPlusId(g, s.where, v);
  }

  lemma {:induction false} ListedOnce(g: Graph, s: State, perm: seq<int>, ii: int)
    requires WellFormed(g) && Exact(g, s) && IsPermutation(perm, |s.bnd.ind|) && 0 <= ii < |perm|
    ensures forall i :: 0 <= i < ii ==> s.bnd.ind[perm[i]] != s.bnd.ind[perm[ii]]
  {
    Boundary.Enumerates(s.bnd);
  }

  lemma {:induction false} AllListed(g: Graph, s: State, perm: seq<int>, done: set<int>)
    requires WellFormed(g) && Exact(g, s) && Sized(g, s) && IsPermutation(perm, |s.bnd.ind|)
    requires forall u :: u in done <==> exists i :: 0 <= i < |perm| && s.bnd.ind[perm[i]] == u
    ensures forall v :: 0 <= v < N(g) && Boundary.Holds(s.bnd, v) ==> v in done
  {
    Boundary.Enumerates(s.bnd);
    forall v | 0 <= v < N(g) && Boundary.Holds(s.bnd, v)
      ensures v in done
    {
      var k :| 0 <= k < |s.bnd.ind| && s.bnd.ind[k] == v;
      PermutationHitsAll(perm, |s.bnd.ind|, k);
      var i :| 0 <= i < |perm| && perm[i] == k;
      assert s.bnd.ind[perm[i]] == v;
    }
  }

  lemma {:induction false} Filled(s: State, p: Policy, e: set<int>, done: set<int>, q0: map<int, int>, q1: map<int, int>)
    requires |s.where| == |s.ed| == |s.id| == |s.bnd.ptr| && Queued(s, p, e * done, q0, q1)
    requires forall v :: 0 <= v < |s.where| && Boundary.Holds(s.bnd, v) ==> v in done
    ensures Queued(s, p, e, q0, q1)
  {
    if p.side != 1 {
      forall k
        ensures QueueAt(s, e, false, q0, 0, k)
      {
        assert QueueAt(s, e * done, false, q0, 0, k);
      }
    }
    if p.side != 0 {
      forall k
        ensures QueueAt(s, e, false, q1, 1, k)
      {
        assert QueueAt(s, e * done, false, q1, 1, k);
      }
    }
  }

  lemma {:induction false} InsertOk(g: Graph, s: State, p: Policy, e: set<int>, done: set<int>, q0: map<int, int>, q1: map<int, int>, i: int)
    requires |s.where| == |s.ed| == |s.id| == |s.bnd.ptr| && 0 <= i < |s.where| && Boundary.Holds(s.bnd, i)
    requires Queued(s, p, e * done, q0, q1) && s.where[i] in {0, 1} && p.side in {-1, 0, 1}
    requires i in e ==> p.side == -1 || p.side == s.where[i]
    ensures var gain := s.ed[i] - s.id[i];
      Queued(s, p, e * (done + {i}), if i in e && s.where[i] == 0 then q0[i := gain] else q0,
             if i in e && s.where[i] == 1 then q1[i := gain] else q1)
  {
    var gain := s.ed[i] - s.id[i];
    var q0' := if i in e && s.where[i] == 0 then q0[i := gain] else q0;
    var q1' := if i in e && s.where[i] == 1 then q1[i := gain] else q1;
    if p.side != 1 {
      forall k
        ensures QueueAt(s, e * (done + {i}), false, q0', 0, k)
      {
        assert QueueAt(s, e * done, false, q0, 0, k);
      }
    }
    if p.side != 0 {
      forall k
        ensures QueueAt(s, e * (done + {i}), false, q1', 1, k)
      {
        assert QueueAt(s, e * done, false, q1, 1, k);
      }
    }
  }

  /** Everything the program keeps about a bisection, exact. */
  ghost predicate Sound(g: Graph, s: State, pwgts: seq<int>) {
    WellFormed(g) && Exact(g, s) && Sized(g, s) && WeightsOk(g, s.where, pwgts)
  }

  lemma SoundFacts(g: Graph, s: State, pwgts: seq<int>)
    requires Sound(g, s, pwgts)
    ensures WellFormed(g) && Exact(g, s) && Weighted.Shaped(g) && Sized(g, s) && |pwgts| == 2
    ensures pwgts[0] == PartWeight(g, s.where, 0, N(g)) && pwgts[1] == PartWeight(g, s.where, 1, N(g))
  {
  }

  /** Booking the move of `v` keeps the weights exact. */
  lemma SoundMove(g: Graph, s: State, pwgts: seq<int>, v: int, s': State, pwgts': seq<int>)
    requires Sound(g, s, pwgts) && 0 <= v < N(g) && s.where[v] in {0, 1} && |pwgts| == 2
    requires pwgts' == pwgts[1 - s.where[v] := pwgts[1 - s.where[v]] + g.vwgt[v]][s.where[v] := pwgts[s.where[v]] - g.vwgt[v]]
    requires Exact(g, s') && s'.where == s.where[v := 1 - s.where[v]]
    ensures Sound(g, s', pwgts')
    ensures Cut(g, s'.where) == Cut(g, s.where) - (s.ed[v] - s.id[v])
  {
    MoveBooks(g, s, v);
  }

  /** `moved` marks the vertices of `sw`. */
  ghost predicate Unmoved(moved: seq<int>, sw: seq<int>) {
    forall k :: 0 <= k < |moved| ==> (moved[k] != -1 <==> k in sw)
  }

  /** What a queue holds is told from the graph: the vertices that may move, with their gains. */
  lemma {:induction false} InQueue(g: Graph, s: State, p: Policy, everybody: bool, e: set<int>, q: map<int, int>, side: int,
                                   moved: seq<int>, sw: seq<int>, k: int)
    requires WellFormed(g) && Exact(g, s) && Weighted.Shaped(g) && Sized(g, s) && QueueOk(s, e, everybody, q, side)
    requires |moved| == N(g) && e == Eligible(g, p, moved, s.where) && Unmoved(moved, sw) && p.side in {-1, side}
    ensures k in q <==> MayMove(g, p, everybody, side, s.where, sw, k)
    ensures k in q ==> 0 <= k < N(g) && q[k] == Gain(g, s.where, k)
  {
    hide WellFormed, Exact, Boundary.Valid, Eligible;
    assert QueueAt(s, e, everybody, q, side, k);
    if 0 <= k < N(g) {
      ExactFacts(g, s, k);
      EligibleAt(g, p, moved, s.where, k);
      DegNonNegative(g, k, Others(s.where, s.where[k]));
    }
  }

  /** So a greatest entry is a best move, and an empty queue means that there is none. */
  lemma {:induction false} QueueBest(g: Graph, s: State, p: Policy, everybody: bool, e: set<int>, q: map<int, int>, side: int,
                                     moved: seq<int>, sw: seq<int>, v: int)
    requires WellFormed(g) && Exact(g, s) && Weighted.Shaped(g) && Sized(g, s) && QueueOk(s, e, everybody, q, side)
    requires |moved| == N(g) && e == Eligible(g, p, moved, s.where) && Unmoved(moved, sw) && p.side in {-1, side}
    ensures q == map[] ==> NoMove(g, p, everybody, side, s.where, sw)
    ensures v in q && (forall k :: k in q ==> q[k] <= q[v]) ==> BestMove(g, p, everybody, side, s.where, sw, v)
  {
    hide WellFormed, Exact, QueueOk, Unmoved, Eligible, MayMove, Gain;
    forall k
      ensures k in q <==> MayMove(g, p, everybody, side, s.where, sw, k)
      ensures k in q ==> 0 <= k < N(g) && q[k] == Gain(g, s.where, k)
    {
      InQueue(g, s, p, everybody, e, q, side, moved, sw, k);
    }
    if v in q && forall k :: k in q ==> q[k] <= q[v] {
      forall u | MayMove(g, p, everybody, side, s.where, sw, u)
        ensures 0 <= u < N(g) && 0 <= v < N(g) && Gain(g, s.where, u) <= Gain(g, s.where, v)
      {
        assert u in q;
      }
    }
  }

  /** Better cut within the allowance, or the same cut and no worse balance. */
  ghost predicate NoWorse(initcut: int, initdiff: int, mincut: int, mindiff: int, allowance: int) {
    (mincut < initcut && mindiff <= allowance) || (mincut == initcut && mindiff <= initdiff)
  }

  lemma PopBoth(s: State, p: Policy, e: set<int>, q0: map<int, int>, q1: map<int, int>, from: int, v: int)
    requires |s.where| == |s.ed| == |s.id| == |s.bnd.ptr| && p.side == -1 && from in {0, 1}
    requires Queued(s, p, e, q0, q1) && v in (if from == 0 then q0 else q1)
    ensures 0 <= v < |s.where| && s.where[v] == from && Boundary.Holds(s.bnd, v) && v in e
    ensures Queued(s, p, e - {v}, if from == 0 then q0 - {v} else q0, if from == 1 then q1 - {v} else q1)
  {
    assert QueueAt(s, e, false, if from == 0 then q0 else q1, from, v);
    PopOk(s, e, q0, 0, v);
    PopOk(s, e, q1, 1, v);
    if from == 0 {
      NotQueued(s, e, q1, 1, v);
      assert q1 - {v} == q1;
    } else {
      NotQueued(s, e, q0, 0, v);
      assert q0 - {v} == q0;
    }
  }

  lemma QueuedNodes(s: State, p: Policy, e: set<int>, q0: map<int, int>, q1: map<int, int>)
    requires |s.where| == |s.ed| == |s.id| == |s.bnd.ptr| && p.side == -1
    requires Queued(s, p, e, q0, q1)
    ensures forall k :: k in q0 ==> k >= 0
    ensures forall k :: k in q1 ==> k >= 0
  {
    forall k | k in q0
      ensures k >= 0
    {
      assert QueueAt(s, e, false, q0, 0, k);
    }
    forall k | k in q1
      ensures k >= 0
    {
      assert QueueAt(s, e, false, q1, 1, k);
    }
  }

  /** Extracts the best vertex of one side, if there is one. */
  method Extract(p: Policy, p0: PQueue, p1: PQueue, from: int, ghost s: State, ghost e: set<int>) returns (v: int)
    requires |s.where| == |s.ed| == |s.id| == |s.bnd.ptr| && p.side == -1 && from in {0, 1} && p0 != p1
    requires Queued(s, p, e, p0.gain, p1.gain)
    modifies p0, p1
    ensures v != -1 ==> 0 <= v < |s.where| && s.where[v] == from && Boundary.Holds(s.bnd, v) && v in e
    ensures v != -1 ==> Queued(s, p, e - {v}, p0.gain, p1.gain)
    ensures var q := if from == 0 then old(p0.gain) else old(p1.gain);
      if v == -1 then q == map[] else v in q && forall k :: k in q ==> q[k] <= q[v]
  {
    hide Queued;
    ghost var q0, q1 := p0.gain, p1.gain;
    QueuedNodes(s, p, e, q0, q1);
    var q := if from == 0 then p0 else p1;
    v := q.GetMax();
    if v != -1 {
      PopBoth(s, p, e, q0, q1, from, v);
    }
  }

  /** Everything that is known of a climb that has moved `sw` and led to the sides `w`. */
  ghost predicate ClimbOk(g: Graph, where0: seq<int>, w: seq<int>, sw: seq<int>, best: seq<int>, r: Record, t0: int, t1: int,
                          limit: int, allowance: int) {
    && Climbing(g, where0, sw, t0, t1, limit, allowance) && |w| == N(g) && w == Toggle(where0, sw)
    && r == Recorded(g, where0, sw, |sw|, t0, allowance)
    && Best(g, w, sw, best, r.order, r.mincut, r.mindiff, t0)
    && BestPrefix(g, where0, sw, best, r.order, r.mincut, r.mindiff, t0, allowance)
    && NoWorse(Cut(g, where0), Abs(t0 - PartWeight(g, where0, 0, N(g))), r.mincut, r.mindiff, allowance)
  }

  lemma ClimbOkFacts(g: Graph, where0: seq<int>, w: seq<int>, sw: seq<int>, best: seq<int>, r: Record, t0: int, t1: int, limit: int, allowance: int)
    requires ClimbOk(g, where0, w, sw, best, r, t0, t1, limit, allowance)
    ensures Climbing(g, where0, sw, t0, t1, limit, allowance) && Weighted.Shaped(g) && |where0| == |w| == |best| == N(g) && InRange(sw, N(g))
    ensures w == Toggle(where0, sw) && r == Recorded(g, where0, sw, |sw|, t0, allowance) && -1 <= r.order < |sw|
    ensures Best(g, w, sw, best, r.order, r.mincut, r.mindiff, t0)
    ensures BestPrefix(g, where0, sw, best, r.order, r.mincut, r.mindiff, t0, allowance)
    ensures NoWorse(Cut(g, where0), Abs(t0 - PartWeight(g, where0, 0, N(g))), r.mincut, r.mindiff, allowance)
  {
  }

  lemma ClimbOkBegins(g: Graph, where0: seq<int>, t0: int, t1: int, limit: int, allowance: int)
    requires Weighted.Shaped(g) && |where0| == N(g)
    ensures ClimbOk(g, where0, where0, [], where0, Record(-1, Cut(g, where0), Abs(t0 - PartWeight(g, where0, 0, N(g)))), t0, t1, limit, allowance)
  {
    hide Cut, PartWeight, Climbing, Recorded, Best, BestPrefix;
    ClimbBegins(g, where0, t0, t1, limit, allowance);
    BestStart(g, where0, t0, allowance);
  }

  /** The move of `v` as the next one of the climb: a best state, or tolerated. */
  lemma {:induction false} ClimbOkGrows(g: Graph, where0: seq<int>, w: seq<int>, sw: seq<int>, best: seq<int>, r: Record, t0: int, t1: int,
                                        limit: int, allowance: int, v: int)
    requires ClimbOk(g, where0, w, sw, best, r, t0, t1, limit, allowance) && Weighted.Shaped(g) && |w| == N(g) && 0 <= v < N(g)
    requires BestMove(g, CLIMB, false, Asked(g, CLIMB, w, t0, t1), w, sw, v)
    ensures var w' := w[v := 1 - w[v]];
      var cut, diff := Cut(g, w'), Abs(t0 - PartWeight(g, w', 0, N(g)));
      && (Beats(cut, diff, r.mincut, r.mindiff, allowance) ==>
            ClimbOk(g, where0, w', sw + [v], w', Record(|sw|, cut, diff), t0, t1, limit, allowance))
      && (!Beats(cut, diff, r.mincut, r.mindiff, allowance) && |sw| - r.order <= limit ==>
            ClimbOk(g, where0, w', sw + [v], best, r, t0, t1, limit, allowance))
  {
    hide Cut, PartWeight, Climbing, Recorded, Best, BestPrefix, BestMove, Asked, Toggle;
    ClimbOkFacts(g, where0, w, sw, best, r, t0, t1, limit, allowance);
    BestPrefixStep(g, where0, sw, best, r.order, r.mincut, r.mindiff, t0, allowance, v);
    BestNow(g, w, sw, v, t0);
    BestGrows(g, w, sw, best, r.order, r.mincut, r.mindiff, t0, v);
    if !TooFar(g, where0, sw, t0, limit, allowance, v) {
      ClimbGrows(g, where0, sw, t0, t1, limit, allowance, v);
    }
  }

  /** With `v` a best move the climb has reason to stop. */
  lemma StopsBefore(g: Graph, where0: seq<int>, w: seq<int>, sw: seq<int>, best: seq<int>, r: Record, t0: int, t1: int, limit: int, allowance: int, v: int)
    requires ClimbOk(g, where0, w, sw, best, r, t0, t1, limit, allowance) && Weighted.Shaped(g) && |w| == N(g) && 0 <= v < N(g)
    requires BestMove(g, CLIMB, false, Asked(g, CLIMB, w, t0, t1), w, sw, v)
    requires var w' := w[v := 1 - w[v]];
      !Beats(Cut(g, w'), Abs(t0 - PartWeight(g, w', 0, N(g))), r.mincut, r.mindiff, allowance) && |sw| - r.order > limit
    ensures InRange(sw, N(g)) && |where0| == N(g) && ClimbStops(g, where0, sw, t0, t1, limit, allowance)
  {
    hide Cut, PartWeight, Climbing, Recorded, Best, BestPrefix, BestMove, Asked, Toggle;
    ClimbOkFacts(g, where0, w, sw, best, r, t0, t1, limit, allowance);
    assert TooFar(g, where0, sw, t0, limit, allowance, v);
  }

  /** Without a move left, or with all made, it has too. */
  lemma StopsHere(g: Graph, where0: seq<int>, w: seq<int>, sw: seq<int>, best: seq<int>, r: Record, t0: int, t1: int, limit: int, allowance: int)
    requires ClimbOk(g, where0, w, sw, best, r, t0, t1, limit, allowance) && Weighted.Shaped(g) && |w| == N(g)
    requires |sw| == N(g) || NoMove(g, CLIMB, false, Asked(g, CLIMB, w, t0, t1), w, sw)
    ensures InRange(sw, N(g)) && |where0| == N(g) && ClimbStops(g, where0, sw, t0, t1, limit, allowance)
  {
    hide Cut, PartWeight, Climbing, Recorded, Best, BestPrefix, NoMove, Asked, Toggle;
    ClimbOkFacts(g, where0, w, sw, best, r, t0, t1, limit, allowance);
  }

  /**
   * The choice of the next vertex: the best one of the side asked, extracted from its queue, or -1 when
   * that side has none left.
   */
  method Next(g: Graph, a: Arrays, p0: PQueue, p1: PQueue, t0: int, t1: int, ghost s: State, ghost pw: seq<int>, ghost e: set<int>, ghost sw: seq<int>)
    returns (from: int, v: int)
    requires a.pwgts.Length == 2 && a.pwgts[..] == pw && Sound(g, s, pw) && Sized(g, s) && Weighted.Shaped(g)
    requires |a.moved[..]| == N(g) && e == Eligible(g, CLIMB, a.moved[..], s.where) && Queued(s, CLIMB, e, p0.gain, p1.gain) && p0 != p1
    requires Unmoved(a.moved[..], sw)
    modifies p0, p1
    ensures from in {0, 1} && from == Asked(g, CLIMB, s.where, t0, t1)
    ensures v == -1 ==> NoMove(g, CLIMB, false, from, s.where, sw)
    ensures v != -1 ==> 0 <= v < N(g) && s.where[v] == from && Boundary.Holds(s.bnd, v) && v in e && Queued(s, CLIMB, e - {v}, p0.gain, p1.gain)
    ensures v != -1 ==> BestMove(g, CLIMB, false, from, s.where, sw, v)
  {
    hide Exact, WellFormed, Sound, Eligible, Unmoved, PartWeight, BestMove, NoMove;
    SoundFacts(g, s, pw);
    from := if t0 - a.pwgts[0] < t1 - a.pwgts[1] then 0 else 1;
    ghost var q0, q1 := p0.gain, p1.gain;
    v := Extract(CLIMB, p0, p1, from, s, e);
    QueueBest(g, s, CLIMB, false, e, if from == 0 then q0 else q1, from, a.moved[..], sw, v);
  }

  /**
   * The hill climb of one pass. It moves the best vertex of the side further above its target, again and
   * again, until it has reason to stop; and ends in an exact state from which undoing the swaps after
   * `order` leads back to `best`, the best state met: no worse than the start, with cut `mincut`.
   */
  method Climb(g: Graph, a: Arrays, p0: PQueue, p1: PQueue, t0: int, t1: int, limit: int, allowance: int,
               ghost s0: State, ghost pw0: seq<int>)
    returns (nswaps: int, order: int, mincut: int, ghost mindiff: int, ghost s: State, ghost pw: seq<int>, ghost best: seq<int>)
    requires a.Valid(N(g)) && a.Shows(s0) && a.pwgts[..] == pw0 && Sound(g, s0, pw0)
    requires Weighted.Shaped(g) && Sized(g, s0) && a.mincut == Cut(g, s0.where)
    requires p0 != p1 && p0.maxgain == p1.maxgain && forall u :: 0 <= u < N(g) ==> Deg(g, u, Range(0, N(g))) <= p0.maxgain
    requires Queued(s0, CLIMB, Eligible(g, CLIMB, a.moved[..], s0.where), p0.gain, p1.gain)
    requires Unmoved(a.moved[..], [])
    modifies a`nbnd, a.where, a.id, a.ed, a.bndptr, a.bndind, a.pwgts, a.moved, a.swaps, p0, p1
    ensures a.Shows(s) && a.pwgts[..] == pw && Sound(g, s, pw) && Sized(g, s)
    ensures 0 <= nswaps <= N(g) && Unmoved(a.moved[..], a.swaps[..nswaps])
    ensures ClimbOk(g, s0.where, s.where, a.swaps[..nswaps], best, Record(order, mincut, mindiff), t0, t1, limit, allowance)
    ensures InRange(a.swaps[..nswaps], N(g)) && ClimbStops(g, s0.where, a.swaps[..nswaps], t0, t1, limit, allowance)
  {
    hide Exact, WellFormed, Sound, Deg, Queued, Eligible, Range, ClimbOk, ClimbStops, Unmoved, Cut, PartWeight, BestMove, NoMove, Asked, InRange, Weighted.Shaped, Csrs.Shaped, MoveSelf, Boundary.Holds;
    mincut := a.mincut;
    var newcut := mincut;
    order := -1;
    nswaps := 0;
    var diff := Abs(t0 - a.pwgts[0]);
    s, best, pw := s0, s0.where, pw0;
    SoundFacts(g, s, pw);
    ClimbOkBegins(g, s0.where, t0, t1, limit, allowance);
    assert a.swaps[..0] == [];
    while nswaps < a.where.Length
      invariant 0 <= nswaps <= N(g) && Sized(g, s) && newcut == Cut(g, s.where)
      invariant a.Shows(s) && a.pwgts[..] == pw && Sound(g, s, pw)
      invariant Queued(s, CLIMB, Eligible(g, CLIMB, a.moved[..], s.where), p0.gain, p1.gain)
      invariant Unmoved(a.moved[..], a.swaps[..nswaps])
      invariant ClimbOk(g, s0.where, s.where, a.swaps[..nswaps], best, Record(order, mincut, diff), t0, t1, limit, allowance)
    {
      SoundFacts(g, s, pw);
      ghost var e, moved, sw := Eligible(g, CLIMB, a.moved[..], s.where), a.moved[..], a.swaps[..nswaps];
      var from, higain := Next(g, a, p0, p1, t0, t1, s, pw, e, sw);
      var to := (from + 1) % 2;
      if higain == -1 {
        StopsHere(g, s0.where, s.where, sw, best, Record(order, mincut, diff), t0, t1, limit, allowance);
        mindiff := diff;
        return;
      }
      var gain := a.ed[higain] - a.id[higain];
      MoveBooks(g, s, higain);
      newcut := newcut - gain;
      a.INC_DEC(to, from, g.vwgt[higain]);
      var stop;
      mincut, diff, order, stop, best := Track(g, newcut, Abs(t0 - a.pwgts[0]), nswaps, limit, allowance, mincut, diff, order,
                                               s.where, sw, higain, best, t0, t1, s0.where);
      if stop {  /* too many moves without a better state: the booked one is taken back */
        newcut := newcut + gain;
        a.INC_DEC(from, to, g.vwgt[higain]);
        assert a.pwgts[..] == pw;
        mindiff := diff;
        return;
      }
      s := Commit(g, a, CLIMB, p0, p1, higain, nswaps, to, s, pw, e, moved, sw);
      pw := a.pwgts[..];
      nswaps := nswaps + 1;
    }
    StopsHere(g, s0.where, s.where, a.swaps[..nswaps], best, Record(order, mincut, diff), t0, t1, limit, allowance);
    mindiff := diff;
  }

  /** Decides, with the best move `v` already booked, whether it makes the best state so far, or is one too many. */
  method Track(g: Graph, newcut: int, diff: int, nswaps: int, limit: int, allowance: int, mincut0: int, mindiff0: int, order0: int,
               ghost where: seq<int>, ghost sw: seq<int>, ghost v: int, ghost best0: seq<int>, ghost t0: int, ghost t1: int,
               ghost where0: seq<int>)
    returns (mincut: int, mindiff: int, order: int, stop: bool, ghost best: seq<int>)
    requires Weighted.Shaped(g) && |where| == N(g) && 0 <= v < N(g) && |sw| == nswaps
    requires ClimbOk(g, where0, where, sw, best0, Record(order0, mincut0, mindiff0), t0, t1, limit, allowance)
    requires BestMove(g, CLIMB, false, Asked(g, CLIMB, where, t0, t1), where, sw, v)
    requires newcut == Cut(g, where[v := 1 - where[v]])
    requires diff == Abs(t0 - PartWeight(g, where[v := 1 - where[v]], 0, N(g)))
    ensures stop ==> ClimbOk(g, where0, where, sw, best, Record(order, mincut, mindiff), t0, t1, limit, allowance)
    ensures stop ==> InRange(sw, N(g)) && |where0| == N(g) && ClimbStops(g, where0, sw, t0, t1, limit, allowance)
    ensures !stop ==> ClimbOk(g, where0, where[v := 1 - where[v]], sw + [v], best, Record(order, mincut, mindiff), t0, t1, limit, allowance)
    ensures stop <==> nswaps - order0 > limit && !Beats(newcut, diff, mincut0, mindiff0, allowance)
  {
    hide ClimbOk, ClimbStops, BestMove, Asked, Cut, PartWeight;
    mincut, mindiff, order, stop, best := mincut0, mindiff0, order0, false, best0;
    ghost var r := Record(order, mincut, mindiff);
    ClimbOkGrows(g, where0, where, sw, best, r, t0, t1, limit, allowance, v);
    if (newcut < mincut && diff <= allowance) || (newcut == mincut && diff < mindiff) {
      mincut := newcut;
      mindiff := diff;
      order := nswaps;
      best := where[v := 1 - where[v]];
    } else if nswaps - order > limit {
      StopsBefore(g, where0, where, sw, best, r, t0, t1, limit, allowance, v);
      stop := true;
    }
  }

  /** Carries out a booked move and records it. */
  method Commit(g: Graph, a: Arrays, p: Policy, p0: PQueue, p1: PQueue, v: int, nswaps: int, to: int,
                ghost s: State, ghost pw: seq<int>, ghost e: set<int>, ghost moved: seq<int>, ghost sw: seq<int>)
    returns (ghost s': State)
    requires a.Valid(N(g)) && a.Shows(s) && a.moved[..] == moved && Sound(g, s, pw) && Sized(g, s) && |pw| == 2
    requires 0 <= v < N(g) && s.where[v] in {0, 1} && to == 1 - s.where[v] && Boundary.Holds(s.bnd, v)
    requires a.pwgts[..] == pw[to := pw[to] + g.vwgt[v]][s.where[v] := pw[s.where[v]] - g.vwgt[v]]
    requires 0 <= nswaps < N(g) && a.swaps[..nswaps] == sw && Unmoved(moved, sw)
    requires |g.vwgt| == N(g) && e == Eligible(g, p, moved, s.where) && Queued(s, p, e - {v}, p0.gain, p1.gain)
    requires Weighted.Shaped(g) && p0 != p1 && p0.maxgain == p1.maxgain
    requires forall u :: 0 <= u < N(g) ==> Deg(g, u, Range(0, N(g))) <= p0.maxgain
    modifies a`nbnd, a.where, a.id, a.ed, a.bndptr, a.bndind, a.moved, a.swaps, p0, p1
    ensures a.Shows(s') && Sized(g, s') && s'.where == s.where[v := to] && Sound(g, s', a.pwgts[..])
    ensures Cut(g, s'.where) == Cut(g, s.where) - (s.ed[v] - s.id[v])
    ensures a.swaps[..nswaps + 1] == sw + [v] && Unmoved(a.moved[..], a.swaps[..nswaps + 1])
    ensures Queued(s', p, Eligible(g, p, a.moved[..], s'.where), p0.gain, p1.gain)
  {
    hide Exact, WellFormed, Sound, Deg, Queued, Eligible, Unmoved, Cut, PartWeight, Boundary.Holds;
    SoundFacts(g, s, pw);
    s' := MoveVertex(g, a, p, p0, p1, v, nswaps, to, s, e, moved);
    ExactShape(g, s');
    SoundMove(g, s, pw, v, s', a.pwgts[..]);
    a.swaps[nswaps] := v;
    assert a.swaps[..nswaps + 1] == sw + [v];
    UnmovedGrows(moved, sw, v, nswaps);
  }

  lemma BestRange(g: Graph, where: seq<int>, swaps: seq<int>, best: seq<int>, order: int, mincut: int, mindiff: int, target: int)
    requires Weighted.Shaped(g) && |where| == N(g) && Best(g, where, swaps, best, order, mincut, mindiff, target)
    ensures InRange(swaps, N(g)) && -1 <= order < |swaps| && |best| == N(g)
  {
  }

  lemma UnmovedGrows(moved: seq<int>, sw: seq<int>, v: int, n: int)
    requires Unmoved(moved, sw) && 0 <= v < |moved| && n != -1
    ensures Unmoved(moved[v := n], sw + [v])
  {
  }

  lemma BestStart(g: Graph, where: seq<int>, target: int, allowance: int)
    requires Weighted.Shaped(g) && |where| == N(g)
    ensures Best(g, where, [], where, -1, Cut(g, where), Abs(target - PartWeight(g, where, 0, N(g))), target)
    ensures BestPrefix(g, where, [], where, -1, Cut(g, where), Abs(target - PartWeight(g, where, 0, N(g))), target, allowance)
    ensures Toggle(where, []) == where
  {
  }

  /** Undoes the swaps after `order`, latest first. */
  method RollBack(g: Graph, a: Arrays, nswaps: int, order: int, mincut: int, ghost mindiff: int, ghost target: int,
                  ghost s0: State, ghost pw0: seq<int>, ghost best: seq<int>)
    returns (ghost s: State, ghost pw: seq<int>)
    requires a.Valid(N(g)) && a.Shows(s0) && a.pwgts[..] == pw0 && Sound(g, s0, pw0)
    requires Weighted.Shaped(g) && Sized(g, s0) && 0 <= nswaps <= N(g)
    requires Best(g, s0.where, a.swaps[..nswaps], best, order, mincut, mindiff, target)
    modifies a`nbnd, a.where, a.id, a.ed, a.bndptr, a.bndind, a.pwgts
    ensures a.Shows(s) && a.pwgts[..] == pw && Sound(g, s, pw) && Sized(g, s)
    ensures s.where == best && mincut == Cut(g, s.where) && |pw| == 2 && mindiff == Abs(target - pw[0])
  {
    hide Exact, WellFormed, Sound, Best, Cut, PartWeight, Boundary.Holds;
    s, pw := s0, pw0;
    SoundFacts(g, s, pw);
    var n := nswaps - 1;
    assert a.swaps[..n + 1] == a.swaps[..nswaps];
    BestRange(g, s.where, a.swaps[..nswaps], best, order, mincut, mindiff, target);
    while n > order
      invariant -1 <= order <= n < nswaps
      invariant a.Shows(s) && a.pwgts[..] == pw && Sound(g, s, pw) && Sized(g, s)
      invariant Best(g, s.where, a.swaps[..n + 1], best, order, mincut, mindiff, target)
      decreases n
    {
      SoundFacts(g, s, pw);
      ghost var sw, s1, pw1 := a.swaps[..n + 1], s, pw;
      BestShrinks(g, s.where, sw, best, order, mincut, mindiff, target);
      assert a.swaps[n] == sw[|sw| - 1] && sw[..|sw| - 1] == a.swaps[..n];
      s := UndoMove(g, a, a.swaps[n], s);
      ExactShape(g, s);
      pw := a.pwgts[..];
      SoundMove(g, s1, pw1, a.swaps[n], s, pw);
      n := n - 1;
    }
    BestReached(g, s.where, a.swaps[..n + 1], best, order, mincut, mindiff, target);
    SoundFacts(g, s, pw);
  }

  lemma BestReached(g: Graph, where: seq<int>, swaps: seq<int>, best: seq<int>, order: int, mincut: int, mindiff: int, target: int)
    requires Weighted.Shaped(g) && |where| == N(g) && Best(g, where, swaps, best, order, mincut, mindiff, target)
    requires order == |swaps| - 1
    ensures where == best && mincut == Cut(g, where) && mindiff == Abs(target - PartWeight(g, where, 0, N(g)))
  {
    assert swaps[order + 1..] == [];
  }

  lemma MovedReset(moved: seq<int>, sw: seq<int>, moved': seq<int>)
    requires Unmoved(moved, sw) && |moved'| == |moved|
    requires forall k :: 0 <= k < |moved| ==> moved'[k] == if k in sw then -1 else moved[k]
    ensures Unmoved(moved', [])
  {
  }

  /** Forgets which vertices were moved. */
  method ResetMoved(a: Arrays, nswaps: int, n: int)
    requires a.Valid(n) && 0 <= nswaps <= n && InRange(a.swaps[..nswaps], n) && Unmoved(a.moved[..], a.swaps[..nswaps])
    modifies a.moved
    ensures Unmoved(a.moved[..], [])
  {
    ghost var moved, sw := a.moved[..], a.swaps[..nswaps];
    for i := 0 to nswaps
      invariant forall k :: 0 <= k < n ==> a.moved[k] == if k in sw[..i] then -1 else moved[k]
    {
      assert sw[..i + 1] == sw[..i] + [sw[i]] && a.swaps[i] == sw[i];
      a.moved[a.swaps[i]] := -1;
    }
    assert sw[..nswaps] == sw;
    MovedReset(moved, sw, a.moved[..]);
  }

  /**
   * One pass: climb, remember the best prefix of the moves, roll back to it. Afterwards every
   * array agrees with its recomputation, `mincut` is the cut, and the sides are those of the best
   * state the climb led through. The pass is the last one exactly if nothing was kept or nothing gained.
   */
  method Pass(g: Graph, a: Arrays, p0: PQueue, p1: PQueue, t0: int, t1: int, limit: int, allowance: int,
              ghost s0: State, ghost pw0: seq<int>)
    returns (done: bool, ghost s: State, ghost pw: seq<int>, ghost sw: seq<int>, ghost order': int)
    requires a.Valid(N(g)) && a.Shows(s0) && a.pwgts[..] == pw0 && Sound(g, s0, pw0)
    requires Weighted.Shaped(g) && Sized(g, s0) && a.mincut == Cut(g, s0.where) && Unmoved(a.moved[..], [])
    requires p0 != p1 && p0.maxgain == p1.maxgain && forall u :: 0 <= u < N(g) ==> Deg(g, u, Range(0, N(g))) <= p0.maxgain
    modifies a, a.where, a.id, a.ed, a.bndptr, a.bndind, a.pwgts, a.moved, a.swaps, p0, p1
    ensures a.Shows(s) && a.pwgts[..] == pw && Sound(g, s, pw) && Sized(g, s) && Unmoved(a.moved[..], [])
    ensures a.mincut == Cut(g, s.where) && |pw0| == |pw| == 2
    ensures NoWorse(Cut(g, s0.where), Abs(t0 - pw0[0]), a.mincut, Abs(t0 - pw[0]), allowance)
    ensures BestPrefix(g, s0.where, sw, s.where, order', a.mincut, Abs(t0 - pw[0]), t0, allowance)
    ensures |s.where| == |s0.where| == N(g) && LegOk(g, Leg(s0.where, sw, order', s.where), t0, t1, limit, allowance)
    ensures done <==> LastLeg(g, Leg(s0.where, sw, order', s.where))
  {
    hide Exact, WellFormed, Sound, Best, BestPrefix, Cut, PartWeight, Boundary.Holds, Unmoved, Queued, Eligible, Deg, ClimbOk, ClimbStops, LegOk;
    SoundFacts(g, s0, pw0);
    p0.Reset();
    p1.Reset();
    var perm := RandomPermute(a.nbnd);
    FillQueues(g, a, CLIMB, p0, p1, perm, s0);
    var nswaps, order, mincut;
    var initcut := a.mincut;
    ghost var mindiff, best;
    nswaps, order, mincut, mindiff, s, pw, best := Climb(g, a, p0, p1, t0, t1, limit, allowance, s0, pw0);
    sw, order' := a.swaps[..nswaps], order;
    ClimbOkFacts(g, s0.where, s.where, sw, best, Record(order, mincut, mindiff), t0, t1, limit, allowance);
    ClimbedLeg(g, s0.where, s.where, sw, best, Record(order, mincut, mindiff), t0, t1, limit, allowance);
    ResetMoved(a, nswaps, N(g));
    s, pw := RollBack(g, a, nswaps, order, mincut, mindiff, t0, s, pw, best);
    a.mincut := mincut;
    done := order == -1 || mincut == initcut;
  }

  lemma ClimbedLeg(g: Graph, where0: seq<int>, w: seq<int>, sw: seq<int>, best: seq<int>, r: Record, t0: int, t1: int, limit: int, allowance: int)
    requires ClimbOk(g, where0, w, sw, best, r, t0, t1, limit, allowance) && Weighted.Shaped(g) && |where0| == N(g) && InRange(sw, N(g))
    requires ClimbStops(g, where0, sw, t0, t1, limit, allowance)
    ensures LegOk(g, Leg(where0, sw, r.order, best), t0, t1, limit, allowance)
  {
    hide Cut, PartWeight, Climbing, Recorded, ClimbStops, Best, Toggle;
  }

  function Max(s: seq<int>): (m: int)
    requires s != []
    ensures m in s && forall i :: 0 <= i < |s| ==> s[i] <= m
  {
    if |s| == 1 then s[0] else var t := Max(s[..|s| - 1]); if t < s[|s| - 1] then s[|s| - 1] else t
  }

  /**
   * The whole refinement. The cut and the balance never get worse, in that order, and the
   * distance from the target never exceeds its first value plus the average weight allowance. `run` are
   * its passes: `npasses` of them, or the last one kept or gained nothing.
   */
  method FM_2WayEdgeRefine(g: Graph, adjwgtsum: seq<int>, a: Arrays, t0: int, t1: int, npasses: int, limit: int,
                           ghost s0: State, ghost pw0: seq<int>)
    returns (ghost s: State, ghost pw: seq<int>, ghost run: seq<Leg>)
    requires a.Valid(N(g)) && a.Shows(s0) && a.pwgts[..] == pw0 && Sound(g, s0, pw0)
    requires Weighted.Shaped(g) && Sized(g, s0) && a.mincut == Cut(g, s0.where) && N(g) > 0
    requires |adjwgtsum| == N(g) && forall u :: 0 <= u < N(g) ==> adjwgtsum[u] == Deg(g, u, Range(0, N(g)))
    modifies a, a.where, a.id, a.ed, a.bndptr, a.bndind, a.pwgts, a.moved, a.swaps
    ensures a.Shows(s) && a.pwgts[..] == pw && Sound(g, s, pw) && Sized(g, s)
    ensures a.mincut == Cut(g, s.where) && |pw0| == |pw| == 2
    ensures a.mincut < Cut(g, s0.where) || (a.mincut == Cut(g, s0.where) && Abs(t0 - pw[0]) <= Abs(t0 - pw0[0]))
    ensures Legs(g, run, s0.where, s.where, t0, t1, limit,
                 Abs(t0 - pw0[0]) + Min((pw0[0] + pw0[1]) / 20, 2 * (pw0[0] + pw0[1]) / N(g)))
    ensures |run| <= npasses || run == []
    ensures |run| < npasses ==> run != [] && Stopping(g, run, true)
    ensures Abs(t0 - pw[0]) <= Abs(t0 - pw0[0]) + Min((pw0[0] + pw0[1]) / 20, 2 * (pw0[0] + pw0[1]) / N(g))
  {
    hide Exact, WellFormed, Sound, BestPrefix, Cut, PartWeight, Unmoved, Deg, Range, Legs, LegOk, LastLeg, Stopping;
    s, pw := s0, pw0;
    SoundFacts(g, s, pw);
    WeightNonNegative(g, s.where, 0, N(g));
    WeightNonNegative(g, s.where, 1, N(g));
    var avgvwgt := Min((a.pwgts[0] + a.pwgts[1]) / 20, 2 * (a.pwgts[0] + a.pwgts[1]) / (|g.csr.xadj| - 1));
    var tmp := Max(adjwgtsum);
    var p0 := new PQueue(tmp);
    var p1 := new PQueue(tmp);
    var origdiff := Abs(t0 - a.pwgts[0]);
    ClearMoved(a);
    var done := false;
    run := [];
    NoLegs(g, s0.where, t0, t1, limit, origdiff + avgvwgt);
    var pass := 0;
    while pass < npasses && !done
      invariant a.Shows(s) && a.pwgts[..] == pw && Sound(g, s, pw) && Sized(g, s) && |pw| == 2
      invariant a.mincut == Cut(g, s.where) && Unmoved(a.moved[..], [])
      invariant a.mincut < Cut(g, s0.where) || (a.mincut == Cut(g, s0.where) && Abs(t0 - pw[0]) <= origdiff)
      invariant Abs(t0 - pw[0]) <= origdiff + avgvwgt
      invariant Legs(g, run, s0.where, s.where, t0, t1, limit, origdiff + avgvwgt) && Stopping(g, run, done)
      invariant |run| == pass && (pass <= npasses || pass == 0) && (pass == 0 ==> !done) && |s.where| == N(g)
      decreases npasses - pass
    {
      ghost var sw, order, before := [], 0, s.where;
      done, s, pw, sw, order := Pass(g, a, p0, p1, t0, t1, limit, origdiff + avgvwgt, s, pw);
      LegsGrow(g, run, s0.where, before, t0, t1, limit, origdiff + avgvwgt, Leg(before, sw, order, s.where), done);
      run := run + [Leg(before, sw, order, s.where)];
      pass := pass + 1;
    }
  }

  lemma NoLegs(g: Graph, where: seq<int>, t0: int, t1: int, limit: int, allowance: int)
    ensures Legs(g, [], where, where, t0, t1, limit, allowance) && Stopping(g, [], false)
  {
  }

  method ClearMoved(a: Arrays)
    modifies a.moved
    ensures Unmoved(a.moved[..], [])
  {
    for k := 0 to a.moved.Length
      invariant forall u :: 0 <= u < k ==> a.moved[u] == -1
    {
      a.moved[k] := -1;
    }
  }

  lemma {:induction false} WeightNonNegative(g: Graph, where: seq<int>, p: int, k: int)
    requires WellFormed(g) && Weighted.Shaped(g) && |where| == N(g) && 0 <= k <= N(g)
    ensures PartWeight(g, where, p, k) >= 0
  {
    if k > 0 {
      WeightNonNegative(g, where, p, k - 1);
      assert GoodRow(g, k - 1);
    }
  }
}
