// Forced balancing of a bisection by moving any vertex of the heavy side, boundary or not
// (General2WayBalance, tools/assignment/metis/balance.c:174-278).
module General {
  import opened Csrs
  import opened Weighted
  import opened Bisection
  import opened Fm
  import opened Greedy
  import opened Finite
  import opened Balance
  import Boundary

  lemma {:induction false} EntryOf(s: State, e: set<int>, q: map<int, int>, p: int, k: int)
    requires |s.where| == |s.ed| == |s.id| == |s.bnd.ptr| && QueueOk(s, e, true, q, p)
    ensures k in q <==> 0 <= k < |s.where| && k in e && s.where[k] == p
    ensures k in q ==> q[k] == s.ed[k] - s.id[k]
  {
    assert QueueAt(s, e, true, q, p, k);
  }

  /** What the update of one neighbour needs to know about it, and what it establishes. */
  lemma {:induction false} NeighbourFacts(g: Graph, where0: seq<int>, s: State, v: int, j: int, p: int, e: set<int>,
                                          q: map<int, int>, maxgain: int)
    requires WellFormed(g) && 0 <= v < N(g) && First(g.csr, v) <= j < Last(g.csr, v) && Sized(g, s)
    requires Mid(g, where0, s, v, j) && QueueOk(s, e, true, q, p)
    requires forall u :: 0 <= u < N(g) ==> Deg(g, u, Range(0, N(g))) <= maxgain
    ensures var k := g.csr.adjncy[j];
      && 0 <= k < N(g) && k != v
      && var s1 := Shift(s, k, Kwgt(s, v, k, g.adjwgt[j]));
      && Boundary.Valid(s1.bnd)
      && var s2 := Rebound(s1, k);
      && Sized(g, s2) && -maxgain <= s2.ed[k] - s2.id[k] <= maxgain
      && QueueOk(s2, e, true, Requeue(q, s2, e, true, p, k), p)
  {
    hide Mid, MidAt, WellFormed, QueueOk, Boundary.Valid, Deg;
    var k := g.csr.adjncy[j];
    MidFacts(g, where0, s, v, j, v);
    ShiftAt(g, where0, s, v, j);
    MidFacts(g, where0, s, v, j, k);
    MidDegrees(g, where0, s, v, j);
    MidStep(g, where0, s, v, j);
    var s1 := Shift(s, k, Kwgt(s, v, k, g.adjwgt[j]));
    var s2 := Rebound(s1, k);
    MidBounds(g, where0, s2, v, j + 1, k);
    ReboundOk(g, s1, k);
    RequeueOk(s, s2, e, true, q, p, k);
  }

  /** One iteration of the update loop: degrees, boundary list and, for a vertex still waiting, its gain. */
  method UpdateNeighbour(g: Graph, a: Arrays, p: Policy, q: PQueue, v: int, j: int, to: int,
                         ghost where0: seq<int>, ghost s: State, ghost e: set<int>)
    returns (ghost s': State)
    requires WellFormed(g) && 0 <= v < N(g) && First(g.csr, v) <= j < Last(g.csr, v) && Sized(g, s)
    requires Mid(g, where0, s, v, j) && a.Valid(N(g)) && a.Shows(s) && to == s.where[v]
    requires QueueOk(s, e, true, q.gain, p.side) && e == Eligible(g, p, a.moved[..], s.where) && p.side in {0, 1}
    requires forall u :: 0 <= u < N(g) ==> Deg(g, u, Range(0, N(g))) <= q.maxgain
    modifies a`nbnd, a.id, a.ed, a.bndptr, a.bndind, q
    ensures a.Shows(s') && Sized(g, s') && s'.where == s.where && Mid(g, where0, s', v, j + 1)
    ensures QueueOk(s', e, true, q.gain, p.side)
  {
    hide Mid, WellFormed, QueueOk, Boundary.Valid, Boundary.Holds, Eligible, Deg, Rebound;
    MidShape(g, where0, s, v, j);
    ghost var q0 := q.gain;
    NeighbourFacts(g, where0, s, v, j, p.side, e, q0, q.maxgain);
    var k := g.csr.adjncy[j];
    var oldgain := a.ed[k] - a.id[k];
    EntryOf(s, e, q0, p.side, k);
    EligibleAt(g, p, a.moved[..], s.where, k);
    s' := UndoNeighbour(g, a, v, j, to, where0, s);
    if Wants(p, a.moved[k], a.where[k], g.vwgt[k]) {
      q.Update(k, oldgain, a.ed[k] - a.id[k]);
    }
  }

  lemma {:induction false} SelfMoveQueue(g: Graph, s: State, v: int, e: set<int>, q: map<int, int>, p: int)
    requires WellFormed(g) && Exact(g, s) && Sized(g, s) && 0 <= v < N(g) && QueueOk(s, e, true, q, p)
    ensures Sized(g, MoveSelf(g, s, v)) && QueueOk(MoveSelf(g, s, v), e - {v}, true, q - {v}, p)
  {
    var s' := MoveSelf(g, s, v);
    MoveSelfOthers(g, s, v);
    forall k
      ensures QueueAt(s', e - {v}, true, q - {v}, p, k)
    {
      EntryOf(s, e, q, p, k);
    }
  }

  /**
   * Moves the extracted vertex `v` to the other side: every array stays exact, and the queue holds
   * exactly the vertices of the heavy side that still wait, each with its current gain.
   */
  method MoveVertex(g: Graph, a: Arrays, p: Policy, q: PQueue, v: int, nswaps: int, to: int,
                    ghost s: State, ghost e: set<int>, ghost q0: map<int, int>)
    returns (ghost s': State)
    requires WellFormed(g) && Exact(g, s) && Sized(g, s) && 0 <= v < N(g) && to == 1 - s.where[v] && nswaps >= 0
    requires a.Valid(N(g)) && a.Shows(s) && p.side in {0, 1}
    requires QueueOk(s, e, true, q0, p.side) && q.gain == q0 - {v}
    requires |g.vwgt| == N(g) && e == Eligible(g, p, a.moved[..], s.where)
    requires forall u :: 0 <= u < N(g) ==> Deg(g, u, Range(0, N(g))) <= q.maxgain
    modifies a`nbnd, a.where, a.id, a.ed, a.bndptr, a.bndind, a.moved, q
    ensures a.Shows(s') && Exact(g, s') && Sized(g, s') && s'.where == s.where[v := to]
    ensures a.moved[..] == old(a.moved[..])[v := nswaps]
    ensures QueueOk(s', Eligible(g, p, a.moved[..], s'.where), true, q.gain, p.side)
  {
    hide Exact, WellFormed, Mid, Boundary.Valid, Boundary.Holds, QueueOk, Eligible, Deg, MoveSelf;
    ghost var moved := a.moved[..];
    ExactFacts(g, s, v);
    UndoSelf(g, a, v, to, s);
    a.moved[v] := nswaps;
    ghost var moved' := a.moved[..];
    EligibleAfterMove(g, p, moved, s.where, v, nswaps, to);
    MoveStarts(g, s, v);
    MoveSelfOthers(g, s, v);
    SelfMoveQueue(g, s, v, e, q0, p.side);
    s' := MoveSelf(g, s, v);
    ghost var e' := e - {v};
    for j := First(g.csr, v) to Last(g.csr, v)
      invariant a.Shows(s') && Sized(g, s') && Mid(g, s.where, s', v, j) && s'.where == s.where[v := to]
      invariant a.moved[..] == moved' && QueueOk(s', e', true, q.gain, p.side)
    {
      s' := UpdateNeighbour(g, a, p, q, v, j, to, s.where, s', e');
    }
    MoveEnds(g, s.where, s', v);
    ExactShape(g, s');
  }

  lemma {:induction false} InsertOk(s: State, e: set<int>, done: set<int>, q: map<int, int>, p: int, i: int)
    requires |s.where| == |s.ed| == |s.id| == |s.bnd.ptr| && 0 <= i < |s.where| && QueueOk(s, e * done, true, q, p)
    ensures QueueOk(s, e * (done + {i}), true, if i in e && s.where[i] == p then q[i := s.ed[i] - s.id[i]] else q, p)
  {
    var q' := if i in e && s.where[i] == p then q[i := s.ed[i] - s.id[i]] else q;
    forall k
      ensures QueueAt(s, e * (done + {i}), true, q', p, k)
    {
      EntryOf(s, e * done, q, p, k);
    }
  }

  lemma {:induction false} Filled(s: State, e: set<int>, done: set<int>, q: map<int, int>, p: int)
    requires |s.where| == |s.ed| == |s.id| == |s.bnd.ptr| && QueueOk(s, e * done, true, q, p)
    requires forall k :: 0 <= k < |s.where| ==> k in done
    ensures QueueOk(s, e, true, q, p)
  {
    forall k
      ensures QueueAt(s, e, true, q, p, k)
    {
      EntryOf(s, e * done, q, p, k);
    }
  }

  lemma {:induction false} GainBound(g: Graph, s: State, v: int)
    requires WellFormed(g) && Exact(g, s) && Sized(g, s) && 0 <= v < N(g)
    ensures -Deg(g, v, Range(0, N(g))) <= s.ed[v] - s.id[v] <= Deg(g, v, Range(0, N(g)))
  {
    ExactFacts(g, s, v);
    EdPlusId(g, s.where, v);
  }

  /** Inserts every vertex of the heavy side that is light enough, in the order of `perm`. */
  method FillQueue(g: Graph, a: Arrays, p: Policy, q: PQueue, perm: seq<int>, ghost s: State)
    requires WellFormed(g) && Exact(g, s) && Sized(g, s) && a.Valid(N(g)) && a.Shows(s) && IsPermutation(perm, N(g))
    requires |g.vwgt| == N(g) && q.gain == map[] && p.side in {0, 1} && Unmoved(a.moved[..], [])
    requires forall u :: 0 <= u < N(g) ==> Deg(g, u, Range(0, N(g))) <= q.maxgain
    modifies q
    ensures QueueOk(s, Eligible(g, p, a.moved[..], s.where), true, q.gain, p.side)
  {
    hide Exact, WellFormed, Deg, QueueOk, Eligible, Boundary.Valid, Boundary.Holds, Range;
    ghost var e := Eligible(g, p, a.moved[..], s.where);
    ghost var done: set<int> := {};
    EmptyQueue(s, e * done, p.side);
    for ii := 0 to |perm|
      invariant QueueOk(s, e * done, true, q.gain, p.side)
      invariant forall u :: u in done <==> exists i :: 0 <= i < ii && perm[i] == u
    {
      var i := perm[ii];
      assert i !in done;
      GainBound(g, s, i);
      EntryOf(s, e * done, q.gain, p.side, i);
      EligibleAt(g, p, a.moved[..], s.where, i);
      InsertOk(s, e, done, q.gain, p.side, i);
      assert a.moved[..][i] == -1;
      if a.where[i] == p.side && g.vwgt[i] <= p.maxw {
        q.Insert(i, a.ed[i] - a.id[i]);
      }
      done := done + {i};
    }
    forall k | 0 <= k < N(g)
      ensures k in done
    {
      PermutationHitsAll(perm, N(g), k);
    }
    Filled(s, e, done, q.gain, p.side);
  }

  lemma EmptyQueue(s: State, e: set<int>, p: int)
    requires |s.where| == |s.ed| == |s.id| == |s.bnd.ptr| && e == {}
    ensures QueueOk(s, e, true, map[], p)
  {
    assert forall k :: QueueAt(s, e, true, map[], p, k);
  }

  lemma {:induction false} Queueable(s: State, e: set<int>, q: map<int, int>, p: int)
    requires |s.where| == |s.ed| == |s.id| == |s.bnd.ptr| && QueueOk(s, e, true, q, p)
    ensures forall k :: k in q ==> 0 <= k < |s.where| && s.where[k] == p
  {
    forall k | k in q
      ensures 0 <= k < |s.where| && s.where[k] == p
    {
      EntryOf(s, e, q, p, k);
    }
  }

  /** The move loop: takes the best vertex of the heavy side as long as there is one and the light side has room for it. */
  method Drain(g: Graph, a: Arrays, p: Policy, q: PQueue, t0: int, t1: int, ghost s0: State, ghost pw0: seq<int>)
    returns (mincut: int, ghost s: State, ghost pw: seq<int>, ghost sw: seq<int>)
    requires a.Valid(N(g)) && a.Shows(s0) && a.pwgts[..] == pw0 && Sound(g, s0, pw0) && |pw0| == 2 && Unmoved(a.moved[..], [])
    requires Weighted.Shaped(g) && Sized(g, s0) && a.mincut == Cut(g, s0.where) && p.side in {0, 1}
    requires |g.vwgt| == N(g) && forall u :: 0 <= u < N(g) ==> Deg(g, u, Range(0, N(g))) <= q.maxgain
    requires QueueOk(s0, Eligible(g, p, a.moved[..], s0.where), true, q.gain, p.side)
    modifies a`nbnd, a.where, a.id, a.ed, a.bndptr, a.bndind, a.pwgts, a.moved, q
    ensures a.Shows(s) && a.pwgts[..] == pw && Sound(g, s, pw) && Sized(g, s) && |pw| == 2
    ensures mincut == Cut(g, s.where) && WithinTarget(t0, t1, pw0, pw, 1 - p.side)
    ensures Draining(g, p, true, s0.where, sw, s.where, t0, t1) && DrainStops(g, p, true, s.where, sw, t0, t1)
  {
    hide Exact, WellFormed, Sound, Cut, PartWeight, Deg, QueueOk, Eligible, Boundary.Holds, Csrs.Shaped, Draining, DrainStops, Unmoved,
         BestMove, NoMove;
    s, pw, sw := s0, pw0, [];
    DrainBegins(g, p, true, s0.where, t0, t1);
    mincut := a.mincut;
    var from, to := p.side, 1 - p.side;
    var nswaps := 0;
    while nswaps < a.where.Length
      invariant 0 <= nswaps <= N(g) && Sized(g, s) && mincut == Cut(g, s.where)
      invariant a.Shows(s) && a.pwgts[..] == pw && Sound(g, s, pw) && |pw| == 2
      invariant QueueOk(s, Eligible(g, p, a.moved[..], s.where), true, q.gain, p.side)
      invariant WithinTarget(t0, t1, pw0, pw, to)
      invariant Draining(g, p, true, s0.where, sw, s.where, t0, t1) && |sw| == nswaps && Unmoved(a.moved[..], sw)
    {
      SoundFacts(g, s, pw);
      ghost var e, q0, s1, pw1 := Eligible(g, p, a.moved[..], s.where), q.gain, s, pw;
      Queueable(s, e, q0, p.side);
      var higain := q.GetMax();
      ghost var moved := a.moved[..];
      QueueBest(g, s, p, true, e, q0, p.side, moved, sw, higain);
      if higain == -1 {
        DrainedOut(g, p, true, s.where, sw, t0, t1);
        return;
      }
      VertexWeight(g, higain);
      if a.pwgts[to] + g.vwgt[higain] > (if to == 0 then t0 else t1) {
        DrainedFull(g, p, true, s.where, sw, t0, t1, higain);
        return;
      }
      DrainGrows(g, p, true, s0.where, sw, s.where, t0, t1, higain);
      UnmovedGrows(moved, sw, higain, nswaps);
      mincut := mincut - (a.ed[higain] - a.id[higain]);
      a.INC_DEC(to, from, g.vwgt[higain]);
      pw := a.pwgts[..];
      s := MoveVertex(g, a, p, q, higain, nswaps, to, s, e, q0);
      SoundMove(g, s1, pw1, higain, s, pw);
      nswaps, sw := nswaps + 1, sw + [higain];
    }
    DrainedAll(g, p, true, s.where, sw, t0, t1);
  }

  /**
   * All arrays stay exact. Weight only flows from the heavy side to the light one and never
   * beyond the light side's target, so when the targets sum to the total weight the bisection
   * ends at least as balanced as it was. The vertices moved, `sw`, are the best ones of the heavy side, and it
   * stops only when all were moved, none is left that may move, or a best one would not fit.
   */
  method General2WayBalance(g: Graph, adjwgtsum: seq<int>, a: Arrays, t0: int, t1: int, ghost s0: State, ghost pw0: seq<int>)
    returns (ghost s: State, ghost pw: seq<int>, ghost sw: seq<int>)
    requires a.Valid(N(g)) && a.Shows(s0) && a.pwgts[..] == pw0 && Sound(g, s0, pw0)
    requires Weighted.Shaped(g) && Sized(g, s0) && a.mincut == Cut(g, s0.where) && N(g) > 0
    requires |adjwgtsum| == N(g) && forall u :: 0 <= u < N(g) ==> adjwgtsum[u] == Deg(g, u, Range(0, N(g)))
    modifies a, a.where, a.id, a.ed, a.bndptr, a.bndind, a.pwgts, a.moved
    ensures a.Shows(s) && a.pwgts[..] == pw && Sound(g, s, pw) && Sized(g, s)
    ensures a.mincut == Cut(g, s.where) && |pw0| == |pw| == 2
    ensures WithinTarget(t0, t1, pw0, pw, if pw0[0] < t0 then 0 else 1)
    ensures t0 + t1 == pw0[0] + pw0[1] ==> Abs(t0 - pw[0]) <= Abs(t0 - pw0[0])
    ensures var p := Policy(if pw0[0] < t0 then 1 else 0, Abs(t0 - pw0[0]));
      && Draining(g, p, true, s0.where, sw, s.where, t0, t1)
      && |s.where| == N(g) && DrainStops(g, p, true, s.where, sw, t0, t1)
  {
    hide Exact, WellFormed, Sound, Cut, PartWeight, Unmoved, Deg, QueueOk, Eligible, Draining, DrainStops;
    SoundFacts(g, s0, pw0);
    var mindiff := Abs(t0 - a.pwgts[0]);
    var from := if a.pwgts[0] < t0 then 1 else 0;
    var p := Policy(from, mindiff);
    var parts := new PQueue(Fm.Max(adjwgtsum));
    ClearMoved(a);
    VertexWeight(g, 0);
    var perm := RandomPermute(|g.csr.xadj| - 1);
    FillQueue(g, a, p, parts, perm, s0);
    var mincut;
    mincut, s, pw, sw := Drain(g, a, p, parts, t0, t1, s0, pw0);
    a.mincut := mincut;
  }
}
