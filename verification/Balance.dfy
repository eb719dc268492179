// Forced balancing of a bisection by moving boundary vertices of the heavy side
// (Bnd2WayBalance, tools/assignment/metis/balance.c:48-163).
module Balance {
  import opened Csrs
  import opened Weighted
  import opened Bisection
  import opened Fm
  import opened Greedy
  import opened Finite
  import Boundary

  lemma PopOne(s: State, p: Policy, e: set<int>, q0: map<int, int>, q1: map<int, int>, v: int)
    requires |s.where| == |s.ed| == |s.id| == |s.bnd.ptr| && p.side in {0, 1}
    requires Queued(s, p, e, q0, q1) && v in (if p.side == 0 then q0 else q1)
    ensures 0 <= v < |s.where| && s.where[v] == p.side && Boundary.Holds(s.bnd, v) && v in e
    ensures Queued(s, p, e - {v}, if p.side == 0 then q0 - {v} else q0, if p.side == 1 then q1 - {v} else q1)
  {
    assert QueueAt(s, e, false, if p.side == 0 then q0 else q1, p.side, v);
    if p.side == 0 {
      PopOk(s, e, q0, 0, v);
    } else {
      PopOk(s, e, q1, 1, v);
    }
  }

  lemma QueuedOnes(s: State, p: Policy, e: set<int>, q0: map<int, int>, q1: map<int, int>)
    requires |s.where| == |s.ed| == |s.id| == |s.bnd.ptr| && p.side in {0, 1}
    requires Queued(s, p, e, q0, q1)
    ensures p.side == 0 ==> forall k :: k in q0 ==> k >= 0
    ensures p.side == 1 ==> forall k :: k in q1 ==> k >= 0
  {
    var q := if p.side == 0 then q0 else q1;
    forall k | k in q
      ensures k >= 0
    {
      assert QueueAt(s, e, false, q, p.side, k);
    }
  }

  /** Extracts the best vertex of the heavy side's queue. */
  method ExtractOne(p: Policy, p0: PQueue, p1: PQueue, ghost s: State, ghost e: set<int>) returns (v: int)
    requires |s.where| == |s.ed| == |s.id| == |s.bnd.ptr| && p.side in {0, 1} && p0 != p1
    requires Queued(s, p, e, p0.gain, p1.gain)
    modifies p0, p1
    ensures v != -1 ==> 0 <= v < |s.where| && s.where[v] == p.side && Boundary.Holds(s.bnd, v) && v in e
    ensures v != -1 ==> Queued(s, p, e - {v}, p0.gain, p1.gain)
    ensures var q := if p.side == 0 then old(p0.gain) else old(p1.gain);
      if v == -1 then q == map[] else v in q && forall k :: k in q ==> q[k] <= q[v]
  {
    hide Queued;
    ghost var q0, q1 := p0.gain, p1.gain;
    QueuedOnes(s, p, e, q0, q1);
    var q := if p.side == 0 then p0 else p1;
    v := q.GetMax();
    if v != -1 {
      PopOne(s, p, e, q0, q1, v);
    }
  }

  /** What balancing keeps true of the weights: nothing is moved, or the light side is within its target. */
  ghost predicate WithinTarget(t0: int, t1: int, pw0: seq<int>, pw: seq<int>, to: int)
    requires |pw0| == |pw| == 2 && to in {0, 1}
  {
    && pw[0] + pw[1] == pw0[0] + pw0[1] && pw[to] >= pw0[to]
    && (pw == pw0 || pw[to] <= if to == 0 then t0 else t1)
  }

  lemma HeavyQueue(s: State, p: Policy, e: set<int>, q0: map<int, int>, q1: map<int, int>)
    requires |s.where| == |s.ed| == |s.id| == |s.bnd.ptr| && p.side in {0, 1} && Queued(s, p, e, q0, q1)
    ensures QueueOk(s, e, false, if p.side == 0 then q0 else q1, p.side)
  {
  }

  /** The move loop: takes the best boundary vertex of the heavy side as long as there is one and the light side has room for it. */
  method Drain(g: Graph, a: Arrays, p: Policy, p0: PQueue, p1: PQueue, t0: int, t1: int, ghost s0: State, ghost pw0: seq<int>)
    returns (mincut: int, ghost s: State, ghost pw: seq<int>, ghost sw: seq<int>)
    requires a.Valid(N(g)) && a.Shows(s0) && a.pwgts[..] == pw0 && Sound(g, s0, pw0) && |pw0| == 2 && Unmoved(a.moved[..], [])
    requires Weighted.Shaped(g) && Sized(g, s0) && a.mincut == Cut(g, s0.where) && p.side in {0, 1}
    requires p0 != p1 && p0.maxgain == p1.maxgain && forall u :: 0 <= u < N(g) ==> Deg(g, u, Range(0, N(g))) <= p0.maxgain
    requires Queued(s0, p, Eligible(g, p, a.moved[..], s0.where), p0.gain, p1.gain)
    modifies a`nbnd, a.where, a.id, a.ed, a.bndptr, a.bndind, a.pwgts, a.moved, p0, p1
    ensures a.Shows(s) && a.pwgts[..] == pw && Sound(g, s, pw) && Sized(g, s) && |pw| == 2
    ensures mincut == Cut(g, s.where) && WithinTarget(t0, t1, pw0, pw, 1 - p.side)
    ensures Draining(g, p, false, s0.where, sw, s.where, t0, t1) && DrainStops(g, p, false, s.where, sw, t0, t1)
  {
    hide Exact, WellFormed, Sound, Cut, PartWeight, Deg, Queued, Eligible, Boundary.Holds, Csrs.Shaped, Draining, DrainStops, Unmoved,
         BestMove, NoMove, QueueOk;
    s, pw, sw := s0, pw0, [];
    DrainBegins(g, p, false, s0.where, t0, t1);
    mincut := a.mincut;
    var from, to := p.side, 1 - p.side;
    var nswaps := 0;
    while nswaps < a.where.Length
      invariant 0 <= nswaps <= N(g) && Sized(g, s) && mincut == Cut(g, s.where)
      invariant a.Shows(s) && a.pwgts[..] == pw && Sound(g, s, pw) && |pw| == 2
      invariant Queued(s, p, Eligible(g, p, a.moved[..], s.where), p0.gain, p1.gain)
      invariant WithinTarget(t0, t1, pw0, pw, to)
      invariant Draining(g, p, false, s0.where, sw, s.where, t0, t1) && |sw| == nswaps && Unmoved(a.moved[..], sw)
    {
      SoundFacts(g, s, pw);
      ghost var e, moved := Eligible(g, p, a.moved[..], s.where), a.moved[..];
      ghost var queue := if p.side == 0 then p0.gain else p1.gain;
      HeavyQueue(s, p, e, p0.gain, p1.gain);
      var higain := ExtractOne(p, p0, p1, s, e);
      QueueBest(g, s, p, false, e, queue, p.side, moved, sw, higain);
      if higain == -1 {
        DrainedOut(g, p, false, s.where, sw, t0, t1);
        return;
      }
      VertexWeight(g, higain);
      if a.pwgts[to] + g.vwgt[higain] > (if to == 0 then t0 else t1) {
        DrainedFull(g, p, false, s.where, sw, t0, t1, higain);
        return;
      }
      DrainGrows(g, p, false, s0.where, sw, s.where, t0, t1, higain);
      UnmovedGrows(moved, sw, higain, nswaps);
      mincut := mincut - (a.ed[higain] - a.id[higain]);
      a.INC_DEC(to, from, g.vwgt[higain]);
      ghost var s1, pw1 := s, pw;
      s := MoveVertex(g, a, p, p0, p1, higain, nswaps, to, s, e, moved);
      ExactShape(g, s);
      pw := a.pwgts[..];
      SoundMove(g, s1, pw1, higain, s, pw);
      nswaps, sw := nswaps + 1, sw + [higain];
    }
    DrainedAll(g, p, false, s.where, sw, t0, t1);
  }

  /**
   * All arrays stay exact. Weight only flows from the heavy side to the light one and never
   * beyond the light side's target, so when the targets sum to the total weight the bisection
   * ends at least as balanced as it was. The vertices moved, `sw`, are the best ones on the boundary, and it
   * stops only when all were moved, none is left that may move, or a best one would not fit.
   */
  method Bnd2WayBalance(g: Graph, adjwgtsum: seq<int>, a: Arrays, t0: int, t1: int, ghost s0: State, ghost pw0: seq<int>)
    returns (ghost s: State, ghost pw: seq<int>, ghost sw: seq<int>)
    requires a.Valid(N(g)) && a.Shows(s0) && a.pwgts[..] == pw0 && Sound(g, s0, pw0)
    requires Weighted.Shaped(g) && Sized(g, s0) && a.mincut == Cut(g, s0.where) && N(g) > 0
    requires |adjwgtsum| == N(g) && forall u :: 0 <= u < N(g) ==> adjwgtsum[u] == Deg(g, u, Range(0, N(g)))
    modifies a, a.where, a.id, a.ed, a.bndptr, a.bndind, a.pwgts, a.moved
    ensures a.Shows(s) && a.pwgts[..] == pw && Sound(g, s, pw) && Sized(g, s)
    ensures a.mincut == Cut(g, s.where) && |pw0| == |pw| == 2
    ensures WithinTarget(t0, t1, pw0, pw, if pw0[0] < t0 then 0 else 1)
    ensures t0 + t1 == pw0[0] + pw0[1] ==> Abs(t0 - pw[0]) <= Abs(t0 - pw0[0])
    ensures var p := Policy(if pw0[0] < t0 then 1 else 0, Abs(t0 - pw0[0]));
      && Draining(g, p, false, s0.where, sw, s.where, t0, t1)
      && |s.where| == N(g) && DrainStops(g, p, false, s.where, sw, t0, t1)
  {
    hide Exact, WellFormed, Sound, Cut, PartWeight, Unmoved, Deg, Queued, Eligible, Draining, DrainStops;
    SoundFacts(g, s0, pw0);
    var mindiff := Abs(t0 - a.pwgts[0]);
    var from := if a.pwgts[0] < t0 then 1 else 0;
    var p := Policy(from, mindiff);
    var tmp := Fm.Max(adjwgtsum);
    var p0 := new PQueue(tmp);  /* only the queue of the side `from` is ever used */
    var p1 := new PQueue(tmp);
    ClearMoved(a);
    var perm := RandomPermute(a.nbnd);
    FillQueues(g, a, p, p0, p1, perm, s0);
    var mincut;
    mincut, s, pw, sw := Drain(g, a, p, p0, p1, t0, t1, s0, pw0);
    a.mincut := mincut;
  }

  lemma VertexWeight(g: Graph, v: int)
    requires WellFormed(g) && 0 <= v < N(g)
    ensures |g.vwgt| == N(g) && g.vwgt[v] >= 0
  {
    assert GoodRow(g, v);
  }
}
