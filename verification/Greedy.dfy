// Which vertices the two-way loops move, and when they stop, told from the graph and the sides alone
// (tools/assignment/metis/fm.c:78-99, tools/assignment/metis/balance.c:85-92 and 222-228).
module Greedy {
  import opened Finite
  import opened Csrs
  import opened Weighted
  import opened Bisection

  /** Which vertices a queue takes: unmoved ones and, in balancing, light ones of the heavy side. */
  datatype Policy = Policy(side: int, maxw: int)

  function Abs(x: int): (a: int)
    ensures a >= 0 && a in {x, -x}
  {
    if x < 0 then -x else x
  }

  /** The sides after flipping the vertices of `sw` one after the other. */
  ghost function Toggle(w: seq<int>, sw: seq<int>): seq<int>
    requires InRange(sw, |w|)
    ensures |Toggle(w, sw)| == |w|
  {
    if sw == [] then w
    else
      var t := Toggle(w, sw[..|sw| - 1]);
      t[sw[|sw| - 1] := 1 - t[sw[|sw| - 1]]]
  }

  lemma {:induction false} ToggleAppend(w: seq<int>, sw: seq<int>, v: int)
    requires InRange(sw, |w|) && 0 <= v < |w|
    ensures InRange(sw + [v], |w|) && Toggle(w, sw + [v]) == Toggle(w, sw)[v := 1 - Toggle(w, sw)[v]]
  {
    assert (sw + [v])[..|sw|] == sw;
  }

  ghost predicate Beats(cut: int, diff: int, mincut: int, mindiff: int, allowance: int) {
    (cut < mincut && diff <= allowance) || (cut == mincut && diff < mindiff)
  }

  ghost function Gain(g: Graph, where: seq<int>, v: int): int
    requires Weighted.Shaped(g) && |where| == N(g) && 0 <= v < N(g)
  {
    Ed(g, where, v) - Id(g, where, v)
  }

  /** `v` lies on `side`, has not been moved yet, is light enough and, unless `everybody` may, on the boundary. */
  ghost predicate MayMove(g: Graph, p: Policy, everybody: bool, side: int, where: seq<int>, done: seq<int>, v: int)
    requires Weighted.Shaped(g) && |where| == N(g)
  {
    && 0 <= v < N(g) && v !in done && where[v] == side && (p.side == -1 || g.vwgt[v] <= p.maxw)
    && (everybody || Ed(g, where, v) > 0 || Isolated(g, v))
  }

  /** No other vertex that may move gains more. */
  ghost predicate BestMove(g: Graph, p: Policy, everybody: bool, side: int, where: seq<int>, done: seq<int>, v: int)
    requires Weighted.Shaped(g) && |where| == N(g)
  {
    && MayMove(g, p, everybody, side, where, done, v)
    && forall u :: MayMove(g, p, everybody, side, where, done, u) ==> Gain(g, where, u) <= Gain(g, where, v)
  }

  ghost predicate NoMove(g: Graph, p: Policy, everybody: bool, side: int, where: seq<int>, done: seq<int>)
    requires Weighted.Shaped(g) && |where| == N(g)
  {
    forall u :: !MayMove(g, p, everybody, side, where, done, u)
  }

  /** The side that gives the next vertex: the fixed one, or the one further above its target. */
  ghost function Asked(g: Graph, p: Policy, where: seq<int>, t0: int, t1: int): int
    requires Weighted.Shaped(g) && |where| == N(g)
  {
    if p.side != -1 then p.side
    else if t0 - PartWeight(g, where, 0, N(g)) < t1 - PartWeight(g, where, 1, N(g)) then 0 else 1
  }

  /** The `i`-th vertex moved was the best one of the side asked. */
  ghost predicate GreedyAt(g: Graph, p: Policy, everybody: bool, where0: seq<int>, sw: seq<int>, t0: int, t1: int, i: int)
    requires Weighted.Shaped(g) && |where0| == N(g) && InRange(sw, N(g)) && 0 <= i < |sw|
  {
    var w := Toggle(where0, sw[..i]);
    BestMove(g, p, everybody, Asked(g, p, w, t0, t1), w, sw[..i], sw[i])
  }

  ghost predicate AllGreedy(g: Graph, p: Policy, everybody: bool, where0: seq<int>, sw: seq<int>, t0: int, t1: int)
    requires Weighted.Shaped(g) && |where0| == N(g) && InRange(sw, N(g))
  {
    forall i :: 0 <= i < |sw| ==> GreedyAt(g, p, everybody, where0, sw, t0, t1, i)
  }

  lemma {:induction false} GreedyGrows(g: Graph, p: Policy, everybody: bool, where0: seq<int>, sw: seq<int>, t0: int, t1: int, v: int)
    requires Weighted.Shaped(g) && |where0| == N(g) && InRange(sw, N(g)) && AllGreedy(g, p, everybody, where0, sw, t0, t1)
    requires var w := Toggle(where0, sw); BestMove(g, p, everybody, Asked(g, p, w, t0, t1), w, sw, v)
    ensures InRange(sw + [v], N(g)) && AllGreedy(g, p, everybody, where0, sw + [v], t0, t1)
    ensures Toggle(where0, sw + [v]) == Toggle(where0, sw)[v := 1 - Toggle(where0, sw)[v]]
  {
    var sw' := sw + [v];
    assert sw'[..|sw|] == sw;
    forall i | 0 <= i < |sw'|
      ensures GreedyAt(g, p, everybody, where0, sw', t0, t1, i)
    {
      if i < |sw| {
        assert sw'[..i] == sw[..i];
        assert GreedyAt(g, p, everybody, where0, sw, t0, t1, i);
      }
    }
  }

  // ---------------------------------------------------------------- forced balancing

  /** Every vertex moved left the receiving side within its target. */
  ghost predicate FitsAt(g: Graph, p: Policy, where0: seq<int>, sw: seq<int>, t0: int, t1: int, i: int)
    requires Weighted.Shaped(g) && |where0| == N(g) && InRange(sw, N(g)) && 0 <= i < |sw|
  {
    PartWeight(g, Toggle(where0, sw[..i]), 1 - p.side, N(g)) + g.vwgt[sw[i]] <= if p.side == 1 then t0 else t1
  }

  /** Moving `sw`, each the best of the heavy side and each within the light side's target, led from `where0` to `where`. */
  ghost predicate Draining(g: Graph, p: Policy, everybody: bool, where0: seq<int>, sw: seq<int>, where: seq<int>, t0: int, t1: int) {
    && Weighted.Shaped(g) && |where0| == N(g) && InRange(sw, N(g)) && where == Toggle(where0, sw)
    && AllGreedy(g, p, everybody, where0, sw, t0, t1)
    && forall i :: 0 <= i < |sw| ==> FitsAt(g, p, where0, sw, t0, t1, i)
  }

  /** All were moved, or none is left that may move, or a best one no longer fits. */
  ghost predicate DrainStops(g: Graph, p: Policy, everybody: bool, where: seq<int>, sw: seq<int>, t0: int, t1: int)
    requires Weighted.Shaped(g) && |where| == N(g)
  {
    || |sw| == N(g) || NoMove(g, p, everybody, p.side, where, sw)
    || exists v :: BestMove(g, p, everybody, p.side, where, sw, v)
         && PartWeight(g, where, 1 - p.side, N(g)) + g.vwgt[v] > if p.side == 1 then t0 else t1
  }

  lemma {:induction false} DrainGrows(g: Graph, p: Policy, everybody: bool, where0: seq<int>, sw: seq<int>, where: seq<int>,
                                      t0: int, t1: int, v: int)
    requires Draining(g, p, everybody, where0, sw, where, t0, t1) && p.side in {0, 1}
    requires Weighted.Shaped(g) && |where| == N(g) && 0 <= v < N(g) && BestMove(g, p, everybody, p.side, where, sw, v)
    requires PartWeight(g, where, 1 - p.side, N(g)) + g.vwgt[v] <= if p.side == 1 then t0 else t1
    ensures Draining(g, p, everybody, where0, sw + [v], where[v := 1 - where[v]], t0, t1)
  {
    GreedyGrows(g, p, everybody, where0, sw, t0, t1, v);
    hide AllGreedy, BestMove, Toggle, PartWeight;
    var sw' := sw + [v];
    assert sw'[..|sw|] == sw;
    forall i | 0 <= i < |sw'|
      ensures FitsAt(g, p, where0, sw', t0, t1, i)
    {
      if i < |sw| {
        assert sw'[..i] == sw[..i];
        assert FitsAt(g, p, where0, sw, t0, t1, i);
      }
    }
  }

  /** The three reasons to stop. */
  lemma DrainedOut(g: Graph, p: Policy, everybody: bool, where: seq<int>, sw: seq<int>, t0: int, t1: int)
    requires Weighted.Shaped(g) && |where| == N(g) && NoMove(g, p, everybody, p.side, where, sw)
    ensures DrainStops(g, p, everybody, where, sw, t0, t1)
  {
  }

  lemma DrainedFull(g: Graph, p: Policy, everybody: bool, where: seq<int>, sw: seq<int>, t0: int, t1: int, v: int)
    requires Weighted.Shaped(g) && |where| == N(g) && 0 <= v < N(g) && BestMove(g, p, everybody, p.side, where, sw, v)
    requires PartWeight(g, where, 1 - p.side, N(g)) + g.vwgt[v] > if p.side == 1 then t0 else t1
    ensures DrainStops(g, p, everybody, where, sw, t0, t1)
  {
    hide PartWeight;
  }

  lemma DrainedAll(g: Graph, p: Policy, everybody: bool, where: seq<int>, sw: seq<int>, t0: int, t1: int)
    requires Weighted.Shaped(g) && |where| == N(g) && |sw| == N(g)
    ensures DrainStops(g, p, everybody, where, sw, t0, t1)
  {
  }

  lemma DrainBegins(g: Graph, p: Policy, everybody: bool, where0: seq<int>, t0: int, t1: int)
    requires Weighted.Shaped(g) && |where0| == N(g)
    ensures Draining(g, p, everybody, where0, [], where0, t0, t1)
  {
  }

  // ---------------------------------------------------------------- the hill climb

  /** The number of the last move that made a best state, and that state's cut and distance from the target. */
  datatype Record = Record(order: int, mincut: int, mindiff: int)

  ghost function CutAfter(g: Graph, where0: seq<int>, sw: seq<int>, n: int): int
    requires Weighted.Shaped(g) && |where0| == N(g) && InRange(sw, N(g)) && 0 <= n <= |sw|
  {
    Cut(g, Toggle(where0, sw[..n]))
  }

  ghost function DiffAfter(g: Graph, where0: seq<int>, sw: seq<int>, n: int, t0: int): int
    requires Weighted.Shaped(g) && |where0| == N(g) && InRange(sw, N(g)) && 0 <= n <= |sw|
  {
    Abs(t0 - PartWeight(g, Toggle(where0, sw[..n]), 0, N(g)))
  }

  /** The best of the first `n` moves. */
  ghost function Recorded(g: Graph, where0: seq<int>, sw: seq<int>, n: int, t0: int, allowance: int): (r: Record)
    requires Weighted.Shaped(g) && |where0| == N(g) && InRange(sw, N(g)) && 0 <= n <= |sw|
    ensures r.order == -1 || 0 <= r.order < n
  {
    var cut, diff := CutAfter(g, where0, sw, n), DiffAfter(g, where0, sw, n, t0);
    if n == 0 then Record(-1, cut, diff) else
      var r := Recorded(g, where0, sw, n - 1, t0, allowance);
      if Beats(cut, diff, r.mincut, r.mindiff, allowance) then Record(n - 1, cut, diff) else r
  }

  /** Move `i` made a best state, or was within `limit` of the last one that did. */
  ghost predicate WithinAt(g: Graph, where0: seq<int>, sw: seq<int>, t0: int, limit: int, allowance: int, i: int)
    requires Weighted.Shaped(g) && |where0| == N(g) && InRange(sw, N(g)) && 0 <= i < |sw|
  {
    || Recorded(g, where0, sw, i + 1, t0, allowance).order == i
    || i - Recorded(g, where0, sw, i, t0, allowance).order <= limit
  }

  const CLIMB: Policy := Policy(-1, 0)

  /** A climb so far: greedy moves only, none beyond the limit. */
  ghost predicate Climbing(g: Graph, where0: seq<int>, sw: seq<int>, t0: int, t1: int, limit: int, allowance: int) {
    && Weighted.Shaped(g) && |where0| == N(g) && InRange(sw, N(g)) && AllGreedy(g, CLIMB, false, where0, sw, t0, t1)
    && forall i :: 0 <= i < |sw| ==> WithinAt(g, where0, sw, t0, limit, allowance, i)
  }

  /** All were moved, or none is left that may move, or a best one makes no best state and is beyond the limit. */
  ghost predicate ClimbStops(g: Graph, where0: seq<int>, sw: seq<int>, t0: int, t1: int, limit: int, allowance: int)
    requires Weighted.Shaped(g) && |where0| == N(g) && InRange(sw, N(g))
  {
    var w := Toggle(where0, sw);
    var side := Asked(g, CLIMB, w, t0, t1);
    || |sw| == N(g) || NoMove(g, CLIMB, false, side, w, sw)
    || exists v :: BestMove(g, CLIMB, false, side, w, sw, v) && TooFar(g, where0, sw, t0, limit, allowance, v)
  }

  /** Moving `v` would not make a best state, and too many moves have not. */
  ghost predicate TooFar(g: Graph, where0: seq<int>, sw: seq<int>, t0: int, limit: int, allowance: int, v: int)
    requires Weighted.Shaped(g) && |where0| == N(g) && InRange(sw, N(g)) && 0 <= v < N(g)
  {
    var w := Toggle(where0, sw);
    var w', r := w[v := 1 - w[v]], Recorded(g, where0, sw, |sw|, t0, allowance);
    && !Beats(Cut(g, w'), Abs(t0 - PartWeight(g, w', 0, N(g))), r.mincut, r.mindiff, allowance)
    && |sw| - r.order > limit
  }

  lemma {:induction false} RecordedPrefix(g: Graph, where0: seq<int>, sw: seq<int>, v: int, n: int, t0: int, allowance: int)
    requires Weighted.Shaped(g) && |where0| == N(g) && InRange(sw, N(g)) && InRange(sw + [v], N(g)) && 0 <= n <= |sw|
    ensures Recorded(g, where0, sw + [v], n, t0, allowance) == Recorded(g, where0, sw, n, t0, allowance)
  {
    hide Cut, PartWeight, Toggle, Beats;
    assert (sw + [v])[..n] == sw[..n];
    if n > 0 {
      RecordedPrefix(g, where0, sw, v, n - 1, t0, allowance);
    }
  }

  lemma {:induction false} WithinCarries(g: Graph, where0: seq<int>, sw: seq<int>, v: int, t0: int, limit: int, allowance: int, i: int)
    requires Weighted.Shaped(g) && |where0| == N(g) && InRange(sw, N(g)) && InRange(sw + [v], N(g)) && 0 <= i < |sw|
    requires WithinAt(g, where0, sw, t0, limit, allowance, i)
    ensures WithinAt(g, where0, sw + [v], t0, limit, allowance, i)
  {
    hide Recorded;
    RecordedPrefix(g, where0, sw, v, i, t0, allowance);
    RecordedPrefix(g, where0, sw, v, i + 1, t0, allowance);
  }

  /** How one more move is recorded. */
  lemma {:induction false} RecordedNext(g: Graph, where0: seq<int>, sw: seq<int>, v: int, t0: int, allowance: int)
    requires Weighted.Shaped(g) && |where0| == N(g) && InRange(sw, N(g)) && 0 <= v < N(g)
    ensures InRange(sw + [v], N(g))
    ensures var w := Toggle(where0, sw);
      var w', r := w[v := 1 - w[v]], Recorded(g, where0, sw, |sw|, t0, allowance);
      var cut, diff := Cut(g, w'), Abs(t0 - PartWeight(g, w', 0, N(g)));
      Recorded(g, where0, sw + [v], |sw| + 1, t0, allowance) ==
        if Beats(cut, diff, r.mincut, r.mindiff, allowance) then Record(|sw|, cut, diff) else r
  {
    hide Toggle, Cut, PartWeight, Beats;
    ToggleAppend(where0, sw, v);
    RecordedPrefix(g, where0, sw, v, |sw|, t0, allowance);
    assert (sw + [v])[..|sw| + 1] == sw + [v];
  }

  /** One more best move, recorded or within the limit. */
  lemma {:induction false} ClimbGrows(g: Graph, where0: seq<int>, sw: seq<int>, t0: int, t1: int, limit: int, allowance: int, v: int)
    requires Climbing(g, where0, sw, t0, t1, limit, allowance)
    requires var w := Toggle(where0, sw); BestMove(g, CLIMB, false, Asked(g, CLIMB, w, t0, t1), w, sw, v)
    requires !TooFar(g, where0, sw, t0, limit, allowance, v)
    ensures Climbing(g, where0, sw + [v], t0, t1, limit, allowance)
    ensures var w := Toggle(where0, sw);
      var w', r := w[v := 1 - w[v]], Recorded(g, where0, sw, |sw|, t0, allowance);
      var cut, diff := Cut(g, w'), Abs(t0 - PartWeight(g, w', 0, N(g)));
      && Toggle(where0, sw + [v]) == w'
      && Recorded(g, where0, sw + [v], |sw| + 1, t0, allowance) ==
           if Beats(cut, diff, r.mincut, r.mindiff, allowance) then Record(|sw|, cut, diff) else r
  {
    GreedyGrows(g, CLIMB, false, where0, sw, t0, t1, v);
    hide AllGreedy, BestMove, Toggle, Cut, PartWeight, Asked, Recorded, Beats;
    var sw' := sw + [v];
    RecordedNext(g, where0, sw, v, t0, allowance);
    RecordedPrefix(g, where0, sw, v, |sw|, t0, allowance);
    forall i | 0 <= i < |sw'|
      ensures WithinAt(g, where0, sw', t0, limit, allowance, i)
    {
      if i < |sw| {
        WithinCarries(g, where0, sw, v, t0, limit, allowance, i);
      }
    }
  }

  lemma ClimbBegins(g: Graph, where0: seq<int>, t0: int, t1: int, limit: int, allowance: int)
    requires Weighted.Shaped(g) && |where0| == N(g)
    ensures Climbing(g, where0, [], t0, t1, limit, allowance)
    ensures Recorded(g, where0, [], 0, t0, allowance) == Record(-1, Cut(g, where0), Abs(t0 - PartWeight(g, where0, 0, N(g))))
  {
    var none: seq<int> := [];
    assert none[..0] == none;
  }

  // ---------------------------------------------------------------- pass after pass

  /** One pass: from the sides `start`, the moves `swaps`, of which those up to `order` were kept. */
  datatype Leg = Leg(start: seq<int>, swaps: seq<int>, order: int, end: seq<int>)

  ghost predicate LegOk(g: Graph, leg: Leg, t0: int, t1: int, limit: int, allowance: int) {
    && Climbing(g, leg.start, leg.swaps, t0, t1, limit, allowance)
    && ClimbStops(g, leg.start, leg.swaps, t0, t1, limit, allowance)
    && leg.order == Recorded(g, leg.start, leg.swaps, |leg.swaps|, t0, allowance).order
    && leg.order < |leg.swaps| && leg.end == Toggle(leg.start, leg.swaps[..leg.order + 1])
  }

  /** Nothing was kept, or nothing gained. */
  ghost predicate LastLeg(g: Graph, leg: Leg)
    requires Weighted.Shaped(g) && |leg.start| == |leg.end| == N(g)
  {
    leg.order == -1 || Cut(g, leg.end) == Cut(g, leg.start)
  }

  ghost predicate LegAt(g: Graph, run: seq<Leg>, where0: seq<int>, t0: int, t1: int, limit: int, allowance: int, i: int)
    requires 0 <= i < |run|
  {
    && LegOk(g, run[i], t0, t1, limit, allowance) && |run[i].start| == |run[i].end|
    && run[i].start == (if i == 0 then where0 else run[i - 1].end) && (i < |run| - 1 ==> !LastLeg(g, run[i]))
  }

  /** Pass after pass, each from where the one before ended; none after one that gained nothing. */
  ghost predicate Legs(g: Graph, run: seq<Leg>, where0: seq<int>, where: seq<int>, t0: int, t1: int, limit: int, allowance: int) {
    && where == (if run == [] then where0 else run[|run| - 1].end)
    && forall i :: 0 <= i < |run| ==> LegAt(g, run, where0, t0, t1, limit, allowance, i)
  }

  /** `done` tells whether the last pass was one to stop after. */
  ghost predicate Stopping(g: Graph, run: seq<Leg>, done: bool) {
    if run == [] then !done else
      var leg := run[|run| - 1];
      Weighted.Shaped(g) && |leg.start| == |leg.end| == N(g) && (done <==> LastLeg(g, leg))
  }

  lemma {:induction false} LegsGrow(g: Graph, run: seq<Leg>, where0: seq<int>, where: seq<int>, t0: int, t1: int, limit: int, allowance: int,
                                    leg: Leg, done: bool)
    requires Legs(g, run, where0, where, t0, t1, limit, allowance) && LegOk(g, leg, t0, t1, limit, allowance)
    requires leg.start == where && |leg.start| == |leg.end| == N(g) && Weighted.Shaped(g)
    requires Stopping(g, run, false) && (done <==> LastLeg(g, leg))
    ensures Legs(g, run + [leg], where0, leg.end, t0, t1, limit, allowance) && Stopping(g, run + [leg], done)
  {
    hide LegOk, LastLeg;
    var run' := run + [leg];
    forall i | 0 <= i < |run'|
      ensures LegAt(g, run', where0, t0, t1, limit, allowance, i)
    {
      if i < |run| {
        assert LegAt(g, run, where0, t0, t1, limit, allowance, i);
      }
    }
  }
}
