// Which vertices k-way refinement moves, and where to, told from the graph and its parts alone
// (tools/assignment/metis/kwayfm.c:57-110 and 201-207).
module KwayGreedy {
  import opened Finite
  import opened Csrs
  import opened Weighted
  import opened Kway
  import opened KwayState
  import Boundary

  /** Per part: the least and the greatest weight, and its share of the total; and what a gain may cost in weight. */
  datatype Limits = Limits(minwgt: seq<int>, maxwgt: seq<int>, itpwgts: seq<int>, ffactor: int)

  ghost predicate Fit(g: Graph, where: seq<int>, l: Limits) {
    && Weighted.Shaped(g) && |where| == N(g) && |l.minwgt| == |l.maxwgt| == |l.itpwgts|
    && forall u :: 0 <= u < N(g) ==> 0 <= where[u] < |l.minwgt|
  }

  /** The weight of the edges from `v` into part `q`. */
  ghost function Pull(g: Graph, where: seq<int>, v: int, q: int): int
    requires Weighted.Shaped(g) && |where| == N(g) && 0 <= v < N(g)
  {
    Deg(g, v, Side(where, q, N(g)))
  }

  ghost function Heft(g: Graph, where: seq<int>, q: int): int
    requires Weighted.Shaped(g) && |where| == N(g)
  {
    PartWeight(g, where, q, N(g))
  }

  /** A part that `v` has neighbours in, other than its own. */
  ghost predicate Near(g: Graph, where: seq<int>, l: Limits, v: int, q: int)
    requires Fit(g, where, l) && 0 <= v < N(g)
  {
    0 <= q < |l.minwgt| && q != where[v] && Pull(g, where, v, q) > 0
  }

  /** The part of `v` would become too light, and `v` is no stranger there. */
  ghost predicate HeldBack(g: Graph, where: seq<int>, l: Limits, v: int)
    requires Fit(g, where, l) && 0 <= v < N(g)
  {
    Id(g, where, v) > 0 && Heft(g, where, where[v]) - g.vwgt[v] < l.minwgt[where[v]]
  }

  ghost predicate HasRoom(g: Graph, where: seq<int>, l: Limits, v: int, q: int)
    requires Fit(g, where, l) && 0 <= v < N(g)
  {
    Near(g, where, l, v, q) && Heft(g, where, q) + g.vwgt[v] <= l.maxwgt[q]
  }

  /** The move costs nothing, and the part has room, the gain taken into account. */
  ghost predicate Allowed(g: Graph, where: seq<int>, l: Limits, v: int, q: int)
    requires Fit(g, where, l) && 0 <= v < N(g)
  {
    var gain := Pull(g, where, v, q) - Id(g, where, v);
    Near(g, where, l, v, q) && gain >= 0 && Heft(g, where, q) + g.vwgt[v] <= l.maxwgt[q] + l.ffactor * gain
  }

  /** Part `r` is lighter than part `q`, each measured by its share. */
  ghost predicate Lighter(g: Graph, where: seq<int>, l: Limits, r: int, q: int)
    requires Fit(g, where, l) && 0 <= r < |l.minwgt| && 0 <= q < |l.minwgt|
  {
    l.itpwgts[q] * Heft(g, where, r) < l.itpwgts[r] * Heft(g, where, q)
  }

  ghost predicate Shares(l: Limits) {
    forall q :: 0 <= q < |l.itpwgts| ==> l.itpwgts[q] > 0
  }

  ghost predicate NotBetter(g: Graph, where: seq<int>, l: Limits, v: int, r: int, q: int)
    requires Fit(g, where, l) && 0 <= v < N(g) && 0 <= q < |l.minwgt|
  {
    HasRoom(g, where, l, v, r) ==>
      && Pull(g, where, v, r) <= Pull(g, where, v, q)
      && (Shares(l) && Pull(g, where, v, r) == Pull(g, where, v, q) ==> !Lighter(g, where, l, r, q))
  }

  /** `q`, or a part that offers the same gain, may take `v`. */
  ghost predicate Backed(g: Graph, where: seq<int>, l: Limits, v: int, q: int)
    requires Fit(g, where, l) && 0 <= v < N(g)
  {
    exists r :: (Allowed(g, where, l, v, r) || HasRoom(g, where, l, v, r)) && Pull(g, where, v, r) == Pull(g, where, v, q)
  }

  /** A best target: no part with room offers more, nor as much while being lighter. */
  ghost predicate Target(g: Graph, where: seq<int>, l: Limits, v: int, q: int)
    requires Fit(g, where, l) && 0 <= v < N(g)
  {
    && Near(g, where, l, v, q) && Pull(g, where, v, q) >= Id(g, where, v) && Backed(g, where, l, v, q)
    && (l.ffactor >= 0 ==> forall r :: NotBetter(g, where, l, v, r, q))
  }

  /** A move without gain is made by every eighth visit, or for the balance's sake. */
  ghost predicate Worth(g: Graph, where: seq<int>, l: Limits, iii: int, v: int, q: int)
    requires Fit(g, where, l) && 0 <= v < N(g) && 0 <= q < |l.minwgt|
  {
    var from := where[v];
    || Pull(g, where, v, q) > Id(g, where, v) || iii % 8 == 0 || Heft(g, where, from) >= l.maxwgt[from]
    || l.itpwgts[from] * (Heft(g, where, q) + g.vwgt[v]) < l.itpwgts[q] * Heft(g, where, from)
  }

  ghost predicate Goes(g: Graph, where: seq<int>, l: Limits, iii: int, v: int, q: int)
    requires Fit(g, where, l) && 0 <= v < N(g)
  {
    !HeldBack(g, where, l, v) && Target(g, where, l, v, q) && Worth(g, where, l, iii, v, q)
  }

  ghost predicate Stays(g: Graph, where: seq<int>, l: Limits, iii: int, v: int)
    requires Fit(g, where, l) && 0 <= v < N(g)
  {
    || HeldBack(g, where, l, v) || (forall q :: !Allowed(g, where, l, v, q))
    || exists q :: Target(g, where, l, v, q) && !Worth(g, where, l, iii, v, q)
  }

  /** No part with room would lower the cut, or `v` may not leave. */
  ghost predicate NothingToGain(g: Graph, where: seq<int>, l: Limits, v: int)
    requires Fit(g, where, l) && 0 <= v < N(g)
  {
    HeldBack(g, where, l, v) || forall q :: HasRoom(g, where, l, v, q) ==> Pull(g, where, v, q) <= Id(g, where, v)
  }

  lemma RoomForGain(g: Graph, where: seq<int>, l: Limits, v: int, q: int)
    requires Fit(g, where, l) && 0 <= v < N(g) && l.ffactor >= 0 && HasRoom(g, where, l, v, q)
    requires Pull(g, where, v, q) >= Id(g, where, v)
    ensures Allowed(g, where, l, v, q)
  {
    hide Pull, Heft;
    MoreRoom(l.ffactor, Pull(g, where, v, q) - Id(g, where, v));
  }

  lemma MoreRoom(ffactor: int, gain: int)
    ensures ffactor >= 0 && gain >= 0 ==> ffactor * gain >= 0
  {
  }

  /** Whoever stays, or goes without gain, had nothing to gain. */
  lemma {:induction false} StayReason(g: Graph, where: seq<int>, l: Limits, iii: int, v: int)
    requires Fit(g, where, l) && 0 <= v < N(g) && l.ffactor >= 0 && Stays(g, where, l, iii, v)
    ensures NothingToGain(g, where, l, v)
  {
    hide Pull, Heft, HeldBack, HasRoom, Allowed, Worth, Id, Backed, NotBetter;
    if !HeldBack(g, where, l, v) {
      if exists q :: Target(g, where, l, v, q) && !Worth(g, where, l, iii, v, q) {
        var q :| Target(g, where, l, v, q) && !Worth(g, where, l, iii, v, q);
        WithoutGain(g, where, l, iii, v, q);
      } else {
        forall r | HasRoom(g, where, l, v, r)
          ensures Pull(g, where, v, r) <= Id(g, where, v)
        {
          if Pull(g, where, v, r) > Id(g, where, v) {
            RoomForGain(g, where, l, v, r);
          }
        }
      }
    }
  }

  lemma WithoutGain(g: Graph, where: seq<int>, l: Limits, iii: int, v: int, q: int)
    requires Fit(g, where, l) && 0 <= v < N(g) && l.ffactor >= 0 && Target(g, where, l, v, q)
    ensures 0 <= q < |l.minwgt|
    ensures !Worth(g, where, l, iii, v, q) || Pull(g, where, v, q) == Id(g, where, v) ==> NothingToGain(g, where, l, v)
  {
    hide Pull, Heft, HeldBack, HasRoom, Lighter, Id, Backed;
    forall r | HasRoom(g, where, l, v, r)
      ensures Pull(g, where, v, r) <= Pull(g, where, v, q)
    {
      assert NotBetter(g, where, l, v, r, q);
    }
  }

  // ---------------------------------------------------------------- the list tells the same

  lemma {:induction false} EntryTells(g: Graph, s: State, l: Limits, v: int, k: int)
    requires Exact(g, s) && Fit(g, s.where, l) && 0 <= v < N(g) && Sized(g, s) && 0 <= k < |s.infos[v].degs|
    ensures Near(g, s.where, l, v, s.infos[v].degs[k].pid)
    ensures s.infos[v].degs[k].ed == Pull(g, s.where, v, s.infos[v].degs[k].pid) && s.infos[v].id == Id(g, s.where, v)
  {
    hide Deg, Cut;
    assert ExactAt(g, s, v);
    assert EntryOk(s.infos[v].degs, s.where[v], Toward(g, s.where, v), k);
    GainOk(g, s, v, k);
  }

  lemma {:induction false} NearIsListed(g: Graph, s: State, l: Limits, v: int, q: int)
    requires Exact(g, s) && Fit(g, s.where, l) && 0 <= v < N(g) && Sized(g, s) && Near(g, s.where, l, v, q)
    ensures Has(s.infos[v].degs, q)
  {
    hide Deg;
    assert ExactAt(g, s, v);
    assert Toward(g, s.where, v)(q) == Pull(g, s.where, v, q);
  }

  /** Entry `k` is the best of the first `n`. */
  ghost predicate BestOf(g: Graph, s: State, l: Limits, v: int, n: int, k: int) {
    && Fit(g, s.where, l) && 0 <= v < |s.infos| == N(g) && 0 <= k < n <= |s.infos[v].degs|
    && var q := s.infos[v].degs[k].pid;
      && Near(g, s.where, l, v, q) && Pull(g, s.where, v, q) >= Id(g, s.where, v) && Backed(g, s.where, l, v, q)
      && (l.ffactor >= 0 ==> forall j :: 0 <= j < n ==> NotBetter(g, s.where, l, v, s.infos[v].degs[j].pid, q))
  }

  lemma {:induction false} FirstAllowed(g: Graph, s: State, l: Limits, v: int, k: int)
    requires Fit(g, s.where, l) && 0 <= v < |s.infos| == N(g) && 0 <= k < |s.infos[v].degs|
    requires Allowed(g, s.where, l, v, s.infos[v].degs[k].pid)
    requires forall j :: 0 <= j < k ==> !Allowed(g, s.where, l, v, s.infos[v].degs[j].pid)
    ensures BestOf(g, s, l, v, k + 1, k)
  {
    hide Pull, Heft, HeldBack, HasRoom, Id;
    var degs := s.infos[v].degs;
    var q := degs[k].pid;
    if l.ffactor >= 0 {
      forall j | 0 <= j < k + 1
        ensures NotBetter(g, s.where, l, v, degs[j].pid, q)
      {
        if j < k && HasRoom(g, s.where, l, v, degs[j].pid) && Pull(g, s.where, v, degs[j].pid) >= Pull(g, s.where, v, q) {
          RoomForGain(g, s.where, l, v, degs[j].pid);
        }
      }
    }
  }

  lemma LighterOrder(a: int, b: int, c: int, x: int, y: int, z: int)
    requires a > 0 && b > 0 && c > 0
    requires c * x >= a * z && c * y < b * z
    ensures b * x >= a * y
  {
    calc {
      c * (b * x);
    ==
      b * (c * x);
    >=  { Scale(b, a * z, c * x); }
      b * (a * z);
    ==
      a * (b * z);
    >=  { Scale(a, c * y, b * z); }
      a * (c * y);
    ==
      c * (a * y);
    }
    Unscale(c, a * y, b * x);
  }

  lemma Scale(a: int, x: int, y: int)
    requires a > 0 && x <= y
    ensures a * x <= a * y
  {
  }

  lemma Unscale(a: int, x: int, y: int)
    requires a > 0 && a * x <= a * y
    ensures x <= y
  {
  }

  /** Relative lightness is an order. */
  lemma {:induction false} NotLighter(g: Graph, where: seq<int>, l: Limits, r: int, q: int, q': int)
    requires Fit(g, where, l) && Shares(l) && 0 <= r < |l.minwgt| && 0 <= q < |l.minwgt| && 0 <= q' < |l.minwgt|
    requires !Lighter(g, where, l, r, q) && Lighter(g, where, l, q', q)
    ensures !Lighter(g, where, l, r, q')
  {
    hide Heft;
    LighterOrder(l.itpwgts[r], l.itpwgts[q'], l.itpwgts[q], Heft(g, where, r), Heft(g, where, q'), Heft(g, where, q));
  }

  /** A better entry replaces the best one; any other leaves it the best. */
  ghost predicate Replaces(g: Graph, s: State, l: Limits, v: int, k: int, j: int)
    requires Fit(g, s.where, l) && 0 <= v < |s.infos| == N(g) && 0 <= k < |s.infos[v].degs| && 0 <= j < |s.infos[v].degs|
    requires Near(g, s.where, l, v, s.infos[v].degs[k].pid) && Near(g, s.where, l, v, s.infos[v].degs[j].pid)
  {
    var q, r := s.infos[v].degs[k].pid, s.infos[v].degs[j].pid;
    || (Pull(g, s.where, v, r) > Pull(g, s.where, v, q) && HasRoom(g, s.where, l, v, r))
    || (Pull(g, s.where, v, r) == Pull(g, s.where, v, q) && Lighter(g, s.where, l, r, q))
  }

  lemma {:induction false} BestOfNext(g: Graph, s: State, l: Limits, v: int, n: int, k: int)
    requires BestOf(g, s, l, v, n, k) && n < |s.infos[v].degs| && Fit(g, s.where, l) && Near(g, s.where, l, v, s.infos[v].degs[k].pid)
    requires Near(g, s.where, l, v, s.infos[v].degs[n].pid)
    ensures BestOf(g, s, l, v, n + 1, if Replaces(g, s, l, v, k, n) then n else k)
  {
    hide Pull, Heft, HeldBack, Id, Lighter, Near, Shares;
    var degs := s.infos[v].degs;
    var q, r := degs[k].pid, degs[n].pid;
    assert 0 <= q < |l.minwgt| && 0 <= r < |l.minwgt| by { NearRange(g, s.where, l, v, q); NearRange(g, s.where, l, v, r); }
    if Replaces(g, s, l, v, k, n) {
      assert Backed(g, s.where, l, v, r);
      if l.ffactor >= 0 {
        forall j | 0 <= j < n + 1
          ensures NotBetter(g, s.where, l, v, degs[j].pid, r)
        {
          assert j < n ==> NotBetter(g, s.where, l, v, degs[j].pid, q);
          NotBetterStill(g, s.where, l, v, degs[j].pid, q, r);
        }
      }
    } else if l.ffactor >= 0 {
      assert NotBetter(g, s.where, l, v, r, q);
    }
  }

  lemma NearRange(g: Graph, where: seq<int>, l: Limits, v: int, q: int)
    requires Fit(g, where, l) && 0 <= v < N(g) && Near(g, where, l, v, q)
    ensures 0 <= q < |l.minwgt| == |l.maxwgt| == |l.itpwgts|
  {
  }

  lemma {:induction false} NotBetterStill(g: Graph, where: seq<int>, l: Limits, v: int, i: int, q: int, r: int)
    requires Fit(g, where, l) && 0 <= v < N(g) && 0 <= q < |l.minwgt| && 0 <= r < |l.minwgt|
    requires i == r || NotBetter(g, where, l, v, i, q)
    requires Pull(g, where, v, r) > Pull(g, where, v, q) || (Pull(g, where, v, r) == Pull(g, where, v, q) && Lighter(g, where, l, r, q))
    ensures NotBetter(g, where, l, v, i, r)
  {
    hide Pull, Heft, Id, Shares;
    if i != r && HasRoom(g, where, l, v, i) && Shares(l) && Pull(g, where, v, i) == Pull(g, where, v, r) {
      NearRange(g, where, l, v, i);
      NotLighter(g, where, l, i, q, r);
    }
  }

  /** The best of the whole list is a best target. */
  lemma {:induction false} BestOfAll(g: Graph, s: State, l: Limits, v: int, k: int)
    requires Exact(g, s) && Sized(g, s) && Fit(g, s.where, l) && 0 <= v < N(g) && BestOf(g, s, l, v, |s.infos[v].degs|, k)
    ensures Target(g, s.where, l, v, s.infos[v].degs[k].pid)
  {
    hide Pull, Heft, Id, Lighter, Exact, Backed;
    var degs := s.infos[v].degs;
    var q := degs[k].pid;
    if l.ffactor >= 0 {
      forall r
        ensures NotBetter(g, s.where, l, v, r, q)
      {
        if HasRoom(g, s.where, l, v, r) {
          NearIsListed(g, s, l, v, r);
          var j :| 0 <= j < |degs| && degs[j].pid == r;
          assert NotBetter(g, s.where, l, v, degs[j].pid, q);
        }
      }
    }
  }

  lemma {:induction false} NoneAllowed(g: Graph, s: State, l: Limits, v: int)
    requires Exact(g, s) && Sized(g, s) && Fit(g, s.where, l) && 0 <= v < N(g)
    requires forall j :: 0 <= j < |s.infos[v].degs| ==> !Allowed(g, s.where, l, v, s.infos[v].degs[j].pid)
    ensures forall q :: !Allowed(g, s.where, l, v, q)
  {
    hide Pull, Heft, Id, Exact;
    forall q
      ensures !Allowed(g, s.where, l, v, q)
    {
      if Near(g, s.where, l, v, q) {
        NearIsListed(g, s, l, v, q);
        var j :| 0 <= j < |s.infos[v].degs| && s.infos[v].degs[j].pid == q;
        assert !Allowed(g, s.where, l, v, s.infos[v].degs[j].pid);
      }
    }
  }

  // ---------------------------------------------------------------- a pass, visit by visit

  /** All is exact, and there are limits for every part. */
  ghost predicate Sane(g: Graph, l: Limits, s: State) {
    Exact(g, s) && Fit(g, s.where, l)
  }

  lemma SaneFacts(g: Graph, l: Limits, s: State)
    requires Sane(g, l, s)
    ensures Exact(g, s) && Fit(g, s.where, l) && Weighted.Shaped(g) && Sized(g, s) && WellFormed(g) && Boundary.Valid(s.bnd)
  {
  }

  lemma ListedVertex(g: Graph, s: State, ii: int)
    requires Exact(g, s) && 0 <= ii < |s.bnd.ind|
    ensures Sized(g, s) && Boundary.Valid(s.bnd) && 0 <= s.bnd.ind[ii] < N(g) && Boundary.Holds(s.bnd, s.bnd.ind[ii])
  {
    assert Boundary.LinkedBack(s.bnd, ii);
  }

  /** The visit of `v` left everything as it was, with reason, or moved `v` along entry `k`, with reason. */
  ghost predicate Settled(g: Graph, l: Limits, s: State, iii: int, v: int, s': State)
    requires Sane(g, l, s) && 0 <= v < N(g)
  {
    SaneFacts(g, l, s);
    || (s' == s && Stays(g, s.where, l, iii, v))
    || exists k :: 0 <= k < |s.infos[v].degs| && Goes(g, s.where, l, iii, v, s.infos[v].degs[k].pid) && s' == MoveTo(g, s, v, k)
  }

  /** Visit number `iii`, of position `ii` of the boundary list, unless that has become too short. */
  ghost predicate Visit(g: Graph, l: Limits, s: State, ii: int, iii: int, s': State) {
    && Sane(g, l, s)
    && if 0 <= ii < |s.bnd.ind| then
         ListedVertex(g, s, ii);
         Settled(g, l, s, iii, s.bnd.ind[ii], s')
       else s' == s
  }

  /** What one visit does to the cut. */
  lemma {:induction false} VisitCut(g: Graph, l: Limits, s: State, ii: int, iii: int, s': State)
    requires Visit(g, l, s, ii, iii, s') && Sane(g, l, s) && Sane(g, l, s')
    ensures Weighted.Shaped(g) && |s.where| == |s'.where| == N(g) && Cut(g, s'.where) <= Cut(g, s.where)
    ensures 0 <= ii < |s.bnd.ind| && Cut(g, s'.where) == Cut(g, s.where) && l.ffactor >= 0 ==>
      0 <= s.bnd.ind[ii] < N(g) && NothingToGain(g, s.where, l, s.bnd.ind[ii])
  {
    hide Exact, Pull, Stays, Goes, NothingToGain, Cut, MoveTo, Id, Fit;
    SaneFacts(g, l, s);
    SaneFacts(g, l, s');
    if 0 <= ii < |s.bnd.ind| {
      ListedVertex(g, s, ii);
      var v := s.bnd.ind[ii];
      if s' == s && Stays(g, s.where, l, iii, v) {
        if l.ffactor >= 0 {
          StayReason(g, s.where, l, iii, v);
        }
      } else {
        var k :| 0 <= k < |s.infos[v].degs| && Goes(g, s.where, l, iii, v, s.infos[v].degs[k].pid) && s' == MoveTo(g, s, v, k);
        MoveCut(g, l, s, iii, v, k);
      }
    }
  }

  lemma {:induction false} MoveCut(g: Graph, l: Limits, s: State, iii: int, v: int, k: int)
    requires Sane(g, l, s) && Exact(g, s) && Sized(g, s) && 0 <= v < N(g) && 0 <= k < |s.infos[v].degs| && Fit(g, s.where, l)
    requires Goes(g, s.where, l, iii, v, s.infos[v].degs[k].pid)
    ensures Weighted.Shaped(g)
    ensures var where' := s.where[v := s.infos[v].degs[k].pid];
      && Cut(g, where') <= Cut(g, s.where)
      && (Cut(g, where') == Cut(g, s.where) && l.ffactor >= 0 ==> NothingToGain(g, s.where, l, v))
  {
    hide Exact, Pull, NothingToGain, Cut, Id, HeldBack, Backed, NotBetter, Fit;
    GainOk(g, s, v, k);
    EntryTells(g, s, l, v, k);
    if l.ffactor >= 0 {
      WithoutGain(g, s.where, l, iii, v, s.infos[v].degs[k].pid);
    }
  }

  /** A pass: the order of the visits, and the states before, between and after them. */
  datatype Sweep = Sweep(perm: seq<int>, states: seq<State>)

  ghost predicate VisitAt(g: Graph, l: Limits, sw: Sweep, i: int)
    requires 0 <= i < |sw.perm| && i + 1 < |sw.states|
  {
    Visit(g, l, sw.states[i], sw.perm[i], i, sw.states[i + 1])
  }

  /** The first `n` visits of a pass. */
  ghost predicate Sweeping(g: Graph, l: Limits, sw: Sweep, n: int) {
    && 0 <= n <= |sw.perm| && |sw.states| == n + 1 && IsPermutation(sw.perm, |sw.states[0].bnd.ind|)
    && (forall i :: 0 <= i <= n ==> Sane(g, l, sw.states[i]))
    && forall i :: 0 <= i < n ==> VisitAt(g, l, sw, i)
  }

  /** A whole pass, from `s` to `s'`. */
  ghost predicate Swept(g: Graph, l: Limits, sw: Sweep, s: State, s': State) {
    Sweeping(g, l, sw, |sw.perm|) && sw.states[0] == s && sw.states[|sw.perm|] == s'
  }

  lemma SweepBegins(g: Graph, l: Limits, perm: seq<int>, s: State)
    requires Sane(g, l, s) && IsPermutation(perm, |s.bnd.ind|)
    ensures Sweeping(g, l, Sweep(perm, [s]), 0)
  {
  }

  lemma {:induction false} SweepGrows(g: Graph, l: Limits, sw: Sweep, n: int, s': State)
    requires Sweeping(g, l, sw, n) && n < |sw.perm| && Sane(g, l, s') && Visit(g, l, sw.states[n], sw.perm[n], n, s')
    ensures Sweeping(g, l, sw.(states := sw.states + [s']), n + 1)
  {
    hide Sane, Visit;
    var next := sw.(states := sw.states + [s']);
    forall i | 0 <= i < n + 1
      ensures VisitAt(g, l, next, i)
    {
      assert i < n ==> VisitAt(g, l, sw, i);
    }
  }

  lemma SweepFacts(g: Graph, l: Limits, sw: Sweep, n: int, i: int)
    requires Sweeping(g, l, sw, n) && 0 <= i <= n
    ensures Weighted.Shaped(g) && |sw.states| == n + 1 && n <= |sw.perm| && Sane(g, l, sw.states[i]) && |sw.states[i].where| == N(g)
    ensures i < n ==> VisitAt(g, l, sw, i)
  {
    SaneFacts(g, l, sw.states[i]);
  }

  /** No visit raises the cut. */
  lemma {:induction false} SweepCut(g: Graph, l: Limits, sw: Sweep, n: int, i: int, j: int)
    requires Sweeping(g, l, sw, n) && 0 <= i <= j <= n
    ensures Weighted.Shaped(g) && |sw.states| == n + 1 && |sw.states[i].where| == |sw.states[j].where| == N(g)
    ensures Cut(g, sw.states[j].where) <= Cut(g, sw.states[i].where)
    decreases j - i
  {
    hide Sweeping, Sane, Visit, Cut;
    SweepFacts(g, l, sw, n, i);
    SweepFacts(g, l, sw, n, j);
    if i < j {
      SweepCut(g, l, sw, n, i, j - 1);
      SweepFacts(g, l, sw, n, j - 1);
      VisitCut(g, l, sw.states[j - 1], sw.perm[j - 1], j - 1, sw.states[j]);
    }
  }

  /** Position `perm[i]` was on the list when its turn came, and its vertex had nothing to gain. */
  ghost predicate QuietVisit(g: Graph, l: Limits, sw: Sweep, i: int)
    requires 0 <= i < |sw.perm| && i < |sw.states|
  {
    var s, ii := sw.states[i], sw.perm[i];
    0 <= ii < |s.bnd.ind| ==> Fit(g, s.where, l) && 0 <= s.bnd.ind[ii] < N(g) && NothingToGain(g, s.where, l, s.bnd.ind[ii])
  }

  /** A pass that leaves the cut unchanged met no vertex that it could have gained by. */
  lemma {:induction false} QuietSweep(g: Graph, l: Limits, sw: Sweep, s: State, s': State)
    requires Swept(g, l, sw, s, s') && l.ffactor >= 0
    ensures Weighted.Shaped(g) && |s.where| == |s'.where| == N(g)
    ensures Cut(g, s'.where) == Cut(g, s.where) ==> forall i :: 0 <= i < |sw.perm| ==> i < |sw.states| && QuietVisit(g, l, sw, i)
  {
    hide Sweeping, Visit, Cut, NothingToGain, Exact;
    var n := |sw.perm|;
    SweepCut(g, l, sw, n, 0, n);
    if Cut(g, s'.where) == Cut(g, s.where) {
      forall i | 0 <= i < n
        ensures i < |sw.states| && QuietVisit(g, l, sw, i)
      {
        SweepFacts(g, l, sw, n, i);
        SweepFacts(g, l, sw, n, i + 1);
        SweepCut(g, l, sw, n, 0, i);
        SweepCut(g, l, sw, n, i + 1, n);
        VisitCut(g, l, sw.states[i], sw.perm[i], i, sw.states[i + 1]);
      }
    }
  }

  /** No vertex changed its part, from one visit to the next. */
  ghost predicate NobodyMoves(sw: Sweep) {
    forall i, j :: 0 <= i < |sw.states| && j == i + 1 < |sw.states| ==> sw.states[i].where == sw.states[j].where
  }

  lemma {:induction false} NothingMoved(g: Graph, l: Limits, sw: Sweep, n: int, i: int)
    requires Sweeping(g, l, sw, n) && NobodyMoves(sw) && 0 <= i <= n
    ensures |sw.states| == n + 1 && sw.states[i] == sw.states[0]
  {
    hide Exact, Stays, Goes, MoveTo, Fit;
    if i > 0 {
      NothingMoved(g, l, sw, n, i - 1);
      var s, s', ii := sw.states[i - 1], sw.states[i], sw.perm[i - 1];
      assert VisitAt(g, l, sw, i - 1) && s.where == s'.where;
      StillVisit(g, l, s, ii, i - 1, s');
    }
  }

  lemma {:induction false} StillVisit(g: Graph, l: Limits, s: State, ii: int, iii: int, s': State)
    requires Visit(g, l, s, ii, iii, s')
    ensures s' == s || s'.where != s.where
  {
    hide Exact, Stays, HeldBack, Worth, Fit, Pull, Id, Backed, NotBetter;
    if s' != s {
      SaneFacts(g, l, s);
      ListedVertex(g, s, ii);
      var v := s.bnd.ind[ii];
      var k :| 0 <= k < |s.infos[v].degs| && Goes(g, s.where, l, iii, v, s.infos[v].degs[k].pid) && s' == MoveTo(g, s, v, k);
      assert s'.where[v] == s.infos[v].degs[k].pid != s.where[v];
    }
  }

  /** A pass in which no vertex moves leaves none on the boundary list that could have gained. */
  lemma {:induction false} StillSweep(g: Graph, l: Limits, sw: Sweep, s: State, s': State, v: int)
    requires Swept(g, l, sw, s, s') && l.ffactor >= 0 && NobodyMoves(sw) && v in s.bnd.ind
    ensures s' == s && Fit(g, s.where, l) && 0 <= v < N(g) && NothingToGain(g, s.where, l, v)
  {
    hide Visit, Cut, NothingToGain, Exact, NobodyMoves;
    var n := |sw.perm|;
    NothingMoved(g, l, sw, n, n);
    var ii :| 0 <= ii < |s.bnd.ind| && s.bnd.ind[ii] == v;
    PermutationHitsAll(sw.perm, n, ii);
    var i :| 0 <= i < n && sw.perm[i] == ii;
    NothingMoved(g, l, sw, n, i);
    QuietSweep(g, l, sw, s, s');
    assert QuietVisit(g, l, sw, i);
  }

  // ---------------------------------------------------------------- pass after pass

  ghost predicate SweptAt(g: Graph, l: Limits, run: seq<Sweep>, states: seq<State>, i: int)
    requires 0 <= i < |run| && |states| == |run| + 1
  {
    && Swept(g, l, run[i], states[i], states[i + 1])
    && (i < |run| - 1 ==> !Idle(g, states[i], states[i + 1]))
  }

  /** The pass left the cut as it was. */
  ghost predicate Idle(g: Graph, s: State, s': State) {
    Weighted.Shaped(g) && |s.where| == |s'.where| == N(g) && Cut(g, s'.where) == Cut(g, s.where)
  }

  /** The passes of a refinement, from `states[0]` on; none but the last leaves the cut as it was. */
  ghost predicate Sweeps(g: Graph, l: Limits, run: seq<Sweep>, states: seq<State>) {
    |states| == |run| + 1 && forall i :: 0 <= i < |run| ==> SweptAt(g, l, run, states, i)
  }

  lemma {:induction false} SweepsGrow(g: Graph, l: Limits, run: seq<Sweep>, states: seq<State>, sw: Sweep, s': State)
    requires Sweeps(g, l, run, states) && Swept(g, l, sw, states[|run|], s')
    requires run != [] ==> !Idle(g, states[|run| - 1], states[|run|])
    ensures Sweeps(g, l, run + [sw], states + [s'])
  {
    hide Swept, Idle;
    forall i | 0 <= i < |run + [sw]|
      ensures SweptAt(g, l, run + [sw], states + [s'], i)
    {
      assert i < |run| ==> SweptAt(g, l, run, states, i);
    }
  }
}
