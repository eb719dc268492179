// Growing blobs: the greedy k-cluster assignment of edges to cores
// (blob_assignment::assign, tools/assignment/assignment.cpp).
module Blobs {
  import opened Finite
  import opened Digraphs

  const NOBODY: int := -1

  // ---------------------------------------------------------------- loads and the potential

  /** The weight given to part `p` by the first `k` edges. */
  ghost function Load(w: seq<real>, a: seq<int>, p: int, k: int): real
    requires 0 <= k <= |a| == |w|
  {
    if k == 0 then 0.0 else Load(w, a, p, k - 1) + if a[k - 1] == p then w[k - 1] else 0.0
  }

  ghost function Assigned(a: seq<int>, k: int): int
    requires 0 <= k <= |a|
  {
    if k == 0 then 0 else Assigned(a, k - 1) + if a[k - 1] != NOBODY then 1 else 0
  }

  ghost function Square(x: real): real {
    x * x
  }

  ghost function Squares(b: seq<real>, k: int): real
    requires 0 <= k <= |b|
  {
    if k == 0 then 0.0 else Squares(b, k - 1) + Square(b[k - 1])
  }

  ghost function Loads(w: seq<real>, a: seq<int>, parts: int): seq<real>
    requires |a| == |w| && parts >= 0
  {
    seq(parts, p => Load(w, a, p, |a|))
  }

  /** More edges taken, or as many and the blobs more even. */
  ghost predicate Better(w: seq<real>, parts: int, a': seq<int>, a: seq<int>)
    requires |a'| == |a| == |w| && parts >= 0
  {
    Assigned(a', |a'|) > Assigned(a, |a|) ||
    (Assigned(a', |a'|) == Assigned(a, |a|) && Squares(Loads(w, a', parts), parts) < Squares(Loads(w, a, parts), parts))
  }

  lemma {:induction false} AssignedUpdate(a: seq<int>, e: int, p: int, k: int)
    requires 0 <= e < |a| && 0 <= k <= |a|
    ensures Assigned(a[e := p], k) == Assigned(a, k) +
            if e >= k then 0 else (if p != NOBODY then 1 else 0) - (if a[e] != NOBODY then 1 else 0)
  {
    if k > 0 {
      AssignedUpdate(a, e, p, k - 1);
    }
  }

  lemma {:induction false} AssignedBound(a: seq<int>, k: int)
    requires 0 <= k <= |a|
    ensures 0 <= Assigned(a, k) <= k
    ensures Assigned(a, k) == k ==> forall e :: 0 <= e < k ==> a[e] != NOBODY
  {
    if k > 0 {
      AssignedBound(a, k - 1);
    }
  }

  lemma {:induction false} LoadUpdate(w: seq<real>, a: seq<int>, e: int, p: int, r: int, k: int)
    requires |a| == |w| && 0 <= e < |a| && 0 <= k <= |a|
    ensures Load(w, a[e := p], r, k) == Load(w, a, r, k) +
            if e >= k then 0.0 else (if r == p then w[e] else 0.0) - (if r == a[e] then w[e] else 0.0)
  {
    if k > 0 {
      LoadUpdate(w, a, e, p, r, k - 1);
    }
  }

  lemma {:induction false} SquaresUpdate(b: seq<real>, i: int, x: real, k: int)
    requires 0 <= i < |b| && 0 <= k <= |b|
    ensures Squares(b[i := x], k) == Squares(b, k) + if i < k then Square(x) - Square(b[i]) else 0.0
  {
    if k > 0 {
      SquaresUpdate(b, i, x, k - 1);
    }
  }

  ghost predicate Positive(w: seq<real>) {
    forall e :: 0 <= e < |w| ==> w[e] > 0.0
  }

  /** When may part `p` take an edge of weight `w` from `q`? */
  ghost predicate MaySteal(target: real, bp: real, bq: real, w: real) {
    bq > target && (bp + w <= target || bq - w >= bp + w)
  }

  /** Moving weight from a fuller to an emptier blob makes them more even. */
  lemma StealEvens(target: real, bp: real, bq: real, w: real)
    requires w > 0.0 && MaySteal(target, bp, bq, w)
    ensures Square(bq - w) + Square(bp + w) < Square(bq) + Square(bp)
  {
    var d := bq - (bp + w);
    assert d > 0.0;
    assert Square(bq) + Square(bp) - Square(bq - w) - Square(bp + w) == 2.0 * (w * d);
    assert w * d > 0.0;
  }

  /**
   * The size test would let an edge be stolen straight back exactly when it weighs nothing and both blobs
   * are equal and too large.
   */
  lemma StealBack(target: real, bp: real, bq: real, w: real)
    requires w >= 0.0 && MaySteal(target, bp, bq, w)
    ensures MaySteal(target, bq - w, bp + w, w) <==> w == 0.0 && bp == bq
  {
  }

  /** An edge that nobody had is taken. */
  lemma {:induction false} TakeImproves(w: seq<real>, parts: int, a: seq<int>, e: int, p: int)
    requires |a| == |w| && 0 <= e < |a| && 0 <= p < parts && a[e] == NOBODY
    ensures Better(w, parts, a[e := p], a) && Assigned(a[e := p], |a|) == Assigned(a, |a|) + 1
    ensures Loads(w, a[e := p], parts) == Loads(w, a, parts)[p := Load(w, a, p, |a|) + w[e]]
  {
    AssignedUpdate(a, e, p, |a|);
    var a', loads := a[e := p], Loads(w, a, parts)[p := Load(w, a, p, |a|) + w[e]];
    forall r | 0 <= r < parts
      ensures Load(w, a', r, |a|) == loads[r]
    {
      LoadUpdate(w, a, e, p, r, |a|);
    }
  }

  /** Stealing moves the weight of the edge from one blob to the other. */
  lemma {:induction false} StealMoves(w: seq<real>, parts: int, a: seq<int>, e: int, p: int)
    requires |a| == |w| && 0 <= e < |a| && 0 <= p < parts && 0 <= a[e] < parts && a[e] != p
    ensures Assigned(a[e := p], |a|) == Assigned(a, |a|)
    ensures Loads(w, a[e := p], parts) == Loads(w, a, parts)[a[e] := Load(w, a, a[e], |a|) - w[e]][p := Load(w, a, p, |a|) + w[e]]
  {
    var b, q := Loads(w, a, parts), a[e];
    AssignedUpdate(a, e, p, |a|);
    var a', loads := a[e := p], b[q := b[q] - w[e]][p := b[p] + w[e]];
    forall r | 0 <= r < parts
      ensures Load(w, a', r, |a|) == loads[r]
    {
      LoadUpdate(w, a, e, p, r, |a|);
    }
  }

  /** An edge that weighs something is stolen from a part that holds too much: that makes progress. */
  lemma {:induction false} StealImproves(w: seq<real>, parts: int, a: seq<int>, e: int, p: int, target: real)
    requires |a| == |w| && 0 <= e < |a| && 0 <= p < parts && 0 <= a[e] < parts && a[e] != p && w[e] > 0.0
    requires MaySteal(target, Load(w, a, p, |a|), Load(w, a, a[e], |a|), w[e])
    ensures Better(w, parts, a[e := p], a)
  {
    var b, q := Loads(w, a, parts), a[e];
    StealMoves(w, parts, a, e, p);
    var b' := b[q := b[q] - w[e]];
    assert Loads(w, a[e := p], parts) == b'[p := b[p] + w[e]];
    SquaresUpdate(b, q, b[q] - w[e], parts);
    SquaresUpdate(b', p, b[p] + w[e], parts);
    StealEvens(target, b[p], b[q], w[e]);
  }

  // ---------------------------------------------------------------- a measure for real weights

  /** All assignments of `k` edges to `parts` parts or to nobody. */
  ghost function Everything(k: nat, parts: nat): set<seq<int>> {
    if k == 0 then {[]} else
      set a, p | a in Everything(k - 1, parts) && p in Range(NOBODY, parts) :: a + [p]
  }

  ghost predicate InParts(a: seq<int>, parts: int) {
    forall e :: 0 <= e < |a| ==> NOBODY <= a[e] < parts
  }

  lemma {:induction false} InEverything(a: seq<int>, parts: nat)
    requires InParts(a, parts)
    ensures a in Everything(|a|, parts)
    decreases |a|
  {
    if a != [] {
      var init, p := a[..|a| - 1], a[|a| - 1];
      InEverything(init, parts);
      assert a == init + [p] && p in Range(NOBODY, parts);
    }
  }

  /** The assignments that are better still. */
  ghost function Ahead(w: seq<real>, parts: nat, a: seq<int>): set<seq<int>>
    requires |a| == |w|
  {
    set b | b in Everything(|w|, parts) && |b| == |w| && Better(w, parts, b, a)
  }

  /** There are only finitely many assignments, so improving cannot go on for ever. */
  lemma {:induction false} BetterIsCloser(w: seq<real>, parts: nat, a': seq<int>, a: seq<int>)
    requires |a'| == |a| == |w| && InParts(a', parts) && Better(w, parts, a', a)
    ensures |Ahead(w, parts, a')| < |Ahead(w, parts, a)|
  {
    InEverything(a', parts);
    assert a' in Ahead(w, parts, a) && a' !in Ahead(w, parts, a');
    assert Ahead(w, parts, a') <= Ahead(w, parts, a);
    SubsetSize(Ahead(w, parts, a'), Ahead(w, parts, a));
  }

  // ---------------------------------------------------------------- what the loops keep

  /** `blobs` holds the loads, and `taken` counts the assigned edges except the `parts` seeds. */
  ghost predicate Books(w: seq<real>, parts: int, a: seq<int>, b: seq<real>, taken: int) {
    && parts > 0 && |a| == |w| && InParts(a, parts)
    && b == Loads(w, a, parts) && Assigned(a, |a|) == taken + parts
  }

  /** Seeds are not counted, so the count never reaches the number of edges. */
  lemma {:induction false} SeedsUncounted(w: seq<real>, parts: int, a: seq<int>, b: seq<real>, taken: int)
    requires Books(w, parts, a, b, taken)
    ensures taken <= |a| - parts < |a|
  {
    AssignedBound(a, |a|);
  }

  /** All edges that leave an end of `e` have been assigned. */
  ghost predicate Closed(g: Graph, a: seq<int>, e: int)
    requires GraphOk(g) && |a| == E(g) && 0 <= e < E(g)
  {
    assert EdgeOk(g, e);
    AllOut(g, a, g.src[e], |g.out[g.src[e]]|) && AllOut(g, a, g.tgt[e], |g.out[g.tgt[e]]|)
  }

  ghost predicate AllOut(g: Graph, a: seq<int>, v: int, k: int)
    requires GraphOk(g) && |a| == E(g) && 0 <= v < g.n && 0 <= k <= |g.out[v]|
  {
    forall i :: 0 <= i < k ==> a[OutEdge(g, v, i)] != NOBODY
  }

  /** Whatever is assigned is still to be looked at, in this pass or the next, or has nothing unassigned next to it. */
  ghost predicate Pending(g: Graph, a: seq<int>, rest: set<int>, next: set<int>, changed: bool)
    requires GraphOk(g) && |a| == E(g)
  {
    forall e :: 0 <= e < E(g) && a[e] != NOBODY ==> e in rest || (changed && e in next) || Closed(g, a, e)
  }

  ghost predicate Holds(a: seq<int>, s: set<int>) {
    forall e :: e in s ==> 0 <= e < |a| && a[e] != NOBODY
  }

  /** From `a` on nothing was given up, everything new is in `next`, and any change made things better. */
  ghost predicate Progress(w: seq<real>, parts: int, a: seq<int>, next: set<int>, a': seq<int>, next': set<int>, changed: bool) {
    && |a| == |a'| == |w| && parts > 0 && next <= next' && Holds(a', next')
    && (forall e :: 0 <= e < |a| && a[e] != NOBODY ==> a'[e] != NOBODY)
    && (forall e :: 0 <= e < |a| && a[e] == NOBODY && a'[e] != NOBODY ==> e in next')
    && (if changed then Positive(w) ==> Better(w, parts, a', a) else a' == a)
  }

  lemma ProgressTrans(w: seq<real>, parts: int, a: seq<int>, next: set<int>, a': seq<int>, next': set<int>, c: bool,
                      a'': seq<int>, next'': set<int>, c': bool)
    requires Progress(w, parts, a, next, a', next', c) && Progress(w, parts, a', next', a'', next'', c')
    ensures Progress(w, parts, a, next, a'', next'', c || c')
  {
  }

  /** The edges of a graph and their weights, none negative. */
  ghost predicate InputOk(g: Graph, w: seq<real>, parts: int) {
    GraphOk(g) && |w| == E(g) && (forall e :: 0 <= e < E(g) ==> w[e] >= 0.0) && 0 < parts <= E(g)
  }

  // ---------------------------------------------------------------- what a pass does, as a function

  /** Who has each edge, and the blob sizes. */
  datatype Field = Field(a: seq<int>, b: seq<real>)

  ghost predicate FieldOk(g: Graph, w: seq<real>, f: Field) {
    GraphOk(g) && |w| == |f.a| == E(g) && InParts(f.a, |f.b|)
  }

  /** The test of lines 414 to 416. */
  predicate Takes(w: seq<real>, target: real, f: Field, part: int, e1: int)
    requires 0 <= e1 < |w| == |f.a| && 0 <= part < |f.b| && NOBODY <= f.a[e1] < |f.b|
  {
    var q := f.a[e1];
    q == NOBODY || (f.b[q] > target && (f.b[part] + w[e1] <= target || f.b[q] - w[e1] >= f.b[part] + w[e1]))
  }

  /** A free edge is taken, any other one only where stealing is allowed. */
  lemma TakesExactly(w: seq<real>, target: real, f: Field, part: int, e1: int)
    requires 0 <= e1 < |w| == |f.a| && 0 <= part < |f.b| && NOBODY <= f.a[e1] < |f.b|
    ensures Takes(w, target, f, part, e1) <==> f.a[e1] == NOBODY || MaySteal(target, f.b[part], f.b[f.a[e1]], w[e1])
  {
  }

  function Given(w: seq<real>, f: Field, part: int, e1: int): Field
    requires 0 <= e1 < |w| == |f.a| && 0 <= part < |f.b| && NOBODY <= f.a[e1] < |f.b|
  {
    var q := f.a[e1];
    var b := if q == NOBODY then f.b else f.b[q := f.b[q] - w[e1]];
    Field(f.a[e1 := part], b[part := b[part] + w[e1]])
  }

  datatype Sweep = Sweep(f: Field, next: set<int>, changed: bool, foreign: bool)

  /** One edge next to the blob of `part`. */
  ghost function Seen(w: seq<real>, target: real, part: int, e1: int, s: Sweep): Sweep
    requires 0 <= e1 < |w| == |s.f.a| && 0 <= part < |s.f.b| && NOBODY <= s.f.a[e1] < |s.f.b|
  {
    if s.f.a[e1] == part then s
    else if Takes(w, target, s.f, part, e1) then Sweep(Given(w, s.f, part, e1), s.next + {e1}, true, s.foreign)
    else s.(foreign := s.foreign || s.f.b[part] < target)
  }

  /** The first `i` edges out of `v`. */
  ghost function OutSeen(g: Graph, w: seq<real>, target: real, part: int, v: int, i: int, s: Sweep): (s': Sweep)
    requires FieldOk(g, w, s.f) && 0 <= part < |s.f.b| && 0 <= v < g.n && 0 <= i <= |g.out[v]|
    ensures FieldOk(g, w, s'.f) && |s'.f.b| == |s.f.b|
  {
    if i == 0 then s else Seen(w, target, part, OutEdge(g, v, i - 1), OutSeen(g, w, target, part, v, i - 1, s))
  }

  /** Both ends of the frontier edge `e`. */
  ghost function EdgeSeen(g: Graph, w: seq<real>, target: real, e: int, f: Field, next: set<int>): (s': Sweep)
    requires FieldOk(g, w, f) && 0 <= e < E(g) && f.a[e] != NOBODY
    ensures FieldOk(g, w, s'.f) && |s'.f.b| == |f.b|
  {
    assert EdgeOk(g, e);
    var part, u, v := f.a[e], g.src[e], g.tgt[e];
    var s1 := OutSeen(g, w, target, part, u, |g.out[u]|, Sweep(f, next, false, false));
    var next1 := if s1.foreign then s1.next + {e} else s1.next;
    var s2 := OutSeen(g, w, target, part, v, |g.out[v]|, Sweep(s1.f, next1, s1.changed, false));
    Sweep(s2.f, if s2.foreign then s2.next + {e} else s2.next, s2.changed, false)
  }

  /** The frontier edges of `order`, one after the other. */
  ghost function PassSeen(g: Graph, w: seq<real>, target: real, order: seq<int>, f: Field): (s': Sweep)
    requires FieldOk(g, w, f)
    ensures FieldOk(g, w, s'.f) && |s'.f.b| == |f.b|
  {
    if order == [] then Sweep(f, {}, false, false) else
      var s, e := PassSeen(g, w, target, order[..|order| - 1], f), order[|order| - 1];
      if 0 <= e < E(g) && s.f.a[e] != NOBODY then
        var s2 := EdgeSeen(g, w, target, e, s.f, s.next);
        s2.(changed := s.changed || s2.changed)
      else s
  }

  // ---------------------------------------------------------------- the loops

  /** One edge next to the blob of `part`: taken, stolen or left. */
  method Consider(g: Graph, w: seq<real>, parts: int, target: real, a: array<int>, b: array<real>, part: int, e1: int, taken0: int)
    returns (took: bool, foreign: bool, taken: int)
    requires InputOk(g, w, parts) && a.Length == E(g) && Books(w, parts, a[..], b[..], taken0)
    requires 0 <= part < parts && 0 <= e1 < E(g)
    modifies a, b
    ensures Books(w, parts, a[..], b[..], taken) && a[e1] != NOBODY
    ensures if took then a[..] == old(a[..])[e1 := part] && (Positive(w) ==> Better(w, parts, a[..], old(a[..]))) else a[..] == old(a[..])
    ensures took <==> old(a[e1]) != part && Takes(w, target, Field(old(a[..]), old(b[..])), part, e1)
    ensures Field(a[..], b[..]) == if took then Given(w, Field(old(a[..]), old(b[..])), part, e1) else Field(old(a[..]), old(b[..]))
    ensures foreign <==> old(a[e1]) != part && !took && old(b[part]) < target
  {
    hide Better, Assigned, Load;
    ghost var a0, b0 := a[..], b[..];
    took, foreign, taken := false, false, taken0;
    if a[e1] == part {
      return;
    }
    if a[e1] == NOBODY {
      TakeImproves(w, parts, a0, e1, part);
      taken := taken + 1;
      b[part] := b[part] + w[e1];
      a[e1] := part;
      took := true;
    } else if b[a[e1]] > target && (b[part] + w[e1] <= target || b[a[e1]] - w[e1] >= b[part] + w[e1]) {
      StealMoves(w, parts, a0, e1, part);
      if Positive(w) {
        StealImproves(w, parts, a0, e1, part, target);
      }
      b[a[e1]] := b[a[e1]] - w[e1];
      b[part] := b[part] + w[e1];
      a[e1] := part;
      took := true;
    } else {
      foreign := b[part] < target;
    }
  }

  lemma BooksField(g: Graph, w: seq<real>, parts: int, a: seq<int>, b: seq<real>, taken: int)
    requires InputOk(g, w, parts) && |a| == E(g) && Books(w, parts, a, b, taken)
    ensures FieldOk(g, w, Field(a, b)) && |b| == parts
  {
  }

  /** The edges that leave one end of a frontier edge. */
  method ScanEnd(g: Graph, w: seq<real>, parts: int, target: real, a: array<int>, b: array<real>, part: int, v: int, next0: set<int>, taken0: int)
    returns (next: set<int>, changed: bool, foreign: bool, taken: int)
    requires InputOk(g, w, parts) && a.Length == E(g) && Books(w, parts, a[..], b[..], taken0)
    requires 0 <= part < parts && 0 <= v < g.n && Holds(a[..], next0)
    modifies a, b
    ensures Books(w, parts, a[..], b[..], taken)
    ensures Progress(w, parts, old(a[..]), next0, a[..], next, changed)
    ensures AllOut(g, a[..], v, |g.out[v]|)
    ensures FieldOk(g, w, Field(old(a[..]), old(b[..]))) && b.Length == parts
    ensures forall c :: OutSeen(g, w, target, part, v, |g.out[v]|, Sweep(Field(old(a[..]), old(b[..])), next0, c, false)) == Sweep(Field(a[..], b[..]), next, c || changed, foreign)
  {
    hide Better, Assigned, Load, Books, OutSeen, Takes;
    next, changed, foreign, taken := next0, false, false, taken0;
    ghost var f0 := Field(a[..], b[..]);
    BooksField(g, w, parts, a[..], b[..], taken);
    forall c
      ensures OutSeen(g, w, target, part, v, 0, Sweep(f0, next0, c, false)) == Sweep(f0, next0, c, false)
    {
      NoneSeen(g, w, target, part, v, Sweep(f0, next0, c, false));
    }
    for i := 0 to |g.out[v]|
      invariant Books(w, parts, a[..], b[..], taken)
      invariant Progress(w, parts, old(a[..]), next0, a[..], next, changed)
      invariant AllOut(g, a[..], v, i)
      invariant forall c :: Sweep(Field(a[..], b[..]), next, c || changed, foreign) == OutSeen(g, w, target, part, v, i, Sweep(f0, next0, c, false))
    {
      ghost var a1, next1, s1 := a[..], next, Sweep(Field(a[..], b[..]), next, changed, foreign);
      BooksField(g, w, parts, a[..], b[..], taken);
      var e1 := OutEdge(g, v, i);
      var took, isForeign;
      took, isForeign, taken := Consider(g, w, parts, target, a, b, part, e1, taken);
      if took {
        next := next + {e1};
      }
      foreign := foreign || isForeign;
      assert Progress(w, parts, a1, next1, a[..], next, took);
      ProgressTrans(w, parts, old(a[..]), next0, a1, next1, changed, a[..], next, took);
      changed := changed || took;
      forall c
        ensures Sweep(Field(a[..], b[..]), next, c || changed, foreign) == OutSeen(g, w, target, part, v, i + 1, Sweep(f0, next0, c, false))
      {
        OneSeen(g, w, target, part, v, i, Sweep(f0, next0, c, false));
      }
    }
  }

  lemma NoneSeen(g: Graph, w: seq<real>, target: real, part: int, v: int, s: Sweep)
    requires FieldOk(g, w, s.f) && 0 <= part < |s.f.b| && 0 <= v < g.n
    ensures OutSeen(g, w, target, part, v, 0, s) == s
  {
  }

  lemma OneSeen(g: Graph, w: seq<real>, target: real, part: int, v: int, i: int, s: Sweep)
    requires FieldOk(g, w, s.f) && 0 <= part < |s.f.b| && 0 <= v < g.n && 0 <= i < |g.out[v]|
    ensures var s1 := OutSeen(g, w, target, part, v, i, s);
      OutSeen(g, w, target, part, v, i + 1, s) == Seen(w, target, part, OutEdge(g, v, i), s1)
  {
  }

  /** Both ends of one frontier edge. */
  method ScanEdge(g: Graph, w: seq<real>, parts: int, target: real, a: array<int>, b: array<real>, e: int, next0: set<int>, taken0: int)
    returns (next: set<int>, changed: bool, taken: int)
    requires InputOk(g, w, parts) && a.Length == E(g) && Books(w, parts, a[..], b[..], taken0)
    requires 0 <= e < E(g) && a[e] != NOBODY && Holds(a[..], next0)
    modifies a, b
    ensures Books(w, parts, a[..], b[..], taken)
    ensures Progress(w, parts, old(a[..]), next0, a[..], next, changed)
    ensures Closed(g, a[..], e)
    ensures FieldOk(g, w, Field(old(a[..]), old(b[..])))
    ensures Sweep(Field(a[..], b[..]), next, changed, false) == EdgeSeen(g, w, target, e, Field(old(a[..]), old(b[..])), next0)
  {
    hide Better, Assigned, Load, OutSeen;
    BooksField(g, w, parts, a[..], b[..], taken0);
    var part := a[e];
    assert EdgeOk(g, e);
    var foreign, changed1;
    next, changed, foreign, taken := ScanEnd(g, w, parts, target, a, b, part, g.src[e], next0, taken0);
    if foreign {
      next := next + {e};
    }
    ghost var a1, next1 := a[..], next;
    next, changed1, foreign, taken := ScanEnd(g, w, parts, target, a, b, part, g.tgt[e], next, taken);
    if foreign {
      next := next + {e};
    }
    ProgressTrans(w, parts, old(a[..]), next0, a1, next1, changed, a[..], next, changed1);
    changed := changed || changed1;
  }

  lemma {:induction false} PendingStep(g: Graph, w: seq<real>, parts: int, a: seq<int>, rest: set<int>, next: set<int>, c: bool,
                                       e: int, a': seq<int>, next': set<int>, c': bool)
    requires GraphOk(g) && |a| == E(g) && e in rest && 0 <= e < E(g) && Pending(g, a, rest, next, c)
    requires Progress(w, parts, a, next, a', next', c') && Closed(g, a', e)
    ensures Pending(g, a', rest - {e}, next', c || c')
  {
    forall f | 0 <= f < E(g) && a'[f] != NOBODY
      ensures f in rest - {e} || ((c || c') && f in next') || Closed(g, a', f)
    {
      if a[f] != NOBODY && f != e && Closed(g, a, f) {
        assert Closed(g, a', f);
      }
    }
  }

  lemma NothingPassed(g: Graph, w: seq<real>, target: real, f: Field)
    requires FieldOk(g, w, f)
    ensures PassSeen(g, w, target, [], f) == Sweep(f, {}, false, false)
    ensures Distinct<int>([]) && Elements<int>([]) == {}
  {
  }

  lemma OnePassed(g: Graph, w: seq<real>, target: real, order: seq<int>, e: int, f: Field)
    requires FieldOk(g, w, f) && 0 <= e < E(g)
    ensures var s := PassSeen(g, w, target, order, f); FieldOk(g, w, s.f) && |s.f.a| == E(g)
    ensures var s := PassSeen(g, w, target, order, f);
      s.f.a[e] != NOBODY ==>
        var s2 := EdgeSeen(g, w, target, e, s.f, s.next);
        PassSeen(g, w, target, order + [e], f) == s2.(changed := s.changed || s2.changed)
  {
    hide EdgeSeen;
    assert (order + [e])[..|order + [e]| - 1] == order;
  }

  /** One pass over the frontier, in some order. */
  method Pass(g: Graph, w: seq<real>, parts: int, target: real, a: array<int>, b: array<real>, frontier: set<int>, taken0: int)
    returns (next: set<int>, changed: bool, taken: int, ghost order: seq<int>)
    requires InputOk(g, w, parts) && a.Length == E(g) && Books(w, parts, a[..], b[..], taken0)
    requires Holds(a[..], frontier) && Pending(g, a[..], frontier, {}, false)
    modifies a, b
    ensures Books(w, parts, a[..], b[..], taken)
    ensures Progress(w, parts, old(a[..]), {}, a[..], next, changed) && Pending(g, a[..], {}, next, changed)
    ensures Distinct(order) && Elements(order) == frontier && FieldOk(g, w, Field(old(a[..]), old(b[..])))
    ensures Sweep(Field(a[..], b[..]), next, changed, false) == PassSeen(g, w, target, order, Field(old(a[..]), old(b[..])))
  {
    hide Better, Assigned, Load, Closed, EdgeSeen, Books, FieldOk, PassSeen, Distinct;
    BooksField(g, w, parts, a[..], b[..], taken0);
    ghost var f0 := Field(a[..], b[..]);
    next, changed, taken, order := {}, false, taken0, [];
    NothingPassed(g, w, target, f0);
    var rest := frontier;
    while rest != {}
      invariant rest <= frontier && Books(w, parts, a[..], b[..], taken)
      invariant Progress(w, parts, old(a[..]), {}, a[..], next, changed)
      invariant Pending(g, a[..], rest, next, changed)
      invariant Distinct(order) && Elements(order) == frontier - rest
      invariant Sweep(Field(a[..], b[..]), next, changed, false) == PassSeen(g, w, target, order, f0)
      decreases |rest|
    {
      ghost var a1, next1 := a[..], next;
      var e := Pick(rest);
      var changed1;
      next, changed1, taken := ScanEdge(g, w, parts, target, a, b, e, next, taken);
      PendingStep(g, w, parts, a1, rest, next1, changed, e, a[..], next, changed1);
      ProgressTrans(w, parts, old(a[..]), {}, a1, next1, changed, a[..], next, changed1);
      changed := changed || changed1;
      MoveOver(frontier, rest, e);
      rest := rest - {e};
      ElementsAppend(order, e);
      DistinctAppend(order, e);
      OnePassed(g, w, target, order, e, f0);
      order := order + [e];
    }
  }

  // ---------------------------------------------------------------- connected graphs end up assigned

  ghost predicate Crosses(g: Graph, s: set<int>, e: int)
    requires GraphOk(g) && 0 <= e < E(g)
  {
    (g.src[e] in s) != (g.tgt[e] in s)
  }

  ghost predicate CrossedBySome(g: Graph, s: set<int>)
    requires GraphOk(g)
  {
    exists e :: 0 <= e < E(g) && Crosses(g, s, e)
  }

  /** Some edge crosses every proper cut. */
  ghost predicate Connected(g: Graph)
    requires GraphOk(g)
  {
    forall s: set<int> :: s != {} && s < Range(0, g.n) ==> CrossedBySome(g, s)
  }

  ghost function Surrounded(g: Graph, a: seq<int>): set<int>
    requires GraphOk(g) && |a| == E(g)
  {
    set v | v in Range(0, g.n) && AllOut(g, a, v, |g.out[v]|)
  }

  lemma {:induction false} EveryoneReached(g: Graph, a: seq<int>, seed: int)
    requires GraphOk(g) && |a| == E(g) && Mirrored(g) && Connected(g)
    requires 0 <= seed < E(g) && a[seed] != NOBODY
    requires forall e :: 0 <= e < E(g) && a[e] != NOBODY ==> Closed(g, a, e)
    ensures forall e :: 0 <= e < E(g) ==> a[e] != NOBODY
  {
    var s := Surrounded(g, a);
    assert EdgeOk(g, seed) && g.src[seed] in s;
    forall e | 0 <= e < E(g) && g.src[e] in s
      ensures g.tgt[e] in s && a[e] != NOBODY
    {
      SurroundedEdge(g, a, e);
      assert EdgeOk(g, e) && Closed(g, a, e);
    }
    forall e | 0 <= e < E(g) && g.tgt[e] in s
      ensures g.src[e] in s
    {
      assert HasMirror(g, e);
      var f :| MirrorOf(g, e, f);
    }
    assert !CrossedBySome(g, s);
    assert s == Range(0, g.n);
    forall e | 0 <= e < E(g)
      ensures a[e] != NOBODY
    {
      assert EdgeOk(g, e);
    }
  }

  lemma SurroundedEdge(g: Graph, a: seq<int>, e: int)
    requires GraphOk(g) && |a| == E(g) && 0 <= e < E(g) && g.src[e] in Surrounded(g, a)
    ensures a[e] != NOBODY
  {
    assert EdgeOk(g, e);
    var i :| 0 <= i < |g.out[g.src[e]]| && g.out[g.src[e]][i] == e;
    assert OutEdge(g, g.src[e], i) == e;
  }

  // ---------------------------------------------------------------- the whole assignment

  method Random(n: int) returns (r: int)
    requires n > 0
    ensures 0 <= r < n
  {
    r :| 0 <= r < n;
  }

  /** The edges left to choose seeds from. */
  ghost predicate Choices(a: seq<int>, edges: seq<int>) {
    Distinct(edges) && forall i :: 0 <= i < |edges| ==> 0 <= edges[i] < |a| && a[edges[i]] == NOBODY
  }

  lemma {:induction false} NothingAssigned(w: seq<real>, a: seq<int>, p: int, k: int)
    requires |a| == |w| && 0 <= k <= |a| && p != NOBODY && forall e :: 0 <= e < |a| ==> a[e] == NOBODY
    ensures Load(w, a, p, k) == 0.0 && Assigned(a, k) == 0
  {
    if k > 0 {
      NothingAssigned(w, a, p, k - 1);
    }
  }

  lemma ChoiceTaken(a: seq<int>, edges: seq<int>, r: int, p: int)
    requires Choices(a, edges) && 0 <= r < |edges| && p != NOBODY
    ensures Choices(a[edges[r] := p], edges[..r] + edges[r + 1..])
  {
  }

  /** Every part below `k` has exactly one edge, and nobody else has any. */
  ghost predicate OneEach(a: seq<int>, k: int) {
    && (forall p :: 0 <= p < k ==> p in a)
    && (forall d, e :: 0 <= d < e < |a| && a[d] == a[e] ==> a[d] == NOBODY)
    && forall e :: 0 <= e < |a| ==> NOBODY <= a[e] < k
  }

  lemma OneMore(a: seq<int>, k: int, e: int)
    requires OneEach(a, k) && 0 <= k && 0 <= e < |a| && a[e] == NOBODY
    ensures OneEach(a[e := k], k + 1)
  {
    var a' := a[e := k];
    forall p | 0 <= p < k + 1
      ensures p in a'
    {
      if p == k {
        assert a'[e] == p;
      } else {
        assert p in a;
        var d :| 0 <= d < |a| && a[d] == p;
        assert a'[d] == p;
      }
    }
  }

  // ---------------------------------------------------------------- the run of the loop

  /** Between two passes. */
  datatype Stage = Stage(f: Field, frontier: set<int>)

  /** One different edge for each part, all of them in the frontier; blob sizes are what those edges weigh. */
  ghost predicate Sown(g: Graph, w: seq<real>, parts: int, s: Stage) {
    && |w| == |s.f.a| == E(g) && parts >= 0 && OneEach(s.f.a, parts) && s.f.b == Loads(w, s.f.a, parts)
    && forall e :: e in s.frontier <==> 0 <= e < E(g) && s.f.a[e] != NOBODY
  }

  /** A pass over the frontier, in some order, that changed something or not. */
  ghost predicate Passed(g: Graph, w: seq<real>, target: real, s: Stage, s': Stage, changed: bool) {
    && FieldOk(g, w, s.f)
    && exists order :: Distinct(order) && Elements(order) == s.frontier
         && PassSeen(g, w, target, order, s.f) == Sweep(s'.f, s'.frontier, changed, false)
  }

  /** Pass after pass, each over the frontier that the one before left, and each but the last changes something. */
  ghost predicate Passes(g: Graph, w: seq<real>, parts: int, target: real, run: seq<Stage>, changed: bool) {
    && |run| > 0 && Sown(g, w, parts, run[0])
    && forall i, j :: 0 <= i && j == i + 1 && j < |run| ==> Passed(g, w, target, run[i], run[j], j < |run| - 1 || changed)
  }

  lemma PassesGrow(g: Graph, w: seq<real>, parts: int, target: real, run: seq<Stage>, s: Stage, changed: bool)
    requires Passes(g, w, parts, target, run, true) && Passed(g, w, target, run[|run| - 1], s, changed)
    ensures Passes(g, w, parts, target, run + [s], changed)
  {
    hide Passed, Sown;
    var run' := run + [s];
    forall i, j | 0 <= i && j == i + 1 && j < |run'|
      ensures Passed(g, w, target, run'[i], run'[j], j < |run'| - 1 || changed)
    {
      if j < |run| {
        assert Passed(g, w, target, run[i], run[j], true);
      }
    }
  }

  /** One edge chosen at random for every part. */
  method Seed(g: Graph, w: seq<real>, parts: int, a: array<int>, b: array<real>) returns (frontier: set<int>)
    requires InputOk(g, w, parts) && a.Length == E(g) && b.Length == parts
    requires forall e :: 0 <= e < a.Length ==> a[e] == NOBODY
    requires forall p :: 0 <= p < parts ==> b[p] == 0.0
    modifies a, b
    ensures Books(w, parts, a[..], b[..], 0)
    ensures forall e :: e in frontier <==> 0 <= e < E(g) && a[e] != NOBODY
    ensures frontier != {} && OneEach(a[..], parts)
  {
    hide Better, Assigned, Load;
    var edges := seq(E(g), e => e);
    frontier := {};
    StartingBooks(w, parts, a[..], b[..]);
    for part := 0 to parts
      invariant |a[..]| == |w| && InParts(a[..], parts) && b[..] == Loads(w, a[..], parts) && Assigned(a[..], |a[..]|) == part
      invariant Choices(a[..], edges) && |edges| == E(g) - part
      invariant forall e :: e in frontier <==> 0 <= e < E(g) && a[e] != NOBODY
      invariant (part > 0 ==> frontier != {}) && OneEach(a[..], part)
    {
      var r := Random(|edges|);
      var e := edges[r];
      TakeImproves(w, parts, a[..], e, part);
      ChoiceTaken(a[..], edges, r, part);
      OneMore(a[..], part, e);
      ghost var a0, b0 := a[..], b[..];
      b[part] := b[part] + w[e];
      a[e] := part;
      assert a[..] == a0[e := part] && b[..] == b0[part := b0[part] + w[e]];
      frontier := frontier + {e};
      edges := edges[..r] + edges[r + 1..];
    }
  }

  lemma StartingBooks(w: seq<real>, parts: int, a: seq<int>, b: seq<real>)
    requires parts > 0 && |a| == |w| && |b| == parts && forall e :: 0 <= e < |a| ==> a[e] == NOBODY
    requires forall p :: 0 <= p < parts ==> b[p] == 0.0
    ensures b == Loads(w, a, parts) && Assigned(a, |a|) == 0
  {
    NothingAssigned(w, a, 0, |a|);
    forall p | 0 <= p < parts
      ensures b[p] == Loads(w, a, parts)[p]
    {
      NothingAssigned(w, a, p, |a|);
    }
  }

  ghost function Total(w: seq<real>, k: int): real
    requires 0 <= k <= |w|
  {
    if k == 0 then 0.0 else Total(w, k - 1) + w[k - 1]
  }

  method TargetSize(w: seq<real>, parts: int) returns (target: real)
    requires parts > 0
    ensures target == if Total(w, |w|) / parts as real == 0.0 then 1.0 else Total(w, |w|) / parts as real
  {
    target := 0.0;
    for e := 0 to |w|
      invariant target == Total(w, e)
    {
      target := target + w[e];
    }
    target := target / parts as real;
    target := if target == 0.0 then 1.0 else target;
  }

  method Extremes(b: array<real>) returns (minp: real, maxp: real)
    requires b.Length > 0
    ensures minp in b[..] && maxp in b[..] && forall p :: 0 <= p < b.Length ==> minp <= b[p] <= maxp
  {
    minp, maxp := b[0], b[0];
    for p := 0 to b.Length
      invariant minp in b[..] && maxp in b[..] && forall q :: 0 <= q < p ==> minp <= b[q] <= maxp
    {
      minp := if b[p] < minp then b[p] else minp;
      maxp := if b[p] > maxp then b[p] else maxp;
    }
  }

  lemma RunBegins(g: Graph, w: seq<real>, parts: int, target: real, s: Stage)
    requires Sown(g, w, parts, s)
    ensures Passes(g, w, parts, target, [s], true)
  {
  }

  lemma PassIs(g: Graph, w: seq<real>, target: real, s: Stage, order: seq<int>, s': Stage, changed: bool)
    requires FieldOk(g, w, s.f) && Distinct(order) && Elements(order) == s.frontier
    requires PassSeen(g, w, target, order, s.f) == Sweep(s'.f, s'.frontier, changed, false)
    ensures Passed(g, w, target, s, s', changed)
  {
  }

  /**
   * Grows blobs from one edge for each part, towards the average size, until a pass changes nothing: `run`
   * is what it goes through. It ends; the blob sizes are those of the assignment; and in a connected
   * graph whose links all go both ways no edge is left over.
   */
  method Assign(g: Graph, w: seq<real>, parts: int) returns (a: array<int>, b: array<real>, ghost run: seq<Stage>)
    requires InputOk(g, w, parts) && Positive(w)
    ensures a.Length == E(g) && b[..] == Loads(w, a[..], parts) && InParts(a[..], parts)
    ensures var average := Total(w, |w|) / parts as real;
      Passes(g, w, parts, if average == 0.0 then 1.0 else average, run, false)
    ensures |run| > 1 && run[|run| - 1].f == Field(a[..], b[..])
    ensures Mirrored(g) && Connected(g) ==> forall e :: 0 <= e < E(g) ==> 0 <= a[e] < parts
  {
    hide Better, Assigned, Load, Closed, Connected, Mirrored, Ahead, Total, Passes, Sown, Passed;
    a := new int[E(g)](_ => NOBODY);
    b := new real[parts](_ => 0.0);
    var target := TargetSize(w, parts);
    var frontier := Seed(g, w, parts, a, b);
    var changed, taken := true, 0;
    ghost var seed := Pick(frontier);
    run := [Stage(Field(a[..], b[..]), frontier)];
    RunBegins(g, w, parts, target, run[0]);
    while changed
      invariant Books(w, parts, a[..], b[..], taken) && a[seed] != NOBODY && 0 <= seed < E(g)
      invariant Holds(a[..], frontier) && Pending(g, a[..], frontier, {}, false)
      invariant !changed ==> Pending(g, a[..], {}, {}, false)
      invariant |run| > 0 && (!changed ==> |run| > 1)
      invariant Passes(g, w, parts, target, run, changed) && run[|run| - 1] == Stage(Field(a[..], b[..]), frontier)
      decreases |Ahead(w, parts, a[..])|, if changed then 1 else 0
    {
      ghost var a0 := a[..];
      ghost var order;
      frontier, changed, taken, order := Pass(g, w, parts, target, a, b, frontier, taken);
      if changed {
        BetterIsCloser(w, parts, a[..], a0);
      }
      PassIs(g, w, target, run[|run| - 1], order, Stage(Field(a[..], b[..]), frontier), changed);
      PassesGrow(g, w, parts, target, run, Stage(Field(a[..], b[..]), frontier), changed);
      run := run + [Stage(Field(a[..], b[..]), frontier)];
      var minp, maxp := Extremes(b);
      var even := (maxp - minp) / target < 0.03 * target;
      SeedsUncounted(w, parts, a[..], b[..], taken);
      if taken == E(g) && even {
        break;
      }
    }
    if Mirrored(g) && Connected(g) {
      EveryoneReached(g, a[..], seed);
    }
  }
}
