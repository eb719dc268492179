// Why kcluster needs positive weights: a graph with edges that weigh nothing, on which its loop
// (blob_assignment::assign, tools/assignment/assignment.cpp:403-442) goes on for ever.
module Chases {
  import opened Finite
  import opened Digraphs
  import opened Blobs

  /**
   * Edges 0 to 3 form a ring 0 -> 1 -> 2 -> 3 -> 0 and weigh nothing; edges 4 and 5, of weight 2, lead
   * into it at the vertices 0 and 2; edge 6 lies apart and weighs nothing.
   */
  function Ring(): Graph {
    Graph(8, [0, 1, 2, 3, 4, 5, 6], [1, 2, 3, 0, 0, 2, 7], [[0], [1], [2], [3], [4], [5], [6], []])
  }

  function Weights(): (w: seq<real>)
    ensures |w| == 7
  {
    [0.0, 0.0, 0.0, 0.0, 2.0, 2.0, 0.0]
  }

  const TARGET: real := 4.0 / 3.0

  lemma RingOk()
    ensures GraphOk(Ring()) && E(Ring()) == 7
  {
    var g := Ring();
    forall e | 0 <= e < |g.src|
      ensures EdgeOk(g, e)
    {
      assert g.out[e][0] == e;
    }
    forall v, i | 0 <= v < g.n && 0 <= i < |g.out[v]|
      ensures OutOk(g, v, i)
    {
    }
  }

  /** Who has the ring; the heavy edges stay with parts 0 and 1, the one apart with part 2. */
  function Held(ring: seq<int>): (f: Field)
    requires |ring| == 4
    ensures |f.a| == 7 && |f.b| == 3
  {
    Field(ring + [0, 1, 2], [2.0, 2.0, 0.0])
  }

  lemma HeldOk(ring: seq<int>)
    requires |ring| == 4 && InParts(ring, 3)
    ensures FieldOk(Ring(), Weights(), Held(ring))
  {
    RingOk();
  }

  /** A frontier edge of the ring takes the next edge, whether that is free or held by the other blob. */
  lemma {:induction false} TakesNext(ring: seq<int>, e: int, next: set<int>)
    requires |ring| == 4 && InParts(ring, 2) && 0 <= e < 4 && ring[e] in {0, 1} && ring[(e + 1) % 4] != ring[e]
    ensures FieldOk(Ring(), Weights(), Held(ring))
    ensures EdgeSeen(Ring(), Weights(), TARGET, e, Held(ring), next) ==
      Sweep(Held(ring[(e + 1) % 4 := ring[e]]), next + {(e + 1) % 4}, true, false)
  {
    HeldOk(ring);
    var g, f, part, after := Ring(), Held(ring), ring[e], (e + 1) % 4;
    assert g.out[e] == [e] && g.out[after] == [after] && g.src[e] == e && g.tgt[e] == after;
    assert f.a[e] == part && f.a[after] == ring[after];
    var s := Sweep(f, next, false, false);
    NoneSeen(g, Weights(), TARGET, part, e, s);
    OneSeen(g, Weights(), TARGET, part, e, 0, s);
    NoneSeen(g, Weights(), TARGET, part, after, s);
    OneSeen(g, Weights(), TARGET, part, after, 0, s);
    assert Given(Weights(), f, part, after) == Held(ring[after := part]);
  }

  /** The edges that lead into the ring take its edges 0 and 2; the one apart takes nothing. */
  lemma {:induction false} TakesFirst(ring: seq<int>, e: int, next: set<int>)
    requires |ring| == 4 && InParts(ring, 2) && e in {4, 5} && ring[2 * (e - 4)] == NOBODY
    ensures FieldOk(Ring(), Weights(), Held(ring))
    ensures EdgeSeen(Ring(), Weights(), TARGET, e, Held(ring), next) ==
      Sweep(Held(ring[2 * (e - 4) := e - 4]), next + {2 * (e - 4)}, true, false)
  {
    HeldOk(ring);
    var g, f, part, after := Ring(), Held(ring), e - 4, 2 * (e - 4);
    assert g.out[e] == [e] && g.out[after] == [after] && g.src[e] == e && g.tgt[e] == after;
    var s := Sweep(f, next, false, false);
    NoneSeen(g, Weights(), TARGET, part, e, s);
    OneSeen(g, Weights(), TARGET, part, e, 0, s);
    NoneSeen(g, Weights(), TARGET, part, after, s);
    OneSeen(g, Weights(), TARGET, part, after, 0, s);
    assert Given(Weights(), f, part, after) == Held(ring[after := part]);
  }

  lemma {:induction false} TakesNothing(ring: seq<int>, next: set<int>)
    requires |ring| == 4 && InParts(ring, 2)
    ensures FieldOk(Ring(), Weights(), Held(ring))
    ensures EdgeSeen(Ring(), Weights(), TARGET, 6, Held(ring), next) == Sweep(Held(ring), next, false, false)
  {
    HeldOk(ring);
    var g, f := Ring(), Held(ring);
    assert g.out[6] == [6] && g.out[7] == [] && g.src[6] == 6 && g.tgt[6] == 7;
    var s := Sweep(f, next, false, false);
    NoneSeen(g, Weights(), TARGET, 2, 6, s);
    OneSeen(g, Weights(), TARGET, 2, 6, 0, s);
    NoneSeen(g, Weights(), TARGET, 2, 7, s);
  }

  /** One pass with the frontier in this order, and it changed something. */
  ghost predicate Round(f: Field, order: seq<int>, f': Field, frontier': set<int>) {
    && FieldOk(Ring(), Weights(), f) && Distinct(order)
    && PassSeen(Ring(), Weights(), TARGET, order, f) == Sweep(f', frontier', true, false)
  }

  lemma PassTwo(g: Graph, w: seq<real>, target: real, f: Field, e1: int, e2: int, s1: Sweep, s2: Sweep)
    requires FieldOk(g, w, f) && 0 <= e1 < E(g) && 0 <= e2 < E(g) && f.a[e1] != NOBODY && EdgeSeen(g, w, target, e1, f, {}) == s1
    requires s1.f.a[e2] != NOBODY && EdgeSeen(g, w, target, e2, s1.f, s1.next) == s2
    ensures PassSeen(g, w, target, [e1, e2], f) == s2.(changed := s1.changed || s2.changed)
  {
    hide EdgeSeen, FieldOk, PassSeen;
    NothingPassed(g, w, target, f);
    OnePassed(g, w, target, [], e1, f);
    OnePassed(g, w, target, [e1], e2, f);
    assert [] + [e1] == [e1] && [e1] + [e2] == [e1, e2];
  }

  lemma PassThree(g: Graph, w: seq<real>, target: real, f: Field, e1: int, e2: int, e3: int, s1: Sweep, s2: Sweep, s3: Sweep)
    requires FieldOk(g, w, f) && 0 <= e1 < E(g) && 0 <= e2 < E(g) && f.a[e1] != NOBODY && EdgeSeen(g, w, target, e1, f, {}) == s1
    requires s1.f.a[e2] != NOBODY && EdgeSeen(g, w, target, e2, s1.f, s1.next) == s2
    requires 0 <= e3 < E(g) && s2.f.a[e3] != NOBODY && EdgeSeen(g, w, target, e3, s2.f, s2.next) == s3
    ensures PassSeen(g, w, target, [e1, e2, e3], f) == s3.(changed := s1.changed || s2.changed || s3.changed)
  {
    hide EdgeSeen, FieldOk, PassSeen;
    PassTwo(g, w, target, f, e1, e2, s1, s2);
    OnePassed(g, w, target, [e1, e2], e3, f);
    assert [e1, e2] + [e3] == [e1, e2, e3];
  }

  /** Two fronts, each a step further: `ring1` after the first, `ring2` after both. */
  lemma {:induction false} Chase(ring: seq<int>, e1: int, e2: int, n1: int, n2: int, ring1: seq<int>, ring2: seq<int>)
    requires |ring| == |ring1| == 4 && InParts(ring, 2) && InParts(ring1, 2) && 0 <= e1 < 4 && 0 <= e2 < 4
    requires e1 != e2 && n1 == (e1 + 1) % 4 && n2 == (e2 + 1) % 4
    requires ring[e1] in {0, 1} && ring[n1] != ring[e1] && ring1 == ring[n1 := ring[e1]]
    requires ring1[e2] in {0, 1} && ring1[n2] != ring1[e2] && ring2 == ring1[n2 := ring1[e2]]
    ensures Round(Held(ring), [e1, e2], Held(ring2), {n1, n2})
  {
    HeldOk(ring);
    HeldOk(ring1);
    RingOk();
    hide EdgeSeen, Ring, FieldOk, Weights, Round;
    TakesNext(ring, e1, {});
    TakesNext(ring1, e2, {n1});
    HeldAt(ring, e1);
    HeldAt(ring1, e2);
    RoundOfTwo(Held(ring), e1, e2, Sweep(Held(ring1), {n1}, true, false), Sweep(Held(ring2), {n1, n2}, true, false));
  }

  lemma RoundOfTwo(f: Field, e1: int, e2: int, s1: Sweep, s2: Sweep)
    requires FieldOk(Ring(), Weights(), f) && FieldOk(Ring(), Weights(), s1.f) && 0 <= e1 < E(Ring()) && 0 <= e2 < E(Ring()) && e1 != e2
    requires f.a[e1] != NOBODY && EdgeSeen(Ring(), Weights(), TARGET, e1, f, {}) == s1 && s1.changed
    requires s1.f.a[e2] != NOBODY && EdgeSeen(Ring(), Weights(), TARGET, e2, s1.f, s1.next) == s2 && s2.changed && !s2.foreign
    ensures Round(f, [e1, e2], s2.f, s2.next)
  {
    hide EdgeSeen, Ring, FieldOk, PassSeen, Weights;
    PassTwo(Ring(), Weights(), TARGET, f, e1, e2, s1, s2);
  }

  lemma RoundOfThree(f: Field, e1: int, e2: int, e3: int, s1: Sweep, s2: Sweep, s3: Sweep)
    requires FieldOk(Ring(), Weights(), f) && FieldOk(Ring(), Weights(), s1.f) && FieldOk(Ring(), Weights(), s2.f)
    requires 0 <= e1 < E(Ring()) && 0 <= e2 < E(Ring()) && 0 <= e3 < E(Ring()) && Distinct([e1, e2, e3])
    requires f.a[e1] != NOBODY && EdgeSeen(Ring(), Weights(), TARGET, e1, f, {}) == s1 && s1.changed
    requires s1.f.a[e2] != NOBODY && EdgeSeen(Ring(), Weights(), TARGET, e2, s1.f, s1.next) == s2
    requires s2.f.a[e3] != NOBODY && EdgeSeen(Ring(), Weights(), TARGET, e3, s2.f, s2.next) == s3 && !s3.foreign
    ensures Round(f, [e1, e2, e3], s3.f, s3.next)
  {
    hide EdgeSeen, Ring, FieldOk, PassSeen, Weights;
    PassThree(Ring(), Weights(), TARGET, f, e1, e2, e3, s1, s2, s3);
  }

  lemma HeldAt(ring: seq<int>, e: int)
    requires |ring| == 4 && 0 <= e < 4
    ensures Held(ring).a[e] == ring[e]
  {
  }

  /** From the seeds 4, 5 and 6, of parts 0, 1 and 2. */
  lemma {:induction false} FirstRound()
    ensures Round(Held([NOBODY, NOBODY, NOBODY, NOBODY]), [4, 5, 6], Held([0, NOBODY, 1, NOBODY]), {0, 2})
  {
    hide EdgeSeen, Ring, Held, FieldOk, Weights, Round;
    var free := [NOBODY, NOBODY, NOBODY, NOBODY];
    var ring1, ring2 := [0, NOBODY, NOBODY, NOBODY], [0, NOBODY, 1, NOBODY];
    assert free[0 := 0] == ring1 && ring1[2 := 1] == ring2;
    RingOk();
    HeldOk(free);
    TakesFirst(free, 4, {});
    TakesFirst(ring1, 5, {0});
    TakesNothing(ring2, {0, 2});
    SeedsHeld(free);
    SeedsHeld(ring1);
    SeedsHeld(ring2);
    HeldOk(ring1);
    HeldOk(ring2);
    RoundOfThree(Held(free), 4, 5, 6,
                 Sweep(Held(ring1), {0}, true, false), Sweep(Held(ring2), {0, 2}, true, false), Sweep(Held(ring2), {0, 2}, false, false));
  }

  lemma SeedsHeld(ring: seq<int>)
    requires |ring| == 4
    ensures Held(ring).a[4] == 0 && Held(ring).a[5] == 1 && Held(ring).a[6] == 2
  {
  }

  /** The ring after `n` passes: taken in two passes, then handed round and round. */
  function RingAfter(n: nat): (ring: seq<int>)
    ensures |ring| == 4 && InParts(ring, 2)
  {
    if n == 0 then [NOBODY, NOBODY, NOBODY, NOBODY]
    else if n == 1 then [0, NOBODY, 1, NOBODY]
    else if n % 4 == 2 then [0, 0, 1, 1]
    else if n % 4 == 3 then [1, 0, 0, 1]
    else if n % 4 == 0 then [1, 1, 0, 0]
    else [0, 1, 1, 0]
  }

  /** The frontier before pass `n`, in increasing order. */
  function FrontierOf(n: nat): seq<int> {
    if n == 0 then [4, 5, 6] else if n % 2 == 1 then [0, 2] else [1, 3]
  }

  /** What the frontier before pass `n` + 1 is, as the set that the pass before it leaves. */
  function NextFrontier(n: nat): set<int> {
    if n % 2 == 1 then {1, 3} else {0, 2}
  }

  /** Pass `n`, which changes something and leaves the frontier of the next one. */
  ghost predicate PassAt(n: nat) {
    Round(Held(RingAfter(n)), FrontierOf(n), Held(RingAfter(n + 1)), NextFrontier(n))
  }

  /**
   * The loop never ends: from a choice of seeds on, every pass changes something and leaves the frontier
   * of the next one, and from the third pass on everything repeats.
   */
  lemma {:induction false} GoesOnForEver(n: nat)
    ensures PassAt(n) && Elements(FrontierOf(n + 1)) == NextFrontier(n)
    ensures n >= 2 ==> RingAfter(n + 4) == RingAfter(n) && FrontierOf(n + 4) == FrontierOf(n)
  {
    hide Round, Held, FrontierOf, NextFrontier;
    if n == 0 {
      FirstRound();
      FirstRing();
    } else {
      NextRing(n);
      hide RingAfter;
      var ring, ring', odd := RingAfter(n), RingAfter(n + 1), n % 2 == 1;
      if odd {
        Chase(ring, 0, 2, 1, 3, ring[1 := ring[0]], ring');
      } else {
        Chase(ring, 1, 3, 2, 0, ring[2 := ring[1]], ring');
      }
    }
    FrontierIs(n);
  }

  lemma FrontierIs(n: nat)
    ensures Elements(FrontierOf(n + 1)) == NextFrontier(n)
    ensures n >= 2 ==> RingAfter(n + 4) == RingAfter(n) && FrontierOf(n + 4) == FrontierOf(n)
  {
  }

  lemma FirstRing()
    ensures RingAfter(0) == [NOBODY, NOBODY, NOBODY, NOBODY] && RingAfter(1) == [0, NOBODY, 1, NOBODY]
    ensures FrontierOf(0) == [4, 5, 6] && NextFrontier(0) == {0, 2}
  {
  }

  lemma NextRing(n: nat)
    requires n > 0
    ensures var ring := RingAfter(n);
      if n % 2 == 1 then
        && FrontierOf(n) == [0, 2] && NextFrontier(n) == {1, 3} && RingAfter(n + 1) == ring[1 := ring[0]][3 := ring[2]]
        && ring[0] in {0, 1} && ring[1] != ring[0] && ring[2] in {0, 1} && ring[3] != ring[2]
      else
        && FrontierOf(n) == [1, 3] && NextFrontier(n) == {2, 0} && RingAfter(n + 1) == ring[2 := ring[1]][0 := ring[3]]
        && ring[1] in {0, 1} && ring[2] != ring[1] && ring[3] in {0, 1} && ring[0] != ring[3]
  {
  }

  /** It begins with a choice of seeds, and the target is the average blob size. */
  lemma {:induction false} BeginsWithSeeds()
    ensures InputOk(Ring(), Weights(), 3) && !Positive(Weights())
    ensures var f := Held(RingAfter(0)); Books(Weights(), 3, f.a, f.b, 0) && Elements(FrontierOf(0)) == {4, 5, 6}
    ensures TARGET == Total(Weights(), |Weights()|) / 3.0
  {
    RingOk();
    assert Weights()[0] == 0.0;
    var none, zero := seq(7, _ => NOBODY), [0.0, 0.0, 0.0];
    StartingBooks(Weights(), 3, none, zero);
    var one, two := none[4 := 0], none[4 := 0][5 := 1];
    TakeImproves(Weights(), 3, none, 4, 0);
    assert Loads(Weights(), one, 3) == [2.0, 0.0, 0.0] by {
      assert Loads(Weights(), none, 3)[0] == 0.0;
    }
    TakeImproves(Weights(), 3, one, 5, 1);
    assert Loads(Weights(), two, 3) == [2.0, 2.0, 0.0] by {
      assert Loads(Weights(), one, 3)[1] == 0.0;
    }
    TakeImproves(Weights(), 3, two, 6, 2);
    assert Loads(Weights(), two[6 := 2], 3) == [2.0, 2.0, 0.0] by {
      assert Loads(Weights(), two, 3)[2] == 0.0;
    }
    assert two[6 := 2] == Held(RingAfter(0)).a;
    assert Total(Weights(), 7) == Total(Weights(), 6) + Weights()[6] && Total(Weights(), 6) == Total(Weights(), 5) + Weights()[5];
    assert Total(Weights(), 5) == Total(Weights(), 4) + Weights()[4] && Total(Weights(), 4) == Total(Weights(), 3) + Weights()[3];
    assert Total(Weights(), 3) == Total(Weights(), 2) + Weights()[2] && Total(Weights(), 2) == Total(Weights(), 1) + Weights()[1];
  }
}
