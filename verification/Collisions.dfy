// Where contraction with the shared table leaves its lists (line 162 of
// tools/assignment/metis/ccgraph.c): exactly when, and a graph on which it does.
module Collisions {
  import opened Finite
  import opened Csrs
  import opened Weighted
  import opened Contraction
  import opened CoarseGraph
  import opened BucketSort
  import opened Match
  import opened Coarsen

  /** A neighbour of the pair of `v` lies in another class with the same low bits. */
  ghost predicate SlotShared(g: Graph, match_: seq<int>, cmap: seq<int>, v: int)
    requires Weighted.Shaped(g) && |match_| == |cmap| == N(g) && 0 <= v < N(g) && 0 <= match_[v] < N(g)
  {
    exists k :: PairMeets(g, cmap, v, match_[v], k) && k % (HTLENGTH + 1) == cmap[v] % (HTLENGTH + 1)
  }

  /**
   * The program reads past a list exactly when some pair is not joined by an edge and its slot is
   * taken; both can be read off the matching.
   */
  lemma {:induction false} LeavesExactly(g: Graph, match_: seq<int>, cmap: seq<int>, cn: int)
    requires WellFormed(g) && Weighted.Shaped(g) && ValidMatching(N(g), match_, cmap, cn)
    ensures |match_| == |cmap| == N(g) && forall x :: 0 <= x < N(g) ==> 0 <= match_[x] < N(g)
    ensures StaysInside(g, match_, cmap) <==>
      forall v :: 0 <= v < N(g) && match_[v] != v && match_[v] !in Csrs.Row(g.csr, v) ==> !SlotShared(g, match_, cmap, v)
  {
    MatchingFacts(N(g), match_, cmap, cn);
    forall v | 0 <= v < N(g)
      ensures PairOverreads(g, cmap, v, match_[v], cmap[v], HTLENGTH + 1) <==>
        match_[v] != v && match_[v] !in Csrs.Row(g.csr, v) && SlotShared(g, match_, cmap, v)
    {
      OnePair(g, match_, cmap, cn, v);
    }
  }

  lemma {:induction false} OnePair(g: Graph, match_: seq<int>, cmap: seq<int>, cn: int, v: int)
    requires WellFormed(g) && Weighted.Shaped(g) && ValidMatching(N(g), match_, cmap, cn) && 0 <= v < N(g)
    ensures |match_| == |cmap| == N(g) && 0 <= match_[v] < N(g)
    ensures PairOverreads(g, cmap, v, match_[v], cmap[v], HTLENGTH + 1) <==>
      match_[v] != v && match_[v] !in Csrs.Row(g.csr, v) && SlotShared(g, match_, cmap, v)
  {
    MatchingFacts(N(g), match_, cmap, cn);
    assert ClassOf(match_, cmap, cn, v);
    var u := match_[v];
    JoinedMeets(g, match_, cmap, cn, v);
    JoinedMeets(g, match_, cmap, cn, u);
    if u in Csrs.Row(g.csr, v) {
      RowMutual(g, v, u);
    }
    if v in Csrs.Row(g.csr, u) {
      RowMutual(g, u, v);
    }
    hide WellFormed, ClassOf, ValidMatching, Meets;
    if k :| PairMeets(g, cmap, v, u, k) && k % (HTLENGTH + 1) == cmap[v] % (HTLENGTH + 1) {
      assert Slot(k, HTLENGTH + 1) == Slot(cmap[v], HTLENGTH + 1);
    }
  }

  // ---------------------------------------------------------------- a graph on which it happens

  /** Vertex 0 is an island; the others are joined in pairs, 1 with 2, 3 with 4 and so on. */
  const PAIRS: int := 8 * 2048
  const SIZE: int := 2 * PAIRS + 1

  function Partner(v: int): int {
    if v % 2 == 1 then v + 1 else v - 1
  }

  function Dominoes(): (g: Graph)
    ensures |g.csr.xadj| == SIZE + 1 && |g.csr.adjncy| == |g.adjwgt| == SIZE - 1 && |g.vwgt| == SIZE
    ensures forall v :: 0 <= v <= SIZE ==> g.csr.xadj[v] == if v == 0 then 0 else v - 1
    ensures forall j :: 0 <= j < SIZE - 1 ==> g.csr.adjncy[j] == Partner(j + 1) && g.adjwgt[j] == 1
    ensures forall v :: 0 <= v < SIZE ==> g.vwgt[v] == 1
  {
    Graph(Csr(seq(SIZE + 1, v => if v == 0 then 0 else v - 1), seq(SIZE - 1, j => Partner(j + 1))),
          seq(SIZE - 1, _ => 1), seq(SIZE, _ => 1))
  }

  lemma DominoesShaped()
    ensures var g := Dominoes(); Weighted.Shaped(g) && N(g) == SIZE
    ensures var g := Dominoes(); First(g.csr, 0) == Last(g.csr, 0) == 0
    ensures var g := Dominoes(); forall v :: 0 < v < SIZE ==> First(g.csr, v) == v - 1 && Last(g.csr, v) == v
  {
    var g := Dominoes();
    hide Dominoes;
    forall v | 0 <= v < N(g)
      ensures RowShaped(g.csr, v)
    {
    }
  }

  lemma {:induction false} DominoesWellFormed()
    ensures var g := Dominoes(); WellFormed(g)
  {
    var g := Dominoes();
    DominoesShaped();
    hide Dominoes;
    forall u | 0 <= u < N(g)
      ensures GoodRow(g, u)
    {
      forall j | First(g.csr, u) <= j < Last(g.csr, u)
        ensures GoodEntry(g, u, j)
      {
        assert j == u - 1;
      }
    }
    forall u, v | 0 <= u < N(g) && 0 <= v < N(g)
      ensures SameBothWays(g, u, v)
    {
      DominoDegree(u, v);
      DominoDegree(v, u);
    }
  }

  lemma {:induction false} DominoDegree(u: int, v: int)
    requires 0 <= u < SIZE && 0 <= v < SIZE
    ensures var g := Dominoes(); Weighted.Shaped(g) && N(g) == SIZE && Deg(g, u, {v}) == if u > 0 && Partner(u) == v then 1 else 0
  {
    var g := Dominoes();
    DominoesShaped();
    hide Dominoes;
    if u > 0 {
      assert Into(g, u - 1, u, {v}) == Into(g, u - 1, u - 1, {v}) + if g.csr.adjncy[u - 1] in {v} then g.adjwgt[u - 1] else 0;
    }
  }

  /** The island gets the last vertex, whose partner stays alone; the other pairs are matched. */
  function Matching(): (m: seq<int>)
    ensures |m| == SIZE
    ensures forall v :: 0 <= v < SIZE ==> m[v] == if v == 0 then SIZE - 1 else if v == SIZE - 1 then 0 else if v == SIZE - 2 then v else Partner(v)
  {
    seq(SIZE, v => if v == 0 then SIZE - 1 else if v == SIZE - 1 then 0 else if v == SIZE - 2 then v else Partner(v))
  }

  function Classes(): (c: seq<int>)
    ensures |c| == SIZE
    ensures forall v :: 0 <= v < SIZE ==> c[v] == if v == SIZE - 1 then 0 else (v + 1) / 2
  {
    seq(SIZE, v => if v == SIZE - 1 then 0 else (v + 1) / 2)
  }

  /** Vertices are visited in their natural order. */
  function Order(): (p: seq<int>)
    ensures |p| == SIZE && forall v :: 0 <= v < SIZE ==> p[v] == v
  {
    seq(SIZE, v => v)
  }

  lemma {:induction false} DominoPart(x: int)
    requires 0 <= x < SIZE
    ensures PartAt(Matching(), Classes(), PAIRS + 1, x)
  {
    var m, c := Matching(), Classes();
    hide Matching, Classes;
    forall y | 0 <= y < SIZE && c[y] == c[x]
      ensures y == x || y == m[x]
    {
      SameDomino(x, y);
    }
  }

  lemma SameDomino(x: int, y: int)
    requires 0 <= x < SIZE && 0 <= y < SIZE && Classes()[x] == Classes()[y]
    ensures y == x || y == Matching()[x]
  {
    hide Matching, Classes;
  }

  lemma ClassBefore(j: int)
    requires 0 <= j < SIZE && Classes()[j] > 0
    ensures EarlierClass(Classes(), Order(), j, Classes()[j] - 1)
  {
    var c, p := Classes(), Order();
    hide Classes, Order;
    var i := if c[j] == 1 then 0 else 2 * c[j] - 3;
    assert 0 <= i < j && c[p[i]] == c[j] - 1;
  }

  lemma ClassOpened(k: int)
    requires 0 <= k < PAIRS + 1
    ensures EarlierClass(Classes(), Order(), SIZE, k)
  {
    var c, p := Classes(), Order();
    hide Classes, Order;
    var i := if k == 0 then 0 else 2 * k - 1;
    assert 0 <= i < SIZE && c[p[i]] == k;
  }

  lemma {:induction false} DominoesPartial()
    ensures Partial(Matching(), Classes(), Order(), PAIRS + 1, SIZE)
  {
    var m, c, p, cn := Matching(), Classes(), Order(), PAIRS + 1;
    hide Matching, Classes, Order, PartAt, EarlierClass;
    forall x | 0 <= x < |c|
      ensures PartAt(m, c, cn, x)
    {
      DominoPart(x);
    }
    forall j | 0 <= j < SIZE && c[p[j]] > 0
      ensures EarlierClass(c, p, j, c[p[j]] - 1)
    {
      ClassBefore(j);
    }
    forall k | 0 <= k < PAIRS + 1
      ensures EarlierClass(c, p, SIZE, k)
    {
      ClassOpened(k);
    }
  }

  lemma EvenOpensNothing(v: int)
    requires 0 < v < SIZE && v % 2 == 0
    ensures EarlierClass(Classes(), Order(), v, Classes()[v])
  {
    var c, p, i := Classes(), Order(), if v == SIZE - 1 then 0 else v - 1;
    hide Classes, Order;
    assert 0 <= i < v && c[p[i]] == c[v];
  }

  lemma {:induction false} DominoChoice(v: int)
    requires 0 < v < SIZE && Opens(Classes(), Order(), v)
    ensures var g := Dominoes(); Weighted.Shaped(g) && N(g) == SIZE && Choice(g, Matching(), Classes(), 2, true, v)
  {
    var g, m, c, p := Dominoes(), Matching(), Classes(), Order();
    DominoesShaped();
    hide Dominoes, Matching, Classes, Order;
    if v % 2 == 0 {
      EvenOpensNothing(v);
    }
    assert ChoiceAt(g, m, c, 2, true, v, v - 1);
  }

  lemma {:induction false} FilterAll(keys: seq<int>, s: seq<int>)
    requires InRange(s, |keys|) && forall i :: 0 <= i < |keys| ==> keys[i] == 0
    ensures Filter(keys, s, 0) == s
  {
    if s != [] {
      FilterAll(keys, s[..|s| - 1]);
      assert s == s[..|s| - 1] + [s[|s| - 1]];
    }
  }

  lemma {:induction false} DominoesFinished()
    ensures var g := Dominoes();
      && WellFormed(g) && Weighted.Shaped(g) && N(g) == SIZE
      && Finished(g, Matching(), Classes(), Order(), PAIRS + 1, 2, true, 1)
  {
    var g, m, c, p := Dominoes(), Matching(), Classes(), Order();
    DominoesShaped();
    DominoesWellFormed();
    DominoesPartial();
    hide Dominoes, Matching, Classes, Order, WellFormed, Partial, Choice, Opens;
    forall j | 1 <= j < SIZE && Opens(c, p, j)
      ensures Choice(g, m, c, 2, true, p[j])
    {
      DominoChoice(j);
    }
    assert Island(g, p[0]);
  }

  lemma {:induction false} DominoesSorted()
    ensures var g := Dominoes();
      && Weighted.Shaped(g) && N(g) == SIZE && IsPermutation(Order(), SIZE)
      && SortedByDegree(g, 0, Order()) && StablySorted(AllCapped(g, 0), 0, Order(), Order())
  {
    var g, p := Dominoes(), Order();
    DominoesShaped();
    hide Dominoes, Order;
    FilterAll(AllCapped(g, 0), p);
    assert p[0..SIZE] == p;
  }

  /**
   * Everything that is known of a result of Match_SHEM holds of this one, contraction takes the shared
   * table for it, and leaves its list at the island's pair: the last vertex has a neighbour in class
   * 16384, which shares slot 0 with the pair's own class.
   */
  lemma {:induction false} LeavesOnce()
    ensures var g := Dominoes();
      && WellFormed(g) && Weighted.Shaped(g) && N(g) == SIZE && AverageDegree(g) == 0
      && Finished(g, Matching(), Classes(), Order(), PAIRS + 1, 2, true, 1)
      && IsPermutation(Order(), SIZE) && SortedByDegree(g, 0, Order()) && StablySorted(AllCapped(g, 0), 0, Order(), Order())
      && TableFor(g, PAIRS + 1, false) == Masked
    ensures var g := Dominoes();
      && PairOverreads(g, Classes(), 0, Matching()[0], Classes()[0], HTLENGTH + 1)
      && !StaysInside(g, Matching(), Classes())
  {
    DominoesFinished();
    DominoesSorted();
    DominoesShaped();
    DominoesMeet();
    hide Finished, WellFormed, SortedByDegree, StablySorted, IsPermutation, PairOverreads, AllCapped;
  }

  lemma {:induction false} DominoesMeet()
    ensures var g := Dominoes();
      Weighted.Shaped(g) && N(g) == SIZE && PairOverreads(g, Classes(), 0, Matching()[0], Classes()[0], HTLENGTH + 1)
  {
    var g, m, c := Dominoes(), Matching(), Classes();
    DominoesShaped();
    hide Dominoes, Matching, Classes;
    var j := First(g.csr, SIZE - 1);
    assert c[g.csr.adjncy[j]] == PAIRS;
    assert Meets(g, c, SIZE - 1, PAIRS);
    assert PairMeets(g, c, 0, SIZE - 1, PAIRS) && Slot(PAIRS, HTLENGTH + 1) == Slot(0, HTLENGTH + 1);
  }
}
