// The chain of ever coarser graphs (Coarsen2Way, tools/assignment/metis/coarsen.c).
module Coarsen {
  import opened Finite
  import opened Csrs
  import opened Weighted
  import opened Contraction
  import opened CoarseGraph
  import opened Match

  const MATCH_RM := 1
  const MATCH_HEM := 2
  const MATCH_SHEM := 3
  const MATCH_SHEMKWAY := 4
  const COARSEN_FRACTION2: real := 0.90

  /** Every entry of the adjacency array belongs to some row. */
  function NEdges(g: Graph): int
    requires |g.csr.xadj| > 0
  {
    g.csr.xadj[|g.csr.xadj| - 1]
  }

  /** The coarse partition seen from the fine graph. */
  ghost function Pull(cmap: seq<int>, cw: seq<int>): seq<int> {
    seq(|cmap|, x requires 0 <= x < |cmap| => if 0 <= cmap[x] < |cw| then cw[cmap[x]] else 0)
  }

  /** A partition of the coarsest graph, seen from the finest. */
  ghost function Lift(cmaps: seq<seq<int>>, cw: seq<int>): seq<int> {
    if cmaps == [] then cw else Lift(cmaps[..|cmaps| - 1], Pull(cmaps[|cmaps| - 1], cw))
  }

  /** `cg` is `g` with the pairs of some matching contracted, and `cmap` says into what. */
  ghost predicate Coarser(g: Graph, cmap: seq<int>, cg: Graph) {
    exists match_: seq<int>, rep: seq<int> :: IsCoarse(g, match_, cmap, rep, cg)
  }

  ghost predicate LinkAt(graphs: seq<Graph>, cmaps: seq<seq<int>>, i: int)
    requires 0 <= i < |cmaps| < |graphs|
  {
    Coarser(graphs[i], cmaps[i], graphs[i + 1])
  }

  /** graphs[0], contracted again and again. */
  ghost predicate Chain(graphs: seq<Graph>, cmaps: seq<seq<int>>) {
    |graphs| == |cmaps| + 1 && forall i :: 0 <= i < |cmaps| ==> LinkAt(graphs, cmaps, i)
  }

  lemma LinkPreserves(g: Graph, cmap: seq<int>, cg: Graph, cw: seq<int>)
    requires Coarser(g, cmap, cg) && |cw| == N(cg)
    ensures Weighted.Shaped(g) && Weighted.Shaped(cg) && |Pull(cmap, cw)| == |cmap| == N(g)
    ensures Cut(g, Pull(cmap, cw)) == Cut(cg, cw)
    ensures forall p :: PartWeight(g, Pull(cmap, cw), p, N(g)) == PartWeight(cg, cw, p, N(cg))
  {
    var match_: seq<int>, rep: seq<int> :| IsCoarse(g, match_, cmap, rep, cg);
    ContractionPreserves(g, match_, cmap, rep, cg, cw);
    assert Pull(cmap, cw) == Induced(cmap, cw);
  }

  /** Down the whole chain, every partition of the coarsest graph keeps its cut and its part weights. */
  lemma {:induction false} ChainPreserves(graphs: seq<Graph>, cmaps: seq<seq<int>>, cw: seq<int>)
    requires Chain(graphs, cmaps) && Weighted.Shaped(graphs[0]) && |cw| == N(graphs[|cmaps|])
    ensures Weighted.Shaped(graphs[|cmaps|]) && |Lift(cmaps, cw)| == N(graphs[0])
    ensures Cut(graphs[0], Lift(cmaps, cw)) == Cut(graphs[|cmaps|], cw)
    ensures forall p :: PartWeight(graphs[0], Lift(cmaps, cw), p, N(graphs[0])) == PartWeight(graphs[|cmaps|], cw, p, |cw|)
    decreases |cmaps|
  {
    hide Weighted.Shaped, Cut, PartWeight, Coarser, Pull;
    var k := |cmaps|;
    if k > 0 {
      assert LinkAt(graphs, cmaps, k - 1);
      LinkPreserves(graphs[k - 1], cmaps[k - 1], graphs[k], cw);
      var graphs', cmaps' := graphs[..k], cmaps[..k - 1];
      forall i | 0 <= i < |cmaps'|
        ensures LinkAt(graphs', cmaps', i)
      {
        assert LinkAt(graphs, cmaps, i);
      }
      ChainPreserves(graphs', cmaps', Pull(cmaps[k - 1], cw));
    }
  }

  lemma {:induction false} ChainGrows(graphs: seq<Graph>, cmaps: seq<seq<int>>, match_: seq<int>, cmap: seq<int>, rep: seq<int>, cg: Graph)
    requires Chain(graphs, cmaps) && IsCoarse(graphs[|cmaps|], match_, cmap, rep, cg)
    ensures Chain(graphs + [cg], cmaps + [cmap])
  {
    hide IsCoarse;
    var graphs', cmaps' := graphs + [cg], cmaps + [cmap];
    forall i | 0 <= i < |cmaps'|
      ensures LinkAt(graphs', cmaps', i)
    {
      if i < |cmaps| {
        assert LinkAt(graphs, cmaps, i);
      }
    }
  }

  /** The table is direct for graphs that are small or dense (ccgraph.c). */
  function TableFor(g: Graph, cnvtxs: int, guarded: bool): Table
    requires |g.csr.xadj| > 0 && N(g) > 0
  {
    if cnvtxs < 8 * HTLENGTH || NEdges(g) / N(g) > 15 then Direct else if guarded then Guarded else Masked
  }

  /** One step of the chain: the matching, how its vertices were visited, and where each class was opened. */
  datatype Level = Level(matching: seq<int>, cmap: seq<int>, perm: seq<int>, cnvtxs: int, from: int, rep: seq<int>)

  /** Random matching on the first level, unless the type says otherwise; later heavy-edge or sorted heavy-edge matching. */
  ghost predicate MatchedBy(ctype: int, clevel: int, g: Graph, maxvwgt: int, lv: Level)
    requires Weighted.Shaped(g) && N(g) > 0
  {
    var sorted := ctype == MATCH_SHEMKWAY || (ctype == MATCH_SHEM && clevel >= 1);
    var heavy := sorted || (ctype == MATCH_HEM && clevel >= 1);
    && Finished(g, lv.matching, lv.cmap, lv.perm, lv.cnvtxs, maxvwgt, heavy, lv.from)
    && if sorted then
         && InRange(lv.perm, N(g)) && SortedByDegree(g, AverageDegree(g), lv.perm)
         && (AverageDegree(g) >= 1 ==> IslandsFirst(g, lv.matching))
       else lv.from == 0
  }

  /** The matcher for one level. */
  method MatchLevel(ctype: int, clevel: int, g: Graph, maxvwgt: int)
    returns (matching: seq<int>, cmap: seq<int>, perm: seq<int>, cnvtxs: int, ghost from: int)
    requires WellFormed(g) && Weighted.Shaped(g) && N(g) > 0 && MATCH_RM <= ctype <= MATCH_SHEMKWAY
    ensures ValidMatching(N(g), matching, cmap, cnvtxs) && Numbered(cmap, perm, cnvtxs)
    ensures Maximal(g, matching, maxvwgt) && PairsFit(g, matching, maxvwgt)
    ensures ctype in {MATCH_RM, MATCH_HEM} ==> PairsJoined(g, matching)
    ensures MatchedBy(ctype, clevel, g, maxvwgt, Level(matching, cmap, perm, cnvtxs, from, []))
  {
    hide Finished, SortedByDegree, IslandsFirst, PairsJoined, Maximal, PairsFit, ValidMatching, Numbered, WellFormed;
    ghost var tperm;
    var avgdegree := AverageDegree(g);
    from := 0;
    if ctype == MATCH_RM || (ctype != MATCH_SHEMKWAY && clevel < 1) {
      matching, cmap, perm, cnvtxs := Match_RM(g, maxvwgt);
    } else if ctype == MATCH_HEM {
      matching, cmap, perm, cnvtxs := Match_HEM(g, maxvwgt);
    } else {
      matching, cmap, perm, cnvtxs, from, tperm := Match_SHEM(g, maxvwgt, avgdegree);
    }
  }

  /** 0.7 times the average degree, rounded down. */
  function AverageDegree(g: Graph): (d: int)
    requires Weighted.Shaped(g) && N(g) > 0
    ensures d >= 0 && 10 * d <= 7 * (NEdges(g) / N(g)) < 10 * (d + 1)
  {
    assert RowShaped(g.csr, N(g) - 1);
    (0.7 * (NEdges(g) / N(g)) as real).Floor
  }

  /** Coarsening goes on from graph `i` of the chain: it is large, the last step took off a tenth or more, and edges are left. */
  ghost predicate GoesOn(graphs: seq<Graph>, i: int, coarsenTo: int)
    requires 0 < i < |graphs|
  {
    var finer, cg := graphs[i - 1], graphs[i];
    N(cg) > coarsenTo && 10 * N(cg) < 9 * N(finer) && |cg.csr.xadj| > 0 && NEdges(cg) > N(cg) / 2
  }

  /** Graph `i + 1` contracts graph `i` by the matching of the level. */
  ghost predicate LevelAt(graphs: seq<Graph>, levels: seq<Level>, ctype: int, clevel: int, maxvwgt: int, i: int)
    requires 0 <= i < |levels| < |graphs|
  {
    var lv := levels[i];
    && Weighted.Shaped(graphs[i]) && N(graphs[i]) > 0 && MatchedBy(ctype, clevel + i, graphs[i], maxvwgt, lv)
    && IsCoarse(graphs[i], lv.matching, lv.cmap, lv.rep, graphs[i + 1])
  }

  ghost predicate Levels(graphs: seq<Graph>, cmaps: seq<seq<int>>, levels: seq<Level>, ctype: int, clevel: int, maxvwgt: int) {
    && |graphs| == |levels| + 1 && |cmaps| == |levels| && (forall i :: 0 <= i < |levels| ==> cmaps[i] == levels[i].cmap)
    && forall i :: 0 <= i < |levels| ==> LevelAt(graphs, levels, ctype, clevel, maxvwgt, i)
  }

  lemma {:induction false} LevelsGrow(graphs: seq<Graph>, cmaps: seq<seq<int>>, levels: seq<Level>, ctype: int, clevel: int, maxvwgt: int,
                                      lv: Level, cg: Graph)
    requires Levels(graphs, cmaps, levels, ctype, clevel, maxvwgt)
    requires var g := graphs[|levels|];
      && Weighted.Shaped(g) && N(g) > 0 && MatchedBy(ctype, clevel + |levels|, g, maxvwgt, lv)
      && IsCoarse(g, lv.matching, lv.cmap, lv.rep, cg)
    ensures Levels(graphs + [cg], cmaps + [lv.cmap], levels + [lv], ctype, clevel, maxvwgt)
  {
    hide MatchedBy, IsCoarse, Weighted.Shaped;
    forall i | 0 <= i < |levels| + 1
      ensures LevelAt(graphs + [cg], levels + [lv], ctype, clevel, maxvwgt, i)
    {
      assert i < |levels| ==> LevelAt(graphs, levels, ctype, clevel, maxvwgt, i);
    }
  }

  /**
   * Coarsens until the graph is small enough, hardly shrinks or runs out of edges. `failed` is the
   * error exit on an unknown matching type. `inside` tells that contraction kept to its lists, as it
   * always does after random and heavy-edge matching, and after any matching when it is guarded.
   */
  method Coarsen2Way(g: Graph, adjwgtsum: seq<int>, ctype0: int, coarsenTo: int, maxvwgt: int, guarded: bool)
    returns (failed: bool, inside: bool, ctype: int, graphs: seq<Graph>, cmaps: seq<seq<int>>, ghost levels: seq<Level>)
    requires WellFormed(g) && Weighted.Shaped(g) && N(g) > 0 && SumsOk(g, adjwgtsum) && coarsenTo >= 0
    ensures ctype == if ctype0 > 20 then ctype0 - 20 else ctype0
    ensures failed <==> !(MATCH_RM <= ctype <= MATCH_SHEMKWAY)
    ensures guarded || ctype in {MATCH_RM, MATCH_HEM} ==> inside
    ensures Chain(graphs, cmaps) && graphs[0] == g
    ensures Levels(graphs, cmaps, levels, ctype, if ctype0 > 20 then 1 else 0, maxvwgt)
    ensures !inside ==> var g' := graphs[|cmaps|]; N(g') >= 8 * HTLENGTH && NEdges(g') / N(g') <= 15
    ensures !failed && inside ==>
      && Chain(graphs, cmaps) && graphs[0] == g && |cmaps| > 0
      && (forall i :: 0 < i < |cmaps| ==> GoesOn(graphs, i, coarsenTo)) && !GoesOn(graphs, |cmaps|, coarsenTo)
      && WellFormed(graphs[|cmaps|])
  {
    hide WellFormed, Weighted.Shaped, Numbered, ValidMatching, IsCoarse, Maximal, PairsFit, Chain, StaysInside, PairsJoined, Levels, MatchedBy;
    var clevel := 0;
    ctype := ctype0;
    if ctype > 20 {
      clevel := 1;
      ctype := ctype - 20;
    }
    graphs, cmaps, levels := [g], [], [];
    StartChain(g);
    ghost var start := clevel;
    StartLevels(g, ctype, start, maxvwgt);
    inside := true;
    failed := !(MATCH_RM <= ctype <= MATCH_SHEMKWAY);
    if failed {
      return;
    }
    var cgraph, sums, more := g, adjwgtsum, true;
    while more
      invariant |graphs| == |cmaps| + 1 && graphs[0] == g && graphs[|cmaps|] == cgraph && Chain(graphs, cmaps)
      invariant Levels(graphs, cmaps, levels, ctype, start, maxvwgt) && |levels| == |cmaps| && clevel == start + |levels|
      invariant WellFormed(cgraph) && Weighted.Shaped(cgraph) && SumsOk(cgraph, sums)
      invariant forall i :: 0 < i < |cmaps| ==> GoesOn(graphs, i, coarsenTo)
      invariant if |cmaps| == 0 then more else more == GoesOn(graphs, |cmaps|, coarsenTo)
      invariant more ==> N(cgraph) > 0
      decreases if more then N(cgraph) + 1 else 0
    {
      var matching, cmap, perm, cnvtxs;
      ghost var from;
      matching, cmap, perm, cnvtxs, from := MatchLevel(ctype, clevel, cgraph, maxvwgt);
      var coarser, csums;
      ghost var rep;
      inside, coarser, csums, rep := CreateCoarseGraph(cgraph, sums, matching, cmap, perm, cnvtxs, TableFor(cgraph, cnvtxs, guarded));
      if ctype in {MATCH_RM, MATCH_HEM} {
        JoinedStaysInside(cgraph, matching, cmap, cnvtxs);
      }
      if !inside {
        ClassesFit(cmap, perm, cnvtxs);
        return;
      }
      ChainGrows(graphs, cmaps, matching, cmap, rep, coarser);
      ghost var lv := Level(matching, cmap, perm, cnvtxs, from, rep);
      MatchedAnyway(ctype, clevel, cgraph, maxvwgt, lv, []);
      LevelsGrow(graphs, cmaps, levels, ctype, start, maxvwgt, lv, coarser);
      Tenth(N(coarser), N(cgraph));
      more := N(coarser) > coarsenTo && (N(coarser) as real) < COARSEN_FRACTION2 * N(cgraph) as real && NEdges(coarser) > N(coarser) / 2;
      ghost var before := graphs;
      graphs, cmaps, levels := graphs + [coarser], cmaps + [cmap], levels + [lv];
      forall i | 0 < i < |cmaps|
        ensures GoesOn(graphs, i, coarsenTo)
      {
        assert GoesOn(before, i, coarsenTo);
      }
      cgraph, sums := coarser, csums;
      clevel := clevel + 1;
    }
  }

  /** There are no more classes than vertices. */
  lemma {:induction false} ClassesFit(cmap: seq<int>, perm: seq<int>, cn: int)
    requires Numbered(cmap, perm, cn)
    ensures cn <= |cmap|
  {
    if cn > 0 {
      forall c | c in Range(0, cn)
        ensures c in Elements(cmap)
      {
        assert EarlierClass(cmap, perm, |perm|, c);
      }
      SubsetSize(Range(0, cn), Elements(cmap));
      ElementsSize(cmap);
    }
  }

  /** Which vertex opened a class is no matter of matching. */
  lemma MatchedAnyway(ctype: int, clevel: int, g: Graph, maxvwgt: int, lv: Level, rep: seq<int>)
    requires Weighted.Shaped(g) && N(g) > 0 && MatchedBy(ctype, clevel, g, maxvwgt, lv.(rep := rep))
    ensures MatchedBy(ctype, clevel, g, maxvwgt, lv)
  {
    hide Finished, SortedByDegree, IslandsFirst;
  }

  lemma Tenth(n: int, m: int)
    ensures (n as real) < COARSEN_FRACTION2 * m as real <==> 10 * n < 9 * m
  {
  }

  lemma StartLevels(g: Graph, ctype: int, clevel: int, maxvwgt: int)
    ensures Levels([g], [], [], ctype, clevel, maxvwgt)
  {
  }

  lemma StartChain(g: Graph)
    ensures Chain([g], [])
  {
  }
}
