// The directed graphs of tools/graph.h, and paths in them.
module Digraphs {
  /** Edge `e` leads from src[e] to tgt[e]; out[v] lists the edges that leave `v`. */
  datatype Graph = Graph(n: int, src: seq<int>, tgt: seq<int>, out: seq<seq<int>>)

  function E(g: Graph): int {
    |g.src|
  }

  ghost predicate EdgeOk(g: Graph, e: int)
    requires |g.tgt| == |g.src| && |g.out| == g.n && 0 <= e < |g.src|
  {
    0 <= g.src[e] < g.n && 0 <= g.tgt[e] < g.n && e in g.out[g.src[e]]
  }

  ghost predicate OutOk(g: Graph, v: int, i: int)
    requires |g.tgt| == |g.src| && |g.out| == g.n && 0 <= v < g.n && 0 <= i < |g.out[v]|
  {
    0 <= g.out[v][i] < |g.src| && g.src[g.out[v][i]] == v
  }

  ghost predicate GraphOk(g: Graph) {
    && |g.tgt| == |g.src| && |g.out| == g.n
    && (forall e :: 0 <= e < |g.src| ==> EdgeOk(g, e))
    && (forall v, i :: 0 <= v < g.n && 0 <= i < |g.out[v]| ==> OutOk(g, v, i))
  }

  /** The `i`-th edge that leaves `v`. */
  function OutEdge(g: Graph, v: int, i: int): (e: int)
    requires GraphOk(g) && 0 <= v < g.n && 0 <= i < |g.out[v]|
    ensures 0 <= e < E(g) && g.src[e] == v
  {
    assert OutOk(g, v, i);
    g.out[v][i]
  }

  /** Where an edge stands in the list of its source. */
  lemma OutIndex(g: Graph, e: int) returns (i: int)
    requires GraphOk(g) && 0 <= e < E(g)
    ensures 0 <= g.src[e] < g.n && 0 <= g.tgt[e] < g.n && 0 <= i < |g.out[g.src[e]]| && OutEdge(g, g.src[e], i) == e
  {
    assert EdgeOk(g, e);
    i :| 0 <= i < |g.out[g.src[e]]| && g.out[g.src[e]][i] == e;
  }

  ghost predicate MirrorOf(g: Graph, e: int, f: int)
    requires GraphOk(g) && 0 <= e < E(g)
  {
    0 <= f < E(g) && g.src[f] == g.tgt[e] && g.tgt[f] == g.src[e]
  }

  ghost predicate HasMirror(g: Graph, e: int)
    requires GraphOk(g) && 0 <= e < E(g)
  {
    exists f :: MirrorOf(g, e, f)
  }

  /** Every link is there in both directions. */
  ghost predicate Mirrored(g: Graph)
    requires GraphOk(g)
  {
    forall e :: 0 <= e < E(g) ==> HasMirror(g, e)
  }

  // ---------------------------------------------------------------- paths

  /** `p` is a sequence of edges leading from `s` to `v`. */
  ghost predicate Path(g: Graph, s: int, p: seq<int>, v: int)
    requires GraphOk(g)
  {
    if p == [] then v == s else
      var e := p[|p| - 1];
      0 <= e < E(g) && g.tgt[e] == v && Path(g, s, p[..|p| - 1], g.src[e])
  }

  ghost function Weight(w: seq<int>, p: seq<int>): int {
    if p == [] then 0 else
      var e := p[|p| - 1];
      Weight(w, p[..|p| - 1]) + if 0 <= e < |w| then w[e] else 0
  }

  ghost predicate Reachable(g: Graph, s: int, v: int)
    requires GraphOk(g)
  {
    exists p :: Path(g, s, p, v)
  }

  /** A path no heavier than `x`. */
  ghost predicate Within(g: Graph, w: seq<int>, s: int, v: int, x: int)
    requires GraphOk(g)
  {
    exists p :: Path(g, s, p, v) && Weight(w, p) <= x
  }

  /** With unit weights the weight of a path is its length. */
  lemma {:induction false} UnitWeight(w: seq<int>, g: Graph, s: int, p: seq<int>, v: int)
    requires GraphOk(g) && |w| == E(g) && (forall e :: 0 <= e < |w| ==> w[e] == 1) && Path(g, s, p, v)
    ensures Weight(w, p) == |p|
    decreases |p|
  {
    if p != [] {
      UnitWeight(w, g, s, p[..|p| - 1], g.src[p[|p| - 1]]);
    }
  }
}
