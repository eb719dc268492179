// Breadth-first search (tools/graph.h) and the walk that turns predecessors into hop lists (tools/routes.cpp).
module Routes {
  import opened Finite
  import opened Digraphs
  import opened ShortestPaths

  // ---------------------------------------------------------------- breadth-first search

  /** Hops to each vertex (-1 if not found yet), the edge it was found by, and whether it was. */
  datatype Found = Found(dist: seq<int>, pred: seq<int>, visited: seq<bool>)

  ghost predicate FoundSized(g: Graph, s: int, b: Found) {
    GraphOk(g) && 0 <= s < g.n && |b.dist| == |b.pred| == |b.visited| == g.n
  }

  ghost predicate HasHops(g: Graph, s: int, v: int, k: int)
    requires GraphOk(g)
  {
    exists p :: Path(g, s, p, v) && |p| == k
  }

  ghost predicate FoundAt(g: Graph, s: int, b: Found, v: int)
    requires FoundSized(g, s, b) && 0 <= v < g.n
  {
    if b.visited[v] then
      && b.dist[v] >= 0 && HasHops(g, s, v, b.dist[v])
      && if v == s then b.dist[v] == 0 && b.pred[v] == NIL else
           && 0 <= b.pred[v] < E(g) && g.tgt[b.pred[v]] == v && 0 <= g.src[b.pred[v]] < g.n
           && b.visited[g.src[b.pred[v]]] && b.dist[v] == b.dist[g.src[b.pred[v]]] + 1
    else
      v != s && b.dist[v] == -1 && b.pred[v] == NIL
  }

  /** The first `k` edges out of `u` lead to vertices found no later than one hop after it. */
  ghost predicate Explored(g: Graph, s: int, b: Found, u: int, k: int)
    requires FoundSized(g, s, b) && 0 <= u < g.n && 0 <= k <= |g.out[u]|
  {
    forall i :: 0 <= i < k ==> ExploredEdge(g, b, u, OutEdge(g, u, i))
  }

  ghost predicate ExploredEdge(g: Graph, b: Found, u: int, e: int)
    requires |b.dist| == |b.visited| == g.n && 0 <= u < g.n && 0 <= e < |g.tgt|
  {
    0 <= g.tgt[e] < g.n && b.visited[g.tgt[e]] && b.dist[g.tgt[e]] <= b.dist[u] + 1
  }

  /** The queue holds found vertices in order of distance, none further than one hop behind `u`. */
  ghost predicate QueueOk(g: Graph, b: Found, q: seq<int>, u: int)
    requires |b.dist| == |b.visited| == g.n && 0 <= u < g.n
  {
    && (forall i :: 0 <= i < |q| ==> 0 <= q[i] < g.n && b.visited[q[i]])
    && (forall i :: 0 <= i < |q| ==> b.dist[u] <= b.dist[q[i]])
    && (forall i, j :: 0 <= i < j < |q| ==> b.dist[q[i]] <= b.dist[q[j]])
    && (forall x :: 0 <= x < g.n && b.visited[x] ==> b.dist[x] <= b.dist[u] + 1)
  }

  /** While `k` edges out of `u` have been looked at; `u` itself left the queue. */
  ghost predicate Bfs(g: Graph, s: int, b: Found, q: seq<int>, u: int, k: int) {
    && FoundSized(g, s, b) && 0 <= u < g.n && 0 <= k <= |g.out[u]| && b.visited[u] && b.visited[s]
    && QueueOk(g, b, q, u)
    && (forall v :: 0 <= v < g.n ==> FoundAt(g, s, b, v))
    && (forall v :: 0 <= v < g.n && b.visited[v] && v !in q && v != u ==> Explored(g, s, b, v, |g.out[v]|))
    && Explored(g, s, b, u, k)
  }

  function Visit(g: Graph, b: Found, u: int, e: int): Found
    requires 0 <= u < |b.dist| == |b.pred| == |b.visited| && 0 <= e < |g.tgt| && 0 <= g.tgt[e] < |b.dist|
  {
    var v := g.tgt[e];
    Found(b.dist[v := b.dist[u] + 1], b.pred[v := e], b.visited[v := true])
  }

  lemma VisitQueue(g: Graph, b: Found, q: seq<int>, u: int, e: int)
    requires |b.dist| == |b.pred| == |b.visited| == g.n && 0 <= u < g.n && QueueOk(g, b, q, u) && b.visited[u]
    requires 0 <= e < |g.tgt| && 0 <= g.tgt[e] < g.n && !b.visited[g.tgt[e]]
    ensures QueueOk(g, Visit(g, b, u, e), q + [g.tgt[e]], u)
  {
  }

  lemma {:induction false} VisitFound(g: Graph, s: int, b: Found, u: int, e: int, x: int)
    requires FoundSized(g, s, b) && 0 <= u < g.n && b.visited[u] && 0 <= x < g.n
    requires 0 <= e < E(g) && g.src[e] == u && 0 <= g.tgt[e] < g.n && !b.visited[g.tgt[e]]
    requires FoundAt(g, s, b, u) && FoundAt(g, s, b, g.tgt[e]) && FoundAt(g, s, b, x)
    ensures FoundAt(g, s, Visit(g, b, u, e), x)
  {
    var v, b' := g.tgt[e], Visit(g, b, u, e);
    if x == v {
      var p :| Path(g, s, p, u) && |p| == b.dist[u];
      assert (p + [e])[..|p + [e]| - 1] == p;
      assert Path(g, s, p + [e], v);
      assert HasHops(g, s, v, b'.dist[v]);
    }
  }

  lemma {:induction false} VisitStep(g: Graph, s: int, b: Found, q: seq<int>, u: int, k: int)
    requires Bfs(g, s, b, q, u, k) && k < |g.out[u]|
    ensures var e := OutEdge(g, u, k);
      && 0 <= g.tgt[e] < g.n
      && if b.visited[g.tgt[e]] then Bfs(g, s, b, q, u, k + 1) else Bfs(g, s, Visit(g, b, u, e), q + [g.tgt[e]], u, k + 1)
  {
    var e := OutEdge(g, u, k);
    assert EdgeOk(g, e);
    var v := g.tgt[e];
    if b.visited[v] {
      assert ExploredEdge(g, b, u, e);
    } else {
      NewVisit(g, s, b, q, u, k, e);
    }
  }

  lemma {:induction false} NewVisit(g: Graph, s: int, b: Found, q: seq<int>, u: int, k: int, e: int)
    requires Bfs(g, s, b, q, u, k) && k < |g.out[u]| && e == OutEdge(g, u, k) && 0 <= g.tgt[e] < g.n && !b.visited[g.tgt[e]]
    ensures Bfs(g, s, Visit(g, b, u, e), q + [g.tgt[e]], u, k + 1)
  {
    hide FoundAt, QueueOk, HasHops;
    var v := g.tgt[e];
    var b', q' := Visit(g, b, u, e), q + [v];
    VisitQueue(g, b, q, u, e);
    forall x | 0 <= x < g.n
      ensures FoundAt(g, s, b', x)
    {
      VisitFound(g, s, b, u, e, x);
    }
    forall x | 0 <= x < g.n && b'.visited[x] && x !in q' && x != u
      ensures Explored(g, s, b', x, |g.out[x]|)
    {
      assert v in q' && (x in q ==> x in q');
      ExploredStays(g, s, b, b', x, |g.out[x]|);
    }
    ExploredStays(g, s, b, b', u, k);
    assert ExploredEdge(g, b', u, e);
  }

  lemma ExploredStays(g: Graph, s: int, b: Found, b': Found, u: int, k: int)
    requires FoundSized(g, s, b) && FoundSized(g, s, b') && 0 <= u < g.n && 0 <= k <= |g.out[u]| && Explored(g, s, b, u, k)
    requires b'.dist[u] == b.dist[u] && forall x :: 0 <= x < g.n && b.visited[x] ==> b'.visited[x] && b'.dist[x] == b.dist[x]
    ensures Explored(g, s, b', u, k)
  {
    forall i | 0 <= i < k
      ensures ExploredEdge(g, b', u, OutEdge(g, u, i))
    {
      assert ExploredEdge(g, b, u, OutEdge(g, u, i));
    }
  }

  /** The next vertex leaves the queue. */
  lemma {:induction false} NextStep(g: Graph, s: int, b: Found, q: seq<int>, u: int)
    requires FoundSized(g, s, b) && 0 <= u < g.n && Bfs(g, s, b, q, u, |g.out[u]|) && q != []
    ensures Bfs(g, s, b, q[1..], q[0], 0)
  {
    forall v | 0 <= v < g.n && b.visited[v] && v !in q[1..] && v != q[0]
      ensures Explored(g, s, b, v, |g.out[v]|)
    {
      assert v !in q;
    }
  }

  ghost predicate MinHops(g: Graph, s: int, v: int, k: int)
    requires GraphOk(g)
  {
    HasHops(g, s, v, k) && forall p :: Path(g, s, p, v) ==> k <= |p|
  }

  lemma {:induction false} NoFewerHops(g: Graph, s: int, b: Found, u: int, p: seq<int>, v: int)
    requires FoundSized(g, s, b) && 0 <= u < g.n && Bfs(g, s, b, [], u, |g.out[u]|) && Path(g, s, p, v)
    ensures 0 <= v < g.n && b.visited[v] && b.dist[v] <= |p|
    decreases |p|
  {
    if p == [] {
      assert FoundAt(g, s, b, s);
    } else {
      var e := p[|p| - 1];
      NoFewerHops(g, s, b, u, p[..|p| - 1], g.src[e]);
      var i := OutIndex(g, e);
      assert Explored(g, s, b, g.src[e], |g.out[g.src[e]]|);
      assert ExploredEdge(g, b, g.src[e], OutEdge(g, g.src[e], i));
    }
  }

  /** Distances are numbers of hops, and -1 exactly where no path leads. */
  ghost predicate HopCounts(g: Graph, s: int, dist: seq<int>)
    requires GraphOk(g) && |dist| == g.n
  {
    forall v :: 0 <= v < g.n ==> HopCountAt(g, s, dist, v)
  }

  ghost predicate HopCountAt(g: Graph, s: int, dist: seq<int>, v: int)
    requires GraphOk(g) && |dist| == g.n && 0 <= v < g.n
  {
    if Reachable(g, s, v) then MinHops(g, s, v, dist[v]) else dist[v] == -1
  }

  lemma {:induction false} BfsDone(g: Graph, s: int, b: Found, u: int)
    requires FoundSized(g, s, b) && 0 <= u < g.n && Bfs(g, s, b, [], u, |g.out[u]|)
    ensures HopCounts(g, s, b.dist)
  {
    forall v | 0 <= v < g.n
      ensures HopCountAt(g, s, b.dist, v)
    {
      assert FoundAt(g, s, b, v);
      if b.visited[v] {
        var p :| Path(g, s, p, v) && |p| == b.dist[v];
      }
      forall p | Path(g, s, p, v)
        ensures b.visited[v] && b.dist[v] <= |p|
      {
        NoFewerHops(g, s, b, u, p, v);
      }
    }
  }

  /** Following `pred` back gives a path of as many hops as `dist` counts; no path, no predecessor. */
  ghost predicate HopTreeAt(g: Graph, s: int, dist: seq<int>, pred: seq<int>, v: int)
    requires GraphOk(g) && |dist| == |pred| == g.n && 0 <= s < g.n && 0 <= v < g.n
  {
    if Reachable(g, s, v) then exists p :: TreePath(g, pred, s, v, p) && |p| == dist[v] else pred[v] == NIL
  }

  ghost predicate HopTree(g: Graph, s: int, dist: seq<int>, pred: seq<int>)
    requires GraphOk(g) && |dist| == |pred| == g.n && 0 <= s < g.n
  {
    forall v :: 0 <= v < g.n ==> HopTreeAt(g, s, dist, pred, v)
  }

  lemma {:induction false} FoundTree(g: Graph, s: int, b: Found, v: int) returns (p: seq<int>)
    requires FoundSized(g, s, b) && 0 <= v < g.n && b.visited[v] && forall x :: 0 <= x < g.n ==> FoundAt(g, s, b, x)
    ensures TreePath(g, b.pred, s, v, p) && |p| == b.dist[v]
    decreases b.dist[v]
  {
    hide HasHops;
    assert FoundAt(g, s, b, v);
    if v == s {
      p := [];
    } else {
      var u := g.src[b.pred[v]];
      assert FoundAt(g, s, b, u);
      var q := FoundTree(g, s, b, u);
      p := q + [b.pred[v]];
      assert p[..|p| - 1] == q;
    }
  }

  lemma {:induction false} BfsTree(g: Graph, s: int, b: Found, u: int)
    requires FoundSized(g, s, b) && 0 <= u < g.n && Bfs(g, s, b, [], u, |g.out[u]|)
    ensures HopTree(g, s, b.dist, b.pred)
  {
    forall v | 0 <= v < g.n
      ensures HopTreeAt(g, s, b.dist, b.pred, v)
    {
      assert FoundAt(g, s, b, v);
      if b.visited[v] {
        var p := FoundTree(g, s, b, v);
        TreePathIsPath(g, b.pred, s, v, p);
      } else if q :| Path(g, s, q, v) {
        NoFewerHops(g, s, b, u, q, v);
      }
    }
  }

  ghost function Unvisited(visited: seq<bool>): set<int> {
    set v | v in Range(0, |visited|) && !visited[v]
  }

  lemma FewerUnvisited(visited: seq<bool>, v: int)
    requires 0 <= v < |visited| && !visited[v]
    ensures |Unvisited(visited[v := true])| < |Unvisited(visited)|
  {
    assert Unvisited(visited[v := true]) == Unvisited(visited) - {v} && v in Unvisited(visited);
  }

  method Scan(g: Graph, s: int, dist: array<int>, pred: array<int>, visited: array<bool>, q0: seq<int>, u: int) returns (q: seq<int>)
    requires dist != pred && Bfs(g, s, Found(dist[..], pred[..], visited[..]), q0, u, 0)
    modifies dist, pred, visited
    ensures 0 <= u < g.n == |g.out| && Bfs(g, s, Found(dist[..], pred[..], visited[..]), q, u, |g.out[u]|)
    ensures |Unvisited(visited[..])| < |Unvisited(old(visited[..]))| || (visited[..] == old(visited[..]) && q == q0)
  {
    hide QueueOk, Explored, FoundAt, Unvisited, Bfs;
    BfsFacts(g, s, Found(dist[..], pred[..], visited[..]), q0, u, 0);
    q := q0;
    for i := 0 to |g.out[u]|
      invariant Bfs(g, s, Found(dist[..], pred[..], visited[..]), q, u, i)
      invariant |Unvisited(visited[..])| < |Unvisited(old(visited[..]))| || (visited[..] == old(visited[..]) && q == q0)
    {
      ghost var b := Found(dist[..], pred[..], visited[..]);
      BfsFacts(g, s, b, q, u, i);
      VisitStep(g, s, b, q, u, i);
      var e := OutEdge(g, u, i);
      var v := g.tgt[e];
      if visited[v] {
        continue;
      }
      FewerUnvisited(visited[..], v);
      visited[v] := true;
      pred[v] := e;
      dist[v] := dist[u] + 1;
      q := q + [v];
      assert Found(dist[..], pred[..], visited[..]) == Visit(g, b, u, e);
    }
  }

  lemma BfsFacts(g: Graph, s: int, b: Found, q: seq<int>, u: int, k: int)
    requires Bfs(g, s, b, q, u, k)
    ensures FoundSized(g, s, b) && 0 <= u < g.n && 0 <= k <= |g.out[u]|
    ensures forall i :: 0 <= i < |q| ==> 0 <= q[i] < g.n
  {
  }

  lemma BfsStart(g: Graph, s: int, b: Found)
    requires FoundSized(g, s, b) && b.visited[s] && b.dist[s] == 0 && b.pred[s] == NIL
    requires forall v :: 0 <= v < g.n && v != s ==> !b.visited[v] && b.dist[v] == -1 && b.pred[v] == NIL
    ensures Bfs(g, s, b, [], s, 0)
  {
    var none: seq<int> := [];
    assert Path(g, s, none, s) && |none| == 0;
    assert HasHops(g, s, s, 0);
  }

  method BreadthFirstSearch(g: Graph, s: int) returns (pred: array<int>, dist: array<int>)
    requires GraphOk(g) && 0 <= s < g.n
    ensures dist.Length == pred.Length == g.n && HopCounts(g, s, dist[..])
    ensures HopTree(g, s, dist[..], pred[..])
  {
    hide QueueOk, Explored, FoundAt, Unvisited, Bfs, HopCounts, HopTree;
    var visited := new bool[g.n](_ => false);
    dist := new int[g.n](_ => -1);
    pred := new int[g.n](_ => NIL);
    dist[s] := 0;
    visited[s] := true;
    BfsStart(g, s, Found(dist[..], pred[..], visited[..]));
    var u := s;
    var q := Scan(g, s, dist, pred, visited, [], u);
    while q != []
      invariant 0 <= u < g.n && Bfs(g, s, Found(dist[..], pred[..], visited[..]), q, u, |g.out[u]|)
      decreases |Unvisited(visited[..])|, |q|
    {
      NextStep(g, s, Found(dist[..], pred[..], visited[..]), q, u);
      u := q[0];
      q := Scan(g, s, dist, pred, visited, q[1..], u);
    }
    ghost var b := Found(dist[..], pred[..], visited[..]);
    BfsDone(g, s, b, u);
    BfsTree(g, s, b, u);
  }

  // ---------------------------------------------------------------- the walk back

  ghost function Reversed(p: seq<int>): (r: seq<int>)
    ensures |r| == |p|
    ensures forall i :: 0 <= i < |p| ==> r[i] == p[|p| - 1 - i]
  {
    if p == [] then [] else [p[|p| - 1]] + Reversed(p[..|p| - 1])
  }

  /** Where following `pred` for `n` steps leads; it stays where there is no predecessor. */
  ghost function Back(g: Graph, pred: seq<int>, v: int, n: nat): (u: int)
    requires GraphOk(g) && PredsInRange(g, pred) && 0 <= v < g.n
    ensures 0 <= u < g.n
  {
    if n == 0 then v else
      var u := Back(g, pred, v, n - 1);
      if pred[u] == NIL then u else
        assert EdgeOk(g, pred[u]);
        g.src[pred[u]]
  }

  ghost predicate PredsInRange(g: Graph, pred: seq<int>) {
    |pred| == g.n && forall v :: 0 <= v < g.n ==> pred[v] == NIL || 0 <= pred[v] < E(g)
  }

  /** The walk from `v` reaches a vertex without a predecessor. */
  ghost predicate WalkEnds(g: Graph, pred: seq<int>, v: int)
    requires GraphOk(g) && PredsInRange(g, pred) && 0 <= v < g.n
  {
    exists n: nat :: pred[Back(g, pred, v, n)] == NIL
  }

  lemma {:induction false} BackShift(g: Graph, pred: seq<int>, v: int, n: nat)
    requires GraphOk(g) && PredsInRange(g, pred) && 0 <= v < g.n && pred[v] != NIL
    ensures 0 <= g.src[pred[v]] < g.n && Back(g, pred, v, n + 1) == Back(g, pred, g.src[pred[v]], n)
  {
    assert EdgeOk(g, pred[v]);
    if n > 0 {
      BackShift(g, pred, v, n - 1);
    }
  }

  /** `hops` are the edges met on the way back from `v`, up to a vertex without a predecessor. */
  ghost predicate LeadsBack(g: Graph, pred: seq<int>, v: int, hops: seq<int>)
    requires GraphOk(g) && PredsInRange(g, pred)
    decreases |hops|
  {
    && 0 <= v < g.n
    && if hops == [] then pred[v] == NIL else
         pred[v] == hops[0] && 0 <= hops[0] < E(g) && LeadsBack(g, pred, g.src[hops[0]], hops[1..])
  }

  /** `hops` are the edges met so far on the way back from `dst` to `v`. */
  ghost predicate CameTo(g: Graph, pred: seq<int>, dst: int, hops: seq<int>, v: int)
    requires GraphOk(g) && PredsInRange(g, pred)
  {
    && 0 <= dst < g.n && 0 <= v < g.n
    && if hops == [] then v == dst else
         var e := hops[|hops| - 1];
         0 <= e < E(g) && v == g.src[e] && exists u :: CameTo(g, pred, dst, hops[..|hops| - 1], u) && pred[u] == e
  }

  lemma {:induction false} WholeWalk(g: Graph, pred: seq<int>, dst: int, hops: seq<int>, v: int, rest: seq<int>)
    requires GraphOk(g) && PredsInRange(g, pred) && CameTo(g, pred, dst, hops, v) && LeadsBack(g, pred, v, rest)
    ensures LeadsBack(g, pred, dst, hops + rest)
    decreases |hops|
  {
    if hops == [] {
      assert hops + rest == rest;
    } else {
      var n := |hops| - 1;
      var u :| CameTo(g, pred, dst, hops[..n], u) && pred[u] == hops[n];
      assert ([hops[n]] + rest)[1..] == rest;
      WholeWalk(g, pred, dst, hops[..n], u, [hops[n]] + rest);
      assert hops[..n] + ([hops[n]] + rest) == hops + rest;
    }
  }

  lemma CameFurther(g: Graph, pred: seq<int>, dst: int, hops: seq<int>, v: int)
    requires GraphOk(g) && PredsInRange(g, pred) && CameTo(g, pred, dst, hops, v) && pred[v] != NIL
    ensures 0 <= pred[v] < E(g) && CameTo(g, pred, dst, hops + [pred[v]], g.src[pred[v]])
  {
    assert EdgeOk(g, pred[v]);
    assert (hops + [pred[v]])[..|hops + [pred[v]]| - 1] == hops;
  }

  /** Lines 39 to 42: the loop ends exactly when the walk does. */
  method Walk(g: Graph, pred: seq<int>, dst: int) returns (hops: seq<int>)
    requires GraphOk(g) && PredsInRange(g, pred) && 0 <= dst < g.n && WalkEnds(g, pred, dst)
    ensures LeadsBack(g, pred, dst, hops)
  {
    hide LeadsBack, CameTo, Back, GraphOk;
    hops := [];
    var hop := pred[dst];
    ghost var v := dst;
    ghost var left: nat :| pred[Back(g, pred, dst, left)] == NIL;
    CameNowhere(g, pred, dst);
    while hop != NIL
      invariant 0 <= v < g.n && hop == pred[v] && pred[Back(g, pred, v, left)] == NIL && CameTo(g, pred, dst, hops, v)
      decreases left
    {
      BackNowhere(g, pred, v);
      BackShift(g, pred, v, left - 1);
      CameFurther(g, pred, dst, hops, v);
      hops := hops + [hop];
      v := g.src[hop];
      hop := pred[g.src[hop]];
      left := left - 1;
    }
    StopsHere(g, pred, v);
    WholeWalk(g, pred, dst, hops, v, []);
    assert hops + [] == hops;
  }

  lemma CameNowhere(g: Graph, pred: seq<int>, dst: int)
    requires GraphOk(g) && PredsInRange(g, pred) && 0 <= dst < g.n
    ensures CameTo(g, pred, dst, [], dst)
  {
  }

  lemma BackNowhere(g: Graph, pred: seq<int>, v: int)
    requires GraphOk(g) && PredsInRange(g, pred) && 0 <= v < g.n
    ensures Back(g, pred, v, 0) == v && |g.src| == E(g)
  {
  }

  lemma StopsHere(g: Graph, pred: seq<int>, v: int)
    requires GraphOk(g) && PredsInRange(g, pred) && 0 <= v < g.n && pred[v] == NIL
    ensures LeadsBack(g, pred, v, [])
  {
  }

  /** What the walk meets is the tree path, backwards. */
  lemma {:induction false} WalkIsTreePath(g: Graph, pred: seq<int>, s: int, v: int, p: seq<int>, hops: seq<int>)
    requires GraphOk(g) && PredsInRange(g, pred) && 0 <= s < g.n && 0 <= v < g.n
    requires TreePath(g, pred, s, v, p) && LeadsBack(g, pred, v, hops)
    ensures hops == Reversed(p)
    decreases |p|
  {
    if p != [] {
      WalkIsTreePath(g, pred, s, g.src[hops[0]], p[..|p| - 1], hops[1..]);
    }
  }

  /** A tree path makes the walk end. */
  lemma {:induction false} TreePathEnds(g: Graph, pred: seq<int>, s: int, v: int, p: seq<int>)
    requires GraphOk(g) && PredsInRange(g, pred) && 0 <= s < g.n && 0 <= v < g.n && TreePath(g, pred, s, v, p)
    ensures pred[Back(g, pred, v, |p|)] == NIL
    decreases |p|
  {
    if p != [] {
      var n := |p| - 1;
      TreePathEnds(g, pred, s, g.src[p[n]], p[..n]);
      BackShift(g, pred, v, n);
    }
  }

  // ---------------------------------------------------------------- when the walk ends

  /** Some edge enters `v`. */
  ghost predicate Entered(g: Graph, v: int)
    requires |g.src| == |g.tgt|
  {
    exists e :: 0 <= e < E(g) && g.tgt[e] == v
  }

  lemma EntersInRange(g: Graph, pred: seq<int>, s: int)
    requires |g.src| == |g.tgt| && PredsEnter(g, pred, s)
    ensures PredsInRange(g, pred)
  {
    forall v | 0 <= v < g.n
      ensures pred[v] == NIL || 0 <= pred[v] < E(g)
    {
      assert PredEnters(g, pred, s, v);
    }
  }

  /** Every step back goes against an edge. */
  lemma {:induction false} BackLeadsTo(g: Graph, pred: seq<int>, s: int, v: int, n: nat)
    requires GraphOk(g) && PredsEnter(g, pred, s) && PredsInRange(g, pred) && 0 <= v < g.n
    ensures Reachable(g, Back(g, pred, v, n), v)
  {
    if n == 0 {
      assert Path(g, v, [], v);
    } else {
      BackLeadsTo(g, pred, s, v, n - 1);
      var u := Back(g, pred, v, n - 1);
      assert PredEnters(g, pred, s, u);
      if pred[u] != NIL {
        assert EdgeOk(g, pred[u]);
        var p :| Path(g, u, p, v);
        PathPrepends(g, pred[u], p, v);
      }
    }
  }

  lemma {:induction false} PathPrepends(g: Graph, e: int, p: seq<int>, v: int)
    requires GraphOk(g) && 0 <= e < E(g) && Path(g, g.tgt[e], p, v)
    ensures Path(g, g.src[e], [e] + p, v)
    decreases |p|
  {
    if p == [] {
      assert Path(g, g.src[e], [], g.src[e]);
      assert ([e] + p)[..|[e] + p| - 1] == [];
    } else {
      PathPrepends(g, e, p[..|p| - 1], g.src[p[|p| - 1]]);
      assert ([e] + p)[..|[e] + p| - 1] == [e] + p[..|p| - 1];
    }
  }

  /** A vertex out of reach that is entered, and so is every vertex that leads to it: the walk goes on for ever. */
  lemma {:induction false} NeverEnds(g: Graph, pred: seq<int>, s: int, dst: int)
    requires GraphOk(g) && PredsEnter(g, pred, s) && PredsInRange(g, pred) && 0 <= s < g.n && 0 <= dst < g.n
    requires !Reachable(g, s, dst) && forall u :: 0 <= u < g.n && Reachable(g, u, dst) ==> Entered(g, u)
    ensures !WalkEnds(g, pred, dst)
  {
    forall n: nat
      ensures pred[Back(g, pred, dst, n)] != NIL
    {
      BackLeadsTo(g, pred, s, dst, n);
      assert PredEnters(g, pred, s, Back(g, pred, dst, n));
    }
  }

  ghost predicate OnCycle(g: Graph, u: int)
    requires GraphOk(g)
  {
    exists p :: p != [] && Path(g, u, p, u)
  }

  lemma {:induction false} BackPath(g: Graph, pred: seq<int>, s: int, v: int, i: nat, j: nat) returns (p: seq<int>)
    requires GraphOk(g) && PredsEnter(g, pred, s) && PredsInRange(g, pred) && 0 <= v < g.n && i <= j && !WalkEnds(g, pred, v)
    ensures Path(g, Back(g, pred, v, j), p, Back(g, pred, v, i)) && |p| == j - i
    decreases j
  {
    if i == j {
      p := [];
    } else {
      var q := BackPath(g, pred, s, v, i, j - 1);
      var u := Back(g, pred, v, j - 1);
      assert PredEnters(g, pred, s, u) && pred[u] != NIL;
      PathPrepends(g, pred[u], q, Back(g, pred, v, i));
      p := [pred[u]] + q;
    }
  }

  /** Where no cycle leads to the destination the walk ends. */
  lemma {:induction false} EndsWithoutCycles(g: Graph, pred: seq<int>, s: int, dst: int)
    requires GraphOk(g) && PredsEnter(g, pred, s) && PredsInRange(g, pred) && 0 <= dst < g.n
    requires forall u :: 0 <= u < g.n && Reachable(g, u, dst) ==> !OnCycle(g, u)
    ensures WalkEnds(g, pred, dst)
  {
    if !WalkEnds(g, pred, dst) {
      var met := seq(g.n + 1, i requires 0 <= i => Back(g, pred, dst, i));
      forall i, j | 0 <= i < j < |met|
        ensures met[i] != met[j]
      {
        BackLeadsTo(g, pred, s, dst, i);
        var p := BackPath(g, pred, s, dst, i, j);
        if met[i] == met[j] {
          assert OnCycle(g, met[i]);
        }
      }
      DistinctFits(met, 0, g.n);
    }
  }

  /**
   * Where every link goes both ways, told from the graph: the walk from `dst` ends if and only if `dst`
   * can be reached from the source or has no links. `pred` is what shortest_paths leaves for the source.
   */
  lemma {:induction false} EndsExactly(g: Graph, w: seq<int>, pred: seq<int>, s: int, dst: int)
    requires GraphOk(g) && Mirrored(g) && |w| == E(g) && 0 <= s < g.n && 0 <= dst < g.n
    requires PredsEnter(g, pred, s) && PredsInRange(g, pred) && (HarmlessInside(g, w, s) ==> ReachedRight(g, w, pred, s))
    ensures WalkEnds(g, pred, dst) <==> Reachable(g, s, dst) || !Entered(g, dst)
  {
    MirroredHarmless(g, w, s);
    assert PredEnters(g, pred, s, dst);
    if Reachable(g, s, dst) {
      assert Lightest(g, w, pred, s, dst);
      var p :| TreePath(g, pred, s, dst, p);
      TreePathEnds(g, pred, s, dst, p);
    } else if Entered(g, dst) {
      forall u | 0 <= u < g.n && Reachable(g, u, dst)
        ensures Entered(g, u)
      {
        var p :| Path(g, u, p, dst);
        LeavesSomewhere(g, u, p, dst);
      }
      NeverEnds(g, pred, s, dst);
    } else {
      var none: nat := 0;
      assert pred[Back(g, pred, dst, none)] == NIL;
    }
  }

  /** With links in both directions whatever leads to a reachable vertex is reachable. */
  lemma {:induction false} MirroredHarmless(g: Graph, w: seq<int>, s: int)
    requires GraphOk(g) && Mirrored(g) && |w| == E(g)
    ensures HarmlessInside(g, w, s)
  {
    forall e | 0 <= e < E(g) && Reachable(g, s, g.tgt[e])
      ensures HarmlessEdge(g, w, s, e)
    {
      assert HasMirror(g, e);
      var f :| MirrorOf(g, e, f);
      var p :| Path(g, s, p, g.tgt[e]);
      assert (p + [f])[..|p + [f]| - 1] == p;
      assert Path(g, s, p + [f], g.src[e]);
    }
  }

  /** A vertex from which an entered vertex can be reached is entered itself. */
  lemma {:induction false} LeavesSomewhere(g: Graph, u: int, p: seq<int>, v: int)
    requires GraphOk(g) && Mirrored(g) && Path(g, u, p, v) && Entered(g, v)
    ensures Entered(g, u)
    decreases |p|
  {
    if p != [] {
      var e := p[|p| - 1];
      assert HasMirror(g, e);
      var f :| MirrorOf(g, e, f);
      assert 0 <= f < E(g) && g.tgt[f] == g.src[e];
      LeavesSomewhere(g, u, p[..|p| - 1], g.src[e]);
    }
  }

  /** Vertex 0 stands alone; 1 and 2 are linked in both directions. */
  function Apart(): Graph {
    Graph(3, [1, 2], [2, 1], [[], [0], [1]])
  }

  /** Asked for routes from 0, the program follows 1 and 2 round each other for ever. */
  lemma {:induction false} RoundAndRound(pred: seq<int>)
    requires PredsEnter(Apart(), pred, 0)
    ensures var g := Apart(); GraphOk(g) && Mirrored(g) && PredsInRange(g, pred) && pred[1] != NIL && !WalkEnds(g, pred, 1)
  {
    var g := Apart();
    assert EdgeOk(g, 0) && EdgeOk(g, 1);
    assert MirrorOf(g, 0, 1) && MirrorOf(g, 1, 0);
    EntersInRange(g, pred, 0);
    assert PredEnters(g, pred, 0, 1) && g.tgt[1] == 1 && g.tgt[0] == 2;
    if Reachable(g, 0, 1) {
      var p :| Path(g, 0, p, 1);
      StaysAtZero(p, 1);
    }
    forall u | 0 <= u < g.n && Reachable(g, u, 1)
      ensures Entered(g, u)
    {
      var p :| Path(g, u, p, 1);
      assert 0 <= 1 < E(g) && g.tgt[1] == 1;
      LeavesSomewhere(g, u, p, 1);
    }
    NeverEnds(g, pred, 0, 1);
  }

  lemma {:induction false} StaysAtZero(p: seq<int>, v: int)
    requires GraphOk(Apart()) && Path(Apart(), 0, p, v)
    ensures v == 0
    decreases |p|
  {
    if p != [] {
      StaysAtZero(p[..|p| - 1], Apart().src[p[|p| - 1]]);
    }
  }

  // ---------------------------------------------------------------- the route

  ghost predicate UnitCosts(g: Graph, w: seq<int>) {
    |w| == E(g) && forall e :: 0 <= e < |w| ==> w[e] == 1
  }

  /** Lines 43 and 44: the hops from last to first. */
  method Emit(hops: seq<int>) returns (emitted: seq<int>)
    ensures emitted == Reversed(hops)
  {
    emitted := [];
    var i := |hops|;
    while i > 0
      invariant 0 <= i <= |hops| && |emitted| == |hops| - i
      invariant forall j :: 0 <= j < |emitted| ==> emitted[j] == hops[|hops| - 1 - j]
    {
      emitted := emitted + [hops[i - 1]];
      i := i - 1;
    }
  }

  /** The walk, read forwards, is a path from where it ended. */
  lemma {:induction false} WalkIsPath(g: Graph, pred: seq<int>, s: int, v: int, hops: seq<int>) returns (u: int)
    requires GraphOk(g) && PredsEnter(g, pred, s) && PredsInRange(g, pred) && LeadsBack(g, pred, v, hops)
    ensures 0 <= u < g.n && pred[u] == NIL && Path(g, u, Reversed(hops), v)
    decreases |hops|
  {
    if hops == [] {
      u := v;
    } else {
      u := WalkIsPath(g, pred, s, g.src[hops[0]], hops[1..]);
      assert PredEnters(g, pred, s, v);
      var p := Reversed(hops);
      assert p[..|p| - 1] == Reversed(hops[1..]) && p[|p| - 1] == hops[0];
    }
  }

  /**
   * The route written for a pair of nodes, if the walk ends. When there is a path it is a contiguous one
   * from the source, first hop first, and as long as breadth-first search counts. When there is none,
   * nothing is written exactly if no edge enters the destination; else it is a path from somewhere else.
   */
  method Route(g: Graph, w: seq<int>, pred: seq<int>, ghost s: int, dst: int, ghost dist: seq<int>) returns (emitted: seq<int>)
    requires GraphOk(g) && |pred| == |dist| == g.n && 0 <= s < g.n && 0 <= dst < g.n && dst != s
    requires UnitCosts(g, w) && ReachedRight(g, w, pred, s) && PredsEnter(g, pred, s) && HopCounts(g, s, dist)
    requires PredsInRange(g, pred) && WalkEnds(g, pred, dst)
    ensures Reachable(g, s, dst) ==> Path(g, s, emitted, dst) && |emitted| == dist[dst]
    ensures !Reachable(g, s, dst) ==> dist[dst] == -1 && (emitted == [] <==> !Entered(g, dst)) && exists u :: Path(g, u, emitted, dst)
  {
    assert PredEnters(g, pred, s, dst) && HopCountAt(g, s, dist, dst);
    emitted := [];
    ReachedHasPred(g, w, pred, s, dst);
    if pred[dst] != NIL {
      var hops := Walk(g, pred, dst);
      emitted := Emit(hops);
      ghost var u := WalkIsPath(g, pred, s, dst, hops);
      if Reachable(g, s, dst) {
        var path :| TreePath(g, pred, s, dst, path) && forall q :: Path(g, s, q, dst) ==> Weight(w, path) <= Weight(w, q);
        TreePathIsPath(g, pred, s, dst, path);
        RouteLength(g, w, s, dst, path, dist[dst]);
        WalkIsTreePath(g, pred, s, dst, path, hops);
        assert emitted == path;
      }
    } else {
      assert Path(g, dst, emitted, dst);
    }
  }

  lemma ReachedHasPred(g: Graph, w: seq<int>, pred: seq<int>, s: int, v: int)
    requires GraphOk(g) && |pred| == g.n && 0 <= s < g.n && 0 <= v < g.n && v != s && ReachedRight(g, w, pred, s)
    ensures Reachable(g, s, v) ==> pred[v] != NIL
  {
  }

  lemma {:induction false} RouteLength(g: Graph, w: seq<int>, s: int, dst: int, path: seq<int>, k: int)
    requires GraphOk(g) && UnitCosts(g, w) && Path(g, s, path, dst) && MinHops(g, s, dst, k)
    requires forall q :: Path(g, s, q, dst) ==> Weight(w, path) <= Weight(w, q)
    ensures |path| == k
  {
    var q :| Path(g, s, q, dst) && |q| == k;
    UnitWeight(w, g, s, q, dst);
    UnitWeight(w, g, s, path, dst);
  }
}
