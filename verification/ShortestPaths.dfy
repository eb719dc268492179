// Single-source shortest paths (shortest_paths, tools/graph.h).
module ShortestPaths {
  import opened Finite
  import opened Digraphs

  const NIL: int := -1

  /** Tentative distances (0 while infinite), which are infinite, and the edge each vertex was reached by. */
  datatype Tables = Tables(d: seq<int>, inf: seq<bool>, pred: seq<int>)

  ghost predicate Sized(g: Graph, w: seq<int>, s: int, t: Tables) {
    && GraphOk(g) && |w| == E(g) && 0 <= s < g.n && |t.d| == |t.inf| == |t.pred| == g.n
    && forall e :: 0 <= e < E(g) ==> w[e] >= 0
  }

  /** The heap order: does `a` come after `b`? */
  predicate SpCompare(d: seq<int>, inf: seq<bool>, a: int, b: int)
    requires 0 <= a < |d| == |inf| && 0 <= b < |d|
  {
    (inf[a] && !inf[b]) || (inf[a] && b < a) || (!inf[b] && (d[b] < d[a] || (!(d[a] < d[b]) && b < a)))
  }

  /** It is a strict total order as long as infinite vertices have distance 0. */
  lemma SpCompareTotal(d: seq<int>, inf: seq<bool>, a: int, b: int, c: int)
    requires 0 <= a < |d| == |inf| && 0 <= b < |d| && 0 <= c < |d|
    requires forall x :: 0 <= x < |d| ==> d[x] >= 0 && (inf[x] ==> d[x] == 0)
    ensures !SpCompare(d, inf, a, a)
    ensures a != b ==> SpCompare(d, inf, a, b) != SpCompare(d, inf, b, a)
    ensures SpCompare(d, inf, a, b) && SpCompare(d, inf, b, c) ==> SpCompare(d, inf, a, c)
  {
  }

  function Relaxed(g: Graph, w: seq<int>, t: Tables, u: int, e: int): Tables
    requires 0 <= e < |g.tgt| && 0 <= g.tgt[e] < |t.d| == |t.inf| == |t.pred| && 0 <= u < |t.d| && e < |w|
  {
    var v := g.tgt[e];
    if t.inf[v] || t.d[u] + w[e] < t.d[v] then Tables(t.d[v := t.d[u] + w[e]], t.inf[v := false], t.pred[v := e]) else t
  }

  // ---------------------------------------------------------------- while finite vertices are left

  /** The path that `pred` describes, through vertices that are done. */
  ghost predicate DoneTree(g: Graph, t: Tables, done: set<int>, s: int, v: int, p: seq<int>)
    requires GraphOk(g) && |t.pred| == g.n && 0 <= s < g.n && 0 <= v < g.n
    decreases |p|
  {
    if p == [] then v == s && t.pred[v] == NIL else
      var e := p[|p| - 1];
      && 0 <= e < E(g) && t.pred[v] == e && g.tgt[e] == v && 0 <= g.src[e] < g.n && g.src[e] in done
      && DoneTree(g, t, done, s, g.src[e], p[..|p| - 1])
  }

  ghost predicate HasTree(g: Graph, w: seq<int>, t: Tables, done: set<int>, s: int, v: int)
    requires Sized(g, w, s, t) && 0 <= v < g.n
  {
    exists p :: DoneTree(g, t, done, s, v, p) && Weight(w, p) == t.d[v]
  }

  ghost predicate FirstAt(g: Graph, w: seq<int>, s: int, t: Tables, done: set<int>, v: int)
    requires Sized(g, w, s, t) && 0 <= v < g.n
  {
    && t.d[v] >= 0
    && (if t.inf[v] then t.pred[v] == NIL && t.d[v] == 0 && v !in done else HasTree(g, w, t, done, s, v))
    && (!t.inf[v] && v !in done ==> forall u :: u in done && 0 <= u < g.n ==> t.d[u] <= t.d[v])
  }

  ghost predicate First(g: Graph, w: seq<int>, s: int, t: Tables, done: set<int>) {
    && Sized(g, w, s, t) && !t.inf[s] && t.d[s] == 0
    && (forall u :: u in done ==> 0 <= u < g.n)
    && forall v :: 0 <= v < g.n ==> FirstAt(g, w, s, t, done, v)
  }

  /** The first `k` edges out of `u` cannot improve anything. */
  ghost predicate Settled(g: Graph, w: seq<int>, t: Tables, u: int, k: int)
    requires GraphOk(g) && |w| == E(g) && |t.d| == |t.inf| == g.n && 0 <= u < g.n && 0 <= k <= |g.out[u]|
  {
    forall i :: 0 <= i < k ==> SettledEdge(g, w, t, u, OutEdge(g, u, i))
  }

  ghost predicate SettledEdge(g: Graph, w: seq<int>, t: Tables, u: int, e: int)
    requires |w| == E(g) && |t.d| == |t.inf| == g.n && 0 <= u < g.n && 0 <= e < E(g) == |g.tgt|
  {
    0 <= g.tgt[e] < g.n && !t.inf[g.tgt[e]] && t.d[g.tgt[e]] <= t.d[u] + w[e]
  }

  /** `u` is the last of the vertices that are done. */
  ghost predicate Farthest(t: Tables, done: set<int>, u: int) {
    u in done && 0 <= u < |t.d| && forall x :: x in done && 0 <= x < |t.d| ==> t.d[x] <= t.d[u]
  }

  lemma {:induction false} TreeMonotone(g: Graph, t: Tables, done: set<int>, done': set<int>, s: int, v: int, p: seq<int>)
    requires GraphOk(g) && |t.pred| == g.n && 0 <= s < g.n && 0 <= v < g.n && done <= done' && DoneTree(g, t, done, s, v, p)
    ensures DoneTree(g, t, done', s, v, p)
    decreases |p|
  {
    if p != [] {
      TreeMonotone(g, t, done, done', s, g.src[p[|p| - 1]], p[..|p| - 1]);
    }
  }

  /** A new predecessor for a vertex that is not done does not touch the trees of the others. */
  lemma {:induction false} TreeStays(g: Graph, t: Tables, t': Tables, done: set<int>, s: int, v: int, p: seq<int>, x: int)
    requires GraphOk(g) && |t.pred| == |t'.pred| == g.n && 0 <= s < g.n && 0 <= v < g.n && DoneTree(g, t, done, s, v, p)
    requires x !in done && v != x && forall y :: 0 <= y < g.n && y != x ==> t'.pred[y] == t.pred[y]
    ensures DoneTree(g, t', done, s, v, p)
    decreases |p|
  {
    if p != [] {
      TreeStays(g, t, t', done, s, g.src[p[|p| - 1]], p[..|p| - 1], x);
    }
  }

  lemma {:induction false} FirstPop(g: Graph, w: seq<int>, s: int, t: Tables, done: set<int>, u: int)
    requires First(g, w, s, t, done) && 0 <= u < g.n && u !in done && !t.inf[u]
    requires forall v :: 0 <= v < g.n && v !in done && !t.inf[v] ==> t.d[u] <= t.d[v]
    ensures First(g, w, s, t, done + {u}) && Farthest(t, done + {u}, u)
  {
    assert FirstAt(g, w, s, t, done, u);
    forall v | 0 <= v < g.n
      ensures FirstAt(g, w, s, t, done + {u}, v)
    {
      assert FirstAt(g, w, s, t, done, v);
      if !t.inf[v] {
        var p :| DoneTree(g, t, done, s, v, p) && Weight(w, p) == t.d[v];
        TreeMonotone(g, t, done, done + {u}, s, v, p);
      }
    }
  }

  lemma {:induction false} FirstRelax(g: Graph, w: seq<int>, s: int, t: Tables, done: set<int>, u: int, e: int)
    requires First(g, w, s, t, done) && Farthest(t, done, u) && 0 <= e < E(g) && g.src[e] == u && 0 <= g.tgt[e] < g.n
    ensures var t' := Relaxed(g, w, t, u, e);
      && First(g, w, s, t', done) && Farthest(t', done, u) && SettledEdge(g, w, t', u, e)
      && (forall x :: x in done ==> t'.d[x] == t.d[x])
      && (forall x :: 0 <= x < g.n && !t.inf[x] ==> !t'.inf[x] && t'.d[x] <= t.d[x])
  {
    var v, t' := g.tgt[e], Relaxed(g, w, t, u, e);
    assert FirstAt(g, w, s, t, done, u) && FirstAt(g, w, s, t, done, v);
    if t' != t {
      assert v !in done && v != s by {
        assert FirstAt(g, w, s, t, done, s);
      }
      forall x | 0 <= x < g.n
        ensures FirstAt(g, w, s, t', done, x)
      {
        assert FirstAt(g, w, s, t, done, x);
        if x == v {
          var p :| DoneTree(g, t, done, s, u, p) && Weight(w, p) == t.d[u];
          TreeStays(g, t, t', done, s, u, p, v);
          assert (p + [e])[..|p + [e]| - 1] == p;
          assert DoneTree(g, t', done, s, v, p + [e]);
        } else if !t.inf[x] {
          var p :| DoneTree(g, t, done, s, x, p) && Weight(w, p) == t.d[x];
          TreeStays(g, t, t', done, s, x, p, v);
        }
      }
    }
  }

  /** All vertices whose edges were relaxed are settled. */
  ghost predicate AllSettled(g: Graph, w: seq<int>, t: Tables, done: set<int>)
    requires GraphOk(g) && |w| == E(g) && |t.d| == |t.inf| == g.n
  {
    forall u :: u in done && 0 <= u < g.n ==> Settled(g, w, t, u, |g.out[u]|)
  }

  lemma {:induction false} SettledStays(g: Graph, w: seq<int>, t: Tables, t': Tables, u: int, k: int)
    requires GraphOk(g) && |w| == E(g) && |t.d| == |t.inf| == |t'.d| == |t'.inf| == g.n && 0 <= u < g.n && 0 <= k <= |g.out[u]|
    requires Settled(g, w, t, u, k) && t'.d[u] == t.d[u]
    requires forall x :: 0 <= x < g.n && !t.inf[x] ==> !t'.inf[x] && t'.d[x] <= t.d[x]
    ensures Settled(g, w, t', u, k)
  {
    forall i | 0 <= i < k
      ensures SettledEdge(g, w, t', u, OutEdge(g, u, i))
    {
      assert SettledEdge(g, w, t, u, OutEdge(g, u, i));
    }
  }

  // ---------------------------------------------------------------- when only infinite ones are left

  /** Every path leads to a settled vertex and is no shorter than its distance. */
  lemma {:induction false} NoShorter(g: Graph, w: seq<int>, s: int, t: Tables, done: set<int>, q: seq<int>, v: int)
    requires First(g, w, s, t, done) && AllSettled(g, w, t, done) && Path(g, s, q, v)
    requires forall x :: 0 <= x < g.n && x !in done ==> t.inf[x]
    ensures 0 <= v < g.n && v in done && t.d[v] <= Weight(w, q)
    decreases |q|
  {
    if q != [] {
      var e := q[|q| - 1];
      NoShorter(g, w, s, t, done, q[..|q| - 1], g.src[e]);
      var i := OutIndex(g, e);
      assert Settled(g, w, t, g.src[e], |g.out[g.src[e]]|);
      assert SettledEdge(g, w, t, g.src[e], OutEdge(g, g.src[e], i));
    }
  }

  lemma {:induction false} TreeIsPath(g: Graph, t: Tables, done: set<int>, s: int, v: int, p: seq<int>)
    requires GraphOk(g) && |t.pred| == g.n && 0 <= s < g.n && 0 <= v < g.n && DoneTree(g, t, done, s, v, p)
    ensures Path(g, s, p, v)
    decreases |p|
  {
    if p != [] {
      TreeIsPath(g, t, done, s, g.src[p[|p| - 1]], p[..|p| - 1]);
    }
  }

  /** The vertices done by then are exactly the reachable ones. */
  lemma {:induction false} DoneIsReachable(g: Graph, w: seq<int>, s: int, t: Tables, done: set<int>, v: int)
    requires First(g, w, s, t, done) && AllSettled(g, w, t, done) && 0 <= v < g.n
    requires forall x :: 0 <= x < g.n && x !in done ==> t.inf[x]
    ensures v in done <==> Reachable(g, s, v)
  {
    assert FirstAt(g, w, s, t, done, v);
    if v in done {
      var p :| DoneTree(g, t, done, s, v, p) && Weight(w, p) == t.d[v];
      TreeIsPath(g, t, done, s, v, p);
    } else if Reachable(g, s, v) {
      var q :| Path(g, s, q, v);
      NoShorter(g, w, s, t, done, q, v);
    }
  }

  /** A vertex that cannot be reached has been given a predecessor. */
  ghost predicate Spoilt(t: Tables, reached: set<int>) {
    exists x :: 0 <= x < |t.pred| && x !in reached && t.pred[x] != NIL
  }

  ghost predicate SecondAt(g: Graph, t0: Tables, reached: set<int>, t: Tables, v: int)
    requires |t0.d| == |t0.inf| == |t0.pred| == |t.d| == |t.inf| == |t.pred| == g.n && |g.src| == |g.tgt| && 0 <= v < g.n
  {
    && t.d[v] >= 0
    && (t.inf[v] ==> t0.inf[v] && t.d[v] == 0 && t.pred[v] == NIL)
    && if v in reached then
         && !t.inf[v] && t.d[v] <= t0.d[v]
         && ((t.d[v] == t0.d[v] && t.pred[v] == t0.pred[v]) ||
             (t.d[v] < t0.d[v] && 0 <= t.pred[v] < |g.src| && g.src[t.pred[v]] !in reached && g.tgt[t.pred[v]] == v))
       else !t.inf[v] ==> 0 <= t.pred[v] < |g.src| && g.tgt[t.pred[v]] == v
  }

  /** `t` has come from `t0`, in which the vertices in `reached` were settled and all others infinite. */
  ghost predicate Second(g: Graph, w: seq<int>, s: int, t0: Tables, reached: set<int>, t: Tables) {
    && First(g, w, s, t0, reached) && AllSettled(g, w, t0, reached)
    && (forall x :: 0 <= x < g.n && x !in reached ==> t0.inf[x])
    && Sized(g, w, s, t)
    && (forall v :: 0 <= v < g.n ==> SecondAt(g, t0, reached, t, v))
    && (Harmless(g, w, s) ==> t == t0)
    && (HarmlessInside(g, w, s) ==> forall v :: 0 <= v < g.n && v in reached ==> t.d[v] == t0.d[v] && t.pred[v] == t0.pred[v])
  }

  /**
   * Nothing that leaves an unreachable vertex can do any harm: it leads to a vertex that can be reached
   * from the source no more expensively than along that one edge.
   */
  ghost predicate HarmlessEdge(g: Graph, w: seq<int>, s: int, e: int)
    requires GraphOk(g) && |w| == E(g) && 0 <= e < E(g)
  {
    Reachable(g, s, g.src[e]) || Within(g, w, s, g.tgt[e], w[e])
  }

  ghost predicate Harmless(g: Graph, w: seq<int>, s: int)
    requires GraphOk(g) && |w| == E(g)
  {
    forall e :: 0 <= e < E(g) ==> HarmlessEdge(g, w, s, e)
  }

  /** The same for the vertices that can be reached only: no edge into one of them does harm. */
  ghost predicate HarmlessInside(g: Graph, w: seq<int>, s: int)
    requires GraphOk(g) && |w| == E(g)
  {
    forall e :: 0 <= e < E(g) && Reachable(g, s, g.tgt[e]) ==> HarmlessEdge(g, w, s, e)
  }

  /** The first `k` edges out of the unreachable vertex `u` have left their mark. */
  ghost predicate Marked(g: Graph, w: seq<int>, reached: set<int>, t: Tables, u: int, k: int)
    requires GraphOk(g) && |w| == E(g) && |t.d| == |t.inf| == |t.pred| == g.n && 0 <= u < g.n && 0 <= k <= |g.out[u]|
  {
    forall i :: 0 <= i < k ==> MarkedEdge(g, w, reached, t, OutEdge(g, u, i))
  }

  ghost predicate MarkedEdge(g: Graph, w: seq<int>, reached: set<int>, t: Tables, e: int)
    requires |w| == E(g) == |g.tgt| && |t.d| == |t.inf| == |t.pred| == g.n && 0 <= e < E(g)
  {
    0 <= g.tgt[e] < g.n && !t.inf[g.tgt[e]] && (Spoilt(t, reached) || t.d[g.tgt[e]] <= w[e])
  }

  lemma {:induction false} SecondStart(g: Graph, w: seq<int>, s: int, t: Tables, done: set<int>)
    requires First(g, w, s, t, done) && AllSettled(g, w, t, done) && forall x :: 0 <= x < g.n && x !in done ==> t.inf[x]
    ensures Second(g, w, s, t, done, t)
  {
    forall v | 0 <= v < g.n
      ensures SecondAt(g, t, done, t, v)
    {
      assert FirstAt(g, w, s, t, done, v);
    }
  }

  lemma {:induction false} SecondRelax(g: Graph, w: seq<int>, s: int, t0: Tables, reached: set<int>, t: Tables, u: int, e: int)
    requires Second(g, w, s, t0, reached, t) && 0 <= u < g.n && u !in reached
    requires 0 <= e < E(g) && g.src[e] == u && 0 <= g.tgt[e] < g.n
    ensures var t' := Relaxed(g, w, t, u, e);
      && Second(g, w, s, t0, reached, t') && MarkedEdge(g, w, reached, t', e)
      && (Spoilt(t, reached) ==> Spoilt(t', reached))
      && (forall x :: 0 <= x < g.n && !t.inf[x] ==> !t'.inf[x] && t'.d[x] <= t.d[x])
  {
    var v, t' := g.tgt[e], Relaxed(g, w, t, u, e);
    forall x | 0 <= x < g.n
      ensures SecondAt(g, t0, reached, t', x)
    {
      assert SecondAt(g, t0, reached, t, x) && SecondAt(g, t0, reached, t, u);
    }
    if Spoilt(t, reached) {
      var x :| 0 <= x < |t.pred| && x !in reached && t.pred[x] != NIL;
      assert t'.pred[x] != NIL;
    }
    assert SecondAt(g, t0, reached, t, u) && SecondAt(g, t0, reached, t', v);
    if v !in reached {
      assert t'.pred[v] != NIL;
    } else if !t.inf[u] {
      assert t.pred[u] != NIL;
    }
    if Harmless(g, w, s) {
      HarmlessRelax(g, w, s, t0, reached, u, e);
    }
    if HarmlessInside(g, w, s) && v in reached {
      HarmlessOne(g, w, s, t0, reached, u, e);
    }
  }

  lemma {:induction false} HarmlessOne(g: Graph, w: seq<int>, s: int, t: Tables, reached: set<int>, u: int, e: int)
    requires First(g, w, s, t, reached) && AllSettled(g, w, t, reached) && (forall x :: 0 <= x < g.n && x !in reached ==> t.inf[x])
    requires 0 <= u < g.n && u !in reached && HarmlessInside(g, w, s)
    requires 0 <= e < E(g) && g.src[e] == u && 0 <= g.tgt[e] < g.n && g.tgt[e] in reached
    ensures t.d[g.tgt[e]] <= w[e] && !t.inf[g.tgt[e]]
  {
    DoneIsReachable(g, w, s, t, reached, u);
    DoneIsReachable(g, w, s, t, reached, g.tgt[e]);
    assert HarmlessEdge(g, w, s, e);
    var q :| Path(g, s, q, g.tgt[e]) && Weight(w, q) <= w[e];
    NoShorter(g, w, s, t, reached, q, g.tgt[e]);
    assert FirstAt(g, w, s, t, reached, g.tgt[e]);
  }

  lemma {:induction false} HarmlessRelax(g: Graph, w: seq<int>, s: int, t: Tables, reached: set<int>, u: int, e: int)
    requires Second(g, w, s, t, reached, t) && 0 <= u < g.n && u !in reached && Harmless(g, w, s)
    requires 0 <= e < E(g) && g.src[e] == u && 0 <= g.tgt[e] < g.n
    ensures Relaxed(g, w, t, u, e) == t
  {
    DoneIsReachable(g, w, s, t, reached, u);
    assert HarmlessEdge(g, w, s, e);
    var q :| Path(g, s, q, g.tgt[e]) && Weight(w, q) <= w[e];
    NoShorter(g, w, s, t, reached, q, g.tgt[e]);
    assert FirstAt(g, w, s, t, reached, u) && FirstAt(g, w, s, t, reached, g.tgt[e]);
  }

  // ---------------------------------------------------------------- what is left in pred

  /** Following `pred` back from `v` gives `p`, which starts at `s`. */
  ghost predicate TreePath(g: Graph, pred: seq<int>, s: int, v: int, p: seq<int>)
    requires GraphOk(g) && |pred| == g.n && 0 <= s < g.n && 0 <= v < g.n
    decreases |p|
  {
    if p == [] then v == s && pred[v] == NIL else
      var e := p[|p| - 1];
      && 0 <= e < E(g) && pred[v] == e && g.tgt[e] == v && 0 <= g.src[e] < g.n
      && TreePath(g, pred, s, g.src[e], p[..|p| - 1])
  }

  /** Following `pred` back from `v` gives a lightest path from `s`. */
  ghost predicate Lightest(g: Graph, w: seq<int>, pred: seq<int>, s: int, v: int)
    requires GraphOk(g) && |pred| == g.n && 0 <= s < g.n && 0 <= v < g.n
  {
    exists p :: TreePath(g, pred, s, v, p) && forall q :: Path(g, s, q, v) ==> Weight(w, p) <= Weight(w, q)
  }

  ghost predicate CorrectAt(g: Graph, w: seq<int>, pred: seq<int>, s: int, v: int)
    requires GraphOk(g) && |pred| == g.n && 0 <= s < g.n && 0 <= v < g.n
  {
    if Reachable(g, s, v) then Lightest(g, w, pred, s, v) else pred[v] == NIL
  }

  ghost predicate Correct(g: Graph, w: seq<int>, pred: seq<int>, s: int)
    requires GraphOk(g) && |pred| == g.n && 0 <= s < g.n
  {
    forall v :: 0 <= v < g.n ==> CorrectAt(g, w, pred, s, v)
  }

  lemma {:induction false} DoneTreeIsTreePath(g: Graph, t: Tables, done: set<int>, s: int, v: int, p: seq<int>)
    requires GraphOk(g) && |t.pred| == g.n && 0 <= s < g.n && 0 <= v < g.n && DoneTree(g, t, done, s, v, p)
    ensures TreePath(g, t.pred, s, v, p)
    decreases |p|
  {
    if p != [] {
      DoneTreeIsTreePath(g, t, done, s, g.src[p[|p| - 1]], p[..|p| - 1]);
    }
  }

  lemma {:induction false} TreePathIsPath(g: Graph, pred: seq<int>, s: int, v: int, p: seq<int>)
    requires GraphOk(g) && |pred| == g.n && 0 <= s < g.n && 0 <= v < g.n && TreePath(g, pred, s, v, p)
    ensures Path(g, s, p, v)
    decreases |p|
  {
    if p != [] {
      TreePathIsPath(g, pred, s, g.src[p[|p| - 1]], p[..|p| - 1]);
    }
  }

  lemma {:induction false} SettledIsCorrect(g: Graph, w: seq<int>, s: int, t: Tables, done: set<int>)
    requires First(g, w, s, t, done) && AllSettled(g, w, t, done) && forall x :: 0 <= x < g.n && x !in done ==> t.inf[x]
    ensures Correct(g, w, t.pred, s)
  {
    forall v | 0 <= v < g.n
      ensures CorrectAt(g, w, t.pred, s, v)
    {
      DoneIsReachable(g, w, s, t, done, v);
      assert FirstAt(g, w, s, t, done, v);
      if v in done {
        var p :| DoneTree(g, t, done, s, v, p) && Weight(w, p) == t.d[v];
        DoneTreeIsTreePath(g, t, done, s, v, p);
        forall q | Path(g, s, q, v)
          ensures Weight(w, p) <= Weight(w, q)
        {
          NoShorter(g, w, s, t, done, q, v);
        }
      }
    }
  }

  ghost predicate AllMarked(g: Graph, w: seq<int>, reached: set<int>, t: Tables, done: set<int>)
    requires GraphOk(g) && |w| == E(g) && |t.d| == |t.inf| == |t.pred| == g.n
  {
    forall u :: u in done && 0 <= u < g.n && u !in reached ==> Marked(g, w, reached, t, u, |g.out[u]|)
  }

  /** One harmful edge is enough to leave a wrong predecessor. */
  lemma {:induction false} HarmShows(g: Graph, w: seq<int>, s: int, t0: Tables, reached: set<int>, t: Tables, done: set<int>)
    requires Second(g, w, s, t0, reached, t) && AllMarked(g, w, reached, t, done) && (forall u :: 0 <= u < g.n ==> u in done)
    requires !Harmless(g, w, s)
    ensures !Correct(g, w, t.pred, s)
  {
    if Spoilt(t, reached) {
      var x :| 0 <= x < |t.pred| && x !in reached && t.pred[x] != NIL;
      DoneIsReachable(g, w, s, t0, reached, x);
      assert !CorrectAt(g, w, t.pred, s, x);
    } else {
      var e :| 0 <= e < E(g) && !HarmlessEdge(g, w, s, e);
      var u, v := g.src[e], g.tgt[e];
      var i := OutIndex(g, e);
      DoneIsReachable(g, w, s, t0, reached, u);
      DoneIsReachable(g, w, s, t0, reached, v);
      assert Marked(g, w, reached, t, u, |g.out[u]|) && MarkedEdge(g, w, reached, t, OutEdge(g, u, i));
      assert SecondAt(g, t0, reached, t, v) && v in reached;
      assert FirstAt(g, w, s, t0, reached, v);
      var p :| DoneTree(g, t0, reached, s, v, p) && Weight(w, p) == t0.d[v];
      TreeIsPath(g, t0, reached, s, v, p);
      assert Path(g, s, p, v);
      assert t.d[v] < t0.d[v];
      WrongWay(g, w, s, t0, reached, t, v);
    }
  }

  /** A reachable vertex whose predecessor is an edge from an unreachable one. */
  lemma {:induction false} WrongWay(g: Graph, w: seq<int>, s: int, t0: Tables, reached: set<int>, t: Tables, v: int)
    requires Second(g, w, s, t0, reached, t) && 0 <= v < g.n && v in reached && t.d[v] < t0.d[v]
    ensures !Correct(g, w, t.pred, s)
  {
    assert SecondAt(g, t0, reached, t, v);
    var u := g.src[t.pred[v]];
    var i := OutIndex(g, t.pred[v]);
    DoneIsReachable(g, w, s, t0, reached, u);
    DoneIsReachable(g, w, s, t0, reached, v);
    if CorrectAt(g, w, t.pred, s, v) {
      var p :| TreePath(g, t.pred, s, v, p);
      TreePathIsPath(g, t.pred, s, u, p[..|p| - 1]);
      assert false;
    }
  }

  /** With every vertex reachable nothing can go wrong. */
  lemma AllReachable(g: Graph, w: seq<int>, s: int)
    requires GraphOk(g) && |w| == E(g) && forall v :: 0 <= v < g.n ==> Reachable(g, s, v)
    ensures Harmless(g, w, s)
  {
    forall e | 0 <= e < E(g)
      ensures HarmlessEdge(g, w, s, e)
    {
      assert EdgeOk(g, e);
    }
  }

  /** Vertex 1 costs 5 from vertex 0, but vertex 2, which 0 cannot reach, has an edge to it that costs nothing. */
  function Misleading(): Graph {
    Graph(3, [0, 2], [1, 1], [[0], [], [1]])
  }

  lemma {:induction false} MisleadingPaths(p: seq<int>, v: int)
    requires GraphOk(Misleading()) && Path(Misleading(), 0, p, v)
    ensures v == 0 ==> p == []
    ensures v != 2 && (v == 1 ==> Weight([5, 0], p) == 5)
    decreases |p|
  {
    if p != [] {
      MisleadingPaths(p[..|p| - 1], Misleading().src[p[|p| - 1]]);
    }
  }

  /** So there are inputs for which the result is wrong. */
  lemma {:induction false} HarmExists()
    ensures GraphOk(Misleading()) && !Harmless(Misleading(), [5, 0], 0)
  {
    var g := Misleading();
    assert EdgeOk(g, 0) && EdgeOk(g, 1);
    if Reachable(g, 0, 2) {
      var p :| Path(g, 0, p, 2);
      MisleadingPaths(p, 2);
    }
    if Within(g, [5, 0], 0, 1, 0) {
      var p :| Path(g, 0, p, 1) && Weight([5, 0], p) <= 0;
      MisleadingPaths(p, 1);
    }
    assert !HarmlessEdge(g, [5, 0], 0, 1);
  }

  // ---------------------------------------------------------------- the algorithm

  /** The vertices that have left the heap. */
  ghost function Popped(heap: seq<int>, heapSize: int): set<int>
    requires 0 <= heapSize <= |heap|
  {
    Elements(heap[heapSize..])
  }

  /**
   * make_heap and pop_heap together: the vertex that comes before all others in the heap order moves
   * behind the rest.
   */
  method PopBest(heap: array<int>, heapSize: int, d: seq<int>, inf: seq<bool>)
    requires 0 < heapSize <= heap.Length == |d| == |inf| && IsPermutation(heap[..], |d|)
    requires forall x :: 0 <= x < |d| ==> d[x] >= 0 && (inf[x] ==> d[x] == 0)
    modifies heap
    ensures IsPermutation(heap[..], |d|) && heap[heapSize..] == old(heap[heapSize..])
    ensures forall i :: 0 <= i < heapSize ==> !SpCompare(d, inf, heap[heapSize - 1], heap[i])
  {
    var best := 0;
    ghost var h := heap[..];
    assert forall j :: 0 <= j < heap.Length ==> 0 <= heap[..][j] < |d|;
    for i := 0 to heapSize
      invariant heap[..] == h && 0 <= best < heapSize && forall j :: 0 <= j < heap.Length ==> 0 <= heap[j] < |d|
      invariant forall j :: 0 <= j < i ==> !SpCompare(d, inf, heap[best], heap[j])
    {
      if SpCompare(d, inf, heap[best], heap[i]) {
        NewBest(heap[..i], d, inf, heap[best], heap[i]);
        best := i;
      }
    }
    heap[best], heap[heapSize - 1] := heap[heapSize - 1], heap[best];
    assert heap[..] == h[best := h[heapSize - 1]][heapSize - 1 := h[best]];
    SwapPermutation(h, |d|, best, heapSize - 1);
    assert heap[heapSize..] == h[heapSize..];
  }

  lemma SwapPermutation(s: seq<int>, n: int, i: int, j: int)
    requires IsPermutation(s, n) && 0 <= i < n && 0 <= j < n
    ensures IsPermutation(s[i := s[j]][j := s[i]], n)
  {
  }

  lemma NewBest(seen: seq<int>, d: seq<int>, inf: seq<bool>, a: int, b: int)
    requires |d| == |inf| && 0 <= a < |d| && 0 <= b < |d| && SpCompare(d, inf, a, b)
    requires forall x :: 0 <= x < |d| ==> d[x] >= 0 && (inf[x] ==> d[x] == 0)
    requires forall j :: 0 <= j < |seen| ==> 0 <= seen[j] < |d| && !SpCompare(d, inf, a, seen[j])
    ensures !SpCompare(d, inf, b, b) && forall j :: 0 <= j < |seen| ==> !SpCompare(d, inf, b, seen[j])
  {
    SpCompareTotal(d, inf, b, b, b);
    forall j | 0 <= j < |seen|
      ensures !SpCompare(d, inf, b, seen[j])
    {
      SpCompareTotal(d, inf, a, b, seen[j]);
    }
  }

  lemma {:induction false} PoppedOne(heap: seq<int>, heapSize: int, n: int)
    requires IsPermutation(heap, n) && 0 < heapSize <= n
    ensures Popped(heap, heapSize - 1) == Popped(heap, heapSize) + {heap[heapSize - 1]} && heap[heapSize - 1] !in Popped(heap, heapSize)
  {
    assert heap[heapSize - 1..] == [heap[heapSize - 1]] + heap[heapSize..];
  }

  lemma {:induction false} NotPopped(heap: seq<int>, heapSize: int, n: int, v: int)
    requires IsPermutation(heap, n) && 0 <= heapSize <= n && 0 <= v < n && v !in Popped(heap, heapSize)
    ensures exists i :: 0 <= i < heapSize && heap[i] == v
  {
    PermutationHitsAll(heap, n, v);
    forall j | heapSize <= j < |heap|
      ensures heap[j] in Popped(heap, heapSize)
    {
      assert heap[heapSize..][j - heapSize] == heap[j];
    }
  }

  /** Between two pops: in the first phase, or `second` and derived from the tables `t0` in which `reached` was settled. */
  ghost predicate Loop(g: Graph, w: seq<int>, s: int, t: Tables, done: set<int>, second: bool, t0: Tables, reached: set<int>) {
    if !second then First(g, w, s, t, done) && AllSettled(g, w, t, done)
    else Second(g, w, s, t0, reached, t) && reached <= done && AllMarked(g, w, reached, t, done)
  }

  lemma LoopFacts(g: Graph, w: seq<int>, s: int, t: Tables, done: set<int>, second: bool, t0: Tables, reached: set<int>)
    requires Loop(g, w, s, t, done, second, t0, reached)
    ensures Sized(g, w, s, t) && forall x :: 0 <= x < g.n ==> t.d[x] >= 0 && (t.inf[x] ==> t.d[x] == 0)
  {
    forall x | 0 <= x < g.n
      ensures t.d[x] >= 0 && (t.inf[x] ==> t.d[x] == 0)
    {
      if second {
        assert SecondAt(g, t0, reached, t, x);
      } else {
        assert FirstAt(g, w, s, t, done, x);
      }
    }
  }

  /** While the edges of the popped vertex `u` are scanned. */
  ghost predicate Scanning(g: Graph, w: seq<int>, s: int, t: Tables, done: set<int>, u: int, second: bool, t0: Tables, reached: set<int>, i: int) {
    && Sized(g, w, s, t) && 0 <= u < g.n && 0 <= i <= |g.out[u]| && u !in done
    && if !second then
         First(g, w, s, t, done + {u}) && Farthest(t, done + {u}, u) && AllSettled(g, w, t, done) && Settled(g, w, t, u, i)
       else
         && Second(g, w, s, t0, reached, t) && reached <= done && AllMarked(g, w, reached, t, done)
         && u !in reached && Marked(g, w, reached, t, u, i)
  }

  /** What popping a vertex starts: possibly the second phase. */
  lemma {:induction false} StartScan(g: Graph, w: seq<int>, s: int, t: Tables, done: set<int>, second: bool, t0: Tables, reached: set<int>, u: int)
    requires Loop(g, w, s, t, done, second, t0, reached) && Sized(g, w, s, t) && 0 <= u < g.n && u !in done
    requires forall v :: 0 <= v < g.n && v !in done ==> !SpCompare(t.d, t.inf, u, v)
    ensures !second && !t.inf[u] ==> Scanning(g, w, s, t, done, u, false, t0, reached, 0)
    ensures !second && t.inf[u] ==> Scanning(g, w, s, t, done, u, true, t, done, 0)
    ensures second ==> Scanning(g, w, s, t, done, u, true, t0, reached, 0)
  {
    hide DoneTree;
    if !second {
      if t.inf[u] {
        forall v | 0 <= v < g.n && v !in done
          ensures t.inf[v]
        {
          assert !SpCompare(t.d, t.inf, u, v);
        }
        SecondStart(g, w, s, t, done);
      } else {
        FirstPop(g, w, s, t, done, u);
      }
    }
  }

  lemma RelaxedSized(g: Graph, w: seq<int>, t: Tables, u: int, e: int)
    requires 0 <= e < |g.tgt| && 0 <= g.tgt[e] < |t.d| == |t.inf| == |t.pred| && 0 <= u < |t.d| && e < |w|
    ensures var t' := Relaxed(g, w, t, u, e); |t'.d| == |t'.inf| == |t'.pred| == |t.d|
  {
  }

  lemma {:induction false} ScanStep(g: Graph, w: seq<int>, s: int, t: Tables, done: set<int>, u: int, second: bool, t0: Tables, reached: set<int>, i: int)
    requires Scanning(g, w, s, t, done, u, second, t0, reached, i) && i < |g.out[u]|
    ensures var e := OutEdge(g, u, i);
      0 <= g.tgt[e] < g.n && Scanning(g, w, s, Relaxed(g, w, t, u, e), done, u, second, t0, reached, i + 1)
  {
    hide First, Second, Relaxed, DoneTree, SettledEdge, MarkedEdge;
    var e := OutEdge(g, u, i);
    assert EdgeOk(g, e);
    var t' := Relaxed(g, w, t, u, e);
    RelaxedSized(g, w, t, u, e);
    if !second {
      FirstRelax(g, w, s, t, done + {u}, u, e);
      forall x | x in done && 0 <= x < g.n
        ensures Settled(g, w, t', x, |g.out[x]|)
      {
        SettledStays(g, w, t, t', x, |g.out[x]|);
      }
      SettledStays(g, w, t, t', u, i);
    } else {
      SecondRelax(g, w, s, t0, reached, t, u, e);
      forall x | x in done && 0 <= x < g.n && x !in reached
        ensures Marked(g, w, reached, t', x, |g.out[x]|)
      {
        MarkedStays(g, w, reached, t, t', x, |g.out[x]|);
      }
      MarkedStays(g, w, reached, t, t', u, i);
    }
  }

  lemma {:induction false} MarkedStays(g: Graph, w: seq<int>, reached: set<int>, t: Tables, t': Tables, u: int, k: int)
    requires GraphOk(g) && |w| == E(g) && |t.d| == |t.inf| == |t.pred| == |t'.d| == |t'.inf| == |t'.pred| == g.n
    requires 0 <= u < g.n && 0 <= k <= |g.out[u]| && Marked(g, w, reached, t, u, k) && (Spoilt(t, reached) ==> Spoilt(t', reached))
    requires forall x :: 0 <= x < g.n && !t.inf[x] ==> !t'.inf[x] && t'.d[x] <= t.d[x]
    ensures Marked(g, w, reached, t', u, k)
  {
    hide Spoilt;
    forall i | 0 <= i < k
      ensures MarkedEdge(g, w, reached, t', OutEdge(g, u, i))
    {
      assert MarkedEdge(g, w, reached, t, OutEdge(g, u, i));
    }
  }

  /** Relaxes every edge out of the popped vertex. */
  method Relax(g: Graph, w: seq<int>, ghost s: int, d: array<int>, inf: array<bool>, pred: array<int>, u: int,
               ghost done: set<int>, ghost second: bool, ghost t0: Tables, ghost reached: set<int>)
    requires d.Length == inf.Length == pred.Length == g.n && d != pred
    requires Scanning(g, w, s, Tables(d[..], inf[..], pred[..]), done, u, second, t0, reached, 0)
    modifies d, inf, pred
    ensures Scanning(g, w, s, Tables(d[..], inf[..], pred[..]), done, u, second, t0, reached, |g.out[u]|)
  {
    hide Scanning;
    ScanningFacts(g, w, s, Tables(d[..], inf[..], pred[..]), done, u, second, t0, reached, 0);
    for i := 0 to |g.out[u]|
      invariant Scanning(g, w, s, Tables(d[..], inf[..], pred[..]), done, u, second, t0, reached, i)
    {
      ghost var t := Tables(d[..], inf[..], pred[..]);
      ScanStep(g, w, s, t, done, u, second, t0, reached, i);
      var e := OutEdge(g, u, i);
      var v := g.tgt[e];
      if inf[v] || d[u] + w[e] < d[v] {
        d[v] := d[u] + w[e];
        inf[v] := false;
        pred[v] := e;
      }
      assert Tables(d[..], inf[..], pred[..]) == Relaxed(g, w, t, u, e);
    }
  }

  lemma ScanningFacts(g: Graph, w: seq<int>, s: int, t: Tables, done: set<int>, u: int, second: bool, t0: Tables, reached: set<int>, i: int)
    requires Scanning(g, w, s, t, done, u, second, t0, reached, i)
    ensures GraphOk(g) && |w| == E(g) && 0 <= u < g.n
  {
  }

  lemma {:induction false} EndScan(g: Graph, w: seq<int>, s: int, t: Tables, done: set<int>, u: int, second: bool, t0: Tables, reached: set<int>)
    requires Sized(g, w, s, t) && 0 <= u < g.n && Scanning(g, w, s, t, done, u, second, t0, reached, |g.out[u]|)
    ensures Loop(g, w, s, t, done + {u}, second, t0, reached)
  {
    hide First, Second, SettledEdge, MarkedEdge;
  }

  lemma {:induction false} LoopEnd(g: Graph, w: seq<int>, s: int, t: Tables, done: set<int>, second: bool, t0: Tables, reached: set<int>)
    requires Loop(g, w, s, t, done, second, t0, reached) && Sized(g, w, s, t) && forall v :: 0 <= v < g.n ==> v in done
    ensures Correct(g, w, t.pred, s) <==> Harmless(g, w, s)
  {
    if !second {
      SettledIsCorrect(g, w, s, t, done);
      forall e | 0 <= e < E(g)
        ensures HarmlessEdge(g, w, s, e)
      {
        var i := OutIndex(g, e);
        DoneIsReachable(g, w, s, t, done, g.src[e]);
      }
    } else if Harmless(g, w, s) {
      SettledIsCorrect(g, w, s, t0, reached);
    } else {
      HarmShows(g, w, s, t0, reached, t, done);
    }
  }

  // ---------------------------------------------------------------- what pred holds in any case

  /** A vertex has a predecessor, an edge that enters it, unless it is the source or no edge enters it. */
  ghost predicate PredEnters(g: Graph, pred: seq<int>, s: int, v: int)
    requires |g.src| == |g.tgt| && 0 <= v < |pred|
  {
    if pred[v] == NIL then v == s || forall e :: 0 <= e < E(g) ==> g.tgt[e] != v
    else v != s && 0 <= pred[v] < E(g) && g.tgt[pred[v]] == v
  }

  ghost predicate PredsEnter(g: Graph, pred: seq<int>, s: int)
    requires |g.src| == |g.tgt|
  {
    |pred| == g.n && forall v :: 0 <= v < g.n ==> PredEnters(g, pred, s, v)
  }

  /** Every reachable vertex is left with a lightest path. */
  ghost predicate ReachedRight(g: Graph, w: seq<int>, pred: seq<int>, s: int)
    requires GraphOk(g) && |pred| == g.n && 0 <= s < g.n
  {
    forall v :: 0 <= v < g.n && Reachable(g, s, v) ==> Lightest(g, w, pred, s, v)
  }

  /** What the first phase leaves for a settled vertex. */
  lemma {:induction false} DoneEnters(g: Graph, w: seq<int>, s: int, t: Tables, done: set<int>, v: int)
    requires First(g, w, s, t, done) && 0 <= v < g.n && v in done
    ensures !t.inf[v] && t.d[v] >= 0
    ensures if t.pred[v] == NIL then v == s else 0 <= t.pred[v] < E(g) && g.tgt[t.pred[v]] == v
    ensures v == s ==> t.d[v] == 0
  {
    assert FirstAt(g, w, s, t, done, v);
    var p :| DoneTree(g, t, done, s, v, p) && Weight(w, p) == t.d[v];
  }

  /** The source never gets a predecessor. */
  ghost predicate SourceFree(t: Tables, s: int)
    requires 0 <= s < |t.pred|
  {
    t.pred[s] == NIL
  }

  /** Every tree ends at the source, which therefore has no predecessor. */
  lemma {:induction false} TreeRoot(g: Graph, t: Tables, done: set<int>, s: int, v: int, p: seq<int>)
    requires GraphOk(g) && |t.pred| == g.n && 0 <= s < g.n && 0 <= v < g.n && DoneTree(g, t, done, s, v, p)
    ensures t.pred[s] == NIL
    decreases |p|
  {
    if p != [] {
      TreeRoot(g, t, done, s, g.src[p[|p| - 1]], p[..|p| - 1]);
    }
  }

  lemma {:induction false} FreeAtFirst(g: Graph, w: seq<int>, s: int, t: Tables, done: set<int>)
    requires First(g, w, s, t, done)
    ensures t.pred[s] == NIL
  {
    assert FirstAt(g, w, s, t, done, s);
    var p :| DoneTree(g, t, done, s, s, p) && Weight(w, p) == t.d[s];
    TreeRoot(g, t, done, s, s, p);
  }

  lemma {:induction false} SourceStaysFree(g: Graph, w: seq<int>, s: int, t: Tables, done: set<int>, second: bool, t0: Tables, reached: set<int>)
    requires Loop(g, w, s, t, done, second, t0, reached) && Sized(g, w, s, t)
    ensures SourceFree(t, s)
  {
    if second {
      assert SecondAt(g, t0, reached, t, s) && FirstAt(g, w, s, t0, reached, s);
      FreeAtFirst(g, w, s, t0, reached);
    } else {
      FreeAtFirst(g, w, s, t, done);
    }
  }

  lemma {:induction false} EndEnters(g: Graph, w: seq<int>, s: int, t: Tables, done: set<int>, second: bool, t0: Tables, reached: set<int>, v: int)
    requires Loop(g, w, s, t, done, second, t0, reached) && Sized(g, w, s, t) && (forall v :: 0 <= v < g.n ==> v in done) && SourceFree(t, s)
    requires 0 <= v < g.n
    ensures PredEnters(g, t.pred, s, v)
  {
    if !second {
      DoneEnters(g, w, s, t, done, v);
    } else {
      assert SecondAt(g, t0, reached, t, v);
      if v in reached {
        DoneEnters(g, w, s, t0, reached, v);
      } else if e :| 0 <= e < E(g) && g.tgt[e] == v {
        NotInfinite(g, w, s, t, done, t0, reached, e);
      }
    }
  }

  lemma {:induction false} LeadsInside(g: Graph, w: seq<int>, s: int, t0: Tables, reached: set<int>, e: int)
    requires First(g, w, s, t0, reached) && AllSettled(g, w, t0, reached) && (forall x :: 0 <= x < g.n && x !in reached ==> t0.inf[x])
    requires 0 <= e < E(g)
    ensures g.src[e] in reached ==> g.tgt[e] in reached
  {
    var u := g.src[e];
    var i := OutIndex(g, e);
    assert u in reached ==> Settled(g, w, t0, u, |g.out[u]|) && SettledEdge(g, w, t0, u, OutEdge(g, u, i));
  }

  /** Every edge out of an unreachable vertex has been relaxed. */
  lemma {:induction false} NotInfinite(g: Graph, w: seq<int>, s: int, t: Tables, done: set<int>, t0: Tables, reached: set<int>, e: int)
    requires Second(g, w, s, t0, reached, t) && AllMarked(g, w, reached, t, done) && (forall v :: 0 <= v < g.n ==> v in done)
    requires 0 <= e < E(g) && 0 <= g.tgt[e] < g.n && g.tgt[e] !in reached
    ensures !t.inf[g.tgt[e]]
  {
    var u := g.src[e];
    var i := OutIndex(g, e);
    LeadsInside(g, w, s, t0, reached, e);
    assert Marked(g, w, reached, t, u, |g.out[u]|) && MarkedEdge(g, w, reached, t, OutEdge(g, u, i));
  }

  lemma {:induction false} EndReached(g: Graph, w: seq<int>, s: int, t: Tables, done: set<int>, second: bool, t0: Tables, reached: set<int>)
    requires Loop(g, w, s, t, done, second, t0, reached) && Sized(g, w, s, t) && (forall v :: 0 <= v < g.n ==> v in done)
    requires HarmlessInside(g, w, s)
    ensures ReachedRight(g, w, t.pred, s)
  {
    if !second {
      SettledIsCorrect(g, w, s, t, done);
      forall v | 0 <= v < g.n && Reachable(g, s, v)
        ensures Lightest(g, w, t.pred, s, v)
      {
        assert CorrectAt(g, w, t.pred, s, v);
      }
    } else {
      SettledIsCorrect(g, w, s, t0, reached);
      forall v | 0 <= v < g.n && Reachable(g, s, v)
        ensures Lightest(g, w, t.pred, s, v)
      {
        DoneIsReachable(g, w, s, t0, reached, v);
        assert FirstAt(g, w, s, t0, reached, v);
        var p :| DoneTree(g, t0, reached, s, v, p) && Weight(w, p) == t0.d[v];
        SameTree(g, t0, t, reached, s, v, p);
        forall q | Path(g, s, q, v)
          ensures Weight(w, p) <= Weight(w, q)
        {
          NoShorter(g, w, s, t0, reached, q, v);
        }
      }
    }
  }

  lemma {:induction false} SameTree(g: Graph, t0: Tables, t: Tables, done: set<int>, s: int, v: int, p: seq<int>)
    requires GraphOk(g) && |t0.pred| == |t.pred| == g.n && 0 <= s < g.n && 0 <= v < g.n && v in done && DoneTree(g, t0, done, s, v, p)
    requires forall x :: 0 <= x < g.n && x in done ==> t.pred[x] == t0.pred[x]
    ensures TreePath(g, t.pred, s, v, p)
    decreases |p|
  {
    if p != [] {
      SameTree(g, t0, t, done, s, g.src[p[|p| - 1]], p[..|p| - 1]);
    }
  }

  lemma StartLoop(g: Graph, w: seq<int>, s: int, t: Tables)
    requires Sized(g, w, s, t) && !t.inf[s] && t.d[s] == 0 && t.pred[s] == NIL
    requires forall v :: 0 <= v < g.n && v != s ==> t.inf[v] && t.d[v] == 0 && t.pred[v] == NIL
    ensures First(g, w, s, t, {}) && AllSettled(g, w, t, {})
  {
    forall v | 0 <= v < g.n
      ensures FirstAt(g, w, s, t, {}, v)
    {
      if v == s {
        assert DoneTree(g, t, {}, s, s, []) && Weight(w, []) == 0;
      }
    }
  }

  /**
   * Leaves in `pred` a tree of lightest paths to exactly the vertices that can be reached, if and only
   * if no edge out of an unreachable vertex can do harm; in particular when every vertex is reachable.
   */
  method ShortestPaths(g: Graph, w: seq<int>, s: int) returns (pred: array<int>)
    requires GraphOk(g) && |w| == E(g) && 0 <= s < g.n && forall e :: 0 <= e < E(g) ==> w[e] >= 0
    ensures pred.Length == g.n && (Correct(g, w, pred[..], s) <==> Harmless(g, w, s))
    ensures HarmlessInside(g, w, s) ==> ReachedRight(g, w, pred[..], s)
    ensures PredsEnter(g, pred[..], s)
  {
    hide Loop, Scanning, Correct, Harmless, HarmlessInside, ReachedRight, PredEnters, GraphOk;
    var d := new int[g.n](_ => 0);
    var inf := new bool[g.n](_ => true);
    var heap := new int[g.n](i => i);
    pred := new int[g.n](_ => NIL);
    inf[s] := false;
    var heapSize := heap.Length;
    ghost var second, t0, reached := false, Tables(d[..], inf[..], pred[..]), {};
    FirstLoop(g, w, s, t0, heap[..]);
    while heapSize > 0
      invariant 0 <= heapSize <= heap.Length && IsPermutation(heap[..], g.n)
      invariant Loop(g, w, s, Tables(d[..], inf[..], pred[..]), Popped(heap[..], heapSize), second, t0, reached)
    {
      ghost var t, done := Tables(d[..], inf[..], pred[..]), Popped(heap[..], heapSize);
      LoopFacts(g, w, s, t, done, second, t0, reached);
      PopBest(heap, heapSize, d[..], inf[..]);
      PoppedOne(heap[..], heapSize, g.n);
      heapSize := heapSize - 1;
      var u := heap[heapSize];
      BestOfRest(t, heap[..], heapSize, g.n);
      assert Popped(heap[..], heapSize + 1) == done;
      StartScan(g, w, s, t, done, second, t0, reached, u);
      if !second && t.inf[u] {
        second, t0, reached := true, t, done;
      }
      Relax(g, w, s, d, inf, pred, u, done, second, t0, reached);
      EndScan(g, w, s, Tables(d[..], inf[..], pred[..]), done, u, second, t0, reached);
    }
    forall v | 0 <= v < g.n
      ensures v in Popped(heap[..], 0)
    {
      PermutationHitsAll(heap[..], g.n, v);
    }
    ghost var t, done := Tables(d[..], inf[..], pred[..]), Popped(heap[..], 0);
    Finished(g, w, s, t, done, second, t0, reached);
  }

  lemma Finished(g: Graph, w: seq<int>, s: int, t: Tables, done: set<int>, second: bool, t0: Tables, reached: set<int>)
    requires Loop(g, w, s, t, done, second, t0, reached) && Sized(g, w, s, t) && forall v :: 0 <= v < g.n ==> v in done
    ensures Correct(g, w, t.pred, s) <==> Harmless(g, w, s)
    ensures HarmlessInside(g, w, s) ==> ReachedRight(g, w, t.pred, s)
    ensures PredsEnter(g, t.pred, s)
  {
    LoopEnd(g, w, s, t, done, second, t0, reached);
    SourceStaysFree(g, w, s, t, done, second, t0, reached);
    hide Loop, Correct, Harmless, HarmlessInside, ReachedRight, PredEnters;
    forall v | 0 <= v < g.n
      ensures PredEnters(g, t.pred, s, v)
    {
      EndEnters(g, w, s, t, done, second, t0, reached, v);
    }
    if HarmlessInside(g, w, s) {
      EndReached(g, w, s, t, done, second, t0, reached);
    }
  }

  lemma FirstLoop(g: Graph, w: seq<int>, s: int, t: Tables, heap: seq<int>)
    requires Sized(g, w, s, t) && !t.inf[s] && t.d[s] == 0 && t.pred[s] == NIL && |heap| == g.n
    requires forall v :: 0 <= v < g.n && v != s ==> t.inf[v] && t.d[v] == 0 && t.pred[v] == NIL
    ensures Loop(g, w, s, t, Popped(heap, |heap|), false, t, {})
  {
    StartLoop(g, w, s, t);
    assert Popped(heap, |heap|) == {};
  }

  lemma BestOfRest(t: Tables, heap: seq<int>, heapSize: int, n: int)
    requires |t.d| == |t.inf| == n && IsPermutation(heap, n) && 0 <= heapSize < n
    requires forall i :: 0 <= i <= heapSize ==> !SpCompare(t.d, t.inf, heap[heapSize], heap[i])
    ensures forall v :: 0 <= v < n && v !in Popped(heap, heapSize + 1) ==> !SpCompare(t.d, t.inf, heap[heapSize], v)
  {
    forall v | 0 <= v < n && v !in Popped(heap, heapSize + 1)
      ensures !SpCompare(t.d, t.inf, heap[heapSize], v)
    {
      NotPopped(heap, heapSize + 1, n, v);
    }
  }
}
