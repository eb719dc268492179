// Minimum vertex cover of a bipartite graph by augmenting paths
// (tools/assignment/metis/mincover.c).
//
// Vertices 0..asize are the A side, asize..bsize the B side.  While it searches, the program
// calls A vertices rows and B vertices columns; the search grows from free rows, and the
// augmentation walks back from a free column.
module MinCover {
  import opened Finite
  import opened Csrs

  const INCOL := 10
  const INROW := 20
  const VC := 1
  const SC := 2
  const HC := 3
  const VR := 4
  const SR := 5
  const HR := 6

  /** A bipartite graph: asize A vertices, bsize - asize B vertices, and the neighbours of each. */
  datatype Graph = Graph(asize: nat, bsize: nat, nbr: seq<set<int>>)

  ghost predicate Edge(g: Graph, u: int, v: int)
    requires Shaped(g)
  {
    0 <= u < g.bsize && v in g.nbr[u]
  }

  ghost predicate IsRow(g: Graph, u: int) {
    0 <= u < g.asize
  }

  ghost predicate IsCol(g: Graph, u: int) {
    g.asize <= u < g.bsize
  }

  ghost predicate Shaped(g: Graph) {
    g.asize <= g.bsize == |g.nbr|
  }

  ghost predicate WellFormed(g: Graph) {
    && Shaped(g)
    && (forall u, v :: Edge(g, u, v) ==> (IsRow(g, u) && IsCol(g, v)) || (IsCol(g, u) && IsRow(g, v)))
    && (forall u, v :: Edge(g, u, v) ==> Edge(g, v, u))
  }

  ghost predicate RowAgrees(csr: Csr, g: Graph, u: int)
    requires Csrs.Shaped(csr) && Size(csr) == |g.nbr| && 0 <= u < Size(csr)
  {
    g.nbr[u] == Elements(Row(csr, u))
  }

  /** The compressed rows list exactly the edges of `g`, each from both ends. */
  ghost predicate Stores(csr: Csr, g: Graph) {
    && WellFormed(g)
    && Csrs.Shaped(csr) && Size(csr) == |g.nbr|
    && forall u :: 0 <= u < Size(csr) ==> RowAgrees(csr, g, u)
  }

  lemma StoresFacts(csr: Csr, g: Graph, u: int)
    requires Stores(csr, g)
    ensures WellFormed(g) && Csrs.Shaped(csr) && Size(csr) == |g.nbr|
    ensures 0 <= u < Size(csr) ==> RowAgrees(csr, g, u)
  {
  }

  // ---------------------------------------------------------------- specification

  /** `mate` points across an edge or is -1, and partners are mutual except possibly at `hole`. */
  ghost predicate MatchingBut(g: Graph, mate: seq<int>, hole: int)
    requires Shaped(g)
  {
    && |mate| == g.bsize
    && (forall u :: 0 <= u < g.bsize && mate[u] != -1 ==>
          Edge(g, u, mate[u]) && 0 <= mate[u] < g.bsize && (u == hole || mate[mate[u]] == u))
  }

  ghost predicate Matching(g: Graph, mate: seq<int>)
    requires Shaped(g)
  {
    MatchingBut(g, mate, -1)
  }

  /** The matched columns: one per edge of the matching. */
  ghost function MatchedCols(g: Graph, mate: seq<int>): set<int>
    requires |mate| == g.bsize
  {
    set c | c in Range(g.asize, g.bsize) && mate[c] != -1
  }

  ghost predicate IsCover(g: Graph, cover: set<int>)
    requires Shaped(g)
  {
    forall u, v :: Edge(g, u, v) ==> u in cover || v in cover
  }

  /** Weak duality: a cover spends a vertex of its own on every matching edge. */
  lemma {:induction false} CoverAtLeastMatching(g: Graph, mate: seq<int>, cover: set<int>)
    requires WellFormed(g) && Matching(g, mate) && IsCover(g, cover)
    ensures |MatchedCols(g, mate)| <= |cover|
  {
    var f := map c | c in MatchedCols(g, mate) :: if c in cover then c else mate[c];
    forall c | c in MatchedCols(g, mate)
      ensures f[c] in cover && (f[c] == c || mate[f[c]] == c) && (f[c] == c || IsRow(g, f[c]))
    {
      assert Edge(g, c, mate[c]);
    }
    InjectionBounds(MatchedCols(g, mate), f, cover);
  }

  /**
   * What a finished search leaves behind: a vertex set holding every free row, closed under
   * edges out of its rows and under mates of its columns, and holding no free column.
   */
  ghost predicate Separates(g: Graph, mate: seq<int>, z: set<int>)
    requires WellFormed(g) && Matching(g, mate)
  {
    && (forall r :: IsRow(g, r) && mate[r] == -1 ==> r in z)
    && (forall r, c :: IsRow(g, r) && r in z && Edge(g, r, c) ==> c in z)
    && (forall c :: IsCol(g, c) && c in z ==> mate[c] != -1 && mate[c] in z)
  }

  /** The scratch arrays of one run, one cell per vertex. */
  class Workspace {
    const mate: array<int>
    const flag: array<int>
    const level: array<int>
    const queue: array<int>
    const lst: array<int>

    constructor (bsize: nat)
      ensures Valid(bsize) && fresh(mate) && fresh(flag) && fresh(level) && fresh(queue) && fresh(lst)
      ensures forall i :: 0 <= i < bsize ==> mate[i] == -1
    {
      mate := new int[bsize](_ => -1);
      flag := new int[bsize];
      level := new int[bsize];
      queue := new int[bsize];
      lst := new int[bsize];
    }

    /** The arrays hold the values of `s`, the queue and the list up to their cursors. */
    ghost predicate Shows(s: SearchState, rptr: int, lstptr: int)
      reads flag, level, queue, lst
    {
      && 0 <= rptr <= queue.Length && 0 <= lstptr <= lst.Length
      && queue[..rptr] == s.q && level[..] == s.level && flag[..] == s.flag && lst[..lstptr] == s.lst
    }

    predicate Valid(bsize: int) {
      && mate.Length == flag.Length == level.Length == queue.Length == lst.Length == bsize
      && mate !in {flag, level, queue, lst} && flag !in {level, queue, lst} && level !in {queue, lst} && queue != lst
    }
  }

  // ---------------------------------------------------------------- restricted DFS

  /** Some row next to `col` is still unvisited on level `maxlevel`. */
  ghost predicate Candidate(g: Graph, col: int, row: int, flag: seq<int>, level: seq<int>, maxlevel: int)
    requires Shaped(g) && |flag| == |level| == g.bsize
  {
    IsRow(g, row) && Edge(g, col, row) && flag[row] == 1 && level[row] == maxlevel
  }

  ghost predicate HasCandidate(g: Graph, col: int, flag: seq<int>, level: seq<int>, maxlevel: int)
    requires Shaped(g) && |flag| == |level| == g.bsize
  {
    exists row :: Candidate(g, col, row, flag, level, maxlevel)
  }

  /**
   * The levels up to `maxlevel` form a forest of alternating paths: an unvisited row on level 0
   * is free, and one on a later level is matched to a column next to an unvisited row one level
   * down.
   */
  ghost predicate Rooted(g: Graph, mate: seq<int>, flag: seq<int>, level: seq<int>, maxlevel: int)
    requires Shaped(g) && |mate| == |flag| == |level| == g.bsize
  {
    forall r :: IsRow(g, r) && flag[r] == 1 && level[r] <= maxlevel ==>
      && 0 <= level[r]
      && (level[r] == 0 ==> mate[r] == -1)
      && (level[r] > 0 ==> mate[r] != -1 && HasCandidate(g, mate[r], flag, level, level[r] - 1))
  }

  /**
   * What the restricted DFS from `col` does to the partners and the row flags. Rows are only ever
   * marked visited, and unvisited rows are the only ones rematched. It succeeds exactly when `col`
   * has a candidate; then `col` is matched, every other column keeps its status, and the only row
   * whose partner may be out of date is the one `col` was taken from.
   */
  ghost predicate Augmented(g: Graph, col: int, level: seq<int>, maxlevel: int,
                            mate: seq<int>, flag: seq<int>, mate': seq<int>, flag': seq<int>, status: int)
    requires WellFormed(g) && IsCol(g, col) && Matching(g, mate)
    requires |flag| == |level| == |mate'| == |flag'| == g.bsize
  {
    && (forall r :: IsRow(g, r) ==> flag'[r] == flag[r] || (flag[r] == 1 && flag'[r] == 2))
    && (forall r :: IsRow(g, r) && flag[r] != 1 ==> mate'[r] == mate[r])
    && (status == 0 || status == 1)
    && (status == 0 ==>
          && !HasCandidate(g, col, flag, level, maxlevel)
          && mate' == mate && forall r :: IsRow(g, r) ==> flag'[r] == flag[r])
    && (status == 1 ==>
          && (exists row :: Candidate(g, col, row, flag, level, maxlevel) && flag'[row] == 2)
          && MatchingBut(g, mate', mate[col])
          && MatchedCols(g, mate') == MatchedCols(g, mate) + {col}
          && mate'[col] != -1 && mate'[col] != mate[col])
  }

  lemma {:induction false} NoCandidate(g: Graph, col: int, level: seq<int>, maxlevel: int, mate: seq<int>, flag: seq<int>)
    requires WellFormed(g) && IsCol(g, col) && Matching(g, mate) && |flag| == |level| == g.bsize
    requires forall r :: Edge(g, col, r) ==> !Candidate(g, col, r, flag, level, maxlevel)
    ensures Augmented(g, col, level, maxlevel, mate, flag, mate, flag[col := 2], 0)
  {
  }

  /** The ghost sequences are the contents of the three arrays on entry. */
  method Augment(csr: Csr, ghost g: Graph, col: int, w: Workspace, maxlevel: int,
                 ghost mate: seq<int>, ghost flag: seq<int>, ghost level: seq<int>)
    returns (status: int)
    requires Stores(csr, g) && IsCol(g, col) && maxlevel >= 0
    requires w.Valid(g.bsize) && w.mate[..] == mate && w.flag[..] == flag && w.level[..] == level
    requires Matching(g, mate) && (mate[col] != -1 ==> flag[mate[col]] != 1)
    requires HasCandidate(g, col, flag, level, maxlevel) ==> Rooted(g, mate, flag, level, maxlevel)
    modifies w.mate, w.flag
    ensures Augmented(g, col, level, maxlevel, mate, flag, w.mate[..], w.flag[..], status)
    decreases maxlevel, 1
  {
    hide Augmented, Rooted, MatchingBut, Stores;
    StoresFacts(csr, g, col);
    w.flag[col] := 2;
    assert RowAgrees(csr, g, col) && Row(csr, col) == Part(csr, col, Last(csr, col));
    for i := First(csr, col) to Last(csr, col)
      invariant w.mate[..] == mate && w.flag[..] == flag[col := 2]
      invariant forall r :: r in Part(csr, col, i) ==> !Candidate(g, col, r, flag, level, maxlevel)
    {
      var row := csr.adjncy[i];
      PartStep(csr, col, i);
      assert Edge(g, col, row);
      if w.flag[row] == 1 && w.level[row] == maxlevel {
        assert Candidate(g, col, row, flag, level, maxlevel);
        status := AugmentThrough(csr, g, col, row, w, maxlevel, mate, flag, level);
        if status != 0 {
          return 1;
        }
      }
    }
    assert forall r :: Edge(g, col, r) ==> r in Part(csr, col, Last(csr, col));
    NoCandidate(g, col, level, maxlevel, mate, flag);
    return 0;
  }

  /** The body of the loop above for a row that qualifies: visit it, go deeper, rematch. */
  method AugmentThrough(csr: Csr, ghost g: Graph, col: int, row: int, w: Workspace, maxlevel: int,
                        ghost mate: seq<int>, ghost flag: seq<int>, ghost level: seq<int>)
    returns (status: int)
    requires Stores(csr, g) && IsCol(g, col) && maxlevel >= 0 && |flag| == g.bsize
    requires w.Valid(g.bsize) && w.mate[..] == mate && w.flag[..] == flag[col := 2] && w.level[..] == level
    requires Matching(g, mate) && (mate[col] != -1 ==> flag[mate[col]] != 1)
    requires Candidate(g, col, row, flag, level, maxlevel)
    requires Rooted(g, mate, flag, level, maxlevel)
    modifies w.mate, w.flag
    ensures Augmented(g, col, level, maxlevel, mate, flag, w.mate[..], w.flag[..], status) && status == 1
    decreases maxlevel, 0
  {
    w.flag[row] := 2;
    ghost var flag1 := flag[col := 2][row := 2];
    assert w.flag[..] == flag1;
    if maxlevel != 0 {
      DeeperRooted(g, mate, flag, flag1, level, col, row, maxlevel);
      assert Edge(g, row, mate[row]);
      status := Augment(csr, g, w.mate[row], w, maxlevel - 1, mate, flag1, level);
    } else {
      status := 1;
    }
    ghost var mate1 := w.mate[..];
    OnThePath(g, col, row, level, maxlevel, mate, flag, mate1, w.flag[..], status);
    if status != 0 {
      w.mate[col] := row;
      w.mate[row] := col;
      assert w.mate[..] == mate1[col := row][row := col];
    }
  }

  /** The restricted DFS never backs out of a row: below a candidate it always succeeds. */
  lemma {:induction false} OnThePath(g: Graph, col: int, row: int, level: seq<int>, maxlevel: int,
                                     mate: seq<int>, flag: seq<int>, mate1: seq<int>, flag1: seq<int>, status: int)
    requires WellFormed(g) && IsCol(g, col) && maxlevel >= 0 && Matching(g, mate)
    requires |flag| == |level| == |mate1| == |flag1| == g.bsize
    requires Candidate(g, col, row, flag, level, maxlevel)
    requires Rooted(g, mate, flag, level, maxlevel)
    requires mate[col] != -1 ==> flag[mate[col]] != 1
    requires maxlevel == 0 ==> mate1 == mate && flag1 == flag[col := 2][row := 2] && status == 1
    requires maxlevel != 0 ==>
               && IsCol(g, mate[row])
               && HasCandidate(g, mate[row], flag[col := 2][row := 2], level, maxlevel - 1)
               && Augmented(g, mate[row], level, maxlevel - 1, mate, flag[col := 2][row := 2], mate1, flag1, status)
    ensures Augmented(g, col, level, maxlevel, mate, flag, mate1[col := row][row := col], flag1, status)
    ensures status == 1
  {
    hide MatchingBut, WellFormed, Rooted;
    WonFacts(g, col, row, level, maxlevel, mate, flag, mate1, flag1, status);
    Rematch(g, mate, mate1, col, row);
  }

  /** What a won candidate tells about the two columns involved. */
  lemma {:induction false} WonFacts(g: Graph, col: int, row: int, level: seq<int>, maxlevel: int,
                                     mate: seq<int>, flag: seq<int>, mate1: seq<int>, flag1: seq<int>, status: int)
    requires WellFormed(g) && IsCol(g, col) && maxlevel >= 0 && Matching(g, mate)
    requires |flag| == |level| == |mate1| == |flag1| == g.bsize
    requires Candidate(g, col, row, flag, level, maxlevel)
    requires Rooted(g, mate, flag, level, maxlevel)
    requires mate[col] != -1 ==> flag[mate[col]] != 1
    requires maxlevel == 0 ==> mate1 == mate && flag1 == flag[col := 2][row := 2] && status == 1
    requires maxlevel != 0 ==>
               && IsCol(g, mate[row])
               && HasCandidate(g, mate[row], flag[col := 2][row := 2], level, maxlevel - 1)
               && Augmented(g, mate[row], level, maxlevel - 1, mate, flag[col := 2][row := 2], mate1, flag1, status)
    ensures Shaped(g) && status == 1 && MatchingBut(g, mate1, row) && mate1[row] == mate[row]
    ensures mate[col] != -1 ==> IsRow(g, mate[col]) && mate1[mate[col]] == col && mate[mate[col]] == col
    ensures mate[row] != -1 ==> 0 <= mate[row] < g.bsize && mate1[mate[row]] != row && mate[mate[row]] == row
    ensures mate[col] != row
    ensures MatchedCols(g, mate1) == MatchedCols(g, mate)
    ensures maxlevel == 0 ==> mate[row] == -1
  {
    assert Edge(g, row, col);
    if mate[col] != -1 {
      assert Edge(g, col, mate[col]);
    }
  }

  /** One step of the way back: `col` takes over `row`, whose own column has just found another. */
  lemma {:induction false} Rematch(g: Graph, before: seq<int>, mate: seq<int>, col: int, row: int)
    requires WellFormed(g) && Matching(g, before) && IsCol(g, col) && IsRow(g, row) && Edge(g, col, row)
    requires before[col] != row
    requires MatchingBut(g, mate, row) && mate[row] == before[row]
    requires mate[row] != -1 ==> mate[mate[row]] != row
    requires before[col] != -1 ==> mate[before[col]] == col
    requires MatchedCols(g, mate) == MatchedCols(g, before)
    ensures var after := mate[col := row][row := col];
      MatchingBut(g, after, before[col]) && MatchedCols(g, after) == MatchedCols(g, before) + {col}
  {
    var after := mate[col := row][row := col];
    assert mate[col] == before[col] by {
      assert col in MatchedCols(g, mate) <==> col in MatchedCols(g, before);
      if before[col] != -1 {
        assert Edge(g, col, before[col]);
      }
    }
    assert Edge(g, row, col);
    forall u | 0 <= u < g.bsize && after[u] != -1
      ensures Edge(g, u, after[u]) && 0 <= after[u] < g.bsize && (u == before[col] || after[after[u]] == u)
    {
      if u != col && u != row {
        RematchOther(g, before, mate, col, row, u);
      }
    }
    assert MatchedCols(g, after) == MatchedCols(g, mate) + {col};
  }

  /** A vertex off the path keeps its partner, unless it is the one `col` was taken from. */
  lemma {:induction false} RematchOther(g: Graph, before: seq<int>, mate: seq<int>, col: int, row: int, u: int)
    requires WellFormed(g) && |before| == g.bsize && MatchingBut(g, mate, row) && IsCol(g, col) && IsRow(g, row)
    requires mate[row] != -1 ==> mate[mate[row]] != row
    requires mate[col] == before[col]
    requires 0 <= u < g.bsize && u != col && u != row && mate[u] != -1
    ensures Edge(g, u, mate[u]) && 0 <= mate[u] < g.bsize
    ensures u == before[col] || (mate[mate[u]] == u && mate[u] != col && mate[u] != row)
  {
  }

  lemma {:induction false} DeeperRooted(g: Graph, mate: seq<int>, flag: seq<int>, flag': seq<int>, level: seq<int>,
                      col: int, row: int, maxlevel: int)
    requires WellFormed(g) && Matching(g, mate) && |flag| == |level| == g.bsize
    requires IsCol(g, col) && maxlevel > 0
    requires Candidate(g, col, row, flag, level, maxlevel)
    requires Rooted(g, mate, flag, level, maxlevel)
    requires flag' == flag[col := 2][row := 2]
    ensures HasCandidate(g, mate[row], flag', level, maxlevel - 1)
    ensures Rooted(g, mate, flag', level, maxlevel - 1)
  {
    forall r | IsRow(g, r) && flag[r] == 1 && 0 < level[r] <= maxlevel
      ensures HasCandidate(g, mate[r], flag', level, level[r] - 1)
    {
      var p :| Candidate(g, mate[r], p, flag, level, level[r] - 1);
      assert Candidate(g, mate[r], p, flag', level, level[r] - 1);
    }
  }

  // ---------------------------------------------------------------- breadth-first search

  /** The queue: distinct rows by nondecreasing level. */
  ghost predicate QueueShape(g: Graph, q: seq<int>, level: seq<int>)
    requires Shaped(g) && |level| == g.bsize
  {
    && Distinct(q)
    && (forall k :: 0 <= k < |q| ==> IsRow(g, q[k]) && k < g.bsize && 0 <= level[q[k]] <= k)
    && (forall r :: IsRow(g, r) ==> (level[r] != -1 <==> r in q))
    && (forall i, j :: 0 <= i < j < |q| ==> level[q[i]] <= level[q[j]])
  }

  /** It spans at most two adjacent levels, starting from the row dequeued last. */
  ghost predicate QueueOk(g: Graph, q: seq<int>, done: nat, level: seq<int>)
    requires Shaped(g) && |level| == g.bsize
  {
    && done <= |q| && QueueShape(g, q, level)
    && (forall j :: 0 <= j < |q| ==> level[q[j]] <= if done == 0 then 0 else level[q[done - 1]] + 1)
  }

  /** Rows are reached either because they are free or from a visited row, their parent, one level down. */
  ghost predicate Forest(g: Graph, mate: seq<int>, level: seq<int>, flag: seq<int>, parent: seq<int>)
    requires WellFormed(g) && |level| == |flag| == |parent| == g.bsize && Matching(g, mate)
  {
    && (forall r :: IsRow(g, r) && mate[r] == -1 ==> level[r] == 0)
    && (forall r :: IsRow(g, r) && mate[r] != -1 ==> (level[r] != -1 <==> flag[mate[r]] != 0))
    && (forall r :: IsRow(g, r) && mate[r] != -1 && level[r] != -1 ==>
          level[r] > 0 && Candidate(g, mate[r], parent[r], flag, level, level[r] - 1))
  }

  /** Visited rows have been dequeued. */
  ghost predicate Visits(g: Graph, q: seq<int>, done: nat, flag: seq<int>)
    requires WellFormed(g) && |flag| == g.bsize
  {
    && (forall r :: IsRow(g, r) ==> flag[r] == 0 || flag[r] == 1)
    && (forall r :: IsRow(g, r) && flag[r] == 1 ==> r in q)
    && (forall k :: done <= k < |q| && IsRow(g, q[k]) ==> flag[q[k]] == 0)
  }

  /** The columns next to visited rows are flagged; of the row `cur` only those in `seen`, so far. */
  ghost predicate Scanned(g: Graph, flag: seq<int>, cur: int, seen: set<int>)
    requires WellFormed(g) && |flag| == g.bsize
  {
    forall r, c :: IsRow(g, r) && flag[r] == 1 && Edge(g, r, c) && (r == cur ==> c in seen) ==> flag[c] != 0
  }

  /**
   * The free columns found. Until the first, every dequeued row is visited and every flagged
   * column is matched. All of them hang off a single visited row `hit`, and off no other.
   */
  ghost predicate Hits(g: Graph, mate: seq<int>, q: seq<int>, done: nat, level: seq<int>, flag: seq<int>,
                       lst: seq<int>, maxlevel: int, hit: int)
    requires WellFormed(g) && |level| == |flag| == |mate| == g.bsize && done <= |q|
  {
    && Distinct(lst)
    && (forall c :: c in lst ==> IsCol(g, c) && mate[c] == -1 && flag[c] != 0)
    && (lst == [] ==>
          && maxlevel == g.bsize
          && (forall k :: 0 <= k < done && IsRow(g, q[k]) ==> flag[q[k]] == 1)
          && (forall c :: IsCol(g, c) && flag[c] != 0 ==> mate[c] != -1))
    && (lst != [] ==>
          && IsRow(g, hit) && flag[hit] == 1 && level[hit] == maxlevel
          && (forall c :: c in lst ==> Edge(g, c, hit))
          && (forall c, r :: c in lst && IsRow(g, r) && flag[r] == 1 && Edge(g, c, r) ==> r == hit))
  }

  /** The arrays of the search as values, with the ghost parents and the hit row. */
  datatype SearchState = SearchState(q: seq<int>, level: seq<int>, flag: seq<int>, parent: seq<int>,
                                     lst: seq<int>, maxlevel: int, hit: int)

  ghost predicate Search(g: Graph, mate: seq<int>, s: SearchState, done: nat, cur: int, seen: set<int>)
  {
    && WellFormed(g) && Matching(g, mate)
    && |s.level| == |s.flag| == |s.parent| == g.bsize
    && QueueOk(g, s.q, done, s.level)
    && Forest(g, mate, s.level, s.flag, s.parent)
    && Visits(g, s.q, done, s.flag)
    && Scanned(g, s.flag, cur, seen)
    && Hits(g, mate, s.q, done, s.level, s.flag, s.lst, s.maxlevel, s.hit)
    && (cur != -1 ==> done > 0 && cur == s.q[done - 1] && s.flag[cur] == 1 && (s.lst != [] ==> s.hit == cur))
  }

  lemma {:induction false} DequeueOk(g: Graph, q: seq<int>, done: nat, level: seq<int>)
    requires Shaped(g) && |level| == g.bsize && QueueOk(g, q, done, level) && done < |q|
    ensures QueueOk(g, q, done + 1, level)
  {
  }

  lemma {:induction false} EnqueueOk(g: Graph, q: seq<int>, done: nat, level: seq<int>, row: int)
    requires Shaped(g) && |level| == g.bsize && QueueOk(g, q, done, level)
    requires IsRow(g, row) && level[row] == -1 && done > 0
    ensures |q| < g.bsize
    ensures QueueOk(g, q + [row], done, level[row := level[q[done - 1]] + 1])
  {
    DistinctAppend(q, row);
    DistinctFits(q + [row], 0, g.bsize);
  }

  lemma {:induction false} GrowForest(g: Graph, mate: seq<int>, level: seq<int>, flag: seq<int>, parent: seq<int>,
                   cur: int, col: int)
    requires WellFormed(g) && |level| == |flag| == |parent| == g.bsize && Matching(g, mate)
    requires Forest(g, mate, level, flag, parent)
    requires IsRow(g, cur) && flag[cur] == 1 && level[cur] >= 0
    requires IsCol(g, col) && Edge(g, cur, col) && flag[col] == 0 && mate[col] != -1
    ensures IsRow(g, mate[col]) && level[mate[col]] == -1 && mate[col] != cur
    ensures Forest(g, mate, level[mate[col] := level[cur] + 1], flag[col := 1], parent[mate[col] := cur])
  {
    assert Edge(g, col, mate[col]);
  }

  lemma {:induction false} VisitForest(g: Graph, mate: seq<int>, level: seq<int>, flag: seq<int>, parent: seq<int>, row: int)
    requires WellFormed(g) && |level| == |flag| == |parent| == g.bsize && Matching(g, mate)
    requires Forest(g, mate, level, flag, parent) && IsRow(g, row)
    ensures Forest(g, mate, level, flag[row := 1], parent)
  {
    forall r | IsRow(g, r) && mate[r] != -1
      ensures IsCol(g, mate[r])
    {
      assert Edge(g, r, mate[r]);
    }
  }

  lemma {:induction false} FlagFreeForest(g: Graph, mate: seq<int>, level: seq<int>, flag: seq<int>, parent: seq<int>, col: int)
    requires WellFormed(g) && |level| == |flag| == |parent| == g.bsize && Matching(g, mate)
    requires Forest(g, mate, level, flag, parent) && IsCol(g, col) && mate[col] == -1
    ensures Forest(g, mate, level, flag[col := 1], parent)
  {
    forall r | IsRow(g, r) && mate[r] != -1
      ensures IsCol(g, mate[r]) && mate[r] != col
    {
      assert Edge(g, r, mate[r]);
    }
  }

  lemma {:induction false} FirstHits(g: Graph, mate: seq<int>, q: seq<int>, done: nat, level: seq<int>, flag: seq<int>,
                 lst: seq<int>, maxlevel: int, hit: int, cur: int, seen: set<int>, col: int)
    requires WellFormed(g) && |level| == |flag| == |mate| == g.bsize && done <= |q|
    requires Hits(g, mate, q, done, level, flag, lst, maxlevel, hit) && (lst != [] ==> hit == cur)
    requires Scanned(g, flag, cur, seen)
    requires IsRow(g, cur) && flag[cur] == 1
    requires IsCol(g, col) && Edge(g, cur, col) && flag[col] == 0 && mate[col] == -1
    ensures |lst| < g.bsize
    ensures Hits(g, mate, q, done, level, flag[col := 1], lst + [col], level[cur], cur)
  {
    DistinctAppend(lst, col);
    assert forall i :: 0 <= i < |lst| ==> lst[i] in lst;
    DistinctFits(lst + [col], 0, g.bsize);
    forall r | IsRow(g, r) && flag[r] == 1 && Edge(g, col, r)
      ensures r == cur
    {
      assert Edge(g, r, col);
    }
  }

  lemma {:induction false} VisitHits(g: Graph, mate: seq<int>, q: seq<int>, done: nat, level: seq<int>, flag: seq<int>,
                 maxlevel: int, hit: int)
    requires WellFormed(g) && |level| == |flag| == |mate| == g.bsize && done < |q|
    requires Hits(g, mate, q, done, level, flag, [], maxlevel, hit) && IsRow(g, q[done])
    ensures Hits(g, mate, q, done + 1, level, flag[q[done] := 1], [], maxlevel, hit)
  {
  }

  lemma {:induction false} GrowHits(g: Graph, mate: seq<int>, q: seq<int>, done: nat, level: seq<int>, flag: seq<int>,
                lst: seq<int>, maxlevel: int, hit: int, col: int, l: int)
    requires WellFormed(g) && |level| == |flag| == |mate| == g.bsize && done <= |q|
    requires Hits(g, mate, q, done, level, flag, lst, maxlevel, hit) && IsCol(g, col) && IsRow(g, mate[col])
    requires lst != [] ==> mate[col] != hit
    ensures Hits(g, mate, q + [mate[col]], done, level[mate[col] := l], flag[col := 1], lst, maxlevel, hit)
  {
    assert forall k :: 0 <= k < done ==> (q + [mate[col]])[k] == q[k];
  }

  lemma {:induction false} VisitVisits(g: Graph, q: seq<int>, done: nat, level: seq<int>, flag: seq<int>)
    requires WellFormed(g) && |level| == |flag| == g.bsize && done < |q|
    requires QueueOk(g, q, done, level) && Visits(g, q, done, flag)
    ensures Visits(g, q, done + 1, flag[q[done] := 1])
  {
    assert q[done] in q;
  }

  lemma {:induction false} GrowVisits(g: Graph, q: seq<int>, done: nat, flag: seq<int>, row: int, col: int)
    requires WellFormed(g) && |flag| == g.bsize && done <= |q|
    requires Visits(g, q, done, flag) && IsRow(g, row) && row !in q
    requires IsCol(g, col)
    ensures Visits(g, q + [row], done, flag[col := 1])
    ensures flag[row] == 0
  {
  }

  lemma {:induction false} FlagVisits(g: Graph, q: seq<int>, done: nat, flag: seq<int>, col: int)
    requires WellFormed(g) && |flag| == g.bsize && Visits(g, q, done, flag) && IsCol(g, col)
    ensures Visits(g, q, done, flag[col := 1])
  {
  }

  lemma {:induction false} FlagScanned(g: Graph, flag: seq<int>, cur: int, seen: set<int>, col: int)
    requires WellFormed(g) && |flag| == g.bsize && Scanned(g, flag, cur, seen) && IsCol(g, col)
    ensures Scanned(g, flag[col := 1], cur, seen + {col})
  {
  }

  lemma {:induction false} ScanMatchedQueue(g: Graph, mate: seq<int>, q: seq<int>, done: nat, level: seq<int>, flag: seq<int>,
                    parent: seq<int>, cur: int, col: int)
    requires WellFormed(g) && |level| == |flag| == |parent| == g.bsize && Matching(g, mate)
    requires QueueOk(g, q, done, level) && Forest(g, mate, level, flag, parent) && Visits(g, q, done, flag)
    requires done > 0 && cur == q[done - 1] && flag[cur] == 1
    requires IsCol(g, col) && Edge(g, cur, col) && flag[col] == 0 && mate[col] != -1
    ensures |q| < g.bsize && IsRow(g, mate[col]) && flag[mate[col]] == 0
    ensures QueueOk(g, q + [mate[col]], done, level[mate[col] := level[cur] + 1])
    ensures Forest(g, mate, level[mate[col] := level[cur] + 1], flag[col := 1], parent[mate[col] := cur])
    ensures Visits(g, q + [mate[col]], done, flag[col := 1])
  {
    GrowForest(g, mate, level, flag, parent, cur, col);
    EnqueueOk(g, q, done, level, mate[col]);
    GrowVisits(g, q, done, flag, mate[col], col);
  }

  /** Dequeuing a row below `maxlevel` makes it the row being scanned. */
  lemma {:induction false} StartRow(g: Graph, mate: seq<int>, s: SearchState, done: nat)
    requires Search(g, mate, s, done, -1, {}) && done < |s.q| && s.level[s.q[done]] < s.maxlevel
    ensures Search(g, mate, s.(flag := s.flag[s.q[done] := 1]), done + 1, s.q[done], {})
  {
    assert s.lst == [];
    DequeueOk(g, s.q, done, s.level);
    VisitVisits(g, s.q, done, s.level, s.flag);
    VisitHits(g, mate, s.q, done, s.level, s.flag, s.maxlevel, s.hit);
    VisitForest(g, mate, s.level, s.flag, s.parent, s.q[done]);
  }

  /** Rows at `maxlevel` or beyond are passed over, and there are none before a hit. */
  lemma {:induction false} SkipRow(g: Graph, mate: seq<int>, s: SearchState, done: nat)
    requires Search(g, mate, s, done, -1, {}) && done < |s.q| && s.level[s.q[done]] >= s.maxlevel
    ensures Search(g, mate, s, done + 1, -1, {})
  {
    assert s.lst != [];
    DequeueOk(g, s.q, done, s.level);
  }

  /** Scanning a column of the current row that is flagged already. */
  lemma {:induction false} ScanFlagged(g: Graph, mate: seq<int>, s: SearchState, done: nat, cur: int, seen: set<int>, col: int)
    requires Search(g, mate, s, done, cur, seen) && IsCol(g, col) && s.flag[col] != 0
    ensures Search(g, mate, s, done, cur, seen + {col})
  {
  }

  /** Scanning a fresh free column: it is flagged and recorded. */
  lemma {:induction false} ScanFree(g: Graph, mate: seq<int>, s: SearchState, done: nat, cur: int, seen: set<int>, col: int)
    requires Search(g, mate, s, done, cur, seen) && cur != -1
    requires IsCol(g, col) && Edge(g, cur, col) && s.flag[col] == 0 && mate[col] == -1
    ensures |s.lst| < g.bsize
    ensures Search(g, mate, s.(flag := s.flag[col := 1], lst := s.lst + [col], maxlevel := s.level[cur], hit := cur),
                   done, cur, seen + {col})
  {
    FirstHits(g, mate, s.q, done, s.level, s.flag, s.lst, s.maxlevel, s.hit, cur, seen, col);
    FlagFreeForest(g, mate, s.level, s.flag, s.parent, col);
    FlagVisits(g, s.q, done, s.flag, col);
    FlagScanned(g, s.flag, cur, seen, col);
  }

  /** Scanning a fresh matched column: it is flagged and the row it is matched to enqueued. */
  lemma {:induction false} ScanMatched(g: Graph, mate: seq<int>, s: SearchState, done: nat, cur: int, seen: set<int>, col: int)
    requires Search(g, mate, s, done, cur, seen) && cur != -1
    requires IsCol(g, col) && Edge(g, cur, col) && s.flag[col] == 0 && mate[col] != -1
    ensures |s.q| < g.bsize && IsRow(g, mate[col]) && s.flag[mate[col]] == 0
    ensures Search(g, mate, s.(q := s.q + [mate[col]], level := s.level[mate[col] := s.level[cur] + 1],
                               flag := s.flag[col := 1], parent := s.parent[mate[col] := cur]),
                   done, cur, seen + {col})
  {
    ScanMatchedQueue(g, mate, s.q, done, s.level, s.flag, s.parent, cur, col);
    GrowHits(g, mate, s.q, done, s.level, s.flag, s.lst, s.maxlevel, s.hit, col, s.level[cur] + 1);
    FlagScanned(g, s.flag, cur, seen, col);
  }

  /** The state after scanning a column for the first time. */
  ghost function ScanStep(mate: seq<int>, s: SearchState, cur: int, col: int): SearchState
    requires 0 <= col < |mate| == |s.level| == |s.flag| == |s.parent| && 0 <= cur < |mate| && -1 <= mate[col] < |mate|
  {
    if mate[col] == -1 then
      s.(flag := s.flag[col := 1], lst := s.lst + [col], maxlevel := s.level[cur], hit := cur)
    else
      s.(q := s.q + [mate[col]], level := s.level[mate[col] := s.level[cur] + 1],
         flag := s.flag[col := 1], parent := s.parent[mate[col] := cur])
  }

  lemma SearchBounds(g: Graph, mate: seq<int>, s: SearchState, done: nat, cur: int, seen: set<int>)
    requires Search(g, mate, s, done, cur, seen)
    ensures |mate| == |s.level| == |s.flag| == |s.parent| == g.bsize && done <= |s.q|
    ensures done < |s.q| ==> IsRow(g, s.q[done])
  {
  }

  lemma {:induction false} ScanFresh(g: Graph, mate: seq<int>, s: SearchState, done: nat, cur: int, seen: set<int>, col: int)
    requires Search(g, mate, s, done, cur, seen)
    requires IsRow(g, cur) && IsCol(g, col) && Edge(g, cur, col) && s.flag[col] == 0
    ensures -1 <= mate[col] < g.bsize
    ensures mate[col] == -1 ==> |s.lst| < g.bsize
    ensures mate[col] != -1 ==> |s.q| < g.bsize && IsRow(g, mate[col]) && s.flag[mate[col]] == 0
    ensures Search(g, mate, ScanStep(mate, s, cur, col), done, cur, seen + {col})
  {
    hide Search;
    SearchBounds(g, mate, s, done, cur, seen);
    if mate[col] == -1 {
      ScanFree(g, mate, s, done, cur, seen, col);
    } else {
      ScanMatched(g, mate, s, done, cur, seen, col);
    }
  }

  lemma {:induction false} RowDone(g: Graph, mate: seq<int>, s: SearchState, done: nat, cur: int, seen: set<int>)
    requires Search(g, mate, s, done, cur, seen)
    requires IsRow(g, cur) && forall c :: Edge(g, cur, c) ==> c in seen
    ensures Search(g, mate, s, done, -1, {})
  {
  }

  /** What a search has reached: the rows with a level and the flagged columns. */
  ghost function Reached(g: Graph, level: seq<int>, flag: seq<int>): set<int>
    requires Shaped(g) && |level| == |flag| == g.bsize
  {
    set u | u in Range(0, g.bsize) && if u < g.asize then level[u] != -1 else flag[u] != 0
  }

  lemma {:induction false} ExhaustedSeparates(g: Graph, mate: seq<int>, s: SearchState)
    requires Search(g, mate, s, |s.q|, -1, {}) && s.lst == []
    ensures Separates(g, mate, Reached(g, s.level, s.flag))
  {
    var z := Reached(g, s.level, s.flag);
    forall r, c | IsRow(g, r) && r in z && Edge(g, r, c)
      ensures c in z
    {
      assert r in s.q;
      var k :| 0 <= k < |s.q| && s.q[k] == r;
      assert s.flag[s.q[k]] == 1;
    }
    forall c | IsCol(g, c) && c in z
      ensures mate[c] != -1 && mate[c] in z
    {
      assert Edge(g, c, mate[c]);
    }
  }

  /** The search stopped at free columns: all of them have `hit` as their one candidate. */
  lemma {:induction false} HitsAreCandidates(g: Graph, mate: seq<int>, s: SearchState)
    requires Search(g, mate, s, |s.q|, -1, {}) && s.lst != []
    ensures Rooted(g, mate, s.flag, s.level, s.maxlevel) && s.maxlevel >= 0
    ensures Compete(g, s.lst, mate, s.flag, s.level, s.maxlevel, s.hit)
  {
    assert s.hit in s.q;
  }

  lemma {:induction false} EnqueueFree(g: Graph, q: seq<int>, level: seq<int>, row: int)
    requires Shaped(g) && |level| == g.bsize && QueueOk(g, q, 0, level)
    requires IsRow(g, row) && level[row] == -1
    ensures |q| < g.bsize
    ensures QueueOk(g, q + [row], 0, level[row := 0])
  {
    DistinctAppend(q, row);
    DistinctFits(q + [row], 0, g.bsize);
  }

  /** The queue of free rows is where the search starts. */
  lemma {:induction false} FreshSearch(g: Graph, mate: seq<int>, q: seq<int>, level: seq<int>, flag: seq<int>)
    requires WellFormed(g) && Matching(g, mate) && |level| == |flag| == g.bsize
    requires QueueOk(g, q, 0, level)
    requires forall r :: IsRow(g, r) ==> level[r] == if mate[r] == -1 then 0 else -1
    requires forall u :: 0 <= u < g.bsize ==> flag[u] == 0
    ensures Search(g, mate, SearchState(q, level, flag, level, [], g.bsize, -1), 0, -1, {})
  {
    forall r | IsRow(g, r) && mate[r] != -1
      ensures 0 <= mate[r] < g.bsize
    {
      assert Edge(g, r, mate[r]);
    }
  }

  lemma ShapedFact(g: Graph)
    requires WellFormed(g)
    ensures Shaped(g)
  {
  }

  /** Clears the search state and inserts the free rows into the queue. */
  method StartSearch(asize: int, ghost g: Graph, w: Workspace, ghost mate: seq<int>)
    returns (rptr: nat, ghost s: SearchState)
    requires WellFormed(g) && asize == g.asize && w.Valid(g.bsize) && w.mate[..] == mate && Matching(g, mate)
    modifies w.flag, w.level, w.queue
    ensures w.Shows(s, rptr, 0) && Search(g, mate, s, 0, -1, {}) && s.maxlevel == g.bsize
  {
    hide MatchingBut, WellFormed, Search;
    ShapedFact(g);
    rptr := 0;
    for i := 0 to w.mate.Length
      invariant forall k :: 0 <= k < i ==> w.level[k] == -1 && w.flag[k] == 0
    {
      w.level[i] := -1;
      w.flag[i] := 0;
    }
    for i := 0 to asize
      invariant 0 <= rptr <= w.queue.Length && QueueOk(g, w.queue[..rptr], 0, w.level[..])
      invariant forall r :: IsRow(g, r) ==> w.level[r] == if r < i && mate[r] == -1 then 0 else -1
      invariant forall u :: 0 <= u < g.bsize ==> w.flag[u] == 0
    {
      if w.mate[i] == -1 {
        EnqueueFree(g, w.queue[..rptr], w.level[..], i);
        ghost var q0, l0 := w.queue[..rptr], w.level[..];
        w.queue[rptr] := i;
        rptr := rptr + 1;
        w.level[i] := 0;
        assert w.queue[..rptr] == q0 + [i] && w.level[..] == l0[i := 0];
      }
    }
    FreshSearch(g, mate, w.queue[..rptr], w.level[..], w.flag[..]);
    s := SearchState(w.queue[..rptr], w.level[..], w.flag[..], w.level[..], [], g.bsize, -1);
  }

  /** Search from the free rows, up to the level on which the first free column turns up. */
  method Bfs(csr: Csr, asize: int, ghost g: Graph, w: Workspace, ghost mate: seq<int>)
    returns (lstptr: nat, maxlevel: int, ghost s: SearchState)
    requires Stores(csr, g) && asize == g.asize && w.Valid(g.bsize) && w.mate[..] == mate && Matching(g, mate)
    modifies w.flag, w.level, w.queue, w.lst
    ensures w.Shows(s, |s.q|, lstptr) && s.maxlevel == maxlevel
    ensures Search(g, mate, s, |s.q|, -1, {})
  {
    hide Search, Stores, MatchingBut;
    StoresFacts(csr, g, 0);
    var fptr: nat := 0;
    var rptr;
    rptr, s := StartSearch(asize, g, w, mate);
    lstptr := 0;
    maxlevel := w.mate.Length;
    while fptr != rptr
      invariant fptr <= rptr && w.mate[..] == mate
      invariant w.Shows(s, rptr, lstptr) && s.maxlevel == maxlevel && Search(g, mate, s, fptr, -1, {})
      decreases w.queue.Length - fptr
    {
      var row := w.queue[fptr];
      SearchBounds(g, mate, s, fptr, -1, {});
      assert row == s.q[fptr];
      fptr := fptr + 1;
      if w.level[row] < maxlevel {
        StartRow(g, mate, s, fptr - 1);
        w.flag[row] := 1;
        s := s.(flag := s.flag[row := 1]);
        assert w.Shows(s, rptr, lstptr);
        rptr, lstptr, maxlevel, s := ScanRow(csr, g, row, w, mate, s, fptr, rptr, lstptr, maxlevel);
      } else {
        SkipRow(g, mate, s, fptr - 1);
      }
    }
  }

  /** The scan of a dequeued row's columns. */
  method ScanRow(csr: Csr, ghost g: Graph, row: int, w: Workspace, ghost mate: seq<int>, ghost s0: SearchState,
                 ghost fptr: nat, rptr0: nat, lstptr0: nat, maxlevel0: int)
    returns (rptr: nat, lstptr: nat, maxlevel: int, ghost s: SearchState)
    requires Stores(csr, g) && w.Valid(g.bsize) && IsRow(g, row) && w.mate[..] == mate
    requires w.Shows(s0, rptr0, lstptr0) && s0.maxlevel == maxlevel0 && Search(g, mate, s0, fptr, row, {})
    modifies w.flag, w.level, w.queue, w.lst
    ensures fptr <= rptr && w.Shows(s, rptr, lstptr) && s.maxlevel == maxlevel && Search(g, mate, s, fptr, -1, {})
  {
    hide Search;
    rptr, lstptr, maxlevel, s := rptr0, lstptr0, maxlevel0, s0;
    ghost var seen: set<int> := {};
    SearchBounds(g, mate, s, fptr, row, {});
    assert RowAgrees(csr, g, row);
    for j := First(csr, row) to Last(csr, row)
      invariant seen == Elements(Part(csr, row, j)) && w.mate[..] == mate
      invariant w.Shows(s, rptr, lstptr) && s.maxlevel == maxlevel && Search(g, mate, s, fptr, row, seen)
    {
      var col := csr.adjncy[j];
      PartStep(csr, row, j);
      assert Edge(g, row, col) && IsCol(g, col);
      if w.flag[col] == 0 {
        rptr, lstptr, maxlevel, s := ScanColumn(g, row, col, w, mate, s, fptr, rptr, lstptr, maxlevel, seen);
      } else {
        ScanFlagged(g, mate, s, fptr, row, seen, col);
      }
      seen := seen + {col};
    }
    RowDone(g, mate, s, fptr, row, seen);
    SearchBounds(g, mate, s, fptr, -1, {});
  }

  /** The scan of one column that has not been accessed yet. */
  method ScanColumn(ghost g: Graph, row: int, col: int, w: Workspace, ghost mate: seq<int>, ghost s0: SearchState,
                    ghost fptr: nat, rptr0: nat, lstptr0: nat, maxlevel0: int, ghost seen: set<int>)
    returns (rptr: nat, lstptr: nat, maxlevel: int, ghost s: SearchState)
    requires w.Valid(g.bsize) && w.mate[..] == mate
    requires w.Shows(s0, rptr0, lstptr0) && s0.maxlevel == maxlevel0 && Search(g, mate, s0, fptr, row, seen)
    requires IsCol(g, col) && IsRow(g, row) && Edge(g, row, col) && w.flag[col] == 0
    modifies w.flag, w.level, w.queue, w.lst
    ensures w.Shows(s, rptr, lstptr) && s.maxlevel == maxlevel && Search(g, mate, s, fptr, row, seen + {col})
  {
    hide Search;
    rptr, lstptr, maxlevel, s := rptr0, lstptr0, maxlevel0, s0;
    SearchBounds(g, mate, s, fptr, row, seen);
    w.flag[col] := 1;
    ScanFresh(g, mate, s, fptr, row, seen, col);
    s := ScanStep(mate, s0, row, col);
    if w.mate[col] == -1 {
      maxlevel := w.level[row];
      w.lst[lstptr] := col;
      lstptr := lstptr + 1;
    } else {  /* the row matched to it cannot be flagged yet */
      assert w.flag[w.mate[col]] != 1;
      w.queue[rptr] := w.mate[col];
      rptr := rptr + 1;
      w.level[w.mate[col]] := w.level[row] + 1;
    }
  }

  // ---------------------------------------------------------------- one phase

  /** All recorded columns are free and have `hit` as their only visited neighbour on its level. */
  ghost predicate Compete(g: Graph, lst: seq<int>, mate: seq<int>, flag: seq<int>, level: seq<int>, maxlevel: int, hit: int)
    requires Shaped(g) && |mate| == |flag| == |level| == g.bsize
  {
    && Distinct(lst)
    && (forall c :: c in lst ==> IsCol(g, c) && mate[c] == -1 && Candidate(g, c, hit, flag, level, maxlevel))
    && (forall c, r :: c in lst && IsRow(g, r) && flag[r] == 1 && Edge(g, c, r) ==> r == hit)
  }

  ghost predicate OnlyVisited(g: Graph, flag: seq<int>, flag': seq<int>)
    requires Shaped(g) && |flag| == |flag'| == g.bsize
  {
    forall r :: IsRow(g, r) ==> flag'[r] == flag[r] || (flag[r] == 1 && flag'[r] == 2)
  }

  lemma {:induction false} FirstWins(g: Graph, lst: seq<int>, mate: seq<int>, flag: seq<int>, level: seq<int>, maxlevel: int,
                                     hit: int, mate': seq<int>, flag': seq<int>, status: int)
    requires WellFormed(g) && Matching(g, mate) && |flag| == |level| == |mate'| == |flag'| == g.bsize
    requires lst != [] && IsCol(g, lst[0]) && Compete(g, lst, mate, flag, level, maxlevel, hit)
    requires Augmented(g, lst[0], level, maxlevel, mate, flag, mate', flag', status)
    ensures Matching(g, mate') && MatchedCols(g, mate') == MatchedCols(g, mate) + {lst[0]}
    ensures lst[0] !in MatchedCols(g, mate)
    ensures OnlyVisited(g, flag, flag') && IsRow(g, hit) && flag'[hit] == 2
  {
    assert lst[0] in lst;
  }

  lemma {:induction false} OthersLose(g: Graph, lst: seq<int>, mate: seq<int>, flag: seq<int>, level: seq<int>, maxlevel: int,
                                      hit: int, mate': seq<int>, flag': seq<int>, i: int)
    requires WellFormed(g) && |mate| == |flag| == |level| == |mate'| == |flag'| == g.bsize
    requires 0 < i < |lst| && Compete(g, lst, mate, flag, level, maxlevel, hit)
    requires MatchedCols(g, mate') == MatchedCols(g, mate) + {lst[0]}
    requires OnlyVisited(g, flag, flag') && IsRow(g, hit) && flag'[hit] == 2
    ensures IsCol(g, lst[i]) && mate'[lst[i]] == -1
    ensures !HasCandidate(g, lst[i], flag', level, maxlevel)
  {
    assert lst[i] in lst;
    assert lst[i] !in MatchedCols(g, mate');
  }

  lemma {:induction false} LosingChangesNothing(g: Graph, col: int, level: seq<int>, maxlevel: int, flag0: seq<int>, hit: int,
                                      mate: seq<int>, flag: seq<int>, mate': seq<int>, flag': seq<int>, status: int)
    requires WellFormed(g) && IsCol(g, col) && Matching(g, mate)
    requires |flag0| == |flag| == |level| == |mate'| == |flag'| == g.bsize
    requires !HasCandidate(g, col, flag, level, maxlevel)
    requires Augmented(g, col, level, maxlevel, mate, flag, mate', flag', status)
    requires OnlyVisited(g, flag0, flag) && IsRow(g, hit) && flag[hit] == 2
    ensures mate' == mate && OnlyVisited(g, flag0, flag') && flag'[hit] == 2
  {
  }

  /**
   * The augmentations of one phase. All recorded columns compete for the same row, so the first
   * one always wins and the others always lose: a phase grows the matching by exactly one.
   */
  method AugmentAll(csr: Csr, ghost g: Graph, w: Workspace, lstptr: nat, maxlevel: int, ghost hit: int,
                    ghost lst: seq<int>, ghost mate: seq<int>, ghost flag: seq<int>, ghost level: seq<int>)
    requires Stores(csr, g) && w.Valid(g.bsize) && 0 < lstptr <= w.lst.Length && maxlevel >= 0
    requires w.lst[..lstptr] == lst && w.mate[..] == mate && w.flag[..] == flag && w.level[..] == level
    requires Matching(g, mate) && Rooted(g, mate, flag, level, maxlevel)
    requires Compete(g, lst, mate, flag, level, maxlevel, hit)
    modifies w.mate, w.flag
    ensures Matching(g, w.mate[..])
    ensures MatchedCols(g, w.mate[..]) == MatchedCols(g, mate) + {lst[0]} && lst[0] !in MatchedCols(g, mate)
  {
    hide Stores, WellFormed, MatchingBut, Rooted, Augmented, Compete, Candidate, OnlyVisited;
    StoresFacts(csr, g, 0);
    CompeteFacts(g, lst, mate, flag, level, maxlevel, hit);
    assert forall k :: 0 <= k < lstptr ==> w.lst[k] == lst[k];
    var status := Augment(csr, g, w.lst[0], w, maxlevel, mate, flag, level);
    FirstWins(g, lst, mate, flag, level, maxlevel, hit, w.mate[..], w.flag[..], status);
    for i := 1 to lstptr
      invariant Matching(g, w.mate[..]) && MatchedCols(g, w.mate[..]) == MatchedCols(g, mate) + {lst[0]}
      invariant OnlyVisited(g, flag, w.flag[..]) && w.flag[hit] == 2
    {
      ghost var mate1, flag1 := w.mate[..], w.flag[..];
      OthersLose(g, lst, mate, flag, level, maxlevel, hit, mate1, flag1, i);
      status := Augment(csr, g, w.lst[i], w, maxlevel, mate1, flag1, level);
      LosingChangesNothing(g, lst[i], level, maxlevel, flag, hit, mate1, flag1, w.mate[..], w.flag[..], status);
    }
  }

  lemma CompeteFacts(g: Graph, lst: seq<int>, mate: seq<int>, flag: seq<int>, level: seq<int>, maxlevel: int, hit: int)
    requires Shaped(g) && |mate| == |flag| == |level| == g.bsize
    requires Compete(g, lst, mate, flag, level, maxlevel, hit) && lst != []
    ensures IsCol(g, lst[0]) && mate[lst[0]] == -1 && IsRow(g, hit)
  {
    assert lst[0] in lst;
  }

  // ---------------------------------------------------------------- decomposition

  /** The mark the two searches leave: the first works inside the set it is given, from free rows. */
  ghost function Mark(g: Graph, u: int, fromRows: bool): int {
    if fromRows then (if u < g.asize then HC else HR) else (if u < g.asize then VC else VR)
  }

  ghost predicate Marked(g: Graph, where: seq<int>, u: int, fromRows: bool)
    requires |where| == g.bsize && 0 <= u < g.bsize
  {
    where[u] == Mark(g, u, fromRows)
  }

  /** Where an alternating path may go on from `u`: along any edge from one side, along the mate from the other. */
  ghost predicate Next(g: Graph, mate: seq<int>, u: int, v: int, fromRows: bool)
    requires Shaped(g) && |mate| == g.bsize && 0 <= u < g.bsize
  {
    if IsRow(g, u) == fromRows then Edge(g, u, v) else v == mate[u] && v != -1
  }

  ghost predicate ClosedSet(g: Graph, mate: seq<int>, z: set<int>, fromRows: bool)
    requires Shaped(g) && |mate| == g.bsize
  {
    && (forall u :: u in z ==> 0 <= u < g.bsize)
    && (forall u, v :: u in z && Next(g, mate, u, v, fromRows) ==> v in z)
  }

  ghost function Unmarked(g: Graph, where: seq<int>, z: set<int>, fromRows: bool): set<int>
    requires |where| == g.bsize && forall u :: u in z ==> 0 <= u < g.bsize
  {
    set u | u in z && !Marked(g, where, u, fromRows)
  }

  /** Only vertices of `z` were marked, `root` is marked, and what is newly marked is closed up to `open`. */
  ghost predicate Explored(g: Graph, mate: seq<int>, z: set<int>, fromRows: bool, open: set<int>,
                           where: seq<int>, where': seq<int>)
    requires Shaped(g) && |mate| == |where| == |where'| == g.bsize
  {
    && (forall u :: 0 <= u < g.bsize ==> where'[u] == where[u] || (u in z && Marked(g, where', u, fromRows)))
    && (forall u, v :: 0 <= u < g.bsize && u !in open && Marked(g, where', u, fromRows) && !Marked(g, where, u, fromRows) && Next(g, mate, u, v, fromRows) ==>
          0 <= v < g.bsize && Marked(g, where', v, fromRows))
  }

  lemma {:induction false} ExploredTransitive(g: Graph, mate: seq<int>, z: set<int>, fromRows: bool, open: set<int>,
                                              where0: seq<int>, where1: seq<int>, where2: seq<int>)
    requires Shaped(g) && |mate| == |where0| == |where1| == |where2| == g.bsize
    requires Explored(g, mate, z, fromRows, open, where0, where1)
    requires Explored(g, mate, z, fromRows, {}, where1, where2)
    ensures Explored(g, mate, z, fromRows, open, where0, where2)
  {
  }

  lemma ExploredNothing(g: Graph, mate: seq<int>, z: set<int>, fromRows: bool, where: seq<int>)
    requires Shaped(g) && |mate| == |where| == g.bsize
    ensures Explored(g, mate, z, fromRows, {}, where, where)
  {
  }

  lemma MarksStay(g: Graph, mate: seq<int>, z: set<int>, fromRows: bool, where0: seq<int>, where1: seq<int>)
    requires Shaped(g) && |mate| == |where0| == |where1| == g.bsize
    requires Explored(g, mate, z, fromRows, {}, where0, where1)
    ensures forall u :: 0 <= u < g.bsize && Marked(g, where0, u, fromRows) ==> Marked(g, where1, u, fromRows)
  {
  }

  lemma RootFacts(g: Graph, mate: seq<int>, z: set<int>, fromRows: bool, root: int, where: seq<int>)
    requires WellFormed(g) && Matching(g, mate) && ClosedSet(g, mate, z, fromRows) && root in z && |where| == g.bsize
    ensures 0 <= root < g.bsize
    ensures forall u :: u in z ==> 0 <= u < g.bsize
  {
  }

  lemma OpenRoot(g: Graph, mate: seq<int>, z: set<int>, fromRows: bool, where0: seq<int>, where: seq<int>, root: int)
    requires Shaped(g) && |mate| == |where0| == g.bsize && root in z && 0 <= root < g.bsize
    requires where == where0[root := Mark(g, root, fromRows)]
    ensures Explored(g, mate, z, fromRows, {root}, where0, where)
  {
  }

  lemma CloseRoot(g: Graph, mate: seq<int>, z: set<int>, fromRows: bool, where0: seq<int>, where: seq<int>, root: int)
    requires Shaped(g) && |mate| == |where0| == |where| == g.bsize && 0 <= root < g.bsize
    requires Explored(g, mate, z, fromRows, {root}, where0, where)
    requires forall v :: Next(g, mate, root, v, fromRows) ==> 0 <= v < g.bsize && Marked(g, where, v, fromRows)
    ensures Explored(g, mate, z, fromRows, {}, where0, where)
  {
  }

  /** The searches go on inside `z`, to a vertex of the other side. */
  lemma ClosedNext(g: Graph, mate: seq<int>, z: set<int>, fromRows: bool, u: int, v: int)
    requires WellFormed(g) && Matching(g, mate) && ClosedSet(g, mate, z, fromRows) && u in z && 0 <= u < g.bsize
    requires if IsRow(g, u) == fromRows then Edge(g, u, v) else v == mate[u] && v != -1
    ensures Next(g, mate, u, v, fromRows) && v in z && 0 <= v < g.bsize && IsRow(g, v) == IsCol(g, u)
  {
    if IsRow(g, u) != fromRows {
      assert Edge(g, u, mate[u]);
    }
  }

  lemma {:induction false} FewerUnmarked(g: Graph, mate: seq<int>, z: set<int>, fromRows: bool, open: set<int>,
                                         where0: seq<int>, where1: seq<int>, root: int)
    requires Shaped(g) && |mate| == |where0| == |where1| == g.bsize && ClosedSet(g, mate, z, fromRows)
    requires Explored(g, mate, z, fromRows, open, where0, where1)
    requires root in z && !Marked(g, where0, root, fromRows) && Marked(g, where1, root, fromRows)
    ensures Unmarked(g, where1, z, fromRows) < Unmarked(g, where0, z, fromRows)
  {
    assert root in Unmarked(g, where0, z, fromRows);
  }

  /** Depth-first search along alternating paths that start in a free row; `z` is any closed set around it. */
  method ColDFS(csr: Csr, ghost g: Graph, root: int, mate: array<int>, where: array<int>, flag: int, ghost z: set<int>,
                ghost m: seq<int>, ghost where0: seq<int>)
    requires Stores(csr, g) && mate.Length == where.Length == g.bsize && mate != where
    requires mate[..] == m && where[..] == where0
    requires Matching(g, m) && ClosedSet(g, m, z, true) && root in z
    requires flag == if IsRow(g, root) then INCOL else INROW
    modifies where
    ensures Explored(g, m, z, true, {}, where0, where[..]) && Marked(g, where[..], root, true)
    decreases Unmarked(g, where0, z, true)
  {
    hide Explored, ClosedSet, MatchingBut, Stores, WellFormed;
    StoresFacts(csr, g, root);
    RootFacts(g, m, z, true, root, where0);
    if flag == INCOL {
      if where[root] == HC {
        ExploredNothing(g, m, z, true, where0);
        return;
      }
      where[root] := HC;
      OpenRoot(g, m, z, true, where0, where[..], root);
      assert RowAgrees(csr, g, root);
      for i := First(csr, root) to Last(csr, root)
        invariant mate[..] == m && Explored(g, m, z, true, {root}, where0, where[..]) && where[root] == HC
        invariant forall v :: v in Part(csr, root, i) ==> 0 <= v < g.bsize && Marked(g, where[..], v, true)
      {
        PartStep(csr, root, i);
        ClosedNext(g, m, z, true, root, csr.adjncy[i]);
        ghost var where1 := where[..];
        assert Marked(g, where1, root, true);
        FewerUnmarked(g, m, z, true, {root}, where0, where1, root);
        ColDFS(csr, g, csr.adjncy[i], mate, where, INROW, z, m, where1);
        ExploredTransitive(g, m, z, true, {root}, where0, where1, where[..]);
        MarksStay(g, m, z, true, where1, where[..]);
      }
    } else {
      if where[root] == HR {
        ExploredNothing(g, m, z, true, where0);
        return;
      }
      where[root] := HR;
      OpenRoot(g, m, z, true, where0, where[..], root);
      if mate[root] != -1 {
        ClosedNext(g, m, z, true, root, m[root]);
        ghost var where1 := where[..];
        assert Marked(g, where1, root, true);
        FewerUnmarked(g, m, z, true, {root}, where0, where1, root);
        ColDFS(csr, g, mate[root], mate, where, INCOL, z, m, where1);
        ExploredTransitive(g, m, z, true, {root}, where0, where1, where[..]);
        MarksStay(g, m, z, true, where1, where[..]);
      }
    }
    CloseRoot(g, m, z, true, where0, where[..], root);
  }

  /** The same from a free column, with the roles of the two sides exchanged. */
  method RowDFS(csr: Csr, ghost g: Graph, root: int, mate: array<int>, where: array<int>, flag: int, ghost z: set<int>,
                ghost m: seq<int>, ghost where0: seq<int>)
    requires Stores(csr, g) && mate.Length == where.Length == g.bsize && mate != where
    requires mate[..] == m && where[..] == where0
    requires Matching(g, m) && ClosedSet(g, m, z, false) && root in z
    requires flag == if IsCol(g, root) then INROW else INCOL
    modifies where
    ensures Explored(g, m, z, false, {}, where0, where[..]) && Marked(g, where[..], root, false)
    decreases Unmarked(g, where0, z, false)
  {
    hide Explored, ClosedSet, MatchingBut, Stores, WellFormed;
    StoresFacts(csr, g, root);
    RootFacts(g, m, z, false, root, where0);
    if flag == INROW {
      if where[root] == VR {
        ExploredNothing(g, m, z, false, where0);
        return;
      }
      where[root] := VR;
      OpenRoot(g, m, z, false, where0, where[..], root);
      assert RowAgrees(csr, g, root);
      for i := First(csr, root) to Last(csr, root)
        invariant mate[..] == m && Explored(g, m, z, false, {root}, where0, where[..]) && where[root] == VR
        invariant forall v :: v in Part(csr, root, i) ==> 0 <= v < g.bsize && Marked(g, where[..], v, false)
      {
        PartStep(csr, root, i);
        ClosedNext(g, m, z, false, root, csr.adjncy[i]);
        ghost var where1 := where[..];
        assert Marked(g, where1, root, false);
        FewerUnmarked(g, m, z, false, {root}, where0, where1, root);
        RowDFS(csr, g, csr.adjncy[i], mate, where, INCOL, z, m, where1);
        ExploredTransitive(g, m, z, false, {root}, where0, where1, where[..]);
        MarksStay(g, m, z, false, where1, where[..]);
      }
    } else {
      if where[root] == VC {
        ExploredNothing(g, m, z, false, where0);
        return;
      }
      where[root] := VC;
      OpenRoot(g, m, z, false, where0, where[..], root);
      if mate[root] != -1 {
        ClosedNext(g, m, z, false, root, m[root]);
        ghost var where1 := where[..];
        assert Marked(g, where1, root, false);
        FewerUnmarked(g, m, z, false, {root}, where0, where1, root);
        RowDFS(csr, g, mate[root], mate, where, INROW, z, m, where1);
        ExploredTransitive(g, m, z, false, {root}, where0, where1, where[..]);
        MarksStay(g, m, z, false, where1, where[..]);
      }
    }
    CloseRoot(g, m, z, false, where0, where[..], root);
  }

  /**
   * The coarse decomposition: what alternating paths reach from free rows (HC, HR), what they
   * reach from free columns (VR, VC), and the rest (SC, SR). The two reaches stay apart.
   */
  ghost predicate Decomposed(g: Graph, mate: seq<int>, where: seq<int>)
    requires WellFormed(g) && Matching(g, mate) && |where| == g.bsize
  {
    && (forall r :: IsRow(g, r) ==> where[r] in {SC, HC, VC} && (mate[r] == -1 ==> where[r] == HC))
    && (forall c :: IsCol(g, c) ==> where[c] in {SR, HR, VR} && (mate[c] == -1 ==> where[c] == VR))
    && (forall r, c :: IsRow(g, r) && Edge(g, r, c) ==> (where[r] == HC ==> where[c] == HR) && (where[c] == VR ==> where[r] == VC))
    && (forall r :: IsRow(g, r) && mate[r] != -1 ==> (where[mate[r]] == HR ==> where[r] == HC) && (where[r] == VC ==> where[mate[r]] == VR))
  }

  ghost function InClasses(where: seq<int>, a: int, b: int, c: int): set<int> {
    set u | u in Range(0, |where|) && where[u] in {a, b, c}
  }

  /** The first cover: rows that no free row reaches, and the columns one does reach. */
  ghost function FirstCover(where: seq<int>): set<int> {
    InClasses(where, VC, SC, HR)
  }

  /** The second cover: rows that a free column reaches, and the columns none does reach. */
  ghost function SecondCover(where: seq<int>): set<int> {
    InClasses(where, VC, SR, HR)
  }

  ghost function ToColumn(g: Graph, mate: seq<int>): map<int, int>
    requires |mate| == g.bsize
  {
    map u | u in Range(0, g.bsize) :: if u < g.asize then mate[u] else u
  }

  lemma {:induction false} CoverSize(g: Graph, mate: seq<int>, cover: set<int>)
    requires WellFormed(g) && Matching(g, mate) && IsCover(g, cover)
    requires forall u :: u in cover ==> 0 <= u < g.bsize && mate[u] != -1
    requires forall r :: IsRow(g, r) && mate[r] != -1 ==> !(r in cover && mate[r] in cover)
    ensures |cover| == |MatchedCols(g, mate)|
  {
    CoverAtLeastMatching(g, mate, cover);
    forall r | IsRow(g, r) && mate[r] != -1
      ensures IsCol(g, mate[r]) && mate[mate[r]] == r
    {
      assert Edge(g, r, mate[r]);
    }
    InjectionBounds(cover, ToColumn(g, mate), MatchedCols(g, mate));
  }

  /** Both alternatives are covers with one vertex of every matching edge and no other vertex. */
  lemma {:induction false} BothAreCovers(g: Graph, mate: seq<int>, where: seq<int>)
    requires WellFormed(g) && Matching(g, mate) && |where| == g.bsize && Decomposed(g, mate, where)
    ensures IsCover(g, FirstCover(where)) && |FirstCover(where)| == |MatchedCols(g, mate)|
    ensures IsCover(g, SecondCover(where)) && |SecondCover(where)| == |MatchedCols(g, mate)|
  {
    forall u, v | Edge(g, u, v)
      ensures u in FirstCover(where) || v in FirstCover(where)
      ensures u in SecondCover(where) || v in SecondCover(where)
    {
      assert Edge(g, v, u);
    }
    forall r | IsRow(g, r) && mate[r] != -1
      ensures !(r in FirstCover(where) && mate[r] in FirstCover(where))
      ensures !(r in SecondCover(where) && mate[r] in SecondCover(where))
    {
      assert Edge(g, r, mate[r]);
    }
    CoverSize(g, mate, FirstCover(where));
    CoverSize(g, mate, SecondCover(where));
  }

  ghost predicate Initial(g: Graph, where: seq<int>) {
    && |where| == g.bsize
    && forall u :: 0 <= u < g.bsize ==> where[u] == if u < g.asize then SC else SR
  }

  /** No alternating path joins a free row to a free column, so the two searches cannot meet. */
  lemma {:induction false} SearchesDecompose(g: Graph, mate: seq<int>, z: set<int>, where0: seq<int>, where1: seq<int>, where2: seq<int>)
    requires WellFormed(g) && Matching(g, mate) && Initial(g, where0) && |where1| == |where2| == g.bsize
    requires Explored(g, mate, z, true, {}, where0, where1)
    requires Explored(g, mate, Range(0, g.bsize) - z, false, {}, where1, where2)
    requires forall r :: IsRow(g, r) && mate[r] == -1 ==> Marked(g, where1, r, true) && r in z
    requires forall c :: IsCol(g, c) && mate[c] == -1 ==> Marked(g, where2, c, false)
    ensures Decomposed(g, mate, where2)
  {
    forall r, c | IsRow(g, r) && Edge(g, r, c)
      ensures (where2[r] == HC ==> where2[c] == HR) && (where2[c] == VR ==> where2[r] == VC)
    {
      assert Edge(g, c, r);
      assert Next(g, mate, r, c, true) && Next(g, mate, c, r, false);
    }
    forall r | IsRow(g, r) && mate[r] != -1
      ensures (where2[mate[r]] == HR ==> where2[r] == HC) && (where2[r] == VC ==> where2[mate[r]] == VR)
    {
      assert Edge(g, r, mate[r]);
      assert Next(g, mate, r, mate[r], false) && Next(g, mate, mate[r], r, true);
    }
  }

  lemma {:induction false} SeparatorClosed(g: Graph, mate: seq<int>, z: set<int>)
    requires WellFormed(g) && Matching(g, mate) && Separates(g, mate, z) && z <= Range(0, g.bsize)
    ensures ClosedSet(g, mate, z, true) && ClosedSet(g, mate, Range(0, g.bsize) - z, false)
    ensures forall r :: IsRow(g, r) && mate[r] == -1 ==> r in z
    ensures forall c :: IsCol(g, c) && mate[c] == -1 ==> c !in z
  {
    forall u, v | u in Range(0, g.bsize) - z && Next(g, mate, u, v, false)
      ensures v in Range(0, g.bsize) - z
    {
      if IsRow(g, u) {
        assert Edge(g, u, mate[u]);
      } else {
        assert Edge(g, v, u);
      }
    }
  }

  method InitialClasses(asize: int, ghost g: Graph, where: array<int>)
    requires Shaped(g) && asize == g.asize && where.Length == g.bsize
    modifies where
    ensures Initial(g, where[..])
  {
    for i := 0 to where.Length
      invariant forall u :: 0 <= u < i ==> where[u] == if u < asize then SC else SR
    {
      where[i] := if i < asize then SC else SR;
    }
  }

  method SearchFromRows(csr: Csr, asize: int, ghost g: Graph, mate: array<int>, where: array<int>, ghost z: set<int>,
                        ghost m: seq<int>, ghost where0: seq<int>)
    requires Stores(csr, g) && asize == g.asize && mate.Length == where.Length == g.bsize && mate != where
    requires mate[..] == m && Matching(g, m) && ClosedSet(g, m, z, true) && where[..] == where0
    requires forall r :: IsRow(g, r) && m[r] == -1 ==> r in z
    modifies where
    ensures Explored(g, m, z, true, {}, where0, where[..])
    ensures forall r :: IsRow(g, r) && m[r] == -1 ==> Marked(g, where[..], r, true)
  {
    hide Explored, Stores, WellFormed, MatchingBut, ClosedSet;
    StoresFacts(csr, g, 0);
    ExploredNothing(g, m, z, true, where0);
    for i := 0 to asize
      invariant mate[..] == m && Explored(g, m, z, true, {}, where0, where[..])
      invariant forall r :: 0 <= r < i && m[r] == -1 ==> Marked(g, where[..], r, true)
    {
      if mate[i] == -1 {
        ghost var w := where[..];
        ColDFS(csr, g, i, mate, where, INCOL, z, m, w);
        ExploredTransitive(g, m, z, true, {}, where0, w, where[..]);
        MarksStay(g, m, z, true, w, where[..]);
      }
    }
  }

  method SearchFromCols(csr: Csr, asize: int, ghost g: Graph, mate: array<int>, where: array<int>, ghost z: set<int>,
                        ghost m: seq<int>, ghost where0: seq<int>)
    requires Stores(csr, g) && asize == g.asize && mate.Length == where.Length == g.bsize && mate != where
    requires mate[..] == m && Matching(g, m) && ClosedSet(g, m, z, false) && where[..] == where0
    requires forall c :: IsCol(g, c) && m[c] == -1 ==> c in z
    modifies where
    ensures Explored(g, m, z, false, {}, where0, where[..])
    ensures forall c :: IsCol(g, c) && m[c] == -1 ==> Marked(g, where[..], c, false)
  {
    hide Explored, Stores, WellFormed, MatchingBut, ClosedSet;
    StoresFacts(csr, g, 0);
    ExploredNothing(g, m, z, false, where0);
    for i := asize to where.Length
      invariant mate[..] == m && Explored(g, m, z, false, {}, where0, where[..])
      invariant forall c :: asize <= c < i && m[c] == -1 ==> Marked(g, where[..], c, false)
    {
      if mate[i] == -1 {
        ghost var w := where[..];
        RowDFS(csr, g, i, mate, where, INROW, z, m, w);
        ExploredTransitive(g, m, z, false, {}, where0, w, where[..]);
        MarksStay(g, m, z, false, w, where[..]);
      }
    }
  }

  /** Runs both searches. */
  method Classify(csr: Csr, asize: int, ghost g: Graph, mate: array<int>, where: array<int>, ghost z: set<int>, ghost m: seq<int>)
    requires Stores(csr, g) && asize == g.asize && mate.Length == where.Length == g.bsize && mate != where
    requires mate[..] == m && Matching(g, m) && Separates(g, m, z) && z <= Range(0, g.bsize)
    modifies where
    ensures Decomposed(g, m, where[..])
  {
    hide Explored, Decomposed, Separates, Stores, WellFormed, MatchingBut, ClosedSet;
    StoresFacts(csr, g, 0);
    SeparatorClosed(g, m, z);
    InitialClasses(asize, g, where);
    ghost var where0 := where[..];
    SearchFromRows(csr, asize, g, mate, where, z, m, where0);
    ghost var where1 := where[..];
    SearchFromCols(csr, asize, g, mate, where, Range(0, g.bsize) - z, m, where1);
    SearchesDecompose(g, m, z, where0, where1, where[..]);
  }

  function Abs(x: int): (a: int)
    ensures a >= 0 && a in {x, -x}
  {
    if x < 0 then -x else x
  }

  /** Copies the vertices of the three given classes to `cover`, in increasing order. */
  method Collect(where: array<int>, a: int, b: int, c: int, cover: array<int>) returns (k: nat)
    requires cover.Length == where.Length && cover != where
    modifies cover
    ensures k <= cover.Length && Distinct(cover[..k]) && Elements(cover[..k]) == InClasses(where[..], a, b, c)
  {
    k := 0;
    for i := 0 to where.Length
      invariant k <= i && Distinct(cover[..k])
      invariant forall u :: u in cover[..k] <==> 0 <= u < i && where[u] in {a, b, c}
    {
      if where[i] == a || where[i] == b || where[i] == c {
        ghost var c0 := cover[..k];
        DistinctAppend(c0, i);
        cover[k] := i;
        k := k + 1;
        assert cover[..k] == c0 + [i];
      }
    }
  }

  method CountClasses(where: array<int>) returns (card: array<int>)
    requires forall u :: 0 <= u < where.Length ==> 0 <= where[u] < 10
    ensures fresh(card) && card.Length == 10
    ensures forall k :: 0 <= k < 10 ==> card[k] == multiset(where[..])[k]
  {
    card := new int[10](_ => 0);
    for i := 0 to where.Length
      invariant forall k :: 0 <= k < 10 ==> card[k] == multiset(where[..i])[k]
    {
      assert where[..i + 1] == where[..i] + [where[i]];
      card[where[i]] := card[where[i]] + 1;
    }
    assert where[..where.Length] == where[..];
  }

  lemma ClassRange(g: Graph, mate: seq<int>, where: seq<int>)
    requires WellFormed(g) && Matching(g, mate) && |where| == g.bsize && Decomposed(g, mate, where)
    ensures forall u :: 0 <= u < |where| ==> 0 <= where[u] < 10
  {
    forall u | 0 <= u < |where|
      ensures 0 <= where[u] < 10
    {
      assert IsRow(g, u) || IsCol(g, u);
    }
  }

  method Decompose(csr: Csr, asize: int, ghost g: Graph, mate: array<int>, cover: array<int>, ghost z: set<int>)
    returns (csize: nat)
    requires Stores(csr, g) && asize == g.asize && mate.Length == cover.Length == g.bsize && mate != cover
    requires Matching(g, mate[..]) && Separates(g, mate[..], z) && z <= Range(0, g.bsize)
    modifies cover
    ensures csize <= cover.Length && Distinct(cover[..csize])
    ensures IsCover(g, Elements(cover[..csize])) && csize == |MatchedCols(g, mate[..])|
  {
    hide Decomposed, Separates, Stores, WellFormed, MatchingBut, IsCover, InClasses, Distinct, Elements;
    StoresFacts(csr, g, 0);
    ghost var m := mate[..];
    var where := new int[mate.Length];
    Classify(csr, asize, g, mate, where, z, m);
    ghost var classes := where[..];
    ClassRange(g, m, classes);
    var card := CountClasses(where);
    BothAreCovers(g, m, classes);
    if Abs(card[VC] + card[SC] - card[HR]) < Abs(card[VC] - card[SR] - card[HR]) {
      csize := Collect(where, VC, SC, HR, cover);
    } else {
      csize := Collect(where, VC, SR, HR, cover);
    }
    DistinctSize(cover[..csize]);
  }

  // ---------------------------------------------------------------- the whole algorithm

  /** The cheap greedy matching the algorithm starts from. */
  method CheapMatching(csr: Csr, asize: int, ghost g: Graph, w: Workspace)
    requires Stores(csr, g) && asize == g.asize && w.Valid(g.bsize)
    requires forall i :: 0 <= i < g.bsize ==> w.mate[i] == -1
    modifies w.mate
    ensures Matching(g, w.mate[..])
  {
    for i := 0 to asize
      invariant Matching(g, w.mate[..]) && forall r :: i <= r < asize ==> w.mate[r] == -1
    {
      assert RowAgrees(csr, g, i);
      for j := First(csr, i) to Last(csr, i)
        invariant Matching(g, w.mate[..]) && forall r :: i <= r < asize ==> w.mate[r] == -1
      {
        PartStep(csr, i, j);
        assert Edge(g, i, csr.adjncy[j]);
        if w.mate[csr.adjncy[j]] == -1 {
          ghost var m := w.mate[..];
          w.mate[i] := csr.adjncy[j];
          w.mate[csr.adjncy[j]] := i;
          MatchOne(g, m, i, csr.adjncy[j]);
          assert w.mate[..] == m[i := csr.adjncy[j]][csr.adjncy[j] := i];
          break;
        }
      }
    }
  }

  lemma {:induction false} MatchOne(g: Graph, mate: seq<int>, row: int, col: int)
    requires WellFormed(g) && Matching(g, mate) && IsRow(g, row) && Edge(g, row, col)
    requires mate[row] == -1 && mate[col] == -1
    ensures Matching(g, mate[row := col][col := row])
  {
    assert Edge(g, col, row);
  }

  /** One phase: search, then augment from every free column found. `grew` tells whether any was. */
  method Phase(csr: Csr, asize: int, ghost g: Graph, w: Workspace, ghost mate: seq<int>)
    returns (grew: bool, ghost z: set<int>)
    requires Stores(csr, g) && asize == g.asize && w.Valid(g.bsize) && w.mate[..] == mate && Matching(g, mate)
    modifies w.mate, w.flag, w.level, w.queue, w.lst
    ensures grew ==> Matching(g, w.mate[..]) && |MatchedCols(g, w.mate[..])| == |MatchedCols(g, mate)| + 1
    ensures !grew ==> w.mate[..] == mate && Separates(g, mate, z) && z <= Range(0, g.bsize)
  {
    hide Search, Stores, WellFormed, MatchingBut, Separates, Rooted, Compete;
    StoresFacts(csr, g, 0);
    z := {};
    var lstptr, maxlevel;
    ghost var s;
    lstptr, maxlevel, s := Bfs(csr, asize, g, w, mate);
    if lstptr == 0 {
      ExhaustedSeparates(g, mate, s);
      z := Reached(g, s.level, s.flag);
      return false, z;
    }
    HitsAreCandidates(g, mate, s);
    AugmentAll(csr, g, w, lstptr, maxlevel, s.hit, s.lst, mate, s.flag, s.level);
    return true, z;
  }

  /**
   * The minimum cover. `cover[..csize]` touches every edge, no cover is smaller, and `mate` is a
   * matching of the same size that proves it.
   */
  method MinCover(csr: Csr, asize: int, ghost g: Graph, cover: array<int>) returns (csize: nat, ghost mate: seq<int>)
    requires Stores(csr, g) && asize == g.asize && cover.Length == g.bsize
    modifies cover
    ensures csize <= cover.Length && Distinct(cover[..csize]) && IsCover(g, Elements(cover[..csize]))
    ensures forall other :: IsCover(g, other) ==> csize <= |other|
    ensures Matching(g, mate) && csize == |MatchedCols(g, mate)|
  {
    var w := new Workspace(|csr.xadj| - 1);
    CheapMatching(csr, asize, g, w);
    ghost var z: set<int> := {};
    mate := w.mate[..];
    while true
      invariant w.mate[..] == mate && Matching(g, mate)
      decreases g.bsize - |MatchedCols(g, mate)|
    {
      BoundedSize(MatchedCols(g, mate), g.asize, g.bsize);
      var grew;
      grew, z := Phase(csr, asize, g, w, mate);
      if !grew {
        break;
      }
      mate := w.mate[..];
      BoundedSize(MatchedCols(g, mate), g.asize, g.bsize);
    }
    csize := Decompose(csr, asize, g, w.mate, cover, z);
    forall other | IsCover(g, other)
      ensures csize <= |other|
    {
      CoverAtLeastMatching(g, mate, other);
    }
  }
}
