// Compressed sparse rows: the adjacency format shared by all the graph code.
module Csrs {
  /** Row `u` holds the neighbours adjncy[xadj[u]..xadj[u + 1]]. */
  datatype Csr = Csr(xadj: seq<int>, adjncy: seq<int>)

  function Size(g: Csr): int {
    |g.xadj| - 1
  }

  ghost predicate RowShaped(g: Csr, u: int) {
    0 <= u < Size(g) && 0 <= g.xadj[u] <= g.xadj[u + 1] <= |g.adjncy|
  }

  ghost predicate Shaped(g: Csr) {
    Size(g) >= 0 && forall u :: 0 <= u < Size(g) ==> RowShaped(g, u)
  }

  function First(g: Csr, u: int): (lo: int)
    requires Shaped(g) && 0 <= u < Size(g)
    ensures RowShaped(g, u)
  {
    assert RowShaped(g, u);
    g.xadj[u]
  }

  function Last(g: Csr, u: int): (hi: int)
    requires Shaped(g) && 0 <= u < Size(g)
    ensures RowShaped(g, u) && First(g, u) <= hi
  {
    assert RowShaped(g, u);
    g.xadj[u + 1]
  }

  /** The neighbours of `u` stored before position `hi`. */
  ghost function Part(g: Csr, u: int, hi: int): (s: seq<int>)
    requires Shaped(g) && 0 <= u < Size(g)
    requires First(g, u) <= hi <= Last(g, u)
  {
    g.adjncy[First(g, u)..hi]
  }

  ghost function Row(g: Csr, u: int): (s: seq<int>)
    requires Shaped(g) && 0 <= u < Size(g)
  {
    Part(g, u, Last(g, u))
  }

  lemma PartStep(g: Csr, u: int, j: int)
    requires Shaped(g) && 0 <= u < Size(g)
    requires First(g, u) <= j < Last(g, u)
    ensures Part(g, u, j + 1) == Part(g, u, j) + [g.adjncy[j]]
    ensures g.adjncy[j] in Row(g, u)
  {
    assert Row(g, u)[j - First(g, u)] == g.adjncy[j];
  }
}
