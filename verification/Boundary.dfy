// The boundary list of a partition: an index array and its inverse, updated in constant time
// (the BNDInsert and BNDDelete macros, tools/assignment/metis/macros.h:102-115).
module Boundary {
  import opened Finite

  datatype List = List(ptr: seq<int>, ind: seq<int>)

  ghost predicate Holds(l: List, v: int)
    requires 0 <= v < |l.ptr|
  {
    l.ptr[v] != -1
  }

  ghost predicate Linked(l: List, v: int)
    requires 0 <= v < |l.ptr|
  {
    Holds(l, v) ==> 0 <= l.ptr[v] < |l.ind| && l.ind[l.ptr[v]] == v
  }

  ghost predicate LinkedBack(l: List, k: int)
    requires 0 <= k < |l.ind|
  {
    0 <= l.ind[k] < |l.ptr| && l.ptr[l.ind[k]] == k
  }

  /** `ptr` and `ind` are inverse to each other. */
  ghost predicate Valid(l: List) {
    && (forall v :: 0 <= v < |l.ptr| ==> Linked(l, v))
    && (forall k :: 0 <= k < |l.ind| ==> LinkedBack(l, k))
  }

  function Insert(l: List, v: int): List
    requires 0 <= v < |l.ptr|
  {
    List(l.ptr[v := |l.ind|], l.ind + [v])
  }

  function Delete(l: List, v: int): List
    requires 0 <= v < |l.ptr| && 0 <= l.ptr[v] < |l.ind| && 0 <= l.ind[|l.ind| - 1] < |l.ptr|
  {
    var last := l.ind[|l.ind| - 1];
    List(l.ptr[last := l.ptr[v]][v := -1], l.ind[l.ptr[v] := last][..|l.ind| - 1])
  }

  /** A valid list has room for one more as long as some vertex is missing. */
  lemma {:induction false} InsertValid(l: List, v: int)
    requires Valid(l) && 0 <= v < |l.ptr| && !Holds(l, v)
    ensures |l.ind| < |l.ptr|
    ensures Valid(Insert(l, v))
    ensures forall u :: 0 <= u < |l.ptr| ==> (Holds(Insert(l, v), u) <==> u == v || Holds(l, u))
  {
    var m := Insert(l, v);
    forall k | 0 <= k < |l.ind|
      ensures LinkedBack(m, k) && l.ind[k] != v
    {
      assert LinkedBack(l, k);
    }
    forall u | 0 <= u < |l.ptr|
      ensures Linked(m, u)
    {
      assert Linked(l, u);
    }
    assert LinkedBack(m, |l.ind|);
    forall i, j | 0 <= i < j < |m.ind|
      ensures m.ind[i] != m.ind[j]
    {
      assert LinkedBack(m, i) && LinkedBack(m, j);
    }
    DistinctFits(m.ind, 0, |l.ptr|);
  }

  lemma {:induction false} DeleteValid(l: List, v: int)
    requires Valid(l) && 0 <= v < |l.ptr| && Holds(l, v)
    ensures 0 <= l.ptr[v] < |l.ind| && 0 <= l.ind[|l.ind| - 1] < |l.ptr|
    ensures Valid(Delete(l, v))
    ensures forall u :: 0 <= u < |l.ptr| ==> (Holds(Delete(l, v), u) <==> u != v && Holds(l, u))
  {
    assert Linked(l, v) && LinkedBack(l, |l.ind| - 1);
    var m := Delete(l, v);
    forall u | 0 <= u < |l.ptr|
      ensures Linked(m, u) && (Holds(m, u) <==> u != v && Holds(l, u))
    {
      assert Linked(l, u);
    }
    forall k | 0 <= k < |m.ind|
      ensures LinkedBack(m, k)
    {
      assert LinkedBack(l, k);
    }
  }

  /** The list enumerates exactly the vertices it holds, each once. */
  lemma {:induction false} Enumerates(l: List)
    requires Valid(l)
    ensures Distinct(l.ind)
    ensures forall v :: 0 <= v < |l.ptr| ==> (Holds(l, v) <==> v in l.ind)
  {
    forall i, j | 0 <= i < j < |l.ind|
      ensures l.ind[i] != l.ind[j]
    {
      assert LinkedBack(l, i) && LinkedBack(l, j);
    }
    forall v | 0 <= v < |l.ptr|
      ensures Holds(l, v) <==> v in l.ind
    {
      assert Linked(l, v);
      if v in l.ind {
        var k :| 0 <= k < |l.ind| && l.ind[k] == v;
        assert LinkedBack(l, k);
      }
    }
  }
}
