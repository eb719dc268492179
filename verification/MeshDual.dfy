// The dual graph of a finite element mesh (GENDUALMETIS, tools/assignment/metis/mesh.c): what it is, and
// the lists of elements around each node.
module MeshDual {
  import opened Finite
  import opened BucketSort

  /** `ne` elements of `esize` nodes each, one after the other in `elmnts`. */
  datatype Mesh = Mesh(esize: int, mgcnum: int, ne: int, nn: int, elmnts: seq<int>)

  /** How many nodes an element has, and how many make a common face: triangles, tetrahedra, hexahedra, quadrilaterals. */
  ghost function ESize(etype: int): int {
    if etype == 1 then 3 else if etype == 2 then 4 else if etype == 3 then 8 else 4
  }

  ghost function MgcNum(etype: int): int {
    if etype == 1 then 2 else if etype == 2 then 3 else if etype == 3 then 4 else 2
  }

  ghost function MeshOf(etype: int, ne: int, nn: int, elmnts: seq<int>): Mesh {
    Mesh(ESize(etype), MgcNum(etype), ne, nn, elmnts)
  }

  /** Where element `e` starts. */
  function Base(esize: int, e: int): int {
    esize * e
  }

  lemma BaseSteps(esize: int, e: int, f: int)
    requires esize > 0 && 0 <= e < f
    ensures 0 <= Base(esize, e) && Base(esize, e + 1) == Base(esize, e) + esize && Base(esize, e) + esize <= Base(esize, f)
    ensures Base(esize, 0) == 0
  {
    MulSplit(esize, e, 1);
    MulSplit(esize, e + 1, f - e - 1);
    MulPositive(esize, e);
    MulPositive(esize, f - e - 1);
  }

  lemma MulSplit(a: int, b: int, c: int)
    ensures a * (b + c) == a * b + a * c && a * 0 == 0 && a * 1 == a
  {
  }

  lemma MulPositive(a: int, b: int)
    requires a >= 0 && b >= 0
    ensures a * b >= 0
  {
  }

  lemma DivBelow(k: int, a: int, b: int)
    requires a > 0 && b >= 0 && 0 <= k < a * b
    ensures 0 <= k / a < b && k == a * (k / a) + k % a
  {
    var q := k / a;
    MulSplit(a, b, q - b);
    assert q - b >= 0 ==> a * (q - b) >= 0;
  }

  ghost predicate Sized(m: Mesh) {
    && m.esize > 0 && m.ne >= 0 && m.nn >= 0 && |m.elmnts| == Base(m.esize, m.ne) && InRange(m.elmnts, m.nn)
  }

  /** Node `j` of element `e`. */
  function Node(m: Mesh, e: int, j: int): (n: int)
    requires Sized(m) && 0 <= e < m.ne && 0 <= j < m.esize
    ensures 0 <= n < m.nn && 0 <= Base(m.esize, e) + j < |m.elmnts| && n == m.elmnts[Base(m.esize, e) + j]
  {
    BaseSteps(m.esize, e, m.ne);
    m.elmnts[Base(m.esize, e) + j]
  }

  ghost predicate DistinctNodes(m: Mesh, e: int)
    requires Sized(m) && 0 <= e < m.ne
  {
    forall j, l :: 0 <= j < l < m.esize ==> Node(m, e, j) != Node(m, e, l)
  }

  ghost predicate MeshOk(m: Mesh) {
    Sized(m) && forall e :: 0 <= e < m.ne ==> DistinctNodes(m, e)
  }

  ghost predicate HasNode(m: Mesh, e: int, n: int)
    requires Sized(m) && 0 <= e < m.ne
  {
    exists j :: 0 <= j < m.esize && Node(m, e, j) == n
  }

  /** The first `k` nodes of an element. */
  ghost function NodesBelow(m: Mesh, e: int, k: int): set<int>
    requires Sized(m) && 0 <= e < m.ne && 0 <= k <= m.esize
  {
    set j | 0 <= j < k :: Node(m, e, j)
  }

  ghost function Common(m: Mesh, e: int, f: int): set<int>
    requires Sized(m) && 0 <= e < m.ne && 0 <= f < m.ne
  {
    NodesBelow(m, e, m.esize) * NodesBelow(m, f, m.esize)
  }

  /** Two elements are neighbours when they have exactly the right number of nodes in common. */
  ghost predicate Adjacent(m: Mesh, e: int, f: int)
    requires Sized(m)
  {
    0 <= e < m.ne && 0 <= f < m.ne && e != f && |Common(m, e, f)| == m.mgcnum
  }

  lemma AdjacentBothWays(m: Mesh, e: int, f: int)
    requires Sized(m)
    ensures Adjacent(m, e, f) <==> Adjacent(m, f, e)
  {
    if 0 <= e < m.ne && 0 <= f < m.ne {
      assert Common(m, e, f) == Common(m, f, e);
    }
  }

  /** How many of the first `j` nodes of `e` belong to `f`. */
  ghost function Shared(m: Mesh, e: int, f: int, j: int): int
    requires Sized(m) && 0 <= e < m.ne && 0 <= f < m.ne && 0 <= j <= m.esize
  {
    if j == 0 then 0 else Shared(m, e, f, j - 1) + if HasNode(m, f, Node(m, e, j - 1)) then 1 else 0
  }

  lemma {:induction false} SharedGrows(m: Mesh, e: int, f: int, j: int, k: int)
    requires Sized(m) && 0 <= e < m.ne && 0 <= f < m.ne && 0 <= j <= k <= m.esize
    ensures 0 <= Shared(m, e, f, j) <= Shared(m, e, f, k)
    decreases k
  {
    if j < k {
      SharedGrows(m, e, f, j, k - 1);
    } else if j > 0 {
      SharedGrows(m, e, f, j - 1, j - 1);
    }
  }

  /** Counting node by node gives the number of common nodes. */
  lemma {:induction false} SharedIsCommon(m: Mesh, e: int, f: int, j: int)
    requires MeshOk(m) && Sized(m) && 0 <= e < m.ne && 0 <= f < m.ne && 0 <= j <= m.esize
    ensures Shared(m, e, f, j) == |NodesBelow(m, e, j) * NodesBelow(m, f, m.esize)|
  {
    var other := NodesBelow(m, f, m.esize);
    hide MeshOk, Sized, NodesBelow, HasNode;
    if j == 0 {
      NoNodes(m, e);
      MeetEmpty(NodesBelow(m, e, 0), other);
    } else {
      SharedIsCommon(m, e, f, j - 1);
      NodesStep(m, e, j - 1);
      HasNodeSet(m, f, Node(m, e, j - 1));
      AddOne(NodesBelow(m, e, j - 1), NodesBelow(m, e, j), Node(m, e, j - 1), other);
    }
  }

  lemma MeetEmpty<T>(a: set<T>, other: set<T>)
    requires a == {}
    ensures |a * other| == 0
  {
    assert a * other == {};
  }

  lemma NoNodes(m: Mesh, e: int)
    requires Sized(m) && 0 <= e < m.ne
    ensures NodesBelow(m, e, 0) == {} && m.esize > 0
  {
  }

  lemma AddOne<T>(a: set<T>, b: set<T>, n: T, other: set<T>)
    requires n !in a && b == a + {n}
    ensures |b * other| == |a * other| + if n in other then 1 else 0
  {
    if n in other {
      assert b * other == a * other + {n};
    } else {
      assert b * other == a * other;
    }
  }

  lemma NodesStep(m: Mesh, e: int, j: int)
    requires MeshOk(m) && Sized(m) && 0 <= e < m.ne && 0 <= j < m.esize
    ensures NodesBelow(m, e, j + 1) == NodesBelow(m, e, j) + {Node(m, e, j)} && Node(m, e, j) !in NodesBelow(m, e, j)
  {
    assert DistinctNodes(m, e);
    var a, b := NodesBelow(m, e, j), NodesBelow(m, e, j + 1);
    forall n
      ensures n in b <==> n in a || n == Node(m, e, j)
    {
    }
    SameSet(b, a + {Node(m, e, j)});
  }

  lemma SameSet<T>(a: set<T>, b: set<T>)
    requires forall x :: x in a <==> x in b
    ensures a == b
  {
  }

  lemma HasNodeSet(m: Mesh, f: int, n: int)
    requires Sized(m) && 0 <= f < m.ne
    ensures HasNode(m, f, n) <==> n in NodesBelow(m, f, m.esize)
  {
  }

  // ---------------------------------------------------------------- the elements around a node

  /** The element that position `k` of `elmnts` belongs to. */
  ghost function Owner(esize: int, k: int): int
    requires esize > 0
  {
    k / esize
  }

  lemma OwnerIs(esize: int, e: int, j: int)
    requires esize > 0 && 0 <= e && 0 <= j < esize
    ensures Owner(esize, Base(esize, e) + j) == e
  {
    var q := (esize * e + j) / esize;
    var r := (esize * e + j) % esize;
    assert esize * e + j == esize * q + r;
    var d := e - q;
    assert esize * d == r - j;
    assert (d >= 1 ==> esize * d >= esize) && (d <= -1 ==> esize * d <= -esize);
  }

  lemma OwnerFacts(m: Mesh, k: int) returns (e: int, j: int)
    requires Sized(m) && 0 <= k < |m.elmnts|
    ensures 0 <= e < m.ne && 0 <= j < m.esize && k == Base(m.esize, e) + j && Owner(m.esize, k) == e && m.elmnts[k] == Node(m, e, j)
  {
    e, j := k / m.esize, k % m.esize;
    DivBelow(k, m.esize, m.ne);
  }

  ghost function Identity(n: nat): (s: seq<int>)
    ensures |s| == n && IsPermutation(s, n) && forall i :: 0 <= i < n ==> s[i] == i
  {
    seq(n, i => i)
  }

  /** Filtering keeps the order. */
  lemma {:induction false} FilterSorted(keys: seq<int>, s: seq<int>, k: int)
    requires InRange(s, |keys|) && forall i, j :: 0 <= i < j < |s| ==> s[i] < s[j]
    ensures var f := Filter(keys, s, k);
      && (forall i, j :: 0 <= i < j < |f| ==> f[i] < f[j])
      && (forall i :: 0 <= i < |f| ==> f[i] in s)
  {
    if s != [] {
      var t, x := s[..|s| - 1], s[|s| - 1];
      assert s == t + [x];
      FilterSorted(keys, t, k);
      FilterAppend(keys, t, x, k);
      assert forall y :: y in t ==> y < x;
    }
  }

  /** The part of `nind` that belongs to node `n`: the elements around it, in increasing order. */
  ghost predicate AroundNode(m: Mesh, nptr: seq<int>, nind: seq<int>, n: int)
    requires Sized(m) && 0 <= n < |nptr| - 1
  {
    && 0 <= nptr[n] <= nptr[n + 1] <= |nind|
    && (forall p :: nptr[n] <= p < nptr[n + 1] ==> 0 <= nind[p] < m.ne && HasNode(m, nind[p], n))
    && (forall p, q :: nptr[n] <= p < q < nptr[n + 1] ==> nind[p] < nind[q])
    && (forall e :: 0 <= e < m.ne && HasNode(m, e, n) ==> e in nind[nptr[n]..nptr[n + 1]])
  }

  ghost predicate NodeLists(m: Mesh, nptr: seq<int>, nind: seq<int>) {
    Sized(m) && |nptr| == m.nn + 1 && forall n :: 0 <= n < m.nn ==> AroundNode(m, nptr, nind, n)
  }

  ghost predicate Owners(m: Mesh, perm: seq<int>, nind: seq<int>)
    requires Sized(m)
  {
    |nind| == |perm| && InRange(perm, |m.elmnts|) && forall p :: 0 <= p < |perm| ==> nind[p] == Owner(m.esize, perm[p])
  }

  lemma {:induction false} SortedGivesLists(m: Mesh, perm: seq<int>, nind: seq<int>, nptr: seq<int>)
    requires MeshOk(m) && Sized(m) && m.nn > 0 && |nptr| == m.nn + 1
    requires forall n :: 0 <= n <= m.nn ==> nptr[n] == Start(m.elmnts, n)
    requires StablySorted(m.elmnts, m.nn - 1, Identity(|m.elmnts|), perm) && Owners(m, perm, nind)
    ensures NodeLists(m, nptr, nind)
  {
    hide MeshOk, StablySorted, AroundNode;
    forall n | 0 <= n < m.nn
      ensures AroundNode(m, nptr, nind, n)
    {
      SortedGivesList(m, perm, nind, nptr, n);
    }
  }

  lemma {:induction false} SortedGivesList(m: Mesh, perm: seq<int>, nind: seq<int>, nptr: seq<int>, n: int)
    requires MeshOk(m) && Sized(m) && |nptr| == m.nn + 1 && 0 <= n < m.nn
    requires nptr[n] == Start(m.elmnts, n) && nptr[n + 1] == Start(m.elmnts, n + 1)
    requires StablySorted(m.elmnts, m.nn - 1, Identity(|m.elmnts|), perm) && Owners(m, perm, nind)
    ensures AroundNode(m, nptr, nind, n)
  {
    hide MeshOk, Filter, Count, IsPermutation, StablySorted, Owners, HasNode;
    var keys, id := m.elmnts, Identity(|m.elmnts|);
    var f, lo := Filter(keys, id, n), nptr[n];
    Segment(m, perm, nind, lo, n);
    FilterSorted(keys, id, n);
    forall p, q | lo <= p < q < lo + |f|
      ensures nind[p] < nind[q]
    {
      FilterMembers(keys, id, n, f[p - lo]);
      FilterMembers(keys, id, n, f[q - lo]);
      LaterOwner(m, f[p - lo], f[q - lo]);
    }
    forall e | 0 <= e < m.ne && HasNode(m, e, n)
      ensures e in nind[lo..lo + |f|]
    {
      var k := PositionWith(m, e, n);
      assert id[k] == k;
      FilterMembers(keys, id, n, k);
      var i :| 0 <= i < |f| && f[i] == k;
      assert nind[lo..lo + |f|][i] == nind[lo + i];
    }
  }

  lemma {:induction false} PositionWith(m: Mesh, e: int, n: int) returns (k: int)
    requires Sized(m) && 0 <= e < m.ne && HasNode(m, e, n)
    ensures 0 <= k < |m.elmnts| && m.elmnts[k] == n && Owner(m.esize, k) == e
  {
    var j :| 0 <= j < m.esize && Node(m, e, j) == n;
    k := Base(m.esize, e) + j;
    OwnerIs(m.esize, e, j);
  }

  /** The bucket of a node, translated to elements. */
  lemma {:induction false} Segment(m: Mesh, perm: seq<int>, nind: seq<int>, lo: int, n: int)
    requires Sized(m) && 0 <= n < m.nn && lo == Start(m.elmnts, n)
    requires StablySorted(m.elmnts, m.nn - 1, Identity(|m.elmnts|), perm) && Owners(m, perm, nind)
    ensures var f := Filter(m.elmnts, Identity(|m.elmnts|), n);
      && Start(m.elmnts, n + 1) == lo + |f| <= |nind|
      && forall p :: lo <= p < lo + |f| ==>
           && 0 <= f[p - lo] < |m.elmnts| && m.elmnts[f[p - lo]] == n && nind[p] == Owner(m.esize, f[p - lo])
           && 0 <= nind[p] < m.ne && HasNode(m, nind[p], n)
  {
    hide Filter, Count, IsPermutation, Owner;
    var keys, id := m.elmnts, Identity(|m.elmnts|);
    var f := Filter(keys, id, n);
    assert BucketIs(keys, id, perm, n);
    FilterCount(keys, id, n);
    forall p | lo <= p < lo + |f|
      ensures 0 <= f[p - lo] < |m.elmnts| && m.elmnts[f[p - lo]] == n && nind[p] == Owner(m.esize, f[p - lo])
      ensures 0 <= nind[p] < m.ne && HasNode(m, nind[p], n)
    {
      assert perm[lo..lo + |f|][p - lo] == f[p - lo] == perm[p];
      FilterMembers(keys, id, n, f[p - lo]);
      var e, j := OwnerFacts(m, perm[p]);
    }
  }

  /** Two positions with the same node belong to different elements, in order. */
  lemma {:induction false} LaterOwner(m: Mesh, a: int, b: int)
    requires MeshOk(m) && Sized(m) && 0 <= a < b < |m.elmnts|
    ensures m.elmnts[a] == m.elmnts[b] ==> Owner(m.esize, a) < Owner(m.esize, b)
  {
    var e, j := OwnerFacts(m, a);
    var f, l := OwnerFacts(m, b);
    if f < e {
      BaseSteps(m.esize, f, e);
    } else if e == f {
      assert DistinctNodes(m, e);
    }
  }

  // ---------------------------------------------------------------- building them

  lemma MeshKeys(m: Mesh)
    requires Sized(m)
    ensures Keyed(m.elmnts, m.nn - 1) && |m.elmnts| >= 0
  {
  }

  /** What filling the lists keeps, with `done` the positions already placed. */
  ghost predicate Filling(m: Mesh, nptr: seq<int>, nind: seq<int>, perm: seq<int>, k: int) {
    && Sized(m) && m.nn > 0 && 0 <= k <= |m.elmnts| == |perm| && |nptr| == m.nn + 1 && Owners(m, perm, nind)
    && InRange(Identity(|m.elmnts|)[..k], |m.elmnts|)
    && Cursors(m.elmnts, m.nn - 1, Identity(|m.elmnts|)[..k], nptr)
    && forall n :: 0 <= n <= m.nn - 1 ==> BucketIs(m.elmnts, Identity(|m.elmnts|)[..k], perm, n)
  }

  lemma FillingStart(m: Mesh, nptr: seq<int>, nind: seq<int>, perm: seq<int>)
    requires Sized(m) && m.nn > 0 && |nptr| == m.nn + 1 && |perm| == |nind| == |m.elmnts|
    requires forall n :: 0 <= n <= m.nn ==> nptr[n] == Start(m.elmnts, n)
    requires forall p :: 0 <= p < |perm| ==> perm[p] == 0 && nind[p] == 0
    ensures Filling(m, nptr, nind, perm, 0)
  {
    MeshKeys(m);
    NothingPlaced(m.elmnts, m.nn - 1, nptr, perm);
    assert Identity(|m.elmnts|)[..0] == [];
    if |m.elmnts| > 0 {
      assert Owner(m.esize, 0) == 0 by {
        OwnerIs(m.esize, 0, 0);
        assert Base(m.esize, 0) == 0;
      }
    }
  }

  lemma {:induction false} FillingStep(m: Mesh, nptr: seq<int>, nind: seq<int>, perm: seq<int>, k: int, e: int, j: int)
    requires Filling(m, nptr, nind, perm, k) && 0 <= e < m.ne && 0 <= j < m.esize && k == Base(m.esize, e) + j
    ensures k < |m.elmnts| && 0 <= m.elmnts[k] < m.nn && 0 <= nptr[m.elmnts[k]] < |nind|
    ensures var n := m.elmnts[k];
      Filling(m, nptr[n := nptr[n] + 1], nind[nptr[n] := e], perm[nptr[n] := k], k + 1)
  {
    hide Filter, Count, Start, BucketIs, Cursors, Distinct, Owner;
    var keys, id, max := m.elmnts, Identity(|m.elmnts|), m.nn - 1;
    MeshKeys(m);
    var n := Node(m, e, j);
    assert id[k] == k && keys[k] == n;
    CursorRange(keys, max, id, k, perm, nptr);
    var perm' := perm[nptr[n] := k];
    PlaceStep(keys, max, id, k, perm, nptr, id[..k + 1], perm');
    OwnerIs(m.esize, e, j);
  }

  lemma CursorRange(keys: seq<int>, max: int, s: seq<int>, k: int, perm: seq<int>, counts: seq<int>)
    requires IsPermutation(s, |keys|) && Keyed(keys, max) && max >= 0 && 0 <= k < |s| && |perm| == |keys|
    requires InRange(s[..k], |keys|) && Cursors(keys, max, s[..k], counts)
    requires forall q :: 0 <= q <= max ==> BucketIs(keys, s[..k], perm, q)
    ensures 0 <= keys[s[k]] <= max && |counts| == max + 2 && 0 <= counts[keys[s[k]]] < |perm|
  {
    PlaceStep(keys, max, s, k, perm, counts, s[..k + 1], PutAt(perm, CursorOf(keys, counts, s[k]), s[k]));
  }

  /** Writes each element behind the cursors of its nodes (lines 96 to 99). */
  method FillLists(m: Mesh, nptr: array<int>) returns (nind: array<int>, ghost perm: seq<int>)
    requires Sized(m) && m.nn > 0 && nptr.Length == m.nn + 1
    requires forall n :: 0 <= n <= m.nn ==> nptr[n] == Start(m.elmnts, n)
    modifies nptr
    ensures fresh(nind) && Filling(m, nptr[..], nind[..], perm, |m.elmnts|)
  {
    hide Filling, Start;
    nind := new int[|m.elmnts|](_ => 0);
    perm := seq(|m.elmnts|, _ => 0);
    FillingStart(m, nptr[..], nind[..], perm);
    var k := 0;
    for i := 0 to m.ne
      invariant k == Base(m.esize, i) && Filling(m, nptr[..], nind[..], perm, k)
      invariant nind.Length == |m.elmnts| == |perm| && nptr.Length == m.nn + 1
    {
      BaseSteps(m.esize, i, m.ne);
      for j := 0 to m.esize
        invariant k == Base(m.esize, i) + j && Filling(m, nptr[..], nind[..], perm, k)
        invariant nind.Length == |m.elmnts| == |perm| && nptr.Length == m.nn + 1
      {
        FillingStep(m, nptr[..], nind[..], perm, k, i, j);
        ghost var p0, d0 := nptr[..], nind[..];
        var n := m.elmnts[k];
        perm := perm[nptr[n] := k];
        nind[nptr[n]] := i;
        nptr[n] := nptr[n] + 1;
        k := k + 1;
        assert nptr[..] == p0[n := p0[n] + 1] && nind[..] == d0[p0[n] := i];
      }
    }
  }

  lemma {:induction false} FilledLists(m: Mesh, nptr: seq<int>, nind: seq<int>, perm: seq<int>)
    requires Filling(m, nptr, nind, perm, |m.elmnts|)
    ensures StablySorted(m.elmnts, m.nn - 1, Identity(|m.elmnts|), perm) && Owners(m, perm, nind)
    ensures forall n :: 0 <= n < m.nn ==> nptr[n] == Start(m.elmnts, n + 1)
  {
    var keys, id, max := m.elmnts, Identity(|m.elmnts|), m.nn - 1;
    assert id[..|keys|] == id;
    hide Filter, Distinct;
    forall n | 0 <= n < m.nn
      ensures nptr[n] == Start(keys, n + 1)
    {
      FilterCount(keys, id, n);
    }
  }

  /** The elements around every node, in compressed rows (lines 89 to 102). */
  method BuildNodeLists(m: Mesh) returns (nptr: array<int>, nind: array<int>)
    requires MeshOk(m) && Sized(m) && m.nn > 0
    ensures NodeLists(m, nptr[..], nind[..])
  {
    hide MeshOk, Start, Filling, StablySorted, Owners, Count;
    MeshKeys(m);
    nptr := CountKeys(m.elmnts, m.nn - 1);
    MakeCsr(m.elmnts, m.nn - 1, nptr);
    ghost var perm;
    nind, perm := FillLists(m, nptr);
    FilledLists(m, nptr[..], nind[..], perm);
    var i := m.nn;
    ghost var d := nind[..];
    while i > 0
      invariant 0 <= i <= m.nn && nind[..] == d
      invariant forall n :: 0 <= n < i ==> nptr[n] == Start(m.elmnts, n + 1)
      invariant forall n :: i < n <= m.nn ==> nptr[n] == Start(m.elmnts, n)
    {
      nptr[i] := nptr[i - 1];
      i := i - 1;
    }
    nptr[0] := 0;
    StartStep(m.elmnts, 1);
    SortedGivesLists(m, perm, nind[..], nptr[..]);
  }
}
