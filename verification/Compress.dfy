// Merging vertices with identical neighbourhoods (CompressGraph, tools/assignment/metis/compress.c).
module Compress {
  import opened Finite
  import opened Csrs

  const COMPRESSION_FRACTION: real := 0.85

  ghost predicate RowOk(g: Csr, u: int)
    requires Shaped(g) && 0 <= u < Size(g)
  {
    && InRange(Row(g, u), Size(g)) && Distinct(Row(g, u)) && u !in Row(g, u)
    && forall v :: 0 <= v < Size(g) && v in Row(g, u) ==> u in Row(g, v)
  }

  /** An undirected graph without loops or double edges. */
  ghost predicate Undirected(g: Csr) {
    Shaped(g) && forall u :: 0 <= u < Size(g) ==> RowOk(g, u)
  }

  /** A vertex and its neighbours. */
  ghost function Closed(g: Csr, u: int): set<int>
    requires Shaped(g) && 0 <= u < Size(g)
  {
    Elements(Row(g, u)) + {u}
  }

  // ---------------------------------------------------------------- why the key suffices

  ghost function SumUp(s: seq<int>): int {
    if s == [] then 0 else SumUp(s[..|s| - 1]) + s[|s| - 1]
  }

  ghost function SetSum(s: set<int>, n: int): int
    requires n >= 0
  {
    if n == 0 then 0 else SetSum(s, n - 1) + if n - 1 in s then n - 1 else 0
  }

  lemma {:induction false} SetSumAdd(s: set<int>, x: int, n: int)
    requires n >= 0 && 0 <= x && x !in s
    ensures SetSum(s + {x}, n) == SetSum(s, n) + if x < n then x else 0
  {
    if n > 0 {
      SetSumAdd(s, x, n - 1);
    }
  }

  lemma {:induction false} SetSumEmpty(n: int)
    requires n >= 0
    ensures SetSum({}, n) == 0
  {
    if n > 0 {
      SetSumEmpty(n - 1);
    }
  }

  lemma {:induction false} SumOfDistinct(s: seq<int>, n: int)
    requires n >= 0 && InRange(s, n) && Distinct(s)
    ensures SumUp(s) == SetSum(Elements(s), n)
    decreases |s|
  {
    if s == [] {
      assert Elements(s) == {};
      SetSumEmpty(n);
    } else {
      var t, x := s[..|s| - 1], s[|s| - 1];
      assert s == t + [x];
      LastElement(t, x);
      SumOfDistinct(t, n);
      SetSumAdd(Elements(t), x, n);
    }
  }

  lemma LastElement<T>(t: seq<T>, x: T)
    requires Distinct(t + [x])
    ensures Distinct(t) && x !in Elements(t) && Elements(t + [x]) == Elements(t) + {x}
  {
    var s := t + [x];
    forall i | 0 <= i < |t|
      ensures t[i] != x
    {
      assert s[i] == t[i] && s[|t|] == x;
    }
    forall i, j | 0 <= i < j < |t|
      ensures t[i] != t[j]
    {
      assert s[i] == t[i] && s[j] == t[j];
    }
    assert forall y :: y in s <==> y in t || y == x;
  }

  /** A set with all but one element of another. */
  lemma AllButOne<T>(a: set<T>, b: set<T>) returns (x: T)
    requires a <= b && |b| == |a| + 1
    ensures x in b && x !in a && b == a + {x}
  {
    var rest := b - a;
    assert |rest| == 1 by {
      assert b == a + rest;
    }
    x :| x in rest;
    assert |rest - {x}| == 0;
    assert rest == (rest - {x}) + {x};
    assert rest == {x};
  }

  /**
   * The number of neighbours, the sum of the closed neighbourhood, and the neighbours of `v` all lying in
   * that of `u`: together these leave only one possibility.
   */
  lemma {:induction false} KeySuffices(g: Csr, u: int, v: int)
    requires Undirected(g) && 0 <= u < Size(g) && 0 <= v < Size(g)
    requires SumUp(Row(g, u)) + u == SumUp(Row(g, v)) + v && |Row(g, u)| == |Row(g, v)|
    requires forall x :: x in Row(g, v) ==> x in Closed(g, u)
    ensures Closed(g, u) == Closed(g, v)
  {
    var n, a, b := Size(g), Elements(Row(g, u)), Elements(Row(g, v));
    assert RowOk(g, u) && RowOk(g, v);
    DistinctSize(Row(g, u));
    DistinctSize(Row(g, v));
    SumOfDistinct(Row(g, u), n);
    SumOfDistinct(Row(g, v), n);
    SetSumAdd(a, u, n);
    var x := AllButOne(b, a + {u});
    assert 0 <= x < n by {
      if x in Row(g, u) {
        var i :| 0 <= i < |Row(g, u)| && Row(g, u)[i] == x;
      }
    }
    SetSumAdd(b, x, n);
    assert x == v;
  }

  // ---------------------------------------------------------------- the classes

  /** Class `c` occupies positions cptr[c] .. cptr[c + 1] of `cind`; its first member stands for it. */
  ghost predicate ClassAt(g: Csr, map_: seq<int>, cptr: seq<int>, cind: seq<int>, c: int)
    requires Shaped(g) && |map_| == Size(g) && 0 <= c < |cptr| - 1 && InRange(cind, |map_|)
  {
    && 0 <= cptr[c] < cptr[c + 1] <= |cind|
    && forall p :: cptr[c] <= p < cptr[c + 1] ==> MemberAt(g, map_, cptr, cind, c, p)
  }

  ghost predicate MemberAt(g: Csr, map_: seq<int>, cptr: seq<int>, cind: seq<int>, c: int, p: int)
    requires Shaped(g) && |map_| == Size(g) && 0 <= c < |cptr| && InRange(cind, |map_|) && 0 <= cptr[c] <= p < |cind|
  {
    map_[cind[p]] == c && Closed(g, cind[p]) == Closed(g, cind[cptr[c]])
  }

  ghost predicate ListedIff(map_: seq<int>, cind: seq<int>, cn: int, x: int)
    requires 0 <= x < |map_|
  {
    (map_[x] != -1 <==> x in cind) && -1 <= map_[x] < cn
  }

  /** The classes closed so far; |cptr| - 1 of them. */
  ghost predicate Classes(g: Csr, map_: seq<int>, cptr: seq<int>, cind: seq<int>) {
    && Undirected(g) && |map_| == Size(g) && InRange(cind, |map_|) && Distinct(cind)
    && |cptr| > 0 && cptr[0] == 0 && cptr[|cptr| - 1] == |cind|
    && (forall c :: 0 <= c < |cptr| - 1 ==> ClassAt(g, map_, cptr, cind, c))
    && (var cn := |cptr| - 1; forall x :: 0 <= x < |map_| ==> ListedIff(map_, cind, cn, x))
  }

  /** A class being filled, on top of the closed ones: `members` with the first as its representative. */
  ghost predicate Open(g: Csr, map_: seq<int>, cptr: seq<int>, cind: seq<int>, members: seq<int>) {
    && Undirected(g) && |map_| == Size(g) && |cptr| > 0 && InRange(cind, |map_|)
    && InRange(members, |map_|) && Distinct(cind + members) && members != []
    && cptr[0] == 0 && cptr[|cptr| - 1] == |cind|
    && (forall c :: 0 <= c < |cptr| - 1 ==> ClassAt(g, map_, cptr, cind, c))
    && (forall x :: 0 <= x < |map_| ==> ListedIff(map_, cind + members, |cptr|, x))
    && (var cn := |cptr| - 1; forall p :: 0 <= p < |members| ==> OpenMember(g, map_, cn, members, p))
  }

  ghost predicate OpenMember(g: Csr, map_: seq<int>, c: int, members: seq<int>, p: int)
    requires Shaped(g) && |map_| == Size(g) && 0 <= p < |members|
  {
    && 0 <= members[p] < |map_| && 0 <= members[0] < |map_|
    && map_[members[p]] == c && Closed(g, members[p]) == Closed(g, members[0])
  }

  lemma {:induction false} OpenClass(g: Csr, map_: seq<int>, cptr: seq<int>, cind: seq<int>, x: int)
    requires Classes(g, map_, cptr, cind) && 0 <= x < |map_| && map_[x] == -1
    ensures Open(g, map_[x := |cptr| - 1], cptr, cind, [x])
  {
    hide Undirected, Closed;
    UndirectedShaped(g);
    var m := map_[x := |cptr| - 1];
    assert ListedIff(map_, cind, |cptr| - 1, x);
    DistinctAppend(cind, x);
    forall c | 0 <= c < |cptr| - 1
      ensures ClassAt(g, m, cptr, cind, c)
    {
      assert ClassAt(g, map_, cptr, cind, c);
      ClassStays(g, map_, m, cptr, cind, c, x);
    }
    forall y | 0 <= y < |map_|
      ensures ListedIff(m, cind + [x], |cptr|, y)
    {
      assert ListedIff(map_, cind, |cptr| - 1, y);
    }
  }

  lemma UndirectedShaped(g: Csr)
    requires Undirected(g)
    ensures Shaped(g)
  {
  }

  lemma ClassStays(g: Csr, map_: seq<int>, m: seq<int>, cptr: seq<int>, cind: seq<int>, c: int, x: int)
    requires Shaped(g) && |map_| == |m| == Size(g) && 0 <= c < |cptr| - 1 && InRange(cind, |map_|) && ClassAt(g, map_, cptr, cind, c)
    requires x !in cind && forall y :: 0 <= y < |map_| && y != x ==> m[y] == map_[y]
    ensures ClassAt(g, m, cptr, cind, c)
  {
    hide Closed;
    forall p | cptr[c] <= p < cptr[c + 1]
      ensures MemberAt(g, m, cptr, cind, c, p)
    {
      assert MemberAt(g, map_, cptr, cind, c, p);
      assert cind[p] in cind;
    }
  }

  lemma {:induction false} JoinClass(g: Csr, map_: seq<int>, cptr: seq<int>, cind: seq<int>, members: seq<int>, x: int)
    requires Open(g, map_, cptr, cind, members) && 0 <= x < |map_| && map_[x] == -1
    requires 0 <= members[0] < |map_| && Closed(g, x) == Closed(g, members[0])
    ensures Open(g, map_[x := |cptr| - 1], cptr, cind, members + [x])
  {
    hide Undirected, Closed;
    UndirectedShaped(g);
    var m, all := map_[x := |cptr| - 1], cind + members;
    assert ListedIff(map_, all, |cptr|, x);
    DistinctAppend(all, x);
    assert all + [x] == cind + (members + [x]);
    assert x !in cind by {
      assert forall i :: 0 <= i < |cind| ==> all[i] == cind[i];
    }
    forall c | 0 <= c < |cptr| - 1
      ensures ClassAt(g, m, cptr, cind, c)
    {
      assert ClassAt(g, map_, cptr, cind, c);
      ClassStays(g, map_, m, cptr, cind, c, x);
    }
    forall y | 0 <= y < |map_|
      ensures ListedIff(m, cind + (members + [x]), |cptr|, y)
    {
      assert ListedIff(map_, all, |cptr|, y);
    }
    var members', cn := members + [x], |cptr| - 1;
    forall p | 0 <= p < |members'|
      ensures OpenMember(g, m, cn, members', p)
    {
      if p < |members| {
        assert OpenMember(g, map_, |cptr| - 1, members, p);
      }
    }
  }

  lemma {:induction false} CloseClass(g: Csr, map_: seq<int>, cptr: seq<int>, cind: seq<int>, members: seq<int>)
    requires Open(g, map_, cptr, cind, members)
    ensures Classes(g, map_, cptr + [|cind| + |members|], cind + members)
  {
    hide Undirected, Closed, Distinct;
    UndirectedShaped(g);
    var cptr', cind' := cptr + [|cind| + |members|], cind + members;
    forall c | 0 <= c < |cptr'| - 1
      ensures ClassAt(g, map_, cptr', cind', c)
    {
      if c < |cptr| - 1 {
        assert ClassAt(g, map_, cptr, cind, c);
        forall p | cptr'[c] <= p < cptr'[c + 1]
          ensures MemberAt(g, map_, cptr', cind', c, p)
        {
          assert MemberAt(g, map_, cptr, cind, c, p);
        }
      } else {
        forall p | cptr'[c] <= p < cptr'[c + 1]
          ensures MemberAt(g, map_, cptr', cind', c, p)
        {
          assert OpenMember(g, map_, |cptr| - 1, members, p - |cind|);
        }
      }
    }
  }

  datatype Key = Key(key: int, val: int)

  ghost predicate KeyOk(g: Csr, k: Key)
    requires Shaped(g)
  {
    0 <= k.val < Size(g) && k.key == SumUp(Row(g, k.val)) + k.val
  }

  ghost predicate Keys(g: Csr, keys: seq<Key>)
    requires Shaped(g)
  {
    && |keys| == Size(g) && (forall i :: 0 <= i < |keys| ==> KeyOk(g, keys[i]))
    && forall i, j :: 0 <= i < j < |keys| ==> keys[i].val != keys[j].val
  }

  /** Lines 32 to 38. */
  method ComputeKeys(g: Csr) returns (keys: seq<Key>)
    requires Shaped(g)
    ensures Keys(g, keys)
  {
    keys := [];
    for i := 0 to Size(g)
      invariant |keys| == i && forall j :: 0 <= j < i ==> KeyOk(g, keys[j]) && keys[j].val == j
    {
      var k := 0;
      for j := First(g, i) to Last(g, i)
        invariant k == SumUp(Part(g, i, j))
      {
        PartStep(g, i, j);
        assert (Part(g, i, j) + [g.adjncy[j]])[..|Part(g, i, j) + [g.adjncy[j]]| - 1] == Part(g, i, j);
        k := k + g.adjncy[j];
      }
      keys := keys + [Key(k + i, i)];
    }
  }

  /** Some order of the keys; that it is the sorted one saves time, but nothing below relies on it. */
  method IKeySort(g: Csr, keys: seq<Key>) returns (sorted: seq<Key>)
    requires Shaped(g) && Keys(g, keys)
    ensures Keys(g, sorted)
  {
    sorted := keys;
  }

  ghost predicate MarkOk(g: Csr, mark: seq<int>, i: int, u: int)
    requires Shaped(g) && |mark| == Size(g) && 0 <= u < Size(g)
  {
    forall x :: 0 <= x < |mark| ==> mark[x] <= i && (mark[x] == i <==> x in Closed(g, u))
  }

  /** Marks a vertex and its neighbours with the number of the round. */
  method MarkClosed(g: Csr, mark: array<int>, i: int, u: int)
    requires Undirected(g) && Shaped(g) && mark.Length == Size(g) && 0 <= u < Size(g) && forall x :: 0 <= x < mark.Length ==> mark[x] < i
    modifies mark
    ensures MarkOk(g, mark[..], i, u) && forall x :: 0 <= x < mark.Length ==> mark[x] <= i
  {
    assert RowOk(g, u);
    mark[u] := i;
    for j := First(g, u) to Last(g, u)
      invariant forall x :: 0 <= x < mark.Length ==> mark[x] <= i && (mark[x] == i <==> x == u || x in Part(g, u, j))
    {
      PartStep(g, u, j);
      assert Row(g, u)[j - First(g, u)] == g.adjncy[j];
      mark[g.adjncy[j]] := i;
    }
  }

  /** Are all neighbours of `v` marked? */
  method AllMarked(g: Csr, mark: array<int>, i: int, u: int, v: int) returns (same: bool)
    requires Undirected(g) && Shaped(g) && mark.Length == Size(g) && 0 <= u < Size(g) && 0 <= v < Size(g) && MarkOk(g, mark[..], i, u)
    ensures same <==> forall x :: x in Row(g, v) ==> x in Closed(g, u)
  {
    assert RowOk(g, v);
    for jj := First(g, v) to Last(g, v)
      invariant forall x :: x in Part(g, v, jj) ==> x in Closed(g, u)
    {
      PartStep(g, v, jj);
      var x := g.adjncy[jj];
      assert Row(g, v)[jj - First(g, v)] == x;
      if mark[x] != i {
        assert x in Row(g, v) && x !in Closed(g, u);
        return false;
      }
    }
    same := true;
  }

  /** The number of members cannot exceed the number of vertices. */
  lemma RoomForMember(g: Csr, map_: seq<int>, cptr: seq<int>, cind: seq<int>, members: seq<int>, x: int)
    requires Open(g, map_, cptr, cind, members) && 0 <= x < |map_| && map_[x] == -1
    ensures |cind| + |members| < |map_|
  {
    var all := cind + members;
    assert ListedIff(map_, all, |cptr|, x);
    DistinctAppend(all, x);
    DistinctFits(all + [x], 0, |map_|);
  }

  lemma RoomForClass(g: Csr, map_: seq<int>, cptr: seq<int>, cind: seq<int>, x: int)
    requires Classes(g, map_, cptr, cind) && 0 <= x < |map_| && map_[x] == -1
    ensures |cind| < |map_|
  {
    assert ListedIff(map_, cind, |cptr| - 1, x);
    DistinctAppend(cind, x);
    DistinctFits(cind + [x], 0, |map_|);
  }

  /** The row of one vertex: it has as many entries as `v` has neighbours, and the same key. */
  lemma Mergeable(g: Csr, keys: seq<Key>, i: int, j: int)
    requires Undirected(g) && Shaped(g) && Keys(g, keys) && 0 <= i < |keys| && 0 <= j < |keys|
    ensures 0 <= keys[i].val < Size(g) && 0 <= keys[j].val < Size(g)
    ensures keys[i].key == keys[j].key
      && Last(g, keys[i].val) - First(g, keys[i].val) == Last(g, keys[j].val) - First(g, keys[j].val)
      && (forall x :: x in Row(g, keys[j].val) ==> x in Closed(g, keys[i].val))
      ==> Closed(g, keys[j].val) == Closed(g, keys[i].val)
  {
    var u, v := keys[i].val, keys[j].val;
    assert KeyOk(g, keys[i]) && KeyOk(g, keys[j]);
    if keys[i].key == keys[j].key && |Row(g, u)| == |Row(g, v)| && forall x :: x in Row(g, v) ==> x in Closed(g, u) {
      KeySuffices(g, u, v);
    }
  }

  /** Everyone from position `i` on that looks like the vertex there joins its class (lines 46 to 70). */
  method FillClass(g: Csr, keys: seq<Key>, i: int, mark: array<int>, map_: array<int>, cind: array<int>, cnvtxs: int, l0: int, ghost cptr: seq<int>)
    returns (l: int)
    requires Undirected(g) && Shaped(g) && Keys(g, keys) && 0 <= i < |keys|
    requires mark.Length == map_.Length == cind.Length == Size(g) && mark != map_ && mark != cind && map_ != cind
    requires 0 <= l0 <= cind.Length && 0 <= cnvtxs == |cptr| - 1 && Classes(g, map_[..], cptr, cind[..l0])
    requires 0 <= keys[i].val < Size(g) && map_[keys[i].val] == -1 && forall x :: 0 <= x < mark.Length ==> mark[x] < i
    modifies mark, map_, cind
    ensures l0 < l <= cind.Length && Classes(g, map_[..], cptr + [l], cind[..l])
    ensures map_[keys[i].val] != -1 && (forall x :: 0 <= x < mark.Length ==> mark[x] <= i)
    ensures forall x :: 0 <= x < map_.Length && old(map_[x]) != -1 ==> map_[x] != -1
  {
    hide Undirected, Classes, Open, Closed, Keys, MarkOk, Shaped;
    var ii := keys[i].val;
    MarkClosed(g, mark, i, ii);
    RoomForClass(g, map_[..], cptr, cind[..l0], ii);
    OpenClass(g, map_[..], cptr, cind[..l0], ii);
    ghost var before, members := cind[..l0], [ii];
    cind[l0] := ii;
    l := l0 + 1;
    map_[ii] := cnvtxs;
    KeysSize(g, keys);
    for j := i + 1 to |keys|
      invariant MarkOk(g, mark[..], i, ii) && l0 < l <= cind.Length && cind[..l] == before + members && members != [] && members[0] == ii
      invariant Open(g, map_[..], cptr, before, members) && forall x :: 0 <= x < mark.Length ==> mark[x] <= i
      invariant map_[ii] != -1 && forall x :: 0 <= x < map_.Length && old(map_[x]) != -1 ==> map_[x] != -1
    {
      Mergeable(g, keys, i, j);
      var iii := keys[j].val;
      if keys[i].key != keys[j].key || Last(g, ii) - First(g, ii) != Last(g, iii) - First(g, iii) {
        break;
      }
      if map_[iii] == -1 {
        var same := AllMarked(g, mark, i, ii, iii);
        if same {
          RoomForMember(g, map_[..], cptr, before, members, iii);
          JoinClass(g, map_[..], cptr, before, members, iii);
          map_[iii] := cnvtxs;
          cind[l] := iii;
          l := l + 1;
          members := members + [iii];
        }
      }
    }
    CloseClass(g, map_[..], cptr, before, members);
  }

  lemma KeysSize(g: Csr, keys: seq<Key>)
    requires Shaped(g) && Keys(g, keys)
    ensures |keys| == Size(g) && forall i :: 0 <= i < |keys| ==> 0 <= keys[i].val < Size(g)
  {
    assert forall i :: 0 <= i < |keys| ==> KeyOk(g, keys[i]);
  }

  ghost predicate AllMapped(map_: seq<int>) {
    forall x :: 0 <= x < |map_| ==> map_[x] != -1
  }

  /** Groups the vertices: whoever shares a class has the same closed neighbourhood (lines 42 to 74). */
  method FindClasses(g: Csr) returns (map_: array<int>, cptr: array<int>, cind: array<int>, cnvtxs: int)
    requires Undirected(g) && Shaped(g) && Size(g) >= 0
    ensures map_.Length == cind.Length == Size(g) && 0 <= cnvtxs < cptr.Length
    ensures Classes(g, map_[..], cptr[..cnvtxs + 1], cind[..]) && AllMapped(map_[..])
  {
    hide Undirected, Classes, Closed, Keys;
    var mark := new int[Size(g)](_ => -1);
    map_ := new int[Size(g)](_ => -1);
    cind := new int[Size(g)];
    cptr := new int[Size(g) + 1];
    var keys := ComputeKeys(g);
    keys := IKeySort(g, keys);
    KeysSize(g, keys);
    var l := 0;
    cptr[0] := 0;
    cnvtxs := 0;
    NoClasses(g, map_[..], cptr[..1], cind[..0]);
    for i := 0 to |keys|
      invariant 0 <= l <= cind.Length && 0 <= cnvtxs < cptr.Length && Classes(g, map_[..], cptr[..cnvtxs + 1], cind[..l])
      invariant forall x :: 0 <= x < mark.Length ==> mark[x] < i
      invariant forall j :: 0 <= j < i ==> map_[keys[j].val] != -1
    {
      if map_[keys[i].val] == -1 {
        RoomForClass(g, map_[..], cptr[..cnvtxs + 1], cind[..l], keys[i].val);
        ClassCount(g, map_[..], cptr[..cnvtxs + 1], cind[..l]);
        ghost var before := cptr[..cnvtxs + 1];
        l := FillClass(g, keys, i, mark, map_, cind, cnvtxs, l, cptr[..cnvtxs + 1]);
        cnvtxs := cnvtxs + 1;
        cptr[cnvtxs] := l;
        assert cptr[..cnvtxs + 1] == before + [l];
      }
    }
    EveryoneMapped(g, keys, map_[..]);
    AllListed(g, map_[..], cptr[..cnvtxs + 1], cind[..l]);
    assert cind[..l] == cind[..];
  }

  lemma NoClasses(g: Csr, map_: seq<int>, cptr: seq<int>, cind: seq<int>)
    requires Undirected(g) && |map_| == Size(g) && cptr == [0] && cind == [] && forall x :: 0 <= x < |map_| ==> map_[x] == -1
    ensures Classes(g, map_, cptr, cind)
  {
  }

  /** Classes are not empty, so there are no more of them than members. */
  lemma {:induction false} ClassCount(g: Csr, map_: seq<int>, cptr: seq<int>, cind: seq<int>)
    requires Classes(g, map_, cptr, cind)
    ensures |cptr| - 1 <= |cind|
  {
    CptrGrows(g, map_, cptr, cind, |cptr| - 1);
  }

  lemma {:induction false} CptrGrows(g: Csr, map_: seq<int>, cptr: seq<int>, cind: seq<int>, c: int)
    requires Classes(g, map_, cptr, cind) && 0 <= c < |cptr|
    ensures c <= cptr[c]
    decreases c
  {
    hide Undirected, Closed;
    UndirectedShaped(g);
    if c > 0 {
      CptrGrows(g, map_, cptr, cind, c - 1);
      assert ClassAt(g, map_, cptr, cind, c - 1);
    }
  }

  lemma {:induction false} EveryoneMapped(g: Csr, keys: seq<Key>, map_: seq<int>)
    requires Shaped(g) && Keys(g, keys) && |map_| == Size(g)
    requires forall j :: 0 <= j < |keys| ==> KeyOk(g, keys[j]) ==> map_[keys[j].val] != -1
    ensures AllMapped(map_)
  {
    var vals := seq(|keys|, i requires 0 <= i < |keys| => keys[i].val);
    assert forall i :: 0 <= i < |keys| ==> KeyOk(g, keys[i]);
    forall x | 0 <= x < |map_|
      ensures map_[x] != -1
    {
      PermutationHitsAll(vals, Size(g), x);
      var i :| 0 <= i < |vals| && vals[i] == x;
      assert KeyOk(g, keys[i]);
    }
  }

  lemma {:induction false} AllListed(g: Csr, map_: seq<int>, cptr: seq<int>, cind: seq<int>)
    requires Classes(g, map_, cptr, cind) && AllMapped(map_)
    ensures |cind| == |map_|
  {
    hide Undirected, Closed;
    DistinctFits(cind, 0, |map_|);
    DistinctSize(cind);
    forall x | 0 <= x < |map_|
      ensures x in Elements(cind)
    {
      var cn := |cptr| - 1;
      assert ListedIff(map_, cind, cn, x);
    }
    SubsetSize(Range(0, |map_|), Elements(cind));
  }

  // ---------------------------------------------------------------- the compressed graph

  /** A finished grouping of all vertices. */
  ghost predicate Grouping(g: Csr, map_: seq<int>, cptr: seq<int>, cind: seq<int>) {
    Classes(g, map_, cptr, cind) && AllMapped(map_) && |cind| == Size(g)
  }

  /** What a finished grouping says about one vertex. */
  lemma {:induction false} Member(g: Csr, map_: seq<int>, cptr: seq<int>, cind: seq<int>, x: int) returns (p: int)
    requires Grouping(g, map_, cptr, cind) && 0 <= x < Size(g)
    ensures Shaped(g) && |map_| == Size(g) && 0 <= map_[x] < |cptr| - 1
    ensures 0 <= cptr[map_[x]] <= p < cptr[map_[x] + 1] <= |cind| && cind[p] == x
    ensures 0 <= cind[cptr[map_[x]]] < Size(g) && Closed(g, x) == Closed(g, cind[cptr[map_[x]]])
  {
    hide Undirected, Closed, Distinct;
    UndirectedShaped(g);
    var cn := |cptr| - 1;
    assert ListedIff(map_, cind, cn, x);
    p :| 0 <= p < |cind| && cind[p] == x;
    var c := FindClass(g, map_, cptr, cind, cn, p);
    assert ClassAt(g, map_, cptr, cind, c) && MemberAt(g, map_, cptr, cind, c, p);
  }

  /** Which class a position belongs to. */
  lemma {:induction false} FindClass(g: Csr, map_: seq<int>, cptr: seq<int>, cind: seq<int>, n: int, p: int) returns (c: int)
    requires Classes(g, map_, cptr, cind) && 0 <= n < |cptr| && 0 <= p < cptr[n]
    ensures 0 <= c < n && cptr[c] <= p < cptr[c + 1]
    decreases n
  {
    if n > 0 && p < cptr[n - 1] {
      c := FindClass(g, map_, cptr, cind, n - 1, p);
    } else {
      c := n - 1;
    }
  }

  /** Two vertices are in the same class only if their closed neighbourhoods are the same. */
  lemma {:induction false} MergedAreIdentical(g: Csr, map_: seq<int>, cptr: seq<int>, cind: seq<int>, x: int, y: int)
    requires Grouping(g, map_, cptr, cind) && 0 <= x < Size(g) && 0 <= y < Size(g) && |map_| == Size(g) && map_[x] == map_[y]
    ensures Shaped(g) && Closed(g, x) == Closed(g, y)
  {
    var p := Member(g, map_, cptr, cind, x);
    var q := Member(g, map_, cptr, cind, y);
  }

  /** Class `b` is adjacent to class `a`: some member of `a` has a neighbour in `b`. */
  ghost predicate ClassesAdjacent(g: Csr, map_: seq<int>, a: int, b: int)
    requires Shaped(g) && |map_| == Size(g)
  {
    a != b && exists x, y :: 0 <= x < Size(g) && 0 <= y < Size(g) && map_[x] == a && map_[y] == b && y in Row(g, x)
  }

  /** Vertices of different classes are adjacent exactly when their classes are, whichever members one takes. */
  lemma {:induction false} AdjacencyPreserved(g: Csr, map_: seq<int>, cptr: seq<int>, cind: seq<int>, x: int, y: int)
    requires Grouping(g, map_, cptr, cind) && Shaped(g) && |map_| == Size(g)
    requires 0 <= x < Size(g) && 0 <= y < Size(g) && map_[x] != map_[y]
    ensures y in Row(g, x) <==> ClassesAdjacent(g, map_, map_[x], map_[y])
  {
    if ClassesAdjacent(g, map_, map_[x], map_[y]) {
      var x', y' :| 0 <= x' < Size(g) && 0 <= y' < Size(g) && map_[x'] == map_[x] && map_[y'] == map_[y] && y' in Row(g, x');
      MergedAreIdentical(g, map_, cptr, cind, x', x);
      MergedAreIdentical(g, map_, cptr, cind, y', y);
      assert y' in Closed(g, x') && y' in Row(g, x);
      assert RowOk(g, x) && RowOk(g, y);
      assert x in Row(g, y') && x in Closed(g, y);
      assert x in Row(g, y);
    }
  }

  /** The classes met in the rows of the members at positions below `p`, and in the first `k` entries of the row at `p`. */
  ghost function MetClasses(g: Csr, map_: seq<int>, x: int, k: int): (s: set<int>)
    requires Undirected(g) && |map_| == Size(g) && 0 <= x < Size(g) && First(g, x) <= k <= Last(g, x)
  {
    set i | First(g, x) <= i < k :: map_[NeighbourAt(g, x, i)]
  }

  ghost function NeighbourAt(g: Csr, x: int, i: int): (y: int)
    requires Undirected(g) && 0 <= x < Size(g) && First(g, x) <= i < Last(g, x)
    ensures 0 <= y < Size(g) && y in Row(g, x) && y == g.adjncy[i]
  {
    assert RowOk(g, x) && Row(g, x)[i - First(g, x)] == g.adjncy[i];
    g.adjncy[i]
  }

  // ---------------------------------------------------------------- building the rows

  lemma {:induction false} MetSize(g: Csr, map_: seq<int>, x: int, k: int)
    requires Undirected(g) && |map_| == Size(g) && 0 <= x < Size(g) && First(g, x) <= k <= Last(g, x)
    ensures |MetClasses(g, map_, x, k)| <= k - First(g, x)
    decreases k
  {
    UndirectedShaped(g);
    hide Undirected;
    if k == First(g, x) {
      assert MetClasses(g, map_, x, k) == {};
    } else {
      MetSize(g, map_, x, k - 1);
      MetGrows(MetClasses(g, map_, x, k - 1), MetClasses(g, map_, x, k), map_[NeighbourAt(g, x, k - 1)]);
    }
  }

  lemma MetGrows<T>(a: set<T>, b: set<T>, x: T)
    requires forall y :: y in b ==> y in a || y == x
    ensures |b| <= |a| + 1
  {
    assert b <= a + {x};
    SubsetSize(b, a + {x});
  }

  /** A row under construction: adjacent classes only, none twice. */
  ghost predicate RowSound(g: Csr, map_: seq<int>, i: int, row: seq<int>)
    requires Shaped(g) && |map_| == Size(g)
  {
    Distinct(row) && forall b :: b in row ==> ClassesAdjacent(g, map_, i, b)
  }

  ghost predicate RowExact(g: Csr, map_: seq<int>, i: int, row: seq<int>)
    requires Shaped(g) && |map_| == Size(g)
  {
    Distinct(row) && forall b :: b in row <==> ClassesAdjacent(g, map_, i, b)
  }

  /** The first `k` entries of the row of `x` lead to class `i` itself or to classes in `row`. */
  ghost predicate Covers(g: Csr, map_: seq<int>, i: int, row: seq<int>, x: int, k: int)
    requires Undirected(g) && Shaped(g) && |map_| == Size(g) && 0 <= x < Size(g) && First(g, x) <= k <= Last(g, x)
  {
    forall e :: First(g, x) <= e < k ==> map_[NeighbourAt(g, x, e)] == i || map_[NeighbourAt(g, x, e)] in row
  }

  /** A row never has more entries than its representative has neighbours. */
  lemma {:induction false} RowRoom(g: Csr, map_: seq<int>, cptr: seq<int>, cind: seq<int>, i: int, row: seq<int>)
    requires Undirected(g) && Grouping(g, map_, cptr, cind) && Shaped(g) && |map_| == Size(g) && 0 <= i < |cptr| - 1 && RowSound(g, map_, i, row)
    ensures 0 <= cptr[i] < |cind| && 0 <= cind[cptr[i]] < Size(g)
    ensures |row| <= Last(g, cind[cptr[i]]) - First(g, cind[cptr[i]])
  {
    hide Undirected, Closed, ClassesAdjacent;
    assert ClassAt(g, map_, cptr, cind, i) && MemberAt(g, map_, cptr, cind, i, cptr[i]);
    var x := cind[cptr[i]];
    var met := MetClasses(g, map_, x, Last(g, x));
    MetSize(g, map_, x, Last(g, x));
    DistinctSize(row);
    forall b | b in Elements(row)
      ensures b in met
    {
      ReachedFromRep(g, map_, cptr, cind, x, b);
    }
    SubsetSize(Elements(row), met);
  }

  lemma {:induction false} ReachedFromRep(g: Csr, map_: seq<int>, cptr: seq<int>, cind: seq<int>, x: int, b: int)
    requires Undirected(g) && Grouping(g, map_, cptr, cind) && Shaped(g) && |map_| == Size(g) && 0 <= x < Size(g)
    requires ClassesAdjacent(g, map_, map_[x], b)
    ensures b in MetClasses(g, map_, x, Last(g, x))
  {
    var x', y :| 0 <= x' < Size(g) && 0 <= y < Size(g) && map_[x'] == map_[x] && map_[y] == b && y in Row(g, x');
    AdjacencyPreserved(g, map_, cptr, cind, x, y);
    var i :| 0 <= i < |Row(g, x)| && Row(g, x)[i] == y;
    assert map_[NeighbourAt(g, x, First(g, x) + i)] == b;
  }

  ghost predicate Stamped(mark: seq<int>, i: int, row: seq<int>) {
    forall k :: 0 <= k < |mark| ==> mark[k] <= i && (mark[k] == i <==> k == i || k in row)
  }

  /** The neighbours of one member (lines 127 to 132). */
  method ScanMember(g: Csr, map_: array<int>, i: int, x: int, mark: array<int>, cadjncy: array<int>, l0: int, ghost start: int, ghost row0: seq<int>,
                    ghost cptr: seq<int>, ghost cind: seq<int>) returns (l: int, ghost row: seq<int>)
    requires Undirected(g) && Shaped(g) && map_.Length == Size(g) && Grouping(g, map_[..], cptr, cind) && 0 <= i < |cptr| - 1 == mark.Length
    requires mark != cadjncy && mark != map_ && map_ != cadjncy
    requires 0 <= x < Size(g) && map_[x] == i && RowSound(g, map_[..], i, row0) && Stamped(mark[..], i, row0)
    requires 0 <= start <= l0 <= cadjncy.Length && cadjncy[start..l0] == row0
    requires 0 <= cptr[i] < |cind| && 0 <= cind[cptr[i]] < Size(g)
    requires start + Last(g, cind[cptr[i]]) - First(g, cind[cptr[i]]) <= cadjncy.Length
    modifies mark, cadjncy
    ensures start <= l <= cadjncy.Length && cadjncy[start..l] == row && row0 <= row && cadjncy[..start] == old(cadjncy[..start])
    ensures RowSound(g, map_[..], i, row) && Stamped(mark[..], i, row) && Covers(g, map_[..], i, row, x, Last(g, x))
  {
    hide Undirected, Grouping, ClassesAdjacent, Stamped, Shaped;
    l, row := l0, row0;
    for jj := First(g, x) to Last(g, x)
      invariant start <= l <= cadjncy.Length && cadjncy[start..l] == row && row0 <= row && cadjncy[..start] == old(cadjncy[..start])
      invariant RowSound(g, map_[..], i, row) && Stamped(mark[..], i, row) && Covers(g, map_[..], i, row, x, jj)
    {
      ghost var y := NeighbourAt(g, x, jj);
      var k := map_[g.adjncy[jj]];
      ClassRange(g, map_[..], cptr, cind, y);
      ghost var m := mark[..];
      StampFacts(m, i, row, k);
      ghost var before := row;
      if mark[k] != i {
        NewNeighbour(g, map_[..], i, row, x, jj);
        RowRoom(g, map_[..], cptr, cind, i, row + [k]);
        cadjncy[l] := k;
        l := l + 1;
        row := row + [k];
      }
      mark[k] := i;
      CoversMore(g, map_[..], i, before, row, x, jj);
      assert mark[..] == m[k := i];
    }
  }

  lemma ClassRange(g: Csr, map_: seq<int>, cptr: seq<int>, cind: seq<int>, y: int)
    requires Grouping(g, map_, cptr, cind) && 0 <= y < Size(g)
    ensures |map_| == Size(g) && 0 <= map_[y] < |cptr| - 1
  {
    var cn := |cptr| - 1;
    assert ListedIff(map_, cind, cn, y);
  }

  lemma StampFacts(mark: seq<int>, i: int, row: seq<int>, k: int)
    requires Stamped(mark, i, row) && 0 <= k < |mark|
    ensures mark[k] == i <==> k == i || k in row
    ensures Stamped(mark[k := i], i, if mark[k] == i then row else row + [k])
  {
  }

  lemma NewNeighbour(g: Csr, map_: seq<int>, i: int, row: seq<int>, x: int, jj: int)
    requires Undirected(g) && Shaped(g) && |map_| == Size(g) && 0 <= x < Size(g) && map_[x] == i && First(g, x) <= jj < Last(g, x)
    requires RowSound(g, map_, i, row)
    requires var k := map_[NeighbourAt(g, x, jj)]; k != i && k !in row
    ensures RowSound(g, map_, i, row + [map_[NeighbourAt(g, x, jj)]])
  {
    hide Undirected;
    DistinctAppend(row, map_[NeighbourAt(g, x, jj)]);
  }

  lemma CoversMore(g: Csr, map_: seq<int>, i: int, row: seq<int>, row': seq<int>, x: int, k: int)
    requires Undirected(g) && Shaped(g) && |map_| == Size(g) && 0 <= x < Size(g) && First(g, x) <= k < Last(g, x)
    requires Covers(g, map_, i, row, x, k) && row <= row'
    requires map_[NeighbourAt(g, x, k)] == i || map_[NeighbourAt(g, x, k)] in row'
    ensures Covers(g, map_, i, row', x, k + 1)
  {
    hide Undirected;
  }

  lemma CoversStill(g: Csr, map_: seq<int>, i: int, row: seq<int>, row': seq<int>, x: int, k: int)
    requires Undirected(g) && Shaped(g) && |map_| == Size(g) && 0 <= x < Size(g) && First(g, x) <= k <= Last(g, x)
    requires Covers(g, map_, i, row, x, k) && row <= row'
    ensures Covers(g, map_, i, row', x, k)
  {
    hide Undirected;
  }

  ghost predicate MembersCovered(g: Csr, map_: seq<int>, i: int, row: seq<int>, cind: seq<int>, lo: int, hi: int)
    requires Undirected(g) && Shaped(g) && |map_| == Size(g) && 0 <= lo <= hi <= |cind| && InRange(cind, Size(g))
  {
    forall p :: lo <= p < hi ==> Covers(g, map_, i, row, cind[p], Last(g, cind[p]))
  }

  /** One row of the compressed graph (lines 123 to 134). */
  method CompressRow(g: Csr, map_: array<int>, cptr: seq<int>, cind: seq<int>, i: int, mark: array<int>, cadjncy: array<int>, start: int)
    returns (l: int, ghost row: seq<int>)
    requires Undirected(g) && Shaped(g) && map_.Length == Size(g) && Grouping(g, map_[..], cptr, cind) && 0 <= i < |cptr| - 1 == mark.Length
    requires mark != cadjncy && mark != map_ && map_ != cadjncy && forall k :: 0 <= k < mark.Length ==> mark[k] < i
    requires 0 <= cptr[i] < |cind| && 0 <= cind[cptr[i]] < Size(g)
    requires 0 <= start && start + Last(g, cind[cptr[i]]) - First(g, cind[cptr[i]]) <= cadjncy.Length
    modifies mark, cadjncy
    ensures start <= l <= start + Last(g, cind[cptr[i]]) - First(g, cind[cptr[i]])
    ensures cadjncy[start..l] == row && cadjncy[..start] == old(cadjncy[..start])
    ensures RowExact(g, map_[..], i, row) && forall k :: 0 <= k < mark.Length ==> mark[k] <= i
  {
    hide Undirected, Grouping, ClassesAdjacent, Shaped, Covers;
    GroupFacts(g, map_[..], cptr, cind, i);
    l, row := start, [];
    mark[i] := i;
    for j := cptr[i] to cptr[i + 1]
      invariant start <= l <= cadjncy.Length && cadjncy[start..l] == row && cadjncy[..start] == old(cadjncy[..start])
      invariant RowSound(g, map_[..], i, row) && Stamped(mark[..], i, row) && MembersCovered(g, map_[..], i, row, cind, cptr[i], j)
    {
      MemberClass(g, map_[..], cptr, cind, i, j);
      ghost var row0 := row;
      l, row := ScanMember(g, map_, i, cind[j], mark, cadjncy, l, start, row, cptr, cind);
      forall p | cptr[i] <= p < j
        ensures Covers(g, map_[..], i, row, cind[p], Last(g, cind[p]))
      {
        CoversStill(g, map_[..], i, row0, row, cind[p], Last(g, cind[p]));
      }
    }
    RowRoom(g, map_[..], cptr, cind, i, row);
    RowFinished(g, map_[..], cptr, cind, i, row);
  }

  lemma GroupFacts(g: Csr, map_: seq<int>, cptr: seq<int>, cind: seq<int>, i: int)
    requires Grouping(g, map_, cptr, cind) && 0 <= i < |cptr| - 1
    ensures InRange(cind, Size(g)) && 0 <= cptr[i] < cptr[i + 1] <= |cind|
    ensures 0 <= cind[cptr[i]] < Size(g)
  {
    assert ClassAt(g, map_, cptr, cind, i);
  }

  lemma MemberClass(g: Csr, map_: seq<int>, cptr: seq<int>, cind: seq<int>, i: int, p: int)
    requires Grouping(g, map_, cptr, cind) && 0 <= i < |cptr| - 1 && 0 <= cptr[i] <= p < cptr[i + 1]
    ensures |map_| == Size(g) && p < |cind| && 0 <= cind[p] < Size(g) && map_[cind[p]] == i
  {
    assert ClassAt(g, map_, cptr, cind, i) && MemberAt(g, map_, cptr, cind, i, p);
  }

  lemma {:induction false} RowFinished(g: Csr, map_: seq<int>, cptr: seq<int>, cind: seq<int>, i: int, row: seq<int>)
    requires Undirected(g) && Shaped(g) && Grouping(g, map_, cptr, cind) && |map_| == Size(g) && 0 <= i < |cptr| - 1 && InRange(cind, Size(g))
    requires 0 <= cptr[i] <= cptr[i + 1] <= |cind|
    requires RowSound(g, map_, i, row) && MembersCovered(g, map_, i, row, cind, cptr[i], cptr[i + 1])
    ensures RowExact(g, map_, i, row)
  {
    hide Undirected, Grouping;
    forall b | ClassesAdjacent(g, map_, i, b)
      ensures b in row
    {
      var x, y :| 0 <= x < Size(g) && 0 <= y < Size(g) && map_[x] == i && map_[y] == b && y in Row(g, x);
      var p := Member(g, map_, cptr, cind, x);
      assert Covers(g, map_, i, row, cind[p], Last(g, cind[p]));
      var e :| 0 <= e < |Row(g, x)| && Row(g, x)[e] == y;
      assert map_[NeighbourAt(g, x, First(g, x) + e)] == b;
    }
  }

  /** What the first `c` representatives allow for: one entry per neighbour. */
  ghost function Reserved(g: Csr, cptr: seq<int>, cind: seq<int>, c: int): int
    requires Shaped(g) && 0 <= c < |cptr|
  {
    if c == 0 then 0 else Reserved(g, cptr, cind, c - 1) + RepDegree(g, cptr, cind, c - 1)
  }

  function RepDegree(g: Csr, cptr: seq<int>, cind: seq<int>, c: int): (d: int)
    requires Shaped(g) && 0 <= c < |cptr|
    ensures d >= 0
  {
    if 0 <= cptr[c] < |cind| && 0 <= cind[cptr[c]] < Size(g) then Last(g, cind[cptr[c]]) - First(g, cind[cptr[c]]) else 0
  }

  lemma {:induction false} ReservedGrows(g: Csr, cptr: seq<int>, cind: seq<int>, c: int, d: int)
    requires Shaped(g) && 0 <= c <= d < |cptr|
    ensures 0 <= Reserved(g, cptr, cind, c) <= Reserved(g, cptr, cind, d)
    decreases d
  {
    hide Shaped;
    if c < d {
      ReservedGrows(g, cptr, cind, c, d - 1);
    } else if c > 0 {
      ReservedGrows(g, cptr, cind, c - 1, c - 1);
    }
  }

  ghost predicate RowBuilt(g: Csr, map_: seq<int>, cxadj: seq<int>, cadjncy: seq<int>, c: int)
    requires Shaped(g) && |map_| == Size(g) && 0 <= c < |cxadj| - 1
  {
    0 <= cxadj[c] <= cxadj[c + 1] <= |cadjncy| && RowExact(g, map_, c, cadjncy[cxadj[c]..cxadj[c + 1]])
  }

  ghost predicate RowsBuilt(g: Csr, map_: seq<int>, cxadj: seq<int>, cadjncy: seq<int>)
    requires Shaped(g) && |map_| == Size(g)
  {
    && |cxadj| > 0 && cxadj[0] == 0 && cxadj[|cxadj| - 1] == |cadjncy|
    && forall c :: 0 <= c < |cxadj| - 1 ==> RowBuilt(g, map_, cxadj, cadjncy, c)
  }

  lemma {:induction false} RowAdded(g: Csr, map_: seq<int>, cxadj: seq<int>, cadjncy: seq<int>, row: seq<int>)
    requires Shaped(g) && |map_| == Size(g) && RowsBuilt(g, map_, cxadj, cadjncy) && RowExact(g, map_, |cxadj| - 1, row)
    ensures RowsBuilt(g, map_, cxadj + [|cadjncy| + |row|], cadjncy + row)
  {
    hide RowExact, Shaped;
    var x', a' := cxadj + [|cadjncy| + |row|], cadjncy + row;
    forall c | 0 <= c < |x'| - 1
      ensures RowBuilt(g, map_, x', a', c)
    {
      if c < |cxadj| - 1 {
        assert RowBuilt(g, map_, cxadj, cadjncy, c);
        assert a'[x'[c]..x'[c + 1]] == cadjncy[cxadj[c]..cxadj[c + 1]];
      } else {
        assert a'[x'[c]..x'[c + 1]] == row;
      }
    }
  }

  /** Forms the compressed graph (lines 104 to 135). */
  method CompressRows(g: Csr, map_: array<int>, cptr: seq<int>, cind: seq<int>) returns (cg: Csr, cvwgt: seq<int>)
    requires Undirected(g) && Shaped(g) && map_.Length == Size(g) && Grouping(g, map_[..], cptr, cind)
    ensures |cg.xadj| == |cptr| && RowsBuilt(g, map_[..], cg.xadj, cg.adjncy)
    ensures |cvwgt| == |cptr| - 1 && forall c :: 0 <= c < |cvwgt| ==> cvwgt[c] == cptr[c + 1] - cptr[c]
  {
    hide Undirected, Grouping, Shaped, RowExact, RowsBuilt;
    GroupSizes(g, map_[..], cptr, cind);
    var cnvtxs, cnedges := |cptr| - 1, 0;
    for i := 0 to cnvtxs
      invariant cnedges == Reserved(g, cptr, cind, i)
    {
      cnedges := cnedges + RepDegree(g, cptr, cind, i);
    }
    ReservedGrows(g, cptr, cind, 0, cnvtxs);
    var mark := new int[cnvtxs](_ => -1);
    var cadjncy := new int[cnedges];
    var cxadj, l := [0], 0;
    cvwgt := [];
    NoRows(g, map_[..]);
    assert cadjncy[..0] == [];
    for i := 0 to cnvtxs
      invariant |cxadj| == i + 1 && cxadj[i] == l && 0 <= l <= cadjncy.Length && l <= Reserved(g, cptr, cind, i)
      invariant RowsBuilt(g, map_[..], cxadj, cadjncy[..l])
      invariant |cvwgt| == i && forall c :: 0 <= c < i ==> cvwgt[c] == cptr[c + 1] - cptr[c]
      invariant forall k :: 0 <= k < mark.Length ==> mark[k] < i
    {
      GroupFacts(g, map_[..], cptr, cind, i);
      ReservedGrows(g, cptr, cind, i + 1, cnvtxs);
      cvwgt := cvwgt + [cptr[i + 1] - cptr[i]];
      ghost var before, row, start := cadjncy[..l], [], l;
      l, row := CompressRow(g, map_, cptr, cind, i, mark, cadjncy, l);
      assert cadjncy[..start] == before && cadjncy[..l] == before + row;
      RowAdded(g, map_[..], cxadj, before, row);
      cxadj := cxadj + [l];
    }
    cg := Csr(cxadj, cadjncy[..l]);
  }

  lemma NoRows(g: Csr, map_: seq<int>)
    requires Shaped(g) && |map_| == Size(g)
    ensures RowsBuilt(g, map_, [0], [])
  {
  }

  lemma GroupSizes(g: Csr, map_: seq<int>, cptr: seq<int>, cind: seq<int>)
    requires Grouping(g, map_, cptr, cind)
    ensures |cptr| > 0 && |map_| == Size(g) && |cind| == Size(g)
  {
  }

  /** The graph as it was (lines 81 to 102) or, if `merged`, the compressed one, with all its arrays. */
  datatype Compressed = Compressed(merged: bool, g: Csr, vwgt: seq<int>, adjwgt: seq<int>, adjwgtsum: seq<int>, labels: seq<int>)

  /** Edges weigh 1, so weight sums are numbers of neighbours; labels are the vertices themselves. */
  ghost predicate Uniform(r: Compressed) {
    && |r.adjwgt| == |r.g.adjncy| && (forall j :: 0 <= j < |r.adjwgt| ==> r.adjwgt[j] == 1)
    && Size(r.g) >= 0 && |r.adjwgtsum| == |r.labels| == |r.vwgt| == Size(r.g)
    && forall i :: 0 <= i < Size(r.g) ==> r.adjwgtsum[i] == r.g.xadj[i + 1] - r.g.xadj[i] && r.labels[i] == i
  }

  method Ones(n: int) returns (s: seq<int>)
    requires n >= 0
    ensures |s| == n && forall i :: 0 <= i < n ==> s[i] == 1
  {
    var a := new int[n](_ => 1);
    s := a[..];
  }

  /** Fills in the arrays that do not depend on how the graph came about. */
  method Complete(merged: bool, g: Csr, vwgt: seq<int>) returns (r: Compressed)
    requires 0 <= Size(g) == |vwgt|
    ensures Uniform(r) && r.merged == merged && r.g == g && r.vwgt == vwgt
  {
    var adjwgt := Ones(|g.adjncy|);
    var sums, labels := new int[Size(g)], new int[Size(g)];
    for i := 0 to Size(g)
      invariant forall k :: 0 <= k < i ==> sums[k] == g.xadj[k + 1] - g.xadj[k] && labels[k] == k
    {
      sums[i] := g.xadj[i + 1] - g.xadj[i];
      labels[i] := i;
    }
    r := Compressed(merged, g, vwgt, adjwgt, sums[..], labels[..]);
  }

  ghost function SumOf(s: seq<int>, k: int): int
    requires 0 <= k <= |s|
  {
    if k == 0 then 0 else SumOf(s, k - 1) + s[k - 1]
  }

  /** The sizes of the classes add up to the number of vertices. */
  lemma {:induction false} SizesAddUp(cptr: seq<int>, vwgt: seq<int>, k: int)
    requires 0 <= k <= |vwgt| == |cptr| - 1 && cptr[0] == 0 && forall c :: 0 <= c < |vwgt| ==> vwgt[c] == cptr[c + 1] - cptr[c]
    ensures SumOf(vwgt, k) == cptr[k]
  {
    if k > 0 {
      SizesAddUp(cptr, vwgt, k - 1);
    }
  }

  ghost predicate MergedWell(g: Csr, map_: seq<int>, cg: Csr, vwgt: seq<int>)
    requires Shaped(g)
  {
    && |map_| == Size(g) && |vwgt| == Size(cg) && RowsBuilt(g, map_, cg.xadj, cg.adjncy)
    && (forall x :: 0 <= x < Size(g) ==> 0 <= map_[x] < Size(cg))
    && (forall x, y :: 0 <= x < Size(g) && 0 <= y < Size(g) && map_[x] == map_[y] ==> Closed(g, x) == Closed(g, y))
    && (forall x, y :: 0 <= x < Size(g) && 0 <= y < Size(g) && map_[x] != map_[y] ==>
         (y in Row(g, x) <==> ClassesAdjacent(g, map_, map_[x], map_[y])))
    && SumOf(vwgt, |vwgt|) == Size(g)
  }

  /** `classes` is the number of classes that `map_` uses. */
  ghost predicate ClassesUsed(map_: seq<int>, classes: int) {
    && (forall x :: 0 <= x < |map_| ==> 0 <= map_[x] < classes)
    && forall c :: 0 <= c < classes ==> c in map_
  }

  lemma {:induction false} AllUsed(g: Csr, map_: seq<int>, cptr: seq<int>, cind: seq<int>)
    requires Grouping(g, map_, cptr, cind)
    ensures |cptr| > 0 && ClassesUsed(map_, |cptr| - 1)
  {
    forall x | 0 <= x < |map_|
      ensures 0 <= map_[x] < |cptr| - 1
    {
      var p := Member(g, map_, cptr, cind, x);
    }
    forall c | 0 <= c < |cptr| - 1
      ensures c in map_
    {
      GroupFacts(g, map_, cptr, cind, c);
      MemberClass(g, map_, cptr, cind, c, cptr[c]);
      assert map_[cind[cptr[c]]] == c;
    }
  }

  /**
   * Merges vertices with identical closed neighbourhoods exactly when that leaves few enough classes:
   * vertices of different classes are adjacent exactly when their classes are, and the sizes add up.
   * Otherwise the graph stays what it was, with unit weights.
   */
  method CompressGraph(g: Csr) returns (r: Compressed, map_: array<int>, classes: int)
    requires Undirected(g) && Shaped(g)
    ensures ClassesUsed(map_[..], classes) && Uniform(r)
    ensures r.merged <==> (classes as real) < COMPRESSION_FRACTION * Size(g) as real
    ensures !r.merged ==> r.g == g && forall i :: 0 <= i < Size(g) ==> r.vwgt[i] == 1
    ensures r.merged ==> MergedWell(g, map_[..], r.g, r.vwgt) && Size(r.g) == classes
  {
    hide Undirected, Classes, RowsBuilt, ClassesAdjacent, Uniform, ClassesUsed;
    var cptr, cind;
    map_, cptr, cind, classes := FindClasses(g);
    AllUsed(g, map_[..], cptr[..classes + 1], cind[..]);
    if classes as real >= COMPRESSION_FRACTION * Size(g) as real {
      var ones := Ones(Size(g));
      r := Complete(false, g, ones);
    } else {
      var cg, cvwgt := CompressRows(g, map_, cptr[..classes + 1], cind[..]);
      r := Complete(true, cg, cvwgt);
      CompressedWell(g, map_[..], cptr[..classes + 1], cind[..], cg, cvwgt);
    }
  }

  lemma {:induction false} CompressedWell(g: Csr, map_: seq<int>, cptr: seq<int>, cind: seq<int>, cg: Csr, vwgt: seq<int>)
    requires Shaped(g) && |map_| == Size(g) && Grouping(g, map_, cptr, cind)
    requires |cg.xadj| == |cptr| && RowsBuilt(g, map_, cg.xadj, cg.adjncy)
    requires |vwgt| == |cptr| - 1 && forall c :: 0 <= c < |vwgt| ==> vwgt[c] == cptr[c + 1] - cptr[c]
    ensures MergedWell(g, map_, cg, vwgt)
  {
    ClassesEnds(g, map_, cptr, cind);
    hide Grouping, RowsBuilt, ClassesAdjacent, Closed;
    forall x | 0 <= x < Size(g)
      ensures 0 <= map_[x] < Size(cg)
    {
      ClassRange(g, map_, cptr, cind, x);
    }
    forall x, y | 0 <= x < Size(g) && 0 <= y < Size(g)
      ensures map_[x] == map_[y] ==> Closed(g, x) == Closed(g, y)
      ensures map_[x] != map_[y] ==> (y in Row(g, x) <==> ClassesAdjacent(g, map_, map_[x], map_[y]))
    {
      if map_[x] == map_[y] {
        MergedAreIdentical(g, map_, cptr, cind, x, y);
      } else {
        AdjacencyPreserved(g, map_, cptr, cind, x, y);
      }
    }
    SizesAddUp(cptr, vwgt, |vwgt|);
  }

  lemma ClassesEnds(g: Csr, map_: seq<int>, cptr: seq<int>, cind: seq<int>)
    requires Grouping(g, map_, cptr, cind)
    ensures |cptr| > 0 && cptr[0] == 0 && cptr[|cptr| - 1] == Size(g)
  {
  }
}
