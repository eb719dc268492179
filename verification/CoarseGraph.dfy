// Building the coarse graph: the direct table and the masked hash
// (CreateCoarseGraphNoMask and CreateCoarseGraph, tools/assignment/metis/ccgraph.c:22-324).
module CoarseGraph {
  import opened Finite
  import opened Csrs
  import opened Weighted
  import opened CoarseRows
  import opened Contraction

  const HTLENGTH: int := 2047

  /**
   * How coarse neighbours are looked up: in a table with a slot for each, or in one of HTLENGTH + 1
   * slots that they share. `Masked` is the shared table as the program uses it, `Guarded` the same with
   * its last search kept inside the list.
   */
  datatype Table = Direct | Masked | Guarded

  /** The coarse graph's arrays, as large as the fine graph's edge list. */
  class Arrays {
    const cxadj: array<int>
    const cvwgt: array<int>
    const cadjwgtsum: array<int>
    const cadjncy: array<int>
    const cadjwgt: array<int>

    constructor (cnvtxs: nat, nedges: nat)
      ensures Valid(cnvtxs, nedges)
      ensures fresh(cxadj) && fresh(cvwgt) && fresh(cadjwgtsum) && fresh(cadjncy) && fresh(cadjwgt)
    {
      cxadj := new int[cnvtxs + 1];
      cvwgt := new int[cnvtxs];
      cadjwgtsum := new int[cnvtxs];
      cadjncy := new int[nedges];
      cadjwgt := new int[nedges];
    }

    predicate Valid(cnvtxs: int, nedges: int) {
      && cnvtxs >= 0 && cxadj.Length == cnvtxs + 1 && cvwgt.Length == cadjwgtsum.Length == cnvtxs
      && cadjncy.Length == cadjwgt.Length == nedges
      && cxadj !in {cvwgt, cadjwgtsum, cadjncy, cadjwgt} && cvwgt !in {cadjwgtsum, cadjncy, cadjwgt}
      && cadjwgtsum !in {cadjncy, cadjwgt} && cadjncy != cadjwgt
    }

    /** The row under construction sits at `off`. */
    ghost predicate ShowsRow(off: int, r: Row)
      reads cadjncy, cadjwgt
    {
      && 0 <= off && |r.keys| == |r.wgts| && off + |r.keys| <= cadjncy.Length == cadjwgt.Length
      && cadjncy[off..off + |r.keys|] == r.keys && cadjwgt[off..off + |r.keys|] == r.wgts
    }
  }

  // ---------------------------------------------------------------- the hash table

  /** The slot of a coarse vertex: its low bits, which are all of it when the table is large enough. */
  function Slot(k: int, n: int): (h: int)
    ensures n > 0 ==> 0 <= h < n
    ensures 0 <= k < n ==> h == k
  {
    if n > 0 then k % n else 0
  }

  ghost predicate HashAt(ht: seq<int>, keys: seq<int>, h: int)
    requires 0 <= h < |ht| && forall i :: 0 <= i < |keys| ==> keys[i] >= 0
  {
    if ht[h] == -1 then forall i :: 0 <= i < |keys| ==> Slot(keys[i], |ht|) != h
    else 0 <= ht[h] < |keys| && Slot(keys[ht[h]], |ht|) == h
  }

  /** Every slot is empty because nothing hashes to it, or names some entry that does. */
  ghost predicate HashOk(ht: seq<int>, keys: seq<int>) {
    && |ht| > 0
    && (forall i :: 0 <= i < |keys| ==> keys[i] >= 0)
    && forall h :: 0 <= h < |ht| ==> HashAt(ht, keys, h)
  }

  ghost predicate AllEmpty(ht: seq<int>) {
    forall h :: 0 <= h < |ht| ==> ht[h] == -1
  }

  lemma HashMiss(ht: seq<int>, keys: seq<int>, k: int)
    requires HashOk(ht, keys) && k >= 0 && ht[Slot(k, |ht|)] == -1
    ensures k !in keys
  {
    hide Slot;
    assert HashAt(ht, keys, Slot(k, |ht|));
  }

  lemma HashHit(ht: seq<int>, keys: seq<int>, k: int)
    requires HashOk(ht, keys) && k >= 0 && ht[Slot(k, |ht|)] != -1
    ensures 0 <= ht[Slot(k, |ht|)] < |keys|
    ensures k < |ht| && keys[ht[Slot(k, |ht|)]] < |ht| ==> keys[ht[Slot(k, |ht|)]] == k
  {
    hide Slot;
    assert HashAt(ht, keys, Slot(k, |ht|));
  }

  lemma {:induction false} HashAppend(ht: seq<int>, keys: seq<int>, k: int)
    requires HashOk(ht, keys) && k >= 0
    ensures ht[Slot(k, |ht|)] == -1 ==> HashOk(ht[Slot(k, |ht|) := |keys|], keys + [k])
    ensures ht[Slot(k, |ht|)] != -1 ==> HashOk(ht, keys + [k])
  {
    hide Slot;
    var ht' := if ht[Slot(k, |ht|)] == -1 then ht[Slot(k, |ht|) := |keys|] else ht;
    forall h | 0 <= h < |ht|
      ensures HashAt(ht', keys + [k], h)
    {
      assert HashAt(ht, keys, h);
    }
  }

  // ---------------------------------------------------------------- adding one entry

  method Append(a: Arrays, off: int, k: int, w: int, nedges0: int, ghost r: Row) returns (nedges: int)
    requires a.ShowsRow(off, r) && nedges0 == |r.keys| && off + nedges0 < a.cadjncy.Length && a.cadjncy != a.cadjwgt
    modifies a.cadjncy, a.cadjwgt
    ensures nedges == nedges0 + 1 && a.ShowsRow(off, Row(r.keys + [k], r.wgts + [w]))
    ensures a.cadjncy[..off] == old(a.cadjncy[..off]) && a.cadjwgt[..off] == old(a.cadjwgt[..off])
  {
    a.cadjncy[off + nedges0] := k;
    a.cadjwgt[off + nedges0] := w;
    nedges := nedges0 + 1;
    assert a.cadjncy[off..off + nedges] == a.cadjncy[off..off + nedges0] + [k];
    assert a.cadjwgt[off..off + nedges] == a.cadjwgt[off..off + nedges0] + [w];
  }

  method Increase(a: Arrays, off: int, m: int, w: int, ghost r: Row)
    requires a.ShowsRow(off, r) && 0 <= m < |r.keys| && a.cadjncy != a.cadjwgt && Distinct(r.keys)
    modifies a.cadjwgt
    ensures a.ShowsRow(off, Add(r, r.keys[m], w))
    ensures a.cadjwgt[..off] == old(a.cadjwgt[..off])
  {
    IndexUnique(r.keys, m);
    assert a.cadjwgt[off + m] == a.cadjwgt[off..off + |r.keys|][m];
    a.cadjwgt[off + m] := a.cadjwgt[off + m] + w;
    assert a.cadjwgt[off..off + |r.keys|] == r.wgts[m := r.wgts[m] + w];
  }

  /** With the direct table every coarse vertex has a slot of its own. */
  method AddDirect(a: Arrays, ht: array<int>, off: int, k: int, w: int, nedges0: int, cn: int, ghost r: Row)
    returns (nedges: int)
    requires a.ShowsRow(off, r) && nedges0 == |r.keys| && a.cadjncy != a.cadjwgt && ht !in {a.cadjncy, a.cadjwgt}
    requires ValidRow(r, cn) && cn <= ht.Length && HashOk(ht[..], r.keys) && 0 <= k < cn && off + nedges0 < a.cadjncy.Length
    modifies a.cadjncy, a.cadjwgt, ht
    ensures a.ShowsRow(off, Add(r, k, w)) && nedges == |Add(r, k, w).keys| && HashOk(ht[..], Add(r, k, w).keys)
    ensures a.cadjncy[..off] == old(a.cadjncy[..off]) && a.cadjwgt[..off] == old(a.cadjwgt[..off])
  {
    hide Slot, HashOk;
    nedges := nedges0;
    var m := ht[k];
    HashAppend(ht[..], r.keys, k);
    if m == -1 {
      HashMiss(ht[..], r.keys, k);
      nedges := Append(a, off, k, w, nedges0, r);
      ghost var h0 := ht[..];
      ht[k] := nedges0;
      assert ht[..] == h0[k := nedges0];
    } else {
      HashHit(ht[..], r.keys, k);
      assert r.keys[m] == k;
      Increase(a, off, m, w, r);
    }
  }

  lemma HashPositive(ht: seq<int>, keys: seq<int>)
    requires HashOk(ht, keys)
    ensures |ht| > 0
  {
    hide Slot;
  }

  /** With the masked table collisions are possible, and searched for in the list itself. */
  method AddMasked(a: Arrays, ht: array<int>, off: int, k: int, w: int, nedges0: int, cn: int, ghost r: Row)
    returns (nedges: int)
    requires a.ShowsRow(off, r) && nedges0 == |r.keys| && a.cadjncy != a.cadjwgt && ht !in {a.cadjncy, a.cadjwgt}
    requires ValidRow(r, cn) && HashOk(ht[..], r.keys) && 0 <= k < cn && off + nedges0 < a.cadjncy.Length
    modifies a.cadjncy, a.cadjwgt, ht
    ensures a.ShowsRow(off, Add(r, k, w)) && nedges == |Add(r, k, w).keys| && HashOk(ht[..], Add(r, k, w).keys)
    ensures a.cadjncy[..off] == old(a.cadjncy[..off]) && a.cadjwgt[..off] == old(a.cadjwgt[..off])
  {
    hide Slot, HashOk;
    nedges := nedges0;
    HashPositive(ht[..], r.keys);
    var kk := Slot(k, ht.Length);
    var m := ht[kk];
    HashAppend(ht[..], r.keys, k);
    if m == -1 {
      HashMiss(ht[..], r.keys, k);
      nedges := Append(a, off, k, w, nedges0, r);
      ghost var h0 := ht[..];
      ht[kk] := nedges0;
      assert ht[..] == h0[Slot(k, |h0|) := nedges0];
    } else {
      HashHit(ht[..], r.keys, k);
      assert a.cadjncy[off + m] == a.cadjncy[off..off + |r.keys|][m];
      if a.cadjncy[off + m] == k {
        Increase(a, off, m, w, r);
      } else {
        var jj := Find(a, off, k, nedges0, r);
        if jj < nedges0 {
          Increase(a, off, jj, w, r);
        } else {
          nedges := Append(a, off, k, w, nedges0, r);
        }
      }
    }
  }

  /** The linear search of the list; `nedges` when the key is not there. */
  method Find(a: Arrays, off: int, k: int, nedges: int, ghost r: Row) returns (jj: int)
    requires a.ShowsRow(off, r) && nedges == |r.keys|
    ensures 0 <= jj <= nedges && (jj < nedges ==> r.keys[jj] == k) && (jj == nedges <==> k !in r.keys)
  {
    jj := 0;
    while jj < nedges
      invariant 0 <= jj <= nedges && forall i :: 0 <= i < jj ==> r.keys[i] != k
    {
      assert a.cadjncy[off + jj] == a.cadjncy[off..off + |r.keys|][jj];
      if a.cadjncy[off + jj] == k {
        break;
      }
      jj := jj + 1;
    }
  }

  // ---------------------------------------------------------------- one coarse vertex

  method AddEntry(table: Table, a: Arrays, ht: array<int>, off: int, k: int, w: int, nedges0: int, cn: int, ghost r: Row)
    returns (nedges: int)
    requires a.ShowsRow(off, r) && nedges0 == |r.keys| && a.cadjncy != a.cadjwgt && ht !in {a.cadjncy, a.cadjwgt}
    requires ValidRow(r, cn) && (table != Direct || cn <= ht.Length) && HashOk(ht[..], r.keys) && 0 <= k < cn
    requires off + nedges0 < a.cadjncy.Length
    modifies a.cadjncy, a.cadjwgt, ht
    ensures a.ShowsRow(off, Add(r, k, w)) && nedges == |Add(r, k, w).keys| && HashOk(ht[..], Add(r, k, w).keys)
    ensures a.cadjncy[..off] == old(a.cadjncy[..off]) && a.cadjwgt[..off] == old(a.cadjwgt[..off])
  {
    hide Slot;
    if table != Direct {
      nedges := AddMasked(a, ht, off, k, w, nedges0, cn, r);
    } else {
      nedges := AddDirect(a, ht, off, k, w, nedges0, cn, r);
    }
  }

  /** Adds the whole row of the fine vertex `v`. */
  method AddRow(table: Table, g: Graph, cmap: seq<int>, auxadj: seq<int>, a: Arrays, ht: array<int>, off: int, v: int,
                nedges0: int, cn: int, ghost r0: Row)
    returns (nedges: int, ghost r: Row)
    requires WellFormed(g) && 0 <= v < N(g) && |cmap| == N(g) && forall x :: 0 <= x < N(g) ==> 0 <= cmap[x] < cn
    requires |auxadj| == |g.adjwgt| && forall j :: First(g.csr, v) <= j < Last(g.csr, v) ==> 0 <= g.csr.adjncy[j] < N(g) && auxadj[j] == cmap[g.csr.adjncy[j]]
    requires a.ShowsRow(off, r0) && nedges0 == |r0.keys| && a.cadjncy != a.cadjwgt && ht !in {a.cadjncy, a.cadjwgt}
    requires ValidRow(r0, cn) && (table != Direct || cn <= ht.Length) && HashOk(ht[..], r0.keys)
    requires off + nedges0 + (Last(g.csr, v) - First(g.csr, v)) <= a.cadjncy.Length
    modifies a.cadjncy, a.cadjwgt, ht
    ensures Weighted.Shaped(g) && r == Gather(g, cmap, r0, First(g.csr, v), Last(g.csr, v)) && ValidRow(r, cn)
    ensures a.ShowsRow(off, r) && nedges == |r.keys| && HashOk(ht[..], r.keys)
    ensures a.cadjncy[..off] == old(a.cadjncy[..off]) && a.cadjwgt[..off] == old(a.cadjwgt[..off])
  {
    hide Slot, HashOk, ValidRow, Add;
    nedges, r := nedges0, r0;
    for j := First(g.csr, v) to Last(g.csr, v)
      invariant r == Gather(g, cmap, r0, First(g.csr, v), j) && ValidRow(r, cn)
      invariant a.ShowsRow(off, r) && nedges == |r.keys| && HashOk(ht[..], r.keys)
      invariant a.cadjncy[..off] == old(a.cadjncy[..off]) && a.cadjwgt[..off] == old(a.cadjwgt[..off])
    {
      GatherValid(g, cmap, r0, v, j + 1, cn);
      nedges := AddEntry(table, a, ht, off, auxadj[j], g.adjwgt[j], nedges, cn, r);
      r := Add(r, auxadj[j], g.adjwgt[j]);
    }
  }

  // ---------------------------------------------------------------- removing the pair's own edge

  ghost predicate CoveredAt(ht: seq<int>, keys: seq<int>, from: int, extra: int, h: int)
    requires 0 <= h < |ht| && 0 <= from && forall i :: 0 <= i < |keys| ==> keys[i] >= 0
  {
    ht[h] == -1 || h == extra || exists i :: from <= i < |keys| && Slot(keys[i], |ht|) == h
  }

  /** Every occupied slot is the slot of an entry from `from` on, or `extra`. */
  ghost predicate Covered(ht: seq<int>, keys: seq<int>, from: int, extra: int) {
    && |ht| > 0 && 0 <= from && (forall i :: 0 <= i < |keys| ==> keys[i] >= 0)
    && forall h :: 0 <= h < |ht| ==> CoveredAt(ht, keys, from, extra, h)
  }

  lemma {:induction false} CoveredAfterRemoval(ht: seq<int>, r: Row, c: int, cn: int)
    requires HashOk(ht, r.keys) && ValidRow(r, cn) && c >= 0
    ensures |ht| > 0 && Covered(ht, RemoveKey(r, c).keys, 0, Slot(c, |ht|))
    ensures Covered(ht, r.keys, 0, Slot(c, |ht|))
  {
    hide Slot;
    RemoveValid(r, c, cn);
    var keys := RemoveKey(r, c).keys;
    forall h | 0 <= h < |ht|
      ensures CoveredAt(ht, keys, 0, Slot(c, |ht|), h) && CoveredAt(ht, r.keys, 0, Slot(c, |ht|), h)
    {
      assert HashAt(ht, r.keys, h);
      if ht[h] != -1 && h != Slot(c, |ht|) {
        OthersKept(r, c, ht[h]);
        var i :| 0 <= i < |keys| && keys[i] == r.keys[ht[h]];
      }
    }
  }

  lemma {:induction false} OthersKept(r: Row, c: int, m: int)
    requires |r.keys| == |r.wgts| && Distinct(r.keys) && 0 <= m < |r.keys| && r.keys[m] != c
    ensures r.keys[m] in RemoveKey(r, c).keys
  {
    var keys := RemoveKey(r, c).keys;
    if c in r.keys {
      var n, at := |r.keys| - 1, Index(r.keys, c);
      if m == n {
        assert keys[at] == r.keys[m];
      } else {
        assert keys[m] == r.keys[m];
      }
    }
  }

  ghost predicate CoveredOrClear(table: Table, ht: seq<int>, keys: seq<int>, c: int)
  {
    && |ht| > 0
    && Covered(ht, keys, 0, if table != Direct then Slot(c, |ht|) else -1)
  }

  method MoveLast(a: Arrays, off: int, jj: int, nedges0: int, ghost r: Row) returns (nedges: int)
    requires a.ShowsRow(off, r) && 0 <= jj < |r.keys| == nedges0 && a.cadjncy != a.cadjwgt
    modifies a.cadjncy, a.cadjwgt
    ensures nedges == nedges0 - 1 && a.ShowsRow(off, RemoveAt(r, jj))
    ensures a.cadjncy[..off] == old(a.cadjncy[..off]) && a.cadjwgt[..off] == old(a.cadjwgt[..off])
  {
    nedges := nedges0 - 1;
    assert a.cadjncy[off + nedges] == a.cadjncy[off..off + |r.keys|][nedges];
    assert a.cadjwgt[off + nedges] == a.cadjwgt[off..off + |r.keys|][nedges];
    a.cadjncy[off + jj] := a.cadjncy[off + nedges];
    a.cadjwgt[off + jj] := a.cadjwgt[off + nedges];
    assert a.cadjncy[off..off + nedges] == RemoveAt(r, jj).keys;
    assert a.cadjwgt[off..off + nedges] == RemoveAt(r, jj).wgts;
  }

  /** The weight recorded for `c`, if any. */
  ghost function Own(r: Row, c: int): int
    requires |r.keys| == |r.wgts|
  {
    if c in r.keys then r.wgts[Index(r.keys, c)] else 0
  }

  /**
   * When the search for the entry of `c` itself runs past the list: the slot of `c` is taken, by an
   * entry that shares it, and `c` has no entry.
   */
  ghost predicate Overreads(ht: seq<int>, keys: seq<int>, c: int)
    requires |ht| > 0
  {
    ht[Slot(c, |ht|)] != -1 && c !in keys
  }

  /** Told by the list alone. */
  lemma {:induction false} OverreadsExactly(ht: seq<int>, keys: seq<int>, c: int)
    requires HashOk(ht, keys) && c >= 0
    ensures |ht| > 0
    ensures Overreads(ht, keys, c) <==> c !in keys && exists i :: 0 <= i < |keys| && Slot(keys[i], |ht|) == Slot(c, |ht|)
  {
    hide Slot;
    assert HashAt(ht, keys, Slot(c, |ht|));
  }

  /** Lines 155 to 161: -1, or the position of the entry of `c`, or the position behind the list. */
  method SearchOwn(a: Arrays, ht: array<int>, off: int, c: int, nedges: int, cn: int, ghost r: Row) returns (jj: int)
    requires a.ShowsRow(off, r) && nedges == |r.keys| && ValidRow(r, cn) && HashOk(ht[..], r.keys) && 0 <= c < cn
    ensures -1 <= jj <= nedges && ht.Length > 0
    ensures jj == -1 ==> c !in r.keys
    ensures 0 <= jj < nedges ==> r.keys[jj] == c
    ensures jj == nedges <==> Overreads(ht[..], r.keys, c)
  {
    hide Slot, HashOk;
    HashPositive(ht[..], r.keys);
    jj := ht[Slot(c, ht.Length)];
    if jj == -1 {
      HashMiss(ht[..], r.keys, c);
    } else {
      HashHit(ht[..], r.keys, c);
      assert a.cadjncy[off + jj] == a.cadjncy[off..off + |r.keys|][jj];
      if a.cadjncy[off + jj] != c {
        jj := Find(a, off, c, nedges, r);
      }
    }
  }

  ghost function DropLast(r: Row): Row
    requires |r.keys| == |r.wgts| > 0
  {
    Row(r.keys[..|r.keys| - 1], r.wgts[..|r.wgts| - 1])
  }

  /**
   * Lines 155 to 166 as they stand, which take the entry for `c` itself out of the list and tell its
   * weight. They stay inside the list exactly when the search does. Otherwise whatever the cell behind
   * the list holds decides: if that is `c` by accident, the last entry of the list is lost.
   */
  method RemoveOwnMasked(a: Arrays, ht: array<int>, off: int, c: int, nedges0: int, cn: int, ghost r: Row)
    returns (nedges: int, own: int, outside: bool)
    requires a.ShowsRow(off, r) && nedges0 == |r.keys| && a.cadjncy != a.cadjwgt && ht !in {a.cadjncy, a.cadjwgt}
    requires ValidRow(r, cn) && HashOk(ht[..], r.keys) && 0 <= c < cn && ht.Length > 0
    requires Overreads(ht[..], r.keys, c) ==> off + nedges0 < a.cadjncy.Length  /* the cell behind can be read at all */
    modifies a.cadjncy, a.cadjwgt
    ensures outside <==> Overreads(ht[..], r.keys, c)
    ensures !outside ==> a.ShowsRow(off, RemoveKey(r, c)) && nedges == |RemoveKey(r, c).keys| && own == Own(r, c)
    ensures outside ==> nedges0 > 0 && RemoveKey(r, c) == r && off + nedges0 < a.cadjncy.Length == a.cadjwgt.Length
    ensures outside && old(a.cadjncy[off + nedges0]) == c ==>
              a.ShowsRow(off, DropLast(r)) && nedges == nedges0 - 1 && own == old(a.cadjwgt[off + nedges0])
    ensures outside && old(a.cadjncy[off + nedges0]) != c ==> a.ShowsRow(off, r) && nedges == nedges0 && own == 0
    ensures a.cadjncy[..off] == old(a.cadjncy[..off]) && a.cadjwgt[..off] == old(a.cadjwgt[..off])
  {
    hide Slot, HashOk;
    nedges, own, outside := nedges0, 0, false;
    OverreadsExactly(ht[..], r.keys, c);
    var jj := SearchOwn(a, ht, off, c, nedges, cn, r);
    outside := jj == nedges;
    if outside {
      own, nedges := TakeBehind(a, off, c, nedges, r);
    } else if jj >= 0 {
      own, nedges := TakeOut(a, off, c, jj, nedges, r);
    }
  }

  /** Lines 162 to 166 with a position behind the list. */
  method TakeBehind(a: Arrays, off: int, c: int, nedges0: int, ghost r: Row) returns (own: int, nedges: int)
    requires a.ShowsRow(off, r) && 0 < |r.keys| == nedges0 && off + nedges0 < a.cadjncy.Length && a.cadjncy != a.cadjwgt
    modifies a.cadjncy, a.cadjwgt
    ensures if old(a.cadjncy[off + nedges0]) == c
              then a.ShowsRow(off, DropLast(r)) && nedges == nedges0 - 1 && own == old(a.cadjwgt[off + nedges0])
              else a.ShowsRow(off, r) && nedges == nedges0 && own == 0
    ensures old(a.cadjncy[off + nedges0]) == c ==> a.cadjncy[off + nedges0] == r.keys[nedges0 - 1] && a.cadjwgt[off + nedges0] == r.wgts[nedges0 - 1]
    ensures a.cadjncy[..off] == old(a.cadjncy[..off]) && a.cadjwgt[..off] == old(a.cadjwgt[..off])
  {
    nedges, own := nedges0, 0;
    if a.cadjncy[off + nedges0] == c {
      own := a.cadjwgt[off + nedges0];
      nedges := nedges0 - 1;
      a.cadjncy[off + nedges0] := a.cadjncy[off + nedges];
      a.cadjwgt[off + nedges0] := a.cadjwgt[off + nedges];
      assert a.cadjncy[off..off + nedges0] == r.keys && a.cadjwgt[off..off + nedges0] == r.wgts;
      assert a.cadjncy[off..off + nedges] == DropLast(r).keys && a.cadjwgt[off..off + nedges] == DropLast(r).wgts;
    }
  }

  /**
   * Lines 155 to 166 up to the point where they would leave the list: there the program as it stands
   * stops being described (`inside` is false), and the guarded one finds nothing to remove.
   */
  method RemoveOwnInside(guarded: bool, a: Arrays, ht: array<int>, off: int, c: int, nedges0: int, cn: int, ghost r: Row)
    returns (inside: bool, nedges: int, own: int)
    requires a.ShowsRow(off, r) && nedges0 == |r.keys| && a.cadjncy != a.cadjwgt && ht !in {a.cadjncy, a.cadjwgt}
    requires ValidRow(r, cn) && HashOk(ht[..], r.keys) && 0 <= c < cn && ht.Length > 0
    modifies a.cadjncy, a.cadjwgt
    ensures inside <==> guarded || !Overreads(ht[..], r.keys, c)
    ensures inside ==> a.ShowsRow(off, RemoveKey(r, c)) && nedges == |RemoveKey(r, c).keys| && own == Own(r, c)
    ensures CoveredOrClear(Masked, ht[..], RemoveKey(r, c).keys, c)
    ensures a.cadjncy[..off] == old(a.cadjncy[..off]) && a.cadjwgt[..off] == old(a.cadjwgt[..off])
  {
    hide Slot, HashOk, Covered;
    nedges, own := nedges0, 0;
    CoveredAfterRemoval(ht[..], r, c, cn);
    var jj := SearchOwn(a, ht, off, c, nedges, cn, r);
    inside := guarded || jj != nedges;
    if 0 <= jj < nedges {
      own, nedges := TakeOut(a, off, c, jj, nedges, r);
    }
  }

  method TakeOut(a: Arrays, off: int, c: int, jj: int, nedges0: int, ghost r: Row) returns (own: int, nedges: int)
    requires a.ShowsRow(off, r) && 0 <= jj < |r.keys| == nedges0 && a.cadjncy != a.cadjwgt && Distinct(r.keys) && r.keys[jj] == c
    modifies a.cadjncy, a.cadjwgt
    ensures a.ShowsRow(off, RemoveKey(r, c)) && nedges == |RemoveKey(r, c).keys| && own == Own(r, c)
    ensures a.cadjncy[..off] == old(a.cadjncy[..off]) && a.cadjwgt[..off] == old(a.cadjwgt[..off])
  {
    IndexUnique(r.keys, jj);
    assert a.cadjwgt[off + jj] == a.cadjwgt[off..off + |r.keys|][jj];
    own := a.cadjwgt[off + jj];
    nedges := MoveLast(a, off, jj, nedges0, r);
  }

  /** The same with the direct table, which frees the slot at once. */
  method RemoveOwnDirect(a: Arrays, ht: array<int>, off: int, c: int, nedges0: int, cn: int, ghost r: Row)
    returns (nedges: int, own: int)
    requires a.ShowsRow(off, r) && nedges0 == |r.keys| && a.cadjncy != a.cadjwgt && ht !in {a.cadjncy, a.cadjwgt}
    requires ValidRow(r, cn) && cn <= ht.Length && HashOk(ht[..], r.keys) && 0 <= c < cn
    modifies a.cadjncy, a.cadjwgt, ht
    ensures a.ShowsRow(off, RemoveKey(r, c)) && nedges == |RemoveKey(r, c).keys| && own == Own(r, c)
    ensures CoveredOrClear(Direct, ht[..], RemoveKey(r, c).keys, c)
    ensures a.cadjncy[..off] == old(a.cadjncy[..off]) && a.cadjwgt[..off] == old(a.cadjwgt[..off])
  {
    hide Slot, HashOk, Covered;
    nedges, own := nedges0, 0;
    ghost var h0 := ht[..];
    CoveredAfterRemoval(h0, r, c, cn);
    var j := ht[c];
    if j == -1 {
      HashMiss(h0, r.keys, c);
    } else {
      HashHit(h0, r.keys, c);
      assert r.keys[j] == c;
      own, nedges := TakeOut(a, off, c, j, nedges, r);
      ht[c] := -1;
    }
    assert ht[..] == h0[c := -1];
    ClearSlot(h0, RemoveKey(r, c).keys, c);
  }

  lemma {:induction false} ClearSlot(ht: seq<int>, keys: seq<int>, c: int)
    requires Covered(ht, keys, 0, c) && 0 <= c < |ht|
    ensures Covered(ht[c := -1], keys, 0, -1)
  {
    hide Slot;
    var ht' := ht[c := -1];
    forall h | 0 <= h < |ht|
      ensures CoveredAt(ht', keys, 0, -1, h)
    {
      assert CoveredAt(ht, keys, 0, c, h);
    }
  }

  lemma {:induction false} ClearStep(ht: seq<int>, keys: seq<int>, j: int, extra: int)
    requires Covered(ht, keys, j, extra) && 0 <= j < |keys|
    ensures 0 <= Slot(keys[j], |ht|) < |ht| && Covered(ht[Slot(keys[j], |ht|) := -1], keys, j + 1, extra)
  {
    hide Slot;
    var ht', next := ht[Slot(keys[j], |ht|) := -1], j + 1;
    forall h | 0 <= h < |ht|
      ensures CoveredAt(ht', keys, next, extra, h)
    {
      assert CoveredAt(ht, keys, j, extra, h);
      if ht'[h] != -1 && h != extra {
        var i :| j <= i < |keys| && Slot(keys[i], |ht|) == h;
        assert i != j;
      }
    }
  }

  /** Empties the slots of the list's entries, and in the masked table the vertex's own. */
  method CleanTable(table: Table, a: Arrays, ht: array<int>, off: int, c: int, nedges: int, cn: int, ghost r: Row)
    requires a.ShowsRow(off, r) && nedges == |r.keys| && ht !in {a.cadjncy, a.cadjwgt} && 0 <= c < cn
    requires ValidRow(r, cn) && (table != Direct || cn <= ht.Length) && CoveredOrClear(table, ht[..], r.keys, c)
    modifies ht
    ensures AllEmpty(ht[..])
  {
    hide Slot, Covered;
    ghost var extra := if table != Direct then Slot(c, ht.Length) else -1;
    for j := 0 to nedges
      invariant a.ShowsRow(off, r) && Covered(ht[..], r.keys, j, extra)
    {
      assert a.cadjncy[off + j] == a.cadjncy[off..off + |r.keys|][j];
      ghost var h0 := ht[..];
      ClearStep(h0, r.keys, j, extra);
      if table != Direct {
        ht[Slot(a.cadjncy[off + j], ht.Length)] := -1;
      } else {
        ht[a.cadjncy[off + j]] := -1;
      }
      assert ht[..] == h0[Slot(r.keys[j], |h0|) := -1];
    }
    NothingCovered(ht[..], r.keys, nedges, extra);
    if table != Direct {
      ht[Slot(c, ht.Length)] := -1;
    }
  }

  lemma NothingCovered(ht: seq<int>, keys: seq<int>, from: int, extra: int)
    requires Covered(ht, keys, from, extra) && from == |keys|
    ensures forall h :: 0 <= h < |ht| && h != extra ==> ht[h] == -1
  {
    hide Slot;
    forall h | 0 <= h < |ht| && h != extra
      ensures ht[h] == -1
    {
      assert CoveredAt(ht, keys, from, extra, h);
    }
  }

  lemma EmptyHash(ht: seq<int>)
    requires AllEmpty(ht) && |ht| > 0
    ensures HashOk(ht, [])
  {
    hide Slot;
    assert forall h :: 0 <= h < |ht| ==> HashAt(ht, [], h);
  }

  ghost predicate AuxOk(g: Graph, cmap: seq<int>, auxadj: seq<int>)
    requires Weighted.Shaped(g) && |cmap| == N(g)
  {
    && |auxadj| == |g.adjwgt|
    && forall j :: 0 <= j < |auxadj| && 0 <= g.csr.adjncy[j] < N(g) ==> auxadj[j] == cmap[g.csr.adjncy[j]]
  }

  /** The fine vertex `v` has a neighbour in class `k`. */
  ghost predicate Meets(g: Graph, cmap: seq<int>, v: int, k: int)
    requires Weighted.Shaped(g) && |cmap| == N(g) && 0 <= v < N(g)
  {
    exists j :: First(g.csr, v) <= j < Last(g.csr, v) && 0 <= g.csr.adjncy[j] < N(g) && cmap[g.csr.adjncy[j]] == k
  }

  ghost predicate PairMeets(g: Graph, cmap: seq<int>, v: int, u: int, k: int)
    requires Weighted.Shaped(g) && |cmap| == N(g) && 0 <= v < N(g) && 0 <= u < N(g)
  {
    Meets(g, cmap, v, k) || Meets(g, cmap, u, k)
  }

  /**
   * When contracting a pair makes the program read past its list, told from the fine graph: the two
   * are not joined, and a neighbour's class shares the slot of their own.
   */
  ghost predicate PairOverreads(g: Graph, cmap: seq<int>, v: int, u: int, c: int, slots: int)
    requires Weighted.Shaped(g) && |cmap| == N(g) && 0 <= v < N(g) && 0 <= u < N(g)
  {
    u != v && !PairMeets(g, cmap, v, u, c) && exists k :: PairMeets(g, cmap, v, u, k) && Slot(k, slots) == Slot(c, slots)
  }

  lemma {:induction false} GatherKeys(g: Graph, cmap: seq<int>, r: Row, lo: int, hi: int, k: int)
    requires Weighted.Shaped(g) && |cmap| == N(g) && 0 <= lo <= hi <= |g.adjwgt| && |r.keys| == |r.wgts|
    requires forall j :: lo <= j < hi ==> 0 <= g.csr.adjncy[j] < N(g)
    ensures k in Gather(g, cmap, r, lo, hi).keys <==> k in r.keys || exists j :: lo <= j < hi && cmap[g.csr.adjncy[j]] == k
    decreases hi - lo
  {
    if lo < hi {
      GatherKeys(g, cmap, r, lo, hi - 1, k);
      AddKeys(Gather(g, cmap, r, lo, hi - 1), cmap[g.csr.adjncy[hi - 1]], g.adjwgt[hi - 1], k);
    }
  }

  lemma AddKeys(r: Row, k: int, w: int, x: int)
    requires |r.keys| == |r.wgts|
    ensures x in Add(r, k, w).keys <==> x in r.keys || x == k
  {
  }

  /** The gathered list of a pair names exactly the classes that the two meet. */
  lemma {:induction false} PairKeys(g: Graph, cmap: seq<int>, v: int, u: int, r: Row, r2: Row)
    requires WellFormed(g) && Weighted.Shaped(g) && |cmap| == N(g) && 0 <= v < N(g) && 0 <= u < N(g)
    requires forall j :: First(g.csr, v) <= j < Last(g.csr, v) ==> 0 <= g.csr.adjncy[j] < N(g)
    requires forall j :: First(g.csr, u) <= j < Last(g.csr, u) ==> 0 <= g.csr.adjncy[j] < N(g)
    requires r == Gather(g, cmap, EMPTY, First(g.csr, v), Last(g.csr, v)) && r2 == Gather(g, cmap, r, First(g.csr, u), Last(g.csr, u))
    ensures forall k :: k in r2.keys <==> PairMeets(g, cmap, v, u, k)
  {
    hide WellFormed;
    forall k
      ensures k in r2.keys <==> PairMeets(g, cmap, v, u, k)
    {
      GatherKeys(g, cmap, EMPTY, First(g.csr, v), Last(g.csr, v), k);
      GatherKeys(g, cmap, r, First(g.csr, u), Last(g.csr, u), k);
    }
  }

  /** So the search leaves the list exactly when the fine graph says so. */
  lemma {:induction false} PairOverreadsExactly(g: Graph, cmap: seq<int>, v: int, u: int, c: int, ht: seq<int>, keys: seq<int>)
    requires Weighted.Shaped(g) && |cmap| == N(g) && 0 <= v < N(g) && 0 <= u < N(g) && u != v
    requires HashOk(ht, keys) && c >= 0 && forall k :: k in keys <==> PairMeets(g, cmap, v, u, k)
    ensures |ht| > 0 && (Overreads(ht, keys, c) <==> PairOverreads(g, cmap, v, u, c, |ht|))
  {
    hide Slot, HashOk, PairMeets;
    OverreadsExactly(ht, keys, c);
    if i :| 0 <= i < |keys| && Slot(keys[i], |ht|) == Slot(c, |ht|) {
      assert PairMeets(g, cmap, v, u, keys[i]);
    }
    if k :| PairMeets(g, cmap, v, u, k) && Slot(k, |ht|) == Slot(c, |ht|) {
      var i :| 0 <= i < |keys| && keys[i] == k;
    }
  }

  /**
   * Builds the list of one coarse vertex, as long as the program stays inside it; the table is all
   * empty again afterwards.
   */
  method BuildRow(table: Table, g: Graph, cmap: seq<int>, auxadj: seq<int>, a: Arrays, ht: array<int>, off: int, v: int, u: int,
                  c: int, cn: int)
    returns (inside: bool, nedges: int, own: int, ghost r: Row)
    requires WellFormed(g) && 0 <= v < N(g) && 0 <= u < N(g) && |cmap| == N(g)
    requires Weighted.Shaped(g) && AuxOk(g, cmap, auxadj) && forall x :: 0 <= x < N(g) ==> 0 <= cmap[x] < cn
    requires a.cadjncy != a.cadjwgt && a.cadjncy.Length == a.cadjwgt.Length && ht !in {a.cadjncy, a.cadjwgt}
    requires (table != Direct || cn <= ht.Length) && ht.Length > 0 && AllEmpty(ht[..]) && 0 <= c < cn && 0 <= off
    requires off + (Last(g.csr, v) - First(g.csr, v)) + (if u == v then 0 else Last(g.csr, u) - First(g.csr, u)) <= a.cadjncy.Length
    modifies a.cadjncy, a.cadjwgt, ht
    ensures inside <==> (table == Masked ==> !PairOverreads(g, cmap, v, u, c, ht.Length))
    ensures inside ==> r == CoarseRow(g, cmap, v, u, c) && ValidRow(r, cn) && nedges == |r.keys| && a.ShowsRow(off, r)
    ensures inside ==> AllEmpty(ht[..])
    ensures inside && u == v ==> own == 0
    ensures inside ==> |r.keys| == |r.wgts| && own == Deg(g, v, Range(0, N(g))) + (if u == v then 0 else Deg(g, u, Range(0, N(g)))) - Total(r, Range(0, cn))
    ensures a.cadjncy[..off] == old(a.cadjncy[..off]) && a.cadjwgt[..off] == old(a.cadjwgt[..off])
  {
    hide Slot, HashOk, ValidRow, Add, AllEmpty, Covered, WellFormed, RemoveKey, Own, Total, Pre, PairOverreads, Overreads, PairMeets;
    r := EMPTY;
    ghost var all := Range(0, cn);
    EmptyHash(ht[..]);
    EmptyRow(a, off, cn, all);
    AllPre(cmap, cn);
    RowEntries(g, v);
    RowEntries(g, u);
    nedges, r := AddRow(table, g, cmap, auxadj, a, ht, off, v, 0, cn, r);
    GatherTotal(g, cmap, EMPTY, First(g.csr, v), Last(g.csr, v), all);
    inside, own := true, 0;
    NoPair(g, cmap, v, u, c, ht.Length);
    if v != u {
      ghost var r1 := r;
      nedges, r := AddRow(table, g, cmap, auxadj, a, ht, off, u, nedges, cn, r);
      GatherTotal(g, cmap, r1, First(g.csr, u), Last(g.csr, u), all);
      ghost var r2 := r;
      PairKeys(g, cmap, v, u, r1, r2);
      PairOverreadsExactly(g, cmap, v, u, c, ht[..], r2.keys);
      if table != Direct {
        inside, nedges, own := RemoveOwnInside(table == Guarded, a, ht, off, c, nedges, cn, r);
        if !inside {
          return;
        }
      } else {
        nedges, own := RemoveOwnDirect(a, ht, off, c, nedges, cn, r);
      }
      OwnTotal(r2, c, cn, all);
      r := RemoveKey(r2, c);
      RemoveValid(r2, c, cn);
    } else {
      CoveredNow(table, ht[..], r, c, cn);
    }
    CleanTable(table, a, ht, off, c, nedges, cn, r);
  }

  lemma NoPair(g: Graph, cmap: seq<int>, v: int, u: int, c: int, slots: int)
    requires Weighted.Shaped(g) && |cmap| == N(g) && 0 <= v < N(g) && 0 <= u < N(g)
    ensures u == v ==> !PairOverreads(g, cmap, v, u, c, slots)
  {
  }

  lemma CoveredNow(table: Table, ht: seq<int>, r: Row, c: int, cn: int)
    requires HashOk(ht, r.keys) && ValidRow(r, cn) && 0 <= c < cn
    ensures CoveredOrClear(table, ht, r.keys, c)
  {
    hide Slot;
    forall h, extra | 0 <= h < |ht|
      ensures CoveredAt(ht, r.keys, 0, extra, h)
    {
      assert HashAt(ht, r.keys, h);
    }
  }

  lemma EmptyRow(a: Arrays, off: int, cn: int, s: set<int>)
    requires 0 <= off <= a.cadjncy.Length == a.cadjwgt.Length
    ensures a.ShowsRow(off, EMPTY) && ValidRow(EMPTY, cn) && Total(EMPTY, s) == 0
  {
  }

  lemma AllPre(cmap: seq<int>, cn: int)
    requires forall x :: 0 <= x < |cmap| ==> 0 <= cmap[x] < cn
    ensures Pre(cmap, Range(0, cn)) == Range(0, |cmap|)
  {
  }

  lemma OwnTotal(r: Row, c: int, cn: int, s: set<int>)
    requires ValidRow(r, cn) && c in s
    ensures Own(r, c) == Total(r, s) - Total(RemoveKey(r, c), s)
  {
    if c in r.keys {
      RemoveTotal(r, Index(r.keys, c), s);
    }
  }

  // ---------------------------------------------------------------- the whole graph

  /** The stored weight sums are those of the rows. */
  ghost predicate SumsOk(g: Graph, sums: seq<int>)
    requires Weighted.Shaped(g)
  {
    |sums| == N(g) && forall u :: 0 <= u < N(g) ==> sums[u] == Deg(g, u, Range(0, N(g)))
  }

  ghost predicate EarlierClass(cmap: seq<int>, perm: seq<int>, i: int, c: int)
    requires 0 <= i <= |perm| == |cmap| && InRange(perm, |cmap|)
  {
    exists j :: 0 <= j < i && cmap[perm[j]] == c
  }

  /** Classes are numbered 0, 1, ... in the order in which `perm` first meets them, none missing. */
  ghost predicate Numbered(cmap: seq<int>, perm: seq<int>, cn: int) {
    && IsPermutation(perm, |cmap|)
    && (forall i :: 0 <= i < |perm| && cmap[perm[i]] > 0 ==> EarlierClass(cmap, perm, i, cmap[perm[i]] - 1))
    && (forall c :: 0 <= c < cn ==> EarlierClass(cmap, perm, |perm|, c))
  }

  /** The part of the coarse graph below `c`, as stored. */
  ghost predicate BuiltAt(g: Graph, match_: seq<int>, cmap: seq<int>, rep: seq<int>, xadj: seq<int>, adjncy: seq<int>,
                          adjwgt: seq<int>, vwgt: seq<int>, sums: seq<int>, c: int)
    requires WellFormed(g) && Weighted.Shaped(g) && |match_| == |cmap| == N(g) && 0 <= c < |rep| < |xadj| && |rep| <= |vwgt| && |rep| <= |sums|
  {
    && 0 <= rep[c] < N(g) && cmap[rep[c]] == c && 0 <= match_[rep[c]] < N(g)
    && var v, u := rep[c], match_[rep[c]];
    && var r := CoarseRow(g, cmap, v, u, c);
    && 0 <= xadj[c] <= xadj[c + 1] <= |adjncy| == |adjwgt|
    && adjncy[xadj[c]..xadj[c + 1]] == r.keys && adjwgt[xadj[c]..xadj[c + 1]] == r.wgts
    && vwgt[c] == g.vwgt[v] + (if u == v then 0 else g.vwgt[u])
    && |r.keys| == |r.wgts|
    && sums[c] == Total(r, Range(0, |vwgt|))
  }

  ghost predicate Built(g: Graph, match_: seq<int>, cmap: seq<int>, rep: seq<int>, xadj: seq<int>, adjncy: seq<int>,
                        adjwgt: seq<int>, vwgt: seq<int>, sums: seq<int>) {
    && WellFormed(g) && Weighted.Shaped(g) && |match_| == |cmap| == N(g) && |rep| < |xadj| && |rep| <= |vwgt| && |rep| <= |sums|
    && xadj[0] == 0 && xadj[|rep|] == |adjncy| == |adjwgt|
    && forall c :: 0 <= c < |rep| ==> BuiltAt(g, match_, cmap, rep, xadj, adjncy, adjwgt, vwgt, sums, c)
  }

  lemma {:induction false} BuiltGrows(g: Graph, match_: seq<int>, cmap: seq<int>, rep: seq<int>, xadj: seq<int>, adjncy: seq<int>,
                                      adjwgt: seq<int>, vwgt: seq<int>, sums: seq<int>,
                                      v: int, r: Row, xadj': seq<int>, vwgt': seq<int>, sums': seq<int>)
    requires Built(g, match_, cmap, rep, xadj, adjncy, adjwgt, vwgt, sums)
    requires 0 <= v < N(g) && cmap[v] == |rep| && 0 <= match_[v] < N(g) && r == CoarseRow(g, cmap, v, match_[v], |rep|)
    requires |r.keys| == |r.wgts| && |rep| + 1 < |xadj| == |xadj'| && |rep| < |vwgt| == |vwgt'| && |rep| < |sums| == |sums'|
    requires xadj' == xadj[|rep| + 1 := |adjncy| + |r.keys|]
    requires vwgt' == vwgt[|rep| := g.vwgt[v] + if match_[v] == v then 0 else g.vwgt[match_[v]]]
    requires sums' == sums[|rep| := Total(r, Range(0, |vwgt|))]
    ensures Built(g, match_, cmap, rep + [v], xadj', adjncy + r.keys, adjwgt + r.wgts, vwgt', sums')
  {
    hide CoarseRow, Total, WellFormed;
    var rep', adjncy', adjwgt' := rep + [v], adjncy + r.keys, adjwgt + r.wgts;
    forall c | 0 <= c < |rep'|
      ensures BuiltAt(g, match_, cmap, rep', xadj', adjncy', adjwgt', vwgt', sums', c)
    {
      if c < |rep| {
        assert BuiltAt(g, match_, cmap, rep, xadj, adjncy, adjwgt, vwgt, sums, c);
        assert adjncy'[xadj[c]..xadj[c + 1]] == adjncy[xadj[c]..xadj[c + 1]];
        assert adjwgt'[xadj[c]..xadj[c + 1]] == adjwgt[xadj[c]..xadj[c + 1]];
      } else {
        assert adjncy'[|adjncy|..|adjncy| + |r.keys|] == r.keys;
        assert adjwgt'[|adjwgt|..|adjwgt| + |r.keys|] == r.wgts;
      }
    }
  }

  // ---------------------------------------------------------------- room for the lists

  ghost function Degrees(g: Graph): seq<int>
    requires Weighted.Shaped(g)
  {
    seq(N(g), x requires 0 <= x < N(g) => Last(g.csr, x) - First(g.csr, x))
  }

  lemma {:induction false} ClassSumMonotone(vals: seq<int>, cmap: seq<int>, c: int, d: int, k: int)
    requires |vals| == |cmap| && 0 <= k <= |vals| && c <= d && forall x :: 0 <= x < k ==> vals[x] >= 0
    ensures 0 <= ClassSum(vals, cmap, c, k) <= ClassSum(vals, cmap, d, k)
  {
    if k > 0 {
      ClassSumMonotone(vals, cmap, c, d, k - 1);
    }
  }

  lemma {:induction false} DegreesTelescope(g: Graph, cmap: seq<int>, cn: int, k: int)
    requires Weighted.Shaped(g) && |cmap| == N(g) && 0 <= k <= N(g) && forall x :: 0 <= x < N(g) ==> cmap[x] < cn
    ensures ClassSum(Degrees(g), cmap, cn, k) == g.csr.xadj[k] - g.csr.xadj[0]
  {
    if k > 0 {
      DegreesTelescope(g, cmap, cn, k - 1);
    }
  }

  /** The lists of the classes up to `c` fit into as many cells as the fine graph has entries. */
  lemma {:induction false} Room(g: Graph, match_: seq<int>, cmap: seq<int>, cn: int, c: int, v: int)
    requires WellFormed(g) && ValidMatching(N(g), match_, cmap, cn) && 0 <= v < N(g) && cmap[v] == c
    ensures Weighted.Shaped(g) && 0 <= match_[v] < N(g) && |cmap| == N(g) && 0 <= c < cn
    ensures ClassSum(Degrees(g), cmap, c + 1, N(g)) == ClassSum(Degrees(g), cmap, c, N(g))
      + (Last(g.csr, v) - First(g.csr, v)) + (if match_[v] == v then 0 else Last(g.csr, match_[v]) - First(g.csr, match_[v]))
    ensures 0 <= ClassSum(Degrees(g), cmap, c + 1, N(g)) <= |g.adjwgt|
  {
    assert ClassOf(match_, cmap, cn, v);
    forall x | 0 <= x < N(g)
      ensures cmap[x] < cn
    {
      assert ClassOf(match_, cmap, cn, x);
    }
    ClassSumStep(Degrees(g), cmap, c, N(g), v, match_[v]);
    ClassSumMonotone(Degrees(g), cmap, c + 1, cn, N(g));
    DegreesTelescope(g, cmap, cn, N(g));
    assert RowShaped(g.csr, 0) && RowShaped(g.csr, N(g) - 1);
  }

  lemma {:induction false} CoarseRowSize(g: Graph, cmap: seq<int>, v: int, u: int, c: int)
    requires WellFormed(g) && Weighted.Shaped(g) && |cmap| == N(g) && 0 <= v < N(g) && 0 <= u < N(g)
    ensures |CoarseRow(g, cmap, v, u, c).keys| <= (Last(g.csr, v) - First(g.csr, v)) + (if u == v then 0 else Last(g.csr, u) - First(g.csr, u))
  {
    RowEntries(g, v);
    RowEntries(g, u);
  }

  /** In numbering order, a vertex met first at `i` can only open the next class. */
  lemma NextClass(cmap: seq<int>, perm: seq<int>, cn: int, i: int, next: int)
    requires Numbered(cmap, perm, cn) && 0 <= i < |perm|
    requires forall j :: 0 <= j < i ==> cmap[perm[j]] < next
    ensures 0 <= perm[i] < |cmap| && (cmap[perm[i]] <= next || cmap[perm[i]] <= 0)
  {
    if cmap[perm[i]] > 0 {
      assert EarlierClass(cmap, perm, i, cmap[perm[i]] - 1);
    }
  }

  lemma AllClasses(cmap: seq<int>, perm: seq<int>, cn: int, next: int)
    requires Numbered(cmap, perm, cn) && forall j :: 0 <= j < |perm| ==> cmap[perm[j]] < next
    ensures cn <= next || cn <= 0
  {
    if cn > 0 {
      assert EarlierClass(cmap, perm, |perm|, cn - 1);
    }
  }

  lemma MatchingFacts(n: int, match_: seq<int>, cmap: seq<int>, cn: int)
    requires ValidMatching(n, match_, cmap, cn)
    ensures |match_| == |cmap| == n && cn >= 0
    ensures forall x :: 0 <= x < n ==> 0 <= cmap[x] < cn && 0 <= match_[x] < n
  {
    forall x | 0 <= x < n
      ensures 0 <= cmap[x] < cn && 0 <= match_[x] < n
    {
      assert ClassOf(match_, cmap, cn, x);
    }
  }

  lemma GraphFacts(g: Graph)
    requires WellFormed(g)
    ensures Weighted.Shaped(g) && N(g) >= 0
  {
  }

  /** The adjacency lists of the fine graph in terms of coarse vertices. */
  method MapAdjacency(g: Graph, cmap: seq<int>) returns (auxadj: seq<int>)
    requires Weighted.Shaped(g) && |cmap| == N(g)
    ensures AuxOk(g, cmap, auxadj)
  {
    var aux := new int[|g.csr.adjncy|];
    for i := 0 to aux.Length
      invariant forall j :: 0 <= j < i && 0 <= g.csr.adjncy[j] < N(g) ==> aux[j] == cmap[g.csr.adjncy[j]]
    {
      if 0 <= g.csr.adjncy[i] < |cmap| {
        aux[i] := cmap[g.csr.adjncy[i]];
      }
    }
    auxadj := aux[..];
  }

  /** Contracting never reads past a list with the shared table. */
  ghost predicate StaysInside(g: Graph, match_: seq<int>, cmap: seq<int>)
    requires Weighted.Shaped(g) && |match_| == |cmap| == N(g) && forall x :: 0 <= x < N(g) ==> 0 <= match_[x] < N(g)
  {
    forall v :: 0 <= v < N(g) ==> !PairOverreads(g, cmap, v, match_[v], cmap[v], HTLENGTH + 1)
  }

  /** Every pair is joined by an edge. */
  ghost predicate PairsJoined(g: Graph, match_: seq<int>)
    requires Weighted.Shaped(g)
  {
    |match_| == N(g) && forall x :: 0 <= x < N(g) && match_[x] != x ==> match_[x] in Csrs.Row(g.csr, x)
  }

  /** Pairs that are joined have an entry of their own, so they are always found. */
  lemma {:induction false} JoinedStaysInside(g: Graph, match_: seq<int>, cmap: seq<int>, cn: int)
    requires WellFormed(g) && Weighted.Shaped(g) && ValidMatching(N(g), match_, cmap, cn) && PairsJoined(g, match_)
    ensures |match_| == |cmap| == N(g) && forall x :: 0 <= x < N(g) ==> 0 <= match_[x] < N(g)
    ensures StaysInside(g, match_, cmap)
  {
    hide Slot;
    MatchingFacts(N(g), match_, cmap, cn);
    forall v | 0 <= v < N(g)
      ensures !PairOverreads(g, cmap, v, match_[v], cmap[v], HTLENGTH + 1)
    {
      if match_[v] != v {
        JoinedMeets(g, match_, cmap, cn, v);
      }
    }
  }

  /** A pair meets its own class exactly when it is joined. */
  lemma {:induction false} JoinedMeets(g: Graph, match_: seq<int>, cmap: seq<int>, cn: int, v: int)
    requires WellFormed(g) && ValidMatching(N(g), match_, cmap, cn) && 0 <= v < N(g)
    ensures Weighted.Shaped(g) && 0 <= match_[v] < N(g) == |cmap|
    ensures match_[v] in Csrs.Row(g.csr, v) <==> Meets(g, cmap, v, cmap[v])
  {
    assert ClassOf(match_, cmap, cn, v);
    var u := match_[v];
    if u in Csrs.Row(g.csr, v) {
      var i :| 0 <= i < |Csrs.Row(g.csr, v)| && Csrs.Row(g.csr, v)[i] == u;
      var j := First(g.csr, v) + i;
      assert g.csr.adjncy[j] == u && cmap[g.csr.adjncy[j]] == cmap[v];
    }
    if Meets(g, cmap, v, cmap[v]) {
      var j :| First(g.csr, v) <= j < Last(g.csr, v) && 0 <= g.csr.adjncy[j] < N(g) && cmap[g.csr.adjncy[j]] == cmap[v];
      assert GoodRow(g, v) && GoodEntry(g, v, j);
      PartStep(g.csr, v, j);
    }
  }

  /** Every pair has been met through its representative. */
  lemma {:induction false} AllInside(g: Graph, match_: seq<int>, cmap: seq<int>, rep: seq<int>, slots: int)
    requires Weighted.Shaped(g) && ValidMatching(N(g), match_, cmap, |rep|)
    requires |match_| == |cmap| == N(g) && forall x :: 0 <= x < N(g) ==> 0 <= match_[x] < N(g)
    requires forall c :: 0 <= c < |rep| ==> 0 <= rep[c] < N(g) && cmap[rep[c]] == c
    requires forall c :: 0 <= c < |rep| ==> !PairOverreads(g, cmap, rep[c], match_[rep[c]], c, slots)
    ensures forall v :: 0 <= v < N(g) ==> !PairOverreads(g, cmap, v, match_[v], cmap[v], slots)
  {
    hide Slot, Meets;
    forall v | 0 <= v < N(g)
      ensures !PairOverreads(g, cmap, v, match_[v], cmap[v], slots)
    {
      assert ClassOf(match_, cmap, |rep|, v);
      var r := rep[cmap[v]];
      assert ClassOf(match_, cmap, |rep|, r);
      assert !PairOverreads(g, cmap, r, match_[r], cmap[v], slots);
      OtherWayRound(g, cmap, v, match_[v], cmap[v], slots);
    }
  }

  lemma OtherWayRound(g: Graph, cmap: seq<int>, v: int, u: int, c: int, slots: int)
    requires Weighted.Shaped(g) && |cmap| == N(g) && 0 <= v < N(g) && 0 <= u < N(g)
    ensures PairOverreads(g, cmap, v, u, c, slots) <==> PairOverreads(g, cmap, u, v, c, slots)
  {
    hide Slot, Meets;
    assert forall k :: PairMeets(g, cmap, v, u, k) <==> PairMeets(g, cmap, u, v, k);
  }

  /**
   * Builds the coarse graph, as long as the program stays inside its lists: always with the direct
   * table, and with the shared one exactly when no pair is of the kind `PairOverreads` describes. Which
   * table is used makes no difference to the result: every coarse list is the one `CoarseRow`
   * describes, entry for entry.
   */
  method CreateCoarseGraph(g: Graph, adjwgtsum: seq<int>, match_: seq<int>, cmap: seq<int>, perm: seq<int>, cn: int, table: Table)
    returns (inside: bool, cg: Graph, csums: seq<int>, ghost rep: seq<int>)
    requires WellFormed(g) && ValidMatching(N(g), match_, cmap, cn) && Numbered(cmap, perm, cn)
    requires Weighted.Shaped(g) && SumsOk(g, adjwgtsum)
    ensures |match_| == |cmap| == N(g) && forall x :: 0 <= x < N(g) ==> 0 <= match_[x] < N(g)
    ensures inside <==> (table == Masked ==> StaysInside(g, match_, cmap))
    ensures inside ==> IsCoarse(g, match_, cmap, rep, cg) && N(cg) == cn == |csums|
    ensures inside ==> FirstMet(cmap, perm, rep) && Packed(cg)
    ensures inside ==> WellFormed(cg) && Weighted.Shaped(cg) && SumsOk(cg, csums)
  {
    hide WellFormed, ValidMatching, Numbered, Built, BuiltAt, AllEmpty, ValidRow, CoarseRow, Deg, Total, PairOverreads;
    GraphFacts(g);
    MatchingFacts(N(g), match_, cmap, cn);
    var a := new Arrays(cn, |g.csr.adjncy|);
    var auxadj := MapAdjacency(g, cmap);
    var ht := new int[if table != Direct then HTLENGTH + 1 else cn + 1](_ => -1);
    EmptyTable(ht[..]);
    a.cxadj[0] := 0;
    var cnvtxs, cnedges := 0, 0;
    inside, rep, cg, csums := true, [], Graph(Csr([], []), [], []), [];
    NothingBuilt(g, match_, cmap, a.cxadj[..], a.cvwgt[..], a.cadjwgtsum[..]);
    assert a.cadjncy[..0] == [] && a.cadjwgt[..0] == [];
    NoneYet(g, cmap);
    PermutationRange(cmap, perm, cn);
    for i := 0 to |perm|
      invariant FirstMet(cmap, perm, rep)
      invariant 0 <= cnvtxs == |rep| <= cn && 0 <= cnedges <= a.cadjncy.Length
      invariant cnedges <= ClassSum(Degrees(g), cmap, cnvtxs, N(g))
      invariant Built(g, match_, cmap, rep, a.cxadj[..], a.cadjncy[..cnedges], a.cadjwgt[..cnedges], a.cvwgt[..], a.cadjwgtsum[..])
      invariant AllEmpty(ht[..])
      invariant forall c :: 0 <= c < |rep| ==> 0 <= rep[c] < N(g) && cmap[rep[c]] == c
      invariant table == Masked ==> forall c :: 0 <= c < |rep| ==> !PairOverreads(g, cmap, rep[c], match_[rep[c]], c, HTLENGTH + 1)
      invariant forall j :: 0 <= j < i ==> cmap[perm[j]] < cnvtxs
    {
      var v := perm[i];
      NextClass(cmap, perm, cn, i, cnvtxs);
      if cmap[v] == cnvtxs {
        ghost var r;
        MeetsFirst(cmap, perm, rep, i);
        inside, cnedges, r := ContractPair(table, g, adjwgtsum, match_, cmap, auxadj, a, ht, cnedges, v, cnvtxs, cn, rep,
                                   a.cxadj[..], a.cadjncy[..cnedges], a.cadjwgt[..cnedges], a.cvwgt[..], a.cadjwgtsum[..]);
        if !inside {
          return;
        }
        rep := rep + [v];
        cnvtxs := cnvtxs + 1;
      }
    }
    AllClasses(cmap, perm, cn, cnvtxs);
    if table == Masked {
      AllInside(g, match_, cmap, rep, HTLENGTH + 1);
    }
    cg := Graph(Csr(a.cxadj[..], a.cadjncy[..cnedges]), a.cadjwgt[..cnedges], a.cvwgt[..]);
    csums := a.cadjwgtsum[..];
    BuiltIsCoarse(g, match_, cmap, rep, cg, csums);
    CoarseWellFormed(g, match_, cmap, rep, cg);
  }

  lemma {:induction false} BuiltIsCoarse(g: Graph, match_: seq<int>, cmap: seq<int>, rep: seq<int>, cg: Graph, sums: seq<int>)
    requires ValidMatching(N(g), match_, cmap, |rep|) && |cg.vwgt| == |sums| == |rep| == |cg.csr.xadj| - 1
    requires Built(g, match_, cmap, rep, cg.csr.xadj, cg.csr.adjncy, cg.adjwgt, cg.vwgt, sums)
    ensures IsCoarse(g, match_, cmap, rep, cg) && Packed(cg)
    ensures Weighted.Shaped(cg) && SumsOk(cg, sums)
  {
    hide CoarseRow, WellFormed, Total, ClassOf;
    forall c | 0 <= c < |rep|
      ensures RowShaped(cg.csr, c)
    {
      assert BuiltAt(g, match_, cmap, rep, cg.csr.xadj, cg.csr.adjncy, cg.adjwgt, cg.vwgt, sums, c);
    }
    forall c | 0 <= c < |rep|
      ensures CoarseAt(g, match_, cmap, rep, cg, c) && sums[c] == Deg(cg, c, Range(0, N(cg)))
    {
      assert BuiltAt(g, match_, cmap, rep, cg.csr.xadj, cg.csr.adjncy, cg.adjwgt, cg.vwgt, sums, c);
      RowIsDeg(cg, c, CoarseRow(g, cmap, rep[c], match_[rep[c]], c), Range(0, |rep|));
    }
  }

  /** The representative of a class is the vertex `perm` meets first. */
  ghost predicate MetAt(cmap: seq<int>, perm: seq<int>, c: int, v: int, i: int)
    requires InRange(perm, |cmap|)
  {
    0 <= i < |perm| && perm[i] == v && cmap[v] == c && forall j :: 0 <= j < i ==> cmap[perm[j]] != c
  }

  ghost predicate Met(cmap: seq<int>, perm: seq<int>, c: int, v: int)
    requires InRange(perm, |cmap|)
  {
    exists i :: MetAt(cmap, perm, c, v, i)
  }

  ghost predicate FirstMet(cmap: seq<int>, perm: seq<int>, rep: seq<int>) {
    InRange(perm, |cmap|) && forall c :: 0 <= c < |rep| ==> Met(cmap, perm, c, rep[c])
  }

  lemma MeetsFirst(cmap: seq<int>, perm: seq<int>, rep: seq<int>, i: int)
    requires FirstMet(cmap, perm, rep) && 0 <= i < |perm| && cmap[perm[i]] == |rep|
    requires forall j :: 0 <= j < i ==> cmap[perm[j]] < |rep|
    ensures FirstMet(cmap, perm, rep + [perm[i]])
  {
    var rep' := rep + [perm[i]];
    forall c | 0 <= c < |rep'|
      ensures Met(cmap, perm, c, rep'[c])
    {
      if c < |rep| {
        assert Met(cmap, perm, c, rep[c]);
      } else {
        assert MetAt(cmap, perm, c, rep'[c], i);
      }
    }
  }

  /** The lists lie one behind the other from position 0. */
  ghost predicate Packed(cg: Graph) {
    && |cg.csr.xadj| > 0 && cg.csr.xadj[0] == 0
    && cg.csr.xadj[|cg.csr.xadj| - 1] == |cg.csr.adjncy| == |cg.adjwgt| && |cg.vwgt| == N(cg)
  }

  lemma {:induction false} SameRep(cmap: seq<int>, perm: seq<int>, rep: seq<int>, rep': seq<int>)
    requires Distinct(perm) && FirstMet(cmap, perm, rep) && FirstMet(cmap, perm, rep') && |rep| == |rep'|
    ensures rep == rep'
  {
    forall c | 0 <= c < |rep|
      ensures rep[c] == rep'[c]
    {
      assert Met(cmap, perm, c, rep[c]) && Met(cmap, perm, c, rep'[c]);
      var i :| MetAt(cmap, perm, c, rep[c], i);
      var j :| MetAt(cmap, perm, c, rep'[c], j);
      assert i == j;
    }
  }

  lemma {:induction false} SamePrefix(g: Graph, match_: seq<int>, cmap: seq<int>, rep: seq<int>, cg: Graph, cg': Graph, c: int)
    requires IsCoarse(g, match_, cmap, rep, cg) && IsCoarse(g, match_, cmap, rep, cg') && Packed(cg) && Packed(cg')
    requires 0 <= c <= |rep|
    ensures |cg.csr.xadj| == |cg'.csr.xadj| == |rep| + 1
    ensures cg.csr.xadj[..c + 1] == cg'.csr.xadj[..c + 1] && 0 <= cg.csr.xadj[c] <= |cg.csr.adjncy| && cg.csr.xadj[c] <= |cg'.csr.adjncy|
    ensures |cg.adjwgt| == |cg.csr.adjncy| && |cg'.adjwgt| == |cg'.csr.adjncy|
    ensures cg.csr.adjncy[..cg.csr.xadj[c]] == cg'.csr.adjncy[..cg.csr.xadj[c]]
    ensures cg.adjwgt[..cg.csr.xadj[c]] == cg'.adjwgt[..cg.csr.xadj[c]]
    ensures |cg.vwgt| == |cg'.vwgt| == |rep| && cg.vwgt[..c] == cg'.vwgt[..c]
  {
    hide CoarseRow, WellFormed, ClassOf;
    if c > 0 {
      var b := c - 1;
      SamePrefix(g, match_, cmap, rep, cg, cg', b);
      assert CoarseAt(g, match_, cmap, rep, cg, b) && CoarseAt(g, match_, cmap, rep, cg', b);
      var lo, hi, hi' := First(cg.csr, b), Last(cg.csr, b), Last(cg'.csr, b);
      assert lo == cg.csr.xadj[..c][b] == cg'.csr.xadj[..c][b] == First(cg'.csr, b);
      assert |cg.csr.adjncy[lo..hi]| == |cg'.csr.adjncy[lo..hi']|;
      assert cg.csr.adjncy[..hi] == cg.csr.adjncy[..lo] + cg.csr.adjncy[lo..hi];
      assert cg'.csr.adjncy[..hi] == cg'.csr.adjncy[..lo] + cg'.csr.adjncy[lo..hi];
      assert cg.adjwgt[..hi] == cg.adjwgt[..lo] + cg.adjwgt[lo..hi];
      assert cg'.adjwgt[..hi] == cg'.adjwgt[..lo] + cg'.adjwgt[lo..hi];
      assert cg.csr.xadj[..c + 1] == cg.csr.xadj[..c] + [hi] && cg'.csr.xadj[..c + 1] == cg'.csr.xadj[..c] + [hi];
      assert cg.vwgt[..c] == cg.vwgt[..b] + [cg.vwgt[b]] && cg'.vwgt[..c] == cg'.vwgt[..b] + [cg'.vwgt[b]];
    }
  }

  /**
   * The masked hash refines the direct table: two graphs built from the same matching and order,
   * with whatever table, are the same graph with the same lists in the same order.
   */
  lemma {:induction false} TablesAgree(g: Graph, match_: seq<int>, cmap: seq<int>, perm: seq<int>, rep: seq<int>, rep': seq<int>,
                                       cg: Graph, cg': Graph)
    requires Distinct(perm) && FirstMet(cmap, perm, rep) && FirstMet(cmap, perm, rep') && N(cg) == N(cg')
    requires IsCoarse(g, match_, cmap, rep, cg) && Packed(cg)
    requires IsCoarse(g, match_, cmap, rep', cg') && Packed(cg')
    ensures cg == cg'
  {
    hide CoarseAt, WellFormed, ClassOf;
    SameRep(cmap, perm, rep, rep');
    SamePrefix(g, match_, cmap, rep, cg, cg', |rep|);
    var n := cg.csr.xadj[|rep|];
    assert cg.csr.xadj[..|rep| + 1] == cg.csr.xadj && cg'.csr.xadj[..|rep| + 1] == cg'.csr.xadj;
    assert cg.csr.adjncy[..n] == cg.csr.adjncy && cg'.csr.adjncy[..n] == cg'.csr.adjncy;
    assert cg.adjwgt[..n] == cg.adjwgt && cg'.adjwgt[..n] == cg'.adjwgt;
    assert cg.vwgt[..|rep|] == cg.vwgt && cg'.vwgt[..|rep|] == cg'.vwgt;
  }

  lemma EmptyTable(ht: seq<int>)
    requires forall h :: 0 <= h < |ht| ==> ht[h] == -1
    ensures AllEmpty(ht)
  {
  }

  lemma PermutationRange(cmap: seq<int>, perm: seq<int>, cn: int)
    requires Numbered(cmap, perm, cn)
    ensures |perm| == |cmap| && InRange(perm, |cmap|)
  {
  }

  lemma NoneYet(g: Graph, cmap: seq<int>)
    requires Weighted.Shaped(g) && |cmap| == N(g) && forall x :: 0 <= x < N(g) ==> cmap[x] >= 0
    ensures ClassSum(Degrees(g), cmap, 0, N(g)) == 0
  {
    ClassSumNone(Degrees(g), cmap, 0, N(g));
  }

  lemma NothingBuilt(g: Graph, match_: seq<int>, cmap: seq<int>, xadj: seq<int>, vwgt: seq<int>, sums: seq<int>)
    requires WellFormed(g) && Weighted.Shaped(g) && |match_| == |cmap| == N(g) && |xadj| > 0 && xadj[0] == 0
    ensures Built(g, match_, cmap, [], xadj, [], [], vwgt, sums)
  {
  }

  /** Weight, weight sum and end of list of a new coarse vertex. */
  method RecordPair(g: Graph, adjwgtsum: seq<int>, a: Arrays, v: int, u: int, c: int, own: int, cnedges: int)
    requires a.Valid(a.cvwgt.Length, a.cadjncy.Length) && 0 <= c < a.cvwgt.Length
    requires 0 <= v < |g.vwgt| == |adjwgtsum| && 0 <= u < |g.vwgt|
    modifies a.cxadj, a.cvwgt, a.cadjwgtsum
    ensures a.cxadj[..] == old(a.cxadj[..])[c + 1 := cnedges]
    ensures a.cvwgt[..] == old(a.cvwgt[..])[c := g.vwgt[v] + if u == v then 0 else g.vwgt[u]]
    ensures a.cadjwgtsum[..] == old(a.cadjwgtsum[..])[c := adjwgtsum[v] + if u == v then 0 else adjwgtsum[u] - own]
  {
    a.cvwgt[c] := g.vwgt[v];
    a.cadjwgtsum[c] := adjwgtsum[v];
    if v != u {
      a.cvwgt[c] := a.cvwgt[c] + g.vwgt[u];
      a.cadjwgtsum[c] := a.cadjwgtsum[c] + adjwgtsum[u];
      a.cadjwgtsum[c] := a.cadjwgtsum[c] - own;
    }
    a.cxadj[c + 1] := cnedges;
  }

  /** The body of the loop for the first vertex of a class: its list, weight and weight sum. */
  method ContractPair(table: Table, g: Graph, adjwgtsum: seq<int>, match_: seq<int>, cmap: seq<int>, auxadj: seq<int>,
                      a: Arrays, ht: array<int>, cnedges0: int, v: int, c: int, cn: int, ghost rep: seq<int>,
                      ghost x0: seq<int>, ghost adj0: seq<int>, ghost wgt0: seq<int>, ghost vw0: seq<int>, ghost su0: seq<int>)
    returns (inside: bool, cnedges: int, ghost r: Row)
    requires WellFormed(g) && Weighted.Shaped(g) && ValidMatching(N(g), match_, cmap, cn) && |cmap| == N(g) == |match_|
    requires forall x :: 0 <= x < N(g) ==> 0 <= cmap[x] < cn && 0 <= match_[x] < N(g)
    requires SumsOk(g, adjwgtsum)
    requires a.Valid(cn, |g.csr.adjncy|) && AuxOk(g, cmap, auxadj) && ht !in {a.cxadj, a.cvwgt, a.cadjwgtsum, a.cadjncy, a.cadjwgt}
    requires (table != Direct || cn <= ht.Length) && ht.Length > 0 && AllEmpty(ht[..])
    requires 0 <= v < N(g) && cmap[v] == c == |rep| && 0 <= cnedges0 <= ClassSum(Degrees(g), cmap, c, N(g)) && cnedges0 <= a.cadjncy.Length
    requires a.cxadj[..] == x0 && a.cadjncy[..cnedges0] == adj0 && a.cadjwgt[..cnedges0] == wgt0
    requires a.cvwgt[..] == vw0 && a.cadjwgtsum[..] == su0 && Built(g, match_, cmap, rep, x0, adj0, wgt0, vw0, su0)
    modifies a.cxadj, a.cvwgt, a.cadjwgtsum, a.cadjncy, a.cadjwgt, ht
    ensures inside <==> (table == Masked ==> !PairOverreads(g, cmap, v, match_[v], c, ht.Length))
    ensures inside ==> AllEmpty(ht[..]) && 0 <= cnedges <= a.cadjncy.Length && cnedges <= ClassSum(Degrees(g), cmap, c + 1, N(g))
    ensures inside ==> Built(g, match_, cmap, rep + [v], a.cxadj[..], a.cadjncy[..cnedges], a.cadjwgt[..cnedges], a.cvwgt[..], a.cadjwgtsum[..])
  {
    hide WellFormed, ValidMatching, Built, BuiltAt, AllEmpty, ValidRow, CoarseRow, Deg, Total, ClassSum, Weighted.Shaped, SumsOk, PairOverreads;
    GraphFacts(g);
    var u := match_[v];
    Room(g, match_, cmap, cn, c, v);
    CoarseRowSize(g, cmap, v, u, c);
    SumAt(g, adjwgtsum, v);
    SumAt(g, adjwgtsum, u);
    var own;
    inside, cnedges, own, r := AppendRow(table, g, cmap, auxadj, a, ht, cnedges0, v, u, c, cn, adj0, wgt0);
    if !inside {
      return;
    }
    ghost var total := Total(r, Range(0, cn));
    assert total == adjwgtsum[v] + if u == v then 0 else adjwgtsum[u] - own;
    RecordPair(g, adjwgtsum, a, v, u, c, own, cnedges);
    ghost var x1, vw1, su1 := a.cxadj[..], a.cvwgt[..], a.cadjwgtsum[..];
    assert x1 == x0[c + 1 := cnedges];
    assert su1 == su0[c := total];
    RecordedPair(g, match_, cmap, rep, x0, adj0, wgt0, vw0, su0, v, r, x1, vw1, su1, cn, cnedges);
  }

  lemma RecordedPair(g: Graph, match_: seq<int>, cmap: seq<int>, rep: seq<int>, x0: seq<int>, adj0: seq<int>, wgt0: seq<int>,
                     vw0: seq<int>, su0: seq<int>, v: int, r: Row, x1: seq<int>, vw1: seq<int>, su1: seq<int>, cn: int, cnedges: int)
    requires Built(g, match_, cmap, rep, x0, adj0, wgt0, vw0, su0) && |vw0| == |su0| == cn == |x0| - 1 && |rep| < cn
    requires 0 <= v < N(g) && cmap[v] == |rep| && 0 <= match_[v] < N(g) && r == CoarseRow(g, cmap, v, match_[v], |rep|)
    requires ValidRow(r, cn) && cnedges == |adj0| + |r.keys| && x1 == x0[|rep| + 1 := cnedges]
    requires vw1 == vw0[|rep| := g.vwgt[v] + if match_[v] == v then 0 else g.vwgt[match_[v]]]
    requires su1 == su0[|rep| := Total(r, Range(0, cn))]
    ensures Built(g, match_, cmap, rep + [v], x1, adj0 + r.keys, wgt0 + r.wgts, vw1, su1)
  {
    hide CoarseRow, Total, WellFormed, Built;
    RowLengths(r, cn);
    BuiltGrows(g, match_, cmap, rep, x0, adj0, wgt0, vw0, su0, v, r, x1, vw1, su1);
  }

  lemma SumAt(g: Graph, sums: seq<int>, u: int)
    requires Weighted.Shaped(g) && SumsOk(g, sums) && 0 <= u < N(g)
    ensures |sums| == N(g) == |g.vwgt| && sums[u] == Deg(g, u, Range(0, N(g)))
  {
  }

  lemma RowLengths(r: Row, cn: int)
    requires ValidRow(r, cn)
    ensures |r.keys| == |r.wgts|
  {
  }

  /** The new list joins the ones before it. */
  method AppendRow(table: Table, g: Graph, cmap: seq<int>, auxadj: seq<int>, a: Arrays, ht: array<int>, off: int, v: int, u: int,
                   c: int, cn: int, ghost adjncy: seq<int>, ghost adjwgt: seq<int>)
    returns (inside: bool, cnedges: int, own: int, ghost r: Row)
    requires WellFormed(g) && 0 <= v < N(g) && 0 <= u < N(g) && |cmap| == N(g)
    requires Weighted.Shaped(g) && AuxOk(g, cmap, auxadj) && forall x :: 0 <= x < N(g) ==> 0 <= cmap[x] < cn
    requires a.cadjncy != a.cadjwgt && a.cadjncy.Length == a.cadjwgt.Length && ht !in {a.cadjncy, a.cadjwgt}
    requires (table != Direct || cn <= ht.Length) && ht.Length > 0 && AllEmpty(ht[..]) && 0 <= c < cn && 0 <= off
    requires off + (Last(g.csr, v) - First(g.csr, v)) + (if u == v then 0 else Last(g.csr, u) - First(g.csr, u)) <= a.cadjncy.Length
    requires a.cadjncy[..off] == adjncy && a.cadjwgt[..off] == adjwgt
    modifies a.cadjncy, a.cadjwgt, ht
    ensures inside <==> (table == Masked ==> !PairOverreads(g, cmap, v, u, c, ht.Length))
    ensures inside ==> r == CoarseRow(g, cmap, v, u, c) && ValidRow(r, cn) && cnedges == off + |r.keys| <= a.cadjncy.Length
    ensures inside ==> a.cadjncy[..cnedges] == adjncy + r.keys && a.cadjwgt[..cnedges] == adjwgt + r.wgts
    ensures inside ==> AllEmpty(ht[..])
    ensures inside && u == v ==> own == 0
    ensures inside ==> |r.keys| == |r.wgts| && own == Deg(g, v, Range(0, N(g))) + (if u == v then 0 else Deg(g, u, Range(0, N(g)))) - Total(r, Range(0, cn))
  {
    hide WellFormed, AllEmpty, ValidRow, CoarseRow, Deg, Total, AuxOk, Weighted.Shaped, PairOverreads;
    var nedges;
    inside, nedges, own, r := BuildRow(table, g, cmap, auxadj, a, ht, off, v, u, c, cn);
    cnedges := off + nedges;
  }
}
