// Computing the volume and the gains (ComputeVolume, tools/assignment/metis/kwayvolfm.c, and
// ComputeVolKWayPartitionParams and ComputeKWayVolGains, tools/assignment/metis/kwayvolrefine.c).
module VolumeGains {
  import opened Finite
  import opened Csrs
  import opened Weighted
  import opened Kway
  import opened Volume
  import KwayRefine
  import CoarseGraph
  import Boundary

  const MAXIDX: int := 0x4000_0000

  // ---------------------------------------------------------------- the volume, recomputed

  /** The part of Doms met before position `j`. */
  ghost function Met(g: Graph, where: seq<int>, u: int, j: int): (s: set<int>)
    requires WellFormed(g) && Weighted.Shaped(g) && |where| == N(g) && 0 <= u < N(g) && First(g.csr, u) <= j <= Last(g.csr, u)
    ensures j == Last(g.csr, u) ==> s == Doms(g, where, u)
  {
    set i | First(g.csr, u) <= i < j && where[Entry(g, u, i)] != where[u] :: where[Entry(g, u, i)]
  }

  /** One more entry: a part not met before, or nothing new. */
  lemma {:induction false} MetStep(g: Graph, where: seq<int>, u: int, j: int)
    requires WellFormed(g) && Weighted.Shaped(g) && |where| == N(g) && 0 <= u < N(g) && First(g.csr, u) <= j < Last(g.csr, u)
    ensures var q := where[Entry(g, u, j)];
      Met(g, where, u, j + 1) == if q != where[u] then Met(g, where, u, j) + {q} else Met(g, where, u, j)
  {
    var q := where[Entry(g, u, j)];
    var a, b := Met(g, where, u, j), Met(g, where, u, j + 1);
    forall x
      ensures x in b <==> x in a || (x == q && q != where[u])
    {
      if x == q && q != where[u] {
        assert where[Entry(g, u, j)] == x;
      }
    }
  }

  ghost predicate Markers(marker: seq<int>, met: set<int>, me: int, i: int) {
    forall q :: 0 <= q < |marker| ==> marker[q] <= i && (marker[q] == i <==> q == me || q in met)
  }

  method ComputeVolume(g: Graph, vsize: seq<int>, where: seq<int>, nparts: int) returns (totalv: int)
    requires WellFormed(g) && Weighted.Shaped(g) && |where| == |vsize| == N(g)
    requires nparts >= 0 && forall x :: 0 <= x < N(g) ==> 0 <= where[x] < nparts
    ensures totalv == Volume.Volume(g, vsize, where, N(g))
  {
    hide WellFormed, Doms, Met;
    var marker := new int[nparts](_ => -1);
    totalv := 0;
    for i := 0 to N(g)
      invariant totalv == Volume.Volume(g, vsize, where, i)
      invariant forall q :: 0 <= q < nparts ==> marker[q] < i
    {
      marker[where[i]] := i;
      MetNothing(g, where, i);
      for j := First(g.csr, i) to Last(g.csr, i)
        invariant Markers(marker[..], Met(g, where, i, j), where[i], i)
        invariant totalv == Volume.Volume(g, vsize, where, i) + vsize[i] * |Met(g, where, i, j)|
      {
        ghost var x := Entry(g, i, j);
        MetStep(g, where, i, j);
        var k := where[g.csr.adjncy[j]];
        if marker[k] != i {
          marker[k] := i;
          totalv := totalv + vsize[i];
          assert vsize[i] * |Met(g, where, i, j + 1)| == vsize[i] * |Met(g, where, i, j)| + vsize[i];
        }
      }
    }
  }

  lemma MetNothing(g: Graph, where: seq<int>, u: int)
    requires WellFormed(g) && Weighted.Shaped(g) && |where| == N(g) && 0 <= u < N(g)
    ensures Met(g, where, u, First(g.csr, u)) == {}
  {
  }

  // ---------------------------------------------------------------- records with numbers of neighbours

  /** `ed` weight over `ned` entries into part `pid`; moving there gains `gv`. */
  datatype VDegree = VDegree(pid: int, ed: int, ned: int, gv: int)

  /** `nid` counts the internal neighbours. */
  datatype VInfo = VInfo(id: int, ed: int, nid: int, gv: int, degs: seq<VDegree>)

  ghost function Plain(degs: seq<VDegree>): (r: seq<Degree>)
    ensures |r| == |degs|
  {
    seq(|degs|, i requires 0 <= i < |degs| => Degree(degs[i].pid, degs[i].ed))
  }

  ghost predicate NedAt(g: Graph, where: seq<int>, u: int, degs: seq<VDegree>, j: int, i: int)
    requires WellFormed(g) && Weighted.Shaped(g) && |where| == N(g) && 0 <= u < N(g) && First(g.csr, u) <= j <= Last(g.csr, u) && 0 <= i < |degs|
  {
    degs[i].ned == Ned(g, where, u, degs[i].pid, j)
  }

  ghost predicate Neds(g: Graph, where: seq<int>, u: int, degs: seq<VDegree>, j: int)
    requires WellFormed(g) && Weighted.Shaped(g) && |where| == N(g) && 0 <= u < N(g) && First(g.csr, u) <= j <= Last(g.csr, u)
  {
    forall i :: 0 <= i < |degs| ==> NedAt(g, where, u, degs, j, i)
  }

  /** Everything stored about `u`, gains apart, agrees with its recomputation. */
  ghost predicate VInfoAt(g: Graph, where: seq<int>, u: int, v: VInfo)
    requires WellFormed(g) && Weighted.Shaped(g) && |where| == N(g) && 0 <= u < N(g)
  {
    && InfoAt(g, where, u, Info(v.id, v.ed, Plain(v.degs))) && Neds(g, where, u, v.degs, Last(g.csr, u))
    && v.nid == Ned(g, where, u, where[u], Last(g.csr, u))
  }

  ghost predicate Names(degs: seq<VDegree>, q: int) {
    exists i :: 0 <= i < |degs| && degs[i].pid == q
  }

  /** The list names exactly the parts that `u` sends to. */
  lemma {:induction false} NamesDoms(g: Graph, where: seq<int>, u: int, v: VInfo, q: int)
    requires WellFormed(g) && Weighted.Shaped(g) && |where| == N(g) && 0 <= u < N(g) && VInfoAt(g, where, u, v)
    ensures Names(v.degs, q) <==> q in Doms(g, where, u)
    ensures forall i, j :: 0 <= i < |v.degs| && 0 <= j < |v.degs| && v.degs[i].pid == v.degs[j].pid ==> i == j
  {
    hide Ned, Neds, Doms, WellFormed;
    var p := Plain(v.degs);
    DomsMember(g, where, u, q);
    if Names(v.degs, q) {
      var i :| 0 <= i < |v.degs| && v.degs[i].pid == q;
      assert EntryOk(p, where[u], Toward(g, where, u), i);
      SomeNeighbour(g, u, Side(where, q, N(g)));
      var j :| First(g.csr, u) <= j < Last(g.csr, u) && g.csr.adjncy[j] in Side(where, q, N(g));
      assert where[Entry(g, u, j)] == q;
    }
    if q in Doms(g, where, u) {
      var j :| First(g.csr, u) <= j < Last(g.csr, u) && where[Entry(g, u, j)] == q;
      PositiveToward(g, where, u, j);
      assert Has(p, q);
      var i :| 0 <= i < |p| && p[i].pid == q;
      assert v.degs[i].pid == q;
    }
    forall i, j | 0 <= i < |v.degs| && 0 <= j < |v.degs| && v.degs[i].pid == v.degs[j].pid
      ensures i == j
    {
      assert p[i].pid == p[j].pid;
    }
  }

  lemma {:induction false} PositiveToward(g: Graph, where: seq<int>, u: int, j: int)
    requires WellFormed(g) && Weighted.Shaped(g) && |where| == N(g) && 0 <= u < N(g) && First(g.csr, u) <= j < Last(g.csr, u)
    ensures Toward(g, where, u)(where[Entry(g, u, j)]) > 0
  {
    var s := Side(where, where[Entry(g, u, j)], N(g));
    assert GoodRow(g, u) && GoodEntry(g, u, j) && Entry(g, u, j) in s;
    IntoGrows(g, u, j, j, s);
    IntoGrows(g, u, j + 1, Last(g.csr, u), s);
  }

  /** As many entries as parts. */
  lemma {:induction false} ListSize(g: Graph, where: seq<int>, u: int, v: VInfo)
    requires WellFormed(g) && Weighted.Shaped(g) && |where| == N(g) && 0 <= u < N(g) && VInfoAt(g, where, u, v)
    ensures |v.degs| == |Doms(g, where, u)|
  {
    hide VInfoAt, Doms, WellFormed;
    var pids := seq(|v.degs|, i requires 0 <= i < |v.degs| => v.degs[i].pid);
    NamesDoms(g, where, u, v, where[u]);
    DistinctSize(pids);
    forall q
      ensures q in Elements(pids) <==> q in Doms(g, where, u)
    {
      NamesDoms(g, where, u, v, q);
      if Names(v.degs, q) {
        var i :| 0 <= i < |v.degs| && v.degs[i].pid == q;
        assert pids[i] == q;
      }
    }
    assert Elements(pids) == Doms(g, where, u);
  }

  /** No internal degree means no internal neighbour. */
  lemma {:induction false} IdZero(g: Graph, where: seq<int>, u: int)
    requires WellFormed(g) && Weighted.Shaped(g) && |where| == N(g) && 0 <= u < N(g)
    ensures Id(g, where, u) == 0 <==> Ned(g, where, u, where[u], Last(g.csr, u)) == 0
  {
    NedNone(g, where, u, where[u], Last(g.csr, u));
    if Ned(g, where, u, where[u], Last(g.csr, u)) == 0 {
      forall j | First(g.csr, u) <= j < Last(g.csr, u)
        ensures g.csr.adjncy[j] !in Side(where, where[u], N(g))
      {
        var x := Entry(g, u, j);
      }
      IntoEmpty(g, First(g.csr, u), Last(g.csr, u), Side(where, where[u], N(g)));
    } else {
      var j :| First(g.csr, u) <= j < Last(g.csr, u) && where[Entry(g, u, j)] == where[u];
      PositiveToward(g, where, u, j);
    }
  }

  // ---------------------------------------------------------------- the marker table

  ghost predicate TableAt(table: seq<int>, degs: seq<VDegree>, other: int, q: int)
    requires 0 <= q < |table|
  {
    && (table[q] != -1 <==> q == other || Names(degs, q))
    && (table[q] != -1 && q != other ==> 0 <= table[q] < |degs| && degs[table[q]].pid == q)
  }

  ghost predicate Table(table: seq<int>, degs: seq<VDegree>, other: int) {
    forall q :: 0 <= q < |table| ==> TableAt(table, degs, other, q)
  }

  ghost predicate Clear(table: seq<int>) {
    forall q :: 0 <= q < |table| ==> table[q] == -1
  }

  ghost predicate InTable(degs: seq<VDegree>, other: int, n: int) {
    && 0 <= other < n
    && forall i :: 0 <= i < |degs| ==> 0 <= degs[i].pid < n && degs[i].pid != other
  }

  /** Lines 250 to 252. */
  method Mark(degs: seq<VDegree>, other: int, ophtable: array<int>)
    requires Clear(ophtable[..]) && InTable(degs, other, ophtable.Length)
    modifies ophtable
    ensures Table(ophtable[..], degs, other)
  {
    for k := 0 to |degs|
      invariant forall q :: 0 <= q < ophtable.Length ==>
        (ophtable[q] == -1 || (0 <= ophtable[q] < k && degs[ophtable[q]].pid == q))
      invariant forall i :: 0 <= i < k ==> ophtable[degs[i].pid] != -1
    {
      ophtable[degs[k].pid] := k;
    }
    ophtable[other] := 1;
  }

  /** Lines 280 to 282. */
  method Unmark(degs: seq<VDegree>, other: int, ophtable: array<int>)
    requires Table(ophtable[..], degs, other) && InTable(degs, other, ophtable.Length)
    modifies ophtable
    ensures Clear(ophtable[..])
  {
    forall q | 0 <= q < ophtable.Length
      ensures ophtable[q] != -1 ==> q == other || Names(degs, q)
    {
      assert TableAt(ophtable[..], degs, other, q);
    }
    for kk := 0 to |degs|
      invariant forall q :: 0 <= q < ophtable.Length && ophtable[q] != -1 ==> q == other || Names(degs, q)
      invariant forall i :: 0 <= i < kk ==> ophtable[degs[i].pid] == -1
    {
      ophtable[degs[kk].pid] := -1;
    }
    ophtable[other] := -1;
  }

  // ---------------------------------------------------------------- the gains

  /** The gains after the neighbours before position `j` were looked at. */
  ghost predicate GainsAt(g: Graph, vsize: seq<int>, where: seq<int>, v: int, degs0: seq<VDegree>, degs: seq<VDegree>, j: int)
    requires WellFormed(g) && Weighted.Shaped(g) && |where| == |vsize| == N(g) && 0 <= v < N(g) && First(g.csr, v) <= j <= Last(g.csr, v)
  {
    && |degs| == |degs0|
    && forall k :: 0 <= k < |degs| ==> degs[k] == degs0[k].(gv := RowDelta(g, vsize, where, v, degs0[k].pid, j, N(g)))
  }

  /** One neighbour `ii` credits or debits every part of the list (lines 254 to 278). */
  method Credit(g: Graph, vsize: seq<int>, where: seq<int>, v: int, ghost j: int, ii: int, oinfo: VInfo, degs: seq<VDegree>, ghost degs0: seq<VDegree>,
                ophtable: array<int>) returns (degs': seq<VDegree>)
    requires Simple(g) && WellFormed(g) && Weighted.Shaped(g) && |where| == |vsize| == N(g) && 0 <= v < N(g) && First(g.csr, v) <= j < Last(g.csr, v)
    requires ii == Entry(g, v, j) && VInfoAt(g, where, ii, oinfo) && Table(ophtable[..], oinfo.degs, where[ii])
    requires GainsAt(g, vsize, where, v, degs0, degs, j)
    requires forall x :: 0 <= x < N(g) ==> 0 <= where[x] < ophtable.Length
    requires forall k :: 0 <= k < |degs0| ==> 0 <= degs0[k].pid < ophtable.Length && degs0[k].pid != where[v]
    ensures GainsAt(g, vsize, where, v, degs0, degs', j + 1)
  {
    hide WellFormed, Doms, Ned, VInfoAt;
    var me, other := where[v], where[ii];
    degs' := degs;
    var only := false;
    if me != other {
      TableHasMe(g, where, v, j, oinfo, ophtable[..]);
      only := oinfo.degs[ophtable[me]].ned == 1;
    }
    for k := 0 to |degs|
      invariant |degs'| == |degs|
      invariant forall i :: 0 <= i < k ==> degs'[i] == degs0[i].(gv := RowDelta(g, vsize, where, v, degs0[i].pid, j + 1, N(g)))
      invariant forall i :: k <= i < |degs| ==> degs'[i] == degs[i]
    {
      var pid := degs[k].pid;
      TableKnows(g, where, ii, oinfo, ophtable[..], pid);
      var known := ophtable[pid] != -1;
      DeltaCases(g, vsize, where, v, pid, j);
      if only {
        if known {
          degs' := degs'[k := degs[k].(gv := degs[k].gv + vsize[ii])];
        }
      } else {
        if !known {
          degs' := degs'[k := degs[k].(gv := degs[k].gv - vsize[ii])];
        }
      }
    }
  }

  lemma {:induction false} TableHasMe(g: Graph, where: seq<int>, v: int, j: int, oinfo: VInfo, table: seq<int>)
    requires Simple(g) && WellFormed(g) && Weighted.Shaped(g) && |where| == N(g) && 0 <= v < N(g) && First(g.csr, v) <= j < Last(g.csr, v)
    requires var ii := Entry(g, v, j); VInfoAt(g, where, ii, oinfo) && Table(table, oinfo.degs, where[ii]) && where[ii] != where[v]
    requires 0 <= where[v] < |table|
    ensures 0 <= table[where[v]] < |oinfo.degs|
    ensures oinfo.degs[table[where[v]]].ned == Ned(g, where, Entry(g, v, j), where[v], Last(g.csr, Entry(g, v, j)))
  {
    var ii := Entry(g, v, j);
    var x := BackEntry(g, v, j);
    assert where[Entry(g, ii, x)] == where[v];
    DomsMember(g, where, ii, where[v]);
    NamesDoms(g, where, ii, oinfo, where[v]);
    assert TableAt(table, oinfo.degs, where[ii], where[v]);
    assert NedAt(g, where, ii, oinfo.degs, Last(g.csr, ii), table[where[v]]);
  }

  lemma TableKnows(g: Graph, where: seq<int>, ii: int, oinfo: VInfo, table: seq<int>, q: int)
    requires WellFormed(g) && Weighted.Shaped(g) && |where| == N(g) && 0 <= ii < N(g) && VInfoAt(g, where, ii, oinfo)
    requires Table(table, oinfo.degs, where[ii]) && 0 <= q < |table|
    ensures table[q] != -1 <==> q in Doms(g, where, ii) || q == where[ii]
  {
    hide VInfoAt, Doms;
    NamesDoms(g, where, ii, oinfo, q);
    assert TableAt(table, oinfo.degs, where[ii], q);
  }

  lemma DeltaCases(g: Graph, vsize: seq<int>, where: seq<int>, v: int, pid: int, j: int)
    requires WellFormed(g) && Weighted.Shaped(g) && |where| == |vsize| == N(g) && 0 <= v < N(g) && First(g.csr, v) <= j < Last(g.csr, v)
    ensures var ii := Entry(g, v, j); var known := pid in Doms(g, where, ii) || pid == where[ii];
      RowDelta(g, vsize, where, v, pid, j + 1, N(g)) == RowDelta(g, vsize, where, v, pid, j, N(g)) +
        if where[ii] != where[v] && Ned(g, where, ii, where[v], Last(g.csr, ii)) == 1 then (if known then vsize[ii] else 0)
        else (if known then 0 else -vsize[ii])
  {
    hide Doms, Ned, WellFormed;
  }

  /** All neighbours of one vertex (lines 244 to 283). */
  method GainsOf(g: Graph, vsize: seq<int>, where: seq<int>, infos: seq<VInfo>, v: int, ophtable: array<int>) returns (degs: seq<VDegree>)
    requires Simple(g) && WellFormed(g) && Weighted.Shaped(g) && |where| == |vsize| == |infos| == N(g) && 0 <= v < N(g)
    requires forall u :: 0 <= u < N(g) ==> VInfoAt(g, where, u, infos[u])
    requires forall k :: 0 <= k < |infos[v].degs| ==> infos[v].degs[k].gv == 0
    requires Clear(ophtable[..]) && forall x :: 0 <= x < N(g) ==> 0 <= where[x] < ophtable.Length
    modifies ophtable
    ensures GainsAt(g, vsize, where, v, infos[v].degs, degs, Last(g.csr, v)) && Clear(ophtable[..])
  {
    hide WellFormed, VInfoAt, Table, Clear, RowDelta;
    degs := infos[v].degs;
    PartsNamed(g, where, v, infos[v], ophtable.Length);
    NoGainsYet(g, vsize, where, v, degs);
    for j := First(g.csr, v) to Last(g.csr, v)
      invariant GainsAt(g, vsize, where, v, infos[v].degs, degs, j) && Clear(ophtable[..])
    {
      ghost var x := Entry(g, v, j);
      var ii := g.csr.adjncy[j];
      PartsNamed(g, where, ii, infos[ii], ophtable.Length);
      Mark(infos[ii].degs, where[ii], ophtable);
      degs := Credit(g, vsize, where, v, j, ii, infos[ii], degs, infos[v].degs, ophtable);
      Unmark(infos[ii].degs, where[ii], ophtable);
    }
  }

  lemma NoGainsYet(g: Graph, vsize: seq<int>, where: seq<int>, v: int, degs: seq<VDegree>)
    requires WellFormed(g) && Weighted.Shaped(g) && |where| == |vsize| == N(g) && 0 <= v < N(g)
    requires forall k :: 0 <= k < |degs| ==> degs[k].gv == 0
    ensures GainsAt(g, vsize, where, v, degs, degs, First(g.csr, v))
  {
  }

  lemma {:induction false} PartsNamed(g: Graph, where: seq<int>, u: int, v: VInfo, nparts: int)
    requires WellFormed(g) && Weighted.Shaped(g) && |where| == N(g) && 0 <= u < N(g) && VInfoAt(g, where, u, v)
    requires forall x :: 0 <= x < N(g) ==> 0 <= where[x] < nparts
    ensures InTable(v.degs, where[u], nparts)
  {
    hide VInfoAt, Doms, WellFormed;
    forall i | 0 <= i < |v.degs|
      ensures 0 <= v.degs[i].pid < nparts && v.degs[i].pid != where[u]
    {
      NamesDoms(g, where, u, v, v.degs[i].pid);
      assert Names(v.degs, v.degs[i].pid);
      DomsMember(g, where, u, v.degs[i].pid);
    }
  }

  /** What moving `v` to part `k` takes off the volume. */
  ghost function TrueGain(g: Graph, vsize: seq<int>, where: seq<int>, v: int, k: int): int
    requires WellFormed(g) && Weighted.Shaped(g) && |where| == |vsize| == N(g) && 0 <= v < N(g)
  {
    Volume.Volume(g, vsize, where, N(g)) - Volume.Volume(g, vsize, where[v := k], N(g))
  }

  /** The stored gain is exact, up to the size of a vertex that leaves no neighbour behind. */
  ghost predicate GainExact(g: Graph, vsize: seq<int>, where: seq<int>, v: int, info: VInfo, i: int)
    requires WellFormed(g) && Weighted.Shaped(g) && |where| == |vsize| == N(g) && 0 <= v < N(g) && 0 <= i < |info.degs|
  {
    info.degs[i].gv + (if info.id == 0 then vsize[v] else 0) == TrueGain(g, vsize, where, v, info.degs[i].pid)
  }

  lemma {:induction false} GainsExact(g: Graph, vsize: seq<int>, where: seq<int>, v: int, info: VInfo, degs: seq<VDegree>, i: int)
    requires Simple(g) && WellFormed(g) && Weighted.Shaped(g) && |where| == |vsize| == N(g) && 0 <= v < N(g) && VInfoAt(g, where, v, info)
    requires GainsAt(g, vsize, where, v, info.degs, degs, Last(g.csr, v)) && 0 <= i < |degs|
    ensures GainExact(g, vsize, where, v, info.(degs := degs), i)
  {
    var pid := degs[i].pid;
    IdZero(g, where, v);
    assert info.id == Id(g, where, v);
    hide VInfoAt, Doms, WellFormed, Ned, RowDelta;
    assert Names(info.degs, pid);
    NamesDoms(g, where, v, info, pid);
    VolumeAfterMove(g, vsize, where, v, pid, N(g));
  }

  /** Gains do not disturb the rest of a record. */
  lemma {:induction false} GainsKeep(g: Graph, vsize: seq<int>, where: seq<int>, v: int, info: VInfo, degs: seq<VDegree>, gv: int)
    requires WellFormed(g) && Weighted.Shaped(g) && |where| == |vsize| == N(g) && 0 <= v < N(g) && VInfoAt(g, where, v, info)
    requires GainsAt(g, vsize, where, v, info.degs, degs, Last(g.csr, v))
    ensures VInfoAt(g, where, v, info.(degs := degs, gv := gv))
  {
    hide WellFormed, Ned, RowDelta;
    assert Plain(degs) == Plain(info.degs);
    forall i | 0 <= i < |degs|
      ensures NedAt(g, where, v, degs, Last(g.csr, v), i)
    {
      assert NedAt(g, where, v, info.degs, Last(g.csr, v), i);
    }
  }

  /** The best gain, or -MAXIDX for a vertex without one. */
  ghost predicate BestGain(gv: int, degs: seq<VDegree>) {
    && gv >= -MAXIDX && (gv == -MAXIDX || exists k :: 0 <= k < |degs| && degs[k].gv == gv)
    && forall k :: 0 <= k < |degs| ==> degs[k].gv <= gv
  }

  method MaxGain(degs: seq<VDegree>) returns (gv: int)
    ensures BestGain(gv, degs)
  {
    gv := -MAXIDX;
    for k := 0 to |degs|
      invariant gv >= -MAXIDX && (gv == -MAXIDX || exists i :: 0 <= i < k && degs[i].gv == gv)
      invariant forall i :: 0 <= i < k ==> degs[i].gv <= gv
    {
      if degs[k].gv > gv {
        gv := degs[k].gv;
      }
    }
  }

  ghost predicate Gained(g: Graph, vsize: seq<int>, where: seq<int>, v: int, info: VInfo)
    requires WellFormed(g) && Weighted.Shaped(g) && |where| == |vsize| == N(g) && 0 <= v < N(g)
  {
    && VInfoAt(g, where, v, info)
    && (forall i :: 0 <= i < |info.degs| ==> GainExact(g, vsize, where, v, info, i))
    && BestGain(info.gv - (if info.ed > 0 && info.id == 0 then vsize[v] else 0), info.degs)
  }

  /** `bndind[..nbnd]` is a boundary list with `bndptr` as its index. */
  ghost predicate ListShown(bndptr: seq<int>, bndind: seq<int>, nbnd: int) {
    0 <= nbnd <= |bndind| == |bndptr| && Boundary.Valid(Boundary.List(bndptr, bndind[..nbnd]))
  }

  ghost predicate OnBoundary(info: VInfo) {
    info.gv >= 0 || info.ed >= info.id
  }

  lemma EmptyList(bndptr: seq<int>, bndind: seq<int>)
    requires |bndptr| == |bndind| && forall u :: 0 <= u < |bndptr| ==> bndptr[u] == -1
    ensures ListShown(bndptr, bndind, 0)
  {
  }

  method BNDInsert(bndptr: array<int>, bndind: array<int>, nbnd0: int, v: int) returns (nbnd: int)
    requires ListShown(bndptr[..], bndind[..], nbnd0) && 0 <= v < bndptr.Length && bndptr[v] == -1 && bndptr != bndind
    modifies bndptr, bndind
    ensures ListShown(bndptr[..], bndind[..], nbnd) && nbnd == nbnd0 + 1
    ensures forall u :: 0 <= u < bndptr.Length ==> (bndptr[u] != -1 <==> u == v || old(bndptr[u]) != -1)
  {
    ghost var l := Boundary.List(bndptr[..], bndind[..nbnd0]);
    Boundary.InsertValid(l, v);
    bndind[nbnd0] := v;
    bndptr[v] := nbnd0;
    nbnd := nbnd0 + 1;
    assert Boundary.List(bndptr[..], bndind[..nbnd]) == Boundary.Insert(l, v);
  }

  /** The record of one vertex with its gains (lines 234 to 293). */
  method GainRecord(g: Graph, vsize: seq<int>, where: seq<int>, infos: seq<VInfo>, i: int, ophtable: array<int>) returns (info: VInfo)
    requires Simple(g) && WellFormed(g) && Weighted.Shaped(g) && |where| == |vsize| == |infos| == N(g) && 0 <= i < N(g)
    requires forall x :: 0 <= x < N(g) ==> 0 <= where[x] < ophtable.Length
    requires forall u :: 0 <= u < N(g) ==> VInfoAt(g, where, u, infos[u])
    requires (forall k :: 0 <= k < |infos[i].degs| ==> infos[i].degs[k].gv == 0) && Clear(ophtable[..])
    modifies ophtable
    ensures Gained(g, vsize, where, i, info) && VInfoAt(g, where, i, info) && Clear(ophtable[..])
    ensures |info.degs| * vsize[i] == vsize[i] * |Doms(g, where, i)|
  {
    hide WellFormed, VInfoAt, Clear, GainsAt, GainExact, BestGain, Doms;
    info := infos[i];
    var degs := GainsOf(g, vsize, where, infos, i, ophtable);
    ListSize(g, where, i, info);
    SameLength(g, vsize, where, i, info.degs, degs);
    var gv := MaxGain(degs);
    if info.ed > 0 && info.id == 0 {
      gv := gv + vsize[i];
    }
    forall k | 0 <= k < |degs|
      ensures GainExact(g, vsize, where, i, info.(degs := degs, gv := gv), k)
    {
      GainsExact(g, vsize, where, i, info, degs, k);
      SameGain(g, vsize, where, i, info.(degs := degs), gv, k);
    }
    GainsKeep(g, vsize, where, i, info, degs, gv);
    Commute(vsize[i], |degs|);
    info := info.(degs := degs, gv := gv);
  }

  /**
   * Every stored gain is what the move would really take off the volume, and `minvol` is the volume. On
   * the boundary list are exactly the vertices with a gain that costs nothing or with at least as much
   * external as internal degree.
   */
  method ComputeKWayVolGains(g: Graph, vsize: seq<int>, where: seq<int>, infos: array<VInfo>, nparts: int)
    returns (minvol: int, bndptr: array<int>, bndind: array<int>, nbnd: int)
    requires Simple(g) && WellFormed(g) && Weighted.Shaped(g) && |where| == |vsize| == infos.Length == N(g) && nparts >= 0
    requires forall x :: 0 <= x < N(g) ==> 0 <= where[x] < nparts
    requires forall u :: 0 <= u < N(g) ==> VInfoAt(g, where, u, infos[u])
    requires forall u, k :: 0 <= u < N(g) && 0 <= k < |infos[u].degs| ==> infos[u].degs[k].gv == 0
    modifies infos
    ensures minvol == Volume.Volume(g, vsize, where, N(g))
    ensures forall u :: 0 <= u < N(g) ==> Gained(g, vsize, where, u, infos[u])
    ensures fresh(bndptr) && fresh(bndind) && ListShown(bndptr[..], bndind[..], nbnd) && bndptr.Length == N(g)
    ensures forall u :: 0 <= u < N(g) ==> (bndptr[u] != -1 <==> OnBoundary(infos[u]))
  {
    hide WellFormed, VInfoAt, Clear, GainsAt, GainExact, BestGain, Gained, ListShown;
    var ophtable := new int[nparts](_ => -1);
    ClearTable(ophtable[..]);
    minvol, nbnd := 0, 0;
    bndptr := new int[|where|](_ => -1);
    bndind := new int[|where|](_ => 0);
    EmptyList(bndptr[..], bndind[..]);
    for i := 0 to N(g)
      invariant minvol == Volume.Volume(g, vsize, where, i) && Clear(ophtable[..])
      invariant forall u :: 0 <= u < N(g) ==> VInfoAt(g, where, u, infos[u])
      invariant forall u :: 0 <= u < i ==> Gained(g, vsize, where, u, infos[u])
      invariant forall u :: i <= u < N(g) ==> infos[u] == old(infos[u])
      invariant ListShown(bndptr[..], bndind[..], nbnd)
      invariant forall u :: 0 <= u < N(g) ==> (bndptr[u] != -1 <==> u < i && OnBoundary(infos[u]))
    {
      var info := GainRecord(g, vsize, where, infos[..], i, ophtable);
      minvol := minvol + |info.degs| * vsize[i];
      infos[i] := info;
      if infos[i].gv >= 0 || infos[i].ed - infos[i].id >= 0 {
        nbnd := BNDInsert(bndptr, bndind, nbnd, i);
      }
    }
  }

  lemma SameGain(g: Graph, vsize: seq<int>, where: seq<int>, v: int, info: VInfo, gv: int, k: int)
    requires WellFormed(g) && Weighted.Shaped(g) && |where| == |vsize| == N(g) && 0 <= v < N(g) && 0 <= k < |info.degs|
    requires GainExact(g, vsize, where, v, info, k)
    ensures GainExact(g, vsize, where, v, info.(gv := gv), k)
  {
  }

  lemma SameLength(g: Graph, vsize: seq<int>, where: seq<int>, v: int, degs0: seq<VDegree>, degs: seq<VDegree>)
    requires WellFormed(g) && Weighted.Shaped(g) && |where| == |vsize| == N(g) && 0 <= v < N(g) && GainsAt(g, vsize, where, v, degs0, degs, Last(g.csr, v))
    ensures |degs| == |degs0|
  {
  }

  lemma Commute(a: int, b: int)
    ensures a * b == b * a
  {
  }

  lemma ClearTable(table: seq<int>)
    requires forall q :: 0 <= q < |table| ==> table[q] == -1
    ensures Clear(table)
  {
  }

  // ---------------------------------------------------------------- the records, from scratch

  /** An entry found in the list, or a new one. */
  function AddEntry(degs: seq<VDegree>, k: int, other: int, w: int): seq<VDegree>
    requires 0 <= k <= |degs|
  {
    if k == |degs| then degs + [VDegree(other, w, 1, 0)]
    else degs[k := degs[k].(ed := degs[k].ed + w, ned := degs[k].ned + 1)]
  }

  lemma {:induction false} AddEntryPlain(degs: seq<VDegree>, k: int, other: int, w: int)
    requires k == PositionOf(Plain(degs), other)
    ensures Plain(AddEntry(degs, k, other, w)) == Give(Plain(degs), other, w)
  {
    hide PositionOf;
    var a, b := Plain(AddEntry(degs, k, other, w)), Give(Plain(degs), other, w);
    forall i | 0 <= i < |b|
      ensures a[i] == b[i]
    {
    }
  }

  /** A part not in the list has not been met. */
  lemma {:induction false} Unlisted(g: Graph, where: seq<int>, u: int, j: int, degs: seq<Degree>, ed: int, q: int)
    requires WellFormed(g) && Weighted.Shaped(g) && |where| == N(g) && 0 <= u < N(g) && First(g.csr, u) <= j <= Last(g.csr, u)
    requires KwayRefine.Listed(g, where, u, j, degs, ed) && q != where[u] && PositionOf(degs, q) == |degs|
    ensures Ned(g, where, u, q, j) == 0
  {
    assert !Has(degs, q);
    assert KwayRefine.Seen(g, where, u, j)(q) == 0;
    NedNone(g, where, u, q, j);
    forall y | First(g.csr, u) <= y < j
      ensures where[Entry(g, u, y)] != q
    {
      SeenPositive(g, where, u, j, y);
    }
  }

  lemma {:induction false} SeenPositive(g: Graph, where: seq<int>, u: int, j: int, y: int)
    requires WellFormed(g) && Weighted.Shaped(g) && |where| == N(g) && 0 <= u < N(g) && First(g.csr, u) <= y < j <= Last(g.csr, u)
    ensures KwayRefine.Seen(g, where, u, j)(where[Entry(g, u, y)]) > 0
  {
    var s := Side(where, where[Entry(g, u, y)], N(g));
    assert GoodRow(g, u) && GoodEntry(g, u, y) && Entry(g, u, y) in s;
    IntoGrows(g, u, y, y, s);
    IntoGrows(g, u, y + 1, j, s);
  }

  lemma {:induction false} NedsStep(g: Graph, where: seq<int>, u: int, j: int, degs: seq<VDegree>, ed: int, k: int)
    requires WellFormed(g) && Weighted.Shaped(g) && |where| == N(g) && 0 <= u < N(g) && First(g.csr, u) <= j < Last(g.csr, u)
    requires KwayRefine.Listed(g, where, u, j, Plain(degs), ed) && Neds(g, where, u, degs, j)
    requires k == PositionOf(Plain(degs), where[Entry(g, u, j)])
    ensures var other := where[Entry(g, u, j)];
      Neds(g, where, u, if other == where[u] then degs else AddEntry(degs, k, other, g.adjwgt[j]), j + 1)
  {
    hide PositionOf;
    var other := where[Entry(g, u, j)];
    ListsHide(g, where, u, j, Plain(degs), ed);
    var degs' := if other == where[u] then degs else AddEntry(degs, k, other, g.adjwgt[j]);
    if other != where[u] && k == |degs| {
      Unlisted(g, where, u, j, Plain(degs), ed, other);
    }
    hide KwayRefine.Listed;
    var next := j + 1;
    forall i | 0 <= i < |degs'|
      ensures NedAt(g, where, u, degs', next, i)
    {
      if i < |degs| {
        assert NedAt(g, where, u, degs, j, i);
        assert Plain(degs)[i].pid == degs[i].pid;
      }
    }
  }

  lemma ListsHide(g: Graph, where: seq<int>, u: int, j: int, degs: seq<Degree>, ed: int)
    requires Weighted.Shaped(g) && |where| == N(g) && 0 <= u < N(g) && First(g.csr, u) <= j <= Last(g.csr, u)
    requires KwayRefine.Listed(g, where, u, j, degs, ed)
    ensures forall i :: 0 <= i < |degs| ==> degs[i].pid != where[u]
    ensures forall i, l :: 0 <= i < |degs| && 0 <= l < |degs| && degs[i].pid == degs[l].pid ==> i == l
  {
    forall i | 0 <= i < |degs|
      ensures degs[i].pid != where[u]
    {
      assert EntryOk(degs, where[u], KwayRefine.Seen(g, where, u, j), i);
    }
  }

  /** The list of one vertex (lines 175 to 192). */
  method FillVDegrees(g: Graph, where: seq<int>, i: int) returns (degs: seq<VDegree>)
    requires WellFormed(g) && Weighted.Shaped(g) && |where| == N(g) && 0 <= i < N(g)
    ensures KwayRefine.Listed(g, where, i, Last(g.csr, i), Plain(degs), Ed(g, where, i))
    ensures Neds(g, where, i, degs, Last(g.csr, i)) && forall k :: 0 <= k < |degs| ==> degs[k].gv == 0
  {
    hide WellFormed, KwayRefine.Listed, Neds, PositionOf;
    degs := [];
    ghost var ed := 0;
    KwayRefine.NothingListed(g, where, i);
    NoNeds(g, where, i);
    assert Plain(degs) == [];
    for j := First(g.csr, i) to Last(g.csr, i)
      invariant KwayRefine.Listed(g, where, i, j, Plain(degs), ed) && Neds(g, where, i, degs, j)
      invariant forall k :: 0 <= k < |degs| ==> degs[k].gv == 0
    {
      KwayRefine.ListStep(g, where, i, j, Plain(degs), ed);
      var other := where[g.csr.adjncy[j]];
      var k := Scan(degs, other);
      NedsStep(g, where, i, j, degs, ed, k);
      if where[i] != other {
        AddEntryPlain(degs, k, other, g.adjwgt[j]);
        degs, ed := AddEntry(degs, k, other, g.adjwgt[j]), ed + g.adjwgt[j];
      }
    }
    KwayRefine.ListedEd(g, where, i, Plain(degs), ed);
  }

  lemma NoNeds(g: Graph, where: seq<int>, u: int)
    requires WellFormed(g) && Weighted.Shaped(g) && |where| == N(g) && 0 <= u < N(g)
    ensures Neds(g, where, u, [], First(g.csr, u))
  {
  }

  method Scan(degs: seq<VDegree>, q: int) returns (k: int)
    ensures k == PositionOf(Plain(degs), q)
  {
    k := 0;
    while k < |degs|
      invariant 0 <= k <= |degs| && forall i :: 0 <= i < k ==> degs[i].pid != q
    {
      if degs[k].pid == q {
        break;
      }
      k := k + 1;
    }
    var p := Plain(degs);
    assert forall i :: 0 <= i < |degs| ==> p[i].pid == degs[i].pid;
  }

  method InternalDegree(g: Graph, where: seq<int>, i: int) returns (id: int, nid: int)
    requires WellFormed(g) && Weighted.Shaped(g) && |where| == N(g) && 0 <= i < N(g)
    ensures id == Id(g, where, i) && nid == Ned(g, where, i, where[i], Last(g.csr, i))
  {
    id, nid := 0, 0;
    for j := First(g.csr, i) to Last(g.csr, i)
      invariant id == Into(g, First(g.csr, i), j, Side(where, where[i], N(g)))
      invariant nid == Ned(g, where, i, where[i], j)
    {
      assert GoodRow(g, i) && GoodEntry(g, i, j);
      if where[i] == where[g.csr.adjncy[j]] {
        id := id + g.adjwgt[j];
        nid := nid + 1;
      }
    }
  }

  /** The record of one vertex: exact, with gains still 0. */
  method VRecord(g: Graph, adjwgtsum: seq<int>, where: seq<int>, i: int) returns (info: VInfo)
    requires WellFormed(g) && Weighted.Shaped(g) && CoarseGraph.SumsOk(g, adjwgtsum) && |where| == N(g) && 0 <= i < N(g)
    ensures VInfoAt(g, where, i, info) && info.ed == Ed(g, where, i) && forall k :: 0 <= k < |info.degs| ==> info.degs[k].gv == 0
  {
    hide WellFormed, KwayRefine.Listed, InfoAt;
    var id, nid := InternalDegree(g, where, i);
    KwayRefine.SumAt(g, adjwgtsum, i);
    EdPlusId(g, where, i);
    info := VInfo(id, adjwgtsum[i] - id, nid, 0, []);
    if info.ed > 0 {
      var degs := FillVDegrees(g, where, i);
      KwayRefine.ListDone(g, where, i, Plain(degs), info.ed, adjwgtsum[i]);
      info := info.(degs := degs);
    } else {
      DegNonNegative(g, i, Others(where, where[i]));
      KwayRefine.InteriorInfo(g, where, i, adjwgtsum[i]);
      assert Plain([]) == [];
    }
  }

  /** Records, part weights, cut, volume and gains, all computed from the partition alone. */
  method ComputeVolKWayPartitionParams(g: Graph, adjwgtsum: seq<int>, vsize: seq<int>, where: seq<int>, nparts: int)
    returns (infos: array<VInfo>, pwgts: array<int>, mincut: int, minvol: int,
             bndptr: array<int>, bndind: array<int>, nbnd: int)
    requires Simple(g) && WellFormed(g) && Weighted.Shaped(g) && CoarseGraph.SumsOk(g, adjwgtsum) && |where| == |vsize| == N(g) && nparts >= 0
    requires forall x :: 0 <= x < N(g) ==> 0 <= where[x] < nparts
    ensures infos.Length == N(g) && pwgts.Length == nparts && mincut == Cut(g, where) && minvol == Volume.Volume(g, vsize, where, N(g))
    ensures forall p :: 0 <= p < nparts ==> pwgts[p] == PartWeight(g, where, p, N(g))
    ensures forall u :: 0 <= u < N(g) ==> Gained(g, vsize, where, u, infos[u])
    ensures ListShown(bndptr[..], bndind[..], nbnd) && bndptr.Length == N(g)
    ensures forall u :: 0 <= u < N(g) ==> (bndptr[u] != -1 <==> OnBoundary(infos[u]))
  {
    hide WellFormed, VInfoAt, Gained, Simple, ListShown, OnBoundary;
    infos := new VInfo[|where|](_ => VInfo(0, 0, 0, 0, []));
    pwgts := new int[nparts](_ => 0);
    mincut := 0;
    for i := 0 to N(g)
      invariant forall u :: 0 <= u < i ==> VInfoAt(g, where, u, infos[u]) && forall k :: 0 <= k < |infos[u].degs| ==> infos[u].degs[k].gv == 0
      invariant forall p :: 0 <= p < nparts ==> pwgts[p] == PartWeight(g, where, p, i)
      invariant mincut == EdSum(g, where, i)
    {
      pwgts[where[i]] := pwgts[where[i]] + g.vwgt[i];
      infos[i] := VRecord(g, adjwgtsum, where, i);
      mincut := mincut + infos[i].ed;
    }
    mincut := mincut / 2;
    minvol, bndptr, bndind, nbnd := ComputeKWayVolGains(g, vsize, where, infos, nparts);
  }
}
