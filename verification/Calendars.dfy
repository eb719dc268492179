// What must hold of the packets in the scheduling calendar, and how each step of the clock keeps it
// (emulate_nexthop and hopclock, emulator/freebsd6.4/module/ip_modelnet.c).
module Calendars {
  import opened Hops
  import opened Links

  const SCHEDLEN: int := 16384

  /**
   * A packet on its way along `path`, before the hop numbered `hop`. `id` counts arrivals; `due` is the
   * tick computed for its next dispatch, of which the calendar keeps only the slot.
   */
  datatype Packet = Packet(id: int, len: int, path: seq<int>, hop: int, due: int)

  datatype Dispatch = Dispatch(pkt: Packet, tick: int)

  /** calendar_tick & SCHEDMASK. */
  function SlotIndex(t: int): (s: int)
    ensures 0 <= s < SCHEDLEN
  {
    t % SCHEDLEN
  }

  lemma SameSlot(a: int, b: int)
    requires SlotIndex(a) == SlotIndex(b) && -SCHEDLEN < a - b < SCHEDLEN
    ensures a == b
  {
  }

  /** The first tick from `now` on at which the clock looks into the slot of `due`. */
  function NextVisit(now: int, due: int): int {
    now + (due - now) % SCHEDLEN
  }

  /** A packet is taken out exactly when it is due if and only if that lies within one turn of the calendar. */
  lemma OneTurn(now: int, due: int, t: int)
    requires now <= due
    ensures SlotIndex(NextVisit(now, due)) == SlotIndex(due)
    ensures now <= t < NextVisit(now, due) ==> SlotIndex(t) != SlotIndex(due)
    ensures NextVisit(now, due) == due <==> due < now + SCHEDLEN
  {
    var v := NextVisit(now, due);
    var k := (due - now) / SCHEDLEN;
    assert due == v + k * SCHEDLEN;
    if now <= t < v && SlotIndex(t) == SlotIndex(due) {
      SameSlot(t, v);
    }
  }

  // ---------------------------------------------------------------- what holds of the packets

  ghost predicate RouteAt(cs: seq<Config>, path: seq<int>, len: int, k: int)
    requires 0 <= k < |path|
  {
    0 <= path[k] < |cs| && len <= cs[path[k]].mtu
  }

  ghost predicate RouteOk(cs: seq<Config>, path: seq<int>, len: int) {
    0 <= len && forall k :: 0 <= k < |path| ==> RouteAt(cs, path, len, k)
  }

  /** No packet can be sent further ahead than the calendar reaches. */
  ghost predicate WithinHorizon(cs: seq<Config>) {
    forall h :: 0 <= h < |cs| ==> ConfigOk(cs[h]) && cs[h].qsize * Slowest(cs[h]) + cs[h].delay < SCHEDLEN
  }

  /** A packet waiting in slot `s`: it has crossed a hop, whose latest exit is no earlier than its own. */
  ghost predicate PacketOk(cs: seq<Config>, links: seq<Link>, now: int, seen: int, s: int, p: Packet) {
    && 0 <= p.id < seen && 0 < p.hop <= |p.path| && RouteOk(cs, p.path, p.len)
    && SlotIndex(p.due) == s && now <= p.due < now + SCHEDLEN
    && |links| == |cs| && RouteAt(cs, p.path, p.len, p.hop - 1)
    && p.due - cs[p.path[p.hop - 1]].delay <= links[p.path[p.hop - 1]].last
  }

  ghost predicate PlaceOk(cs: seq<Config>, links: seq<Link>, cal: seq<seq<Packet>>, now: int, seen: int, s: int, i: int)
    requires 0 <= s < |cal| && 0 <= i < |cal[s]|
  {
    PacketOk(cs, links, now, seen, s, cal[s][i])
  }

  /** Of two packets on the same route the earlier arrival is ahead: further on, or due before, or queued before. */
  ghost predicate Ahead(a: Packet, s: int, i: int, b: Packet, t: int, j: int) {
    a.hop > b.hop || (a.hop == b.hop && (a.due < b.due || (a.due == b.due && s == t && i < j)))
  }

  ghost predicate PairOk(cal: seq<seq<Packet>>, s: int, i: int, t: int, j: int)
    requires 0 <= s < |cal| && 0 <= i < |cal[s]| && 0 <= t < |cal| && 0 <= j < |cal[t]|
  {
    cal[s][i].path == cal[t][j].path && (s != t || i != j) ==>
      cal[s][i].id != cal[t][j].id && (cal[s][i].id < cal[t][j].id ==> Ahead(cal[s][i], s, i, cal[t][j], t, j))
  }

  ghost predicate PlacesOk(cs: seq<Config>, links: seq<Link>, cal: seq<seq<Packet>>, now: int, seen: int) {
    |cal| == SCHEDLEN && forall s, i :: 0 <= s < |cal| && 0 <= i < |cal[s]| ==> PlaceOk(cs, links, cal, now, seen, s, i)
  }

  ghost predicate Ordered(cal: seq<seq<Packet>>) {
    forall s, i, t, j :: 0 <= s < |cal| && 0 <= i < |cal[s]| && 0 <= t < |cal| && 0 <= j < |cal[t]| ==> PairOk(cal, s, i, t, j)
  }

  ghost predicate AfterAt(cal: seq<seq<Packet>>, out: seq<Packet>, k: int, s: int, i: int)
    requires 0 <= k < |out| && 0 <= s < |cal| && 0 <= i < |cal[s]|
  {
    out[k].path == cal[s][i].path ==> out[k].id < cal[s][i].id
  }

  /** Packets that took the same route came out in the order in which they arrived. */
  ghost predicate InOrder(out: seq<Packet>) {
    forall i, j :: 0 <= i < j < |out| && out[i].path == out[j].path ==> out[i].id < out[j].id
  }

  ghost predicate Delivered(cal: seq<seq<Packet>>, out: seq<Packet>) {
    && InOrder(out)
    && forall k, s, i :: 0 <= k < |out| && 0 <= s < |cal| && 0 <= i < |cal[s]| ==> AfterAt(cal, out, k, s, i)
  }

  ghost predicate CalendarOk(cs: seq<Config>, links: seq<Link>, cal: seq<seq<Packet>>, now: int, seen: int, out: seq<Packet>) {
    PlacesOk(cs, links, cal, now, seen) && Ordered(cal) && Delivered(cal, out)
  }

  /** How the packet taken in hand stands to those in the calendar. */
  ghost predicate FitsAt(cal: seq<seq<Packet>>, p: Packet, s: int, i: int)
    requires 0 <= s < |cal| && 0 <= i < |cal[s]|
  {
    var x := cal[s][i];
    x.path == p.path ==> x.id != p.id && (x.id < p.id ==> x.hop > p.hop) && (x.id > p.id ==> x.hop <= p.hop)
  }

  ghost predicate InHand(cs: seq<Config>, cal: seq<seq<Packet>>, seen: int, out: seq<Packet>, p: Packet) {
    && 0 <= p.id < seen && 0 <= p.hop <= |p.path| && RouteOk(cs, p.path, p.len)
    && (forall s, i :: 0 <= s < |cal| && 0 <= i < |cal[s]| ==> FitsAt(cal, p, s, i))
    && (forall k :: 0 <= k < |out| && out[k].path == p.path ==> out[k].id < p.id)
  }

  // ---------------------------------------------------------------- the steps

  function TakeHead(cal: seq<seq<Packet>>, s: int): seq<seq<Packet>>
    requires 0 <= s < |cal| && cal[s] != []
  {
    cal[s := cal[s][1..]]
  }

  function Put(cal: seq<seq<Packet>>, p: Packet): seq<seq<Packet>>
    requires |cal| == SCHEDLEN
  {
    cal[SlotIndex(p.due) := cal[SlotIndex(p.due)] + [p]]
  }

  /** Where a packet stood before the head of slot `s` was taken. */
  ghost function Was(s: int, t: int, i: int): int {
    if t == s then i + 1 else i
  }

  /** The head of the current slot is due now, and everything left fits behind or ahead of it. */
  lemma {:induction false} TakeHeadOk(cs: seq<Config>, links: seq<Link>, cal: seq<seq<Packet>>, now: int, seen: int, out: seq<Packet>, s: int)
    requires CalendarOk(cs, links, cal, now, seen, out) && s == SlotIndex(now) && cal[s] != []
    ensures cal[s][0].due == now
    ensures CalendarOk(cs, links, TakeHead(cal, s), now, seen, out) && InHand(cs, TakeHead(cal, s), seen, out, cal[s][0])
  {
    hide RouteOk, RouteAt;
    var p := cal[s][0];
    assert PlaceOk(cs, links, cal, now, seen, s, 0);
    SameSlot(p.due, now);
    var cal' := TakeHead(cal, s);
    forall t, i | 0 <= t < |cal'| && 0 <= i < |cal'[t]|
      ensures PlaceOk(cs, links, cal', now, seen, t, i) && FitsAt(cal', p, t, i)
    {
      assert cal'[t][i] == cal[t][Was(s, t, i)];
      assert PlaceOk(cs, links, cal, now, seen, t, Was(s, t, i));
      assert PairOk(cal, s, 0, t, Was(s, t, i)) && PairOk(cal, t, Was(s, t, i), s, 0);
    }
    forall t, i, u, j | 0 <= t < |cal'| && 0 <= i < |cal'[t]| && 0 <= u < |cal'| && 0 <= j < |cal'[u]|
      ensures PairOk(cal', t, i, u, j)
    {
      assert PairOk(cal, t, Was(s, t, i), u, Was(s, u, j));
    }
    forall k, t, i | 0 <= k < |out| && 0 <= t < |cal'| && 0 <= i < |cal'[t]|
      ensures AfterAt(cal', out, k, t, i)
    {
      assert AfterAt(cal, out, k, t, Was(s, t, i));
    }
    forall k | 0 <= k < |out| && out[k].path == p.path
      ensures out[k].id < p.id
    {
      assert AfterAt(cal, out, k, s, 0);
    }
  }

  /** A packet in hand that has crossed its next hop goes back into the calendar. */
  lemma {:induction false} PutOk(cs: seq<Config>, links: seq<Link>, cal: seq<seq<Packet>>, now: int, seen: int, out: seq<Packet>, p: Packet, exit: int)
    requires CalendarOk(cs, links, cal, now, seen, out) && InHand(cs, cal, seen, out, p) && p.hop < |p.path| && |links| == |cs|
    requires RouteAt(cs, p.path, p.len, p.hop) && exit == links[p.path[p.hop]].last && now <= exit
    requires var delay := cs[p.path[p.hop]].delay; delay >= 0 && exit + delay < now + SCHEDLEN
    ensures CalendarOk(cs, links, Put(cal, p.(hop := p.hop + 1, due := exit + cs[p.path[p.hop]].delay)), now, seen, out)
  {
    hide RouteOk, SlotIndex;
    var q := p.(hop := p.hop + 1, due := exit + cs[p.path[p.hop]].delay);
    var cal' := Put(cal, q);
    var s, n := SlotIndex(q.due), |cal[SlotIndex(q.due)]|;
    forall t, i | 0 <= t < |cal'| && 0 <= i < |cal'[t]|
      ensures PlaceOk(cs, links, cal', now, seen, t, i)
    {
      if t != s || i != n {
        assert PlaceOk(cs, links, cal, now, seen, t, i);
      }
    }
    forall t, i, u, j | 0 <= t < |cal'| && 0 <= i < |cal'[t]| && 0 <= u < |cal'| && 0 <= j < |cal'[u]|
      ensures PairOk(cal', t, i, u, j)
    {
      if t == s && i == n {
        if u != s || j != n {
          PutPair(cs, links, cal, now, seen, out, p, exit, u, j);
        }
      } else if u == s && j == n {
        PutPair(cs, links, cal, now, seen, out, p, exit, t, i);
      } else {
        assert PairOk(cal, t, i, u, j);
      }
    }
    forall k, t, i | 0 <= k < |out| && 0 <= t < |cal'| && 0 <= i < |cal'[t]|
      ensures AfterAt(cal', out, k, t, i)
    {
      if !(t == s && i == n) {
        assert AfterAt(cal, out, k, t, i);
      }
    }
  }

  /** The packet put back against one that was there. */
  lemma {:induction false} PutPair(cs: seq<Config>, links: seq<Link>, cal: seq<seq<Packet>>, now: int, seen: int, out: seq<Packet>, p: Packet,
                                   exit: int, t: int, i: int)
    requires PlacesOk(cs, links, cal, now, seen) && InHand(cs, cal, seen, out, p) && p.hop < |p.path| && |links| == |cs|
    requires RouteAt(cs, p.path, p.len, p.hop) && exit == links[p.path[p.hop]].last
    requires 0 <= t < |cal| && 0 <= i < |cal[t]|
    ensures var q := p.(hop := p.hop + 1, due := exit + cs[p.path[p.hop]].delay); var s := SlotIndex(q.due); var n := |cal[s]|;
      PairOk(Put(cal, q), t, i, s, n) && PairOk(Put(cal, q), s, n, t, i)
  {
    hide RouteOk, SlotIndex;
    var x := cal[t][i];
    assert PlaceOk(cs, links, cal, now, seen, t, i) && FitsAt(cal, p, t, i);
    var q := p.(hop := p.hop + 1, due := exit + cs[p.path[p.hop]].delay);
    assert Put(cal, q)[t][i] == x;
    if x.path == q.path && x.id < q.id && x.hop == q.hop {
      assert x.due <= q.due;
    }
  }

  /** A packet at the end of its route leaves behind all earlier ones of that route. */
  lemma {:induction false} DeliverOk(cs: seq<Config>, links: seq<Link>, cal: seq<seq<Packet>>, now: int, seen: int, out: seq<Packet>, p: Packet)
    requires CalendarOk(cs, links, cal, now, seen, out) && InHand(cs, cal, seen, out, p) && p.hop == |p.path|
    ensures CalendarOk(cs, links, cal, now, seen, out + [p])
  {
    var out' := out + [p];
    forall k, s, i | 0 <= k < |out'| && 0 <= s < |cal| && 0 <= i < |cal[s]|
      ensures AfterAt(cal, out', k, s, i)
    {
      if k < |out| {
        assert AfterAt(cal, out, k, s, i);
      } else {
        assert PlaceOk(cs, links, cal, now, seen, s, i) && FitsAt(cal, p, s, i);
      }
    }
  }

  /** Later exits of the links, more arrivals: the calendar stays in order. */
  lemma {:induction false} GrowOk(cs: seq<Config>, links: seq<Link>, links': seq<Link>, cal: seq<seq<Packet>>, now: int, seen: int, seen': int,
                                  out: seq<Packet>)
    requires CalendarOk(cs, links, cal, now, seen, out) && seen <= seen' && |links| == |links'| == |cs|
    requires forall h :: 0 <= h < |links| ==> links[h].last <= links'[h].last
    ensures CalendarOk(cs, links', cal, now, seen', out)
  {
    hide RouteOk, SlotIndex;
    forall s, i | 0 <= s < |cal| && 0 <= i < |cal[s]|
      ensures PlaceOk(cs, links', cal, now, seen', s, i)
    {
      assert PlaceOk(cs, links, cal, now, seen, s, i);
    }
  }

  /** When the current slot is empty nothing is due any more, and the clock can tick. */
  lemma {:induction false} TickOk(cs: seq<Config>, links: seq<Link>, cal: seq<seq<Packet>>, now: int, seen: int, out: seq<Packet>)
    requires CalendarOk(cs, links, cal, now, seen, out) && cal[SlotIndex(now)] == []
    ensures CalendarOk(cs, links, cal, now + 1, seen, out)
  {
    hide RouteOk;
    var next := now + 1;
    forall s, i | 0 <= s < |cal| && 0 <= i < |cal[s]|
      ensures PlaceOk(cs, links, cal, next, seen, s, i)
    {
      assert PlaceOk(cs, links, cal, now, seen, s, i);
      assert cal[s][i].due != now;
    }
  }

  /** An arrival is behind everything of its route. */
  lemma {:induction false} ArriveOk(cs: seq<Config>, links: seq<Link>, cal: seq<seq<Packet>>, now: int, seen: int, out: seq<Packet>, p: Packet)
    requires CalendarOk(cs, links, cal, now, seen, out) && |links| == |cs| && p.id == seen >= 0 && p.hop == 0 && RouteOk(cs, p.path, p.len)
    requires forall k :: 0 <= k < |out| ==> out[k].id < seen
    ensures CalendarOk(cs, links, cal, now, seen + 1, out) && InHand(cs, cal, seen + 1, out, p)
  {
    GrowOk(cs, links, links, cal, now, seen, seen + 1, out);
    forall s, i | 0 <= s < |cal| && 0 <= i < |cal[s]|
      ensures FitsAt(cal, p, s, i)
    {
      assert PlaceOk(cs, links, cal, now, seen, s, i);
    }
  }

  // ---------------------------------------------------------------- conservation

  /** All packets of the first `k` slots. */
  ghost function Flat(cal: seq<seq<Packet>>, k: int): multiset<Packet>
    requires 0 <= k <= |cal|
  {
    if k == 0 then multiset{} else Flat(cal, k - 1) + multiset(cal[k - 1])
  }

  ghost function All(cal: seq<seq<Packet>>): multiset<Packet> {
    Flat(cal, |cal|)
  }

  lemma {:induction false} FlatUpdate(cal: seq<seq<Packet>>, s: int, l: seq<Packet>, k: int)
    requires 0 <= s < |cal| && 0 <= k <= |cal|
    ensures s >= k ==> Flat(cal[s := l], k) == Flat(cal, k)
    ensures s < k ==> Flat(cal[s := l], k) + multiset(cal[s]) == Flat(cal, k) + multiset(l)
  {
    if k > 0 {
      FlatUpdate(cal, s, l, k - 1);
      if s < k - 1 {
        assert Flat(cal[s := l], k) + multiset(cal[s]) == Flat(cal[s := l], k - 1) + multiset(cal[s]) + multiset(cal[k - 1]);
      }
    }
  }

  lemma {:induction false} TakeHeadAll(cal: seq<seq<Packet>>, s: int)
    requires 0 <= s < |cal| && cal[s] != []
    ensures All(cal) == All(TakeHead(cal, s)) + multiset{cal[s][0]}
  {
    FlatUpdate(cal, s, cal[s][1..], |cal|);
    assert cal[s] == [cal[s][0]] + cal[s][1..];
    assert multiset(cal[s]) == multiset{cal[s][0]} + multiset(cal[s][1..]);
    assert All(cal) + multiset(cal[s][1..]) == (All(TakeHead(cal, s)) + multiset{cal[s][0]}) + multiset(cal[s][1..]);
    Cancel(All(cal), All(TakeHead(cal, s)) + multiset{cal[s][0]}, multiset(cal[s][1..]));
  }

  lemma Cancel(a: multiset<Packet>, b: multiset<Packet>, c: multiset<Packet>)
    requires a + c == b + c
    ensures a == b
  {
    assert a == (a + c) - c && b == (b + c) - c;
  }

  lemma {:induction false} PutAll(cal: seq<seq<Packet>>, p: Packet)
    requires |cal| == SCHEDLEN
    ensures All(Put(cal, p)) == All(cal) + multiset{p}
  {
    var l := cal[SlotIndex(p.due)];
    FlatUpdate(cal, SlotIndex(p.due), l + [p], |cal|);
    assert multiset(l + [p]) == multiset{p} + multiset(l);
    Cancel(All(Put(cal, p)), All(cal) + multiset{p}, multiset(l));
  }

  ghost function Packets(gone: seq<Dispatch>): multiset<Packet> {
    if gone == [] then multiset{} else Packets(gone[..|gone| - 1]) + multiset{gone[|gone| - 1].pkt}
  }

  lemma PacketsAppend(gone: seq<Dispatch>, d: Dispatch)
    ensures Packets(gone + [d]) == Packets(gone) + multiset{d.pkt}
  {
    assert (gone + [d])[..|gone + [d]| - 1] == gone;
  }

  /** Every dispatch was at the tick the packet was due. */
  ghost predicate OnTime(gone: seq<Dispatch>) {
    forall k :: 0 <= k < |gone| ==> gone[k].pkt.due == gone[k].tick
  }

  // ---------------------------------------------------------------- why draining a slot ends

  function Remaining(p: Packet): int {
    |p.path| - p.hop
  }

  ghost function Work(l: seq<Packet>): int {
    if l == [] then 0 else Remaining(l[0]) + 1 + Work(l[1..])
  }

  lemma {:induction false} WorkAppend(l: seq<Packet>, p: Packet)
    ensures Work(l + [p]) == Work(l) + Remaining(p) + 1
  {
    if l != [] {
      assert (l + [p])[1..] == l[1..] + [p];
      WorkAppend(l[1..], p);
    }
  }

  lemma {:induction false} WorkNonNegative(l: seq<Packet>)
    requires forall i :: 0 <= i < |l| ==> l[i].hop <= |l[i].path|
    ensures Work(l) >= 0
  {
    if l != [] {
      WorkNonNegative(l[1..]);
    }
  }
}
