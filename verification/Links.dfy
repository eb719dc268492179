// The bandwidth queue of a link, first as a list of exit ticks, then as the ring that stores it.
module Links {
  import opened Hops

  /**
   * `slots` are the queued packets, `last` the exit tick of the latest packet ever queued, `busy` the
   * lengths queued since the queue was last found empty, at tick `start`.
   */
  datatype Link = Link(slots: seq<Slot>, fragment: int, last: int, start: int, busy: seq<int>)

  ghost function Idle(): Link {
    Link([], 0, -1, 0, [])
  }

  /** The packets still on the link at tick `now`. */
  function Expire(slots: seq<Slot>, now: int): seq<Slot> {
    if slots != [] && slots[0].exit < now then Expire(slots[1..], now) else slots
  }

  function Bytes(slots: seq<Slot>): int {
    if slots == [] then 0 else slots[0].len + Bytes(slots[1..])
  }

  lemma {:induction false} BytesAppend(slots: seq<Slot>, s: Slot)
    ensures Bytes(slots + [s]) == Bytes(slots) + s.len
  {
    if slots != [] {
      BytesAppend(slots[1..], s);
      assert (slots + [s])[1..] == slots[1..] + [s];
    }
  }

  /** Is there room for one more packet? */
  predicate Room(c: Config, l: Link, now: int) {
    |Expire(l.slots, now)| < c.qsize
  }

  ghost function Dropped(l: Link, now: int): Link {
    l.(slots := Expire(l.slots, now))
  }

  /** The link after a packet of `len` bytes joined it at tick `now`. */
  ghost function Joined(c: Config, l: Link, now: int, len: int): Link
    requires ConfigOk(c)
  {
    var q := Expire(l.slots, now);
    var fragment := if q == [] then 0 else l.fragment;
    var tail := if q == [] then now else q[|q| - 1].exit;
    var t := Transmit(c, fragment, len);
    Link(q + [Slot(tail + t.bwdelay, len)], t.fragment, tail + t.bwdelay,
         if q == [] then now else l.start, (if q == [] then [] else l.busy) + [len])
  }

  ghost predicate SlotAt(c: Config, slots: seq<Slot>, now: int, i: int)
    requires ConfigOk(c) && 0 <= i < |slots|
  {
    && 0 <= slots[i].len <= c.mtu
    && if i == 0 then slots[0].exit <= now + Slowest(c) else 0 <= slots[i].exit - slots[i - 1].exit <= Slowest(c)
  }

  ghost predicate SlotsOk(c: Config, slots: seq<Slot>, now: int)
    requires ConfigOk(c)
  {
    forall i :: 0 <= i < |slots| ==> SlotAt(c, slots, now, i)
  }

  ghost predicate LinkOk(c: Config, l: Link, now: int) {
    && ConfigOk(c) && FragmentOk(c, l.fragment) && |l.slots| <= c.qsize
    && SlotsOk(c, l.slots, now)
    && (forall i :: 0 <= i < |l.busy| ==> l.busy[i] >= 0)
    && if l.slots == [] then l.last < now else
         && l.last == l.slots[|l.slots| - 1].exit
         && Busy(c, l.start, l.busy) == Cost(l.last, l.fragment)
  }

  lemma LaterSlots(c: Config, slots: seq<Slot>, now: int, later: int)
    requires ConfigOk(c) && SlotsOk(c, slots, now) && now <= later
    ensures SlotsOk(c, slots, later)
  {
    forall i | 0 <= i < |slots|
      ensures SlotAt(c, slots, later, i)
    {
      assert SlotAt(c, slots, now, i);
    }
  }

  lemma LaterLink(c: Config, l: Link, now: int, later: int)
    requires LinkOk(c, l, now) && now <= later
    ensures LinkOk(c, l, later)
  {
    LaterSlots(c, l.slots, now, later);
  }

  /** Draining the queue leaves its tail, if anything; the times still fit. */
  lemma {:induction false} ExpireOk(c: Config, slots: seq<Slot>, now: int)
    requires ConfigOk(c) && Slowest(c) >= 0 && SlotsOk(c, slots, now)
    ensures var q := Expire(slots, now);
      && SlotsOk(c, q, now) && |q| <= |slots|
      && (q != [] ==> q[|q| - 1] == slots[|slots| - 1] && q[0].exit >= now)
      && (q == [] && slots != [] ==> slots[|slots| - 1].exit < now)
    decreases |slots|
  {
    if slots != [] && slots[0].exit < now {
      var rest := slots[1..];
      forall i | 0 <= i < |rest|
        ensures SlotAt(c, rest, now, i)
      {
        assert SlotAt(c, slots, now, i + 1);
      }
      ExpireOk(c, rest, now);
    }
  }

  /** Exactly the packets in front that have left are gone; the first one left has not. */
  lemma {:induction false} ExpireExactly(slots: seq<Slot>, now: int)
    ensures var k := |slots| - |Expire(slots, now)|;
      && 0 <= k <= |slots| && Expire(slots, now) == slots[k..]
      && (forall i :: 0 <= i < k ==> slots[i].exit < now)
      && (Expire(slots, now) != [] ==> Expire(slots, now)[0].exit >= now)
  {
    if slots != [] && slots[0].exit < now {
      ExpireExactly(slots[1..], now);
    }
  }

  lemma SlowestFacts(c: Config)
    requires ConfigOk(c)
    ensures Slowest(c) >= 0
  {
    TransmitBounds(c, 0, 0);
  }

  lemma {:induction false} DroppedOk(c: Config, l: Link, now: int)
    requires LinkOk(c, l, now)
    ensures LinkOk(c, Dropped(l, now), now)
  {
    SlowestFacts(c);
    ExpireOk(c, l.slots, now);
  }

  /** Exit ticks of the queue, head to tail. */
  lemma {:induction false} ExitBound(c: Config, slots: seq<Slot>, now: int, i: int)
    requires ConfigOk(c) && SlotsOk(c, slots, now) && 0 <= i < |slots|
    ensures slots[0].exit <= slots[i].exit <= now + (i + 1) * Slowest(c)
  {
    hide Slowest;
    assert SlotAt(c, slots, now, i);
    if i > 0 {
      ExitBound(c, slots, now, i - 1);
      assert (i + 1) * Slowest(c) == i * Slowest(c) + Slowest(c);
    }
  }

  /**
   * A packet joins behind every packet before it, not before `now`, and within the ticks that a full
   * queue can take; together with the delay, that is how far ahead the calendar must reach.
   */
  lemma {:induction false} JoinedOk(c: Config, l: Link, now: int, len: int)
    requires LinkOk(c, l, now) && Room(c, l, now) && 0 <= len <= c.mtu
    ensures var l' := Joined(c, l, now, len);
      && LinkOk(c, l', now)
      && l.last <= l'.last && now <= l'.last <= now + c.qsize * Slowest(c)
  {
    hide Transmit, Slowest, Joined, Busy;
    SlowestFacts(c);
    JoinedFacts(c, l, now, len);
    ExpireOk(c, l.slots, now);
    var q := Expire(l.slots, now);
    var l' := Joined(c, l, now, len);
    var fragment := if q == [] then 0 else l.fragment;
    TransmitBounds(c, fragment, len);
    forall i | 0 <= i < |l'.slots|
      ensures SlotAt(c, l'.slots, now, i)
    {
      if i < |q| {
        assert SlotAt(c, q, now, i);
      }
    }
    BusyStep(c, l'.start, if q == [] then [] else l.busy, len);
    if q != [] {
      ExitBound(c, q, now, |q| - 1);
    }
    ExitBound(c, l'.slots, now, |q|);
    ScaleMonotone2(|q| + 1, c.qsize, Slowest(c));
  }

  lemma BusyStep(c: Config, start: int, busy: seq<int>, len: int)
    requires ConfigOk(c)
    ensures Busy(c, start, []) == Cost(start, 0)
    ensures var before := Busy(c, start, busy); var t := Transmit(c, before.fragment, len);
      Busy(c, start, busy + [len]) == Cost(before.bwdelay + t.bwdelay, t.fragment)
  {
    assert (busy + [len])[..|busy + [len]| - 1] == busy;
  }

  lemma JoinedFacts(c: Config, l: Link, now: int, len: int)
    requires ConfigOk(c)
    ensures var q := Expire(l.slots, now); var l' := Joined(c, l, now, len);
      var t := Transmit(c, if q == [] then 0 else l.fragment, len);
      && l'.slots == q + [Slot(l'.last, len)] && l'.fragment == t.fragment
      && l'.last == (if q == [] then now else q[|q| - 1].exit) + t.bwdelay
      && l'.start == (if q == [] then now else l.start) && l'.busy == (if q == [] then [] else l.busy) + [len]
  {
  }

  lemma ScaleMonotone2(a: int, b: int, k: int)
    requires 0 <= a <= b && k >= 0
    ensures a * k <= b * k
  {
    assert (b - a) * k >= 0;
  }

  /** While the queue of a fast link is not empty its latest exit is never later than the ideal one. */
  lemma {:induction false} NeverLate(c: Config, l: Link, now: int)
    requires LinkOk(c, l, now) && l.slots != [] && c.bytespertick > 50
    ensures l.slots[|l.slots| - 1].exit == l.start + Quo(Sum(l.busy), c.bytespertick) - ExactFits(c, l.start, l.busy)
  {
    IdealLink(c, l.start, l.busy);
  }

  /** A slow link is as late as its packets one after the other make it. */
  lemma {:induction false} SlowExit(c: Config, l: Link, now: int)
    requires LinkOk(c, l, now) && l.slots != [] && c.bytespertick <= 50
    ensures l.slots[|l.slots| - 1].exit == l.start + SlowSum(c, l.busy) && l.fragment == 0
  {
    SlowLink(c, l.start, l.busy);
  }

  // ---------------------------------------------------------------- the ring

  /** Position `i` behind the head of the ring. */
  function Wrap(head: int, i: int, qsize: int): (k: int)
    requires qsize > 0 && 0 <= head < qsize && 0 <= i <= qsize
    ensures 0 <= k < qsize
  {
    if head + i < qsize then head + i else head + i - qsize
  }

  lemma Scaled(a: int, b: int, k: int)
    ensures k > 0 ==> (a >= b <==> a * k >= b * k)
  {
    assert (a - b) * k == a * k - b * k;
  }

  /** The remainder the program computes (lines 133 and 170). */
  lemma {:induction false} WrapIsRemainder(head: int, i: int, qsize: int)
    requires qsize > 0 && 0 <= head < qsize && 0 <= i <= qsize
    ensures Wrap(head, i, qsize) == (head + i) % qsize
  {
    var q := (head + i) / qsize;
    assert head + i == q * qsize + (head + i) % qsize;
    Scaled(q, 2, qsize);
    Scaled(-1, q, qsize);
  }

  /** Entry `i` of the queue that a ring stores. */
  ghost function SlotOf(exits: seq<int>, lens: seq<int>, head: int, i: int): Slot
    requires |exits| == |lens| > 0 && 0 <= head < |exits| && 0 <= i < |exits|
  {
    Slot(exits[Wrap(head, i, |exits|)], lens[Wrap(head, i, |exits|)])
  }

  ghost function RingSlots(exits: seq<int>, lens: seq<int>, head: int, depth: int): (s: seq<Slot>)
    requires |exits| == |lens| > 0 && 0 <= head < |exits| && 0 <= depth <= |exits|
    ensures |s| == depth
    ensures forall i :: 0 <= i < depth ==> s[i] == SlotOf(exits, lens, head, i)
  {
    seq(depth, i requires 0 <= i < depth => SlotOf(exits, lens, head, i))
  }

  class Hop {
    const c: Config
    const exittick: array<int>
    const slotlen: array<int>
    var slotdepth: int
    var bytedepth: int
    var headslot: int
    var fragment: int
    var pkts: int
    var bytes: int
    var qdrops: int
    ghost var last: int
    ghost var start: int
    ghost var busy: seq<int>

    ghost predicate RingOk()
      reads `headslot, `slotdepth
    {
      && ConfigOk(c) && exittick.Length == slotlen.Length == c.qsize && exittick != slotlen
      && 0 <= headslot < c.qsize && 0 <= slotdepth <= c.qsize
    }

    ghost function Slots(): (s: seq<Slot>)
      requires RingOk()
      reads `headslot, `slotdepth, exittick, slotlen
      ensures |s| == slotdepth
    {
      RingSlots(exittick[..], slotlen[..], headslot, slotdepth)
    }

    ghost function View(): Link
      requires RingOk()
      reads this, exittick, slotlen
    {
      Link(Slots(), fragment, last, start, busy)
    }

    ghost predicate Valid(now: int)
      reads this, exittick, slotlen
    {
      RingOk() && bytedepth == Bytes(Slots()) && LinkOk(c, View(), now)
    }

    constructor (config: Config)
      requires ConfigOk(config)
      ensures c == config && fresh(exittick) && fresh(slotlen)
      ensures Valid(0) && View() == Idle()
    {
      c := config;
      exittick := new int[config.qsize](_ => 0);
      slotlen := new int[config.qsize](_ => 0);
      slotdepth, bytedepth, headslot, fragment := 0, 0, 0, 0;
      pkts, bytes, qdrops := 0, 0, 0;
      last, start, busy := -1, 0, [];
    }

    /** Takes the packet at the head off the ring. */
    method Pop()
      requires RingOk() && slotdepth > 0 && bytedepth == Bytes(Slots())
      modifies this`slotdepth, this`bytedepth, this`headslot, exittick, slotlen
      ensures RingOk() && Slots() == old(Slots())[1..] && bytedepth == Bytes(Slots())
      ensures Wrap(headslot, slotdepth, c.qsize) == old(Wrap(headslot, slotdepth, c.qsize))
      ensures exittick[old(headslot)] == slotlen[old(headslot)] == 0
    {
      ghost var before := Slots();
      exittick[headslot] := 0;
      slotdepth := slotdepth - 1;
      bytedepth := bytedepth - slotlen[headslot];
      slotlen[headslot] := 0;
      headslot := headslot + 1;
      if headslot == c.qsize {
        headslot := 0;
      }
      forall i | 0 <= i < slotdepth
        ensures SlotOf(exittick[..], slotlen[..], headslot, i) == before[i + 1]
      {
      }
    }

    /** Brings the ring up to date; the slot behind its tail stays where it was. */
    method UpdateBwq(now: int)
      requires Valid(now)
      modifies this`slotdepth, this`bytedepth, this`headslot, exittick, slotlen
      ensures Valid(now) && View() == Dropped(old(View()), now)
      ensures Wrap(headslot, slotdepth, c.qsize) == old(Wrap(headslot, slotdepth, c.qsize))
    {
      ghost var before := View();
      while slotdepth != 0 && exittick[headslot] < now
        invariant RingOk() && bytedepth == Bytes(Slots())
        invariant Expire(Slots(), now) == Expire(before.slots, now)
        invariant Wrap(headslot, slotdepth, c.qsize) == old(Wrap(headslot, slotdepth, c.qsize))
        decreases slotdepth
      {
        assert Slots()[0].exit == exittick[headslot];
        Pop();
      }
      assert slotdepth != 0 ==> Slots()[0].exit == exittick[headslot];
      DroppedOk(c, before, now);
    }

    /** Puts a packet that leaves at `tailexit` behind the tail. */
    method Push(newslot: int, tailexit: int, len: int)
      requires RingOk() && slotdepth < c.qsize && bytedepth == Bytes(Slots()) && newslot == Wrap(headslot, slotdepth, c.qsize)
      modifies this`slotdepth, this`bytedepth, exittick, slotlen
      ensures RingOk() && Slots() == old(Slots()) + [Slot(tailexit, len)] && bytedepth == Bytes(Slots())
    {
      ghost var before := Slots();
      slotdepth := slotdepth + 1;
      slotlen[newslot] := len;
      bytedepth := bytedepth + len;
      exittick[newslot] := tailexit;
      forall i | 0 <= i < slotdepth
        ensures SlotOf(exittick[..], slotlen[..], headslot, i) == (before + [Slot(tailexit, len)])[i]
      {
      }
      BytesAppend(before, Slot(tailexit, len));
    }

    /** The cost of crossing for `len` bytes, computed as the source does, statement by statement. */
    method Charge(pktlen: int) returns (bwdelay: int)
      requires RingOk() && fragment >= 0
      modifies this`fragment
      ensures bwdelay == Transmit(c, old(fragment), pktlen).bwdelay && fragment == Transmit(c, old(fragment), pktlen).fragment
      ensures Charged(c, old(fragment), pktlen, bwdelay, fragment)
    {
      TransmitCharges(c, fragment, pktlen);
      var len, fragused := pktlen, 0;
      if fragment > len {
        fragment := fragment - len;
        len := 0;
      } else if fragment != 0 {
        len := len - fragment;
        fragused := 1;
        fragment := 0;
      }
      if len != 0 && c.bytespertick > 50 {
        bwdelay := Quo(len, c.bytespertick) + fragused;
        var remainder := Rem(len, c.bytespertick);
        if remainder != 0 {
          fragment := c.bytespertick - remainder;
        }
      } else {
        bwdelay := Quo(len * c.hz, 1000 * c.kbps);
      }
    }

    /** Transmission starts when the packet at the tail has left, or now if there is none. */
    method StartOrTail(now: int) returns (tailexit: int)
      requires RingOk()
      modifies this`fragment, this`start, this`busy
      ensures tailexit == if Slots() == [] then now else Slots()[|Slots()| - 1].exit
      ensures fragment == if Slots() == [] then 0 else old(fragment)
      ensures start == if Slots() == [] then now else old(start)
      ensures busy == if Slots() == [] then [] else old(busy)
    {
      if slotdepth != 0 {
        tailexit := exittick[Wrap(headslot, slotdepth - 1, c.qsize)];
      } else {
        tailexit := now;
        fragment := 0;
        start, busy := now, [];
      }
    }

    /** The part of emulate_hop after which nothing can drop the packet. */
    method Enqueue(len: int, now: int, newslot: int) returns (tailexit: int)
      requires Valid(now) && 0 <= len <= c.mtu && slotdepth < c.qsize && newslot == Wrap(headslot, slotdepth, c.qsize)
      requires Expire(Slots(), now) == Slots()
      modifies this, exittick, slotlen
      ensures Valid(now) && View() == Joined(c, old(View()), now, len) && tailexit == View().last
      ensures pkts == old(pkts) + 1 && bytes == old(bytes) + len && qdrops == old(qdrops)
    {
      hide Slowest, Transmit, LinkOk, Wrap, Busy, Bytes, Expire, ConfigOk, Joined, SlotOf, RingSlots, FragmentOk;
      ghost var l := View();
      LinkFacts(c, l, now);
      pkts := pkts + 1;
      bytes := bytes + len;
      tailexit := StartOrTail(now);
      var bwdelay := Charge(len);
      tailexit := tailexit + bwdelay;
      Push(newslot, tailexit, len);
      last, busy := tailexit, busy + [len];
      JoinedFacts(c, l, now, len);
      assert View() == Joined(c, l, now, len);
      JoinedOk(c, l, now, len);
      assert LinkOk(c, View(), now);
    }

    /**
     * A packet of `len` bytes tries to cross at tick `now`; `roll` is the random draw. It is lost, or
     * finds the queue full, or joins the queue and will have crossed at `tailexit`.
     */
    method EmulateHop(len: int, now: int, roll: int) returns (dropped: bool, tailexit: int)
      requires Valid(now) && 0 <= len <= c.mtu
      modifies this, exittick, slotlen
      ensures Valid(now)
      ensures dropped <==> Lost(c, roll) || !Room(c, old(View()), now)
      ensures View() ==
              if Lost(c, roll) then old(View())
              else if dropped then Dropped(old(View()), now)
              else Joined(c, old(View()), now, len)
      ensures !dropped ==> tailexit == View().last
      ensures pkts == old(pkts) + (if dropped then 0 else 1) && bytes == old(bytes) + if dropped then 0 else len
      ensures qdrops == old(qdrops) + if dropped && !Lost(c, roll) then 1 else 0
      ensures c.plr != 0 && roll < c.plr ==> dropped && View() == old(View()) && qdrops == old(qdrops)
      ensures c.plr == 0 || roll >= c.plr ==>
                if dropped then |View().slots| == c.qsize && View().slots[0].exit >= now && qdrops == old(qdrops) + 1
                else View().slots != [] && View().slots[|View().slots| - 1] == Slot(tailexit, len) && qdrops == old(qdrops)
    {
      hide LinkOk, Wrap, Bytes, Expire, ConfigOk, Joined;
      ghost var l := View();
      ExpireExactly(l.slots, now);
      JoinedFacts(c, l, now, len);
      var newslot := Wrap(headslot, slotdepth, c.qsize);
      tailexit := now;
      if Lost(c, roll) {
        return true, tailexit;
      }
      UpdateBwq(now);
      if slotdepth >= c.qsize {
        qdrops := qdrops + 1;
        return true, tailexit;
      }
      dropped := false;
      JoinedAfterDrop(c, l, now, len);
      tailexit := Enqueue(len, now, newslot);
    }
  }

  /** The random draw loses the packet. */
  predicate Lost(c: Config, roll: int) {
    c.plr != 0 && roll < c.plr
  }

  lemma LinkFacts(c: Config, l: Link, now: int)
    requires LinkOk(c, l, now)
    ensures FragmentOk(c, l.fragment) && l.fragment >= 0
    ensures l.slots != [] ==> l.last == l.slots[|l.slots| - 1].exit
  {
  }

  lemma {:induction false} ExpireTwice(slots: seq<Slot>, now: int)
    ensures Expire(Expire(slots, now), now) == Expire(slots, now)
  {
    if slots != [] && slots[0].exit < now {
      ExpireTwice(slots[1..], now);
    }
  }

  lemma JoinedAfterDrop(c: Config, l: Link, now: int, len: int)
    requires ConfigOk(c)
    ensures Expire(Dropped(l, now).slots, now) == Dropped(l, now).slots
    ensures Joined(c, Dropped(l, now), now, len) == Joined(c, l, now, len)
  {
    ExpireTwice(l.slots, now);
  }
}
