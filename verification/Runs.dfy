// The emulator core as a transition system: packets arrive, the head of the current slot is taken out
// and sent on, the clock ticks; and what holds in every run of it
// (emulate_nexthop, emulate_path and hopclock, emulator/freebsd6.4/module/ip_modelnet.c).
module Runs {
  import opened Hops
  import opened Links
  import opened Calendars

  /**
   * Links, calendar and clock of a core, with what has happened so far: arrivals counted by `seen`,
   * packets forwarded at the end of their route, packets ever put into the calendar, packets taken out.
   * `queued` is the program's own counter of the calendar.
   */
  datatype System = System(links: seq<Link>, cal: seq<seq<Packet>>, tick: int, seen: int, out: seq<Packet>,
                           entered: multiset<Packet>, gone: seq<Dispatch>, queued: int)

  ghost predicate Sized(cs: seq<Config>, s: System) {
    |s.cal| == SCHEDLEN && |s.links| == |cs| && forall h :: 0 <= h < |cs| ==> ConfigOk(cs[h])
  }

  /**
   * The packet `p` in hand is advanced; `roll` is the draw its next hop makes. At the end of the route
   * it is forwarded. Otherwise it is lost, or finds the queue of its next hop full, or joins it and goes
   * into the calendar for the tick at which it will have crossed.
   */
  ghost function Advance(cs: seq<Config>, s: System, p: Packet, roll: int): (s': System)
    requires Sized(cs, s) && 0 <= p.hop <= |p.path| && RouteOk(cs, p.path, p.len)
    ensures Sized(cs, s')
  {
    if p.hop == |p.path| then s.(out := s.out + [p])
    else
      assert RouteAt(cs, p.path, p.len, p.hop);
      var h := p.path[p.hop];
      if Lost(cs[h], roll) then s
      else if !Room(cs[h], s.links[h], s.tick) then s.(links := s.links[h := Dropped(s.links[h], s.tick)])
      else
        var l := Joined(cs[h], s.links[h], s.tick, p.len);
        var q := p.(hop := p.hop + 1, due := l.last + cs[h].delay);
        s.(links := s.links[h := l], cal := Put(s.cal, q), entered := s.entered + multiset{q}, queued := s.queued + 1)
  }

  ghost predicate ArrivesAs(cs: seq<Config>, s: System, s': System, len: int, path: seq<int>, roll: int)
    requires Sized(cs, s)
  {
    RouteOk(cs, path, len) && s' == Advance(cs, s.(seen := s.seen + 1), Packet(s.seen, len, path, 0, 0), roll)
  }

  /** The head of the current slot is in hand. */
  ghost function Taken(s: System): System
    requires |s.cal| == SCHEDLEN && s.cal[SlotIndex(s.tick)] != []
  {
    var slot := SlotIndex(s.tick);
    s.(cal := TakeHead(s.cal, slot), gone := s.gone + [Dispatch(s.cal[slot][0], s.tick)], queued := s.queued - 1)
  }

  ghost predicate DispatchesAs(cs: seq<Config>, s: System, s': System, roll: int)
    requires Sized(cs, s)
  {
    && s.cal[SlotIndex(s.tick)] != []
    && var p := s.cal[SlotIndex(s.tick)][0];
    && 0 <= p.hop <= |p.path| && RouteOk(cs, p.path, p.len) && s' == Advance(cs, Taken(s), p, roll)
  }

  ghost predicate TicksTo(s: System, s': System)
    requires |s.cal| == SCHEDLEN
  {
    s.cal[SlotIndex(s.tick)] == [] && s' == s.(tick := s.tick + 1)
  }

  ghost predicate Step(cs: seq<Config>, s: System, s': System) {
    && Sized(cs, s)
    && ((exists len: int, path: seq<int>, roll: int :: ArrivesAs(cs, s, s', len, path, roll))
        || (exists roll: int :: DispatchesAs(cs, s, s', roll))
        || TicksTo(s, s'))
  }

  ghost predicate Start(cs: seq<Config>, s: System) {
    && Sized(cs, s) && s.tick == s.seen == s.queued == 0 && s.out == [] && s.entered == multiset{} && s.gone == []
    && (forall h :: 0 <= h < |s.links| ==> s.links[h] == Idle())
    && forall t :: 0 <= t < |s.cal| ==> s.cal[t] == []
  }

  /** Every interleaving of arrivals, dispatches and ticks that begins with an idle core. */
  ghost predicate Run(cs: seq<Config>, run: seq<System>) {
    |run| > 0 && Start(cs, run[0]) && forall i, j :: 0 <= i && j == i + 1 && j < |run| ==> Step(cs, run[i], run[j])
  }

  // ---------------------------------------------------------------- what holds whatever the parameters

  ghost predicate Waiting(cs: seq<Config>, tick: int, seen: int, s: int, p: Packet) {
    0 <= p.id < seen && 0 < p.hop <= |p.path| && RouteOk(cs, p.path, p.len) && SlotIndex(p.due) == s && tick <= p.due
  }

  ghost predicate WaitingAt(cs: seq<Config>, cal: seq<seq<Packet>>, tick: int, seen: int, s: int, i: int)
    requires 0 <= s < |cal| && 0 <= i < |cal[s]|
  {
    Waiting(cs, tick, seen, s, cal[s][i])
  }

  /** Every packet ever queued is still in the calendar or was taken out, once. */
  ghost predicate Booked(s: System) {
    s.entered == All(s.cal) + Packets(s.gone) && s.queued == |All(s.cal)|
  }

  ghost predicate Basic(cs: seq<Config>, s: System) {
    && Sized(cs, s) && s.seen >= 0 && s.tick >= 0 && Booked(s)
    && (forall h :: 0 <= h < |cs| ==> LinkOk(cs[h], s.links[h], s.tick))
    && (forall t, i :: 0 <= t < |s.cal| && 0 <= i < |s.cal[t]| ==> WaitingAt(cs, s.cal, s.tick, s.seen, t, i))
    && (forall k :: 0 <= k < |s.out| ==> s.out[k].id < s.seen)
  }

  lemma {:induction false} StartBasic(cs: seq<Config>, s: System)
    requires Start(cs, s)
    ensures Basic(cs, s)
  {
    EmptyCalendar(s.cal, |s.cal|);
  }

  /** Sending the packet in hand on, if it is known and on its route. */
  lemma {:induction false} AdvanceBasic(cs: seq<Config>, s: System, p: Packet, roll: int)
    requires Basic(cs, s) && 0 <= p.id < s.seen && 0 <= p.hop <= |p.path| && RouteOk(cs, p.path, p.len)
    ensures Basic(cs, Advance(cs, s, p, roll))
  {
    hide Basic, LinkOk, Joined, Dropped, Room, RouteOk, Put, Sized, Lost;
    BasicFacts(cs, s);
    if p.hop == |p.path| {
      ForwardBasic(cs, s, p);
    } else {
      OnRoute(cs, p.path, p.len, p.hop);
      var h := p.path[p.hop];
      if Lost(cs[h], roll) {
      } else if !Room(cs[h], s.links[h], s.tick) {
        DroppedOk(cs[h], s.links[h], s.tick);
        LinkBasic(cs, s, h, Dropped(s.links[h], s.tick));
      } else {
        BasicSizes(cs, s);
        JoinedOk(cs[h], s.links[h], s.tick, p.len);
        CrossBasic(cs, s, p, h, Joined(cs[h], s.links[h], s.tick, p.len));
      }
    }
  }

  lemma BasicSizes(cs: seq<Config>, s: System)
    requires Basic(cs, s)
    ensures |s.cal| == SCHEDLEN && |s.links| == |cs| && forall h :: 0 <= h < |cs| ==> ConfigOk(cs[h])
  {
  }

  lemma ForwardBasic(cs: seq<Config>, s: System, p: Packet)
    requires Basic(cs, s) && p.id < s.seen
    ensures Basic(cs, s.(out := s.out + [p]))
  {
    hide LinkOk, WaitingAt, Booked;
    assert Booked(s.(out := s.out + [p])) by {
      BookedOnly(s, s.(out := s.out + [p]));
    }
  }

  lemma LinkBasic(cs: seq<Config>, s: System, h: int, l: Link)
    requires Basic(cs, s) && 0 <= h < |cs| && LinkOk(cs[h], l, s.tick)
    ensures |s.links| == |cs| && Basic(cs, s.(links := s.links[h := l]))
  {
    hide LinkOk, WaitingAt, Booked;
    BookedOnly(s, s.(links := s.links[h := l]));
  }

  lemma BookedOnly(s: System, s': System)
    requires Booked(s) && s'.entered == s.entered && s'.gone == s.gone && s'.cal == s.cal && s'.queued == s.queued
    ensures Booked(s')
  {
  }

  lemma {:induction false} CrossBasic(cs: seq<Config>, s: System, p: Packet, h: int, l: Link)
    requires Basic(cs, s) && 0 <= p.id < s.seen && 0 <= p.hop < |p.path| && RouteOk(cs, p.path, p.len)
    requires 0 <= h < |cs| && LinkOk(cs[h], l, s.tick) && s.tick <= l.last
    ensures ConfigOk(cs[h]) && |s.cal| == SCHEDLEN && |s.links| == |cs|
    ensures var q := p.(hop := p.hop + 1, due := l.last + cs[h].delay);
      Basic(cs, s.(links := s.links[h := l], cal := Put(s.cal, q), entered := s.entered + multiset{q}, queued := s.queued + 1))
  {
    hide LinkOk, RouteOk, SlotIndex;
    var q := p.(hop := p.hop + 1, due := l.last + cs[h].delay);
    PutAll(s.cal, q);
    var cal' := Put(s.cal, q);
    forall t, i | 0 <= t < |cal'| && 0 <= i < |cal'[t]|
      ensures WaitingAt(cs, cal', s.tick, s.seen, t, i)
    {
      if !(t == SlotIndex(q.due) && i == |s.cal[t]|) {
        assert WaitingAt(cs, s.cal, s.tick, s.seen, t, i);
      }
    }
  }

  lemma {:induction false} ArrivalBasic(cs: seq<Config>, s: System)
    requires Basic(cs, s)
    ensures Basic(cs, s.(seen := s.seen + 1))
  {
    hide LinkOk, RouteOk, SlotIndex;
    var more := s.seen + 1;
    forall t, i | 0 <= t < |s.cal| && 0 <= i < |s.cal[t]|
      ensures WaitingAt(cs, s.cal, s.tick, more, t, i)
    {
      assert WaitingAt(cs, s.cal, s.tick, s.seen, t, i);
    }
  }

  lemma {:induction false} TakenBasic(cs: seq<Config>, s: System)
    requires Basic(cs, s) && s.cal[SlotIndex(s.tick)] != []
    ensures Basic(cs, Taken(s)) && Waiting(cs, s.tick, s.seen, SlotIndex(s.tick), s.cal[SlotIndex(s.tick)][0])
  {
    hide LinkOk, RouteOk, SlotIndex;
    var slot := SlotIndex(s.tick);
    var cal' := TakeHead(s.cal, slot);
    assert WaitingAt(cs, s.cal, s.tick, s.seen, slot, 0);
    TakeHeadAll(s.cal, slot);
    PacketsAppend(s.gone, Dispatch(s.cal[slot][0], s.tick));
    forall t, i | 0 <= t < |cal'| && 0 <= i < |cal'[t]|
      ensures WaitingAt(cs, cal', s.tick, s.seen, t, i)
    {
      assert WaitingAt(cs, s.cal, s.tick, s.seen, t, Was(slot, t, i));
    }
  }

  lemma {:induction false} TickBasic(cs: seq<Config>, s: System)
    requires Basic(cs, s) && s.cal[SlotIndex(s.tick)] == []
    ensures Basic(cs, s.(tick := s.tick + 1))
  {
    hide RouteOk;
    var next := s.tick + 1;
    forall h | 0 <= h < |cs|
      ensures LinkOk(cs[h], s.links[h], next)
    {
      LaterLink(cs[h], s.links[h], s.tick, next);
    }
    forall t, i | 0 <= t < |s.cal| && 0 <= i < |s.cal[t]|
      ensures WaitingAt(cs, s.cal, next, s.seen, t, i)
    {
      assert WaitingAt(cs, s.cal, s.tick, s.seen, t, i);
      assert s.cal[t][i].due != s.tick;
    }
  }

  lemma {:induction false} StepBasic(cs: seq<Config>, s: System, s': System)
    requires Basic(cs, s) && Step(cs, s, s')
    ensures Basic(cs, s') && s.gone <= s'.gone && s.tick <= s'.tick <= s.tick + 1
  {
    hide Basic, RouteOk, SlotIndex;
    BasicFacts(cs, s);
    if len, path, roll :| ArrivesAs(cs, s, s', len, path, roll) {
      ArrivalBasic(cs, s);
      AdvanceBasic(cs, s.(seen := s.seen + 1), Packet(s.seen, len, path, 0, 0), roll);
      AdvanceKeeps(cs, s.(seen := s.seen + 1), Packet(s.seen, len, path, 0, 0), roll);
    } else if roll :| DispatchesAs(cs, s, s', roll) {
      TakenBasic(cs, s);
      AdvanceBasic(cs, Taken(s), s.cal[SlotIndex(s.tick)][0], roll);
      AdvanceKeeps(cs, Taken(s), s.cal[SlotIndex(s.tick)][0], roll);
    } else {
      TickBasic(cs, s);
    }
  }

  lemma AdvanceKeeps(cs: seq<Config>, s: System, p: Packet, roll: int)
    requires Sized(cs, s) && 0 <= p.hop <= |p.path| && RouteOk(cs, p.path, p.len)
    ensures var s' := Advance(cs, s, p, roll); s'.gone == s.gone && s'.tick == s.tick && s'.seen == s.seen
    ensures var s' := Advance(cs, s, p, roll); forall t :: 0 <= t < SCHEDLEN ==> s.cal[t] <= s'.cal[t]
  {
  }

  lemma BasicFacts(cs: seq<Config>, s: System)
    requires Basic(cs, s)
    ensures Sized(cs, s) && s.seen >= 0 && s.tick >= 0
    ensures forall h :: 0 <= h < |cs| ==> LinkOk(cs[h], s.links[h], s.tick)
  {
  }

  lemma {:induction false} RunBasic(cs: seq<Config>, run: seq<System>, i: int)
    requires Run(cs, run) && 0 <= i < |run|
    ensures Basic(cs, run[i])
    decreases i
  {
    hide Basic, Step, Start;
    if i == 0 {
      StartBasic(cs, run[0]);
    } else {
      RunBasic(cs, run, i - 1);
      StepBasic(cs, run[i - 1], run[i]);
    }
  }

  lemma StepArrives(cs: seq<Config>, s: System, s': System, len: int, path: seq<int>, roll: int)
    requires Sized(cs, s) && ArrivesAs(cs, s, s', len, path, roll)
    ensures Step(cs, s, s')
  {
  }

  lemma StepDispatches(cs: seq<Config>, s: System, s': System, roll: int)
    requires Sized(cs, s) && DispatchesAs(cs, s, s', roll)
    ensures Step(cs, s, s')
  {
  }

  lemma StepTicks(cs: seq<Config>, s: System, s': System)
    requires Sized(cs, s) && TicksTo(s, s')
    ensures Step(cs, s, s')
  {
  }

  lemma OnRoute(cs: seq<Config>, path: seq<int>, len: int, k: int)
    requires RouteOk(cs, path, len) && 0 <= k < |path|
    ensures RouteAt(cs, path, len, k) && len >= 0
  {
  }

  // ---------------------------------------------------------------- why draining a slot ends

  lemma SlotWork(cs: seq<Config>, s: System, slot: int)
    requires Basic(cs, s) && 0 <= slot < |s.cal|
    ensures Work(s.cal[slot]) >= 0
  {
    forall i | 0 <= i < |s.cal[slot]|
      ensures s.cal[slot][i].hop <= |s.cal[slot][i].path|
    {
      assert WaitingAt(cs, s.cal, s.tick, s.seen, slot, i);
    }
    WorkNonNegative(s.cal[slot]);
  }

  /** Taking a packet out and advancing it shortens what is left of the slot's routes, even if it comes back there. */
  lemma {:induction false} WorkFalls(cs: seq<Config>, s: System, p: Packet, roll: int)
    requires Sized(cs, s) && s.cal[SlotIndex(s.tick)] != [] && p == s.cal[SlotIndex(s.tick)][0]
    requires 0 <= p.hop <= |p.path| && RouteOk(cs, p.path, p.len)
    ensures var slot := SlotIndex(s.tick); Work(Advance(cs, Taken(s), p, roll).cal[slot]) < Work(s.cal[slot])
  {
    hide RouteOk, Joined, Dropped, Room, SlotIndex;
    var slot := SlotIndex(s.tick);
    var rest := Taken(s).cal[slot];
    var s' := Advance(cs, Taken(s), p, roll);
    if p.hop < |p.path| && s'.cal[slot] != rest {
      OnRoute(cs, p.path, p.len, p.hop);
      var q := s'.cal[slot][|rest|];
      WorkAppend(rest, q);
    }
  }

  // ---------------------------------------------------------------- when a packet leaves its slot

  /** Among the dispatches after `from` of them, the first of `p` was at tick `t`. */
  ghost predicate FirstAt(gone: seq<Dispatch>, from: int, p: Packet, t: int) {
    exists k :: 0 <= from <= k < |gone| && gone[k] == Dispatch(p, t) && NotYet(gone, from, k, p)
  }

  ghost predicate NotYet(gone: seq<Dispatch>, from: int, to: int, p: Packet)
    requires 0 <= from && to <= |gone|
  {
    forall l :: from <= l < to ==> gone[l].pkt != p
  }

  /** A packet waits in its slot until the clock next looks there, or was taken out then. */
  ghost predicate WaitsOrLeft(s: System, from: int, p: Packet, visit: int)
    requires |s.cal| == SCHEDLEN
  {
    && 0 <= from <= |s.gone|
    && ((s.tick <= visit && p in s.cal[SlotIndex(p.due)] && NotYet(s.gone, from, |s.gone|, p)) || FirstAt(s.gone, from, p, visit))
  }

  lemma FirstStays(gone: seq<Dispatch>, gone': seq<Dispatch>, from: int, p: Packet, t: int)
    requires FirstAt(gone, from, p, t) && gone <= gone'
    ensures FirstAt(gone', from, p, t)
  {
    var k :| 0 <= from <= k < |gone| && gone[k] == Dispatch(p, t) && NotYet(gone, from, k, p);
    assert NotYet(gone', from, k, p);
  }

  lemma {:induction false} WaitStep(cs: seq<Config>, s: System, s': System, from: int, p: Packet, now: int)
    requires Basic(cs, s) && Step(cs, s, s') && |s.cal| == |s'.cal| == SCHEDLEN && now <= s.tick && now <= p.due
    requires WaitsOrLeft(s, from, p, NextVisit(now, p.due))
    ensures WaitsOrLeft(s', from, p, NextVisit(now, p.due))
  {
    var visit := NextVisit(now, p.due);
    StepBasic(cs, s, s');
    OneTurn(now, p.due, s.tick);
    BasicFacts(cs, s);
    hide Basic, RouteOk, SlotIndex, NextVisit, FirstAt, NotYet, ArrivesAs, DispatchesAs, Advance;
    if FirstAt(s.gone, from, p, visit) {
      FirstStays(s.gone, s'.gone, from, p, visit);
    } else if len, path, roll :| ArrivesAs(cs, s, s', len, path, roll) {
      ArrivalLeavesSlots(cs, s, s', len, path, roll);
      StillThere(s, s', from, p, visit);
    } else if roll :| DispatchesAs(cs, s, s', roll) {
      HeadLeaves(cs, s, s', roll, from, p, now);
    } else {
      assert s.tick != visit;
      StillThere(s, s', from, p, visit);
    }
  }

  lemma ArrivalLeavesSlots(cs: seq<Config>, s: System, s': System, len: int, path: seq<int>, roll: int)
    requires Sized(cs, s) && ArrivesAs(cs, s, s', len, path, roll)
    ensures |s'.cal| == SCHEDLEN && s'.gone == s.gone && s'.tick == s.tick && forall t :: 0 <= t < SCHEDLEN ==> s.cal[t] <= s'.cal[t]
  {
    hide RouteOk;
    AdvanceKeeps(cs, s.(seen := s.seen + 1), Packet(s.seen, len, path, 0, 0), roll);
  }

  lemma StillThere(s: System, s': System, from: int, p: Packet, visit: int)
    requires |s.cal| == |s'.cal| == SCHEDLEN && WaitsOrLeft(s, from, p, visit) && !FirstAt(s.gone, from, p, visit)
    requires s'.gone == s.gone && s'.tick <= visit && forall t :: 0 <= t < SCHEDLEN ==> s.cal[t] <= s'.cal[t]
    ensures WaitsOrLeft(s', from, p, visit)
  {
    hide FirstAt, NotYet;
    var home := SlotIndex(p.due);
    assert s.cal[home] <= s'.cal[home];
  }

  lemma {:induction false} HeadLeaves(cs: seq<Config>, s: System, s': System, roll: int, from: int, p: Packet, now: int)
    requires Basic(cs, s) && Sized(cs, s) && DispatchesAs(cs, s, s', roll) && now <= s.tick <= NextVisit(now, p.due) && now <= p.due
    requires 0 <= from <= |s.gone| && p in s.cal[SlotIndex(p.due)] && NotYet(s.gone, from, |s.gone|, p)
    ensures |s'.cal| == SCHEDLEN && WaitsOrLeft(s', from, p, NextVisit(now, p.due))
  {
    hide Basic, RouteOk, SlotIndex, NextVisit;
    var visit, home, slot := NextVisit(now, p.due), SlotIndex(p.due), SlotIndex(s.tick);
    var head := s.cal[slot][0];
    AdvanceKeeps(cs, Taken(s), head, roll);
    HeadsHome(cs, s);
    if head == p {
      SameTurn(now, p.due, s.tick);
      var k := |s.gone|;
      assert s'.gone[k] == Dispatch(p, visit) && NotYet(s'.gone, from, k, p);
    } else {
      assert s.cal[slot] == [head] + s.cal[slot][1..];
      assert p in Taken(s).cal[home];
    }
  }

  lemma HeadsHome(cs: seq<Config>, s: System)
    requires Basic(cs, s) && s.cal[SlotIndex(s.tick)] != []
    ensures SlotIndex(s.cal[SlotIndex(s.tick)][0].due) == SlotIndex(s.tick)
  {
    assert WaitingAt(cs, s.cal, s.tick, s.seen, SlotIndex(s.tick), 0);
  }

  /** Looking into the slot of `due` within the turn that ends with the next visit is that visit. */
  lemma SameTurn(now: int, due: int, t: int)
    requires now <= due && now <= t <= NextVisit(now, due) && SlotIndex(t) == SlotIndex(due)
    ensures t == NextVisit(now, due)
  {
    OneTurn(now, due, t);
  }

  /** In every run, whatever the parameters of the links. */
  lemma {:induction false} WaitsForTheVisit(cs: seq<Config>, run: seq<System>, i: int, j: int, p: Packet)
    requires Run(cs, run) && 0 <= i <= j < |run| && |run[i].cal| == SCHEDLEN && p in run[i].cal[SlotIndex(p.due)]
    ensures run[i].tick <= p.due && |run[j].cal| == SCHEDLEN
    ensures WaitsOrLeft(run[j], |run[i].gone|, p, NextVisit(run[i].tick, p.due))
    ensures run[i].tick <= run[j].tick
    decreases j
  {
    hide Basic, SlotIndex, NextVisit, Start, Step, WaitsOrLeft, Sized;
    RunSized(cs, run, i);
    RunSized(cs, run, j);
    RunBasic(cs, run, i);
    WaitsAhead(cs, run[i], p);
    if i < j {
      RunSized(cs, run, j - 1);
      WaitsForTheVisit(cs, run, i, j - 1, p);
      RunBasic(cs, run, j - 1);
      StepBasic(cs, run[j - 1], run[j]);
      WaitStep(cs, run[j - 1], run[j], |run[i].gone|, p, run[i].tick);
    } else {
      StillWaits(run[i], p);
    }
  }

  lemma RunSized(cs: seq<Config>, run: seq<System>, i: int)
    requires Run(cs, run) && 0 <= i < |run|
    ensures |run[i].cal| == SCHEDLEN && (i > 0 ==> Step(cs, run[i - 1], run[i]))
  {
    hide Step;
    RunBasic(cs, run, i);
  }

  lemma StillWaits(s: System, p: Packet)
    requires |s.cal| == SCHEDLEN && p in s.cal[SlotIndex(p.due)] && s.tick <= p.due
    ensures WaitsOrLeft(s, |s.gone|, p, NextVisit(s.tick, p.due))
  {
    TurnsEarly(s.tick, p.due);
    hide SlotIndex, NextVisit;
  }

  lemma WaitsAhead(cs: seq<Config>, s: System, p: Packet)
    requires Basic(cs, s) && p in s.cal[SlotIndex(p.due)]
    ensures s.tick <= p.due
  {
    var home := SlotIndex(p.due);
    var x :| 0 <= x < |s.cal[home]| && s.cal[home][x] == p;
    assert WaitingAt(cs, s.cal, s.tick, s.seen, home, x);
  }

  /**
   * The exact condition, packet by packet: waiting in the calendar at some moment, it is next taken out
   * at the tick it is due if and only if that tick is less than one turn of the calendar ahead. If it is
   * not, the packet leaves a whole number of turns early.
   */
  lemma {:induction false} OnTimeExactly(cs: seq<Config>, run: seq<System>, i: int, j: int, p: Packet)
    requires Run(cs, run) && 0 <= i <= j < |run| && |run[i].cal| == SCHEDLEN && p in run[i].cal[SlotIndex(p.due)]
    requires run[j].tick > p.due
    ensures FirstAt(run[j].gone, |run[i].gone|, p, NextVisit(run[i].tick, p.due))
    ensures FirstAt(run[j].gone, |run[i].gone|, p, p.due) <==> p.due < run[i].tick + SCHEDLEN
    ensures p.due >= run[i].tick + SCHEDLEN ==> NextVisit(run[i].tick, p.due) <= p.due - SCHEDLEN
  {
    var now, from := run[i].tick, |run[i].gone|;
    WaitsForTheVisit(cs, run, i, j, p);
    OneTurn(now, p.due, now);
    TurnsEarly(now, p.due);
    hide SlotIndex, NextVisit, Run;
    if FirstAt(run[j].gone, from, p, p.due) {
      OnlyFirst(run[j].gone, from, p, p.due, NextVisit(now, p.due));
    }
  }

  lemma TurnsEarly(now: int, due: int)
    requires now <= due
    ensures now <= NextVisit(now, due) <= due
    ensures due >= now + SCHEDLEN ==> NextVisit(now, due) <= due - SCHEDLEN
  {
  }

  lemma OnlyFirst(gone: seq<Dispatch>, from: int, p: Packet, t: int, u: int)
    requires FirstAt(gone, from, p, t) && FirstAt(gone, from, p, u)
    ensures t == u
  {
    var k :| 0 <= from <= k < |gone| && gone[k] == Dispatch(p, t) && NotYet(gone, from, k, p);
    var l :| 0 <= from <= l < |gone| && gone[l] == Dispatch(p, u) && NotYet(gone, from, l, p);
  }

  // ---------------------------------------------------------------- the calendar in order

  /** Everything that holds between two steps of the core. */
  ghost predicate CoreOk(cs: seq<Config>, links: seq<Link>, cal: seq<seq<Packet>>, tick: int, seen: int, out: seq<Packet>) {
    && WithinHorizon(cs) && |links| == |cs| && seen >= 0 && tick >= 0
    && (forall h :: 0 <= h < |cs| ==> LinkOk(cs[h], links[h], tick))
    && CalendarOk(cs, links, cal, tick, seen, out)
    && (forall k :: 0 <= k < |out| ==> out[k].id < seen)
  }

  lemma CoreFacts(cs: seq<Config>, links: seq<Link>, cal: seq<seq<Packet>>, tick: int, seen: int, out: seq<Packet>)
    requires CoreOk(cs, links, cal, tick, seen, out)
    ensures |links| == |cs| && |cal| == SCHEDLEN && seen >= 0 && tick >= 0
    ensures forall h :: 0 <= h < |cs| ==> LinkOk(cs[h], links[h], tick)
    ensures forall s, i :: 0 <= s < |cal| && 0 <= i < |cal[s]| ==> cal[s][i].hop <= |cal[s][i].path|
  {
    forall s, i | 0 <= s < |cal| && 0 <= i < |cal[s]|
      ensures cal[s][i].hop <= |cal[s][i].path|
    {
      assert PlaceOk(cs, links, cal, tick, seen, s, i);
    }
  }

  /** A link moved on, losing nothing: the calendar does not mind. */
  lemma {:induction false} LinkMoves(cs: seq<Config>, links: seq<Link>, cal: seq<seq<Packet>>, tick: int, seen: int, out: seq<Packet>,
                                     h: int, l: Link)
    requires CoreOk(cs, links, cal, tick, seen, out) && 0 <= h < |cs|
    requires LinkOk(cs[h], l, tick) && links[h].last <= l.last
    ensures CoreOk(cs, links[h := l], cal, tick, seen, out)
  {
    hide LinkOk, CalendarOk, WithinHorizon;
    GrowOk(cs, links, links[h := l], cal, tick, seen, seen, out);
  }

  /** A packet in hand crosses its next hop: the link takes it, the calendar gets it back. */
  lemma {:induction false} CrossOk(cs: seq<Config>, links: seq<Link>, cal: seq<seq<Packet>>, tick: int, seen: int, out: seq<Packet>, p: Packet)
    requires CoreOk(cs, links, cal, tick, seen, out) && InHand(cs, cal, seen, out, p) && p.hop < |p.path|
    requires RouteAt(cs, p.path, p.len, p.hop) && Room(cs[p.path[p.hop]], links[p.path[p.hop]], tick)
    ensures |cal| == SCHEDLEN && ConfigOk(cs[p.path[p.hop]])
    ensures var h := p.path[p.hop]; var l := Joined(cs[h], links[h], tick, p.len);
      CoreOk(cs, links[h := l], Put(cal, p.(hop := p.hop + 1, due := l.last + cs[h].delay)), tick, seen, out)
  {
    var h := p.path[p.hop];
    CoreFacts(cs, links, cal, tick, seen, out);
    assert LinkOk(cs[h], links[h], tick);
    assert p.len >= 0 && cs[h].qsize * Slowest(cs[h]) + cs[h].delay < SCHEDLEN;
    JoinedOk(cs[h], links[h], tick, p.len);
    hide LinkOk, CalendarOk, Joined, Room, InHand, RouteOk, Slowest, Put;
    var l := Joined(cs[h], links[h], tick, p.len);
    LinkMoves(cs, links, cal, tick, seen, out, h, l);
    PutOk(cs, links[h := l], cal, tick, seen, out, p, l.last);
  }

  lemma {:induction false} ClockTicks(cs: seq<Config>, links: seq<Link>, cal: seq<seq<Packet>>, tick: int, seen: int, out: seq<Packet>)
    requires CoreOk(cs, links, cal, tick, seen, out) && |cal| == SCHEDLEN && cal[SlotIndex(tick)] == []
    ensures CoreOk(cs, links, cal, tick + 1, seen, out)
  {
    var next := tick + 1;
    forall h | 0 <= h < |cs|
      ensures LinkOk(cs[h], links[h], next)
    {
      LaterLink(cs[h], links[h], tick, next);
    }
    TickOk(cs, links, cal, tick, seen, out);
  }

  lemma {:induction false} HeadTaken(cs: seq<Config>, links: seq<Link>, cal: seq<seq<Packet>>, tick: int, seen: int, out: seq<Packet>, s: int)
    requires CoreOk(cs, links, cal, tick, seen, out) && |cal| == SCHEDLEN && s == SlotIndex(tick) && cal[s] != []
    ensures cal[s][0].due == tick
    ensures CoreOk(cs, links, TakeHead(cal, s), tick, seen, out) && InHand(cs, TakeHead(cal, s), seen, out, cal[s][0])
    ensures Work(cal[s]) == Remaining(cal[s][0]) + 1 + Work(TakeHead(cal, s)[s]) && Remaining(cal[s][0]) >= 0
  {
    hide LinkOk, WithinHorizon;
    TakeHeadOk(cs, links, cal, tick, seen, out, s);
  }

  lemma {:induction false} PacketDelivered(cs: seq<Config>, links: seq<Link>, cal: seq<seq<Packet>>, tick: int, seen: int, out: seq<Packet>, p: Packet)
    requires CoreOk(cs, links, cal, tick, seen, out) && InHand(cs, cal, seen, out, p) && p.hop == |p.path|
    ensures CoreOk(cs, links, cal, tick, seen, out + [p])
  {
    hide LinkOk, WithinHorizon, CalendarOk;
    DeliverOk(cs, links, cal, tick, seen, out, p);
  }

  lemma {:induction false} PacketArrives(cs: seq<Config>, links: seq<Link>, cal: seq<seq<Packet>>, tick: int, seen: int, out: seq<Packet>, p: Packet)
    requires CoreOk(cs, links, cal, tick, seen, out) && p.id == seen && p.hop == 0 && RouteOk(cs, p.path, p.len)
    ensures CoreOk(cs, links, cal, tick, seen + 1, out) && InHand(cs, cal, seen + 1, out, p)
  {
    hide LinkOk, WithinHorizon, CalendarOk;
    ArriveOk(cs, links, cal, tick, seen, out, p);
  }

  lemma NextRoute(cs: seq<Config>, links: seq<Link>, cal: seq<seq<Packet>>, tick: int, seen: int, out: seq<Packet>, p: Packet)
    requires CoreOk(cs, links, cal, tick, seen, out) && InHand(cs, cal, seen, out, p) && p.hop < |p.path|
    ensures RouteAt(cs, p.path, p.len, p.hop) && ConfigOk(cs[p.path[p.hop]]) && 0 <= p.len
  {
    assert RouteAt(cs, p.path, p.len, p.hop);
  }

  lemma {:induction false} LinkDrops(cs: seq<Config>, links: seq<Link>, cal: seq<seq<Packet>>, tick: int, seen: int, out: seq<Packet>, h: int)
    requires CoreOk(cs, links, cal, tick, seen, out) && 0 <= h < |cs|
    ensures |links| == |cs|
    ensures CoreOk(cs, links[h := Dropped(links[h], tick)], cal, tick, seen, out) && CoreOk(cs, links[h := links[h]], cal, tick, seen, out)
  {
    DroppedOk(cs[h], links[h], tick);
    LinkMoves(cs, links, cal, tick, seen, out, h, Dropped(links[h], tick));
    assert links[h := links[h]] == links;
  }

  lemma {:induction false} FlatMember(cal: seq<seq<Packet>>, k: int, p: Packet) returns (s: int, i: int)
    requires 0 <= k <= |cal| && p in Flat(cal, k)
    ensures 0 <= s < k && 0 <= i < |cal[s]| && cal[s][i] == p
  {
    if p in multiset(cal[k - 1]) {
      s := k - 1;
      i :| 0 <= i < |cal[s]| && cal[s][i] == p;
    } else {
      s, i := FlatMember(cal, k - 1, p);
    }
  }

  ghost predicate DispatchedAt(gone: seq<Dispatch>, p: Packet, tick: int) {
    exists k :: 0 <= k < |gone| && gone[k] == Dispatch(p, tick)
  }

  lemma {:induction false} GoneMember(gone: seq<Dispatch>, p: Packet)
    requires p in Packets(gone) && forall k :: 0 <= k < |gone| ==> gone[k].pkt.due == gone[k].tick
    ensures DispatchedAt(gone, p, p.due)
  {
    var n := |gone| - 1;
    if gone[n].pkt == p {
      assert gone[n] == Dispatch(p, p.due);
    } else {
      GoneMember(gone[..n], p);
      var k :| 0 <= k < n && gone[..n][k] == Dispatch(p, p.due);
      assert gone[k] == Dispatch(p, p.due);
    }
  }

  lemma {:induction false} PacketsSize(gone: seq<Dispatch>)
    ensures |Packets(gone)| == |gone|
  {
    if gone != [] {
      PacketsSize(gone[..|gone| - 1]);
    }
  }

  lemma InOrderNow(cs: seq<Config>, links: seq<Link>, cal: seq<seq<Packet>>, tick: int, seen: int, out: seq<Packet>)
    requires CoreOk(cs, links, cal, tick, seen, out)
    ensures InOrder(out)
  {
  }

  lemma NotOverdue(cs: seq<Config>, links: seq<Link>, cal: seq<seq<Packet>>, tick: int, seen: int, out: seq<Packet>, p: Packet)
    requires CoreOk(cs, links, cal, tick, seen, out) && p in All(cal)
    ensures p.due >= tick
  {
    var s, i := FlatMember(cal, |cal|, p);
    assert PlaceOk(cs, links, cal, tick, seen, s, i);
  }

  lemma {:induction false} GoneIn(gone: seq<Dispatch>, k: int)
    requires 0 <= k < |gone|
    ensures gone[k].pkt in Packets(gone)
  {
    if k < |gone| - 1 {
      GoneIn(gone[..|gone| - 1], k);
    }
  }

  lemma {:induction false} EmptyCalendar(cal: seq<seq<Packet>>, k: int)
    requires 0 <= k <= |cal| && forall s :: 0 <= s < |cal| ==> cal[s] == []
    ensures Flat(cal, k) == multiset{}
  {
    if k > 0 {
      EmptyCalendar(cal, k - 1);
    }
  }

  // ---------------------------------------------------------------- what a run guarantees within the horizon

  lemma {:induction false} AdvanceTimed(cs: seq<Config>, s: System, p: Packet, roll: int)
    requires Sized(cs, s) && CoreOk(cs, s.links, s.cal, s.tick, s.seen, s.out) && InHand(cs, s.cal, s.seen, s.out, p)
    ensures 0 <= p.hop <= |p.path| && RouteOk(cs, p.path, p.len)
    ensures var s' := Advance(cs, s, p, roll); CoreOk(cs, s'.links, s'.cal, s'.tick, s'.seen, s'.out)
  {
    assert 0 <= p.hop <= |p.path| && RouteOk(cs, p.path, p.len);
    hide CoreOk, InHand, Joined, Dropped, Room, Put;
    if p.hop == |p.path| {
      PacketDelivered(cs, s.links, s.cal, s.tick, s.seen, s.out, p);
    } else {
      NextRoute(cs, s.links, s.cal, s.tick, s.seen, s.out, p);
      var h := p.path[p.hop];
      if Lost(cs[h], roll) {
      } else if !Room(cs[h], s.links[h], s.tick) {
        LinkDrops(cs, s.links, s.cal, s.tick, s.seen, s.out, h);
      } else {
        CrossOk(cs, s.links, s.cal, s.tick, s.seen, s.out, p);
      }
    }
  }

  ghost predicate Timed(cs: seq<Config>, s: System) {
    CoreOk(cs, s.links, s.cal, s.tick, s.seen, s.out) && OnTime(s.gone)
  }

  lemma {:induction false} StartTimed(cs: seq<Config>, s: System)
    requires Start(cs, s) && WithinHorizon(cs)
    ensures Timed(cs, s)
  {
  }

  lemma {:induction false} StepTimed(cs: seq<Config>, s: System, s': System)
    requires Timed(cs, s) && Step(cs, s, s')
    ensures Timed(cs, s')
  {
    hide CoreOk, SlotIndex, InHand, RouteOk;
    var slot := SlotIndex(s.tick);
    if len, path, roll :| ArrivesAs(cs, s, s', len, path, roll) {
      var p := Packet(s.seen, len, path, 0, 0);
      PacketArrives(cs, s.links, s.cal, s.tick, s.seen, s.out, p);
      AdvanceTimed(cs, s.(seen := s.seen + 1), p, roll);
      AdvanceKeeps(cs, s.(seen := s.seen + 1), p, roll);
    } else if roll :| DispatchesAs(cs, s, s', roll) {
      HeadTaken(cs, s.links, s.cal, s.tick, s.seen, s.out, slot);
      AdvanceTimed(cs, Taken(s), s.cal[slot][0], roll);
      AdvanceKeeps(cs, Taken(s), s.cal[slot][0], roll);
    } else {
      ClockTicks(cs, s.links, s.cal, s.tick, s.seen, s.out);
    }
  }

  lemma {:induction false} RunTimed(cs: seq<Config>, run: seq<System>, i: int)
    requires Run(cs, run) && WithinHorizon(cs) && 0 <= i < |run|
    ensures Timed(cs, run[i])
    decreases i
  {
    hide Timed, Step, Start, WithinHorizon;
    if i == 0 {
      StartTimed(cs, run[0]);
    } else {
      RunTimed(cs, run, i - 1);
      StepTimed(cs, run[i - 1], run[i]);
    }
  }

  /**
   * In every run and at any moment of it: no queue holds more than its slots, the counter counts what is
   * in the calendar, and nothing was taken out that was not put in. And when no packet can be sent further
   * ahead than the calendar reaches: every packet queued for a tick that has passed was dispatched exactly
   * then, and what came out of a route came out in the order of arrival.
   */
  lemma {:induction false} EveryRun(cs: seq<Config>, run: seq<System>, i: int)
    requires Run(cs, run) && 0 <= i < |run|
    ensures var s := run[i];
      && |s.links| == |cs| && (forall h :: 0 <= h < |s.links| ==> |s.links[h].slots| <= cs[h].qsize)
      && s.queued == |All(s.cal)| == |s.entered| - |s.gone|
      && forall k :: 0 <= k < |s.gone| ==> s.gone[k].pkt in s.entered
    ensures var s := run[i];
      WithinHorizon(cs) ==>
        && (forall p :: p in s.entered && p.due < s.tick ==> DispatchedAt(s.gone, p, p.due))
        && (forall k :: 0 <= k < |s.gone| ==> s.gone[k].tick == s.gone[k].pkt.due)
        && InOrder(s.out)
  {
    hide WithinHorizon;
    var s := run[i];
    RunBasic(cs, run, i);
    PacketsSize(s.gone);
    forall k | 0 <= k < |s.gone|
      ensures s.gone[k].pkt in s.entered
    {
      GoneIn(s.gone, k);
    }
    if WithinHorizon(cs) {
      RunTimed(cs, run, i);
      InOrderNow(cs, s.links, s.cal, s.tick, s.seen, s.out);
      forall p | p in s.entered && p.due < s.tick
        ensures DispatchedAt(s.gone, p, p.due)
      {
        if p in All(s.cal) {
          NotOverdue(cs, s.links, s.cal, s.tick, s.seen, s.out, p);
        }
        GoneMember(s.gone, p);
      }
    }
  }

  // ---------------------------------------------------------------- beyond the horizon

  /** A fast idle link with a delay of one whole turn of the calendar. */
  const FAR: Config := Config(1000, SCHEDLEN, 0, 1, 1000, 1000, 1500)

  ghost function IdleSystem(): (s: System) {
    System([Idle()], seq(SCHEDLEN, _ => []), 0, 0, [], multiset{}, [], 0)
  }

  /** An arrival on it is put into the slot the clock is looking at, and leaves a whole turn early. */
  lemma {:induction false} LeavesATurnEarly() returns (run: seq<System>, p: Packet)
    ensures Run([FAR], run) && |run| == 3 && ConfigOk(FAR) && !WithinHorizon([FAR])
    ensures p.due == SCHEDLEN && |run[1].cal| == SCHEDLEN && p in run[1].cal[SlotIndex(p.due)]
    ensures run[2].gone == [Dispatch(p, 0)] && run[2].out == [p] && FirstAt(run[2].gone, |run[1].gone|, p, p.due - SCHEDLEN)
  {
    var cs, s0 := [FAR], IdleSystem();
    assert Start(cs, s0);
    assert RouteAt(cs, [0], 100, 0) && RouteOk(cs, [0], 100);
    var l := Joined(FAR, Idle(), 0, 100);
    assert l.last == 0;
    var s1 := Advance(cs, s0.(seen := 1), Packet(0, 100, [0], 0, 0), 0);
    p := Packet(0, 100, [0], 1, SCHEDLEN);
    assert s1.cal[0] == [p];
    assert ArrivesAs(cs, s0, s1, 100, [0], 0);
    var s2 := Advance(cs, Taken(s1), p, 0);
    assert DispatchesAs(cs, s1, s2, 0);
    run := [s0, s1, s2];
    assert s2.gone[0] == Dispatch(p, 0) && NotYet(s2.gone, 0, 0, p);
    assert Slowest(FAR) >= 0 by {
      TransmitBounds(FAR, 0, 0);
    }
  }
}
