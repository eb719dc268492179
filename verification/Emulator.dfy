// The emulator core: local bandwidth-limited links, the calendar and the clock, all under one mutex
// (emulate_nexthop, emulate_path and hopclock, emulator/freebsd6.4/module/ip_modelnet.c).
module Emulator {
  import opened Hops
  import opened Links
  import opened Calendars
  import opened Runs

  /** Some draw of the kernel's generator. */
  method Random() returns (r: int)
    ensures 0 <= r < 0x8000_0000
  {
    r :| 0 <= r < 0x8000_0000;
  }

  ghost predicate IdleHop(hop: Hop, c: Config, rings: set<array<int>>)
    reads hop, hop.exittick, hop.slotlen
  {
    hop.Valid(0) && hop.View() == Idle() && hop.c == c && hop.exittick in rings && hop.slotlen in rings
  }

  ghost predicate SeparateHops(hs: seq<Hop>, h: int, k: int)
    requires 0 <= h < |hs| && 0 <= k < |hs|
  {
    h != k ==> hs[h] != hs[k] && {hs[h].exittick, hs[h].slotlen} !! {hs[k].exittick, hs[k].slotlen}
  }

  lemma {:induction false} RunGrows(cs: seq<Config>, run: seq<System>, s: System)
    requires Run(cs, run) && Step(cs, run[|run| - 1], s)
    ensures Run(cs, run + [s])
  {
    hide Step, Start;
    var run' := run + [s];
    forall i, j | 0 <= i && j == i + 1 && j < |run'|
      ensures Step(cs, run'[i], run'[j])
    {
      if j < |run| {
        assert Step(cs, run[i], run[j]);
      }
    }
  }

  lemma RunBegins(cs: seq<Config>, s: System)
    requires Start(cs, s)
    ensures Run(cs, [s])
  {
  }

  class Core {
    const hops: seq<Hop>
    const calendar: array<seq<Packet>>
    var calendarTick: int
    var pktsQueued: int
    var pktsSeen: int
    ghost const cs: seq<Config>
    ghost var links: seq<Link>
    /** Every packet ever put into the calendar, every one taken out, and every one forwarded at the end of its route. */
    ghost var entered: multiset<Packet>
    ghost var gone: seq<Dispatch>
    ghost var out: seq<Packet>
    /** The states the core has gone through. */
    ghost var history: seq<System>

    ghost const arrays: set<array<int>>

    ghost function View(): System
      reads `calendarTick, `pktsQueued, `pktsSeen, `links, `entered, `gone, `out, calendar
    {
      System(links, calendar[..], calendarTick, pktsSeen, out, entered, gone, pktsQueued)
    }

    ghost predicate HopOk(h: int)
      reads `links, `calendarTick, hops, arrays
      requires 0 <= h < |hops| == |cs| == |links|
    {
      && hops[h].exittick in arrays && hops[h].slotlen in arrays && hops[h].c == cs[h]
      && hops[h].Valid(calendarTick) && hops[h].View() == links[h]
    }

    ghost predicate HopsOk()
      reads `links, `calendarTick, hops, arrays
    {
      && |hops| == |cs| == |links|
      && (forall h :: 0 <= h < |hops| ==> HopOk(h))
      && (forall h, k :: 0 <= h < |hops| && 0 <= k < |hops| ==> SeparateHops(hops, h, k))
    }

    /** The core is in the last state of a run. */
    ghost predicate Valid()
      reads this, calendar, hops, arrays
    {
      HopsOk() && Run(cs, history) && history[|history| - 1] == View()
    }

    lemma ValidFacts()
      requires Valid()
      ensures Basic(cs, View()) && Sized(cs, View()) && calendar.Length == SCHEDLEN && calendarTick >= 0 && |history| > 0
    {
      RunBasic(cs, history, |history| - 1);
    }

    /** A core with idle links and an empty calendar; `rings` holds their arrays. */
    constructor (hs: seq<Hop>, ghost configs: seq<Config>, ghost rings: set<array<int>>)
      requires |configs| == |hs|
      requires forall h :: 0 <= h < |hs| ==> IdleHop(hs[h], configs[h], rings)
      requires forall h, k :: 0 <= h < |hs| && 0 <= k < |hs| ==> SeparateHops(hs, h, k)
      ensures Valid() && hops == hs && cs == configs && calendarTick == 0 && entered == multiset{} && gone == [] && out == []
    {
      hide LinkOk;
      hops := hs;
      calendar := new seq<Packet>[SCHEDLEN](_ => []);
      calendarTick, pktsQueued, pktsSeen := 0, 0, 0;
      cs := configs;
      links := seq(|hs|, h => Idle());
      entered, gone, out := multiset{}, [], [];
      arrays := rings;
      new;
      assert forall h :: 0 <= h < |hops| ==> old(IdleHop(hs[h], configs[h], rings)) && HopOk(h);
      history := [View()];
      RunBegins(cs, View());
    }

    /** One link does something; the others are not touched. */
    method Cross(h: int, p: Packet, roll: int) returns (dropped: bool, tailexit: int)
      requires HopsOk() && 0 <= h < |hops| && ConfigOk(cs[h]) && 0 <= p.len <= cs[h].mtu
      modifies this`links, hops[h], hops[h].exittick, hops[h].slotlen
      ensures HopsOk()
      ensures dropped <==> Lost(cs[h], roll) || !Room(cs[h], old(links)[h], calendarTick)
      ensures links == old(links)[h := if Lost(cs[h], roll) then old(links)[h]
                                       else if dropped then Dropped(old(links)[h], calendarTick)
                                       else Joined(cs[h], old(links)[h], calendarTick, p.len)]
      ensures !dropped ==> tailexit == links[h].last
    {
      hide Joined, Dropped, Room, LinkOk;
      assert HopOk(h);
      dropped, tailexit := hops[h].EmulateHop(p.len, calendarTick, roll);
      links := links[h := hops[h].View()];
      forall k | 0 <= k < |hops|
        ensures HopOk(k)
      {
        assert old(HopOk(k)) && SeparateHops(hops, h, k);
      }
    }

    /** Advances the packet in hand by one hop; past the last one it is forwarded. */
    method EmulateNexthop(p: Packet) returns (ghost roll: int)
      requires HopsOk() && Basic(cs, View()) && Sized(cs, View())
      requires 0 <= p.id < pktsSeen && 0 <= p.hop <= |p.path| && RouteOk(cs, p.path, p.len)
      modifies this`links, this`entered, this`out, this`pktsQueued, hops, calendar, arrays
      ensures HopsOk() && View() == Advance(cs, old(View()), p, roll)
    {
      hide Basic, LinkOk, Joined, Dropped, Room, RouteOk, SlotIndex;
      roll := 0;
      if p.hop == |p.path| {
        out := out + [p];
        return;
      }
      ghost var s := View();
      var h := p.path[p.hop];
      OnRoute(cs, p.path, p.len, p.hop);
      assert HopOk(h);
      var draw := Random();
      roll := draw;
      var dropped, tailexit := Cross(h, p, draw);
      if !dropped {
        var q := p.(hop := p.hop + 1, due := tailexit + hops[h].c.delay);
        var slot := SlotIndex(q.due);
        calendar[slot] := calendar[slot] + [q];
        pktsQueued := pktsQueued + 1;
        entered := entered + multiset{q};
        assert calendar[..] == Put(s.cal, q);
      } else {
        assert links == s.links || links == s.links[h := Dropped(s.links[h], s.tick)];
      }
    }

    /** A packet reaches the core and starts on its route (emulate_path). */
    method EmulatePath(len: int, path: seq<int>) returns (ghost roll: int)
      requires Valid() && RouteOk(cs, path, len)
      modifies this`links, this`entered, this`out, this`pktsQueued, this`pktsSeen, this`history, hops, calendar, arrays
      ensures Valid() && Sized(cs, old(View())) && ArrivesAs(cs, old(View()), View(), len, path, roll)
      ensures history == old(history) + [View()]
    {
      hide Basic, RouteOk, Run, Step, SlotIndex;
      ValidFacts();
      ghost var s := View();
      ArrivalBasic(cs, s);
      var p := Packet(pktsSeen, len, path, 0, 0);
      pktsSeen := pktsSeen + 1;
      assert View() == s.(seen := s.seen + 1);
      roll := EmulateNexthop(p);
      assert ArrivesAs(cs, s, View(), len, path, roll);
      StepArrives(cs, s, View(), len, path, roll);
      RunGrows(cs, history, View());
      history := history + [View()];
    }

    /** Takes the packet at the head of the current slot and advances it. */
    method DispatchHead() returns (ghost roll: int)
      requires Valid() && calendar.Length == SCHEDLEN && calendar[SlotIndex(calendarTick)] != []
      modifies this`links, this`entered, this`gone, this`out, this`pktsQueued, this`history, hops, calendar, arrays
      ensures Valid() && Sized(cs, old(View())) && DispatchesAs(cs, old(View()), View(), roll)
      ensures history == old(history) + [View()] && calendarTick == old(calendarTick) && calendar.Length == SCHEDLEN
      ensures Work(calendar[SlotIndex(calendarTick)]) < old(Work(calendar[SlotIndex(calendarTick)]))
    {
      hide Basic, RouteOk, Run, Step, SlotIndex;
      ValidFacts();
      ghost var s := View();
      TakenBasic(cs, s);
      var slot := SlotIndex(calendarTick);
      var pkt := calendar[slot][0];
      calendar[slot] := calendar[slot][1..];
      pktsQueued := pktsQueued - 1;
      gone := gone + [Dispatch(pkt, calendarTick)];
      assert calendar[..] == TakeHead(s.cal, slot);
      assert View() == Taken(s);
      roll := EmulateNexthop(pkt);
      WorkFalls(cs, s, pkt, roll);
      assert DispatchesAs(cs, s, View(), roll);
      StepDispatches(cs, s, View(), roll);
      RunGrows(cs, history, View());
      history := history + [View()];
      assert calendar[slot] == calendar[..][slot];
    }

    /** The current slot is empty: the next tick begins. */
    method Tick()
      requires Valid() && calendar.Length == SCHEDLEN && calendar[SlotIndex(calendarTick)] == []
      modifies this`calendarTick, this`history
      ensures Valid() && TicksTo(old(View()), View()) && history == old(history) + [View()]
    {
      hide Basic, SlotIndex, LinkOk, Run, Step;
      ValidFacts();
      ghost var s := View();
      TickBasic(cs, s);
      BasicFacts(cs, s.(tick := s.tick + 1));
      calendarTick := calendarTick + 1;
      forall h | 0 <= h < |hops|
        ensures HopOk(h)
      {
        assert old(HopOk(h));
      }
      StepTicks(cs, s, View());
      RunGrows(cs, history, View());
      history := history + [View()];
    }

    /**
     * Advances the calendar to `ticks`, dispatching every packet on the way: within the horizon each at
     * the tick it is due, and each exactly once.
     */
    method HopClock(ticks: int)
      requires Valid() && calendarTick <= ticks
      modifies this`calendarTick, this`links, this`entered, this`gone, this`out, this`pktsQueued, this`history, hops, calendar, arrays
      ensures Valid() && calendarTick == ticks && pktsSeen == old(pktsSeen) && old(history) <= history && old(gone) <= gone
      ensures WithinHorizon(cs) ==> forall p :: p in entered && p.due < ticks ==> DispatchedAt(gone, p, p.due)
    {
      hide Basic, SlotIndex, Run, Step, WithinHorizon, RouteOk;
      ValidFacts();
      while calendarTick != ticks
        invariant Valid() && calendarTick <= ticks && calendar.Length == SCHEDLEN && pktsSeen == old(pktsSeen)
        invariant old(history) <= history && old(gone) <= gone
        decreases ticks - calendarTick
      {
        var slot := SlotIndex(calendarTick);
        ghost var tick := calendarTick;
        while calendar[slot] != []
          invariant Valid() && calendarTick == tick && slot == SlotIndex(tick) && calendar.Length == SCHEDLEN && pktsSeen == old(pktsSeen)
          invariant old(history) <= history && old(gone) <= gone
          decreases Work(calendar[slot])
        {
          ValidFacts();
          SlotWork(cs, View(), slot);
          ghost var s := View();
          ghost var roll := DispatchHead();
          AdvanceKeeps(cs, Taken(s), s.cal[slot][0], roll);
        }
        Tick();
      }
      ValidFacts();
      EveryRun(cs, history, |history| - 1);
    }
  }
}
