// One emulated link: the ring that stands for its bandwidth queue
// (update_bwq and emulate_hop, emulator/freebsd6.4/module/ip_modelnet.c).
module Hops {
  /** Fixed parameters of a link; `hz` is the clock rate and `mtu` bounds packet lengths. */
  datatype Config = Config(kbps: int, delay: int, plr: int, qsize: int, bytespertick: int, hz: int, mtu: int)

  predicate ConfigOk(c: Config) {
    c.kbps > 0 && c.delay >= 0 && c.plr >= 0 && c.qsize > 0 && c.bytespertick >= 0 && c.hz > 0 && c.mtu >= 0
  }

  datatype Slot = Slot(exit: int, len: int)

  function Quo(a: int, b: int): int
    requires b > 0
  {
    a / b
  }

  function Rem(a: int, b: int): int
    requires b > 0
  {
    a % b
  }

  /** What crossing costs: ticks of transmission, and bytes left unused in the last of them. */
  datatype Cost = Cost(bwdelay: int, fragment: int)

  /** Ticks for `len` bytes at `kbps` kilobytes a second: as many whole ones as fit. */
  function SlowTicks(c: Config, len: int): (r: int)
    requires ConfigOk(c)
    ensures len >= 0 ==> r >= 0 && r * 1000 * c.kbps <= len * c.hz < (r + 1) * 1000 * c.kbps
  {
    SlowQuotient(c, len);
    Quo(len * c.hz, 1000 * c.kbps)
  }

  lemma SlowQuotient(c: Config, len: int)
    requires ConfigOk(c)
    ensures var r := Quo(len * c.hz, 1000 * c.kbps);
      len >= 0 ==> r >= 0 && r * 1000 * c.kbps <= len * c.hz < (r + 1) * 1000 * c.kbps
  {
    var s, b := len * c.hz, 1000 * c.kbps;
    DivFacts(s, b);
    var r := Quo(s, b);
    assert r * b == r * 1000 * c.kbps && (r + 1) * b == (r + 1) * 1000 * c.kbps;
    if len >= 0 {
      assert s >= 0;
    }
  }

  /** Integer arithmetic of lines 180-211. */
  function Transmit(c: Config, fragment: int, len: int): Cost
    requires ConfigOk(c)
  {
    if fragment > len then
      Cost(0, fragment - len)
    else
      var rest := len - fragment;
      if rest != 0 && c.bytespertick > 50 then
        var remainder := rest % c.bytespertick;
        Cost(rest / c.bytespertick + if fragment != 0 then 1 else 0, if remainder != 0 then c.bytespertick - remainder else 0)
      else
        Cost(SlowTicks(c, rest), 0)
  }

  /** A packet on a fast link that needs ticks of its own. */
  lemma FastCase(c: Config, fragment: int, len: int)
    requires ConfigOk(c) && len > fragment && c.bytespertick > 50
    ensures var rest, b := len - fragment, c.bytespertick;
      Transmit(c, fragment, len) ==
        Cost(Quo(rest, b) + (if fragment != 0 then 1 else 0), if Rem(rest, b) != 0 then b - Rem(rest, b) else 0)
  {
  }

  /** The most ticks one packet can take. */
  function Slowest(c: Config): int
    requires ConfigOk(c)
  {
    if c.bytespertick > 50 then Quo(c.mtu, c.bytespertick) + 1 else SlowTicks(c, c.mtu)
  }

  ghost predicate FragmentOk(c: Config, fragment: int) {
    0 <= fragment && (c.bytespertick > 50 ==> fragment < c.bytespertick) && (c.bytespertick <= 50 ==> fragment == 0)
  }

  lemma DivUnique(s: int, b: int, q: int, r: int)
    requires b > 0 && 0 <= r < b && s == q * b + r
    ensures Quo(s, b) == q && Rem(s, b) == r
  {
    var d := q - s / b;
    assert d * b == s % b - r;
    assert (d >= 1 ==> d * b >= b) && (d <= -1 ==> d * b <= -b);
  }

  lemma DivFacts(s: int, b: int)
    requires b > 0
    ensures s == Quo(s, b) * b + Rem(s, b) && 0 <= Rem(s, b) < b
    ensures s >= 0 ==> Quo(s, b) >= 0
  {
  }

  lemma DivMonotone(a: int, b: int, d: int)
    requires 0 <= a <= b && d > 0
    ensures 0 <= Quo(a, d) <= Quo(b, d) && 0 <= Rem(a, d) < d
  {
    hide Quo, Rem;
    DivFacts(a, d);
    DivFacts(b, d);
    var k := Quo(a, d) - Quo(b, d);
    assert k * d == a - b + Rem(b, d) - Rem(a, d) < d;
    assert k >= 1 ==> k * d >= d;
  }

  lemma {:induction false} TransmitBounds(c: Config, fragment: int, len: int)
    requires ConfigOk(c) && FragmentOk(c, fragment) && 0 <= len <= c.mtu
    ensures 0 <= Transmit(c, fragment, len).bwdelay <= Slowest(c)
    ensures FragmentOk(c, Transmit(c, fragment, len).fragment)
  {
    hide Quo, Rem, SlowTicks;
    var rest := len - fragment;
    SlowFacts(c, len, c.mtu);
    if c.bytespertick > 50 {
      DivMonotone(0, c.mtu, c.bytespertick);
    }
    if c.bytespertick > 50 && rest > 0 {
      DivMonotone(rest, c.mtu, c.bytespertick);
      FastCase(c, fragment, len);
    } else if rest >= 0 {
      assert rest == if c.bytespertick > 50 then 0 else len;
      assert Transmit(c, fragment, len) == Cost(SlowTicks(c, rest), 0);
    }
  }

  lemma SlowFacts(c: Config, len: int, more: int)
    requires ConfigOk(c) && 0 <= len <= more
    ensures SlowTicks(c, 0) == 0 <= SlowTicks(c, len) <= SlowTicks(c, more)
  {
    hide Quo, Rem;
    ScaleMonotone(len, more, c.hz);
    DivUnique(0, 1000 * c.kbps, 0, 0);
    DivMonotone(len * c.hz, more * c.hz, 1000 * c.kbps);
  }

  lemma ScaleMonotone(a: int, b: int, k: int)
    requires 0 <= a <= b && k > 0
    ensures 0 <= a * k <= b * k
  {
    assert (b - a) * k >= 0;
  }

  /**
   * What is charged for `len` bytes when `f0` bytes were left over, told without computing it: `f` bytes
   * of the last tick are left over, and the ticks of a fast link carry just what is sent and left.
   */
  ghost predicate Charged(c: Config, f0: int, len: int, bwdelay: int, f: int)
    requires ConfigOk(c)
  {
    if len < f0 then bwdelay == 0 && f == f0 - len
    else if len == f0 then bwdelay == 0 && f == 0
    else if c.bytespertick > 50 then
      var ticks := bwdelay - if f0 != 0 then 1 else 0;
      && 0 <= f < c.bytespertick
      && len - f0 + f == (ticks + if f != 0 then 1 else 0) * c.bytespertick
    else
      f == 0 && bwdelay * 1000 * c.kbps <= (len - f0) * c.hz < (bwdelay + 1) * 1000 * c.kbps
  }

  lemma {:induction false} TransmitCharges(c: Config, f0: int, len: int)
    requires ConfigOk(c)
    ensures Charged(c, f0, len, Transmit(c, f0, len).bwdelay, Transmit(c, f0, len).fragment)
  {
    hide Quo, Rem, SlowTicks;
    SlowFacts(c, 0, 0);
    var rest, b := len - f0, c.bytespertick;
    if rest > 0 && b > 50 {
      FastCase(c, f0, len);
      DivFacts(rest, b);
      assert (Quo(rest, b) + 1) * b == Quo(rest, b) * b + b;
    } else if rest > 0 {
      assert Transmit(c, f0, len) == Cost(SlowTicks(c, rest), 0);
    }
  }

  // ---------------------------------------------------------------- against the ideal link

  ghost function Sum(lens: seq<int>): int {
    if lens == [] then 0 else Sum(lens[..|lens| - 1]) + lens[|lens| - 1]
  }

  /** Exit tick and left-over bytes after the packets `lens` entered an idle link at tick `start`. */
  ghost function Busy(c: Config, start: int, lens: seq<int>): (r: Cost)
    requires ConfigOk(c)
  {
    if lens == [] then Cost(start, 0) else
      var before := Busy(c, start, lens[..|lens| - 1]);
      var t := Transmit(c, before.fragment, lens[|lens| - 1]);
      Cost(before.bwdelay + t.bwdelay, t.fragment)
  }

  /** Packets that used up the left-over bytes exactly. */
  ghost function ExactFits(c: Config, start: int, lens: seq<int>): nat
    requires ConfigOk(c)
  {
    if lens == [] then 0 else
      var before := Busy(c, start, lens[..|lens| - 1]);
      ExactFits(c, start, lens[..|lens| - 1]) + if before.fragment != 0 && before.fragment == lens[|lens| - 1] then 1 else 0
  }

  ghost function SlowSum(c: Config, lens: seq<int>): int
    requires ConfigOk(c)
  {
    if lens == [] then 0 else SlowSum(c, lens[..|lens| - 1]) + SlowTicks(c, lens[|lens| - 1])
  }

  /** A slow link sends one packet after the other, each for the whole ticks its bytes take, and never has bytes left over. */
  lemma {:induction false} SlowLink(c: Config, start: int, lens: seq<int>)
    requires ConfigOk(c) && c.bytespertick <= 50 && forall i :: 0 <= i < |lens| ==> lens[i] >= 0
    ensures Busy(c, start, lens) == Cost(start + SlowSum(c, lens), 0)
  {
    hide SlowTicks;
    if lens != [] {
      SlowLink(c, start, lens[..|lens| - 1]);
      assert Transmit(c, 0, lens[|lens| - 1]) == Cost(SlowTicks(c, lens[|lens| - 1]), 0);
    }
  }

  /** Whole ticks of `s` bytes, given that `f` more would fill the last one. */
  lemma WholeTicks(s: int, f: int, b: int, q: int)
    requires b > 0 && 0 <= f < b && s + f == q * b
    ensures Quo(s, b) == q - if f != 0 then 1 else 0
  {
    hide Quo, Rem;
    if f != 0 {
      assert s == (q - 1) * b + (b - f);
      DivUnique(s, b, q - 1, b - f);
    } else {
      DivUnique(s, b, q, 0);
    }
  }

  /** How many bytes the ticks used so far could have carried. */
  ghost function Carried(c: Config, start: int, lens: seq<int>): int
    requires ConfigOk(c)
  {
    Sum(lens) + Busy(c, start, lens).fragment
  }

  /**
   * On a fast link the latest packet leaves after as many ticks as all bytes since the link was idle
   * fill completely, less one for every packet that exactly used up a left-over: never later than
   * on an ideal link of the same rate.
   */
  lemma {:induction false} IdealLink(c: Config, start: int, lens: seq<int>)
    requires ConfigOk(c) && c.bytespertick > 50 && forall i :: 0 <= i < |lens| ==> lens[i] >= 0
    ensures Busy(c, start, lens).bwdelay == start + Quo(Sum(lens), c.bytespertick) - ExactFits(c, start, lens)
    ensures 0 <= Busy(c, start, lens).fragment < c.bytespertick
    ensures Rem(Carried(c, start, lens), c.bytespertick) == 0
  {
    hide Quo, Rem, SlowTicks;
    var b := c.bytespertick;
    if lens == [] {
      DivUnique(0, b, 0, 0);
    } else {
      var init, len := lens[..|lens| - 1], lens[|lens| - 1];
      IdealLink(c, start, init);
      var s, f := Sum(init), Busy(c, start, init).fragment;
      SlowFacts(c, 0, 0);
      IdealStep(s, f, len, b);
      assert Sum(lens) == s + len;
      var t := Transmit(c, f, len);
      assert Busy(c, start, lens) == Cost(Busy(c, start, init).bwdelay + t.bwdelay, t.fragment);
      if len > f {
        FastCase(c, f, len);
      }
      if len == f {
        assert t == Cost(SlowTicks(c, 0), 0);
        assert Carried(c, start, lens) == s + len;
      } else {
        assert Carried(c, start, lens) == s + len + t.fragment;
      }
    }
  }

  /** The arithmetic of one more packet: it fits into the left-over, fills it, or needs ticks of its own. */
  lemma IdealStep(s: int, f: int, len: int, b: int)
    requires b > 0 && 0 <= f < b && Rem(s + f, b) == 0 && len >= 0
    ensures len < f ==> Quo(s + len, b) == Quo(s, b) && Rem(s + len + (f - len), b) == 0
    ensures len == f ==> Quo(s + len, b) == Quo(s, b) + (if f != 0 then 1 else 0) && Rem(s + len, b) == 0
    ensures len > f ==>
      var rest := len - f; var f' := if Rem(rest, b) != 0 then b - Rem(rest, b) else 0;
      Quo(s + len, b) == Quo(s, b) + Quo(rest, b) + (if f != 0 then 1 else 0) && 0 <= f' < b && Rem(s + len + f', b) == 0
  {
    hide Quo, Rem;
    var q := Quo(s + f, b);
    DivFacts(s + f, b);
    WholeTicks(s, f, b, q);
    if len < f {
      WholeTicks(s + len, f - len, b, q);
    } else if len > f {
      var rest := len - f;
      DivFacts(rest, b);
      assert s + len == q * b + Quo(rest, b) * b + Rem(rest, b) == (q + Quo(rest, b)) * b + Rem(rest, b);
      DivUnique(s + len, b, q + Quo(rest, b), Rem(rest, b));
      if Rem(rest, b) != 0 {
        assert s + len + (b - Rem(rest, b)) == (q + Quo(rest, b) + 1) * b;
        DivUnique(s + len + (b - Rem(rest, b)), b, q + Quo(rest, b) + 1, 0);
      }
    }
  }
}
