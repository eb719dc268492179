// Handing pipes over between running cores in three stages (tools/reassign.cpp).
module Reassign {
  import opened Finite

  /** Pipe `nr` moves from core `c1` to core `c2`. */
  datatype Change = Change(nr: int, c1: int, c2: int)

  /** What a core is told: the address to forward the packets of `pipe` to, or 0 to emulate it itself. */
  datatype Entry = Entry(pipe: int, owner: int)

  const STAGES := 3
  const LOCAL := 0

  function StageOf(x: int, ch: Change): int {
    if x == ch.c1 then 1 else if x == ch.c2 then 0 else 2
  }

  function Told(ips: map<int, int>, x: int, ch: Change): int {
    if x != ch.c1 && x == ch.c2 then LOCAL else if ch.c2 in ips then ips[ch.c2] else LOCAL
  }

  /** The entries of stage `k` for core `x`, in the order of the change file. */
  function Entries(changes: seq<Change>, ips: map<int, int>, x: int, k: int): seq<Entry> {
    if changes == [] then [] else
      var ch := changes[|changes| - 1];
      Entries(changes[..|changes| - 1], ips, x, k) + EntryIf(ips, x, ch, k)
  }

  function EntryIf(ips: map<int, int>, x: int, ch: Change, k: int): seq<Entry> {
    if StageOf(x, ch) == k then [Entry(ch.nr, Told(ips, x, ch))] else []
  }

  ghost predicate StagesAt(changes: seq<Change>, ips: map<int, int>, x: int, stages: seq<seq<Entry>>) {
    |stages| == STAGES && forall k :: 0 <= k < STAGES ==> stages[k] == Entries(changes, ips, x, k)
  }

  method MakeStages(changes: seq<Change>, cores: set<int>, coreToIP: map<int, int>) returns (stagesFor: map<int, seq<seq<Entry>>>)
    requires forall i :: 0 <= i < |changes| ==> changes[i].c2 in coreToIP
    ensures stagesFor.Keys == cores
    ensures forall x :: x in cores ==> StagesAt(changes, coreToIP, x, stagesFor[x])
  {
    stagesFor := map x | x in cores :: [[], [], []];
    for i := 0 to |changes|
      invariant stagesFor.Keys == cores
      invariant forall x :: x in cores ==> StagesAt(changes[..i], coreToIP, x, stagesFor[x])
    {
      assert changes[..i + 1][..i] == changes[..i];
      stagesFor := AddChange(changes[..i], changes[i], cores, coreToIP, stagesFor);
      assert changes[..i] + [changes[i]] == changes[..i + 1];
    }
    assert changes[..|changes|] == changes;
  }

  method AddChange(ghost before: seq<Change>, ch: Change, cores: set<int>, coreToIP: map<int, int>, stages0: map<int, seq<seq<Entry>>>)
    returns (stagesFor: map<int, seq<seq<Entry>>>)
    requires stages0.Keys == cores && ch.c2 in coreToIP
    requires forall x :: x in cores ==> StagesAt(before, coreToIP, x, stages0[x])
    ensures stagesFor.Keys == cores
    ensures forall x :: x in cores ==> StagesAt(before + [ch], coreToIP, x, stagesFor[x])
  {
    stagesFor := stages0;
    var rest := cores;
    while rest != {}
      invariant rest <= cores && stagesFor.Keys == cores
      invariant forall x :: x in rest ==> StagesAt(before, coreToIP, x, stagesFor[x])
      invariant forall x :: x in cores - rest ==> StagesAt(before + [ch], coreToIP, x, stagesFor[x])
      decreases |rest|
    {
      var x := Pick(rest);
      var stages := stagesFor[x];
      EntriesAppend(before, ch, coreToIP, x);
      if x == ch.c1 {
        stages := stages[1 := stages[1] + [Entry(ch.nr, coreToIP[ch.c2])]];
      } else if x == ch.c2 {
        stages := stages[0 := stages[0] + [Entry(ch.nr, LOCAL)]];
      } else {
        stages := stages[2 := stages[2] + [Entry(ch.nr, coreToIP[ch.c2])]];
      }
      stagesFor := stagesFor[x := stages];
      rest := rest - {x};
    }
  }

  lemma EntriesAppend(before: seq<Change>, ch: Change, ips: map<int, int>, x: int)
    ensures forall k :: Entries(before + [ch], ips, x, k) == Entries(before, ips, x, k) + EntryIf(ips, x, ch, k)
  {
    assert (before + [ch])[..|before + [ch]| - 1] == before;
  }

  // ---------------------------------------------------------------- positions in the lists

  /** Where the entry of change `i` stands in its stage for core `x`. */
  ghost function Position(changes: seq<Change>, ips: map<int, int>, x: int, i: int): int
    requires 0 <= i < |changes|
  {
    |Entries(changes[..i], ips, x, StageOf(x, changes[i]))|
  }

  lemma {:induction false} EntryIndex(changes: seq<Change>, ips: map<int, int>, x: int, i: int)
    requires 0 <= i < |changes|
    ensures var k := StageOf(x, changes[i]); var p := Position(changes, ips, x, i);
      p < |Entries(changes, ips, x, k)| && Entries(changes, ips, x, k)[p] == Entry(changes[i].nr, Told(ips, x, changes[i]))
  {
    var n := |changes| - 1;
    if i < n {
      EntryIndex(changes[..n], ips, x, i);
      assert changes[..n][..i] == changes[..i];
    }
  }

  lemma {:induction false} ShorterLists(changes: seq<Change>, ips: map<int, int>, x: int, k: int, i: int, j: int)
    requires 0 <= i <= j <= |changes|
    ensures |Entries(changes[..i], ips, x, k)| <= |Entries(changes[..j], ips, x, k)|
  {
    if i < j {
      ShorterLists(changes, ips, x, k, i, j - 1);
      assert changes[..j][..j - 1] == changes[..j - 1];
    }
  }

  /** No two changes share a position of one list. */
  lemma {:induction false} PositionsDiffer(changes: seq<Change>, ips: map<int, int>, x: int, i: int, j: int)
    requires 0 <= i < j < |changes| && StageOf(x, changes[i]) == StageOf(x, changes[j])
    ensures Position(changes, ips, x, i) < Position(changes, ips, x, j)
  {
    var k := StageOf(x, changes[i]);
    ShorterLists(changes, ips, x, k, i + 1, j);
    assert changes[..i + 1][..i] == changes[..i];
  }

  /** Every entry of a list comes from some change. */
  lemma {:induction false} EntrySource(changes: seq<Change>, ips: map<int, int>, x: int, k: int, d: int) returns (i: int)
    requires 0 <= d < |Entries(changes, ips, x, k)|
    ensures 0 <= i < |changes| && StageOf(x, changes[i]) == k && Position(changes, ips, x, i) == d
    ensures Entries(changes, ips, x, k)[d] == Entry(changes[i].nr, Told(ips, x, changes[i]))
  {
    var n := |changes| - 1;
    if d < |Entries(changes[..n], ips, x, k)| {
      i := EntrySource(changes[..n], ips, x, k, d);
      assert changes[..n][..i] == changes[..i];
    } else {
      i := n;
    }
  }

  // ---------------------------------------------------------------- the cores at work

  /**
   * `em(x, p)` is the emulator field of pipe `p` on core `x`. The coordinator has started stage
   * `stage`, of which core `x` has carried out `done(x)` entries.
   */
  datatype System = System(em: (int, int) -> int, stage: int, done: int -> int)

  datatype Plan = Plan(changes: seq<Change>, cores: set<int>, ips: map<int, int>)

  ghost predicate ChangeOk(plan: Plan, ch: Change) {
    ch.c1 in plan.cores && ch.c2 in plan.cores
  }

  /** Each pipe moves at most once, and cores have addresses of their own. */
  ghost predicate PlanOk(plan: Plan) {
    && (forall i, j :: 0 <= i < j < |plan.changes| ==> plan.changes[i].nr != plan.changes[j].nr)
    && (forall i :: 0 <= i < |plan.changes| ==> ChangeOk(plan, plan.changes[i]))
    && plan.cores <= plan.ips.Keys
    && (forall x :: x in plan.ips ==> plan.ips[x] != LOCAL)
    && (forall x, y :: x in plan.ips && y in plan.ips && plan.ips[x] == plan.ips[y] ==> x == y)
  }

  ghost predicate Moves(plan: Plan, i: int) {
    0 <= i < |plan.changes| && plan.changes[i].c1 != plan.changes[i].c2
  }

  /** Before: `c1` emulates the pipe and every other core forwards to it. */
  ghost function Before(plan: Plan, x: int, ch: Change): int
    requires PlanOk(plan) && ChangeOk(plan, ch)
  {
    if x == ch.c1 then LOCAL else plan.ips[ch.c1]
  }

  ghost predicate StartsAt(plan: Plan, s: System, x: int, i: int)
    requires PlanOk(plan) && 0 <= i < |plan.changes|
  {
    assert ChangeOk(plan, plan.changes[i]);
    s.em(x, plan.changes[i].nr) == Before(plan, x, plan.changes[i])
  }

  ghost predicate Init(plan: Plan, s: System)
    requires PlanOk(plan)
  {
    && s.stage == 0 && (forall x :: s.done(x) == 0)
    && forall x, i :: x in plan.ips && 0 <= i < |plan.changes| ==> StartsAt(plan, s, x, i)
  }

  /** Core `x` carries out its next entry. */
  ghost predicate Applies(plan: Plan, s: System, s': System, x: int) {
    var list := Entries(plan.changes, plan.ips, x, s.stage);
    && x in plan.cores && 0 <= s.stage < STAGES && 0 <= s.done(x) < |list|
    && s'.stage == s.stage
    && (forall y :: s'.done(y) == if y == x then s.done(x) + 1 else s.done(y))
    && (forall y, p :: s'.em(y, p) == if y == x && p == list[s.done(x)].pipe then list[s.done(x)].owner else s.em(y, p))
  }

  ghost predicate Finished(plan: Plan, s: System, x: int) {
    s.done(x) == |Entries(plan.changes, plan.ips, x, s.stage)|
  }

  ghost predicate WithinList(plan: Plan, s: System, x: int) {
    s.done(x) <= |Entries(plan.changes, plan.ips, x, s.stage)|
  }

  /** Every core has answered: the coordinator starts the next stage. */
  ghost predicate Barrier(plan: Plan, s: System, s': System) {
    && 0 <= s.stage < STAGES && (forall x :: x in plan.cores ==> Finished(plan, s, x))
    && s'.stage == s.stage + 1 && (forall y :: s'.done(y) == 0) && (forall y, p :: s'.em(y, p) == s.em(y, p))
  }

  ghost predicate Next(plan: Plan, s: System, s': System) {
    Barrier(plan, s, s') || exists x :: Applies(plan, s, s', x)
  }

  ghost predicate StepAt(plan: Plan, run: seq<System>, t: int)
    requires 0 < t < |run|
  {
    Next(plan, run[t - 1], run[t])
  }

  /** Any interleaving of the cores within a stage, with a barrier between stages. */
  ghost predicate Run(plan: Plan, run: seq<System>)
    requires PlanOk(plan)
  {
    run != [] && Init(plan, run[0]) && forall t :: 0 < t < |run| ==> StepAt(plan, run, t)
  }

  // ---------------------------------------------------------------- the invariant

  ghost predicate Applied(plan: Plan, s: System, x: int, i: int)
    requires 0 <= i < |plan.changes|
  {
    var k := StageOf(x, plan.changes[i]);
    x in plan.cores && (k < s.stage || (k == s.stage && Position(plan.changes, plan.ips, x, i) < s.done(x)))
  }

  /** What each core knows about each moving pipe depends only on how far it got. */
  ghost predicate KnowsAt(plan: Plan, s: System, x: int, i: int)
    requires PlanOk(plan) && 0 <= i < |plan.changes|
  {
    var ch := plan.changes[i];
    assert ChangeOk(plan, ch);
    s.em(x, ch.nr) == if Applied(plan, s, x, i) then Told(plan.ips, x, ch) else Before(plan, x, ch)
  }

  ghost predicate Inv(plan: Plan, s: System)
    requires PlanOk(plan)
  {
    && 0 <= s.stage <= STAGES && (forall x :: s.done(x) >= 0) && (forall x :: x in plan.cores ==> WithinList(plan, s, x))
    && forall x, i :: x in plan.ips && 0 <= i < |plan.changes| ==> KnowsAt(plan, s, x, i)
  }

  lemma InitInv(plan: Plan, s: System)
    requires PlanOk(plan) && Init(plan, s)
    ensures Inv(plan, s)
  {
    forall x, i | x in plan.ips && 0 <= i < |plan.changes|
      ensures KnowsAt(plan, s, x, i)
    {
      assert StartsAt(plan, s, x, i);
    }
  }

  lemma {:induction false} ApplyInv(plan: Plan, s: System, s': System, x: int)
    requires PlanOk(plan) && Inv(plan, s) && Applies(plan, s, s', x)
    ensures Inv(plan, s')
  {
    var i := EntrySource(plan.changes, plan.ips, x, s.stage, s.done(x));
    forall y, j | y in plan.ips && 0 <= j < |plan.changes|
      ensures KnowsAt(plan, s', y, j)
    {
      assert KnowsAt(plan, s, y, j);
      if y == x && j != i {
        assert plan.changes[i].nr != plan.changes[j].nr;
        if StageOf(x, plan.changes[j]) == s.stage {
          if i < j {
            PositionsDiffer(plan.changes, plan.ips, x, i, j);
          } else {
            PositionsDiffer(plan.changes, plan.ips, x, j, i);
          }
        }
      }
    }
  }

  lemma {:induction false} BarrierInv(plan: Plan, s: System, s': System)
    requires PlanOk(plan) && Inv(plan, s) && Barrier(plan, s, s')
    ensures Inv(plan, s')
  {
    forall y, j | y in plan.ips && 0 <= j < |plan.changes|
      ensures KnowsAt(plan, s', y, j)
    {
      assert KnowsAt(plan, s, y, j);
      if y in plan.cores {
        assert Finished(plan, s, y);
        EntryIndex(plan.changes, plan.ips, y, j);
      }
    }
  }

  lemma NextInv(plan: Plan, s: System, s': System)
    requires PlanOk(plan) && Inv(plan, s) && Next(plan, s, s')
    ensures Inv(plan, s') && s.stage <= s'.stage
  {
    if Barrier(plan, s, s') {
      BarrierInv(plan, s, s');
    } else {
      var x :| Applies(plan, s, s', x);
      ApplyInv(plan, s, s', x);
    }
  }

  lemma {:induction false} RunInv(plan: Plan, run: seq<System>, t: int)
    requires PlanOk(plan) && Run(plan, run) && 0 <= t < |run|
    ensures Inv(plan, run[t])
    decreases t
  {
    if t == 0 {
      InitInv(plan, run[0]);
    } else {
      RunInv(plan, run, t - 1);
      assert StepAt(plan, run, t);
      NextInv(plan, run[t - 1], run[t]);
    }
  }

  lemma {:induction false} StagesAdvance(plan: Plan, run: seq<System>, t: int, u: int)
    requires PlanOk(plan) && Run(plan, run) && 0 <= t <= u < |run|
    ensures run[t].stage <= run[u].stage
    decreases u
  {
    if t < u {
      StagesAdvance(plan, run, t, u - 1);
      RunInv(plan, run, u - 1);
      assert StepAt(plan, run, u);
      NextInv(plan, run[u - 1], run[u]);
    }
  }

  /** Before the last stage is over some core can go on, or the coordinator can. */
  lemma {:induction false} NeverStuck(plan: Plan, s: System)
    requires PlanOk(plan) && Inv(plan, s) && s.stage < STAGES
    ensures exists s' :: Next(plan, s, s')
  {
    if x :| x in plan.cores && !Finished(plan, s, x) {
      assert WithinList(plan, s, x);
      var e := Entries(plan.changes, plan.ips, x, s.stage)[s.done(x)];
      var s' := System((y, p) => if y == x && p == e.pipe then e.owner else s.em(y, p), s.stage,
                       y => if y == x then s.done(x) + 1 else s.done(y));
      assert Applies(plan, s, s', x);
      assert Next(plan, s, s');
    } else {
      var s' := System(s.em, s.stage + 1, y => 0);
      assert Next(plan, s, s');
    }
  }

  // ---------------------------------------------------------------- safety

  /** Core `y` is where `x` forwards packets of pipe `p`. */
  ghost predicate Forwards(plan: Plan, s: System, x: int, p: int, y: int) {
    y in plan.ips && s.em(x, p) == plan.ips[y]
  }

  /** At every moment one of the two cores of a change emulates its pipe. */
  lemma {:induction false} AlwaysAnOwner(plan: Plan, run: seq<System>, t: int, i: int)
    requires PlanOk(plan) && Moves(plan, i) && Run(plan, run) && 0 <= t < |run| && 0 <= i < |plan.changes|
    ensures var ch := plan.changes[i]; run[t].em(ch.c1, ch.nr) == LOCAL || run[t].em(ch.c2, ch.nr) == LOCAL
  {
    var ch := plan.changes[i];
    RunInv(plan, run, t);
    assert ChangeOk(plan, ch) && KnowsAt(plan, run[t], ch.c1, i) && KnowsAt(plan, run[t], ch.c2, i);
  }

  /** A forward goes to one of the two cores of the change, and to the new one only once that is ready for good. */
  lemma {:induction false} WhereTo(plan: Plan, run: seq<System>, t: int, x: int, i: int) returns (y: int)
    requires PlanOk(plan) && Moves(plan, i) && Run(plan, run) && 0 <= t < |run| && x in plan.ips && 0 <= i < |plan.changes|
    requires run[t].em(x, plan.changes[i].nr) != LOCAL
    ensures var ch := plan.changes[i];
      && Forwards(plan, run[t], x, ch.nr, y)
      && ((y == ch.c1 && x != ch.c1) || (y == ch.c2 && run[t].stage >= 1))
  {
    var ch := plan.changes[i];
    RunInv(plan, run, t);
    assert ChangeOk(plan, ch) && KnowsAt(plan, run[t], x, i);
    y := if Applied(plan, run[t], x, i) then ch.c2 else ch.c1;
  }

  lemma {:induction false} NewOwnerReady(plan: Plan, run: seq<System>, t: int, i: int)
    requires PlanOk(plan) && Moves(plan, i) && Run(plan, run) && 0 <= t < |run| && 0 <= i < |plan.changes| && run[t].stage >= 1
    ensures run[t].em(plan.changes[i].c2, plan.changes[i].nr) == LOCAL
  {
    RunInv(plan, run, t);
    assert ChangeOk(plan, plan.changes[i]) && KnowsAt(plan, run[t], plan.changes[i].c2, i);
  }

  /**
   * A packet that meets core `x` at step `t`, is forwarded to `y` where it arrives at step `u`, and is
   * forwarded again to `z` where it arrives at step `v`, finds the pipe local there: two forwards
   * always suffice, whatever changed on the way.
   */
  lemma {:induction false} TwoForwardsSuffice(plan: Plan, run: seq<System>, i: int, x: int, t: int, y: int, u: int, z: int, v: int)
    requires PlanOk(plan) && Moves(plan, i) && Run(plan, run) && 0 <= i < |plan.changes| && 0 <= t <= u <= v < |run|
    requires x in plan.ips && Forwards(plan, run[t], x, plan.changes[i].nr, y) && Forwards(plan, run[u], y, plan.changes[i].nr, z)
    ensures run[v].em(z, plan.changes[i].nr) == LOCAL
  {
    var y' := WhereTo(plan, run, t, x, i);
    var z' := WhereTo(plan, run, u, y, i);
    assert y == y' && z == z';
    StagesAdvance(plan, run, t, u);
    StagesAdvance(plan, run, u, v);
    if y == plan.changes[i].c2 {
      NewOwnerReady(plan, run, u, i);
    }
    NewOwnerReady(plan, run, v, i);
  }

  /** When all stages are over `c2` is the only owner and every named core forwards straight to it. */
  lemma {:induction false} FinalOwner(plan: Plan, run: seq<System>, t: int, i: int, x: int)
    requires PlanOk(plan) && Moves(plan, i) && Run(plan, run) && 0 <= t < |run| && run[t].stage == STAGES
    requires 0 <= i < |plan.changes| && x in plan.ips
    ensures var ch := plan.changes[i];
      && (run[t].em(x, ch.nr) == LOCAL <==> x == ch.c2)
      && (x in plan.cores && x != ch.c2 ==> Forwards(plan, run[t], x, ch.nr, ch.c2))
      && (x !in plan.cores ==> Forwards(plan, run[t], x, ch.nr, ch.c1))
  {
    RunInv(plan, run, t);
    assert ChangeOk(plan, plan.changes[i]) && KnowsAt(plan, run[t], x, i);
  }

  /** A change from a core to itself ends with nobody emulating the pipe. */
  lemma {:induction false} SelfChangeLosesPipe(plan: Plan, run: seq<System>, t: int, i: int, x: int)
    requires PlanOk(plan) && Run(plan, run) && 0 <= t < |run| && run[t].stage == STAGES
    requires 0 <= i < |plan.changes| && x in plan.ips && plan.changes[i].c1 == plan.changes[i].c2
    ensures run[t].em(x, plan.changes[i].nr) == plan.ips[plan.changes[i].c1] != LOCAL
  {
    RunInv(plan, run, t);
    assert ChangeOk(plan, plan.changes[i]) && KnowsAt(plan, run[t], x, i);
  }

  ghost predicate Owned(plan: Plan, s: System, p: int) {
    exists x :: x in plan.ips && s.em(x, p) == LOCAL
  }

  /** The hand-over leaves an owner exactly when it moves the pipe. */
  lemma {:induction false} OwnedIffMoved(plan: Plan, run: seq<System>, t: int, i: int)
    requires PlanOk(plan) && Run(plan, run) && 0 <= t < |run| && run[t].stage == STAGES && 0 <= i < |plan.changes|
    ensures Owned(plan, run[t], plan.changes[i].nr) <==> Moves(plan, i)
  {
    var ch := plan.changes[i];
    assert ChangeOk(plan, ch);
    if Moves(plan, i) {
      FinalOwner(plan, run, t, i, ch.c2);
    } else if Owned(plan, run[t], ch.nr) {
      var x :| x in plan.ips && run[t].em(x, ch.nr) == LOCAL;
      SelfChangeLosesPipe(plan, run, t, i, x);
    }
  }

  /** Pipes that are not in the change file keep their owners. */
  lemma {:induction false} OthersUntouched(plan: Plan, run: seq<System>, t: int, x: int, p: int)
    requires PlanOk(plan) && Run(plan, run) && 0 <= t < |run|
    requires forall i :: 0 <= i < |plan.changes| ==> plan.changes[i].nr != p
    ensures run[t].em(x, p) == run[0].em(x, p)
    decreases t
  {
    if t > 0 {
      OthersUntouched(plan, run, t - 1, x, p);
      assert StepAt(plan, run, t);
      var s, s' := run[t - 1], run[t];
      if !Barrier(plan, s, s') {
        var y :| Applies(plan, s, s', y);
        var i := EntrySource(plan.changes, plan.ips, y, s.stage, s.done(y));
      }
    }
  }
}
