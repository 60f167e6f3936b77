/**
 Where connections go while health reports arrive: from a router to its balancer, and from a balancer to the
 child that a pick returned, as ServeTCP in pkg/tcp/wrr_load_balancer.go hands them on.
 */
module Connections {
  import opened Wrappers
  import opened Outages
  import opened Propagation
  import opened Interleaving

  /** Before any report every name is listed, so a connection gets to every balancer that it can be handed to. */
  lemma {:induction false} Travel(net: Net, b: nat) returns (actions: seq<Action>)
    requires (forall p :: 0 <= p < |net| ==> FullAt(net, p)) && Reached(net, b)
    ensures Leads(AtRest(net, multiset{}), actions, AtRest(net, multiset{b}))
  {
    if net[b].routed {
      actions := [Arrive(b)];
      assert multiset{} + multiset{b} == multiset{b};
    } else {
      var p: nat, i: nat :| HandsOn(net, p, i, b);
      var first := Travel(net, p);
      var last := PassedOn(net, p, i, b);
      LeadsOn(AtRest(net, multiset{}), first, AtRest(net, multiset{p}), last, AtRest(net, multiset{b}));
      actions := first + last;
    }
  }

  lemma PassedOn(net: Net, p: nat, i: nat, b: nat) returns (actions: seq<Action>)
    requires HandsOn(net, p, i, b) && FullAt(net, p)
    ensures Leads(AtRest(net, multiset{p}), actions, AtRest(net, multiset{b}))
  {
    var s := AtRest(net, multiset{p});
    var picking := State(net, map[], {p}, multiset{});
    assert InPool(net[p], net[p].pool[i].name) && Choosable(net[p], i);
    assert {} + {p} == {p} && multiset{p} - multiset{p} == multiset{};
    assert Next(s, Pick(p)) == picking;
    assert {p} - {p} == {} && multiset{} + multiset{b} == multiset{b};
    assert Next(picking, Picked(p, Some(i))) == AtRest(net, multiset{b});
    actions := [Pick(p), Picked(p, Some(i))];
    assert actions[1..] == [Picked(p, Some(i))] && actions[1..][1..] == [];
  }

  // ---------------------------------------------------------------------------
  // When every connection and every report comes to its end
  // ---------------------------------------------------------------------------

  /** No balancer that a connection can be handed to can reach a state in which a pick does not end. */
  ghost predicate NoSpinRisk(net: Net) {
    forall b: nat :: Reached(net, b) ==> !CanSpin(net, b)
  }

  lemma RiskSame(a: Net, r: Net)
    requires SameWiring(a, r) && NoSpinRisk(a)
    ensures NoSpinRisk(r)
  {
    forall b: nat | Reached(r, b) ensures !CanSpin(r, b) {
      ReachedSame(r, a, b);
      if CanSpin(r, b) { CanSpinSame(r, a, b); }
    }
  }

  lemma NoRiskNoSpin(s: State)
    requires LockInv(s) && NoSpinRisk(s.net)
    ensures NoneSpins(s)
  {
    forall b | b in s.picks ensures !Spinning(s, b) {
      assert Reached(s.net, b);
      NeverSpins(s.net, b);
    }
  }

  /** No lock is taken, and no connection is on its way. */
  predicate Settled(s: State) {
    NoLocks(s) && s.conns == multiset{}
  }

  /** The reports and connections that are there can all come to their end. */
  ghost predicate CanSettle(s: State) {
    exists actions, t :: AllOnward(actions) && Leads(s, actions, t) && Settled(t)
  }

  /** Without spinning picks, some report or connection can go on until all have come to their end. */
  lemma GoesOn(s: State)
    requires LockInv(s) && NoSpinRisk(s.net)
    ensures !Settled(s) <==> exists a :: Onward(a) && Enabled(s, a)
  {
    NoRiskNoSpin(s);
    NoDeadlock(s);
    if NoLocks(s) && s.conns != multiset{} {
      var b :| b in s.conns;
      assert Reached(s.net, b);
      assert Enabled(s, Pick(b));
    }
  }

  lemma {:induction false} SettleReached(s: State) returns (actions: seq<Action>, t: State)
    requires LockInv(s) && NoSpinRisk(s.net)
    ensures AllOnward(actions) && Leads(s, actions, t) && Settled(t)
    decreases Work(s)
  {
    GoesOn(s);
    if Settled(s) {
      actions, t := [], s;
    } else {
      var a :| Onward(a) && Enabled(s, a);
      var next := Next(s, a);
      StepWiring(s, a, next);
      StepKeepsLocks(s, a, next);
      StepUsesWork(s, a, next);
      RiskSame(s.net, next.net);
      var rest;
      rest, t := SettleReached(next);
      actions := [a] + rest;
      assert actions[1..] == rest;
    }
  }

  /**
   Without new reports and connections the goroutines take a bounded number of steps, and stop only when
   every report has returned and every connection has got a server or an error.
   */
  lemma AllEnd(states: seq<State>, actions: seq<Action>, i: nat)
    requires IsRun(states, actions) && LockInv(states[0]) && NoSpinRisk(states[0].net) && i < |states| && AllOnward(actions)
    ensures LockInv(states[i]) && i + Work(states[i]) <= Work(states[0])
    ensures (forall a :: Onward(a) ==> !Enabled(states[i], a)) <==> Settled(states[i])
  {
    RunUsesWork(states, actions, i);
    RunKeepsLocks(states, actions, i);
    RiskSame(states[0].net, states[i].net);
    GoesOn(states[i]);
  }

  ghost predicate EndsRestable(states: seq<State>) {
    states != [] && CanRest(states[|states| - 1])
  }

  ghost predicate EndsSettleable(states: seq<State>) {
    states != [] && CanSettle(states[|states| - 1])
  }

  /** A spinning pick never lets go of its lock. */
  lemma SpinNeverSettles(s: State, b: nat)
    requires LockInv(s) && Spinning(s, b)
    ensures !CanRest(s) && !CanSettle(s)
  {
    CanRestIff(s);
    if CanSettle(s) {
      var actions, t :| AllOnward(actions) && Leads(s, actions, t) && Settled(t);
      var states := LeadsIsRun(s, actions, t);
      SpinsForever(states, actions, b, |actions|);
    }
  }

  /** A balancer that can spin: a connection gets there, reports drain it, and then it picks. */
  lemma SpinReached(steps: seq<Step>, b: nat) returns (states: seq<State>, actions: seq<Action>)
    requires CanBuild(steps) && AttachedOnce(steps) && CanSpin(Built(steps), b) && Reached(Built(steps), b)
    ensures IsRun(states, actions) && states[0] == Start(steps)
    ensures LockInv(states[|actions|]) && Spinning(states[|actions|], b)
  {
    var net := Built(steps);
    BuiltStocked(steps);
    var reports := SpinReports(steps, b);
    var drained := Reported(net, reports);
    var first := Travel(net, b);
    var second := ReportsAlone(net, multiset{b}, reports);
    var mid := AtRest(drained, multiset{b});
    var end := Next(mid, Pick(b));
    assert Leads(mid, [Pick(b)], end);
    LeadsOn(Start(steps), first, AtRest(net, multiset{b}), second, mid);
    LeadsOn(Start(steps), first + second, mid, [Pick(b)], end);
    actions := first + second + [Pick(b)];
    states := LeadsIsRun(Start(steps), actions, end);
    StartLocks(steps);
    RunKeepsLocks(states, actions, |actions|);
  }

  /**
   However balancers are built, every interleaving of reports and connections can come to an end, with all
   locks given back and no connection waiting, if and only if no balancer to which entries of positive
   weight lead from a router has a name without weight next to names of positive weight that can all go down.
   */
  lemma ComesToRestIff(steps: seq<Step>)
    requires CanBuild(steps) && AttachedOnce(steps)
    ensures (forall states, actions :: IsRun(states, actions) && states[0] == Start(steps) ==> EndsRestable(states))
       <==> NoSpinRisk(Built(steps))
    ensures (forall states, actions :: IsRun(states, actions) && states[0] == Start(steps) ==> EndsSettleable(states))
       <==> NoSpinRisk(Built(steps))
  {
    if NoSpinRisk(Built(steps)) {
      forall states, actions | IsRun(states, actions) && states[0] == Start(steps)
        ensures EndsRestable(states) && EndsSettleable(states)
      {
        StartLocks(steps);
        RunKeepsLocks(states, actions, |actions|);
        var s: State := states[|actions|];
        RiskSame(Built(steps), s.net);
        NoRiskNoSpin(s);
        CanRestIff(s);
        var more, t := SettleReached(s);
      }
    } else {
      var b: nat :| Reached(Built(steps), b) && CanSpin(Built(steps), b);
      var states, actions := SpinReached(steps, b);
      SpinNeverSettles(states[|actions|], b);
      assert !EndsRestable(states) && !EndsSettleable(states);
    }
  }

  // ---------------------------------------------------------------------------
  // A pick that blocks a report
  // ---------------------------------------------------------------------------

  /** A weighted service with a child without weight and one with. */
  function IdleAndBusy(root: string, x: string, a: string, y: string, b: string, w: nat): seq<Step> {
    TwoChildren(root, x, a, Some(0), y, b, Some(w))
  }

  /** The parent lists only the child without weight. */
  function OnlyIdleUp(root: string, x: string, a: string, y: string, b: string, w: nat): Net {
    [Cell(root, true, true, true, [Server(x, 0, Some(1)), Server(y, w, Some(2))], {}, {x}, []),
     Leaf(x, a, [Hook(0, x)]), Leaf(y, b, [Hook(0, y)]).(status := {})]
  }

  /** The report that takes the other child down. */
  lemma BusyChildDown(root: string, x: string, a: string, y: string, b: string, w: nat)
    requires x != y
    ensures var steps := IdleAndBusy(root, x, a, y, b, w);
            && CanBuild(steps) && Acyclic(Built(steps)) && CanReport(Built(steps), Report(2, b, false))
            && Set(Built(steps), 2, b, false) == OnlyIdleUp(root, x, a, y, b, w)
  {
    var steps := IdleAndBusy(root, x, a, y, b, w);
    TwoChildrenBuild(root, x, a, Some(0), y, b, Some(w));
    BuiltOk(steps);
    var net := Built(steps);
    var next := net[2 := net[2].(status := {})];
    assert {b} - {b} == {} && {x, y} - {y} == {x};
    assert Marked(net[2].status, b, false) == {};
    assert Notified(next, 2, false, 0) == next;
    assert Notified(next, 2, false, 1) == Set(next, 0, y, false);
    assert Set(next, 0, y, false) == next[0 := next[0].(status := {x})];
  }

  lemma IdleAndBusyStart(root: string, x: string, a: string, y: string, b: string, w: nat)
    requires x != y
    ensures var steps := IdleAndBusy(root, x, a, y, b, w);
            CanBuild(steps) && AttachedOnce(steps) && Populated(steps) && UniqueChildren(steps)
  {
    var steps := IdleAndBusy(root, x, a, y, b, w);
    TwoChildrenBuild(root, x, a, Some(0), y, b, Some(w));
    TwoChildrenAttached(root, x, a, Some(0), y, b, Some(w));
    forall i | 0 <= i < |steps| ensures ChildPopulated(steps, Built(steps), steps[i]) {
      assert GivesTo(steps[2], 1) && GivesTo(steps[5], 2);
    }
  }

  /** A connection arrives and picks, and then a report begins elsewhere. */
  lemma PicksFirst(net: Net, b: nat, r: Report) returns (actions: seq<Action>, end: State)
    requires b < |net| && net[b].routed && CanReport(net, r) && b != r.b
    ensures Leads(AtRest(net, multiset{}), actions, end)
    ensures end == Taken(State(net, map[], {b}, multiset{}), r.b, r.server, r.up, None)
  {
    var start, arrived, picks := AtRest(net, multiset{}), AtRest(net, multiset{b}), State(net, map[], {b}, multiset{});
    end := Next(picks, Begin(r));
    assert multiset{} + multiset{b} == multiset{b} && Next(start, Arrive(b)) == arrived;
    assert {} + {b} == {b} && multiset{b} - multiset{b} == multiset{} && Next(arrived, Pick(b)) == picks;
    assert Leads(picks, [Begin(r)], end);
    assert [Pick(b), Begin(r)][1..] == [Begin(r)];
    assert Leads(arrived, [Pick(b), Begin(r)], end);
    actions := [Arrive(b), Pick(b), Begin(r)];
    assert actions[1..] == [Pick(b), Begin(r)];
  }

  /**
   A run: all servers of the child with weight go down, a connection picks at the parent and spins, and the
   next report that a server is up keeps the lock of the child and waits for that of the parent for ever.
   */
  lemma SpinningPickBlocks(root: string, x: string, a: string, y: string, b: string, w: nat)
    returns (states: seq<State>, actions: seq<Action>)
    requires x != y && w > 0
    ensures var steps := IdleAndBusy(root, x, a, y, b, w);
            CanBuild(steps) && Populated(steps) && UniqueChildren(steps) && IsRun(states, actions) && states[0] == Start(steps)
    ensures Inv(states[|actions|]) && Spinning(states[|actions|], 0) && Blocked(states[|actions|], 2)
  {
    var steps := IdleAndBusy(root, x, a, y, b, w);
    IdleAndBusyStart(root, x, a, y, b, w);
    BusyChildDown(root, x, a, y, b, w);
    var first := ReportAlone(Built(steps), multiset{}, Report(2, b, false));
    var net := OnlyIdleUp(root, x, a, y, b, w);
    assert Watched(net, 2) && b in net[2].servers;
    assert net[0].pool[1].weight > 0 && !PickEnds(net[0]);
    var last, end := PicksFirst(net, 0, Report(2, b, true));
    LeadsOn(Start(steps), first, AtRest(net, multiset{}), last, end);
    actions := first + last;
    states := LeadsIsRun(Start(steps), actions, end);
    UniqueIsHarmless(steps);
    StartOk(steps);
    RunKeepsInv(states, actions, |actions|);
  }

  // ---------------------------------------------------------------------------
  // A balancer that could spin behind an entry without weight
  // ---------------------------------------------------------------------------

  /**
   A router's service `r` without a health check, whose entry `m` has no weight. The service `m` has one child
   without weight and one with.
   */
  function Shielded(r: string, m: string, x: string, a: string, y: string, b: string, z: string, c: string): seq<Step> {
    [New(r, true, false), New(m, true, true),
     New(x, false, true), AddServer(2, a), AddChild(1, 2, x, Some(0)),
     New(y, false, true), AddServer(3, b), AddChild(1, 3, y, Some(1)),
     AddChild(0, 1, m, Some(0)),
     New(z, false, true), AddServer(4, c), AddChild(0, 4, z, Some(1)),
     Route(0)]
  }

  function ShieldedNet(r: string, m: string, x: string, a: string, y: string, b: string, z: string, c: string): Net {
    [Cell(r, true, false, true, [Server(m, 0, Some(1)), Server(z, 1, Some(4))], {}, {m, z}, []),
     Cell(m, true, true, false, [Server(x, 0, Some(2)), Server(y, 1, Some(3))], {}, {x, y}, []),
     Leaf(x, a, [Hook(1, x)]), Leaf(y, b, [Hook(1, y)]), Leaf(z, c, [])]
  }

  /** The service `m` with its first child, */
  lemma ShieldedStart(r: string, m: string, x: string, a: string) returns (steps: seq<Step>)
    ensures steps == [New(r, true, false), New(m, true, true), New(x, false, true), AddServer(2, a), AddChild(1, 2, x, Some(0))]
    ensures CanBuild(steps)
    ensures Built(steps) == [Cell(r, true, false, false, [], {}, {}, []),
                             Cell(m, true, true, false, [Server(x, 0, Some(2))], {}, {x}, []), Leaf(x, a, [Hook(1, x)])]
  {
    var none: seq<Step> := [];
    BuildNext(none, New(r, true, false));
    var one := none + [New(r, true, false)];
    BuildNext(one, New(m, true, true));
    var two := one + [New(m, true, true)];
    assert Built(two) == [Cell(r, true, false, false, [], {}, {}, []), Cell(m, true, true, false, [], {}, {}, [])];
    steps := ChildBuilt(two, 1, x, a, Some(0));
    assert [] + [Server(x, 0, Some(2))] == [Server(x, 0, Some(2))] && {} + {x} == {x};
  }

  /** and with both. */
  lemma ShieldedHalf(r: string, m: string, x: string, a: string, y: string, b: string) returns (steps: seq<Step>)
    ensures steps == [New(r, true, false), New(m, true, true),
                      New(x, false, true), AddServer(2, a), AddChild(1, 2, x, Some(0)),
                      New(y, false, true), AddServer(3, b), AddChild(1, 3, y, Some(1))] && CanBuild(steps)
    ensures Built(steps) ==
            [Cell(r, true, false, false, [], {}, {}, []),
             Cell(m, true, true, false, [Server(x, 0, Some(2)), Server(y, 1, Some(3))], {}, {x, y}, []),
             Leaf(x, a, [Hook(1, x)]), Leaf(y, b, [Hook(1, y)])]
  {
    var start := ShieldedStart(r, m, x, a);
    steps := ChildBuilt(start, 1, y, b, Some(1));
    assert [Server(x, 0, Some(2))] + [Server(y, 1, Some(3))] == [Server(x, 0, Some(2)), Server(y, 1, Some(3))];
    assert {x} + {y} == {x, y};
  }

  lemma ShieldedBuilds(r: string, m: string, x: string, a: string, y: string, b: string, z: string, c: string)
    ensures CanBuild(Shielded(r, m, x, a, y, b, z, c))
    ensures Built(Shielded(r, m, x, a, y, b, z, c)) == ShieldedNet(r, m, x, a, y, b, z, c)
  {
    var half := ShieldedHalf(r, m, x, a, y, b);
    BuildNext(half, AddChild(0, 1, m, Some(0)));
    var with := half + [AddChild(0, 1, m, Some(0))];
    assert [] + [Server(m, 0, Some(1))] == [Server(m, 0, Some(1))] && {} + {m} == {m};
    var more := ChildBuilt(with, 0, z, c, Some(1));
    assert [Server(m, 0, Some(1))] + [Server(z, 1, Some(4))] == [Server(m, 0, Some(1)), Server(z, 1, Some(4))];
    assert {m} + {z} == {m, z};
    BuildNext(more, Route(0));
    assert more + [Route(0)] == Shielded(r, m, x, a, y, b, z, c);
    assert Built(Shielded(r, m, x, a, y, b, z, c)) == ShieldedNet(r, m, x, a, y, b, z, c);
  }

  lemma ShieldedIsFine(r: string, m: string, x: string, a: string, y: string, b: string, z: string, c: string)
    requires x != y && CanBuild(Shielded(r, m, x, a, y, b, z, c))
    requires Built(Shielded(r, m, x, a, y, b, z, c)) == ShieldedNet(r, m, x, a, y, b, z, c)
    ensures Populated(Shielded(r, m, x, a, y, b, z, c)) && UniqueChildren(Shielded(r, m, x, a, y, b, z, c))
  {
    var steps, net := Shielded(r, m, x, a, y, b, z, c), ShieldedNet(r, m, x, a, y, b, z, c);
    forall i | 0 <= i < |steps| ensures ChildPopulated(steps, net, steps[i]) {
      assert GivesTo(steps[3], 2) && GivesTo(steps[6], 3);
    }
    forall i, j | 0 <= i < j < |steps| ensures !SharedSlot(net, steps[i], steps[j]) {
    }
  }

  lemma ShieldedAttached(r: string, m: string, x: string, a: string, y: string, b: string, z: string, c: string)
    ensures AttachedOnce(Shielded(r, m, x, a, y, b, z, c))
  {
  }

  lemma ShieldedSpins(r: string, m: string, x: string, a: string, y: string, b: string, z: string, c: string)
    requires x != y && y != z
    ensures CanSpin(ShieldedNet(r, m, x, a, y, b, z, c), 1)
  {
    var net := ShieldedNet(r, m, x, a, y, b, z, c);
    assert Watched(net, 3) && net[3].servers == {b};
    assert HasHook(net, 3, 0) && FallsInto(net, 1, y, 3, 0);
    assert InPool(net[1], net[1].pool[0].name) && !Positive(net[1], x) && net[1].pool[1].weight == 1;
  }

  lemma ShieldedHasNoRisk(r: string, m: string, x: string, a: string, y: string, b: string, z: string, c: string)
    ensures NoSpinRisk(ShieldedNet(r, m, x, a, y, b, z, c))
  {
    var net := ShieldedNet(r, m, x, a, y, b, z, c);
    forall p: nat, i: nat ensures !HandsOn(net, p, i, 1) {
    }
    assert net[0].pool[1].weight > 0;
    forall d: nat, k: nat ensures !FallsInto(net, 0, net[0].pool[1].name, d, k) {
    }
    forall q: nat | Reached(net, q) ensures !CanSpin(net, q) {
      if q == 0 {
        assert !SlotFalls(net, 0, net[0].pool[1].name);
      }
    }
  }

  /** The service `m` could spin, but no connection gets there: every interleaving comes to an end. */
  lemma ShieldedComesToRest(r: string, m: string, x: string, a: string, y: string, b: string, z: string, c: string)
    requires x != y && y != z
    ensures var steps := Shielded(r, m, x, a, y, b, z, c);
            && CanBuild(steps) && AttachedOnce(steps) && Populated(steps) && UniqueChildren(steps) && CanSpin(Built(steps), 1)
            && (forall states, actions :: IsRun(states, actions) && states[0] == Start(steps) ==> EndsRestable(states))
            && (forall states, actions :: IsRun(states, actions) && states[0] == Start(steps) ==> EndsSettleable(states))
  {
    ShieldedBuilds(r, m, x, a, y, b, z, c);
    ShieldedIsFine(r, m, x, a, y, b, z, c);
    ShieldedAttached(r, m, x, a, y, b, z, c);
    ShieldedSpins(r, m, x, a, y, b, z, c);
    ShieldedHasNoRisk(r, m, x, a, y, b, z, c);
    ComesToRestIff(Shielded(r, m, x, a, y, b, z, c));
  }

  // ---------------------------------------------------------------------------
  // Picks and what the checker said
  // ---------------------------------------------------------------------------

  /** The action begins a report of the checker of this service name on this server. */
  predicate Says(net: Net, a: Action, key: string, x: string) {
    a.Begin? && a.report.b < |net| && net[a.report.b].key == key && a.report.server == x
  }

  /** What the checker of a service name last said of a server. */
  function LastSaid(net: Net, actions: seq<Action>, key: string, x: string): Option<bool>
    decreases |actions|
  {
    if actions == [] then None
    else
      var n := |actions| - 1;
      if Says(net, actions[n], key, x) then Some(actions[n].report.up) else LastSaid(net, actions[..n], key, x)
  }

  /** A pick returns a server that the checker of its service name last reported down. */
  predicate ReturnsDown(net: Net, actions: seq<Action>, i: nat)
    requires i < |actions|
  {
    var a := actions[i];
    && a.Picked? && a.entry.Some? && a.b < |net| && !net[a.b].weighted && a.entry.value < |net[a.b].pool|
    && LastSaid(net, actions[..i], net[a.b].key, net[a.b].pool[a.entry.value].name) == Some(false)
  }

  predicate Heeds(net: Net, actions: seq<Action>) {
    forall i :: 0 <= i < |actions| ==> !ReturnsDown(net, actions, i)
  }

  /** The checker of the name reports on a server of the balancer, but to another balancer. */
  predicate Unheard(net: Net, b: nat, d: nat, x: string) {
    && Watched(net, d) && d != b && b < |net| && net[d].key == net[b].key
    && !net[b].weighted && x in net[b].servers && x in net[d].servers
  }

  /** Only the balancer that a checker reports to hears of it. */
  lemma LeafStep(s: State, a: Action, t: State, b: nat)
    requires Acyclic(s.net) && HooksToWeighted(s.net) && IsStep(s, a, t) && b < |s.net| && !s.net[b].weighted
    ensures t.net[b].status ==
            if a.Begin? && a.report.b == b then Marked(s.net[b].status, a.report.server, a.report.up) else s.net[b].status
  {
    if a.Call? {
      assert ToWeighted(s.net, s.net[a.c].hooks[s.held[a.c].next]);
    }
  }

  lemma OneWatched(net: Net, b: nat, d: nat)
    requires Watched(net, b) && Watched(net, d) && net[b].key == net[d].key
    ensures b == d
  {
  }

  /** A report under a name comes from the balancer whose checker is launched. */
  lemma SaysWatched(net: Net, s: State, a: Action, b: nat, x: string)
    requires SameWiring(net, s.net) && Enabled(s, a) && Watched(net, b)
    ensures Says(net, a, net[b].key, x) <==> a.Begin? && a.report.b == b && a.report.server == x
  {
    if a.Begin? {
      WatchedSame(net, s.net, a.report.b);
      if net[a.report.b].key == net[b].key { OneWatched(net, a.report.b, b); }
    }
  }

  /** A balancer whose checker is launched lists exactly the servers that were not last reported down. */
  lemma {:induction false} ListsWhatWasSaid(
    steps: seq<Step>, states: seq<State>, actions: seq<Action>, i: nat, b: nat, x: string)
    requires CanBuild(steps) && IsRun(states, actions) && states[0] == Start(steps) && i < |states|
    requires Watched(Built(steps), b) && x in Built(steps)[b].servers
    ensures b < |states[i].net|
    ensures x in states[i].net[b].status <==> LastSaid(Built(steps), actions[..i], Built(steps)[b].key, x) != Some(false)
  {
    var net := Built(steps);
    if i == 0 {
      BuiltStocked(steps);
      assert FullAt(net, b);
    } else {
      StartLocks(steps);
      ListsWhatWasSaid(steps, states, actions, i - 1, b, x);
      RunKeepsLocks(states, actions, i - 1);
      assert StepAt(states, actions, i - 1);
      assert net[b].(status := {}) == states[i - 1].net[b].(status := {});
      LeafStep(states[i - 1], actions[i - 1], states[i], b);
      SaysWatched(net, states[i - 1], actions[i - 1], b, x);
      assert actions[..i][..i - 1] == actions[..i - 1] && actions[..i][i - 1] == actions[i - 1];
    }
  }

  /** What was said, a launched checker said. */
  lemma {:induction false} SaidByWatched(
    steps: seq<Step>, states: seq<State>, actions: seq<Action>, i: nat, key: string, x: string)
    returns (d: nat)
    requires CanBuild(steps) && IsRun(states, actions) && states[0] == Start(steps) && i <= |actions|
    requires LastSaid(Built(steps), actions[..i], key, x).Some?
    ensures Watched(Built(steps), d) && Built(steps)[d].key == key && x in Built(steps)[d].servers
  {
    var net, said := Built(steps), actions[..i];
    assert said[i - 1] == actions[i - 1] && said[..i - 1] == actions[..i - 1];
    if Says(net, actions[i - 1], key, x) {
      d := actions[i - 1].report.b;
      StartLocks(steps);
      RunKeepsLocks(states, actions, i - 1);
      assert StepAt(states, actions, i - 1);
      WatchedSame(net, states[i - 1].net, d);
      assert net[d].(status := {}) == states[i - 1].net[d].(status := {});
    } else {
      d := SaidByWatched(steps, states, actions, i - 1, key, x);
    }
  }

  /** A pick that returns a server last reported down is at a balancer that does not hear of it. */
  lemma DownMeansUnheard(steps: seq<Step>, states: seq<State>, actions: seq<Action>, i: nat) returns (b: nat, d: nat, x: string)
    requires CanBuild(steps) && IsRun(states, actions) && states[0] == Start(steps)
    requires i < |actions| && ReturnsDown(Built(steps), actions, i)
    ensures Reached(Built(steps), b) && Unheard(Built(steps), b, d, x)
  {
    var net, s := Built(steps), states[i];
    StartLocks(steps);
    RunKeepsLocks(states, actions, i);
    assert StepAt(states, actions, i);
    b := actions[i].b;
    x := net[b].pool[actions[i].entry.value].name;
    assert net[b].(status := {}) == s.net[b].(status := {});
    ReachedSame(s.net, net, b) by { WiredBack(net, s.net); }
    BuiltStocked(steps);
    assert FullAt(net, b) && InPool(net[b], x);
    d := SaidByWatched(steps, states, actions, i, net[b].key, x);
    if d == b {
      ListsWhatWasSaid(steps, states, actions, i, b, x);
    }
  }

  /** A connection waits at a balancer while the checker reports to another, and then gets a server. */
  lemma ReportedMeanwhile(net: Net, b: nat, r: Report, e: nat) returns (actions: seq<Action>, end: State)
    requires CanReport(net, r) && b < |net| && b != r.b && Choosable(net[b], e) && !PickFails(net[b])
    ensures actions == [Begin(r), Pick(b), Picked(b, Some(e))] && Leads(AtRest(net, multiset{b}), actions, end)
  {
    var said := Next(AtRest(net, multiset{b}), Begin(r));
    var picking := Next(said, Pick(b));
    end := Next(picking, Picked(b, Some(e)));
    assert Leads(picking, [Picked(b, Some(e))], end);
    assert [Pick(b), Picked(b, Some(e))][1..] == [Picked(b, Some(e))];
    assert Leads(said, [Pick(b), Picked(b, Some(e))], end);
    actions := [Begin(r), Pick(b), Picked(b, Some(e))];
    assert actions[1..] == [Pick(b), Picked(b, Some(e))];
  }

  /** That server may be one that the checker just reported down. */
  lemma SaidDown(net: Net, first: seq<Action>, b: nat, r: Report, e: nat)
    requires b < |net| && r.b < |net| && net[r.b].key == net[b].key && !net[b].weighted && !r.up
    requires e < |net[b].pool| && net[b].pool[e].name == r.server
    ensures !Heeds(net, first + [Begin(r), Pick(b), Picked(b, Some(e))])
  {
    var actions, n := first + [Begin(r), Pick(b), Picked(b, Some(e))], |first|;
    assert actions[..n + 2][n + 1] == Pick(b) && actions[..n + 1][n] == Begin(r);
    assert actions[..n + 2][..n + 1] == actions[..n + 1];
    assert ReturnsDown(net, actions, n + 2);
  }

  /** So it happens at every balancer that does not hear of it. */
  lemma UnheardReturned(steps: seq<Step>, b: nat, d: nat, x: string) returns (states: seq<State>, actions: seq<Action>)
    requires CanBuild(steps) && Reached(Built(steps), b) && Unheard(Built(steps), b, d, x)
    ensures IsRun(states, actions) && states[0] == Start(steps) && !Heeds(Built(steps), actions)
  {
    var net, r := Built(steps), Report(d, x, false);
    BuiltStocked(steps);
    assert FullAt(net, b) && StockedAt(net, b) && InPool(net[b], x);
    var e: nat :| e < |net[b].pool| && net[b].pool[e].name == x;
    assert Choosable(net[b], e);
    var first := Travel(net, b);
    var last, end := ReportedMeanwhile(net, b, r, e);
    LeadsOn(Start(steps), first, AtRest(net, multiset{b}), last, end);
    actions := first + last;
    states := LeadsIsRun(Start(steps), actions, end);
    SaidDown(net, first, b, r, e);
  }

  /** No balancer that a connection can be handed to misses what the checker of its name says of its servers. */
  ghost predicate AllHear(net: Net) {
    forall b: nat, d: nat, x :: Reached(net, b) ==> !Unheard(net, b, d, x)
  }

  /**
   However balancers are built, no pick of any interleaving returns a server that the checker of its service
   name last reported down, if and only if that checker reports to every balancer that a connection can be
   handed to and that has one of the servers it reports on.
   */
  lemma PicksHeedIff(steps: seq<Step>)
    requires CanBuild(steps)
    ensures (forall states, actions :: IsRun(states, actions) && states[0] == Start(steps) ==> Heeds(Built(steps), actions))
       <==> AllHear(Built(steps))
  {
    if AllHear(Built(steps)) {
      forall states, actions | IsRun(states, actions) && states[0] == Start(steps) ensures Heeds(Built(steps), actions) {
        forall i | 0 <= i < |actions| ensures !ReturnsDown(Built(steps), actions, i) {
          if ReturnsDown(Built(steps), actions, i) {
            var b, d, x := DownMeansUnheard(steps, states, actions, i);
          }
        }
      }
    } else {
      var b: nat, d: nat, x :| Reached(Built(steps), b) && Unheard(Built(steps), b, d, x);
      var states, actions := UnheardReturned(steps, b, d, x);
    }
  }

  /** Balancers with servers that were built under one name are alike. */
  predicate OneService(net: Net) {
    forall b, d :: 0 <= b < |net| && 0 <= d < |net| && !net[b].weighted && !net[d].weighted && net[b].key == net[d].key ==>
      net[b].check == net[d].check && net[b].servers == net[d].servers
  }

  /** Every checked balancer with servers that a connection can be handed to has its checker launched. */
  ghost predicate AllReachedWatched(net: Net) {
    forall b: nat :: Reached(net, b) && HasChecker(net[b]) && net[b].servers != {} ==> Watched(net, b)
  }

  /** The balancer whose checker is launched under a name. */
  lemma {:induction false} LastChecker(net: Net, b: nat) returns (d: nat)
    requires b < |net| && HasChecker(net[b])
    ensures Watched(net, d) && net[d].key == net[b].key
    decreases |net| - b
  {
    if e :| b < e < |net| && HasChecker(net[e]) && net[e].key == net[b].key {
      d := LastChecker(net, e);
    } else {
      d := b;
    }
  }

  /** Where each name stands for one service, this is so exactly if all checkers that matter are launched. */
  lemma PicksHeedIffWatched(steps: seq<Step>)
    requires CanBuild(steps) && OneService(Built(steps))
    ensures (forall states, actions :: IsRun(states, actions) && states[0] == Start(steps) ==> Heeds(Built(steps), actions))
       <==> AllReachedWatched(Built(steps))
  {
    var net := Built(steps);
    PicksHeedIff(steps);
    if AllHear(net) {
      forall b: nat | Reached(net, b) && HasChecker(net[b]) && net[b].servers != {} ensures Watched(net, b) {
        var x :| x in net[b].servers;
        var d := LastChecker(net, b);
        assert !Unheard(net, b, d, x);
      }
    }
    if AllReachedWatched(net) {
      forall b: nat, d: nat, x | Reached(net, b) ensures !Unheard(net, b, d, x) {
        if Unheard(net, b, d, x) { OneWatched(net, b, d); }
      }
    }
  }

  /** Two routers have one checked service, which is built for each of them. */
  function TwoRouters(key: string, server: string): seq<Step> {
    [New(key, false, true), AddServer(0, server), Route(0), New(key, false, true), AddServer(1, server), Route(1)]
  }

  lemma TwoRoutersBuild(key: string, server: string)
    ensures CanBuild(TwoRouters(key, server))
    ensures var leaf := Leaf(key, server, []).(routed := true); Built(TwoRouters(key, server)) == [leaf, leaf]
  {
    var none: seq<Step> := [];
    var one := LeafBuilt(none, key, server);
    BuildNext(one, Route(0));
    var routed := one + [Route(0)];
    var leaf := Leaf(key, server, []).(routed := true);
    assert Built(routed) == [leaf];
    var two := LeafBuilt(routed, key, server);
    BuildNext(two, Route(1));
    assert Built(two + [Route(1)]) == [leaf, leaf];
    assert two + [Route(1)] == TwoRouters(key, server);
  }

  /** Only the second build is checked: connections of the first router still get a server reported down. */
  lemma TwoRoutersFail(key: string, server: string) returns (states: seq<State>, actions: seq<Action>)
    ensures var steps := TwoRouters(key, server);
            && CanBuild(steps) && AttachedOnce(steps) && OneService(Built(steps))
            && IsRun(states, actions) && states[0] == Start(steps) && !Heeds(Built(steps), actions)
  {
    TwoRoutersBuild(key, server);
    var net := Built(TwoRouters(key, server));
    assert Reached(net, 0) && HasChecker(net[1]) && Unheard(net, 0, 1, server);
    states, actions := UnheardReturned(TwoRouters(key, server), 0, 1, server);
  }
}
