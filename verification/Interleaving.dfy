/**
 Health reports and picks that run at the same time: pkg/tcp/wrr_load_balancer.go takes the lock of a
 balancer for the whole of SetStatus, so a report that flips a balancer keeps its lock while it waits
 for, takes and releases the lock of each parent. A pick has the lock for the whole of its loop; then the
 connection goes to what it returned. A step is what runs between two points where a goroutine can wait
 for a lock, or loop for ever.
 */
module Interleaving {
  import opened Wrappers
  import opened Outages
  import opened Propagation

  /**
   The lock of a balancer is taken: by a report of its own or on behalf of a child, which then waits in
   its `next` hook. `flip` says that the hooks are to be run, `next` how many have been.
   */
  datatype Holder = Holder(caller: Option<nat>, flip: bool, next: nat, calling: bool)

  /** The locks that reports have taken, those that picks have, and the connections on their way to a balancer. */
  datatype State = State(net: Net, held: map<nat, Holder>, picks: set<nat>, conns: multiset<nat>)

  /**
   A report begins, a hook takes the lock of its parent, SetStatus returns, a router hands a connection to
   its handler, a pick begins, or a pick returns: an error, or the entry that gets the connection.
   */
  datatype Action =
    | Begin(report: Report)
    | Call(c: nat)
    | Return(b: nat)
    | Arrive(b: nat)
    | Pick(b: nat)
    | Picked(b: nat, entry: Option<nat>)

  predicate Free(s: State, b: nat) {
    b !in s.held && b !in s.picks
  }

  predicate NoLocks(s: State) {
    s.held == map[] && s.picks == {}
  }

  predicate CanCall(s: State, c: nat) {
    && c in s.held && c < |s.net| && s.held[c].flip && !s.held[c].calling && s.held[c].next < |s.net[c].hooks|
    && s.net[c].hooks[s.held[c].next].parent < |s.net| && Free(s, s.net[c].hooks[s.held[c].next].parent)
  }

  predicate CanReturn(s: State, b: nat) {
    && b in s.held && b < |s.net| && !s.held[b].calling && (s.held[b].flip ==> s.held[b].next == |s.net[b].hooks|)
    && (s.held[b].caller.Some? ==> s.held[b].caller.value in s.held)
  }

  /** The pick ends in an error, or with an entry that it may return. */
  predicate CanLeave(s: State, b: nat, entry: Option<nat>) {
    && b < |s.net| && b in s.picks
    && if entry.Some? then !PickFails(s.net[b]) && Choosable(s.net[b], entry.value) else PickFails(s.net[b])
  }

  predicate Enabled(s: State, a: Action) {
    match a
    case Begin(r) => CanReport(s.net, r) && Free(s, r.b)
    case Call(c) => CanCall(s, c)
    case Return(b) => CanReturn(s, b)
    case Arrive(b) => b < |s.net| && s.net[b].routed
    case Pick(b) => b in s.conns && b < |s.net| && Free(s, b)
    case Picked(b, entry) => CanLeave(s, b, entry)
  }

  /** The lock is taken and the name marked. */
  function Taken(s: State, b: nat, name: string, up: bool, caller: Option<nat>): State
    requires b < |s.net|
  {
    var status := Marked(s.net[b].status, name, up);
    var flip := (s.net[b].status == {}) != (status == {});
    s.(net := s.net[b := s.net[b].(status := status)], held := s.held[b := Holder(caller, flip, 0, false)])
  }

  function Called(s: State, c: nat): State
    requires CanCall(s, c)
  {
    var h := s.net[c].hooks[s.held[c].next];
    var waiting := s.(held := s.held[c := s.held[c].(calling := true)]);
    Taken(waiting, h.parent, h.name, s.net[c].status != {}, Some(c))
  }

  function Returned(s: State, b: nat): State
    requires CanReturn(s, b)
  {
    var held := s.held - {b};
    var caller := s.held[b].caller;
    if caller.Some? && caller.value in held then
      var c := caller.value;
      s.(held := held[c := held[c].(next := held[c].next + 1, calling := false)])
    else s.(held := held)
  }

  /** A child takes the connection; an error or a server ends its way. */
  function Leaves(s: State, b: nat, entry: Option<nat>): State
    requires CanLeave(s, b, entry)
  {
    var left := s.(picks := s.picks - {b});
    if entry.Some? && s.net[b].pool[entry.value].child.Some? then
      left.(conns := s.conns + multiset{s.net[b].pool[entry.value].child.value})
    else left
  }

  function Next(s: State, a: Action): State
    requires Enabled(s, a)
  {
    match a
    case Begin(r) => Taken(s, r.b, r.server, r.up, None)
    case Call(c) => Called(s, c)
    case Return(b) => Returned(s, b)
    case Arrive(b) => s.(conns := s.conns + multiset{b})
    case Pick(b) => s.(picks := s.picks + {b}, conns := s.conns - multiset{b})
    case Picked(b, entry) => Leaves(s, b, entry)
  }

  predicate IsStep(s: State, a: Action, t: State) {
    Enabled(s, a) && t == Next(s, a)
  }

  // ---------------------------------------------------------------------------
  // What every step keeps
  // ---------------------------------------------------------------------------

  /** The locks of one propagation lead from child to parent. */
  predicate HolderOk(s: State, b: nat)
    requires b in s.held
  {
    var x := s.held[b];
    && b < |s.net| && x.next <= |s.net[b].hooks|
    && (x.calling ==>
          && x.flip && x.next < |s.net[b].hooks|
          && var p := s.net[b].hooks[x.next].parent;
             p in s.held && s.held[p].caller == Some(b))
    && (x.caller.Some? ==>
          var c := x.caller.value;
          && c in s.held && c < |s.net| && s.held[c].calling && s.held[c].next < |s.net[c].hooks|
          && s.net[c].hooks[s.held[c].next].parent == b)
  }

  ghost predicate HoldersOk(s: State) {
    forall b :: b in s.held ==> HolderOk(s, b)
  }

  /** The hook is still to report a flip. */
  predicate Pending(s: State, c: nat, k: nat) {
    && c in s.held && s.held[c].flip
    && (k > s.held[c].next || (k == s.held[c].next && !s.held[c].calling))
  }

  /** The parent lists the child as the child was before a flip it has not been told of. */
  predicate SlotOk(s: State, c: nat, k: nat)
    requires HasHook(s.net, c, k)
  {
    Listed(s.net, s.net[c].hooks[k]) <==> ((s.net[c].status != {}) != Pending(s, c, k))
  }

  ghost predicate SlotsOk(s: State) {
    forall c: nat, k: nat :: HasHook(s.net, c, k) ==> SlotOk(s, c, k)
  }

  /** Only a balancer that can go down has a flip to report. */
  ghost predicate FlipsFall(s: State) {
    forall b :: b in s.held && s.held[b].flip ==> CanFall(s.net, b)
  }

  /** A lock is taken once. */
  predicate PicksOk(s: State) {
    s.picks !! s.held.Keys && forall b :: b in s.picks ==> b < |s.net|
  }

  /** Connections are only where they can be handed to. */
  ghost predicate ConnsOk(s: State) {
    forall b: nat :: b in s.conns || b in s.picks ==> Reached(s.net, b)
  }

  /** What holds of every net that can be built. */
  ghost predicate LockInv(s: State) {
    Sound(s.net) && HoldersOk(s) && FlipsFall(s) && PicksOk(s) && ConnsOk(s)
  }

  /** What holds of those in which slots are not shared and every balancer that reports lists something. */
  ghost predicate Inv(s: State) {
    LockInv(s) && WellWired(s.net) && AllPooled(s.net) && SlotsOk(s)
  }

  lemma StepWiring(s: State, a: Action, t: State)
    requires IsStep(s, a, t)
    ensures SameWiring(s.net, t.net)
  {
  }

  lemma TakenKeeps(s: State, b: nat, name: string, up: bool, caller: Option<nat>)
    requires Sound(s.net) && FlipsFall(s) && MayMark(s.net, b, name)
    ensures var t := Taken(s, b, name, up, caller); Sound(t.net) && FlipsFall(t)
  {
    var t := Taken(s, b, name, up, caller);
    MarkSound(s.net, b, name, up);
    forall d | d in t.held && t.held[d].flip ensures CanFall(t.net, d) {
      CanFallSame(s.net, t.net, d);
    }
  }

  lemma BeginKeepsSound(s: State, r: Report)
    requires Sound(s.net) && FlipsFall(s) && Enabled(s, Begin(r))
    ensures Sound(Next(s, Begin(r)).net) && FlipsFall(Next(s, Begin(r)))
  {
    ReportMayMark(s.net, r);
    TakenKeeps(s, r.b, r.server, r.up, None);
  }

  lemma CallKeepsSound(s: State, c: nat)
    requires Sound(s.net) && FlipsFall(s) && CanCall(s, c)
    ensures Sound(Next(s, Call(c)).net) && FlipsFall(Next(s, Call(c)))
  {
    var h := s.net[c].hooks[s.held[c].next];
    var waiting := s.(held := s.held[c := s.held[c].(calling := true)]);
    HookMayMark(s.net, c, s.held[c].next);
    assert FlipsFall(waiting);
    TakenKeeps(waiting, h.parent, h.name, s.net[c].status != {}, Some(c));
  }

  /** What a pick returns leads a connection on. */
  lemma HandedOn(s: State, b: nat, i: nat)
    requires Stocked(s.net) && CanLeave(s, b, Some(i)) && Reached(s.net, b) && s.net[b].pool[i].child.Some?
    ensures Reached(s.net, s.net[b].pool[i].child.value)
  {
    assert StockedAt(s.net, b);
    assert HandsOn(s.net, b, i, s.net[b].pool[i].child.value);
  }

  lemma StepKeepsConns(s: State, a: Action, t: State)
    requires Stocked(s.net) && ConnsOk(s) && IsStep(s, a, t)
    ensures ConnsOk(t)
  {
    StepWiring(s, a, t);
    forall b: nat | b in t.conns || b in t.picks ensures Reached(t.net, b) {
      if b !in s.conns && b !in s.picks && a.Picked? {
        HandedOn(s, a.b, a.entry.value);
      }
      if Reached(s.net, b) { ReachedSame(s.net, t.net, b); }
    }
  }

  lemma BeginKeepsHolders(s: State, r: Report)
    requires Acyclic(s.net) && HoldersOk(s) && Enabled(s, Begin(r))
    ensures HoldersOk(Next(s, Begin(r)))
  {
    var t := Next(s, Begin(r));
    forall b | b in t.held ensures HolderOk(t, b) {
      if b != r.b { assert HolderOk(s, b); }
    }
  }

  lemma CallKeepsHolders(s: State, c: nat)
    requires Acyclic(s.net) && HoldersOk(s) && CanCall(s, c)
    ensures HoldersOk(Next(s, Call(c)))
  {
    var t := Next(s, Call(c));
    assert HolderOk(s, c);
    forall b | b in t.held ensures HolderOk(t, b) {
      if b in s.held { assert HolderOk(s, b); }
    }
  }

  /** Only the caller of a call that returns was waiting for it. */
  lemma ReturnKeepsHolder(s: State, b: nat, d: nat)
    requires HoldersOk(s) && CanReturn(s, b) && d in s.held && d != b
    ensures d in Next(s, Return(b)).held && HolderOk(Next(s, Return(b)), d)
  {
    assert HolderOk(s, b) && HolderOk(s, d);
    if s.held[d].caller.Some? {
      assert s.held[d].caller != Some(b);
    }
  }

  lemma ReturnKeepsHolders(s: State, b: nat)
    requires HoldersOk(s) && CanReturn(s, b)
    ensures HoldersOk(Next(s, Return(b)))
  {
    var t := Next(s, Return(b));
    forall d | d in t.held ensures HolderOk(t, d) {
      ReturnKeepsHolder(s, b, d);
    }
  }

  /** Taking the lock of a free balancer. */
  lemma TakenSlot(s: State, b: nat, name: string, up: bool, caller: Option<nat>, c: nat, k: nat)
    requires HasHook(s.net, c, k) && SlotOk(s, c, k) && b < |s.net| && b !in s.held && s.net[c].hooks[k].parent < c
    requires s.net[c].hooks[k] != Hook(b, name)
    ensures HasHook(Taken(s, b, name, up, caller).net, c, k) && SlotOk(Taken(s, b, name, up, caller), c, k)
  {
  }

  lemma BeginKeepsSlot(s: State, r: Report, c: nat, k: nat)
    requires Acyclic(s.net) && HooksToWeighted(s.net) && Enabled(s, Begin(r)) && HasHook(s.net, c, k) && SlotOk(s, c, k)
    ensures HasHook(Next(s, Begin(r)).net, c, k) && SlotOk(Next(s, Begin(r)), c, k)
  {
    assert ToWeighted(s.net, s.net[c].hooks[k]);
    TakenSlot(s, r.b, r.server, r.up, None, c, k);
  }

  lemma CallKeepsSlot(s: State, b: nat, c: nat, k: nat)
    requires Acyclic(s.net) && CanCall(s, b) && HasHook(s.net, c, k) && SlotOk(s, c, k) && Own(s.net, c, k)
    ensures HasHook(Next(s, Call(b)).net, c, k) && SlotOk(Next(s, Call(b)), c, k)
  {
    var n := s.held[b].next;
    var h := s.net[b].hooks[n];
    var waiting := s.(held := s.held[b := s.held[b].(calling := true)]);
    assert HasHook(s.net, b, n) && h.parent < b && s.net[c].hooks[k].parent < c;
    if c == b && k == n {
    } else {
      assert SlotOk(waiting, c, k);
      TakenSlot(waiting, h.parent, h.name, s.net[b].status != {}, Some(b), c, k);
    }
  }

  lemma ReturnKeepsSlot(s: State, b: nat, c: nat, k: nat)
    requires HoldersOk(s) && CanReturn(s, b) && HasHook(s.net, c, k) && SlotOk(s, c, k)
    ensures HasHook(Next(s, Return(b)).net, c, k) && SlotOk(Next(s, Return(b)), c, k)
  {
    assert HolderOk(s, b);
  }

  /** Every step of every net keeps the locks in order. */
  lemma StepKeepsLocks(s: State, a: Action, t: State)
    requires LockInv(s) && IsStep(s, a, t)
    ensures LockInv(t)
  {
    StepKeepsConns(s, a, t);
    match a
    case Begin(r) =>
      BeginKeepsHolders(s, r);
      BeginKeepsSound(s, r);
    case Call(c) =>
      CallKeepsHolders(s, c);
      CallKeepsSound(s, c);
    case Return(b) => ReturnKeepsHolders(s, b);
    case Arrive(_) => PickKeepsHolders(s, t);
    case Pick(_) => PickKeepsHolders(s, t);
    case Picked(_, _) => PickKeepsHolders(s, t);
  }

  lemma StepKeepsInv(s: State, a: Action, t: State)
    requires Inv(s) && IsStep(s, a, t)
    ensures Inv(t)
  {
    StepWiring(s, a, t);
    StepKeepsLocks(s, a, t);
    WiredSame(s.net, t.net);
    PooledSame(s.net, t.net);
    forall c: nat, k: nat | HasHook(t.net, c, k) ensures SlotOk(t, c, k) {
      SameHooks(s.net, t.net, c);
      assert HasHook(s.net, c, k) && SlotOk(s, c, k);
      CanFallSame(s.net, t.net, c);
      if CanFall(s.net, c) {
        StepKeepsSlot(s, a, t, c, k);
      } else {
        FirmAgrees(t.net, c, k);
      }
    }
  }

  lemma PickKeepsHolders(s: State, t: State)
    requires HoldersOk(s) && t.net == s.net && t.held == s.held
    ensures HoldersOk(t)
  {
    forall b | b in t.held ensures HolderOk(t, b) {
      assert HolderOk(s, b);
    }
  }

  lemma StepKeepsSlot(s: State, a: Action, t: State, c: nat, k: nat)
    requires Acyclic(s.net) && HooksToWeighted(s.net) && HoldersOk(s) && IsStep(s, a, t)
    requires HasHook(s.net, c, k) && HasHook(t.net, c, k) && SlotOk(s, c, k) && Own(s.net, c, k)
    ensures SlotOk(t, c, k)
  {
    match a
    case Begin(r) => BeginKeepsSlot(s, r, c, k);
    case Call(b) => CallKeepsSlot(s, b, c, k);
    case Return(b) => ReturnKeepsSlot(s, b, c, k);
    case Arrive(_) =>
    case Pick(_) =>
    case Picked(_, _) =>
  }

  // ---------------------------------------------------------------------------
  // Every interleaving
  // ---------------------------------------------------------------------------

  predicate IsRun(states: seq<State>, actions: seq<Action>) {
    && |states| == |actions| + 1
    && forall i :: 0 <= i < |actions| ==> StepAt(states, actions, i)
  }

  predicate StepAt(states: seq<State>, actions: seq<Action>, i: nat)
    requires i < |actions| && |states| == |actions| + 1
  {
    IsStep(states[i], actions[i], states[i + 1])
  }

  /** A net as it was built, with no lock taken and no connection. */
  function Start(steps: seq<Step>): State
    requires CanBuild(steps)
  {
    State(Built(steps), map[], {}, multiset{})
  }

  lemma StartLocks(steps: seq<Step>)
    requires CanBuild(steps)
    ensures LockInv(Start(steps))
  {
    BuiltSound(steps);
  }

  lemma StartOk(steps: seq<Step>)
    requires CanBuild(steps) && Populated(steps) && HarmlessSlots(steps)
    ensures Inv(Start(steps))
  {
    StartLocks(steps);
    BuiltWired(steps);
    PopulatedIsConsistent(steps);
    var s := Start(steps);
    forall c: nat, k: nat | HasHook(s.net, c, k) ensures SlotOk(s, c, k) {
      assert Agrees(s.net, c, k);
    }
  }

  lemma {:induction false} RunKeepsLocks(states: seq<State>, actions: seq<Action>, i: nat)
    requires IsRun(states, actions) && LockInv(states[0]) && i < |states|
    ensures LockInv(states[i]) && SameWiring(states[0].net, states[i].net)
  {
    if i > 0 {
      RunKeepsLocks(states, actions, i - 1);
      assert StepAt(states, actions, i - 1);
      StepKeepsLocks(states[i - 1], actions[i - 1], states[i]);
      StepWiring(states[i - 1], actions[i - 1], states[i]);
      WiringNext(states[0].net, states[i - 1].net, states[i].net);
    }
  }

  lemma {:induction false} RunKeepsInv(states: seq<State>, actions: seq<Action>, i: nat)
    requires IsRun(states, actions) && Inv(states[0]) && i < |states|
    ensures Inv(states[i])
  {
    if i > 0 {
      RunKeepsInv(states, actions, i - 1);
      assert StepAt(states, actions, i - 1);
      StepKeepsInv(states[i - 1], actions[i - 1], states[i]);
    }
  }

  /**
   In every interleaving of reports and picks, every parent lists a child whose lock is free exactly
   when the child has something up; so with no report under way the net is consistent.
   */
  lemma AgreesWhenFree(steps: seq<Step>, states: seq<State>, actions: seq<Action>, i: nat)
    requires CanBuild(steps) && Populated(steps) && HarmlessSlots(steps)
    requires IsRun(states, actions) && states[0] == Start(steps) && i < |states|
    ensures forall c: nat, k: nat :: HasHook(states[i].net, c, k) && c !in states[i].held ==> Agrees(states[i].net, c, k)
    ensures states[i].held == map[] ==> Consistent(states[i].net)
  {
    StartOk(steps);
    RunKeepsInv(states, actions, i);
    var s := states[i];
    forall c: nat, k: nat | HasHook(s.net, c, k) && c !in s.held ensures Agrees(s.net, c, k) {
      assert SlotOk(s, c, k);
    }
    if s.held == map[] {
      forall c, k | 0 <= c < |s.net| && 0 <= k < |s.net[c].hooks| ensures Agrees(s.net, c, k) {
        assert HasHook(s.net, c, k) && c !in s.held;
      }
    }
  }

  // ---------------------------------------------------------------------------
  // A report that nothing interrupts
  // ---------------------------------------------------------------------------

  /** The actions can be taken one after the other, and lead from one state to the other. */
  predicate Leads(s: State, actions: seq<Action>, t: State)
    decreases |actions|
  {
    if actions == [] then s == t
    else Enabled(s, actions[0]) && Leads(Next(s, actions[0]), actions[1..], t)
  }

  lemma {:induction false} LeadsOn(s: State, first: seq<Action>, t: State, second: seq<Action>, u: State)
    requires Leads(s, first, t) && Leads(t, second, u)
    ensures Leads(s, first + second, u)
    decreases |first|
  {
    if first == [] {
      assert first + second == second;
    } else {
      assert (first + second)[0] == first[0] && (first + second)[1..] == first[1..] + second;
      LeadsOn(Next(s, first[0]), first[1..], t, second, u);
    }
  }

  lemma {:induction false} LeadsIsRun(s: State, actions: seq<Action>, t: State) returns (states: seq<State>)
    requires Leads(s, actions, t)
    ensures IsRun(states, actions) && states[0] == s && states[|actions|] == t
    decreases |actions|
  {
    if actions == [] {
      states := [s];
    } else {
      var rest := LeadsIsRun(Next(s, actions[0]), actions[1..], t);
      states := [s] + rest;
      forall i | 0 <= i < |actions| ensures StepAt(states, actions, i) {
        if i > 0 { assert StepAt(rest, actions[1..], i - 1); }
      }
    }
  }

  /** No lock of a balancer before the given one is taken. */
  predicate FreeBefore(s: State, b: nat) {
    (forall d :: d in s.held ==> b <= d) && forall d :: d in s.picks ==> b <= d
  }

  /** The holder of a lock when all its hooks have run. */
  function Finished(net: Net, b: nat, name: string, up: bool, caller: Option<nat>): Holder
    requires b < |net|
  {
    var flip := (net[b].status == {}) != (Marked(net[b].status, name, up) == {});
    Holder(caller, flip, if flip then |net[b].hooks| else 0, false)
  }

  lemma {:induction false} SetRuns(s: State, b: nat, name: string, up: bool, caller: Option<nat>) returns (actions: seq<Action>)
    requires Acyclic(s.net) && b < |s.net| && FreeBefore(s, b + 1)
    ensures Leads(Taken(s, b, name, up, caller), actions,
                  s.(net := Set(s.net, b, name, up), held := s.held[b := Finished(s.net, b, name, up, caller)]))
    decreases b, |s.net[b].hooks| + 1
  {
    var t := Taken(s, b, name, up, caller);
    if t.held[b].flip {
      actions := HooksRun(t, b, |s.net[b].hooks|);
      assert t.held[b := Finished(s.net, b, name, up, caller)] == s.held[b := Finished(s.net, b, name, up, caller)];
    } else {
      actions := [];
    }
  }

  /** The first hooks of a flipped balancer have run. */
  function Informed(s: State, b: nat, n: nat): State
    requires Acyclic(s.net) && b < |s.net| && n <= |s.net[b].hooks| && b in s.held
  {
    s.(net := Notified(s.net, b, s.net[b].status != {}, n), held := s.held[b := s.held[b].(next := n)])
  }

  lemma InformedIsReady(s: State, b: nat, n: nat)
    requires Acyclic(s.net) && b < |s.net| && n <= |s.net[b].hooks| && b in s.held && FreeBefore(s, b)
    ensures var t := Informed(s, b, n);
            Acyclic(t.net) && |t.net| == |s.net| && t.net[b] == s.net[b] && FreeBefore(t, b)
  {
    NotifiedReaches(s.net, b, s.net[b].status != {}, n);
  }

  lemma {:induction false} HooksRun(s: State, b: nat, n: nat) returns (actions: seq<Action>)
    requires Acyclic(s.net) && b < |s.net| && n <= |s.net[b].hooks| && FreeBefore(s, b)
    requires b in s.held && s.held[b].flip && s.held[b].next == 0 && !s.held[b].calling
    ensures Leads(s, actions, Informed(s, b, n))
    decreases b, n, 1
  {
    if n == 0 {
      actions := [];
      assert s.held[b := s.held[b].(next := 0)] == s.held;
    } else {
      var first := HooksRun(s, b, n - 1);
      var last := NextHookRuns(s, b, n);
      LeadsOn(s, first, Informed(s, b, n - 1), last, Informed(s, b, n));
      actions := first + last;
    }
  }

  /** The next hook of a flipped balancer has run. */
  function HookDone(s: State, b: nat): State
    requires Acyclic(s.net) && b in s.held && b < |s.net| && s.held[b].next < |s.net[b].hooks|
  {
    var h := s.net[b].hooks[s.held[b].next];
    assert h.parent < b;
    s.(net := Set(s.net, h.parent, h.name, s.net[b].status != {}), held := s.held[b := s.held[b].(next := s.held[b].next + 1)])
  }

  lemma {:induction false} NextHookRuns(s: State, b: nat, n: nat) returns (actions: seq<Action>)
    requires Acyclic(s.net) && b < |s.net| && 0 < n <= |s.net[b].hooks| && FreeBefore(s, b)
    requires b in s.held && s.held[b].flip && !s.held[b].calling
    ensures Leads(Informed(s, b, n - 1), actions, Informed(s, b, n))
    decreases b, n, 0
  {
    var mid := Informed(s, b, n - 1);
    InformedIsReady(s, b, n - 1);
    InformedNext(s, b, n);
    actions := HookRuns(mid, b);
  }

  lemma InformedNext(s: State, b: nat, n: nat)
    requires Acyclic(s.net) && b < |s.net| && 0 < n <= |s.net[b].hooks| && b in s.held
    requires Acyclic(Informed(s, b, n - 1).net) && Informed(s, b, n - 1).net[b] == s.net[b]
    ensures HookDone(Informed(s, b, n - 1), b) == Informed(s, b, n)
  {
    var mid, t := Informed(s, b, n - 1), Informed(s, b, n);
    assert s.net[b].hooks[n - 1].parent < b;
    assert mid.held[b := mid.held[b].(next := n)] == t.held;
  }

  /** One hook: the lock of the parent is taken, its own hooks run, and its lock is released. */
  lemma {:induction false} HookRuns(s: State, b: nat) returns (actions: seq<Action>)
    requires Acyclic(s.net) && b < |s.net| && FreeBefore(s, b) && b in s.held
    requires s.held[b].flip && !s.held[b].calling && s.held[b].next < |s.net[b].hooks|
    ensures Leads(s, actions, HookDone(s, b))
    decreases b, 0
  {
    var x := s.held[b];
    var h := s.net[b].hooks[x.next];
    var up := s.net[b].status != {};
    assert h.parent < b && Free(s, h.parent);
    var waiting := s.(held := s.held[b := x.(calling := true)]);
    var inner := SetRuns(waiting, h.parent, h.name, up, Some(b));
    var t := HookDone(s, b);
    var done := s.(net := t.net, held := waiting.held[h.parent := Finished(s.net, h.parent, h.name, up, Some(b))]);
    ReturnAfter(waiting, h.parent, b, done, t);
    LeadsOn(Next(s, Call(b)), inner, done, [Return(h.parent)], t);
    actions := [Call(b)] + (inner + [Return(h.parent)]);
    assert actions[1..] == inner + [Return(h.parent)];
  }

  lemma ReturnAfter(waiting: State, p: nat, b: nat, done: State, t: State)
    requires b in waiting.held && p < b && p !in waiting.held && p < |done.net|
    requires waiting.held[b].calling
    requires p in done.held && done.held == waiting.held[p := done.held[p]]
    requires done.held[p].caller == Some(b) && !done.held[p].calling
    requires done.held[p].flip ==> done.held[p].next == |done.net[p].hooks|
    requires t.net == done.net && t.picks == done.picks && t.conns == done.conns
    requires t.held == waiting.held[b := waiting.held[b].(next := waiting.held[b].next + 1, calling := false)]
    ensures Leads(done, [Return(p)], t)
  {
    assert done.held - {p} == waiting.held;
    assert Next(done, Return(p)) == t;
  }

  /** No lock is taken, and these connections wait. */
  function AtRest(net: Net, conns: multiset<nat>): State {
    State(net, map[], {}, conns)
  }

  /** A report that nothing interrupts does what `Set` says. */
  lemma ReportAlone(net: Net, conns: multiset<nat>, r: Report) returns (actions: seq<Action>)
    requires Acyclic(net) && CanReport(net, r)
    ensures Leads(AtRest(net, conns), actions, AtRest(Set(net, r.b, r.server, r.up), conns))
  {
    var s := AtRest(net, conns);
    var inner := SetRuns(s, r.b, r.server, r.up, None);
    var done := State(Set(net, r.b, r.server, r.up), s.held[r.b := Finished(net, r.b, r.server, r.up, None)], {}, conns);
    var t := AtRest(done.net, conns);
    assert done.held - {r.b} == map[];
    assert Leads(done, [Return(r.b)], t);
    LeadsOn(Next(s, Begin(r)), inner, done, [Return(r.b)], t);
    actions := [Begin(r)] + (inner + [Return(r.b)]);
    assert actions[1..] == inner + [Return(r.b)];
  }

  lemma {:induction false} ReportsAlone(net: Net, conns: multiset<nat>, reports: seq<Report>) returns (actions: seq<Action>)
    requires Acyclic(net) && AllReports(net, reports)
    ensures Leads(AtRest(net, conns), actions, AtRest(Reported(net, reports), conns))
    decreases |reports|
  {
    if reports == [] {
      actions := [];
    } else {
      var n := |reports| - 1;
      PrefixReports(net, reports);
      var first := ReportsAlone(net, conns, reports[..n]);
      var mid := Reported(net, reports[..n]);
      var last := ReportAlone(mid, conns, reports[n]);
      LeadsOn(AtRest(net, conns), first, AtRest(mid, conns), last, AtRest(Reported(net, reports), conns));
      actions := first + last;
    }
  }

  /** With no report under way at the end the net is consistent. */
  predicate RestsConsistent(states: seq<State>) {
    states != [] && states[|states| - 1].held == map[] ==> Consistent(states[|states| - 1].net)
  }

  /** Exactly the builds that are consistent after every sequence of reports are so after every interleaving. */
  lemma RestsConsistentIff(steps: seq<Step>)
    requires CanBuild(steps) && AttachedOnce(steps)
    ensures (forall states, actions :: IsRun(states, actions) && states[0] == Start(steps) ==> RestsConsistent(states))
       <==> Populated(steps) && HarmlessSlots(steps)
  {
    AlwaysConsistentIff(steps);
    if Populated(steps) && HarmlessSlots(steps) {
      forall states, actions | IsRun(states, actions) && states[0] == Start(steps) ensures RestsConsistent(states) {
        AgreesWhenFree(steps, states, actions, |actions|);
      }
    } else {
      var reports :| AllReports(Built(steps), reports) && !Consistent(Reported(Built(steps), reports));
      var actions := ReportsAlone(Built(steps), multiset{}, reports);
      var states := LeadsIsRun(Start(steps), actions, AtRest(Reported(Built(steps), reports), multiset{}));
      assert !RestsConsistent(states);
    }
  }

  // ---------------------------------------------------------------------------
  // When locks are given back
  // ---------------------------------------------------------------------------

  /** What a goroutine does that has a lock. */
  predicate Internal(a: Action) {
    a.Call? || a.Return? || a.Picked?
  }

  /** What brings the reports and connections that are there to their end. */
  predicate Onward(a: Action) {
    Internal(a) || a.Pick?
  }

  predicate AllOnward(actions: seq<Action>) {
    forall i :: 0 <= i < |actions| ==> Onward(actions[i])
  }

  predicate AllInternal(actions: seq<Action>) {
    forall i :: 0 <= i < |actions| ==> Internal(actions[i])
  }

  /** A pick has the lock of the balancer and its loop does not end. */
  predicate Spinning(s: State, b: nat) {
    b in s.picks && b < |s.net| && !PickEnds(s.net[b])
  }

  ghost predicate NoneSpins(s: State) {
    forall b :: b in s.picks ==> !Spinning(s, b)
  }

  /** The first balancer whose lock is taken. */
  lemma {:induction false} LowestHeld(s: State, b: nat) returns (m: nat)
    requires b in s.held
    ensures m in s.held && forall d :: d in s.held ==> m <= d
    decreases b
  {
    if d: nat :| d in s.held && d < b {
      m := LowestHeld(s, d);
    } else {
      m := b;
    }
  }

  /** As locks are taken from child to parent, some goroutine can always go on, unless a pick spins. */
  lemma NoDeadlock(s: State)
    requires LockInv(s)
    ensures NoLocks(s) ==> forall a :: Internal(a) ==> !Enabled(s, a)
    ensures NoneSpins(s) ==> (!NoLocks(s) <==> exists a :: Internal(a) && Enabled(s, a))
  {
    if NoneSpins(s) && s.picks != {} {
      var b :| b in s.picks;
      assert !Spinning(s, b);
      if PickFails(s.net[b]) {
        assert Enabled(s, Picked(b, None));
      } else {
        var i: nat :| Choosable(s.net[b], i);
        assert Enabled(s, Picked(b, Some(i)));
      }
    } else if NoneSpins(s) && s.held != map[] {
      var b :| b in s.held;
      var m := LowestHeld(s, b);
      assert HolderOk(s, m);
      if s.held[m].flip && s.held[m].next < |s.net[m].hooks| {
        assert s.net[m].hooks[s.held[m].next].parent < m;
        assert Enabled(s, Call(m));
      } else {
        assert Enabled(s, Return(m));
      }
    }
  }

  /** The steps that a report to a balancer takes at most, its propagation included. */
  function Cost(net: Net, b: nat): nat
    requires b < |net| && Acyclic(net)
    decreases b, |net[b].hooks| + 1
  {
    1 + CostFrom(net, b, 0)
  }

  function CostFrom(net: Net, b: nat, k: nat): nat
    requires b < |net| && Acyclic(net)
    decreases b, |net[b].hooks| - k
  {
    if k >= |net[b].hooks| then 0
    else
      assert net[b].hooks[k].parent < b;
      1 + Cost(net, net[b].hooks[k].parent) + CostFrom(net, b, k + 1)
  }

  lemma {:induction false} CostSame(a: Net, r: Net, b: nat, k: nat)
    requires b < |a| && Acyclic(a) && SameWiring(a, r) && Acyclic(r)
    ensures CostFrom(a, b, k) == CostFrom(r, b, k)
    decreases b, |a[b].hooks| - k
  {
    assert a[b].(status := {}) == r[b].(status := {});
    if k < |a[b].hooks| {
      CostSame(a, r, a[b].hooks[k].parent, 0);
      CostSame(a, r, b, k + 1);
    }
  }

  /** What the holder of a lock has left to do. */
  function Left(s: State, b: nat): nat
    requires b < |s.net| && Acyclic(s.net)
  {
    if b !in s.held then 0
    else 1 + if s.held[b].flip then CostFrom(s.net, b, s.held[b].next + if s.held[b].calling then 1 else 0) else 0
  }

  function Sum(xs: seq<nat>): nat {
    if xs == [] then 0 else Sum(xs[..|xs| - 1]) + xs[|xs| - 1]
  }

  lemma {:induction false} SumUpdate(xs: seq<nat>, i: nat, v: nat)
    requires i < |xs|
    ensures Sum(xs[i := v]) + xs[i] == Sum(xs) + v
    decreases |xs|
  {
    var n := |xs| - 1;
    if i == n {
      assert xs[i := v][..n] == xs[..n];
    } else {
      assert xs[i := v][..n] == xs[..n][i := v];
      SumUpdate(xs[..n], i, v);
    }
  }

  function Lefts(s: State): (xs: seq<nat>)
    requires Acyclic(s.net)
    ensures |xs| == |s.net| && forall b :: 0 <= b < |xs| ==> xs[b] == Left(s, b)
  {
    seq(|s.net|, b requires 0 <= b < |s.net| => Left(s, b))
  }

  /** Twice the picks that the connections at a balancer can still take; one under way is half done. */
  function Ahead(s: State, b: nat): nat
    requires b < |s.net|
  {
    s.conns[b] * (2 * (|s.net| - b)) + if b in s.picks then 2 * (|s.net| - b) - 1 else 0
  }

  function Aheads(s: State): (xs: seq<nat>)
    ensures |xs| == |s.net| && forall b :: 0 <= b < |xs| ==> xs[b] == Ahead(s, b)
  {
    seq(|s.net|, b requires 0 <= b < |s.net| => Ahead(s, b))
  }

  function Work(s: State): nat
    requires Acyclic(s.net)
  {
    Sum(Lefts(s)) + Sum(Aheads(s))
  }

  /** A call moves what its hook costs to the parent. */
  lemma LeftAfterCall(s: State, c: nat, d: nat)
    requires Acyclic(s.net) && CanCall(s, c) && d < |s.net| && Acyclic(Next(s, Call(c)).net)
    ensures var p, n, left := s.net[c].hooks[s.held[c].next].parent, s.held[c].next, Left(Next(s, Call(c)), d);
            if d == c then left == 1 + CostFrom(s.net, c, n + 1)
            else if d == p then left <= Cost(s.net, p)
            else left == Left(s, d)
  {
    var t, p, n := Next(s, Call(c)), s.net[c].hooks[s.held[c].next].parent, s.held[c].next;
    StepWiring(s, Call(c), t);
    assert p < c;
    if d == c {
      assert t.held[c] == s.held[c].(calling := true);
      CostSame(s.net, t.net, c, n + 1);
    } else if d == p {
      assert t.held[p].next == 0 && !t.held[p].calling;
      CostSame(s.net, t.net, p, 0);
    } else if d in s.held {
      assert t.held[d] == s.held[d];
      CostSame(s.net, t.net, d, s.held[d].next + if s.held[d].calling then 1 else 0);
    }
  }

  lemma CallUsesLeft(s: State, c: nat)
    requires Acyclic(s.net) && CanCall(s, c) && Acyclic(Next(s, Call(c)).net)
    ensures Sum(Lefts(Next(s, Call(c)))) < Sum(Lefts(s))
  {
    var t, n := Next(s, Call(c)), s.held[c].next;
    var p := s.net[c].hooks[n].parent;
    assert p < c;
    var xs := Lefts(s)[c := Left(t, c)];
    forall d | 0 <= d < |s.net| ensures Lefts(t)[d] == xs[p := Left(t, p)][d] {
      LeftAfterCall(s, c, d);
    }
    assert Lefts(t) == xs[p := Left(t, p)];
    SumUpdate(Lefts(s), c, Left(t, c));
    SumUpdate(xs, p, Left(t, p));
    LeftAfterCall(s, c, c);
    LeftAfterCall(s, c, p);
    assert Left(s, c) == 1 + (1 + Cost(s.net, p) + CostFrom(s.net, c, n + 1)) && Left(s, p) == 0;
  }

  lemma LeftAfterReturn(s: State, b: nat, d: nat)
    requires Acyclic(s.net) && HoldersOk(s) && CanReturn(s, b) && d < |s.net|
    ensures Left(Next(s, Return(b)), d) == if d == b then 0 else Left(s, d)
  {
    var t := Next(s, Return(b));
    assert HolderOk(s, b);
    if d == b {
      assert d !in t.held;
    } else if s.held[b].caller == Some(d) {
      assert s.held[d].calling && t.held[d] == s.held[d].(next := s.held[d].next + 1, calling := false);
    } else {
      assert d in s.held <==> d in t.held;
      assert d in s.held ==> t.held[d] == s.held[d];
    }
  }

  lemma ReturnUsesLeft(s: State, b: nat)
    requires Acyclic(s.net) && HoldersOk(s) && CanReturn(s, b)
    ensures Sum(Lefts(Next(s, Return(b)))) < Sum(Lefts(s))
  {
    var t := Next(s, Return(b));
    var xs := Lefts(s)[b := 0];
    forall d | 0 <= d < |s.net| ensures Lefts(t)[d] == xs[d] {
      LeftAfterReturn(s, b, d);
    }
    assert Lefts(t) == xs;
    SumUpdate(Lefts(s), b, 0);
  }

  lemma PickUsesWork(s: State, b: nat)
    requires Acyclic(s.net) && Enabled(s, Pick(b))
    ensures Work(Next(s, Pick(b))) < Work(s)
  {
    var t := Next(s, Pick(b));
    assert Lefts(t) == Lefts(s);
    assert s.conns[b] == t.conns[b] + 1;
    assert Ahead(t, b) == Ahead(s, b) - 1;
    assert Aheads(t) == Aheads(s)[b := Ahead(t, b)];
    SumUpdate(Aheads(s), b, Ahead(t, b));
  }

  /** A child comes after its parent, so a connection has fewer picks ahead of it there. */
  lemma AheadAfterPicked(s: State, b: nat, i: nat, d: nat)
    requires Enabled(s, Picked(b, Some(i))) && d < |s.net|
    requires s.net[b].pool[i].child.Some? && b < s.net[b].pool[i].child.value < |s.net|
    ensures var c, ahead := s.net[b].pool[i].child.value, Ahead(Next(s, Picked(b, Some(i))), d);
            if d == b then ahead + 2 * (|s.net| - b) - 1 == Ahead(s, b)
            else if d == c then ahead == Ahead(s, c) + 2 * (|s.net| - c)
            else ahead == Ahead(s, d)
  {
    var t, c := Next(s, Picked(b, Some(i))), s.net[b].pool[i].child.value;
    assert t.conns[c] == s.conns[c] + 1 && (d != c ==> t.conns[d] == s.conns[d]);
  }

  lemma HandedOnUsesWork(s: State, b: nat, i: nat)
    requires Acyclic(s.net) && Enabled(s, Picked(b, Some(i)))
    requires s.net[b].pool[i].child.Some? && b < s.net[b].pool[i].child.value < |s.net|
    ensures Work(Next(s, Picked(b, Some(i)))) < Work(s)
  {
    var t, c := Next(s, Picked(b, Some(i))), s.net[b].pool[i].child.value;
    assert Lefts(t) == Lefts(s);
    var xs := Aheads(s)[b := Ahead(t, b)];
    forall d | 0 <= d < |s.net| ensures Aheads(t)[d] == xs[c := Ahead(t, c)][d] {
      AheadAfterPicked(s, b, i, d);
    }
    assert Aheads(t) == xs[c := Ahead(t, c)];
    SumUpdate(Aheads(s), b, Ahead(t, b));
    SumUpdate(xs, c, Ahead(t, c));
    AheadAfterPicked(s, b, i, b);
    AheadAfterPicked(s, b, i, c);
  }

  lemma PickedUsesWork(s: State, b: nat, entry: Option<nat>)
    requires Acyclic(s.net) && Stocked(s.net) && Enabled(s, Picked(b, entry))
    ensures Work(Next(s, Picked(b, entry))) < Work(s)
  {
    assert StockedAt(s.net, b);
    if entry.Some? && s.net[b].pool[entry.value].child.Some? {
      HandedOnUsesWork(s, b, entry.value);
    } else {
      var t := Next(s, Picked(b, entry));
      assert Lefts(t) == Lefts(s) && t.conns == s.conns;
      assert Aheads(t) == Aheads(s)[b := Ahead(t, b)];
      SumUpdate(Aheads(s), b, Ahead(t, b));
    }
  }

  lemma StepUsesWork(s: State, a: Action, t: State)
    requires LockInv(s) && IsStep(s, a, t) && Onward(a) && Acyclic(t.net)
    ensures Work(t) < Work(s)
  {
    match a
    case Call(c) =>
      assert Aheads(t) == Aheads(s);
      CallUsesLeft(s, c);
    case Return(b) =>
      assert Aheads(t) == Aheads(s);
      ReturnUsesLeft(s, b);
    case Pick(b) => PickUsesWork(s, b);
    case Picked(b, entry) => PickedUsesWork(s, b, entry);
  }

  /** The balancer of a pick does not change while the pick has its lock, so a spinning pick spins for ever. */
  lemma PickedStays(s: State, a: Action, t: State, b: nat)
    requires LockInv(s) && IsStep(s, a, t) && b in s.picks
    ensures t.net[b] == s.net[b] && (Spinning(s, b) ==> Spinning(t, b)) && (b in t.picks || (a.Picked? && a.b == b))
  {
    if a.Call? {
      assert HolderOk(s, a.c);
    }
  }

  lemma {:induction false} SpinsForever(states: seq<State>, actions: seq<Action>, b: nat, i: nat)
    requires IsRun(states, actions) && LockInv(states[0]) && Spinning(states[0], b) && i < |states|
    ensures Spinning(states[i], b)
  {
    if i > 0 {
      SpinsForever(states, actions, b, i - 1);
      RunKeepsLocks(states, actions, i - 1);
      assert StepAt(states, actions, i - 1);
      PickedStays(states[i - 1], actions[i - 1], states[i], b);
    }
  }

  /** A report has the lock of the balancer and waits for that of a parent in which a pick spins. */
  predicate Blocked(s: State, c: nat) {
    && c in s.held && c < |s.net| && s.held[c].flip && !s.held[c].calling && s.held[c].next < |s.net[c].hooks|
    && Spinning(s, s.net[c].hooks[s.held[c].next].parent)
  }

  lemma BlockedStays(s: State, a: Action, t: State, c: nat)
    requires LockInv(s) && IsStep(s, a, t) && Blocked(s, c)
    ensures Blocked(t, c)
  {
    StepWiring(s, a, t);
    SameHooks(s.net, t.net, c);
    PickedStays(s, a, t, s.net[c].hooks[s.held[c].next].parent);
    BlockedHolds(s, a, t, c);
  }

  lemma BlockedHolds(s: State, a: Action, t: State, c: nat)
    requires HoldersOk(s) && Acyclic(s.net) && IsStep(s, a, t) && Blocked(s, c)
    ensures c in t.held && t.held[c] == s.held[c]
  {
    if a.Call? || a.Return? {
      assert HolderOk(s, if a.Call? then a.c else a.b);
    }
  }

  /** Such a report waits for ever, and keeps its lock. */
  lemma {:induction false} BlockedForever(states: seq<State>, actions: seq<Action>, c: nat, i: nat)
    requires IsRun(states, actions) && LockInv(states[0]) && Blocked(states[0], c) && i < |states|
    ensures Blocked(states[i], c)
  {
    if i > 0 {
      BlockedForever(states, actions, c, i - 1);
      RunKeepsLocks(states, actions, i - 1);
      assert StepAt(states, actions, i - 1);
      BlockedStays(states[i - 1], actions[i - 1], states[i], c);
    }
  }

  /** Without new reports and picks, no pick begins to spin. */
  lemma NoneSpinsStays(s: State, a: Action, t: State)
    requires LockInv(s) && IsStep(s, a, t) && Internal(a) && NoneSpins(s)
    ensures NoneSpins(t)
  {
    forall b | b in t.picks ensures !Spinning(t, b) {
      assert b in s.picks && !Spinning(s, b);
      PickedStays(s, a, t, b);
    }
  }

  /** Without new reports and connections the goroutines take a bounded number of steps. */
  lemma {:induction false} RunUsesWork(states: seq<State>, actions: seq<Action>, i: nat)
    requires IsRun(states, actions) && LockInv(states[0]) && i < |states| && AllOnward(actions)
    ensures LockInv(states[i]) && i + Work(states[i]) <= Work(states[0])
  {
    if i > 0 {
      RunUsesWork(states, actions, i - 1);
      assert StepAt(states, actions, i - 1) && Onward(actions[i - 1]);
      StepKeepsLocks(states[i - 1], actions[i - 1], states[i]);
      StepUsesWork(states[i - 1], actions[i - 1], states[i]);
    }
  }

  lemma {:induction false} NoneSpinsOn(states: seq<State>, actions: seq<Action>, i: nat)
    requires IsRun(states, actions) && LockInv(states[0]) && i < |states| && AllInternal(actions) && NoneSpins(states[0])
    ensures NoneSpins(states[i])
  {
    if i > 0 {
      NoneSpinsOn(states, actions, i - 1);
      RunKeepsLocks(states, actions, i - 1);
      assert StepAt(states, actions, i - 1);
      NoneSpinsStays(states[i - 1], actions[i - 1], states[i]);
    }
  }

  /**
   Without new reports and picks the goroutines take a bounded number of steps; unless a pick spins they
   stop only when no lock is taken.
   */
  lemma ReportsEnd(states: seq<State>, actions: seq<Action>, i: nat)
    requires IsRun(states, actions) && LockInv(states[0]) && i < |states| && AllInternal(actions)
    ensures LockInv(states[i]) && i + Work(states[i]) <= Work(states[0])
    ensures NoneSpins(states[0]) ==>
              ((forall a :: Internal(a) ==> !Enabled(states[i], a)) <==> NoLocks(states[i]))
  {
    RunUsesWork(states, actions, i);
    if NoneSpins(states[0]) { NoneSpinsOn(states, actions, i); }
    NoDeadlock(states[i]);
  }

  /** The goroutines that have a lock can give all locks back. */
  ghost predicate CanRest(s: State) {
    exists actions, t :: AllInternal(actions) && Leads(s, actions, t) && NoLocks(t)
  }

  lemma {:induction false} RestReached(s: State) returns (actions: seq<Action>, t: State)
    requires LockInv(s) && NoneSpins(s)
    ensures AllInternal(actions) && Leads(s, actions, t) && NoLocks(t)
    decreases Work(s)
  {
    if NoLocks(s) {
      actions, t := [], s;
    } else {
      NoDeadlock(s);
      var a :| Internal(a) && Enabled(s, a);
      var next := Next(s, a);
      StepKeepsLocks(s, a, next);
      StepUsesWork(s, a, next);
      NoneSpinsStays(s, a, next);
      var rest;
      rest, t := RestReached(next);
      actions := [a] + rest;
      assert actions[1..] == rest;
    }
  }

  /** All locks can be given back if and only if no pick spins. */
  lemma CanRestIff(s: State)
    requires LockInv(s)
    ensures CanRest(s) <==> NoneSpins(s)
  {
    if NoneSpins(s) {
      var actions, t := RestReached(s);
    }
    if CanRest(s) {
      var actions, t :| AllInternal(actions) && Leads(s, actions, t) && NoLocks(t);
      var states := LeadsIsRun(s, actions, t);
      forall b | b in s.picks ensures !Spinning(s, b) {
        if Spinning(s, b) {
          SpinsForever(states, actions, b, |actions|);
        }
      }
    }
  }

}
