/**
 How the status of TCP balancers travels to their parents, on values: a net of balancers, each with
 the names it lists as up and the hooks that report to its parents. Parents come before children, as
 pkg/server/service/tcp/service.go builds them.
 */
module Propagation {
  import opened Wrappers

  /** The slot of a parent that a child's hook sets. */
  datatype Hook = Hook(parent: nat, name: string)

  /** A server or child with its weight; a child is the balancer that takes the connections given to it. */
  datatype Server = Server(name: string, weight: nat, child: Option<nat>)

  /**
   `key` is the name under which the service was mentioned, `pool` what a pick chooses from. `servers`
   are the balancer's own servers; a weighted balancer has children instead. `routed` says that a router
   has the balancer as its handler.
   */
  datatype Cell = Cell(
    key: string, weighted: bool, check: bool, routed: bool,
    pool: seq<Server>, servers: set<string>, status: set<string>, hooks: seq<Hook>)

  type Net = seq<Cell>

  predicate Acyclic(net: Net) {
    forall b, k :: 0 <= b < |net| && 0 <= k < |net[b].hooks| ==> net[b].hooks[k].parent < b
  }

  predicate SameWiring(a: Net, b: Net) {
    |a| == |b| && forall i :: 0 <= i < |a| ==> a[i].(status := {}) == b[i].(status := {})
  }

  lemma WiringSame(start: Net, a: Net, r: Net)
    requires SameWiring(start, a) && SameWiring(start, r)
    ensures SameWiring(a, r)
  {
    forall i | 0 <= i < |a| ensures a[i].(status := {}) == r[i].(status := {}) {
      assert start[i].(status := {}) == a[i].(status := {}) && start[i].(status := {}) == r[i].(status := {});
    }
  }

  lemma WiringNext(start: Net, net: Net, t: Net)
    requires SameWiring(start, net) && SameWiring(net, t)
    ensures SameWiring(start, t)
  {
    forall i | 0 <= i < |t| ensures start[i].(status := {}) == t[i].(status := {}) {
      assert start[i].(status := {}) == net[i].(status := {}) && net[i].(status := {}) == t[i].(status := {});
    }
  }

  lemma WiredBack(a: Net, b: Net)
    requires SameWiring(a, b)
    ensures SameWiring(b, a)
  {
  }

  function Marked(status: set<string>, name: string, up: bool): set<string> {
    if up then status + {name} else status - {name}
  }

  /** Sets the status of one child and, when the balancer flips, reports the flip through every hook. */
  function Set(net: Net, b: nat, name: string, up: bool): (r: Net)
    requires b < |net| && Acyclic(net)
    ensures SameWiring(net, r)
    decreases b, |net[b].hooks| + 1
  {
    var status := Marked(net[b].status, name, up);
    var next := net[b := net[b].(status := status)];
    if (net[b].status == {}) == (status == {}) then next
    else Notified(next, b, status != {}, |net[b].hooks|)
  }

  /** The first `n` hooks of a balancer run. */
  function Notified(net: Net, b: nat, up: bool, n: nat): (r: Net)
    requires b < |net| && n <= |net[b].hooks| && Acyclic(net)
    ensures SameWiring(net, r)
    decreases b, n
  {
    if n == 0 then net
    else
      var before := Notified(net, b, up, n - 1);
      var hook := net[b].hooks[n - 1];
      assert hook.parent < b;
      Set(before, hook.parent, hook.name, up)
  }

  // ---------------------------------------------------------------------------
  // What one report changes
  // ---------------------------------------------------------------------------

  /** Statuses only grow, or only shrink. */
  predicate OneWay(a: Net, b: Net, up: bool) {
    |a| == |b| && forall i :: 0 <= i < |a| ==> if up then a[i].status <= b[i].status else b[i].status <= a[i].status
  }

  /** A report reaches the balancer and those before it only. */
  predicate SameFrom(a: Net, b: Net, from: nat) {
    |a| == |b| && forall i :: from <= i < |a| ==> a[i] == b[i]
  }

  lemma {:induction false} SetReaches(net: Net, b: nat, name: string, up: bool)
    requires b < |net| && Acyclic(net)
    ensures var r := Set(net, b, name, up);
            r[b].status == Marked(net[b].status, name, up) && SameFrom(net, r, b + 1) && OneWay(net, r, up)
    decreases b, |net[b].hooks| + 1
  {
    var status := Marked(net[b].status, name, up);
    var next := net[b := net[b].(status := status)];
    if (net[b].status == {}) != (status == {}) {
      NotifiedReaches(next, b, status != {}, |net[b].hooks|);
    }
  }

  lemma {:induction false} NotifiedReaches(net: Net, b: nat, up: bool, n: nat)
    requires b < |net| && n <= |net[b].hooks| && Acyclic(net)
    ensures var r := Notified(net, b, up, n); SameFrom(net, r, b) && OneWay(net, r, up)
    decreases b, n
  {
    if n > 0 {
      var before := Notified(net, b, up, n - 1);
      NotifiedReaches(net, b, up, n - 1);
      assert net[b].hooks[n - 1].parent < b;
      SetReaches(before, net[b].hooks[n - 1].parent, net[b].hooks[n - 1].name, up);
    }
  }

  /** The parent lists the balancer as up. */
  predicate Listed(net: Net, h: Hook) {
    h.parent < |net| && h.name in net[h.parent].status
  }

  /** The parent lists the balancer exactly when the balancer has a child up. */
  predicate Agrees(net: Net, b: nat, k: nat)
    requires b < |net| && k < |net[b].hooks|
  {
    Listed(net, net[b].hooks[k]) <==> net[b].status != {}
  }

  predicate Consistent(net: Net) {
    forall b, k :: 0 <= b < |net| && 0 <= k < |net[b].hooks| ==> Agrees(net, b, k)
  }

  /** After the hooks ran, their slots hold what they reported. */
  lemma {:induction false} NotifiedSlots(net: Net, b: nat, up: bool, n: nat, k: nat)
    requires b < |net| && k < n <= |net[b].hooks| && Acyclic(net)
    ensures Listed(Notified(net, b, up, n), net[b].hooks[k]) <==> up
    decreases n
  {
    var before := Notified(net, b, up, n - 1);
    var h := net[b].hooks[n - 1];
    assert h.parent < b && net[b].hooks[k].parent < b;
    SetReaches(before, h.parent, h.name, up);
    if k < n - 1 {
      NotifiedSlots(net, b, up, n - 1, k);
    }
  }

  /** A balancer that flips brings all its parents into agreement, whatever else they list. */
  lemma FlipAgrees(net: Net, b: nat, name: string, up: bool, k: nat)
    requires b < |net| && Acyclic(net) && k < |net[b].hooks|
    requires (net[b].status == {}) != (Marked(net[b].status, name, up) == {})
    ensures Agrees(Set(net, b, name, up), b, k)
  {
    var status := Marked(net[b].status, name, up);
    var next := net[b := net[b].(status := status)];
    NotifiedSlots(next, b, status != {}, |net[b].hooks|, k);
    SetReaches(net, b, name, up);
  }

  predicate HasHook(net: Net, b: nat, k: nat) {
    b < |net| && k < |net[b].hooks|
  }

  /** No other hook shares the slot of this one. */
  ghost predicate Own(net: Net, c: nat, l: nat)
    requires HasHook(net, c, l)
  {
    forall b: nat, k: nat :: HasHook(net, b, k) && net[b].hooks[k] == net[c].hooks[l] ==> b == c && k == l
  }

  lemma OwnSame(a: Net, b: Net, c: nat, l: nat)
    requires SameWiring(a, b) && HasHook(a, c, l) && Own(a, c, l)
    ensures HasHook(b, c, l) && Own(b, c, l)
  {
    forall d: nat, k: nat | HasHook(b, d, k) && b[d].hooks[k] == b[c].hooks[l] ensures d == c && k == l {
      assert HasHook(a, d, k) && a[d].hooks[k] == a[c].hooks[l];
    }
  }

  /** The l-th hook of c keeps an agreement once reached, and its slot while c stays as it is. */
  predicate HookKept(a: Net, r: Net, c: nat, l: nat)
    requires c < |a| == |r| && l < |a[c].hooks| && a[c].hooks == r[c].hooks
  {
    && (Agrees(a, c, l) ==> Agrees(r, c, l))
    && (a[c].status == r[c].status ==> (Listed(a, a[c].hooks[l]) <==> Listed(r, a[c].hooks[l])))
  }

  /** A report keeps every hook but one into the slot it sets. */
  lemma {:induction false} SetKeeps(net: Net, b: nat, name: string, up: bool, c: nat, l: nat)
    requires b < |net| && Acyclic(net) && HasHook(net, c, l) && Own(net, c, l)
    requires net[c].hooks[l] != Hook(b, name)
    ensures HookKept(net, Set(net, b, name, up), c, l)
    decreases b, |net[b].hooks| + 1
  {
    var status := Marked(net[b].status, name, up);
    var next := net[b := net[b].(status := status)];
    assert net[c].hooks[l].parent < c;
    if (net[b].status == {}) != (status == {}) {
      NotifiedReaches(next, b, status != {}, |net[b].hooks|);
      if c == b {
        FlipAgrees(net, b, name, up, l);
      } else {
        OwnSame(net, next, c, l);
        NotifiedKeeps(next, b, status != {}, |net[b].hooks|, c, l);
      }
    }
  }

  lemma {:induction false} NotifiedKeeps(net: Net, b: nat, up: bool, n: nat, c: nat, l: nat)
    requires b < |net| && n <= |net[b].hooks| && Acyclic(net) && HasHook(net, c, l) && Own(net, c, l) && c != b
    ensures HookKept(net, Notified(net, b, up, n), c, l)
    decreases b, n, 1
  {
    if n > 0 {
      NotifiedKeeps(net, b, up, n - 1, c, l);
      NextHookKeeps(net, b, up, n, c, l);
    }
  }

  lemma {:induction false} NextHookKeeps(net: Net, b: nat, up: bool, n: nat, c: nat, l: nat)
    requires b < |net| && 0 < n <= |net[b].hooks| && Acyclic(net) && HasHook(net, c, l) && Own(net, c, l) && c != b
    requires HookKept(net, Notified(net, b, up, n - 1), c, l)
    ensures HookKept(net, Notified(net, b, up, n), c, l)
    decreases b, n, 0
  {
    var before, h := Notified(net, b, up, n - 1), net[b].hooks[n - 1];
    NotifiedReaches(net, b, up, n - 1);
    assert HasHook(net, b, n - 1);
    assert h.parent < b && net[c].hooks[l] != h;
    OwnSame(net, before, c, l);
    SameHooks(net, before, c);
    SetKeeps(before, h.parent, h.name, up, c, l);
    SetReaches(before, h.parent, h.name, up);
    SameHooks(before, Set(before, h.parent, h.name, up), c);
    KeptTwice(net, before, Set(before, h.parent, h.name, up), up, c, l);
  }

  lemma SameHooks(a: Net, b: Net, c: nat)
    requires SameWiring(a, b) && c < |a|
    ensures a[c].hooks == b[c].hooks
  {
    assert a[c].(status := {}) == b[c].(status := {});
  }

  lemma KeptTwice(a: Net, m: Net, r: Net, up: bool, c: nat, l: nat)
    requires |a| == |m| == |r| && OneWay(a, m, up) && OneWay(m, r, up) && HasHook(a, c, l)
    requires a[c].hooks == m[c].hooks == r[c].hooks && HookKept(a, m, c, l) && HookKept(m, r, c, l)
    ensures HookKept(a, r, c, l)
  {
  }

  /** No hook reports to the balancer. */
  predicate NoReports(net: Net, b: nat) {
    forall c, k :: 0 <= c < |net| && 0 <= k < |net[c].hooks| ==> net[c].hooks[k].parent != b
  }

  /** A report to another balancer does not touch one that nothing reports to. */
  lemma {:induction false} SetUntouched(net: Net, x: nat, name: string, up: bool, b: nat)
    requires x < |net| && Acyclic(net) && b < |net| && b != x && NoReports(net, b)
    ensures Set(net, x, name, up)[b] == net[b]
    decreases x, |net[x].hooks| + 1
  {
    var status := Marked(net[x].status, name, up);
    var next := net[x := net[x].(status := status)];
    if (net[x].status == {}) != (status == {}) {
      NotifiedUntouched(next, x, status != {}, |net[x].hooks|, b);
    }
  }

  lemma {:induction false} NotifiedUntouched(net: Net, x: nat, up: bool, n: nat, b: nat)
    requires x < |net| && n <= |net[x].hooks| && Acyclic(net) && b < |net| && b != x && NoReports(net, b)
    ensures Notified(net, x, up, n)[b] == net[b]
    decreases x, n
  {
    if n > 0 {
      var h := net[x].hooks[n - 1];
      NotifiedUntouched(net, x, up, n - 1, b);
      assert h.parent < x && h.parent != b;
      SetUntouched(Notified(net, x, up, n - 1), h.parent, h.name, up, b);
    }
  }

  // ---------------------------------------------------------------------------
  // Building a net
  // ---------------------------------------------------------------------------

  /** What the builder does to balancers; a child is built after the creation of its parent. */
  datatype Step =
    | New(key: string, weighted: bool, check: bool)
    | AddServer(b: nat, server: string)
    | AddChild(parent: nat, child: nat, name: string, weight: Option<nat>)
    | Route(b: nat)

  /**
   A child is added under the name by which it was built. A checked parent needs checked children:
   registering the hook fails otherwise, and so does the build.
   */
  predicate CanStep(net: Net, st: Step) {
    match st
    case New(_, _, _) => true
    case AddServer(b, _) => b < |net| && !net[b].weighted
    case AddChild(p, c, x, _) => p < c < |net| && net[p].weighted && net[c].key == x && (net[p].check ==> net[c].check)
    case Route(b) => b < |net|
  }

  /** The weight of a server or child; 1 if none is configured. */
  function WeightOf(weight: Option<nat>): nat {
    if weight.Some? then weight.value else 1
  }

  function StepOf(net: Net, st: Step): Net
    requires CanStep(net, st)
  {
    match st
    case New(key, weighted, check) => net + [Cell(key, weighted, check, false, [], {}, {}, [])]
    case AddServer(b, x) =>
      net[b := net[b].(pool := net[b].pool + [Server(x, 1, None)],
                       servers := net[b].servers + {x}, status := net[b].status + {x})]
    case AddChild(p, c, x, weight) =>
      var added := net[p := net[p].(pool := net[p].pool + [Server(x, WeightOf(weight), Some(c))],
                                    status := net[p].status + {x})];
      if net[p].check then added[c := added[c].(hooks := added[c].hooks + [Hook(p, x)])] else added
    case Route(b) => net[b := net[b].(routed := true)]
  }

  predicate CanBuild(steps: seq<Step>)
    decreases |steps|, 0
  {
    steps == [] || (CanBuild(steps[..|steps| - 1]) && CanStep(Built(steps[..|steps| - 1]), steps[|steps| - 1]))
  }

  function Built(steps: seq<Step>): Net
    requires CanBuild(steps)
    decreases |steps|, 1
  {
    if steps == [] then [] else StepOf(Built(steps[..|steps| - 1]), steps[|steps| - 1])
  }

  lemma {:induction false} CanBuildPrefix(steps: seq<Step>, n: nat)
    requires CanBuild(steps) && n <= |steps|
    ensures CanBuild(steps[..n])
    ensures n < |steps| ==> CanStep(Built(steps[..n]), steps[n])
    decreases |steps|
  {
    if n < |steps| {
      var m := |steps| - 1;
      CanBuildPrefix(steps[..m], n);
      assert steps[..m][..n] == steps[..n];
    } else {
      assert steps[..n] == steps;
    }
  }

  /** One more step of a build. */
  lemma BuildOn(steps: seq<Step>, n: nat)
    requires CanBuild(steps) && n < |steps|
    ensures CanBuild(steps[..n]) && CanStep(Built(steps[..n]), steps[n])
    ensures CanBuild(steps[..n + 1]) && Built(steps[..n + 1]) == StepOf(Built(steps[..n]), steps[n])
  {
    CanBuildPrefix(steps, n);
    CanBuildPrefix(steps, n + 1);
    assert steps[..n + 1][..n] == steps[..n];
  }

  /** The balancer was given a server or a child. */
  predicate Received(steps: seq<Step>, b: nat) {
    exists i :: 0 <= i < |steps| && GivesTo(steps[i], b)
  }

  predicate GivesTo(st: Step, b: nat) {
    (st.AddServer? && st.b == b) || (st.AddChild? && st.parent == b)
  }

  /** No two children of a checked balancer bear the same name; one without a check has no hooks. */
  ghost predicate UniqueChildren(steps: seq<Step>)
    requires CanBuild(steps)
  {
    forall i, j :: 0 <= i < j < |steps| ==> !SharedSlot(Built(steps), steps[i], steps[j])
  }

  predicate SharedSlot(net: Net, a: Step, b: Step) {
    && a.AddChild? && b.AddChild? && a.parent == b.parent && a.name == b.name
    && a.parent < |net| && net[a.parent].check
  }

  /** Some earlier step attached the balancer where the hook reports. */
  predicate Attached(steps: seq<Step>, b: nat, h: Hook) {
    exists i :: 0 <= i < |steps| && Attaches(steps[i], b, h)
  }

  predicate Attaches(st: Step, b: nat, h: Hook) {
    st.AddChild? && st.parent == h.parent && st.child == b && st.name == h.name
  }

  /** What holds of every balancer once some steps are done. */
  predicate CellOk(steps: seq<Step>, net: Net, b: nat)
    requires b < |net|
  {
    && (net[b].status != {} <==> Received(steps, b))
    && net[b].servers <= net[b].status
    && (net[b].weighted ==> net[b].servers == {})
  }

  predicate HookOk(steps: seq<Step>, net: Net, b: nat, h: Hook) {
    && h.parent < b && h.parent < |net| && net[h.parent].weighted && net[h.parent].check
    && Listed(net, h) && Attached(steps, b, h)
  }

  predicate NetOk(steps: seq<Step>, net: Net) {
    && (forall b :: 0 <= b < |net| ==> CellOk(steps, net, b))
    && (forall b, k :: 0 <= b < |net| && 0 <= k < |net[b].hooks| ==> HookOk(steps, net, b, net[b].hooks[k]))
    && (forall i :: 0 <= i < |steps| ==> InNet(steps[i], net))
  }

  /** The balancers of a step exist, and what it attaches to a checked parent reports there. */
  predicate InNet(st: Step, net: Net) {
    match st
    case New(_, _, _) => true
    case AddServer(b, _) => b < |net|
    case AddChild(p, c, x, _) => p < c < |net| && (net[p].check ==> Hook(p, x) in net[c].hooks)
    case Route(b) => b < |net|
  }

  lemma ReceivedNext(steps: seq<Step>, st: Step, b: nat)
    ensures Received(steps + [st], b) <==> Received(steps, b) || GivesTo(st, b)
  {
    var all := steps + [st];
    if Received(steps, b) {
      var i :| 0 <= i < |steps| && GivesTo(steps[i], b);
      assert all[i] == steps[i];
    }
    assert all[|steps|] == st;
  }

  lemma AttachedNext(steps: seq<Step>, st: Step, b: nat, h: Hook)
    ensures Attached(steps + [st], b, h) <==> Attached(steps, b, h) || Attaches(st, b, h)
  {
    var all := steps + [st];
    if Attached(steps, b, h) {
      var i :| 0 <= i < |steps| && Attaches(steps[i], b, h);
      assert all[i] == steps[i];
    }
    assert all[|steps|] == st;
  }

  lemma CellStep(steps: seq<Step>, net: Net, st: Step, b: nat)
    requires NetOk(steps, net) && CanStep(net, st) && b < |StepOf(net, st)|
    ensures CellOk(steps + [st], StepOf(net, st), b)
  {
    ReceivedNext(steps, st, b);
    if b < |net| {
      assert CellOk(steps, net, b);
    } else {
      NotYetReceived(steps, net, b);
    }
  }

  lemma NotYetReceived(steps: seq<Step>, net: Net, b: nat)
    requires NetOk(steps, net) && b >= |net|
    ensures !Received(steps, b)
  {
    forall i | 0 <= i < |steps| ensures !GivesTo(steps[i], b) {
      assert InNet(steps[i], net);
    }
  }

  lemma HookStep(steps: seq<Step>, net: Net, st: Step, b: nat, k: nat)
    requires NetOk(steps, net) && CanStep(net, st) && b < |StepOf(net, st)| && k < |StepOf(net, st)[b].hooks|
    ensures HookOk(steps + [st], StepOf(net, st), b, StepOf(net, st)[b].hooks[k])
  {
    var h := StepOf(net, st)[b].hooks[k];
    AttachedNext(steps, st, b, h);
    if b < |net| && k < |net[b].hooks| {
      assert HookOk(steps, net, b, net[b].hooks[k]);
    }
  }

  lemma InNetStep(net: Net, st: Step, earlier: Step)
    requires CanStep(net, st) && (earlier == st || InNet(earlier, net))
    ensures InNet(earlier, StepOf(net, st))
  {
    var t := StepOf(net, st);
    if earlier == st && st.AddChild? && net[st.parent].check {
      assert t[st.child].hooks[|net[st.child].hooks|] == Hook(st.parent, st.name);
    }
  }

  lemma NetStep(steps: seq<Step>, net: Net, st: Step)
    requires NetOk(steps, net) && CanStep(net, st)
    ensures NetOk(steps + [st], StepOf(net, st))
  {
    var t, all := StepOf(net, st), steps + [st];
    forall b | 0 <= b < |t| ensures CellOk(all, t, b) {
      CellStep(steps, net, st, b);
    }
    forall b, k | 0 <= b < |t| && 0 <= k < |t[b].hooks| ensures HookOk(all, t, b, t[b].hooks[k]) {
      HookStep(steps, net, st, b, k);
    }
    forall i | 0 <= i < |all| ensures InNet(all[i], t) {
      InNetStep(net, st, all[i]);
    }
  }

  lemma {:induction false} BuiltOk(steps: seq<Step>)
    requires CanBuild(steps)
    ensures NetOk(steps, Built(steps)) && Acyclic(Built(steps))
    decreases |steps|
  {
    if steps != [] {
      var n := |steps| - 1;
      BuiltOk(steps[..n]);
      NetStep(steps[..n], Built(steps[..n]), steps[n]);
      assert steps[..n] + [steps[n]] == steps;
    }
    var net := Built(steps);
    forall b, k | 0 <= b < |net| && 0 <= k < |net[b].hooks| ensures net[b].hooks[k].parent < b {
      assert HookOk(steps, net, b, net[b].hooks[k]);
    }
  }

  lemma KindsStay(net: Net, st: Step, b: nat)
    requires CanStep(net, st) && b < |net|
    ensures b < |StepOf(net, st)| && StepOf(net, st)[b].check == net[b].check && StepOf(net, st)[b].weighted == net[b].weighted
  {
  }

  /** A hook of the new net is a hook of the old one, or the one just added. */
  lemma OneHook(net: Net, st: Step, b: nat, k: nat)
    requires CanStep(net, st) && b < |StepOf(net, st)| && k < |StepOf(net, st)[b].hooks|
    ensures var h := StepOf(net, st)[b].hooks[k];
            || (b < |net| && k < |net[b].hooks| && h == net[b].hooks[k])
            || (st.AddChild? && b == st.child && k == |net[b].hooks| && h == Hook(st.parent, st.name))
  {
  }

  lemma StepsShare(before: Net, st: Step, a: Step, b: Step)
    requires CanStep(before, st) && SharedSlot(before, a, b)
    ensures SharedSlot(StepOf(before, st), a, b)
  {
    KindsStay(before, st, a.parent);
  }

  /** The earlier of two hooks in one slot was attached by an earlier step than the last. */
  lemma SharesWithLast(steps: seq<Step>, b: nat, k: nat) returns (i: nat)
    requires CanBuild(steps) && steps != [] && steps[|steps| - 1].AddChild?
    requires HasHook(Built(steps[..|steps| - 1]), b, k)
    requires var st := steps[|steps| - 1]; Built(steps[..|steps| - 1])[b].hooks[k] == Hook(st.parent, st.name)
    ensures i < |steps| - 1 && steps[i].AddChild? && steps[i].child == b
    ensures SharedSlot(Built(steps), steps[i], steps[|steps| - 1])
  {
    var n := |steps| - 1;
    var before := Built(steps[..n]);
    BuiltOk(steps[..n]);
    var h := before[b].hooks[k];
    assert HookOk(steps[..n], before, b, h);
    i :| 0 <= i < n && Attaches(steps[..n][i], b, h);
    KindsStay(before, steps[n], h.parent);
  }

  /** Two hooks share a slot only if two steps attached their balancers there. */
  lemma {:induction false} SharedHooks(steps: seq<Step>, b: nat, k: nat, c: nat, l: nat) returns (i: nat, j: nat)
    requires CanBuild(steps) && HasHook(Built(steps), b, k) && HasHook(Built(steps), c, l)
    requires (b != c || k != l) && Built(steps)[b].hooks[k] == Built(steps)[c].hooks[l]
    ensures i < |steps| && j < |steps| && i != j && SharedSlot(Built(steps), steps[i], steps[j])
    ensures steps[i].child == b && steps[j].child == c
    decreases |steps|
  {
    var n := |steps| - 1;
    var before, st := Built(steps[..n]), steps[n];
    OneHook(before, st, b, k);
    OneHook(before, st, c, l);
    if HasHook(before, b, k) && HasHook(before, c, l) {
      i, j := SharedHooks(steps[..n], b, k, c, l);
      StepsShare(before, st, steps[i], steps[j]);
    } else if HasHook(before, b, k) {
      i := SharesWithLast(steps, b, k);
      j := n;
    } else {
      j := SharesWithLast(steps, c, l);
      i := n;
    }
  }

  // ---------------------------------------------------------------------------
  // What a balancer picks from
  // ---------------------------------------------------------------------------

  /** The pool has an entry of this name. */
  predicate InPool(c: Cell, x: string) {
    exists i :: 0 <= i < |c.pool| && c.pool[i].name == x
  }

  predicate HookStocked(net: Net, h: Hook) {
    h.parent < |net| && InPool(net[h.parent], h.name)
  }

  /** Only names of the pool are listed, servers and hooks name entries of pools, and children come later. */
  ghost predicate StockedAt(net: Net, b: nat)
    requires b < |net|
  {
    && (forall x :: x in net[b].status || x in net[b].servers ==> InPool(net[b], x))
    && (forall k :: 0 <= k < |net[b].hooks| ==> HookStocked(net, net[b].hooks[k]))
    && (!net[b].weighted ==> forall i :: 0 <= i < |net[b].pool| ==> net[b].pool[i].weight == 1 && net[b].pool[i].child == None)
    && (forall i :: 0 <= i < |net[b].pool| && net[b].pool[i].child.Some? ==> b < net[b].pool[i].child.value < |net|)
    && (net[b].hooks != [] ==> net[b].check)
  }

  ghost predicate Stocked(net: Net) {
    forall b :: 0 <= b < |net| ==> StockedAt(net, b)
  }

  /** As built, a balancer lists its whole pool. */
  ghost predicate FullAt(net: Net, b: nat)
    requires b < |net|
  {
    && (forall x :: x in net[b].status <==> InPool(net[b], x))
    && (!net[b].weighted ==> net[b].status == net[b].servers)
  }

  lemma InPoolStays(net: Net, st: Step, b: nat, x: string)
    requires CanStep(net, st) && b < |net|
    ensures InPool(StepOf(net, st)[b], x) <==>
            InPool(net[b], x) || (GivesTo(st, b) && x == if st.AddServer? then st.server else st.name)
  {
    var t := StepOf(net, st);
    if InPool(net[b], x) {
      var i :| 0 <= i < |net[b].pool| && net[b].pool[i].name == x;
      assert t[b].pool[i] == net[b].pool[i];
    }
    if GivesTo(st, b) {
      assert t[b].pool[|net[b].pool|].name == if st.AddServer? then st.server else st.name;
    }
  }

  lemma StockedHooks(net: Net, st: Step, b: nat)
    requires CanStep(net, st) && b < |StepOf(net, st)| && (b < |net| ==> StockedAt(net, b))
    ensures forall k :: 0 <= k < |StepOf(net, st)[b].hooks| ==> HookStocked(StepOf(net, st), StepOf(net, st)[b].hooks[k])
  {
    var t := StepOf(net, st);
    forall k | 0 <= k < |t[b].hooks| ensures HookStocked(t, t[b].hooks[k]) {
      OneHook(net, st, b, k);
      if b < |net| && k < |net[b].hooks| { assert HookStocked(net, net[b].hooks[k]); }
      InPoolStays(net, st, t[b].hooks[k].parent, t[b].hooks[k].name);
    }
  }

  lemma StockedStep(net: Net, st: Step, b: nat)
    requires CanStep(net, st) && b < |StepOf(net, st)| && (b < |net| ==> StockedAt(net, b) && FullAt(net, b))
    ensures StockedAt(StepOf(net, st), b) && FullAt(StepOf(net, st), b)
  {
    StockedHooks(net, st, b);
    if b < |net| {
      forall x ensures x in StepOf(net, st)[b].status <==> InPool(StepOf(net, st)[b], x) {
        InPoolStays(net, st, b, x);
      }
      forall x | x in StepOf(net, st)[b].servers ensures InPool(StepOf(net, st)[b], x) {
        InPoolStays(net, st, b, x);
      }
    }
  }

  lemma {:induction false} BuiltStocked(steps: seq<Step>)
    requires CanBuild(steps)
    ensures Stocked(Built(steps)) && forall b :: 0 <= b < |Built(steps)| ==> FullAt(Built(steps), b)
    decreases |steps|
  {
    if steps != [] {
      var n := |steps| - 1;
      BuiltStocked(steps[..n]);
      forall b | 0 <= b < |Built(steps)| ensures StockedAt(Built(steps), b) && FullAt(Built(steps), b) {
        if b < |Built(steps[..n])| { assert StockedAt(Built(steps[..n]), b) && FullAt(Built(steps[..n]), b); }
        StockedStep(Built(steps[..n]), steps[n], b);
      }
    }
  }

  // ---------------------------------------------------------------------------
  // Health reports
  // ---------------------------------------------------------------------------

  /** A health checker reports on a server of its balancer. */
  datatype Report = Report(b: nat, server: string, up: bool)

  predicate HasChecker(c: Cell) {
    !c.weighted && c.check
  }

  /**
   Checkers are kept by the name of the service, so the checker of a balancer is launched only if no
   balancer built later under the same name has one.
   */
  predicate Watched(net: Net, b: nat) {
    b < |net| && HasChecker(net[b]) && forall d :: b < d < |net| && HasChecker(net[d]) ==> net[d].key != net[b].key
  }

  predicate CanReport(net: Net, r: Report) {
    Watched(net, r.b) && r.server in net[r.b].servers
  }

  lemma WatchedSame(a: Net, r: Net, b: nat)
    requires SameWiring(a, r)
    ensures Watched(a, b) <==> Watched(r, b)
  {
    forall d | 0 <= d < |a| ensures HasChecker(a[d]) == HasChecker(r[d]) && a[d].key == r[d].key {
      assert a[d].(status := {}) == r[d].(status := {});
    }
  }

  predicate AllReports(net: Net, reports: seq<Report>) {
    forall i :: 0 <= i < |reports| ==> CanReport(net, reports[i])
  }

  /** The net after a run of reports. */
  function Reported(net: Net, reports: seq<Report>): (r: Net)
    requires Acyclic(net) && AllReports(net, reports)
    ensures SameWiring(net, r)
    decreases |reports|
  {
    if reports == [] then net
    else
      var n := |reports| - 1;
      assert AllReports(net, reports[..n]) by {
        assert forall i :: 0 <= i < n ==> reports[..n][i] == reports[i];
      }
      var last := reports[n];
      assert CanReport(net, last);
      Set(Reported(net, reports[..n]), last.b, last.server, last.up)
  }

  lemma PrefixReports(net: Net, reports: seq<Report>)
    requires Acyclic(net) && AllReports(net, reports) && reports != []
    ensures AllReports(net, reports[..|reports| - 1])
    ensures CanReport(Reported(net, reports[..|reports| - 1]), reports[|reports| - 1])
  {
    var n := |reports| - 1;
    assert forall i :: 0 <= i < n ==> reports[..n][i] == reports[i];
    assert AllReports(net, reports[..n]);
    assert CanReport(net, reports[n]);
    WatchedSame(net, Reported(net, reports[..n]), reports[n].b);
    assert net[reports[n].b].(status := {}) == Reported(net, reports[..n])[reports[n].b].(status := {});
  }

  lemma ReportsSame(a: Net, r: Net, reports: seq<Report>)
    requires SameWiring(a, r) && AllReports(a, reports)
    ensures AllReports(r, reports)
  {
    forall i | 0 <= i < |reports| ensures CanReport(r, reports[i]) {
      assert CanReport(a, reports[i]);
      WatchedSame(a, r, reports[i].b);
      assert a[reports[i].b].(status := {}) == r[reports[i].b].(status := {});
    }
  }

  lemma ReportedNext(net: Net, reports: seq<Report>, r: Report)
    requires Acyclic(net) && AllReports(net, reports) && CanReport(net, r)
    ensures AllReports(net, reports + [r])
    ensures Reported(net, reports + [r]) == Set(Reported(net, reports), r.b, r.server, r.up)
  {
    var all := reports + [r];
    forall i | 0 <= i < |all| ensures CanReport(net, all[i]) {
      if i < |reports| { assert all[i] == reports[i]; }
    }
    assert all[..|all| - 1] == reports;
  }

  lemma ReportedOneOn(net: Net, first: seq<Report>, second: seq<Report>, r: Report)
    requires Acyclic(net) && AllReports(net, first) && AllReports(Reported(net, first), second) && CanReport(net, r)
    requires AllReports(net, first + second) && Reported(net, first + second) == Reported(Reported(net, first), second)
    ensures AllReports(net, first + (second + [r])) && AllReports(Reported(net, first), second + [r])
    ensures Reported(net, first + (second + [r])) == Reported(Reported(net, first), second + [r])
  {
    ReportsSame(net, Reported(net, first), [r]);
    assert CanReport(Reported(net, first), [r][0]);
    ReportedNext(net, first + second, r);
    ReportedNext(Reported(net, first), second, r);
    assert (first + second) + [r] == first + (second + [r]);
  }

  /** One run of reports after another. */
  lemma {:induction false} ReportedOn(net: Net, first: seq<Report>, second: seq<Report>)
    requires Acyclic(net) && AllReports(net, first) && AllReports(Reported(net, first), second)
    ensures AllReports(net, first + second)
    ensures Reported(net, first + second) == Reported(Reported(net, first), second)
    decreases |second|
  {
    if second == [] {
      assert first + second == first;
    } else {
      var n := |second| - 1;
      ReportsSame(Reported(net, first), net, second);
      forall i | 0 <= i < n ensures CanReport(Reported(net, first), second[..n][i]) {
        assert CanReport(Reported(net, first), second[i]);
      }
      ReportedOn(net, first, second[..n]);
      assert CanReport(net, second[n]);
      ReportedOneOn(net, first, second[..n], second[n]);
      assert second[..n] + [second[n]] == second;
    }
  }

  // ---------------------------------------------------------------------------
  // What can go down
  // ---------------------------------------------------------------------------

  /**
   The balancer can lose all that it lists: one with servers if its checker is launched, a weighted one if
   every name of its pool is in the slot of a child that can go down.
   */
  ghost predicate CanFall(net: Net, b: nat)
    decreases |net| - b, 2
  {
    && b < |net|
    && if net[b].weighted then
         net[b].pool != [] && forall i :: 0 <= i < |net[b].pool| ==> SlotFalls(net, b, net[b].pool[i].name)
       else Watched(net, b) && net[b].servers != {}
  }

  ghost predicate SlotFalls(net: Net, b: nat, x: string)
    decreases |net| - b, 1
  {
    exists c: nat, k: nat :: FallsInto(net, b, x, c, k)
  }

  ghost predicate FallsInto(net: Net, b: nat, x: string, c: nat, k: nat)
    decreases |net| - b, 0
  {
    b < c && HasHook(net, c, k) && net[c].hooks[k] == Hook(b, x) && CanFall(net, c)
  }

  lemma {:induction false} CanFallSame(a: Net, r: Net, b: nat)
    requires SameWiring(a, r)
    ensures CanFall(a, b) <==> CanFall(r, b)
    decreases |a| - b, 1
  {
    if b < |a| {
      assert a[b].(status := {}) == r[b].(status := {});
      WatchedSame(a, r, b);
      forall i | 0 <= i < |a[b].pool| ensures SlotFalls(a, b, a[b].pool[i].name) <==> SlotFalls(r, b, a[b].pool[i].name) {
        SlotFallsSame(a, r, b, a[b].pool[i].name);
      }
    }
  }

  lemma {:induction false} SlotFallsSame(a: Net, r: Net, b: nat, x: string)
    requires SameWiring(a, r)
    ensures SlotFalls(a, b, x) <==> SlotFalls(r, b, x)
    decreases |a| - b, 0
  {
    forall c: nat, k: nat ensures FallsInto(a, b, x, c, k) <==> FallsInto(r, b, x, c, k) {
      if b < c < |a| {
        assert a[c].(status := {}) == r[c].(status := {});
        CanFallSame(a, r, c);
      }
    }
  }

  /** A child that cannot go down never leaves its slot, and a balancer that cannot keeps something up. */
  ghost predicate FirmAt(net: Net, b: nat)
    requires b < |net|
  {
    && (!CanFall(net, b) ==> (net[b].status != {} <==> net[b].pool != []))
    && (net[b].weighted ==>
          forall i :: 0 <= i < |net[b].pool| && !SlotFalls(net, b, net[b].pool[i].name) ==>
            net[b].pool[i].name in net[b].status)
  }

  ghost predicate Firm(net: Net) {
    forall b :: 0 <= b < |net| ==> FirmAt(net, b)
  }

  /** Every hook reports to a weighted balancer with a health check. */
  predicate HooksToWeighted(net: Net) {
    forall b, k :: 0 <= b < |net| && 0 <= k < |net[b].hooks| ==> ToWeighted(net, net[b].hooks[k])
  }

  predicate ToWeighted(net: Net, h: Hook) {
    h.parent < |net| && net[h.parent].weighted && net[h.parent].check
  }

  /** How every net is wired, and what holds of it after any reports. */
  ghost predicate Sound(net: Net) {
    Acyclic(net) && HooksToWeighted(net) && Stocked(net) && Firm(net)
  }

  /** A report of a launched checker or of a child that can go down may set the name. */
  ghost predicate MayMark(net: Net, b: nat, name: string) {
    b < |net| && InPool(net[b], name) && if net[b].weighted then SlotFalls(net, b, name) else CanFall(net, b)
  }

  lemma MayMarkSame(a: Net, r: Net, b: nat, name: string)
    requires SameWiring(a, r) && MayMark(a, b, name)
    ensures MayMark(r, b, name)
  {
    assert a[b].(status := {}) == r[b].(status := {});
    CanFallSame(a, r, b);
    SlotFallsSame(a, r, b, name);
  }

  lemma ReportMayMark(net: Net, r: Report)
    requires Stocked(net) && CanReport(net, r)
    ensures MayMark(net, r.b, r.server)
  {
    assert StockedAt(net, r.b);
  }

  lemma HookMayMark(net: Net, c: nat, k: nat)
    requires Acyclic(net) && HooksToWeighted(net) && Stocked(net) && HasHook(net, c, k) && CanFall(net, c)
    ensures MayMark(net, net[c].hooks[k].parent, net[c].hooks[k].name)
  {
    var h := net[c].hooks[k];
    assert StockedAt(net, c) && HookStocked(net, h) && ToWeighted(net, h);
    assert FallsInto(net, h.parent, h.name, c, k);
  }

  lemma NetSame(a: Net, r: Net)
    requires SameWiring(a, r) && Acyclic(a) && HooksToWeighted(a)
    ensures Acyclic(r) && HooksToWeighted(r)
  {
    forall b, k | 0 <= b < |r| && 0 <= k < |r[b].hooks| ensures r[b].hooks[k].parent < b && ToWeighted(r, r[b].hooks[k]) {
      assert a[b].(status := {}) == r[b].(status := {});
      assert ToWeighted(a, a[b].hooks[k]);
      assert a[a[b].hooks[k].parent].(status := {}) == r[a[b].hooks[k].parent].(status := {});
    }
  }

  lemma MarkStocked(net: Net, b: nat, name: string, up: bool, d: nat)
    requires Stocked(net) && b < |net| && InPool(net[b], name) && d < |net|
    ensures StockedAt(net[b := net[b].(status := Marked(net[b].status, name, up))], d)
  {
    var next := net[b := net[b].(status := Marked(net[b].status, name, up))];
    assert StockedAt(net, d);
    assert forall x :: InPool(net[d], x) <==> InPool(next[d], x);
    forall k | 0 <= k < |next[d].hooks| ensures HookStocked(next, next[d].hooks[k]) {
      assert HookStocked(net, net[d].hooks[k]);
      assert InPool(next[net[d].hooks[k].parent], net[d].hooks[k].name);
    }
  }

  lemma MarkFirmAt(net: Net, b: nat, name: string, up: bool, d: nat)
    requires Firm(net) && MayMark(net, b, name) && d < |net|
    ensures FirmAt(net[b := net[b].(status := Marked(net[b].status, name, up))], d)
  {
    var next := net[b := net[b].(status := Marked(net[b].status, name, up))];
    assert FirmAt(net, d);
    CanFallSame(net, next, d);
    forall i | 0 <= i < |net[d].pool|
      ensures SlotFalls(net, d, net[d].pool[i].name) <==> SlotFalls(next, d, net[d].pool[i].name)
    {
      SlotFallsSame(net, next, d, net[d].pool[i].name);
    }
    if d == b && !CanFall(net, b) {
      assert net[b].weighted && net[b].pool != [];
      var i :| 0 <= i < |net[b].pool| && !SlotFalls(net, b, net[b].pool[i].name);
      assert net[b].pool[i].name in next[b].status;
    }
  }

  /** Such a report keeps the net sound, and flips only a balancer that can go down. */
  lemma MarkSound(net: Net, b: nat, name: string, up: bool)
    requires Sound(net) && MayMark(net, b, name)
    ensures var next := net[b := net[b].(status := Marked(net[b].status, name, up))];
            && SameWiring(net, next) && Sound(next)
            && ((net[b].status == {}) != (next[b].status == {}) ==> CanFall(net, b) && CanFall(next, b))
  {
    var next := net[b := net[b].(status := Marked(net[b].status, name, up))];
    NetSame(net, next);
    forall d | 0 <= d < |next| ensures StockedAt(next, d) && FirmAt(next, d) {
      MarkStocked(net, b, name, up, d);
      MarkFirmAt(net, b, name, up, d);
    }
    assert FirmAt(net, b) && FirmAt(next, b);
    CanFallSame(net, next, b);
  }

  lemma {:induction false} SetSound(net: Net, b: nat, name: string, up: bool)
    requires Sound(net) && MayMark(net, b, name)
    ensures Sound(Set(net, b, name, up))
    decreases b, |net[b].hooks| + 1
  {
    var status := Marked(net[b].status, name, up);
    var next := net[b := net[b].(status := status)];
    MarkSound(net, b, name, up);
    if (net[b].status == {}) != (status == {}) {
      NotifiedSound(next, b, status != {}, |net[b].hooks|);
    }
  }

  lemma {:induction false} NotifiedSound(net: Net, b: nat, up: bool, n: nat)
    requires Sound(net) && CanFall(net, b) && n <= |net[b].hooks|
    ensures Sound(Notified(net, b, up, n))
    decreases b, n
  {
    if n > 0 {
      var before, h := Notified(net, b, up, n - 1), net[b].hooks[n - 1];
      NotifiedSound(net, b, up, n - 1);
      assert h.parent < b && HasHook(net, b, n - 1);
      HookMayMark(net, b, n - 1);
      MayMarkSame(net, before, h.parent, h.name);
      SetSound(before, h.parent, h.name, up);
    }
  }

  // ---------------------------------------------------------------------------
  // Consistency
  // ---------------------------------------------------------------------------

  /** A balancer that can go down has its slots for itself. */
  ghost predicate WellWired(net: Net) {
    forall c: nat, l: nat :: HasHook(net, c, l) && CanFall(net, c) ==> Own(net, c, l)
  }

  /** A balancer that reports has something to list. */
  predicate AllPooled(net: Net) {
    forall b :: 0 <= b < |net| && net[b].hooks != [] ==> net[b].pool != []
  }

  lemma WiredSame(a: Net, b: Net)
    requires WellWired(a) && SameWiring(a, b)
    ensures WellWired(b)
  {
    forall c: nat, l: nat | HasHook(b, c, l) && CanFall(b, c) ensures Own(b, c, l) {
      assert a[c].(status := {}) == b[c].(status := {});
      assert HasHook(a, c, l);
      CanFallSame(a, b, c);
      OwnSame(a, b, c, l);
    }
  }

  lemma PooledSame(a: Net, b: Net)
    requires AllPooled(a) && SameWiring(a, b)
    ensures AllPooled(b)
  {
    forall c | 0 <= c < |b| && b[c].hooks != [] ensures b[c].pool != [] {
      assert a[c].(status := {}) == b[c].(status := {});
    }
  }

  /** The parents of a balancer that cannot go down list it for ever. */
  lemma FirmListed(net: Net, b: nat, k: nat)
    requires Sound(net) && WellWired(net) && HasHook(net, b, k) && !CanFall(net, b)
    ensures Listed(net, net[b].hooks[k])
  {
    var h := net[b].hooks[k];
    assert ToWeighted(net, h) && StockedAt(net, b) && HookStocked(net, h) && FirmAt(net, h.parent);
    forall c: nat, l: nat ensures !FallsInto(net, h.parent, h.name, c, l) {
      if FallsInto(net, h.parent, h.name, c, l) { assert Own(net, c, l); }
    }
    assert !SlotFalls(net, h.parent, h.name);
  }

  lemma FirmAgrees(net: Net, b: nat, k: nat)
    requires Sound(net) && WellWired(net) && AllPooled(net) && HasHook(net, b, k) && !CanFall(net, b)
    ensures Agrees(net, b, k) && net[b].status != {}
  {
    FirmListed(net, b, k);
    assert FirmAt(net, b);
  }

  /** A health report keeps a consistent net consistent. */
  lemma ReportKeeps(net: Net, r: Report)
    requires Sound(net) && WellWired(net) && AllPooled(net) && CanReport(net, r) && Consistent(net)
    ensures Consistent(Set(net, r.b, r.server, r.up)) && Sound(Set(net, r.b, r.server, r.up))
  {
    var t := Set(net, r.b, r.server, r.up);
    ReportMayMark(net, r);
    SetSound(net, r.b, r.server, r.up);
    WiredSame(net, t);
    PooledSame(net, t);
    forall b, k | 0 <= b < |t| && 0 <= k < |t[b].hooks| ensures Agrees(t, b, k) {
      assert net[b].(status := {}) == t[b].(status := {});
      assert HasHook(net, b, k) && HasHook(t, b, k) && Agrees(net, b, k) && ToWeighted(net, net[b].hooks[k]);
      CanFallSame(net, t, b);
      if CanFall(net, b) {
        SetKeeps(net, r.b, r.server, r.up, b, k);
      } else {
        FirmAgrees(t, b, k);
      }
    }
  }

  /** A balancer that reports to a parent, lists nothing, has no servers and no children that report to it. */
  predicate Stuck(net: Net, b: nat, k: nat) {
    b < |net| && k < |net[b].hooks| && net[b].status == {} && net[b].servers == {} && NoReports(net, b)
  }

  lemma StuckCannotFall(net: Net, b: nat, k: nat)
    requires Stuck(net, b, k)
    ensures !CanFall(net, b)
  {
    forall x, c: nat, l: nat ensures !FallsInto(net, b, x, c, l) {
    }
    if net[b].weighted && net[b].pool != [] {
      assert !SlotFalls(net, b, net[b].pool[0].name);
    }
  }

  /** Such a balancer is never reported down to its parent. */
  lemma ReportKeepsStuck(net: Net, r: Report, b: nat, k: nat)
    requires Sound(net) && WellWired(net) && CanReport(net, r) && Stuck(net, b, k)
    ensures var t := Set(net, r.b, r.server, r.up);
            Stuck(t, b, k) && Sound(t) && Listed(t, t[b].hooks[k])
  {
    var t := Set(net, r.b, r.server, r.up);
    ReportMayMark(net, r);
    SetSound(net, r.b, r.server, r.up);
    SetUntouched(net, r.b, r.server, r.up, b);
    WiredSame(net, t);
    assert forall c, l :: 0 <= c < |t| && 0 <= l < |t[c].hooks| ==> HasHook(net, c, l) && net[c].hooks == t[c].hooks by {
      forall c | 0 <= c < |t| ensures net[c].hooks == t[c].hooks { SameHooks(net, t, c); }
    }
    StuckCannotFall(t, b, k);
    FirmListed(t, b, k);
  }

  lemma {:induction false} ReportsKeepConsistent(net: Net, reports: seq<Report>)
    requires Sound(net) && WellWired(net) && AllPooled(net) && AllReports(net, reports) && Consistent(net)
    ensures Consistent(Reported(net, reports)) && Sound(Reported(net, reports))
    decreases |reports|
  {
    if reports != [] {
      var n := |reports| - 1;
      PrefixReports(net, reports);
      ReportsKeepConsistent(net, reports[..n]);
      WiredSame(net, Reported(net, reports[..n]));
      PooledSame(net, Reported(net, reports[..n]));
      ReportKeeps(Reported(net, reports[..n]), reports[n]);
    }
  }

  lemma {:induction false} ReportsKeepStuck(net: Net, reports: seq<Report>, b: nat, k: nat)
    requires Sound(net) && WellWired(net) && AllReports(net, reports) && Stuck(net, b, k)
    ensures var t := Reported(net, reports);
            Stuck(t, b, k) && Sound(t) && Listed(t, t[b].hooks[k])
    decreases |reports|
  {
    if reports == [] {
      StuckCannotFall(net, b, k);
      FirmListed(net, b, k);
    } else {
      var n := |reports| - 1;
      PrefixReports(net, reports);
      ReportsKeepStuck(net, reports[..n], b, k);
      WiredSame(net, Reported(net, reports[..n]));
      ReportKeepsStuck(Reported(net, reports[..n]), reports[n], b, k);
    }
  }

  /** Every balancer that reports to a parent was given a server or a child. */
  ghost predicate Populated(steps: seq<Step>)
    requires CanBuild(steps)
  {
    forall i :: 0 <= i < |steps| ==> ChildPopulated(steps, Built(steps), steps[i])
  }

  ghost predicate ChildPopulated(steps: seq<Step>, net: Net, st: Step) {
    st.AddChild? && st.parent < |net| && net[st.parent].check ==> Received(steps, st.child)
  }

  /** Two children of a checked balancer bear the same name only if neither can go down. */
  ghost predicate HarmlessSlots(steps: seq<Step>)
    requires CanBuild(steps)
  {
    forall i, j :: 0 <= i < j < |steps| ==> HarmlessPair(Built(steps), steps[i], steps[j])
  }

  ghost predicate HarmlessPair(net: Net, a: Step, b: Step) {
    SharedSlot(net, a, b) ==> !CanFall(net, a.child) && !CanFall(net, b.child)
  }

  lemma UniqueIsHarmless(steps: seq<Step>)
    requires CanBuild(steps) && UniqueChildren(steps)
    ensures HarmlessSlots(steps)
  {
    forall i, j | 0 <= i < j < |steps| ensures HarmlessPair(Built(steps), steps[i], steps[j]) {
      assert !SharedSlot(Built(steps), steps[i], steps[j]);
    }
  }

  /** With harmless slots, a balancer that can go down has its slots for itself. */
  lemma BuiltWired(steps: seq<Step>)
    requires CanBuild(steps) && HarmlessSlots(steps)
    ensures WellWired(Built(steps))
  {
    var net := Built(steps);
    forall c: nat, l: nat | HasHook(net, c, l) && CanFall(net, c) ensures Own(net, c, l) {
      forall b: nat, k: nat | HasHook(net, b, k) && net[b].hooks[k] == net[c].hooks[l] ensures b == c && k == l {
        if b != c || k != l {
          var i, j := SharedHooks(steps, b, k, c, l);
        }
      }
    }
  }

  /** Every build is sound. */
  lemma BuiltSound(steps: seq<Step>)
    requires CanBuild(steps)
    ensures Sound(Built(steps))
  {
    var net := Built(steps);
    BuiltOk(steps);
    BuiltStocked(steps);
    forall b, k | 0 <= b < |net| && 0 <= k < |net[b].hooks| ensures ToWeighted(net, net[b].hooks[k]) {
      assert HookOk(steps, net, b, net[b].hooks[k]);
    }
    forall b | 0 <= b < |net| ensures FirmAt(net, b) {
      assert FullAt(net, b) && StockedAt(net, b);
      if net[b].pool != [] { assert InPool(net[b], net[b].pool[0].name); }
      forall i | 0 <= i < |net[b].pool| ensures net[b].pool[i].name in net[b].status {
        assert InPool(net[b], net[b].pool[i].name);
      }
    }
  }

  lemma PopulatedIsConsistent(steps: seq<Step>)
    requires CanBuild(steps) && Populated(steps)
    ensures Consistent(Built(steps)) && AllPooled(Built(steps))
  {
    BuiltOk(steps);
    BuiltStocked(steps);
    var net := Built(steps);
    forall b, k | 0 <= b < |net| && 0 <= k < |net[b].hooks| ensures Agrees(net, b, k) && net[b].pool != [] {
      var h := net[b].hooks[k];
      assert HookOk(steps, net, b, h);
      var i :| 0 <= i < |steps| && Attaches(steps[i], b, h);
      assert ChildPopulated(steps, net, steps[i]) && CellOk(steps, net, b) && StockedAt(net, b);
    }
    forall b | 0 <= b < |net| && net[b].hooks != [] ensures net[b].pool != [] {
      assert 0 <= 0 < |net[b].hooks| && Agrees(net, b, 0);
    }
  }

  lemma ParentReceived(steps: seq<Step>, b: nat, h: Hook)
    requires Attached(steps, b, h)
    ensures Received(steps, h.parent)
  {
    var i :| 0 <= i < |steps| && Attaches(steps[i], b, h);
    assert GivesTo(steps[i], h.parent);
  }

  /** A reporting balancer that was given nothing is stuck from the start. */
  lemma UnpopulatedIsStuck(steps: seq<Step>, i: nat) returns (k: nat)
    requires CanBuild(steps) && i < |steps| && !ChildPopulated(steps, Built(steps), steps[i])
    ensures Stuck(Built(steps), steps[i].child, k) && Listed(Built(steps), Built(steps)[steps[i].child].hooks[k])
  {
    BuiltOk(steps);
    var net, c := Built(steps), steps[i].child;
    assert InNet(steps[i], net) && CellOk(steps, net, c);
    k :| 0 <= k < |net[c].hooks| && net[c].hooks[k] == Hook(steps[i].parent, steps[i].name);
    assert HookOk(steps, net, c, net[c].hooks[k]);
    forall d, l | 0 <= d < |net| && 0 <= l < |net[d].hooks| ensures net[d].hooks[l].parent != c {
      assert HookOk(steps, net, d, net[d].hooks[l]);
      ParentReceived(steps, d, net[d].hooks[l]);
    }
  }

  /**
   With harmless slots, and whatever health reports follow, every parent lists a child exactly when the
   child has something up, if and only if every balancer that reports to a parent was given a server or
   a child.
   */
  lemma ConsistentIffPopulated(steps: seq<Step>, reports: seq<Report>)
    requires CanBuild(steps) && HarmlessSlots(steps) && AllReports(Built(steps), reports)
    ensures Acyclic(Built(steps))
    ensures Consistent(Reported(Built(steps), reports)) <==> Populated(steps)
  {
    BuiltSound(steps);
    BuiltWired(steps);
    if Populated(steps) {
      PopulatedIsConsistent(steps);
      ReportsKeepConsistent(Built(steps), reports);
    } else {
      var i :| 0 <= i < |steps| && !ChildPopulated(steps, Built(steps), steps[i]);
      var k := UnpopulatedIsStuck(steps, i);
      var c := steps[i].child;
      ReportsKeepStuck(Built(steps), reports, c, k);
      assert !Agrees(Reported(Built(steps), reports), c, k);
    }
  }

  // ---------------------------------------------------------------------------
  // What consistency means
  // ---------------------------------------------------------------------------

  /** The slot is set by a hook. */
  ghost predicate IsSlot(net: Net, b: nat, name: string) {
    exists c: nat, k: nat :: HasHook(net, c, k) && net[c].hooks[k] == Hook(b, name)
  }

  /** Something at or below the balancer is up: a name no hook sets, or something below a child that reports. */
  ghost predicate HasLive(net: Net, b: nat)
    requires b < |net| && Acyclic(net)
    decreases |net| - b
  {
    || (exists x :: x in net[b].status && !IsSlot(net, b, x))
    || (exists c: nat, k: nat :: b < c && HasHook(net, c, k) && net[c].hooks[k].parent == b && HasLive(net, c))
  }

  /** In a consistent net a balancer has a child up exactly when something below it is up. */
  lemma {:induction false} UpMeansLive(net: Net, b: nat)
    requires b < |net| && Acyclic(net) && Consistent(net)
    ensures net[b].status != {} <==> HasLive(net, b)
    decreases |net| - b
  {
    if net[b].status != {} && forall x :: x in net[b].status ==> IsSlot(net, b, x) {
      var x :| x in net[b].status;
      var c: nat, k: nat :| HasHook(net, c, k) && net[c].hooks[k] == Hook(b, x);
      assert net[c].hooks[k].parent < c && Agrees(net, c, k);
      UpMeansLive(net, c);
    }
    if HasLive(net, b) && !exists x :: x in net[b].status && !IsSlot(net, b, x) {
      var c: nat, k: nat :| b < c && HasHook(net, c, k) && net[c].hooks[k].parent == b && HasLive(net, c);
      UpMeansLive(net, c);
      assert Agrees(net, c, k);
    }
  }
}
