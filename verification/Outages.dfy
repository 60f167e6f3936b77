/**
 What runs of health reports can do to the balancers that pkg/server/service/tcp/service.go builds: take
 them down, leave parents and children in disagreement, or lead a pick to where its loop does not end.
 */
module Outages {
  import opened Wrappers
  import opened Propagation

  // ---------------------------------------------------------------------------
  // Exactly which builds stay consistent
  // ---------------------------------------------------------------------------

  /** No balancer is attached twice: the builder makes a new one for every mention of a service. */
  predicate AttachedOnce(steps: seq<Step>) {
    forall i, j :: 0 <= i < j < |steps| ==> !SameChild(steps[i], steps[j])
  }

  predicate SameChild(a: Step, b: Step) {
    a.AddChild? && b.AddChild? && a.child == b.child
  }

  predicate SingleHooks(net: Net) {
    forall b :: 0 <= b < |net| ==> |net[b].hooks| <= 1
  }

  /** A balancer with a hook was attached before. */
  lemma HookedBefore(steps: seq<Step>, b: nat)
    requires CanBuild(steps) && b < |Built(steps)|
    ensures Built(steps)[b].hooks != [] ==> exists i :: 0 <= i < |steps| && steps[i].AddChild? && steps[i].child == b
  {
    var net := Built(steps);
    BuiltOk(steps);
    if net[b].hooks != [] {
      assert HookOk(steps, net, b, net[b].hooks[0]);
    }
  }

  lemma {:induction false} BuiltSingleHooks(steps: seq<Step>)
    requires CanBuild(steps) && AttachedOnce(steps)
    ensures SingleHooks(Built(steps))
    decreases |steps|
  {
    if steps != [] {
      var n := |steps| - 1;
      var st := steps[n];
      forall i, j | 0 <= i < j < n ensures !SameChild(steps[..n][i], steps[..n][j]) {
        assert !SameChild(steps[i], steps[j]);
      }
      BuiltSingleHooks(steps[..n]);
      if st.AddChild? {
        HookedBefore(steps[..n], st.child);
        forall i | 0 <= i < n ensures !(steps[..n][i].AddChild? && steps[..n][i].child == st.child) {
          assert !SameChild(steps[i], st);
        }
      }
    }
  }

  /** The first balancer is the second or reports to it, directly or through others. */
  predicate Under(net: Net, b: nat, c: nat)
    requires b < |net| && Acyclic(net)
    decreases b
  {
    b == c || (net[b].hooks != [] && Under(net, net[b].hooks[0].parent, c))
  }

  lemma {:induction false} UnderSame(a: Net, r: Net, b: nat, c: nat)
    requires b < |a| && Acyclic(a) && SameWiring(a, r) && Acyclic(r)
    ensures Under(a, b, c) <==> Under(r, b, c)
    decreases b
  {
    assert a[b].(status := {}) == r[b].(status := {});
    if b != c && a[b].hooks != [] {
      UnderSame(a, r, a[b].hooks[0].parent, c);
    }
  }

  lemma {:induction false} UnderIsBelow(net: Net, b: nat, c: nat)
    requires b < |net| && Acyclic(net) && Under(net, b, c)
    ensures c <= b
    decreases b
  {
    if b != c {
      UnderIsBelow(net, net[b].hooks[0].parent, c);
    }
  }

  /** Of two balancers that one reports to, one reports to the other. */
  lemma {:induction false} UnderIsLinear(net: Net, b: nat, c: nat, d: nat)
    requires b < |net| && Acyclic(net) && c < |net| && d < |net| && Under(net, b, c) && Under(net, b, d)
    ensures Under(net, c, d) || Under(net, d, c)
    decreases b
  {
    if b != c && b != d {
      UnderIsLinear(net, net[b].hooks[0].parent, c, d);
    }
  }

  predicate Siblings(net: Net, c: nat, d: nat) {
    && c < |net| && d < |net| && c != d
    && net[c].hooks != [] && net[d].hooks != [] && net[c].hooks[0].parent == net[d].hooks[0].parent
  }

  lemma SiblingIsNotUnder(net: Net, c: nat, d: nat)
    requires Acyclic(net) && Siblings(net, c, d)
    ensures !Under(net, c, d)
  {
    var p := net[c].hooks[0].parent;
    assert p == net[d].hooks[0].parent && p < d && p < c;
    if Under(net, p, d) {
      UnderIsBelow(net, p, d);
    }
  }

  /** What reports to one of two siblings does not report to the other. */
  lemma SiblingsApart(net: Net, c: nat, d: nat, b: nat)
    requires Acyclic(net) && Siblings(net, c, d) && b < |net| && Under(net, b, c)
    ensures !Under(net, b, d)
  {
    SiblingIsNotUnder(net, c, d);
    SiblingIsNotUnder(net, d, c);
    if Under(net, b, d) {
      UnderIsLinear(net, b, c, d);
    }
  }

  /** With one hook each, a report touches only the balancers it is passed on to. */
  lemma {:induction false} SetStaysOnPath(net: Net, b: nat, name: string, up: bool, y: nat)
    requires b < |net| && Acyclic(net) && SingleHooks(net) && y < |net| && !Under(net, b, y)
    ensures Set(net, b, name, up)[y] == net[y]
    decreases b
  {
    var status := Marked(net[b].status, name, up);
    var next := net[b := net[b].(status := status)];
    if (net[b].status == {}) != (status == {}) && net[b].hooks != [] {
      var h := net[b].hooks[0];
      assert h.parent < b;
      UnderSame(net, next, h.parent, y);
      SetStaysOnPath(next, h.parent, h.name, status != {}, y);
      assert Notified(next, b, status != {}, 0) == next;
      assert Notified(next, b, status != {}, 1) == Set(next, h.parent, h.name, status != {});
    }
  }

  /** What is under a child is under its parent. */
  lemma {:induction false} UnderParent(net: Net, b: nat, c: nat)
    requires b < |net| && c < |net| && Acyclic(net) && Under(net, b, c) && net[c].hooks != []
    ensures Under(net, b, net[c].hooks[0].parent)
    decreases b
  {
    if b != c {
      UnderParent(net, net[b].hooks[0].parent, c);
    } else {
      assert net[c].hooks[0].parent < c;
    }
  }

  // ---------------------------------------------------------------------------
  // Taking a balancer down
  // ---------------------------------------------------------------------------

  /** Nets that agree before some balancer agree there after the same report. */
  lemma {:induction false} SetSameBelow(a: Net, r: Net, b: nat, name: string, up: bool, m: nat)
    requires b < m <= |a| && Acyclic(a) && SameWiring(a, r) && Acyclic(r) && a[..m] == r[..m]
    ensures Set(a, b, name, up)[..m] == Set(r, b, name, up)[..m]
    decreases b, |a[b].hooks| + 1
  {
    assert a[b] == a[..m][b] == r[..m][b] == r[b];
    var status := Marked(a[b].status, name, up);
    var x, y := a[b := a[b].(status := status)], r[b := r[b].(status := status)];
    assert x[..m] == a[..m][b := a[b].(status := status)] == y[..m];
    if (a[b].status == {}) != (status == {}) {
      NotifiedSameBelow(x, y, b, status != {}, |a[b].hooks|, m);
    }
  }

  lemma {:induction false} NotifiedSameBelow(a: Net, r: Net, b: nat, up: bool, n: nat, m: nat)
    requires b < m <= |a| && n <= |a[b].hooks| && Acyclic(a) && SameWiring(a, r) && Acyclic(r) && a[..m] == r[..m]
    ensures a[b] == r[b] && Notified(a, b, up, n)[..m] == Notified(r, b, up, n)[..m]
    decreases b, n
  {
    assert a[b] == a[..m][b] == r[..m][b] == r[b];
    if n > 0 {
      var h := a[b].hooks[n - 1];
      NotifiedSameBelow(a, r, b, up, n - 1, m);
      assert h.parent < b;
      SetSameBelow(Notified(a, b, up, n - 1), Notified(r, b, up, n - 1), h.parent, h.name, up, m);
    }
  }

  /** A net as its build leaves it, in which every balancer reports to one parent at most. */
  ghost predicate Tree(start: Net) {
    && Acyclic(start) && SingleHooks(start) && HooksToWeighted(start)
    && forall b :: 0 <= b < |start| ==> FullAt(start, b)
  }

  predicate AgreeOutside(start: Net, a: Net, r: Net, b: nat)
    requires Acyclic(start)
  {
    |start| == |a| == |r| && forall y :: 0 <= y < |start| && !Under(start, y, b) ==> a[y] == r[y]
  }

  /** The balancer and all that reports to it is as it was built. */
  predicate Fresh(start: Net, net: Net, b: nat)
    requires Acyclic(start)
  {
    |start| == |net| && forall y :: 0 <= y < |start| && Under(start, y, b) ==> net[y] == start[y]
  }

  /** What the others see when the balancer goes down. */
  function Told(net: Net, b: nat): (r: Net)
    requires b < |net| && Acyclic(net)
    ensures SameWiring(net, r)
  {
    if net[b].hooks == [] then net
    else
      assert net[b].hooks[0].parent < b;
      Set(net, net[b].hooks[0].parent, net[b].hooks[0].name, false)
  }

  lemma ToldSame(start: Net, a: Net, r: Net, b: nat)
    requires Acyclic(start) && SameWiring(start, a) && SameWiring(start, r) && Acyclic(a) && Acyclic(r)
    requires b < |start| && AgreeOutside(start, a, r, b)
    ensures AgreeOutside(start, Told(a, b), Told(r, b), b)
  {
    SameHooks(start, a, b);
    SameHooks(start, r, b);
    if a[b].hooks != [] {
      var h := a[b].hooks[0];
      var m := h.parent + 1;
      assert h.parent < b;
      forall y | 0 <= y < m ensures a[y] == r[y] {
        if Under(start, y, b) { UnderIsBelow(start, y, b); }
      }
      assert a[..m] == r[..m];
      WiringSame(start, a, r);
      SetSameBelow(a, r, h.parent, h.name, false, m);
      SetReaches(a, h.parent, h.name, false);
      SetReaches(r, h.parent, h.name, false);
      forall y | 0 <= y < |start| && !Under(start, y, b) ensures Told(a, b)[y] == Told(r, b)[y] {
        if y < m {
          assert Told(a, b)[y] == Told(a, b)[..m][y] && Told(r, b)[y] == Told(r, b)[..m][y];
        }
      }
    }
  }

  /** The hook of a balancer does to the others what it does before the balancer lost its last name. */
  lemma HookToldSame(net: Net, next: Net, b: nat)
    requires b < |net| && Acyclic(net) && net[b].hooks != [] && next == net[b := net[b].(status := {})]
    ensures Acyclic(next) && net[b].hooks[0].parent < b
    ensures var h := net[b].hooks[0];
            var t := Set(next, h.parent, h.name, false);
            t[b].status == {} && forall y :: 0 <= y < |net| && y != b ==> t[y] == Told(net, b)[y]
  {
    var h := net[b].hooks[0];
    var m := h.parent + 1;
    assert h.parent < b && net[..m] == next[..m];
    SetSameBelow(net, next, h.parent, h.name, false, m);
    SetReaches(net, h.parent, h.name, false);
    SetReaches(next, h.parent, h.name, false);
    forall y | 0 <= y < m ensures Set(next, h.parent, h.name, false)[y] == Told(net, b)[y] {
      assert Set(next, h.parent, h.name, false)[..m][y] == Set(net, h.parent, h.name, false)[..m][y];
    }
  }

  /** When a balancer loses the last name it lists, the others see it go down. */
  lemma LastNameGoes(net: Net, b: nat, x: string)
    requires b < |net| && Acyclic(net) && SingleHooks(net) && net[b].status == {x}
    ensures var t := Set(net, b, x, false);
            t[b].status == {} && forall y :: 0 <= y < |net| && y != b ==> t[y] == Told(net, b)[y]
  {
    var next := net[b := net[b].(status := {})];
    assert Marked(net[b].status, x, false) == {};
    if net[b].hooks != [] {
      HookToldSame(net, next, b);
      assert Notified(next, b, false, 0) == next;
      assert Notified(next, b, false, 1) == Set(next, net[b].hooks[0].parent, net[b].hooks[0].name, false);
    }
  }

  /** When it loses another name, nothing else changes. */
  lemma NameGoes(net: Net, b: nat, x: string)
    requires b < |net| && Acyclic(net) && x in net[b].status && net[b].status != {x}
    ensures Set(net, b, x, false) == net[b := net[b].(status := net[b].status - {x})]
  {
    var y :| y in net[b].status && y != x;
    assert y in Marked(net[b].status, x, false);
  }

  /** The balancer is down, and the others saw that and nothing else. */
  ghost predicate Fell(start: Net, net: Net, b: nat, reports: seq<Report>) {
    && Acyclic(start) && Acyclic(net) && b < |net| && AllReports(net, reports)
    && Reported(net, reports)[b].status == {} && AgreeOutside(start, Reported(net, reports), Told(net, b), b)
  }

  lemma SingleSame(a: Net, b: Net)
    requires SingleHooks(a) && SameWiring(a, b)
    ensures SingleHooks(b)
  {
    forall i | 0 <= i < |b| ensures |b[i].hooks| <= 1 {
      SameHooks(a, b, i);
    }
  }

  lemma TreeSame(start: Net, net: Net)
    requires Tree(start) && SameWiring(start, net)
    ensures Acyclic(net) && SingleHooks(net)
  {
    NetSame(start, net);
    SingleSame(start, net);
  }

  /** A run that first changes only what is under a balancer, and then takes it down, takes it down. */
  lemma FellOn(start: Net, net: Net, b: nat, first: seq<Report>, second: seq<Report>)
    requires Tree(start) && SameWiring(start, net) && Acyclic(net) && b < |net| && AllReports(net, first)
    requires AgreeOutside(start, Reported(net, first), net, b) && Fell(start, Reported(net, first), b, second)
    ensures Fell(start, net, b, first + second)
  {
    var mid := Reported(net, first);
    ReportedOn(net, first, second);
    WiringSame(net, start, mid) by { WiredBack(start, net); }
    ToldSame(start, mid, net, b);
  }

  lemma {:induction false} ServersFall(start: Net, net: Net, b: nat) returns (reports: seq<Report>)
    requires Tree(start) && SameWiring(start, net) && b < |net| && Watched(start, b)
    requires net[b].status != {} && net[b].status <= start[b].servers
    ensures Fell(start, net, b, reports)
    decreases net[b].status
  {
    TreeSame(start, net);
    var x :| x in net[b].status;
    var r := Report(b, x, false);
    WatchedSame(start, net, b);
    assert start[b].(status := {}) == net[b].(status := {});
    ReportedNext(net, [], r);
    assert [] + [r] == [r];
    var t := Set(net, b, x, false);
    if net[b].status == {x} {
      LastNameGoes(net, b, x);
      reports := [r];
    } else {
      NameGoes(net, b, x);
      WiringNext(start, net, t);
      assert t[b].status == net[b].status - {x};
      var rest := ServersFall(start, t, b);
      FellOn(start, net, b, [r], rest);
      reports := [r] + rest;
    }
  }

  /** The children in the slots of these names are as they were built. */
  ghost predicate ChildrenFresh(start: Net, net: Net, b: nat, names: set<string>)
    requires Acyclic(start)
  {
    forall c: nat :: c < |start| && start[c].hooks != [] && start[c].hooks[0].parent == b && start[c].hooks[0].name in names ==>
      Fresh(start, net, c)
  }

  /** A child goes down: its parent loses the name, and no sibling in another slot is touched. */
  lemma ChildFell(start: Net, net: Net, b: nat, x: string, c: nat, reports: seq<Report>)
    requires Tree(start) && SameWiring(start, net) && b < c < |net|
    requires start[c].hooks != [] && start[c].hooks[0] == Hook(b, x) && Fell(start, net, c, reports)
    ensures var r := Reported(net, reports);
            r[b] == Set(net, b, x, false)[b]
            && forall y :: 0 <= y < |net| && !Under(start, y, c) ==> r[y] == Set(net, b, x, false)[y]
  {
    SameHooks(start, net, c);
    if Under(start, b, c) { UnderIsBelow(start, b, c); }
  }

  lemma SiblingsStayFresh(start: Net, net: Net, b: nat, names: set<string>, x: string, c: nat, t: Net)
    requires Tree(start) && b < c < |start| == |net| == |t| && start[c].hooks != [] && start[c].hooks[0] == Hook(b, x)
    requires ChildrenFresh(start, net, b, names)
    requires forall y :: 0 <= y < |net| && y != b && !Under(start, y, c) ==> t[y] == net[y]
    ensures ChildrenFresh(start, t, b, names - {x})
  {
    forall d: nat | d < |start| && start[d].hooks != [] && start[d].hooks[0].parent == b && start[d].hooks[0].name in names - {x}
      ensures Fresh(start, t, d)
    {
      assert Fresh(start, net, d) && Siblings(start, d, c);
      forall y | 0 <= y < |start| && Under(start, y, d) ensures t[y] == start[y] {
        SiblingsApart(start, d, c, y);
        UnderIsBelow(start, y, d);
      }
    }
  }

  lemma OutsideChild(start: Net, b: nat, c: nat)
    requires Acyclic(start) && b < |start| && c < |start| && start[c].hooks != [] && start[c].hooks[0].parent == b
    ensures forall y :: 0 <= y < |start| && !Under(start, y, b) ==> !Under(start, y, c) && y != b
  {
    forall y | 0 <= y < |start| && Under(start, y, c) ensures Under(start, y, b) {
      UnderParent(start, y, c);
    }
  }

  /** A child takes the last name of its parent away. */
  lemma {:induction false} LastFalls(start: Net, net: Net, b: nat, x: string) returns (reports: seq<Report>)
    requires Tree(start) && SameWiring(start, net) && b < |net| && net[b].status == {x} && SlotFalls(start, b, x)
    requires ChildrenFresh(start, net, b, {x})
    ensures Fell(start, net, b, reports)
    decreases |start| - b, 0
  {
    TreeSame(start, net);
    var c: nat, k: nat :| FallsInto(start, b, x, c, k);
    assert k == 0 && Fresh(start, net, c);
    reports := Falls(start, net, c);
    ChildFell(start, net, b, x, c, reports);
    LastNameGoes(net, b, x);
    OutsideChild(start, b, c);
  }

  /** A child takes away a name that is not the last. */
  lemma {:induction false} OneFalls(start: Net, net: Net, b: nat, x: string) returns (reports: seq<Report>)
    requires Tree(start) && SameWiring(start, net) && b < |net|
    requires x in net[b].status && net[b].status != {x} && SlotFalls(start, b, x) && ChildrenFresh(start, net, b, net[b].status)
    ensures Acyclic(net) && AllReports(net, reports)
    ensures var r := Reported(net, reports);
            r[b].status == net[b].status - {x} && AgreeOutside(start, r, net, b) && ChildrenFresh(start, r, b, r[b].status)
    decreases |start| - b, 0
  {
    TreeSame(start, net);
    var c: nat, k: nat :| FallsInto(start, b, x, c, k);
    assert k == 0 && Fresh(start, net, c);
    reports := Falls(start, net, c);
    ChildFell(start, net, b, x, c, reports);
    NameGoes(net, b, x);
    SiblingsStayFresh(start, net, b, net[b].status, x, c, Reported(net, reports));
    OutsideChild(start, b, c);
  }

  /** Some names of a balancer go, one after the other, and the rest stay. */
  lemma {:induction false} SomeFall(start: Net, net: Net, b: nat, todo: set<string>, z: string) returns (reports: seq<Report>)
    requires Tree(start) && SameWiring(start, net) && b < |net| && todo <= net[b].status && z in net[b].status && z !in todo
    requires (forall x :: x in todo ==> SlotFalls(start, b, x)) && ChildrenFresh(start, net, b, net[b].status)
    ensures Acyclic(net) && AllReports(net, reports)
    ensures var r := Reported(net, reports);
            r[b].status == net[b].status - todo && AgreeOutside(start, r, net, b) && ChildrenFresh(start, r, b, r[b].status)
    decreases |start| - b, 1, todo
  {
    TreeSame(start, net);
    if todo == {} {
      reports := [];
    } else {
      var x :| x in todo;
      var first := OneFalls(start, net, b, x);
      var t := Reported(net, first);
      WiringNext(start, net, t);
      var more := SomeFall(start, t, b, todo - {x}, z);
      ReportedOn(net, first, more);
      reports := first + more;
    }
  }

  /** All names of a balancer go. */
  lemma {:induction false} NamesFall(start: Net, net: Net, b: nat, x: string) returns (reports: seq<Report>)
    requires Tree(start) && SameWiring(start, net) && b < |net| && x in net[b].status
    requires (forall y :: y in net[b].status ==> SlotFalls(start, b, y)) && ChildrenFresh(start, net, b, net[b].status)
    ensures Fell(start, net, b, reports)
    decreases |start| - b, 2
  {
    TreeSame(start, net);
    var todo := net[b].status - {x};
    var first := SomeFall(start, net, b, todo, x);
    var mid := Reported(net, first);
    WiringNext(start, net, mid);
    assert mid[b].status == {x};
    var last := LastFalls(start, mid, b, x);
    FellOn(start, net, b, first, last);
    reports := first + last;
  }

  lemma FullFalls(net: Net, b: nat, x: string)
    requires CanFall(net, b) && net[b].weighted && InPool(net[b], x)
    ensures SlotFalls(net, b, x)
  {
  }

  /**
   A balancer that can go down does: some run of reports, all about servers under it, empties it, and
   the rest of the net sees one report that it is down.
   */
  lemma {:induction false} Falls(start: Net, net: Net, b: nat) returns (reports: seq<Report>)
    requires Tree(start) && SameWiring(start, net) && CanFall(start, b) && Fresh(start, net, b)
    ensures Fell(start, net, b, reports)
    decreases |start| - b, 3
  {
    assert Under(start, b, b) && FullAt(start, b);
    if start[b].weighted {
      assert InPool(start[b], start[b].pool[0].name);
      forall y | y in net[b].status ensures SlotFalls(start, b, y) {
        FullFalls(start, b, y);
      }
      FreshBelow(start, net, b);
      reports := NamesFall(start, net, b, start[b].pool[0].name);
    } else {
      reports := ServersFall(start, net, b);
    }
  }

  lemma FreshBelow(start: Net, net: Net, b: nat)
    requires Tree(start) && b < |start| && Fresh(start, net, b)
    ensures ChildrenFresh(start, net, b, net[b].status)
  {
    forall c: nat | c < |start| && start[c].hooks != [] && start[c].hooks[0].parent == b ensures Fresh(start, net, c) {
      forall y | 0 <= y < |start| && Under(start, y, c) ensures Under(start, y, b) {
        UnderParent(start, y, c);
      }
    }
  }

  lemma BuiltTree(steps: seq<Step>)
    requires CanBuild(steps) && AttachedOnce(steps)
    ensures Tree(Built(steps))
  {
    BuiltSound(steps);
    BuiltStocked(steps);
    BuiltSingleHooks(steps);
  }

  lemma {:induction false} ReportsKeepSound(net: Net, reports: seq<Report>)
    requires Sound(net) && AllReports(net, reports)
    ensures Sound(Reported(net, reports))
    decreases |reports|
  {
    if reports != [] {
      var n := |reports| - 1;
      PrefixReports(net, reports);
      ReportsKeepSound(net, reports[..n]);
      ReportMayMark(Reported(net, reports[..n]), reports[n]);
      SetSound(Reported(net, reports[..n]), reports[n].b, reports[n].server, reports[n].up);
    }
  }

  /** Some run of reports leaves the balancer with nothing up. */
  ghost predicate GoesDown(net: Net, b: nat)
    requires Acyclic(net) && b < |net|
  {
    exists reports :: AllReports(net, reports) && Reported(net, reports)[b].status == {}
  }

  /** Some run of reports takes the name away. */
  ghost predicate LosesName(net: Net, b: nat, x: string)
    requires Acyclic(net) && b < |net|
  {
    exists reports :: AllReports(net, reports) && x !in Reported(net, reports)[b].status
  }

  /**
   A balancer that was given something can go down if and only if it has servers and its checker is launched,
   or it has children and each of their names is in the slot of a child that can go down.
   */
  lemma GoesDownIff(steps: seq<Step>, b: nat)
    requires CanBuild(steps) && AttachedOnce(steps) && b < |Built(steps)| && Built(steps)[b].pool != []
    ensures Acyclic(Built(steps)) && (GoesDown(Built(steps), b) <==> CanFall(Built(steps), b))
  {
    var net := Built(steps);
    BuiltTree(steps);
    if CanFall(net, b) {
      var reports := Falls(net, net, b);
    }
    if GoesDown(net, b) {
      var reports :| AllReports(net, reports) && Reported(net, reports)[b].status == {};
      BuiltSound(steps);
      ReportsKeepSound(net, reports);
      assert FirmAt(Reported(net, reports), b) && net[b].(status := {}) == Reported(net, reports)[b].(status := {});
      CanFallSame(net, Reported(net, reports), b);
    }
  }

  /** A weighted balancer can lose a name if and only if a child in its slot can go down. */
  lemma LosesNameIff(steps: seq<Step>, b: nat, x: string)
    requires CanBuild(steps) && AttachedOnce(steps) && b < |Built(steps)|
    requires Built(steps)[b].weighted && InPool(Built(steps)[b], x)
    ensures Acyclic(Built(steps)) && (LosesName(Built(steps), b, x) <==> SlotFalls(Built(steps), b, x))
  {
    var net := Built(steps);
    BuiltTree(steps);
    assert FullAt(net, b);
    if SlotFalls(net, b, x) {
      if net[b].status == {x} {
        var reports := LastFalls(net, net, b, x);
      } else {
        var reports := OneFalls(net, net, b, x);
      }
    }
    if LosesName(net, b, x) {
      var reports :| AllReports(net, reports) && x !in Reported(net, reports)[b].status;
      BuiltSound(steps);
      ReportsKeepSound(net, reports);
      assert FirmAt(Reported(net, reports), b) && net[b].(status := {}) == Reported(net, reports)[b].(status := {});
      SlotFallsSame(net, Reported(net, reports), b, x);
    }
  }

  /**
   Two children in one slot, one of which can go down: some run of reports takes that one down, and the
   parent forgets the other.
   */
  lemma SharedSlotFails(steps: seq<Step>, i: nat, j: nat) returns (reports: seq<Report>)
    requires CanBuild(steps) && AttachedOnce(steps) && Populated(steps)
    requires i < |steps| && j < |steps| && i != j && SharedSlot(Built(steps), steps[i], steps[j])
    requires CanFall(Built(steps), steps[i].child)
    ensures Acyclic(Built(steps)) && AllReports(Built(steps), reports)
    ensures !Consistent(Reported(Built(steps), reports))
  {
    var start, c, d := Built(steps), steps[i].child, steps[j].child;
    BuiltOk(steps);
    BuiltTree(steps);
    assert InNet(steps[i], start) && InNet(steps[j], start);
    assert !SameChild(steps[if i < j then i else j], steps[if i < j then j else i]);
    assert Siblings(start, d, c) && start[c].hooks[0] == start[d].hooks[0];
    reports := Falls(start, start, c);
    var net, h := Reported(start, reports), start[c].hooks[0];
    ChildFell(start, start, h.parent, h.name, c, reports);
    SetReaches(start, h.parent, h.name, false);
    SiblingIsNotUnder(start, d, c);
    assert net[d] == start[d];
    assert ChildPopulated(steps, start, steps[j]) && CellOk(steps, start, d);
    SameHooks(start, net, d);
    assert !Agrees(net, d, 0);
  }

  /**
   However balancers are built, every parent lists a child exactly when the child has something up,
   whatever health reports follow, if and only if every balancer that reports to a parent was given a
   server or a child, and two children of a checked parent share a name only if neither can go down.
   */
  lemma AlwaysConsistentIff(steps: seq<Step>)
    requires CanBuild(steps) && AttachedOnce(steps)
    ensures Acyclic(Built(steps))
    ensures (forall reports :: AllReports(Built(steps), reports) ==> Consistent(Reported(Built(steps), reports)))
       <==> Populated(steps) && HarmlessSlots(steps)
  {
    BuiltOk(steps);
    var net := Built(steps);
    if Populated(steps) && HarmlessSlots(steps) {
      forall reports | AllReports(net, reports) ensures Consistent(Reported(net, reports)) {
        ConsistentIffPopulated(steps, reports);
      }
    } else if !Populated(steps) {
      var i :| 0 <= i < |steps| && !ChildPopulated(steps, net, steps[i]);
      var k := UnpopulatedIsStuck(steps, i);
      assert AllReports(net, []) && Reported(net, []) == net;
      assert !Agrees(net, steps[i].child, k);
    } else {
      var i, j :| 0 <= i < j < |steps| && !HarmlessPair(net, steps[i], steps[j]);
      if CanFall(net, steps[i].child) {
        var reports := SharedSlotFails(steps, i, j);
      } else {
        var reports := SharedSlotFails(steps, j, i);
      }
    }
  }

  // ---------------------------------------------------------------------------
  // Picks that never end
  // ---------------------------------------------------------------------------

  /** Some entry of this name has a positive weight. */
  predicate Positive(c: Cell, x: string) {
    exists i :: 0 <= i < |c.pool| && c.pool[i].name == x && c.pool[i].weight > 0
  }

  predicate Idle(c: Cell) {
    forall i :: 0 <= i < |c.pool| ==> c.pool[i].weight == 0
  }

  /** A pick may return this entry: it is up and has a positive weight. */
  predicate Choosable(c: Cell, i: nat) {
    i < |c.pool| && c.pool[i].name in c.status && c.pool[i].weight > 0
  }

  /** A pick returns an error. */
  predicate PickFails(c: Cell) {
    c.pool == [] || c.status == {} || Idle(c)
  }

  /**
   A pick returns: with an error if the pool is empty, nothing is up or all weights are zero, with a
   server if one is up that has a positive weight; in every other case its loop goes on for ever.
   */
  predicate PickEnds(c: Cell) {
    PickFails(c) || exists i :: 0 <= i < |c.pool| && Choosable(c, i)
  }

  /**
   A balancer with a name all of whose entries weigh nothing and an entry with a positive weight, all of
   whose names with a positive weight can go down.
   */
  ghost predicate CanSpin(net: Net, b: nat) {
    && b < |net| && net[b].weighted && !Idle(net[b])
    && (exists x :: InPool(net[b], x) && !Positive(net[b], x))
    && forall i :: 0 <= i < |net[b].pool| && net[b].pool[i].weight > 0 ==> SlotFalls(net, b, net[b].pool[i].name)
  }

  lemma CanSpinSame(a: Net, r: Net, b: nat)
    requires SameWiring(a, r) && CanSpin(a, b)
    ensures CanSpin(r, b)
  {
    assert a[b].(status := {}) == r[b].(status := {});
    var x :| InPool(a[b], x) && !Positive(a[b], x);
    assert InPool(r[b], x) && !Positive(r[b], x);
    forall i | 0 <= i < |r[b].pool| && r[b].pool[i].weight > 0 ensures SlotFalls(r, b, r[b].pool[i].name) {
      SlotFallsSame(a, r, b, r[b].pool[i].name);
    }
  }

  /** In such a balancer only can a pick go on for ever. */
  lemma NeverSpins(net: Net, b: nat)
    requires b < |net| && Stocked(net) && Firm(net) && !CanSpin(net, b)
    ensures PickEnds(net[b])
  {
    assert StockedAt(net, b) && FirmAt(net, b);
    if !PickFails(net[b]) {
      if i: nat :| i < |net[b].pool| && net[b].pool[i].weight > 0 && net[b].weighted && !SlotFalls(net, b, net[b].pool[i].name) {
        assert Choosable(net[b], i);
      } else {
        var x :| x in net[b].status;
        assert InPool(net[b], x);
        if net[b].weighted { assert Positive(net[b], x); }
        var i: nat :| i < |net[b].pool| && net[b].pool[i].name == x && net[b].pool[i].weight > 0;
        assert Choosable(net[b], i);
      }
    }
  }

  /** Without all its names of positive weight, a balancer with another name spins. */
  lemma DrainedSpins(cell: Cell, drained: Cell, x: string)
    requires drained.(status := {}) == cell.(status := {}) && !Idle(cell) && InPool(cell, x) && x in drained.status
    requires forall y :: y in drained.status ==> !Positive(cell, y)
    ensures !PickEnds(drained)
  {
    forall i | 0 <= i < |drained.pool| ensures !Choosable(drained, i) {
      if Choosable(drained, i) { assert Positive(cell, drained.pool[i].name); }
    }
  }

  /** Some run of reports leads such a balancer to where a pick does not end. */
  lemma SpinReports(steps: seq<Step>, b: nat) returns (reports: seq<Report>)
    requires CanBuild(steps) && AttachedOnce(steps) && CanSpin(Built(steps), b)
    ensures Acyclic(Built(steps)) && AllReports(Built(steps), reports)
    ensures !PickEnds(Reported(Built(steps), reports)[b])
  {
    var start := Built(steps);
    BuiltTree(steps);
    assert FullAt(start, b);
    var x :| InPool(start[b], x) && !Positive(start[b], x);
    var todo := set y | y in start[b].status && Positive(start[b], y);
    reports := SomeFall(start, start, b, todo, x);
    var net := Reported(start, reports);
    assert start[b].(status := {}) == net[b].(status := {});
    DrainedSpins(start[b], net[b], x);
  }

  /** The step that gave a balancer the entry at some place of its pool. */
  lemma {:induction false} PoolEntry(steps: seq<Step>, b: nat, i: nat) returns (k: nat)
    requires CanBuild(steps) && b < |Built(steps)| && Built(steps)[b].weighted && i < |Built(steps)[b].pool|
    ensures k < |steps| && steps[k].AddChild? && steps[k].parent == b && steps[k].name == Built(steps)[b].pool[i].name
    ensures CanBuild(steps[..k]) && b < |Built(steps[..k])| && |Built(steps[..k])[b].pool| == i
    decreases |steps|
  {
    var n := |steps| - 1;
    var before := Built(steps[..n]);
    if b < |before| && i < |before[b].pool| {
      k := PoolEntry(steps[..n], b, i);
      assert steps[..n][..k] == steps[..k];
    } else {
      k := n;
    }
  }

  /** With unique child names, the names in the pool of a checked balancer differ. */
  lemma PoolUnique(steps: seq<Step>, b: nat, i: nat, j: nat)
    requires CanBuild(steps) && UniqueChildren(steps)
    requires b < |Built(steps)| && Built(steps)[b].weighted && Built(steps)[b].check
    requires i < |Built(steps)[b].pool| && j < |Built(steps)[b].pool| && i != j
    ensures Built(steps)[b].pool[i].name != Built(steps)[b].pool[j].name
  {
    var k := PoolEntry(steps, b, i);
    var l := PoolEntry(steps, b, j);
    assert k != l;
    assert !SharedSlot(Built(steps), steps[if k < l then k else l], steps[if k < l then l else k]);
  }

  /** Every balancer with servers that reports to a parent has a checker that is launched. */
  predicate AllWatched(net: Net) {
    forall c :: 0 <= c < |net| && net[c].hooks != [] && !net[c].weighted ==> Watched(net, c)
  }

  /** Then every balancer that reports can go down, */
  lemma {:induction false} AllFall(steps: seq<Step>, c: nat)
    requires CanBuild(steps) && Populated(steps) && AllWatched(Built(steps))
    requires c < |Built(steps)| && Built(steps)[c].hooks != []
    ensures CanFall(Built(steps), c)
    decreases |Built(steps)| - c, 1
  {
    var net := Built(steps);
    BuiltStocked(steps);
    PopulatedIsConsistent(steps);
    assert StockedAt(net, c) && FullAt(net, c) && InPool(net[c], net[c].pool[0].name);
    if net[c].weighted {
      forall i | 0 <= i < |net[c].pool| ensures SlotFalls(net, c, net[c].pool[i].name) {
        EntryFalls(steps, c, i);
      }
    }
  }

  /** and so can every name of a checked balancer. */
  lemma {:induction false} EntryFalls(steps: seq<Step>, b: nat, i: nat)
    requires CanBuild(steps) && Populated(steps) && AllWatched(Built(steps))
    requires b < |Built(steps)| && Built(steps)[b].weighted && Built(steps)[b].check && i < |Built(steps)[b].pool|
    ensures SlotFalls(Built(steps), b, Built(steps)[b].pool[i].name)
    decreases |Built(steps)| - b, 0
  {
    var net, x := Built(steps), Built(steps)[b].pool[i].name;
    BuiltOk(steps);
    var k := PoolEntry(steps, b, i);
    assert InNet(steps[k], net);
    var c := steps[k].child;
    var l :| 0 <= l < |net[c].hooks| && net[c].hooks[l] == Hook(b, x);
    AllFall(steps, c);
    assert FallsInto(net, b, x, c, l);
  }

  /**
   Where child names are unique and every server has a checker that is launched, these are the checked
   weighted balancers with a child of weight zero and a child of positive weight.
   */
  lemma CanSpinIffMixed(steps: seq<Step>, b: nat)
    requires CanBuild(steps) && UniqueChildren(steps) && Populated(steps) && AllWatched(Built(steps))
    requires b < |Built(steps)| && Built(steps)[b].weighted && Built(steps)[b].check
    ensures CanSpin(Built(steps), b) <==>
            && (exists i :: 0 <= i < |Built(steps)[b].pool| && Built(steps)[b].pool[i].weight == 0)
            && (exists i :: 0 <= i < |Built(steps)[b].pool| && Built(steps)[b].pool[i].weight > 0)
  {
    var cell := Built(steps)[b];
    forall i, j | 0 <= i < |cell.pool| && 0 <= j < |cell.pool| && cell.pool[i].name == cell.pool[j].name ensures i == j {
      if i != j { PoolUnique(steps, b, i, j); }
    }
    forall i | 0 <= i < |cell.pool| ensures InPool(cell, cell.pool[i].name) && SlotFalls(Built(steps), b, cell.pool[i].name) {
      EntryFalls(steps, b, i);
    }
    if i :| 0 <= i < |cell.pool| && cell.pool[i].weight == 0 {
      assert InPool(cell, cell.pool[i].name) && !Positive(cell, cell.pool[i].name);
    }
  }

  /**
   A connection can be handed to the balancer: a router has it as its handler, or it is an entry of
   positive weight of a balancer that a connection can be handed to.
   */
  ghost predicate Reached(net: Net, b: nat)
    decreases b, 1
  {
    b < |net| && (net[b].routed || exists p: nat, i: nat :: HandsOn(net, p, i, b))
  }

  ghost predicate HandsOn(net: Net, p: nat, i: nat, b: nat)
    decreases b, 0
  {
    p < b && p < |net| && i < |net[p].pool| && net[p].pool[i].child == Some(b) && net[p].pool[i].weight > 0 && Reached(net, p)
  }

  lemma {:induction false} ReachedSame(a: Net, r: Net, b: nat)
    requires SameWiring(a, r) && Reached(a, b)
    ensures Reached(r, b)
    decreases b
  {
    assert a[b].(status := {}) == r[b].(status := {});
    if !a[b].routed {
      var p: nat, i: nat :| HandsOn(a, p, i, b);
      assert a[p].(status := {}) == r[p].(status := {});
      ReachedSame(a, r, p);
      assert HandsOn(r, p, i, b);
    }
  }

  /** The servers of a configuration whose address does not split into host and port are skipped. */
  function ServerSteps(b: nat, addresses: seq<string>, splits: string -> bool): seq<Step> {
    if addresses == [] then []
    else
      var n := |addresses| - 1;
      ServerSteps(b, addresses[..n], splits) + if splits(addresses[n]) then [AddServer(b, addresses[n])] else []
  }

  lemma {:induction false} AllSkipped(b: nat, addresses: seq<string>, splits: string -> bool)
    requires forall i :: 0 <= i < |addresses| ==> !splits(addresses[i])
    ensures ServerSteps(b, addresses, splits) == []
    decreases |addresses|
  {
    if addresses != [] {
      AllSkipped(b, addresses[..|addresses| - 1], splits);
    }
  }

  lemma BuildNext(steps: seq<Step>, st: Step)
    requires CanBuild(steps) && CanStep(Built(steps), st)
    ensures CanBuild(steps + [st]) && Built(steps + [st]) == StepOf(Built(steps), st)
  {
    assert (steps + [st])[..|steps|] == steps;
  }

  /** A cell of a service with a health check and these servers. */
  function Leaf(key: string, server: string, hooks: seq<Hook>): Cell {
    Cell(key, false, true, false, [Server(server, 1, None)], {server}, {server}, hooks)
  }

  /** A new balancer with one server. */
  lemma LeafBuilt(steps: seq<Step>, key: string, server: string) returns (more: seq<Step>)
    requires CanBuild(steps)
    ensures more == steps + [New(key, false, true), AddServer(|Built(steps)|, server)] && CanBuild(more)
    ensures Built(more) == Built(steps) + [Leaf(key, server, [])]
  {
    var net := Built(steps);
    BuildNext(steps, New(key, false, true));
    var one := steps + [New(key, false, true)];
    BuildNext(one, AddServer(|net|, server));
    more := one + [AddServer(|net|, server)];
    assert [] + [Server(server, 1, None)] == [Server(server, 1, None)] && {} + {server} == {server};
    assert Built(more) == net + [Leaf(key, server, [])];
  }

  /** A child attached to a checked balancer, or to one without a check. */
  lemma ChildBuilt(steps: seq<Step>, p: nat, key: string, server: string, weight: Option<nat>) returns (more: seq<Step>)
    requires CanBuild(steps) && p < |Built(steps)| && Built(steps)[p].weighted
    ensures var n := |Built(steps)|;
            && more == steps + [New(key, false, true), AddServer(n, server), AddChild(p, n, key, weight)] && CanBuild(more)
            && var parent := Built(steps)[p];
               Built(more) == Built(steps)[p := Adopted(parent, n, key, weight)]
                            + [Leaf(key, server, if parent.check then [Hook(p, key)] else [])]
  {
    var net, n := Built(steps), |Built(steps)|;
    var leaf := LeafBuilt(steps, key, server);
    BuildNext(leaf, AddChild(p, n, key, weight));
    more := leaf + [AddChild(p, n, key, weight)];
    assert [] + [Hook(p, key)] == [Hook(p, key)];
    assert Built(more) == net[p := Adopted(net[p], n, key, weight)]
                        + [Leaf(key, server, if net[p].check then [Hook(p, key)] else [])];
  }

  function Adopted(parent: Cell, child: nat, key: string, weight: Option<nat>): Cell {
    parent.(pool := parent.pool + [Server(key, WeightOf(weight), Some(child))], status := parent.status + {key})
  }

  /** A weighted service with two children, each with one server. */
  function TwoChildren(root: string, x: string, a: string, v: Option<nat>, y: string, b: string, w: Option<nat>): seq<Step> {
    [New(root, true, true),
     New(x, false, true), AddServer(1, a), AddChild(0, 1, x, v),
     New(y, false, true), AddServer(2, b), AddChild(0, 2, y, w),
     Route(0)]
  }

  lemma TwoChildrenAttached(root: string, x: string, a: string, v: Option<nat>, y: string, b: string, w: Option<nat>)
    ensures AttachedOnce(TwoChildren(root, x, a, v, y, b, w))
  {
  }

  /** The first child. */
  lemma FirstChildBuilds(root: string, x: string, a: string, v: Option<nat>) returns (steps: seq<Step>)
    ensures steps == [New(root, true, true), New(x, false, true), AddServer(1, a), AddChild(0, 1, x, v)] && CanBuild(steps)
    ensures Built(steps) == [Cell(root, true, true, false, [Server(x, WeightOf(v), Some(1))], {}, {x}, []), Leaf(x, a, [Hook(0, x)])]
  {
    var none: seq<Step> := [];
    BuildNext(none, New(root, true, true));
    var one := none + [New(root, true, true)];
    assert Built(one) == [Cell(root, true, true, false, [], {}, {}, [])];
    steps := ChildBuilt(one, 0, x, a, v);
    assert [] + [Server(x, WeightOf(v), Some(1))] == [Server(x, WeightOf(v), Some(1))] && {} + {x} == {x};
  }

  lemma TwoChildrenBuild(root: string, x: string, a: string, v: Option<nat>, y: string, b: string, w: Option<nat>)
    ensures var steps := TwoChildren(root, x, a, v, y, b, w);
            && CanBuild(steps)
            && Built(steps) ==
               [Cell(root, true, true, true, [Server(x, WeightOf(v), Some(1)), Server(y, WeightOf(w), Some(2))], {}, {x, y}, []),
                Leaf(x, a, [Hook(0, x)]), Leaf(y, b, [Hook(0, y)])]
  {
    var two := FirstChildBuilds(root, x, a, v);
    var three := ChildBuilt(two, 0, y, b, w);
    assert {x} + {y} == {x, y};
    assert [Server(x, WeightOf(v), Some(1))] + [Server(y, WeightOf(w), Some(2))]
        == [Server(x, WeightOf(v), Some(1)), Server(y, WeightOf(w), Some(2))];
    BuildNext(three, Route(0));
    assert three + [Route(0)] == TwoChildren(root, x, a, v, y, b, w);
  }

  /** A weighted service that lists one service twice. */
  function ListedTwice(root: string, name: string, a: string, b: string): seq<Step> {
    TwoChildren(root, name, a, None, name, b, None)
  }

  /**
   Its build is fine, but only the child built last is checked. When that one goes down the parent forgets
   the other, which is still up.
   */
  lemma ListedTwiceFails(root: string, name: string, a: string, b: string)
    ensures var steps, reports := ListedTwice(root, name, a, b), [Report(2, b, false)];
            && CanBuild(steps) && Acyclic(Built(steps)) && AllReports(Built(steps), reports)
            && !Watched(Built(steps), 1)
            && var net := Reported(Built(steps), reports);
               name !in net[0].status && net[1].status == {a} && !Consistent(net)
  {
    var steps := ListedTwice(root, name, a, b);
    TwoChildrenBuild(root, name, a, None, name, b, None);
    var net, reports := Built(steps), [Report(2, b, false)];
    BuiltOk(steps);
    assert CanReport(net, reports[0]);
    assert AllReports(net, reports) && HasChecker(net[2]);
    assert reports[..0] == [] && Reported(net, reports[..0]) == net;
    FlipAgrees(net, 2, b, false, 0);
    SetReaches(net, 2, b, false);
    TwoChildrenAttached(root, name, a, None, name, b, None);
    BuiltSingleHooks(steps);
    SetStaysOnPath(net, 2, b, false, 1);
    assert Agrees(Set(net, 2, b, false), 2, 0);
    assert !Agrees(Set(net, 2, b, false), 1, 0);
  }

  /**
   When the service is then built once more, for a router say, neither of the two children is checked, and
   the net stays consistent although they share a slot.
   */
  lemma BuiltAgainStaysConsistent(root: string, name: string, a: string, b: string, c: string, reports: seq<Report>)
    requires var steps := ListedTwice(root, name, a, b) + [New(name, false, true), AddServer(3, c)];
             CanBuild(steps) ==> AllReports(Built(steps), reports)
    ensures var steps := ListedTwice(root, name, a, b) + [New(name, false, true), AddServer(3, c)];
            && CanBuild(steps) && Acyclic(Built(steps)) && !UniqueChildren(steps) && AllReports(Built(steps), reports)
            && Consistent(Reported(Built(steps), reports))
  {
    TwoChildrenBuild(root, name, a, None, name, b, None);
    var steps := LeafBuilt(ListedTwice(root, name, a, b), name, c);
    var net := Built(steps);
    assert net[3] == Leaf(name, c, []) && HasChecker(net[3]);
    assert !Watched(net, 1) && !Watched(net, 2) && net[1].servers == {a} && net[2].servers == {b};
    assert !CanFall(net, 1) && !CanFall(net, 2);
    assert SharedSlot(net, steps[3], steps[6]);
    assert HarmlessSlots(steps);
    forall i | 0 <= i < |steps| ensures ChildPopulated(steps, net, steps[i]) {
      assert GivesTo(steps[2], 1) && GivesTo(steps[5], 2);
    }
    ConsistentIffPopulated(steps, reports);
  }

  /** A checked parent with one checked child, built from the given addresses. */
  function OneChild(root: string, name: string, addresses: seq<string>, splits: string -> bool): seq<Step> {
    [New(root, true, true)] + [New(name, false, true)] + ServerSteps(1, addresses, splits) + [AddChild(0, 1, name, None)]
  }

  /**
   A child service all of whose addresses are malformed builds without an error, and its parent lists
   it as up for ever, whatever is reported.
   */
  lemma MalformedChildStaysUp(
    root: string, name: string, addresses: seq<string>, splits: string -> bool, reports: seq<Report>)
    requires forall i :: 0 <= i < |addresses| ==> !splits(addresses[i])
    requires var steps := OneChild(root, name, addresses, splits); CanBuild(steps) ==> AllReports(Built(steps), reports)
    ensures var steps := OneChild(root, name, addresses, splits);
            && CanBuild(steps) && Acyclic(Built(steps)) && AllReports(Built(steps), reports)
            && var net := Reported(Built(steps), reports);
               name in net[0].status && net[1].status == {}
  {
    AllSkipped(1, addresses, splits);
    var start: seq<Step> := [];
    BuildNext(start, New(root, true, true));
    BuildNext(start + [New(root, true, true)], New(name, false, true));
    var two := start + [New(root, true, true)] + [New(name, false, true)];
    BuildNext(two, AddChild(0, 1, name, None));
    var steps := two + [AddChild(0, 1, name, None)];
    assert steps == OneChild(root, name, addresses, splits);
    assert UniqueChildren(steps);
    assert !Received(steps, 1);
    assert !ChildPopulated(steps, Built(steps), steps[2]);
    BuiltSound(steps);
    UniqueIsHarmless(steps);
    BuiltWired(steps);
    var k := UnpopulatedIsStuck(steps, 2);
    assert Built(steps)[1].hooks == [Hook(0, name)];
    ReportsKeepStuck(Built(steps), reports, 1, k);
  }
}

