/** What the TCP and the UDP load balancer share: the wheel that a list of weights spins. */
module Pools {
  import opened Divisibility
  import opened RoundRobin

  ghost function WheelOf(weights: seq<nat>, up: seq<bool>): (w: Wheel)
    requires MaxOf(weights) > 0
    ensures w.step > 0
  {
    GcdOfIsGcd(weights);
    Wheel(weights, up, GcdOf(weights), MaxOf(weights))
  }

  lemma WheelIsValid(weights: seq<nat>, up: seq<bool>)
    requires MaxOf(weights) > 0 && |up| == |weights|
    ensures WheelOf(weights, up).Valid()
    ensures exists m :: 0 <= m < |weights| && weights[m] == MaxOf(weights)
  {
    GcdOfIsGcd(weights);
    MaxOfIsMax(weights);
  }

  /** The scheduler states a balancer can be in: the initial one, or one left by a pick. */
  ghost predicate Settled(weights: seq<nat>, s: State) {
    s == INITIAL || (MaxOf(weights) > 0 && Aligned(WheelOf(weights, []), s))
  }

  lemma SettledIsAligned(weights: seq<nat>, up: seq<bool>, s: State)
    requires MaxOf(weights) > 0 && Settled(weights, s)
    ensures Aligned(WheelOf(weights, up), s)
  {
  }

  /** Appending a server at any moment keeps the scheduler aligned: the new gcd divides the old one. */
  lemma AppendKeepsSettled(weights: seq<nat>, w: nat, s: State)
    requires Settled(weights, s)
    ensures Settled(weights + [w], s)
  {
    var more := weights + [w];
    assert more[..|more| - 1] == weights;
    if s != INITIAL {
      GcdOfIsGcd(weights);
      GcdOfIsGcd(more);
      GcdGreatest(GcdOf(weights), w);
      MultipleTransitive(s.current, GcdOf(weights), GcdOf(more));
    }
  }
}

/** pkg/tcp/wrr_load_balancer.go: the scheduler with a health set that it propagates to its parents. */
module TcpBalancer {
  import opened Wrappers
  import O = Outages
  import P = Propagation
  import opened Divisibility
  import opened RoundRobin
  import opened Pools

  /** The hook registered with a child: it sets the status of `childName` in `parent`. */
  datatype Updater = Updater(parent: Balancer, childName: string)

  datatype Error = NoServersInPool | AllServersHaveZeroWeight | HealthCheckNotEnabled

  function Weights(servers: seq<P.Server>): (ws: seq<nat>)
    ensures |ws| == |servers| && forall i :: 0 <= i < |ws| ==> ws[i] == servers[i].weight
  {
    seq(|servers|, i requires 0 <= i < |servers| => servers[i].weight)
  }

  ghost function UpFlags(servers: seq<P.Server>, status: set<string>): (up: seq<bool>)
    ensures |up| == |servers| && forall i :: 0 <= i < |up| ==> up[i] == (servers[i].name in status)
  {
    seq(|servers|, i requires 0 <= i < |servers| => servers[i].name in status)
  }

  class Balancer {
    var servers: seq<P.Server>
    var status: set<string>
    var updaters: seq<Updater>
    var index: int
    var currentWeight: int
    const wantsHealthCheck: bool

    ghost predicate Valid()
      reads this`servers, this`index, this`currentWeight
    {
      Settled(Weights(servers), Scheduler())
    }

    ghost function Scheduler(): State
      reads this`index, this`currentWeight
    {
      State(index, currentWeight)
    }

    /** What the next pick depends on. */
    ghost function Pool(): (w: Wheel)
      requires MaxOf(Weights(servers)) > 0
      reads this`servers, this`status
      ensures w.Valid()
    {
      WheelIsValid(Weights(servers), UpFlags(servers, status));
      WheelOf(Weights(servers), UpFlags(servers, status))
    }

    constructor (wantsHealthCheck: bool)
      ensures Valid() && Scheduler() == INITIAL
      ensures servers == [] && status == {} && updaters == []
      ensures this.wantsHealthCheck == wantsHealthCheck
    {
      this.servers := [];
      this.status := {};
      this.updaters := [];
      this.index := -1;
      this.currentWeight := 0;
      this.wantsHealthCheck := wantsHealthCheck;
    }

    /** The handler of an entry is a child, or the proxy of a server. */
    method Add(name: string, child: Option<nat>, weight: Option<nat>)
      requires Valid()
      modifies this`servers, this`status
      ensures Valid()
      ensures servers == old(servers) + [P.Server(name, if weight.Some? then weight.value else 1, child)]
      ensures status == old(status) + {name}
    {
      var w := 1;
      if weight.Some? {
        w := weight.value;
      }
      AppendKeepsSettled(Weights(servers), w, Scheduler());
      ghost var before := servers;
      servers := servers + [P.Server(name, w, child)];
      assert Weights(servers) == Weights(before) + [w];
      status := status + {name};
    }

    method RegisterStatusUpdater(fn: Updater) returns (r: Result<(), Error>)
      modifies this`updaters
      ensures wantsHealthCheck ==> r.Ok? && updaters == old(updaters) + [fn]
      ensures !wantsHealthCheck ==> r == Err(HealthCheckNotEnabled) && updaters == old(updaters)
    {
      if !wantsHealthCheck {
        return Err(HealthCheckNotEnabled);
      }
      updaters := updaters + [fn];
      return Ok(());
    }

    /**
     One pick. The precondition shuts out exactly the calls on which the loop below never
     exits (lemma LoopExits): some server is listed as up and some server has a positive
     weight, but none has both.
     */
    method NextServer() returns (r: Result<P.Server, Error>, ghost iterations: nat)
      requires Valid()
      requires servers != [] && status != {} && MaxOf(Weights(servers)) != 0 ==> Pool().CanPick()
      modifies this`index, this`currentWeight
      ensures Valid()
      ensures servers == [] || status == {} ==> r == Err(NoServersInPool) && Scheduler() == old(Scheduler())
      ensures servers != [] && status != {} && MaxOf(Weights(servers)) == 0 ==>
                r == Err(AllServersHaveZeroWeight) && Scheduler() == old(Scheduler())
      ensures servers != [] && status != {} && MaxOf(Weights(servers)) != 0 ==>
                && Aligned(Pool(), old(Scheduler()))
                && Scheduler() == Next(Pool(), old(Scheduler()))
                && iterations == Wait(Pool(), old(Scheduler()))
                && 0 <= index < |servers| && r == Ok(servers[index])
                && r.value.name in status && r.value.weight > 0
    {
      iterations := 0;
      if servers == [] || status == {} {
        return Err(NoServersInPool), 0;
      }
      var maximum := ComputeMax(Weights(servers));
      if maximum == 0 {
        return Err(AllServersHaveZeroWeight), 0;
      }
      var gcd := ComputeGcdOf(Weights(servers));

      SettledIsAligned(Weights(servers), UpFlags(servers, status), Scheduler());
      var srv;
      srv, iterations := Spin(maximum, gcd, Pool());
      return Ok(srv), iterations;
    }

    /** The loop of a pick: advance the index, lower the current weight on each wrap, stop at the first hit. */
    method Spin(maximum: nat, gcd: nat, ghost pool: Wheel) returns (srv: P.Server, ghost iterations: nat)
      requires pool.Valid() && pool.CanPick() && Aligned(pool, Scheduler())
      requires pool.top == maximum && pool.step == gcd && |pool.weights| == |servers|
      requires forall i :: 0 <= i < |servers| ==> pool.weights[i] == servers[i].weight && pool.up[i] == (servers[i].name in status)
      modifies this`index, this`currentWeight
      ensures Scheduler() == Next(pool, old(Scheduler()))
      ensures iterations == Wait(pool, old(Scheduler()))
      ensures 0 <= index < |servers| && srv == servers[index]
      ensures srv.name in status && srv.weight >= currentWeight
    {
      ghost var start := Scheduler();
      iterations := 0;
      while true
        invariant Searching(pool, start, Scheduler(), iterations)
        decreases Laps(pool, Scheduler()), currentWeight, |servers| - index
      {
        ghost var before := Scheduler();
        SearchStep(pool, start, before, iterations);
        TickByRemainder(pool, before);
        index := (index + 1) % |servers|;
        if index == 0 {
          currentWeight := currentWeight - gcd;
          if currentWeight <= 0 {
            currentWeight := maximum;
          }
        }
        iterations := iterations + 1;
        assert Scheduler() == Tick(pool, before);
        srv := servers[index];
        assert Hit(pool, Scheduler()) <==> srv.name in status && srv.weight >= currentWeight;
        if srv.name in status && srv.weight >= currentWeight {
          return;
        }
      }
    }

    // -------------------------------------------------------------------------
    // Propagation of status changes to the parents
    // -------------------------------------------------------------------------

    /**
     Sets the status of one child and, when that flips this balancer between having some child up and
     having none, reports the flip to every parent.
     */
    method SetStatus(childName: string, up: bool, ghost bs: seq<Balancer>, ghost net: P.Net, ghost me: nat)
      requires Represents(bs, net) && me < |bs| && bs[me] == this
      modifies bs`status
      ensures Represents(bs, P.Set(net, me, childName, up))
      decreases me, 2
    {
      WiredSame(bs, net, P.Set(net, me, childName, up));
      var upBefore := status != {};
      status := if up then status + {childName} else status - {childName};
      var upAfter := status != {};
      ghost var next := net[me := net[me].(status := P.Marked(net[me].status, childName, up))];
      forall i | 0 <= i < |bs| ensures bs[i].status == next[i].status {
        if i != me { assert Different(bs, i, me); }
      }
      if upBefore == upAfter {
        return;
      }
      WiredSame(bs, net, next);
      Notify(upAfter, bs, next, me);
    }

    /** Runs every hook. */
    method Notify(up: bool, ghost bs: seq<Balancer>, ghost net: P.Net, ghost me: nat)
      requires Represents(bs, net) && me < |bs| && bs[me] == this
      modifies bs`status
      ensures Represents(bs, P.Notified(net, me, up, |net[me].hooks|))
      decreases me, 1
    {
      UpdaterCount(bs, net, me);
      ghost var now := net;
      for i := 0 to |updaters|
        invariant Represents(bs, now)
        invariant now == P.Notified(net, me, up, i)
      {
        RunHook(i, up, bs, now, me);
        now := P.Notified(net, me, up, i + 1);
      }
    }

    method RunHook(i: nat, up: bool, ghost bs: seq<Balancer>, ghost net: P.Net, ghost me: nat)
      requires Represents(bs, net) && me < |bs| && bs[me] == this && i < |net[me].hooks|
      modifies bs`status
      ensures net[me].hooks[i].parent < |net| && Represents(bs, P.Set(net, net[me].hooks[i].parent, net[me].hooks[i].name, up))
      decreases me, 0
    {
      ghost var h := HookOf(bs, net, me, i);
      updaters[i].parent.SetStatus(updaters[i].childName, up, bs, net, h.parent);
    }
  }

  // ---------------------------------------------------------------------------
  // Balancers that report to each other
  // ---------------------------------------------------------------------------

  /** The hooks of an object are those of its cell. */
  ghost predicate WiredAt(bs: seq<Balancer>, net: P.Net, i: nat)
    requires i < |bs| == |net|
    reads bs`updaters
  {
    && bs[i].wantsHealthCheck == net[i].check
    && |bs[i].updaters| == |net[i].hooks|
    && forall k :: 0 <= k < |net[i].hooks| ==>
         net[i].hooks[k].parent < |bs| && bs[i].updaters[k] == Updater(bs[net[i].hooks[k].parent], net[i].hooks[k].name)
  }

  ghost predicate Different(bs: seq<Balancer>, i: nat, j: nat)
    requires i < |bs| && j < |bs|
  {
    bs[i] != bs[j]
  }

  ghost predicate Wired(bs: seq<Balancer>, net: P.Net)
    reads bs`updaters
  {
    && |bs| == |net| && P.Acyclic(net)
    && (forall i, j :: 0 <= i < |bs| && 0 <= j < |bs| && i != j ==> Different(bs, i, j))
    && (forall i {:trigger WiredAt(bs, net, i)} :: 0 <= i < |bs| ==> WiredAt(bs, net, i))
  }

  lemma UpdaterCount(bs: seq<Balancer>, net: P.Net, i: nat)
    requires Represents(bs, net) && i < |bs|
    ensures |bs[i].updaters| == |net[i].hooks|
  {
    assert WiredAt(bs, net, i);
  }

  ghost predicate Represents(bs: seq<Balancer>, net: P.Net)
    reads bs`status, bs`updaters
  {
    Wired(bs, net) && Lists(bs, net)
  }

  /** The hook behind an updater. */
  ghost function HookOf(bs: seq<Balancer>, net: P.Net, i: nat, k: nat): (h: P.Hook)
    requires Wired(bs, net) && i < |bs| && k < |net[i].hooks|
    reads bs`updaters
    ensures h == net[i].hooks[k] && h.parent < i && |bs[i].updaters| == |net[i].hooks|
    ensures bs[i].updaters[k] == Updater(bs[h.parent], h.name)
  {
    assert WiredAt(bs, net, i);
    net[i].hooks[k]
  }

  lemma WiredSame(bs: seq<Balancer>, a: P.Net, b: P.Net)
    requires Wired(bs, a) && P.SameWiring(a, b)
    ensures Wired(bs, b)
  {
    forall i | 0 <= i < |bs| ensures WiredAt(bs, b, i) {
      assert WiredAt(bs, a, i) && a[i].(status := {}) == b[i].(status := {});
    }
  }

  /** The objects list what the net says. */
  ghost predicate Lists(bs: seq<Balancer>, net: P.Net)
    reads bs`status
  {
    |bs| == |net| && forall i :: 0 <= i < |bs| ==> bs[i].status == net[i].status
  }

  /**
   Every balancer, whatever its history of additions, reports and picks, is fair from now on:
   while its servers and status stay as they are, each window of (sum of up weights)/gcd picks
   returns the j-th server weight/gcd times if it is up and never if it is down, and from the next
   pick on the scheduler state repeats with every window.
   */
  lemma PicksAreFair(b: Balancer)
    requires b.Valid() && MaxOf(Weights(b.servers)) > 0 && b.Pool().CanPick()
    ensures Aligned(b.Pool(), b.Scheduler())
    ensures var picks := Picks(b.Pool(), b.Scheduler(), Window(b.Pool()));
            forall j :: 0 <= j < |b.servers| ==>
              multiset(picks)[j] * GcdOf(Weights(b.servers))
              == if b.servers[j].name in b.status then b.servers[j].weight else 0
    ensures Window(b.Pool()) * GcdOf(Weights(b.servers)) == UpWeight(b.Pool(), |b.servers|)
    ensures forall m: nat :: m > 0 ==>
              After(b.Pool(), b.Scheduler(), m + Window(b.Pool())) == After(b.Pool(), b.Scheduler(), m)
  {
    SettledIsAligned(Weights(b.servers), UpFlags(b.servers, b.status), b.Scheduler());
    FairWindow(b.Pool(), b.Scheduler());
  }

  /** Past the two error returns, the pick loop exits if and only if some listed server is up with positive weight. */
  lemma PickLoopExits(b: Balancer)
    requires b.Valid() && MaxOf(Weights(b.servers)) > 0
    ensures Aligned(b.Pool(), b.Scheduler())
    ensures (exists k: nat :: |Trace(b.Pool(), b.Scheduler(), k)| > 0)
       <==> exists i :: 0 <= i < |b.servers| && b.servers[i].name in b.status && b.servers[i].weight > 0
  {
    var w := b.Pool();
    SettledIsAligned(Weights(b.servers), UpFlags(b.servers, b.status), b.Scheduler());
    LoopExits(w, b.Scheduler());
    if w.CanPick() {
      var i :| 0 <= i < |w.weights| && w.up[i] && w.weights[i] > 0;
      assert b.servers[i].name in b.status && b.servers[i].weight > 0;
    }
    if i :| 0 <= i < |b.servers| && b.servers[i].name in b.status && b.servers[i].weight > 0 {
      assert w.up[i] && w.weights[i] > 0;
    }
  }

  ghost predicate AllValid(bs: seq<Balancer>)
    reads bs`servers, bs`index, bs`currentWeight
  {
    forall i :: 0 <= i < |bs| ==> bs[i].Valid()
  }

  /** The objects pick from what the net says. */
  ghost predicate Pooled(bs: seq<Balancer>, net: P.Net)
    reads bs`servers
  {
    |bs| == |net| && forall i :: 0 <= i < |bs| ==> bs[i].servers == net[i].pool
  }

  /** The objects are what the net says, and each is ready to pick. */
  ghost predicate Holds(bs: seq<Balancer>, net: P.Net)
    reads bs
  {
    Wired(bs, net) && Lists(bs, net) && Pooled(bs, net) && AllValid(bs)
  }

  /** A new balancer. */
  method Create(bs: seq<Balancer>, key: string, weighted: bool, check: bool, ghost net: P.Net) returns (r: seq<Balancer>)
    requires Holds(bs, net)
    ensures Holds(r, P.StepOf(net, P.New(key, weighted, check)))
    ensures |bs| <= |r| && forall i :: 0 <= i < |r| ==> if i < |bs| then r[i] == bs[i] else fresh(r[i])
  {
    var lb := new Balancer(check);
    r := bs + [lb];
    ghost var t := P.StepOf(net, P.New(key, weighted, check));
    forall i, j | 0 <= i < |r| && 0 <= j < |r| && i != j ensures Different(r, i, j) {
      if i < |bs| && j < |bs| { assert Different(bs, i, j); }
    }
    forall i | 0 <= i < |r| ensures WiredAt(r, t, i) {
      assert i < |bs| ==> WiredAt(bs, net, i);
    }
  }

  /** A server added to a balancer. */
  method AddServer(bs: seq<Balancer>, b: nat, server: string, ghost net: P.Net)
    requires Holds(bs, net) && P.CanStep(net, P.AddServer(b, server))
    modifies bs`servers, bs`status
    ensures Holds(bs, P.StepOf(net, P.AddServer(b, server)))
  {
    bs[b].Add(server, None, None);
    ghost var t := P.StepOf(net, P.AddServer(b, server));
    forall i | 0 <= i < |bs|
      ensures WiredAt(bs, t, i) && bs[i].status == t[i].status && bs[i].servers == t[i].pool && bs[i].Valid()
    {
      assert WiredAt(bs, net, i);
      if i != b { assert Different(bs, i, b); }
    }
  }

  /** A net in which a balancer lists one more name. */
  ghost function WithName(net: P.Net, p: nat, c: nat, name: string, weight: Option<nat>): P.Net
    requires p < |net|
  {
    net[p := net[p].(pool := net[p].pool + [P.Server(name, P.WeightOf(weight), Some(c))], status := net[p].status + {name})]
  }

  lemma WithNameWired(bs: seq<Balancer>, net: P.Net, p: nat, c: nat, name: string, weight: Option<nat>)
    requires Wired(bs, net) && p < |bs|
    ensures Wired(bs, WithName(net, p, c, name, weight))
  {
    forall i | 0 <= i < |bs| ensures WiredAt(bs, WithName(net, p, c, name, weight), i) {
      assert WiredAt(bs, net, i);
    }
  }

  /** A child listed by its parent. */
  method ListChild(bs: seq<Balancer>, p: nat, c: nat, name: string, weight: Option<nat>, ghost net: P.Net)
    requires Holds(bs, net) && p < |bs|
    modifies bs`servers, bs`status
    ensures Holds(bs, WithName(net, p, c, name, weight))
  {
    bs[p].Add(name, Some(c), weight);
    ghost var t := WithName(net, p, c, name, weight);
    WithNameWired(bs, net, p, c, name, weight);
    forall i | 0 <= i < |bs| ensures bs[i].status == t[i].status && bs[i].servers == t[i].pool && bs[i].Valid() {
      if i != p { assert Different(bs, i, p); }
    }
  }

  /** The net in which a child reports to its parent. */
  ghost function WithHook(net: P.Net, p: nat, c: nat, name: string): P.Net
    requires c < |net|
  {
    net[c := net[c].(hooks := net[c].hooks + [P.Hook(p, name)])]
  }

  /** A child made to report to its parent. */
  method HookChild(bs: seq<Balancer>, p: nat, c: nat, name: string, ghost net: P.Net)
    requires Holds(bs, net) && p < c < |bs| && net[c].check
    modifies bs`updaters
    ensures Holds(bs, WithHook(net, p, c, name))
  {
    assert WiredAt(bs, net, c);
    var registered := bs[c].RegisterStatusUpdater(Updater(bs[p], name));
    ghost var t := WithHook(net, p, c, name);
    forall i | 0 <= i < |bs| ensures WiredAt(bs, t, i) {
      assert old(WiredAt(bs, net, i));
      if i != c { assert Different(bs, i, c); }
    }
  }

  /** A child added to its parent; a checked parent has it report its status. */
  method AddChild(bs: seq<Balancer>, p: nat, c: nat, name: string, weight: Option<nat>, ghost net: P.Net)
    requires Holds(bs, net) && P.CanStep(net, P.AddChild(p, c, name, weight))
    modifies bs`servers, bs`status, bs`updaters
    ensures Holds(bs, P.StepOf(net, P.AddChild(p, c, name, weight)))
  {
    ListChild(bs, p, c, name, weight, net);
    ghost var listed := WithName(net, p, c, name, weight);
    assert WiredAt(bs, listed, p);
    if bs[p].wantsHealthCheck {
      HookChild(bs, p, c, name, listed);
      assert P.StepOf(net, P.AddChild(p, c, name, weight)) == WithHook(listed, p, c, name);
    } else {
      assert P.StepOf(net, P.AddChild(p, c, name, weight)) == listed;
    }
  }

  /** A router that takes a balancer as its handler changes nothing of it. */
  lemma Routed(bs: seq<Balancer>, net: P.Net, b: nat)
    requires Holds(bs, net) && P.CanStep(net, P.Route(b))
    ensures Holds(bs, P.StepOf(net, P.Route(b)))
  {
    forall i | 0 <= i < |bs| ensures WiredAt(bs, P.StepOf(net, P.Route(b)), i) {
      assert WiredAt(bs, net, i);
    }
  }

  /** One step of a build. */
  method DoStep(bs: seq<Balancer>, st: P.Step, ghost net: P.Net) returns (r: seq<Balancer>)
    requires Holds(bs, net) && P.CanStep(net, st)
    modifies bs`servers, bs`status, bs`updaters
    ensures Holds(r, P.StepOf(net, st))
    ensures |bs| <= |r| && forall i :: 0 <= i < |r| ==> if i < |bs| then r[i] == bs[i] else fresh(r[i])
  {
    r := bs;
    if st.New? {
      r := Create(bs, st.key, st.weighted, st.check, net);
    } else if st.AddServer? {
      AddServer(bs, st.b, st.server, net);
    } else if st.AddChild? {
      AddChild(bs, st.parent, st.child, st.name, st.weight, net);
    } else {
      Routed(bs, net, st.b);
    }
  }

  /** Runs a whole build. */
  method Assemble(steps: seq<P.Step>) returns (bs: seq<Balancer>)
    requires P.CanBuild(steps)
    ensures Holds(bs, P.Built(steps)) && fresh(bs)
  {
    bs := [];
    P.CanBuildPrefix(steps, 0);
    for i := 0 to |steps|
      invariant P.CanBuild(steps[..i]) && Holds(bs, P.Built(steps[..i])) && fresh(bs)
    {
      P.BuildOn(steps, i);
      bs := DoStep(bs, steps[i], P.Built(steps[..i]));
    }
    assert steps[..|steps|] == steps;
  }

  /** One health report. */
  method DoReport(bs: seq<Balancer>, r: P.Report, ghost net: P.Net)
    requires Holds(bs, net) && P.CanReport(net, r)
    modifies bs`status
    ensures Holds(bs, P.Set(net, r.b, r.server, r.up))
  {
    bs[r.b].SetStatus(r.server, r.up, bs, net, r.b);
    PooledSame(bs, net, P.Set(net, r.b, r.server, r.up));
  }

  lemma PooledSame(bs: seq<Balancer>, a: P.Net, b: P.Net)
    requires Pooled(bs, a) && P.SameWiring(a, b)
    ensures Pooled(bs, b)
  {
    forall i | 0 <= i < |bs| ensures bs[i].servers == b[i].pool {
      assert a[i].(status := {}) == b[i].(status := {});
    }
  }

  /** A run of health reports. */
  method DoReports(bs: seq<Balancer>, reports: seq<P.Report>, ghost net: P.Net)
    requires P.Acyclic(net) && Holds(bs, net) && P.AllReports(net, reports)
    modifies bs`status
    ensures Holds(bs, P.Reported(net, reports))
    decreases |reports|
  {
    if reports != [] {
      var n := |reports| - 1;
      P.PrefixReports(net, reports);
      DoReports(bs, reports[..n], net);
      DoReport(bs, reports[n], P.Reported(net, reports[..n]));
    }
  }

  /**
   The objects are what the net says, so the theorems about nets hold of them: with harmless slots they
   are consistent exactly when the build is populated, and if either fails some run is not.
   */
  method BuildAndReport(steps: seq<P.Step>, reports: seq<P.Report>) returns (bs: seq<Balancer>)
    requires P.CanBuild(steps) && P.AllReports(P.Built(steps), reports)
    ensures P.Acyclic(P.Built(steps)) && Holds(bs, P.Reported(P.Built(steps), reports))
    ensures P.HarmlessSlots(steps) ==> (P.Consistent(P.Reported(P.Built(steps), reports)) <==> P.Populated(steps))
    ensures O.AttachedOnce(steps) && !(P.Populated(steps) && P.HarmlessSlots(steps)) ==>
              exists other :: P.AllReports(P.Built(steps), other) && !P.Consistent(P.Reported(P.Built(steps), other))
  {
    P.BuiltOk(steps);
    bs := Assemble(steps);
    DoReports(bs, reports, P.Built(steps));
    if P.HarmlessSlots(steps) {
      P.ConsistentIffPopulated(steps, reports);
    }
    if O.AttachedOnce(steps) {
      O.AlwaysConsistentIff(steps);
    }
  }

  /**
   The pick of an object ends, with an error or at a hit of its loop, exactly when that of its cell does.
   */
  lemma PickEndsIff(bs: seq<Balancer>, net: P.Net, i: nat)
    requires Holds(bs, net) && i < |bs|
    ensures var b := bs[i];
            O.PickEnds(net[i]) <==>
              || b.servers == [] || b.status == {} || MaxOf(Weights(b.servers)) == 0
              || exists k: nat :: |Trace(b.Pool(), b.Scheduler(), k)| > 0
  {
    var b := bs[i];
    if b.servers != [] {
      MaxOfIsMax(Weights(b.servers));
      if MaxOf(Weights(b.servers)) > 0 {
        PickLoopExits(b);
      }
    }
    forall k | 0 <= k < |b.servers| ensures O.Choosable(net[i], k) <==> b.servers[k].name in b.status && b.servers[k].weight > 0 {
    }
  }

  /** What a pick may return, according to the net, is what the next window of picks of the object returns. */
  lemma ChoosableIsPicked(bs: seq<Balancer>, net: P.Net, i: nat, j: nat)
    requires Holds(bs, net) && i < |bs| && O.PickEnds(net[i]) && !O.PickFails(net[i])
    ensures MaxOf(Weights(bs[i].servers)) > 0 && bs[i].Pool().CanPick() && Aligned(bs[i].Pool(), bs[i].Scheduler())
    ensures O.Choosable(net[i], j) <==> j in Picks(bs[i].Pool(), bs[i].Scheduler(), Window(bs[i].Pool()))
  {
    var b := bs[i];
    MaxOfIsMax(Weights(b.servers));
    var k :| 0 <= k < |net[i].pool| && O.Choosable(net[i], k);
    assert b.Pool().up[k] && b.Pool().weights[k] > 0;
    SettledIsAligned(Weights(b.servers), UpFlags(b.servers, b.status), b.Scheduler());
    WindowReturns(b.Pool(), b.Scheduler(), j);
  }

  /** A server of weight zero that is up, and one of positive weight that went down. */
  method IdleAndDown(idle: string, down: string, weight: nat) returns (b: Balancer)
    requires idle != down && weight > 0
    ensures b.Valid() && b.servers == [P.Server(idle, 0, None), P.Server(down, weight, None)] && b.status == {idle}
  {
    b := new Balancer(true);
    b.Add(idle, None, Some(0));
    b.Add(down, None, Some(weight));
    ghost var net := [P.Cell("", false, true, false, b.servers, {idle, down}, {idle, down}, [])];
    assert WiredAt([b], net, 0);
    b.SetStatus(down, false, [b], net, 0);
    assert [b][0] == b;
  }

  /** With these two servers the pick loop never returns. */
  method PickLoopHangs(idle: string, down: string, weight: nat) returns (b: Balancer)
    requires idle != down && weight > 0
    ensures b.Valid() && b.servers == [P.Server(idle, 0, None), P.Server(down, weight, None)] && b.status == {idle}
    ensures MaxOf(Weights(b.servers)) > 0 && Aligned(b.Pool(), b.Scheduler())
    ensures forall k: nat :: |Trace(b.Pool(), b.Scheduler(), k)| == 0
  {
    b := IdleAndDown(idle, down, weight);
    MaxOfIsMax(Weights(b.servers));
    assert Weights(b.servers)[1] == weight;
    PickLoopExits(b);
  }
}

/** pkg/udp/wrr_load_balancer.go: the same scheduler without a health set. */
module UdpBalancer {
  import opened Wrappers
  import opened Divisibility
  import opened RoundRobin
  import opened Pools

  datatype Error = NoServersInPool | AllServersHaveZeroWeight

  ghost function AllUp(n: nat): (up: seq<bool>)
    ensures |up| == n && forall i :: 0 <= i < n ==> up[i]
  {
    seq(n, _ => true)
  }

  class Balancer {
    var servers: seq<nat>
    var index: int
    var currentWeight: int

    ghost predicate Valid()
      reads this
    {
      Settled(servers, Scheduler())
    }

    ghost function Scheduler(): State
      reads this
    {
      State(index, currentWeight)
    }

    /** The wheel on which every server is up; once some weight is positive it can always pick. */
    ghost function Pool(): (w: Wheel)
      requires MaxOf(servers) > 0
      reads this`servers
      ensures w.Valid() && w.CanPick()
    {
      WheelIsValid(servers, AllUp(|servers|));
      WheelOf(servers, AllUp(|servers|))
    }

    constructor ()
      ensures Valid() && Scheduler() == INITIAL && servers == []
    {
      servers := [];
      index := -1;
      currentWeight := 0;
    }

    method AddWeightedServer(weight: Option<nat>)
      requires Valid()
      modifies this`servers
      ensures Valid()
      ensures servers == old(servers) + [if weight.Some? then weight.value else 1]
    {
      var w := 1;
      if weight.Some? {
        w := weight.value;
      }
      AppendKeepsSettled(servers, w, Scheduler());
      servers := servers + [w];
    }

    /** One pick, returning the position of the server; it never takes more iterations than there are servers. */
    method NextServer() returns (r: Result<nat, Error>, ghost iterations: nat)
      requires Valid()
      modifies this`index, this`currentWeight
      ensures Valid()
      ensures servers == [] ==> r == Err(NoServersInPool) && Scheduler() == old(Scheduler())
      ensures servers != [] && MaxOf(servers) == 0 ==> r == Err(AllServersHaveZeroWeight) && Scheduler() == old(Scheduler())
      ensures servers != [] && MaxOf(servers) != 0 ==>
                && Aligned(Pool(), old(Scheduler()))
                && Scheduler() == Next(Pool(), old(Scheduler()))
                && 0 <= index < |servers| && r == Ok(index)
                && iterations == Wait(Pool(), old(Scheduler())) <= |servers|
    {
      iterations := 0;
      if |servers| == 0 {
        return Err(NoServersInPool), 0;
      }
      var maximum := ComputeMax(servers);
      if maximum == 0 {
        return Err(AllServersHaveZeroWeight), 0;
      }
      var gcd := ComputeGcdOf(servers);

      WheelIsValid(servers, AllUp(|servers|));
      ghost var m :| 0 <= m < |servers| && servers[m] == maximum;
      LoopExitsInOneLap(Pool(), Scheduler(), m);
      iterations := Spin(maximum, gcd, Pool());
      return Ok(index), iterations;
    }

    /** The loop of a pick. */
    method Spin(maximum: nat, gcd: nat, ghost pool: Wheel) returns (ghost iterations: nat)
      requires pool.Valid() && pool.CanPick() && Aligned(pool, Scheduler())
      requires pool.top == maximum && pool.step == gcd && pool.weights == servers
      requires forall i :: 0 <= i < |servers| ==> pool.up[i]
      modifies this`index, this`currentWeight
      ensures Scheduler() == Next(pool, old(Scheduler()))
      ensures iterations == Wait(pool, old(Scheduler()))
      ensures 0 <= index < |servers|
    {
      ghost var start := Scheduler();
      iterations := 0;
      while true
        invariant Searching(pool, start, Scheduler(), iterations)
        decreases Laps(pool, Scheduler()), currentWeight, |servers| - index
      {
        ghost var before := Scheduler();
        SearchStep(pool, start, before, iterations);
        TickByRemainder(pool, before);
        index := (index + 1) % |servers|;
        if index == 0 {
          currentWeight := currentWeight - gcd;
          if currentWeight <= 0 {
            currentWeight := maximum;
          }
        }
        iterations := iterations + 1;
        assert Scheduler() == Tick(pool, before);
        if servers[index] >= currentWeight {
          return;
        }
      }
    }
  }

  /** Every balancer is fair from now on: each window of (sum of weights)/gcd picks returns the j-th server weight/gcd times. */
  lemma PicksAreFair(b: Balancer)
    requires b.Valid() && MaxOf(b.servers) > 0
    ensures Aligned(b.Pool(), b.Scheduler())
    ensures var picks := Picks(b.Pool(), b.Scheduler(), Window(b.Pool()));
            forall j :: 0 <= j < |b.servers| ==> multiset(picks)[j] * GcdOf(b.servers) == b.servers[j]
    ensures Window(b.Pool()) * GcdOf(b.servers) == UpWeight(b.Pool(), |b.servers|)
    ensures forall m: nat :: m > 0 ==>
              After(b.Pool(), b.Scheduler(), m + Window(b.Pool())) == After(b.Pool(), b.Scheduler(), m)
  {
    FairWindow(b.Pool(), b.Scheduler());
  }
}
