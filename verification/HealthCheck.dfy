/**
 pkg/healthcheck/healthcheck.go and healthcheck_tcp.go: the two workers of an active health
 checker, one per queue, as processes that take interleaved steps. On each tick a worker drains
 its queue into a batch, probes the batch target by target, reports each result to the balancer
 and puts the target into the queue of its result. Both queues have room for every target.
 */
module HealthCheck {
  import opened Pools
  import opened Wrappers
  import R = RoundRobin
  import T = TcpBalancer
  import P = Propagation
  import D = Divisibility

  /** A target, by the name under which the balancer knows it (a URL or an address). */
  type Target = string

  /** Worker and queue go by the same name. */
  datatype Side = Healthy | Unhealthy

  datatype Phase =
    | Waiting
    | Draining(batch: seq<Target>)
    | Checking(todo: seq<Target>)
    | Reported(target: Target, up: bool, rest: seq<Target>)
    | Stopped

  datatype State = State(
    capacity: nat,
    healthy: seq<Target>,
    unhealthy: seq<Target>,
    healthyWorker: Phase,
    unhealthyWorker: Phase,
    status: set<Target>,
    servers: seq<P.Server>,
    scheduler: R.State,
    cancelled: bool)
  {
    function Queue(side: Side): seq<Target> {
      if side.Healthy? then healthy else unhealthy
    }

    function Worker(side: Side): Phase {
      if side.Healthy? then healthyWorker else unhealthyWorker
    }

    function WithQueue(side: Side, q: seq<Target>): State {
      if side.Healthy? then this.(healthy := q) else this.(unhealthy := q)
    }

    function WithWorker(side: Side, p: Phase): State {
      if side.Healthy? then this.(healthyWorker := p) else this.(unhealthyWorker := p)
    }
  }

  /** `Pick` is one pick of the balancer's scheduler; a probe that fails with a cancelled context is a `Stop`. */
  datatype Action =
    | Tick(side: Side)
    | Take(side: Side)
    | EndDrain(side: Side)
    | Probe(side: Side, target: Target, up: bool)
    | Requeue(side: Side)
    | EndBatch(side: Side)
    | Stop(side: Side)
    | Cancel
    | Pick(target: Target)

  function QueueFor(up: bool): Side {
    if up then Healthy else Unhealthy
  }

  /** Past its error returns, and some server that is up has positive weight. */
  ghost predicate PoolCanPick(s: State) {
    && D.MaxOf(T.Weights(s.servers)) > 0 && Settled(T.Weights(s.servers), s.scheduler)
    && WheelOf(T.Weights(s.servers), T.UpFlags(s.servers, s.status)).CanPick()
  }

  /** The scheduler after one pick; it stands at the server picked. */
  ghost function Picked(s: State): (t: R.State)
    requires PoolCanPick(s)
    ensures 0 <= t.index < |s.servers| && s.servers[t.index].name in s.status
    ensures Settled(T.Weights(s.servers), t)
  {
    var weights, up := T.Weights(s.servers), T.UpFlags(s.servers, s.status);
    WheelIsValid(weights, up);
    SettledIsAligned(weights, up, s.scheduler);
    R.Next(WheelOf(weights, up), s.scheduler)
  }

  /** What a worker wants to do next, leaving aside whether a queue has room. */
  ghost predicate Attempts(s: State, a: Action) {
    match a
    case Tick(w) => s.Worker(w).Waiting?
    case Take(w) => s.Worker(w).Draining? && s.Queue(w) != []
    case EndDrain(w) => s.Worker(w).Draining? && s.Queue(w) == []
    case Probe(w, t, _) => s.Worker(w).Checking? && s.Worker(w).todo != [] && s.Worker(w).todo[0] == t
    case Requeue(w) => s.Worker(w).Reported?
    case EndBatch(w) => s.Worker(w).Checking? && s.Worker(w).todo == []
    case Stop(w) => s.cancelled && (s.Worker(w).Waiting? || s.Worker(w).Draining? || s.Worker(w).Checking?)
    case Cancel => true
    case Pick(t) => PoolCanPick(s) && s.servers[Picked(s).index].name == t
  }

  /** A send on a full queue blocks. */
  ghost predicate Enabled(s: State, a: Action) {
    Attempts(s, a) && (a.Requeue? ==> |s.Queue(QueueFor(s.Worker(a.side).up))| < s.capacity)
  }

  ghost function Step(s: State, a: Action): State
    requires Enabled(s, a)
  {
    match a
    case Tick(w) => s.WithWorker(w, Draining([]))
    case Take(w) => s.WithQueue(w, s.Queue(w)[1..]).WithWorker(w, Draining(s.Worker(w).batch + [s.Queue(w)[0]]))
    case EndDrain(w) => s.WithWorker(w, Checking(s.Worker(w).batch))
    case Probe(w, t, up) =>
      s.(status := if up then s.status + {t} else s.status - {t}).WithWorker(w, Reported(t, up, s.Worker(w).todo[1..]))
    case Requeue(w) =>
      var p := s.Worker(w);
      s.WithQueue(QueueFor(p.up), s.Queue(QueueFor(p.up)) + [p.target]).WithWorker(w, Checking(p.rest))
    case EndBatch(w) => s.WithWorker(w, Waiting)
    case Stop(w) => s.WithWorker(w, Stopped)
    case Cancel => s.(cancelled := true)
    case Pick(_) => s.(scheduler := Picked(s))
  }

  /**
   A fresh checker: every target in the healthy queue, every address a server of weight one, up in the
   balancer. An address may be configured twice; the targets are the different addresses.
   */
  function Initial(targets: seq<Target>, addresses: seq<Target>): State {
    State(|targets|, targets, [], Waiting, Waiting, (set t | t in addresses), ServersFor(addresses), R.INITIAL, false)
  }

  function ServersFor(addresses: seq<Target>): seq<P.Server> {
    seq(|addresses|, i requires 0 <= i < |addresses| => P.Server(addresses[i], 1, None))
  }

  ghost predicate SameNames(targets: seq<Target>, addresses: seq<Target>) {
    forall t :: t in targets <==> t in addresses
  }

  ghost predicate CanRun(s: State, run: seq<Action>)
    decreases |run|
  {
    run == [] || (Enabled(s, run[0]) && CanRun(Step(s, run[0]), run[1..]))
  }

  ghost function Run(s: State, run: seq<Action>): State
    requires CanRun(s, run)
    decreases |run|
  {
    if run == [] then s else Run(Step(s, run[0]), run[1..])
  }

  // ---------------------------------------------------------------------------
  // Conservation
  // ---------------------------------------------------------------------------

  function Count(q: seq<Target>, t: Target): nat {
    if q == [] then 0 else (if q[0] == t then 1 else 0) + Count(q[1..], t)
  }

  lemma {:induction false} CountAppend(q: seq<Target>, x: Target, t: Target)
    ensures Count(q + [x], t) == Count(q, t) + if x == t then 1 else 0
  {
    if q == [] {
      assert q + [x] == [x];
    } else {
      assert (q + [x])[1..] == q[1..] + [x];
      CountAppend(q[1..], x, t);
    }
  }

  lemma {:induction false} CountIn(q: seq<Target>, t: Target)
    ensures t in q <==> Count(q, t) > 0
  {
    if q != [] {
      CountIn(q[1..], t);
    }
  }

  /** How many copies of a target are in a worker's batch and hand. */
  function Held(p: Phase, t: Target): nat {
    match p
    case Draining(batch) => Count(batch, t)
    case Checking(todo) => Count(todo, t)
    case Reported(x, _, rest) => (if x == t then 1 else 0) + Count(rest, t)
    case _ => 0
  }

  function Load(p: Phase): nat {
    match p
    case Draining(batch) => |batch|
    case Checking(todo) => |todo|
    case Reported(_, _, rest) => 1 + |rest|
    case _ => 0
  }

  /** How many copies of a target are in the two queues and with the two workers. */
  function Places(s: State, t: Target): nat {
    Count(s.healthy, t) + Count(s.unhealthy, t) + Held(s.healthyWorker, t) + Held(s.unhealthyWorker, t)
  }

  function Size(s: State): nat {
    |s.healthy| + |s.unhealthy| + Load(s.healthyWorker) + Load(s.unhealthyWorker)
  }

  lemma TakeMoves(s: State, w: Side, t: Target)
    requires Enabled(s, Take(w))
    ensures Places(Step(s, Take(w)), t) == Places(s, t)
  {
    CountAppend(s.Worker(w).batch, s.Queue(w)[0], t);
  }

  lemma RequeueMoves(s: State, w: Side, t: Target)
    requires Enabled(s, Requeue(w))
    ensures Places(Step(s, Requeue(w)), t) == Places(s, t)
  {
    CountAppend(s.Queue(QueueFor(s.Worker(w).up)), s.Worker(w).target, t);
  }

  lemma StepMoves(s: State, a: Action, t: Target)
    requires Enabled(s, a)
    ensures if a.Stop? then Places(Step(s, a), t) <= Places(s, t) else Places(Step(s, a), t) == Places(s, t)
  {
    if a.Take? { TakeMoves(s, a.side, t); }
    else if a.Requeue? { RequeueMoves(s, a.side, t); }
    else if a.Probe? { assert Held(s.Worker(a.side), t) == Held(Step(s, a).Worker(a.side), t); }
  }

  /** Before cancellation nothing is lost or duplicated; after it nothing is duplicated. */
  ghost predicate Conserved(targets: seq<Target>, s: State) {
    && s.capacity == |targets|
    && Size(s) <= |targets|
    && forall t :: Places(s, t) <= Count(targets, t) && (!s.cancelled ==> Places(s, t) == Count(targets, t))
  }

  lemma InitialConserved(targets: seq<Target>, addresses: seq<Target>)
    ensures Conserved(targets, Initial(targets, addresses))
    ensures SameNames(targets, addresses) ==> StatusAgrees(Initial(targets, addresses))
  {
  }

  lemma StepConserves(targets: seq<Target>, s: State, a: Action)
    requires Conserved(targets, s) && Enabled(s, a)
    ensures Conserved(targets, Step(s, a))
  {
    forall t
      ensures Places(Step(s, a), t) <= Count(targets, t)
      ensures !Step(s, a).cancelled ==> Places(Step(s, a), t) == Count(targets, t)
    {
      StepMoves(s, a, t);
    }
  }

  lemma {:induction false} RunConserves(targets: seq<Target>, s: State, run: seq<Action>)
    requires Conserved(targets, s) && CanRun(s, run)
    ensures Conserved(targets, Run(s, run))
    decreases |run|
  {
    if run != [] {
      StepConserves(targets, s, run[0]);
      RunConserves(targets, Step(s, run[0]), run[1..]);
    }
  }

  ghost predicate Distinct(targets: seq<Target>) {
    forall t :: Count(targets, t) <= 1
  }

  /**
   In every interleaving the queues and the workers together hold each target as often as it was
   given (at most as often after cancellation), and a drain takes at most as many targets as there are.
   When no target is given twice, each is in exactly one queue, batch or hand, and the two workers
   never hold the same one.
   */
  lemma TargetsAreConserved(targets: seq<Target>, addresses: seq<Target>, run: seq<Action>)
    requires CanRun(Initial(targets, addresses), run)
    ensures var s := Run(Initial(targets, addresses), run);
            && (forall t :: Places(s, t) <= Count(targets, t) && (!s.cancelled ==> Places(s, t) == Count(targets, t)))
            && (forall w :: s.Worker(w).Draining? ==> |s.Worker(w).batch| <= |targets|)
            && (Distinct(targets) ==>
                  && (forall t :: t in targets ==> Places(s, t) <= 1 && (!s.cancelled ==> Places(s, t) == 1))
                  && (forall t :: Held(s.healthyWorker, t) == 0 || Held(s.unhealthyWorker, t) == 0))
  {
    InitialConserved(targets, addresses);
    RunConserves(targets, Initial(targets, addresses), run);
    var s := Run(Initial(targets, addresses), run);
    if Distinct(targets) {
      forall t
        ensures t in targets <==> Count(targets, t) == 1
        ensures Places(s, t) <= 1 && (Held(s.healthyWorker, t) == 0 || Held(s.unhealthyWorker, t) == 0)
      {
        CountIn(targets, t);
      }
    }
  }

  /** A worker that wants to requeue a target never blocks, whether or not the context is cancelled. */
  lemma RequeueNeverBlocks(targets: seq<Target>, addresses: seq<Target>, run: seq<Action>, w: Side)
    requires CanRun(Initial(targets, addresses), run)
    ensures var s := Run(Initial(targets, addresses), run);
            Attempts(s, Requeue(w)) ==> Enabled(s, Requeue(w))
  {
    InitialConserved(targets, addresses);
    RunConserves(targets, Initial(targets, addresses), run);
  }

  // ---------------------------------------------------------------------------
  // Agreement with the balancer
  // ---------------------------------------------------------------------------

  ghost predicate ReportAgrees(status: set<Target>, p: Phase) {
    p.Reported? ==> (p.target in status <==> p.up)
  }

  ghost predicate StatusAgrees(s: State) {
    && (forall t :: t in s.healthy ==> t in s.status)
    && (forall t :: t in s.unhealthy ==> t !in s.status)
    && ReportAgrees(s.status, s.healthyWorker)
    && ReportAgrees(s.status, s.unhealthyWorker)
  }

  lemma StepKeepsStatus(targets: seq<Target>, s: State, a: Action)
    requires Distinct(targets) && Conserved(targets, s) && StatusAgrees(s) && Enabled(s, a)
    ensures StatusAgrees(Step(s, a))
  {
    if a.Probe? {
      ProbedElsewhere(targets, s, a.side, a.target);
    }
  }

  /** A target about to be reported is in no queue and not in the other worker's hand. */
  lemma ProbedElsewhere(targets: seq<Target>, s: State, w: Side, t: Target)
    requires Distinct(targets) && Conserved(targets, s)
    requires s.Worker(w).Checking? && s.Worker(w).todo != [] && s.Worker(w).todo[0] == t
    ensures t !in s.healthy && t !in s.unhealthy
    ensures w.Unhealthy? && s.healthyWorker.Reported? ==> s.healthyWorker.target != t
    ensures w.Healthy? && s.unhealthyWorker.Reported? ==> s.unhealthyWorker.target != t
  {
    CountIn(s.healthy, t);
    CountIn(s.unhealthy, t);
    assert Places(s, t) <= Count(targets, t) <= 1;
  }

  lemma {:induction false} RunKeepsStatus(targets: seq<Target>, s: State, run: seq<Action>)
    requires Distinct(targets) && Conserved(targets, s) && StatusAgrees(s) && CanRun(s, run)
    ensures StatusAgrees(Run(s, run))
    decreases |run|
  {
    if run != [] {
      StepKeepsStatus(targets, s, run[0]);
      StepConserves(targets, s, run[0]);
      RunKeepsStatus(targets, Step(s, run[0]), run[1..]);
    }
  }

  /** Every target waiting in the healthy queue is up in the balancer, every one in the unhealthy queue is down. */
  lemma QueuesMatchStatus(targets: seq<Target>, addresses: seq<Target>, run: seq<Action>)
    requires CanRun(Initial(targets, addresses), run) && Distinct(targets) && SameNames(targets, addresses)
    ensures var s := Run(Initial(targets, addresses), run);
            && (forall t :: t in s.healthy ==> t in s.status)
            && (forall t :: t in s.unhealthy ==> t !in s.status)
  {
    InitialConserved(targets, addresses);
    RunKeepsStatus(targets, Initial(targets, addresses), run);
  }

  ghost predicate NeverReportsUp(run: seq<Action>, t: Target) {
    forall i :: 0 <= i < |run| ==> !(run[i].Probe? && run[i].target == t && run[i].up)
  }

  lemma {:induction false} StaysDown(s: State, run: seq<Action>, t: Target)
    requires CanRun(s, run) && t !in s.status && NeverReportsUp(run, t)
    ensures t !in Run(s, run).status
    decreases |run|
  {
    if run != [] {
      StaysDown(Step(s, run[0]), run[1..], t);
    }
  }

  lemma {:induction false} RunSplits(s: State, a: seq<Action>, b: seq<Action>)
    requires CanRun(s, a + b)
    ensures CanRun(s, a) && CanRun(Run(s, a), b)
    decreases |a|
  {
    if a == [] {
      assert a + b == b;
    } else {
      assert (a + b)[1..] == a[1..] + b;
      RunSplits(Step(s, a[0]), a[1..], b);
    }
  }

  /** In every run the scheduler stands where picks leave it, so a pick only waits for a server to be up. */
  lemma {:induction false} SchedulerStaysSettled(s: State, run: seq<Action>)
    requires CanRun(s, run) && Settled(T.Weights(s.servers), s.scheduler)
    ensures Run(s, run).servers == s.servers && Settled(T.Weights(s.servers), Run(s, run).scheduler)
    decreases |run|
  {
    if run != [] {
      SchedulerStaysSettled(Step(s, run[0]), run[1..]);
    }
  }

  /** Exactly when the balancer of a checker can pick: some target is up. */
  lemma PicksWhileSomeUp(targets: seq<Target>, addresses: seq<Target>, run: seq<Action>)
    requires CanRun(Initial(targets, addresses), run) && SameNames(targets, addresses)
    ensures var s := Run(Initial(targets, addresses), run);
            PoolCanPick(s) <==> exists t :: t in targets && t in s.status
  {
    var s := Run(Initial(targets, addresses), run);
    SchedulerStaysSettled(Initial(targets, addresses), run);
    var weights := T.Weights(s.servers);
    if t :| t in targets && t in s.status {
      var i :| 0 <= i < |addresses| && addresses[i] == t;
      D.MaxOfIsMax(weights);
      assert weights[i] == 1;
      var w := WheelOf(weights, T.UpFlags(s.servers, s.status));
      assert w.up[i] && w.weights[i] > 0;
    }
    if PoolCanPick(s) {
      var w := WheelOf(weights, T.UpFlags(s.servers, s.status));
      var i :| 0 <= i < |w.weights| && w.up[i] && w.weights[i] > 0;
      assert addresses[i] in targets && addresses[i] in s.status;
    }
  }

  /** No pick of the scheduler returns a target between a report that it is down and the next report that it is up. */
  lemma NoPickWhileDown(
    targets: seq<Target>, addresses: seq<Target>, before: seq<Action>, w: Side, t: Target, quiet: seq<Action>)
    requires NeverReportsUp(quiet, t)
    ensures !CanRun(Initial(targets, addresses), before + ([Probe(w, t, false)] + (quiet + [Pick(t)])))
  {
    var rest := [Probe(w, t, false)] + (quiet + [Pick(t)]);
    if CanRun(Initial(targets, addresses), before + rest) {
      RunSplits(Initial(targets, addresses), before, rest);
      var s := Run(Initial(targets, addresses), before);
      assert rest[1..] == quiet + [Pick(t)];
      var down := Step(s, rest[0]);
      RunSplits(down, quiet, [Pick(t)]);
      StaysDown(down, quiet, t);
    }
  }
}
