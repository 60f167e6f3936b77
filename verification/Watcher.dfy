/**
 pkg/server/configurationwatcher.go: the receiver and the applier as two processes that take
 interleaved steps. Providers publish into a bounded queue; the receiver folds messages into the
 latest configuration per provider, transforms it and arms a send; the applier takes the set over
 an unbuffered channel, filters it and gives it to the listeners.
 */
module Watcher {
  import opened Wrappers

  /** A resource map of a section, up to equality. */
  type Resources = string

  datatype HttpSection = HttpSection(
    routers: Option<Resources>, services: Option<Resources>, middlewares: Option<Resources>, others: Option<Resources>)
  datatype TcpSection = TcpSection(
    routers: Option<Resources>, services: Option<Resources>, middlewares: Option<Resources>, others: Option<Resources>)
  datatype UdpSection = UdpSection(routers: Option<Resources>, services: Option<Resources>)
  datatype TlsSection = TlsSection(
    certificates: Option<Resources>, stores: Option<Resources>, options: Option<Resources>)

  datatype Configuration = Configuration(
    http: Option<HttpSection>, tcp: Option<TcpSection>, udp: Option<UdpSection>, tls: Option<TlsSection>)

  datatype Message = Message(provider: string, configuration: Option<Configuration>)

  type View = map<string, Configuration>

  /** A set of configurations; None is a nil map. */
  type Configurations = Option<View>

  /** The transformers, as one function, and the provider to wait for ("" for none). */
  datatype Setup = Setup(transform: View -> Configurations, requiredProvider: string)

  const QUEUE_CAPACITY := 100

  /** The emptiness test first replaces missing sections by empty ones, in place. */
  function Filled(c: Configuration): Configuration {
    c.(http := if c.http.None? then Some(HttpSection(None, None, None, None)) else c.http,
       tcp := if c.tcp.None? then Some(TcpSection(None, None, None, None)) else c.tcp,
       udp := if c.udp.None? then Some(UdpSection(None, None)) else c.udp)
  }

  predicate IsEmpty(c: Configuration) {
    var f := Filled(c);
    && f.http.value.routers.None? && f.http.value.services.None? && f.http.value.middlewares.None?
    && (f.tls.None? || (f.tls.value.certificates.None? && f.tls.value.stores.None? && f.tls.value.options.None?))
    && f.tcp.value.routers.None? && f.tcp.value.services.None? && f.tcp.value.middlewares.None?
    && f.udp.value.routers.None? && f.udp.value.services.None?
  }

  predicate Usable(m: Message) {
    m.configuration.Some? && !IsEmpty(m.configuration.value)
  }

  /** The message changes the latest configuration of its provider. */
  predicate Changes(view: View, m: Message) {
    Usable(m) && (m.provider !in view || view[m.provider] != Filled(m.configuration.value))
  }

  /** The latest usable configuration of each provider over a history of messages. */
  function Latest(history: seq<Message>): View {
    if history == [] then map[]
    else
      var view, m := Latest(history[..|history| - 1]), history[|history| - 1];
      if Usable(m) then view[m.provider := Filled(m.configuration.value)] else view
  }

  /** A set on its way to, or through, the applier, with the length of the history it was computed from. */
  datatype Snapshot = Snapshot(prefix: nat, contents: Configurations)

  /** `received`, `handed` and `applied` record what happened; no step depends on them. */
  datatype State = State(
    queue: seq<Message>,
    latest: View,
    transformed: Configurations,
    armed: bool,
    holding: Option<Snapshot>,
    last: Configurations,
    received: seq<Message>,
    handed: nat,
    applied: seq<Snapshot>)

  datatype Action = Publish(message: Message) | Receive | HandOff | Apply

  const INITIAL := State([], map[], Some(map[]), false, None, None, [], 0, [])

  predicate Enabled(s: State, a: Action) {
    match a
    case Publish(_) => |s.queue| < QUEUE_CAPACITY
    case Receive => s.queue != []
    case HandOff => s.armed && s.holding.None?
    case Apply => s.holding.Some?
  }

  predicate HasRequired(w: Setup, c: Configurations) {
    w.requiredProvider == "" || (c.Some? && w.requiredProvider in c.value)
  }

  function Step(w: Setup, s: State, a: Action): State
    requires Enabled(s, a)
  {
    match a
    case Publish(m) => s.(queue := s.queue + [m])
    case Receive =>
      var m := s.queue[0];
      var t := s.(queue := s.queue[1..], received := s.received + [m]);
      if !Changes(s.latest, m) then t
      else
        var latest := s.latest[m.provider := Filled(m.configuration.value)];
        t.(latest := latest, transformed := w.transform(latest), armed := true)
    case HandOff =>
      s.(armed := false, holding := Some(Snapshot(|s.received|, s.transformed)), handed := |s.received|)
    case Apply =>
      var c := s.holding.value;
      var t := s.(holding := None);
      if !HasRequired(w, c.contents) || c.contents == s.last then t
      else t.(last := c.contents, applied := s.applied + [c])
  }

  predicate CanRun(w: Setup, s: State, run: seq<Action>)
    decreases |run|
  {
    run == [] || (Enabled(s, run[0]) && CanRun(w, Step(w, s, run[0]), run[1..]))
  }

  function Run(w: Setup, s: State, run: seq<Action>): State
    requires CanRun(w, s, run)
    decreases |run|
  {
    if run == [] then s else Run(w, Step(w, s, run[0]), run[1..])
  }

  /** The set the listeners would get from the first `n` messages. */
  ghost function SetAt(w: Setup, s: State, n: nat): Configurations
    requires n <= |s.received|
  {
    w.transform(Latest(s.received[..n]))
  }

  ghost predicate SnapshotOk(w: Setup, s: State, c: Snapshot) {
    c.prefix <= |s.received| && c.contents == SetAt(w, s, c.prefix)
  }

  /** The set applied before the i-th one, nil at first. */
  ghost function Before(applied: seq<Snapshot>, i: nat): Configurations
    requires i <= |applied|
  {
    if i == 0 then None else applied[i - 1].contents
  }

  ghost predicate Differs(applied: seq<Snapshot>, i: nat)
    requires i < |applied|
  {
    applied[i].contents != Before(applied, i)
  }

  ghost predicate Inv(w: Setup, s: State) {
    ReceiverOk(w, s) && ApplierOk(w, s) && AppliedOk(w, s)
  }

  ghost predicate ReceiverOk(w: Setup, s: State) {
    && s.latest == Latest(s.received)
    && s.handed <= |s.received|
    && (s.latest != map[] ==> s.transformed == w.transform(s.latest))
    && (s.armed ==> s.latest != map[] && s.handed < |s.received|)
    && (!s.armed ==> s.latest == Latest(s.received[..s.handed]))
  }

  ghost predicate ApplierOk(w: Setup, s: State) {
    && s.handed <= |s.received|
    && (s.holding.Some? ==> SnapshotOk(w, s, s.holding.value) && s.holding.value.prefix == s.handed)
    && (s.holding.None? && Latest(s.received[..s.handed]) != map[] && HasRequired(w, SetAt(w, s, s.handed)) ==>
          s.last == SetAt(w, s, s.handed))
    && s.last == Before(s.applied, |s.applied|)
  }

  /** What the listeners have been given so far. */
  ghost predicate AppliedOk(w: Setup, s: State) {
    && (forall i :: 0 <= i < |s.applied| ==> SnapshotOk(w, s, s.applied[i]) && HasRequired(w, s.applied[i].contents))
    && (forall i :: 0 <= i < |s.applied| ==> Differs(s.applied, i))
    && (forall i, j :: 0 <= i < j < |s.applied| ==> s.applied[i].prefix < s.applied[j].prefix)
    && (forall i :: 0 <= i < |s.applied| ==>
          s.applied[i].prefix <= s.handed && (s.holding.Some? ==> s.applied[i].prefix < s.handed))
  }

  /** Receiving more messages does not change what a prefix gave. */
  lemma PrefixesStay(w: Setup, s: State, t: State, m: Message)
    requires t.received == s.received + [m]
    ensures forall n :: 0 <= n <= |s.received| ==> SetAt(w, t, n) == SetAt(w, s, n)
    ensures forall n :: 0 <= n <= |s.received| ==> Latest(t.received[..n]) == Latest(s.received[..n])
  {
    forall n | 0 <= n <= |s.received| ensures t.received[..n] == s.received[..n] {}
  }

  lemma LatestNext(history: seq<Message>, m: Message)
    ensures Latest(history + [m]) ==
            if Usable(m) then Latest(history)[m.provider := Filled(m.configuration.value)] else Latest(history)
  {
    assert (history + [m])[..|history|] == history;
  }

  lemma ReceiveKeepsReceiver(w: Setup, s: State, t: State)
    requires ReceiverOk(w, s) && s.queue != [] && t == Step(w, s, Receive)
    ensures ReceiverOk(w, t)
  {
    var m := s.queue[0];
    LatestNext(s.received, m);
    assert t.received[..s.handed] == s.received[..s.handed];
    if Usable(m) {
      if Changes(s.latest, m) {
        assert m.provider in t.latest;
      } else {
        assert s.latest[m.provider := Filled(m.configuration.value)] == s.latest;
      }
    }
  }

  lemma ReceiveKeepsApplier(w: Setup, s: State, t: State)
    requires ApplierOk(w, s) && s.queue != [] && t.received == s.received + [s.queue[0]]
    requires t.holding == s.holding && t.handed == s.handed && t.last == s.last && t.applied == s.applied
    ensures ApplierOk(w, t)
  {
    PrefixesStay(w, s, t, s.queue[0]);
  }

  lemma ReceiveKeepsApplied(w: Setup, s: State, t: State)
    requires AppliedOk(w, s) && s.queue != [] && t.received == s.received + [s.queue[0]]
    requires t.holding == s.holding && t.handed == s.handed && t.applied == s.applied
    ensures AppliedOk(w, t)
  {
    PrefixesStay(w, s, t, s.queue[0]);
    forall i | 0 <= i < |s.applied| ensures SnapshotOk(w, t, t.applied[i]) {
      assert SnapshotOk(w, s, s.applied[i]);
    }
  }

  lemma ReceiveKeepsInv(w: Setup, s: State, t: State)
    requires Inv(w, s) && s.queue != [] && t == Step(w, s, Receive)
    ensures Inv(w, t)
  {
    ReceiveKeepsReceiver(w, s, t);
    ReceiveKeepsApplier(w, s, t);
    ReceiveKeepsApplied(w, s, t);
  }

  lemma HandOffKeepsInv(w: Setup, s: State)
    requires Inv(w, s) && Enabled(s, HandOff)
    ensures Inv(w, Step(w, s, HandOff))
  {
    assert s.received[..|s.received|] == s.received;
  }

  lemma ApplyKeepsInv(w: Setup, s: State)
    requires Inv(w, s) && Enabled(s, Apply)
    ensures Inv(w, Step(w, s, Apply))
  {
    var t := Step(w, s, Apply);
    var c := s.holding.value;
    assert ReceiverOk(w, t);
    if t.applied == s.applied {
      assert AppliedOk(w, t);
      assert ApplierOk(w, t);
    } else {
      assert Before(t.applied, |t.applied|) == c.contents;
      assert ApplierOk(w, t);
      AppendKeepsApplied(w, s, t, c);
    }
  }

  lemma AppendKeepsApplied(w: Setup, s: State, t: State, c: Snapshot)
    requires AppliedOk(w, s) && SnapshotOk(w, s, c) && HasRequired(w, c.contents)
    requires c.contents != Before(s.applied, |s.applied|)
    requires s.holding.Some? && c.prefix == s.handed
    requires t == s.(holding := None, last := c.contents, applied := s.applied + [c])
    ensures AppliedOk(w, t)
  {
    forall i | 0 <= i < |t.applied| ensures Differs(t.applied, i) {
      assert i < |s.applied| ==> Differs(s.applied, i);
    }
    forall i | 0 <= i < |t.applied|
      ensures SnapshotOk(w, t, t.applied[i]) && HasRequired(w, t.applied[i].contents)
    {
      assert t.applied[i] == if i < |s.applied| then s.applied[i] else c;
      assert SetAt(w, t, t.applied[i].prefix) == SetAt(w, s, t.applied[i].prefix);
    }
  }

  lemma StepKeepsInv(w: Setup, s: State, a: Action)
    requires Inv(w, s) && Enabled(s, a)
    ensures Inv(w, Step(w, s, a))
  {
    match a
    case Publish(_) =>
    case Receive => ReceiveKeepsInv(w, s, Step(w, s, Receive));
    case HandOff => HandOffKeepsInv(w, s);
    case Apply => ApplyKeepsInv(w, s);
  }

  lemma {:induction false} RunKeepsInv(w: Setup, s: State, run: seq<Action>)
    requires Inv(w, s) && CanRun(w, s, run)
    ensures Inv(w, Run(w, s, run))
    decreases |run|
  {
    if run != [] {
      StepKeepsInv(w, s, run[0]);
      RunKeepsInv(w, Step(w, s, run[0]), run[1..]);
    }
  }

  /**
   Along every run, every set given to the listeners is the transformed latest-per-provider view
   after some prefix of the messages, it contains the required provider, it differs from the set
   before it (the first from nil), and the prefixes strictly grow.
   */
  lemma ListenersSeeLatestViews(w: Setup, run: seq<Action>)
    requires CanRun(w, INITIAL, run)
    ensures var s := Run(w, INITIAL, run);
            && (forall i :: 0 <= i < |s.applied| ==>
                  && s.applied[i].prefix <= |s.received|
                  && s.applied[i].contents == w.transform(Latest(s.received[..s.applied[i].prefix]))
                  && HasRequired(w, s.applied[i].contents)
                  && s.applied[i].contents != Before(s.applied, i))
            && (forall i, j :: 0 <= i < j < |s.applied| ==> s.applied[i].prefix < s.applied[j].prefix)
  {
    RunKeepsInv(w, INITIAL, run);
    var s := Run(w, INITIAL, run);
    forall i | 0 <= i < |s.applied| ensures s.applied[i].contents != Before(s.applied, i) {
      assert Differs(s.applied, i);
    }
  }

  predicate Quiescent(s: State) {
    s.queue == [] && !s.armed && s.holding.None?
  }

  /**
   Convergence: once some message has been accepted, whenever nothing is queued, armed or held,
   the last applied set is the transformed view of everything received, provided that view
   contains the required provider.
   */
  lemma QuiescentMeansConverged(w: Setup, run: seq<Action>)
    requires CanRun(w, INITIAL, run)
    ensures var s := Run(w, INITIAL, run);
            var goal := w.transform(Latest(s.received));
            Quiescent(s) && Latest(s.received) != map[] && HasRequired(w, goal) ==> s.last == goal
  {
    RunKeepsInv(w, INITIAL, run);
  }

  /** Steps the two processes take on their own. */
  predicate Internal(a: Action) {
    !a.Publish?
  }

  function Work(s: State): nat {
    3 * |s.queue| + (if s.armed then 2 else 0) + (if s.holding.Some? then 1 else 0)
  }

  /** Every internal step uses up work, and work left means that some internal step is possible. */
  lemma InternalStepUsesWork(w: Setup, s: State)
    ensures forall a :: Internal(a) && Enabled(s, a) ==> Work(Step(w, s, a)) < Work(s)
    ensures Quiescent(s) <==> !exists a :: Internal(a) && Enabled(s, a)
  {
    if s.queue != [] {
      assert Enabled(s, Receive);
    } else if s.holding.Some? {
      assert Enabled(s, Apply);
    } else if s.armed {
      assert Enabled(s, HandOff);
    }
  }

  lemma {:induction false} InternalRunBounded(w: Setup, s: State, run: seq<Action>)
    requires CanRun(w, s, run) && forall i :: 0 <= i < |run| ==> Internal(run[i])
    ensures |run| + Work(Run(w, s, run)) <= Work(s)
    decreases |run|
  {
    if run != [] {
      InternalStepUsesWork(w, s);
      assert Internal(run[0]);
      InternalRunBounded(w, Step(w, s, run[0]), run[1..]);
    }
  }

  lemma {:induction false} RunsCompose(w: Setup, s: State, a: seq<Action>, b: seq<Action>)
    requires CanRun(w, s, a) && CanRun(w, Run(w, s, a), b)
    ensures CanRun(w, s, a + b) && Run(w, s, a + b) == Run(w, Run(w, s, a), b)
    decreases |a|
  {
    if a == [] {
      assert a + b == b;
    } else {
      assert (a + b)[1..] == a[1..] + b;
      RunsCompose(w, Step(w, s, a[0]), a[1..], b);
    }
  }

  lemma {:induction false} InternalRunReceives(w: Setup, s: State, run: seq<Action>)
    requires CanRun(w, s, run) && forall i :: 0 <= i < |run| ==> Internal(run[i])
    ensures Run(w, s, run).received + Run(w, s, run).queue == s.received + s.queue
    decreases |run|
  {
    if run != [] {
      assert Internal(run[0]);
      InternalRunReceives(w, Step(w, s, run[0]), run[1..]);
    }
  }

  /**
   No update is lost: after any history, once providers stop publishing, the two processes can
   only take a bounded number of steps, and when they can take no more, every message published
   has been received and the listeners hold the view of all of them.
   */
  lemma NothingIsLost(w: Setup, history: seq<Action>, rest: seq<Action>)
    requires CanRun(w, INITIAL, history)
    requires var s := Run(w, INITIAL, history); CanRun(w, s, rest)
    requires forall i :: 0 <= i < |rest| ==> Internal(rest[i])
    ensures var s := Run(w, INITIAL, history);
            var t := Run(w, s, rest);
            && |rest| <= Work(s)
            && ((forall a :: Internal(a) ==> !Enabled(t, a)) ==>
                  var goal := w.transform(Latest(s.received + s.queue));
                  Latest(s.received + s.queue) != map[] && HasRequired(w, goal) ==> t.last == goal)
  {
    var s := Run(w, INITIAL, history);
    var t := Run(w, s, rest);
    InternalRunBounded(w, s, rest);
    InternalRunReceives(w, s, rest);
    InternalStepUsesWork(w, t);
    RunsCompose(w, INITIAL, history, rest);
    QuiescentMeansConverged(w, history + rest);
    if Quiescent(t) {
      assert t.received + t.queue == t.received;
    }
  }
}
