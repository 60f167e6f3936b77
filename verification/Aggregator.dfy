/** Unions of maps that agree, one per contributor, whatever the order in which they are added. */
module Unions {

  /** `whole` holds exactly the entries of the parts of the contributors in `done`. */
  ghost predicate IsUnion<K(!new), V>(whole: map<K, V>, parts: map<string, map<K, V>>, done: set<string>) {
    && (forall p, k :: p in done && p in parts && k in parts[p] ==> k in whole && whole[k] == parts[p][k])
    && (forall k :: k in whole ==> Contributed(parts, done, k))
  }

  ghost predicate Contributed<K(!new), V>(parts: map<string, map<K, V>>, done: set<string>, k: K) {
    exists p :: p in done && p in parts && k in parts[p]
  }

  /** No key comes from two contributors. */
  ghost predicate Disjoint<K(!new), V>(parts: map<string, map<K, V>>) {
    forall p, q, k :: p in parts && q in parts && k in parts[p] && k in parts[q] ==> p == q
  }

  /** Where two contributors have the same key, they have the same value. */
  ghost predicate Agreeing<K(!new), V>(parts: map<string, map<K, V>>) {
    forall p, q, k :: p in parts && q in parts && k in parts[p] && k in parts[q] ==> parts[p][k] == parts[q][k]
  }

  lemma UnionStep<K(!new), V>(whole: map<K, V>, parts: map<string, map<K, V>>, done: set<string>, p: string)
    requires Agreeing(parts) && IsUnion(whole, parts, done) && p in parts && p !in done
    ensures IsUnion(whole + parts[p], parts, done + {p})
  {
    var next := whole + parts[p];
    forall q, k | q in done + {p} && q in parts && k in parts[q]
      ensures k in next && next[k] == parts[q][k]
    {
      if k in parts[p] { assert q in parts && k in parts[q]; }
    }
    forall k | k in next ensures Contributed(parts, done + {p}, k) {
      if k !in parts[p] {
        assert Contributed(parts, done, k);
        var q :| q in done && q in parts && k in parts[q];
        assert q in done + {p};
      }
    }
  }

  lemma UnionUpdate<K, V>(a: map<K, V>, b: map<K, V>, k: K, v: V)
    ensures (a + b)[k := v] == a + b[k := v]
  {
  }

  /** The parts determine the union. */
  lemma UnionUnique<K(!new), V>(a: map<K, V>, b: map<K, V>, parts: map<string, map<K, V>>, done: set<string>)
    requires IsUnion(a, parts, done) && IsUnion(b, parts, done)
    ensures a == b
  {
    forall k ensures k in a <==> k in b {
      if k in a { assert Contributed(parts, done, k); }
      if k in b { assert Contributed(parts, done, k); }
    }
    forall k | k in a ensures a[k] == b[k] {
      assert Contributed(parts, done, k);
    }
  }

  // ---------------------------------------------------------------------------
  // Later parts over earlier ones
  // ---------------------------------------------------------------------------

  /** The list names every member of the set once. */
  ghost predicate IsOrderOf(ps: set<string>, order: seq<string>) {
    (forall p :: p in order <==> p in ps) && forall i, j :: 0 <= i < j < |order| ==> order[i] != order[j]
  }

  /** Some order of a set. */
  lemma {:induction false} SomeOrder(ps: set<string>) returns (order: seq<string>)
    ensures IsOrderOf(ps, order)
    decreases ps
  {
    order := [];
    if p :| p in ps {
      var rest := SomeOrder(ps - {p});
      order := rest + [p];
    }
  }

  lemma OrderEndingIn(ps: set<string>, p: string) returns (order: seq<string>)
    requires p in ps
    ensures IsOrderOf(ps, order + [p])
  {
    order := SomeOrder(ps - {p});
    assert forall q :: q in order + [p] <==> q in ps;
  }

  /** The parts added one after the other, a later one over an earlier one. */
  ghost function Overlay<K, V>(parts: map<string, map<K, V>>, order: seq<string>): map<K, V> {
    if order == [] then map[]
    else
      var n := |order| - 1;
      Overlay(parts, order[..n]) + if order[n] in parts then parts[order[n]] else map[]
  }

  lemma OrderGrows(ps: set<string>, order: seq<string>, p: string)
    requires IsOrderOf(ps, order) && p !in ps
    ensures IsOrderOf(ps + {p}, order + [p])
  {
  }

  /** One more part. */
  lemma OverlayGrows<K, V>(parts: map<string, map<K, V>>, order: seq<string>, p: string, part: map<K, V>)
    requires p !in order
    ensures Overlay(parts[p := part], order + [p]) == Overlay(parts, order) + part
  {
    assert (order + [p])[..|order|] == order;
    OtherPartIgnored(parts, order, p, part);
  }

  lemma {:induction false} OtherPartIgnored<K, V>(parts: map<string, map<K, V>>, order: seq<string>, p: string, part: map<K, V>)
    requires p !in order
    ensures Overlay(parts[p := part], order) == Overlay(parts, order)
    decreases |order|
  {
    if order != [] {
      var n := |order| - 1;
      assert order[n] in order && forall x :: x in order[..n] ==> x in order;
      OtherPartIgnored(parts, order[..n], p, part);
    }
  }

  /** Parts that agree give their union, in any order. */
  lemma {:induction false} OverlayIsUnion<K(!new), V>(parts: map<string, map<K, V>>, done: set<string>, order: seq<string>)
    requires Agreeing(parts) && done <= parts.Keys && IsOrderOf(done, order)
    ensures IsUnion(Overlay(parts, order), parts, done)
    decreases |order|
  {
    if order != [] {
      var n := |order| - 1;
      var p := order[n];
      assert order == order[..n] + [p] && p in order;
      OverlayIsUnion(parts, done - {p}, order[..n]);
      UnionStep(Overlay(parts, order[..n]), parts, done - {p}, p);
      assert done - {p} + {p} == done;
    }
  }

  lemma OverlayLast<K, V>(parts: map<string, map<K, V>>, order: seq<string>, p: string, k: K)
    requires p in parts && k in parts[p]
    ensures k in Overlay(parts, order + [p]) && Overlay(parts, order + [p])[k] == parts[p][k]
  {
    assert (order + [p])[..|order|] == order;
  }

  /** Two parts that disagree: whichever comes last decides. */
  lemma DisagreementShows<K(!new), V>(parts: map<string, map<K, V>>, p: string, q: string, k: K)
    requires p in parts && q in parts && k in parts[p] && k in parts[q] && parts[p][k] != parts[q][k]
    ensures exists a, b :: IsOrderOf(parts.Keys, a) && IsOrderOf(parts.Keys, b) &&
              k in Overlay(parts, a) && k in Overlay(parts, b) && Overlay(parts, a)[k] != Overlay(parts, b)[k]
  {
    var a := OrderEndingIn(parts.Keys, p);
    var b := OrderEndingIn(parts.Keys, q);
    OverlayLast(parts, a, p, k);
    OverlayLast(parts, b, q, k);
  }

  /** The overlay is the same for every order. */
  ghost predicate OverlayOrderFree<K(!new), V(!new)>(parts: map<string, map<K, V>>) {
    forall a, b :: IsOrderOf(parts.Keys, a) && IsOrderOf(parts.Keys, b) ==> Overlay(parts, a) == Overlay(parts, b)
  }

  /** It is so exactly when the parts agree. */
  lemma OverlayOrderFreeIff<K(!new), V(!new)>(parts: map<string, map<K, V>>)
    ensures OverlayOrderFree(parts) <==> Agreeing(parts)
  {
    if Agreeing(parts) {
      forall a, b | IsOrderOf(parts.Keys, a) && IsOrderOf(parts.Keys, b) ensures Overlay(parts, a) == Overlay(parts, b) {
        OverlayIsUnion(parts, parts.Keys, a);
        OverlayIsUnion(parts, parts.Keys, b);
        UnionUnique(Overlay(parts, a), Overlay(parts, b), parts, parts.Keys);
      }
    } else {
      var p, q, k :| p in parts && q in parts && k in parts[p] && k in parts[q] && parts[p][k] != parts[q][k];
      DisagreementShows(parts, p, q, k);
    }
  }
}

/**
 The first half of pkg/server/aggregator.go: the configurations of all providers merged into one,
 each resource under its name qualified by its provider.
 */
module Aggregator {
  import opened Wrappers
  import opened Unions

  const ACME_TLS_PROTOCOL := "acme-tls/1"
  const ACME_PROVIDER := "tlsalpn.acme"

  /** What a resource holds that the merge does not look at. */
  type Body = string

  /** The default TLS options, used when no provider defines any. */
  const DEFAULT_TLS_OPTIONS: Body := "DefaultTLSOptions"

  /** None is a nil list of parents. */
  datatype Router = Router(entryPoints: seq<string>, parentRefs: Option<seq<string>>, body: Body)

  datatype Kind =
    | HttpRouters | HttpMiddlewares | HttpServices | HttpModels | HttpServersTransports
    | TcpRouters | TcpMiddlewares | TcpServices | TcpModels | TcpServersTransports
    | UdpRouters | UdpServices
    | TlsStores | TlsOptions

  datatype Resource = Http(router: Router) | Tcp(entryPoints: seq<string>, body: Body) | Other(body: Body)

  datatype Slot = Slot(kind: Kind, name: string)

  datatype CertAndStores = CertAndStores(certificate: Body, stores: seq<string>)

  /**
   One provider's configuration; a missing section is an empty one. The TLS store and the TLS
   options named "default", which stay unqualified, are kept apart from the other resources.
   */
  datatype Configuration = Configuration(
    resources: map<Slot, Resource>,
    defaultStore: Option<Body>,
    defaultOptions: Option<Body>,
    certificates: seq<CertAndStores>)

  type Configurations = map<string, Configuration>

  // ---------------------------------------------------------------------------
  // Qualified names
  // ---------------------------------------------------------------------------

  function MakeQualifiedName(provider: string, name: string): string {
    name + "@" + provider
  }

  /** Different providers never produce the same qualified name. */
  ghost predicate Unambiguous(providers: set<string>) {
    forall p, q, m, n :: p in providers && q in providers && MakeQualifiedName(p, m) == MakeQualifiedName(q, n) ==> p == q
  }

  lemma QualifiedNameInjective(provider: string, m: string, n: string)
    ensures MakeQualifiedName(provider, m) == MakeQualifiedName(provider, n) ==> m == n
  {
    var a, b := MakeQualifiedName(provider, m), MakeQualifiedName(provider, n);
    assert a[..|a| - |provider| - 1] == m && b[..|b| - |provider| - 1] == n;
  }

  /** Provider names without "@" are enough: the last "@" of a qualified name then ends the resource name. */
  lemma PlainProvidersUnambiguous(providers: set<string>)
    requires forall p :: p in providers ==> '@' !in p
    ensures Unambiguous(providers)
  {
    forall p, q, m, n | p in providers && q in providers && MakeQualifiedName(p, m) == MakeQualifiedName(q, n)
      ensures p == q
    {
      SameProvider(p, m, q, n);
      SameProvider(q, n, p, m);
      var a := MakeQualifiedName(p, m);
      assert a[|a| - |p|..] == p && a[|a| - |q|..] == q;
    }
  }

  lemma SameProvider(p: string, m: string, q: string, n: string)
    requires MakeQualifiedName(p, m) == MakeQualifiedName(q, n) && '@' !in q
    ensures |p| >= |q|
  {
    var a := MakeQualifiedName(p, m);
    assert a[|m|] == '@';
    assert forall i :: |n| < i < |a| ==> a[i] == q[i - |n| - 1];
  }

  /** A provider name with "@" can make two resources collide. */
  lemma AmbiguousProviders()
    ensures MakeQualifiedName("b@c", "a") == MakeQualifiedName("c", "a@b")
  {
  }

  /** A reference without "@" is qualified by the provider of the router that makes it. */
  function QualifiedRef(provider: string, ref: string): string {
    if '@' in ref then ref else MakeQualifiedName(provider, ref)
  }

  function QualifiedRefs(provider: string, refs: seq<string>): seq<string> {
    seq(|refs|, i requires 0 <= i < |refs| => QualifiedRef(provider, refs[i]))
  }

  // ---------------------------------------------------------------------------
  // What each provider contributes
  // ---------------------------------------------------------------------------

  /** Default entry points for root HTTP routers and TCP routers without any, and qualified parent references. */
  function Resolved(provider: string, r: Resource, defaults: seq<string>): Resource {
    match r
    case Http(router) =>
      var entryPoints := if router.entryPoints == [] && router.parentRefs.None? then defaults else router.entryPoints;
      var refs := if router.parentRefs.None? then [] else QualifiedRefs(provider, router.parentRefs.value);
      Http(router.(entryPoints := entryPoints, parentRefs := if refs == [] then None else Some(refs)))
    case Tcp(entryPoints, body) => Tcp(if entryPoints == [] then defaults else entryPoints, body)
    case Other(_) => r
  }

  function QualifiedSlot(provider: string, s: Slot): Slot {
    Slot(s.kind, MakeQualifiedName(provider, s.name))
  }

  lemma QualifiedNamesInjective(provider: string)
    ensures forall m, n :: MakeQualifiedName(provider, m) == MakeQualifiedName(provider, n) ==> m == n
  {
    forall m, n | MakeQualifiedName(provider, m) == MakeQualifiedName(provider, n) ensures m == n {
      QualifiedNameInjective(provider, m, n);
    }
  }

  /** One provider's resources, resolved, under their qualified names. */
  ghost function Contribution(provider: string, resources: map<Slot, Resource>, defaults: seq<string>): map<Slot, Resource> {
    QualifiedNamesInjective(provider);
    map s | s in resources :: QualifiedSlot(provider, s) := Resolved(provider, resources[s], defaults)
  }

  ghost function Contributions(configs: Configurations, defaults: seq<string>): map<string, map<Slot, Resource>> {
    map p | p in configs :: Contribution(p, configs[p].resources, defaults)
  }

  lemma ContributionsDisjoint(configs: Configurations, defaults: seq<string>)
    requires Unambiguous(configs.Keys)
    ensures Disjoint(Contributions(configs, defaults)) && Agreeing(Contributions(configs, defaults))
  {
    var parts := Contributions(configs, defaults);
    forall p, q, k | p in parts && q in parts && k in parts[p] && k in parts[q] ensures p == q {
      var s :| s in configs[p].resources && k == QualifiedSlot(p, s);
      var t :| t in configs[q].resources && k == QualifiedSlot(q, t);
      assert MakeQualifiedName(p, s.name) == MakeQualifiedName(q, t.name);
    }
  }

  predicate Kept(provider: string, c: CertAndStores) {
    !(ACME_TLS_PROTOCOL in c.stores && provider != ACME_PROVIDER)
  }

  function KeptOf(provider: string, cs: seq<CertAndStores>): seq<CertAndStores> {
    if cs == [] then []
    else KeptOf(provider, cs[..|cs| - 1]) + if Kept(provider, cs[|cs| - 1]) then [cs[|cs| - 1]] else []
  }

  function CountOf(c: CertAndStores, cs: seq<CertAndStores>): nat {
    if cs == [] then 0 else CountOf(c, cs[..|cs| - 1]) + if cs[|cs| - 1] == c then 1 else 0
  }

  lemma {:induction false} CountOfAppend(c: CertAndStores, a: seq<CertAndStores>, b: seq<CertAndStores>)
    ensures CountOf(c, a + b) == CountOf(c, a) + CountOf(c, b)
    decreases |b|
  {
    if b == [] {
      assert a + b == a;
    } else {
      var n := |b| - 1;
      assert (a + b)[..|a + b| - 1] == a + b[..n];
      CountOfAppend(c, a, b[..n]);
    }
  }

  /** How often a certificate is kept, over a set of providers. */
  ghost function Total(configs: Configurations, ps: set<string>, c: CertAndStores): nat
    requires ps <= configs.Keys
  {
    if ps == {} then 0
    else
      var p :| p in ps;
      CountOf(c, KeptOf(p, configs[p].certificates)) + Total(configs, ps - {p}, c)
  }

  lemma {:induction false} TotalAnyOrder(configs: Configurations, ps: set<string>, p: string, c: CertAndStores)
    requires ps <= configs.Keys && p in ps
    ensures Total(configs, ps, c) == CountOf(c, KeptOf(p, configs[p].certificates)) + Total(configs, ps - {p}, c)
    decreases ps
  {
    var q :| q in ps && Total(configs, ps, c) == CountOf(c, KeptOf(q, configs[q].certificates)) + Total(configs, ps - {q}, c);
    if p != q {
      TotalAnyOrder(configs, ps - {q}, p, c);
      TotalAnyOrder(configs, ps - {p}, q, c);
      assert ps - {q} - {p} == ps - {p} - {q};
    }
  }

  // ---------------------------------------------------------------------------
  // The merge
  // ---------------------------------------------------------------------------

  datatype Merged = Merged(
    resources: map<Slot, Resource>,
    defaultStore: Option<Body>,
    defaultOptions: Option<Body>,
    certificates: seq<CertAndStores>)

  /** One provider's resources, in any order. */
  method MergeResources(dst: map<Slot, Resource>, provider: string, resources: map<Slot, Resource>, defaults: seq<string>)
    returns (r: map<Slot, Resource>)
    ensures r == dst + Contribution(provider, resources, defaults)
  {
    r := dst;
    var todo := resources.Keys;
    assert resources - todo == map[];
    while todo != {}
      invariant todo <= resources.Keys && r == dst + Contribution(provider, resources - todo, defaults)
      decreases todo
    {
      var s :| s in todo;
      ContributionGrows(dst, provider, resources, todo, s, defaults);
      r := r[QualifiedSlot(provider, s) := Resolved(provider, resources[s], defaults)];
      todo := todo - {s};
    }
    assert resources - todo == resources;
  }

  lemma ContributionGrows(
      dst: map<Slot, Resource>, provider: string, resources: map<Slot, Resource>, todo: set<Slot>, s: Slot, defaults: seq<string>)
    requires s in todo && s in resources
    ensures dst + Contribution(provider, resources - (todo - {s}), defaults) ==
            (dst + Contribution(provider, resources - todo, defaults))
              [QualifiedSlot(provider, s) := Resolved(provider, resources[s], defaults)]
  {
    var done := resources - todo;
    assert done[s := resources[s]] == resources - (todo - {s});
    ContributionStep(provider, done, defaults, s, resources[s]);
    UnionUpdate(dst, Contribution(provider, done, defaults), QualifiedSlot(provider, s), Resolved(provider, resources[s], defaults));
  }

  lemma ContributionStep(provider: string, done: map<Slot, Resource>, defaults: seq<string>, s: Slot, v: Resource)
    requires s !in done
    ensures Contribution(provider, done[s := v], defaults)
         == Contribution(provider, done, defaults)[QualifiedSlot(provider, s) := Resolved(provider, v, defaults)]
  {
    QualifiedNamesInjective(provider);
    var a := Contribution(provider, done[s := v], defaults);
    var b := Contribution(provider, done, defaults)[QualifiedSlot(provider, s) := Resolved(provider, v, defaults)];
    forall t | t in b ensures t in a {
      if t != QualifiedSlot(provider, s) {
        var u :| u in done && t == QualifiedSlot(provider, u);
        assert u in done[s := v];
      } else {
        assert s in done[s := v];
      }
    }
    assert a.Keys == b.Keys;
  }

  /** One provider's certificates, without the ACME challenge ones of other providers. */
  method MergeCertificates(dst: seq<CertAndStores>, provider: string, certs: seq<CertAndStores>) returns (r: seq<CertAndStores>)
    ensures r == dst + KeptOf(provider, certs)
  {
    r := dst;
    for i := 0 to |certs|
      invariant r == dst + KeptOf(provider, certs[..i])
    {
      assert certs[..i + 1][..i] == certs[..i];
      if ACME_TLS_PROTOCOL in certs[i].stores && provider != ACME_PROVIDER {
        continue;
      }
      r := r + [certs[i]];
    }
    assert certs[..|certs|] == certs;
  }

  /** The providers that define the default store, or the default options. */
  ghost function Definers(configs: Configurations, options: bool): set<string> {
    set p | p in configs && Default(configs[p], options).Some?
  }

  function Default(c: Configuration, options: bool): Option<Body> {
    if options then c.defaultOptions else c.defaultStore
  }

  /** What is known of a default entry once the providers in `done` are merged. */
  ghost predicate DefaultSoFar(configs: Configurations, done: set<string>, options: bool, providers: seq<string>, value: Option<Body>) {
    && |providers| == |Definers(configs, options) * done|
    && (forall p :: p in providers ==> p in Definers(configs, options) * done)
    && (providers == [] ==> value.None?)
    && (providers != [] ==>
          var last := providers[|providers| - 1];
          last in configs && value == Default(configs[last], options))
  }

  lemma DefaultStep(configs: Configurations, done: set<string>, options: bool, providers: seq<string>, value: Option<Body>, p: string)
    requires DefaultSoFar(configs, done, options, providers, value) && p in configs && p !in done
    ensures var d := Default(configs[p], options);
            if d.Some? then DefaultSoFar(configs, done + {p}, options, providers + [p], d)
            else DefaultSoFar(configs, done + {p}, options, providers, value)
  {
    var all := Definers(configs, options);
    if Default(configs[p], options).Some? {
      assert all * (done + {p}) == all * done + {p};
    } else {
      assert all * (done + {p}) == all * done;
    }
  }

  /** The variables of the loop over providers. */
  datatype Progress = Progress(
    resources: map<Slot, Resource>,
    certificates: seq<CertAndStores>,
    store: Option<Body>,
    storeProviders: seq<string>,
    options: Option<Body>,
    optionProviders: seq<string>)

  ghost predicate MergedSoFar(configs: Configurations, defaults: seq<string>, done: set<string>, g: Progress) {
    && done <= configs.Keys
    && IsUnion(g.resources, Contributions(configs, defaults), done)
    && (forall c :: CountOf(c, g.certificates) == Total(configs, done, c))
    && DefaultSoFar(configs, done, false, g.storeProviders, g.store)
    && DefaultSoFar(configs, done, true, g.optionProviders, g.options)
  }

  /** One round of the loop over providers. */
  ghost function WithProvider(g: Progress, pvd: string, c: Configuration, defaults: seq<string>): Progress {
    Progress(
      g.resources + Contribution(pvd, c.resources, defaults),
      g.certificates + KeptOf(pvd, c.certificates),
      if c.defaultStore.Some? then c.defaultStore else g.store,
      if c.defaultStore.Some? then g.storeProviders + [pvd] else g.storeProviders,
      if c.defaultOptions.Some? then c.defaultOptions else g.options,
      if c.defaultOptions.Some? then g.optionProviders + [pvd] else g.optionProviders)
  }

  const START := Progress(map[], [], None, [], None, [])

  /** The loop over providers, for one order of visits. */
  ghost function Visited(configs: Configurations, defaults: seq<string>, order: seq<string>): Progress
    requires forall i :: 0 <= i < |order| ==> order[i] in configs
  {
    if order == [] then START
    else
      var n := |order| - 1;
      WithProvider(Visited(configs, defaults, order[..n]), order[n], configs[order[n]], defaults)
  }

  method MergeProvider(g: Progress, pvd: string, c: Configuration, defaultEntryPoints: seq<string>) returns (r: Progress)
    ensures r == WithProvider(g, pvd, c, defaultEntryPoints)
  {
    var resources := MergeResources(g.resources, pvd, c.resources, defaultEntryPoints);
    var certificates := MergeCertificates(g.certificates, pvd, c.certificates);
    r := g.(resources := resources, certificates := certificates);
    if c.defaultStore.Some? {
      r := r.(store := c.defaultStore, storeProviders := r.storeProviders + [pvd]);
    }
    if c.defaultOptions.Some? {
      r := r.(options := c.defaultOptions, optionProviders := r.optionProviders + [pvd]);
    }
  }

  lemma ProviderMerged(configs: Configurations, defaults: seq<string>, pvd: string, g: Progress, done: set<string>)
    requires Agreeing(Contributions(configs, defaults)) && MergedSoFar(configs, defaults, done, g) && pvd in configs && pvd !in done
    ensures MergedSoFar(configs, defaults, done + {pvd}, WithProvider(g, pvd, configs[pvd], defaults))
  {
    UnionStep(g.resources, Contributions(configs, defaults), done, pvd);
    CertificatesStep(configs, done, pvd, g.certificates);
    DefaultStep(configs, done, false, g.storeProviders, g.store, pvd);
    DefaultStep(configs, done, true, g.optionProviders, g.options, pvd);
  }

  /** Any order of visits without repetition merges exactly the providers visited. */
  lemma {:induction false} VisitedIsMerged(configs: Configurations, defaults: seq<string>, order: seq<string>)
    requires Agreeing(Contributions(configs, defaults))
    requires forall i :: 0 <= i < |order| ==> order[i] in configs
    requires forall i, j :: 0 <= i < j < |order| ==> order[i] != order[j]
    ensures MergedSoFar(configs, defaults, Elements(order), Visited(configs, defaults, order))
    decreases |order|
  {
    if order == [] {
      NothingMerged(configs, defaults);
    } else {
      var n := |order| - 1;
      VisitedIsMerged(configs, defaults, order[..n]);
      ElementsIn(order[..n]);
      ProviderMerged(configs, defaults, order[n], Visited(configs, defaults, order[..n]), Elements(order[..n]));
    }
  }

  ghost function Elements(order: seq<string>): set<string> {
    if order == [] then {} else Elements(order[..|order| - 1]) + {order[|order| - 1]}
  }

  lemma {:induction false} ElementsIn(order: seq<string>)
    ensures forall p :: p in Elements(order) <==> p in order
    decreases |order|
  {
    if order != [] {
      var n := |order| - 1;
      ElementsIn(order[..n]);
      assert order == order[..n] + [order[n]];
    }
  }

  /** What the merge promises, whatever the order in which providers and resources are visited. */
  ghost predicate IsMerge(configs: Configurations, defaults: seq<string>, conf: Merged) {
    && IsUnion(conf.resources, Contributions(configs, defaults), configs.Keys)
    && (forall c :: CountOf(c, conf.certificates) == Total(configs, configs.Keys, c))
    && conf.defaultStore == OnlyDefault(configs, false)
    && conf.defaultOptions == if Definers(configs, true) == {} then Some(DEFAULT_TLS_OPTIONS) else OnlyDefault(configs, true)
  }

  /** The default entry of the only provider that defines one. */
  ghost function OnlyDefault(configs: Configurations, options: bool): Option<Body> {
    if p :| Definers(configs, options) == {p} then Default(configs[p], options) else None
  }

  /** An order in which the loop may visit the providers. */
  ghost predicate IsOrder(configs: Configurations, order: seq<string>) {
    IsOrderOf(configs.Keys, order)
  }

  /** The result for one order of visits. */
  ghost function MergedIn(configs: Configurations, defaults: seq<string>, order: seq<string>): Merged
    requires IsOrder(configs, order)
  {
    assert forall i :: 0 <= i < |order| ==> order[i] in order;
    Finish(Visited(configs, defaults, order))
  }

  lemma MergedInIsMerge(configs: Configurations, defaults: seq<string>, order: seq<string>)
    requires IsOrder(configs, order) && Agreeing(Contributions(configs, defaults))
    ensures IsMerge(configs, defaults, MergedIn(configs, defaults, order))
  {
    assert forall i :: 0 <= i < |order| ==> order[i] in order;
    ElementsIn(order);
    assert Elements(order) == configs.Keys;
    VisitedIsMerged(configs, defaults, order);
    AllMerged(configs, defaults, Visited(configs, defaults, order));
  }

  /**
   The merge of all providers, visited in any order, with the resources of each in any order. Where providers
   that qualify to the same name agree: resources are the union of the contributions, certificates are
   determined as a multiset, and a default store or default options defined by several providers are dropped.
   */
  method MergeConfiguration(configs: Configurations, defaultEntryPoints: seq<string>) returns (conf: Merged)
    ensures exists order :: IsOrder(configs, order) && conf == MergedIn(configs, defaultEntryPoints, order)
    ensures Agreeing(Contributions(configs, defaultEntryPoints)) ==> IsMerge(configs, defaultEntryPoints, conf)
  {
    var g := START;
    var todo := configs.Keys;
    ghost var order: seq<string> := [];
    while todo != {}
      invariant todo <= configs.Keys
      invariant forall p :: p in order <==> p in configs && p !in todo
      invariant forall i, j :: 0 <= i < j < |order| ==> order[i] != order[j]
      invariant g == Visited(configs, defaultEntryPoints, order)
      decreases todo
    {
      var pvd :| pvd in todo;
      g := MergeProvider(g, pvd, configs[pvd], defaultEntryPoints);
      todo := todo - {pvd};
      assert (order + [pvd])[..|order|] == order;
      order := order + [pvd];
    }
    conf := Finish(g);
    assert IsOrder(configs, order) && conf == MergedIn(configs, defaultEntryPoints, order);
    if Agreeing(Contributions(configs, defaultEntryPoints)) {
      MergedInIsMerge(configs, defaultEntryPoints, order);
    }
  }

  /** A default entry defined by several providers is dropped; missing default options get the built-in ones. */
  function Finish(g: Progress): Merged {
    Merged(
      g.resources,
      if |g.storeProviders| > 1 then None else g.store,
      if |g.optionProviders| == 0 then Some(DEFAULT_TLS_OPTIONS) else if |g.optionProviders| > 1 then None else g.options,
      g.certificates)
  }

  lemma NothingMerged(configs: Configurations, defaults: seq<string>)
    ensures MergedSoFar(configs, defaults, {}, START)
  {
  }

  lemma AllMerged(configs: Configurations, defaults: seq<string>, g: Progress)
    requires MergedSoFar(configs, defaults, configs.Keys, g)
    ensures IsMerge(configs, defaults, Finish(g))
  {
    DefaultFinal(configs, false, g.storeProviders, g.store);
    DefaultFinal(configs, true, g.optionProviders, g.options);
  }

  lemma CertificatesStep(configs: Configurations, done: set<string>, p: string, certs: seq<CertAndStores>)
    requires done <= configs.Keys && p in configs && p !in done
    requires forall c :: CountOf(c, certs) == Total(configs, done, c)
    ensures forall c :: CountOf(c, certs + KeptOf(p, configs[p].certificates)) == Total(configs, done + {p}, c)
  {
    forall c ensures CountOf(c, certs + KeptOf(p, configs[p].certificates)) == Total(configs, done + {p}, c) {
      CountOfAppend(c, certs, KeptOf(p, configs[p].certificates));
      TotalAnyOrder(configs, done + {p}, p, c);
      assert done + {p} - {p} == done;
    }
  }

  lemma DefaultFinal(configs: Configurations, options: bool, providers: seq<string>, value: Option<Body>)
    requires DefaultSoFar(configs, configs.Keys, options, providers, value)
    ensures OnlyDefault(configs, options) == if |providers| == 1 then value else None
    ensures providers == [] ==> value == None && Definers(configs, options) == {}
    ensures providers != [] ==> Definers(configs, options) != {}
  {
    var all := Definers(configs, options);
    assert all * configs.Keys == all;
    if providers != [] {
      var last := providers[|providers| - 1];
      assert last in all;
      if |providers| == 1 {
        assert |all - {last}| == 0;
        assert all == {last};
      }
    }
  }

  /** Default options exist if and only if at most one provider defines them; a default store if and only if exactly one does. */
  lemma DefaultsExist(configs: Configurations, defaults: seq<string>, conf: Merged)
    requires IsMerge(configs, defaults, conf)
    ensures conf.defaultOptions.Some? <==> |Definers(configs, true)| <= 1
    ensures conf.defaultStore.Some? <==> |Definers(configs, false)| == 1
  {
    OnlyDefaultExists(configs, true);
    OnlyDefaultExists(configs, false);
  }

  lemma OnlyDefaultExists(configs: Configurations, options: bool)
    ensures OnlyDefault(configs, options).Some? <==> |Definers(configs, options)| == 1
  {
    var all := Definers(configs, options);
    if |all| == 1 {
      var p :| p in all;
      assert |all - {p}| == 0;
      assert all == {p};
    }
  }

  /** Two merges of the same configurations agree on everything but the order of the certificates. */
  lemma MergeIsOrderIndependent(configs: Configurations, defaults: seq<string>, a: Merged, b: Merged)
    requires IsMerge(configs, defaults, a) && IsMerge(configs, defaults, b)
    ensures SameMerge(a, b)
  {
    UnionUnique(a.resources, b.resources, Contributions(configs, defaults), configs.Keys);
    forall c ensures multiset(a.certificates)[c] == multiset(b.certificates)[c] {
      CountOfIsMultiset(c, a.certificates);
      CountOfIsMultiset(c, b.certificates);
    }
  }

  /** Two results that differ at most in the order of the certificates. */
  ghost predicate SameMerge(a: Merged, b: Merged) {
    a.(certificates := []) == b.(certificates := []) && multiset(a.certificates) == multiset(b.certificates)
  }

  /** The result is the same for every order of visits. */
  ghost predicate OrderFree(configs: Configurations, defaults: seq<string>) {
    forall a, b :: IsOrder(configs, a) && IsOrder(configs, b) ==>
      SameMerge(MergedIn(configs, defaults, a), MergedIn(configs, defaults, b))
  }

  lemma {:induction false} VisitedResources(configs: Configurations, defaults: seq<string>, order: seq<string>)
    requires forall i :: 0 <= i < |order| ==> order[i] in configs
    ensures Visited(configs, defaults, order).resources == Overlay(Contributions(configs, defaults), order)
    decreases |order|
  {
    if order != [] {
      VisitedResources(configs, defaults, order[..|order| - 1]);
    }
  }

  lemma MergedInResources(configs: Configurations, defaults: seq<string>, order: seq<string>)
    requires IsOrder(configs, order)
    ensures MergedIn(configs, defaults, order).resources == Overlay(Contributions(configs, defaults), order)
  {
    assert forall i :: 0 <= i < |order| ==> order[i] in order;
    VisitedResources(configs, defaults, order);
  }

  lemma ResourcesOrderFree(configs: Configurations, defaults: seq<string>)
    requires OrderFree(configs, defaults)
    ensures OverlayOrderFree(Contributions(configs, defaults))
  {
    var parts := Contributions(configs, defaults);
    assert parts.Keys == configs.Keys;
    forall a, b | IsOrderOf(parts.Keys, a) && IsOrderOf(parts.Keys, b) ensures Overlay(parts, a) == Overlay(parts, b) {
      assert IsOrder(configs, a) && IsOrder(configs, b);
      MergedInResources(configs, defaults, a);
      MergedInResources(configs, defaults, b);
      assert SameMerge(MergedIn(configs, defaults, a), MergedIn(configs, defaults, b));
    }
  }

  lemma AgreeingIsOrderFree(configs: Configurations, defaults: seq<string>)
    requires Agreeing(Contributions(configs, defaults))
    ensures OrderFree(configs, defaults)
  {
    forall a, b | IsOrder(configs, a) && IsOrder(configs, b)
      ensures SameMerge(MergedIn(configs, defaults, a), MergedIn(configs, defaults, b))
    {
      MergedInIsMerge(configs, defaults, a);
      MergedInIsMerge(configs, defaults, b);
      MergeIsOrderIndependent(configs, defaults, MergedIn(configs, defaults, a), MergedIn(configs, defaults, b));
    }
  }

  /**
   The merge is the same for every order of visits if and only if providers that qualify to the same name
   agree on the resource.
   */
  lemma OrderFreeIffAgreeing(configs: Configurations, defaults: seq<string>)
    ensures OrderFree(configs, defaults) <==> Agreeing(Contributions(configs, defaults))
  {
    if Agreeing(Contributions(configs, defaults)) {
      AgreeingIsOrderFree(configs, defaults);
    }
    if OrderFree(configs, defaults) {
      ResourcesOrderFree(configs, defaults);
      OverlayOrderFreeIff(Contributions(configs, defaults));
    }
  }

  /** Provider names without "@" are enough. */
  lemma PlainProvidersOrderFree(configs: Configurations, defaults: seq<string>)
    requires forall p :: p in configs ==> '@' !in p
    ensures OrderFree(configs, defaults)
  {
    PlainProvidersUnambiguous(configs.Keys);
    ContributionsDisjoint(configs, defaults);
    OrderFreeIffAgreeing(configs, defaults);
  }

  lemma {:induction false} CountOfIsMultiset(c: CertAndStores, cs: seq<CertAndStores>)
    ensures CountOf(c, cs) == multiset(cs)[c]
    decreases |cs|
  {
    if cs != [] {
      var n := |cs| - 1;
      CountOfIsMultiset(c, cs[..n]);
      assert cs == cs[..n] + [cs[n]];
      assert multiset(cs) == multiset(cs[..n]) + multiset{cs[n]};
    }
  }
}
