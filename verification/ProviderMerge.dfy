/**
 pkg/provider/merge.go with the Merge methods of pkg/config/dynamic/http_config.go: several
 configurations of one provider merged into one, with conflicting definitions removed.
 */
module ProviderMerge {
  import opened Wrappers

  datatype Server = Server(url: string, options: string)

  /** A service with a load balancer, or anything that must be equal to be merged; nil is a `Fixed`. */
  datatype Resource =
    | Balanced(settings: string, others: string, servers: seq<Server>)
    | Fixed(body: string)

  /** The place of a resource: which map of which section, and its key. */
  datatype Slot = Slot(kind: string, name: string)

  type Resources = map<Slot, Resource>

  datatype CertAndStores = CertAndStores(certificate: string, stores: seq<string>)

  datatype Configuration = Configuration(resources: Resources, certificates: seq<CertAndStores>)

  datatype Strategy = Merging | SkipDuplicates

  // ---------------------------------------------------------------------------
  // Load balancers, merged in place
  // ---------------------------------------------------------------------------

  function Urls(servers: seq<Server>): set<string> {
    set s | s in servers :: s.url
  }

  /** The servers of `other` whose URL is not known; several of them may share one URL. */
  function NewServers(known: set<string>, other: seq<Server>): seq<Server> {
    if other == [] then []
    else
      var last := other[|other| - 1];
      NewServers(known, other[..|other| - 1]) + if last.url in known then [] else [last]
  }

  /** The servers after a merge, in place or on values. */
  function MergedServers(servers: seq<Server>, other: seq<Server>): seq<Server> {
    servers + NewServers(Urls(servers), other)
  }

  lemma {:induction false} NewServersUrls(known: set<string>, other: seq<Server>)
    ensures forall u :: u in Urls(NewServers(known, other)) <==> u in Urls(other) && u !in known
    decreases |other|
  {
    if other != [] {
      var n := |other| - 1;
      NewServersUrls(known, other[..n]);
      assert other == other[..n] + [other[n]];
      UrlsAppend(other[..n], [other[n]]);
      UrlsAppend(NewServers(known, other[..n]), if other[n].url in known then [] else [other[n]]);
      assert forall u :: u in Urls([other[n]]) <==> u == other[n].url by { assert other[n] in [other[n]]; }
    }
  }

  lemma UrlsAppend(a: seq<Server>, b: seq<Server>)
    ensures Urls(a + b) == Urls(a) + Urls(b)
  {
  }

  /** All other settings of a load balancer are its `settings`. */
  class ServersLoadBalancer {
    var servers: seq<Server>
    const settings: string

    constructor (servers: seq<Server>, settings: string)
      ensures this.servers == servers && this.settings == settings
    {
      this.servers := servers;
      this.settings := settings;
    }

    /** Compares everything but the servers, which are cleared for the comparison and then put back. */
    method Mergeable(other: ServersLoadBalancer) returns (r: bool)
      modifies this`servers, other`servers
      ensures r <==> settings == other.settings
      ensures servers == old(servers) && other.servers == old(other.servers)
    {
      var savedServers := servers;
      servers := [];
      var savedServersLB := other.servers;
      other.servers := [];
      r := settings == other.settings && servers == other.servers;
      other.servers := savedServersLB;
      servers := savedServers;
    }

    /** Adds the servers of a compatible balancer that are not there yet; an incompatible one changes nothing. */
    method Merge(other: ServersLoadBalancer) returns (r: bool)
      modifies this`servers, other`servers
      ensures r <==> settings == other.settings
      ensures servers == if r then MergedServers(old(servers), old(other.servers)) else old(servers)
      ensures other != this ==> other.servers == old(other.servers)
      ensures r ==> Urls(servers) == Urls(old(servers)) + Urls(old(other.servers))
    {
      r := Mergeable(other);
      if r {
        NewServersUrls(Urls(servers), other.servers);
        UrlsAppend(servers, NewServers(Urls(servers), other.servers));
        AppendNew(other.servers);
      }
    }

    /** Appends the servers whose URL is not among those at the start. */
    method AppendNew(added: seq<Server>)
      modifies this`servers
      ensures servers == MergedServers(old(servers), added)
    {
      var uniq := set s | s in servers :: s.url;
      for i := 0 to |added|
        invariant servers == MergedServers(old(servers), added[..i])
      {
        assert added[..i + 1][..i] == added[..i];
        if added[i].url !in uniq {
          servers := servers + [added[i]];
        }
      }
      assert added[..|added|] == added;
    }
  }

  // ---------------------------------------------------------------------------
  // Merging two definitions
  // ---------------------------------------------------------------------------

  /** The merge of a definition into an existing one, or None for a conflict. */
  function TryMerge(dst: Resource, src: Resource): Option<Resource> {
    if dst.Balanced? && src.Balanced? then
      if dst.settings == src.settings
      then Some(dst.(servers := MergedServers(dst.servers, src.servers)))
      else None
    else if dst == src then Some(dst) else None
  }

  /** Definitions that merge, whatever their servers. */
  predicate Compatible(a: Resource, b: Resource) {
    if a.Balanced? && b.Balanced? then a.settings == b.settings else a == b
  }

  function ServerUrls(r: Resource): set<string> {
    if r.Balanced? then Urls(r.servers) else {}
  }

  lemma TryMergeMerges(dst: Resource, src: Resource)
    ensures TryMerge(dst, src).Some? <==> Compatible(dst, src)
    ensures Compatible(dst, src) ==>
              var m := TryMerge(dst, src).value;
              ServerUrls(m) == ServerUrls(dst) + ServerUrls(src) && forall r :: Compatible(m, r) <==> Compatible(dst, r)
  {
    if dst.Balanced? && src.Balanced? {
      NewServersUrls(Urls(dst.servers), src.servers);
      UrlsAppend(dst.servers, NewServers(Urls(dst.servers), src.servers));
    }
  }

  // ---------------------------------------------------------------------------
  // Merging maps and lists of configurations
  // ---------------------------------------------------------------------------

  /** A map being filled, with the slots marked for deletion. */
  datatype Merged = Merged(resources: Resources, toDelete: set<Slot>)

  function Lookup(m: Resources, k: Slot): Option<Resource> {
    if k in m then Some(m[k]) else None
  }

  /** What a slot holds after one more definition of it. */
  function Kept(strategy: Strategy, existing: Option<Resource>, v: Resource): Resource {
    match existing
    case None => v
    case Some(d) => if strategy.Merging? && TryMerge(d, v).Some? then TryMerge(d, v).value else d
  }

  /** Whether one more definition conflicts with what the slot holds. */
  predicate Clashes(strategy: Strategy, existing: Option<Resource>, v: Resource) {
    strategy.Merging? && existing.Some? && TryMerge(existing.value, v).None?
  }

  /** The resources after a whole source map, every slot on its own. */
  function KeptAll(strategy: Strategy, dst: Resources, src: Resources): Resources {
    dst + map k | k in src :: Kept(strategy, Lookup(dst, k), src[k])
  }

  function Conflicts(strategy: Strategy, dst: Resources, src: Resources): set<Slot> {
    set k | k in src && Clashes(strategy, Lookup(dst, k), src[k])
  }

  /** One slot of a source map, in place. */
  method Define(strategy: Strategy, m: Merged, k: Slot, v: Resource) returns (r: Merged)
    ensures r.resources == m.resources[k := Kept(strategy, Lookup(m.resources, k), v)]
    ensures r.toDelete == m.toDelete + if Clashes(strategy, Lookup(m.resources, k), v) then {k} else {}
  {
    r := m;
    if k !in m.resources {
      r := r.(resources := m.resources[k := v]);
      return;
    }
    match strategy
    case Merging =>
      var merged := TryMerge(m.resources[k], v);
      if merged.Some? {
        r := r.(resources := m.resources[k := merged.value]);
      } else {
        r := r.(toDelete := m.toDelete + {k});
      }
    case SkipDuplicates =>
  }

  /** The order in which the slots of one source map are visited does not matter. */
  lemma KeptNext(strategy: Strategy, dst: Resources, done: Resources, k: Slot, v: Resource)
    requires k !in done
    ensures Lookup(KeptAll(strategy, dst, done), k) == Lookup(dst, k)
    ensures KeptAll(strategy, dst, done[k := v]) == KeptAll(strategy, dst, done)[k := Kept(strategy, Lookup(dst, k), v)]
  {
  }

  lemma ConflictsNext(strategy: Strategy, dst: Resources, done: Resources, k: Slot, v: Resource)
    requires k !in done
    ensures Conflicts(strategy, dst, done[k := v]) ==
            Conflicts(strategy, dst, done) + if Clashes(strategy, Lookup(dst, k), v) then {k} else {}
  {
  }

  lemma RestNext(src: Resources, todo: set<Slot>, k: Slot)
    requires k in todo && k in src
    ensures k !in src - todo && (src - todo)[k := src[k]] == src - (todo - {k})
  {
  }

  method MergeResourceMap(strategy: Strategy, m: Merged, src: Resources) returns (r: Merged)
    ensures r.resources == KeptAll(strategy, m.resources, src)
    ensures r.toDelete == m.toDelete + Conflicts(strategy, m.resources, src)
  {
    r := m;
    var todo := src.Keys;
    assert src - todo == map[];
    while todo != {}
      invariant todo <= src.Keys
      invariant r.resources == KeptAll(strategy, m.resources, src - todo)
      invariant r.toDelete == m.toDelete + Conflicts(strategy, m.resources, src - todo)
      decreases todo
    {
      var k :| k in todo;
      RestNext(src, todo, k);
      KeptNext(strategy, m.resources, src - todo, k, src[k]);
      ConflictsNext(strategy, m.resources, src - todo, k, src[k]);
      r := Define(strategy, r, k, src[k]);
      todo := todo - {k};
    }
    assert src - todo == src;
  }

  /** What a list of source maps leaves, in the order given. */
  function MergedOf(strategy: Strategy, sources: seq<Resources>): Merged {
    if sources == [] then Merged(map[], {})
    else
      var m := MergedOf(strategy, sources[..|sources| - 1]);
      var src := sources[|sources| - 1];
      Merged(KeptAll(strategy, m.resources, src), m.toDelete + Conflicts(strategy, m.resources, src))
  }

  /** What is left once conflicts are deleted. */
  function Survivors(m: Merged): Resources {
    m.resources - m.toDelete
  }

  // ---------------------------------------------------------------------------
  // The result does not depend on the order
  // ---------------------------------------------------------------------------

  /** All definitions of a slot, in order. */
  function Definitions(sources: seq<Resources>, k: Slot): seq<Resource> {
    if sources == [] then []
    else
      var last := sources[|sources| - 1];
      Definitions(sources[..|sources| - 1], k) + if k in last then [last[k]] else []
  }

  /** All definitions of a slot merge with each other. */
  ghost predicate Agreed(definitions: seq<Resource>) {
    forall a, b :: a in definitions && b in definitions ==> Compatible(a, b)
  }

  function UrlsOf(definitions: seq<Resource>): set<string> {
    set v, u | v in definitions && u in ServerUrls(v) :: u
  }

  lemma CompatibleIsEquivalence(a: Resource, b: Resource, c: Resource)
    ensures Compatible(a, a)
    ensures Compatible(a, b) ==> Compatible(b, a)
    ensures Compatible(a, b) && Compatible(b, c) ==> Compatible(a, c)
  {
  }

  lemma OneMoreAgrees(definitions: seq<Resource>, v: Resource)
    requires definitions != []
    ensures Agreed(definitions + [v]) <==> Agreed(definitions) && Compatible(definitions[0], v)
  {
    var all := definitions + [v];
    if Agreed(all) {
      assert definitions[0] in all && v in all;
      forall a, b | a in definitions && b in definitions ensures Compatible(a, b) {
        assert a in all && b in all;
      }
    }
    if Agreed(definitions) && Compatible(definitions[0], v) {
      forall a, b | a in all && b in all ensures Compatible(a, b) {
        AllLikeFirst(definitions, v, a);
        AllLikeFirst(definitions, v, b);
        CompatibleIsEquivalence(definitions[0], a, b);
        CompatibleIsEquivalence(a, definitions[0], b);
      }
    }
  }

  lemma AllLikeFirst(definitions: seq<Resource>, v: Resource, a: Resource)
    requires definitions != [] && Agreed(definitions) && Compatible(definitions[0], v)
    requires a in definitions + [v]
    ensures Compatible(definitions[0], a)
  {
  }

  lemma UrlsOfAppend(definitions: seq<Resource>, v: Resource)
    ensures UrlsOf(definitions + [v]) == UrlsOf(definitions) + ServerUrls(v)
  {
  }

  /** The state of one slot in terms of its definitions. */
  ghost predicate SlotOk(definitions: seq<Resource>, m: Merged, k: Slot) {
    && (k in m.resources <==> definitions != [])
    && (k in m.toDelete <==> !Agreed(definitions))
    && (definitions != [] ==> Compatible(definitions[0], m.resources[k]))
    && (definitions != [] && Agreed(definitions) ==> ServerUrls(m.resources[k]) == UrlsOf(definitions))
  }

  lemma SlotStep(definitions: seq<Resource>, m: Merged, src: Resources, k: Slot)
    requires SlotOk(definitions, m, k) && k in src
    ensures SlotOk(
              definitions + [src[k]],
              Merged(KeptAll(Merging, m.resources, src), m.toDelete + Conflicts(Merging, m.resources, src)),
              k)
  {
    var v := src[k];
    UrlsOfAppend(definitions, v);
    if definitions != [] {
      var d := m.resources[k];
      TryMergeMerges(d, v);
      OneMoreAgrees(definitions, v);
      CompatibleIsEquivalence(definitions[0], d, v);
      CompatibleIsEquivalence(d, definitions[0], v);
    }
  }

  lemma {:induction false} SlotsOk(sources: seq<Resources>, k: Slot)
    ensures SlotOk(Definitions(sources, k), MergedOf(Merging, sources), k)
    decreases |sources|
  {
    if sources != [] {
      var n := |sources| - 1;
      SlotsOk(sources[..n], k);
      if k in sources[n] {
        SlotStep(Definitions(sources[..n], k), MergedOf(Merging, sources[..n]), sources[n], k);
      } else {
        assert Definitions(sources, k) == Definitions(sources[..n], k);
      }
    }
  }

  /**
   A slot survives exactly when something defines it and all its definitions merge with each
   other; its servers then have the URLs of all definitions together.
   */
  lemma SurvivorsAreAgreed(sources: seq<Resources>, k: Slot)
    ensures var r := Survivors(MergedOf(Merging, sources));
            var d := Definitions(sources, k);
            && (k in r <==> d != [] && Agreed(d))
            && (k in r ==> ServerUrls(r[k]) == UrlsOf(d) && forall v :: v in d ==> Compatible(v, r[k]))
  {
    SlotsOk(sources, k);
    var m := MergedOf(Merging, sources);
    var d := Definitions(sources, k);
    if k in Survivors(m) {
      forall v | v in d ensures Compatible(v, m.resources[k]) {
        assert d[0] in d;
        CompatibleIsEquivalence(v, d[0], m.resources[k]);
      }
    }
  }

  lemma {:induction false} DefinitionsIn(sources: seq<Resources>, k: Slot, v: Resource)
    ensures v in Definitions(sources, k) <==> exists src :: src in sources && k in src && src[k] == v
    decreases |sources|
  {
    if sources != [] {
      var n := |sources| - 1;
      DefinitionsIn(sources[..n], k, v);
      assert sources == sources[..n] + [sources[n]];
      assert forall src :: src in sources <==> src in sources[..n] || src == sources[n];
    }
  }

  ghost predicate SameSources(a: seq<Resources>, b: seq<Resources>) {
    forall src :: src in a <==> src in b
  }

  lemma SameDefinitions(a: seq<Resources>, b: seq<Resources>, k: Slot, v: Resource)
    requires SameSources(a, b)
    ensures v in Definitions(a, k) <==> v in Definitions(b, k)
  {
    DefinitionsIn(a, k, v);
    DefinitionsIn(b, k, v);
  }

  /** Under the merge strategy the source maps can come in any order, any number of times. */
  lemma SlotIsOrderIndependent(a: seq<Resources>, b: seq<Resources>, k: Slot)
    requires SameSources(a, b)
    ensures var ra := Survivors(MergedOf(Merging, a));
            var rb := Survivors(MergedOf(Merging, b));
            && (k in ra <==> k in rb)
            && (k in ra ==> ServerUrls(ra[k]) == ServerUrls(rb[k]) && Compatible(ra[k], rb[k]))
  {
    forall v ensures v in Definitions(a, k) <==> v in Definitions(b, k) {
      SameDefinitions(a, b, k, v);
    }
    var da, db := Definitions(a, k), Definitions(b, k);
    assert UrlsOf(da) == UrlsOf(db);
    EmptyAlike(da, db);
    EmptyAlike(db, da);
    SurvivorsAreAgreed(a, k);
    SurvivorsAreAgreed(b, k);
    if k in Survivors(MergedOf(Merging, a)) {
      var v := da[0];
      assert v in da && v in db;
      var ra, rb := Survivors(MergedOf(Merging, a))[k], Survivors(MergedOf(Merging, b))[k];
      CompatibleIsEquivalence(v, ra, rb);
      CompatibleIsEquivalence(ra, v, rb);
    }
  }

  lemma EmptyAlike(a: seq<Resource>, b: seq<Resource>)
    requires forall v :: v in a ==> v in b
    ensures a != [] ==> b != []
  {
    if a != [] {
      assert a[0] in b;
    }
  }

  /** Skipping duplicates keeps the first definition of every slot and deletes nothing. */
  lemma {:induction false} FirstWins(sources: seq<Resources>, k: Slot)
    ensures var r := Survivors(MergedOf(SkipDuplicates, sources));
            var d := Definitions(sources, k);
            Lookup(r, k) == if d == [] then None else Some(d[0])
    ensures MergedOf(SkipDuplicates, sources).toDelete == {}
    decreases |sources|
  {
    if sources != [] {
      FirstWins(sources[..|sources| - 1], k);
    }
  }

  // ---------------------------------------------------------------------------
  // Certificates
  // ---------------------------------------------------------------------------

  function Elements(s: seq<string>): set<string> {
    set x | x in s
  }

  predicate Distinct(s: seq<string>) {
    forall i, j :: 0 <= i < j < |s| ==> s[i] != s[j]
  }

  /** The union of two lists of stores: the first as it is, then what the second adds, once. */
  method MergeStores(existing: seq<string>, other: seq<string>) returns (r: seq<string>)
    ensures existing <= r
    ensures Elements(r) == Elements(existing) + Elements(other)
    ensures Distinct(existing) ==> Distinct(r)
  {
    var seen := set s | s in existing;
    r := existing;
    for i := 0 to |other|
      invariant existing <= r && seen == Elements(r)
      invariant Elements(r) == Elements(existing) + Elements(other[..i])
      invariant Distinct(existing) ==> Distinct(r)
    {
      assert other[..i + 1] == other[..i] + [other[i]];
      if other[i] !in seen {
        r := r + [other[i]];
        seen := seen + {other[i]};
      }
    }
    assert other[..|other|] == other;
  }

  /** Which certificate belongs to which store. */
  function Belongs(certs: seq<CertAndStores>): set<(string, string)> {
    set c, s | c in certs && s in c.stores :: (c.certificate, s)
  }

  function Names(certs: seq<CertAndStores>): set<string> {
    set c | c in certs :: c.certificate
  }

  lemma BelongsAppend(certs: seq<CertAndStores>, c: CertAndStores)
    ensures Belongs(certs + [c]) == Belongs(certs) + Belongs([c])
    ensures Names(certs + [c]) == Names(certs) + {c.certificate}
  {
  }

  /** Stores added to one certificate of a list. */
  lemma BelongsUpdate(certs: seq<CertAndStores>, j: nat, stores: seq<string>, other: CertAndStores)
    requires j < |certs| && certs[j].certificate == other.certificate
    requires Elements(stores) == Elements(certs[j].stores) + Elements(other.stores)
    ensures Belongs(certs[j := certs[j].(stores := stores)]) == Belongs(certs) + Belongs([other])
    ensures Names(certs[j := certs[j].(stores := stores)]) == Names(certs)
  {
    var was, now := certs[j], certs[j].(stores := stores);
    var r := certs[j := now];
    assert forall s :: s in stores <==> s in Elements(stores);
    assert forall s :: s in was.stores <==> s in Elements(was.stores);
    assert forall s :: s in other.stores <==> s in Elements(other.stores);
    assert now in r by { assert r[j] == now; }
    assert was in certs && other in [other];
    UpdateIn(certs, j, now);
    forall p | p in Belongs(certs) + Belongs([other]) ensures p in Belongs(r) {
      if p in Belongs(certs) {
        var c, s :| c in certs && s in c.stores && p == (c.certificate, s);
        assert c in r || (c == was && s in now.stores);
      } else {
        assert p.0 == now.certificate && p.1 in now.stores;
      }
    }
    forall p | p in Belongs(r) ensures p in Belongs(certs) + Belongs([other]) {
      var c, s :| c in r && s in c.stores && p == (c.certificate, s);
      assert c in certs || (c == now && (s in was.stores || s in other.stores));
    }
  }

  lemma UpdateIn(certs: seq<CertAndStores>, j: nat, now: CertAndStores)
    requires j < |certs|
    ensures forall c :: c in certs ==> c in certs[j := now] || c == certs[j]
    ensures forall c :: c in certs[j := now] ==> c in certs || c == now
  {
    var r := certs[j := now];
    forall c | c in certs ensures c in r || c == certs[j] {
      var i :| 0 <= i < |certs| && certs[i] == c;
      assert i != j ==> r[i] == c;
    }
  }

  /** The stores given with the first mention of a certificate. */
  function FirstStores(certs: seq<CertAndStores>, name: string): Option<seq<string>> {
    if certs == [] then None
    else
      var last := certs[|certs| - 1];
      var before := FirstStores(certs[..|certs| - 1], name);
      if before.None? && last.certificate == name then Some(last.stores) else before
  }

  lemma {:induction false} FirstStoresIffNamed(certs: seq<CertAndStores>, name: string)
    ensures FirstStores(certs, name).Some? <==> name in Names(certs)
    decreases |certs|
  {
    if certs != [] {
      var n := |certs| - 1;
      FirstStoresIffNamed(certs[..n], name);
      assert certs == certs[..n] + [certs[n]];
      BelongsAppend(certs[..n], certs[n]);
    }
  }

  /** Two lists give every certificate the same stores at its first mention. */
  ghost predicate SameFirst(a: seq<CertAndStores>, b: seq<CertAndStores>) {
    forall n :: FirstStores(a, n) == FirstStores(b, n)
  }

  lemma {:induction false} SameFirstAppend(a: seq<CertAndStores>, b: seq<CertAndStores>, c: seq<CertAndStores>)
    requires SameFirst(a, b)
    ensures SameFirst(a + c, b + c)
    decreases |c|
  {
    if c == [] {
      assert a + c == a && b + c == b;
    } else {
      var m := |c| - 1;
      SameFirstAppend(a, b, c[..m]);
      assert (a + c)[..|a + c| - 1] == a + c[..m];
      assert (b + c)[..|b + c| - 1] == b + c[..m];
    }
  }

  method Find(certs: seq<CertAndStores>, name: string) returns (j: nat)
    ensures j <= |certs|
    ensures j < |certs| ==> certs[j].certificate == name
    ensures j == |certs| <==> name !in Names(certs)
  {
    j := 0;
    while j < |certs| && certs[j].certificate != name
      invariant j <= |certs|
      invariant forall i :: 0 <= i < j ==> certs[i].certificate != name
    {
      j := j + 1;
    }
    if j < |certs| {
      assert certs[j] in certs;
    }
  }

  /**
   Certificates merged into a list. Merging unites the stores; skipping duplicates keeps the
   stores of the first mention.
   */
  method MergeCertificates(strategy: Strategy, certs: seq<CertAndStores>, added: seq<CertAndStores>)
      returns (r: seq<CertAndStores>)
    ensures Names(r) == Names(certs) + Names(added)
    ensures strategy.Merging? ==> Belongs(r) == Belongs(certs) + Belongs(added)
    ensures strategy.SkipDuplicates? ==> SameFirst(r, certs + added)
  {
    r := certs;
    assert certs + added[..0] == certs;
    for i := 0 to |added|
      invariant Names(r) == Names(certs) + Names(added[..i])
      invariant strategy.Merging? ==> Belongs(r) == Belongs(certs) + Belongs(added[..i])
      invariant strategy.SkipDuplicates? ==> SameFirst(r, certs + added[..i])
    {
      assert added[..i + 1] == added[..i] + [added[i]];
      BelongsAppend(added[..i], added[i]);
      ghost var before := r;
      r := MergeCertificate(strategy, r, added[i]);
      if strategy.SkipDuplicates? {
        SameFirstAppend(before, certs + added[..i], [added[i]]);
        assert certs + added[..i + 1] == (certs + added[..i]) + [added[i]];
      }
    }
    assert added[..|added|] == added;
  }

  method MergeCertificate(strategy: Strategy, certs: seq<CertAndStores>, c: CertAndStores)
      returns (r: seq<CertAndStores>)
    ensures Names(r) == Names(certs) + {c.certificate}
    ensures strategy.Merging? ==> Belongs(r) == Belongs(certs) + Belongs([c])
    ensures strategy.SkipDuplicates? ==> SameFirst(r, certs + [c])
  {
    r := certs;
    var j := Find(certs, c.certificate);
    if j == |certs| {
      BelongsAppend(certs, c);
      r := certs + [c];
    } else if strategy.Merging? {
      var stores := MergeStores(certs[j].stores, c.stores);
      BelongsUpdate(certs, j, stores, c);
      r := certs[j := certs[j].(stores := stores)];
    } else {
      forall n ensures FirstStores(certs, n) == FirstStores(certs + [c], n) {
        FirstStoresIffNamed(certs, n);
        assert (certs + [c])[..|certs|] == certs;
      }
    }
  }

  // ---------------------------------------------------------------------------
  // The whole merge
  // ---------------------------------------------------------------------------

  function SourcesOf(configs: seq<Configuration>): seq<Resources> {
    if configs == [] then []
    else SourcesOf(configs[..|configs| - 1]) + [configs[|configs| - 1].resources]
  }

  function CertificatesOf(configs: seq<Configuration>): seq<CertAndStores> {
    if configs == [] then []
    else CertificatesOf(configs[..|configs| - 1]) + configs[|configs| - 1].certificates
  }

  /** Which certificate belongs to which store, by any of the configurations. */
  function BelongsOf(configs: seq<Configuration>): set<(string, string)> {
    set c, p | c in configs && p in Belongs(c.certificates) :: p
  }

  lemma BelongsOfAppend(configs: seq<Configuration>, c: Configuration)
    ensures BelongsOf(configs + [c]) == BelongsOf(configs) + Belongs(c.certificates)
  {
  }

  function NamesOf(configs: seq<Configuration>): set<string> {
    set c, n | c in configs && n in Names(c.certificates) :: n
  }

  lemma NamesOfAppend(configs: seq<Configuration>, c: Configuration)
    ensures NamesOf(configs + [c]) == NamesOf(configs) + Names(c.certificates)
  {
    var all := configs + [c];
    assert c in all;
    forall n | n in NamesOf(configs) ensures n in NamesOf(all) {
      var d :| d in configs && n in Names(d.certificates);
      assert d in all;
    }
  }

  /** What a merge gives: the survivors, all certificates, and the stores of each. */
  ghost predicate IsMergeOf(strategy: Strategy, configs: seq<Configuration>, r: Configuration) {
    && r.resources == Survivors(MergedOf(strategy, SourcesOf(configs)))
    && Names(r.certificates) == NamesOf(configs)
    && (strategy.Merging? ==> Belongs(r.certificates) == BelongsOf(configs))
    && (strategy.SkipDuplicates? ==> SameFirst(r.certificates, CertificatesOf(configs)))
  }

  /** All configurations, in order, then the deletion of the conflicts. */
  method Merge(strategy: Strategy, configs: seq<Configuration>) returns (r: Configuration)
    ensures IsMergeOf(strategy, configs, r)
  {
    var merged := Merged(map[], {});
    var certs := [];
    for i := 0 to |configs|
      invariant merged == MergedOf(strategy, SourcesOf(configs[..i]))
      invariant Names(certs) == NamesOf(configs[..i])
      invariant strategy.Merging? ==> Belongs(certs) == BelongsOf(configs[..i])
      invariant strategy.SkipDuplicates? ==> SameFirst(certs, CertificatesOf(configs[..i]))
    {
      var c := configs[i];
      assert configs[..i + 1] == configs[..i] + [c];
      NamesOfAppend(configs[..i], c);
      BelongsOfAppend(configs[..i], c);
      SourcesNext(strategy, configs[..i], c);
      merged := MergeResourceMap(strategy, merged, c.resources);
      ghost var before := certs;
      certs := MergeCertificates(strategy, certs, c.certificates);
      if strategy.SkipDuplicates? {
        SameFirstAppend(before, CertificatesOf(configs[..i]), c.certificates);
      }
    }
    assert configs[..|configs|] == configs;
    r := Configuration(Survivors(merged), certs);
  }

  lemma SourcesNext(strategy: Strategy, configs: seq<Configuration>, c: Configuration)
    ensures var m := MergedOf(strategy, SourcesOf(configs));
            MergedOf(strategy, SourcesOf(configs + [c])) ==
            Merged(KeptAll(strategy, m.resources, c.resources), m.toDelete + Conflicts(strategy, m.resources, c.resources))
    ensures CertificatesOf(configs + [c]) == CertificatesOf(configs) + c.certificates
  {
  }

  lemma {:induction false} SourcesIn(configs: seq<Configuration>, src: Resources)
    ensures src in SourcesOf(configs) <==> exists c :: c in configs && c.resources == src
    decreases |configs|
  {
    if configs != [] {
      var n := |configs| - 1;
      SourcesIn(configs[..n], src);
      assert configs == configs[..n] + [configs[n]];
      assert forall c :: c in configs <==> c in configs[..n] || c == configs[n];
    }
  }

  /**
   Under the merge strategy the configurations of a provider can be listed in any order: the merged
   results have the same keys, compatible definitions with the same server URLs, the same certificates
   and the same stores for each certificate.
   */
  lemma MergeIsOrderIndependent(a: seq<Configuration>, b: seq<Configuration>, ra: Configuration, rb: Configuration, k: Slot)
    requires multiset(a) == multiset(b) && IsMergeOf(Merging, a, ra) && IsMergeOf(Merging, b, rb)
    ensures k in ra.resources <==> k in rb.resources
    ensures k in ra.resources ==>
              && ServerUrls(ra.resources[k]) == ServerUrls(rb.resources[k])
              && Compatible(ra.resources[k], rb.resources[k])
    ensures Names(ra.certificates) == Names(rb.certificates) && Belongs(ra.certificates) == Belongs(rb.certificates)
  {
    assert forall c :: c in a <==> c in multiset(a);
    assert forall c :: c in b <==> c in multiset(b);
    forall src ensures src in SourcesOf(a) <==> src in SourcesOf(b) {
      SourcesIn(a, src);
      SourcesIn(b, src);
    }
    SlotIsOrderIndependent(SourcesOf(a), SourcesOf(b), k);
  }

  // ---------------------------------------------------------------------------
  // Where the order does matter
  // ---------------------------------------------------------------------------

  /** The servers with a URL, in order. */
  function EntriesAt(servers: seq<Server>, url: string): seq<Server> {
    if servers == [] then []
    else
      var last := servers[|servers| - 1];
      EntriesAt(servers[..|servers| - 1], url) + if last.url == url then [last] else []
  }

  lemma {:induction false} EntriesConcat(a: seq<Server>, b: seq<Server>, url: string)
    ensures EntriesAt(a + b, url) == EntriesAt(a, url) + EntriesAt(b, url)
    decreases |b|
  {
    if b == [] {
      assert a + b == a;
    } else {
      EntriesConcat(a, b[..|b| - 1], url);
      assert (a + b)[..|a + b| - 1] == a + b[..|b| - 1];
    }
  }

  lemma {:induction false} EntriesIffUrl(servers: seq<Server>, url: string)
    ensures EntriesAt(servers, url) != [] <==> url in Urls(servers)
    decreases |servers|
  {
    if servers != [] {
      var n := |servers| - 1;
      EntriesIffUrl(servers[..n], url);
      assert servers == servers[..n] + [servers[n]];
      UrlsAppend(servers[..n], [servers[n]]);
      assert Urls([servers[n]]) == {servers[n].url} by { assert servers[n] in [servers[n]]; }
    }
  }

  lemma {:induction false} NewEntries(known: set<string>, other: seq<Server>, url: string)
    ensures EntriesAt(NewServers(known, other), url) == if url in known then [] else EntriesAt(other, url)
    decreases |other|
  {
    if other != [] {
      var n := |other| - 1;
      NewEntries(known, other[..n], url);
      EntriesConcat(NewServers(known, other[..n]), if other[n].url in known then [] else [other[n]], url);
      assert [other[n]][..0] == [];
    }
  }

  function Entries(r: Resource, url: string): seq<Server> {
    if r.Balanced? then EntriesAt(r.servers, url) else []
  }

  /** A merge keeps the fields it does not compare, and the entries of every URL it already has. */
  lemma MergeKeepsFirst(dst: Resource, src: Resource, url: string)
    requires Compatible(dst, src)
    ensures var m := TryMerge(dst, src);
            && m.Some? && m.value.Balanced? == dst.Balanced? == src.Balanced?
            && (dst.Balanced? ==> m.value.others == dst.others)
            && Entries(m.value, url) == if url in ServerUrls(dst) then Entries(dst, url) else Entries(src, url)
  {
    if dst.Balanced? {
      var known := Urls(dst.servers);
      EntriesConcat(dst.servers, NewServers(known, src.servers), url);
      NewEntries(known, src.servers, url);
      EntriesIffUrl(dst.servers, url);
      EntriesIffUrl(src.servers, url);
    }
  }

  /** The entries of the first definition that has the URL. */
  function FirstEntries(definitions: seq<Resource>, url: string): seq<Server> {
    if definitions == [] then []
    else
      var n := |definitions| - 1;
      if url in UrlsOf(definitions[..n]) then FirstEntries(definitions[..n], url) else Entries(definitions[n], url)
  }

  /** What the first definitions decide about a slot that is not in conflict. */
  ghost predicate FirstsOk(definitions: seq<Resource>, r: Resource, url: string) {
    definitions != [] ==>
      && r.Balanced? == definitions[0].Balanced?
      && (r.Balanced? ==> r.others == definitions[0].others)
      && Entries(r, url) == FirstEntries(definitions, url)
  }

  lemma FirstsStep(definitions: seq<Resource>, d: Resource, v: Resource, url: string)
    requires definitions != [] && FirstsOk(definitions, d, url) && Compatible(d, v)
    requires ServerUrls(d) == UrlsOf(definitions)
    ensures FirstsOk(definitions + [v], TryMerge(d, v).value, url)
  {
    MergeKeepsFirst(d, v, url);
    assert (definitions + [v])[..|definitions|] == definitions;
  }

  /** What a slot holds after one more source map. */
  lemma ValueStep(sources: seq<Resources>, k: Slot)
    requires sources != []
    ensures var n := |sources| - 1;
            var before := Lookup(MergedOf(Merging, sources[..n]).resources, k);
            Lookup(MergedOf(Merging, sources).resources, k)
            == if k in sources[n] then Some(Kept(Merging, before, sources[n][k])) else before
  {
  }

  lemma {:induction false} FirstsKept(sources: seq<Resources>, k: Slot, url: string)
    requires Definitions(sources, k) != [] && Agreed(Definitions(sources, k))
    ensures var r := Lookup(MergedOf(Merging, sources).resources, k);
            r.Some? && FirstsOk(Definitions(sources, k), r.value, url)
    decreases |sources|
  {
    var n := |sources| - 1;
    var before := Definitions(sources[..n], k);
    if k !in sources[n] {
      ValueStep(sources, k);
      assert Definitions(sources, k) == before;
      FirstsKept(sources[..n], k, url);
    } else if before == [] {
      FirstDefined(sources, k, url);
    } else {
      OneMoreAgrees(before, sources[n][k]);
      FirstsKept(sources[..n], k, url);
      FirstsNext(sources, k, url);
    }
  }

  lemma FirstDefined(sources: seq<Resources>, k: Slot, url: string)
    requires sources != [] && k in sources[|sources| - 1] && Definitions(sources[..|sources| - 1], k) == []
    ensures var r := Lookup(MergedOf(Merging, sources).resources, k);
            r.Some? && FirstsOk(Definitions(sources, k), r.value, url)
  {
    var v := sources[|sources| - 1][k];
    ValueStep(sources, k);
    SlotsOk(sources[..|sources| - 1], k);
    assert Definitions(sources, k) == [v];
    assert [v][..0] == [];
  }

  /**
   A surviving service has the uncompared fields of its first definition and, for each URL, the
   entries of the first definition that has it.
   */
  lemma FirstDefinitionsDecide(sources: seq<Resources>, k: Slot, url: string)
    requires k in Survivors(MergedOf(Merging, sources))
    ensures Definitions(sources, k) != [] && FirstsOk(Definitions(sources, k), Survivors(MergedOf(Merging, sources))[k], url)
  {
    SurvivorsAreAgreed(sources, k);
    FirstsKept(sources, k, url);
  }

  lemma FirstsNext(sources: seq<Resources>, k: Slot, url: string)
    requires sources != [] && k in sources[|sources| - 1]
    requires var before := Definitions(sources[..|sources| - 1], k);
             before != [] && Agreed(before) && Compatible(before[0], sources[|sources| - 1][k])
    requires var d := Lookup(MergedOf(Merging, sources[..|sources| - 1]).resources, k);
             d.Some? && FirstsOk(Definitions(sources[..|sources| - 1], k), d.value, url)
    ensures var r := Lookup(MergedOf(Merging, sources).resources, k);
            r.Some? && FirstsOk(Definitions(sources, k), r.value, url)
  {
    var n := |sources| - 1;
    var before, v := Definitions(sources[..n], k), sources[n][k];
    SlotsOk(sources[..n], k);
    var d := MergedOf(Merging, sources[..n]).resources[k];
    CompatibleIsEquivalence(d, before[0], v);
    CompatibleIsEquivalence(before[0], d, v);
    FirstsStep(before, d, v, url);
    TryMergeMerges(d, v);
    ValueStep(sources, k);
  }

  // ---------------------------------------------------------------------------
  // Exactly when the order does not matter at all
  // ---------------------------------------------------------------------------

  /** Two services that differ at most in the order of servers with different URLs. */
  ghost predicate SameService(a: Resource, b: Resource) {
    && Compatible(a, b)
    && (a.Balanced? ==> a.others == b.others && forall url :: Entries(a, url) == Entries(b, url))
  }

  /** Two definitions have the same uncompared fields, and the same entries for every URL that both have. */
  ghost predicate Alike(x: Resource, y: Resource) {
    x.Balanced? && y.Balanced? ==>
      && x.others == y.others
      && forall url :: url in ServerUrls(x) && url in ServerUrls(y) ==> Entries(x, url) == Entries(y, url)
  }

  ghost predicate AllAlike(definitions: seq<Resource>) {
    forall x, y :: x in definitions && y in definitions ==> Alike(x, y)
  }

  lemma {:induction false} FirstEntriesFrom(definitions: seq<Resource>, url: string)
    ensures url in UrlsOf(definitions) ==>
              exists x :: x in definitions && url in ServerUrls(x) && FirstEntries(definitions, url) == Entries(x, url)
    ensures url !in UrlsOf(definitions) ==> FirstEntries(definitions, url) == []
    decreases |definitions|
  {
    if definitions != [] {
      var n := |definitions| - 1;
      FirstEntriesFrom(definitions[..n], url);
      assert definitions == definitions[..n] + [definitions[n]];
      UrlsOfAppend(definitions[..n], definitions[n]);
      if url in UrlsOf(definitions[..n]) {
        var x :| x in definitions[..n] && url in ServerUrls(x) && FirstEntries(definitions[..n], url) == Entries(x, url);
        assert x in definitions;
      } else {
        assert definitions[n] in definitions;
        NoEntries(definitions[n], url);
      }
    }
  }

  lemma NoEntries(r: Resource, url: string)
    ensures Entries(r, url) != [] <==> url in ServerUrls(r)
  {
    if r.Balanced? {
      EntriesIffUrl(r.servers, url);
    }
  }

  /** When all definitions are alike, lists with the same definitions decide the same entries. */
  lemma AlikeEntries(a: seq<Resource>, b: seq<Resource>, url: string)
    requires forall v :: v in a <==> v in b
    requires AllAlike(a) && Agreed(a)
    ensures FirstEntries(a, url) == FirstEntries(b, url)
  {
    assert UrlsOf(a) == UrlsOf(b);
    FirstEntriesFrom(a, url);
    FirstEntriesFrom(b, url);
    if url in UrlsOf(a) {
      var x :| x in a && url in ServerUrls(x) && FirstEntries(a, url) == Entries(x, url);
      var y :| y in b && url in ServerUrls(y) && FirstEntries(b, url) == Entries(y, url);
      assert Alike(x, y);
    }
  }

  /** A source map moved to the front. */
  function Front<T>(s: seq<T>, i: nat): seq<T>
    requires i < |s|
  {
    [s[i]] + s[..i] + s[i + 1..]
  }

  lemma FrontIsPermutation(s: seq<Resources>, i: nat)
    requires i < |s|
    ensures multiset(Front(s, i)) == multiset(s)
  {
    assert s == s[..i] + [s[i]] + s[i + 1..];
  }

  lemma {:induction false} DefinitionsConcat(a: seq<Resources>, b: seq<Resources>, k: Slot)
    ensures Definitions(a + b, k) == Definitions(a, k) + Definitions(b, k)
    decreases |b|
  {
    if b == [] {
      assert a + b == a;
    } else {
      DefinitionsConcat(a, b[..|b| - 1], k);
      assert (a + b)[..|a + b| - 1] == a + b[..|b| - 1];
    }
  }

  /** Some permutation defines the slot first by a given one of its definitions. */
  lemma FirstBy(sources: seq<Resources>, k: Slot, x: Resource) returns (b: seq<Resources>)
    requires x in Definitions(sources, k)
    ensures multiset(b) == multiset(sources) && Definitions(b, k) != [] && Definitions(b, k)[0] == x
  {
    DefinitionsIn(sources, k, x);
    var src :| src in sources && k in src && src[k] == x;
    var i :| 0 <= i < |sources| && sources[i] == src;
    b := Front(sources, i);
    FrontIsPermutation(sources, i);
    var rest := sources[..i] + sources[i + 1..];
    assert b == [src] + rest;
    DefinitionsConcat([src], rest, k);
    assert [src][..0] == [];
  }

  lemma PermutationIsSame(a: seq<Resources>, b: seq<Resources>)
    requires multiset(a) == multiset(b)
    ensures SameSources(a, b)
  {
    forall src ensures src in a <==> src in b {
      assert src in a <==> src in multiset(a);
      assert src in b <==> src in multiset(b);
    }
  }

  /** The survivor is the same service whatever the order of the source maps. */
  ghost predicate OrderFree(sources: seq<Resources>, k: Slot)
    requires k in Survivors(MergedOf(Merging, sources))
  {
    forall b :: multiset(b) == multiset(sources) ==> SameSurvivor(sources, b, k)
  }

  ghost predicate SameSurvivor(a: seq<Resources>, b: seq<Resources>, k: Slot)
    requires k in Survivors(MergedOf(Merging, a))
  {
    var ra, rb := Survivors(MergedOf(Merging, a)), Survivors(MergedOf(Merging, b));
    k in rb && SameService(ra[k], rb[k])
  }

  lemma AlikeMeansOrderFree(a: seq<Resources>, b: seq<Resources>, k: Slot)
    requires k in Survivors(MergedOf(Merging, a)) && AllAlike(Definitions(a, k)) && multiset(a) == multiset(b)
    ensures SameSurvivor(a, b, k)
  {
    PermutationIsSame(a, b);
    SlotIsOrderIndependent(a, b, k);
    SurvivorsAreAgreed(a, k);
    var da, db := Definitions(a, k), Definitions(b, k);
    var ra, rb := Survivors(MergedOf(Merging, a))[k], Survivors(MergedOf(Merging, b))[k];
    forall v ensures v in da <==> v in db {
      SameDefinitions(a, b, k, v);
    }
    FirstDefinitionsDecide(a, k, "");
    FirstDefinitionsDecide(b, k, "");
    assert da[0] in da && db[0] in da;
    assert Alike(da[0], db[0]) && Compatible(da[0], db[0]);
    forall url ensures Entries(ra, url) == Entries(rb, url) {
      FirstDefinitionsDecide(a, k, url);
      FirstDefinitionsDecide(b, k, url);
      AlikeEntries(da, db, url);
    }
  }

  lemma {:induction false} FirstEntriesOfFirst(definitions: seq<Resource>, url: string)
    requires definitions != [] && url in ServerUrls(definitions[0])
    ensures FirstEntries(definitions, url) == Entries(definitions[0], url)
    decreases |definitions|
  {
    var n := |definitions| - 1;
    if n > 0 {
      assert definitions[..n][0] == definitions[0] && definitions[0] in definitions[..n];
      FirstEntriesOfFirst(definitions[..n], url);
    } else {
      assert definitions[..0] == [];
    }
  }

  lemma OrderFreeMeansAlike(sources: seq<Resources>, k: Slot, x: Resource, y: Resource)
    requires k in Survivors(MergedOf(Merging, sources)) && OrderFree(sources, k)
    requires x in Definitions(sources, k) && y in Definitions(sources, k)
    ensures Alike(x, y)
  {
    var b := FirstBy(sources, k, x);
    var c := FirstBy(sources, k, y);
    assert SameSurvivor(sources, b, k) && SameSurvivor(sources, c, k);
    var rb, rc := Survivors(MergedOf(Merging, b))[k], Survivors(MergedOf(Merging, c))[k];
    FirstDefinitionsDecide(b, k, "");
    FirstDefinitionsDecide(c, k, "");
    if x.Balanced? && y.Balanced? {
      forall url | url in ServerUrls(x) && url in ServerUrls(y) ensures Entries(x, url) == Entries(y, url) {
        FirstDefinitionsDecide(b, k, url);
        FirstDefinitionsDecide(c, k, url);
        FirstEntriesOfFirst(Definitions(b, k), url);
        FirstEntriesOfFirst(Definitions(c, k), url);
        assert Entries(rb, url) == Entries(rc, url);
      }
    }
  }

  /**
   A survivor is the same service for every order of the source maps if and only if all its
   definitions agree on the fields that merging does not compare and on their entries for each URL
   they share.
   */
  lemma OrderFreeIffAlike(sources: seq<Resources>, k: Slot)
    requires k in Survivors(MergedOf(Merging, sources))
    ensures OrderFree(sources, k) <==> AllAlike(Definitions(sources, k))
  {
    if AllAlike(Definitions(sources, k)) {
      forall b | multiset(b) == multiset(sources) ensures SameSurvivor(sources, b, k) {
        AlikeMeansOrderFree(sources, b, k);
      }
    }
    if OrderFree(sources, k) {
      forall x, y | x in Definitions(sources, k) && y in Definitions(sources, k) ensures Alike(x, y) {
        OrderFreeMeansAlike(sources, k, x, y);
      }
    }
  }

  /** Two definitions that merge but are not alike: the result depends on which comes first. */
  lemma DisagreementDependsOnOrder(k: Slot, x: Resource, y: Resource)
    requires Compatible(x, y) && !Alike(x, y)
    ensures var sources := [map[k := x], map[k := y]];
            k in Survivors(MergedOf(Merging, sources)) && !OrderFree(sources, k)
  {
    var sources := [map[k := x], map[k := y]];
    assert sources[..1] == [map[k := x]] && sources[..1][..0] == [];
    assert Definitions(sources[..1], k) == [x];
    assert Definitions(sources, k) == [x, y];
    CompatibleIsEquivalence(x, y, x);
    CompatibleIsEquivalence(y, x, y);
    SurvivorsAreAgreed(sources, k);
    assert x in [x, y] && y in [x, y];
    OrderFreeIffAlike(sources, k);
  }

  /** Such are two definitions that list one URL once and twice, since new servers are not compared with each other. */
  lemma RepeatedUrlsAreNotAlike(settings: string, others: string, s: Server)
    ensures var once, twice := Balanced(settings, others, [s]), Balanced(settings, others, [s, s]);
            Compatible(once, twice) && !Alike(once, twice)
  {
    var once, twice := Balanced(settings, others, [s]), Balanced(settings, others, [s, s]);
    EntriesConcat([s], [s], s.url);
    assert [s] + [s] == [s, s] && [s][..0] == [];
    EntriesIffUrl([s], s.url);
    EntriesIffUrl([s, s], s.url);
    assert EntriesAt([s], s.url) == [s];
    assert Entries(once, s.url) != Entries(twice, s.url);
  }
}
