/**
 The lifetime of OCSP staples: pkg/tls/ocsp.go with the sequence of calls made by the TLS manager on
 each update of the certificates, pkg/tls/tlsmanager.go. The cache is a map with optional deadlines;
 one clock reading stands for a whole update.
 */
module OcspCache {
  import opened Wrappers

  /** `defaultCacheDuration`, in seconds. */
  const DAY: nat := 24 * 3600

  /** A leaf certificate: its hash is the key of its staple. */
  datatype Leaf = Leaf(hash: string, servers: seq<string>)

  /**
   A staple that was not fetched yet is the empty string. The time at which the entry was made tells it
   from other entries of its key (lemma MadeLater).
   */
  datatype Entry = Entry(made: nat, leaf: Leaf, issuer: string, responders: seq<string>, staple: string)

  datatype Item = Item(entry: Entry, expires: Option<nat>)

  type Cache = map<string, Item>

  /** A configured certificate: one that cannot be parsed, or a leaf with its issuer, if that parses. */
  datatype Load = Unparsable | Parsed(leaf: Leaf, issuer: Option<string>)

  datatype Error = NoOcspServer

  predicate Live(item: Item, now: nat) {
    item.expires.None? || now <= item.expires.value
  }

  predicate Has(cache: Cache, key: string, now: nat) {
    key in cache && Live(cache[key], now)
  }

  /** The responders of a leaf, replaced where an override is configured. */
  function Responders(overrides: map<string, string>, servers: seq<string>): seq<string> {
    seq(|servers|, i requires 0 <= i < |servers| => if servers[i] in overrides then overrides[servers[i]] else servers[i])
  }

  /** Every entry without a deadline gets one; other deadlines stay. */
  function Reset(cache: Cache, now: nat): Cache {
    map k | k in cache :: if cache[k].expires.None? then cache[k].(expires := Some(now + DAY)) else cache[k]
  }

  function Upserted(overrides: map<string, string>, cache: Cache, leaf: Leaf, issuer: string, now: nat): Cache {
    if Has(cache, leaf.hash, now) then cache[leaf.hash := cache[leaf.hash].(expires := None)]
    else cache[leaf.hash := Item(Entry(now, leaf, issuer, Responders(overrides, leaf.servers), ""), None)]
  }

  /** A certificate that an update hands to the stapler. */
  predicate Capable(load: Load) {
    load.Parsed? && load.leaf.servers != [] && load.issuer.Some?
  }

  function KeysOf(loads: seq<Load>): set<string> {
    set l | l in loads && Capable(l) :: l.leaf.hash
  }

  function LoadedOne(overrides: map<string, string>, cache: Cache, load: Load, now: nat): Cache {
    if Capable(load) then Upserted(overrides, cache, load.leaf, load.issuer.value, now) else cache
  }

  function Loaded(overrides: map<string, string>, cache: Cache, loads: seq<Load>, now: nat): Cache {
    if loads == [] then cache
    else LoadedOne(overrides, Loaded(overrides, cache, loads[..|loads| - 1], now), loads[|loads| - 1], now)
  }

  /** A whole update: deadlines for everything, then what is still configured. */
  function Updated(overrides: map<string, string>, cache: Cache, loads: seq<Load>, now: nat): Cache {
    Loaded(overrides, Reset(cache, now), loads, now)
  }

  // ---------------------------------------------------------------------------
  // One update
  // ---------------------------------------------------------------------------

  lemma KeysOfAppend(loads: seq<Load>, load: Load)
    ensures KeysOf(loads + [load]) == KeysOf(loads) + if Capable(load) then {load.leaf.hash} else {}
  {
  }

  /** What loading certificates does to one key. */
  ghost predicate KeyLoaded(before: Cache, after: Cache, loads: seq<Load>, k: string, now: nat) {
    if k in KeysOf(loads) then
      && k in after && after[k].expires.None?
      && (Has(before, k, now) ==> after[k].entry == before[k].entry)
      && (!Has(before, k, now) ==> after[k].entry.staple == "" && after[k].entry.made == now)
    else
      && (k in after <==> k in before)
      && (k in before ==> after[k] == before[k])
  }

  lemma {:induction false} LoadedKeys(
      overrides: map<string, string>, cache: Cache, loads: seq<Load>, now: nat, k: string)
    ensures KeyLoaded(cache, Loaded(overrides, cache, loads, now), loads, k, now)
    decreases |loads|
  {
    if loads != [] {
      var n := |loads| - 1;
      LoadedKeys(overrides, cache, loads[..n], now, k);
      assert loads == loads[..n] + [loads[n]];
      KeysOfAppend(loads[..n], loads[n]);
    }
  }

  /**
   After an update the keys without a deadline are those of the certificates it loaded. A key it
   loaded keeps its staple if it had not expired. A key it did not load keeps its entry, with the
   deadline it had or, if it had none, a day from now.
   */
  lemma UpdateSetsDeadlines(overrides: map<string, string>, cache: Cache, loads: seq<Load>, now: nat, k: string)
    ensures var r := Updated(overrides, cache, loads, now);
            && (k in r && r[k].expires.None? <==> k in KeysOf(loads))
            && (k in KeysOf(loads) && Has(cache, k, now) ==> r[k].entry == cache[k].entry)
            && (k in KeysOf(loads) && !Has(cache, k, now) ==> r[k].entry.staple == "" && r[k].entry.made == now)
            && (k !in KeysOf(loads) ==>
                  && (k in r <==> k in cache)
                  && (k in cache ==> r[k] == Item(cache[k].entry,
                                                  if cache[k].expires.Some? then cache[k].expires else Some(now + DAY))))
  {
    LoadedKeys(overrides, Reset(cache, now), loads, now, k);
  }

  // ---------------------------------------------------------------------------
  // Runs
  // ---------------------------------------------------------------------------

  /**
   What happens to the cache: updates, the cleaning of expired entries, and staples fetched for an entry
   that was in the cache when the fetch began.
   */
  datatype Event =
    | Update(loads: seq<Load>, now: nat)
    | Clean(keys: set<string>, now: nat)
    | Refresh(key: string, made: nat, staple: string)

  function Apply(overrides: map<string, string>, cache: Cache, e: Event): Cache {
    match e
    case Update(loads, now) => Updated(overrides, cache, loads, now)
    case Clean(keys, now) => cache - set k | k in keys && k in cache && !Live(cache[k], now)
    case Refresh(key, made, staple) =>
      if key in cache && cache[key].entry.made == made
      then cache[key := cache[key].(entry := cache[key].entry.(staple := staple))]
      else cache
  }

  function After(overrides: map<string, string>, cache: Cache, events: seq<Event>): Cache {
    if events == [] then cache
    else Apply(overrides, After(overrides, cache, events[..|events| - 1]), events[|events| - 1])
  }

  /** The keys loaded by the latest update of a run. */
  function Latest(events: seq<Event>): set<string> {
    if events == [] then {}
    else
      match events[|events| - 1]
      case Update(loads, _) => KeysOf(loads)
      case _ => Latest(events[..|events| - 1])
  }

  /** After any run, the entries that never expire are exactly those of the latest update. */
  lemma {:induction false} PermanentIsLatest(overrides: map<string, string>, events: seq<Event>, k: string)
    ensures var c := After(overrides, map[], events);
            k in c && c[k].expires.None? <==> k in Latest(events)
    decreases |events|
  {
    if events != [] {
      var n := |events| - 1;
      PermanentIsLatest(overrides, events[..n], k);
      if events[n].Update? {
        UpdateSetsDeadlines(overrides, After(overrides, map[], events[..n]), events[n].loads, events[n].now, k);
      }
    }
  }

  /** No event of a run loads the key again, and none is later than the given time. */
  predicate Unsupplied(events: seq<Event>, k: string, until: nat) {
    forall i :: 0 <= i < |events| ==> QuietFor(events[i], k, until)
  }

  predicate QuietFor(e: Event, k: string, until: nat) {
    match e
    case Update(loads, now) => k !in KeysOf(loads) && now <= until
    case Clean(_, now) => now <= until
    case Refresh(_, _, _) => true
  }

  /** An entry with the staples a run has fetched for it. */
  function EntryAfter(entry: Entry, k: string, events: seq<Event>): Entry {
    if events == [] then entry
    else
      var before := EntryAfter(entry, k, events[..|events| - 1]);
      var e := events[|events| - 1];
      if e.Refresh? && e.key == k && e.made == before.made then before.(staple := e.staple) else before
  }

  /**
   The deadline of a dropped entry is set once: as long as its certificate is not supplied again it is
   served up to the deadline and no longer, with the staples fetched for it meanwhile.
   */
  lemma {:induction false} DroppedUntilDeadline(
      overrides: map<string, string>, cache: Cache, events: seq<Event>, k: string, until: nat)
    requires k in cache && cache[k].expires.Some? && Unsupplied(events, k, until)
    ensures var d := cache[k].expires;
            var c := After(overrides, cache, events);
            && (k in c ==> c[k] == Item(EntryAfter(cache[k].entry, k, events), d))
            && (Has(c, k, until) <==> until <= d.value)
    decreases |events|
  {
    if events != [] {
      var n := |events| - 1;
      assert QuietFor(events[n], k, until);
      assert Unsupplied(events[..n], k, until) by {
        forall i | 0 <= i < n ensures QuietFor(events[..n][i], k, until) {
          assert QuietFor(events[i], k, until);
        }
      }
      DroppedUntilDeadline(overrides, cache, events[..n], k, until);
      if events[n].Update? {
        UpdateSetsDeadlines(overrides, After(overrides, cache, events[..n]), events[n].loads, events[n].now, k);
      }
    }
  }

  /**
   A certificate dropped by one update and supplied again by another keeps its staple exactly when the
   second comes within a day of the first; later it starts without one.
   */
  lemma ResuppliedKeepsStaple(
      overrides: map<string, string>, cache: Cache, k: string, dropped: seq<Load>, at: nat, events: seq<Event>,
      again: seq<Load>, now: nat)
    requires k in cache && cache[k].expires.None?
    requires k !in KeysOf(dropped) && Unsupplied(events, k, now) && k in KeysOf(again)
    ensures var c := Apply(overrides, After(overrides, Updated(overrides, cache, dropped, at), events), Update(again, now));
            && k in c && c[k].expires.None?
            && (now <= at + DAY ==> c[k].entry == EntryAfter(cache[k].entry, k, events))
            && (now > at + DAY ==> c[k].entry.staple == "")
  {
    UpdateSetsDeadlines(overrides, cache, dropped, at, k);
    var first := Updated(overrides, cache, dropped, at);
    DroppedUntilDeadline(overrides, first, events, k, now);
    UpdateSetsDeadlines(overrides, After(overrides, first, events), again, now, k);
  }

  // ---------------------------------------------------------------------------
  // What a run says about a key, without the cache
  // ---------------------------------------------------------------------------

  /** A key was never loaded, is loaded by the latest update, or was dropped and is served up to a deadline. */
  datatype Life = Never | Current | Until(deadline: nat)

  function LifeOf(events: seq<Event>, k: string): Life {
    if events == [] then Never
    else
      var before := LifeOf(events[..|events| - 1], k);
      match events[|events| - 1]
      case Update(loads, now) =>
        if k in KeysOf(loads) then Current else if before.Current? then Until(now + DAY) else before
      case _ => before
  }

  predicate Served(life: Life, now: nat) {
    life.Current? || (life.Until? && now <= life.deadline)
  }

  /** When the key was last loaded while it was not served. */
  function MadeOf(events: seq<Event>, k: string): nat {
    if events == [] then 0
    else
      var n := |events| - 1;
      var before := MadeOf(events[..n], k);
      match events[n]
      case Update(loads, now) => if k in KeysOf(loads) && !Served(LifeOf(events[..n], k), now) then now else before
      case _ => before
  }

  /** The latest staple fetched for the entry made then. */
  function StapleOf(events: seq<Event>, k: string): string {
    if events == [] then ""
    else
      var n := |events| - 1;
      var before := StapleOf(events[..n], k);
      match events[n]
      case Update(loads, now) => if k in KeysOf(loads) && !Served(LifeOf(events[..n], k), now) then "" else before
      case Clean(_, _) => before
      case Refresh(key, made, staple) => if key == k && made == MadeOf(events[..n], k) then staple else before
  }

  /** The events happen in order, none after the given time. */
  predicate Ordered(events: seq<Event>, until: nat)
    decreases |events|
  {
    events == [] ||
    (var last := events[|events| - 1];
     var t := if last.Refresh? then until else last.now;
     t <= until && Ordered(events[..|events| - 1], t))
  }

  /** What the cache holds for a key, at a time after all events. */
  ghost predicate KeyOk(events: seq<Event>, cache: Cache, k: string, until: nat) {
    match LifeOf(events, k)
    case Never => k !in cache
    case Current =>
      && k in cache && cache[k].expires.None?
      && cache[k].entry.staple == StapleOf(events, k) && cache[k].entry.made == MadeOf(events, k)
    case Until(d) =>
      && (k in cache ==> cache[k].expires == Some(d))
      && (until <= d ==>
            k in cache && cache[k].entry.staple == StapleOf(events, k) && cache[k].entry.made == MadeOf(events, k))
  }

  lemma KeyNext(overrides: map<string, string>, events: seq<Event>, e: Event, cache: Cache, k: string, until: nat)
    requires KeyOk(events, cache, k, if e.Refresh? then until else e.now) && (e.Refresh? || e.now <= until)
    ensures KeyOk(events + [e], Apply(overrides, cache, e), k, until)
  {
    var all := events + [e];
    assert all[..|all| - 1] == events && all[|all| - 1] == e;
    if e.Update? {
      UpdateSetsDeadlines(overrides, cache, e.loads, e.now, k);
    }
  }

  /** The cache after a run is what the run says of every key. */
  lemma {:induction false} RunDecides(overrides: map<string, string>, events: seq<Event>, k: string, until: nat)
    requires Ordered(events, until)
    ensures KeyOk(events, After(overrides, map[], events), k, until)
    decreases |events|
  {
    if events != [] {
      var n := |events| - 1;
      var t := if events[n].Refresh? then until else events[n].now;
      RunDecides(overrides, events[..n], k, t);
      KeyNext(overrides, events[..n], events[n], After(overrides, map[], events[..n]), k, until);
      assert events[..n] + [events[n]] == events;
    }
  }

  /** An entry was made no later than now, and a day before its deadline at least. */
  lemma {:induction false} MadeBefore(events: seq<Event>, k: string, until: nat)
    requires Ordered(events, until)
    ensures match LifeOf(events, k)
            case Never => true
            case Current => MadeOf(events, k) <= until
            case Until(d) => MadeOf(events, k) <= until && MadeOf(events, k) + DAY <= d
    decreases |events|
  {
    if events != [] {
      var n := |events| - 1;
      MadeBefore(events[..n], k, if events[n].Refresh? then until else events[n].now);
    }
  }

  /**
   When a key is loaded again after it ceased to be served, its new entry is made later than the old one;
   so a staple that was being fetched for the old entry does not reach the new one.
   */
  lemma MadeLater(events: seq<Event>, k: string, loads: seq<Load>, now: nat, staple: string)
    requires Ordered(events, now) && k in KeysOf(loads)
    requires LifeOf(events, k).Until? && !Served(LifeOf(events, k), now)
    ensures var made, again := MadeOf(events, k), events + [Update(loads, now)];
            && made < MadeOf(again, k) == now
            && StapleOf(again + [Refresh(k, made, staple)], k) == ""
  {
    var again := events + [Update(loads, now)];
    MadeBefore(events, k, now);
    assert again[..|events|] == events;
    assert (again + [Refresh(k, MadeOf(events, k), staple)])[..|again|] == again;
  }

  // ---------------------------------------------------------------------------
  // The stapler
  // ---------------------------------------------------------------------------

  class Stapler {
    const overrides: map<string, string>
    var cache: Cache
    /** What has happened to the stapler. */
    ghost var events: seq<Event>

    ghost predicate Valid()
      reads this
    {
      cache == After(overrides, map[], events)
    }

    constructor (overrides: map<string, string>)
      ensures this.overrides == overrides && cache == map[] && events == [] && Valid()
    {
      this.overrides := overrides;
      cache := map[];
      events := [];
    }

    /**
     After any run a key has an answer exactly when the latest update loaded it, or it was dropped by an
     update at most a day ago; the answer is the latest staple fetched for it.
     */
    method GetStaple(key: string, now: nat) returns (r: Option<string>)
      requires Valid() && Ordered(events, now)
      ensures r == if Served(LifeOf(events, key), now) then Some(StapleOf(events, key)) else None
    {
      RunDecides(overrides, events, key, now);
      if key in cache && Live(cache[key], now) {
        return Some(cache[key].entry.staple);
      }
      return None;
    }

    method Upsert(leaf: Leaf, issuer: string, now: nat) returns (r: Result<(), Error>)
      modifies this`cache
      ensures r == if leaf.servers == [] then Err(NoOcspServer) else Ok(())
      ensures cache == if r.Ok? then Upserted(overrides, old(cache), leaf, issuer, now) else old(cache)
    {
      if leaf.servers == [] {
        return Err(NoOcspServer);
      }
      if leaf.hash in cache && Live(cache[leaf.hash], now) {
        cache := cache[leaf.hash := Item(cache[leaf.hash].entry, None)];
        return Ok(());
      }
      var responders := [];
      for i := 0 to |leaf.servers|
        invariant responders == Responders(overrides, leaf.servers)[..i]
      {
        var url := leaf.servers[i];
        if url in overrides {
          url := overrides[url];
        }
        responders := responders + [url];
      }
      assert responders == Responders(overrides, leaf.servers);
      cache := cache[leaf.hash := Item(Entry(now, leaf, issuer, responders, ""), None)];
      return Ok(());
    }

    /** Visits the live entries in any order. */
    method ResetTTL(now: nat)
      modifies this`cache
      ensures cache == Reset(old(cache), now)
    {
      var items := cache;
      var todo := set k | k in items && Live(items[k], now);
      while todo != {}
        invariant todo <= items.Keys && cache.Keys == items.Keys
        invariant forall k :: k in items ==> cache[k] == if k in todo then items[k] else Reset(items, now)[k]
        decreases todo
      {
        var k :| k in todo;
        if items[k].expires.None? {
          cache := cache[k := Item(items[k].entry, Some(now + DAY))];
        }
        todo := todo - {k};
      }
    }

    /** The part of an update that concerns staples; `defaults` are the default certificates of the stores. */
    method UpdateConfigs(certs: seq<Load>, defaults: seq<Load>, now: nat)
      requires Valid()
      modifies this
      ensures Valid() && events == old(events) + [Update(certs + defaults, now)]
      ensures cache == Updated(overrides, old(cache), certs + defaults, now)
    {
      ResetTTL(now);
      var loads := certs + defaults;
      for i := 0 to |loads|
        invariant cache == Loaded(overrides, Reset(old(cache), now), loads[..i], now) && events == old(events)
      {
        assert loads[..i + 1][..i] == loads[..i];
        var load := loads[i];
        if load.Parsed? && load.leaf.servers != [] && load.issuer.Some? {
          var r := Upsert(load.leaf, load.issuer.value, now);
        }
      }
      assert loads[..|loads|] == loads;
      events := events + [Update(loads, now)];
      assert events[..|events| - 1] == old(events);
    }

    /** The periodic cleaning of the cache; which expired entries it finds is left open. */
    method DeleteExpired(keys: set<string>, now: nat)
      requires Valid()
      modifies this
      ensures Valid() && events == old(events) + [Clean(keys, now)]
    {
      cache := cache - set k | k in keys && k in cache && !Live(cache[k], now);
      events := events + [Clean(keys, now)];
      assert events[..|events| - 1] == old(events);
    }

    /** A staple fetched for an entry, which may have been replaced or dropped meanwhile. */
    method StoreStaple(key: string, made: nat, staple: string)
      requires Valid()
      modifies this
      ensures Valid() && events == old(events) + [Refresh(key, made, staple)]
    {
      if key in cache && cache[key].entry.made == made {
        cache := cache[key := cache[key].(entry := cache[key].entry.(staple := staple))];
      }
      events := events + [Refresh(key, made, staple)];
      assert events[..|events| - 1] == old(events);
    }
  }
}
