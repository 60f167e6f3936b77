/**
 The second half of pkg/server/aggregator.go: entry point models applied to HTTP routers. A root
 router is split into one router per entry point that has a model and one router for the other
 entry points, and the references of child routers are rewritten to the routers that result.
 */
module ModelApplication {
  import opened Wrappers
  import opened Unions

  const INTERNAL := "@internal"

  datatype Observability = Observability(
    accessLogs: Option<bool>, metrics: Option<bool>, tracing: Option<bool>, traceVerbosity: string)

  /** Service, rule and priority, which no model changes, are the `body`. */
  datatype Router = Router(
    entryPoints: seq<string>,
    parentRefs: Option<seq<string>>,
    middlewares: seq<string>,
    tls: Option<string>,
    deniedCharacters: Option<string>,
    observability: Option<Observability>,
    ruleSyntax: string,
    defaultRule: bool,
    body: string)

  datatype Model = Model(
    middlewares: seq<string>,
    tls: Option<string>,
    deniedCharacters: Option<string>,
    observability: Observability,
    defaultRuleSyntax: string)

  type Routers = map<string, Router>
  type Models = map<string, Model>

  predicate HasModel(models: Models, ep: string) {
    ep + INTERNAL in models
  }

  /** The name of the router for one modelled entry point. */
  function OutputName(name: string, ep: string, eps: seq<string>): string {
    if |eps| > 1 then ep + "-" + name else name
  }

  function OrElse<T>(a: Option<T>, b: Option<T>): Option<T> {
    if a.Some? then a else b
  }

  /** The router for one entry point, with what the entry point's model adds. */
  function WithModel(base: Router, ep: string, m: Model): Router {
    var o := if base.observability.Some? then base.observability.value else Observability(None, None, None, "");
    base.(
      entryPoints := [ep],
      tls := OrElse(base.tls, m.tls),
      middlewares := m.middlewares + base.middlewares,
      deniedCharacters := OrElse(m.deniedCharacters, base.deniedCharacters),
      observability := Some(Observability(
        OrElse(o.accessLogs, m.observability.accessLogs),
        OrElse(o.metrics, m.observability.metrics),
        OrElse(o.tracing, m.observability.tracing),
        if o.traceVerbosity == "" then m.observability.traceVerbosity else o.traceVerbosity)))
  }

  /** The entry points without a model, in order. */
  function PlainOf(eps: seq<string>, models: Models): seq<string> {
    if eps == [] then []
    else PlainOf(eps[..|eps| - 1], models) + if HasModel(models, eps[|eps| - 1]) then [] else [eps[|eps| - 1]]
  }

  /** The generated names for the first `n` entry points, in order; none when there is only one entry point. */
  function GeneratedNames(name: string, eps: seq<string>, n: nat, models: Models): seq<string>
    requires n <= |eps|
  {
    if n == 0 || |eps| <= 1 then []
    else
      var last := if HasModel(models, eps[n - 1]) then [OutputName(name, eps[n - 1], eps)] else [];
      GeneratedNames(name, eps, n - 1, models) + last
  }

  predicate EndsWith(s: string, suffix: string) {
    |s| >= |suffix| && s[|s| - |suffix|..] == suffix
  }

  /** The rule syntax a root router may end up with: its own, or that of some internal model. */
  ghost predicate AllowedSyntax(rt: Router, models: Models, syntax: string) {
    if rt.defaultRule || rt.ruleSyntax != "" then syntax == rt.ruleSyntax
    else
      || (exists m :: m in models && EndsWith(m, INTERNAL) && syntax == models[m].defaultRuleSyntax)
      || (syntax == rt.ruleSyntax && forall m :: m in models ==> !EndsWith(m, INTERNAL))
  }

  /** The routers that the first `n` entry points of a root router give. */
  ghost predicate Splits(name: string, base: Router, eps: seq<string>, n: nat, models: Models, part: Routers)
    requires n <= |eps|
  {
    && HasPlain(name, base, PlainOf(eps[..n], models), part)
    && (forall j :: 0 <= j < n && HasModel(models, eps[j]) ==> HasModelled(name, base, eps, eps[j], models, part))
    && (forall k :: k in part ==> IsOutput(name, eps, n, models, k))
  }

  ghost predicate HasPlain(name: string, base: Router, plain: seq<string>, part: Routers) {
    plain != [] ==> name in part && part[name] == base.(entryPoints := plain)
  }

  ghost predicate HasModelled(name: string, base: Router, eps: seq<string>, ep: string, models: Models, part: Routers)
    requires HasModel(models, ep)
  {
    var k := OutputName(name, ep, eps);
    k in part && part[k] == WithModel(base, ep, models[ep + INTERNAL])
  }

  ghost predicate IsOutput(name: string, eps: seq<string>, n: nat, models: Models, k: string)
    requires n <= |eps|
  {
    || (k == name && PlainOf(eps[..n], models) != [])
    || exists j :: 0 <= j < n && HasModel(models, eps[j]) && k == OutputName(name, eps[j], eps)
  }

  lemma OutputNamesDiffer(name: string, a: string, b: string, eps: seq<string>)
    requires |eps| > 1
    ensures OutputName(name, a, eps) != name
    ensures OutputName(name, a, eps) == OutputName(name, b, eps) ==> a == b
  {
    var x, y := OutputName(name, a, eps), OutputName(name, b, eps);
    assert |x| == |a| + 1 + |name| && |y| == |b| + 1 + |name|;
    assert x[..|x| - 1 - |name|] == a && y[..|y| - 1 - |name|] == b;
  }

  lemma PlainStep(eps: seq<string>, n: nat, models: Models)
    requires n < |eps|
    ensures PlainOf(eps[..n + 1], models) == PlainOf(eps[..n], models) + if HasModel(models, eps[n]) then [] else [eps[n]]
  {
    assert eps[..n + 1][..n] == eps[..n];
  }

  lemma {:induction false} PlainMembers(eps: seq<string>, models: Models)
    ensures forall e :: e in PlainOf(eps, models) <==> e in eps && !HasModel(models, e)
    decreases |eps|
  {
    if eps != [] {
      var n := |eps| - 1;
      PlainMembers(eps[..n], models);
      assert eps == eps[..n] + [eps[n]];
    }
  }

  lemma ModelStep(name: string, base: Router, eps: seq<string>, n: nat, models: Models, part: Routers)
    requires n < |eps| && Splits(name, base, eps, n, models, part) && HasModel(models, eps[n])
    ensures Splits(name, base, eps, n + 1, models,
              part[OutputName(name, eps[n], eps) := WithModel(base, eps[n], models[eps[n] + INTERNAL])])
  {
    var out := OutputName(name, eps[n], eps);
    var next := part[out := WithModel(base, eps[n], models[eps[n] + INTERNAL])];
    PlainStep(eps, n, models);
    if n > 0 { OutputNamesDiffer(name, eps[n], eps[n], eps); }
    assert HasPlain(name, base, PlainOf(eps[..n + 1], models), next);
    forall j | 0 <= j < n + 1 && HasModel(models, eps[j]) ensures HasModelled(name, base, eps, eps[j], models, next) {
      if j < n {
        assert HasModelled(name, base, eps, eps[j], models, part);
        OutputNamesDiffer(name, eps[n], eps[j], eps);
      }
    }
    NamesStep(name, eps, n, models, part, next, out);
  }

  lemma PlainEntryStep(name: string, base: Router, eps: seq<string>, n: nat, models: Models, part: Routers)
    requires n < |eps| && Splits(name, base, eps, n, models, part) && !HasModel(models, eps[n])
    ensures Splits(name, base, eps, n + 1, models, part[name := base.(entryPoints := PlainOf(eps[..n + 1], models))])
  {
    var next := part[name := base.(entryPoints := PlainOf(eps[..n + 1], models))];
    PlainStep(eps, n, models);
    forall j | 0 <= j < n + 1 && HasModel(models, eps[j]) ensures HasModelled(name, base, eps, eps[j], models, next) {
      OutputNamesDiffer(name, eps[j], eps[j], eps);
      assert HasModelled(name, base, eps, eps[j], models, part);
    }
    NamesStep(name, eps, n, models, part, next, name);
  }

  lemma NamesStep(name: string, eps: seq<string>, n: nat, models: Models, part: Routers, next: Routers, out: string)
    requires n < |eps| && forall k :: k in part ==> IsOutput(name, eps, n, models, k)
    requires next.Keys == part.Keys + {out} && IsOutput(name, eps, n + 1, models, out)
    ensures forall k :: k in next ==> IsOutput(name, eps, n + 1, models, k)
  {
    PlainStep(eps, n, models);
    forall k | k in next ensures IsOutput(name, eps, n + 1, models, k) {
      if k != out { assert IsOutput(name, eps, n, models, k); }
    }
  }

  /** The loop over the entry points of one root router. */
  method SplitRouter(name: string, rt: Router, models: Models, syntax: string) returns (part: Routers, names: seq<string>)
    ensures Splits(name, rt.(ruleSyntax := syntax, entryPoints := []), rt.entryPoints, |rt.entryPoints|, models, part)
    ensures names == GeneratedNames(name, rt.entryPoints, |rt.entryPoints|, models)
  {
    var eps := rt.entryPoints;
    ghost var base := rt.(ruleSyntax := syntax, entryPoints := []);
    var router := rt.(ruleSyntax := syntax, entryPoints := []);
    part, names := map[], [];
    for i := 0 to |eps|
      invariant router == base.(entryPoints := PlainOf(eps[..i], models))
      invariant Splits(name, base, eps, i, models, part)
      invariant names == GeneratedNames(name, eps, i, models)
    {
      PlainStep(eps, i, models);
      if HasModel(models, eps[i]) {
        ModelStep(name, base, eps, i, models, part);
        var cp := WithModel(router, eps[i], models[eps[i] + INTERNAL]);
        var rtName := name;
        if |eps| > 1 {
          rtName := eps[i] + "-" + name;
          names := names + [rtName];
        }
        part := part[rtName := cp];
      } else {
        PlainEntryStep(name, base, eps, i, models, part);
        router := router.(entryPoints := router.entryPoints + [eps[i]]);
        part := part[name := router];
      }
    }
  }

  /** The rule syntax of any internal model, for a root router that has none of its own. */
  method ChooseSyntax(rt: Router, models: Models) returns (syntax: string)
    ensures AllowedSyntax(rt, models, syntax)
  {
    syntax := rt.ruleSyntax;
    if !rt.defaultRule && rt.ruleSyntax == "" {
      var todo := models.Keys;
      while todo != {}
        invariant todo <= models.Keys
        invariant forall m :: m in models && m !in todo ==> !EndsWith(m, INTERNAL)
        decreases todo
      {
        var m :| m in todo;
        if EndsWith(m, INTERNAL) {
          return models[m].defaultRuleSyntax;
        }
        todo := todo - {m};
      }
    }
  }

  // ---------------------------------------------------------------------------
  // All routers
  // ---------------------------------------------------------------------------

  /** The names a router may give rise to. */
  ghost predicate MayOutput(routers: Routers, models: Models, name: string, k: string)
    requires name in routers
  {
    var rt := routers[name];
    if rt.parentRefs.Some? then k == name else IsOutput(name, rt.entryPoints, |rt.entryPoints|, models, k)
  }

  /** No two routers give rise to the same name. */
  ghost predicate NoClash(routers: Routers, models: Models) {
    forall a, b, k :: a in routers && b in routers && MayOutput(routers, models, a, k) && MayOutput(routers, models, b, k) ==> a == b
  }

  /** What one router becomes, before references are rewritten. */
  ghost predicate IsPart(routers: Routers, models: Models, name: string, part: Routers)
    requires name in routers
  {
    var rt := routers[name];
    if rt.parentRefs.Some? then part == map[name := rt]
    else exists syntax ::
      && AllowedSyntax(rt, models, syntax)
      && Splits(name, rt.(ruleSyntax := syntax, entryPoints := []), rt.entryPoints, |rt.entryPoints|, models, part)
  }

  ghost function NamesFor(routers: Routers, models: Models, name: string): seq<string>
    requires name in routers
  {
    var rt := routers[name];
    if rt.parentRefs.Some? then [] else GeneratedNames(name, rt.entryPoints, |rt.entryPoints|, models)
  }

  ghost predicate IsPartWithNames(routers: Routers, models: Models, name: string, part: Routers, names: seq<string>)
    requires name in routers
  {
    IsPart(routers, models, name, part) && names == NamesFor(routers, models, name)
  }

  /** Every router has its part and its generated names. */
  ghost predicate HasParts(routers: Routers, models: Models, done: set<string>, parts: map<string, Routers>, generated: map<string, seq<string>>) {
    && done <= routers.Keys && parts.Keys == done && generated.Keys == done
    && forall n :: n in done ==> IsPartWithNames(routers, models, n, parts[n], generated[n])
  }

  /** The first pass: every router replaced by its part. */
  ghost predicate IsSplit(routers: Routers, models: Models, parts: map<string, Routers>, rts: Routers, generated: map<string, seq<string>>) {
    HasParts(routers, models, routers.Keys, parts, generated) && IsUnion(rts, parts, routers.Keys)
  }

  lemma PartNames(routers: Routers, models: Models, name: string, part: Routers, k: string)
    requires name in routers && IsPart(routers, models, name, part) && k in part
    ensures MayOutput(routers, models, name, k)
  {
  }

  lemma PartsDisjoint(routers: Routers, models: Models, parts: map<string, Routers>)
    requires NoClash(routers, models) && parts.Keys <= routers.Keys
    requires forall n :: n in parts ==> IsPart(routers, models, n, parts[n])
    ensures Disjoint(parts)
  {
    forall p, q, k | p in parts && q in parts && k in parts[p] && k in parts[q] ensures p == q {
      PartNames(routers, models, p, parts[p], k);
      PartNames(routers, models, q, parts[q], k);
    }
  }

  /** Without clashes every order of visits gives all parts. */
  lemma NoClashIsSplit(
    routers: Routers, models: Models, parts: map<string, Routers>, order: seq<string>, generated: map<string, seq<string>>)
    requires NoClash(routers, models) && HasParts(routers, models, routers.Keys, parts, generated)
    requires IsOrderOf(routers.Keys, order)
    ensures IsSplit(routers, models, parts, Overlay(parts, order), generated)
  {
    forall n | n in parts ensures IsPart(routers, models, n, parts[n]) {
      assert IsPartWithNames(routers, models, n, parts[n], generated[n]);
    }
    PartsDisjoint(routers, models, parts);
    assert Agreeing(parts);
    OverlayIsUnion(parts, routers.Keys, order);
  }

  lemma PartsGrow(
    routers: Routers, models: Models, done: set<string>, parts: map<string, Routers>, generated: map<string, seq<string>>,
    name: string, part: Routers)
    requires HasParts(routers, models, done, parts, generated)
    requires name in routers && name !in done && IsPart(routers, models, name, part)
    ensures HasParts(routers, models, done + {name}, parts[name := part], generated[name := NamesFor(routers, models, name)])
  {
    var more, names := parts[name := part], generated[name := NamesFor(routers, models, name)];
    forall n | n in done + {name} ensures IsPartWithNames(routers, models, n, more[n], names[n]) {
      if n != name { assert IsPartWithNames(routers, models, n, parts[n], generated[n]); }
    }
  }

  lemma SplitIsFirstPass(
    routers: Routers, models: Models, parts: map<string, Routers>, order: seq<string>, generated: map<string, seq<string>>)
    requires HasParts(routers, models, routers.Keys, parts, generated) && IsOrderOf(routers.Keys, order)
    ensures IsFirstPass(routers, models, Overlay(parts, order))
  {
    forall n | n in routers ensures IsPart(routers, models, n, parts[n]) {
      assert IsPartWithNames(routers, models, n, parts[n], generated[n]);
    }
    assert ComesFrom(routers, models, Overlay(parts, order), parts, order);
  }

  /** The loop over all routers, in any order; where two of them clash the later one stays. */
  method SplitRouters(routers: Routers, models: Models)
    returns (rts: Routers, generated: map<string, seq<string>>, ghost parts: map<string, Routers>, ghost order: seq<string>)
    ensures HasParts(routers, models, routers.Keys, parts, generated)
    ensures IsOrderOf(routers.Keys, order) && rts == Overlay(parts, order)
    ensures IsFirstPass(routers, models, rts)
    ensures NoClash(routers, models) ==> IsSplit(routers, models, parts, rts, generated)
  {
    rts, generated, parts, order := map[], map[], map[], [];
    var todo := routers.Keys;
    ghost var done: set<string> := {};
    while todo != {}
      invariant done + todo == routers.Keys && done !! todo
      invariant HasParts(routers, models, done, parts, generated)
      invariant IsOrderOf(done, order) && rts == Overlay(parts, order)
      decreases todo
    {
      var name :| name in todo;
      var rt := routers[name];
      var part: Routers, names: seq<string> := map[name := rt], [];
      if rt.parentRefs.None? {
        var syntax := ChooseSyntax(rt, models);
        part, names := SplitRouter(name, rt, models, syntax);
      }
      PartsGrow(routers, models, done, parts, generated, name, part);
      OrderGrows(done, order, name);
      OverlayGrows(parts, order, name, part);
      rts := rts + part;
      generated := generated[name := names];
      parts := parts[name := part];
      order := order + [name];
      todo := todo - {name};
      done := done + {name};
    }
    assert done == routers.Keys;
    SplitIsFirstPass(routers, models, parts, order, generated);
    if NoClash(routers, models) {
      NoClashIsSplit(routers, models, parts, order, generated);
    }
  }

  /** The references that replace the first `n` references of a child. */
  function NewRefs(refs: seq<string>, n: nat, rts: Routers, generated: map<string, seq<string>>): seq<string>
    requires n <= |refs|
  {
    if n == 0 then []
    else
      var ref := refs[n - 1];
      NewRefs(refs, n - 1, rts, generated)
        + (if ref in rts then [ref] else [])
        + (if ref in generated then generated[ref] else [])
  }

  function Rewritten(rt: Router, rts: Routers, generated: map<string, seq<string>>): Router {
    if rt.parentRefs.None? then rt
    else
      var refs := NewRefs(rt.parentRefs.value, |rt.parentRefs.value|, rts, generated);
      rt.(parentRefs := if refs == [] then None else Some(refs))
  }

  /** The loop over the references of one child. */
  method RewriteRefs(refs: seq<string>, rts: Routers, generated: map<string, seq<string>>) returns (r: seq<string>)
    ensures r == NewRefs(refs, |refs|, rts, generated)
  {
    r := [];
    for i := 0 to |refs|
      invariant r == NewRefs(refs, i, rts, generated)
    {
      if refs[i] in rts {
        r := r + [refs[i]];
      }
      if refs[i] in generated {
        r := r + generated[refs[i]];
      }
    }
  }

  /** The second pass, in any order; it changes references only, so it never affects itself. */
  method RewriteAll(rts: Routers, generated: map<string, seq<string>>) returns (r: Routers)
    ensures r.Keys == rts.Keys && forall k :: k in rts ==> r[k] == Rewritten(rts[k], rts, generated)
  {
    r := rts;
    var todo := rts.Keys;
    while todo != {}
      invariant todo <= rts.Keys && r.Keys == rts.Keys
      invariant forall k :: k in rts ==> r[k] == if k in todo then rts[k] else Rewritten(rts[k], rts, generated)
      decreases todo
    {
      var k :| k in todo;
      var rt := rts[k];
      if rt.parentRefs.Some? {
        var refs := RewriteRefs(rt.parentRefs.value, rts, generated);
        r := r[k := rt.(parentRefs := if refs == [] then None else Some(refs))];
      }
      todo := todo - {k};
    }
  }

  /** Both passes; with no model at all the routers stay as they are. */
  method ApplyModel(routers: Routers, models: Models)
    returns (r: Routers, ghost rts: Routers, ghost parts: map<string, Routers>, ghost generated: map<string, seq<string>>)
    ensures models == map[] ==> r == routers
    ensures models != map[] ==>
              && HasParts(routers, models, routers.Keys, parts, generated)
              && (exists order :: IsOrderOf(routers.Keys, order) && rts == Overlay(parts, order))
              && r.Keys == rts.Keys && forall k :: k in rts ==> r[k] == Rewritten(rts[k], rts, generated)
    ensures models != map[] && NoClash(routers, models) ==> IsSplit(routers, models, parts, rts, generated)
  {
    if models == map[] {
      return routers, map[], map[], map[];
    }
    var first, names;
    ghost var order;
    first, names, parts, order := SplitRouters(routers, models);
    r := RewriteAll(first, names);
    rts, generated := first, names;
  }

  // ---------------------------------------------------------------------------
  // Routing is conserved
  // ---------------------------------------------------------------------------

  ghost predicate DistinctNames(eps: seq<string>) {
    forall i, j :: 0 <= i < j < |eps| ==> eps[i] != eps[j]
  }

  /** The router of a part that serves an entry point. */
  ghost function ServedBy(name: string, eps: seq<string>, models: Models, ep: string): string {
    if HasModel(models, ep) then OutputName(name, ep, eps) else name
  }

  /**
   The entry points of a root router are partitioned among the routers derived from it: each one
   is served by exactly one of them, and none of them serves anything else or nothing.
   */
  lemma EntryPointsArePartitioned(routers: Routers, models: Models, name: string, part: Routers)
    requires name in routers && routers[name].parentRefs.None? && IsPart(routers, models, name, part)
    ensures forall ep :: ep in routers[name].entryPoints ==>
              var k := ServedBy(name, routers[name].entryPoints, models, ep);
              k in part && ep in part[k].entryPoints
    ensures forall ep, k :: k in part && ep in part[k].entryPoints ==>
              ep in routers[name].entryPoints && k == ServedBy(name, routers[name].entryPoints, models, ep)
    ensures forall k :: k in part ==> part[k].entryPoints != []
    ensures DistinctNames(routers[name].entryPoints) ==> forall k :: k in part ==> DistinctNames(part[k].entryPoints)
  {
    var rt := routers[name];
    var eps := rt.entryPoints;
    assert eps[..|eps|] == eps;
    PlainMembers(eps, models);
    var syntax :| Splits(name, rt.(ruleSyntax := syntax, entryPoints := []), eps, |eps|, models, part);
    forall k | k in part ensures EntryPointsOk(name, eps, models, part, k) {
      OneOutput(name, rt.(ruleSyntax := syntax, entryPoints := []), eps, models, part, k);
    }
    if DistinctNames(eps) { PlainDistinct(eps, models); }
  }

  /** What a router sets itself is kept, what it leaves open may be filled in. */
  predicate Kept<T(==)>(own: Option<T>, r: Option<T>) {
    own.Some? ==> r == own
  }

  function OwnObservability(rt: Router): Observability {
    if rt.observability.Some? then rt.observability.value else Observability(None, None, None, "")
  }

  /** A router that serves an entry point in place of another does the same work with the same settings of its own. */
  predicate StandsIn(r: Router, rt: Router) {
    && r.body == rt.body && r.parentRefs == rt.parentRefs && r.defaultRule == rt.defaultRule
    && (rt.ruleSyntax != "" ==> r.ruleSyntax == rt.ruleSyntax)
    && Kept(rt.tls, r.tls)
    && |r.middlewares| >= |rt.middlewares| && r.middlewares[|r.middlewares| - |rt.middlewares|..] == rt.middlewares
    && Kept(OwnObservability(rt).accessLogs, OwnObservability(r).accessLogs)
    && Kept(OwnObservability(rt).metrics, OwnObservability(r).metrics)
    && Kept(OwnObservability(rt).tracing, OwnObservability(r).tracing)
    && (OwnObservability(rt).traceVerbosity != "" ==> OwnObservability(r).traceVerbosity == OwnObservability(rt).traceVerbosity)
  }

  lemma ModelledStandsIn(rt: Router, syntax: string, ep: string, m: Model)
    requires rt.ruleSyntax != "" ==> syntax == rt.ruleSyntax
    ensures var r := WithModel(rt.(ruleSyntax := syntax, entryPoints := []), ep, m);
            StandsIn(r, rt) && (rt.tls.None? ==> r.tls == m.tls)
  {
  }

  /** The parts of a root router, entry point by entry point. */
  lemma ServingRouter(name: string, base: Router, eps: seq<string>, models: Models, part: Routers, ep: string)
    requires Splits(name, base, eps, |eps|, models, part) && ep in eps
    ensures var k := ServedBy(name, eps, models, ep);
            && k in part
            && (HasModel(models, ep) ==> part[k] == WithModel(base, ep, models[ep + INTERNAL]))
            && (!HasModel(models, ep) ==> part[k] == base.(entryPoints := PlainOf(eps, models)))
  {
    assert eps[..|eps|] == eps;
    PlainMembers(eps, models);
    var j :| 0 <= j < |eps| && eps[j] == ep;
    if HasModel(models, ep) {
      assert HasModelled(name, base, eps, eps[j], models, part);
    }
  }

  /**
   At every entry point of a root router a request meets a router that stands in for it: same service
   and rule, its own settings and middlewares; and without a model for the entry point nothing is added.
   */
  lemma EntryPointKeepsSettings(routers: Routers, models: Models, name: string, part: Routers, ep: string)
    requires name in routers && routers[name].parentRefs.None? && IsPart(routers, models, name, part)
    requires ep in routers[name].entryPoints
    ensures var rt := routers[name];
            var k := ServedBy(name, rt.entryPoints, models, ep);
            && k in part && StandsIn(part[k], rt)
            && (!HasModel(models, ep) ==>
                  part[k].(entryPoints := rt.entryPoints, ruleSyntax := rt.ruleSyntax) == rt)
            && (HasModel(models, ep) && rt.tls.None? ==> part[k].tls == models[ep + INTERNAL].tls)
  {
    var rt := routers[name];
    var syntax :| AllowedSyntax(rt, models, syntax) &&
                  Splits(name, rt.(ruleSyntax := syntax, entryPoints := []), rt.entryPoints, |rt.entryPoints|, models, part);
    ServingRouter(name, rt.(ruleSyntax := syntax, entryPoints := []), rt.entryPoints, models, part, ep);
    if HasModel(models, ep) {
      ModelledStandsIn(rt, syntax, ep, models[ep + INTERNAL]);
    }
  }

  /** Every name a router may give rise to is there. */
  lemma OutputsExist(routers: Routers, models: Models, name: string, part: Routers, k: string)
    requires name in routers && IsPart(routers, models, name, part) && MayOutput(routers, models, name, k)
    ensures k in part
  {
    var rt := routers[name];
    if rt.parentRefs.None? {
      var eps := rt.entryPoints;
      var syntax :| AllowedSyntax(rt, models, syntax) &&
                    Splits(name, rt.(ruleSyntax := syntax, entryPoints := []), eps, |eps|, models, part);
      if j :| 0 <= j < |eps| && HasModel(models, eps[j]) && k == OutputName(name, eps[j], eps) {
        ServingRouter(name, rt.(ruleSyntax := syntax, entryPoints := []), eps, models, part, eps[j]);
      }
    }
  }

  /** Two routers of a part that serve one entry point are the same. */
  lemma OneServes(routers: Routers, models: Models, name: string, part: Routers, k: string, n: string, ep: string)
    requires name in routers && routers[name].parentRefs.None? && IsPart(routers, models, name, part)
    requires k in part && n in part && ep in part[k].entryPoints && ep in part[n].entryPoints
    ensures n == k
  {
    var rt := routers[name];
    var syntax :| AllowedSyntax(rt, models, syntax) &&
                  Splits(name, rt.(ruleSyntax := syntax, entryPoints := []), rt.entryPoints, |rt.entryPoints|, models, part);
    OneOutput(name, rt.(ruleSyntax := syntax, entryPoints := []), rt.entryPoints, models, part, k);
    OneOutput(name, rt.(ruleSyntax := syntax, entryPoints := []), rt.entryPoints, models, part, n);
    assert k == ServedBy(name, rt.entryPoints, models, ep) && n == ServedBy(name, rt.entryPoints, models, ep);
  }

  /** Routers that clash in a name put the same router there. */
  ghost predicate SameWhereClashing(routers: Routers, models: Models, parts: map<string, Routers>)
    requires parts.Keys == routers.Keys
  {
    forall a, b, k :: a in routers && b in routers && MayOutput(routers, models, a, k) && MayOutput(routers, models, b, k) ==>
      k in parts[a] && k in parts[b] && parts[a][k] == parts[b][k]
  }

  /** Parts that the routers may get; a router that takes its rule syntax from a model may get it from any. */
  ghost predicate PartsOf(routers: Routers, models: Models, parts: map<string, Routers>) {
    parts.Keys == routers.Keys && forall n :: n in routers ==> IsPart(routers, models, n, parts[n])
  }

  /** Given the parts, their order does not matter if and only if clashing routers put the same router there. */
  lemma ClashesDecide(routers: Routers, models: Models, parts: map<string, Routers>)
    requires PartsOf(routers, models, parts)
    ensures OverlayOrderFree(parts) <==> SameWhereClashing(routers, models, parts)
  {
    forall n, k | n in parts ensures k in parts[n] <==> MayOutput(routers, models, n, k) {
      if k in parts[n] { PartNames(routers, models, n, parts[n], k); }
      if MayOutput(routers, models, n, k) { OutputsExist(routers, models, n, parts[n], k); }
    }
    assert Agreeing(parts) <==> SameWhereClashing(routers, models, parts);
    OverlayOrderFreeIff(parts);
  }

  // ---------------------------------------------------------------------------
  // When the first pass is determined
  // ---------------------------------------------------------------------------

  /** All internal models have the same default rule syntax. */
  predicate OneDefaultSyntax(models: Models) {
    forall m, n :: m in models && n in models && EndsWith(m, INTERNAL) && EndsWith(n, INTERNAL) ==>
      models[m].defaultRuleSyntax == models[n].defaultRuleSyntax
  }

  /** The router takes its rule syntax from no model, or all models agree on it. */
  predicate SyntaxFixed(rt: Router, models: Models) {
    rt.parentRefs.Some? || rt.entryPoints == [] || rt.defaultRule || rt.ruleSyntax != "" || OneDefaultSyntax(models)
  }

  /** The router to be split, without its entry points. */
  function Base(rt: Router, syntax: string): Router {
    rt.(ruleSyntax := syntax, entryPoints := [])
  }

  lemma {:induction false} SplitExists(name: string, base: Router, eps: seq<string>, n: nat, models: Models) returns (part: Routers)
    requires n <= |eps|
    ensures Splits(name, base, eps, n, models, part)
    decreases n
  {
    if n == 0 {
      part := map[];
    } else {
      var before := SplitExists(name, base, eps, n - 1, models);
      if HasModel(models, eps[n - 1]) {
        part := before[OutputName(name, eps[n - 1], eps) := WithModel(base, eps[n - 1], models[eps[n - 1] + INTERNAL])];
        ModelStep(name, base, eps, n - 1, models, before);
      } else {
        part := before[name := base.(entryPoints := PlainOf(eps[..n], models))];
        PlainEntryStep(name, base, eps, n - 1, models, before);
      }
    }
  }

  lemma SyntaxExists(rt: Router, models: Models) returns (syntax: string)
    ensures AllowedSyntax(rt, models, syntax)
  {
    syntax := rt.ruleSyntax;
    if !rt.defaultRule && rt.ruleSyntax == "" {
      if m :| m in models && EndsWith(m, INTERNAL) {
        syntax := models[m].defaultRuleSyntax;
      }
    }
  }

  lemma PartExists(routers: Routers, models: Models, name: string) returns (part: Routers)
    requires name in routers
    ensures IsPart(routers, models, name, part)
  {
    var rt := routers[name];
    if rt.parentRefs.Some? {
      part := map[name := rt];
    } else {
      var syntax := SyntaxExists(rt, models);
      part := SplitExists(name, Base(rt, syntax), rt.entryPoints, |rt.entryPoints|, models);
    }
  }

  lemma {:induction false} PartsExist(routers: Routers, models: Models, names: set<string>) returns (parts: map<string, Routers>)
    requires names <= routers.Keys
    ensures parts.Keys == names && forall n :: n in names ==> IsPart(routers, models, n, parts[n])
    decreases names
  {
    parts := map[];
    if n :| n in names {
      var rest := PartsExist(routers, models, names - {n});
      var part := PartExists(routers, models, n);
      parts := rest[n := part];
    }
  }

  /** One syntax gives one part. */
  lemma SplitUnique(name: string, base: Router, eps: seq<string>, models: Models, p: Routers, q: Routers)
    requires Splits(name, base, eps, |eps|, models, p) && Splits(name, base, eps, |eps|, models, q)
    ensures p == q
  {
    forall k | k in p || k in q ensures k in p && k in q && p[k] == q[k] {
      assert IsOutput(name, eps, |eps|, models, k);
      if j :| 0 <= j < |eps| && HasModel(models, eps[j]) && k == OutputName(name, eps[j], eps) {
        assert HasModelled(name, base, eps, eps[j], models, p) && HasModelled(name, base, eps, eps[j], models, q);
      }
    }
  }

  lemma PartUnique(routers: Routers, models: Models, name: string, p: Routers, q: Routers)
    requires name in routers && SyntaxFixed(routers[name], models)
    requires IsPart(routers, models, name, p) && IsPart(routers, models, name, q)
    ensures p == q
  {
    var rt := routers[name];
    if rt.parentRefs.None? {
      if rt.entryPoints == [] {
        NoEntryPointsNoRouter(routers, models, name, p);
        NoEntryPointsNoRouter(routers, models, name, q);
      } else {
        var a :| AllowedSyntax(rt, models, a) && Splits(name, Base(rt, a), rt.entryPoints, |rt.entryPoints|, models, p);
        var b :| AllowedSyntax(rt, models, b) && Splits(name, Base(rt, b), rt.entryPoints, |rt.entryPoints|, models, q);
        SplitUnique(name, Base(rt, a), rt.entryPoints, models, p, q);
      }
    }
  }

  /** What the first pass may lead to, for some order of routers and, for each router, of models. */
  ghost predicate IsFirstPass(routers: Routers, models: Models, rts: Routers) {
    exists parts, order :: ComesFrom(routers, models, rts, parts, order)
  }

  ghost predicate ComesFrom(routers: Routers, models: Models, rts: Routers, parts: map<string, Routers>, order: seq<string>) {
    PartsOf(routers, models, parts) && IsOrderOf(routers.Keys, order) && rts == Overlay(parts, order)
  }

  ghost predicate OneFirstPass(routers: Routers, models: Models) {
    forall a, b :: IsFirstPass(routers, models, a) && IsFirstPass(routers, models, b) ==> a == b
  }

  /** The rule syntax of a part shows at every entry point. */
  lemma PartWithSyntax(routers: Routers, models: Models, name: string, syntax: string) returns (part: Routers)
    requires name in routers && routers[name].parentRefs.None? && routers[name].entryPoints != []
    requires AllowedSyntax(routers[name], models, syntax)
    ensures IsPart(routers, models, name, part)
    ensures var eps := routers[name].entryPoints;
            var k := ServedBy(name, eps, models, eps[0]); k in part && part[k].ruleSyntax == syntax
  {
    var rt := routers[name];
    part := SplitExists(name, Base(rt, syntax), rt.entryPoints, |rt.entryPoints|, models);
    ServingRouter(name, Base(rt, syntax), rt.entryPoints, models, part, rt.entryPoints[0]);
  }

  lemma PartReplaced(routers: Routers, models: Models, parts: map<string, Routers>, name: string, part: Routers)
    requires PartsOf(routers, models, parts) && name in routers && IsPart(routers, models, name, part)
    ensures PartsOf(routers, models, parts[name := part])
  {
    forall n | n in routers ensures IsPart(routers, models, n, parts[name := part][n]) {
      assert IsPart(routers, models, n, parts[n]);
    }
  }

  lemma LastPartShows(routers: Routers, models: Models, parts: map<string, Routers>, name: string, part: Routers, order: seq<string>, k: string)
    requires PartsOf(routers, models, parts) && name in routers && IsPart(routers, models, name, part) && k in part
    requires IsOrderOf(routers.Keys, order + [name])
    ensures var rts := Overlay(parts[name := part], order + [name]);
            IsFirstPass(routers, models, rts) && k in rts && rts[k] == part[k]
  {
    var more := parts[name := part];
    OverlayLast(more, order, name, k);
    assert PartsOf(routers, models, more) by { PartReplaced(routers, models, parts, name, part); }
    assert ComesFrom(routers, models, Overlay(more, order + [name]), more, order + [name]);
  }

  /** A router that may take two syntaxes has two results. */
  lemma SyntaxShows(routers: Routers, models: Models, name: string)
    requires name in routers && !SyntaxFixed(routers[name], models)
    ensures !OneFirstPass(routers, models)
  {
    var eps := routers[name].entryPoints;
    var m, n :| m in models && n in models && EndsWith(m, INTERNAL) && EndsWith(n, INTERNAL)
                && models[m].defaultRuleSyntax != models[n].defaultRuleSyntax;
    var p := PartWithSyntax(routers, models, name, models[m].defaultRuleSyntax);
    var q := PartWithSyntax(routers, models, name, models[n].defaultRuleSyntax);
    var parts := PartsExist(routers, models, routers.Keys);
    var order := OrderEndingIn(routers.Keys, name);
    var k := ServedBy(name, eps, models, eps[0]);
    LastPartShows(routers, models, parts, name, p, order, k);
    LastPartShows(routers, models, parts, name, q, order, k);
    assert Overlay(parts[name := p], order + [name]) != Overlay(parts[name := q], order + [name]);
  }

  lemma OnePassOrderFree(routers: Routers, models: Models, parts: map<string, Routers>)
    requires OneFirstPass(routers, models) && PartsOf(routers, models, parts)
    ensures OverlayOrderFree(parts)
  {
    forall a, b | IsOrderOf(parts.Keys, a) && IsOrderOf(parts.Keys, b) ensures Overlay(parts, a) == Overlay(parts, b) {
      assert ComesFrom(routers, models, Overlay(parts, a), parts, a) && ComesFrom(routers, models, Overlay(parts, b), parts, b);
      assert IsFirstPass(routers, models, Overlay(parts, a)) && IsFirstPass(routers, models, Overlay(parts, b));
    }
  }

  lemma FixedIsOnePass(routers: Routers, models: Models, a: Routers, b: Routers)
    requires forall n :: n in routers ==> SyntaxFixed(routers[n], models)
    requires forall parts :: PartsOf(routers, models, parts) ==> SameWhereClashing(routers, models, parts)
    requires IsFirstPass(routers, models, a) && IsFirstPass(routers, models, b)
    ensures a == b
  {
    var p, x :| ComesFrom(routers, models, a, p, x);
    var q, y :| ComesFrom(routers, models, b, q, y);
    PartsUnique(routers, models, p, q);
    ClashesDecide(routers, models, p);
    SameOverlay(p, x, y);
  }

  lemma PartsUnique(routers: Routers, models: Models, p: map<string, Routers>, q: map<string, Routers>)
    requires forall n :: n in routers ==> SyntaxFixed(routers[n], models)
    requires PartsOf(routers, models, p) && PartsOf(routers, models, q)
    ensures p == q
  {
    forall n | n in routers ensures p[n] == q[n] {
      PartUnique(routers, models, n, p[n], q[n]);
    }
  }

  lemma SameOverlay(parts: map<string, Routers>, x: seq<string>, y: seq<string>)
    requires OverlayOrderFree(parts) && IsOrderOf(parts.Keys, x) && IsOrderOf(parts.Keys, y)
    ensures Overlay(parts, x) == Overlay(parts, y)
  {
  }

  /**
   The first pass gives the same for every order in which routers and models are visited, if and only if
   no router takes its rule syntax from models that differ in it, and clashing routers put the same
   router there.
   */
  lemma FirstPassOrderFreeIff(routers: Routers, models: Models)
    ensures OneFirstPass(routers, models) <==>
            && (forall n :: n in routers ==> SyntaxFixed(routers[n], models))
            && (forall parts :: PartsOf(routers, models, parts) ==> SameWhereClashing(routers, models, parts))
  {
    if OneFirstPass(routers, models) {
      forall n | n in routers ensures SyntaxFixed(routers[n], models) {
        if !SyntaxFixed(routers[n], models) { SyntaxShows(routers, models, n); }
      }
      forall parts | PartsOf(routers, models, parts) ensures SameWhereClashing(routers, models, parts) {
        OnePassOrderFree(routers, models, parts);
        ClashesDecide(routers, models, parts);
      }
    } else {
      var a, b :| IsFirstPass(routers, models, a) && IsFirstPass(routers, models, b) && a != b;
      if (forall n :: n in routers ==> SyntaxFixed(routers[n], models))
         && (forall parts :: PartsOf(routers, models, parts) ==> SameWhereClashing(routers, models, parts)) {
        FixedIsOnePass(routers, models, a, b);
      }
    }
  }

  /**
   Two routers that clash in a name: if they put different routers there, the result depends on which is
   visited last, and the entry points of the router that is overwritten are then served, if at all, by
   routers that came from the other.
   */
  lemma ClashLosesRouter(
    routers: Routers, models: Models, a: string, b: string, k: string, part: Routers, other: Routers)
    requires a in routers && b in routers && IsPart(routers, models, a, part) && IsPart(routers, models, b, other)
    requires MayOutput(routers, models, a, k) && MayOutput(routers, models, b, k)
    ensures k in part && k in other
    ensures part[k] != other[k] ==> part + other != other + part
    ensures routers[a].parentRefs.None? ==>
              forall n, ep :: n in part + other && ep in part[k].entryPoints && ep in (part + other)[n].entryPoints ==> n in other
  {
    OutputsExist(routers, models, a, part, k);
    OutputsExist(routers, models, b, other, k);
    Overwritten(part, other, k);
    if routers[a].parentRefs.None? {
      forall n, ep | n in part + other && ep in part[k].entryPoints && ep in (part + other)[n].entryPoints
        ensures n in other
      {
        if n !in other {
          OneServes(routers, models, a, part, k, n, ep);
        }
      }
    }
  }

  lemma Overwritten(part: Routers, other: Routers, k: string)
    requires k in part && k in other
    ensures part[k] != other[k] ==> part + other != other + part
  {
    assert (part + other)[k] == other[k] && (other + part)[k] == part[k];
  }

  ghost predicate EntryPointsOk(name: string, eps: seq<string>, models: Models, part: Routers, k: string)
    requires k in part
  {
    && part[k].entryPoints != []
    && (forall ep :: ep in part[k].entryPoints ==> ep in eps && k == ServedBy(name, eps, models, ep))
    && (part[k].entryPoints == PlainOf(eps, models) || |part[k].entryPoints| == 1)
  }

  lemma OneOutput(name: string, base: Router, eps: seq<string>, models: Models, part: Routers, k: string)
    requires Splits(name, base, eps, |eps|, models, part) && k in part
    ensures EntryPointsOk(name, eps, models, part, k)
  {
    assert eps[..|eps|] == eps;
    PlainMembers(eps, models);
    assert IsOutput(name, eps, |eps|, models, k);
  }

  lemma {:induction false} PlainDistinct(eps: seq<string>, models: Models)
    requires DistinctNames(eps)
    ensures DistinctNames(PlainOf(eps, models))
    decreases |eps|
  {
    if eps != [] {
      var n := |eps| - 1;
      assert DistinctNames(eps[..n]);
      PlainDistinct(eps[..n], models);
      PlainMembers(eps[..n], models);
    }
  }

  /** A root router without entry points leaves nothing behind. */
  lemma NoEntryPointsNoRouter(routers: Routers, models: Models, name: string, part: Routers)
    requires name in routers && routers[name].parentRefs.None? && IsPart(routers, models, name, part)
    requires routers[name].entryPoints == []
    ensures part == map[]
  {
  }

  /** The new reference stands for the old one: it is the same and still exists, or was generated for it. */
  predicate StandsFor(r: string, ref: string, rts: Routers, generated: map<string, seq<string>>) {
    (r == ref && r in rts) || (ref in generated && r in generated[ref])
  }

  lemma {:induction false} NewRefsMember(refs: seq<string>, n: nat, rts: Routers, generated: map<string, seq<string>>, r: string)
    requires n <= |refs|
    ensures r in NewRefs(refs, n, rts, generated) <==> exists i :: 0 <= i < n && StandsFor(r, refs[i], rts, generated)
    decreases n
  {
    if n > 0 {
      NewRefsMember(refs, n - 1, rts, generated, r);
      assert r in NewRefs(refs, n, rts, generated) <==>
             r in NewRefs(refs, n - 1, rts, generated) || StandsFor(r, refs[n - 1], rts, generated);
    }
  }

  lemma {:induction false} GeneratedMembers(name: string, eps: seq<string>, n: nat, models: Models)
    requires n <= |eps|
    ensures forall k :: k in GeneratedNames(name, eps, n, models) <==>
              |eps| > 1 && exists j :: 0 <= j < n && HasModel(models, eps[j]) && k == OutputName(name, eps[j], eps)
    decreases n
  {
    if n > 0 && |eps| > 1 {
      GeneratedMembers(name, eps, n - 1, models);
    }
  }

  /** A generated name is the name of an output router. */
  lemma GeneratedExist(routers: Routers, models: Models, parts: map<string, Routers>, rts: Routers, generated: map<string, seq<string>>, n: string, k: string)
    requires IsSplit(routers, models, parts, rts, generated)
    requires n in routers && k in generated[n]
    ensures k in rts
  {
    var eps := routers[n].entryPoints;
    GeneratedMembers(n, eps, |eps|, models);
    assert routers[n].parentRefs.None?;
    assert k in parts[n];
  }

  /** Every reference of a rewritten child names an output router. */
  lemma RefsNameOutputs(
    routers: Routers, models: Models, parts: map<string, Routers>, rts: Routers, generated: map<string, seq<string>>, child: Router)
    requires IsSplit(routers, models, parts, rts, generated) && child.parentRefs.Some?
    ensures var r := Rewritten(child, rts, generated);
            r.parentRefs.Some? ==> forall ref :: ref in r.parentRefs.value ==> ref in rts
  {
    var refs := child.parentRefs.value;
    forall ref | ref in NewRefs(refs, |refs|, rts, generated) ensures ref in rts {
      NewRefsMember(refs, |refs|, rts, generated, ref);
      var i :| 0 <= i < |refs| && StandsFor(ref, refs[i], rts, generated);
      if ref !in rts {
        GeneratedExist(routers, models, parts, rts, generated, refs[i], ref);
      }
    }
  }

  /** The new references of a child together reach every entry point of each root router it referred to. */
  lemma RefsCoverEntryPoints(
    routers: Routers, models: Models, parts: map<string, Routers>, rts: Routers, generated: map<string, seq<string>>,
    child: Router, i: nat, ep: string)
    requires IsSplit(routers, models, parts, rts, generated)
    requires child.parentRefs.Some? && i < |child.parentRefs.value|
    requires var root := child.parentRefs.value[i];
             root in routers && routers[root].parentRefs.None? && ep in routers[root].entryPoints
    ensures var r := Rewritten(child, rts, generated);
            r.parentRefs.Some? && exists ref :: ref in r.parentRefs.value && ref in rts && ep in rts[ref].entryPoints
  {
    var refs := child.parentRefs.value;
    var root := refs[i];
    var eps := routers[root].entryPoints;
    EntryPointsArePartitioned(routers, models, root, parts[root]);
    var k := ServedBy(root, eps, models, ep);
    assert k in parts[root] && k in rts && ep in rts[k].entryPoints;
    NewRefsMember(refs, |refs|, rts, generated, k);
    if k != root {
      GeneratedMembers(root, eps, |eps|, models);
      assert k in generated[root];
    }
    assert StandsFor(k, refs[i], rts, generated);
  }
}
