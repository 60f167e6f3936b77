/**
 pkg/tls/certificate_store.go: the choice of a certificate for a server name, by exact or wildcard
 match over the names of each certificate, and the cache that this lookup shares with the lookup
 by domain list.
 */
module Certificates {
  import opened Wrappers
  import opened Strings

  /** A certificate, up to identity. */
  datatype Certificate = Certificate(id: nat)

  /** Certificates keyed by their sorted names joined with commas. */
  type CertMap = map<string, Certificate>

  function StripDots(d: string): string {
    if d != "" && d[|d| - 1] == '.' then StripDots(d[..|d| - 1]) else d
  }

  function Stars(k: nat): (s: seq<string>)
    ensures |s| == k && forall i :: 0 <= i < k ==> s[i] == "*"
  {
    seq(k, _ => "*")
  }

  /** The wildcard name with the first `k` labels replaced by stars. */
  function Candidate(labels: seq<string>, k: nat): string
    requires k <= |labels|
  {
    Join(Stars(k) + labels[k..], '.')
  }

  /** The pattern matches the name with `k` leading labels wild. */
  predicate MatchesAt(name: string, pattern: string, k: nat) {
    var labels := Split(name, '.');
    || (k == 0 && pattern == name)
    || (0 < k <= |labels| && StripDots(pattern) == Candidate(labels, k))
  }

  ghost predicate Matches(name: string, pattern: string) {
    exists k: nat :: MatchesAt(name, pattern, k)
  }

  lemma StarNext(labels: seq<string>, i: nat)
    requires i < |labels|
    ensures (Stars(i) + labels[i..])[i := "*"] == Stars(i + 1) + labels[i + 1..]
  {
  }

  /** matchDomain: an exact match, or a match after starring labels from the left one by one. */
  method MatchDomain(serverName: string, certDomain: string) returns (r: bool)
    ensures r <==> Matches(serverName, certDomain)
  {
    if serverName == certDomain {
      assert MatchesAt(serverName, certDomain, 0);
      return true;
    }
    var domain := certDomain;
    while |domain| > 0 && domain[|domain| - 1] == '.'
      invariant StripDots(domain) == StripDots(certDomain)
    {
      domain := domain[..|domain| - 1];
    }
    ghost var original := Split(serverName, '.');
    var labels := Split(serverName, '.');
    var i := 0;
    while i < |labels|
      invariant 0 <= i <= |labels| == |original|
      invariant labels == Stars(i) + original[i..]
      invariant forall k: nat :: k <= i ==> !MatchesAt(serverName, certDomain, k)
    {
      StarNext(original, i);
      labels := labels[i := "*"];
      var candidate := Join(labels, '.');
      if domain == candidate {
        assert MatchesAt(serverName, certDomain, i + 1);
        return true;
      }
      i := i + 1;
    }
    return false;
  }

  /** A label that keeps its rank among wildcards: it is wild, empty, or sorts above a star and what may follow one. */
  predicate Ranked(part: string) {
    part == "" || part == "*" || part[0] > '*' || (part[0] == '*' && |part| > 1 && part[1] > '.')
  }

  /** A name without commas and without a trailing dot. */
  predicate Plain(name: string) {
    ',' !in name && var labels := Split(name, '.'); labels[|labels| - 1] != ""
  }

  /** The name has no trailing dot, does not start with a wild label, and its labels all keep their rank. */
  predicate KeepsRanks(name: string) {
    var labels := Split(name, '.');
    && labels[|labels| - 1] != "" && labels[0] != "*"
    && forall i :: 0 <= i < |labels| ==> Ranked(labels[i])
  }

  /** A name without commas whose labels keep their rank. */
  predicate Proper(name: string) {
    ',' !in name && KeepsRanks(name)
  }

  // ---------------------------------------------------------------------------
  // The lexicographic maximum is the most specific match
  // ---------------------------------------------------------------------------

  /** "*." repeated. */
  function StarDots(k: nat): string {
    if k == 0 then "" else "*." + StarDots(k - 1)
  }

  lemma JoinStar(rest: seq<string>)
    requires rest != []
    ensures Join(["*"] + rest, '.') == "*." + Join(rest, '.')
  {
    assert (["*"] + rest)[1..] == rest;
    assert "*" + ['.'] == "*.";
  }

  lemma {:induction false} JoinStars(k: nat, rest: seq<string>)
    requires rest != []
    ensures Join(Stars(k) + rest, '.') == StarDots(k) + Join(rest, '.')
    decreases k
  {
    if k == 0 {
      assert Stars(0) + rest == rest;
    } else {
      var fewer := Stars(k - 1) + rest;
      assert Stars(k) + rest == ["*"] + fewer;
      JoinStar(fewer);
      JoinStars(k - 1, rest);
      assert "*." + (StarDots(k - 1) + Join(rest, '.')) == StarDots(k) + Join(rest, '.');
    }
  }

  lemma {:induction false} StripDotsIsPrefix(d: string)
    ensures StripDots(d) <= d
  {
    if d != "" && d[|d| - 1] == '.' {
      StripDotsIsPrefix(d[..|d| - 1]);
    }
  }

  /** A candidate is its stars followed by the labels that are not wild. */
  lemma CandidateText(labels: seq<string>, j: nat)
    requires j < |labels|
    ensures Candidate(labels, j) == StarDots(j) + Join(labels[j..], '.')
  {
    JoinStars(j, labels[j..]);
  }

  /** Starring a label that is a star changes nothing. */
  lemma StarredStar(labels: seq<string>, j: nat)
    requires j < |labels| && labels[j] == "*"
    ensures Candidate(labels, j) == Candidate(labels, j + 1)
  {
    assert Stars(j) + labels[j..] == Stars(j + 1) + labels[j + 1..];
  }

  /** After the stars and the star of the next label, a pattern ends or goes on with a dot. */
  lemma AfterStar(name: string, q: string, i: nat, k: nat)
    requires MatchesAt(name, q, k) && i < k
    ensures StarDots(i) + "*" <= q
    ensures |q| > |StarDots(i)| + 1 ==> q[|StarDots(i)| + 1] == '.'
  {
    var labels := Split(name, '.');
    var rest := Stars(k - i - 1) + labels[k..];
    assert Stars(k) + labels[k..] == Stars(i) + (["*"] + rest);
    JoinStars(i, ["*"] + rest);
    StripDotsIsPrefix(q);
    if rest != [] {
      JoinStar(rest);
    } else {
      assert ["*"] + rest == ["*"];
      DotsAfterStripped(q);
    }
  }

  lemma {:induction false} DotsAfterStripped(d: string)
    ensures StripDots(d) <= d && forall i :: |StripDots(d)| <= i < |d| ==> d[i] == '.'
    decreases |d|
  {
    if d != "" && d[|d| - 1] == '.' {
      DotsAfterStripped(d[..|d| - 1]);
    }
  }

  lemma CandidateIsPrefix(name: string, p: string, k: nat)
    requires MatchesAt(name, p, k)
    ensures k <= |Split(name, '.')| && Candidate(Split(name, '.'), k) <= p
  {
    var labels := Split(name, '.');
    if k == 0 {
      assert Stars(0) + labels[0..] == labels;
      JoinSplit(name, '.');
    } else {
      StripDotsIsPrefix(p);
    }
  }

  lemma LessAtDifference(a: string, b: string, n: nat)
    requires n < |a| && n < |b| && a[..n] == b[..n] && a[n] < b[n]
    ensures Less(a, b)
  {
    assert a == a[..n] + a[n..] && b == a[..n] + b[n..];
    LessAfterPrefix(a[..n], a[n..], b[n..]);
  }

  lemma LessPrefix(a: string, b: string)
    requires a < b
    ensures Less(a, b)
  {
    var rest := b[|a|..];
    assert b == a + rest && a == a + "";
    LessAfterPrefix(a, "", rest);
  }

  /** The pattern matches with `k` labels wild and with no fewer. */
  ghost predicate LeastAt(name: string, p: string, k: nat) {
    MatchesAt(name, p, k) && forall i: nat :: MatchesAt(name, p, i) ==> k <= i
  }

  lemma {:induction false} LeastMatch(name: string, p: string, k: nat) returns (m: nat)
    requires MatchesAt(name, p, k)
    ensures LeastAt(name, p, m)
    decreases k
  {
    if i: nat :| i < k && MatchesAt(name, p, i) {
      m := LeastMatch(name, p, i);
    } else {
      m := k;
    }
  }

  /** From the first label on that is not wild, a ranked label beats a star. */
  lemma RankedBeatsStar(name: string, p: string, i: nat, q: string, k: nat)
    requires var labels := Split(name, '.'); labels[|labels| - 1] != ""
    requires i < k <= |Split(name, '.')| && MatchesAt(name, q, k)
    requires Candidate(Split(name, '.'), i) <= p
    requires Ranked(Split(name, '.')[i]) && Split(name, '.')[i] != "*"
    ensures Less(q, p)
  {
    var labels := Split(name, '.');
    AfterStar(name, q, i, k);
    if labels[i] == "" {
      CandidateText(labels, i);
      assert |labels[i..]| > 1 && Join(labels[i..], '.') == "" + ['.'] + Join(labels[i..][1..], '.');
      var n := |StarDots(i)|;
      assert p[..n] == q[..n] && q[n] == '*' && p[n] == '.';
      LessAtDifference(q, p, n);
    } else {
      LabelAfterStars(labels, i);
      HigherAfterStars(StarDots(i), labels[i], p, q);
    }
  }

  lemma HigherAfterStars(stars: string, part: string, p: string, q: string)
    requires Ranked(part) && part != "" && part != "*" && stars + part <= p && stars + "*" <= q
    requires |q| > |stars| + 1 ==> q[|stars| + 1] == '.'
    ensures Less(q, p)
  {
    var n := |stars|;
    assert p[..n] == stars == q[..n] && p[n] == part[0] && q[n] == '*';
    if part[0] > '*' {
      LessAtDifference(q, p, n);
    } else {
      assert p[n + 1] == part[1] && p[..n + 1] == q[..n + 1];
      if |q| == n + 1 {
        assert q == p[..n + 1];
        LessPrefix(q, p);
      } else {
        LessAtDifference(q, p, n + 1);
      }
    }
  }

  lemma JoinBegins(parts: seq<string>)
    requires parts != []
    ensures parts[0] <= Join(parts, '.')
  {
  }

  /** Of two patterns that match, the one with fewer wild labels is the greater string. */
  lemma {:induction false} FewerStarsIsGreater(name: string, p: string, j: nat, q: string, k: nat)
    requires KeepsRanks(name) && MatchesAt(name, p, j) && LeastAt(name, q, k) && j < k
    ensures Less(q, p)
  {
    CandidateIsPrefix(name, p, j);
    CandidateIsPrefix(name, q, k);
    var i := FirstTame(name, q, j, k);
    RankedBeatsStar(name, p, i, q, k);
  }

  /** Between two degrees of matching there is a label that is not wild, and starring up to it changes nothing. */
  lemma {:induction false} FirstTame(name: string, q: string, j: nat, k: nat) returns (i: nat)
    requires KeepsRanks(name) && LeastAt(name, q, k) && j < k <= |Split(name, '.')|
    ensures j <= i < k && Split(name, '.')[i] != "*" && Candidate(Split(name, '.'), i) == Candidate(Split(name, '.'), j)
    decreases k - j
  {
    var labels := Split(name, '.');
    i := j;
    if labels[j] == "*" {
      StarredStar(labels, j);
      if j + 1 == k {
        assert MatchesAt(name, q, j);
      } else {
        i := FirstTame(name, q, j + 1, k);
      }
    }
  }

  // ---------------------------------------------------------------------------
  // The store
  // ---------------------------------------------------------------------------

  /** The certificate carries the pattern among its names. */
  ghost predicate Bears(certs: CertMap, c: Certificate, pattern: string) {
    exists key :: key in certs && certs[key] == c && pattern in Split(key, ',')
  }

  /** Some certificate carries the pattern. */
  ghost predicate Known(certs: CertMap, pattern: string) {
    exists key :: key in certs && pattern in Split(key, ',')
  }

  /** The certificate carries a pattern that matches the name with as few wild labels as any known pattern. */
  ghost predicate MostSpecific(certs: CertMap, name: string, c: Certificate) {
    exists p, k :: BestPattern(certs, name, c, p, k)
  }

  ghost predicate BestPattern(certs: CertMap, name: string, c: Certificate, p: string, k: nat) {
    && Bears(certs, c, p) && MatchesAt(name, p, k)
    && forall q, j: nat :: Known(certs, q) && MatchesAt(name, q, j) ==> k <= j
  }

  ghost predicate NothingMatches(certs: CertMap, name: string) {
    forall q :: Known(certs, q) ==> !Matches(name, q)
  }

  /** The certificate carries the pattern, and no known pattern that matches is a greater string. */
  ghost predicate ChosenBy(certs: CertMap, name: string, c: Certificate, p: string) {
    && Bears(certs, c, p) && Matches(name, p)
    && forall q :: Known(certs, q) && Matches(name, q) ==> !Less(p, q)
  }

  /** What the lookup by name may return when it scans. */
  ghost predicate Chosen(certs: CertMap, name: string, c: Certificate) {
    exists p :: ChosenBy(certs, name, c, p)
  }

  /** The greatest matching pattern is the most specific one. */
  lemma GreatestIsMostSpecific(certs: CertMap, name: string, c: Certificate, p: string)
    requires KeepsRanks(name) && ChosenBy(certs, name, c, p)
    ensures MostSpecific(certs, name, c)
  {
    var l: nat :| MatchesAt(name, p, l);
    var k := LeastMatch(name, p, l);
    forall q, j: nat | Known(certs, q) && MatchesAt(name, q, j)
      ensures k <= j
    {
      assert Matches(name, q);
      if j < k {
        FewerStarsIsGreater(name, q, j, p, k);
      }
    }
    assert BestPattern(certs, name, c, p, k);
  }

  /** A certificate that carries the name itself is most specific for it. */
  lemma ExactIsMostSpecific(certs: CertMap, name: string, c: Certificate)
    requires Bears(certs, c, name)
    ensures MostSpecific(certs, name, c)
  {
    assert BestPattern(certs, name, c, name, 0);
  }

  function Occurrences(x: string, s: seq<string>): nat {
    if s == [] then 0 else Occurrences(x, s[..|s| - 1]) + if s[|s| - 1] == x then 1 else 0
  }

  /** The number of pairs of a pattern and a domain that are equal. */
  function PairCount(patterns: seq<string>, domains: seq<string>): nat {
    if patterns == [] then 0
    else PairCount(patterns[..|patterns| - 1], domains) + Occurrences(patterns[|patterns| - 1], domains)
  }

  /** The test of the lookup by domains: the same names, or as many equal pairs as there are domains. */
  predicate Covers(certDomains: string, domains: seq<string>) {
    Join(domains, ',') == certDomains || PairCount(Split(certDomains, ','), domains) == |domains|
  }

  /** The lookup by a sorted list of domains that reads like the name may find the certificate under the key. */
  ghost predicate CoveredBy(certs: CertMap, name: string, c: Certificate, domains: seq<string>, key: string) {
    Ascending(domains) && Join(domains, ',') == name && key in certs && certs[key] == c && Covers(key, domains)
  }

  /** What the two lookups may put into the cache under the name. */
  ghost predicate CanAnswer(certs: CertMap, name: string, c: Certificate) {
    Chosen(certs, name, c) || exists domains, key :: CoveredBy(certs, name, c, domains, key)
  }

  class Store {
    var dynamicCerts: CertMap
    var cache: CertMap

    /** Every cached answer is one that a lookup may give. */
    ghost predicate Valid()
      reads this
    {
      forall name :: name in cache ==> CanAnswer(dynamicCerts, name, cache[name])
    }

    constructor (certs: CertMap)
      ensures Valid() && dynamicCerts == certs && cache == map[]
    {
      dynamicCerts := certs;
      cache := map[];
    }

    method ResetCache()
      modifies this`cache
      ensures Valid() && cache == map[]
    {
      cache := map[];
    }

    /** An entry leaves the cache when it is old. */
    method Evict(name: string)
      requires Valid()
      modifies this`cache
      ensures Valid() && cache == old(cache) - {name}
    {
      cache := cache - {name};
    }

    /** The patterns of all certificates that match the name, each with a certificate that carries it. */
    method MatchedCerts(serverName: string) returns (matched: CertMap)
      ensures forall p :: p in matched <==> Known(dynamicCerts, p) && Matches(serverName, p)
      ensures forall p :: p in matched ==> Bears(dynamicCerts, matched[p], p)
    {
      matched := map[];
      var todo := dynamicCerts.Keys;
      ghost var done: set<string> := {};
      while todo != {}
        invariant todo <= dynamicCerts.Keys && done == dynamicCerts.Keys - todo
        invariant forall p :: p in matched ==> Bears(dynamicCerts, matched[p], p) && Matches(serverName, p)
        invariant forall key, p :: key in done && p in Split(key, ',') && Matches(serverName, p) ==> p in matched
        decreases todo
      {
        var domains :| domains in todo;
        matched := AddMatches(serverName, domains, matched);
        todo := todo - {domains};
        done := done + {domains};
      }
      assert forall p :: p in matched ==> Known(dynamicCerts, p);
    }

    /** The inner loop: one certificate's patterns. */
    method AddMatches(serverName: string, domains: string, before: CertMap) returns (matched: CertMap)
      requires domains in dynamicCerts
      requires forall p :: p in before ==> Bears(dynamicCerts, before[p], p) && Matches(serverName, p)
      ensures forall p :: p in matched <==> p in before || (p in Split(domains, ',') && Matches(serverName, p))
      ensures forall p :: p in matched ==> Bears(dynamicCerts, matched[p], p) && Matches(serverName, p)
    {
      matched := before;
      var patterns := Split(domains, ',');
      for i := 0 to |patterns|
        invariant forall p :: p in matched <==> p in before || (p in patterns[..i] && Matches(serverName, p))
        invariant forall p :: p in matched ==> Bears(dynamicCerts, matched[p], p) && Matches(serverName, p)
      {
        assert patterns[i] in Split(domains, ',');
        var m := MatchDomain(serverName, patterns[i]);
        if m {
          assert Bears(dynamicCerts, dynamicCerts[domains], patterns[i]);
          matched := matched[patterns[i] := dynamicCerts[domains]];
        }
        assert patterns[..i + 1] == patterns[..i] + [patterns[i]];
      }
      assert patterns[..|patterns|] == patterns;
    }

    /** The keys of a map as a list, in some order. */
    static method KeysOf(m: CertMap) returns (keys: seq<string>)
      ensures |keys| == |m.Keys| && forall k :: k in keys <==> k in m
    {
      keys := [];
      var todo := m.Keys;
      while todo != {}
        invariant todo <= m.Keys && |keys| + |todo| == |m.Keys|
        invariant forall k :: k in keys <==> k in m && k !in todo
        decreases todo
      {
        var k :| k in todo;
        todo := todo - {k};
        keys := keys + [k];
      }
    }

    /** The last key after sorting. */
    static method Greatest(m: CertMap) returns (best: string)
      requires m != map[]
      ensures best in m && forall q :: q in m ==> !Less(best, q)
    {
      var keys := KeysOf(m);
      assert exists k :: k in m;
      SortLast(keys);
      best := Sort(keys)[|keys| - 1];
    }

    /**
     For a proper name, and for any other that is always answered right, cached or not, the answer is a
     certificate carrying the most specific matching pattern; there is no answer only if nothing matches.
     */
    method GetBestCertificate(serverName: string) returns (r: Option<Certificate>)
      requires Valid()
      modifies this`cache
      ensures Valid()
      ensures r.Some? ==> CanAnswer(dynamicCerts, serverName, r.value)
      ensures (Proper(serverName) || AlwaysRight(serverName)) && r.Some? ==>
                MostSpecific(dynamicCerts, serverName, r.value)
      ensures r.None? ==> NothingMatches(dynamicCerts, serverName)
      ensures serverName in old(cache) ==> r == Some(old(cache)[serverName])
      ensures serverName !in old(cache) && r.Some? ==> Chosen(dynamicCerts, serverName, r.value)
      ensures r.None? ==> cache == old(cache)
      ensures r.Some? ==> cache == old(cache)[serverName := r.value]
    {
      if Proper(serverName) { ProperIsAlwaysRight(serverName); }
      if serverName in cache {
        assert CanAnswer(dynamicCerts, serverName, cache[serverName]);
        return Some(cache[serverName]);
      }
      var matched := MatchedCerts(serverName);
      if matched == map[] {
        assert forall p :: p !in matched;
        return None;
      }
      var best := Greatest(matched);
      var certificate := matched[best];
      assert ChosenBy(dynamicCerts, serverName, certificate, best);
      assert CanAnswer(dynamicCerts, serverName, certificate);
      cache := cache[serverName := certificate];
      return Some(certificate);
    }

    /** Counts the pairs of equal names. */
    static method CountMatches(patterns: seq<string>, domains: seq<string>) returns (n: nat)
      ensures n == PairCount(patterns, domains)
    {
      n := 0;
      for i := 0 to |patterns|
        invariant n == PairCount(patterns[..i], domains)
      {
        for j := 0 to |domains|
          invariant n == PairCount(patterns[..i], domains) + Occurrences(patterns[i], domains[..j])
        {
          assert domains[..j + 1][..j] == domains[..j];
          if patterns[i] == domains[j] {
            n := n + 1;
          }
        }
        assert domains[..|domains|] == domains;
        assert patterns[..i + 1][..i] == patterns[..i];
      }
      assert patterns[..|patterns|] == patterns;
    }

    /** A cached answer, else any certificate that covers the domains, which is then cached under their joined names. */
    method GetCertificate(domainList: seq<string>) returns (r: Option<Certificate>)
      requires Valid()
      modifies this`cache
      ensures Valid()
      ensures var key := Join(Sort(domainList), ',');
              && (key in old(cache) ==> r == Some(old(cache)[key]))
              && (key !in old(cache) && r.Some? ==>
                    exists d :: d in dynamicCerts && dynamicCerts[d] == r.value && Covers(d, Sort(domainList)))
              && (r.None? ==> forall d :: d in dynamicCerts ==> !Covers(d, Sort(domainList)))
              && cache == if r.Some? then old(cache)[key := r.value] else old(cache)
    {
      var domains := Sort(domainList);
      var domainsKey := Join(domains, ',');
      if domainsKey in cache {
        return Some(cache[domainsKey]);
      }
      var todo := dynamicCerts.Keys;
      while todo != {}
        invariant todo <= dynamicCerts.Keys && cache == old(cache) && Valid()
        invariant forall d :: d in dynamicCerts && d !in todo ==> !Covers(d, domains)
        decreases todo
      {
        var certDomains :| certDomains in todo;
        var cert := dynamicCerts[certDomains];
        var patterns := Split(certDomains, ',');
        var matches := CountMatches(patterns, domains);
        if domainsKey == certDomains || matches == |domains| {
          assert Covers(certDomains, Sort(domainList));
          SortSorts(domainList);
          assert CoveredBy(dynamicCerts, domainsKey, cert, domains, certDomains);
          cache := cache[domainsKey := cert];
          return Some(cert);
        }
        todo := todo - {certDomains};
      }
      return None;
    }
  }

  /** Whatever certificates there are, whatever a lookup may answer for the name is most specific for it. */
  ghost predicate AlwaysRight(name: string) {
    forall certs, c :: CanAnswer(certs, name, c) ==> MostSpecific(certs, name, c)
  }

  /** What the lookup by domains caches under a proper name is right for the lookup by name. */
  lemma CachedByDomains(certs: CertMap, domains: seq<string>, certDomains: string)
    requires certDomains in certs && Covers(certDomains, domains)
    ensures var key := Join(domains, ',');
            Proper(key) ==> MostSpecific(certs, key, certs[certDomains])
  {
    var key := Join(domains, ',');
    if Proper(key) {
      EmptyIsNotProper();
      if |domains| > 1 { JoinHasSeparator(domains, ','); }
      if key == certDomains {
        SplitWithoutSeparator(key, ',');
      } else {
        var x := PairFound(Split(certDomains, ','), domains);
      }
      ExactIsMostSpecific(certs, key, certs[certDomains]);
    }
  }

  /** A proper name is always answered right, from the cache or by a scan. */
  lemma ProperIsAlwaysRight(name: string)
    requires Proper(name)
    ensures AlwaysRight(name)
  {
    forall certs, c | CanAnswer(certs, name, c) ensures MostSpecific(certs, name, c) {
      if Chosen(certs, name, c) {
        var p :| ChosenBy(certs, name, c, p);
        GreatestIsMostSpecific(certs, name, c, p);
      } else {
        var domains, key :| CoveredBy(certs, name, c, domains, key);
        CachedByDomains(certs, domains, key);
      }
    }
  }

  lemma {:induction false} OccursIn(x: string, s: seq<string>)
    requires Occurrences(x, s) > 0
    ensures x in s
    decreases |s|
  {
    if s[|s| - 1] != x { OccursIn(x, s[..|s| - 1]); }
  }

  /** A pair of equal names is a name on both sides. */
  lemma {:induction false} PairFound(patterns: seq<string>, domains: seq<string>) returns (x: string)
    requires PairCount(patterns, domains) > 0
    ensures x in patterns && x in domains
    decreases |patterns|
  {
    var n := |patterns| - 1;
    if Occurrences(patterns[n], domains) > 0 {
      x := patterns[n];
      OccursIn(x, domains);
    } else {
      x := PairFound(patterns[..n], domains);
    }
  }

  lemma EmptyIsNotProper()
    ensures !Proper("")
  {
    assert Split("", '.')[0] == "";
  }

  // ---------------------------------------------------------------------------
  // Filling the stores
  // ---------------------------------------------------------------------------

  type Stores = map<string, CertMap>

  function StoreOf(certs: Stores, name: string): CertMap {
    if name in certs then certs[name] else map[]
  }

  /** Names that the key of a certificate keeps apart: some, and none with a comma. */
  predicate Separable(names: seq<string>) {
    names != [] && forall i :: 0 <= i < |names| ==> ',' !in names[i]
  }

  /** The patterns that a store finds in the key of a certificate with these names. */
  function Patterns(names: seq<string>): seq<string> {
    Split(Join(Sort(names), ','), ',')
  }

  /** They are the names, if the key keeps them apart. */
  lemma KeySplits(names: seq<string>, p: string)
    requires Separable(names)
    ensures p in Patterns(names) <==> p in names
  {
    var sorted := Sort(names);
    SortSorts(names);
    forall i | 0 <= i < |sorted| ensures ',' !in sorted[i] {
      assert sorted[i] in sorted;
    }
    SplitJoin(sorted, ',');
  }

  /** A certificate added to a store under its names adds exactly its patterns to what the store knows. */
  lemma AddedNames(store: CertMap, names: seq<string>, c: Certificate, p: string)
    ensures var key := Join(Sort(names), ',');
            Known(if key in store then store else store[key := c], p) <==> Known(store, p) || p in Patterns(names)
  {
    var key := Join(Sort(names), ',');
    var after := if key in store then store else store[key := c];
    assert key in after;
    if Known(store, p) {
      var k :| k in store && p in Split(k, ',');
      assert k in after;
    }
  }

  /**
   Adds a certificate under its sorted names to a store, unless the store already has one under them.
   Every other entry stays, and the lookup by name can then match exactly the patterns of the certificate
   besides those it could before.
   */
  method AppendCertificate(certs: Stores, subjectAltNames: seq<string>, storeName: string, cert: Certificate)
    returns (r: Stores)
    ensures r.Keys == certs.Keys + {storeName} && forall s :: s in certs && s != storeName ==> r[s] == certs[s]
    ensures forall key :: key in StoreOf(certs, storeName) ==>
              key in r[storeName] && r[storeName][key] == certs[storeName][key]
    ensures forall p :: Known(r[storeName], p) <==> Known(StoreOf(certs, storeName), p) || p in Patterns(subjectAltNames)
  {
    var certKey := Join(Sort(subjectAltNames), ',');
    r := certs;
    if storeName !in r {
      r := r[storeName := map[]];
    }
    if certKey !in r[storeName] {
      r := r[storeName := r[storeName][certKey := cert]];
    }
    forall p ensures Known(r[storeName], p) <==> Known(StoreOf(certs, storeName), p) || p in Patterns(subjectAltNames) {
      AddedNames(StoreOf(certs, storeName), subjectAltNames, cert, p);
    }
  }

  /** A certificate with its names and the stores it is configured for. */
  datatype Configured = Configured(names: seq<string>, stores: seq<string>, cert: Certificate)

  const DEFAULT_STORE := "default"

  /** Without a store a certificate goes to the default store. */
  function TargetStores(c: Configured): seq<string> {
    if c.stores == [] then [DEFAULT_STORE] else c.stores
  }

  ghost predicate Supplies(c: Configured, store: string, p: string) {
    store in TargetStores(c) && p in Patterns(c.names)
  }

  ghost predicate Supplied(confs: seq<Configured>, store: string, p: string) {
    exists i :: 0 <= i < |confs| && Supplies(confs[i], store, p)
  }

  lemma SuppliedNext(confs: seq<Configured>, n: nat, store: string, p: string)
    requires n < |confs|
    ensures Supplied(confs[..n + 1], store, p) <==> Supplied(confs[..n], store, p) || Supplies(confs[n], store, p)
  {
    if Supplied(confs[..n], store, p) {
      var i :| 0 <= i < n && Supplies(confs[..n][i], store, p);
      assert confs[..n + 1][i] == confs[..n][i];
    }
    if Supplies(confs[n], store, p) {
      assert confs[..n + 1][n] == confs[n];
    }
  }

  /** The stores know the names besides what they knew before. */
  ghost predicate AddedTo(certs: Stores, r: Stores, stores: seq<string>, names: seq<string>, s: string, p: string) {
    Known(StoreOf(r, s), p) <==> Known(StoreOf(certs, s), p) || (s in stores && p in Patterns(names))
  }

  /** One certificate put into all its stores. */
  method AppendToStores(certs: Stores, c: Configured) returns (r: Stores)
    ensures forall s, p :: AddedTo(certs, r, TargetStores(c), c.names, s, p)
  {
    r := certs;
    var stores := TargetStores(c);
    for i := 0 to |stores|
      invariant forall s, p :: AddedTo(certs, r, stores[..i], c.names, s, p)
    {
      ghost var done := stores[..i + 1];
      assert done == stores[..i] + [stores[i]];
      ghost var before := r;
      r := AppendCertificate(r, c.names, stores[i], c.cert);
      forall s, p ensures AddedTo(certs, r, done, c.names, s, p) {
        assert AddedTo(certs, before, stores[..i], c.names, s, p);
        if s != stores[i] {
          assert StoreOf(r, s) == StoreOf(before, s);
        }
      }
    }
    assert stores[..|stores|] == stores;
  }

  /**
   All configured certificates: a store knows a pattern exactly when a certificate configured for it has it
   in its key. For certificates with names that the key keeps apart, the patterns are the names.
   */
  method LoadCertificates(confs: seq<Configured>) returns (r: Stores)
    ensures forall s, p :: Known(StoreOf(r, s), p) <==> Supplied(confs, s, p)
    ensures forall i, p :: 0 <= i < |confs| && Separable(confs[i].names) ==>
              (p in Patterns(confs[i].names) <==> p in confs[i].names)
  {
    r := map[];
    for i := 0 to |confs|
      invariant forall s, p :: Known(StoreOf(r, s), p) <==> Supplied(confs[..i], s, p)
    {
      ghost var before := r;
      r := AppendToStores(r, confs[i]);
      forall s, p ensures Known(StoreOf(r, s), p) <==> Supplied(confs[..i + 1], s, p) {
        SuppliedNext(confs, i, s, p);
        assert AddedTo(before, r, TargetStores(confs[i]), confs[i].names, s, p);
      }
    }
    assert confs[..|confs|] == confs;
    forall i, p | 0 <= i < |confs| && Separable(confs[i].names)
      ensures p in Patterns(confs[i].names) <==> p in confs[i].names
    {
      KeySplits(confs[i].names, p);
    }
  }

  // ---------------------------------------------------------------------------
  // Exactly which names are safe
  // ---------------------------------------------------------------------------

  lemma {:induction false} JoinSuffix(parts: seq<string>, j: nat) returns (prefix: string)
    requires j < |parts|
    ensures Join(parts, '.') == prefix + Join(parts[j..], '.')
    decreases j
  {
    if j == 0 {
      assert parts[0..] == parts;
      prefix := "";
    } else {
      var rest := JoinSuffix(parts[1..], j - 1);
      assert parts[1..][j - 1..] == parts[j..];
      prefix := parts[0] + ['.'] + rest;
    }
  }

  lemma {:induction false} TrailingDot(name: string)
    requires name != "" && name[|name| - 1] == '.'
    ensures var labels := Split(name, '.'); labels[|labels| - 1] == ""
    decreases |name|
  {
    if |name| > 1 {
      TrailingDot(name[1..]);
    }
  }

  lemma {:induction false} StarDotsChars(k: nat)
    ensures ',' !in StarDots(k)
  {
    if k > 0 {
      StarDotsChars(k - 1);
    }
  }

  lemma {:induction false} JoinEnds(parts: seq<string>)
    requires parts != [] && parts[|parts| - 1] != ""
    ensures Join(parts, '.') != ""
    decreases |parts|
  {
    if |parts| > 1 {
      JoinEnds(parts[1..]);
    }
  }

  lemma AllStarred(labels: seq<string>)
    requires labels != []
    ensures Candidate(labels, |labels|) == StarDots(|labels| - 1) + "*"
  {
    var n := |labels|;
    assert Stars(n) + labels[n..] == Stars(n - 1) + ["*"];
    JoinStars(n - 1, ["*"]);
  }

  /** The end of a plain name, from some label on. */
  lemma PlainTail(name: string, k: nat)
    requires Plain(name) && k < |Split(name, '.')|
    ensures var tail := Join(Split(name, '.')[k..], '.');
            tail != "" && ',' !in tail && tail[|tail| - 1] != '.'
  {
    var labels := Split(name, '.');
    var prefix := JoinSuffix(labels, k);
    var tail := Join(labels[k..], '.');
    JoinSplit(name, '.');
    JoinEnds(labels[k..]);
    assert name == prefix + tail && name[|name| - 1] == tail[|tail| - 1];
    if tail[|tail| - 1] == '.' { TrailingDot(name); }
  }

  /** A wildcard form of a plain name has no comma and no trailing dot. */
  lemma CandidateIsPlain(name: string, k: nat)
    requires Plain(name) && k <= |Split(name, '.')|
    ensures var q := Candidate(Split(name, '.'), k);
            ',' !in q && q != "" && q[|q| - 1] != '.' && StripDots(q) == q
  {
    var labels := Split(name, '.');
    if k == |labels| {
      AllStarred(labels);
      StarDotsChars(k - 1);
    } else {
      PlainTail(name, k);
      CandidateText(labels, k);
      StarDotsChars(k);
    }
  }

  /** A candidate gives back its labels. */
  lemma CandidateSplits(name: string, k: nat)
    requires k <= |Split(name, '.')|
    ensures Split(Candidate(Split(name, '.'), k), '.') == Stars(k) + Split(name, '.')[k..]
  {
    var labels := Split(name, '.');
    var parts := Stars(k) + labels[k..];
    forall i | 0 <= i < |parts| ensures '.' !in parts[i] {
      if i >= k { PartsHaveNoSeparator(name, '.', i); }
    }
    SplitJoin(parts, '.');
  }

  /** A candidate that stars a tame label does not match with that label tame. */
  lemma CandidatesDiffer(name: string, i: nat, j: nat)
    requires i <= j < |Split(name, '.')| && Split(name, '.')[j] != "*"
    ensures Candidate(Split(name, '.'), i) != Candidate(Split(name, '.'), j + 1)
  {
    var labels := Split(name, '.');
    CandidateSplits(name, i);
    CandidateSplits(name, j + 1);
    assert (Stars(i) + labels[i..])[j] == labels[j];
    assert (Stars(j + 1) + labels[j + 1..])[j] == "*";
  }

  /** A certificate is not most specific when a known pattern matches with fewer stars than any of its own. */
  lemma MoreSpecificKnown(certs: CertMap, name: string, c: Certificate, q: string, k: nat, p: string, j: nat)
    requires forall x :: Bears(certs, c, x) ==> x == q
    requires forall i: nat :: MatchesAt(name, q, i) ==> i >= k
    requires Known(certs, p) && MatchesAt(name, p, j) && j < k
    ensures !MostSpecific(certs, name, c)
  {
  }

  lemma TwoPatterns(p: string, q: string, specific: Certificate, wild: Certificate)
    requires ',' !in p && ',' !in q && p != q && specific != wild
    ensures var certs := map[p := specific, q := wild];
            && (forall x :: Known(certs, x) <==> x == p || x == q)
            && (forall x :: Bears(certs, wild, x) <==> x == q)
  {
    var certs := map[p := specific, q := wild];
    SplitWithoutSeparator(p, ',');
    SplitWithoutSeparator(q, ',');
    assert p in certs && q in certs;
  }

  /** A greater pattern with more stars is preferred to a smaller one with fewer. */
  lemma GreaterWins(name: string, p: string, j: nat, q: string, k: nat, specific: Certificate, wild: Certificate)
    requires ',' !in p && ',' !in q && specific != wild && Less(p, q)
    requires MatchesAt(name, p, j) && LeastAt(name, q, k) && j < k
    ensures var certs := map[p := specific, q := wild];
            Chosen(certs, name, wild) && !MostSpecific(certs, name, wild)
  {
    var certs := map[p := specific, q := wild];
    NotLessSelf(q);
    TwoPatterns(p, q, specific, wild);
    LessAsymmetric(p, q);
    assert ChosenBy(certs, name, wild, q);
    MoreSpecificKnown(certs, name, wild, q, k, p, j);
  }

  /** A name that starts with a wild label: with a trailing dot it is a wildcard that sorts above itself. */
  lemma WildFirstLoses(name: string, specific: Certificate, wild: Certificate)
    requires Plain(name) && Split(name, '.')[0] == "*" && specific != wild
    ensures var certs := map[name := specific, name + "." := wild];
            Chosen(certs, name, wild) && !MostSpecific(certs, name, wild)
  {
    DottedNameMatches(name);
    LessPrefix(name, name + ".");
    GreaterWins(name, name, 0, name + ".", 1, specific, wild);
  }

  lemma DottedNameMatches(name: string)
    requires Plain(name) && Split(name, '.')[0] == "*"
    ensures LeastAt(name, name + ".", 1)
  {
    var labels := Split(name, '.');
    var q := name + ".";
    StarredStar(labels, 0);
    CandidateIsPlain(name, 0);
    assert Stars(0) + labels[0..] == labels;
    JoinSplit(name, '.');
    assert q[..|q| - 1] == name;
    assert MatchesAt(name, q, 1);
  }

  /** The pattern that stars the labels up to and including one, with a trailing dot if it stars them all. */
  function StarredTo(labels: seq<string>, j: nat): string
    requires j < |labels|
  {
    Candidate(labels, j + 1) + if j + 1 == |labels| then "." else ""
  }

  lemma StarredToLeast(name: string, j: nat)
    requires Plain(name) && j < |Split(name, '.')| && Split(name, '.')[j] != "*"
    ensures var q := StarredTo(Split(name, '.'), j);
            LeastAt(name, q, j + 1) && ',' !in q
  {
    var labels := Split(name, '.');
    var c, q := Candidate(labels, j + 1), StarredTo(labels, j);
    CandidateIsPlain(name, j + 1);
    if j + 1 == |labels| {
      assert q[..|q| - 1] == c;
    } else {
      assert q == c;
    }
    assert StripDots(q) == c;
    forall i: nat | MatchesAt(name, q, i) ensures j + 1 <= i {
      if i <= j {
        CandidatesDiffer(name, i, j);
        if i == 0 {
          assert Stars(0) + labels[0..] == labels;
          JoinSplit(name, '.');
          CandidateIsPlain(name, 0);
        }
      }
    }
  }

  /** A label out of rank makes the choice prefer a wildcard to a more specific pattern. */
  lemma UnrankedLoses(name: string, j: nat, specific: Certificate, wild: Certificate)
    requires Plain(name) && j < |Split(name, '.')| && !Ranked(Split(name, '.')[j]) && specific != wild
    ensures var labels := Split(name, '.');
            var certs := map[Candidate(labels, j) := specific, StarredTo(labels, j) := wild];
            Chosen(certs, name, wild) && !MostSpecific(certs, name, wild)
  {
    var labels := Split(name, '.');
    var p, q := Candidate(labels, j), StarredTo(labels, j);
    CandidateIsPlain(name, j);
    if j == 0 {
      assert Stars(0) + labels[0..] == labels;
      JoinSplit(name, '.');
    }
    assert MatchesAt(name, p, j);
    StarredToLeast(name, j);
    StarBeatsUnranked(name, j);
    GreaterWins(name, p, j, q, j + 1, specific, wild);
  }

  /** How the two patterns go on after the stars they share. */
  lemma LabelAfterStars(labels: seq<string>, j: nat)
    requires j < |labels|
    ensures StarDots(j) + labels[j] <= Candidate(labels, j)
  {
    CandidateText(labels, j);
    JoinBegins(labels[j..]);
  }

  lemma StarAfterStars(labels: seq<string>, j: nat)
    requires j < |labels|
    ensures StarDots(j) + "*." <= StarredTo(labels, j)
  {
    if j + 1 == |labels| {
      AllStarred(labels);
      assert StarredTo(labels, j) == StarDots(j) + "*.";
    } else {
      var rest := labels[j + 1..];
      assert Stars(j + 1) + rest == Stars(j) + (["*"] + rest);
      JoinStars(j, ["*"] + rest);
      JoinStar(rest);
      assert StarredTo(labels, j) == StarDots(j) + "*." + Join(rest, '.');
    }
  }

  lemma StarBeatsUnranked(name: string, j: nat)
    requires Plain(name) && j < |Split(name, '.')| && !Ranked(Split(name, '.')[j])
    ensures Less(Candidate(Split(name, '.'), j), StarredTo(Split(name, '.'), j))
  {
    var labels := Split(name, '.');
    LabelAfterStars(labels, j);
    StarAfterStars(labels, j);
    PartsHaveNoSeparator(name, '.', j);
    LowerAfterStars(StarDots(j), labels[j], Candidate(labels, j), StarredTo(labels, j));
  }

  lemma LowerAfterStars(stars: string, part: string, p: string, q: string)
    requires !Ranked(part) && '.' !in part && stars + part <= p && stars + "*." <= q
    ensures Less(p, q)
  {
    var n := |stars|;
    assert p[..n] == stars == q[..n] && p[n] == part[0] && q[n] == '*';
    if part[0] < '*' {
      LessAtDifference(p, q, n);
    } else {
      assert part[1] in part && p[n + 1] == part[1] && q[n + 1] == '.' && p[..n + 1] == q[..n + 1];
      LessAtDifference(p, q, n + 1);
    }
  }

  /** For plain names, the scan is right with every set of certificates if and only if the name is proper. */
  lemma ChoiceIsRightIffProper(name: string)
    requires Plain(name)
    ensures (forall certs, c :: Chosen(certs, name, c) ==> MostSpecific(certs, name, c)) <==> Proper(name)
  {
    var labels := Split(name, '.');
    if Proper(name) {
      forall certs, c | Chosen(certs, name, c) ensures MostSpecific(certs, name, c) {
        var p :| ChosenBy(certs, name, c, p);
        GreatestIsMostSpecific(certs, name, c, p);
      }
    } else if labels[0] == "*" {
      WildFirstLoses(name, Certificate(0), Certificate(1));
    } else {
      var j :| 0 <= j < |labels| && !Ranked(labels[j]);
      UnrankedLoses(name, j, Certificate(0), Certificate(1));
    }
  }

  /** Plain names are always answered right, from the cache or by a scan, if and only if they are proper. */
  lemma PlainAlwaysRightIff(name: string)
    requires Plain(name)
    ensures AlwaysRight(name) <==> Proper(name)
  {
    if Proper(name) {
      ProperIsAlwaysRight(name);
    } else {
      ChoiceIsRightIffProper(name);
      var certs, c :| Chosen(certs, name, c) && !MostSpecific(certs, name, c);
      assert CanAnswer(certs, name, c);
    }
  }

  // ---------------------------------------------------------------------------
  // Names with a comma
  // ---------------------------------------------------------------------------

  /** All labels are there and start above the star. */
  predicate HighLabels(name: string) {
    var labels := Split(name, '.');
    forall i :: 0 <= i < |labels| ==> labels[i] != "" && labels[i][0] > '*'
  }

  /** The list is sorted, reads like the name when joined, and one of its several domains has no comma. */
  ghost predicate Reads(name: string, domains: seq<string>) {
    && |domains| > 1 && Ascending(domains) && Join(domains, ',') == name
    && exists i :: 0 <= i < |domains| && ',' !in domains[i]
  }

  /**
   A name with a comma that a certificate under this very key may answer for, and that no list of several
   domains with a comma-free one reads like.
   */
  ghost predicate SafeComma(name: string) {
    && (exists p :: p in Split(name, ',') && Matches(name, p))
    && !exists domains :: Reads(name, domains)
  }

  lemma KeyPartHasNoComma(key: string, p: string)
    requires p in Split(key, ',')
    ensures ',' !in p
  {
    var i :| 0 <= i < |Split(key, ',')| && Split(key, ',')[i] == p;
    PartsHaveNoSeparator(key, ',', i);
  }

  /** A dot and a star in a row start a label with a star. */
  lemma {:induction false} DotStarLabel(name: string, n: nat)
    requires n + 1 < |name| && name[n] == '.' && name[n + 1] == '*'
    ensures exists i :: 1 <= i < |Split(name, '.')| && Split(name, '.')[i] != "" && Split(name, '.')[i][0] == '*'
    decreases n
  {
    var rest, labels := Split(name[1..], '.'), Split(name, '.');
    if n == 0 {
      assert labels[1] == rest[0] && rest[0][0] == '*';
    } else {
      DotStarLabel(name[1..], n - 1);
      var i :| 1 <= i < |rest| && rest[i] != "" && rest[i][0] == '*';
      assert labels[if name[0] == '.' then i + 1 else i] == rest[i];
    }
  }

  /** A pattern that stars two labels begins like this. */
  lemma TwoStarsBegin(name: string, p: string, k: nat)
    requires k >= 2 && MatchesAt(name, p, k)
    ensures |p| > 2 && p[1] == '.' && p[2] == '*'
  {
    AfterStar(name, p, 1, k);
    assert StarDots(1) == "*." + StarDots(0);
  }

  /** A part of a name with high labels stars one label of it at most. */
  lemma PartStarsOne(name: string, p: string, k: nat)
    requires HighLabels(name) && p in Split(name, ',') && MatchesAt(name, p, k)
    ensures k <= 1
  {
    if k >= 2 {
      var i :| 0 <= i < |Split(name, ',')| && Split(name, ',')[i] == p;
      var a, b := PartIsInside(name, ',', i);
      TwoStarsBegin(name, p, k);
      assert name[|a| + 1] == p[1] && name[|a| + 2] == p[2];
      DotStarLabel(name, |a| + 1);
      assert false;
    }
  }

  /** What is found under the name as key is right, if a part of the name matches it. */
  lemma OwnKeyIsRight(certs: CertMap, name: string, p: string)
    requires HighLabels(name) && ',' in name && name in certs && p in Split(name, ',') && Matches(name, p)
    ensures MostSpecific(certs, name, certs[name])
  {
    var k: nat :| MatchesAt(name, p, k);
    PartStarsOne(name, p, k);
    KeyPartHasNoComma(name, p);
    forall q, j: nat | Known(certs, q) && MatchesAt(name, q, j) ensures k <= j {
      var key :| key in certs && q in Split(key, ',');
      KeyPartHasNoComma(key, q);
    }
    assert BestPattern(certs, name, certs[name], p, k);
  }

  /** Domains of which none is a comma-free one among several are covered only by their own key. */
  lemma OnlyOwnKey(name: string, domains: seq<string>, key: string)
    requires ',' in name && Ascending(domains) && Join(domains, ',') == name && !Reads(name, domains)
    requires Covers(key, domains)
    ensures key == name
  {
    if key != name {
      assert domains != [];
      var x := PairFound(Split(key, ','), domains);
      KeyPartHasNoComma(key, x);
      assert false;
    }
  }

  lemma SafeIsAlwaysRight(name: string)
    requires HighLabels(name) && ',' in name && SafeComma(name)
    ensures AlwaysRight(name)
  {
    var p :| p in Split(name, ',') && Matches(name, p);
    forall certs, c | CanAnswer(certs, name, c) ensures MostSpecific(certs, name, c) {
      if Chosen(certs, name, c) {
        var q :| ChosenBy(certs, name, c, q);
        GreatestIsMostSpecific(certs, name, c, q);
      } else {
        var domains, key :| CoveredBy(certs, name, c, domains, key);
        OnlyOwnKey(name, domains, key);
        OwnKeyIsRight(certs, name, p);
      }
    }
  }

  // The other direction: a certificate that does not match at all.

  /** One certificate under the key, found by the lookup by domains and cached under the name, though nothing matches. */
  ghost predicate Misleads(name: string, domains: seq<string>, key: string) {
    && Ascending(domains) && Join(domains, ',') == name && Covers(key, domains)
    && forall p :: p in Split(key, ',') ==> !Matches(name, p)
  }

  lemma MisleadsIsWrong(name: string, domains: seq<string>, key: string, c: Certificate)
    requires Misleads(name, domains, key)
    ensures CanAnswer(map[key := c], name, c) && NothingMatches(map[key := c], name)
    ensures !MostSpecific(map[key := c], name, c)
  {
    var certs := map[key := c];
    assert CoveredBy(certs, name, c, domains, key);
    assert forall q :: Known(certs, q) ==> q in Split(key, ',');
    forall p, k: nat | Bears(certs, c, p) ensures !MatchesAt(name, p, k) {
      assert !Matches(name, p);
    }
  }

  /** A name none of whose parts matches it misleads as its own key. */
  lemma NoPartMisleads(name: string)
    requires forall p :: p in Split(name, ',') ==> !Matches(name, p)
    ensures Misleads(name, [name], name)
  {
    assert Join([name], ',') == name;
  }

  /** A wildcard match starts with a star. */
  lemma MatchStartsWithStar(name: string, p: string)
    requires Matches(name, p) && p != name
    ensures p != "" && p[0] == '*'
  {
    var k: nat :| MatchesAt(name, p, k);
    AfterStar(name, p, 0, k);
  }

  function Copies(x: string, m: nat): seq<string> {
    seq(m, _ => x)
  }

  lemma {:induction false} CopiesCount(x: string, m: nat, domains: seq<string>)
    ensures PairCount(Copies(x, m), domains) == m * Occurrences(x, domains)
    decreases m
  {
    if m > 0 {
      assert Copies(x, m)[..m - 1] == Copies(x, m - 1);
      CopiesCount(x, m - 1, domains);
    }
  }

  /** As many copies of a comma-free domain as make up the count cover the domains. */
  lemma CopiesCover(x: string, m: nat, domains: seq<string>)
    requires ',' !in x && m > 0 && m * Occurrences(x, domains) == |domains|
    ensures var key := Join(Copies(x, m), ',');
            Covers(key, domains) && forall p :: p in Split(key, ',') ==> p == x
  {
    SplitJoin(Copies(x, m), ',');
    CopiesCount(x, m, domains);
  }

  lemma {:induction false} JoinConcat(a: seq<string>, b: seq<string>)
    requires a != [] && b != []
    ensures Join(a + b, ',') == Join(a, ',') + [','] + Join(b, ',')
    decreases |a|
  {
    if |a| == 1 {
      assert (a + b)[1..] == b;
    } else {
      JoinConcat(a[1..], b);
      assert (a + b)[1..] == a[1..] + b;
      assert a[0] + [','] + (Join(a[1..], ',') + [','] + Join(b, ','))
          == (a[0] + [','] + Join(a[1..], ',')) + [','] + Join(b, ',');
    }
  }

  lemma JoinFirst(a: seq<string>)
    requires a != []
    ensures a[0] <= Join(a, ',') && (|a| > 1 ==> ',' in Join(a, ','))
  {
    if |a| > 1 { JoinHasSeparator(a, ','); }
  }

  /** A string is not less than what it starts with. */
  lemma PrefixNotGreater(a: string, b: string)
    requires a <= b
    ensures !Less(b, a)
  {
    if a == b { NotLessSelf(a); } else { LessPrefix(a, b); LessAsymmetric(a, b); }
  }

  /** The rest of a sorted list, joined, is not less than what comes before it. */
  lemma RestNotLess(domains: seq<string>, i: nat)
    requires Ascending(domains) && i + 1 < |domains|
    ensures !Less(Join(domains[i + 1..], ','), domains[i])
  {
    JoinFirst(domains[i + 1..]);
    PrefixNotGreater(domains[i + 1], Join(domains[i + 1..], ','));
    LessTransitive(domains[i], domains[i + 1], Join(domains[i + 1..], ','));
  }

  /** What extends a string with a comma stays below a greater string without one. */
  lemma {:induction false} ExtensionStaysBelow(a: string, longer: string, x: string)
    requires ',' in a && ',' !in x && a <= longer && !Less(x, a)
    ensures !Less(x, longer)
    decreases |a|
  {
    if x != "" && longer[0] == x[0] && a[0] == x[0] {
      assert a == [a[0]] + a[1..];
      ExtensionStaysBelow(a[1..], longer[1..], x[1..]);
    }
  }

  lemma OccursNext(x: string, s: seq<string>, y: string)
    ensures Occurrences(x, s + [y]) == Occurrences(x, s) + if y == x then 1 else 0
  {
    assert (s + [y])[..|s|] == s;
  }

  lemma FrontPair(domains: seq<string>)
    requires Ascending(domains) && |domains| > 1
    ensures var two := [domains[0], Join(domains[1..], ',')];
            Ascending(two) && Join(two, ',') == Join(domains, ',')
  {
    var two := [domains[0], Join(domains[1..], ',')];
    RestNotLess(domains, 0);
    assert two[1..] == [two[1]];
  }

  lemma PairOccurs(x: string, y: string)
    ensures Occurrences(x, [x, y]) == if y == x then 2 else 1
  {
    OccursNext(x, [], x);
    OccursNext(x, [x], y);
    assert [] + [x] == [x] && [x] + [y] == [x, y];
  }

  /** A domain without comma at the front: two domains are enough. */
  lemma FrontMisleads(name: string, domains: seq<string>) returns (two: seq<string>, key: string)
    requires HighLabels(name) && Reads(name, domains) && ',' !in domains[0]
    ensures Misleads(name, two, key)
  {
    var x, rest := domains[0], Join(domains[1..], ',');
    two := [x, rest];
    FrontPair(domains);
    PairOccurs(x, rest);
    var m := if rest == x then 1 else 2;
    CopiesCover(x, m, two);
    key := Join(Copies(x, m), ',');
    FirstDomainDoesNotMatch(name, domains);
  }

  /** The first letter of a name with high labels. */
  lemma HighStart(name: string)
    requires HighLabels(name)
    ensures name != "" && name[0] > '*'
  {
    var a, b := PartIsInside(name, '.', 0);
    assert Split(name, '.')[0][0] == name[0];
  }

  lemma FirstDomainDoesNotMatch(name: string, domains: seq<string>)
    requires HighLabels(name) && Reads(name, domains)
    ensures !Matches(name, domains[0])
  {
    HighStart(name);
    JoinHasSeparator(domains, ',');
    JoinFirst(domains);
    assert |name| > |domains[0]|;
    if Matches(name, domains[0]) {
      MatchStartsWithStar(name, domains[0]);
      assert false;
    }
  }

  lemma LastCommaFree(domains: seq<string>, i: nat) returns (j: nat)
    requires i < |domains| && ',' !in domains[i]
    ensures i <= j < |domains| && ',' !in domains[j] && forall k :: j < k < |domains| ==> ',' in domains[k]
    decreases |domains| - i
  {
    if k: nat :| i < k < |domains| && ',' !in domains[k] {
      j := LastCommaFree(domains, k);
    } else {
      j := i;
    }
  }

  /** What stands before a comma-free domain joins to something not greater, if it starts with a comma in it. */
  lemma FrontStaysBelow(domains: seq<string>, i: nat)
    requires Ascending(domains) && 0 < i < |domains| && ',' in domains[0] && ',' !in domains[i]
    ensures var front := Join(domains[..i], ','); ',' in front && front != "" && !Less(domains[i], front)
  {
    var front := Join(domains[..i], ',');
    JoinFirst(domains[..i]);
    assert domains[0] <= front;
    var n :| 0 <= n < |domains[0]| && domains[0][n] == ',';
    assert front[n] == ',';
    ExtensionStaysBelow(domains[0], front, domains[i]);
  }

  /** A later domain does not match, since the first one starts as the name does. */
  lemma LaterDoesNotMatch(name: string, domains: seq<string>, i: nat)
    requires HighLabels(name) && Reads(name, domains) && 0 < i < |domains| && ',' in domains[0] && ',' !in domains[i]
    ensures !Matches(name, domains[i])
  {
    HighStart(name);
    JoinFirst(domains);
    if Matches(name, domains[i]) {
      MatchStartsWithStar(name, domains[i]);
      assert false;
    }
  }

  /** The last comma-free domain, with all before it joined and all after it joined. */
  lemma LaterMisleads(name: string, domains: seq<string>, i: nat) returns (groups: seq<string>, key: string)
    requires HighLabels(name) && Reads(name, domains) && 0 < i < |domains| && ',' in domains[0] && ',' !in domains[i]
    requires forall k :: i < k < |domains| ==> ',' in domains[k]
    ensures Misleads(name, groups, key)
  {
    var front, x := Join(domains[..i], ','), domains[i];
    FrontStaysBelow(domains, i);
    LaterDoesNotMatch(name, domains, i);
    assert domains == domains[..i] + domains[i..];
    JoinConcat(domains[..i], domains[i..]);
    var after := FromHere(domains, i);
    GroupsAscend(front, domains, i);
    groups := [front] + after;
    JoinConcat([front], after);
    GroupsCount(front, domains, i);
    CopiesCover(x, |groups|, groups);
    key := Join(Copies(x, |groups|), ',');
  }

  /** A domain and, if there are more, the join of all after it. */
  function FromHere(domains: seq<string>, i: nat): seq<string>
    requires i < |domains|
  {
    if i + 1 == |domains| then [domains[i]] else [domains[i], Join(domains[i + 1..], ',')]
  }

  /** The domain is there once. */
  lemma GroupsCount(front: string, domains: seq<string>, i: nat)
    requires i < |domains| && ',' in front && ',' !in domains[i]
    requires forall k :: i < k < |domains| ==> ',' in domains[k]
    ensures Occurrences(domains[i], [front] + FromHere(domains, i)) == 1
  {
    var x := domains[i];
    OccursNext(x, [], front);
    OccursNext(x, [front], x);
    assert [] + [front] == [front];
    if i + 1 < |domains| {
      var rest := Join(domains[i + 1..], ',');
      JoinFirst(domains[i + 1..]);
      var n :| 0 <= n < |domains[i + 1]| && domains[i + 1][n] == ',';
      assert rest[n] == ',';
      OccursNext(x, [front] + [x], rest);
      assert [front] + FromHere(domains, i) == [front] + [x] + [rest];
    }
  }

  lemma {:induction false} GroupsAscend(front: string, domains: seq<string>, i: nat)
    requires Ascending(domains) && i < |domains| && !Less(domains[i], front)
    ensures Ascending([front] + FromHere(domains, i)) && Join(FromHere(domains, i), ',') == Join(domains[i..], ',')
  {
    if i + 1 == |domains| {
      assert domains[i..] == [domains[i]];
    } else {
      var rest := Join(domains[i + 1..], ',');
      RestNotLess(domains, i);
      LessTransitive(front, domains[i], rest);
      assert domains[i..] == [domains[i]] + domains[i + 1..];
      JoinConcat([domains[i]], domains[i + 1..]);
      JoinConcat([domains[i]], [rest]);
      assert FromHere(domains, i) == [domains[i]] + [rest];
    }
  }

  /** Every list of several domains, one of them comma-free, that reads like the name leads to a wrong answer. */
  lemma ReadsMisleads(name: string, domains: seq<string>) returns (groups: seq<string>, key: string)
    requires HighLabels(name) && Reads(name, domains)
    ensures Misleads(name, groups, key)
  {
    if ',' !in domains[0] {
      groups, key := FrontMisleads(name, domains);
    } else {
      var i: nat :| i < |domains| && ',' !in domains[i];
      var j := LastCommaFree(domains, i);
      groups, key := LaterMisleads(name, domains, j);
    }
  }

  /**
   Names with a comma whose labels are there and start above the star: they are always answered right if
   and only if some comma-separated part of the name matches it and the name does not read like a sorted
   list of several domains of which one has no comma.
   */
  lemma CommaAlwaysRightIff(name: string)
    requires HighLabels(name) && ',' in name
    ensures AlwaysRight(name) <==> SafeComma(name)
    ensures !SafeComma(name) ==> exists domains, key :: Misleads(name, domains, key)
  {
    if SafeComma(name) {
      SafeIsAlwaysRight(name);
    } else {
      var domains, key := [name], name;
      if list :| Reads(name, list) {
        domains, key := ReadsMisleads(name, list);
      } else {
        NoPartMisleads(name);
      }
      MisleadsIsWrong(name, domains, key, Certificate(0));
      assert CanAnswer(map[key := Certificate(0)], name, Certificate(0));
    }
  }

  /**
   A run of the two lookups: the lookup by domains finds the only certificate and caches it under the name,
   and the lookup by name answers with it although nothing matches.
   */
  method MisledByCache(name: string, domains: seq<string>, key: string, c: Certificate) returns (r: Option<Certificate>)
    requires Misleads(name, domains, key)
    ensures r == Some(c) && NothingMatches(map[key := c], name)
  {
    MisleadsIsWrong(name, domains, key, c);
    SortKeepsAscending(domains);
    var store := new Store(map[key := c]);
    var cached := store.GetCertificate(domains);
    assert key in store.dynamicCerts && cached.Some?;
    r := store.GetBestCertificate(name);
  }
}
