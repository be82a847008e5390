/** The subdomain discoverer: `discover_subdomains`, with its candidate label
    list, its wildcard probe and its hosting-provider pattern table. */
module Subdomains {
  import opened Wrappers
  import opened Text
  import opened Resolver

  const CommonSubdomains: seq<string> := [
    "www", "mail", "webmail", "email", "remote", "portal", "owa",
    "vpn", "mta", "mx", "imap", "smtp", "pop", "cp", "cpanel",
    "webdisk", "whm", "ns1", "ns2", "autodiscover", "autoconfig",
    "admin", "cloud", "dev", "ftp", "test", "staging"
  ]

  /** Provider name and the CNAME-target patterns that identify it, in declaration order. */
  const HostingPatterns: seq<(string, seq<string>)> := [
    ("GoDaddy", [".secureserver.net"]),
    ("BlueHost", [".bluehost.com"]),
    ("HostGator", [".hostgator.com"]),
    ("DreamHost", [".dreamhost.com"]),
    ("NameCheap", [".registrar-servers.com"]),
    ("OVH", [".ovh.net"]),
    ("AWS", [".amazonaws.com"]),
    ("Google Cloud", [".googlehosted.com"]),
    ("Microsoft Azure", [".azurewebsites.net"]),
    ("Cloudflare", [".cloudflare.net"])
  ]

  datatype SubdomainSurvey = SubdomainSurvey(
    subdomains: set<string>,
    cnameRecords: map<string, string>,
    hasWildcardDns: bool,
    hostingProvider: Option<string>)

  function Fqdn(prefix: string, domain: string): string
  {
    prefix + "." + domain
  }

  /** The synthetic label probed for wildcard DNS; `stamp` is the
      `%Y%m%d%H%M%S` rendering of the current time. */
  function WildcardLabel(stamp: string): string
  {
    "wildcard-test-" + stamp
  }

  /** `fqdn` is one of the candidate names built from `labels`. */
  predicate IsCandidate(labels: seq<string>, domain: string, fqdn: string)
  {
    exists i :: 0 <= i < |labels| && fqdn == Fqdn(labels[i], domain)
  }

  /** One more label adds exactly its own name to the candidates. */
  lemma CandidateStep(labels: seq<string>, domain: string, i: nat)
    requires i < |labels|
    ensures forall f :: IsCandidate(labels[..i + 1], domain, f) <==>
      IsCandidate(labels[..i], domain, f) || f == Fqdn(labels[i], domain)
  {
    forall f
      ensures IsCandidate(labels[..i + 1], domain, f) <==>
        IsCandidate(labels[..i], domain, f) || f == Fqdn(labels[i], domain)
    {
      CandidateStepAt(labels, domain, i, f);
    }
  }

  lemma CandidateStepAt(labels: seq<string>, domain: string, i: nat, f: string)
    requires i < |labels|
    ensures IsCandidate(labels[..i + 1], domain, f) <==>
      IsCandidate(labels[..i], domain, f) || f == Fqdn(labels[i], domain)
  {
    var before, after := labels[..i], labels[..i + 1];
    assert after == before + [labels[i]];
    if IsCandidate(after, domain, f) {
      var k :| 0 <= k < |after| && f == Fqdn(after[k], domain);
      if k < i {
        assert before[k] == after[k];
      }
    }
    if IsCandidate(before, domain, f) {
      var k :| 0 <= k < |before| && f == Fqdn(before[k], domain);
      assert after[k] == before[k];
    }
    if f == Fqdn(labels[i], domain) {
      assert after[i] == labels[i];
    }
  }

  predicate HasA(resolve: Resolve, fqdn: string)
  {
    Truthy(GetDnsRecord(resolve, fqdn, A))
  }

  predicate HasCname(resolve: Resolve, fqdn: string)
  {
    Truthy(GetDnsRecord(resolve, fqdn, CNAME))
  }

  /** Some CNAME target contains the pattern (`any(pattern in cname for cname in ...)`). */
  predicate PatternMatches(pattern: string, targets: set<string>)
  {
    exists t :: t in targets && Contains(t, pattern)
  }

  /** Some pattern of the provider's list matches a target. */
  predicate ProviderMatches(entry: (string, seq<string>), targets: set<string>)
  {
    exists j :: 0 <= j < |entry.1| && PatternMatches(entry.1[j], targets)
  }

  /** `provider` is the first matching provider of the table, or `None` when none matches. */
  predicate IsFirstMatch(table: seq<(string, seq<string>)>, targets: set<string>, provider: Option<string>)
  {
    match provider
    case None => forall i :: 0 <= i < |table| ==> !ProviderMatches(table[i], targets)
    case Some(name) =>
      exists i :: 0 <= i < |table| && table[i].0 == name && ProviderMatches(table[i], targets)
        && forall k :: 0 <= k < i ==> !ProviderMatches(table[k], targets)
  }

  /** The provider loop: the first provider, in table order, with a pattern
      found in some CNAME target; the first hit ends both loops. */
  method IdentifyHostingProvider(targets: set<string>) returns (provider: Option<string>)
    ensures IsFirstMatch(HostingPatterns, targets, provider)
  {
    provider := None;
    var i := 0;
    while i < |HostingPatterns|
      invariant 0 <= i <= |HostingPatterns|
      invariant provider == None
      invariant forall k :: 0 <= k < i ==> !ProviderMatches(HostingPatterns[k], targets)
    {
      var (name, patterns) := HostingPatterns[i];
      var j := 0;
      while j < |patterns|
        invariant 0 <= j <= |patterns|
        invariant provider == None
        invariant forall m :: 0 <= m < j ==> !PatternMatches(patterns[m], targets)
      {
        if exists t :: t in targets && Contains(t, patterns[j]) {
          provider := Some(name);
          break;
        }
        j := j + 1;
      }
      // every provider name in the table is non-empty, so `if hosting_provider:` is this test
      if provider != None {
        assert ProviderMatches(HostingPatterns[i], targets);
        return;
      }
      i := i + 1;
    }
  }

  /** What `discover_subdomains` reports: every CNAME key is a found name; a
      candidate is found iff its A or CNAME lookup is truthy, and keeps the
      first CNAME value; the wildcard flag is the probe's answer; the provider
      is the first match over the CNAME targets. */
  ghost predicate DescribesSurvey(resolve: Resolve, domain: string, labels: seq<string>, stamp: string, survey: SubdomainSurvey)
  {
    && survey.cnameRecords.Keys <= survey.subdomains
    && (forall f :: f in survey.subdomains <==>
          IsCandidate(labels, domain, f) && (HasA(resolve, f) || HasCname(resolve, f)))
    && (forall f :: f in survey.cnameRecords <==> IsCandidate(labels, domain, f) && HasCname(resolve, f))
    && (forall f :: f in survey.cnameRecords ==>
          HasCname(resolve, f) && survey.cnameRecords[f] == First(GetDnsRecord(resolve, f, CNAME)))
    && survey.hasWildcardDns == HasA(resolve, Fqdn(WildcardLabel(stamp), domain))
    && IsFirstMatch(HostingPatterns, survey.cnameRecords.Values, survey.hostingProvider)
  }

  /** The shape of every survey: each CNAME belongs to a found name, and a
      hosting provider needs some CNAME target. */
  predicate WellShapedSurvey(survey: SubdomainSurvey)
  {
    && survey.cnameRecords.Keys <= survey.subdomains
    && (survey.hostingProvider.Some? ==> survey.cnameRecords.Values != {})
  }

  /** Every survey `discover_subdomains` can report is well shaped. */
  lemma DescribedSurveyIsWellShaped(resolve: Resolve, domain: string, labels: seq<string>, stamp: string, survey: SubdomainSurvey)
    requires DescribesSurvey(resolve, domain, labels, stamp, survey)
    ensures WellShapedSurvey(survey)
  {
    if survey.hostingProvider.Some? {
      ProviderNeedsTarget(HostingPatterns, survey.cnameRecords.Values, survey.hostingProvider.value);
    }
  }

  /** `discover_subdomains(domain)`; `stamp` stands for the timestamp suffix of the wildcard probe. */
  method DiscoverSubdomains(resolve: Resolve, domain: string, labels: seq<string>, stamp: string)
    returns (survey: SubdomainSurvey)
    ensures DescribesSurvey(resolve, domain, labels, stamp, survey)
  {
    var found: set<string> := {};
    var cnames: map<string, string> := map[];
    for i := 0 to |labels|
      invariant cnames.Keys <= found
      invariant forall f :: f in found <==> IsCandidate(labels[..i], domain, f) && (HasA(resolve, f) || HasCname(resolve, f))
      invariant forall f :: f in cnames <==> IsCandidate(labels[..i], domain, f) && HasCname(resolve, f)
      invariant forall f :: f in cnames ==> cnames[f] == First(GetDnsRecord(resolve, f, CNAME))
    {
      var fqdn := Fqdn(labels[i], domain);
      CandidateStep(labels, domain, i);
      var aRecords := GetDnsRecord(resolve, fqdn, A);
      if Truthy(aRecords) {
        found := found + {fqdn};
      }
      var cname := GetDnsRecord(resolve, fqdn, CNAME);
      if Truthy(cname) {
        found := found + {fqdn};
        cnames := cnames[fqdn := First(cname)];
      }
    }
    assert labels[..|labels|] == labels;
    var wildcard := GetDnsRecord(resolve, Fqdn(WildcardLabel(stamp), domain), A);
    var hasWildcard := Truthy(wildcard);
    var provider := IdentifyHostingProvider(cnames.Values);
    survey := SubdomainSurvey(found, cnames, hasWildcard, provider);
  }

  /** Wildcard detection reports, and never filters: two resolvers that
      answer the same for every name except the wildcard probe's give the same
      found names, the same CNAME map and the same provider, whatever each
      answers for the probe. */
  lemma WildcardDoesNotAlterDiscovery(r1: Resolve, r2: Resolve, domain: string, labels: seq<string>, stamp: string,
                                      s1: SubdomainSurvey, s2: SubdomainSurvey)
    requires forall n, t, k :: n != Fqdn(WildcardLabel(stamp), domain) ==> r1(n, t, k) == r2(n, t, k)
    requires !IsCandidate(labels, domain, Fqdn(WildcardLabel(stamp), domain))
    requires DescribesSurvey(r1, domain, labels, stamp, s1)
    requires DescribesSurvey(r2, domain, labels, stamp, s2)
    ensures s1.subdomains == s2.subdomains
    ensures s1.cnameRecords == s2.cnameRecords
    ensures s1.hostingProvider == s2.hostingProvider
  {
    CandidatesAgree(r1, r2, domain, labels, stamp);
    SameLookupsSameSurvey(r1, r2, domain, labels, stamp, s1, s2);
  }

  /** `r1` and `r2` give the same A and CNAME records for every candidate name. */
  ghost predicate LookupsAgree(r1: Resolve, r2: Resolve, domain: string, labels: seq<string>)
  {
    forall f :: IsCandidate(labels, domain, f) ==>
      GetDnsRecord(r1, f, A) == GetDnsRecord(r2, f, A) && GetDnsRecord(r1, f, CNAME) == GetDnsRecord(r2, f, CNAME)
  }

  lemma CandidatesAgree(r1: Resolve, r2: Resolve, domain: string, labels: seq<string>, stamp: string)
    requires forall n, t, k :: n != Fqdn(WildcardLabel(stamp), domain) ==> r1(n, t, k) == r2(n, t, k)
    requires !IsCandidate(labels, domain, Fqdn(WildcardLabel(stamp), domain))
    ensures LookupsAgree(r1, r2, domain, labels)
  {
    forall f | IsCandidate(labels, domain, f)
      ensures GetDnsRecord(r1, f, A) == GetDnsRecord(r2, f, A)
      ensures GetDnsRecord(r1, f, CNAME) == GetDnsRecord(r2, f, CNAME)
    {
      AgreeingResolversAgree(r1, r2, f, A);
      AgreeingResolversAgree(r1, r2, f, CNAME);
    }
  }

  lemma SameLookupsSameSurvey(r1: Resolve, r2: Resolve, domain: string, labels: seq<string>, stamp: string,
                              s1: SubdomainSurvey, s2: SubdomainSurvey)
    requires LookupsAgree(r1, r2, domain, labels)
    requires DescribesSurvey(r1, domain, labels, stamp, s1)
    requires DescribesSurvey(r2, domain, labels, stamp, s2)
    ensures s1.subdomains == s2.subdomains
    ensures s1.cnameRecords == s2.cnameRecords
    ensures s1.hostingProvider == s2.hostingProvider
  {
    SameLookupsSameFound(r1, r2, domain, labels, s1.subdomains, s2.subdomains);
    SameLookupsSameCnames(r1, r2, domain, labels, s1.cnameRecords, s2.cnameRecords);
    FirstMatchIsUnique(HostingPatterns, s1.cnameRecords.Values, s1.hostingProvider, s2.hostingProvider);
  }

  lemma SameLookupsSameFound(r1: Resolve, r2: Resolve, domain: string, labels: seq<string>, found1: set<string>, found2: set<string>)
    requires LookupsAgree(r1, r2, domain, labels)
    requires forall f :: f in found1 <==> IsCandidate(labels, domain, f) && (HasA(r1, f) || HasCname(r1, f))
    requires forall f :: f in found2 <==> IsCandidate(labels, domain, f) && (HasA(r2, f) || HasCname(r2, f))
    ensures found1 == found2
  {
    forall f | f in found1
      ensures f in found2
    {
    }
    forall f | f in found2
      ensures f in found1
    {
    }
  }

  lemma SameLookupsSameCnames(r1: Resolve, r2: Resolve, domain: string, labels: seq<string>,
                              cnames1: map<string, string>, cnames2: map<string, string>)
    requires LookupsAgree(r1, r2, domain, labels)
    requires forall f :: f in cnames1 <==> IsCandidate(labels, domain, f) && HasCname(r1, f)
    requires forall f :: f in cnames1 ==> HasCname(r1, f) && cnames1[f] == First(GetDnsRecord(r1, f, CNAME))
    requires forall f :: f in cnames2 <==> IsCandidate(labels, domain, f) && HasCname(r2, f)
    requires forall f :: f in cnames2 ==> HasCname(r2, f) && cnames2[f] == First(GetDnsRecord(r2, f, CNAME))
    ensures cnames1 == cnames2
  {
    forall f | f in cnames1
      ensures f in cnames2 && cnames2[f] == cnames1[f]
    {
    }
    forall f | f in cnames2
      ensures f in cnames1
    {
    }
    assert cnames1.Keys == cnames2.Keys;
  }

  /** A CNAME target on Amazon's domain, and on no earlier provider's, is fingerprinted as AWS. */
  lemma AwsTargetIsAws(targets: set<string>)
    requires exists t :: t in targets && Contains(t, ".amazonaws.com")
    requires forall i :: 0 <= i < 6 ==> !ProviderMatches(HostingPatterns[i], targets)
    ensures IsFirstMatch(HostingPatterns, targets, Some("AWS"))
  {
    assert HostingPatterns[6] == ("AWS", [".amazonaws.com"]);
    assert PatternMatches(HostingPatterns[6].1[0], targets);
  }

  /** Targets matching no pattern of the table give no provider: whatever
      answer meets the first-match specification, such as the result of
      `IdentifyHostingProvider`, is `None`. */
  lemma UnknownTargetHasNoProvider(targets: set<string>, p: Option<string>)
    requires forall i :: 0 <= i < |HostingPatterns| ==> !ProviderMatches(HostingPatterns[i], targets)
    requires IsFirstMatch(HostingPatterns, targets, p)
    ensures p == None
  {
  }

  /** A provider is only ever found on some CNAME target. */
  lemma ProviderNeedsTarget(table: seq<(string, seq<string>)>, targets: set<string>, name: string)
    requires IsFirstMatch(table, targets, Some(name))
    ensures targets != {}
  {
    var i :| 0 <= i < |table| && table[i].0 == name && ProviderMatches(table[i], targets)
      && forall k :: 0 <= k < i ==> !ProviderMatches(table[k], targets);
    var j :| 0 <= j < |table[i].1| && PatternMatches(table[i].1[j], targets);
    var t :| t in targets && Contains(t, table[i].1[j]);
  }

  /** At most one provider satisfies the first-match specification. */
  lemma FirstMatchIsUnique(table: seq<(string, seq<string>)>, targets: set<string>, p: Option<string>, q: Option<string>)
    requires IsFirstMatch(table, targets, p) && IsFirstMatch(table, targets, q)
    ensures p == q
  {
    if p.Some? && q.Some? {
      var i :| 0 <= i < |table| && table[i].0 == p.value && ProviderMatches(table[i], targets)
        && forall k :: 0 <= k < i ==> !ProviderMatches(table[k], targets);
      var j :| 0 <= j < |table| && table[j].0 == q.value && ProviderMatches(table[j], targets)
        && forall k :: 0 <= k < j ==> !ProviderMatches(table[k], targets);
      assert i == j;
    }
  }
}
