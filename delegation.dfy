/** The delegation inspector: `get_parent_domain` and `get_soa_record`. */
module Delegation {
  import opened Wrappers
  import opened Text
  import opened Names
  import opened Resolver

  /** `get_parent_domain(domain)`: a name of at most two labels is its own
      parent; otherwise the parent is the last two labels (multi-label public
      suffixes such as `co.uk` are not special-cased). */
  function GetParentDomain(domain: string): (p: string)
    ensures |Split(domain)| <= 2 ==> p == domain
    ensures |Split(domain)| > 2 ==> Split(p) == Split(domain)[|Split(domain)| - 2..]
    ensures |p| <= |domain| && domain[|domain| - |p|..] == p
  {
    var parts := Split(domain);
    if |parts| <= 2 then domain
    else
      var n := |parts|;
      var p := parts[n - 2] + "." + parts[n - 1];
      ParentIsLastTwoLabels(domain);
      p
  }

  /** The last two labels, joined, split back into those labels and end the name. */
  lemma ParentIsLastTwoLabels(domain: string)
    requires |Split(domain)| > 2
    ensures var parts := Split(domain); var n := |parts|;
      var p := parts[n - 2] + "." + parts[n - 1];
      Split(p) == parts[n - 2..] && |p| <= |domain| && domain[|domain| - |p|..] == p
  {
    var parts := Split(domain);
    var n := |parts|;
    var p := parts[n - 2] + "." + parts[n - 1];
    SplitAfterLabel(parts[n - 2], parts[n - 1]);
    SplitLabel(parts[n - 1]);
    assert parts[n - 2..] == [parts[n - 2], parts[n - 1]];
    JoinSplit(domain);
    assert parts == parts[..n - 2] + parts[n - 2..];
    JoinAppend(parts[..n - 2], parts[n - 2..]);
    assert Join(parts[n - 2..]) == p;
    assert domain == Join(parts[..n - 2]) + "." + p;
  }

  /** The parent of a parent is itself. */
  lemma {:induction false} ParentIdempotent(domain: string)
    ensures GetParentDomain(GetParentDomain(domain)) == GetParentDomain(domain)
  {
  }

  /** A three-label name loses its first label, whatever the suffix: so
      `example.co.uk` is attributed to `co.uk`, although the comment beside
      `get_parent_domain` says `.co.uk` is handled. */
  lemma ParentOfThreeLabels(a: string, b: string, c: string)
    requires '.' !in a && '.' !in b && '.' !in c
    ensures GetParentDomain(a + "." + b + "." + c) == b + "." + c
  {
    var d := a + "." + b + "." + c;
    assert d == a + "." + (b + "." + c);
    SplitAfterLabel(a, b + "." + c);
    SplitAfterLabel(b, c);
    SplitLabel(c);
    assert Split(d) == [a, b, c];
  }

  /** The SOA finding; the two name fields are `None` where the source's dict lacks them. */
  datatype SoaFinding = SoaFinding(
    present: bool,
    parentDomain: string,
    record: Option<string>,
    primaryNs: Option<string>,
    adminEmail: Option<string>)

  /** The shape of every SOA finding: a record exactly when it exists, and
      the two names together or not at all, only on an existing record. */
  predicate WellShapedSoa(r: SoaFinding)
  {
    && (r.present <==> r.record.Some?)
    && (r.primaryNs.Some? <==> r.adminEmail.Some?)
    && (r.primaryNs.Some? ==> r.present)
  }

  /** The SOA values of the parent domain, as the caller iterates them. */
  function SoaItems(resolve: Resolve, domain: string): seq<string>
  {
    Items(GetDnsRecord(resolve, GetParentDomain(domain), SOA))
  }

  /** `get_soa_record(domain)`: look up the parent's SOA and keep only its first
      two whitespace-separated fields (primary name server, admin mailbox). */
  function GetSoaRecord(resolve: Resolve, domain: string): (r: SoaFinding)
    ensures r.parentDomain == GetParentDomain(domain)
    ensures WellShapedSoa(r)
    ensures r.present <==> |SoaItems(resolve, domain)| > 0
    ensures !r.present ==> r.record == None && r.primaryNs == None && r.adminEmail == None
    ensures r.present ==> var fs := Fields(SoaItems(resolve, domain)[0]);
      if |fs| >= 2 then
        r.record == Some(fs[0] + " " + fs[1]) && r.primaryNs == Some(fs[0]) && r.adminEmail == Some(fs[1])
      else
        r.record == Some(SoaItems(resolve, domain)[0]) && r.primaryNs == None && r.adminEmail == None
  {
    var parent := GetParentDomain(domain);
    var soa := GetDnsRecord(resolve, parent, SOA);
    TruthyIffItems(soa);
    if !Truthy(soa) then SoaFinding(false, parent, None, None, None)
    else
      var parts := Fields(First(soa));
      if |parts| >= 2 then
        SoaFinding(true, parent, Some(parts[0] + " " + parts[1]), Some(parts[0]), Some(parts[1]))
      else
        SoaFinding(true, parent, Some(First(soa)), None, None)
  }

  /** The trimmed record holds exactly the two names it exposes. */
  lemma SoaRecordReparses(resolve: Resolve, domain: string)
    requires GetSoaRecord(resolve, domain).primaryNs.Some?
    ensures var r := GetSoaRecord(resolve, domain);
      r.present && r.record.Some? && r.adminEmail.Some?
      && Fields(r.record.value) == [r.primaryNs.value, r.adminEmail.value]
  {
    var fs := Fields(SoaItems(resolve, domain)[0]);
    TwoFieldsRoundTrip(fs[0], fs[1]);
  }

  /** The error-text quirk seen by the SOA check: an unclassified resolver error
      reports an SOA record, the letter `"E"`, without name servers. */
  lemma SoaReportsErrorInitial(resolve: Resolve, domain: string)
    requires GetDnsRecord(resolve, GetParentDomain(domain), SOA).ErrorText?
    ensures GetSoaRecord(resolve, domain) == SoaFinding(true, GetParentDomain(domain), Some("E"), None, None)
  {
    ErrorTextQuirk(resolve, GetParentDomain(domain), SOA);
    assert Word("E") == "E";
    assert Fields("E") == ["E"];
  }
}
