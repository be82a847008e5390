/** The whole-domain analysis: `analyze_domain` runs every check on one
    domain, and the batch worker `analyze_single_domain` replaces a failed
    analysis by the fully shaped default record. */
module Analyzer {
  import opened Wrappers
  import opened Resolver
  import opened EmailAuth
  import opened Delegation
  import opened Subdomains
  import opened Transport
  import opened Integrity

  /** Everything the analyzer reads from outside: the DNS resolver, the HTTP
      client, the HTML parser, the suffix of the wildcard probe label and the
      timestamp written into the record. */
  datatype Environment = Environment(
    resolve: Resolve,
    fetch: Fetch,
    parse: Parse,
    wildcardStamp: string,
    timestamp: string)

  /** One row of the report: the domain, when it was analyzed, the failure
      message if the analysis failed, and one finding per check. */
  datatype DomainRecord = DomainRecord(
    domain: string,
    timestamp: string,
    error: Option<string>,
    soa: SoaFinding,
    spf: SpfFinding,
    dkim: DkimFinding,
    dmarc: DmarcFinding,
    subdomains: SubdomainSurvey,
    httpRedirect: TransportResult,
    sri: SriReport)

  /** The shape every record has, whichever way it was produced: a finding
      that does not exist carries no value, every CNAME belongs to a found
      name, a hosting provider needs a CNAME target, and the transport and
      integrity parts keep their own invariants. A failed analysis reports
      its message as the transport error of an unreachable site. */
  predicate WellShapedRecord(rec: DomainRecord)
  {
    && WellShapedSoa(rec.soa)
    && WellShapedSpf(rec.spf)
    && (rec.dkim.present <==> |rec.dkim.records| > 0)
    && (rec.dmarc.present <==> rec.dmarc.record.Some?)
    && WellShapedSurvey(rec.subdomains)
    && WellShapedTransport(rec.httpRedirect)
    && WellShapedSri(rec.sri)
    && (rec.error.Some? ==> !rec.httpRedirect.httpAccessible && rec.httpRedirect.error == rec.error)
  }

  /** The record the batch worker builds when the analysis raised `message`:
      well shaped, for this domain and time, carrying the message. */
  function ErrorRecord(domain: string, timestamp: string, message: string): (rec: DomainRecord)
    ensures WellShapedRecord(rec)
    ensures rec.domain == domain && rec.timestamp == timestamp && rec.error == Some(message)
  {
    DomainRecord(
      domain,
      timestamp,
      Some(message),
      SoaFinding(false, domain, None, None, None),
      SpfFinding(false, None, None),
      DkimFinding(false, []),
      DmarcFinding(false, None),
      SubdomainSurvey({}, map[], false, None),
      TransportResult(false, false, None, Some(message), []),
      EmptyReport(Some("Domain analysis failed")))
  }

  /** The default error record is complete and well shaped: it carries the
      message, reports nothing found for any check, names the domain itself
      as the parent, and marks its integrity report as failed. */
  lemma ErrorRecordShape(domain: string, timestamp: string, message: string, rec: DomainRecord)
    requires rec == ErrorRecord(domain, timestamp, message)
    ensures WellShapedRecord(rec)
    ensures rec.domain == domain && rec.timestamp == timestamp && rec.error == Some(message)
    ensures !rec.soa.present && rec.soa.parentDomain == domain
    ensures !rec.spf.present && !rec.dkim.present && !rec.dmarc.present
    ensures rec.subdomains.subdomains == {} && rec.subdomains.cnameRecords == map[]
    ensures !rec.subdomains.hasWildcardDns && rec.subdomains.hostingProvider == None
    ensures !rec.httpRedirect.httpAccessible && rec.httpRedirect.error == Some(message)
    ensures rec.sri.totalExternalResources == 0 && !rec.sri.sriEnabled && rec.sri.sriAlgorithmsUsed == []
    ensures rec.sri.error == Some("Domain analysis failed")
  {
  }

  /** What `analyze_domain` returns for the outcome of the plaintext request:
      `Failure` with the message when an unexpected exception escapes the
      transport check, and otherwise the record of a completed analysis. */
  ghost predicate Analyzes(env: Environment, domain: string, r: Result<DomainRecord, string>)
  {
    var resp := env.fetch(HttpUrl(domain), RequestTimeout);
    && (resp.OtherError? <==> r.Failure?)
    && (r.Failure? ==> r.error == resp.message)
    && (r.Success? ==> AnalyzedFrom(env, domain, r.value))
  }

  /** The record of a completed analysis: the domain, the time, no error, the
      results of the DNS checks on this domain, and the results of the four
      imperative checks, each as that check reports it; the integrity part is
      computed on the body the transport check captured. */
  ghost predicate AnalyzedFrom(env: Environment, domain: string, rec: DomainRecord)
  {
    var resp := env.fetch(HttpUrl(domain), RequestTimeout);
    && rec.domain == domain
    && rec.timestamp == env.timestamp
    && rec.error == None
    && rec.soa == GetSoaRecord(env.resolve, domain)
    && rec.spf == CheckSpf(env.resolve, domain)
    && ReportsDkim(env.resolve, domain, DefaultSelectors, rec.dkim)
    && rec.dmarc == CheckDmarc(env.resolve, domain)
    && DescribesSurvey(env.resolve, domain, CommonSubdomains, env.wildcardStamp, rec.subdomains)
    && ReportsTransport(resp, Success((rec.httpRedirect, CapturedHtml(resp))))
    && DescribesSri(domain, CapturedHtml(resp), env.parse, rec.sri)
  }

  /** A record assembled from the checks' results is well shaped. */
  lemma AnalyzedRecordIsWellShaped(env: Environment, domain: string, rec: DomainRecord)
    requires AnalyzedFrom(env, domain, rec)
    ensures WellShapedRecord(rec)
  {
    DescribedSurveyIsWellShaped(env.resolve, domain, CommonSubdomains, env.wildcardStamp, rec.subdomains);
  }

  /** The record built from the four imperative checks' results is the record of a completed analysis. */
  lemma RecordOfChecksIsAnalyzed(env: Environment, domain: string, survey: SubdomainSurvey,
                                 transport: TransportResult, html: string, sri: SriReport, dkim: DkimFinding)
    requires DescribesSurvey(env.resolve, domain, CommonSubdomains, env.wildcardStamp, survey)
    requires ReportsTransport(env.fetch(HttpUrl(domain), RequestTimeout), Success((transport, html)))
    requires DescribesSri(domain, html, env.parse, sri)
    requires ReportsDkim(env.resolve, domain, DefaultSelectors, dkim)
    ensures AnalyzedFrom(env, domain, DomainRecord(
      domain, env.timestamp, None,
      GetSoaRecord(env.resolve, domain), CheckSpf(env.resolve, domain), dkim, CheckDmarc(env.resolve, domain),
      survey, transport, sri))
  {
    assert html == CapturedHtml(env.fetch(HttpUrl(domain), RequestTimeout));
  }

  /** `analyze_domain(domain)`: the survey, then the transport check, then
      the rest of the analysis on the captured body. */
  method AnalyzeDomain(env: Environment, domain: string) returns (r: Result<DomainRecord, string>)
    ensures Analyzes(env, domain, r)
    ensures r.Success? ==> WellShapedRecord(r.value)
  {
    var survey := DiscoverSubdomains(env.resolve, domain, CommonSubdomains, env.wildcardStamp);
    var transport := CheckHttpRedirect(env.fetch, domain);
    if transport.Failure? {
      FailedTransportAnalyzes(env, domain, transport);
      return Failure(transport.error);
    }
    var rec := CompleteAnalysis(env, domain, survey, transport);
    CompletedAnalyzes(env, domain, transport, rec);
    AnalyzedRecordIsWellShaped(env, domain, rec);
    r := Success(rec);
  }

  /** An exception escaping the transport check ends the analysis with its message. */
  lemma FailedTransportAnalyzes(env: Environment, domain: string, transport: Result<(TransportResult, string), string>)
    requires ReportsTransport(env.fetch(HttpUrl(domain), RequestTimeout), transport) && transport.Failure?
    ensures Analyzes(env, domain, Failure(transport.error))
  {
  }

  /** A completed analysis after a transport check that raised nothing is the result. */
  lemma CompletedAnalyzes(env: Environment, domain: string, transport: Result<(TransportResult, string), string>, rec: DomainRecord)
    requires ReportsTransport(env.fetch(HttpUrl(domain), RequestTimeout), transport) && transport.Success?
    requires AnalyzedFrom(env, domain, rec)
    ensures Analyzes(env, domain, Success(rec))
  {
  }

  /** The part of `analyze_domain` after a transport check that raised
      nothing: the integrity analysis of the body, then the DNS checks. */
  method CompleteAnalysis(env: Environment, domain: string, survey: SubdomainSurvey,
                          transport: Result<(TransportResult, string), string>) returns (rec: DomainRecord)
    requires DescribesSurvey(env.resolve, domain, CommonSubdomains, env.wildcardStamp, survey)
    requires ReportsTransport(env.fetch(HttpUrl(domain), RequestTimeout), transport) && transport.Success?
    ensures AnalyzedFrom(env, domain, rec)
  {
    var Success((redirect, html)) := transport;
    var sri := CheckSri(domain, html, env.parse);
    var dkim := CheckDkim(env.resolve, domain, DefaultSelectors);
    rec := DomainRecord(
      domain,
      env.timestamp,
      None,
      GetSoaRecord(env.resolve, domain),
      CheckSpf(env.resolve, domain),
      dkim,
      CheckDmarc(env.resolve, domain),
      survey,
      redirect,
      sri);
    RecordOfChecksIsAnalyzed(env, domain, survey, redirect, html, sri, dkim);
  }

  /** `analyze_single_domain(domain)`: the analysis, or the error record when
      it raised. Whichever it is, the record is well shaped and names the domain. */
  method AnalyzeSingleDomain(env: Environment, domain: string) returns (rec: DomainRecord)
    ensures WellShapedRecord(rec)
    ensures rec.domain == domain && rec.timestamp == env.timestamp
    ensures rec.error.Some? <==> env.fetch(HttpUrl(domain), RequestTimeout).OtherError?
    ensures env.fetch(HttpUrl(domain), RequestTimeout).OtherError? ==>
      rec == ErrorRecord(domain, env.timestamp, env.fetch(HttpUrl(domain), RequestTimeout).message)
    ensures !env.fetch(HttpUrl(domain), RequestTimeout).OtherError? ==> AnalyzedFrom(env, domain, rec)
  {
    var result := AnalyzeDomain(env, domain);
    match result
    case Success(analyzed) =>
      rec := analyzed;
    case Failure(message) =>
      rec := ErrorRecord(domain, env.timestamp, message);
      ErrorRecordShape(domain, env.timestamp, message, rec);
  }
}
