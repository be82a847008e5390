# Domain security analyzer — a Dafny model

This project models the decision logic of the domain security analyzer, a tool
that audits a list of domains. For each domain it:

- reads the SOA of the parent domain;
- checks the SPF, DKIM and DMARC records;
- looks for common subdomains and fingerprints the hosting provider from
  CNAME targets;
- probes the plaintext HTTP site for a redirect to HTTPS;
- measures subresource-integrity (SRI) coverage on the page it fetched.

A companion script, the parked-domain generator, expands a fixed template
into the DNS change rows that lock a non-mailing domain down.

Each external service is a parameter of the model:

- DNS is a function `Resolve` from (name, record type, timeout) to an
  `Outcome`.
- The HTTP client is a function `Fetch` from (URL, timeout) to an
  `HttpOutcome`.
- The HTML parser is a function `Parse` from the body to the tags it finds
  or the message of the exception it raised.

The two clock readings are plain strings in `Environment`: the wildcard
probe's label suffix and the record timestamp. With the services as
parameters, the rest is deterministic.

Modules, one per part of the analyzer:

- `Resolver` (`resolver.dfy`): `get_dns_record`. It gives a three-way result
  `NotFound | Records | ErrorText`. `Items`, `Truthy` and `First` say how the
  callers iterate, test and index that result. An error text is a Python
  string, so callers see its characters.
- `EmailAuth` (`email_auth.dfy`): `check_spf`, the DKIM selector loop and
  `check_dmarc`.
- `Subdomains` (`subdomains.dfy`): the candidate-label loop, which fills a set
  and a map, the wildcard probe, and the nested provider loop with its
  `break`s.
- `Transport` (`transport.dfy`): `check_http_redirect`, the redirect chain and
  the captured body.
- `Integrity` (`integrity.dfy`): `_is_external_resource`,
  `_extract_hash_algorithm` and `check_sri`, over the tags the parser found.
- `Delegation` (`delegation.dfy`): `get_parent_domain` and `get_soa_record`.
- `Analyzer` (`analyzer.dfy`): `analyze_domain`, and the worker that replaces
  a failed analysis by the default error record.
- `ParkedDomainCsv` (`parked_domain_csv.dfy`): `generate_records` with
  `HEADER` and `RECORD_TEMPLATE`.

Helper modules hold the Python built-ins the core relies on:

- `Text`: `startswith`, `in`, `replace`, ASCII `lower` and whitespace `split()`.
- `Names`: `split('.')` and `'.'.join`.
- `StringOrder`: string ordering and `sorted`.
- `Seqs`: list comprehensions as `Filter`.
- `Wrappers`: `Option` and `Result`.

An unclassified lookup error comes back from `get_dns_record` as the truthy
text `"Error: ..."` (domain_analyzer.py:103). So `get_soa_record` reports
`exists = True` with the record `"E"`, and `check_dmarc` does the same.
`Delegation.SoaReportsErrorInitial` and `EmailAuth.DmarcReportsErrorInitial`
state these outcomes.

## Model

| member | source | states |
|---|---|---|
| Resolver.GetDnsRecord | domain_analyzer.py:81-103 | NXDOMAIN and NoAnswer give no records; a timeout asks the 3-second fallback resolver once and any failure there gives no records; an exception mentioning SERVFAIL gives no records; any other exception gives the text `"Error: " + message`, never a list |
| Resolver.TruthyIffItems | domain_analyzer.py:108 | a returned value is truthy exactly when iterating it yields something, and `[0]` is its first item |
| Resolver.ErrorTextQuirk | domain_analyzer.py:103 | the error text is truthy, its first item is the one-letter string `"E"`, and every item is one character long |
| Resolver.FallbackOnlyOnTimeout | domain_analyzer.py:89-99 | the fallback resolver's answer matters only when the primary query timed out |
| EmailAuth.CheckSpf | domain_analyzer.py:105-119 | `exists` iff some TXT value starts with `"v=spf1`; the record is the first such value; `multiple_records` iff two values qualify; an empty or missing answer gives `exists = False`, `record = None` |
| EmailAuth.SpfSelection | domain_analyzer.py:111-118 | the comprehension is empty iff no value qualifies, its head is the first qualifying value, and it has more than one element iff two values qualify |
| EmailAuth.SpfSingleRecord | domain_analyzer.py:111-119 | a single value `"v=spf1 -all"` is found and not reported as multiple |
| EmailAuth.SpfTwoRecords | domain_analyzer.py:111-119 | with two SPF values the first is the record and `multiple_records` is true |
| EmailAuth.SpfIgnoresErrorText | domain_analyzer.py:103-113 | an error text never yields an SPF record, because its items are single characters |
| EmailAuth.CheckDkim | domain_analyzer.py:121-136 | the entries are exactly the selectors with a truthy lookup, in probe order, each paired with the first value; `exists` iff there is an entry |
| EmailAuth.DkimSelection | domain_analyzer.py:124-131 | a selector is reported iff it is probed and resolves, and the reported selectors keep probe order |
| EmailAuth.DkimOnlyGoogle | domain_analyzer.py:121-136 | with the default selectors, when only `google` resolves, the one entry is for `google` |
| EmailAuth.CheckDmarc | domain_analyzer.py:138-146 | `exists` iff the `_dmarc` lookup is truthy; the record is its first value when it exists and `None` otherwise |
| EmailAuth.DmarcReportsErrorInitial | domain_analyzer.py:138-146 | an unclassified resolver error (whose text `get_dns_record` returns at line 103) makes DMARC report `exists = True` with the record `"E"` |
| Subdomains.IdentifyHostingProvider | domain_analyzer.py:178-186 | the provider is the first one in table order with a pattern that is a substring of some CNAME target; `None` when no pattern matches |
| Subdomains.DiscoverSubdomains | domain_analyzer.py:148-193 | every CNAME key is a found name; a candidate is found iff its A or CNAME lookup is truthy and keeps its first CNAME value; the wildcard flag is the probe's truthiness; the provider is the first match over the CNAME targets |
| Subdomains.DescribedSurveyIsWellShaped | domain_analyzer.py:148-193 | every survey the discovery can report has its CNAME keys among the found names, and a hosting provider only when some CNAME target exists |
| Subdomains.WildcardDoesNotAlterDiscovery | domain_analyzer.py:148-189 | the wildcard probe only reports: two resolvers that answer the same for every name except the probe's, which is no candidate, give the same found names, the same CNAME map and the same provider, whatever each answers for the probe |
| Resolver.AgreeingResolversAgree | domain_analyzer.py:81-103 | the record `get_dns_record` returns depends only on the resolvers' answers to that one name and type |
| Subdomains.AwsTargetIsAws | domain_analyzer.py:68-79 | a target under `.amazonaws.com` that matches no earlier provider is fingerprinted as AWS |
| Subdomains.UnknownTargetHasNoProvider | domain_analyzer.py:179-186 | when no pattern matches any target, the only provider the first-match search can report is `None` |
| Subdomains.ProviderNeedsTarget | domain_analyzer.py:179-186 | a provider is only ever found on some CNAME target |
| Subdomains.FirstMatchIsUnique | domain_analyzer.py:179-186 | at most one provider meets the first-match description, so stopping at the first hit is determined |
| Transport.CapturedHtml | domain_analyzer.py:219-221 | the body is kept only for an HTML content type, as the first 500000 characters of the text; otherwise it is empty |
| Transport.CheckHttpRedirect | domain_analyzer.py:195-226 | an exception other than a request error escapes; otherwise the result is well shaped and reachable iff a response came back; a request error is recorded with its message; a response gives the final URL, `redirects_to_https` iff the final URL starts with `https://`, and the chain is the history followed by the final URL, or empty without history |
| Integrity.IsExternalResource | domain_analyzer.py:228-244 | empty and non-absolute URLs are not external; otherwise the URL is external iff its lowercased netloc, with every `www.` removed, differs from the lowercased domain with every `www.` removed; the netloc keeps any userinfo and port, so `https://example.com:8443/x` is external for `example.com` |
| Integrity.Netloc | domain_analyzer.py:237-238 | the netloc of an absolute URL is the longest piece after the scheme's `//` holding no `/`, `?` or `#` |
| Integrity.HostKey | domain_analyzer.py:238-242 | the compared key, the text lowercased with every `www.` removed, is no longer than the text and holds no upper-case ASCII letter |
| Integrity.ExternalIgnoresDomainCase | domain_analyzer.py:238-241 | the case of the analyzed domain does not matter |
| Integrity.SameHostIsNotExternal | domain_analyzer.py:237-244 | an HTTPS URL served from the domain itself, with or without a leading `www.`, is not external |
| Integrity.ExtractHashAlgorithm | domain_analyzer.py:246-259 | empty input gives `None`; the prefixes `sha256-`, `sha384-` and `sha512-` give their names; any other value gives `"unknown"` |
| Integrity.CountWithIntegrity | domain_analyzer.py:307-309 | the count of resources with integrity is at most the total, and is zero iff no resource has integrity |
| Integrity.AlgorithmsUsed | domain_analyzer.py:307-312 | an algorithm is collected iff some resource with integrity names it, and only known names or `"unknown"` occur |
| Integrity.CoveragePercentage | domain_analyzer.py:316-319 | the unrounded coverage lies between 0 and 100, is 0 without resources, is 0 iff nothing is covered, and is 100 iff everything is |
| Integrity.CollectExternalScripts | domain_analyzer.py:282-290 | one `script` entry per script whose `src` is external, in document order, carrying that script's `src` and integrity |
| Integrity.IsStylesheetLink | domain_analyzer.py:294 | the test `rel == ['stylesheet'] or 'stylesheet' in rel` holds exactly when `stylesheet` is one of the link's `rel` values |
| Integrity.CollectExternalStylesheets | domain_analyzer.py:293-302 | one `stylesheet` entry per link whose `rel` includes `stylesheet` and whose `href` is external, in document order, carrying that link's `href` and integrity |
| Integrity.CollectExternalResources | domain_analyzer.py:281-302 | the external scripts in document order, then the external stylesheet links in document order |
| Integrity.TallyIntegrity | domain_analyzer.py:307-312 | the loop counts the resources with integrity and collects the set of their algorithms |
| StringOrder.SortedList | domain_analyzer.py:323 | `sorted(list(set))`: strictly ascending, holding exactly the set's elements |
| Integrity.CheckSri | domain_analyzer.py:261-328 | missing = total − with SRI and with SRI ≤ total; coverage 0 and SRI disabled without resources, otherwise SRI enabled iff some resource is covered; the algorithms are sorted without duplicates; an empty body gives the default report with "No HTML content available"; a parser failure gives the default report with "SRI parsing error: " and the message |
| Integrity.MixedPageExample | domain_analyzer.py:261-328 | on a page with one external `sha384` script and one external stylesheet without integrity, every report `check_sri` can give counts 2 resources, 1 with SRI and 1 missing, 50 % coverage, SRI enabled, the algorithms `["sha384"]` and no error |
| Delegation.GetParentDomain | domain_analyzer.py:330-339 | a name of at most two labels is its own parent; otherwise the parent is the last two labels; either way the parent is a suffix of the name |
| Delegation.ParentIdempotent | domain_analyzer.py:330-339 | the parent of a parent is itself |
| Delegation.ParentOfThreeLabels | domain_analyzer.py:336-339 | the parent of `a.b.c` is `b.c`, so `example.co.uk` gives `co.uk` |
| Delegation.GetSoaRecord | domain_analyzer.py:341-369 | the query goes to the parent; `exists` iff the lookup is truthy; a first value with two or more fields gives the record "field0 field1", the primary name server field0 and the admin mailbox field1; fewer fields keep the raw value with both names `None` |
| Delegation.SoaRecordReparses | domain_analyzer.py:352-361 | the trimmed record splits back into exactly the two names it exposes |
| Delegation.SoaReportsErrorInitial | domain_analyzer.py:341-369 | an unclassified resolver error (whose text `get_dns_record` returns at line 103) makes the SOA check report `exists = True`, the record `"E"` and no names |
| Analyzer.ErrorRecord | domain_analyzer.py:418-429 | the error record is well shaped, names the domain and the time, and carries the exception's message |
| Analyzer.ErrorRecordShape | domain_analyzer.py:414-429 | the default error record is well shaped and carries the message; no check finds anything; the parent is the domain itself; the site is unreachable with the message as error; the SRI report is empty with "Domain analysis failed" |
| Analyzer.AnalyzedRecordIsWellShaped | domain_analyzer.py:378-398 | a record assembled from the checks' results has the shape the error record also has: absent findings carry no value, every CNAME belongs to a found name, a provider comes with a CNAME target, and the transport and SRI parts keep their invariants |
| Analyzer.AnalyzeDomain | domain_analyzer.py:378-398 | `Failure` with the message iff an exception other than a request error escapes the transport check; otherwise each part of the record is what its check reports, with the SRI part computed on the captured body, and the record is well shaped |
| Analyzer.CompleteAnalysis | domain_analyzer.py:385-398 | after a transport check that raised nothing, the SRI part is computed on the body it captured, and the assembled record is the record of a completed analysis |
| Analyzer.RecordOfChecksIsAnalyzed | domain_analyzer.py:385-398 | the record built from the survey, the transport result, the SRI report of the captured body and the DKIM entries, with the other DNS checks computed on the domain, is the record of a completed analysis |
| Analyzer.FailedTransportAnalyzes | domain_analyzer.py:383 | an exception escaping the transport check ends the analysis with that exception's message |
| Analyzer.CompletedAnalyzes | domain_analyzer.py:383-398 | when the transport check raised nothing, the completed record is the result of the analysis |
| Analyzer.AnalyzeSingleDomain | domain_analyzer.py:410-429 | the record is always well shaped and names the domain; it is the error record exactly when the analysis raised, and otherwise the record of the completed analysis |
| ParkedDomainCsv.HeadingRow | scripts/parked_domain_csv.py:26 | the separator row has one field per header column |
| ParkedDomainCsv.ExpandTemplates | scripts/parked_domain_csv.py:27-37 | the loop emits one row per template row, in template order; each row has the domain in the Zone column, the formatted template value in the Value column, and Action, Record Name, Record Type, TTL and Comments copied |
| ParkedDomainCsv.RowsAreFull | scripts/parked_domain_csv.py:25-38 | every generated row, the separator included, has one field per header column |
| ParkedDomainCsv.GenerateRecords | scripts/parked_domain_csv.py:25-38 | 1 + 5 = 6 rows; the first is the `--- domain ---` separator; row i+1 expands template i, with the domain in the Zone column and Action, Record Name, Record Type, TTL and Comments copied; every row has as many columns as `HEADER` |
| ParkedDomainCsv.TemplateValues | scripts/parked_domain_csv.py:16-28 | the Value column is the DMARC target in the `_dmarc` CNAME row and the template's literal value in every other row |
| ParkedDomainCsv.DmarcRow | scripts/parked_domain_csv.py:21-37 | the last row has one field per header column and reads `ADD`, the domain, `_dmarc`, `CNAME`, `3600`, with the DMARC target as its value |
| ParkedDomainCsv.FormatValue | scripts/parked_domain_csv.py:28 | formatting a value without a replacement field leaves it unchanged, and formatting `{dmarc_target}` yields the target |

## Left out

- Network I/O is not modelled. That covers dnspython, the system-resolver
  fallback's configuration and `requests.get` with its redirect following.
  Each call is an oracle parameter, so nothing about real servers is claimed.
- Analyzer.AnalyzeSingleDomain: building the `DomainAnalyzer()` (domain_analyzer.py:413), which reads the
  system resolver's configuration, is not modelled. It runs outside the worker's `try`, so a failure there
  escapes `analyze_single_domain` and the batch loop's handler (domain_analyzer.py:447-462) writes the record
  instead; the model's worker always returns a record.
- HTML parsing with BeautifulSoup is an oracle from the body to the tags it
  finds. The model does not describe how tags are found in text.
- `urlparse` is modelled only for absolute `http`/`https` URLs: the netloc is
  everything after `//` up to the first `/`, `?` or `#`, userinfo and port
  included. Its removal of tab
  and newline characters and its IPv6 bracket validation are left out. An
  exception there is covered only through the parser oracle's failure.
- `datetime.now()` is read twice: once for the wildcard label and once for
  the record's timestamp. Both readings are inputs (`Environment.wildcardStamp`
  and `Environment.timestamp`). The error record uses the same timestamp.
- Integrity.CoveragePercentage: the iff-statements hold of the unrounded ratio only; after `round(..., 1)`, 1 covered of 2001 gives 0.0 and 9999 of 10000 gives 100.0.
- Integrity.CheckSri: coverage is the exact ratio times 100, not Python's
  `round(..., 1)`, because floating-point rounding is out of scope.
- The `crossorigin` attribute each collected resource records is never read by the rest of `check_sri`, so the model's resources leave it out.
- `lower()` is ASCII-only. Python's Unicode case mapping is not modelled.
- `list(found_subdomains)` has an unspecified order, so the model keeps the
  found names as a set.
- In the error path of `check_sri`, `sri_algorithms_used` stays an empty
  `set()`. The model reports an empty list; both are empty.
- Three `try`/`except` handlers cannot be reached and are not modelled:
  - the subdomain loop's `except: continue`;
  - the wildcard probe's `except`;
  - the `except` branch of `get_soa_record` (domain_analyzer.py:370-376).
  `get_dns_record` never raises, so none of them runs.
- The batch driver `analyze_domains_from_file` is not modelled beyond its
  per-domain worker:
  - the thread pool;
  - the `as_completed` ordering;
  - the shared progress counter and its console output;
  - reading the domain file;
  - writing the CSV.
- Both scripts' CSV writing, `argparse` handling, `check_required_modules` and
  the Windows console set-up are left out as platform I/O.
- `str.format` is modelled for the templates' only replacement field,
  `{dmarc_target}`, as a left-to-right replacement. Escaped braces and other
  fields do not occur in the template, so they are left out.
