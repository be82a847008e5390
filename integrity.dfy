/** The resource-integrity analyzer: `_is_external_resource`,
    `_extract_hash_algorithm` and `check_sri`, over the tags an HTML parser
    found in the captured body. */
module Integrity {
  import opened Wrappers
  import opened Text
  import opened StringOrder

  /** A `<script>` that has a `src` attribute. */
  datatype ScriptTag = ScriptTag(src: string, integrity: Option<string>)

  /** A `<link>` that has an `href` attribute; `rel` is its (multi-valued)
      `rel` attribute, empty when absent. */
  datatype LinkTag = LinkTag(href: string, rel: seq<string>, integrity: Option<string>)

  /** What the parser finds, each kind in document order. */
  datatype ParsedPage = ParsedPage(scripts: seq<ScriptTag>, links: seq<LinkTag>)

  /** The HTML parser and URL splitter, as a function of the body: the tags,
      or the message of the exception it raised. */
  type Parse = string -> Result<ParsedPage, string>

  datatype ResourceKind = Script | Stylesheet
  datatype ExternalResource = ExternalResource(kind: ResourceKind, src: string, integrity: Option<string>)

  datatype SriReport = SriReport(
    sriEnabled: bool,
    totalExternalResources: nat,
    resourcesWithSri: nat,
    sriCoveragePercentage: real,
    missingSriCount: nat,
    sriAlgorithmsUsed: seq<string>,
    error: Option<string>)

  predicate IsAbsolute(url: string)
  {
    StartsWith(url, "http://") || StartsWith(url, "https://")
  }

  predicate IsNetlocEnd(c: char)
  {
    c == '/' || c == '?' || c == '#'
  }

  /** The authority part of what follows `//`: everything up to the first `/`, `?` or `#`. */
  function Authority(rest: string): (n: string)
    ensures |n| <= |rest| && n == rest[..|n|]
    ensures forall i :: 0 <= i < |n| ==> !IsNetlocEnd(n[i])
    ensures |n| < |rest| ==> IsNetlocEnd(rest[|n|])
  {
    if |rest| == 0 || IsNetlocEnd(rest[0]) then "" else [rest[0]] + Authority(rest[1..])
  }

  /** `urlparse(url).netloc` for an absolute `http` or `https` URL: the
      longest piece after the scheme's `//` that holds no `/`, `?` or `#`. */
  function Netloc(url: string): (n: string)
    requires IsAbsolute(url)
    ensures var rest := if StartsWith(url, "http://") then url[7..] else url[8..];
      && |n| <= |rest| && n == rest[..|n|]
      && (forall i :: 0 <= i < |n| ==> !IsNetlocEnd(n[i]))
      && (|n| < |rest| ==> IsNetlocEnd(rest[|n|]))
  {
    if StartsWith(url, "http://") then Authority(url[7..]) else Authority(url[8..])
  }

  /** A netloc as compared: lowercased, every `www.` removed; the key is no
      longer than the netloc and holds no upper-case ASCII letter. */
  function HostKey(host: string): (key: string)
    ensures |key| <= |host|
    ensures forall i :: 0 <= i < |key| ==> !('A' <= key[i] <= 'Z')
  {
    var lower := Lower(host);
    assert forall c :: c in lower ==> !('A' <= c <= 'Z');
    ReplaceAllByEmptyDeletes(lower, "www.");
    var key := ReplaceAll(lower, "www.", "");
    assert forall i :: 0 <= i < |key| ==> key[i] in key;
    key
  }

  /** `_is_external_resource(url, domain)`. */
  function IsExternalResource(url: string, domain: string): (r: bool)
    ensures url == "" ==> !r
    ensures !IsAbsolute(url) ==> !r
    ensures IsAbsolute(url) ==> (r <==> HostKey(Netloc(url)) != HostKey(domain))
  {
    if url == "" then false
    else if !IsAbsolute(url) then false
    else HostKey(Netloc(url)) != HostKey(domain)
  }

  /** The analyzed domain's case does not matter. */
  lemma ExternalIgnoresDomainCase(url: string, domain: string)
    ensures IsExternalResource(url, Lower(domain)) == IsExternalResource(url, domain)
  {
    LowerIdempotent(domain);
  }

  /** A URL served from the analyzed host itself, with or without a `www.`
      label in front, is not external. */
  lemma SameHostIsNotExternal(domain: string, path: string)
    requires forall i :: 0 <= i < |domain| ==> !IsNetlocEnd(domain[i])
    requires path == "" || path[0] == '/'
    ensures !IsExternalResource("https://" + domain + path, domain)
    ensures !IsExternalResource("https://www." + domain + path, domain)
  {
    NetlocOfHttps(domain, path);
    WwwHostIsNotExternal(domain, path);
  }

  lemma WwwHostIsNotExternal(domain: string, path: string)
    requires forall i :: 0 <= i < |domain| ==> !IsNetlocEnd(domain[i])
    requires path == "" || path[0] == '/'
    ensures !IsExternalResource("https://www." + domain + path, domain)
  {
    var host := "www." + domain;
    WwwLabelKeepsAuthority(domain);
    NetlocOfHttps(host, path);
    assert "https://www." + domain + path == "https://" + host + path;
    WwwLabelIgnored(domain);
  }

  lemma WwwLabelKeepsAuthority(domain: string)
    requires forall i :: 0 <= i < |domain| ==> !IsNetlocEnd(domain[i])
    ensures forall i :: 0 <= i < |"www." + domain| ==> !IsNetlocEnd(("www." + domain)[i])
  {
    var host := "www." + domain;
    forall i | 0 <= i < |host| ensures !IsNetlocEnd(host[i]) {
      if i >= 4 { assert host[i] == domain[i - 4]; }
    }
  }

  /** The scheme is followed by the host, up to the path. */
  lemma NetlocOfHttps(host: string, path: string)
    requires forall i :: 0 <= i < |host| ==> !IsNetlocEnd(host[i])
    requires path == "" || path[0] == '/'
    ensures IsAbsolute("https://" + host + path) && Netloc("https://" + host + path) == host
  {
    var url := "https://" + host + path;
    assert url[..8] == "https://";
    assert url[4] == 's';
    assert !StartsWith(url, "http://");
    assert url[8..] == host + path;
    AuthorityOfHost(host, path);
  }

  /** A leading `www.` label does not change the compared host. */
  lemma WwwLabelIgnored(domain: string)
    ensures HostKey("www." + domain) == HostKey(domain)
  {
    var low := Lower("www." + domain);
    assert low == "www." + Lower(domain);
    assert StartsWith(low, "www.");
    assert low[4..] == Lower(domain);
  }

  lemma {:induction false} AuthorityOfHost(host: string, path: string)
    requires forall i :: 0 <= i < |host| ==> !IsNetlocEnd(host[i])
    requires path == "" || path[0] == '/'
    ensures Authority(host + path) == host
  {
    if |host| > 0 {
      assert (host + path)[1..] == host[1..] + path;
      AuthorityOfHost(host[1..], path);
    } else {
      assert host + path == path;
    }
  }

  const AlgorithmNames: set<string> := {"sha256", "sha384", "sha512", "unknown"}

  predicate HasKnownPrefix(integrity: string)
  {
    StartsWith(integrity, "sha256-") || StartsWith(integrity, "sha384-") || StartsWith(integrity, "sha512-")
  }

  /** `_extract_hash_algorithm(integrity)`. */
  function ExtractHashAlgorithm(integrity: string): (alg: Option<string>)
    ensures alg == None <==> integrity == ""
    ensures alg.Some? ==> alg.value in AlgorithmNames
    ensures StartsWith(integrity, "sha256-") ==> alg == Some("sha256")
    ensures StartsWith(integrity, "sha384-") ==> alg == Some("sha384")
    ensures StartsWith(integrity, "sha512-") ==> alg == Some("sha512")
    ensures integrity != "" && !HasKnownPrefix(integrity) ==> alg == Some("unknown")
  {
    if integrity == "" then None
    else if StartsWith(integrity, "sha256-") then Some("sha256")
    else if StartsWith(integrity, "sha384-") then Some("sha384")
    else if StartsWith(integrity, "sha512-") then Some("sha512")
    else Some("unknown")
  }

  /** The integrity attribute is present and non-empty (Python truthiness). */
  predicate HasIntegrity(integrity: Option<string>)
  {
    integrity.Some? && integrity.value != ""
  }

  /** The stylesheet test of the link loop. */
  predicate IsStylesheetLink(link: LinkTag): (b: bool)
    // the first alternative of the test implies the second
    ensures b <==> "stylesheet" in link.rel
  {
    link.rel == ["stylesheet"] || "stylesheet" in link.rel
  }

  /** The external scripts, in document order. */
  function ExternalScripts(domain: string, scripts: seq<ScriptTag>): (ext: seq<ExternalResource>)
    ensures |ext| <= |scripts|
    ensures forall k :: 0 <= k < |ext| ==> ext[k].kind == Script && IsExternalResource(ext[k].src, domain)
  {
    if |scripts| == 0 then []
    else
      var last := scripts[|scripts| - 1];
      ExternalScripts(domain, scripts[..|scripts| - 1])
      + (if IsExternalResource(last.src, domain) then [ExternalResource(Script, last.src, last.integrity)] else [])
  }

  /** The external stylesheets, in document order. */
  function ExternalStylesheets(domain: string, links: seq<LinkTag>): (ext: seq<ExternalResource>)
    ensures |ext| <= |links|
    ensures forall k :: 0 <= k < |ext| ==> ext[k].kind == Stylesheet && IsExternalResource(ext[k].src, domain)
  {
    if |links| == 0 then []
    else
      var last := links[|links| - 1];
      ExternalStylesheets(domain, links[..|links| - 1])
      + (if IsStylesheetLink(last) && IsExternalResource(last.href, domain)
         then [ExternalResource(Stylesheet, last.href, last.integrity)] else [])
  }

  /** All external resources: every script first, then every stylesheet. */
  function ExternalResources(domain: string, page: ParsedPage): seq<ExternalResource>
  {
    ExternalScripts(domain, page.scripts) + ExternalStylesheets(domain, page.links)
  }

  /** How many resources carry a non-empty integrity attribute. */
  function CountWithIntegrity(res: seq<ExternalResource>): (n: nat)
    ensures n <= |res|
    ensures n == 0 <==> forall k :: 0 <= k < |res| ==> !HasIntegrity(res[k].integrity)
  {
    if |res| == 0 then 0
    else CountWithIntegrity(res[..|res| - 1]) + (if HasIntegrity(res[|res| - 1].integrity) then 1 else 0)
  }

  /** Some resource carries an integrity attribute for algorithm `a`. */
  predicate UsesAlgorithm(res: seq<ExternalResource>, a: string)
  {
    exists k :: 0 <= k < |res| && HasIntegrity(res[k].integrity) && ExtractHashAlgorithm(res[k].integrity.value) == Some(a)
  }

  /** The algorithms of the integrity attributes present. */
  function AlgorithmsUsed(res: seq<ExternalResource>): (algs: set<string>)
    ensures algs <= AlgorithmNames
    ensures forall a :: a in algs <==> UsesAlgorithm(res, a)
  {
    if |res| == 0 then {}
    else
      var last := res[|res| - 1];
      AlgorithmsUsed(res[..|res| - 1])
      + (if HasIntegrity(last.integrity) then {ExtractHashAlgorithm(last.integrity.value).value} else {})
  }

  /** The share of resources with integrity, in percent (unrounded); 0 without resources. */
  function CoveragePercentage(withSri: nat, total: nat): (c: real)
    requires withSri <= total
    ensures 0.0 <= c <= 100.0
    ensures total == 0 ==> c == 0.0
    ensures c == 0.0 <==> withSri == 0
    ensures c == 100.0 <==> total > 0 && withSri == total
  {
    if total == 0 then 0.0 else (withSri as real / total as real) * 100.0
  }

  function EmptyReport(error: Option<string>): SriReport
  {
    SriReport(false, 0, 0, 0.0, 0, [], error)
  }

  /** The invariant of every report: the counts add up, integrity is enabled
      exactly when some resource carries it, and the algorithms are sorted. */
  predicate WellShapedSri(r: SriReport)
  {
    && r.resourcesWithSri <= r.totalExternalResources
    && r.resourcesWithSri + r.missingSriCount == r.totalExternalResources
    && (r.sriEnabled <==> r.resourcesWithSri > 0)
    && (r.totalExternalResources == 0 ==> r.sriCoveragePercentage == 0.0)
    && 0.0 <= r.sriCoveragePercentage <= 100.0
    && StrictlySorted(r.sriAlgorithmsUsed)
  }

  /** The report describes these external resources. */
  ghost predicate ReportsOn(r: SriReport, ext: seq<ExternalResource>)
  {
    && r.totalExternalResources == |ext|
    && r.resourcesWithSri == CountWithIntegrity(ext)
    && r.missingSriCount == |ext| - CountWithIntegrity(ext)
    && r.sriCoveragePercentage == CoveragePercentage(CountWithIntegrity(ext), |ext|)
    && (r.sriEnabled <==> |ext| > 0 && CountWithIntegrity(ext) > 0)
    && (forall a :: a in r.sriAlgorithmsUsed <==> a in AlgorithmsUsed(ext))
    && r.error == None
  }

  /** The two tag loops of `check_sri`: external scripts, then external stylesheets. */
  method CollectExternalResources(domain: string, page: ParsedPage) returns (external: seq<ExternalResource>)
    ensures external == ExternalResources(domain, page)
  {
    var scripts := CollectExternalScripts(domain, page.scripts);
    var stylesheets := CollectExternalStylesheets(domain, page.links);
    external := scripts + stylesheets;
  }

  /** The script loop: each script whose source is external, in document order. */
  method CollectExternalScripts(domain: string, scripts: seq<ScriptTag>) returns (external: seq<ExternalResource>)
    ensures external == ExternalScripts(domain, scripts)
  {
    external := [];
    for i := 0 to |scripts|
      invariant external == ExternalScripts(domain, scripts[..i])
    {
      var script := scripts[i];
      ghost var before := external;
      if IsExternalResource(script.src, domain) {
        external := external + [ExternalResource(Script, script.src, script.integrity)];
      }
      ExternalScriptsStep(domain, scripts, i, before, external);
    }
    assert scripts[..|scripts|] == scripts;
  }

  /** The link loop: each stylesheet link whose target is external, in document order. */
  method CollectExternalStylesheets(domain: string, links: seq<LinkTag>) returns (external: seq<ExternalResource>)
    ensures external == ExternalStylesheets(domain, links)
  {
    external := [];
    for i := 0 to |links|
      invariant external == ExternalStylesheets(domain, links[..i])
    {
      var link := links[i];
      ghost var before := external;
      if IsStylesheetLink(link) {
        if IsExternalResource(link.href, domain) {
          external := external + [ExternalResource(Stylesheet, link.href, link.integrity)];
        }
      }
      ExternalStylesheetsStep(domain, links, i, before, external);
    }
    assert links[..|links|] == links;
  }

  /** One iteration of the script loop extends the result by the script's entry, if any. */
  lemma ExternalScriptsStep(domain: string, scripts: seq<ScriptTag>, i: nat, before: seq<ExternalResource>, after: seq<ExternalResource>)
    requires i < |scripts|
    requires before == ExternalScripts(domain, scripts[..i])
    requires after == if IsExternalResource(scripts[i].src, domain)
      then before + [ExternalResource(Script, scripts[i].src, scripts[i].integrity)] else before
    ensures after == ExternalScripts(domain, scripts[..i + 1])
  {
    assert scripts[..i + 1][..i] == scripts[..i];
  }

  /** One iteration of the link loop extends the result by the link's entry, if any. */
  lemma ExternalStylesheetsStep(domain: string, links: seq<LinkTag>, i: nat, before: seq<ExternalResource>, after: seq<ExternalResource>)
    requires i < |links|
    requires before == ExternalStylesheets(domain, links[..i])
    requires after == if IsStylesheetLink(links[i]) && IsExternalResource(links[i].href, domain)
      then before + [ExternalResource(Stylesheet, links[i].href, links[i].integrity)] else before
    ensures after == ExternalStylesheets(domain, links[..i + 1])
  {
    assert links[..i + 1][..i] == links[..i];
  }

  /** The counting loop of `check_sri`: resources with integrity, and the set of their algorithms. */
  method TallyIntegrity(external: seq<ExternalResource>) returns (withSri: nat, algorithms: set<string>)
    ensures withSri == CountWithIntegrity(external)
    ensures algorithms == AlgorithmsUsed(external)
  {
    withSri, algorithms := 0, {};
    for k := 0 to |external|
      invariant withSri == CountWithIntegrity(external[..k])
      invariant algorithms == AlgorithmsUsed(external[..k])
    {
      var resource := external[k];
      assert external[..k + 1][..k] == external[..k];
      if HasIntegrity(resource.integrity) {
        withSri := withSri + 1;
        var algorithm := ExtractHashAlgorithm(resource.integrity.value);
        if algorithm.Some? {
          algorithms := algorithms + {algorithm.value};
        }
      }
    }
    assert external[..|external|] == external;
  }

  /** What `check_sri` returns: a well-shaped report; the default report with
      its message for an empty body or a parser failure; otherwise the report
      on the external resources of the page. */
  ghost predicate DescribesSri(domain: string, html: string, parse: Parse, r: SriReport)
  {
    && WellShapedSri(r)
    && (html == "" ==> r == EmptyReport(Some("No HTML content available")))
    && (html != "" && parse(html).Failure? ==> r == EmptyReport(Some("SRI parsing error: " + parse(html).error)))
    && (html != "" && parse(html).Success? ==> ReportsOn(r, ExternalResources(domain, parse(html).value)))
  }

  /** `check_sri(domain, html_content)`. */
  method CheckSri(domain: string, html: string, parse: Parse) returns (r: SriReport)
    ensures DescribesSri(domain, html, parse, r)
  {
    if html == "" {
      return EmptyReport(Some("No HTML content available"));
    }
    var parsed := parse(html);
    if parsed.Failure? {
      return EmptyReport(Some("SRI parsing error: " + parsed.error));
    }
    var external := CollectExternalResources(domain, parsed.value);
    var withSri, algorithms := TallyIntegrity(external);
    var total := |external|;
    var coverage := CoveragePercentage(withSri, total);
    var sorted := SortedList(algorithms);
    r := SriReport(total > 0 && withSri > 0, total, withSri, coverage, total - withSri, sorted, None);
  }

  /** A page with one external script with integrity `sha384-...` and one
      external stylesheet without: whatever report `check_sri` gives on it
      counts two resources, one covered and one missing, half coverage, only
      `sha384` used, and integrity enabled. */
  lemma MixedPageExample(domain: string, html: string, parse: Parse, script: string, sheet: string, hash: string, r: SriReport)
    requires IsExternalResource(script, domain) && IsExternalResource(sheet, domain)
    requires html != ""
    requires parse(html) == Success(ParsedPage([ScriptTag(script, Some("sha384-" + hash))], [LinkTag(sheet, ["stylesheet"], None)]))
    requires DescribesSri(domain, html, parse, r)
    ensures r.totalExternalResources == 2 && r.resourcesWithSri == 1 && r.missingSriCount == 1
    ensures r.sriCoveragePercentage == 50.0 && r.sriEnabled
    ensures r.sriAlgorithmsUsed == ["sha384"] && r.error == None
  {
    MixedPageResources(domain, script, sheet, hash);
    MixedReport(script, sheet, hash, r);
  }

  lemma MixedReport(script: string, sheet: string, hash: string, r: SriReport)
    requires ReportsOn(r, [ExternalResource(Script, script, Some("sha384-" + hash)), ExternalResource(Stylesheet, sheet, None)])
    requires StrictlySorted(r.sriAlgorithmsUsed)
    ensures r.totalExternalResources == 2 && r.resourcesWithSri == 1 && r.missingSriCount == 1
    ensures r.sriCoveragePercentage == 50.0 && r.sriEnabled
    ensures r.sriAlgorithmsUsed == ["sha384"] && r.error == None
  {
    MixedTally(script, sheet, hash);
    SortedIsUnique(r.sriAlgorithmsUsed, ["sha384"]);
  }

  lemma MixedPageResources(domain: string, script: string, sheet: string, hash: string)
    requires IsExternalResource(script, domain) && IsExternalResource(sheet, domain)
    ensures ExternalResources(domain, ParsedPage([ScriptTag(script, Some("sha384-" + hash))], [LinkTag(sheet, ["stylesheet"], None)]))
      == [ExternalResource(Script, script, Some("sha384-" + hash)), ExternalResource(Stylesheet, sheet, None)]
  {
    var scripts := [ScriptTag(script, Some("sha384-" + hash))];
    var links := [LinkTag(sheet, ["stylesheet"], None)];
    assert scripts[..0] == [] && links[..0] == [];
    assert IsStylesheetLink(links[0]);
  }

  lemma MixedTally(script: string, sheet: string, hash: string)
    ensures var ext := [ExternalResource(Script, script, Some("sha384-" + hash)), ExternalResource(Stylesheet, sheet, None)];
      CountWithIntegrity(ext) == 1 && AlgorithmsUsed(ext) == {"sha384"}
  {
    var ext := [ExternalResource(Script, script, Some("sha384-" + hash)), ExternalResource(Stylesheet, sheet, None)];
    assert ext[..1] == [ext[0]] && ext[..1][..0] == [];
    assert StartsWith("sha384-" + hash, "sha384-");
    assert !StartsWith("sha384-" + hash, "sha256-");
  }
}
