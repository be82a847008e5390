/** The email-authentication checker: `check_spf`, `check_dkim` and `check_dmarc`. */
module EmailAuth {
  import opened Wrappers
  import opened Text
  import opened Seqs
  import opened Resolver

  /** The SPF finding; `multipleRecords` is `None` where the source's dict has
      no `multiple_records` key. */
  datatype SpfFinding = SpfFinding(present: bool, record: Option<string>, multipleRecords: Option<bool>)

  datatype DkimEntry = DkimEntry(selector: string, record: string)
  datatype DkimFinding = DkimFinding(present: bool, records: seq<DkimEntry>)

  datatype DmarcFinding = DmarcFinding(present: bool, record: Option<string>)

  /** TXT values are returned in their presentation form, quotes included. */
  const SpfPrefix := "\"v=spf1"

  predicate IsSpfValue(v: string)
  {
    StartsWith(v, SpfPrefix)
  }

  /** The values of the TXT lookup of `name`, as the callers iterate them. */
  function TxtItems(resolve: Resolve, name: string): seq<string>
  {
    Items(GetDnsRecord(resolve, name, TXT))
  }

  /** Some value has the SPF prefix. */
  predicate HasSpf(items: seq<string>)
  {
    exists i :: 0 <= i < |items| && IsSpfValue(items[i])
  }

  /** Two different values have the SPF prefix. */
  predicate MultipleSpf(items: seq<string>)
  {
    exists i, j :: 0 <= i < j < |items| && IsSpfValue(items[i]) && IsSpfValue(items[j])
  }

  /** `v` is the first of `items` with the SPF prefix. */
  predicate FirstSpfAt(items: seq<string>, v: string)
  {
    exists i :: 0 <= i < |items| && items[i] == v && IsSpfValue(items[i]) && forall j :: 0 <= j < i ==> !IsSpfValue(items[j])
  }

  /** The shape of every SPF finding: a record and a multiplicity flag exactly when one exists. */
  predicate WellShapedSpf(r: SpfFinding)
  {
    && (r.present <==> r.record.Some?)
    && (r.present <==> r.multipleRecords.Some?)
  }

  /** `check_spf(domain)`. */
  function CheckSpf(resolve: Resolve, domain: string): (r: SpfFinding)
    ensures WellShapedSpf(r)
    ensures r.present <==> HasSpf(TxtItems(resolve, domain))
    ensures !r.present ==> r.record == None && r.multipleRecords == None
    ensures r.present ==> r.record.Some? && FirstSpfAt(TxtItems(resolve, domain), r.record.value)
    ensures r.present ==> r.multipleRecords == Some(MultipleSpf(TxtItems(resolve, domain)))
  {
    var txt := GetDnsRecord(resolve, domain, TXT);
    TruthyIffItems(txt);
    if !Truthy(txt) then SpfFinding(false, None, None)
    else
      var spf := Filter(Items(txt), IsSpfValue);
      SpfSelection(Items(txt));
      if |spf| == 0 then SpfFinding(false, None, None)
      else SpfFinding(true, Some(spf[0]), Some(|spf| > 1))
  }

  /** The list comprehension over the TXT values: it is empty exactly when no
      value qualifies, its head is the first qualifying value, and it has more
      than one element exactly when two values qualify. */
  lemma SpfSelection(items: seq<string>)
    ensures |Filter(items, IsSpfValue)| > 0 <==> HasSpf(items)
    ensures |Filter(items, IsSpfValue)| > 0 ==> FirstSpfAt(items, Filter(items, IsSpfValue)[0])
    ensures |Filter(items, IsSpfValue)| > 1 <==> MultipleSpf(items)
  {
    var spf := Filter(items, IsSpfValue);
    if HasSpf(items) {
      var i :| 0 <= i < |items| && IsSpfValue(items[i]);
      assert items[i] in spf;
    }
    if |spf| > 0 {
      assert spf[0] in spf;
      FilterFirst(items, IsSpfValue);
    }
    FilterMoreThanOne(items, IsSpfValue);
  }

  /** A single TXT value `"v=spf1 -all"` is found and is not reported as multiple. */
  lemma SpfSingleRecord(resolve: Resolve, domain: string)
    requires TxtItems(resolve, domain) == ["\"v=spf1 -all\""]
    ensures CheckSpf(resolve, domain) == SpfFinding(true, Some("\"v=spf1 -all\""), Some(false))
  {
    var items := TxtItems(resolve, domain);
    assert IsSpfValue(items[0]);
    assert HasSpf(items);
    assert !MultipleSpf(items);
  }

  /** Two SPF values: the first is the canonical record and both are reported. */
  lemma SpfTwoRecords(resolve: Resolve, domain: string, a: string, b: string)
    requires TxtItems(resolve, domain) == [a, b] && IsSpfValue(a) && IsSpfValue(b)
    ensures CheckSpf(resolve, domain) == SpfFinding(true, Some(a), Some(true))
  {
    var items := TxtItems(resolve, domain);
    assert IsSpfValue(items[0]) && IsSpfValue(items[1]);
    assert HasSpf(items) && MultipleSpf(items);
    var r := CheckSpf(resolve, domain);
    var i :| 0 <= i < |items| && items[i] == r.record.value && IsSpfValue(items[i])
      && forall j :: 0 <= j < i ==> !IsSpfValue(items[j]);
    assert i == 0;
  }

  /** An error text never holds an SPF record: its items are single characters. */
  lemma SpfIgnoresErrorText(resolve: Resolve, domain: string)
    requires GetDnsRecord(resolve, domain, TXT).ErrorText?
    ensures CheckSpf(resolve, domain) == SpfFinding(false, None, None)
  {
    ErrorTextQuirk(resolve, domain, TXT);
  }

  const DefaultSelectors: seq<string> := ["default", "google", "dkim", "k1"]

  /** The TXT name probed for a DKIM selector. */
  function DkimName(selector: string, domain: string): string
  {
    selector + "._domainkey." + domain
  }

  function SelectorsOf(entries: seq<DkimEntry>): (sels: seq<string>)
    ensures |sels| == |entries|
    ensures forall k :: 0 <= k < |entries| ==> sels[k] == entries[k].selector
  {
    seq(|entries|, k requires 0 <= k < |entries| => entries[k].selector)
  }

  /** The DKIM selectors whose TXT lookup answers with a truthy value. */
  predicate DkimResolves(resolve: Resolve, domain: string, selector: string)
  {
    Truthy(GetDnsRecord(resolve, DkimName(selector, domain), TXT))
  }

  /** What `check_dkim` reports: the resolving selectors in probe order, each
      with the first value of its lookup; `exists` iff there is one. */
  predicate ReportsDkim(resolve: Resolve, domain: string, selectors: seq<string>, r: DkimFinding)
  {
    && (r.present <==> |r.records| > 0)
    && SelectorsOf(r.records) == Filter(selectors, s => DkimResolves(resolve, domain, s))
    && EntriesResolve(resolve, domain, r.records)
  }

  /** Every entry names a resolving selector and carries that selector's first value. */
  predicate EntriesResolve(resolve: Resolve, domain: string, entries: seq<DkimEntry>)
  {
    forall k :: 0 <= k < |entries| ==>
      DkimResolves(resolve, domain, entries[k].selector) &&
      entries[k].record == First(GetDnsRecord(resolve, DkimName(entries[k].selector, domain), TXT))
  }

  /** `check_dkim(domain, selectors)`: probe the selectors in order and keep,
      for each that resolves, its first value. */
  method CheckDkim(resolve: Resolve, domain: string, selectors: seq<string>) returns (r: DkimFinding)
    ensures ReportsDkim(resolve, domain, selectors, r)
  {
    var results: seq<DkimEntry> := [];
    for i := 0 to |selectors|
      invariant SelectorsOf(results) == Filter(selectors[..i], s => DkimResolves(resolve, domain, s))
      invariant EntriesResolve(resolve, domain, results)
    {
      ghost var before := results;
      var selector := selectors[i];
      var record := GetDnsRecord(resolve, DkimName(selector, domain), TXT);
      if Truthy(record) {
        results := results + [DkimEntry(selector, First(record))];
      }
      DkimStep(resolve, domain, selectors, i, record, before, results);
    }
    assert selectors[..|selectors|] == selectors;
    r := DkimFinding(|results| > 0, results);
  }

  /** One probe of the loop of `check_dkim`: a resolving selector appends its
      entry, any other leaves the entries as they were. */
  lemma DkimStep(resolve: Resolve, domain: string, selectors: seq<string>, i: nat,
                 record: LookupResult, before: seq<DkimEntry>, after: seq<DkimEntry>)
    requires i < |selectors|
    requires SelectorsOf(before) == Filter(selectors[..i], s => DkimResolves(resolve, domain, s))
    requires EntriesResolve(resolve, domain, before)
    requires record == GetDnsRecord(resolve, DkimName(selectors[i], domain), TXT)
    requires after == if Truthy(record) then before + [DkimEntry(selectors[i], First(record))] else before
    ensures SelectorsOf(after) == Filter(selectors[..i + 1], s => DkimResolves(resolve, domain, s))
    ensures EntriesResolve(resolve, domain, after)
  {
    assert selectors[..i + 1] == selectors[..i] + [selectors[i]];
    FilterSnoc(selectors[..i], selectors[i], s => DkimResolves(resolve, domain, s));
    if Truthy(record) {
      SelectorsOfAppend(before, DkimEntry(selectors[i], First(record)));
      EntriesAppend(resolve, domain, before, DkimEntry(selectors[i], First(record)));
    }
  }

  lemma EntriesAppend(resolve: Resolve, domain: string, entries: seq<DkimEntry>, e: DkimEntry)
    requires EntriesResolve(resolve, domain, entries)
    requires DkimResolves(resolve, domain, e.selector)
    requires e.record == First(GetDnsRecord(resolve, DkimName(e.selector, domain), TXT))
    ensures EntriesResolve(resolve, domain, entries + [e])
  {
  }

  lemma SelectorsOfAppend(entries: seq<DkimEntry>, e: DkimEntry)
    ensures SelectorsOf(entries + [e]) == SelectorsOf(entries) + [e.selector]
  {
  }

  /** Which selectors appear, and in what order: exactly the resolving ones, in probe order. */
  lemma DkimSelection(resolve: Resolve, domain: string, selectors: seq<string>, found: seq<DkimEntry>)
    requires SelectorsOf(found) == Filter(selectors, s => DkimResolves(resolve, domain, s))
    ensures forall s :: s in SelectorsOf(found) <==> s in selectors && DkimResolves(resolve, domain, s)
    ensures IsSubsequence(SelectorsOf(found), selectors)
  {
    FilterIsSubsequence(selectors, s => DkimResolves(resolve, domain, s));
  }

  /** With the default selectors, when only `google` resolves the result has
      exactly one entry, for `google`. */
  lemma DkimOnlyGoogle(resolve: Resolve, domain: string, found: seq<DkimEntry>)
    requires SelectorsOf(found) == Filter(DefaultSelectors, s => DkimResolves(resolve, domain, s))
    requires DkimResolves(resolve, domain, "google")
    requires forall s :: s in DefaultSelectors && s != "google" ==> !DkimResolves(resolve, domain, s)
    ensures |found| == 1 && found[0].selector == "google"
  {
    var p := s => DkimResolves(resolve, domain, s);
    assert !p("default") && !p("dkim") && !p("k1");
    assert Filter(DefaultSelectors, p) == ["google"];
  }

  function DmarcName(domain: string): string
  {
    "_dmarc." + domain
  }

  /** `check_dmarc(domain)`. */
  function CheckDmarc(resolve: Resolve, domain: string): (r: DmarcFinding)
    ensures r.present <==> |TxtItems(resolve, DmarcName(domain))| > 0
    ensures r.present <==> r.record.Some?
    ensures r.present ==> r.record.value == TxtItems(resolve, DmarcName(domain))[0]
  {
    var record := GetDnsRecord(resolve, DmarcName(domain), TXT);
    TruthyIffItems(record);
    DmarcFinding(Truthy(record), if Truthy(record) then Some(First(record)) else None)
  }

  /** The error-text quirk seen by DMARC: it reports a record, the letter `"E"`. */
  lemma DmarcReportsErrorInitial(resolve: Resolve, domain: string)
    requires GetDnsRecord(resolve, DmarcName(domain), TXT).ErrorText?
    ensures CheckDmarc(resolve, domain) == DmarcFinding(true, Some("E"))
  {
    ErrorTextQuirk(resolve, DmarcName(domain), TXT);
  }
}
