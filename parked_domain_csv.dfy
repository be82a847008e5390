/** The parked-domain lock-down generator: `generate_records` expands the
    fixed record template into the CSV rows for one domain. */
module ParkedDomainCsv {
  import opened Text

  type Row = seq<string>

  const Header: Row := ["Action", "Zone", "Record Name", "Record Type", "TTL", "Value", "Comments"]

  const RemoveMx: Row := ["REMOVE", "{domain}", "@", "MX", "", "10 custmx.cscdns.net.", "Remove existing MX record"]
  const AddSpf: Row := ["ADD", "{domain}", "@", "TXT", "3600", "v=spf1 -all", "SPF hard fail"]
  const AddNullMx: Row := ["ADD", "{domain}", "@", "MX", "3600", "0 .", "Null MX (RFC 7505)"]
  const AddDkim: Row := ["ADD", "{domain}", "*._domainkey", "TXT", "3600", "v=DKIM1; p=", "DKIM wildcard with empty key"]
  const AddDmarc: Row := ["ADD", "{domain}", "_dmarc", "CNAME", "3600", "{dmarc_target}", "DMARC reject policy via CNAME"]

  /** One template row per record to remove or add, in output order. */
  const RecordTemplate: seq<Row> := [RemoveMx, AddSpf, AddNullMx, AddDkim, AddDmarc]

  /** The only replacement field the templates' values use. */
  const DmarcField := "{dmarc_target}"

  /** `value.format(dmarc_target=target)` for a template value whose only
      replacement field is `{dmarc_target}`: a value without a replacement
      field is copied, and the lone field becomes the target. */
  function FormatValue(template: string, dmarcTarget: string): (v: string)
    ensures '{' !in template ==> v == template
    ensures template == DmarcField ==> v == dmarcTarget
  {
    if '{' !in template then
      ReplaceAllAbsent(template, DmarcField, dmarcTarget);
      ReplaceAll(template, DmarcField, dmarcTarget)
    else
      ReplaceAllWhole(DmarcField, dmarcTarget);
      ReplaceAll(template, DmarcField, dmarcTarget)
  }

  /** The separator row that opens each domain's block. */
  function HeadingRow(domain: string): (row: Row)
    ensures |row| == |Header|
  {
    ["--- " + domain + " ---", "", "", "", "", "", "Domain configuration"]
  }

  /** `row` is the expansion of `template`: the domain in the Zone column, the
      formatted value in the Value column, every other column copied. */
  predicate ExpandsTemplate(template: Row, domain: string, dmarcTarget: string, row: Row)
  {
    && |template| == |Header|
    && |row| == |Header|
    && row[0] == template[0]
    && row[1] == domain
    && row[2] == template[2]
    && row[3] == template[3]
    && row[4] == template[4]
    && row[5] == FormatValue(template[5], dmarcTarget)
    && row[6] == template[6]
  }

  /** Every template row has a field per header column. */
  lemma TemplateRowsAreFull()
    ensures forall i :: 0 <= i < |RecordTemplate| ==> |RecordTemplate[i]| == |Header|
  {
  }

  /** `rows` expands `templates` row by row, in order. */
  predicate ExpandsAll(templates: seq<Row>, domain: string, dmarcTarget: string, rows: seq<Row>)
  {
    && |rows| == |templates|
    && forall i :: 0 <= i < |templates| ==> ExpandsTemplate(templates[i], domain, dmarcTarget, rows[i])
  }

  /** The loop of `generate_records`: one expanded row per template row, in order. */
  method ExpandTemplates(templates: seq<Row>, domain: string, dmarcTarget: string) returns (rows: seq<Row>)
    requires forall i :: 0 <= i < |templates| ==> |templates[i]| == |Header|
    ensures ExpandsAll(templates, domain, dmarcTarget, rows)
  {
    rows := [];
    for i := 0 to |templates|
      invariant ExpandsAll(templates[..i], domain, dmarcTarget, rows)
    {
      var template := templates[i];
      var value := FormatValue(template[5], dmarcTarget);
      var row := [template[0], domain, template[2], template[3], template[4], value, template[6]];
      assert ExpandsTemplate(template, domain, dmarcTarget, row);
      rows := rows + [row];
    }
    assert templates[..|templates|] == templates;
  }

  /** `generate_records(domain, dmarc_target)`. */
  method GenerateRecords(domain: string, dmarcTarget: string) returns (records: seq<Row>)
    ensures |records| == 1 + |RecordTemplate|
    ensures records[0] == HeadingRow(domain)
    ensures ExpandsAll(RecordTemplate, domain, dmarcTarget, records[1..])
  {
    TemplateRowsAreFull();
    var rows := ExpandTemplates(RecordTemplate, domain, dmarcTarget);
    records := [HeadingRow(domain)] + rows;
    assert records[1..] == rows;
  }

  /** Every generated row has one field per header column. */
  lemma RowsAreFull(domain: string, dmarcTarget: string, records: seq<Row>)
    requires |records| > 0 && records[0] == HeadingRow(domain)
    requires ExpandsAll(RecordTemplate, domain, dmarcTarget, records[1..])
    ensures forall k :: 0 <= k < |records| ==> |records[k]| == |Header|
  {
  }

  /** The Value column: the DMARC target in the `_dmarc` CNAME row, and the
      template's literal value in every other row. */
  lemma TemplateValues(dmarcTarget: string)
    ensures forall i :: 0 <= i < |RecordTemplate| ==>
      FormatValue(RecordTemplate[i][5], dmarcTarget) ==
        if RecordTemplate[i][2] == "_dmarc" && RecordTemplate[i][3] == "CNAME" then dmarcTarget
        else RecordTemplate[i][5]
  {
    forall i | 0 <= i < |RecordTemplate|
      ensures FormatValue(RecordTemplate[i][5], dmarcTarget) ==
        if RecordTemplate[i][2] == "_dmarc" && RecordTemplate[i][3] == "CNAME" then dmarcTarget
        else RecordTemplate[i][5]
    {
      TemplateValue(i, dmarcTarget);
    }
  }

  lemma TemplateValue(i: nat, dmarcTarget: string)
    requires i < |RecordTemplate|
    ensures FormatValue(RecordTemplate[i][5], dmarcTarget) ==
      if RecordTemplate[i][2] == "_dmarc" && RecordTemplate[i][3] == "CNAME" then dmarcTarget
      else RecordTemplate[i][5]
  {
    if i == 4 {
      assert RecordTemplate[i][5] == DmarcField;
    } else {
      assert RecordTemplate[i][2] != "_dmarc";
      assert '{' !in RecordTemplate[i][5] by {
        if i == 0 { assert RecordTemplate[i] == RemoveMx; }
        else if i == 1 { assert RecordTemplate[i] == AddSpf; }
        else if i == 2 { assert RecordTemplate[i] == AddNullMx; }
        else { assert RecordTemplate[i] == AddDkim; }
      }
    }
  }

  /** The last row is the DMARC CNAME pointing at the target. */
  lemma DmarcRow(domain: string, dmarcTarget: string, records: seq<Row>)
    requires |records| == 1 + |RecordTemplate|
    requires ExpandsAll(RecordTemplate, domain, dmarcTarget, records[1..])
    ensures |records[5]| == |Header|
    ensures records[5][0] == "ADD" && records[5][1] == domain
    ensures records[5][2] == "_dmarc" && records[5][3] == "CNAME" && records[5][4] == "3600"
    ensures records[5][5] == dmarcTarget
  {
    assert records[5] == records[1..][4];
    assert ExpandsTemplate(AddDmarc, domain, dmarcTarget, records[5]);
  }
}
