/** export_seal_to_excel, before any spreadsheet is written: the seal report is
    turned into the rows of its three sheets. The report has one entry per page
    with a list of seals, a list of issues, and a summary. */
module SealExporter {
  import opened PyText

  /** One seal of a page: its attributes as the recognizer reported them. */
  type Seal = map<string, Value>

  /** One element of report["raw_data"]: the page, the result's requires_seal value
      (None when the key is absent) and its seals. An absent, null or empty seals
      list is the empty sequence: the exporter treats all three alike. */
  datatype RawPage = RawPage(page: Value, requiresSeal: Option<Value>, seals: seq<Seal>)

  /** One row of the raw-data sheet. */
  datatype RawRow = RawRow(
    page: Value, requiresSeal: Value, sealIndex: Value,
    isRed: Value, isComplete: Value, isNormalSize: Value, sealText: Value)

  /** `d.get(key, default)`. */
  function Get(d: map<string, Value>, key: string, default: Value): (r: Value)
    ensures key in d ==> r == d[key]
    ensures key !in d ==> r == default
  {
    if key in d then d[key] else default
  }

  /** `res.get("requires_seal", False)`. */
  function RequiresSeal(p: RawPage): (r: Value)
    ensures p.requiresSeal.None? ==> r == Bool(false)
    ensures p.requiresSeal.Some? ==> r == p.requiresSeal.value
  {
    if p.requiresSeal.Some? then p.requiresSeal.value else Bool(false)
  }

  /** The row of the i-th seal of a page (i counted from 1), each missing attribute
      rendered as "". */
  function SealRow(p: RawPage, i: int, seal: Seal): RawRow {
    RawRow(p.page, RequiresSeal(p), Int(i),
      Get(seal, "is_red", Str("")), Get(seal, "is_complete", Str("")),
      Get(seal, "is_normal_size", Str("")), Get(seal, "seal_text", Str("")))
  }

  /** The rows of one page: one per seal, or a single row when the page has no
      seal (PageRowsSpec below). */
  function PageRows(p: RawPage): seq<RawRow> {
    if p.seals == [] then [RawRow(p.page, RequiresSeal(p), Str(""), Str(""), Str(""), Str(""), Str(""))]
    else seq(|p.seals|, j requires 0 <= j < |p.seals| => SealRow(p, j + 1, p.seals[j]))
  }

  /** A page yields max(1, n) rows for its n seals, all carrying its page and
      requires_seal value: with no seal one row whose seal columns are blank,
      otherwise the seals in order, numbered 1 to n. */
  lemma PageRowsSpec(p: RawPage)
    ensures |PageRows(p)| == RowCount(p)
    ensures forall j :: 0 <= j < |PageRows(p)| ==>
      PageRows(p)[j].page == p.page && PageRows(p)[j].requiresSeal == RequiresSeal(p)
    ensures p.seals == [] ==>
      PageRows(p)[0] == RawRow(p.page, RequiresSeal(p), Str(""), Str(""), Str(""), Str(""), Str(""))
    ensures forall j :: 0 <= j < |p.seals| ==>
      PageRows(p)[j] == SealRow(p, j + 1, p.seals[j]) && PageRows(p)[j].sealIndex == Int(j + 1)
  {
  }

  /** `max(1, len(seals))`. */
  function RowCount(p: RawPage): nat {
    if p.seals == [] then 1 else |p.seals|
  }

  /** The raw-data sheet: the rows of every page, in page order. */
  function RawRows(pages: seq<RawPage>): seq<RawRow> {
    FlatMap(PageRows, pages)
  }

  function TotalRowCount(pages: seq<RawPage>): nat {
    if pages == [] then 0
    else TotalRowCount(pages[..|pages| - 1]) + RowCount(pages[|pages| - 1])
  }

  /** The raw-row loop of export_seal_to_excel. */
  method FlattenRawRows(pages: seq<RawPage>) returns (rows: seq<RawRow>)
    ensures rows == RawRows(pages)
  {
    rows := [];
    for k := 0 to |pages|
      invariant rows == RawRows(pages[..k])
    {
      assert pages[..k + 1][..k] == pages[..k];
      assert pages[..k + 1][k] == pages[k];
      rows := AppendPageRows(pages[k], rows);
    }
    assert pages[..|pages|] == pages;
  }

  /** The rows of one page, appended. */
  method AppendPageRows(p: RawPage, rows0: seq<RawRow>) returns (rows: seq<RawRow>)
    ensures rows == rows0 + PageRows(p)
  {
    PageRowsSpec(p);
    rows := rows0;
    var requiresSeal := if p.requiresSeal.Some? then p.requiresSeal.value else Bool(false);
    if |p.seals| == 0 {
      rows := rows + [RawRow(p.page, requiresSeal, Str(""), Str(""), Str(""), Str(""), Str(""))];
    } else {
      for i := 0 to |p.seals|
        invariant rows == rows0 + PageRows(p)[..i]
      {
        var seal := p.seals[i];
        rows := rows + [RawRow(p.page, requiresSeal, Int(i + 1),
          Get(seal, "is_red", Str("")), Get(seal, "is_complete", Str("")),
          Get(seal, "is_normal_size", Str("")), Get(seal, "seal_text", Str("")))];
        assert PageRows(p)[..i + 1] == PageRows(p)[..i] + [PageRows(p)[i]];
      }
      assert PageRows(p)[..|p.seals|] == PageRows(p);
    }
  }

  /** The rows of a page list split anywhere are the rows of the two parts, in
      order. */
  lemma RawRowsAppend(a: seq<RawPage>, b: seq<RawPage>)
    ensures RawRows(a + b) == RawRows(a) + RawRows(b)
  {
    FlatMapAppend(PageRows, a, b);
  }

  /** One row per seal, and one for each page without seals. */
  lemma {:induction false} RawRowCount(pages: seq<RawPage>)
    ensures |RawRows(pages)| == TotalRowCount(pages)
  {
    if pages != [] {
      RawRowCount(pages[..|pages| - 1]);
      PageRowsSpec(pages[|pages| - 1]);
    }
  }

  /** The rows of page k are the consecutive rows that follow the rows of the
      pages before it. */
  lemma PageRowsInPlace(pages: seq<RawPage>, k: nat, j: nat)
    requires k < |pages| && j < RowCount(pages[k])
    ensures TotalRowCount(pages[..k]) + j < |RawRows(pages)|
    ensures RawRows(pages)[TotalRowCount(pages[..k]) + j] == PageRows(pages[k])[j]
  {
    RawRowsAround(pages, k);
    RawRowCount(pages[..k]);
    PageRowsSpec(pages[k]);
    InConcat(RawRows(pages[..k]), PageRows(pages[k]), RawRows(pages[k + 1..]), j);
  }

  lemma RawRowsAround(pages: seq<RawPage>, k: nat)
    requires k < |pages|
    ensures RawRows(pages) == RawRows(pages[..k]) + PageRows(pages[k]) + RawRows(pages[k + 1..])
  {
    var before, page, rest := pages[..k], pages[k], pages[k + 1..];
    assert pages == before + [page] + rest;
    RawRowsAppend(before + [page], rest);
    RawRowsAppend(before, [page]);
    assert RawRows([page]) == PageRows(page) by {
      assert [page][..0] == [];
    }
  }

  /** An element of the middle part of a concatenation, by its offset. */
  lemma InConcat<T>(head: seq<T>, own: seq<T>, tail: seq<T>, j: nat)
    requires j < |own|
    ensures |head| + j < |head + own + tail| && (head + own + tail)[|head| + j] == own[j]
  {
  }

  // ---------------------------------------------------------------------------
  // The issues sheet

  /** The row shown when there is no issue. */
  function NoIssueRow(): map<string, Value> {
    map["Page" := Str(""), "Type" := Str("INFO"), "Message" := Str("无问题")]
  }

  /** The issues sheet: the issues unchanged, or the single "no issue" row when
      there are none (an absent or null issues_detail counts as none). */
  function IssueRows(issues: seq<map<string, Value>>): (r: seq<map<string, Value>>)
    ensures |r| >= 1
    ensures issues != [] ==> r == issues
    ensures issues == [] ==> r == [NoIssueRow()]
  {
    if issues != [] then issues else [NoIssueRow()]
  }

  // ---------------------------------------------------------------------------
  // The summary sheet

  /** report["summary"]. */
  datatype Summary = Summary(
    totalPages: Value, pagesRequiringSeal: seq<Value>, anyValidSealDetected: Value,
    globalErrors: seq<string>, globalWarnings: seq<string>)

  datatype SummaryRow = SummaryRow(key: string, value: Value)

  /** `text or "无"`. */
  function OrNone(text: string): string {
    if text == "" then "无" else text
  }

  /** `map(str, xs)`. */
  function PyStrs(xs: seq<Value>): (r: seq<string>)
    ensures |r| == |xs|
    ensures forall k :: 0 <= k < |xs| ==> r[k] == PyStr(xs[k])
  {
    seq(|xs|, k requires 0 <= k < |xs| => PyStr(xs[k]))
  }

  /** The five summary rows, in their fixed order. */
  function SummaryRows(s: Summary): (r: seq<SummaryRow>)
    ensures |r| == 5
  {
    [ SummaryRow("总页数", s.totalPages),
      SummaryRow("需盖章页面", Str(OrNone(Join(PyStrs(s.pagesRequiringSeal), ", ")))),
      SummaryRow("是否检测到有效印章", Str(if Truthy(s.anyValidSealDetected) then "是" else "否")),
      SummaryRow("全局错误 (ERROR)", Str(OrNone(Join(s.globalErrors, "; ")))),
      SummaryRow("全局警告 (WARNING)", Str(OrNone(Join(s.globalWarnings, "; ")))) ]
  }

  /** A joined list renders as "无" when it is empty or holds only one empty text,
      and as the joined text otherwise. */
  lemma ListRendering(xs: seq<string>, sep: string)
    requires sep != ""
    ensures xs == [] || xs == [""] ==> OrNone(Join(xs, sep)) == "无"
    ensures !(xs == [] || xs == [""]) ==> OrNone(Join(xs, sep)) == Join(xs, sep) != ""
  {
    JoinEmpty(xs, sep);
  }

  /** The summary: the page count as given; the page list "无" for no pages and the
      comma-separated page numbers otherwise; "是" exactly when a valid seal was
      detected and "否" otherwise; the error and warning lists like the page list,
      with "; ". */
  lemma SummaryRendering(s: Summary)
    requires forall k :: 0 <= k < |s.pagesRequiringSeal| ==> s.pagesRequiringSeal[k].Int?
    ensures SummaryRows(s)[0].value == s.totalPages
    ensures SummaryRows(s)[2].value == Str("是") <==> Truthy(s.anyValidSealDetected)
    ensures SummaryRows(s)[2].value == Str("否") <==> !Truthy(s.anyValidSealDetected)
    ensures SummaryRows(s)[1].value == Str(if s.pagesRequiringSeal == [] then "无" else Join(PyStrs(s.pagesRequiringSeal), ", "))
    ensures s.globalErrors == [] ==> SummaryRows(s)[3].value == Str("无")
    ensures s.globalErrors != [] && s.globalErrors[0] != "" ==> SummaryRows(s)[3].value == Str(Join(s.globalErrors, "; "))
    ensures s.globalWarnings == [] ==> SummaryRows(s)[4].value == Str("无")
    ensures s.globalWarnings != [] && s.globalWarnings[0] != "" ==> SummaryRows(s)[4].value == Str(Join(s.globalWarnings, "; "))
  {
    var pages := PyStrs(s.pagesRequiringSeal);
    ListRendering(pages, ", ");
    ListRendering(s.globalErrors, "; ");
    ListRendering(s.globalWarnings, "; ");
  }
}
