/** detect_seal_compliance: one recognizer call per page image, each reply
    defaulted to a seal observation (a failure becomes a "no seal" record), then
    all pages reduced to one error/warning report. */
module SealDetector {
  import opened PyText
  import opened Decimal
  import opened PageNaming
  import opened Recognizer

  const HasSeal: string := "has_seal"
  const IsRed: string := "is_red"
  const IsComplete: string := "is_complete"
  const IsNormalSize: string := "is_normal_size"
  const SealText: string := "seal_text"

  /** The four boolean keys, in the order they are defaulted. */
  const FlagKeys: seq<string> := [HasSeal, IsRed, IsComplete, IsNormalSize]

  /** The text the recognizer gives for a seal it cannot read. */
  const BlurredSealText: string := "（印章模糊）"

  function SealKeys(): set<string> {
    {HasSeal, IsRed, IsComplete, IsNormalSize, SealText}
  }

  // ---------------------------------------------------------------------------
  // _analyze_seal_page

  /** `data` after the keys of `keys` that are missing have been given their
      default: "" for seal_text, True for the others. Keys present are kept, null
      values included. */
  function Defaulted(data: map<string, Value>, keys: set<string>): (r: map<string, Value>)
    ensures r.Keys == data.Keys + keys
  {
    map k | k in data.Keys + keys :: if k in data then data[k] else if k == SealText then Str("") else Bool(true)
  }

  /** The dict _analyze_seal_page returns for a JSON object reply. */
  function SealDefaults(data: map<string, Value>): map<string, Value> {
    Defaulted(data, SealKeys())
  }

  /** Each missing boolean key becomes True, a missing seal_text becomes "", and
      every key already present keeps its value. */
  lemma SealDefaultsSpec(data: map<string, Value>)
    ensures SealDefaults(data).Keys == data.Keys + SealKeys()
    ensures forall k :: k in FlagKeys && k !in data ==> SealDefaults(data)[k] == Bool(true)
    ensures SealText !in data ==> SealDefaults(data)[SealText] == Str("")
    ensures forall k :: k in data ==> SealDefaults(data)[k] == data[k]
  {
    assert SealText != HasSeal && SealText != IsRed && SealText != IsComplete && SealText != IsNormalSize;
  }

  /** The record stored for a page whose reply is not JSON or whose analysis
      raised: no seal, every other attribute fine. */
  function Fallback(): map<string, Value> {
    map[HasSeal := Bool(false), IsRed := Bool(true), IsComplete := Bool(true),
        IsNormalSize := Bool(true), SealText := Str("")]
  }

  /** _analyze_seal_page: a failed call and JSON that is not an object raise; text
      that is not JSON gives the fallback record; an object is defaulted. */
  function SealAnalysis(reply: Reply): Analysis {
    match reply
    case ApiError => Raised
    case NotJson => Analysed(Fallback())
    case JsonObject(data) => Analysed(SealDefaults(data))
    case JsonOther => Raised
  }

  method AnalyzeSealPage(reply: Reply) returns (a: Analysis)
    ensures a == SealAnalysis(reply)
  {
    match reply
    case ApiError =>
      a := Raised;
    case NotJson =>
      a := Analysed(Fallback());
    case JsonObject(data0) =>
      var data := FillSealDefaults(data0);
      a := Analysed(data);
    case JsonOther =>
      a := Raised;
  }

  method FillSealDefaults(data0: map<string, Value>) returns (data: map<string, Value>)
    ensures data == SealDefaults(data0)
  {
    data := data0;
    ghost var done: set<string> := {};
    for j := 0 to |FlagKeys|
      invariant done == set i | 0 <= i < j :: FlagKeys[i]
      invariant data == Defaulted(data0, done)
    {
      var key := FlagKeys[j];
      if key !in data {
        data := data[key := Bool(true)];
      }
      DefaultedStep(data0, done, key);
      done := done + {key};
      assert done == set i | 0 <= i < j + 1 :: FlagKeys[i];
    }
    if SealText !in data {
      data := data[SealText := Str("")];
    }
    DefaultedStep(data0, done, SealText);
    assert done == {HasSeal, IsRed, IsComplete, IsNormalSize} by {
      assert FlagKeys[0] == HasSeal && FlagKeys[1] == IsRed && FlagKeys[2] == IsComplete && FlagKeys[3] == IsNormalSize;
    }
  }

  /** Defaulting one more key is a point update when that key is missing. */
  lemma DefaultedStep(data: map<string, Value>, done: set<string>, key: string)
    requires key == SealText || key in FlagKeys
    ensures Defaulted(data, done + {key}) ==
      var cur := Defaulted(data, done);
      if key in cur then cur else cur[key := if key == SealText then Str("") else Bool(true)]
  {
  }

  /** The `result` the page loop stores for one reply: the analysed dict, or the
      fallback record when the analysis raised. */
  function SealPageResult(reply: Reply): map<string, Value> {
    StoredSealResult(SealAnalysis(reply))
  }

  /** The result stored for an analysis: its dict, or the fallback record when it
      raised. */
  function StoredSealResult(a: Analysis): map<string, Value> {
    if a.Analysed? then a.data else Fallback()
  }

  // ---------------------------------------------------------------------------
  // The page loop

  /** One element of all_pages: {"page": n, "result": …}. */
  datatype SealPage = SealPage(page: int, result: map<string, Value>)

  /** all_pages for images with the given stems and recognizer replies; None when
      int() of a page-number segment raises ValueError, which ends the call. */
  function SealPages(stems: seq<string>, replies: seq<Reply>): (r: Option<seq<SealPage>>)
    requires |stems| == |replies|
    ensures r.Some? ==> |r.value| == |stems|
  {
    CollectSealPages(PageNumbers(stems), SealPageResults(replies))
  }

  /** The stored result of each reply, in image order. */
  function SealPageResults(replies: seq<Reply>): (r: seq<map<string, Value>>)
    ensures |r| == |replies|
  {
    MapSeq(SealPageResult, replies)
  }

  lemma SealPageResultsAt(replies: seq<Reply>, k: nat)
    requires k < |replies|
    ensures SealPageResults(replies)[k] == SealPageResult(replies[k])
  {
    MapSeqAt(SealPageResult, replies, k);
  }

  /** The page loop over already parsed page numbers and stored results. */
  function CollectSealPages(numbers: seq<Option<int>>, results: seq<map<string, Value>>): (r: Option<seq<SealPage>>)
    requires |numbers| == |results|
    ensures r.Some? ==> |r.value| == |numbers|
  {
    if numbers == [] then Some([])
    else
      var n := |numbers| - 1;
      var init := CollectSealPages(numbers[..n], results[..n]);
      if init.Some? && numbers[n].Some? then Some(init.value + [SealPage(numbers[n].value, results[n])])
      else None
  }

  method DetectSealPages(stems: seq<string>, replies: seq<Reply>) returns (r: Option<seq<SealPage>>)
    requires |stems| == |replies|
    ensures r == SealPages(stems, replies)
  {
    ghost var numbers := PageNumbers(stems);
    ghost var results := SealPageResults(replies);
    var allPages: seq<SealPage> := [];
    for i := 0 to |stems|
      invariant CollectSealPages(numbers[..i], results[..i]) == Some(allPages)
    {
      var pageNumber := PageNumberOf(stems[i]);
      PageNumbersAt(stems, i);
      CollectSealPagesStep(numbers, results, i, allPages);
      if pageNumber.None? {
        CollectSealPagesFail(numbers, results, i + 1);
        return None;
      }
      var a := AnalyzeSealPage(replies[i]);
      var result := StoredSealResult(a);
      SealPageResultsAt(replies, i);
      allPages := allPages + [SealPage(pageNumber.value, result)];
    }
    assert numbers[..|stems|] == numbers && results[..|replies|] == results;
    r := Some(allPages);
  }

  /** One more page: the page list grows by that page, or the call fails. */
  lemma CollectSealPagesStep(numbers: seq<Option<int>>, results: seq<map<string, Value>>, i: nat, pages: seq<SealPage>)
    requires |numbers| == |results| && i < |numbers|
    requires CollectSealPages(numbers[..i], results[..i]) == Some(pages)
    ensures CollectSealPages(numbers[..i + 1], results[..i + 1]) ==
      if numbers[i].Some? then Some(pages + [SealPage(numbers[i].value, results[i])]) else None
  {
    assert numbers[..i + 1][..i] == numbers[..i] && results[..i + 1][..i] == results[..i];
  }

  lemma {:induction false} CollectSealPagesFail(numbers: seq<Option<int>>, results: seq<map<string, Value>>, i: nat)
    requires |numbers| == |results| && 0 < i <= |numbers|
    requires CollectSealPages(numbers[..i], results[..i]).None?
    ensures CollectSealPages(numbers, results).None?
    decreases |numbers|
  {
    if i < |numbers| {
      var n := |numbers| - 1;
      assert numbers[..n][..i] == numbers[..i] && results[..n][..i] == results[..i];
      CollectSealPagesFail(numbers[..n], results[..n], i);
    } else {
      assert numbers[..i] == numbers && results[..i] == results;
    }
  }

  lemma {:induction false} CollectSealPagesShape(numbers: seq<Option<int>>, results: seq<map<string, Value>>)
    requires |numbers| == |results|
    ensures CollectSealPages(numbers, results).Some? <==> forall k :: 0 <= k < |numbers| ==> numbers[k].Some?
    ensures CollectSealPages(numbers, results).Some? ==>
      forall k :: 0 <= k < |numbers| ==> CollectSealPages(numbers, results).value[k] == SealPage(numbers[k].value, results[k])
  {
    if numbers != [] {
      var n := |numbers| - 1;
      CollectSealPagesShape(numbers[..n], results[..n]);
      assert forall k :: 0 <= k < n ==> numbers[..n][k] == numbers[k] && results[..n][k] == results[k];
    }
  }

  /** One entry per image, in image order, with the image's page number and the
      stored result of its reply; the call fails exactly when some page number is
      not an integer. */
  lemma SealPagesShape(stems: seq<string>, replies: seq<Reply>)
    requires |stems| == |replies|
    ensures SealPages(stems, replies).Some? <==> forall k :: 0 <= k < |stems| ==> PageNumberOf(stems[k]).Some?
    ensures SealPages(stems, replies).Some? ==>
      forall k :: 0 <= k < |stems| ==>
        SealPages(stems, replies).value[k] == SealPage(PageNumberOf(stems[k]).value, SealPageResult(replies[k]))
  {
    CollectSealPagesShape(PageNumbers(stems), SealPageResults(replies));
    forall k | 0 <= k < |stems|
      ensures PageNumbers(stems)[k] == PageNumberOf(stems[k])
      ensures SealPageResults(replies)[k] == SealPageResult(replies[k])
    {
      PageNumbersAt(stems, k);
      SealPageResultsAt(replies, k);
    }
  }

  /** For the images of an n-page document the pages are numbered 1 to n, and every
      stored result carries the five keys the aggregation reads. */
  lemma NumberedSealPages(n: nat, replies: seq<Reply>)
    requires |replies| == n
    ensures SealPages(PageStems(n), replies).Some?
    ensures forall k :: 0 <= k < n ==> SealPages(PageStems(n), replies).value[k].page == k + 1
    ensures AllReadable(SealPages(PageStems(n), replies).value)
  {
    PageStemsNumbered(n);
    var results := SealPageResults(replies);
    forall k | 0 <= k < n ensures SealKeys() <= results[k].Keys {
      SealPageResultsAt(replies, k);
      SealPageResultComplete(replies[k]);
    }
    CollectSealPagesNumbered(PageNumbers(PageStems(n)), results);
  }

  lemma CollectSealPagesNumbered(numbers: seq<Option<int>>, results: seq<map<string, Value>>)
    requires |numbers| == |results|
    requires forall k :: 0 <= k < |numbers| ==> numbers[k] == Some(k + 1)
    requires forall k :: 0 <= k < |results| ==> SealKeys() <= results[k].Keys
    ensures CollectSealPages(numbers, results).Some?
    ensures forall k :: 0 <= k < |numbers| ==> CollectSealPages(numbers, results).value[k].page == k + 1
    ensures AllReadable(CollectSealPages(numbers, results).value)
  {
    CollectSealPagesShape(numbers, results);
  }

  /** Whatever the reply, the stored result holds all five keys. */
  lemma SealPageResultComplete(reply: Reply)
    ensures SealKeys() <= SealPageResult(reply).Keys
  {
    if reply.JsonObject? {
      SealDefaultsSpec(reply.data);
    }
  }

  /** A failed call, or a reply that is not a JSON object, is stored as the
      fallback record: no seal. */
  lemma FailedPageUnsealed(reply: Reply)
    requires !reply.JsonObject?
    ensures SealPageResult(reply) == Fallback()
    ensures !Truthy(SealPageResult(reply)[HasSeal])
  {
  }

  // ---------------------------------------------------------------------------
  // The aggregation

  /** The findings of the aggregation, each rendered by Message(). */
  datatype SealIssue =
    | NoSeal
    | NotRed(page: int)
    | Incomplete(page: int)
    | AbnormalSize(page: int)
    | Blurred(page: int)
  {
    predicate IsError() {
      NoSeal? || NotRed?
    }

    function Message(): string {
      match this
      case NoSeal => "【缺失】全文档未检测到任何印章"
      case NotRed(p) => "【红章】第 " + IntToString(p) + " 页印章非红色"
      case Incomplete(p) => "【完整性】第 " + IntToString(p) + " 页印章不完整（可能被裁剪）"
      case AbnormalSize(p) => "【尺寸】第 " + IntToString(p) + " 页印章尺寸异常（过小）"
      case Blurred(p) => "【清晰度】第 " + IntToString(p) + " 页印章文字无法辨认"
    }
  }

  function Messages(xs: seq<SealIssue>): (r: seq<string>)
    ensures |r| == |xs|
    ensures forall k :: 0 <= k < |xs| ==> r[k] == xs[k].Message()
  {
    seq(|xs|, k requires 0 <= k < |xs| => xs[k].Message())
  }

  /** The keys the aggregation loop reads from a result: has_seal always, the
      others only on a sealed page (a missing one raises KeyError). */
  predicate Readable(res: map<string, Value>) {
    HasSeal in res && (Truthy(res[HasSeal]) ==> IsRed in res && IsComplete in res && IsNormalSize in res && SealText in res)
  }

  predicate AllReadable(pages: seq<SealPage>) {
    forall k :: 0 <= k < |pages| ==> Readable(pages[k].result)
  }

  predicate Sealed(p: SealPage)
    requires Readable(p.result)
  {
    Truthy(p.result[HasSeal])
  }

  /** The error a page adds: a sealed page whose seal is not red. */
  function PageErrors(p: SealPage): (r: seq<SealIssue>)
    requires Readable(p.result)
    ensures |r| <= (if Sealed(p) then 1 else 0)
    ensures forall x :: x in r ==> x == NotRed(p.page)
  {
    if Sealed(p) && !Truthy(p.result[IsRed]) then [NotRed(p.page)] else []
  }

  /** The warnings a page adds, in check order: a sealed page whose seal is
      incomplete, abnormally sized, or unreadable. */
  function PageWarnings(p: SealPage): (r: seq<SealIssue>)
    requires Readable(p.result)
    ensures |r| <= (if Sealed(p) then 3 else 0)
    ensures forall x :: x in r ==> !x.IsError() && x.page == p.page
  {
    if !Sealed(p) then []
    else
      (if !Truthy(p.result[IsComplete]) then [Incomplete(p.page)] else [])
      + (if !Truthy(p.result[IsNormalSize]) then [AbnormalSize(p.page)] else [])
      + (if p.result[SealText] == Str(BlurredSealText) then [Blurred(p.page)] else [])
  }

  /** Whether some page has a seal, as the flag has_valid_seal records. */
  predicate AnySeal(pages: seq<SealPage>)
    requires AllReadable(pages)
  {
    pages != [] && (AnySeal(pages[..|pages| - 1]) || Sealed(pages[|pages| - 1]))
  }

  /** The per-page errors of all pages, in page order. */
  function AttributeErrors(pages: seq<SealPage>): seq<SealIssue>
    requires AllReadable(pages)
  {
    if pages == [] then []
    else AttributeErrors(pages[..|pages| - 1]) + PageErrors(pages[|pages| - 1])
  }

  /** The per-page warnings of all pages, in page order. */
  function AttributeWarnings(pages: seq<SealPage>): seq<SealIssue>
    requires AllReadable(pages)
  {
    if pages == [] then []
    else AttributeWarnings(pages[..|pages| - 1]) + PageWarnings(pages[|pages| - 1])
  }

  /** The report's errors: the per-page errors, headed by the "no seal" error when
      no page has a seal. */
  function ReportErrors(pages: seq<SealPage>): seq<SealIssue>
    requires AllReadable(pages)
  {
    if AnySeal(pages) then AttributeErrors(pages) else [NoSeal] + AttributeErrors(pages)
  }

  /** The aggregation of detect_seal_compliance. */
  method AggregateSeals(pages: seq<SealPage>) returns (errors: seq<string>, warnings: seq<string>)
    requires AllReadable(pages)
    ensures errors == Messages(ReportErrors(pages))
    ensures warnings == Messages(AttributeWarnings(pages))
  {
    var hasValidSeal := false;
    var errs: seq<SealIssue> := [];
    var warns: seq<SealIssue> := [];
    for i := 0 to |pages|
      invariant hasValidSeal == AnySeal(pages[..i])
      invariant errs == AttributeErrors(pages[..i])
      invariant warns == AttributeWarnings(pages[..i])
    {
      assert pages[..i + 1][..i] == pages[..i];
      assert pages[..i + 1][i] == pages[i];
      var res := pages[i].result;
      if Truthy(res[HasSeal]) {
        hasValidSeal := true;
        errs, warns := CheckSealedPage(pages[i], errs, warns);
      }
    }
    assert pages[..|pages|] == pages;
    if !hasValidSeal {
      errs := [NoSeal] + errs;
    }
    errors := Messages(errs);
    warnings := Messages(warns);
  }

  /** detect_seal_compliance after rasterisation: the page loop, then the
      aggregation. It fails exactly when some image stem carries no page number;
      otherwise the report is that of the stored pages, which every page makes
      readable. */
  method DetectSealCompliance(stems: seq<string>, replies: seq<Reply>)
    returns (report: Option<(seq<string>, seq<string>)>)
    requires |stems| == |replies|
    ensures report.None? <==> exists k :: 0 <= k < |stems| && PageNumberOf(stems[k]).None?
    ensures report.Some? ==>
      && SealPages(stems, replies).Some?
      && AllReadable(SealPages(stems, replies).value)
      && report.value.0 == Messages(ReportErrors(SealPages(stems, replies).value))
      && report.value.1 == Messages(AttributeWarnings(SealPages(stems, replies).value))
  {
    SealPagesShape(stems, replies);
    var pages := DetectSealPages(stems, replies);
    if pages.None? {
      return None;
    }
    SealPagesReadable(stems, replies);
    var errors, warnings := AggregateSeals(pages.value);
    report := Some((errors, warnings));
  }

  /** Every stored page can be read by the aggregation. */
  lemma SealPagesReadable(stems: seq<string>, replies: seq<Reply>)
    requires |stems| == |replies| && SealPages(stems, replies).Some?
    ensures AllReadable(SealPages(stems, replies).value)
  {
    SealPagesShape(stems, replies);
    forall k | 0 <= k < |stems|
      ensures Readable(SealPages(stems, replies).value[k].result)
    {
      SealPageResultComplete(replies[k]);
    }
  }

  /** The checks of one sealed page, appended in source order. */
  method CheckSealedPage(p: SealPage, errs0: seq<SealIssue>, warns0: seq<SealIssue>)
    returns (errs: seq<SealIssue>, warns: seq<SealIssue>)
    requires Readable(p.result) && Sealed(p)
    ensures errs == errs0 + PageErrors(p)
    ensures warns == warns0 + PageWarnings(p)
  {
    var res, page := p.result, p.page;
    errs, warns := errs0, warns0;
    if !Truthy(res[IsRed]) {
      errs := errs + [NotRed(page)];
    }
    if !Truthy(res[IsComplete]) {
      warns := warns + [Incomplete(page)];
    }
    if !Truthy(res[IsNormalSize]) {
      warns := warns + [AbnormalSize(page)];
    }
    if res[SealText] == Str(BlurredSealText) {
      warns := warns + [Blurred(page)];
    }
  }

  // ---------------------------------------------------------------------------
  // Properties of the aggregation

  /** The flag is set exactly when some page has a seal. */
  lemma {:induction false} AnySealIff(pages: seq<SealPage>)
    requires AllReadable(pages)
    ensures AnySeal(pages) <==> exists k :: 0 <= k < |pages| && Sealed(pages[k])
  {
    if pages != [] {
      var init := pages[..|pages| - 1];
      AnySealIff(init);
      if AnySeal(init) {
        var k :| 0 <= k < |init| && Sealed(init[k]);
        assert pages[k] == init[k];
      }
      if exists k :: 0 <= k < |pages| && Sealed(pages[k]) {
        var k :| 0 <= k < |pages| && Sealed(pages[k]);
        if k < |init| {
          assert init[k] == pages[k];
        }
      }
    }
  }

  /** The findings of a page list split at any point are the findings of the two
      parts, in order. */
  lemma FindingsAppend(a: seq<SealPage>, b: seq<SealPage>)
    requires AllReadable(a) && AllReadable(b)
    ensures AllReadable(a + b)
    ensures AnySeal(a + b) <==> AnySeal(a) || AnySeal(b)
    ensures AttributeErrors(a + b) == AttributeErrors(a) + AttributeErrors(b)
    ensures AttributeWarnings(a + b) == AttributeWarnings(a) + AttributeWarnings(b)
  {
    AnySealAppend(a, b);
    AttributeErrorsAppend(a, b);
    AttributeWarningsAppend(a, b);
  }

  lemma AllReadableAppend(a: seq<SealPage>, b: seq<SealPage>)
    requires AllReadable(a) && AllReadable(b)
    ensures AllReadable(a + b)
  {
    assert forall k :: 0 <= k < |a + b| ==> (a + b)[k] == if k < |a| then a[k] else b[k - |a|];
  }

  lemma {:induction false} AnySealAppend(a: seq<SealPage>, b: seq<SealPage>)
    requires AllReadable(a) && AllReadable(b)
    ensures AllReadable(a + b)
    ensures AnySeal(a + b) <==> AnySeal(a) || AnySeal(b)
  {
    AllReadableAppend(a, b);
    if b == [] {
      assert a + b == a;
    } else {
      SplitLast(a, b);
      AnySealAppend(a, b[..|b| - 1]);
    }
  }

  lemma {:induction false} AttributeErrorsAppend(a: seq<SealPage>, b: seq<SealPage>)
    requires AllReadable(a) && AllReadable(b)
    ensures AllReadable(a + b)
    ensures AttributeErrors(a + b) == AttributeErrors(a) + AttributeErrors(b)
  {
    AllReadableAppend(a, b);
    if b == [] {
      assert a + b == a;
    } else {
      SplitLast(a, b);
      AttributeErrorsAppend(a, b[..|b| - 1]);
    }
  }

  lemma {:induction false} AttributeWarningsAppend(a: seq<SealPage>, b: seq<SealPage>)
    requires AllReadable(a) && AllReadable(b)
    ensures AllReadable(a + b)
    ensures AttributeWarnings(a + b) == AttributeWarnings(a) + AttributeWarnings(b)
  {
    AllReadableAppend(a, b);
    if b == [] {
      assert a + b == a;
    } else {
      SplitLast(a, b);
      AttributeWarningsAppend(a, b[..|b| - 1]);
    }
  }

  /** A page without a seal adds no error and no warning, whatever its other
      attributes, wherever it stands. */
  lemma UnsealedPageSilent(a: seq<SealPage>, p: SealPage, b: seq<SealPage>)
    requires AllReadable(a) && AllReadable(b) && Readable(p.result) && !Sealed(p)
    ensures AllReadable(a + [p] + b)
    ensures ReportErrors(a + [p] + b) == ReportErrors(a + b)
    ensures AttributeWarnings(a + [p] + b) == AttributeWarnings(a + b)
  {
    UnsealedPageAttributes(a, p, b);
  }

  lemma UnsealedPageAttributes(a: seq<SealPage>, p: SealPage, b: seq<SealPage>)
    requires AllReadable(a) && AllReadable(b) && Readable(p.result) && !Sealed(p)
    ensures AllReadable(a + [p] + b)
    ensures AnySeal(a + [p] + b) == AnySeal(a + b)
    ensures AttributeErrors(a + [p] + b) == AttributeErrors(a + b)
    ensures AttributeWarnings(a + [p] + b) == AttributeWarnings(a + b)
  {
    SinglePageFindings(p);
    FindingsAppend(a, [p]);
    FindingsAppend(a + [p], b);
    FindingsAppend(a, b);
    assert AttributeErrors(a + [p]) == AttributeErrors(a);
    assert AttributeWarnings(a + [p]) == AttributeWarnings(a);
  }

  lemma SinglePageFindings(p: SealPage)
    requires Readable(p.result)
    ensures AllReadable([p])
    ensures AnySeal([p]) == Sealed(p)
    ensures AttributeErrors([p]) == PageErrors(p)
    ensures AttributeWarnings([p]) == PageWarnings(p)
  {
    assert [p][..0] == [];
  }

  /** A page whose call failed, or whose reply was not a JSON object, never changes
      the report. */
  lemma FailedPageSilent(a: seq<SealPage>, page: int, reply: Reply, b: seq<SealPage>)
    requires AllReadable(a) && AllReadable(b) && !reply.JsonObject?
    ensures AllReadable(a + [SealPage(page, SealPageResult(reply))] + b)
    ensures ReportErrors(a + [SealPage(page, SealPageResult(reply))] + b) == ReportErrors(a + b)
    ensures AttributeWarnings(a + [SealPage(page, SealPageResult(reply))] + b) == AttributeWarnings(a + b)
  {
    FailedPageUnsealed(reply);
    UnsealedPageSilent(a, SealPage(page, SealPageResult(reply)), b);
  }

  /** With no seal anywhere the report is exactly the "no seal" error and no
      warning. */
  lemma NoSealReport(pages: seq<SealPage>)
    requires AllReadable(pages) && !AnySeal(pages)
    ensures ReportErrors(pages) == [NoSeal]
    ensures AttributeWarnings(pages) == []
  {
    UnsealedFindings(pages);
  }

  lemma {:induction false} UnsealedFindings(pages: seq<SealPage>)
    requires AllReadable(pages) && !AnySeal(pages)
    ensures AttributeErrors(pages) == [] && AttributeWarnings(pages) == []
  {
    if pages != [] {
      UnsealedFindings(pages[..|pages| - 1]);
    }
  }

  /** The number of pages with a seal. */
  function SealedCount(pages: seq<SealPage>): nat
    requires AllReadable(pages)
  {
    if pages == [] then 0
    else SealedCount(pages[..|pages| - 1]) + (if Sealed(pages[|pages| - 1]) then 1 else 0)
  }

  /** At most one error per sealed page and exactly one error when there is none;
      at most three warnings per sealed page. */
  lemma FindingsBounds(pages: seq<SealPage>)
    requires AllReadable(pages)
    ensures AnySeal(pages) ==> |ReportErrors(pages)| <= SealedCount(pages)
    ensures !AnySeal(pages) ==> |ReportErrors(pages)| == 1
    ensures |AttributeWarnings(pages)| <= 3 * SealedCount(pages)
  {
    AttributeBounds(pages);
    if !AnySeal(pages) {
      UnsealedFindings(pages);
    }
  }

  lemma {:induction false} AttributeBounds(pages: seq<SealPage>)
    requires AllReadable(pages)
    ensures |AttributeErrors(pages)| <= SealedCount(pages)
    ensures |AttributeWarnings(pages)| <= 3 * SealedCount(pages)
  {
    if pages != [] {
      AttributeBounds(pages[..|pages| - 1]);
    }
  }
}
