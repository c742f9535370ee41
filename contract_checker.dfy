/** check_contract_compliance: one recognizer call per page image, each reply
    normalized to the 19 keys of the extraction schema, failures replaced by an
    empty dict, and the pages numbered from their image names. */
module ContractChecker {
  import opened PyText
  import opened PageNaming
  import opened Recognizer
  import opened ContractValidator

  /** The property names of the extraction schema: the 19 merged fields, in the
      same order. */
  function SchemaKeys(): set<string> {
    KeysUpTo(|Fields|)
  }

  lemma SchemaKeyOf(f: Field)
    ensures f.Key() in SchemaKeys()
  {
    AllFieldsListed(f);
    var j :| 0 <= j < |Fields| && Fields[j] == f;
    assert Fields[j].Key() in SchemaKeys();
  }

  /** `data` after the keys in `keys` that are missing or null have been set to "". */
  function FillKeys(data: map<string, Value>, keys: set<string>): (r: map<string, Value>)
    ensures r.Keys == data.Keys + keys
    ensures forall k :: k in keys ==> !r[k].Null?
  {
    map k | k in data.Keys + keys :: if k in data && (k !in keys || !data[k].Null?) then data[k] else Str("")
  }

  /** The dict _analyze_page returns for a JSON object reply. */
  function SchemaFilled(data: map<string, Value>): map<string, Value> {
    FillKeys(data, SchemaKeys())
  }

  /** After normalization every schema key is present and not null; a key that was
      missing or null holds ""; every other key, and every non-null value, is kept. */
  lemma SchemaFilledSpec(data: map<string, Value>)
    ensures forall f: Field :: f.Key() in SchemaFilled(data) && !SchemaFilled(data)[f.Key()].Null?
    ensures forall f: Field :: f.Key() !in data || data[f.Key()].Null? ==> SchemaFilled(data)[f.Key()] == Str("")
    ensures forall k :: k in data && !data[k].Null? ==> k in SchemaFilled(data) && SchemaFilled(data)[k] == data[k]
    ensures forall k :: k in data && k !in SchemaKeys() ==> SchemaFilled(data)[k] == data[k]
    ensures SchemaFilled(data).Keys == data.Keys + SchemaKeys()
  {
    forall f: Field ensures f.Key() in SchemaKeys() {
      SchemaKeyOf(f);
    }
  }

  /** The dict returned for a reply that is not JSON: every schema key set to "". */
  function BlankSchema(): (r: map<string, Value>)
    ensures r.Keys == SchemaKeys()
    ensures forall k :: k in r ==> r[k] == Str("")
  {
    map k | k in SchemaKeys() :: Str("")
  }

  /** _analyze_page: a failed call, and JSON that is not an object (filling a key
      into it raises TypeError), raise; text that is not JSON gives the blank
      schema; an object is normalized. */
  function PageAnalysis(reply: Reply): Analysis {
    match reply
    case ApiError => Raised
    case NotJson => Analysed(BlankSchema())
    case JsonObject(data) => Analysed(SchemaFilled(data))
    case JsonOther => Raised
  }

  method AnalyzePage(reply: Reply) returns (a: Analysis)
    ensures a == PageAnalysis(reply)
  {
    match reply
    case ApiError =>
      a := Raised;
    case NotJson =>
      a := Analysed(BlankSchema());
    case JsonObject(data0) =>
      var data := FillSchema(data0);
      a := Analysed(data);
    case JsonOther =>
      a := Raised;
  }

  /** The default-filling loop: each schema key that is missing or null is set to "". */
  method FillSchema(data0: map<string, Value>) returns (data: map<string, Value>)
    ensures data == SchemaFilled(data0)
  {
    data := data0;
    for j := 0 to |Fields|
      invariant data == FillKeys(data0, KeysUpTo(j))
    {
      var key := Fields[j].Key();
      if key !in data || data[key] == Null {
        data := data[key := Str("")];
      }
      FillKeysStep(data0, KeysUpTo(j), key);
      KeysUpToStep(j);
    }
  }

  /** The keys of the first j schema fields. */
  function KeysUpTo(j: nat): set<string>
    requires j <= |Fields|
  {
    set i | 0 <= i < j :: Fields[i].Key()
  }

  lemma KeysUpToStep(j: nat)
    requires j < |Fields|
    ensures KeysUpTo(j + 1) == KeysUpTo(j) + {Fields[j].Key()}
  {
  }

  /** Filling one more key is a point update of the filled dict. */
  lemma FillKeysStep(data: map<string, Value>, done: set<string>, key: string)
    ensures FillKeys(data, done + {key}) ==
      var cur := FillKeys(data, done);
      if key !in cur || cur[key] == Null then cur[key := Str("")] else cur
  {
  }

  /** The `result` the page loop stores for one reply: the analysed dict, or {}
      when the analysis raised. (_analyze_page only ever returns a dict, so the
      isinstance test of the loop never replaces one.) */
  function PageResultOf(reply: Reply): map<string, Value> {
    StoredResult(PageAnalysis(reply))
  }

  function StoredResult(a: Analysis): map<string, Value> {
    if a.Analysed? then a.data else map[]
  }

  /** The page list of check_contract_compliance for images with the given stems
      and the given recognizer replies; None when int() of a page-number segment
      raises ValueError, which ends the whole call. */
  function ContractPages(stems: seq<string>, replies: seq<Reply>): (r: Option<seq<PageEntry>>)
    requires |stems| == |replies|
    ensures r.Some? ==> |r.value| == |stems|
  {
    CollectPages(PageNumbers(stems), replies)
  }

  /** The page loop over already parsed page numbers. */
  function CollectPages(numbers: seq<Option<int>>, replies: seq<Reply>): (r: Option<seq<PageEntry>>)
    requires |numbers| == |replies|
    ensures r.Some? ==> |r.value| == |numbers|
  {
    if numbers == [] then Some([])
    else
      var n := |numbers| - 1;
      var init := CollectPages(numbers[..n], replies[..n]);
      if init.Some? && numbers[n].Some? then Some(init.value + [PageEntry(numbers[n].value, Object(PageResultOf(replies[n])))])
      else None
  }

  method CheckContractCompliance(stems: seq<string>, replies: seq<Reply>) returns (r: Option<seq<PageEntry>>)
    requires |stems| == |replies|
    ensures r == ContractPages(stems, replies)
  {
    ghost var numbers := PageNumbers(stems);
    var results: seq<PageEntry> := [];
    for i := 0 to |stems|
      invariant CollectPages(numbers[..i], replies[..i]) == Some(results)
    {
      var pageNumber := PageNumberOf(stems[i]);
      PageNumbersAt(stems, i);
      CollectPagesStep(numbers, replies, i, results);
      if pageNumber.None? {
        CollectPagesFail(numbers, replies, i + 1);
        return None;
      }
      var a := AnalyzePage(replies[i]);
      var res := StoredResult(a);
      results := results + [PageEntry(pageNumber.value, Object(res))];
    }
    assert numbers[..|stems|] == numbers && replies[..|replies|] == replies;
    r := Some(results);
  }

  /** One more page: the page list grows by that page, or the call fails. */
  lemma CollectPagesStep(numbers: seq<Option<int>>, replies: seq<Reply>, i: nat, pages: seq<PageEntry>)
    requires |numbers| == |replies| && i < |numbers|
    requires CollectPages(numbers[..i], replies[..i]) == Some(pages)
    ensures CollectPages(numbers[..i + 1], replies[..i + 1]) ==
      if numbers[i].Some? then Some(pages + [PageEntry(numbers[i].value, Object(PageResultOf(replies[i])))]) else None
  {
    assert numbers[..i + 1][..i] == numbers[..i] && replies[..i + 1][..i] == replies[..i];
  }

  /** A page number that int() rejects ends the whole call, whatever follows. */
  lemma {:induction false} CollectPagesFail(numbers: seq<Option<int>>, replies: seq<Reply>, i: nat)
    requires |numbers| == |replies| && 0 < i <= |numbers|
    requires CollectPages(numbers[..i], replies[..i]).None?
    ensures CollectPages(numbers, replies).None?
    decreases |numbers|
  {
    if i < |numbers| {
      var n := |numbers| - 1;
      assert numbers[..n][..i] == numbers[..i] && replies[..n][..i] == replies[..i];
      CollectPagesFail(numbers[..n], replies[..n], i);
    } else {
      assert numbers[..i] == numbers && replies[..i] == replies;
    }
  }

  lemma {:induction false} CollectPagesShape(numbers: seq<Option<int>>, replies: seq<Reply>)
    requires |numbers| == |replies|
    ensures CollectPages(numbers, replies).Some? <==> forall k :: 0 <= k < |numbers| ==> numbers[k].Some?
    ensures CollectPages(numbers, replies).Some? ==>
      var pages := CollectPages(numbers, replies).value;
      && |pages| == |numbers|
      && forall k :: 0 <= k < |numbers| ==> pages[k] == PageEntry(numbers[k].value, Object(PageResultOf(replies[k])))
  {
    if numbers != [] {
      var n := |numbers| - 1;
      CollectPagesShape(numbers[..n], replies[..n]);
      assert forall k :: 0 <= k < n ==> numbers[..n][k] == numbers[k] && replies[..n][k] == replies[k];
    }
  }

  /** One entry per image, in image order, holding the image's page number and the
      stored result of its reply; the call fails exactly when some page number is
      not an integer. */
  lemma ContractPagesShape(stems: seq<string>, replies: seq<Reply>)
    requires |stems| == |replies|
    ensures ContractPages(stems, replies).Some? <==> forall k :: 0 <= k < |stems| ==> PageNumberOf(stems[k]).Some?
    ensures ContractPages(stems, replies).Some? ==>
      var pages := ContractPages(stems, replies).value;
      && |pages| == |stems|
      && forall k :: 0 <= k < |stems| ==>
           pages[k] == PageEntry(PageNumberOf(stems[k]).value, Object(PageResultOf(replies[k])))
  {
    CollectPagesShape(PageNumbers(stems), replies);
    forall k | 0 <= k < |stems| ensures PageNumbers(stems)[k] == PageNumberOf(stems[k]) {
      PageNumbersAt(stems, k);
    }
  }

  /** For the images of an n-page document the pages are numbered 1 to n. */
  lemma NumberedContractPages(n: nat, replies: seq<Reply>)
    requires |replies| == n
    ensures ContractPages(PageStems(n), replies).Some?
    ensures forall k :: 0 <= k < n ==> ContractPages(PageStems(n), replies).value[k].page == k + 1
  {
    PageStemsNumbered(n);
    CollectPagesNumbered(PageNumbers(PageStems(n)), replies);
  }

  lemma CollectPagesNumbered(numbers: seq<Option<int>>, replies: seq<Reply>)
    requires |numbers| == |replies|
    requires forall k :: 0 <= k < |numbers| ==> numbers[k] == Some(k + 1)
    ensures CollectPages(numbers, replies).Some?
    ensures forall k :: 0 <= k < |numbers| ==> CollectPages(numbers, replies).value[k].page == k + 1
  {
    CollectPagesShape(numbers, replies);
  }

  /** Normalizing a reply never changes what the merge takes from it: "" and
      null are both falsy, so filling them in offers nothing new. */
  lemma SchemaFilledOffersSame(page: int, data: map<string, Value>, f: Field)
    ensures Offered(PageEntry(page, Object(SchemaFilled(data))), f) == Offered(PageEntry(page, Object(data)), f)
  {
    SchemaFilledSpec(data);
  }

  /** A page whose recognizer call failed, or whose reply was not a JSON object,
      offers nothing to the merge, so it never changes the merged record. */
  lemma FallbackPageOffersNothing(page: int, reply: Reply, f: Field)
    requires !reply.JsonObject?
    ensures Offered(PageEntry(page, Object(PageResultOf(reply))), f) == ""
  {
  }

  /** Merging the checker's pages gives the same record as merging the replies as
      the recognizer returned them, with no result for a page whose call failed or
      whose reply was not an object. */
  lemma MergeSeesReplies(stems: seq<string>, replies: seq<Reply>)
    requires |stems| == |replies| && ContractPages(stems, replies).Some?
    ensures MergedRecord(ContractPages(stems, replies).value) == MergedRecord(AsReturned(ContractPages(stems, replies).value, replies))
  {
    MergeSeesCollected(PageNumbers(stems), replies);
  }

  lemma MergeSeesCollected(numbers: seq<Option<int>>, replies: seq<Reply>)
    requires |numbers| == |replies| && CollectPages(numbers, replies).Some?
    ensures MergedRecord(CollectPages(numbers, replies).value) == MergedRecord(AsReturned(CollectPages(numbers, replies).value, replies))
  {
    CollectPagesShape(numbers, replies);
    var p := CollectPages(numbers, replies).value;
    var q := AsReturned(p, replies);
    forall k, f | 0 <= k < |p| ensures Offered(p[k], f) == Offered(q[k], f) {
      if replies[k].JsonObject? {
        SchemaFilledOffersSame(p[k].page, replies[k].data, f);
      }
    }
    MergeDependsOnOffersOnly(p, q);
  }

  /** The pages with each result replaced by the reply as returned: an object as
      it is, and no result for a failed call or a reply that is not an object. */
  function AsReturned(pages: seq<PageEntry>, replies: seq<Reply>): (q: seq<PageEntry>)
    requires |pages| == |replies|
    ensures |q| == |pages|
    ensures forall k :: 0 <= k < |q| ==> q[k] == PageEntry(pages[k].page, if replies[k].JsonObject? then Object(replies[k].data) else Absent)
  {
    seq(|pages|, k requires 0 <= k < |pages| =>
      PageEntry(pages[k].page, if replies[k].JsonObject? then Object(replies[k].data) else Absent))
  }
}
