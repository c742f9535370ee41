/** The contract audit of contract_checker/validator.py: merge_contract_fields folds
    the per-page extractions into one 19-field record (first non-blank value wins,
    stripped), and validate_contract runs a fixed, ordered list of checks over that
    record, appending to an error list and a warning list. "Today" is a parameter. */
module ContractValidator {
  import opened PyText
  import opened Strptime

  /** The 19 fields of a contract record; Key() is the JSON key the recognizer uses. */
  datatype Field =
    | ContractName | ContractId | PartyAName | PartyBName
    | EffectiveStart | EffectiveEnd | SealPartyA | SealPartyB
    | SignPartyA | SignPartyB | SettlementMethod
    | BankAccountName | BankName | BankAccountNumber | PaymentTerms
    | GoodsName | Quantity | TotalAmountInclTax | RelatedEntities
  {
    function Key(): string {
      match this
      case ContractName => "contract_name"
      case ContractId => "contract_id"
      case PartyAName => "party_a_name"
      case PartyBName => "party_b_name"
      case EffectiveStart => "effective_start"
      case EffectiveEnd => "effective_end"
      case SealPartyA => "seal_party_a"
      case SealPartyB => "seal_party_b"
      case SignPartyA => "sign_party_a"
      case SignPartyB => "sign_party_b"
      case SettlementMethod => "settlement_method"
      case BankAccountName => "bank_account_name"
      case BankName => "bank_name"
      case BankAccountNumber => "bank_account_number"
      case PaymentTerms => "payment_terms"
      case GoodsName => "goods_name"
      case Quantity => "quantity"
      case TotalAmountInclTax => "total_amount_incl_tax"
      case RelatedEntities => "related_entities"
    }
  }

  /** The fields in the order the merge visits them. */
  const Fields: seq<Field> := [
    ContractName, ContractId, PartyAName, PartyBName,
    EffectiveStart, EffectiveEnd, SealPartyA, SealPartyB,
    SignPartyA, SignPartyB, SettlementMethod,
    BankAccountName, BankName, BankAccountNumber, PaymentTerms,
    GoodsName, Quantity, TotalAmountInclTax, RelatedEntities
  ]

  lemma AllFieldsListed(f: Field)
    ensures f in Fields
  {
  }

  /** No two fields share a JSON key. */
  lemma KeysDistinct(f: Field)
    ensures forall g: Field :: g.Key() == f.Key() ==> g == f
  {
  }

  /** What the recognizer writes when a signature is present but illegible. */
  const IllegibleSignature: string := "（签名模糊）"

  /** A merged contract: one text per field. */
  type Record = map<Field, string>

  /** A record holds every one of the 19 fields. */
  predicate IsRecord(m: Record) {
    forall f: Field :: f in m
  }

  /** page["result"] of one list element: missing, a JSON object, or any other JSON value. */
  datatype PageResult = Absent | Object(fields: map<string, Value>) | NonObject

  /** One element of the page list: {"page": n, "result": …}. */
  datatype PageEntry = PageEntry(page: int, result: PageResult)

  // ---------------------------------------------------------------------------
  // merge_contract_fields

  /** What page e offers for field f: the stripped str() of a truthy value, and ""
      when the result is not an object, lacks f, or holds a falsy value there. */
  function Offered(e: PageEntry, f: Field): string {
    if e.result.Object? && f.Key() in e.result.fields && Truthy(e.result.fields[f.Key()])
    then Strip(PyStr(e.result.fields[f.Key()]))
    else ""
  }

  /** The first non-empty offer for f in page order, or "" when no page offers one. */
  function FirstOffered(pages: seq<PageEntry>, f: Field): string {
    if pages == [] then ""
    else if Offered(pages[0], f) != "" then Offered(pages[0], f)
    else FirstOffered(pages[1..], f)
  }

  /** The record the merge produces: exactly the 19 fields, each its first offer. */
  function MergedRecord(pages: seq<PageEntry>): (m: Record)
    ensures IsRecord(m)
    ensures forall f :: m[f] == FirstOffered(pages, f)
  {
    forall f: Field ensures f in Fields { AllFieldsListed(f); }
    map f | f in Fields :: FirstOffered(pages, f)
  }

  /** The first offer for a field is the offer of the first page that has a
      non-empty one, and is "" exactly when no page has one. */
  lemma {:induction false} FirstOfferedIsFirst(pages: seq<PageEntry>, f: Field, k: nat)
    requires k < |pages| && Offered(pages[k], f) != ""
    requires forall j :: 0 <= j < k ==> Offered(pages[j], f) == ""
    ensures FirstOffered(pages, f) == Offered(pages[k], f)
  {
    if k > 0 {
      FirstOfferedIsFirst(pages[1..], f, k - 1);
    }
  }

  lemma {:induction false} FirstOfferedEmpty(pages: seq<PageEntry>, f: Field)
    ensures FirstOffered(pages, f) == "" <==> forall k :: 0 <= k < |pages| ==> Offered(pages[k], f) == ""
  {
    if pages != [] {
      FirstOfferedEmpty(pages[1..], f);
      if Offered(pages[0], f) == "" {
        assert forall k :: 1 <= k < |pages| ==> pages[k] == pages[1..][k - 1];
      }
    }
  }

  /** Once some pages have filled a field, later pages never overwrite it. */
  lemma {:induction false} NeverOverwritten(p: seq<PageEntry>, q: seq<PageEntry>, f: Field)
    requires FirstOffered(p, f) != ""
    ensures FirstOffered(p + q, f) == FirstOffered(p, f)
  {
    assert p != [];
    var e := p[0];
    assert (p + q)[0] == e;
    if Offered(e, f) == "" {
      assert (p + q)[1..] == p[1..] + q;
      NeverOverwritten(p[1..], q, f);
    }
  }

  /** Appending one page: it fills the field only if the earlier pages left it empty. */
  lemma {:induction false} FirstOfferedSnoc(p: seq<PageEntry>, e: PageEntry, f: Field)
    ensures FirstOffered(p + [e], f) == if FirstOffered(p, f) != "" then FirstOffered(p, f) else Offered(e, f)
  {
    if p == [] {
      assert p + [e] == [e];
    } else {
      assert (p + [e])[0] == p[0];
      assert (p + [e])[1..] == p[1..] + [e];
      FirstOfferedSnoc(p[1..], e, f);
    }
  }

  /** A page that offers nothing (an empty or all-blank object, a missing or
      non-object result) can be inserted anywhere without changing the merge. */
  lemma {:induction false} SilentPageInvisible(p: seq<PageEntry>, e: PageEntry, q: seq<PageEntry>)
    requires forall f :: Offered(e, f) == ""
    ensures MergedRecord(p + [e] + q) == MergedRecord(p + q)
  {
    forall f: Field ensures FirstOffered(p + [e] + q, f) == FirstOffered(p + q, f) {
      SilentPageInvisibleField(p, e, q, f);
    }
  }

  lemma {:induction false} SilentPageInvisibleField(p: seq<PageEntry>, e: PageEntry, q: seq<PageEntry>, f: Field)
    requires Offered(e, f) == ""
    ensures FirstOffered(p + [e] + q, f) == FirstOffered(p + q, f)
  {
    if p == [] {
      assert p + [e] + q == [e] + q;
      assert ([e] + q)[1..] == q;
      assert p + q == q;
    } else {
      assert (p + [e] + q)[0] == p[0] && (p + q)[0] == p[0];
      assert (p + [e] + q)[1..] == p[1..] + [e] + q;
      assert (p + q)[1..] == p[1..] + q;
      SilentPageInvisibleField(p[1..], e, q, f);
    }
  }

  /** Pages that offer the same text for every field merge to the same record, so
      keys outside the 19 fields, and how a field is left blank, never matter. */
  lemma {:induction false} MergeDependsOnOffersOnly(p: seq<PageEntry>, q: seq<PageEntry>)
    requires |p| == |q|
    requires forall k, f :: 0 <= k < |p| ==> Offered(p[k], f) == Offered(q[k], f)
    ensures MergedRecord(p) == MergedRecord(q)
  {
    forall f: Field ensures FirstOffered(p, f) == FirstOffered(q, f) {
      SameOffersField(p, q, f);
    }
  }

  lemma {:induction false} SameOffersField(p: seq<PageEntry>, q: seq<PageEntry>, f: Field)
    requires |p| == |q|
    requires forall k :: 0 <= k < |p| ==> Offered(p[k], f) == Offered(q[k], f)
    ensures FirstOffered(p, f) == FirstOffered(q, f)
  {
    if p != [] {
      assert Offered(p[0], f) == Offered(q[0], f);
      SameOffersField(p[1..], q[1..], f);
    }
  }

  /** Keys outside the 19 fields are ignored. */
  lemma ExtraKeyIgnored(e: PageEntry, key: string, v: Value, f: Field)
    requires e.result.Object? && forall g: Field :: g.Key() != key
    ensures Offered(PageEntry(e.page, Object(e.result.fields[key := v])), f) == Offered(e, f)
  {
  }

  /** Every merged value is already stripped. */
  lemma {:induction false} MergedValuesStripped(pages: seq<PageEntry>, f: Field)
    ensures Strip(FirstOffered(pages, f)) == FirstOffered(pages, f)
  {
    if pages != [] {
      var e := pages[0];
      if Offered(e, f) != "" {
        StripIdempotent(PyStr(e.result.fields[f.Key()]));
      } else {
        MergedValuesStripped(pages[1..], f);
      }
    }
  }

  /** A merged record handed back as the only page's result. */
  function AsPage(m: Record, page: int): PageEntry {
    PageEntry(page, Object(map f | f in m :: f.Key() := Str(m[f])))
  }

  /** Merging a one-page list whose result is an earlier merge output gives that
      output back unchanged. */
  lemma MergeIdempotent(pages: seq<PageEntry>, page: int)
    ensures MergedRecord([AsPage(MergedRecord(pages), page)]) == MergedRecord(pages)
  {
    forall f: Field ensures FirstOffered([AsPage(MergedRecord(pages), page)], f) == MergedRecord(pages)[f] {
      MergeIdempotentField(pages, page, f);
    }
  }

  lemma MergeIdempotentField(pages: seq<PageEntry>, page: int, f: Field)
    ensures FirstOffered([AsPage(MergedRecord(pages), page)], f) == MergedRecord(pages)[f]
  {
    var m := MergedRecord(pages);
    MergedValuesStripped(pages, f);
    AsPageOffers(m, page, f);
    assert [AsPage(m, page)][1..] == [];
  }

  /** A record handed back as a page offers each of its already-stripped values. */
  lemma AsPageOffers(m: Record, page: int, f: Field)
    requires f in m && Strip(m[f]) == m[f]
    ensures Offered(AsPage(m, page), f) == m[f]
  {
    KeysDistinct(f);
    assert AsPage(m, page).result.fields[f.Key()] == Str(m[f]);
  }

  /** The illegible-signature placeholder is an ordinary value for the merge: when
      it comes first it wins over a legible name on a later page. */
  lemma PlaceholderNotDeferred(name: string)
    requires Strip(name) != ""
    ensures var pages := [
              PageEntry(1, Object(map["sign_party_a" := Str(IllegibleSignature)])),
              PageEntry(2, Object(map["sign_party_a" := Str(name)]))];
            MergedRecord(pages)[SignPartyA] == IllegibleSignature
  {
    var e := PageEntry(1, Object(map["sign_party_a" := Str(IllegibleSignature)]));
    StripUnchanged(IllegibleSignature);
    assert Offered(e, SignPartyA) == IllegibleSignature;
  }

  /** merge_contract_fields: start from 19 empty fields, then, page by page and field
      by field, fill a still-empty field from a truthy value of an object result. */
  method MergeContractFields(pages: seq<PageEntry>) returns (merged: Record)
    ensures merged == MergedRecord(pages)
  {
    merged := MergeInto(pages, Fields);
    forall f: Field ensures f in merged { AllFieldsListed(f); }
  }

  /** What field f holds after the merge visits a page whose result is the object
      res, given what it held before: an empty field takes a truthy value, stripped. */
  function Filled(current: string, res: map<string, Value>, f: Field): string {
    if current == "" && f.Key() in res && Truthy(res[f.Key()]) then Strip(PyStr(res[f.Key()])) else current
  }

  /** Visiting one more page that is an object fills exactly what the merge of the
      longer list holds. */
  lemma FillStep(p: seq<PageEntry>, e: PageEntry, f: Field)
    requires e.result.Object?
    ensures FirstOffered(p + [e], f) == Filled(FirstOffered(p, f), e.result.fields, f)
  {
    FirstOfferedSnoc(p, e, f);
  }

  /** A page whose result is not an object is skipped. */
  lemma SkipStep(p: seq<PageEntry>, e: PageEntry, f: Field)
    requires !e.result.Object?
    ensures FirstOffered(p + [e], f) == FirstOffered(p, f)
  {
    FirstOfferedSnoc(p, e, f);
  }

  /** The merge loop over a given field list (Fields, for the source). */
  method MergeInto(pages: seq<PageEntry>, fields: seq<Field>) returns (merged: Record)
    requires forall a, b :: 0 <= a < b < |fields| ==> fields[a] != fields[b]
    ensures forall f :: f in merged <==> f in fields
    ensures forall f :: f in merged ==> merged[f] == FirstOffered(pages, f)
  {
    merged := map f | f in fields :: "";
    for i := 0 to |pages|
      invariant forall f :: f in merged <==> f in fields
      invariant forall f :: f in merged ==> merged[f] == FirstOffered(pages[..i], f)
    {
      var res := pages[i].result;
      assert pages[..i + 1] == pages[..i] + [pages[i]];
      if !res.Object? {
        forall f | f in merged ensures merged[f] == FirstOffered(pages[..i + 1], f) {
          SkipStep(pages[..i], pages[i], f);
        }
        continue;
      }
      ghost var before := merged;
      merged := FillFromPage(merged, res.fields, fields);
      forall f | f in merged ensures merged[f] == FirstOffered(pages[..i + 1], f) {
        FillStep(pages[..i], pages[i], f);
      }
    }
    assert pages[..|pages|] == pages;
  }

  /** The inner loop of the merge: every listed field of the record is filled from
      the page's result object; the keys stay the same. */
  method FillFromPage(merged: Record, res: map<string, Value>, fields: seq<Field>) returns (next: Record)
    requires forall a, b :: 0 <= a < b < |fields| ==> fields[a] != fields[b]
    requires forall f :: f in merged <==> f in fields
    ensures next.Keys == merged.Keys
    ensures forall f :: f in next ==> next[f] == Filled(merged[f], res, f)
  {
    next := merged;
    for j := 0 to |fields|
      invariant next.Keys == merged.Keys
      invariant forall f :: f in next && f in fields[..j] ==> next[f] == Filled(merged[f], res, f)
      invariant forall f :: f in next && f !in fields[..j] ==> next[f] == merged[f]
    {
      var f := fields[j];
      assert f !in fields[..j];
      if next[f] == "" && f.Key() in res && Truthy(res[f.Key()]) {
        next := next[f := Strip(PyStr(res[f.Key()]))];
      }
      assert fields[..j + 1] == fields[..j] + [f];
    }
    assert fields[..|fields|] == fields;
  }

  // ---------------------------------------------------------------------------
  // validate_contract

  datatype Party = PartyA | PartyB {
    /** The party's name in the messages: 甲方 (party A) or 乙方 (party B). */
    function Label(): string {
      match this
      case PartyA => "甲方"
      case PartyB => "乙方"
    }
  }

  /** One finding of validate_contract; Message() is the exact text it appends. */
  datatype ContractIssue =
    | NameMissing | IdMissing | PartiesIncomplete | SettlementMissing
    | BankAccountIncomplete | PaymentTermsMissing | GoodsMissing
    | QuantityOrAmountIncomplete
    | PeriodMissing | Expired | NotYetEffective | BadDateFormat
    | SealMissing(party: Party) | SealTypeInvalid(party: Party)
    | SignatureMissing(party: Party) | SignatureIllegible(party: Party)
    | RelatedEntitiesMissing
  {
    function Message(): string {
      match this
      case NameMissing => "【1】未识别到合同名称"
      case IdMissing => "【2】未识别到合同编号"
      case PartiesIncomplete => "【3】甲乙方名称不完整"
      case SettlementMissing => "【6】未识别结算方式"
      case BankAccountIncomplete => "【7】收款账户信息（户名/开户行/账号）不完整"
      case PaymentTermsMissing => "【8】未识别付款条件"
      case GoodsMissing => "【9】未识别货物名称"
      case QuantityOrAmountIncomplete => "【10】数量或金额信息不完整"
      case PeriodMissing => "【4】合同生效期间缺失"
      case Expired => "【4】合同已过期"
      case NotYetEffective => "【4】合同尚未生效"
      case BadDateFormat => "【4】合同生效日期格式错误（应为 YYYY-MM-DD）"
      case SealMissing(p) => "【11】" + p.Label() + "盖章缺失"
      case SealTypeInvalid(p) => "【11】" + p.Label() + "盖章类型不合规（需含‘合同专用章’或‘公章’）"
      case SignatureMissing(p) => "【12】" + p.Label() + "签字缺失"
      case SignatureIllegible(p) => "【12】" + p.Label() + "签字存在但无法辨认"
      case RelatedEntitiesMissing => "【13】未识别合同关联主体"
    }

    /** The findings validate_contract appends to `warnings`; all others go to `errors`. */
    predicate IsWarning() {
      NotYetEffective? || SignatureIllegible? || RelatedEntitiesMissing?
    }
  }

  function Messages(xs: seq<ContractIssue>): (r: seq<string>)
    ensures |r| == |xs| && forall i :: 0 <= i < |xs| ==> r[i] == xs[i].Message()
  {
    seq(|xs|, i requires 0 <= i < |xs| => xs[i].Message())
  }

  /** The seal text must name a contract seal (合同专用章) or an official seal (公章). */
  const ContractSealToken: string := "合同专用章"
  const OfficialSealToken: string := "公章"

  function ErrorsOf(o: Option<ContractIssue>): seq<ContractIssue> {
    if o.Some? && !o.value.IsWarning() then [o.value] else []
  }

  function WarningsOf(o: Option<ContractIssue>): seq<ContractIssue> {
    if o.Some? && o.value.IsWarning() then [o.value] else []
  }

  /** `acc`, with `x` appended when the check that reports it fails. */
  function AppendIf(acc: seq<ContractIssue>, fails: bool, x: ContractIssue): seq<ContractIssue> {
    if fails then acc + [x] else acc
  }

  /** Which presence checks fail: a check fails when its field, or one of its
      fields, is blank. */
  datatype PresenceFailures = PresenceFailures(
    name: bool, id: bool, parties: bool, settlement: bool,
    bankAccount: bool, paymentTerms: bool, goods: bool, quantityOrAmount: bool)

  function PresenceFailuresOf(m: Record): PresenceFailures
    requires IsRecord(m)
  {
    PresenceFailures(
      Blank(m[ContractName]),
      Blank(m[ContractId]),
      Blank(m[PartyAName]) || Blank(m[PartyBName]),
      Blank(m[SettlementMethod]),
      Blank(m[BankAccountName]) || Blank(m[BankName]) || Blank(m[BankAccountNumber]),
      Blank(m[PaymentTerms]),
      Blank(m[GoodsName]),
      Blank(m[Quantity]) || Blank(m[TotalAmountInclTax]))
  }

  /** The presence findings, in the order the checks run. */
  function PresenceFindings(p: PresenceFailures): (r: seq<ContractIssue>)
    ensures forall x :: x in r ==> !x.IsWarning()
  {
    var e5 := AppendIf(PresenceFindingsHead(p), p.bankAccount, BankAccountIncomplete);
    var e6 := AppendIf(e5, p.paymentTerms, PaymentTermsMissing);
    var e7 := AppendIf(e6, p.goods, GoodsMissing);
    AppendIf(e7, p.quantityOrAmount, QuantityOrAmountIncomplete)
  }

  /** The first four presence findings: name, number, parties, settlement. */
  function PresenceFindingsHead(p: PresenceFailures): (r: seq<ContractIssue>)
    ensures forall x :: x in r ==> !x.IsWarning()
  {
    var e1 := AppendIf([], p.name, NameMissing);
    var e2 := AppendIf(e1, p.id, IdMissing);
    var e3 := AppendIf(e2, p.parties, PartiesIncomplete);
    AppendIf(e3, p.settlement, SettlementMissing)
  }

  /** The presence findings of a record. */
  function PresenceErrors(m: Record): seq<ContractIssue>
    requires IsRecord(m)
  {
    PresenceFindings(PresenceFailuresOf(m))
  }

  /** The effective-period check: a missing date (tested without stripping), a date
      strptime rejects, an end whose midnight is already past, or a start still
      ahead; None when the contract is in force. */
  function DateIssue(startText: string, endText: string, today: DateTime): Option<ContractIssue> {
    if startText == "" || endText == "" then Some(PeriodMissing)
    else
      match (ParseDate(startText), ParseDate(endText))
      case (Some(start), Some(end)) =>
        if Before(Midnight(end), today) then Some(Expired)
        else if Before(today, Midnight(start)) then Some(NotYetEffective)
        else None
      case _ => Some(BadDateFormat)
  }

  function SealIssue(party: Party, seal: string): Option<ContractIssue> {
    if Blank(seal) then Some(SealMissing(party))
    else if !Contains(seal, ContractSealToken) && !Contains(seal, OfficialSealToken) then Some(SealTypeInvalid(party))
    else None
  }

  function SignatureIssue(party: Party, sign: string): Option<ContractIssue> {
    if Blank(sign) then Some(SignatureMissing(party))
    else if Strip(sign) == IllegibleSignature then Some(SignatureIllegible(party))
    else None
  }

  function PartySeals(m: Record): seq<(Party, string)>
    requires IsRecord(m)
  {
    [(PartyA, m[SealPartyA]), (PartyB, m[SealPartyB])]
  }

  function PartySignatures(m: Record): seq<(Party, string)>
    requires IsRecord(m)
  {
    [(PartyA, m[SignPartyA]), (PartyB, m[SignPartyB])]
  }

  /** The seal findings for a list of parties, in list order. */
  function SealErrors(ps: seq<(Party, string)>): (r: seq<ContractIssue>)
    ensures |r| <= |ps|
    ensures forall x :: x in r ==> x.SealMissing? || x.SealTypeInvalid?
  {
    if ps == [] then []
    else SealErrors(ps[..|ps| - 1]) + ErrorsOf(SealIssue(ps[|ps| - 1].0, ps[|ps| - 1].1))
  }

  function SignatureErrors(ps: seq<(Party, string)>): (r: seq<ContractIssue>)
    ensures |r| <= |ps|
    ensures forall x :: x in r ==> x.SignatureMissing?
  {
    if ps == [] then []
    else SignatureErrors(ps[..|ps| - 1]) + ErrorsOf(SignatureIssue(ps[|ps| - 1].0, ps[|ps| - 1].1))
  }

  function SignatureWarnings(ps: seq<(Party, string)>): (r: seq<ContractIssue>)
    ensures |r| <= |ps|
    ensures forall x :: x in r ==> x.SignatureIllegible?
  {
    if ps == [] then []
    else SignatureWarnings(ps[..|ps| - 1]) + WarningsOf(SignatureIssue(ps[|ps| - 1].0, ps[|ps| - 1].1))
  }

  /** The `errors` list of validate_contract, as findings, in the order appended. */
  function ContractErrors(m: Record, today: DateTime): (r: seq<ContractIssue>)
    requires IsRecord(m)
    ensures forall x :: x in r ==> !x.IsWarning()
  {
    PresenceErrors(m)
    + ErrorsOf(DateIssue(m[EffectiveStart], m[EffectiveEnd], today))
    + SealErrors(PartySeals(m))
    + SignatureErrors(PartySignatures(m))
  }

  /** The `warnings` list of validate_contract, as findings, in the order appended. */
  function ContractWarnings(m: Record, today: DateTime): (r: seq<ContractIssue>)
    requires IsRecord(m)
    ensures forall x :: x in r ==> x.IsWarning()
  {
    AppendIf(WarningsOf(DateIssue(m[EffectiveStart], m[EffectiveEnd], today))
             + SignatureWarnings(PartySignatures(m)),
             Blank(m[RelatedEntities]), RelatedEntitiesMissing)
  }

  /** No presence finding is reported twice. */
  lemma PresenceFindingsOnce(p: PresenceFailures, x: ContractIssue)
    ensures multiset(PresenceFindings(p))[x] <= 1
  {
    PresenceFindingsCount(p, x);
  }

  /** The number of presence checks that fail. */
  function FailedCount(p: PresenceFailures): int {
    (if p.name then 1 else 0) + (if p.id then 1 else 0) + (if p.parties then 1 else 0)
    + (if p.settlement then 1 else 0) + (if p.bankAccount then 1 else 0)
    + (if p.paymentTerms then 1 else 0) + (if p.goods then 1 else 0)
    + (if p.quantityOrAmount then 1 else 0)
  }

  /** One presence finding per failed check, so none exactly when every check passes. */
  lemma PresenceFindingsLength(p: PresenceFailures)
    ensures |PresenceFindings(p)| == FailedCount(p)
    ensures PresenceFindings(p) == [] <==> p == PresenceFailures(false, false, false, false, false, false, false, false)
  {
    var head := PresenceFindingsHead(p);
    PresenceFindingsHeadLength(p);
    var e5 := AppendIf(head, p.bankAccount, BankAccountIncomplete);
    var e6 := AppendIf(e5, p.paymentTerms, PaymentTermsMissing);
    var e7 := AppendIf(e6, p.goods, GoodsMissing);
    AppendIfLength(head, p.bankAccount, BankAccountIncomplete);
    AppendIfLength(e5, p.paymentTerms, PaymentTermsMissing);
    AppendIfLength(e6, p.goods, GoodsMissing);
    AppendIfLength(e7, p.quantityOrAmount, QuantityOrAmountIncomplete);
  }

  lemma PresenceFindingsHeadLength(p: PresenceFailures)
    ensures |PresenceFindingsHead(p)| == (if p.name then 1 else 0) + (if p.id then 1 else 0)
      + (if p.parties then 1 else 0) + (if p.settlement then 1 else 0)
  {
    var e1 := AppendIf([], p.name, NameMissing);
    var e2 := AppendIf(e1, p.id, IdMissing);
    var e3 := AppendIf(e2, p.parties, PartiesIncomplete);
    AppendIfLength([], p.name, NameMissing);
    AppendIfLength(e1, p.id, IdMissing);
    AppendIfLength(e2, p.parties, PartiesIncomplete);
    AppendIfLength(e3, p.settlement, SettlementMissing);
  }

  lemma AppendIfLength(acc: seq<ContractIssue>, fails: bool, x: ContractIssue)
    ensures |AppendIf(acc, fails, x)| == |acc| + (if fails then 1 else 0)
  {}

  /** The party, bank-account and quantity/amount checks each report once when any
      of their fields is blank, however many are, and not at all otherwise. */
  lemma CombinedChecksOnce(m: Record)
    requires IsRecord(m)
    ensures multiset(PresenceErrors(m))[PartiesIncomplete] ==
      if Blank(m[PartyAName]) || Blank(m[PartyBName]) then 1 else 0
    ensures multiset(PresenceErrors(m))[BankAccountIncomplete] ==
      if Blank(m[BankAccountName]) || Blank(m[BankName]) || Blank(m[BankAccountNumber]) then 1 else 0
    ensures multiset(PresenceErrors(m))[QuantityOrAmountIncomplete] ==
      if Blank(m[Quantity]) || Blank(m[TotalAmountInclTax]) then 1 else 0
  {
    PartiesCheckOnce(m);
    BankAccountCheckOnce(m);
    QuantityOrAmountCheckOnce(m);
  }

  lemma PartiesCheckOnce(m: Record)
    requires IsRecord(m)
    ensures multiset(PresenceErrors(m))[PartiesIncomplete] ==
      if Blank(m[PartyAName]) || Blank(m[PartyBName]) then 1 else 0
  {
    PartiesFindingCount(PresenceFailuresOf(m));
  }

  lemma BankAccountCheckOnce(m: Record)
    requires IsRecord(m)
    ensures multiset(PresenceErrors(m))[BankAccountIncomplete] ==
      if Blank(m[BankAccountName]) || Blank(m[BankName]) || Blank(m[BankAccountNumber]) then 1 else 0
  {
    BankAccountFindingCount(PresenceFailuresOf(m));
  }

  lemma QuantityOrAmountCheckOnce(m: Record)
    requires IsRecord(m)
    ensures multiset(PresenceErrors(m))[QuantityOrAmountIncomplete] ==
      if Blank(m[Quantity]) || Blank(m[TotalAmountInclTax]) then 1 else 0
  {
    QuantityOrAmountFindingCount(PresenceFailuresOf(m));
  }

  lemma PartiesFindingCount(p: PresenceFailures)
    ensures multiset(PresenceFindings(p))[PartiesIncomplete] == if p.parties then 1 else 0
  {
    PresenceFindingsCount(p, PartiesIncomplete);
  }

  lemma BankAccountFindingCount(p: PresenceFailures)
    ensures multiset(PresenceFindings(p))[BankAccountIncomplete] == if p.bankAccount then 1 else 0
  {
    PresenceFindingsCount(p, BankAccountIncomplete);
  }

  lemma QuantityOrAmountFindingCount(p: PresenceFailures)
    ensures multiset(PresenceFindings(p))[QuantityOrAmountIncomplete] == if p.quantityOrAmount then 1 else 0
  {
    PresenceFindingsCount(p, QuantityOrAmountIncomplete);
  }

  /** How often a finding occurs: once per failed check that reports it. */
  lemma PresenceFindingsCount(p: PresenceFailures, x: ContractIssue)
    ensures multiset(PresenceFindings(p))[x] ==
      Hit(p.name, x, NameMissing) + Hit(p.id, x, IdMissing) + Hit(p.parties, x, PartiesIncomplete)
      + Hit(p.settlement, x, SettlementMissing) + Hit(p.bankAccount, x, BankAccountIncomplete)
      + Hit(p.paymentTerms, x, PaymentTermsMissing) + Hit(p.goods, x, GoodsMissing)
      + Hit(p.quantityOrAmount, x, QuantityOrAmountIncomplete)
  {
    var head := PresenceFindingsHead(p);
    PresenceFindingsHeadCount(p, x);
    var e5 := AppendIf(head, p.bankAccount, BankAccountIncomplete);
    var e6 := AppendIf(e5, p.paymentTerms, PaymentTermsMissing);
    var e7 := AppendIf(e6, p.goods, GoodsMissing);
    AppendIfCount(head, p.bankAccount, BankAccountIncomplete, x);
    AppendIfCount(e5, p.paymentTerms, PaymentTermsMissing, x);
    AppendIfCount(e6, p.goods, GoodsMissing, x);
    AppendIfCount(e7, p.quantityOrAmount, QuantityOrAmountIncomplete, x);
  }

  lemma PresenceFindingsHeadCount(p: PresenceFailures, x: ContractIssue)
    ensures multiset(PresenceFindingsHead(p))[x] ==
      Hit(p.name, x, NameMissing) + Hit(p.id, x, IdMissing) + Hit(p.parties, x, PartiesIncomplete)
      + Hit(p.settlement, x, SettlementMissing)
  {
    var e1 := AppendIf([], p.name, NameMissing);
    var e2 := AppendIf(e1, p.id, IdMissing);
    var e3 := AppendIf(e2, p.parties, PartiesIncomplete);
    AppendIfCount([], p.name, NameMissing, x);
    AppendIfCount(e1, p.id, IdMissing, x);
    AppendIfCount(e2, p.parties, PartiesIncomplete, x);
    AppendIfCount(e3, p.settlement, SettlementMissing, x);
  }

  /** 1 when the check that reports c fails and x is c, else 0. */
  function Hit(fails: bool, x: ContractIssue, c: ContractIssue): int {
    if fails && x == c then 1 else 0
  }

  lemma AppendIfCount(acc: seq<ContractIssue>, fails: bool, x: ContractIssue, y: ContractIssue)
    ensures multiset(AppendIf(acc, fails, x))[y] == multiset(acc)[y] + Hit(fails, y, x)
  {
  }

  /** The seal findings for two parties: those of the first, then those of the second. */
  lemma SealErrorsPair(a: (Party, string), b: (Party, string))
    ensures SealErrors([a, b]) == ErrorsOf(SealIssue(a.0, a.1)) + ErrorsOf(SealIssue(b.0, b.1))
  {
    assert [a, b][..1] == [a];
    assert [a][..0] == [];
  }

  lemma SignatureErrorsPair(a: (Party, string), b: (Party, string))
    ensures SignatureErrors([a, b]) == ErrorsOf(SignatureIssue(a.0, a.1)) + ErrorsOf(SignatureIssue(b.0, b.1))
  {
    assert [a, b][..1] == [a];
    assert [a][..0] == [];
  }

  lemma SignatureWarningsPair(a: (Party, string), b: (Party, string))
    ensures SignatureWarnings([a, b]) == WarningsOf(SignatureIssue(a.0, a.1)) + WarningsOf(SignatureIssue(b.0, b.1))
  {
    assert [a, b][..1] == [a];
    assert [a][..0] == [];
  }

  /** The seal findings of a list of parties are exactly the parties' individual
      findings. */
  lemma SealErrorsMembers(ps: seq<(Party, string)>, x: ContractIssue)
    ensures x in SealErrors(ps) <==> exists k :: 0 <= k < |ps| && SealIssue(ps[k].0, ps[k].1) == Some(x)
  {
    if x in SealErrors(ps) {
      SealErrorsFromParties(ps, x);
    }
    if exists k :: 0 <= k < |ps| && SealIssue(ps[k].0, ps[k].1) == Some(x) {
      var k :| 0 <= k < |ps| && SealIssue(ps[k].0, ps[k].1) == Some(x);
      SealErrorsOfParty(ps, k);
    }
  }

  lemma {:induction false} SealErrorsFromParties(ps: seq<(Party, string)>, x: ContractIssue)
    requires x in SealErrors(ps)
    ensures exists k :: 0 <= k < |ps| && SealIssue(ps[k].0, ps[k].1) == Some(x)
  {
    var init, last := ps[..|ps| - 1], ps[|ps| - 1];
    SealIssueIsError(last.0, last.1);
    if x in SealErrors(init) {
      SealErrorsFromParties(init, x);
      var k :| 0 <= k < |init| && SealIssue(init[k].0, init[k].1) == Some(x);
      assert ps[k] == init[k];
    } else {
      assert SealIssue(ps[|ps| - 1].0, ps[|ps| - 1].1) == Some(x);
    }
  }

  lemma {:induction false} SealErrorsOfParty(ps: seq<(Party, string)>, k: nat)
    requires k < |ps| && SealIssue(ps[k].0, ps[k].1).Some?
    ensures SealIssue(ps[k].0, ps[k].1).value in SealErrors(ps)
  {
    var init, last := ps[..|ps| - 1], ps[|ps| - 1];
    if k < |init| {
      assert init[k] == ps[k];
      SealErrorsOfParty(init, k);
    } else {
      SealIssueIsError(last.0, last.1);
    }
  }

  lemma SealIssueIsError(party: Party, seal: string)
    ensures ErrorsOf(SealIssue(party, seal)) == if SealIssue(party, seal).Some? then [SealIssue(party, seal).value] else []
  {
  }

  /** With no page offering anything, every presence check fails once, the period
      is missing, both parties lack a seal and a signature, and the only warning is
      the missing related entities. */
  lemma SilentPagesFindings(pages: seq<PageEntry>, today: DateTime)
    requires forall k, f :: 0 <= k < |pages| ==> Offered(pages[k], f) == ""
    ensures ContractErrors(MergedRecord(pages), today) == AllPresenceFindings
      + [PeriodMissing, SealMissing(PartyA), SealMissing(PartyB), SignatureMissing(PartyA), SignatureMissing(PartyB)]
    ensures ContractWarnings(MergedRecord(pages), today) == [RelatedEntitiesMissing]
  {
    var m := MergedRecord(pages);
    forall f: Field ensures m[f] == "" {
      FirstOfferedEmpty(pages, f);
    }
    EmptyRecordFindings(m, today);
  }

  lemma EmptyRecordFindings(m: Record, today: DateTime)
    requires IsRecord(m) && forall f: Field :: m[f] == ""
    ensures ContractErrors(m, today) == AllPresenceFindings
      + [PeriodMissing, SealMissing(PartyA), SealMissing(PartyB), SignatureMissing(PartyA), SignatureMissing(PartyB)]
    ensures ContractWarnings(m, today) == [RelatedEntitiesMissing]
  {
    EmptyRecordParts(m, today);
    BlankPartiesFindings();
    ContractErrorsParts(m, today);
    BlankTailFindings();
  }

  lemma BlankTailFindings()
    ensures [PeriodMissing] + [SealMissing(PartyA), SealMissing(PartyB)] + [SignatureMissing(PartyA), SignatureMissing(PartyB)]
      == [PeriodMissing, SealMissing(PartyA), SealMissing(PartyB), SignatureMissing(PartyA), SignatureMissing(PartyB)]
  {
  }

  /** The errors are the presence, period, seal and signature findings, in that order. */
  lemma ContractErrorsParts(m: Record, today: DateTime)
    requires IsRecord(m)
    ensures ContractErrors(m, today) == PresenceErrors(m)
      + (ErrorsOf(DateIssue(m[EffectiveStart], m[EffectiveEnd], today))
         + SealErrors(PartySeals(m)) + SignatureErrors(PartySignatures(m)))
  {
  }

  lemma EmptyRecordParts(m: Record, today: DateTime)
    requires IsRecord(m) && forall f: Field :: m[f] == ""
    ensures PresenceErrors(m) == AllPresenceFindings
    ensures DateIssue(m[EffectiveStart], m[EffectiveEnd], today) == Some(PeriodMissing)
    ensures PartySeals(m) == [(PartyA, ""), (PartyB, "")]
    ensures PartySignatures(m) == [(PartyA, ""), (PartyB, "")]
    ensures Blank(m[RelatedEntities])
  {
    assert PresenceFailuresOf(m) == PresenceFailures(true, true, true, true, true, true, true, true);
    AllChecksFailFindings();
  }

  /** Two blank seals and two blank signatures give one missing-seal and one
      missing-signature error per party, and no warning. */
  lemma BlankPartiesFindings()
    ensures SealErrors([(PartyA, ""), (PartyB, "")]) == [SealMissing(PartyA), SealMissing(PartyB)]
    ensures SignatureErrors([(PartyA, ""), (PartyB, "")]) == [SignatureMissing(PartyA), SignatureMissing(PartyB)]
    ensures SignatureWarnings([(PartyA, ""), (PartyB, "")]) == []
  {
    BlankSealsFindings();
    BlankSignaturesFindings();
  }

  lemma BlankSealsFindings()
    ensures SealErrors([(PartyA, ""), (PartyB, "")]) == [SealMissing(PartyA), SealMissing(PartyB)]
  {
    assert SealIssue(PartyA, "") == Some(SealMissing(PartyA));
    assert SealIssue(PartyB, "") == Some(SealMissing(PartyB));
    SealErrorsPair((PartyA, ""), (PartyB, ""));
  }

  lemma BlankSignaturesFindings()
    ensures SignatureErrors([(PartyA, ""), (PartyB, "")]) == [SignatureMissing(PartyA), SignatureMissing(PartyB)]
    ensures SignatureWarnings([(PartyA, ""), (PartyB, "")]) == []
  {
    assert SignatureIssue(PartyA, "") == Some(SignatureMissing(PartyA));
    assert SignatureIssue(PartyB, "") == Some(SignatureMissing(PartyB));
    SignatureErrorsPair((PartyA, ""), (PartyB, ""));
    SignatureWarningsPair((PartyA, ""), (PartyB, ""));
  }

  /** Every presence finding, in the order the checks run. */
  const AllPresenceFindings: seq<ContractIssue> :=
    [NameMissing, IdMissing, PartiesIncomplete, SettlementMissing, BankAccountIncomplete,
     PaymentTermsMissing, GoodsMissing, QuantityOrAmountIncomplete]

  lemma AllChecksFailFindings()
    ensures PresenceFindings(PresenceFailures(true, true, true, true, true, true, true, true)) == AllPresenceFindings
  {
  }

  /** The related entities only ever produce a warning: they never change the errors. */
  lemma RelatedEntitiesNeverError(m: Record, v: string, today: DateTime)
    requires IsRecord(m)
    ensures ContractErrors(m[RelatedEntities := v], today) == ContractErrors(m, today)
  {
  }

  /** With both dates well-formed, the contract is reported expired as soon as the
      clock passes midnight of its end date, so it counts as expired during its own
      last day; at that midnight it is not. */
  lemma ExpiredDuringEndDate(startText: string, endText: string, end: Date, micros: nat)
    requires startText != "" && ParseDate(startText).Some? && ParseDate(endText) == Some(end)
    ensures micros > 0 ==> DateIssue(startText, endText, DateTime(end, micros)) == Some(Expired)
    ensures micros == 0 ==> DateIssue(startText, endText, DateTime(end, micros)) != Some(Expired)
  {
    assert endText != "";
  }

  /** With both dates well-formed and the end's midnight past, the period check
      reports expiry, as an error, whatever the start date. */
  lemma ExpiryTakesPrecedence(startText: string, endText: string, today: DateTime, start: Date, end: Date)
    requires ParseDate(startText) == Some(start) && ParseDate(endText) == Some(end)
    requires Before(Midnight(end), today)
    ensures DateIssue(startText, endText, today) == Some(Expired)
    ensures ErrorsOf(DateIssue(startText, endText, today)) == [Expired]
    ensures WarningsOf(DateIssue(startText, endText, today)) == []
  {
    assert startText != "" && endText != "";
  }

  /** A start still ahead of a contract that has not expired is only a warning. */
  lemma NotYetEffectiveWarns(startText: string, endText: string, today: DateTime, start: Date, end: Date)
    requires ParseDate(startText) == Some(start) && ParseDate(endText) == Some(end)
    requires !Before(Midnight(end), today) && Before(today, Midnight(start))
    ensures DateIssue(startText, endText, today) == Some(NotYetEffective)
    ensures ErrorsOf(DateIssue(startText, endText, today)) == []
    ensures WarningsOf(DateIssue(startText, endText, today)) == [NotYetEffective]
  {
    assert startText != "" && endText != "";
  }

  /** Two non-empty dates one of which strptime rejects give the bad-format error. */
  lemma UnparsableDateIsBadFormat(startText: string, endText: string, today: DateTime)
    requires startText != "" && endText != ""
    requires ParseDate(startText).None? || ParseDate(endText).None?
    ensures DateIssue(startText, endText, today) == Some(BadDateFormat)
  {
  }

  /** The period check tests the date texts for emptiness without stripping them, so
      whitespace-only dates are reported as a bad format, not as missing. */
  lemma BlankDateIsBadFormat(startText: string, endText: string, today: DateTime)
    requires startText != "" && Blank(startText) && endText != ""
    ensures DateIssue(startText, endText, today) == Some(BadDateFormat)
  {
    assert IsSpace(startText[0]);
    assert ParseDate(startText).None?;
  }

  /** The merge strips every value it stores, so through validate_contract a date
      that some page offered only as whitespace reaches the period check as "" and
      is reported missing, never as a bad format. */
  lemma MergedBlankDateIsMissing(pages: seq<PageEntry>, today: DateTime)
    ensures Blank(MergedRecord(pages)[EffectiveStart]) || Blank(MergedRecord(pages)[EffectiveEnd]) ==>
      DateIssue(MergedRecord(pages)[EffectiveStart], MergedRecord(pages)[EffectiveEnd], today) == Some(PeriodMissing)
  {
    BlankMergedValueEmpty(pages, EffectiveStart);
    BlankMergedValueEmpty(pages, EffectiveEnd);
  }

  /** A merged value that is blank is the empty text. */
  lemma BlankMergedValueEmpty(pages: seq<PageEntry>, f: Field)
    ensures Blank(MergedRecord(pages)[f]) ==> MergedRecord(pages)[f] == ""
  {
    MergedValuesStripped(pages, f);
    StripBlank(FirstOffered(pages, f));
  }

  /** The placeholder for an illegible signature is a warning, not an error, also
      when the recognizer surrounds it with whitespace. */
  lemma IllegibleSignatureWarns(party: Party, sign: string)
    requires Strip(sign) == IllegibleSignature
    ensures SignatureIssue(party, sign) == Some(SignatureIllegible(party))
    ensures ErrorsOf(SignatureIssue(party, sign)) == []
  {
    StripBlank(sign);
  }

  /** A contract is free of errors exactly when every presence check passes, the
      period is in force or not yet started, both seals name an accepted seal type
      and both signatures are present. */
  lemma NoErrorsIff(m: Record, today: DateTime)
    requires IsRecord(m)
    ensures ContractErrors(m, today) == [] <==>
      && PresenceFailuresOf(m) == PresenceFailures(false, false, false, false, false, false, false, false)
      && (var d := DateIssue(m[EffectiveStart], m[EffectiveEnd], today); d.None? || d == Some(NotYetEffective))
      && SealIssue(PartyA, m[SealPartyA]).None? && SealIssue(PartyB, m[SealPartyB]).None?
      && !Blank(m[SignPartyA]) && !Blank(m[SignPartyB])
  {
    ContractErrorsEmpty(m, today);
    PresenceFindingsLength(PresenceFailuresOf(m));
    SealsPass(m);
    SignaturesPass(m);
  }

  /** The errors are empty exactly when each check contributes none. */
  lemma ContractErrorsEmpty(m: Record, today: DateTime)
    requires IsRecord(m)
    ensures ContractErrors(m, today) == [] <==>
      && PresenceErrors(m) == []
      && ErrorsOf(DateIssue(m[EffectiveStart], m[EffectiveEnd], today)) == []
      && SealErrors(PartySeals(m)) == []
      && SignatureErrors(PartySignatures(m)) == []
  {
    assert |ContractErrors(m, today)| == |PresenceErrors(m)|
      + |ErrorsOf(DateIssue(m[EffectiveStart], m[EffectiveEnd], today))|
      + |SealErrors(PartySeals(m))| + |SignatureErrors(PartySignatures(m))|;
  }

  lemma SealsPass(m: Record)
    requires IsRecord(m)
    ensures SealErrors(PartySeals(m)) == [] <==>
      SealIssue(PartyA, m[SealPartyA]).None? && SealIssue(PartyB, m[SealPartyB]).None?
  {
    SealErrorsPair((PartyA, m[SealPartyA]), (PartyB, m[SealPartyB]));
  }

  lemma SignaturesPass(m: Record)
    requires IsRecord(m)
    ensures SignatureErrors(PartySignatures(m)) == [] <==> !Blank(m[SignPartyA]) && !Blank(m[SignPartyB])
  {
    SignatureErrorsPair((PartyA, m[SignPartyA]), (PartyB, m[SignPartyB]));
  }

  /** validate_contract: merge the pages, then append the findings of each check in
      turn, the seal and signature checks once per party. */
  method ValidateContract(pages: seq<PageEntry>, today: DateTime) returns (errors: seq<string>, warnings: seq<string>)
    requires ValidMoment(today)
    ensures errors == Messages(ContractErrors(MergedRecord(pages), today))
    ensures warnings == Messages(ContractWarnings(MergedRecord(pages), today))
  {
    var merged := MergeContractFields(pages);
    var errs := CheckPresence(merged);
    var warns: seq<ContractIssue> := [];
    errs, warns := CheckPeriod(merged[EffectiveStart], merged[EffectiveEnd], today, errs, warns);
    assert warns == WarningsOf(DateIssue(merged[EffectiveStart], merged[EffectiveEnd], today));
    errs := CheckSeals(PartySeals(merged), errs);
    errs, warns := CheckSignatures(PartySignatures(merged), errs, warns);
    if Blank(merged[RelatedEntities]) {
      warns := warns + [RelatedEntitiesMissing];
    }
    assert warns == ContractWarnings(merged, today);
    errors := Messages(errs);
    warnings := Messages(warns);
  }

  /** The presence checks of validate_contract, run in order. */
  method CheckPresence(merged: Record) returns (errs: seq<ContractIssue>)
    requires IsRecord(merged)
    ensures errs == PresenceErrors(merged)
  {
    errs := [];
    if Blank(merged[ContractName]) { errs := errs + [NameMissing]; }
    if Blank(merged[ContractId]) { errs := errs + [IdMissing]; }
    if Blank(merged[PartyAName]) || Blank(merged[PartyBName]) { errs := errs + [PartiesIncomplete]; }
    if Blank(merged[SettlementMethod]) { errs := errs + [SettlementMissing]; }
    assert errs == PresenceFindingsHead(PresenceFailuresOf(merged));
    if !(!Blank(merged[BankAccountName]) && !Blank(merged[BankName]) && !Blank(merged[BankAccountNumber])) {
      errs := errs + [BankAccountIncomplete];
    }
    if Blank(merged[PaymentTerms]) { errs := errs + [PaymentTermsMissing]; }
    if Blank(merged[GoodsName]) { errs := errs + [GoodsMissing]; }
    if Blank(merged[Quantity]) || Blank(merged[TotalAmountInclTax]) { errs := errs + [QuantityOrAmountIncomplete]; }
  }

  /** The effective-period check of validate_contract. */
  method CheckPeriod(startText: string, endText: string, today: DateTime,
                     errs0: seq<ContractIssue>, warns0: seq<ContractIssue>)
    returns (errs: seq<ContractIssue>, warns: seq<ContractIssue>)
    requires ValidMoment(today)
    ensures errs == errs0 + ErrorsOf(DateIssue(startText, endText, today))
    ensures warns == warns0 + WarningsOf(DateIssue(startText, endText, today))
  {
    errs, warns := errs0, warns0;
    if startText == "" || endText == "" {
      errs := errs + [PeriodMissing];
    } else {
      var start := ParseDate(startText);
      var end := ParseDate(endText);
      if start.None? || end.None? {
        errs := errs + [BadDateFormat];
      } else if Before(Midnight(end.value), today) {
        errs := errs + [Expired];
      } else if Before(today, Midnight(start.value)) {
        warns := warns + [NotYetEffective];
      }
    }
  }

  lemma SealErrorsStep(seals: seq<(Party, string)>, k: nat)
    requires k < |seals|
    ensures SealErrors(seals[..k + 1]) == SealErrors(seals[..k]) + ErrorsOf(SealIssue(seals[k].0, seals[k].1))
  {
    assert seals[..k + 1][..k] == seals[..k];
  }

  /** The seal check of validate_contract, once per (party, seal) pair. */
  method CheckSeals(seals: seq<(Party, string)>, errs0: seq<ContractIssue>) returns (errs: seq<ContractIssue>)
    ensures errs == errs0 + SealErrors(seals)
  {
    errs := errs0;
    for k := 0 to |seals|
      invariant errs == errs0 + SealErrors(seals[..k])
    {
      var (party, seal) := seals[k];
      ghost var before := errs;
      errs := CheckSeal(party, seal, errs);
      SealErrorsStep(seals, k);
      assert errs0 + SealErrors(seals[..k + 1]) == before + ErrorsOf(SealIssue(party, seal));
    }
    assert seals[..|seals|] == seals;
  }

  /** The seal check for one party. */
  method CheckSeal(party: Party, seal: string, errs0: seq<ContractIssue>) returns (errs: seq<ContractIssue>)
    ensures errs == errs0 + ErrorsOf(SealIssue(party, seal))
  {
    errs := errs0;
    if Blank(seal) {
      errs := errs + [SealMissing(party)];
    } else if !Contains(seal, ContractSealToken) && !Contains(seal, OfficialSealToken) {
      errs := errs + [SealTypeInvalid(party)];
    }
  }

  lemma SignatureFindingsStep(signs: seq<(Party, string)>, k: nat, errs0: seq<ContractIssue>, warns0: seq<ContractIssue>)
    requires k < |signs|
    ensures errs0 + SignatureErrors(signs[..k + 1]) == errs0 + SignatureErrors(signs[..k]) + ErrorsOf(SignatureIssue(signs[k].0, signs[k].1))
    ensures warns0 + SignatureWarnings(signs[..k + 1]) == warns0 + SignatureWarnings(signs[..k]) + WarningsOf(SignatureIssue(signs[k].0, signs[k].1))
  {
    assert signs[..k + 1][..k] == signs[..k];
  }

  /** The signature check of validate_contract, once per (party, signature) pair. */
  method CheckSignatures(signs: seq<(Party, string)>, errs0: seq<ContractIssue>, warns0: seq<ContractIssue>)
    returns (errs: seq<ContractIssue>, warns: seq<ContractIssue>)
    ensures errs == errs0 + SignatureErrors(signs)
    ensures warns == warns0 + SignatureWarnings(signs)
  {
    errs, warns := errs0, warns0;
    for k := 0 to |signs|
      invariant errs == errs0 + SignatureErrors(signs[..k])
      invariant warns == warns0 + SignatureWarnings(signs[..k])
    {
      SignatureFindingsStep(signs, k, errs0, warns0);
      errs, warns := CheckSignature(signs[k].0, signs[k].1, errs, warns);
    }
    assert signs[..|signs|] == signs;
  }

  /** The signature check for one party. */
  method CheckSignature(party: Party, sign: string, errs0: seq<ContractIssue>, warns0: seq<ContractIssue>)
    returns (errs: seq<ContractIssue>, warns: seq<ContractIssue>)
    ensures errs == errs0 + ErrorsOf(SignatureIssue(party, sign))
    ensures warns == warns0 + WarningsOf(SignatureIssue(party, sign))
  {
    errs, warns := errs0, warns0;
    StripBlank(sign);
    var s := Strip(sign);
    if s == "" {
      errs := errs + [SignatureMissing(party)];
    } else if s == IllegibleSignature {
      warns := warns + [SignatureIllegible(party)];
    }
  }
}
