# pdf-checker audit core, in Dafny

pdf-checker audits scanned contracts. Each PDF page becomes an image named
`page_001`, `page_002`, …. A multimodal recognizer reads every image. Two
deterministic pipelines then turn the recognizer's replies into findings.

- **Contract audit** (`contract_checker`). `check_contract_compliance` keeps
  one `{"page", "result"}` entry per image. The result is the recognizer's
  JSON object with the 19 schema keys defaulted to "", or `{}` when the
  page failed. `merge_contract_fields` folds the pages into one 19-field
  record: for each field, the first value that is non-empty after `str()`
  and stripping wins, stored stripped.
  `validate_contract` then runs a fixed list of checks and appends Chinese
  messages to `errors` and `warnings`. The checks cover:
  - field presence;
  - the effective period against "today";
  - the seal type of each party;
  - the signature of each party;
  - the related entities.
- **Seal audit** (`seal_detector`). `detect_seal_compliance` stores one
  defaulted seal observation per page, or a "no seal" record when the page
  failed. It then reduces the pages to a report. That report has one error
  or warning per failing attribute of each sealed page, and a leading
  "no seal anywhere" error when no page has a seal.
  `export_seal_to_excel` turns a seal report into the rows of three sheets:
  - raw data, with one row per seal or one blank row per page without seals;
  - issues, with a fallback row when there are none;
  - a five-row summary.

Modules:

- `PyText` — JSON scalars, Python truthiness, `str()`, `str.strip()`, `in`,
  `join`, `int()` on the last `_` segment of a file stem.
- `Decimal` — decimal rendering, `{i:03d}` zero padding and reading digits back.
- `PageNaming` — the `page_{i:03d}` image names and the page number parsed from them.
- `Strptime` — `datetime.strptime(s, "%Y-%m-%d")`, dates with a time of day, and `<`.
- `Recognizer` — what one recognizer call ends in, taken as an input.
- `ContractChecker` — the contract page loop and schema defaulting.
- `ContractValidator` — the merge and the contract rules.
- `SealDetector` — the seal page loop, seal defaulting and the aggregation.
- `SealExporter` — the row lists of the seal spreadsheet.

The model follows the shape of the code:

- every loop that appends to a list, fills a dict in place or flips a flag is
  a `method` with a loop and invariants;
- each method is proved equal to a specification function;
- the properties are lemmas about those functions.

The recognizer's reply is one of four cases, given as a parameter:
- a failed call;
- text that is not JSON;
- a JSON object;
- other JSON.

"Today" is a parameter that carries a time of day. The methods require it to be
a representable date and a time of day within it (`Strptime.ValidMoment`).

Behaviours of the code worth knowing, each stated by a lemma:

- The merge gives the illegible-signature placeholder "（签名模糊）" no
  special treatment. A placeholder on an early page wins over a legible name
  on a later one (`PlaceholderNotDeferred`).
- Seals are checked only for containing "合同专用章" or "公章". They are not
  matched against party names.
- The bank-account check is one all-or-nothing error over account name,
  bank and account number.
- The seal aggregation decides from each page's `has_seal`. There is no
  `requires_seal` in the detector.
- The period check tests the date texts for emptiness without stripping them;
  taken alone, it reports a whitespace-only date as a bad format
  (`BlankDateIsBadFormat`). The merge has already stripped every value,
  though, so through `validate_contract` a whitespace-only date arrives as ""
  and is reported missing (`MergedBlankDateIsMissing`).
- `int()` skips ASCII blanks, tabs and line breaks and non-ASCII whitespace
  around a page number, but not the separators U+001C to U+001F that
  `str.strip()` removes (`ParseIntSpacing`).
- `today > end` compares a moment of today with midnight of the end date. A
  contract is therefore already expired during its last day
  (`ExpiredDuringEndDate`).

## Model

| member | source | states |
|---|---|---|
| PageNaming.PageStem | common/pdf_to_images.py:20 | the i-th image stem is "page_" followed by i zero-padded to three digits |
| PageNaming.PageNumberRoundTrip | common/pdf_to_images.py:20 | the page number parsed from the stem of image i (`int(stem.split('_')[-1])`) is i, for every i >= 0 |
| PageNaming.PageStemsNumbered | common/pdf_to_images.py:19-22 | the k-th image of a rendering (counted from 0) parses to page k+1 |
| Decimal.ZeroPaddedValue | common/pdf_to_images.py:20 | reading back a zero-padded rendering gives the number written |
| Decimal.NatToString | contract_checker/validator.py:108-109 | `str(n)` is the shortest digit text denoting n |
| Strptime.ParseDate | contract_checker/validator.py:53-54 | whatever strptime("%Y-%m-%d") accepts is a calendar-valid date in years 1..9999 |
| Strptime.DaysInMonth | contract_checker/validator.py:53-54 | February has 29 days exactly in leap years, every month 28 to 31 |
| Strptime.ParseIsoText | contract_checker/validator.py:53-54 | every valid date round-trips through its YYYY-MM-DD rendering |
| Strptime.TrailingTextRejected | contract_checker/validator.py:53-54 | a complete date followed by any further text is rejected |
| Strptime.TextAfterDayRejected | contract_checker/validator.py:53-54 | text after a two-digit day is rejected |
| PyText.StripSpec | contract_checker/validator.py:108-109 | strip removes exactly the leading and trailing whitespace and keeps the slice between |
| PyText.StripIdempotent | contract_checker/validator.py:108-109 | stripping twice is stripping once |
| PyText.StripBlank | contract_checker/validator.py:30-45 | `not s.strip()` holds exactly when s is all whitespace |
| PyText.ContainsSpec | contract_checker/validator.py:67 | `t in s` holds exactly when t occurs at some position of s |
| PyText.JoinEmpty | seal_detector/exporter.py:58-61 | a join is empty exactly when the list is empty or holds one empty text |
| PyText.LastSegment | contract_checker/checker.py:54 | `split('_')[-1]` is the suffix after the last `_`, holding no `_` |
| PyText.LastSegmentAfter | contract_checker/checker.py:54 | a segment without `_` after the last `_` is read back unchanged |
| PyText.ParseIntDigits | contract_checker/checker.py:54 | `int()` reads any non-empty run of ASCII digits back as its value, leading zeros included |
| PyText.ParseInt | contract_checker/checker.py:54 | whatever `int()` accepts is a signed run of digits |
| PyText.ParseIntSpacing | contract_checker/checker.py:54 | `int()` skips blanks, tabs and newlines around the digits, and rejects a leading U+001C |
| ContractValidator.MergedRecord | contract_checker/validator.py:90-110 | the merge holds exactly the 19 fields, each its first offer |
| ContractValidator.MergeContractFields | contract_checker/validator.py:88-110 | the nested merge loop produces exactly MergedRecord of the pages |
| ContractValidator.MergeInto | contract_checker/validator.py:102-109 | the page loop keeps exactly the listed fields, each equal to the first offer so far |
| ContractValidator.FillFromPage | contract_checker/validator.py:107-109 | visiting an object page fills each still-empty field with the page's truthy value, stripped, and keeps the keys |
| ContractValidator.FillStep | contract_checker/validator.py:105-109 | an object page extends the first offers exactly as one fill of each field |
| ContractValidator.SkipStep | contract_checker/validator.py:104-106 | a page whose result is not a dict changes nothing |
| ContractValidator.FirstOfferedIsFirst | contract_checker/validator.py:103-109 | the merged value is the offer of the first page, in order, with a non-empty offer |
| ContractValidator.FirstOfferedEmpty | contract_checker/validator.py:102-109 | a merged field is "" exactly when no page offers it (so no pages give all ""s) |
| ContractValidator.NeverOverwritten | contract_checker/validator.py:108 | once a field is non-empty, later pages never overwrite it |
| ContractValidator.FirstOfferedSnoc | contract_checker/validator.py:108-109 | one more page fills a field only if it is still empty |
| ContractValidator.SilentPageInvisible | contract_checker/validator.py:104-108 | a page offering nothing (missing, non-dict, empty or all-falsy result) can be inserted anywhere without changing the merge |
| ContractValidator.MergeDependsOnOffersOnly | contract_checker/validator.py:104-109 | pages with the same offers merge alike, so blanks of any kind and other keys never matter |
| ContractValidator.ExtraKeyIgnored | contract_checker/validator.py:107-108 | keys outside the 19 fields are ignored |
| ContractValidator.MergedValuesStripped | contract_checker/validator.py:109 | every merged value is already stripped |
| ContractValidator.MergeIdempotent | contract_checker/validator.py:102-109 | merging a one-page list whose result is an earlier merge output gives that output back |
| ContractValidator.PlaceholderNotDeferred | contract_checker/validator.py:108-109 | the illegible-signature placeholder on page 1 wins over a legible name on page 2 |
| ContractValidator.ValidateContract | contract_checker/validator.py:26-85 | the errors and warnings are exactly the messages of ContractErrors and ContractWarnings of the merged record, in append order |
| ContractValidator.CheckPresence | contract_checker/validator.py:29-45 | the eight presence checks append exactly PresenceErrors, in order |
| ContractValidator.CheckPeriod | contract_checker/validator.py:47-61 | the period check appends its one issue to errors or warnings, by kind |
| ContractValidator.CheckSeals | contract_checker/validator.py:63-68 | the seal loop appends the per-party seal errors in party order |
| ContractValidator.CheckSignatures | contract_checker/validator.py:70-76 | the signature loop appends the per-party errors and warnings in party order |
| ContractValidator.ContractErrors | contract_checker/validator.py:26-80 | every finding in `errors` is an error-kind finding |
| ContractValidator.ContractWarnings | contract_checker/validator.py:26-80 | every finding in `warnings` is a warning-kind finding |
| ContractValidator.PresenceFindingsLength | contract_checker/validator.py:29-45 | one error per failed presence check; none exactly when all pass |
| ContractValidator.PresenceFindingsCount | contract_checker/validator.py:29-45 | each presence message occurs once per failed check that reports it |
| ContractValidator.PresenceFindingsOnce | contract_checker/validator.py:29-45 | no presence message appears twice |
| ContractValidator.CombinedChecksOnce | contract_checker/validator.py:34-45 | the party-name, bank-account and quantity/amount checks each report once when any of their fields is blank, however many are |
| ContractValidator.SealErrors | contract_checker/validator.py:64-68 | at most one seal error per party, each a missing or bad-type seal |
| ContractValidator.SealErrorsMembers | contract_checker/validator.py:64-68 | the seal errors are exactly the per-party seal findings |
| ContractValidator.SealsPass | contract_checker/validator.py:64-68 | no seal error exactly when both seals are non-blank and name an accepted seal type |
| ContractValidator.SignatureErrors | contract_checker/validator.py:71-74 | at most one signature error per party, each a missing signature |
| ContractValidator.SignatureWarnings | contract_checker/validator.py:71-76 | at most one signature warning per party, each an illegible signature |
| ContractValidator.SignaturesPass | contract_checker/validator.py:71-74 | no signature error exactly when both signatures are non-blank |
| ContractValidator.IllegibleSignatureWarns | contract_checker/validator.py:72-76 | the placeholder, after strip, is a warning and not an error |
| ContractValidator.ExpiryTakesPrecedence | contract_checker/validator.py:56-57 | with both dates valid and end's midnight past, the one issue is the expiry error, whatever the start |
| ContractValidator.NotYetEffectiveWarns | contract_checker/validator.py:58-59 | an unexpired contract whose start is ahead gets only the not-yet-effective warning |
| ContractValidator.UnparsableDateIsBadFormat | contract_checker/validator.py:52-61 | two non-empty dates one of which fails to parse give the bad-format error |
| ContractValidator.ExpiredDuringEndDate | contract_checker/validator.py:55-57 | the contract is expired from the first moment after midnight of its end date, not at that midnight |
| ContractValidator.BlankDateIsBadFormat | contract_checker/validator.py:49-61 | taken alone, the period check reports a whitespace-only date as a format error, not a missing one |
| ContractValidator.MergedBlankDateIsMissing | contract_checker/validator.py:49-50 | after the merge a blank date is "", so the period check reports it missing |
| ContractValidator.BlankMergedValueEmpty | contract_checker/validator.py:109 | a merged value that is blank is the empty text |
| ContractValidator.RelatedEntitiesNeverError | contract_checker/validator.py:79-80 | the related entities never change the errors |
| ContractValidator.NoErrorsIff | contract_checker/validator.py:29-76 | no errors exactly when every presence check passes, the period is in force or not yet started, both seals are accepted and both signatures present |
| ContractValidator.SilentPagesFindings | contract_checker/validator.py:29-80 | when no page offers anything the report is all 8 presence errors, the missing period, 2 missing seals and 2 missing signatures (13 errors) and the one related-entities warning |
| ContractChecker.FillSchema | contract_checker/checker.py:91-93 | the in-place defaulting loop yields exactly SchemaFilled of the reply |
| ContractChecker.SchemaFilledSpec | contract_checker/checker.py:91-93 | all 19 schema keys present and non-null; a missing or null one becomes ""; other non-null values and extra keys unchanged |
| ContractChecker.BlankSchema | contract_checker/checker.py:95-97 | a non-JSON reply gives exactly the 19 keys, all "" |
| ContractChecker.AnalyzePage | contract_checker/checker.py:85-97 | a page analysis raises on a failed call or non-object JSON, blanks a non-JSON reply and defaults an object |
| ContractChecker.CheckContractCompliance | contract_checker/checker.py:53-63 | the page loop yields exactly ContractPages: one entry per image in image order, or failure when a stem has no number |
| ContractChecker.ContractPagesShape | contract_checker/checker.py:53-63 | the loop succeeds exactly when every stem parses; entry k then has stem k's number and reply k's stored result |
| ContractChecker.NumberedContractPages | contract_checker/checker.py:54 | for images named page_001… the loop succeeds and entry k is page k+1 |
| ContractChecker.FallbackPageOffersNothing | contract_checker/checker.py:60-62 | a failed or non-JSON page offers nothing to the merge |
| ContractChecker.SchemaFilledOffersSame | contract_checker/checker.py:91-93 | schema defaulting never changes what a page offers to the merge |
| ContractChecker.MergeSeesReplies | contract_checker/checker.py:53-63 | merging the collected pages is merging the raw object replies, failed pages left out |
| SealDetector.FillSealDefaults | seal_detector/detector.py:120-124 | the in-place defaulting loop yields exactly SealDefaults of the reply |
| SealDetector.SealDefaultsSpec | seal_detector/detector.py:120-125 | each missing flag becomes True, a missing seal_text "", present keys unchanged |
| SealDetector.AnalyzeSealPage | seal_detector/detector.py:114-134 | a seal analysis raises on a failed call or non-object JSON, gives the fallback for non-JSON and defaults an object |
| SealDetector.DetectSealPages | seal_detector/detector.py:38-54 | the page loop yields exactly SealPages: one entry per image, failed pages as the fallback record |
| SealDetector.SealPagesShape | seal_detector/detector.py:38-54 | the loop succeeds exactly when every stem parses; entry k then has stem k's number and reply k's stored result |
| SealDetector.NumberedSealPages | seal_detector/detector.py:39 | for images named page_001… the loop succeeds, entry k is page k+1 and every entry holds all five keys |
| SealDetector.SealPageResultComplete | seal_detector/detector.py:41-54 | every stored result holds all five seal keys |
| SealDetector.FailedPageUnsealed | seal_detector/detector.py:43-54 | a failed or non-JSON page is stored as the fallback record, without a seal |
| SealDetector.DetectSealCompliance | seal_detector/detector.py:38-92 | the page loop then the aggregation: fails exactly when some stem has no page number, otherwise reports the messages of the stored pages |
| SealDetector.SealPagesReadable | seal_detector/detector.py:38-54 | every stored page holds the keys the aggregation reads |
| SealDetector.AggregateSeals | seal_detector/detector.py:63-92 | the aggregation loop returns exactly the messages of ReportErrors and AttributeWarnings |
| SealDetector.CheckSealedPage | seal_detector/detector.py:77-84 | a sealed page appends its attribute errors and warnings in order |
| SealDetector.PageErrors | seal_detector/detector.py:77-78 | a page contributes at most one error, non-red, and only when sealed |
| SealDetector.PageWarnings | seal_detector/detector.py:79-84 | a page contributes at most three warnings, all for that page, and only when sealed |
| SealDetector.AnySealIff | seal_detector/detector.py:72-75 | the flag is set exactly when some page has has_seal true |
| SealDetector.FindingsAppend | seal_detector/detector.py:68-84 | findings of a split page list are the findings of the parts in page order |
| SealDetector.UnsealedPageSilent | seal_detector/detector.py:72-73 | a page without a seal changes neither errors nor warnings, whatever its other attributes |
| SealDetector.SinglePageFindings | seal_detector/detector.py:72-84 | one page's findings are its attribute errors and warnings |
| SealDetector.FailedPageSilent | seal_detector/detector.py:43-54 | a failed page's fallback record contributes no issue |
| SealDetector.NoSealReport | seal_detector/detector.py:86-87 | with no seal anywhere the errors are exactly the no-seal message and there are no warnings |
| SealDetector.FindingsBounds | seal_detector/detector.py:68-87 | errors at most the number of sealed pages, or exactly one when none; warnings at most three per sealed page |
| SealExporter.FlattenRawRows | seal_detector/exporter.py:20-46 | the raw-row loop produces exactly RawRows of the pages |
| SealExporter.AppendPageRows | seal_detector/exporter.py:22-46 | one page's rows are appended after the earlier ones |
| SealExporter.PageRowsSpec | seal_detector/exporter.py:24-46 | max(1, n) rows with the page and requires_seal; a blank row for no seals, otherwise seals 1..n in order |
| SealExporter.RequiresSeal | seal_detector/exporter.py:24 | a missing requires_seal is False |
| SealExporter.Get | seal_detector/exporter.py:42-45 | a missing seal attribute is rendered as the default "" |
| SealExporter.RawRowCount | seal_detector/exporter.py:21-46 | the sheet has one row per seal plus one per page without seals |
| SealExporter.RawRowsAppend | seal_detector/exporter.py:21-46 | rows keep page order across any split of the page list |
| SealExporter.PageRowsInPlace | seal_detector/exporter.py:21-46 | the rows of page k are consecutive, right after the rows of the pages before it |
| SealExporter.IssueRows | seal_detector/exporter.py:51-52 | no issues give exactly the "无问题" INFO row; otherwise the issues pass through |
| SealExporter.SummaryRows | seal_detector/exporter.py:56-62 | the summary has exactly five rows |
| SealExporter.SummaryRendering | seal_detector/exporter.py:57-61 | the page count as given, empty lists as "无" and joined lists otherwise, "是"/"否" by truthiness |
| SealExporter.ListRendering | seal_detector/exporter.py:58-61 | `join(...) or "无"` is "无" exactly for an empty list or a single empty text |

## Left out

- The recognizer call, its HTTP status and `json.loads` are taken as an input `Reply`. Prompts, the response schema and temperature are not modelled. Logging, the raw-result JSON dumps and the pandas/Excel writing are I/O and are left out.
- `main.py` (command line, usage counter), `common/path_validator.py`, `common/config.py`, `common/logger.py` and the prompt modules are setup and I/O, not audit logic. They are not part of this model.
- PDF rasterisation and PNG saving in `common/pdf_to_images.py` are foreign calls. Only the stem naming is modelled.
- `datetime.today()` is a parameter: a date and the microseconds since its midnight.
- JSON values are the scalars null, booleans, integers and strings. Floats, lists and nested objects in a recognizer reply are not modelled, and `str()` of such values is left out.
- `int()` and strptime's `\d` also accept non-ASCII Unicode digits, and `int()` accepts `_` between digits. The model reads ASCII digits only, so such stems and dates are taken as unparsable.
- ContractChecker.AnalyzePage: JSON that is not an object makes the key test raise inside the analysis, so the page loop stores `{}` through its `except` branch. The loop's `isinstance(res, dict)` fallback is therefore never reached and is not a separate case.
- SealDetector.AnalyzeSealPage: JSON that is not an object is modelled as raising, which yields the fallback record. A JSON array or string containing all five key names would instead pass through unchanged; this case is not modelled.
- SealExporter.RawPage: an absent, null or empty `seals` list is one case, the empty sequence, because the exporter treats all three alike. An absent or null `issues_detail` is likewise the empty sequence in SealExporter.IssueRows.
- SealExporter.RawPage: the producer of the multi-seal report read by the exporter is not part of this model. Only the keys the exporter reads are modelled.
- SealExporter.RawRowsAppend: it states the order of rows across a split, not the additivity of row counts. RawRowCount states the counts.
