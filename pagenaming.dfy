/** How page images are named and how the two checkers read the page number back:
    images are saved as `page_{i:03d}.png` for i = 1, 2, …, and each checker takes
    `int(stem.split('_')[-1])` of the file stem as the page number. */
module PageNaming {
  import opened Decimal
  import opened PyText

  /** The stem of the image saved for page i: "page_" and i padded to three digits. */
  function PageStem(i: nat): (r: string)
    ensures |r| >= 8 && r[..5] == "page_" && AllDigits(r[5..])
    ensures r[5..] == ZeroPadded(i, 3)
  {
    "page_" + ZeroPadded(i, 3)
  }

  /** The stems of the images of an n-page document, in page order. */
  function PageStems(n: nat): (r: seq<string>)
    ensures |r| == n
    ensures forall k :: 0 <= k < n ==> r[k] == PageStem(k + 1)
  {
    seq(n, k requires 0 <= k < n => PageStem(k + 1))
  }

  /** `int(stem.split('_')[-1])`; None when int() would raise ValueError. */
  function PageNumberOf(stem: string): Option<int> {
    ParseInt(LastSegment(stem, '_'))
  }

  /** `int(stem.split('_')[-1])` for each image stem, in image order. */
  function PageNumbers(stems: seq<string>): (r: seq<Option<int>>)
    ensures |r| == |stems|
  {
    MapSeq(PageNumberOf, stems)
  }

  /** The k-th parsed number is the number read from the k-th stem. */
  lemma PageNumbersAt(stems: seq<string>, k: nat)
    requires k < |stems|
    ensures PageNumbers(stems)[k] == PageNumberOf(stems[k])
  {
    MapSeqAt(PageNumberOf, stems, k);
  }

  /** Reading the page number back from an image stem gives the number it was saved
      under, for every page however many digits it needs. */
  lemma PageNumberRoundTrip(i: nat)
    ensures PageNumberOf(PageStem(i)) == Some(i)
  {
    var digits := ZeroPadded(i, 3);
    assert PageStem(i) == "page" + ['_'] + digits;
    assert forall j :: 0 <= j < |digits| ==> digits[j] != '_' by {
      forall j | 0 <= j < |digits| ensures digits[j] != '_' {
        assert IsDigit(digits[j]);
      }
    }
    LastSegmentAfter("page", '_', digits);
    ParseIntDigits(digits);
    ZeroPaddedValue(i, 3);
  }

  /** The images of an n-page document are read back as pages 1 to n, in order. */
  lemma PageStemsNumbered(n: nat)
    ensures forall k :: 0 <= k < n ==> PageNumbers(PageStems(n))[k] == Some(k + 1)
  {
    forall k | 0 <= k < n ensures PageNumbers(PageStems(n))[k] == Some(k + 1) {
      PageNumbersAt(PageStems(n), k);
      PageNumberRoundTrip(k + 1);
    }
  }
}
