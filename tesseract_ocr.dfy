/**
 * The second OCR row filter: it keeps every row whose stripped text is not
 * empty, stores the stripped text, and keeps the box as
 * `(left, top, width, height)`. There is no confidence test and no `try`.
 */
module TesseractOcr {
  import opened Wrappers
  import opened Strings
  import opened Seqs
  import opened OcrTable

  /** Iteration `i`: read and strip the text; only a non-empty text leads to reading the four box columns. */
  function RowOutcome(t: Table, i: nat): Result<Option<OcrItem>> {
    if i >= |t.text| then Err(IndexError)
    else if Strip(t.text[i]) == [] then Ok(None)
    else if i >= |t.left| || i >= |t.top| || i >= |t.width| || i >= |t.height| then Err(IndexError)
    else Ok(Some(OcrItem(Strip(t.text[i]), (t.left[i], t.top[i], t.width[i], t.height[i]))))
  }

  /** What `extract_text_with_boxes` returns or raises; a Tesseract failure propagates too. */
  function TextWithBoxes(ocr: Result<Table>): Result<seq<OcrItem>> {
    match ocr
    case Err(x) => Err(x)
    case Ok(t) => ScanRows(RowOutcome, t, |t.level|)
  }

  method ExtractTextWithBoxes(ocr: Result<Table>) returns (r: Result<seq<OcrItem>>)
    ensures r == TextWithBoxes(ocr)
  {
    if ocr.Err? {
      return Err(ocr.error);
    }
    var data := ocr.value;
    var n := |data.level|;
    var results := [];
    var i := 0;
    while i < n
      invariant 0 <= i <= n
      invariant ScanRows(RowOutcome, data, i) == Ok(results)
    {
      var row := ReadRow(data, i);
      if row.Err? {
        ScanFailurePersists(RowOutcome, data, i + 1, n);
        return Err(row.error);
      }
      if row.value.Some? {
        results := results + [row.value.value];
      } else {
        assert results + [] == results;
      }
      i := i + 1;
    }
    return Ok(results);
  }

  /** One iteration of the loop: the stripped text, and the box columns only when it is non-empty. */
  method ReadRow(data: Table, i: nat) returns (row: Result<Option<OcrItem>>)
    ensures row == RowOutcome(data, i)
  {
    if i >= |data.text| {
      return Err(IndexError);
    }
    var text := Strip(data.text[i]);
    if text == [] {
      return Ok(None);
    }
    if i >= |data.left| || i >= |data.top| || i >= |data.width| || i >= |data.height| {
      return Err(IndexError);
    }
    var x, y, w, h := data.left[i], data.top[i], data.width[i], data.height[i];
    return Ok(Some(OcrItem(text, (x, y, w, h))));
  }

  predicate HasText(r: Row) {
    Strip(r.text) != []
  }

  /** The kept entry: the stripped text and the box as Tesseract gives it. */
  function AsGiven(r: Row): OcrItem {
    OcrItem(Strip(r.text), (r.left, r.top, r.width, r.height))
  }

  lemma {:induction false} ScanOfRectangular(t: Table, n: nat)
    requires Rectangular(t) && n <= |t.level|
    ensures ScanRows(RowOutcome, t, n) == Ok(FilterMap(Rows(t)[..n], HasText, AsGiven))
  {
    if n > 0 {
      ScanOfRectangular(t, n - 1);
      assert Rows(t)[..n][..n - 1] == Rows(t)[..n - 1];
      assert Rows(t)[..n][n - 1] == Rows(t)[n - 1];
    }
  }

  /**
   * On a well-formed table the result lists, in table order, exactly the rows
   * whose stripped text is non-empty, each as its stripped text and its
   * `(left, top, width, height)` box.
   */
  lemma ExtractKeepsRowsWithText(t: Table)
    requires Rectangular(t)
    ensures TextWithBoxes(Ok(t)) == Ok(FilterMap(Rows(t), HasText, AsGiven))
    ensures exists idx :: Enumerates(TextWithBoxes(Ok(t)).value, Rows(t), HasText, AsGiven, idx)
  {
    ScanOfRectangular(t, |t.level|);
    assert Rows(t)[..|t.level|] == Rows(t);
    FilterMapEnumerates(Rows(t), HasText, AsGiven);
  }

  /** The stored texts are non-empty and already stripped. */
  lemma StoredTextIsStripped(t: Table)
    requires TextWithBoxes(Ok(t)).Ok?
    ensures forall item :: item in TextWithBoxes(Ok(t)).value ==> item.text != [] && Strip(item.text) == item.text
  {
    StrippedScan(t, |t.level|);
  }

  lemma {:induction false} StrippedScan(t: Table, n: nat)
    requires ScanRows(RowOutcome, t, n).Ok?
    ensures forall item :: item in ScanRows(RowOutcome, t, n).value ==> item.text != [] && Strip(item.text) == item.text
  {
    if n > 0 {
      StrippedScan(t, n - 1);
      if RowOutcome(t, n - 1).Ok? && RowOutcome(t, n - 1).value.Some? {
        StripIdempotent(t.text[n - 1]);
      }
    }
  }

  /** The result never has more entries than the table has rows. */
  lemma AtMostOneEntryPerRow(t: Table)
    requires TextWithBoxes(Ok(t)).Ok?
    ensures |TextWithBoxes(Ok(t)).value| <= |t.level|
  {
    ScanKeepsAtMostOnePerRow(RowOutcome, t, |t.level|);
  }

  /** Confidence plays no part: any `conf` column gives the same result. */
  lemma {:induction false} ConfidenceIgnored(t: Table, conf: seq<real>, n: nat)
    ensures ScanRows(RowOutcome, t.(conf := conf), n) == ScanRows(RowOutcome, t, n)
  {
    if n > 0 {
      ConfidenceIgnored(t, conf, n - 1);
      assert RowOutcome(t.(conf := conf), n - 1) == RowOutcome(t, n - 1);
    }
  }
}
