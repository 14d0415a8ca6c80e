/** What `pytesseract.image_to_data(image, output_type=Output.DICT)` returns: one column per field. */
module OcrTable {
  import opened Wrappers
  import opened Seqs

  /** The columns the modelled loops read; `conf` holds numbers (Tesseract writes -1 for non-words). */
  datatype Table = Table(
    level: seq<int>,
    conf: seq<real>,
    text: seq<string>,
    left: seq<int>,
    top: seq<int>,
    width: seq<int>,
    height: seq<int>)

  /** A four-number box; which four numbers depends on the caller. */
  type Box = (int, int, int, int)

  /** One `{'text': ..., 'box': ...}` entry of an OCR result. */
  datatype OcrItem = OcrItem(text: string, box: Box)

  /** One row of a table whose columns are all long enough. */
  datatype Row = Row(conf: real, text: string, left: int, top: int, width: int, height: int)

  /** Every column has an entry for every index the loop visits, `range(len(data['level']))`. */
  predicate Rectangular(t: Table) {
    var n := |t.level|;
    |t.conf| >= n && |t.text| >= n && |t.left| >= n && |t.top| >= n && |t.width| >= n && |t.height| >= n
  }

  function Rows(t: Table): (rows: seq<Row>)
    requires Rectangular(t)
    ensures |rows| == |t.level|
  {
    seq(|t.level|, i requires 0 <= i < |t.level| =>
      Row(t.conf[i], t.text[i], t.left[i], t.top[i], t.width[i], t.height[i]))
  }

  /** `int(c)` on a float: truncation toward zero. */
  function Truncate(c: real): int {
    if c >= 0.0 then c.Floor else -((-c).Floor)
  }

  /** `int(conf) > 60` holds exactly for confidences of at least 61. */
  lemma ConfidenceThreshold(c: real)
    ensures Truncate(c) > 60 <==> c >= 61.0
  {
  }

  /**
   * The first `n` iterations of a loop over the rows, where `outcome(t, i)`
   * is what iteration `i` does: keep an entry, skip the row, or raise.
   * The entries kept so far, or the first exception.
   */
  function ScanRows(outcome: (Table, nat) -> Result<Option<OcrItem>>, t: Table, n: nat): Result<seq<OcrItem>> {
    if n == 0 then Ok([])
    else match ScanRows(outcome, t, n - 1)
      case Err(x) => Err(x)
      case Ok(acc) =>
        (match outcome(t, n - 1)
         case Err(x) => Err(x)
         case Ok(o) => Ok(acc + (if o.Some? then [o.value] else [])))
  }

  lemma {:induction false} ScanFailurePersists(outcome: (Table, nat) -> Result<Option<OcrItem>>, t: Table, k: nat, n: nat)
    requires k <= n && ScanRows(outcome, t, k).Err?
    ensures ScanRows(outcome, t, n) == ScanRows(outcome, t, k)
    decreases n - k
  {
    if k < n {
      ScanFailurePersists(outcome, t, k + 1, n);
    }
  }

  /** The loop raises exactly when some iteration raises. */
  lemma {:induction false} ScanFailsIffSomeRowFails(outcome: (Table, nat) -> Result<Option<OcrItem>>, t: Table, n: nat)
    ensures ScanRows(outcome, t, n).Err? <==> exists i :: 0 <= i < n && outcome(t, i).Err?
  {
    if n > 0 {
      ScanFailsIffSomeRowFails(outcome, t, n - 1);
      if outcome(t, n - 1).Err? {
        assert 0 <= n - 1 < n && outcome(t, n - 1).Err?;
      }
      if exists i :: 0 <= i < n && outcome(t, i).Err? {
        var i :| 0 <= i < n && outcome(t, i).Err?;
        if i < n - 1 {
          assert ScanRows(outcome, t, n - 1).Err?;
        }
      }
    }
  }

  /** The loop keeps at most one entry per row. */
  lemma {:induction false} ScanKeepsAtMostOnePerRow(outcome: (Table, nat) -> Result<Option<OcrItem>>, t: Table, n: nat)
    ensures ScanRows(outcome, t, n).Ok? ==> |ScanRows(outcome, t, n).value| <= n
  {
    if n > 0 {
      ScanKeepsAtMostOnePerRow(outcome, t, n - 1);
    }
  }
}
