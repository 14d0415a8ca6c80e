/**
 * The older analyzer: span records from six patterns and from spaCy, its own
 * substitution order, and `redact_boxes`, which draws on a freshly opened
 * image and reports the path it saved to.
 */
module AnalyzePiiContent {
  import opened Wrappers
  import opened Strings
  import opened Seqs
  import opened Regex
  import opened JsonValues
  import opened Substitution
  import opened SpacyDoc

  /** `{'type', 'text', 'start', 'end', 'confidence'}`, the record both detectors emit. */
  datatype SpanRecord = SpanRecord(kind: string, text: string, start: nat, end: nat, confidence: real)

  // ---------------------------------------------------------------------
  // detect_pii_regex

  /** Every table row is searched with `re.IGNORECASE`. */
  const PiiPatterns: seq<(string, Pattern)> := [
    ("email", Pattern(@"\b[A-Za-z0-9._%+-]+@[A-Za-z0-9.-]+\.[A-Z|a-z]{2,}\b", 0, true)),
    ("phone", Pattern(@"\b(?:\+?1[-.\s]?)?\(?([0-9]{3})\)?[-.\s]?([0-9]{3})[-.\s]?([0-9]{4})\b", 3, true)),
    ("ssn", Pattern(@"\b\d{3}-?\d{2}-?\d{4}\b", 0, true)),
    ("credit_card", Pattern(@"\b(?:\d{4}[-\s]?){3}\d{4}\b", 0, true)),
    ("ip_address", Pattern(@"\b(?:[0-9]{1,3}\.){3}[0-9]{1,3}\b", 0, true)),
    ("url", Pattern(@"https?://(?:[-\w.])+(?:[:\d]+)?(?:/(?:[\w/_.])*(?:\?(?:[\w&=%.])*)?(?:#(?:[\w.])*)?)?", 0, true))
  ]

  const RegexConfidence: real := 0.9

  /** The records of one category: one per match of its pattern over the whole text, in match order. */
  function Block(e: Engine, row: (string, Pattern), text: string): (b: seq<SpanRecord>)
    ensures |b| == |e.finditer(row.1, text)|
    ensures forall k :: 0 <= k < |b| ==>
      var m := e.finditer(row.1, text)[k];
      b[k] == SpanRecord(row.0, m.text, m.start, m.end, RegexConfidence)
  {
    var ms := e.finditer(row.1, text);
    seq(|ms|, k requires 0 <= k < |ms| => SpanRecord(row.0, ms[k].text, ms[k].start, ms[k].end, RegexConfidence))
  }

  /** The blocks of the rows of `table`, in table order. */
  function RegexRecords(e: Engine, table: seq<(string, Pattern)>, text: string): seq<SpanRecord> {
    if |table| == 0 then []
    else RegexRecords(e, table[..|table| - 1], text) + Block(e, table[|table| - 1], text)
  }

  method DetectPiiRegex(e: Engine, text: string) returns (detected: seq<SpanRecord>)
    ensures detected == RegexRecords(e, PiiPatterns, text)
  {
    detected := [];
    var i := 0;
    while i < |PiiPatterns|
      invariant 0 <= i <= |PiiPatterns|
      invariant detected == RegexRecords(e, PiiPatterns[..i], text)
    {
      assert PiiPatterns[..i + 1][..i] == PiiPatterns[..i];
      var (piiType, pattern) := PiiPatterns[i];
      var matches := e.finditer(pattern, text);
      ghost var before := detected;
      var j := 0;
      while j < |matches|
        invariant 0 <= j <= |matches|
        invariant detected == before + Block(e, PiiPatterns[i], text)[..j]
      {
        var m := matches[j];
        assert Block(e, PiiPatterns[i], text)[..j + 1] == Block(e, PiiPatterns[i], text)[..j] + [SpanRecord(piiType, m.text, m.start, m.end, 0.9)];
        detected := detected + [SpanRecord(piiType, m.text, m.start, m.end, 0.9)];
        j := j + 1;
      }
      assert Block(e, PiiPatterns[i], text)[..j] == Block(e, PiiPatterns[i], text);
      i := i + 1;
    }
    assert PiiPatterns[..i] == PiiPatterns;
  }

  /** Where the block of row `j` starts: after the blocks of the rows before it. */
  function BlockStart(e: Engine, table: seq<(string, Pattern)>, text: string, j: nat): nat
    requires j <= |table|
  {
    |RegexRecords(e, table[..j], text)|
  }

  lemma {:induction false} RegexRecordsPrefix(e: Engine, table: seq<(string, Pattern)>, text: string, j: nat)
    requires j <= |table|
    ensures |RegexRecords(e, table[..j], text)| <= |RegexRecords(e, table, text)|
    ensures RegexRecords(e, table, text)[..|RegexRecords(e, table[..j], text)|] == RegexRecords(e, table[..j], text)
    decreases |table| - j
  {
    if j == |table| {
      assert table[..j] == table;
    } else {
      var n := |table| - 1;
      assert table[..n][..j] == table[..j];
      RegexRecordsPrefix(e, table[..n], text, j);
    }
  }

  /**
   * Records come grouped by category in table order: the block of row `j`
   * follows the blocks of the rows before it, and holds, in match order, one
   * record per match of row `j`'s pattern over the whole text, with that
   * match's text, start and end and confidence 0.9. Each pattern scans the
   * whole text, so one span can appear under several categories.
   */
  lemma RecordsGroupedByCategory(e: Engine, table: seq<(string, Pattern)>, text: string, j: nat)
    requires j < |table|
    ensures BlockStart(e, table, text, j) + |e.finditer(table[j].1, text)| == BlockStart(e, table, text, j + 1)
         <= |RegexRecords(e, table, text)|
    ensures RegexRecords(e, table, text)[BlockStart(e, table, text, j)..BlockStart(e, table, text, j + 1)]
         == Block(e, table[j], text)
  {
    var r := RegexRecords(e, table, text);
    var before := RegexRecords(e, table[..j], text);
    assert table[..j + 1][..j] == table[..j];
    assert RegexRecords(e, table[..j + 1], text) == before + Block(e, table[j], text);
    RegexRecordsPrefix(e, table, text, j + 1);
    assert r[..|before| + |Block(e, table[j], text)|] == before + Block(e, table[j], text);
    assert r[|before|..|before| + |Block(e, table[j], text)|] == (before + Block(e, table[j], text))[|before|..];
  }

  // ---------------------------------------------------------------------
  // SpacyNer.detect_entities

  const EntityLabels: seq<string> := ["PERSON", "ORG", "GPE", "DATE", "MONEY", "CARDINAL"]
  const EntityConfidence: real := 0.8

  predicate Kept(en: Entity) {
    en.tag in EntityLabels
  }

  function EntityRecord(en: Entity): SpanRecord {
    SpanRecord(Lower(en.tag), en.text, en.startChar, en.endChar, EntityConfidence)
  }

  function EntityRecords(nlp: Pipeline, text: string): Result<seq<SpanRecord>> {
    match nlp
    case None => Ok([])
    case Some(run) =>
      match run(text)
      case Err(x) => Err(x)
      case Ok(ents) => Ok(FilterMap(ents, Kept, EntityRecord))
  }

  method DetectEntities(nlp: Pipeline, text: string) returns (r: Result<seq<SpanRecord>>)
    ensures r == EntityRecords(nlp, text)
  {
    if nlp.None? {
      return Ok([]);
    }
    var doc := nlp.value(text);
    if doc.Err? {
      return Err(doc.error);
    }
    var ents := doc.value;
    var entities := [];
    var i := 0;
    while i < |ents|
      invariant 0 <= i <= |ents|
      invariant entities == FilterMap(ents[..i], Kept, EntityRecord)
    {
      assert ents[..i + 1][..i] == ents[..i];
      var ent := ents[i];
      if ent.tag in EntityLabels {
        entities := entities + [SpanRecord(Lower(ent.tag), ent.text, ent.startChar, ent.endChar, 0.8)];
      }
      i := i + 1;
    }
    assert ents[..i] == ents;
    return Ok(entities);
  }

  /**
   * Without a model there are no records, and an exception from `nlp(text)`
   * propagates. Otherwise the records are those of the entities labelled
   * PERSON, ORG, GPE, DATE, MONEY or CARDINAL, in document order, each with
   * the lower-cased label, its span and confidence 0.8.
   */
  lemma EntityRecordsFilter(nlp: Pipeline, text: string)
    ensures nlp.None? ==> EntityRecords(nlp, text) == Ok([])
    ensures nlp.Some? ==> (EntityRecords(nlp, text).Err? <==> nlp.value(text).Err?)
    ensures nlp.Some? && nlp.value(text).Err? ==> EntityRecords(nlp, text) == Err(nlp.value(text).error)
    ensures nlp.Some? && nlp.value(text).Ok? ==>
      exists idx :: Enumerates(EntityRecords(nlp, text).value, nlp.value(text).value, Kept, EntityRecord, idx)
    ensures EntityRecords(nlp, text).Ok? ==> forall r :: r in EntityRecords(nlp, text).value ==>
      r.confidence == EntityConfidence && r.kind in ["person", "org", "gpe", "date", "money", "cardinal"]
  {
    if nlp.Some? && nlp.value(text).Ok? {
      var ents := nlp.value(text).value;
      var rs := FilterMap(ents, Kept, EntityRecord);
      assert EntityRecords(nlp, text).value == rs;
      FilterMapEnumerates(ents, Kept, EntityRecord);
      var idx :| Enumerates(rs, ents, Kept, EntityRecord, idx);
      forall r | r in rs
        ensures r.confidence == EntityConfidence && r.kind in ["person", "org", "gpe", "date", "money", "cardinal"]
      {
        var k :| 0 <= k < |rs| && rs[k] == r;
        LowerOfKept(ents[idx[k]]);
      }
    }
  }

  lemma LowerOfKept(en: Entity)
    requires Kept(en)
    ensures EntityRecord(en).kind in ["person", "org", "gpe", "date", "money", "cardinal"]
  {
    LowerOfLabel(en.tag);
  }

  // ---------------------------------------------------------------------
  // replace_numerical_pii

  /** This copy's table: phone first, then ssn before the card and aadhaar numbers; no flags. */
  const NumericalRules: seq<Rule> := [
    Rule("phone", Pattern(@"\b(?:\+?1[-.\s]?)?\(?([0-9]{3})\)?[-.\s]?([0-9]{3})[-.\s]?([0-9]{4})\b", 3, false)),
    Rule("ssn", Pattern(@"\b\d{3}-?\d{2}-?\d{4}\b", 0, false)),
    Rule("credit_card", Pattern(@"\b(?:\d{4}[-\s]?){3}\d{4}\b", 0, false)),
    Rule("aadhaar", Pattern(@"\b\d{4}\s\d{4}\s\d{4}\b", 0, false)),
    Rule("account_number", Pattern(@"\b\d{9,18}\b", 0, false))
  ]

  method ReplaceNumericalPii(e: Engine, text: string, dummy: map<string, Json>) returns (r: Result<string>)
    ensures r == Applied(e, NumericalRules, dummy, text)
  {
    r := Substitute(e, NumericalRules, dummy, text);
  }

  /**
   * Empty dummy data leaves the text unchanged. Otherwise only the present
   * categories run, in the order phone, ssn, credit_card, aadhaar,
   * account_number: with values for ssn and credit_card, say, the ssn
   * substitution runs first and the card substitution sees its output.
   */
  lemma SubstitutionOrder(e: Engine, text: string, ssn: string, card: string)
    ensures Applied(e, NumericalRules, map[], text) == Ok(text)
    ensures var dummy := map["ssn" := JString(ssn), "credit_card" := JString(card)];
      Applied(e, NumericalRules, dummy, text)
        == var afterSsn := Sub(e, NumericalRules[1].pattern, ssn, text);
           if afterSsn.Err? then afterSsn else Sub(e, NumericalRules[2].pattern, card, afterSsn.value)
  {
    EmptyDummyIsIdentity(e, NumericalRules, text);
    var dummy := map["ssn" := JString(ssn), "credit_card" := JString(card)];
    var afterSsn := Sub(e, NumericalRules[1].pattern, ssn, text);
    var afterCard := if afterSsn.Err? then afterSsn else Sub(e, NumericalRules[2].pattern, card, afterSsn.value);
    assert NumericalRules[..1][..0] == NumericalRules[..0];
    assert Applied(e, NumericalRules[..1], dummy, text) == Ok(text);
    assert NumericalRules[..2][..1] == NumericalRules[..1];
    assert Applied(e, NumericalRules[..2], dummy, text) == afterSsn;
    assert NumericalRules[..3][..2] == NumericalRules[..2];
    assert Applied(e, NumericalRules[..3], dummy, text) == afterCard;
    assert NumericalRules[..4][..3] == NumericalRules[..3];
    assert Applied(e, NumericalRules[..4], dummy, text) == afterCard;
    assert NumericalRules[..5][..4] == NumericalRules[..4];
    assert NumericalRules[..5] == NumericalRules;
  }

  // ---------------------------------------------------------------------
  // redact_boxes

  /**
   * Pillow, on an image type of the caller's choosing: opening a file,
   * `draw.rectangle(coords, fill='black')`, and saving; each gives its
   * result or the exception it raised.
   */
  datatype Imaging<!Img> = Imaging(
    open: string -> Result<Img>,
    rectangle: (Img, seq<Json>) -> Result<Img>,
    save: (Img, string) -> Result<()>)

  predicate HasBbox(box: map<string, Json>) {
    "bbox" in box
  }

  const TooManyValues := "too many values to unpack (expected 4)"
  const NotIterable := "cannot unpack non-iterable "

  /** Iterating a string: each character as a one-character string. */
  function Characters(s: string): (r: seq<Json>)
    ensures |r| == |s| && forall i :: 0 <= i < |s| ==> r[i] == JString([s[i]])
  {
    seq(|s|, i requires 0 <= i < |s| => JString([s[i]]))
  }

  /** The error of unpacking `n` values into four names. */
  function CountMismatch(n: nat): PyError
    requires n != 4
  {
    if n > 4 then ValueError(TooManyValues)
    else ValueError("not enough values to unpack (expected 4, got " + [('0' as int + n) as char] + ")")
  }

  /**
   * `x1, y1, x2, y2 = v`: a list or a string of exactly four items unpacks
   * (a string into its characters), another length fails on the count, and a
   * value that is not iterable fails before counting. An object iterates its
   * keys: with four of them Pillow is handed strings as coordinates, which
   * the model reports as a drawing failure without fixing the key order.
   */
  function Unpacked(v: Json): (r: Result<seq<Json>>)
    ensures r.Ok? <==> (v.JArray? && |v.items| == 4) || (v.JString? && |v.s| == 4)
    ensures r.Ok? ==> |r.value| == 4
    ensures v.JArray? && |v.items| == 4 ==> r == Ok(v.items)
    ensures v.JString? && |v.s| == 4 ==> r == Ok(Characters(v.s))
    ensures v.JArray? && |v.items| > 4 ==> r == Err(ValueError(TooManyValues))
    ensures v.JNull? || v.JBool? || v.JNumber? ==> r == Err(TypeError(NotIterable + TypeName(v) + " object"))
  {
    match v
    case JArray(items) => if |items| == 4 then Ok(items) else Err(CountMismatch(|items|))
    case JString(s) =>
      if |s| == 4 then Ok(Characters(s))
      else Err(CountMismatch(|s|))
    case JObject(fields) =>
      if |fields| == 4 then Err(LibraryError("rectangle coordinates taken from the keys of a 'bbox' object"))
      else Err(CountMismatch(|fields|))
    case _ => Err(TypeError(NotIterable + TypeName(v) + " object"))
  }

  /** One iteration: a box without 'bbox' is skipped; otherwise its value is unpacked and the rectangle drawn. */
  function DrawBox<Img>(io: Imaging<Img>, img: Img, box: map<string, Json>): Result<Img> {
    if "bbox" !in box then Ok(img)
    else match Unpacked(box["bbox"])
      case Err(x) => Err(x)
      case Ok(coords) => io.rectangle(img, coords)
  }

  /** The boxes drawn in list order, stopping at the first exception. */
  function DrawAll<Img>(io: Imaging<Img>, img: Img, boxes: seq<map<string, Json>>): Result<Img> {
    if |boxes| == 0 then Ok(img)
    else match DrawAll(io, img, boxes[..|boxes| - 1])
      case Err(x) => Err(x)
      case Ok(drawn) => DrawBox(io, drawn, boxes[|boxes| - 1])
  }

  /** `image_path.replace('.', '_redacted.')`. */
  function DefaultOutputPath(imagePath: string): string {
    ReplaceAll(imagePath, ".", "_redacted.")
  }

  /** What `redact_boxes` returns: the path it saved to, or `image_path` after any exception. */
  function RedactedPath<Img>(io: Imaging<Img>, imagePath: string, boxes: seq<map<string, Json>>, outputPath: Option<string>): string {
    match io.open(imagePath)
    case Err(_) => imagePath
    case Ok(img) =>
      match DrawAll(io, img, boxes)
      case Err(_) => imagePath
      case Ok(drawn) =>
        var path := if outputPath.None? || outputPath.value == "" then DefaultOutputPath(imagePath) else outputPath.value;
        if io.save(drawn, path).Err? then imagePath else path
  }

  method RedactBoxes<Img>(io: Imaging<Img>, imagePath: string, boxes: seq<map<string, Json>>, outputPath: Option<string>)
    returns (path: string)
    ensures path == RedactedPath(io, imagePath, boxes, outputPath)
  {
    var openResult := io.open(imagePath);
    if openResult.Err? {
      return imagePath;
    }
    var image := openResult.value;
    var i := 0;
    while i < |boxes|
      invariant 0 <= i <= |boxes|
      invariant DrawAll(io, openResult.value, boxes[..i]) == Ok(image)
    {
      assert boxes[..i + 1][..i] == boxes[..i];
      var box := boxes[i];
      if "bbox" in box {
        var coords := Unpacked(box["bbox"]);
        if coords.Err? {
          DrawFailurePersists(io, openResult.value, boxes, i + 1);
          return imagePath;
        }
        var drawn := io.rectangle(image, coords.value);
        if drawn.Err? {
          DrawFailurePersists(io, openResult.value, boxes, i + 1);
          return imagePath;
        }
        image := drawn.value;
      }
      i := i + 1;
    }
    assert boxes[..i] == boxes;
    path := if outputPath.None? || outputPath.value == "" then DefaultOutputPath(imagePath) else outputPath.value;
    if io.save(image, path).Err? {
      return imagePath;
    }
  }

  lemma {:induction false} DrawFailurePersists<Img>(io: Imaging<Img>, img: Img, boxes: seq<map<string, Json>>, k: nat)
    requires k <= |boxes| && DrawAll(io, img, boxes[..k]).Err?
    ensures DrawAll(io, img, boxes).Err?
    decreases |boxes| - k
  {
    if k < |boxes| {
      assert boxes[..k + 1][..k] == boxes[..k];
      DrawFailurePersists(io, img, boxes, k + 1);
    } else {
      assert boxes[..k] == boxes;
    }
  }

  /** Boxes without a 'bbox' key play no part: dropping them changes nothing. */
  lemma {:induction false} BoxesWithoutBboxSkipped<Img>(io: Imaging<Img>, img: Img, boxes: seq<map<string, Json>>)
    ensures DrawAll(io, img, boxes) == DrawAll(io, img, FilterMap(boxes, HasBbox, (b: map<string, Json>) => b))
  {
    if |boxes| > 0 {
      var n := |boxes| - 1;
      var id := (b: map<string, Json>) => b;
      BoxesWithoutBboxSkipped(io, img, boxes[..n]);
      var kept := FilterMap(boxes[..n], HasBbox, id);
      if HasBbox(boxes[n]) {
        assert FilterMap(boxes, HasBbox, id) == kept + [boxes[n]];
        assert (kept + [boxes[n]])[..|kept|] == kept;
      } else {
        assert FilterMap(boxes, HasBbox, id) == kept;
      }
    }
  }

  /** Without an output path, each '.' of the image path becomes '_redacted.'. */
  lemma DefaultPathRewritesEveryDot(imagePath: string)
    ensures DefaultOutputPath(imagePath) == ExpandChar(imagePath, '.', "_redacted.")
  {
    ReplaceCharIsExpand(imagePath, '.', "_redacted.");
  }

  /**
   * So every dot is rewritten, not only the one before the extension:
   * "a.b.png" becomes "a_redacted.b_redacted.png".
   */
  lemma DefaultPathOfTwoDots(a: string, b: string, ext: string)
    requires '.' !in a && '.' !in b && '.' !in ext
    ensures DefaultOutputPath(a + "." + b + "." + ext) == a + "_redacted." + b + "_redacted." + ext
  {
    DefaultPathRewritesEveryDot(a + "." + b + "." + ext);
    ExpandTwoSeparators(a, b, ext, '.', "_redacted.");
  }

  /** A failure anywhere (opening, a box, drawing, saving) gives back `image_path`. */
  lemma FailureGivesImagePath<Img>(io: Imaging<Img>, imagePath: string, boxes: seq<map<string, Json>>, outputPath: Option<string>)
    requires || io.open(imagePath).Err?
             || DrawAll(io, io.open(imagePath).value, boxes).Err?
             || var path := if outputPath.None? || outputPath.value == "" then DefaultOutputPath(imagePath) else outputPath.value;
                io.save(DrawAll(io, io.open(imagePath).value, boxes).value, path).Err?
    ensures RedactedPath(io, imagePath, boxes, outputPath) == imagePath
  {
  }
}
