/**
 * The Flask application: upload validation and naming, and `process_file`,
 * which joins the OCR words, records every regex match and NER entity, and
 * collects the box of every OCR item whose text contains a finding, then the
 * signature boxes, before deciding the response.
 */
module App {
  import opened Wrappers
  import opened Strings
  import opened Seqs
  import opened JsonValues
  import opened OcrTable
  import opened SpacyDoc
  import PiiAnalyzer

  // ---------------------------------------------------------------------
  // Startup: MODULES_LOADED

  /** The six names `app.py` imports from `pii_analyzer`. */
  const ImportedNames: seq<string> := ["extract_text_with_boxes", "detect_pii_regex", "YoloSignatureDetector",
                                       "SpacyNer", "redact_boxes", "log_redaction"]

  /** The module-level names `pii_analyzer.py` defines. */
  const AnalyzerNames: set<string> := {
    "re", "spacy", "List", "Dict", "Any", "logging", "Image", "ImageDraw", "ImageFilter", "json", "os", "nlp",
    "extract_text_with_boxes", "detect_pii_patterns", "YoloSignatureDetector", "SpacyNer", "redact_boxes",
    "log_redaction", "load_dummy_data", "replace_numerical_pii", "analyze_and_sanitize_document"}

  /** `from pii_analyzer import (...)` succeeds, setting MODULES_LOADED, only when every imported name exists. */
  predicate ModulesLoaded(defined: set<string>) {
    forall k :: 0 <= k < |ImportedNames| ==> ImportedNames[k] in defined
  }

  /** `detect_pii_regex` is not among the analyzer's names, so the import fails and MODULES_LOADED is False. */
  lemma ModulesNeverLoad()
    ensures !ModulesLoaded(AnalyzerNames)
    ensures "detect_pii_regex" !in AnalyzerNames && "detect_pii_patterns" in AnalyzerNames
  {
    assert ImportedNames[1] == "detect_pii_regex";
  }

  // ---------------------------------------------------------------------
  // allowed_file

  const AllowedExtensions: set<string> := {"png", "jpg", "jpeg", "pdf", "docx", "txt", "csv"}

  /** `'.' in filename and filename.rsplit('.', 1)[1].lower() in ALLOWED_EXTENSIONS`. */
  function AllowedFile(filename: string): bool {
    match LastIndexOf(filename, '.')
    case None => false
    case Some(i) => Lower(filename[i + 1..]) in AllowedExtensions
  }

  /**
   * A name is allowed exactly when it has a dot and the lower-cased text
   * after its last dot is one of the seven extensions.
   */
  lemma AllowedFileIff(filename: string)
    ensures AllowedFile(filename) <==>
      exists i :: 0 <= i < |filename| && filename[i] == '.' && '.' !in filename[i + 1..]
                  && Lower(filename[i + 1..]) in AllowedExtensions
  {
    var accept := ext => Lower(ext) in AllowedExtensions;
    LastSegmentIff(filename, accept);
    assert forall i :: LastSegmentAt(filename, i, accept) <==>
      0 <= i < |filename| && filename[i] == '.' && '.' !in filename[i + 1..] && Lower(filename[i + 1..]) in AllowedExtensions;
  }

  /** A test on the text after the last '.' holds iff some '.' with no '.' after it is followed by text passing it. */
  lemma LastSegmentIff(filename: string, accept: string -> bool)
    ensures (match LastIndexOf(filename, '.') case None => false case Some(j) => accept(filename[j + 1..])) <==>
      exists i :: LastSegmentAt(filename, i, accept)
  {
    match LastIndexOf(filename, '.')
    case None =>
      forall i | 0 <= i < |filename| ensures filename[i] != '.' {
        assert filename[i] in filename;
      }
    case Some(j) =>
      if exists i :: LastSegmentAt(filename, i, accept) {
        var i :| LastSegmentAt(filename, i, accept);
        LastDotUnique(filename, i, j);
      }
      if accept(filename[j + 1..]) {
        assert LastSegmentAt(filename, j, accept);
      }
  }

  /** Position `i` holds the last '.' of `filename`, and the text after it passes `accept`. */
  predicate LastSegmentAt(filename: string, i: int, accept: string -> bool) {
    0 <= i < |filename| && filename[i] == '.' && '.' !in filename[i + 1..] && accept(filename[i + 1..])
  }

  /** Two positions of `c` that each have no `c` after them are the same position. */
  lemma LastDotUnique(s: string, i: nat, j: nat)
    requires i < |s| && j < |s| && s[i] == '.' && s[j] == '.'
    requires '.' !in s[i + 1..] && '.' !in s[j + 1..]
    ensures i == j
  {
    forall t | i < t < |s| ensures s[t] != '.' {
      assert s[t] == s[i + 1..][t - i - 1];
    }
    forall t | j < t < |s| ensures s[t] != '.' {
      assert s[t] == s[j + 1..][t - j - 1];
    }
  }

  /** Only the last extension counts, whatever comes before it. */
  lemma OnlyLastExtensionCounts(stem: string, ext: string)
    requires '.' !in ext
    ensures AllowedFile(stem + "." + ext) <==> Lower(ext) in AllowedExtensions
  {
    var f := stem + "." + ext;
    assert f[|stem|] == '.' && f[|stem| + 1..] == ext;
    AllowedFileIff(f);
    if AllowedFile(f) {
      var i :| 0 <= i < |f| && f[i] == '.' && '.' !in f[i + 1..] && Lower(f[i + 1..]) in AllowedExtensions;
      LastDotUnique(f, i, |stem|);
    }
  }

  /** "name.pdf.exe" is rejected, "name.PNG" accepted, and a name without a dot rejected. */
  lemma AllowedFileExamples(stem: string)
    requires '.' !in stem
    ensures !AllowedFile(stem + ".pdf.exe")
    ensures AllowedFile(stem + ".PNG")
    ensures !AllowedFile(stem)
  {
    var exe, png := "exe", "PNG";
    assert stem + ".pdf.exe" == (stem + ".pdf") + "." + exe;
    assert stem + ".PNG" == stem + "." + png;
    OnlyLastExtensionCounts(stem + ".pdf", exe);
    OnlyLastExtensionCounts(stem, png);
    ExtensionVerdicts();
    assert LastIndexOf(stem, '.') == None;
  }

  lemma ExtensionVerdicts()
    ensures Lower("exe") !in AllowedExtensions && Lower("PNG") in AllowedExtensions
  {
    assert Lower("PNG") == "png";
    assert Lower("exe") == "exe";
  }

  // ---------------------------------------------------------------------
  // upload_file

  /** A reply of `/api/upload`: an error, or the name the file was stored under. */
  datatype UploadReply = UploadError(code: int, message: string) | Uploaded(filename: string)

  /** The stored name: the `%Y%m%d_%H%M%S` timestamp, an underscore, then the secured name. */
  function StoredName(timestamp: string, secured: string): (name: string)
    ensures |name| == |timestamp| + 1 + |secured|
  {
    timestamp + "_" + secured
  }

  /** The stored name gives back its timestamp and the secured name, since the timestamp has a fixed width. */
  lemma StoredNameSplits(timestamp: string, secured: string)
    requires |timestamp| == 15
    ensures StoredName(timestamp, secured)[..15] == timestamp
    ensures StoredName(timestamp, secured)[15] == '_'
    ensures StoredName(timestamp, secured)[16..] == secured
  {
  }

  /**
   * `upload_file`: `hasFile` is whether the form has a 'file' part,
   * `secure` is werkzeug's `secure_filename`, `listing` is
   * `', '.join(ALLOWED_EXTENSIONS)` (whose order depends on string hashing),
   * and `saveError` the message of an exception raised while saving.
   */
  function UploadFile(hasFile: bool, filename: string, secure: string -> string, timestamp: string,
                      listing: string, saveError: Option<string>): (r: UploadReply)
    ensures r.Uploaded? <==> hasFile && filename != "" && AllowedFile(filename) && saveError.None?
    ensures r.Uploaded? ==> r.filename == StoredName(timestamp, secure(filename))
  {
    if !hasFile then UploadError(400, "No file provided")
    else if filename == "" then UploadError(400, "No file selected")
    else if !AllowedFile(filename) then UploadError(400, "File type not allowed. Allowed: " + listing)
    else match saveError
      case Some(m) => UploadError(500, "Upload failed: " + m)
      case None => Uploaded(StoredName(timestamp, secure(filename)))
  }

  // ---------------------------------------------------------------------
  // process_file: the correlation loops

  /** One entry of `pii_found`. */
  datatype PiiRecord = PiiRecord(text: string, kind: string)

  /** `" ".join([item['text'] for item in ocr_results])`. */
  function FullText(items: seq<OcrItem>): string {
    Join(" ", Texts(items))
  }

  function Texts(items: seq<OcrItem>): (texts: seq<string>)
    ensures |texts| == |items| && forall k :: 0 <= k < |items| ==> texts[k] == items[k].text
  {
    seq(|items|, k requires 0 <= k < |items| => items[k].text)
  }

  /** When no OCR text holds a space, splitting the full text on spaces gives the item texts back in OCR order. */
  lemma FullTextSplits(items: seq<OcrItem>)
    requires |items| > 0
    requires forall k :: 0 <= k < |items| ==> ' ' !in items[k].text
    ensures SplitOn(FullText(items), ' ') == Texts(items)
  {
    assert [' '] == " ";
    SplitJoinRoundTrip(Texts(items), ' ');
  }

  /** `finding in item['text']`. */
  function Mentions(finding: string): OcrItem -> bool {
    (item: OcrItem) => Contains(item.text, finding)
  }

  function BoxOf(item: OcrItem): Box {
    item.box
  }

  /** The boxes one finding contributes: one per OCR item containing it, in OCR order. */
  function BoxesFor(finding: string, items: seq<OcrItem>): seq<Box> {
    FilterMap(items, Mentions(finding), BoxOf)
  }

  /** A finding contained in k items contributes k boxes, each the box of such an item, in OCR order. */
  lemma BoxesForCountsItems(finding: string, items: seq<OcrItem>)
    ensures |BoxesFor(finding, items)| == Count(items, Mentions(finding))
    ensures exists idx :: Enumerates(BoxesFor(finding, items), items, Mentions(finding), BoxOf, idx)
  {
    FilterMapLength(items, Mentions(finding), BoxOf);
    FilterMapEnumerates(items, Mentions(finding), BoxOf);
  }

  function RegexFound(matches: seq<string>): (found: seq<PiiRecord>)
    ensures |found| == |matches|
  {
    seq(|matches|, k requires 0 <= k < |matches| => PiiRecord(matches[k], "regex"))
  }

  /** The boxes of the regex matches, match by match. */
  function RegexBoxes(matches: seq<string>, items: seq<OcrItem>): seq<Box> {
    if |matches| == 0 then []
    else RegexBoxes(matches[..|matches| - 1], items) + BoxesFor(matches[|matches| - 1], items)
  }

  /**
   * The NER loop over the entity dictionaries: `entity['text']` is read
   * first, then `entity['label']`, and a missing key raises `KeyError`.
   * The records and boxes it adds, or the first exception.
   */
  function NerPhase(entities: seq<map<string, string>>, items: seq<OcrItem>): Result<(seq<PiiRecord>, seq<Box>)> {
    if |entities| == 0 then Ok(([], []))
    else match NerPhase(entities[..|entities| - 1], items)
      case Err(x) => Err(x)
      case Ok((found, boxes)) =>
        var entity := entities[|entities| - 1];
        if "text" !in entity then Err(KeyError("text"))
        else if "label" !in entity then Err(KeyError("label"))
        else Ok((found + [PiiRecord(entity["text"], entity["label"])], boxes + BoxesFor(entity["text"], items)))
  }

  /** The detections and boxes of `process_file`: regex, then NER, then signatures. */
  function Correlated(items: seq<OcrItem>, matches: seq<string>, entities: seq<map<string, string>>,
                      signatures: seq<Box>): Result<(seq<PiiRecord>, seq<Box>)>
  {
    match NerPhase(entities, items)
    case Err(x) => Err(x)
    case Ok((nerFound, nerBoxes)) =>
      Ok((RegexFound(matches) + nerFound, RegexBoxes(matches, items) + nerBoxes + signatures))
  }

  method CorrelateDetections(items: seq<OcrItem>, matches: seq<string>, entities: seq<map<string, string>>,
                             signatures: seq<Box>) returns (r: Result<(seq<PiiRecord>, seq<Box>)>)
    ensures r == Correlated(items, matches, entities, signatures)
  {
    var boxesToRedact: seq<Box> := [];
    var piiFound: seq<PiiRecord> := [];
    var i := 0;
    while i < |matches|
      invariant 0 <= i <= |matches|
      invariant piiFound == RegexFound(matches[..i]) && boxesToRedact == RegexBoxes(matches[..i], items)
    {
      assert matches[..i + 1][..i] == matches[..i];
      var piiText := matches[i];
      piiFound := piiFound + [PiiRecord(piiText, "regex")];
      var found := CollectBoxes(piiText, items);
      boxesToRedact := boxesToRedact + found;
      i := i + 1;
    }
    assert matches[..i] == matches;
    ghost var regexFound, regexBoxes := piiFound, boxesToRedact;
    i := 0;
    while i < |entities|
      invariant 0 <= i <= |entities|
      invariant NerPhase(entities[..i], items).Ok?
      invariant piiFound == regexFound + NerPhase(entities[..i], items).value.0
      invariant boxesToRedact == regexBoxes + NerPhase(entities[..i], items).value.1
    {
      assert entities[..i + 1][..i] == entities[..i];
      var entity := entities[i];
      if "text" !in entity {
        NerFailurePersists(entities, items, i + 1);
        return Err(KeyError("text"));
      }
      if "label" !in entity {
        NerFailurePersists(entities, items, i + 1);
        return Err(KeyError("label"));
      }
      piiFound := piiFound + [PiiRecord(entity["text"], entity["label"])];
      var found := CollectBoxes(entity["text"], items);
      boxesToRedact := boxesToRedact + found;
      i := i + 1;
    }
    assert entities[..i] == entities;
    i := 0;
    while i < |signatures|
      invariant 0 <= i <= |signatures|
      invariant boxesToRedact == regexBoxes + NerPhase(entities, items).value.1 + signatures[..i]
    {
      boxesToRedact := boxesToRedact + [signatures[i]];
      assert signatures[..i + 1] == signatures[..i] + [signatures[i]];
      i := i + 1;
    }
    assert signatures[..i] == signatures;
    return Ok((piiFound, boxesToRedact));
  }

  /** The inner loop shared by the regex and NER phases: the boxes of the OCR items holding `finding`. */
  method CollectBoxes(finding: string, items: seq<OcrItem>) returns (boxes: seq<Box>)
    ensures boxes == BoxesFor(finding, items)
  {
    boxes := [];
    var j := 0;
    while j < |items|
      invariant 0 <= j <= |items|
      invariant boxes == BoxesFor(finding, items[..j])
    {
      assert items[..j + 1][..j] == items[..j];
      if Contains(items[j].text, finding) {
        boxes := boxes + [items[j].box];
      }
      j := j + 1;
    }
    assert items[..j] == items;
  }

  lemma {:induction false} NerFailurePersists(entities: seq<map<string, string>>, items: seq<OcrItem>, k: nat)
    requires k <= |entities| && NerPhase(entities[..k], items).Err?
    ensures NerPhase(entities, items) == NerPhase(entities[..k], items)
    decreases |entities| - k
  {
    if k < |entities| {
      assert entities[..k + 1][..k] == entities[..k];
      NerFailurePersists(entities, items, k + 1);
    } else {
      assert entities[..k] == entities;
    }
  }

  /**
   * The NER loop succeeds exactly when every entity has both a 'text' and a
   * 'label' key; it then adds one record per entity, in order, whether or
   * not any OCR item contains the entity's text.
   */
  lemma {:induction false} NerPhaseOkIff(entities: seq<map<string, string>>, items: seq<OcrItem>)
    ensures NerPhase(entities, items).Ok? <==> forall k :: 0 <= k < |entities| ==> "text" in entities[k] && "label" in entities[k]
    ensures NerPhase(entities, items).Ok? ==>
      var found := NerPhase(entities, items).value.0;
      |found| == |entities| && forall k :: 0 <= k < |entities| ==> found[k] == PiiRecord(entities[k]["text"], entities[k]["label"])
  {
    if |entities| > 0 {
      var n := |entities| - 1;
      NerPhaseOkIff(entities[..n], items);
      assert forall k :: 0 <= k < n ==> entities[..n][k] == entities[k];
    }
  }

  /**
   * The first entity without a 'text' or 'label' key decides the error, and
   * `pii_analyzer`'s `detect_pii` records carry only 'type' and 'text', so
   * any entity from it fails on 'label'.
   */
  lemma FirstEntityKeyDecides(entities: seq<map<string, string>>, items: seq<OcrItem>)
    requires |entities| > 0 && entities[0].Keys == {"type", "text"}
    ensures NerPhase(entities, items) == Err(KeyError("label"))
  {
    assert entities[..1][..0] == [];
    assert NerPhase(entities[..1], items) == Err(KeyError("label"));
    NerFailurePersists(entities, items, 1);
  }

  /**
   * The entity records `pii_analyzer`'s `SpacyNer.detect_pii` produces carry
   * no 'label' key, so the NER loop fails on the first of them.
   */
  lemma AnalyzerEntitiesFailOnLabel(run: string -> Result<seq<Entity>>, text: string, items: seq<OcrItem>)
    requires PiiAnalyzer.NerRecords(Some(run), text).Ok? && |PiiAnalyzer.NerRecords(Some(run), text).value| > 0
    ensures NerPhase(PiiAnalyzer.NerRecords(Some(run), text).value, items) == Err(KeyError("label"))
  {
    var ents := PiiAnalyzer.NerRecords(Some(run), text).value;
    PiiAnalyzer.NerRecordsShape(run, text);
    assert ents[0] in ents;
    FirstEntityKeyDecides(ents, items);
  }

  /**
   * When the correlation succeeds, every regex match and every entity adds
   * exactly one `pii_found` entry, regex entries first; the boxes are the
   * regex boxes, then the NER boxes, then the signature boxes.
   */
  lemma CorrelatedLayout(items: seq<OcrItem>, matches: seq<string>, entities: seq<map<string, string>>, signatures: seq<Box>)
    requires Correlated(items, matches, entities, signatures).Ok?
    ensures var (found, boxes) := Correlated(items, matches, entities, signatures).value;
      && |found| == |matches| + |entities|
      && (forall k :: 0 <= k < |matches| ==> found[k] == PiiRecord(matches[k], "regex"))
      && (forall k :: 0 <= k < |entities| ==>
            "text" in entities[k] && "label" in entities[k]
            && found[|matches| + k] == PiiRecord(entities[k]["text"], entities[k]["label"]))
      && boxes == RegexBoxes(matches, items) + NerPhase(entities, items).value.1 + signatures
  {
    NerPhaseOkIff(entities, items);
  }

  /** The regex boxes are the boxes of each match in turn: match `k`'s boxes follow those of the matches before it. */
  lemma {:induction false} RegexBoxesInMatchOrder(matches: seq<string>, items: seq<OcrItem>, k: nat)
    requires k < |matches|
    ensures RegexBoxes(matches[..k + 1], items) == RegexBoxes(matches[..k], items) + BoxesFor(matches[k], items)
    ensures |RegexBoxes(matches[..k + 1], items)| <= |RegexBoxes(matches, items)|
    ensures RegexBoxes(matches, items)[..|RegexBoxes(matches[..k + 1], items)|] == RegexBoxes(matches[..k + 1], items)
    decreases |matches| - k
  {
    assert matches[..k + 1][..k] == matches[..k];
    if k + 1 < |matches| {
      RegexBoxesInMatchOrder(matches, items, k + 1);
      var a := RegexBoxes(matches[..k + 1], items);
      var b := RegexBoxes(matches[..k + 2], items);
      assert b[..|a|] == a;
    } else {
      assert matches[..k + 1] == matches;
    }
  }

  // ---------------------------------------------------------------------
  // process_file: the response

  /** The results dictionary; `processing_time` is left out. */
  datatype Body =
    | Error(message: string)
    | Results(filename: string, redactedFile: Option<string>, status: string, piiDetected: seq<PiiRecord>)

  datatype Response = Response(code: int, body: Body)

  /**
   * The libraries behind the request, on the stored file's path: opening
   * the image and running OCR (which may raise), the regex and NER
   * detectors on the full text (spaCy may raise), and signature detection.
   */
  datatype Detectors = Detectors(
    ocr: string -> Result<seq<OcrItem>>,
    regex: string -> seq<string>,
    ner: string -> Result<seq<map<string, string>>>,
    signatures: string -> seq<Box>)

  /** `os.path.join('uploads', filename)`: an absolute name replaces the folder. */
  function UploadPath(filename: string): string {
    if |filename| > 0 && filename[0] == '/' then filename else "uploads/" + filename
  }

  /** The start of the message `os.path.join` gives for an argument that is not a path. */
  const NotAPathPrefix := "join() argument must be str, bytes, or os.PathLike object, not '"

  /** The error `os.path.join` raises on a name that is not a string (its type name quoted, as `repr` shows it). */
  function NotAPath(v: Json): PyError {
    TypeError(NotAPathPrefix + TypeName(v) + "'")
  }

  /** The request's `filename` entry, `None` when there is no body or no such key. */
  function FilenameField(data: Option<map<string, Json>>): (f: Option<Json>)
    ensures f.Some? <==> data.Some? && "filename" in data.value
    ensures f.Some? ==> f.value == data.value["filename"]
  {
    if data.None? || "filename" !in data.value then None else Some(data.value["filename"])
  }

  /** Status and redacted file name, chosen by whether any box was collected. */
  function Decide(filename: string, found: seq<PiiRecord>, boxes: seq<Box>): (b: Body)
    ensures b.Results? && b.filename == filename && b.piiDetected == found
    ensures b.status == "Redacted" <==> |boxes| > 0
    ensures b.status == "No PII found" <==> |boxes| == 0
    ensures b.redactedFile == (if |boxes| > 0 then Some("redacted_" + filename) else None)
  {
    if |boxes| > 0 then Results(filename, Some("redacted_" + filename), "Redacted", found)
    else Results(filename, None, "No PII found", found)
  }

  /**
   * The body of the `try` once the path exists: OCR, the regex matches and
   * the NER entities of the full text, then `Correlated`; the first
   * exception (from OCR, from spaCy, or a missing key) ends it.
   */
  function Detections(d: Detectors, path: string): (r: Result<(seq<PiiRecord>, seq<Box>)>)
    ensures d.ocr(path).Err? ==> r == Err(d.ocr(path).error)
    ensures d.ocr(path).Ok? && d.ner(FullText(d.ocr(path).value)).Err?
        ==> r == Err(d.ner(FullText(d.ocr(path).value)).error)
    ensures d.ocr(path).Ok? && d.ner(FullText(d.ocr(path).value)).Ok? ==>
      var items := d.ocr(path).value;
      var text := FullText(items);
      r == Correlated(items, d.regex(text), d.ner(text).value, d.signatures(path))
  {
    match d.ocr(path)
    case Err(x) => Err(x)
    case Ok(items) =>
      var text := FullText(items);
      match d.ner(text)
      case Err(x) => Err(x)
      case Ok(entities) => Correlated(items, d.regex(text), entities, d.signatures(path))
  }

  /**
   * `process_file`, from MODULES_LOADED, the request's JSON object (`None`
   * when there is none), whether a path exists, and the detectors.
   */
  function ProcessFile(modulesLoaded: bool, data: Option<map<string, Json>>, pathExists: string -> bool, d: Detectors): (r: Response)
    ensures r.code in {200, 400, 404, 500, 503}
    ensures r.code == 503 <==> !modulesLoaded
    ensures r.code == 400 <==> modulesLoaded && FilenameField(data).None?
    ensures modulesLoaded && FilenameField(data).Some? && !FilenameField(data).value.JString? ==>
      r == Response(500, Error("Processing failed: "
                               + (NotAPathPrefix + TypeName(FilenameField(data).value) + "'")))
    ensures r.code == 404 <==>
      modulesLoaded && FilenameField(data).Some? && FilenameField(data).value.JString?
      && !pathExists(UploadPath(FilenameField(data).value.s))
    ensures r.code == 200 <==>
      modulesLoaded && FilenameField(data).Some? && FilenameField(data).value.JString?
      && var path := UploadPath(FilenameField(data).value.s);
         pathExists(path) && Detections(d, path).Ok?
    ensures r.code == 200 ==>
      FilenameField(data).Some? && FilenameField(data).value.JString? &&
      var c := Detections(d, UploadPath(FilenameField(data).value.s)).value;
      r.body == Decide(FilenameField(data).value.s, c.0, c.1)
    ensures r.code == 500 && FilenameField(data).Some? && FilenameField(data).value.JString? ==>
      var c := Detections(d, UploadPath(FilenameField(data).value.s));
      c.Err? && r.body == Error("Processing failed: " + Describe(c.error))
  {
    if !modulesLoaded then Response(503, Error("Processing modules are not loaded."))
    else if data.None? || "filename" !in data.value then Response(400, Error("Filename is required"))
    else match data.value["filename"]
      case JString(filename) =>
        var filepath := UploadPath(filename);
        if !pathExists(filepath) then Response(404, Error("File not found on server"))
        else
          (match Detections(d, filepath)
           case Err(x) => Response(500, Error("Processing failed: " + Describe(x)))
           case Ok((found, boxes)) => Response(200, Decide(filename, found, boxes)))
      case v => Response(500, Error("Processing failed: " + Describe(NotAPath(v))))
  }

  /** As the application is wired, MODULES_LOADED is False and every call answers 503. */
  lemma ProcessAlwaysUnavailable(data: Option<map<string, Json>>, pathExists: string -> bool, d: Detectors)
    ensures ProcessFile(ModulesLoaded(AnalyzerNames), data, pathExists, d) == Response(503, Error("Processing modules are not loaded."))
  {
    ModulesNeverLoad();
  }

  /**
   * Were the import fixed, an NER detector answering with the analyzer's
   * `{'type', 'text'}` records would make any text with an entity fail with
   * 500 on the missing 'label' key.
   */
  lemma NerRecordsWithoutLabelFail(data: map<string, Json>, filename: string, pathExists: string -> bool, d: Detectors, items: seq<OcrItem>)
    requires "filename" in data && data["filename"] == JString(filename) && pathExists(UploadPath(filename))
    requires d.ocr(UploadPath(filename)) == Ok(items)
    requires var ents := d.ner(FullText(items)); ents.Ok? && |ents.value| > 0 && ents.value[0].Keys == {"type", "text"}
    ensures ProcessFile(true, Some(data), pathExists, d) == Response(500, Error("Processing failed: 'label'"))
  {
    FirstEntityKeyDecides(d.ner(FullText(items)).value, items);
    var text := FullText(items);
    assert Correlated(items, d.regex(text), d.ner(text).value, d.signatures(UploadPath(filename))) == Err(KeyError("label"));
    assert Detections(d, UploadPath(filename)) == Err(KeyError("label"));
    assert Describe(KeyError("label")) == "'label'";
    assert "Processing failed: " + "'label'" == "Processing failed: 'label'";
  }
}
