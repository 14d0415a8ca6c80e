/**
 * The PII analysis pipeline: OCR filtering, pattern detection by category,
 * flattening of the dummy profile, ordered substitution, and the
 * orchestrating `analyze_and_sanitize_document`.
 */
module PiiAnalyzer {
  import opened Wrappers
  import opened Strings
  import opened Seqs
  import opened Regex
  import opened JsonValues
  import opened OcrTable
  import opened Substitution
  import opened SpacyDoc
  import DigitPatterns
  import TextExtractor
  import Utf8

  // ---------------------------------------------------------------------
  // extract_text_with_boxes

  /** A row is kept when `int(conf) > 60` and its text is not blank. */
  predicate Confident(r: Row) {
    Truncate(r.conf) > 60 && !IsBlank(r.text)
  }

  /** The kept entry: the unstripped text and the box as corners `(x, y, x + w, y + h)`. */
  function Corners(r: Row): OcrItem {
    OcrItem(r.text, (r.left, r.top, r.left + r.width, r.top + r.height))
  }

  /**
   * Iteration `i` of the loop, reading the columns in the order the source
   * does: `conf`, then `text` only if the confidence passes, then the four
   * box columns only if the text is not blank. A read past the end of a
   * column raises `IndexError`.
   */
  function RowOutcome(t: Table, i: nat): Result<Option<OcrItem>> {
    if i >= |t.conf| then Err(IndexError)
    else if Truncate(t.conf[i]) <= 60 then Ok(None)
    else if i >= |t.text| then Err(IndexError)
    else if IsBlank(t.text[i]) then Ok(None)
    else if i >= |t.left| || i >= |t.top| || i >= |t.width| || i >= |t.height| then Err(IndexError)
    else Ok(Some(OcrItem(t.text[i], (t.left[i], t.top[i], t.left[i] + t.width[i], t.top[i] + t.height[i]))))
  }

  /** What `extract_text_with_boxes` returns: any exception, from Tesseract or from the loop, gives `[]`. */
  function TextWithBoxes(ocr: Result<Table>): seq<OcrItem> {
    match ocr
    case Err(_) => []
    case Ok(t) =>
      (match ScanRows(RowOutcome, t, |t.level|)
       case Ok(items) => items
       case Err(_) => [])
  }

  method ExtractTextWithBoxes(ocr: Result<Table>) returns (results: seq<OcrItem>)
    ensures results == TextWithBoxes(ocr)
  {
    if ocr.Err? {
      return [];
    }
    var data := ocr.value;
    var n := |data.level|;
    results := [];
    var i := 0;
    while i < n
      invariant 0 <= i <= n
      invariant ScanRows(RowOutcome, data, i) == Ok(results)
    {
      if i >= |data.conf| || (Truncate(data.conf[i]) > 60 && i >= |data.text|)
        || (Truncate(data.conf[i]) > 60 && !IsBlank(data.text[i])
            && (i >= |data.left| || i >= |data.top| || i >= |data.width| || i >= |data.height|))
      {
        ScanFailurePersists(RowOutcome, data, i + 1, n);
        return [];
      }
      if Truncate(data.conf[i]) > 60 && !IsBlank(data.text[i]) {
        var x, y, w, h := data.left[i], data.top[i], data.width[i], data.height[i];
        assert RowOutcome(data, i) == Ok(Some(OcrItem(data.text[i], (x, y, x + w, y + h))));
        results := results + [OcrItem(data.text[i], (x, y, x + w, y + h))];
      } else {
        assert RowOutcome(data, i) == Ok(None);
        assert results + [] == results;
      }
      i := i + 1;
    }
  }

  /** The loop raises, and the function returns `[]`, exactly when some iteration reads past a column. */
  lemma EmptyWhenSomeRowUnreadable(t: Table)
    requires exists i :: 0 <= i < |t.level| && RowOutcome(t, i).Err?
    ensures TextWithBoxes(Ok(t)) == []
  {
    ScanFailsIffSomeRowFails(RowOutcome, t, |t.level|);
  }

  lemma {:induction false} ScanOfRectangular(t: Table, n: nat)
    requires Rectangular(t) && n <= |t.level|
    ensures ScanRows(RowOutcome, t, n) == Ok(FilterMap(Rows(t)[..n], Confident, Corners))
  {
    if n > 0 {
      ScanOfRectangular(t, n - 1);
      assert Rows(t)[..n][..n - 1] == Rows(t)[..n - 1];
      assert Rows(t)[..n][n - 1] == Rows(t)[n - 1];
    }
  }

  /**
   * On a well-formed table the result lists, in table order, exactly the rows
   * with `int(conf) > 60` and non-blank text, each as its unstripped text and
   * its corner box.
   */
  lemma ExtractKeepsConfidentRows(t: Table)
    requires Rectangular(t)
    ensures TextWithBoxes(Ok(t)) == FilterMap(Rows(t), Confident, Corners)
    ensures exists idx :: Enumerates(TextWithBoxes(Ok(t)), Rows(t), Confident, Corners, idx)
    ensures |TextWithBoxes(Ok(t))| == Count(Rows(t), Confident)
  {
    ScanOfRectangular(t, |t.level|);
    assert Rows(t)[..|t.level|] == Rows(t);
    FilterMapEnumerates(Rows(t), Confident, Corners);
    FilterMapLength(Rows(t), Confident, Corners);
  }

  // ---------------------------------------------------------------------
  // detect_pii_patterns

  const EmailPattern: Pattern := Pattern(@"\b[A-Za-z0-9._%+-]+@[A-Za-z0-9.-]+\.[A-Z|a-z]{2,}\b", 0, true)
  const PhonePattern: Pattern :=
    Pattern(@"\b(?:\+?1[-.\s]?)?\(?([0-9]{3})\)?[-.\s]?([0-9]{3})[-.\s]?([0-9]{4})\b", 3, true)
  const SsnPattern: Pattern := Pattern(@"\b\d{3}-?\d{2}-?\d{4}\b", 0, true)
  const CreditCardPattern: Pattern := Pattern(@"\b(?:\d{4}[-\s]?){3}\d{4}\b", 0, true)
  const AadhaarPattern: Pattern := Pattern(@"\b\d{4}\s\d{4}\s\d{4}\b", 0, true)
  const AccountNumberPattern: Pattern := Pattern(@"\b\d{9,18}\b", 0, true)

  /** The category table, in dictionary order. */
  const PiiPatterns: seq<(string, Pattern)> := [
    ("email", EmailPattern),
    ("phone", PhonePattern),
    ("ssn", SsnPattern),
    ("credit_card", CreditCardPattern),
    ("aadhaar", AadhaarPattern),
    ("account_number", AccountNumberPattern)
  ]

  /** An ordered dictionary from category to its `findall` result. */
  type Detections = seq<(string, seq<Found>)>

  predicate HasMatches(e: Engine, text: string, row: (string, Pattern)) {
    |FindAll(e, row.1, text)| > 0
  }

  function Entry(e: Engine, text: string, row: (string, Pattern)): (string, seq<Found>) {
    (row.0, FindAll(e, row.1, text))
  }

  /** The categories of `table` with at least one match, in table order, each with its matches. */
  function Detected(e: Engine, table: seq<(string, Pattern)>, text: string): Detections {
    FilterMap(table, row => HasMatches(e, text, row), row => Entry(e, text, row))
  }

  method DetectPiiPatterns(e: Engine, text: string) returns (detected: Detections)
    ensures detected == Detected(e, PiiPatterns, text)
  {
    detected := [];
    var i := 0;
    while i < |PiiPatterns|
      invariant 0 <= i <= |PiiPatterns|
      invariant detected == Detected(e, PiiPatterns[..i], text)
    {
      assert PiiPatterns[..i + 1][..i] == PiiPatterns[..i];
      var (piiType, pattern) := PiiPatterns[i];
      var matches := FindAll(e, pattern, text);
      if |matches| > 0 {
        detected := detected + [(piiType, matches)];
      }
      i := i + 1;
    }
    assert PiiPatterns[..i] == PiiPatterns;
  }

  /**
   * Each entry is a category of the table that has matches, paired with all of
   * them; and every category with matches has an entry. No list is empty.
   */
  lemma DetectedEntries(e: Engine, table: seq<(string, Pattern)>, text: string)
    ensures forall k :: 0 <= k < |Detected(e, table, text)| ==>
      |Detected(e, table, text)[k].1| > 0
      && exists j :: 0 <= j < |table| && Detected(e, table, text)[k] == Entry(e, text, table[j])
    ensures forall j :: 0 <= j < |table| && HasMatches(e, text, table[j]) ==>
      Entry(e, text, table[j]) in Detected(e, table, text)
  {
    var d := Detected(e, table, text);
    var p := row => HasMatches(e, text, row);
    var f := row => Entry(e, text, row);
    FilterMapEnumerates(table, p, f);
    var idx :| Enumerates(d, table, p, f, idx);
    forall k | 0 <= k < |d|
      ensures |d[k].1| > 0 && exists j :: 0 <= j < |table| && d[k] == Entry(e, text, table[j])
    {
      assert d[k] == Entry(e, text, table[idx[k]]);
    }
    forall j | 0 <= j < |table| && HasMatches(e, text, table[j])
      ensures Entry(e, text, table[j]) in d
    {
      assert j in idx;
      var k :| 0 <= k < |idx| && idx[k] == j;
      assert d[k] == Entry(e, text, table[j]);
    }
  }

  /** The phone category reports (area, exchange, line) triples; every other category whole matches. */
  lemma PhoneEntriesAreTriples(e: Engine, text: string)
    ensures forall k, x :: 0 <= k < |Detected(e, PiiPatterns, text)| && x in Detected(e, PiiPatterns, text)[k].1 ==>
      if Detected(e, PiiPatterns, text)[k].0 == "phone" then x.Tuple? && |x.items| == 3 else x.Str?
  {
    var d := Detected(e, PiiPatterns, text);
    DetectedEntries(e, PiiPatterns, text);
    forall k, x | 0 <= k < |d| && x in d[k].1
      ensures if d[k].0 == "phone" then x.Tuple? && |x.items| == 3 else x.Str?
    {
      var j :| 0 <= j < |PiiPatterns| && d[k] == Entry(e, text, PiiPatterns[j]);
      var ms := e.finditer(PiiPatterns[j].1, text);
      var i :| 0 <= i < |ms| && x == FindAllItem(PiiPatterns[j].1, ms[i]);
    }
  }

  /**
   * With an engine whose `\b\d{9,18}\b` behaves as Python's, an account-number
   * entry exists exactly when the text has a standalone run of 9 to 18
   * digits, and it lists only such runs.
   */
  lemma AccountNumbersAreStandaloneRuns(e: Engine, text: string)
    requires e.finditer(AccountNumberPattern, text) == DigitPatterns.AccountNumberMatches(text)
    ensures (exists k :: 0 <= k < |Detected(e, PiiPatterns, text)| && Detected(e, PiiPatterns, text)[k].0 == "account_number")
        <==> exists i: nat, j: nat :: DigitPatterns.StandaloneDigits(text, i, j) && 9 <= j - i <= 18
    ensures forall k, x ::
      (0 <= k < |Detected(e, PiiPatterns, text)| && Detected(e, PiiPatterns, text)[k].0 == "account_number"
       && x in Detected(e, PiiPatterns, text)[k].1) ==>
      exists i: nat, j: nat :: DigitPatterns.StandaloneDigits(text, i, j) && 9 <= j - i <= 18 && x == Str(text[i..j])
  {
    AccountEntryIffRun(e, text);
    AccountItemsAreRuns(e, text);
  }

  /** The only entry named 'account_number' is the one of the account-number row. */
  lemma AccountEntryIsLastRow(e: Engine, text: string, k: int)
    requires 0 <= k < |Detected(e, PiiPatterns, text)| && Detected(e, PiiPatterns, text)[k].0 == "account_number"
    ensures Detected(e, PiiPatterns, text)[k] == Entry(e, text, PiiPatterns[5])
  {
    DetectedEntries(e, PiiPatterns, text);
    var d := Detected(e, PiiPatterns, text);
    var j :| 0 <= j < |PiiPatterns| && d[k] == Entry(e, text, PiiPatterns[j]);
  }

  lemma AccountEntryIffRun(e: Engine, text: string)
    requires e.finditer(AccountNumberPattern, text) == DigitPatterns.AccountNumberMatches(text)
    ensures (exists k :: 0 <= k < |Detected(e, PiiPatterns, text)| && Detected(e, PiiPatterns, text)[k].0 == "account_number")
        <==> exists i: nat, j: nat :: DigitPatterns.StandaloneDigits(text, i, j) && 9 <= j - i <= 18
  {
    var d := Detected(e, PiiPatterns, text);
    var ms := DigitPatterns.AccountNumberMatches(text);
    var row := PiiPatterns[5];
    if exists i: nat, j: nat :: DigitPatterns.StandaloneDigits(text, i, j) && 9 <= j - i <= 18 {
      var i: nat, j: nat :| DigitPatterns.StandaloneDigits(text, i, j) && 9 <= j - i <= 18;
      DigitPatterns.AccountNumberMatchesExactly(text, Match(text[i..j], i, j, []));
      assert HasMatches(e, text, row);
      DetectedEntries(e, PiiPatterns, text);
      var k :| 0 <= k < |d| && d[k] == Entry(e, text, row);
    }
    if exists k :: 0 <= k < |d| && d[k].0 == "account_number" {
      var k :| 0 <= k < |d| && d[k].0 == "account_number";
      AccountEntryIsLastRow(e, text, k);
      DetectedEntries(e, PiiPatterns, text);
      var m := ms[0];
      DigitPatterns.AccountNumberMatchesExactly(text, m);
      assert DigitPatterns.StandaloneDigits(text, m.start, m.end) && 9 <= m.end - m.start <= 18;
    }
  }

  lemma AccountItemsAreRuns(e: Engine, text: string)
    requires e.finditer(AccountNumberPattern, text) == DigitPatterns.AccountNumberMatches(text)
    ensures forall k, x ::
      (0 <= k < |Detected(e, PiiPatterns, text)| && Detected(e, PiiPatterns, text)[k].0 == "account_number"
       && x in Detected(e, PiiPatterns, text)[k].1) ==>
      exists i: nat, j: nat :: DigitPatterns.StandaloneDigits(text, i, j) && 9 <= j - i <= 18 && x == Str(text[i..j])
  {
    var d := Detected(e, PiiPatterns, text);
    var ms := DigitPatterns.AccountNumberMatches(text);
    forall k, x | 0 <= k < |d| && d[k].0 == "account_number" && x in d[k].1
      ensures exists i: nat, j: nat :: DigitPatterns.StandaloneDigits(text, i, j) && 9 <= j - i <= 18 && x == Str(text[i..j])
    {
      AccountEntryIsLastRow(e, text, k);
      var l :| 0 <= l < |ms| && x == FindAllItem(AccountNumberPattern, ms[l]);
      DigitPatterns.AccountNumberMatchesExactly(text, ms[l]);
      assert DigitPatterns.IsAccountMatch(text, ms[l]);
    }
  }


  // ---------------------------------------------------------------------
  // pii_count

  /** `sum(len(items) for items in pii_data.values())`. */
  function PiiCount(found: Detections): nat {
    if |found| == 0 then 0 else PiiCount(found[..|found| - 1]) + |found[|found| - 1].1|
  }

  /** The number of matches of every pattern of the table, counted pattern by pattern. */
  function TotalMatches(e: Engine, table: seq<(string, Pattern)>, text: string): nat {
    if |table| == 0 then 0
    else TotalMatches(e, table[..|table| - 1], text) + |e.finditer(table[|table| - 1].1, text)|
  }

  /** The count is the total number of matches: the categories left out of the dictionary had none. */
  lemma {:induction false} PiiCountIsTotalMatches(e: Engine, table: seq<(string, Pattern)>, text: string)
    ensures PiiCount(Detected(e, table, text)) == TotalMatches(e, table, text)
  {
    if |table| > 0 {
      var n := |table| - 1;
      PiiCountIsTotalMatches(e, table[..n], text);
      DetectedLast(e, table, text);
      var init := Detected(e, table[..n], text);
      if HasMatches(e, text, table[n]) {
        PiiCountAppend(init, Entry(e, text, table[n]));
      } else {
        assert init + [] == init;
      }
    }
  }

  lemma DetectedLast(e: Engine, table: seq<(string, Pattern)>, text: string)
    requires |table| > 0
    ensures Detected(e, table, text) == Detected(e, table[..|table| - 1], text)
      + (if HasMatches(e, text, table[|table| - 1]) then [Entry(e, text, table[|table| - 1])] else [])
  {
  }

  lemma PiiCountAppend(found: Detections, entry: (string, seq<Found>))
    ensures PiiCount(found + [entry]) == PiiCount(found) + |entry.1|
  {
    assert (found + [entry])[..|found|] == found;
  }

  /** Since no list is empty, the count is zero exactly when nothing was detected. */
  lemma CountZeroIffNothingDetected(e: Engine, table: seq<(string, Pattern)>, text: string)
    ensures PiiCount(Detected(e, table, text)) == 0 <==> Detected(e, table, text) == []
  {
    var d := Detected(e, table, text);
    DetectedEntries(e, table, text);
    if |d| > 0 {
      assert PiiCount(d) >= |d[|d| - 1].1| > 0;
    }
  }

  // ---------------------------------------------------------------------
  // load_dummy_data

  /** `AttributeError` for calling `.get` on a value that is not a dictionary. */
  function NoGet(v: Json): PyError {
    AttributeError("'" + TypeName(v) + "' object has no attribute 'get'")
  }

  /** `profile.get(section, {}).get(key)`: `JNull` stands for `None`. */
  function SectionValue(profile: map<string, Json>, section: string, key: string): (r: Result<Json>)
    ensures section !in profile ==> r == Ok(JNull)
  {
    var s := if section in profile then profile[section] else JObject(map[]);
    match s
    case JObject(fields) => Ok(if key in fields then fields[key] else JNull)
    case _ => Err(NoGet(s))
  }

  /** The three flattened keys, with the section and field each comes from. */
  const DummyKeys: set<string> := {"phone", "aadhaar", "credit_card"}

  /** `{k: v for k, v in dummy_values.items() if v is not None}`. */
  function NonNull(m: map<string, Json>): (r: map<string, Json>)
    ensures forall k :: k in r <==> k in m && m[k] != JNull
    ensures forall k :: k in r ==> r[k] == m[k]
  {
    map k | k in m && m[k] != JNull :: m[k]
  }

  /** The flattening of the first profile; the three lookups run in this order and the first failure raises. */
  function Flatten(profile: map<string, Json>): (r: Result<map<string, Json>>)
    ensures r.Ok? ==> r.value.Keys <= DummyKeys && forall k :: k in r.value ==> r.value[k] != JNull
  {
    match SectionValue(profile, "contact", "phone_number")
    case Err(x) => Err(x)
    case Ok(phone) =>
      match SectionValue(profile, "identity", "aadhaar_number")
      case Err(x) => Err(x)
      case Ok(aadhaar) =>
        match SectionValue(profile, "financial", "credit_card_number")
        case Err(x) => Err(x)
        case Ok(card) => Ok(NonNull(map["phone" := phone, "aadhaar" := aadhaar, "credit_card" := card]))
  }

  /**
   * `load_dummy_data` from the already-parsed file: `None` when the file is
   * missing or is not JSON (both caught, giving `{}`). Calling `.get` on a
   * value that is not a dictionary raises `AttributeError`, which is not caught.
   */
  function LoadDummyData(parsed: Option<Json>): (r: Result<map<string, Json>>)
    ensures r.Ok? ==> r.value.Keys <= DummyKeys && forall k :: k in r.value ==> r.value[k] != JNull
    ensures parsed.None? ==> r == Ok(map[])
  {
    match parsed
    case None => Ok(map[])
    case Some(data) =>
      match data
      case JObject(fields) =>
        var profiles := if "dummy_profiles" in fields then fields["dummy_profiles"] else JNull;
        if !Truthy(profiles) || !profiles.JArray? then Ok(map[])
        else
          var first := profiles.items[0];
          (match first
           case JObject(profile) => Flatten(profile)
           case _ => Err(NoGet(first)))
      case _ => Err(NoGet(data))
  }

  /** A missing, empty or non-list `dummy_profiles` gives no dummy values. */
  lemma NoProfilesNoValues(fields: map<string, Json>)
    requires "dummy_profiles" !in fields || !fields["dummy_profiles"].JArray? || fields["dummy_profiles"].items == []
    ensures LoadDummyData(Some(JObject(fields))) == Ok(map[])
  {
  }

  /**
   * The values come from the first profile only: a string phone number,
   * aadhaar number or card number stored there is the value of its key,
   * whatever the later profiles hold.
   */
  lemma ValuesFromFirstProfile(profile: map<string, Json>, rest: seq<Json>, others: map<string, Json>, section: string, field: string, key: string)
    requires (section, field, key) in {("contact", "phone_number", "phone"), ("identity", "aadhaar_number", "aadhaar"),
                                      ("financial", "credit_card_number", "credit_card")}
    requires forall s :: s in {"contact", "identity", "financial"} && s in profile ==> profile[s].JObject?
    requires section in profile && field in profile[section].fields && profile[section].fields[field].JString?
    ensures var r := LoadDummyData(Some(JObject(others["dummy_profiles" := JArray([JObject(profile)] + rest)])));
      r.Ok? && key in r.value && r.value[key] == profile[section].fields[field]
  {
    var data := others["dummy_profiles" := JArray([JObject(profile)] + rest)];
    assert data["dummy_profiles"].items[0] == JObject(profile);
  }

  // ---------------------------------------------------------------------
  // replace_numerical_pii

  /** The replacement table, in dictionary order; `re.sub` is called without flags. */
  const NumericalRules: seq<Rule> := [
    Rule("phone", Pattern(@"\b(?:\+?91[-\s]?)?(?:\d{3}[-\s]?\d{3}[-\s]?\d{4}|\d{5}[-\s]?\d{5}|\d{10})\b", 0, false)),
    Rule("credit_card", Pattern(@"\b(?:\d{4}[-\s]?){3}\d{4}\b", 0, false)),
    Rule("aadhaar", Pattern(@"\b\d{4}\s\d{4}\s\d{4}\b", 0, false)),
    Rule("ssn", Pattern(@"\b\d{3}-?\d{2}-?\d{4}\b", 0, false)),
    Rule("account_number", Pattern(@"\b\d{9,18}\b", 0, false))
  ]

  method ReplaceNumericalPii(e: Engine, text: string, dummy: map<string, Json>) returns (r: Result<string>)
    ensures r == Applied(e, NumericalRules, dummy, text)
  {
    r := Substitute(e, NumericalRules, dummy, text);
  }

  /**
   * With the values `load_dummy_data` produces, the ssn and account-number
   * rows never run: only phone, credit card and aadhaar can be substituted.
   */
  lemma SsnAndAccountNeverSubstituted(e: Engine, parsed: Option<Json>, text: string)
    requires LoadDummyData(parsed).Ok?
    ensures Applied(e, NumericalRules, LoadDummyData(parsed).value, text)
         == Applied(e, NumericalRules[..3], LoadDummyData(parsed).value, text)
  {
    var d := LoadDummyData(parsed).value;
    assert "ssn" !in d && "account_number" !in d;
    assert NumericalRules[..5] == NumericalRules;
    assert NumericalRules[..5][..4] == NumericalRules[..4];
    assert NumericalRules[..4][..3] == NumericalRules[..3];
  }

  // ---------------------------------------------------------------------
  // SpacyNer.detect_pii

  const NerLabels: seq<string> := ["PERSON", "ORG", "GPE", "DATE", "MONEY"]

  predicate Reported(en: Entity) {
    en.tag in NerLabels
  }

  /** The record `{'type': label.lower(), 'text': text}`. */
  function TypeAndText(en: Entity): map<string, string> {
    map["type" := Lower(en.tag), "text" := en.text]
  }

  function NerRecords(nlp: Pipeline, text: string): Result<seq<map<string, string>>> {
    match nlp
    case None => Ok([])
    case Some(run) =>
      match run(text)
      case Err(x) => Err(x)
      case Ok(ents) => Ok(FilterMap(ents, Reported, TypeAndText))
  }

  method DetectPii(nlp: Pipeline, text: string) returns (r: Result<seq<map<string, string>>>)
    ensures r == NerRecords(nlp, text)
  {
    if nlp.None? {
      return Ok([]);
    }
    var doc := nlp.value(text);
    if doc.Err? {
      return Err(doc.error);
    }
    var ents := doc.value;
    var entities := [];
    var i := 0;
    while i < |ents|
      invariant 0 <= i <= |ents|
      invariant entities == FilterMap(ents[..i], Reported, TypeAndText)
    {
      assert ents[..i + 1][..i] == ents[..i];
      var ent := ents[i];
      if ent.tag in NerLabels {
        entities := entities + [map["type" := Lower(ent.tag), "text" := ent.text]];
      }
      i := i + 1;
    }
    assert ents[..i] == ents;
    return Ok(entities);
  }

  /**
   * An exception from `nlp(text)` propagates; otherwise the records are those
   * of the reported entities, in document order.
   */
  lemma NerRecordsInOrder(run: string -> Result<seq<Entity>>, text: string)
    ensures NerRecords(Some(run), text).Err? <==> run(text).Err?
    ensures run(text).Err? ==> NerRecords(Some(run), text) == Err(run(text).error)
    ensures run(text).Ok? ==>
      exists idx :: Enumerates(NerRecords(Some(run), text).value, run(text).value, Reported, TypeAndText, idx)
  {
    if run(text).Ok? {
      assert NerRecords(Some(run), text).value == FilterMap(run(text).value, Reported, TypeAndText);
      FilterMapEnumerates(run(text).value, Reported, TypeAndText);
    }
  }

  /** Each record has exactly the keys 'type' and 'text', never 'label', and its type is a lower-cased label. */
  lemma NerRecordsShape(run: string -> Result<seq<Entity>>, text: string)
    ensures NerRecords(Some(run), text).Ok? ==> forall r :: r in NerRecords(Some(run), text).value ==>
      r.Keys == {"type", "text"} && "label" !in r && r["type"] in ["person", "org", "gpe", "date", "money"]
  {
    if run(text).Err? {
      return;
    }
    var ents := run(text).value;
    var rs := FilterMap(ents, Reported, TypeAndText);
    assert NerRecords(Some(run), text).value == rs;
    FilterMapEnumerates(ents, Reported, TypeAndText);
    var idx :| Enumerates(rs, ents, Reported, TypeAndText, idx);
    forall r | r in rs
      ensures r.Keys == {"type", "text"} && "label" !in r && r["type"] in ["person", "org", "gpe", "date", "money"]
    {
      var k :| 0 <= k < |rs| && rs[k] == r;
      LowerOfReported(ents[idx[k]]);
    }
  }

  lemma LowerOfReported(en: Entity)
    requires Reported(en)
    ensures TypeAndText(en).Keys == {"type", "text"} && "label" !in TypeAndText(en)
    ensures TypeAndText(en)["type"] in ["person", "org", "gpe", "date", "money"]
  {
    LowerOfLabel(en.tag);
  }

  // ---------------------------------------------------------------------
  // analyze_and_sanitize_document

  datatype Analysis = Analysis(piiCount: nat, piiFound: Detections, originalText: string, sanitizedText: string)

  const NoTextMessage: string := "No text could be extracted from the document."

  /**
   * The pipeline on the extracted text: a blank text returns at once;
   * otherwise detection, the count, the dummy values read from `dummyFile`
   * and the substitution, any of whose exceptions propagates.
   */
  function Analyzed(e: Engine, original: string, dummyFile: Option<Json>): Result<Analysis> {
    if IsBlank(original) then Ok(Analysis(0, [], original, NoTextMessage))
    else
      var found := Detected(e, PiiPatterns, original);
      match LoadDummyData(dummyFile)
      case Err(x) => Err(x)
      case Ok(dummy) =>
        (match Applied(e, NumericalRules, dummy, original)
         case Err(x) => Err(x)
         case Ok(sanitized) => Ok(Analysis(PiiCount(found), found, original, sanitized)))
  }

  method AnalyzeAndSanitizeDocument(e: Engine, libs: TextExtractor.Libraries, fileContent: seq<Utf8.byte>,
                                    contentType: string, dummyFile: Option<Json>) returns (r: Result<Analysis>)
    ensures r == Analyzed(e, TextExtractor.Extracted(libs, contentType, fileContent), dummyFile)
  {
    var originalText := TextExtractor.ExtractText(libs, contentType, fileContent);
    if IsBlank(originalText) {
      return Ok(Analysis(0, [], originalText, NoTextMessage));
    }
    var piiData := DetectPiiPatterns(e, originalText);
    var piiCount := PiiCount(piiData);
    var dummyValues := LoadDummyData(dummyFile);
    if dummyValues.Err? {
      return Err(dummyValues.error);
    }
    var sanitizedText := ReplaceNumericalPii(e, originalText, dummyValues.value);
    if sanitizedText.Err? {
      return Err(sanitizedText.error);
    }
    return Ok(Analysis(piiCount, piiData, originalText, sanitizedText.value));
  }

  /**
   * A blank text reports nothing and never reads the dummy data; any other
   * text keeps the original, and its count is the total number of matches
   * of all six patterns.
   */
  lemma AnalysisCounts(e: Engine, original: string, dummyFile: Option<Json>)
    ensures IsBlank(original) ==> Analyzed(e, original, dummyFile) == Ok(Analysis(0, [], original, NoTextMessage))
    ensures Analyzed(e, original, dummyFile).Ok? && !IsBlank(original) ==>
      var a := Analyzed(e, original, dummyFile).value;
      a.originalText == original && a.piiFound == Detected(e, PiiPatterns, original)
      && a.piiCount == TotalMatches(e, PiiPatterns, original)
      && (a.piiCount == 0 <==> a.piiFound == [])
  {
    PiiCountIsTotalMatches(e, PiiPatterns, original);
    CountZeroIffNothingDetected(e, PiiPatterns, original);
  }
}
