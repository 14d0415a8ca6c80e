# SanitiAI back end, modelled in Dafny

SanitiAI finds personal data (PII) in uploaded documents and images, replaces
numbers with dummy values, and blacks out or blurs the regions that hold it.
This project models the back end's logic in Dafny and proves properties of the
model:

- upload validation and the correlation of OCR words with detections in the
  Flask application (`app.py`);
- the analysis pipeline of `pii_analyzer.py`: the OCR row filter, the
  category → matches dictionary, the dummy-profile flattening, the ordered
  substitution, the `pii_count` sum and the orchestrating function;
- the older analyzer in `analyze_pii_content.py`: span records, the NER label
  filter, its own substitution order and the image-redaction output path;
- the service plugins and their registry (`pii_plugins.py`);
- MIME-type dispatch in `text_extractor.py`;
- the Tesseract row filter (`ocr/tesseract_ocr.py`);
- the flat regex matcher (`nlp/pii_detector.py`);
- the copy-then-draw image redactor (`redaction/redactor.py`).

Every foreign library stays a parameter. This covers Python's `re`, Tesseract,
spaCy, PyMuPDF, python-docx, Pillow drawing and blur, werkzeug's
`secure_filename`, the clock and the file system. `re` is an `Engine` of
three functions: `finditer`, `template` (the `re.error` a replacement string
raises when it is parsed, if any) and `sub`. `findall` is derived from
`finditer` by Python's group rule, and `re.sub` (`Regex.Sub`) raises the
template's error before it scans the text. `DigitPatterns` also has concrete
scanners for `\b\d{9,18}\b`, the two ssn patterns and the aadhaar pattern.
They read `\d` and the word characters behind `\b` in their ASCII
sense, and `\s` as Python's full `str.isspace` set. Lemmas tie the account-number, strict-ssn and aadhaar scanners to the
abstract engine through an explicit hypothesis that the engine agrees with
them.

Modules and files:

| file | module | what it holds |
|---|---|---|
| wrappers.dfy | Wrappers | Option, the Python exceptions that reach callers, Result |
| strings.dfy | Strings | `str.strip`, `in`, `join`, `split`, `lower`, `replace`, `rfind` |
| seqs.dfy | Seqs | `FilterMap`, the shape of every filter-and-append loop, with its index witness |
| utf8.dfy | Utf8 | `decode('utf-8', errors='ignore')` and `encode('utf-8')` |
| json_values.dfy | JsonValues | parsed JSON values, truthiness, `type(v).__name__` |
| regex.dfy | Regex | the abstract engine, `re.sub` and `findall` |
| digit_patterns.dfy | DigitPatterns | concrete scanners for the digit-only patterns |
| substitution.dfy | Substitution | the ordered `re.sub` loop shared by both analyzers |
| ocr_table.dfy | OcrTable | Tesseract's column table and the generic row loop |
| spacy_doc.dfy | SpacyDoc | spaCy entities and an optional pipeline |
| text_extractor.dfy | TextExtractor | `extract_text` |
| pii_analyzer.dfy | PiiAnalyzer | `pii_analyzer.py` |
| analyze_pii_content.dfy | AnalyzePiiContent | `analyze_pii_content.py` |
| pii_plugins.dfy | PiiPlugins | `pii_plugins.py` |
| tesseract_ocr.dfy | TesseractOcr | `ocr/tesseract_ocr.py` |
| pii_detector.dfy | PiiDetector | `nlp/pii_detector.py` |
| redactor.dfy | Redactor | `redaction/redactor.py`, on a two-dimensional array |
| app.dfy | App | `app.py` |

Behaviour of the code as written that the model keeps and proves:

- `app.py` imports `detect_pii_regex`, but `pii_analyzer.py` defines no such
  name; it defines `detect_pii_patterns`. So `MODULES_LOADED` is false and
  `/api/process` always answers 503 (`App.ProcessAlwaysUnavailable`).
- Were that import fixed, `app.py` would read `entity['label']` from records
  that `pii_analyzer`'s `SpacyNer.detect_pii` builds with only 'type' and
  'text'. Any text with an entity would then answer 500 with the message
  `Processing failed: 'label'` (`App.AnalyzerEntitiesFailOnLabel`,
  `App.NerRecordsWithoutLabelFail`).
- `load_dummy_data` never produces 'ssn' or 'account_number'. So those
  substitution rows of `replace_numerical_pii` never run on its output
  (`PiiAnalyzer.SsnAndAccountNeverSubstituted`).
- A dummy value that is not a string makes `re.sub` raise `TypeError`. A
  string value that is not a valid replacement template (a bad escape such
  as `\d`, or a group reference such as `\1` when the pattern has no
  groups) makes it raise `re.error`, even on a text with no match. The
  pipeline catches neither; the model returns them as errors
  (`Substitution.FailsIffSomeRejected`, `Substitution.RejectedTemplateFails`).
  When no dummy value holds a backslash, only non-string values fail
  (`Substitution.FailsIffNonString`).
- `allowed_file` lower-cases with Python's full Unicode `lower()`. The model
  lower-cases ASCII only. The verdict is the same: the only non-ASCII
  character whose `lower()` is a single ASCII letter is the Kelvin sign
  (giving 'k'), and no allowed extension contains 'k'.

## Model

| member | source | states |
|---|---|---|
| App.ModulesNeverLoad | Backend/app.py:14-25 | `detect_pii_regex` is not among the names `pii_analyzer.py` defines, so the import fails and MODULES_LOADED is false |
| App.AllowedFileIff | Backend/app.py:59-60 | a name is allowed iff it has a '.' and the lower-cased text after its last '.' is png, jpg, jpeg, pdf, docx, txt or csv |
| App.OnlyLastExtensionCounts | Backend/app.py:60 | for any stem, `stem.ext` is allowed iff the lower-cased `ext` is allowed: earlier dots do not matter |
| App.AllowedFileExamples | Backend/app.py:60 | for any stem without a dot, `stem.pdf.exe` is rejected, `stem.PNG` is accepted and the bare stem is rejected |
| App.LastDotUnique | Backend/app.py:60 | the last '.' of a name is a single position, the one `rsplit('.', 1)` splits at |
| App.StoredName | Backend/app.py:110-112 | the stored upload name is the timestamp, '_', then the secured name, so its length is their sum plus one |
| App.StoredNameSplits | Backend/app.py:110-112 | with the 15-character timestamp, the stored name splits back into the timestamp, '_' and the secured name |
| App.UploadFile | Backend/app.py:98-127 | the upload is stored iff a file part is present, its name is non-empty and allowed, and saving does not raise; it is then stored as timestamp_secured-name |
| App.Texts | Backend/app.py:154 | the OCR texts, one per item, in OCR order |
| App.FullTextSplits | Backend/app.py:154 | when no OCR text holds a space, splitting `full_text` on spaces gives the item texts back in OCR order |
| App.BoxesForCountsItems | Backend/app.py:163-165 | one finding adds one box per OCR item whose text contains it, in OCR order, duplicates kept |
| App.CollectBoxes | Backend/app.py:163-165 | the inner loop over OCR items collects exactly `BoxesFor`: the boxes of the items whose text contains the finding, in OCR order |
| App.RegexFound | Backend/app.py:161-162 | one `{"text", "type": "regex"}` entry per regex match |
| App.CorrelateDetections | Backend/app.py:156-183 | the regex, NER and signature loops compute exactly the detections and boxes of `Correlated`, or the KeyError of the first entity missing 'text' or 'label' |
| App.NerFailurePersists | Backend/app.py:171-176 | once an entity raises KeyError, the whole NER loop ends with that error |
| App.NerPhaseOkIff | Backend/app.py:171-176 | the NER loop succeeds iff every entity has 'text' and 'label', and then adds one record per entity, in order |
| App.FirstEntityKeyDecides | Backend/app.py:172 | an entity with only the keys 'type' and 'text' first in the list makes the loop fail with KeyError('label') |
| App.AnalyzerEntitiesFailOnLabel | Backend/app.py:172 | any non-empty list of records that `pii_analyzer`'s `SpacyNer.detect_pii` returns fails with KeyError('label') |
| App.CorrelatedLayout | Backend/app.py:160-183 | on success there is one `pii_found` entry per regex match (first) and per entity; boxes are regex boxes, then NER boxes, then signature boxes |
| App.RegexBoxesInMatchOrder | Backend/app.py:161-166 | the regex boxes are grouped match by match, in match order |
| App.Decide | Backend/app.py:186-200 | status is "Redacted" with redacted file "redacted_" + filename iff some box was collected, else "No PII found" with no redacted file |
| App.ProcessAlwaysUnavailable | Backend/app.py:135-136 | as wired, every `/api/process` call answers 503 "Processing modules are not loaded." |
| App.ProcessFile | Backend/app.py:132-206 | 503 iff modules are not loaded; 400 iff there is no body or no 'filename'; a non-string filename gives 500 with the `os.path.join` TypeError "join() argument must be str, bytes, or os.PathLike object, not '<type>'"; 404 iff the joined path does not exist; an OCR, spaCy or correlation error gives 500 "Processing failed: " + its message; 200 iff `Detections` succeeds, with the body `Decide` builds |
| App.Detections | Backend/app.py:149-183 | the first exception wins: an OCR error, then an NER (spaCy) error, then the correlation's KeyError; otherwise `Correlated` of the OCR items, regex matches, entities and signatures |
| App.NerRecordsWithoutLabelFail | Backend/app.py:138-206 | with the import fixed, entities without 'label' make the request answer 500 "Processing failed: 'label'" |
| PiiAnalyzer.ExtractTextWithBoxes | Backend/pii_analyzer.py:20-40 | the OCR loop computes `TextWithBoxes`: the kept rows, or [] after any exception |
| PiiAnalyzer.EmptyWhenSomeRowUnreadable | Backend/pii_analyzer.py:25-40 | if some iteration reads past the end of a column, the result is [] |
| PiiAnalyzer.ExtractKeepsConfidentRows | Backend/pii_analyzer.py:30-36 | on a well-formed table it keeps, in order, exactly the rows with int(conf) > 60 and non-blank text, unstripped, with box (x, y, x+w, y+h) |
| OcrTable.ConfidenceThreshold | Backend/pii_analyzer.py:31 | `int(conf) > 60` holds exactly for confidences of at least 61 |
| OcrTable.ScanFailsIffSomeRowFails | Backend/pii_analyzer.py:30-36 | a row loop raises iff one of its iterations raises |
| OcrTable.ScanKeepsAtMostOnePerRow | Backend/pii_analyzer.py:30-36 | a row loop appends at most one entry per row |
| PiiAnalyzer.DetectPiiPatterns | Backend/pii_analyzer.py:42-57 | the loop computes `Detected`: the non-empty categories with their findall lists, in table order |
| PiiAnalyzer.DetectedEntries | Backend/pii_analyzer.py:53-56 | every entry is a category with its matches and no list is empty; every category with matches has an entry |
| PiiAnalyzer.PhoneEntriesAreTriples | Backend/pii_analyzer.py:46 | phone entries are (area, exchange, line) triples; other categories give whole matches |
| PiiAnalyzer.AccountNumbersAreStandaloneRuns | Backend/pii_analyzer.py:50 | with a Python-faithful engine, an account_number entry exists iff the text has a standalone 9-18 digit run, and it lists only such runs |
| DigitPatterns.AccountNumberMatchesExactly | Backend/pii_analyzer.py:50 | `\b\d{9,18}\b` matches exactly the standalone runs of 9 to 18 digits, not next to a letter, digit or '_' |
| DigitPatterns.AccountNumberLongRun | Backend/pii_analyzer.py:50 | a text that is one run of more than 18 digits has no account-number match |
| DigitPatterns.MatchPiecesIffSpells | Backend/pii_analyzer.py:47-49 | the greedy matcher of a digit template succeeds at a span iff the template spells that span |
| DigitPatterns.TemplateMatchesSound | Backend/pii_analyzer.py:47-49 | every reported template match is a standalone span that the template spells, with its text |
| Regex.FindAllItem | Backend/pii_analyzer.py:54 | findall reports a tuple iff the pattern has two groups or more, with one item per group |
| Regex.FindAll | Backend/pii_analyzer.py:54 | findall reports one item per match |
| Regex.FindAllWholeMatches | Backend/nlp/pii_detector.py:15 | a pattern without groups makes findall report the whole matches |
| Regex.FindAllTuples | Backend/nlp/pii_detector.py:15 | a pattern with g >= 2 groups makes findall report g-tuples |
| PiiAnalyzer.PiiCountIsTotalMatches | Backend/pii_analyzer.py:172 | `pii_count` equals the total number of matches of all patterns |
| PiiAnalyzer.CountZeroIffNothingDetected | Backend/pii_analyzer.py:172 | `pii_count` is 0 iff `pii_found` is empty |
| PiiAnalyzer.Flatten | Backend/pii_analyzer.py:116-122 | the flattened profile has only the keys phone, aadhaar and credit_card, none of them None |
| PiiAnalyzer.LoadDummyData | Backend/pii_analyzer.py:100-125 | the loaded values have only the keys phone, aadhaar and credit_card, none None; a missing or undecodable file gives {} |
| PiiAnalyzer.NoProfilesNoValues | Backend/pii_analyzer.py:109-112 | a missing, non-list or empty `dummy_profiles` gives {} |
| PiiAnalyzer.ValuesFromFirstProfile | Backend/pii_analyzer.py:114-122 | each value comes from the first profile's section and field, whatever the other profiles hold |
| PiiAnalyzer.ReplaceNumericalPii | Backend/pii_analyzer.py:127-150 | substitutes in the order phone, credit_card, aadhaar, ssn, account_number, each step on the previous output |
| Regex.Sub | Backend/pii_analyzer.py:148 | `re.sub` raises iff the engine rejects the replacement template, whatever the text; otherwise it gives the substituted text |
| Substitution.Step | Backend/pii_analyzer.py:146-148 | an absent category leaves the text; the step fails iff the value is not a string (with its TypeError) or a string rejected as a template; otherwise it gives the substitution |
| Substitution.NonStringErrors | Backend/pii_analyzer.py:148 | a list or dict value fails with "unhashable type: 'list'" ('dict'); a number fails with "decoding to str: need a bytes-like object, int found" |
| Substitution.Substitute | Backend/pii_analyzer.py:132-150 | the loop with its early return computes `Applied`, the left fold of the steps |
| Substitution.ErrorPersists | Backend/pii_analyzer.py:145-148 | once a step raises, the loop ends with that error |
| Substitution.EmptyDummyIsIdentity | Backend/pii_analyzer.py:132-133 | empty dummy data returns the text unchanged |
| Substitution.FailsIffSomeRejected | Backend/pii_analyzer.py:145-148 | the loop fails iff some category of the table has a non-string value or a string rejected as a template |
| Substitution.FailsIffNonString | Backend/pii_analyzer.py:145-148 | when literal templates are accepted and no dummy string holds a backslash, the loop fails iff some category of the table has a non-string value |
| Substitution.RejectedTemplateFails | Backend/pii_analyzer.py:148 | a category whose string value the engine rejects as a template makes the loop fail, whatever the text |
| Substitution.OnlyPresentCategoriesRun | Backend/pii_analyzer.py:145-148 | only categories present in the dummy data take part, in table order |
| PiiAnalyzer.SsnAndAccountNeverSubstituted | Backend/pii_analyzer.py:116-148 | with values from `load_dummy_data`, the ssn and account_number rows never run |
| PiiAnalyzer.DetectPii | Backend/pii_analyzer.py:71-78 | the NER loop computes `NerRecords`: [] without a model, the exception of `nlp(text)` if it raises, else the reported entities' records |
| PiiAnalyzer.NerRecordsInOrder | Backend/pii_analyzer.py:72-77 | fails iff `nlp(text)` raises, with its error; otherwise the records are exactly those of the PERSON, ORG, GPE, DATE and MONEY entities, in document order |
| PiiAnalyzer.NerRecordsShape | Backend/pii_analyzer.py:76-77 | each record has exactly the keys 'type' and 'text', never 'label', with a lower-cased type |
| SpacyDoc.LowerOfLabel | Backend/pii_analyzer.py:77 | each kept entity label lower-cases to its lower-case name (PERSON to person, and so on) |
| PiiAnalyzer.AnalyzeAndSanitizeDocument | Backend/pii_analyzer.py:154-182 | the orchestrator computes `Analyzed` on the extracted text |
| PiiAnalyzer.AnalysisCounts | Backend/pii_analyzer.py:163-182 | blank text gives count 0, no findings, the original text and the fixed message; otherwise count = total matches, 0 iff no findings |
| Strings.BlankIffStripEmpty | Backend/pii_analyzer.py:163 | a text is blank iff its `strip()` is empty |
| Strings.Strip | Backend/ocr/tesseract_ocr.py:13 | the stripped text neither starts nor ends with whitespace and is no longer than the input |
| Strings.StripTrimsSpace | Backend/ocr/tesseract_ocr.py:13 | the stripped text is a slice of the input with only whitespace before and after it |
| Strings.StripIdempotent | Backend/ocr/tesseract_ocr.py:13 | stripping twice is stripping once |
| Strings.ContainsIff | Backend/app.py:164 | `finding in text` holds iff the finding occurs at some position of the text |
| Strings.SplitJoinRoundTrip | Backend/app.py:154 | splitting a join at its one-character separator gives the parts back when no part holds the separator |
| Strings.LastIndexOf | Backend/app.py:60 | the position found holds the character and no later position does; none is found iff the character is absent |
| DigitPatterns.AccountScanSound | Backend/pii_analyzer.py:50 | every reported account-number match is a standalone run of 9 to 18 digits |
| DigitPatterns.AccountScanComplete | Backend/pii_analyzer.py:50 | every standalone run of 9 to 18 digits is reported |
| DigitPatterns.SsnStrictRejectsBareDigits | Backend/nlp/pii_detector.py:7 | the dashed ssn pattern does not match "123456789" |
| AnalyzePiiContent.Block | Backend/analyze_pii_content.py:68-76 | one record per match of a category's pattern, with its text, start, end and confidence 0.9 |
| AnalyzePiiContent.DetectPiiRegex | Backend/analyze_pii_content.py:52-78 | the nested loops compute `RegexRecords`, the category blocks in table order |
| AnalyzePiiContent.RegexRecordsPrefix | Backend/analyze_pii_content.py:67-76 | the records of the first j categories are a prefix of all records |
| AnalyzePiiContent.RecordsGroupedByCategory | Backend/analyze_pii_content.py:56-77 | category j's block follows the blocks before it and holds its matches over the whole text, in order, with span and confidence 0.9 |
| AnalyzePiiContent.DetectEntities | Backend/analyze_pii_content.py:103-123 | the NER loop computes `EntityRecords` |
| AnalyzePiiContent.EntityRecordsFilter | Backend/analyze_pii_content.py:107-121 | [] without a model; the error of `nlp(text)` iff it raises; otherwise exactly the PERSON, ORG, GPE, DATE, MONEY and CARDINAL entities, in order, lower-cased, confidence 0.8 |
| AnalyzePiiContent.LowerOfKept | Backend/analyze_pii_content.py:116 | a kept entity's type is one of the six lower-cased labels |
| AnalyzePiiContent.ReplaceNumericalPii | Backend/analyze_pii_content.py:33-50 | substitutes in the order phone, ssn, credit_card, aadhaar, account_number |
| AnalyzePiiContent.SubstitutionOrder | Backend/analyze_pii_content.py:35-49 | identity on empty dummy data; with ssn and card values, the ssn substitution runs first and its error ends the loop, else the card one runs on its output |
| AnalyzePiiContent.RedactBoxes | Backend/analyze_pii_content.py:125-154 | the drawing loop computes `RedactedPath` |
| AnalyzePiiContent.Unpacked | Backend/analyze_pii_content.py:138 | `x1, y1, x2, y2 = box['bbox']` succeeds iff the value is a list or string of four items; too many list items give "too many values to unpack (expected 4)", a number, bool or None gives "cannot unpack non-iterable <type> object" |
| AnalyzePiiContent.DrawFailurePersists | Backend/analyze_pii_content.py:137-140 | once a box raises, drawing fails as a whole |
| AnalyzePiiContent.BoxesWithoutBboxSkipped | Backend/analyze_pii_content.py:137-140 | dropping the boxes without 'bbox' changes nothing |
| AnalyzePiiContent.DefaultPathRewritesEveryDot | Backend/analyze_pii_content.py:143-144 | the default output path maps every '.' of the image path to '_redacted.' |
| AnalyzePiiContent.DefaultPathOfTwoDots | Backend/analyze_pii_content.py:143-144 | a.b.ext becomes a_redacted.b_redacted.ext, as "a.b.png" becomes "a_redacted.b_redacted.png" |
| AnalyzePiiContent.FailureGivesImagePath | Backend/analyze_pii_content.py:133-154 | a failure in opening, drawing or saving returns the original image path |
| PiiPlugins.Registry | Backend/pii_plugins.py:78-82 | the registry is built iff loading the dummy data does not raise, and then holds exactly the three service names |
| PiiPlugins.GetPiiService | Backend/pii_plugins.py:84-90 | the returned service is always a registered one |
| PiiPlugins.ServiceFallback | Backend/pii_plugins.py:84-90 | google_dlp and azure_pii select their services; any other name selects the internal service with the loaded dummy values |
| PiiPlugins.InternalRegexCounts | Backend/pii_plugins.py:23-33 | fails iff the substitution raises; else count = total matches (0 iff nothing found), original text kept, sanitized text from the stored dummy values |
| PiiPlugins.InternalRegexSearchesBlankText | Backend/pii_plugins.py:23-33 | the internal service has no blank-text short cut |
| PiiPlugins.GoogleDlpMasksItsAddress | Backend/pii_plugins.py:43-54 | count 2, the single finding ("email", [the fixed address]), no occurrence of the address left, and a text without it unchanged |
| PiiPlugins.AzurePiiMasksItsPhone | Backend/pii_plugins.py:63-74 | count 1, the fixed phone listed, no occurrence of it left, and a text without it unchanged |
| Strings.ReplaceAllRemoves | Backend/pii_plugins.py:53 | a replacement sharing no character with the pattern leaves no occurrence of it |
| Strings.ReplaceAllWithout | Backend/pii_plugins.py:73 | `replace` on a text without the pattern returns it unchanged |
| TextExtractor.ExtractText | Backend/text_extractor.py:7-35 | the dispatch and the page loop compute `Extracted` |
| TextExtractor.Outcome | Backend/text_extractor.py:33-35 | a failure becomes the fixed prefix followed by the error's message |
| TextExtractor.ImageBeforePdf | Backend/text_extractor.py:12-16 | a type containing "image" goes to OCR even if it also contains "pdf" |
| TextExtractor.UnsupportedWithoutMarker | Backend/text_extractor.py:30-31 | a type with none of the markers gives the fixed unsupported message |
| TextExtractor.PlainTextRoundTrip | Backend/text_extractor.py:23-24 | text encoded as UTF-8 is decoded back unchanged |
| Utf8.DecodeEncode | Backend/text_extractor.py:24 | decoding with errors='ignore' inverts UTF-8 encoding |
| Utf8.DecodeDropsStrayByte | Backend/text_extractor.py:24 | a byte that cannot start a sequence is dropped |
| TextExtractor.PdfPagesInOrder | Backend/text_extractor.py:16-21 | the PDF text holds each page's text at its offset, in page order, with no separator |
| TextExtractor.DocxParagraphsRecoverable | Backend/text_extractor.py:26-28 | the DOCX text splits at '\n' back into the paragraphs when none holds a newline |
| TextExtractor.FailureBecomesMessage | Backend/text_extractor.py:33-35 | a failing reader yields the error message, never an exception |
| TesseractOcr.ExtractTextWithBoxes | Backend/ocr/tesseract_ocr.py:4-17 | the loop computes `TextWithBoxes`, propagating any exception |
| TesseractOcr.ReadRow | Backend/ocr/tesseract_ocr.py:13-16 | one iteration: IndexError when a read column is too short, nothing for a blank text, else the stripped text with its box |
| TesseractOcr.ExtractKeepsRowsWithText | Backend/ocr/tesseract_ocr.py:11-16 | keeps, in order, exactly the rows with non-empty stripped text, with box (x, y, w, h) |
| TesseractOcr.StoredTextIsStripped | Backend/ocr/tesseract_ocr.py:13-16 | every stored text is non-empty and equal to its own strip |
| TesseractOcr.AtMostOneEntryPerRow | Backend/ocr/tesseract_ocr.py:11-16 | at most `len(data['level'])` entries |
| TesseractOcr.ConfidenceIgnored | Backend/ocr/tesseract_ocr.py:11-16 | the `conf` column plays no part |
| PiiDetector.DetectPiiRegex | Backend/nlp/pii_detector.py:11-17 | the loop computes `AllMatches`, the findall results concatenated in table order |
| PiiDetector.ResultLayout | Backend/nlp/pii_detector.py:4-17 | result = emails + phones + ssns + aadhaars, no labels; phones are pairs, the rest whole strings |
| PiiDetector.SsnMatchesHaveDashes | Backend/nlp/pii_detector.py:7 | with a Python-faithful engine every ssn is 11 characters with dashes at offsets 3 and 6 |
| DigitPatterns.SsnStrictHasDashes | Backend/nlp/pii_detector.py:7 | a strict-ssn match spans 11 characters with '-' at offsets 3 and 6 |
| DigitPatterns.AadhaarHasSpaces | Backend/nlp/pii_detector.py:8 | an aadhaar match spans 14 characters: four digits, whitespace, four digits, whitespace, four digits |
| PiiDetector.AadhaarMatchesAreSpaced | Backend/nlp/pii_detector.py:8 | with an engine that agrees with the aadhaar scanner, every aadhaar result is 14 characters with whitespace at offsets 4 and 9 |
| DigitPatterns.SsnLooseAcceptsBareDigits | Backend/pii_analyzer.py:47 | the optional-dash ssn pattern matches "123456789" |
| Redactor.Grid | Backend/redaction/redactor.py:3-19 | the pixel rows of an image, of its height and width |
| Redactor.Crop | Backend/redaction/redactor.py:16 | the cropped region is h rows of w pixels |
| Redactor.Copy | Backend/redaction/redactor.py:9 | a fresh image with the same pixels |
| Redactor.FillBlack | Backend/redaction/redactor.py:13-14 | the image becomes `Blackbox` of its previous pixels |
| Redactor.PasteBlurred | Backend/redaction/redactor.py:15-18 | the image becomes `Blurred` of its previous pixels, the crop taken before pasting |
| Redactor.RedactBoxes | Backend/redaction/redactor.py:3-19 | the input is unchanged; a fresh copy of its size is returned with every box applied in list order; boxes must be drawable only under 'blackbox' and 'blur' |
| Redactor.RedactedKeepsShape | Backend/redaction/redactor.py:9-19 | redaction keeps the image's shape |
| Redactor.BlackboxCoversUnion | Backend/redaction/redactor.py:12-14 | with 'blackbox' a pixel ends black iff some box's (x, y)-(x+w, y+h) rectangle covers it, else keeps its value |
| Redactor.BlurTouchesOnlyRegions | Backend/redaction/redactor.py:15-18 | with 'blur' pixels outside every region keep their value; the last box's region holds the blur of the crop after the earlier boxes |
| Redactor.OtherMethodUnchanged | Backend/redaction/redactor.py:12-19 | any other method returns an unchanged copy, whatever the boxes |

## Left out

- HTTP routing and request parsing, file saving and serving, logging, printing, and the audit logger are left out, because they are I/O or side effects.
- `processing_time` is left out of the response, because it depends on the clock.
- A request body that is JSON but not an object is left out: the request is an optional map.
- Tesseract, spaCy, PyMuPDF, python-docx, Pillow and werkzeug are parameters. Their internals are not modelled.
- YOLO signature detection is a parameter that returns boxes.
- Pillow pixel maths and GaussianBlur are left out: drawing fills whole pixels, and the blur is a function parameter.
- Python's regex engine is uninterpreted. Only `\b\d{9,18}\b`, the ssn patterns and the aadhaar pattern have concrete scanners, with ASCII `\d` and `\b`; the card pattern has none. Which templates `re.sub` rejects is the engine's `template` component; the model does not parse templates itself.
- `\d`, `\w` (behind `\b`) and `lower()` are ASCII-only in the model. Python's are Unicode-aware, so Unicode digits or letters in a text differ. `allowed_file` is unaffected, as noted above. `\s` and `strip()` follow Python's full `str.isspace` set.
- JsonValues.TypeName: a JSON number is "int" when it is whole, else "float". A whole number written with a decimal point (`1.0`) is a float in Python.
- OCR `conf` values are numbers. A string confidence, as some Tesseract versions emit, is not modelled.
- Redactor.RedactBoxes: under 'blackbox' and 'blur' it requires every box to have non-negative width and height, because Pillow raises otherwise; that exception is not modelled. Other method names accept any boxes.
- AnalyzePiiContent.Unpacked: a 'bbox' object with exactly four keys unpacks into its keys in insertion order, which the model's maps do not keep; the model reports it as a drawing failure, and `redact_boxes` returns `image_path` either way.
- `redact_boxes` in `pii_analyzer.py` is left out: it draws on the passed image and ignores its output path.
- `load_dummy_data` in `analyze_pii_content.py` is left out: it uses `json` without importing it.
- `Backend/nlp/spacy_ner.py`, `Backend/main.py`, `Backend/config.py`, `Backend/vision/yolo_signature_detector.py` and `Backend/static/script.js` are not part of this model.
- `pii_plugins.py` imports `scripts.pii_analyzer`, which is not in the repository. It is taken to be `Backend/pii_analyzer.py`.
- The ', '.join of the allowed-extension set in the upload error message is a parameter, because set order depends on string hashing.
- PiiPlugins.InternalRegexSearchesBlankText and AnalyzePiiContent.FailureGivesImagePath follow from their definitions alone.
