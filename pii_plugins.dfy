/**
 * The PII service plugins: the internal regex service built on the analyzer,
 * two placeholder cloud services with fixed answers, and the registry that
 * falls back to the internal service for an unknown name.
 */
module PiiPlugins {
  import opened Wrappers
  import opened Strings
  import opened Regex
  import opened JsonValues
  import opened Substitution
  import PiiAnalyzer

  /** The three registered services; the internal one keeps the dummy values it loaded when created. */
  datatype Service =
    | InternalRegex(dummyValues: map<string, Json>)
    | GoogleDlp
    | AzurePii

  /** The fixed address the Google placeholder reports and the text it puts in its place. */
  const GoogleAddress: string := "found.by.google@example.com"
  const GoogleMask: string := "[REDACTED BY GOOGLE]"

  /** The fixed phone number the Azure placeholder reports and the text it puts in its place. */
  const AzurePhone: string := "987-654-3210"
  const AzureMask: string := "[REDACTED BY AZURE]"

  /**
   * `service.analyze(text)`. The internal service detects with the six
   * analyzer patterns, sums the list lengths, and substitutes its dummy
   * values; a substitution that raises propagates. The placeholders answer
   * with fixed counts and findings and replace their fixed string.
   */
  function Analyze(e: Engine, service: Service, text: string): Result<PiiAnalyzer.Analysis> {
    match service
    case InternalRegex(dummy) =>
      var piiData := PiiAnalyzer.Detected(e, PiiAnalyzer.PiiPatterns, text);
      (match Applied(e, PiiAnalyzer.NumericalRules, dummy, text)
       case Err(x) => Err(x)
       case Ok(sanitized) => Ok(PiiAnalyzer.Analysis(PiiAnalyzer.PiiCount(piiData), piiData, text, sanitized)))
    case GoogleDlp =>
      Ok(PiiAnalyzer.Analysis(2, [("email", [Str(GoogleAddress)])], text, ReplaceAll(text, GoogleAddress, GoogleMask)))
    case AzurePii =>
      Ok(PiiAnalyzer.Analysis(1, [("phone", [Str(AzurePhone)])], text, ReplaceAll(text, AzurePhone, AzureMask)))
  }

  /**
   * `_services`, built when the module loads: creating the internal service
   * loads the dummy data, and an exception there fails the import.
   */
  function Registry(dummyFile: Option<Json>): (r: Result<map<string, Service>>)
    ensures r.Ok? <==> PiiAnalyzer.LoadDummyData(dummyFile).Ok?
    ensures r.Ok? ==> r.value.Keys == {"internal_regex", "google_dlp", "azure_pii"}
  {
    match PiiAnalyzer.LoadDummyData(dummyFile)
    case Err(x) => Err(x)
    case Ok(dummy) =>
      Ok(map["internal_regex" := InternalRegex(dummy), "google_dlp" := GoogleDlp, "azure_pii" := AzurePii])
  }

  /** `get_pii_service(name)`: the registered service, or the internal one for any other name. */
  function GetPiiService(services: map<string, Service>, name: string): (s: Service)
    requires "internal_regex" in services
    ensures s in services.Values
  {
    if name in services then services[name] else services["internal_regex"]
  }

  /**
   * With the registry as built, the three names select their services and
   * every other name selects the internal regex service, which carries the
   * loaded dummy values.
   */
  lemma ServiceFallback(dummyFile: Option<Json>, name: string)
    requires Registry(dummyFile).Ok?
    ensures var s := GetPiiService(Registry(dummyFile).value, name);
      && (name == "google_dlp" <==> s == GoogleDlp)
      && (name == "azure_pii" <==> s == AzurePii)
      && (name != "google_dlp" && name != "azure_pii" <==> s == InternalRegex(PiiAnalyzer.LoadDummyData(dummyFile).value))
  {
  }

  /**
   * The internal service reports the original text and, as its count, the
   * total number of matches of the analyzer's patterns, zero exactly when it
   * found nothing; its sanitized text is the ordered substitution with the
   * dummy values it was created with, and it fails only when that raises.
   */
  lemma InternalRegexCounts(e: Engine, dummy: map<string, Json>, text: string)
    ensures Analyze(e, InternalRegex(dummy), text).Err? <==> Applied(e, PiiAnalyzer.NumericalRules, dummy, text).Err?
    ensures Analyze(e, InternalRegex(dummy), text).Ok? ==>
      var a := Analyze(e, InternalRegex(dummy), text).value;
      && a.originalText == text
      && a.piiFound == PiiAnalyzer.Detected(e, PiiAnalyzer.PiiPatterns, text)
      && a.piiCount == PiiAnalyzer.TotalMatches(e, PiiAnalyzer.PiiPatterns, text)
      && (a.piiCount == 0 <==> a.piiFound == [])
      && a.sanitizedText == Applied(e, PiiAnalyzer.NumericalRules, dummy, text).value
  {
    PiiAnalyzer.PiiCountIsTotalMatches(e, PiiAnalyzer.PiiPatterns, text);
    PiiAnalyzer.CountZeroIffNothingDetected(e, PiiAnalyzer.PiiPatterns, text);
  }

  /**
   * Unlike the analyzer's own pipeline, the internal service does not
   * short-cut a blank text: a text of spaces is still searched and substituted.
   */
  lemma InternalRegexSearchesBlankText(e: Engine, dummy: map<string, Json>, text: string)
    requires IsBlank(text) && Applied(e, PiiAnalyzer.NumericalRules, dummy, text).Ok?
    ensures Analyze(e, InternalRegex(dummy), text).Ok?
    ensures Analyze(e, InternalRegex(dummy), text).value.sanitizedText == Applied(e, PiiAnalyzer.NumericalRules, dummy, text).value
  {
  }

  /** The characters of the placeholder masks: capitals, spaces and brackets. */
  predicate MaskChar(c: char) {
    'A' <= c <= 'Z' || c == ' ' || c == '[' || c == ']'
  }

  /** A mask shares no character with a string none of whose characters is a mask character. */
  lemma MaskDisjoint(mask: string, s: string)
    requires forall i :: 0 <= i < |mask| ==> MaskChar(mask[i])
    requires forall j :: 0 <= j < |s| ==> !MaskChar(s[j])
    ensures Disjoint(mask, s)
  {
  }

  /**
   * The Google placeholder always reports two findings but lists one, the
   * fixed e-mail address; no occurrence of that address survives in the
   * sanitized text, and a text without it comes back unchanged.
   */
  lemma GoogleDlpMasksItsAddress(e: Engine, text: string)
    ensures var a := Analyze(e, GoogleDlp, text);
      a.Ok? && a.value.piiCount == 2 && a.value.piiFound == [("email", [Str(GoogleAddress)])]
      && a.value.originalText == text
      && !Contains(a.value.sanitizedText, GoogleAddress)
      && (!Contains(text, GoogleAddress) ==> a.value.sanitizedText == text)
  {
    MaskDisjoint(GoogleMask, GoogleAddress);
    ReplaceAllRemoves(text, GoogleAddress, GoogleMask);
    if !Contains(text, GoogleAddress) {
      ReplaceAllWithout(text, GoogleAddress, GoogleMask);
    }
  }

  /**
   * The Azure placeholder always reports one finding, the fixed phone
   * number; no occurrence of it survives, and a text without it comes back
   * unchanged.
   */
  lemma AzurePiiMasksItsPhone(e: Engine, text: string)
    ensures var a := Analyze(e, AzurePii, text);
      a.Ok? && a.value.piiCount == 1 && a.value.piiFound == [("phone", [Str(AzurePhone)])]
      && a.value.originalText == text
      && !Contains(a.value.sanitizedText, AzurePhone)
      && (!Contains(text, AzurePhone) ==> a.value.sanitizedText == text)
  {
    MaskDisjoint(AzureMask, AzurePhone);
    ReplaceAllRemoves(text, AzurePhone, AzureMask);
    if !Contains(text, AzurePhone) {
      ReplaceAllWithout(text, AzurePhone, AzureMask);
    }
  }
}
