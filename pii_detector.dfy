/** The flat matcher: `findall` of four patterns, concatenated into one list without the category names. */
module PiiDetector {
  import opened Regex
  import DigitPatterns
  import Strings

  const EmailPattern: Pattern := Pattern(@"\b[A-Za-z0-9._%+-]+@[A-Za-z0-9.-]+\.[A-Z|a-z]{2,}\b", 0, false)
  /** Two capturing groups: the optional country code and the last repetition of the area/exchange group. */
  const PhonePattern: Pattern := Pattern(@"\b(\+?\d{1,3}[-.\s]?)?(\(?\d{3}\)?[-.\s]?){1,2}\d{4}\b", 2, false)
  /** Here the dashes are required. */
  const SsnPattern: Pattern := Pattern(@"\b\d{3}-\d{2}-\d{4}\b", 0, false)
  const AadhaarPattern: Pattern := Pattern(@"\b\d{4}\s\d{4}\s\d{4}\b", 0, false)

  /** `PII_PATTERNS`, in dictionary order; no flags are passed to `findall`. */
  const PiiPatterns: seq<(string, Pattern)> := [
    ("email", EmailPattern),
    ("phone", PhonePattern),
    ("ssn", SsnPattern),
    ("aadhaar", AadhaarPattern)
  ]

  /** The `findall` results of the rows of `table`, one after the other. */
  function AllMatches(e: Engine, table: seq<(string, Pattern)>, text: string): seq<Found> {
    if |table| == 0 then []
    else AllMatches(e, table[..|table| - 1], text) + FindAll(e, table[|table| - 1].1, text)
  }

  method DetectPiiRegex(e: Engine, text: string) returns (matches: seq<Found>)
    ensures matches == AllMatches(e, PiiPatterns, text)
  {
    matches := [];
    var i := 0;
    while i < |PiiPatterns|
      invariant 0 <= i <= |PiiPatterns|
      invariant matches == AllMatches(e, PiiPatterns[..i], text)
    {
      assert PiiPatterns[..i + 1][..i] == PiiPatterns[..i];
      var pattern := PiiPatterns[i].1;
      var found := FindAll(e, pattern, text);
      matches := matches + found;
      i := i + 1;
    }
    assert PiiPatterns[..i] == PiiPatterns;
  }

  /**
   * The result is the email matches, then the phone matches, then the ssn
   * matches, then the aadhaar matches. Only the phone part holds tuples,
   * each a pair of groups; every other entry is a whole matched string.
   */
  lemma ResultLayout(e: Engine, text: string)
    ensures var emails := FindAll(e, EmailPattern, text);
      var phones := FindAll(e, PhonePattern, text);
      var ssns := FindAll(e, SsnPattern, text);
      var aadhaars := FindAll(e, AadhaarPattern, text);
      && AllMatches(e, PiiPatterns, text) == emails + phones + ssns + aadhaars
      && (forall x :: x in phones ==> x.Tuple? && |x.items| == 2)
      && (forall x :: x in emails + ssns + aadhaars ==> x.Str?)
  {
    assert PiiPatterns[..4] == PiiPatterns;
    assert PiiPatterns[..4][..3] == PiiPatterns[..3];
    assert PiiPatterns[..3][..2] == PiiPatterns[..2];
    assert PiiPatterns[..2][..1] == PiiPatterns[..1];
    assert PiiPatterns[..1][..0] == PiiPatterns[..0];
    var emails := FindAll(e, EmailPattern, text);
    var phones := FindAll(e, PhonePattern, text);
    assert AllMatches(e, PiiPatterns[..1], text) == [] + emails == emails;
    assert AllMatches(e, PiiPatterns[..2], text) == emails + phones;
    assert AllMatches(e, PiiPatterns[..3], text) == emails + phones + FindAll(e, SsnPattern, text);
    forall x | x in phones ensures x.Tuple? && |x.items| == 2 {
      var i :| 0 <= i < |phones| && phones[i] == x;
      FindAllTuples(e, PhonePattern, text, i);
    }
  }

  /** With an engine that matches `\b\d{3}-\d{2}-\d{4}\b` as Python does, every ssn is 11 characters with dashes at offsets 3 and 6. */
  lemma SsnMatchesHaveDashes(e: Engine, text: string)
    requires e.finditer(SsnPattern, text) == DigitPatterns.TemplateMatches(text, DigitPatterns.SsnStrict)
    ensures forall x :: x in FindAll(e, SsnPattern, text) ==>
      x.Str? && |x.s| == 11 && x.s[3] == '-' && x.s[6] == '-'
  {
    DigitPatterns.TemplatesWellFormed();
    var ms := e.finditer(SsnPattern, text);
    forall x | x in FindAll(e, SsnPattern, text)
      ensures x.Str? && |x.s| == 11 && x.s[3] == '-' && x.s[6] == '-'
    {
      var i :| 0 <= i < |ms| && x == FindAllItem(SsnPattern, ms[i]);
      var m := ms[i];
      DigitPatterns.SsnStrictHasDashes(text, m);
      DigitPatterns.TemplateMatchesSound(text, DigitPatterns.SsnStrict, m);
      assert x.s == text[m.start..m.end];
      assert x.s[3] == text[m.start + 3] && x.s[6] == text[m.start + 6];
    }
  }

  /**
   * With an engine that matches `\b\d{4}\s\d{4}\s\d{4}\b` as the aadhaar
   * scanner does, every aadhaar number is 14 characters with whitespace at
   * offsets 4 and 9.
   */
  lemma AadhaarMatchesAreSpaced(e: Engine, text: string)
    requires e.finditer(AadhaarPattern, text) == DigitPatterns.TemplateMatches(text, DigitPatterns.Aadhaar)
    ensures forall x :: x in FindAll(e, AadhaarPattern, text) ==>
      x.Str? && |x.s| == 14 && Strings.IsSpace(x.s[4]) && Strings.IsSpace(x.s[9])
  {
    DigitPatterns.TemplatesWellFormed();
    var ms := e.finditer(AadhaarPattern, text);
    forall x | x in FindAll(e, AadhaarPattern, text)
      ensures x.Str? && |x.s| == 14 && Strings.IsSpace(x.s[4]) && Strings.IsSpace(x.s[9])
    {
      var i :| 0 <= i < |ms| && x == FindAllItem(AadhaarPattern, ms[i]);
      var m := ms[i];
      DigitPatterns.AadhaarHasSpaces(text, m);
      DigitPatterns.TemplateMatchesSound(text, DigitPatterns.Aadhaar, m);
      assert x.s == text[m.start..m.end];
      assert x.s[4] == text[m.start + 4] && x.s[9] == text[m.start + 9];
    }
  }
}
