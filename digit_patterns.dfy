/**
 * Concrete matchers for the patterns built only from `\b`, `\d`, `-` and
 * `\s`: `\b\d{9,18}\b` (account numbers), `\b\d{4}\s\d{4}\s\d{4}\b`
 * (aadhaar), `\b\d{3}-?\d{2}-?\d{4}\b` and `\b\d{3}-\d{2}-\d{4}\b` (social
 * security numbers, loose and strict). `\d` and the word characters behind
 * `\b` are taken in their ASCII sense; `\s` is the full `str.isspace` set.
 * Each scans the text left to right the way `re.finditer` does: after a
 * match it resumes at the match's end, after a failure at the next
 * position. Case folding does not affect any of them.
 */
module DigitPatterns {
  import opened Wrappers
  import opened Strings
  import opened Regex

  /** `\b` before a match that begins with a word character. */
  predicate StartsWord(s: string, p: nat)
    requires p <= |s|
  {
    p == 0 || !IsWordChar(s[p - 1])
  }

  /** `\b` after a match that ends with a word character. */
  predicate EndsWord(s: string, q: nat)
    requires q <= |s|
  {
    q == |s| || !IsWordChar(s[q])
  }

  /** Every character of `s[i..j]` is a digit. */
  predicate DigitsBetween(s: string, i: nat, j: nat)
    requires i <= j <= |s|
  {
    forall k :: i <= k < j ==> IsDigit(s[k])
  }

  /** The end of the run of digits that starts at `i`. */
  function DigitRunEnd(s: string, i: nat): (j: nat)
    requires i <= |s|
    ensures i <= j <= |s| && DigitsBetween(s, i, j)
    ensures j == |s| || !IsDigit(s[j])
    decreases |s| - i
  {
    if i < |s| && IsDigit(s[i]) then DigitRunEnd(s, i + 1) else i
  }

  /** A run of digits ends exactly where the next non-digit is. */
  lemma {:induction false} DigitRunEndIs(s: string, i: nat, j: nat)
    requires i <= j <= |s| && DigitsBetween(s, i, j) && (j == |s| || !IsDigit(s[j]))
    ensures DigitRunEnd(s, i) == j
    decreases j - i
  {
    if i < j {
      DigitRunEndIs(s, i + 1, j);
    }
  }

  // ---------------------------------------------------------------------
  // \b\d{9,18}\b

  /**
   * `s[i..j]` is a whole run of digits with no word character on either
   * side: neither a letter, nor another digit, nor an underscore.
   */
  predicate StandaloneDigits(s: string, i: nat, j: nat) {
    i < j <= |s| && DigitsBetween(s, i, j) && StartsWord(s, i) && EndsWord(s, j)
  }

  function AccountScanFrom(s: string, p: nat): seq<Match>
    requires p <= |s|
    decreases |s| - p
  {
    if p == |s| then []
    else
      var q := DigitRunEnd(s, p);
      if StartsWord(s, p) && 9 <= q - p <= 18 && EndsWord(s, q)
      then [Match(s[p..q], p, q, [])] + AccountScanFrom(s, q)
      else AccountScanFrom(s, p + 1)
  }

  /** `re.finditer(r'\b\d{9,18}\b', s)`. */
  function AccountNumberMatches(s: string): seq<Match> {
    AccountScanFrom(s, 0)
  }

  /** What an account-number match is: a standalone run of 9 to 18 digits. */
  predicate IsAccountMatch(s: string, m: Match) {
    && StandaloneDigits(s, m.start, m.end)
    && 9 <= m.end - m.start <= 18
    && m.text == s[m.start..m.end]
    && m.groups == []
  }

  lemma {:induction false} AccountScanSound(s: string, p: nat)
    requires p <= |s|
    ensures forall m :: m in AccountScanFrom(s, p) ==> p <= m.start && IsAccountMatch(s, m)
    decreases |s| - p
  {
    if p < |s| {
      var q := DigitRunEnd(s, p);
      if StartsWord(s, p) && 9 <= q - p <= 18 && EndsWord(s, q) {
        AccountScanSound(s, q);
      } else {
        AccountScanSound(s, p + 1);
      }
    }
  }

  lemma {:induction false} AccountScanComplete(s: string, p: nat, i: nat, j: nat)
    requires p <= i && StandaloneDigits(s, i, j) && 9 <= j - i <= 18
    ensures Match(s[i..j], i, j, []) in AccountScanFrom(s, p)
    decreases |s| - p
  {
    var q := DigitRunEnd(s, p);
    if p == i {
      DigitRunEndIs(s, i, j);
    } else if StartsWord(s, p) && 9 <= q - p <= 18 && EndsWord(s, q) {
      assert !IsDigit(s[i - 1]);
      AccountScanComplete(s, q, i, j);
    } else {
      AccountScanComplete(s, p + 1, i, j);
    }
  }

  /** The account-number matches are exactly the standalone runs of 9 to 18 digits. */
  lemma AccountNumberMatchesExactly(s: string, m: Match)
    ensures m in AccountNumberMatches(s) <==> IsAccountMatch(s, m)
  {
    AccountScanSound(s, 0);
    if IsAccountMatch(s, m) {
      AccountScanComplete(s, 0, m.start, m.end);
    }
  }

  /** A run of more than 18 digits yields no match at all, not even a part of it. */
  lemma AccountNumberLongRun(s: string)
    requires |s| > 18 && DigitsBetween(s, 0, |s|)
    ensures AccountNumberMatches(s) == []
  {
    LongRunScan(s, 0);
  }

  lemma {:induction false} LongRunScan(s: string, p: nat)
    requires |s| > 18 && DigitsBetween(s, 0, |s|) && p <= |s|
    ensures AccountScanFrom(s, p) == []
    decreases |s| - p
  {
    if p < |s| {
      if p == 0 {
        DigitRunEndIs(s, 0, |s|);
      } else {
        assert IsDigit(s[p - 1]);
      }
      LongRunScan(s, p + 1);
    }
  }

  // ---------------------------------------------------------------------
  // Fixed-width digit templates

  /** The separator classes the templates use: `-` and `\s`. */
  datatype Separator = Dash | Space

  predicate InSeparator(c: char, k: Separator) {
    match k
    case Dash => c == '-'
    case Space => IsSpace(c)
  }

  /** One element of a template: `\d{n}`, a separator, or an optional separator (`?`). */
  datatype Piece = Digits(count: nat) | Sep(cls: Separator) | OptSep(cls: Separator)

  /**
   * The template starts and ends with digits, and every optional separator
   * is followed by digits; so a separator can never be mistaken for the
   * digits after it, and taking an optional separator whenever it is there
   * is the only choice that can succeed.
   */
  predicate WellFormed(t: seq<Piece>) {
    && |t| > 0
    && t[0].Digits? && t[0].count > 0
    && t[|t| - 1].Digits? && t[|t| - 1].count > 0
    && OptionalsBeforeDigits(t)
  }

  predicate OptionalsBeforeDigits(t: seq<Piece>) {
    forall i :: 0 <= i < |t| && t[i].OptSep? ==> i + 1 < |t| && t[i + 1].Digits? && t[i + 1].count > 0
  }

  /** The regular-expression reading of a template: some choice of the optional separators spells `s[p..q]`. */
  predicate Spells(s: string, p: nat, t: seq<Piece>, q: nat)
    requires p <= q <= |s|
    decreases |t|
  {
    if |t| == 0 then p == q
    else match t[0]
      case Digits(n) => p + n <= q && DigitsBetween(s, p, p + n) && Spells(s, p + n, t[1..], q)
      case Sep(k) => p < q && InSeparator(s[p], k) && Spells(s, p + 1, t[1..], q)
      case OptSep(k) =>
        (p < q && InSeparator(s[p], k) && Spells(s, p + 1, t[1..], q)) || Spells(s, p, t[1..], q)
  }

  /** Matches a template at `p` without backtracking: an optional separator is taken whenever present. */
  function MatchPieces(s: string, p: nat, t: seq<Piece>): (r: Option<nat>)
    requires p <= |s|
    ensures r.Some? ==> p <= r.value <= |s|
    ensures r.Some? && |t| > 0 && t[0].Digits? ==> r.value >= p + t[0].count
    decreases |t|
  {
    if |t| == 0 then Some(p)
    else match t[0]
      case Digits(n) =>
        if p + n <= |s| && DigitsBetween(s, p, p + n) then MatchPieces(s, p + n, t[1..]) else None
      case Sep(k) =>
        if p < |s| && InSeparator(s[p], k) then MatchPieces(s, p + 1, t[1..]) else None
      case OptSep(k) =>
        if p < |s| && InSeparator(s[p], k) then MatchPieces(s, p + 1, t[1..]) else MatchPieces(s, p, t[1..])
  }

  lemma OptionalsBeforeDigitsTail(t: seq<Piece>)
    requires |t| > 0 && OptionalsBeforeDigits(t)
    ensures OptionalsBeforeDigits(t[1..])
  {
    forall i | 0 <= i < |t[1..]| && t[1..][i].OptSep?
      ensures i + 1 < |t[1..]| && t[1..][i + 1].Digits? && t[1..][i + 1].count > 0
    {
      assert t[1..][i] == t[i + 1];
    }
  }

  /** The greedy matcher finds an end exactly when the template spells the text up to it. */
  lemma {:induction false} MatchPiecesIffSpells(s: string, p: nat, t: seq<Piece>, q: nat)
    requires p <= q <= |s| && OptionalsBeforeDigits(t)
    ensures MatchPieces(s, p, t) == Some(q) <==> Spells(s, p, t, q)
    decreases |t|
  {
    if |t| > 0 {
      OptionalsBeforeDigitsTail(t);
      match t[0]
      case Digits(n) =>
        if p + n <= q {
          MatchPiecesIffSpells(s, p + n, t[1..], q);
        }
      case Sep(k) =>
        if p < q {
          MatchPiecesIffSpells(s, p + 1, t[1..], q);
        }
      case OptSep(k) =>
        assert t[1..][0] == t[1];
        MatchPiecesIffSpells(s, p, t[1..], q);
        if p < q {
          MatchPiecesIffSpells(s, p + 1, t[1..], q);
        }
        if p < |s| {
          assert InSeparator(s[p], k) ==> !IsDigit(s[p]);
        }
    }
  }

  function TemplateScanFrom(s: string, t: seq<Piece>, p: nat): seq<Match>
    requires p <= |s| && WellFormed(t)
    decreases |s| - p
  {
    if p == |s| then []
    else
      var r := MatchPieces(s, p, t);
      if StartsWord(s, p) && r.Some? && EndsWord(s, r.value)
      then [Match(s[p..r.value], p, r.value, [])] + TemplateScanFrom(s, t, r.value)
      else TemplateScanFrom(s, t, p + 1)
  }

  /** `re.finditer` for the pattern a well-formed template stands for. */
  function TemplateMatches(s: string, t: seq<Piece>): seq<Match>
    requires WellFormed(t)
  {
    TemplateScanFrom(s, t, 0)
  }

  /** What a template match is: a span the template spells, with `\b` on both sides. */
  predicate IsTemplateMatch(s: string, t: seq<Piece>, m: Match) {
    && m.start <= m.end <= |s|
    && Spells(s, m.start, t, m.end)
    && StartsWord(s, m.start)
    && EndsWord(s, m.end)
    && m.text == s[m.start..m.end]
    && m.groups == []
  }

  lemma {:induction false} TemplateScanSound(s: string, t: seq<Piece>, p: nat)
    requires p <= |s| && WellFormed(t)
    ensures forall m :: m in TemplateScanFrom(s, t, p) ==> p <= m.start && IsTemplateMatch(s, t, m)
    decreases |s| - p
  {
    if p < |s| {
      var r := MatchPieces(s, p, t);
      if StartsWord(s, p) && r.Some? && EndsWord(s, r.value) {
        MatchPiecesIffSpells(s, p, t, r.value);
        TemplateScanSound(s, t, r.value);
      } else {
        TemplateScanSound(s, t, p + 1);
      }
    }
  }

  /** Every match the scanner reports is a span the pattern spells between two word boundaries. */
  lemma TemplateMatchesSound(s: string, t: seq<Piece>, m: Match)
    requires WellFormed(t) && m in TemplateMatches(s, t)
    ensures IsTemplateMatch(s, t, m)
  {
    TemplateScanSound(s, t, 0);
  }

  /** `\b\d{3}-?\d{2}-?\d{4}\b` */
  const SsnLoose: seq<Piece> := [Digits(3), OptSep(Dash), Digits(2), OptSep(Dash), Digits(4)]
  /** `\b\d{3}-\d{2}-\d{4}\b` */
  const SsnStrict: seq<Piece> := [Digits(3), Sep(Dash), Digits(2), Sep(Dash), Digits(4)]
  /** `\b\d{4}\s\d{4}\s\d{4}\b` */
  const Aadhaar: seq<Piece> := [Digits(4), Sep(Space), Digits(4), Sep(Space), Digits(4)]

  lemma TemplatesWellFormed()
    ensures WellFormed(SsnLoose) && WellFormed(SsnStrict) && WellFormed(Aadhaar)
  {
  }

  /** A strict social security number has its dashes at offsets 3 and 6 and is 11 characters long. */
  lemma SsnStrictHasDashes(s: string, m: Match)
    requires WellFormed(SsnStrict) && m in TemplateMatches(s, SsnStrict)
    ensures m.start + 11 == m.end <= |s| && s[m.start + 3] == '-' && s[m.start + 6] == '-'
  {
    TemplateMatchesSound(s, SsnStrict, m);
    var p := m.start;
    assert Spells(s, p, SsnStrict, m.end);
    assert Spells(s, p + 3, SsnStrict[1..], m.end);
    assert Spells(s, p + 4, SsnStrict[2..], m.end);
    assert Spells(s, p + 6, SsnStrict[3..], m.end);
    assert Spells(s, p + 7, SsnStrict[4..], m.end);
    assert Spells(s, p + 11, SsnStrict[5..], m.end);
  }

  /** An aadhaar number is 14 characters long, with whitespace at offsets 4 and 9 and digits elsewhere. */
  lemma AadhaarHasSpaces(s: string, m: Match)
    requires WellFormed(Aadhaar) && m in TemplateMatches(s, Aadhaar)
    ensures m.start + 14 == m.end <= |s| && IsSpace(s[m.start + 4]) && IsSpace(s[m.start + 9])
    ensures DigitsBetween(s, m.start, m.start + 4) && DigitsBetween(s, m.start + 5, m.start + 9)
        && DigitsBetween(s, m.start + 10, m.start + 14)
  {
    TemplateMatchesSound(s, Aadhaar, m);
    var p := m.start;
    assert Spells(s, p, Aadhaar, m.end);
    assert Spells(s, p + 4, Aadhaar[1..], m.end);
    assert Spells(s, p + 5, Aadhaar[2..], m.end);
    assert Spells(s, p + 9, Aadhaar[3..], m.end);
    assert Spells(s, p + 10, Aadhaar[4..], m.end);
    assert Spells(s, p + 14, Aadhaar[5..], m.end);
  }

  /** Nine bare digits are a social security number for the loose pattern. */
  lemma SsnLooseAcceptsBareDigits()
    ensures TemplateMatches("123456789", SsnLoose) == [Match("123456789", 0, 9, [])]
  {
    var s := "123456789";
    assert MatchPieces(s, 9, SsnLoose[5..]) == Some(9);
    assert MatchPieces(s, 5, SsnLoose[4..]) == Some(9);
    assert MatchPieces(s, 5, SsnLoose[3..]) == Some(9);
    assert MatchPieces(s, 3, SsnLoose[2..]) == Some(9);
    assert MatchPieces(s, 3, SsnLoose[1..]) == Some(9);
    assert MatchPieces(s, 0, SsnLoose) == Some(9);
    assert s[0..9] == s;
  }

  /** Nine bare digits are no social security number for the strict pattern. */
  lemma SsnStrictRejectsBareDigits()
    ensures TemplateMatches("123456789", SsnStrict) == []
  {
  }
}
