/**
 * The Python `str` operations the modelled code relies on: character classes,
 * `strip()`, the substring test `t in s`, `sep.join(parts)`, `split`,
 * `lower()`, `replace` and `rsplit('.', 1)`.
 */
module Strings {
  import opened Wrappers

  /** `\d` restricted to ASCII digits. */
  predicate IsDigit(c: char) {
    '0' <= c <= '9'
  }

  /** `\w` restricted to ASCII letters, digits and the underscore. */
  predicate IsWordChar(c: char) {
    IsDigit(c) || 'a' <= c <= 'z' || 'A' <= c <= 'Z' || c == '_'
  }

  /** `str.isspace()` (and so `\s` and `str.strip()`), code point by code point. */
  predicate IsSpace(c: char) {
    var n := c as int;
    (0x09 <= n <= 0x0D) || (0x1C <= n <= 0x20) || n == 0x85 || n == 0xA0 || n == 0x1680
    || (0x2000 <= n <= 0x200A) || n == 0x2028 || n == 0x2029 || n == 0x202F
    || n == 0x205F || n == 0x3000
  }

  predicate AllSpace(s: string) {
    forall i :: 0 <= i < |s| ==> IsSpace(s[i])
  }

  /** `s.lstrip()`: `s` without its leading spaces. */
  function StripLeft(s: string): (r: string)
    ensures |r| <= |s|
    ensures r == [] || !IsSpace(r[0])
  {
    if |s| > 0 && IsSpace(s[0]) then StripLeft(s[1..]) else s
  }

  /** `s.rstrip()`: `s` without its trailing spaces. */
  function StripRight(s: string): (r: string)
    ensures |r| <= |s|
    ensures r == [] || !IsSpace(r[|r| - 1])
  {
    if |s| > 0 && IsSpace(s[|s| - 1]) then StripRight(s[..|s| - 1]) else s
  }

  /** `lstrip()` keeps a suffix and drops only spaces. */
  lemma {:induction false} StripLeftDropsSpaces(s: string)
    ensures StripLeft(s) == s[|s| - |StripLeft(s)|..]
    ensures AllSpace(s[..|s| - |StripLeft(s)|])
    decreases |s|
  {
    if |s| > 0 && IsSpace(s[0]) {
      var t := s[1..];
      StripLeftDropsSpaces(t);
      var m := |s| - |StripLeft(s)|;
      assert StripLeft(s) == StripLeft(t);
      assert |t| - |StripLeft(t)| == m - 1;
      assert t[|t| - |StripLeft(t)|..] == s[m..];
      forall k | 0 <= k < m ensures IsSpace(s[..m][k]) {
        if k == 0 {
          assert s[..m][0] == s[0];
        } else {
          assert s[..m][k] == t[..m - 1][k - 1];
        }
      }
    }
  }

  /** `rstrip()` keeps a prefix and drops only spaces. */
  lemma {:induction false} StripRightDropsSpaces(s: string)
    ensures StripRight(s) == s[..|StripRight(s)|]
    ensures AllSpace(s[|StripRight(s)|..])
    decreases |s|
  {
    if |s| > 0 && IsSpace(s[|s| - 1]) {
      var t := s[..|s| - 1];
      StripRightDropsSpaces(t);
      var m := |StripRight(s)|;
      assert t[..|StripRight(t)|] == s[..m];
      forall k | m <= k < |s| ensures IsSpace(s[k]) {
        if k < |s| - 1 {
          assert t[m..][k - m] == s[k];
        }
      }
      assert forall k :: 0 <= k < |s[m..]| ==> s[m..][k] == s[m + k];
    }
  }

  /** `s.strip()`. */
  function Strip(s: string): (r: string)
    ensures |r| <= |s|
    ensures r == [] || (!IsSpace(r[0]) && !IsSpace(r[|r| - 1]))
  {
    var l := StripLeft(s);
    StripRightDropsSpaces(l);
    StripRight(l)
  }

  /** What `strip()` removes: the spaces at both ends, and nothing else. */
  lemma StripTrimsSpace(s: string)
    ensures exists i :: 0 <= i <= |s| - |Strip(s)| && Strip(s) == s[i..i + |Strip(s)|]
                        && AllSpace(s[..i]) && AllSpace(s[i + |Strip(s)|..])
  {
    var l := StripLeft(s);
    var r := StripRight(l);
    StripLeftDropsSpaces(s);
    StripRightDropsSpaces(l);
    var i := |s| - |l|;
    var n := |r|;
    assert l == s[i..];
    assert r == l[..n];
    assert l[..n] == s[i..][..n] == s[i..i + n];
    assert l[n..] == s[i..][n..] == s[i + n..];
    assert 0 <= i <= |s| - n && Strip(s) == s[i..i + n] && AllSpace(s[..i]) && AllSpace(s[i + n..]);
  }

  /**
   * `not s.strip()`: the text is empty or whitespace only. Stated through the
   * characters; `BlankIffStripEmpty` shows it is the same as an empty `strip()`.
   */
  predicate IsBlank(s: string) {
    AllSpace(s)
  }

  lemma {:induction false} AllSpaceStripsLeft(s: string)
    requires AllSpace(s)
    ensures StripLeft(s) == []
  {
    if |s| > 0 {
      assert forall k :: 0 <= k < |s[1..]| ==> s[1..][k] == s[k + 1];
      AllSpaceStripsLeft(s[1..]);
    }
  }

  lemma BlankIffStripEmpty(s: string)
    ensures IsBlank(s) <==> Strip(s) == []
  {
    var l := StripLeft(s);
    var m := |s| - |l|;
    StripLeftDropsSpaces(s);
    StripRightDropsSpaces(l);
    if AllSpace(s) {
      AllSpaceStripsLeft(s);
    }
    if Strip(s) == [] {
      assert l[|StripRight(l)|..] == l;
      assert AllSpace(l);
      assert s[..m] == s;
    }
  }

  lemma {:induction false} StripLeftOfStripped(s: string)
    requires s == [] || !IsSpace(s[0])
    ensures StripLeft(s) == s
  {
  }

  lemma {:induction false} StripRightOfStripped(s: string)
    requires s == [] || !IsSpace(s[|s| - 1])
    ensures StripRight(s) == s
  {
  }

  /** Stripping twice is stripping once. */
  lemma StripIdempotent(s: string)
    ensures Strip(Strip(s)) == Strip(s)
  {
    var r := Strip(s);
    StripLeftOfStripped(r);
    StripRightOfStripped(r);
  }

  /** Python's `t in s` for strings: `t` occurs in `s` as a contiguous substring. */
  predicate Contains(s: string, t: string)
    decreases |s|
  {
    |t| <= |s| && (s[..|t|] == t || (|s| > 0 && Contains(s[1..], t)))
  }

  predicate OccursAt(s: string, t: string, i: int) {
    0 <= i && i + |t| <= |s| && s[i..i + |t|] == t
  }

  /** `Contains` is the substring relation, in both directions. */
  lemma {:induction false} ContainsIff(s: string, t: string)
    ensures Contains(s, t) <==> exists i :: OccursAt(s, t, i)
    decreases |s|
  {
    if Contains(s, t) {
      if s[..|t|] == t {
        assert OccursAt(s, t, 0);
      } else {
        ContainsIff(s[1..], t);
        var i :| OccursAt(s[1..], t, i);
        assert s[1..][i..i + |t|] == s[i + 1..i + 1 + |t|];
        assert OccursAt(s, t, i + 1);
      }
    }
    if exists i :: OccursAt(s, t, i) {
      var i :| OccursAt(s, t, i);
      if i == 0 {
        assert s[..|t|] == t;
      } else {
        assert s[1..][i - 1..i - 1 + |t|] == s[i..i + |t|];
        assert OccursAt(s[1..], t, i - 1);
        ContainsIff(s[1..], t);
      }
    }
  }

  /** `sep.join(parts)`. */
  function Join(sep: string, parts: seq<string>): string {
    if |parts| == 0 then ""
    else if |parts| == 1 then parts[0]
    else parts[0] + sep + Join(sep, parts[1..])
  }

  /** `"".join(parts)`, written as the accumulation `text += part`. */
  function Concat(parts: seq<string>): (r: string)
    ensures |r| == TotalLength(parts)
  {
    if |parts| == 0 then "" else Concat(parts[..|parts| - 1]) + parts[|parts| - 1]
  }

  function TotalLength(parts: seq<string>): nat {
    if |parts| == 0 then 0 else TotalLength(parts[..|parts| - 1]) + |parts[|parts| - 1]|
  }

  /** Each part starts right after the earlier ones: part `k` sits at offset `TotalLength(parts[..k])`. */
  lemma ConcatPlacesParts(parts: seq<string>, k: nat)
    requires k < |parts|
    ensures TotalLength(parts[..k]) <= TotalLength(parts[..k + 1]) <= |Concat(parts)|
            && Concat(parts)[TotalLength(parts[..k])..TotalLength(parts[..k + 1])] == parts[k]
  {
    ConcatPrefix(parts, k + 1);
    var all, a, b := Concat(parts), Concat(parts[..k]), Concat(parts[..k + 1]);
    assert parts[..k + 1][..k] == parts[..k];
    assert b == a + parts[k];
    assert all[..|b|] == b;
    assert all[|a|..|b|] == b[|a|..];
  }

  /** The accumulation of the first `m` parts is a prefix of the whole. */
  lemma {:induction false} ConcatPrefix(parts: seq<string>, m: nat)
    requires m <= |parts|
    ensures |Concat(parts[..m])| <= |Concat(parts)| && Concat(parts)[..|Concat(parts[..m])|] == Concat(parts[..m])
    decreases |parts| - m
  {
    if m == |parts| {
      assert parts[..m] == parts;
    } else {
      ConcatPrefix(parts, m + 1);
      var all, a, b := Concat(parts), Concat(parts[..m]), Concat(parts[..m + 1]);
      assert parts[..m + 1][..m] == parts[..m];
      assert b == a + parts[m];
      assert all[..|b|] == b;
      assert all[..|a|] == b[..|a|];
    }
  }

  /** `s.split(c)` for a one-character separator: the pieces between occurrences of `c`. */
  function SplitOn(s: string, c: char): (r: seq<string>)
    ensures |r| > 0
    decreases |s|
  {
    if |s| == 0 then [""]
    else
      var rest := SplitOn(s[1..], c);
      if s[0] == c then [""] + rest else [[s[0]] + rest[0]] + rest[1..]
  }

  lemma {:induction false} SplitOnPrefix(p: string, c: char, rest: string)
    requires c !in p
    ensures SplitOn(p + [c] + rest, c) == [p] + SplitOn(rest, c)
    ensures SplitOn(p, c) == [p]
    decreases |p|
  {
    if |p| == 0 {
      assert p + [c] + rest == [c] + rest;
      assert ([c] + rest)[1..] == rest;
    } else {
      SplitOnPrefix(p[1..], c, rest);
      assert (p + [c] + rest)[1..] == p[1..] + [c] + rest;
      assert [p[0]] + p[1..] == p;
    }
  }

  /** Splitting a join on its one-character separator gives the parts back. */
  lemma {:induction false} SplitJoinRoundTrip(parts: seq<string>, c: char)
    requires |parts| > 0
    requires forall k :: 0 <= k < |parts| ==> c !in parts[k]
    ensures SplitOn(Join([c], parts), c) == parts
    decreases |parts|
  {
    if |parts| == 1 {
      SplitOnPrefix(parts[0], c, "");
    } else {
      SplitJoinRoundTrip(parts[1..], c);
      SplitOnPrefix(parts[0], c, Join([c], parts[1..]));
      assert [parts[0]] + parts[1..] == parts;
    }
  }

  /** `lower()` on one character; only ASCII capitals change (see README). */
  function LowerChar(c: char): char {
    if 'A' <= c <= 'Z' then (c as int + 32) as char else c
  }

  function Lower(s: string): (r: string)
    ensures |r| == |s|
    ensures forall i :: 0 <= i < |s| ==> r[i] == LowerChar(s[i])
  {
    seq(|s|, i requires 0 <= i < |s| => LowerChar(s[i]))
  }

  /** `lower()` works character by character, so it distributes over concatenation. */
  lemma LowerAppend(a: string, b: string)
    ensures Lower(a + b) == Lower(a) + Lower(b)
  {
    var l := Lower(a + b);
    var r := Lower(a) + Lower(b);
    forall i | 0 <= i < |l| ensures l[i] == r[i] {
      if i < |a| {
        assert (a + b)[i] == a[i];
      } else {
        assert (a + b)[i] == b[i - |a|];
      }
    }
  }


  /** `s.replace(pat, repl)`: every non-overlapping occurrence of `pat`, scanned left to right. */
  function ReplaceAll(s: string, pat: string, repl: string): string
    requires |pat| > 0
    decreases |s|
  {
    if |s| < |pat| then s
    else if s[..|pat|] == pat then repl + ReplaceAll(s[|pat|..], pat, repl)
    else [s[0]] + ReplaceAll(s[1..], pat, repl)
  }

  /** Replacing one character is mapping each character to its image. */
  function ExpandChar(s: string, c: char, repl: string): string {
    if |s| == 0 then "" else (if s[0] == c then repl else [s[0]]) + ExpandChar(s[1..], c, repl)
  }

  lemma {:induction false} ReplaceCharIsExpand(s: string, c: char, repl: string)
    ensures ReplaceAll(s, [c], repl) == ExpandChar(s, c, repl)
    decreases |s|
  {
    if |s| > 0 {
      ReplaceCharIsExpand(s[1..], c, repl);
      assert s[..1] == [s[0]];
    }
  }

  lemma {:induction false} ExpandCharAppend(a: string, b: string, c: char, repl: string)
    ensures ExpandChar(a + b, c, repl) == ExpandChar(a, c, repl) + ExpandChar(b, c, repl)
  {
    if |a| > 0 {
      assert (a + b)[1..] == a[1..] + b;
      ExpandCharAppend(a[1..], b, c, repl);
    } else {
      assert a + b == b;
    }
  }

  /** A string without `c` is left as it is. */
  lemma {:induction false} ExpandCharWithout(s: string, c: char, repl: string)
    requires c !in s
    ensures ExpandChar(s, c, repl) == s
  {
    if |s| > 0 {
      ExpandCharWithout(s[1..], c, repl);
    }
  }

  /** Mapping `c` to `repl` in `a c b c e`, where no part holds `c`, replaces just the two separators. */
  lemma ExpandTwoSeparators(a: string, b: string, e: string, c: char, repl: string)
    requires c !in a && c !in b && c !in e
    ensures ExpandChar(a + [c] + b + [c] + e, c, repl) == a + repl + b + repl + e
  {
    var t2 := b + ([c] + e);
    assert a + [c] + b + [c] + e == a + ([c] + t2);
    ExpandCharWithout(e, c, repl);
    ExpandAfterPlainPart(b, e, c, repl);
    ExpandAfterPlainPart(a, t2, c, repl);
    assert a + (repl + (b + (repl + e))) == a + repl + b + repl + e;
  }

  /** A part without `c`, then `c`: the part stays and `c` becomes `repl`. */
  lemma ExpandAfterPlainPart(p: string, rest: string, c: char, repl: string)
    requires c !in p
    ensures ExpandChar(p + ([c] + rest), c, repl) == p + (repl + ExpandChar(rest, c, repl))
  {
    ExpandCharWithout(p, c, repl);
    ExpandCharAppend(p, [c] + rest, c, repl);
    ExpandCharAppend([c], rest, c, repl);
    assert ExpandChar([c], c, repl) == repl;
  }

  predicate Disjoint(a: string, b: string) {
    forall i, j :: 0 <= i < |a| && 0 <= j < |b| ==> a[i] != b[j]
  }

  /**
   * When the replacement is non-empty and shares no character with `pat`,
   * no occurrence of `pat` survives `replace`.
   */
  lemma {:induction false} ReplaceAllRemoves(s: string, pat: string, repl: string)
    requires |pat| > 0 && |repl| > 0 && Disjoint(repl, pat)
    ensures !Contains(ReplaceAll(s, pat, repl), pat)
    decreases |s|
  {
    var r := ReplaceAll(s, pat, repl);
    if |s| < |pat| {
      ContainsIff(s, pat);
    } else if s[..|pat|] == pat {
      var rest := ReplaceAll(s[|pat|..], pat, repl);
      ReplaceAllRemoves(s[|pat|..], pat, repl);
      ContainsIff(rest, pat);
      NoOccurrenceAfterReplacement(repl, rest, pat);
      ContainsIff(r, pat);
    } else {
      var rest := ReplaceAll(s[1..], pat, repl);
      ReplaceAllRemoves(s[1..], pat, repl);
      ContainsIff(rest, pat);
      NoOccurrenceAfterKeptChar(s, pat, repl);
      ContainsIff(r, pat);
    }
  }

  /** An occurrence of `pat` in `repl + rest` can neither start inside `repl` nor lie inside `rest`. */
  lemma NoOccurrenceAfterReplacement(repl: string, rest: string, pat: string)
    requires |pat| > 0 && Disjoint(repl, pat)
    requires !exists i :: OccursAt(rest, pat, i)
    ensures !exists i :: OccursAt(repl + rest, pat, i)
  {
    var r := repl + rest;
    forall i | 0 <= i && i + |pat| <= |r| ensures !OccursAt(r, pat, i) {
      if i < |repl| {
        assert r[i..i + |pat|][0] == repl[i] != pat[0];
      } else {
        assert r[i..i + |pat|] == rest[i - |repl|..i - |repl| + |pat|];
        assert !OccursAt(rest, pat, i - |repl|);
      }
    }
  }

  /** When `s` does not start with `pat`, its replacement does not either, nor contains it later. */
  lemma NoOccurrenceAfterKeptChar(s: string, pat: string, repl: string)
    requires |pat| > 0 && |repl| > 0 && Disjoint(repl, pat)
    requires |s| >= |pat| && s[..|pat|] != pat
    requires !exists i :: OccursAt(ReplaceAll(s[1..], pat, repl), pat, i)
    ensures !exists i :: OccursAt(ReplaceAll(s, pat, repl), pat, i)
  {
    var rest := ReplaceAll(s[1..], pat, repl);
    var r := ReplaceAll(s, pat, repl);
    ReplaceAllKeepsHead(s, pat, repl);
    forall i | 0 <= i && i + |pat| <= |r| ensures !OccursAt(r, pat, i) {
      if i == 0 {
        KeptCharNotAtStart(s, pat, repl);
      } else {
        assert r[i..i + |pat|] == rest[i - 1..i - 1 + |pat|];
        assert !OccursAt(rest, pat, i - 1);
      }
    }
  }

  /** Where `pat` does not start, `replace` keeps the first character and goes on with the rest. */
  lemma ReplaceAllKeepsHead(s: string, pat: string, repl: string)
    requires |pat| > 0 && |s| >= |pat| && s[..|pat|] != pat
    ensures ReplaceAll(s, pat, repl) == [s[0]] + ReplaceAll(s[1..], pat, repl)
  {
  }

  lemma KeptCharNotAtStart(s: string, pat: string, repl: string)
    requires |pat| > 0 && |repl| > 0 && Disjoint(repl, pat)
    requires |s| >= |pat| && s[..|pat|] != pat
    requires |pat| <= |ReplaceAll(s, pat, repl)|
    ensures ReplaceAll(s, pat, repl)[..|pat|] != pat
  {
    var rest := ReplaceAll(s[1..], pat, repl);
    ReplaceAllKeepsHead(s, pat, repl);
    ReplacedPrefix(s[1..], pat, repl, |pat| - 1);
    assert s[..|pat|] == [s[0]] + s[1..][..|pat| - 1];
    HeadKeptPrefixDiffers(s[0], rest, s[1..], pat);
  }

  /**
   * `[c] + rest` does not start with `pat` when `[c] + s` does not and `rest`
   * either agrees with `s` on the next `|pat| - 1` characters or has a
   * character outside `pat` among them.
   */
  lemma HeadKeptPrefixDiffers(c: char, rest: string, s: string, pat: string)
    requires |pat| > 0 && |s| >= |pat| - 1 && |rest| >= |pat| - 1
    requires [c] + s[..|pat| - 1] != pat
    requires || (exists j :: 0 <= j < |pat| - 1 && j < |rest| && rest[j] !in pat)
             || (|pat| - 1 <= |s| && rest[..|pat| - 1] == s[..|pat| - 1])
    ensures ([c] + rest)[..|pat|] != pat
  {
    var k := |pat| - 1;
    var r := [c] + rest;
    if exists j :: 0 <= j < k && j < |rest| && rest[j] !in pat {
      var j :| 0 <= j < k && j < |rest| && rest[j] !in pat;
      assert r[..|pat|][j + 1] == rest[j];
      assert pat[j + 1] in pat;
    } else {
      assert r[..|pat|] == [c] + rest[..k];
    }
  }

  /**
   * A prefix of the replaced text shorter than `pat` either holds a character
   * that is not in `pat` or was copied unchanged from the input.
   */
  lemma {:induction false} ReplacedPrefix(s: string, pat: string, repl: string, k: nat)
    requires |pat| > 0 && |repl| > 0 && Disjoint(repl, pat)
    requires k < |pat| && k <= |ReplaceAll(s, pat, repl)|
    ensures || (exists j :: 0 <= j < k && j < |ReplaceAll(s, pat, repl)| && ReplaceAll(s, pat, repl)[j] !in pat)
            || (k <= |s| && ReplaceAll(s, pat, repl)[..k] == s[..k])
    decreases |s|
  {
    var r := ReplaceAll(s, pat, repl);
    if k == 0 || |s| < |pat| {
    } else if s[..|pat|] == pat {
      assert r[0] == repl[0] && r[0] !in pat;
    } else {
      var rest := ReplaceAll(s[1..], pat, repl);
      assert r == [s[0]] + rest;
      ReplacedPrefix(s[1..], pat, repl, k - 1);
      if exists j :: 0 <= j < k - 1 && j < |rest| && rest[j] !in pat {
        var j :| 0 <= j < k - 1 && j < |rest| && rest[j] !in pat;
        assert r[j + 1] == rest[j];
      } else {
        assert r[..k] == [s[0]] + rest[..k - 1];
        assert s[..k] == [s[0]] + s[1..][..k - 1];
      }
    }
  }

  /** Without an occurrence of `pat`, `replace` gives the text back unchanged. */
  lemma {:induction false} ReplaceAllWithout(s: string, pat: string, repl: string)
    requires |pat| > 0 && !Contains(s, pat)
    ensures ReplaceAll(s, pat, repl) == s
    decreases |s|
  {
    if |s| >= |pat| {
      ReplaceAllWithout(s[1..], pat, repl);
      assert [s[0]] + s[1..] == s;
    }
  }

  /** Index of the last occurrence of `c` in `s`, if any. */
  function LastIndexOf(s: string, c: char): (r: Option<nat>)
    ensures r.Some? ==> r.value < |s| && s[r.value] == c && c !in s[r.value + 1..]
    ensures r.None? ==> c !in s
  {
    if |s| == 0 then None
    else if s[|s| - 1] == c then Some(|s| - 1)
    else
      var r := LastIndexOf(s[..|s| - 1], c);
      assert r.Some? ==> s[r.value + 1..] == s[..|s| - 1][r.value + 1..] + [s[|s| - 1]];
      r
  }
}
