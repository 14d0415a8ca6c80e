/**
 * Python's `re` module, left uninterpreted: a pattern is named by its source
 * text and its number of capturing groups, and the engine is a pair of
 * functions standing for `re.finditer` and `re.sub`.
 */
module Regex {
  import opened Wrappers

  /** A compiled pattern: its source, its number of capturing groups, and whether `re.IGNORECASE` was passed. */
  datatype Pattern = Pattern(source: string, groups: nat, ignoreCase: bool)

  /** One match as `finditer` yields it: the matched text, its span, and its groups (an unmatched group as ""). */
  datatype Match = Match(text: string, start: nat, end: nat, groups: seq<string>)

  /** One element of a `findall` result: a string, or a tuple when the pattern has two groups or more. */
  datatype Found = Str(s: string) | Tuple(items: seq<string>)

  /**
   * The engine: `finditer(p, text)` lists the non-overlapping matches left to
   * right; `template(p, repl)` is the `re.error` that parsing the replacement
   * `repl` against `p` raises (a bad escape, a group `p` does not have), if
   * any; `sub(p, repl, text)` replaces each match by the parsed template.
   */
  datatype Engine = Engine(
    finditer: (Pattern, string) -> seq<Match>,
    template: (Pattern, string) -> Option<PyError>,
    sub: (Pattern, string, string) -> string)

  /**
   * `re.sub(p, repl, text)` with a string `repl`: the template is parsed
   * before the text is scanned, so a rejected template raises whatever the
   * text, even one with no match.
   */
  function Sub(e: Engine, p: Pattern, repl: string, text: string): (r: Result<string>)
    ensures r.Err? <==> e.template(p, repl).Some?
    ensures r.Err? ==> r.error == e.template(p, repl).value
    ensures r.Ok? ==> r.value == e.sub(p, repl, text)
  {
    match e.template(p, repl)
    case Some(x) => Err(x)
    case None => Ok(e.sub(p, repl, text))
  }

  /**
   * Python's template parser: a replacement without a backslash has no
   * escape and no group reference, so it is taken literally and never rejected.
   */
  ghost predicate LiteralTemplatesAccepted(e: Engine) {
    forall p: Pattern, repl: string :: '\\' !in repl ==> e.template(p, repl).None?
  }

  /** `m.group(k) or ""` for a group `k >= 1`. */
  function Group(m: Match, k: nat): string {
    if 1 <= k <= |m.groups| then m.groups[k - 1] else ""
  }

  /** What `findall` reports for one match: the whole text, the only group, or the tuple of all groups. */
  function FindAllItem(p: Pattern, m: Match): (f: Found)
    ensures f.Tuple? <==> p.groups >= 2
    ensures f.Tuple? ==> |f.items| == p.groups
  {
    if p.groups == 0 then Str(m.text)
    else if p.groups == 1 then Str(Group(m, 1))
    else Tuple(seq(p.groups, i requires 0 <= i < p.groups => Group(m, i + 1)))
  }

  /** `re.findall(p, text)`. */
  function FindAll(e: Engine, p: Pattern, text: string): (r: seq<Found>)
    ensures |r| == |e.finditer(p, text)|
  {
    var ms := e.finditer(p, text);
    seq(|ms|, i requires 0 <= i < |ms| => FindAllItem(p, ms[i]))
  }

  /** A pattern with no capturing group makes `findall` report whole matches. */
  lemma FindAllWholeMatches(e: Engine, p: Pattern, text: string, i: nat)
    requires p.groups == 0 && i < |e.finditer(p, text)|
    ensures FindAll(e, p, text)[i] == Str(e.finditer(p, text)[i].text)
  {
  }

  /** A pattern with `g >= 2` capturing groups makes `findall` report `g`-tuples. */
  lemma FindAllTuples(e: Engine, p: Pattern, text: string, i: nat)
    requires p.groups >= 2 && i < |e.finditer(p, text)|
    ensures FindAll(e, p, text)[i].Tuple? && |FindAll(e, p, text)[i].items| == p.groups
  {
  }
}
