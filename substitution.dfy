/**
 * The ordered substitution loop of `replace_numerical_pii`: for each
 * category of a fixed table, in table order, if the dummy data has a value
 * for it, every match of the category's pattern is replaced by that value,
 * working on the output of the previous step.
 */
module Substitution {
  import opened Wrappers
  import opened Regex
  import opened JsonValues
  import opened Seqs

  /** One row of a replacement table. */
  datatype Rule = Rule(category: string, pattern: Pattern)

  /**
   * The error `re.sub` raises, before scanning, when the replacement is not a
   * string. A list or an object fails first as the key of the cache of
   * compiled templates; any other value fails when it is decoded as a template.
   */
  function NotAString(v: Json): PyError {
    if v.JArray? || v.JObject? then TypeError("unhashable type: '" + TypeName(v) + "'")
    else TypeError("decoding to str: need a bytes-like object, " + TypeName(v) + " found")
  }

  /**
   * Whether the rule's step raises: its category has a value that is not a
   * string, or a string the engine rejects as a replacement template. This
   * depends on the rule and the dummy data only, never on the text.
   */
  predicate Rejects(e: Engine, rule: Rule, dummy: map<string, Json>) {
    rule.category in dummy
    && (!dummy[rule.category].JString? || e.template(rule.pattern, dummy[rule.category].s).Some?)
  }

  /**
   * One iteration: skip an absent category, substitute a string value, fail
   * on any other value or on a string `re.sub` cannot parse as a template.
   */
  function Step(e: Engine, rule: Rule, dummy: map<string, Json>, text: string): (r: Result<string>)
    ensures rule.category !in dummy ==> r == Ok(text)
    ensures r.Err? <==> Rejects(e, rule, dummy)
    ensures rule.category in dummy && !dummy[rule.category].JString? ==> r == Err(NotAString(dummy[rule.category]))
    ensures rule.category in dummy && dummy[rule.category].JString? && r.Ok?
        ==> r.value == e.sub(rule.pattern, dummy[rule.category].s, text)
  {
    if rule.category !in dummy then Ok(text)
    else match dummy[rule.category]
      case JString(v) => Sub(e, rule.pattern, v, text)
      case _ => Err(NotAString(dummy[rule.category]))
  }

  /**
   * A list or an object as a dummy value makes its step fail with the
   * hashing error; a number with the decoding error.
   */
  lemma NonStringErrors(e: Engine, rule: Rule, text: string, items: seq<Json>, fields: map<string, Json>)
    ensures Step(e, rule, map[rule.category := JArray(items)], text) == Err(TypeError("unhashable type: 'list'"))
    ensures Step(e, rule, map[rule.category := JObject(fields)], text) == Err(TypeError("unhashable type: 'dict'"))
    ensures Step(e, rule, map[rule.category := JNumber(5.0)], text)
         == Err(TypeError("decoding to str: need a bytes-like object, int found"))
  {
    assert "unhashable type: '" + "list" + "'" == "unhashable type: 'list'";
    assert "unhashable type: '" + "dict" + "'" == "unhashable type: 'dict'";
    assert "decoding to str: need a bytes-like object, " + "int" + " found"
        == "decoding to str: need a bytes-like object, int found";
  }

  /** The rules applied in order, each to the previous output; the first failing step ends the loop. */
  function Applied(e: Engine, rules: seq<Rule>, dummy: map<string, Json>, text: string): Result<string> {
    if |rules| == 0 then Ok(text)
    else match Applied(e, rules[..|rules| - 1], dummy, text)
      case Err(x) => Err(x)
      case Ok(t) => Step(e, rules[|rules| - 1], dummy, t)
  }

  /** The loop of `replace_numerical_pii`, including its early return on empty dummy data. */
  method Substitute(e: Engine, rules: seq<Rule>, dummy: map<string, Json>, text: string) returns (r: Result<string>)
    ensures r == Applied(e, rules, dummy, text)
  {
    if |dummy| == 0 {
      EmptyDummyIsIdentity(e, rules, text);
      return Ok(text);
    }
    var sanitized := text;
    var i := 0;
    while i < |rules|
      invariant 0 <= i <= |rules|
      invariant Applied(e, rules[..i], dummy, text) == Ok(sanitized)
    {
      var rule := rules[i];
      assert rules[..i + 1][..i] == rules[..i];
      if rule.category in dummy {
        var v := dummy[rule.category];
        if !v.JString? {
          ErrorPersists(e, rules, dummy, text, i + 1);
          return Err(NotAString(v));
        }
        var next := Sub(e, rule.pattern, v.s, sanitized);
        if next.Err? {
          ErrorPersists(e, rules, dummy, text, i + 1);
          return next;
        }
        sanitized := next.value;
      }
      i := i + 1;
    }
    assert rules[..i] == rules;
    return Ok(sanitized);
  }

  /** Once a step fails, the whole loop fails with that error. */
  lemma {:induction false} ErrorPersists(e: Engine, rules: seq<Rule>, dummy: map<string, Json>, text: string, k: nat)
    requires k <= |rules| && Applied(e, rules[..k], dummy, text).Err?
    ensures Applied(e, rules, dummy, text) == Applied(e, rules[..k], dummy, text)
    decreases |rules| - k
  {
    if k < |rules| {
      assert rules[..k + 1][..k] == rules[..k];
      ErrorPersists(e, rules, dummy, text, k + 1);
    } else {
      assert rules[..k] == rules;
    }
  }

  /** Without dummy data the text is returned unchanged. */
  lemma {:induction false} EmptyDummyIsIdentity(e: Engine, rules: seq<Rule>, text: string)
    ensures Applied(e, rules, map[], text) == Ok(text)
  {
    if |rules| > 0 {
      EmptyDummyIsIdentity(e, rules[..|rules| - 1], text);
    }
  }

  /**
   * The loop fails exactly when some category of the table is rejected: its
   * value is not a string, or is a string `re.sub` cannot parse as a template.
   */
  lemma {:induction false} FailsIffSomeRejected(e: Engine, rules: seq<Rule>, dummy: map<string, Json>, text: string)
    ensures Applied(e, rules, dummy, text).Err? <==> exists i :: 0 <= i < |rules| && Rejects(e, rules[i], dummy)
  {
    if |rules| > 0 {
      var n := |rules| - 1;
      FailsIffSomeRejected(e, rules[..n], dummy, text);
      if exists i :: 0 <= i < n && Rejects(e, rules[..n][i], dummy) {
        var i :| 0 <= i < n && Rejects(e, rules[..n][i], dummy);
        assert rules[i] == rules[..n][i];
      }
      if exists i :: 0 <= i < |rules| && Rejects(e, rules[i], dummy) {
        var i :| 0 <= i < |rules| && Rejects(e, rules[i], dummy);
        if i < n {
          assert rules[i] == rules[..n][i];
        }
      }
    }
  }

  /**
   * With Python's template parser and dummy values free of backslashes, the
   * loop fails exactly when some category of the table has a non-string value.
   */
  lemma FailsIffNonString(e: Engine, rules: seq<Rule>, dummy: map<string, Json>, text: string)
    requires LiteralTemplatesAccepted(e)
    requires forall k | k in dummy && dummy[k].JString? :: '\\' !in dummy[k].s
    ensures Applied(e, rules, dummy, text).Err?
        <==> exists i :: 0 <= i < |rules| && rules[i].category in dummy && !dummy[rules[i].category].JString?
  {
    FailsIffSomeRejected(e, rules, dummy, text);
    forall i | 0 <= i < |rules|
      ensures Rejects(e, rules[i], dummy) <==> rules[i].category in dummy && !dummy[rules[i].category].JString?
    {
      var c := rules[i].category;
      if c in dummy && dummy[c].JString? {
        assert '\\' !in dummy[c].s;
        assert e.template(rules[i].pattern, dummy[c].s).None?;
      }
    }
  }

  /**
   * A replacement with a backslash that the engine rejects (Python rejects
   * `"\\d"`, a bad escape, and `"\\1"` against a pattern without groups)
   * makes the loop fail even on a text with no match at all.
   */
  lemma RejectedTemplateFails(e: Engine, rules: seq<Rule>, dummy: map<string, Json>, text: string, i: nat)
    requires i < |rules| && rules[i].category in dummy && dummy[rules[i].category].JString?
    requires e.template(rules[i].pattern, dummy[rules[i].category].s).Some?
    ensures Applied(e, rules, dummy, text).Err?
  {
    FailsIffSomeRejected(e, rules, dummy, text);
    assert Rejects(e, rules[i], dummy);
  }

  /** The rows of the table whose category has a dummy value, in table order. */
  function Present(rules: seq<Rule>, dummy: map<string, Json>): (r: seq<Rule>)
    ensures |r| <= |rules|
  {
    FilterMap(rules, (rule: Rule) => rule.category in dummy, (rule: Rule) => rule)
  }

  /** Only the categories present in the dummy data take part: the others may be dropped from the table. */
  lemma {:induction false} OnlyPresentCategoriesRun(e: Engine, rules: seq<Rule>, dummy: map<string, Json>, text: string)
    ensures Applied(e, rules, dummy, text) == Applied(e, Present(rules, dummy), dummy, text)
  {
    if |rules| > 0 {
      var n := |rules| - 1;
      OnlyPresentCategoriesRun(e, rules[..n], dummy, text);
      var init := Present(rules[..n], dummy);
      if rules[n].category in dummy {
        assert Present(rules, dummy) == init + [rules[n]];
        assert (init + [rules[n]])[..|init|] == init;
      } else {
        assert Present(rules, dummy) == init;
        assert Step(e, rules[n], dummy, text) == Ok(text);
      }
    }
  }
}
