/** Normalisation of entity names by the configured replacement rules
    (for instance a rule that strips "Inc." from organisation names). */
module Normalization {
  import opened Text

  /** What `Regex.Replace(input, replacement)` computes for the case-insensitive
      regex compiled from `pattern`: (pattern, input, replacement) to output.
      The regex engine itself is outside the model. */
  type RegexReplace = (string, string, string) -> string

  /** One configured rule: a pattern and the replacement for its matches. */
  datatype EntityNameReplacement = EntityNameReplacement(pattern: string, replacement: string)

  /** The rules applied one after another, each to the output of the one before. */
  function ApplyReplacements(rules: seq<EntityNameReplacement>, name: string, rx: RegexReplace): string
  {
    if rules == [] then name
    else
      var last := rules[|rules| - 1];
      rx(last.pattern, ApplyReplacements(rules[..|rules| - 1], name, rx), last.replacement)
  }

  /** Applying two rule lists in a row is applying their concatenation. */
  lemma {:induction false} ApplyReplacementsAppend(first: seq<EntityNameReplacement>,
                                                   second: seq<EntityNameReplacement>,
                                                   name: string, rx: RegexReplace)
    ensures ApplyReplacements(first + second, name, rx) ==
            ApplyReplacements(second, ApplyReplacements(first, name, rx), rx)
    decreases |second|
  {
    if second == [] {
      assert first + second == first;
    } else {
      var init := second[..|second| - 1];
      assert (first + second)[..|first + second| - 1] == first + init;
      ApplyReplacementsAppend(first, init, name, rx);
    }
  }

  /** Order matters from the left: the first rule sees the raw name and the
      remaining rules see its output. */
  lemma FirstRuleFirst(rule: EntityNameReplacement, rest: seq<EntityNameReplacement>,
                       name: string, rx: RegexReplace)
    ensures ApplyReplacements([rule] + rest, name, rx) ==
            ApplyReplacements(rest, rx(rule.pattern, name, rule.replacement), rx)
  {
    ApplyReplacementsAppend([rule], rest, name, rx);
    assert [rule][..0] == [];
  }

  /** The normalised name: every rule in order, then Trim. */
  function Normalize(rules: seq<EntityNameReplacement>, name: string, rx: RegexReplace): (r: string)
    ensures IsTrimmed(r)
  {
    Trim(ApplyReplacements(rules, name, rx))
  }

  /** Without rules a name is only trimmed. */
  lemma NormalizeWithoutRules(name: string, rx: RegexReplace)
    ensures Normalize([], name, rx) == Trim(name)
  {
  }

  /** The two-rule configuration "remove a trailing Inc.",
      then "remove trailing blanks": "Acme Inc." becomes "Acme", given a regex
      engine that replaces those matches. */
  lemma TwoRuleExample(rx: RegexReplace)
    requires rx("Inc\\.$", "Acme Inc.", "") == "Acme "
    requires rx("\\s+$", "Acme ", "") == "Acme"
    ensures Normalize([EntityNameReplacement("Inc\\.$", ""), EntityNameReplacement("\\s+$", "")],
                      "Acme Inc.", rx) == "Acme"
  {
    var rules := [EntityNameReplacement("Inc\\.$", ""), EntityNameReplacement("\\s+$", "")];
    assert rules[..1][..0] == [];
    assert ApplyReplacements(rules[..1], "Acme Inc.", rx) == "Acme ";
    assert ApplyReplacements(rules, "Acme Inc.", rx) == "Acme";
    TrimOfTrimmed("Acme");
  }

  /** The normalisation loop: the name is replaced rule by rule, then trimmed. */
  method NormalizeName(rules: seq<EntityNameReplacement>, name: string, rx: RegexReplace)
    returns (r: string)
    ensures r == Normalize(rules, name, rx)
    ensures IsTrimmed(r)
  {
    var normalizedName := name;
    for i := 0 to |rules|
      invariant normalizedName == ApplyReplacements(rules[..i], name, rx)
    {
      assert rules[..i + 1][..i] == rules[..i];
      normalizedName := rx(rules[i].pattern, normalizedName, rules[i].replacement);
    }
    assert rules[..|rules|] == rules;
    r := Trim(normalizedName);
  }
}
