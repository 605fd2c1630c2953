/** The categorization resolver: manual override, then the first matching
    keyword rule, then the category the extraction proposed. */
module Categorize {
  import opened Wrappers
  import opened Text
  import opened Types

  /** A rule applies when its lower-cased keyword occurs in the lower-cased
      description, which needs a keyword no longer than the description. */
  function RuleMatches(r: KeywordRule, description: string): (m: bool)
    ensures m ==> |r.keyword| <= |description|
  {
    Contains(ToLower(description), ToLower(r.keyword))
  }

  /** `rules[k]` is the first rule, in list order, that matches `description`. */
  ghost predicate IsFirstMatch(rules: seq<KeywordRule>, description: string, k: int) {
    0 <= k < |rules| && RuleMatches(rules[k], description) &&
    forall j :: 0 <= j < k ==> !RuleMatches(rules[j], description)
  }

  /** `rules.find(r => description.toLowerCase().includes(r.keyword.toLowerCase()))`. */
  function FindMatchingRule(rules: seq<KeywordRule>, description: string): (r: Option<KeywordRule>)
    ensures r.None? <==> forall j :: 0 <= j < |rules| ==> !RuleMatches(rules[j], description)
    ensures r.Some? ==> exists k :: IsFirstMatch(rules, description, k) && r.value == rules[k]
  {
    if rules == [] then None
    else if RuleMatches(rules[0], description) then
      assert IsFirstMatch(rules, description, 0);
      Some(rules[0])
    else
      var r := FindMatchingRule(rules[1..], description);
      assert r.Some? ==> exists k :: IsFirstMatch(rules, description, k) && r.value == rules[k] by {
        if r.Some? {
          var k :| IsFirstMatch(rules[1..], description, k) && r.value == rules[1..][k];
          assert IsFirstMatch(rules, description, k + 1);
        }
      }
      r
  }

  /** One step of the search: the head decides if it matches, else the rest. */
  lemma FindMatchingRuleCons(rule: KeywordRule, rules: seq<KeywordRule>, description: string)
    ensures FindMatchingRule([rule] + rules, description) ==
      if RuleMatches(rule, description) then Some(rule) else FindMatchingRule(rules, description)
  {
    assert ([rule] + rules)[1..] == rules;
  }

  /** A manual override counts only when it is present and non-empty (JavaScript
      truthiness): the falsy values are the missing value and the empty string. */
  function HasOverride(t: Transaction): (h: bool)
    ensures !h <==> t.manualCategory == None || t.manualCategory == Some("")
  {
    t.manualCategory.Some? && t.manualCategory.value != ""
  }

  /** The effective transaction: only `category` may differ from `t`. */
  function Resolve(t: Transaction, rules: seq<KeywordRule>): (r: Transaction)
    ensures r == t.(category := r.category)
    ensures HasOverride(t) ==> r.category == t.manualCategory.value
    ensures !HasOverride(t) ==> forall k :: IsFirstMatch(rules, t.description, k) ==> r.category == rules[k].category
    ensures !HasOverride(t) && (forall j :: 0 <= j < |rules| ==> !RuleMatches(rules[j], t.description)) ==> r == t
  {
    if HasOverride(t) then t.(category := t.manualCategory.value)
    else match FindMatchingRule(rules, t.description)
      case Some(rule) => t.(category := rule.category)
      case None => t
  }

  /** `processedTransactions`: resolution applied to each transaction. */
  function ProcessTransactions(ts: seq<Transaction>, rules: seq<KeywordRule>): (r: seq<Transaction>)
    ensures |r| == |ts|
    ensures forall i :: 0 <= i < |ts| ==> r[i] == Resolve(ts[i], rules)
  {
    seq(|ts|, i requires 0 <= i < |ts| => Resolve(ts[i], rules))
  }

  /** Two rules that both match: the earlier one decides. */
  lemma FirstMatchIsUnique(rules: seq<KeywordRule>, description: string, k: int, k': int)
    requires IsFirstMatch(rules, description, k) && IsFirstMatch(rules, description, k')
    ensures k == k'
  {
  }

  /** Processing keeps the length, the order and every field other than `category`. */
  lemma ProcessKeepsOtherFields(ts: seq<Transaction>, rules: seq<KeywordRule>, i: int)
    requires 0 <= i < |ts|
    ensures var p := ProcessTransactions(ts, rules)[i];
      p.id == ts[i].id && p.date == ts[i].date && p.description == ts[i].description &&
      p.cardLast4 == ts[i].cardLast4 && p.amount == ts[i].amount &&
      p.originalCategory == ts[i].originalCategory && p.manualCategory == ts[i].manualCategory
  {
  }

  /** With an override the rules play no part at all. */
  lemma OverrideIgnoresRules(t: Transaction, rules1: seq<KeywordRule>, rules2: seq<KeywordRule>)
    requires HasOverride(t)
    ensures Resolve(t, rules1) == Resolve(t, rules2)
  {
  }

  /** Resolution is idempotent: resolving an already resolved transaction changes nothing,
      since only `category` changes and resolution never reads it unless nothing else applies. */
  lemma ResolveIdempotent(t: Transaction, rules: seq<KeywordRule>)
    ensures Resolve(Resolve(t, rules), rules) == Resolve(t, rules)
  {
    var r := Resolve(t, rules);
    assert r.description == t.description && r.manualCategory == t.manualCategory;
  }

  /** An empty keyword matches every description, the empty one included. */
  lemma EmptyKeywordMatchesAll(r: KeywordRule, description: string)
    requires r.keyword == ""
    ensures RuleMatches(r, description)
  {
    assert ToLower(r.keyword) == "";
    ContainsEmpty(ToLower(description));
  }

  /** A non-empty keyword never matches an empty description. */
  lemma EmptyDescriptionMatchesOnlyEmpty(r: KeywordRule)
    requires r.keyword != ""
    ensures !RuleMatches(r, "")
  {
  }

  /** Matching ignores ASCII case on both sides. */
  lemma MatchIgnoresCase(r1: KeywordRule, r2: KeywordRule, d1: string, d2: string)
    requires ToLower(r1.keyword) == ToLower(r2.keyword) && ToLower(d1) == ToLower(d2)
    ensures RuleMatches(r1, d1) == RuleMatches(r2, d2)
  {
  }

  /** A rule matching a merchant name still matches when the statement line
      carries other text around that name. */
  lemma MatchSurvivesContext(r: KeywordRule, pre: string, d: string, post: string)
    requires RuleMatches(r, d)
    ensures RuleMatches(r, pre + d + post)
  {
    assert ToLower(pre + d + post) == ToLower(pre) + ToLower(d) + ToLower(post);
    ContainsExtend(ToLower(pre), ToLower(d), ToLower(post), ToLower(r.keyword));
  }

  /** A rule appended at the end has the lowest priority: it decides only
      when no earlier rule matches. */
  lemma {:induction false} AppendedRuleIsLast(rules: seq<KeywordRule>, rule: KeywordRule, description: string)
    ensures FindMatchingRule(rules, description).Some? ==>
      FindMatchingRule(rules + [rule], description) == FindMatchingRule(rules, description)
    ensures FindMatchingRule(rules, description).None? ==>
      FindMatchingRule(rules + [rule], description) == (if RuleMatches(rule, description) then Some(rule) else None)
  {
    if rules == [] {
      assert rules + [rule] == [rule];
    } else {
      assert (rules + [rule])[0] == rules[0];
      assert (rules + [rule])[1..] == rules[1..] + [rule];
      AppendedRuleIsLast(rules[1..], rule, description);
    }
  }

  /** The worked example: keyword "netflix" matches "NETFLIX.COM BILLING". */
  lemma NetflixExample()
    ensures RuleMatches(KeywordRule("r", "netflix", "Entertainment"), "NETFLIX.COM BILLING")
  {
    var d := ToLower("NETFLIX.COM BILLING");
    assert d[..7] == "netflix";
    assert ToLower("netflix") == "netflix";
    assert IsPrefix("netflix", d);
  }

  /** The worked example of rule order: two rules with the same keyword, the first listed wins. */
  lemma RuleOrderExample(t: Transaction)
    requires !HasOverride(t) && t.description == "A"
    ensures Resolve(t, [KeywordRule("1", "A", "X"), KeywordRule("2", "A", "Y")]).category == "X"
  {
    assert IsPrefix(ToLower("A"), ToLower("A"));
  }
}
