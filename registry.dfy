/** The rule set, the per-transaction overrides and the category registry as
    list edits: replace by key, append, delete, and first-unused colour assignment. */
module Registry {
  import opened Wrappers
  import opened Seqs
  import opened Types
  import opened Categorize

  // ---- Rule set ----

  /** `rules.map(r => r.id === updated.id ? updated : r)`. */
  function UpdateRuleById(rules: seq<KeywordRule>, updated: KeywordRule): (r: seq<KeywordRule>)
    ensures |r| == |rules|
    ensures forall i :: 0 <= i < |rules| && rules[i].id == updated.id ==> r[i] == updated
    ensures forall i :: 0 <= i < |rules| && rules[i].id != updated.id ==> r[i] == rules[i]
  {
    seq(|rules|, i requires 0 <= i < |rules| => if rules[i].id == updated.id then updated else rules[i])
  }

  function RuleIds(rules: seq<KeywordRule>): (r: seq<string>)
    ensures |r| == |rules|
    ensures forall i :: 0 <= i < |rules| ==> r[i] == rules[i].id
  {
    seq(|rules|, i requires 0 <= i < |rules| => rules[i].id)
  }

  /** Updating an id that no rule has leaves the rule set as it was. */
  lemma UpdateUnknownRuleIsNoop(rules: seq<KeywordRule>, updated: KeywordRule)
    requires updated.id !in RuleIds(rules)
    ensures UpdateRuleById(rules, updated) == rules
  {
    assert forall i :: 0 <= i < |rules| ==> rules[i].id != updated.id by {
      forall i | 0 <= i < |rules| ensures rules[i].id != updated.id {
        assert RuleIds(rules)[i] == rules[i].id;
      }
    }
  }

  /** An update keeps every rule's id in place, so the list of ids is unchanged. */
  lemma UpdateKeepsRuleIds(rules: seq<KeywordRule>, updated: KeywordRule)
    ensures RuleIds(UpdateRuleById(rules, updated)) == RuleIds(rules)
  {
  }

  function IdIsNot(id: string): KeywordRule -> bool {
    (r: KeywordRule) => r.id != id
  }

  /** `rules.filter(r => r.id !== id)`. */
  function DeleteRuleById(rules: seq<KeywordRule>, id: string): (r: seq<KeywordRule>)
    ensures forall i :: 0 <= i < |r| ==> r[i].id != id && r[i] in rules
    ensures forall i :: 0 <= i < |rules| && rules[i].id != id ==> rules[i] in r
    ensures forall x: KeywordRule :: x.id != id ==> multiset(r)[x] == multiset(rules)[x]
    ensures forall x: KeywordRule :: x.id == id ==> multiset(r)[x] == 0
  {
    FilterMultiplicity(rules, IdIsNot(id));
    Filter(rules, IdIsNot(id))
  }

  /** Deleting keeps the remaining rules in their order. */
  lemma DeleteKeepsOrder(rules: seq<KeywordRule>, id: string)
    ensures IsSubsequence(DeleteRuleById(rules, id), rules)
  {
    FilterIsSubsequence(rules, IdIsNot(id));
  }

  /** Deleting an id that no rule has leaves the rule set as it was. */
  lemma DeleteUnknownRuleIsNoop(rules: seq<KeywordRule>, id: string)
    requires id !in RuleIds(rules)
    ensures DeleteRuleById(rules, id) == rules
  {
    forall i | 0 <= i < |rules| ensures IdIsNot(id)(rules[i]) {
      assert RuleIds(rules)[i] == rules[i].id;
    }
    FilterAll(rules, IdIsNot(id));
  }

  /** A deleted rule that was not the one deciding a description leaves the decision as it was. */
  lemma {:induction false} DeleteOtherRuleKeepsMatch(rules: seq<KeywordRule>, id: string, description: string)
    requires FindMatchingRule(rules, description).Some?
    requires FindMatchingRule(rules, description).value.id != id
    ensures FindMatchingRule(DeleteRuleById(rules, id), description) == FindMatchingRule(rules, description)
  {
    var rule, rest := rules[0], rules[1..];
    assert rules == [rule] + rest;
    FilterCons(rule, rest, IdIsNot(id));
    FindMatchingRuleCons(rule, rest, description);
    FindMatchingRuleCons(rule, Filter(rest, IdIsNot(id)), description);
    if !RuleMatches(rule, description) {
      DeleteOtherRuleKeepsMatch(rest, id, description);
    }
  }

  // ---- Transaction store ----

  /** `ts.map(t => t.id === id ? { ...t, manualCategory: category } : t)`. */
  function SetManualCategory(ts: seq<Transaction>, id: string, category: string): (r: seq<Transaction>)
    ensures |r| == |ts|
    ensures forall i :: 0 <= i < |ts| && ts[i].id == id ==> r[i] == ts[i].(manualCategory := Some(category))
    ensures forall i :: 0 <= i < |ts| && ts[i].id != id ==> r[i] == ts[i]
  {
    seq(|ts|, i requires 0 <= i < |ts| => if ts[i].id == id then ts[i].(manualCategory := Some(category)) else ts[i])
  }

  lemma SetManualUnknownIsNoop(ts: seq<Transaction>, id: string, category: string)
    requires forall i :: 0 <= i < |ts| ==> ts[i].id != id
    ensures SetManualCategory(ts, id, category) == ts
  {
  }

  /** After a non-empty manual choice the transaction resolves to it, whatever the rules. */
  lemma ManualChoiceWins(ts: seq<Transaction>, id: string, category: string, rules: seq<KeywordRule>, i: int)
    requires 0 <= i < |ts| && ts[i].id == id && category != ""
    ensures ProcessTransactions(SetManualCategory(ts, id, category), rules)[i].category == category
  {
  }

  /** An empty manual choice counts as no override: the rules decide as if none were set. */
  lemma EmptyManualChoiceDefersToRules(ts: seq<Transaction>, id: string, rules: seq<KeywordRule>, i: int)
    requires 0 <= i < |ts| && ts[i].id == id
    ensures ProcessTransactions(SetManualCategory(ts, id, ""), rules)[i].category
         == Resolve(ts[i].(manualCategory := None), rules).category
  {
  }

  // ---- Category registry ----

  /** `configs.map(c => c.name === name ? { ...c, color } : c)`. */
  function SetCategoryColor(configs: seq<CategoryConfig>, name: string, color: CategoryColor): (r: seq<CategoryConfig>)
    ensures |r| == |configs|
    ensures forall i :: 0 <= i < |configs| && configs[i].name == name ==> r[i] == CategoryConfig(name, color)
    ensures forall i :: 0 <= i < |configs| && configs[i].name != name ==> r[i] == configs[i]
  {
    seq(|configs|, i requires 0 <= i < |configs| => if configs[i].name == name then configs[i].(color := color) else configs[i])
  }

  /** Recolouring never renames, reorders, adds or drops a category. */
  lemma SetColorKeepsNames(configs: seq<CategoryConfig>, name: string, color: CategoryColor)
    ensures Names(SetCategoryColor(configs, name, color)) == Names(configs)
  {
  }

  lemma SetColorUnknownIsNoop(configs: seq<CategoryConfig>, name: string, color: CategoryColor)
    requires name !in Names(configs)
    ensures SetCategoryColor(configs, name, color) == configs
  {
    forall i | 0 <= i < |configs| ensures configs[i].name != name {
      assert Names(configs)[i] == configs[i].name;
    }
  }

  /** `configs[k]` is the first config, in list order, named `name`. */
  predicate IsFirstNamed(configs: seq<CategoryConfig>, name: string, k: int) {
    0 <= k < |configs| && configs[k].name == name &&
    forall j :: 0 <= j < k ==> configs[j].name != name
  }

  /** `configs.find(c => c.name === name)`. */
  function FindConfig(configs: seq<CategoryConfig>, name: string): (r: Option<CategoryConfig>)
    ensures r.None? <==> name !in Names(configs)
    ensures forall k :: IsFirstNamed(configs, name, k) ==> r == Some(configs[k])
  {
    if configs == [] then None
    else if configs[0].name == name then Some(configs[0])
    else
      var r := FindConfig(configs[1..], name);
      assert Names(configs) == [configs[0].name] + Names(configs[1..]);
      assert forall k :: IsFirstNamed(configs, name, k) ==> r == Some(configs[k]) by {
        forall k | IsFirstNamed(configs, name, k) ensures r == Some(configs[k]) {
          assert IsFirstNamed(configs[1..], name, k - 1);
        }
      }
      r
  }

  /** With distinct names the config found is the one with that name. */
  lemma {:induction false} FindConfigDistinct(configs: seq<CategoryConfig>, i: int)
    requires Distinct(Names(configs)) && 0 <= i < |configs|
    ensures FindConfig(configs, configs[i].name) == Some(configs[i])
  {
    if i > 0 {
      assert Names(configs)[0] != Names(configs)[i];
      assert Names(configs[1..]) == Names(configs)[1..];
      assert configs[1..][i - 1] == configs[i];
      FindConfigDistinct(configs[1..], i - 1);
    }
  }

  /** `palette.find(c => !used.has(c.id))`. */
  function FirstUnused(palette: seq<CategoryColor>, used: seq<string>): (r: Option<CategoryColor>)
    ensures r.None? <==> forall i :: 0 <= i < |palette| ==> palette[i].id in used
    ensures r.Some? ==> exists k :: 0 <= k < |palette| && r.value == palette[k] && palette[k].id !in used &&
                                    forall j :: 0 <= j < k ==> palette[j].id in used
  {
    if palette == [] then None
    else if palette[0].id !in used then Some(palette[0])
    else
      var r := FirstUnused(palette[1..], used);
      assert r.Some? ==> exists k :: 0 <= k < |palette| && r.value == palette[k] && palette[k].id !in used &&
                                    forall j :: 0 <= j < k ==> palette[j].id in used by {
        if r.Some? {
          var k :| 0 <= k < |palette[1..]| && r.value == palette[1..][k] && palette[1..][k].id !in used &&
                   forall j :: 0 <= j < k ==> palette[1..][j].id in used;
          assert forall j :: 0 <= j < k + 1 ==> palette[j].id in used by {
            forall j | 0 <= j < k + 1 ensures palette[j].id in used {
              if j > 0 { assert palette[j] == palette[1..][j - 1]; }
            }
          }
        }
      }
      r
  }

  /** `getUnusedColor`: the first palette colour no category uses; only when
      every colour is taken, the palette entry at the random index `roll`. */
  function GetUnusedColor(configs: seq<CategoryConfig>, roll: nat): (r: CategoryColor)
    requires roll < |ColorPalette|
    ensures r in PaletteColors()
    ensures (exists i :: 0 <= i < |PaletteColors()| && PaletteColors()[i].id !in ColorIds(configs)) ==>
              r.id !in ColorIds(configs) &&
              exists k :: 0 <= k < |PaletteColors()| && r == PaletteColors()[k] &&
                          forall j :: 0 <= j < k ==> PaletteColors()[j].id in ColorIds(configs)
  {
    match FirstUnused(PaletteColors(), ColorIds(configs))
    case Some(c) => c
    case None => PaletteColors()[roll]
  }

  /** `handleAddCategory`: a new, non-empty name is appended with a fresh colour;
      an empty or already present name changes nothing. */
  function AddCategory(configs: seq<CategoryConfig>, name: string, roll: nat): (r: seq<CategoryConfig>)
    requires roll < |ColorPalette|
    ensures name == "" || name in Names(configs) ==> r == configs
    ensures name != "" && name !in Names(configs) ==>
      |r| == |configs| + 1 && r[..|configs|] == configs && r[|configs|].name == name &&
      r[|configs|].color in PaletteColors()
    ensures name != "" && name !in Names(configs) ==> r[|configs|].color == GetUnusedColor(configs, roll)
    ensures Distinct(Names(configs)) ==> Distinct(Names(r))
  {
    if name != "" && name !in Names(configs) then
      var r := configs + [CategoryConfig(name, GetUnusedColor(configs, roll))];
      assert Names(r) == Names(configs) + [name];
      r
    else configs
  }

  /** While some palette colour is free, a new category never shares a colour. */
  lemma AddCategoryPicksFreeColor(configs: seq<CategoryConfig>, name: string, roll: nat, i: int)
    requires roll < |ColorPalette|
    requires name != "" && name !in Names(configs)
    requires 0 <= i < |PaletteColors()| && PaletteColors()[i].id !in ColorIds(configs)
    ensures AddCategory(configs, name, roll)[|configs|].color.id !in ColorIds(configs)
  {
  }

  /** The seed registry uses emerald, the first palette colour, but not green, the second. */
  lemma DefaultUsesEmeraldNotGreen()
    ensures PaletteColors()[0] == Emerald && Emerald.id in ColorIds(DefaultCategoryConfigs)
    ensures PaletteColors()[1] == Green && Green.id !in ColorIds(DefaultCategoryConfigs)
  {
    DefaultColorIdsListed();
  }

  /** So green is the colour a new category gets. */
  lemma DefaultNextColorIsGreen(roll: nat)
    requires roll < |ColorPalette|
    ensures GetUnusedColor(DefaultCategoryConfigs, roll) == Green
  {
    var used := ColorIds(DefaultCategoryConfigs);
    var p := PaletteColors();
    DefaultUsesEmeraldNotGreen();
    assert FirstUnused(p, used) == FirstUnused(p[1..], used);
    assert p[1..][0] == Green;
  }

  /** "Pets" is not one of the seed categories. */
  lemma PetsIsNew()
    ensures "Pets" !in Names(DefaultCategoryConfigs)
  {
    CategoryNamesListed();
    assert Names(DefaultCategoryConfigs) == CategoryNames;
  }

  /** Adding a category to the seed registry gives it the first free colour, green. */
  lemma DefaultRegistryNextColor(roll: nat)
    requires roll < |ColorPalette|
    ensures AddCategory(DefaultCategoryConfigs, "Pets", roll) == DefaultCategoryConfigs + [CategoryConfig("Pets", Green)]
  {
    DefaultNextColorIsGreen(roll);
    PetsIsNew();
  }
}
