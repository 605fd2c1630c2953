/** The settings dialog: the add/edit rule form, the custom category input
    and the colour picker. */
module Settings {
  import opened Wrappers
  import opened Text
  import opened Types
  import opened Registry

  /** The callback a save issues to the rule set. */
  datatype RuleCommand = AddRuleCommand(rule: KeywordRule) | UpdateRuleCommand(rule: KeywordRule)

  /** A colour choice reported to the registry. */
  datatype ColorChoice = ColorChoice(category: string, color: CategoryColor)

  /** JavaScript truthiness of a nullable string: present and non-empty. */
  predicate IsSet(s: Option<string>) {
    s.Some? && s.value != ""
  }

  /** The form state of the dialog. */
  class SettingsForm {
    var newKeyword: string
    var newCategory: string
    var editingId: Option<string>
    var newCustomCategory: string
    var selectedCategoryForColor: Option<string>

    constructor ()
      ensures newKeyword == "" && newCategory == "" && editingId == None
      ensures newCustomCategory == "" && selectedCategoryForColor == None
    {
      newKeyword := "";
      newCategory := "";
      editingId := None;
      newCustomCategory := "";
      selectedCategoryForColor := None;
    }

    method SetKeyword(keyword: string)
      modifies this`newKeyword
      ensures newKeyword == keyword
    {
      newKeyword := keyword;
    }

    method SetCategory(category: string)
      modifies this`newCategory
      ensures newCategory == category
    {
      newCategory := category;
    }

    method SetCustomCategory(name: string)
      modifies this`newCustomCategory
      ensures newCustomCategory == name
    {
      newCustomCategory := name;
    }

    /** `handleSave`: nothing happens unless both inputs are non-empty; in edit
        mode it updates the edited rule and leaves edit mode, otherwise it adds
        a rule under `freshId`; then both inputs are cleared. */
    method HandleSave(freshId: string) returns (command: Option<RuleCommand>)
      modifies this`newKeyword, this`newCategory, this`editingId
      ensures old(newKeyword) == "" || old(newCategory) == "" ==>
        command == None && newKeyword == old(newKeyword) && newCategory == old(newCategory) &&
        editingId == old(editingId)
      ensures old(newKeyword) != "" && old(newCategory) != "" && IsSet(old(editingId)) ==>
        command == Some(UpdateRuleCommand(KeywordRule(old(editingId).value, old(newKeyword), old(newCategory)))) &&
        editingId == None
      ensures old(newKeyword) != "" && old(newCategory) != "" && !IsSet(old(editingId)) ==>
        command == Some(AddRuleCommand(KeywordRule(freshId, old(newKeyword), old(newCategory)))) &&
        editingId == old(editingId)
      ensures command.Some? ==> newKeyword == "" && newCategory == ""
      ensures command.Some? ==> command.value.rule.keyword != "" && command.value.rule.category != ""
    {
      command := None;
      if newKeyword != "" && newCategory != "" {
        if IsSet(editingId) {
          command := Some(UpdateRuleCommand(KeywordRule(editingId.value, newKeyword, newCategory)));
          editingId := None;
        } else {
          command := Some(AddRuleCommand(KeywordRule(freshId, newKeyword, newCategory)));
        }
        newKeyword := "";
        newCategory := "";
      }
    }

    /** `handleAddCustomCategory`: a white-space-only name is ignored; otherwise
        the trimmed name is reported and the input cleared. */
    method HandleAddCustomCategory() returns (added: Option<string>)
      modifies this`newCustomCategory
      ensures AllSpace(old(newCustomCategory)) ==> added == None && newCustomCategory == old(newCustomCategory)
      ensures !AllSpace(old(newCustomCategory)) ==> added == Some(Trim(old(newCustomCategory))) && newCustomCategory == ""
      ensures added.Some? ==> added.value != ""
    {
      var trimmed := Trim(newCustomCategory);
      TrimEmptyIffBlank(newCustomCategory);
      if trimmed != "" {
        added := Some(trimmed);
        newCustomCategory := "";
      } else {
        added := None;
      }
    }

    /** `startEditing`: loads the rule into the form. */
    method StartEditing(rule: KeywordRule)
      modifies this`newKeyword, this`newCategory, this`editingId
      ensures newKeyword == rule.keyword && newCategory == rule.category && editingId == Some(rule.id)
    {
      newKeyword := rule.keyword;
      newCategory := rule.category;
      editingId := Some(rule.id);
    }

    /** `cancelEditing`: empties the form and leaves edit mode. */
    method CancelEditing()
      modifies this`newKeyword, this`newCategory, this`editingId
      ensures newKeyword == "" && newCategory == "" && editingId == None
    {
      newKeyword := "";
      newCategory := "";
      editingId := None;
    }

    /** A click on a category opens the colour picker for it. */
    method SelectCategoryForColor(name: string)
      modifies this`selectedCategoryForColor
      ensures selectedCategoryForColor == Some(name)
    {
      selectedCategoryForColor := Some(name);
    }

    /** The picker's close button dismisses it without a choice. */
    method ClosePicker()
      modifies this`selectedCategoryForColor
      ensures selectedCategoryForColor == None
    {
      selectedCategoryForColor := None;
    }

    /** A click on a palette colour, possible only while the picker is shown,
        reports the choice and closes the picker. */
    method PickColor(color: CategoryColor) returns (choice: Option<ColorChoice>)
      modifies this`selectedCategoryForColor
      ensures IsSet(old(selectedCategoryForColor)) ==>
        choice == Some(ColorChoice(old(selectedCategoryForColor).value, color)) && selectedCategoryForColor == None
      ensures !IsSet(old(selectedCategoryForColor)) ==>
        choice == None && selectedCategoryForColor == old(selectedCategoryForColor)
    {
      if IsSet(selectedCategoryForColor) {
        choice := Some(ColorChoice(selectedCategoryForColor.value, color));
        selectedCategoryForColor := None;
      } else {
        choice := None;
      }
    }
  }

  /** `isActive`: the colour is marked when it is the colour of the first
      config named `selected`; nothing is marked for an unknown name. */
  function IsActive(configs: seq<CategoryConfig>, selected: string, color: CategoryColor): (r: bool)
    ensures selected !in Names(configs) ==> !r
    ensures forall k :: IsFirstNamed(configs, selected, k) ==> (r <==> configs[k].color.id == color.id)
  {
    match FindConfig(configs, selected)
    case Some(c) => c.color.id == color.id
    case None => false
  }

  /** With unique category names (as the registry keeps them), the marked
      palette entries are exactly those sharing the category's colour id. */
  lemma IsActiveDistinct(configs: seq<CategoryConfig>, i: int, color: CategoryColor)
    requires Distinct(Names(configs)) && 0 <= i < |configs|
    ensures IsActive(configs, configs[i].name, color) <==> configs[i].color.id == color.id
  {
    FindConfigDistinct(configs, i);
  }

  /** Since palette ids are distinct, exactly one palette entry is marked for a
      category whose colour comes from the palette. */
  lemma OneActiveColor(configs: seq<CategoryConfig>, i: int, p: int)
    requires Distinct(Names(configs)) && 0 <= i < |configs|
    requires 0 <= p < |PaletteColors()| && configs[i].color == PaletteColors()[p]
    ensures forall q :: 0 <= q < |PaletteColors()| ==>
      (IsActive(configs, configs[i].name, PaletteColors()[q]) <==> q == p)
  {
    PaletteWellFormed();
    forall q | 0 <= q < |PaletteColors()|
      ensures IsActive(configs, configs[i].name, PaletteColors()[q]) <==> q == p
    {
      IsActiveDistinct(configs, i, PaletteColors()[q]);
      var ids := seq(|ColorPalette|, k requires 0 <= k < |ColorPalette| => ColorPalette[k].0);
      if q != p {
        if q < p { assert ids[q] != ids[p]; } else { assert ids[p] != ids[q]; }
      }
    }
  }
}
