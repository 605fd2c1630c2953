/** The records, the application states and the seed constants of the statement scanner. */
module Types {
  import opened Wrappers

  /** One statement line. `cardLast4`, `originalCategory` and `manualCategory`
      may be absent. Amounts are exact: positive for a purchase, negative for
      a payment or refund. */
  datatype Transaction = Transaction(
    id: string,
    date: string,
    description: string,
    cardLast4: Option<string>,
    category: string,
    amount: real,
    originalCategory: Option<string>,
    manualCategory: Option<string>)

  datatype KeywordRule = KeywordRule(id: string, keyword: string, category: string)

  datatype AppState = Idle | Processing | Analyzed | Error

  /** A palette entry: its key and the four style class names. */
  datatype CategoryColor = CategoryColor(id: string, bg: string, text: string, border: string, fill: string)

  datatype CategoryConfig = CategoryConfig(name: string, color: CategoryColor)

  datatype Period = Period(start: string, end: string)

  const Emerald: CategoryColor := CategoryColor("emerald", "bg-emerald-100", "text-emerald-700", "border-emerald-200", "bg-emerald-500")
  const Green: CategoryColor := CategoryColor("green", "bg-green-100", "text-green-700", "border-green-200", "bg-green-500")
  const Lime: CategoryColor := CategoryColor("lime", "bg-lime-100", "text-lime-700", "border-lime-200", "bg-lime-500")
  const Teal: CategoryColor := CategoryColor("teal", "bg-teal-100", "text-teal-700", "border-teal-200", "bg-teal-500")
  const Cyan: CategoryColor := CategoryColor("cyan", "bg-cyan-100", "text-cyan-700", "border-cyan-200", "bg-cyan-500")
  const Sky: CategoryColor := CategoryColor("sky", "bg-sky-100", "text-sky-700", "border-sky-200", "bg-sky-500")
  const Blue: CategoryColor := CategoryColor("blue", "bg-blue-100", "text-blue-700", "border-blue-200", "bg-blue-500")
  const Indigo: CategoryColor := CategoryColor("indigo", "bg-indigo-100", "text-indigo-700", "border-indigo-200", "bg-indigo-500")
  const Violet: CategoryColor := CategoryColor("violet", "bg-violet-100", "text-violet-700", "border-violet-200", "bg-violet-500")
  const Purple: CategoryColor := CategoryColor("purple", "bg-purple-100", "text-purple-700", "border-purple-200", "bg-purple-500")
  const Fuchsia: CategoryColor := CategoryColor("fuchsia", "bg-fuchsia-100", "text-fuchsia-700", "border-fuchsia-200", "bg-fuchsia-500")
  const Pink: CategoryColor := CategoryColor("pink", "bg-pink-100", "text-pink-700", "border-pink-200", "bg-pink-500")
  const Rose: CategoryColor := CategoryColor("rose", "bg-rose-100", "text-rose-700", "border-rose-200", "bg-rose-500")
  const Red: CategoryColor := CategoryColor("red", "bg-red-100", "text-red-700", "border-red-200", "bg-red-500")
  const Orange: CategoryColor := CategoryColor("orange", "bg-orange-100", "text-orange-700", "border-orange-200", "bg-orange-500")
  const Amber: CategoryColor := CategoryColor("amber", "bg-amber-100", "text-amber-700", "border-amber-200", "bg-amber-500")
  const Yellow: CategoryColor := CategoryColor("yellow", "bg-yellow-100", "text-yellow-700", "border-yellow-200", "bg-yellow-500")
  const Slate: CategoryColor := CategoryColor("slate", "bg-slate-100", "text-slate-700", "border-slate-200", "bg-slate-500")
  const Gray: CategoryColor := CategoryColor("gray", "bg-gray-100", "text-gray-700", "border-gray-200", "bg-gray-500")
  const Zinc: CategoryColor := CategoryColor("zinc", "bg-zinc-100", "text-zinc-700", "border-zinc-200", "bg-zinc-500")
  const Neutral: CategoryColor := CategoryColor("neutral", "bg-neutral-100", "text-neutral-700", "border-neutral-200", "bg-neutral-500")
  const Stone: CategoryColor := CategoryColor("stone", "bg-stone-100", "text-stone-700", "border-stone-200", "bg-stone-500")

  /** The palette as a record from key to colour, in declaration order
      (the order `Object.values` lists it in). */
  const ColorPalette: seq<(string, CategoryColor)> := [
    ("emerald", Emerald),
    ("green", Green),
    ("lime", Lime),
    ("teal", Teal),
    ("cyan", Cyan),
    ("sky", Sky),
    ("blue", Blue),
    ("indigo", Indigo),
    ("violet", Violet),
    ("purple", Purple),
    ("fuchsia", Fuchsia),
    ("pink", Pink),
    ("rose", Rose),
    ("red", Red),
    ("orange", Orange),
    ("amber", Amber),
    ("yellow", Yellow),
    ("slate", Slate),
    ("gray", Gray),
    ("zinc", Zinc),
    ("neutral", Neutral),
    ("stone", Stone)
  ]

  /** `Object.values(COLOR_PALETTE)`. */
  function PaletteColors(): (r: seq<CategoryColor>)
    ensures |r| == |ColorPalette|
    ensures forall i :: 0 <= i < |r| ==> r[i] == ColorPalette[i].1
  {
    seq(|ColorPalette|, i requires 0 <= i < |ColorPalette| => ColorPalette[i].1)
  }

  const DefaultCategoryConfigs: seq<CategoryConfig> := [
    CategoryConfig("Groceries", Emerald),
    CategoryConfig("Dining", Orange),
    CategoryConfig("Gas", Amber),
    CategoryConfig("Transportation", Yellow),
    CategoryConfig("Travel", Cyan),
    CategoryConfig("Internet", Sky),
    CategoryConfig("Cellphone", Blue),
    CategoryConfig("Online Services", Indigo),
    CategoryConfig("Utilities", Teal),
    CategoryConfig("Shopping", Fuchsia),
    CategoryConfig("Entertainment", Purple),
    CategoryConfig("Donation", Rose),
    CategoryConfig("Business", Slate),
    CategoryConfig("Other", Stone)
  ]

  /** `configs.map(c => c.name)`. */
  function Names(configs: seq<CategoryConfig>): (r: seq<string>)
    ensures |r| == |configs|
    ensures forall i :: 0 <= i < |configs| ==> r[i] == configs[i].name
  {
    seq(|configs|, i requires 0 <= i < |configs| => configs[i].name)
  }

  /** `configs.map(c => c.color.id)`. */
  function ColorIds(configs: seq<CategoryConfig>): (r: seq<string>)
    ensures |r| == |configs|
    ensures forall i :: 0 <= i < |configs| ==> r[i] == configs[i].color.id
  {
    seq(|configs|, i requires 0 <= i < |configs| => configs[i].color.id)
  }

  const CategoryNames: seq<string> := Names(DefaultCategoryConfigs)

  const DefaultRules: seq<KeywordRule> := [
    KeywordRule("1", "'S NF", "Groceries"),
    KeywordRule("2", "ESSO", "Gas"),
    KeywordRule("3", "COSTCO GAS", "Gas"),
    KeywordRule("4", "NETFLIX", "Entertainment"),
    KeywordRule("5", "407ETR", "Transportation"),
    KeywordRule("6", "CORP CANADA", "Business"),
    KeywordRule("7", "ROGERS ******2665", "Cellphone"),
    KeywordRule("8", "ROGERS ******8017", "Internet"),
    KeywordRule("9", "WWW.COSTCO CA", "Shopping")
  ]

  predicate Distinct(xs: seq<string>) {
    forall i, j :: 0 <= i < j < |xs| ==> xs[i] != xs[j]
  }

  lemma DistinctCons(x: string, xs: seq<string>)
    ensures Distinct([x] + xs) <==> x !in xs && Distinct(xs)
  {
    var ys := [x] + xs;
    assert ys[1..] == xs;
    if x !in xs && Distinct(xs) {
      forall i, j | 0 <= i < j < |ys| ensures ys[i] != ys[j] {
        if i == 0 { assert ys[j] == xs[j - 1]; }
        else { assert ys[i] == xs[i - 1] && ys[j] == xs[j - 1]; }
      }
    }
    if Distinct(ys) {
      forall k | 0 <= k < |xs| ensures xs[k] != x {
        assert ys[0] != ys[k + 1];
      }
    }
  }

  /** The palette's keys, in declaration order. */
  const PaletteKeys: seq<string> :=
    ["emerald", "green", "lime", "teal", "cyan", "sky", "blue", "indigo", "violet", "purple", "fuchsia",
     "pink", "rose", "red", "orange", "amber", "yellow", "slate", "gray", "zinc", "neutral", "stone"]

  lemma PaletteKeysListed()
    ensures seq(|ColorPalette|, i requires 0 <= i < |ColorPalette| => ColorPalette[i].0) == PaletteKeys
  {
  }

  /** Two lists without duplicates and without common elements concatenate to one without duplicates. */
  lemma DistinctConcat(a: seq<string>, b: seq<string>)
    requires Distinct(a) && Distinct(b)
    requires forall i, j :: 0 <= i < |a| && 0 <= j < |b| ==> a[i] != b[j]
    ensures Distinct(a + b)
  {
    forall i, j | 0 <= i < j < |a + b| ensures (a + b)[i] != (a + b)[j] {
      if j < |a| {
      } else if i < |a| {
        assert (a + b)[j] == b[j - |a|];
      } else {
        assert (a + b)[i] == b[i - |a|] && (a + b)[j] == b[j - |a|];
      }
    }
  }

  /** The palette's keys in two halves, so that their distinctness is checked in small steps. */
  const PaletteFirstKeys: seq<string> := ["emerald", "green", "lime", "teal", "cyan", "sky", "blue", "indigo", "violet", "purple", "fuchsia"]
  const PaletteLastKeys: seq<string> := ["pink", "rose", "red", "orange", "amber", "yellow", "slate", "gray", "zinc", "neutral", "stone"]

  lemma PaletteFirstKeysDistinct()
    ensures Distinct(PaletteFirstKeys)
  {
  }

  lemma PaletteLastKeysDistinct()
    ensures Distinct(PaletteLastKeys)
  {
  }

  lemma PaletteHalvesDisjoint()
    ensures forall i, j :: 0 <= i < |PaletteFirstKeys| && 0 <= j < |PaletteLastKeys| ==> PaletteFirstKeys[i] != PaletteLastKeys[j]
  {
  }

  /** No two palette keys are equal. */
  lemma PaletteKeysDistinct()
    ensures Distinct(PaletteKeys)
  {
    PaletteFirstKeysDistinct();
    PaletteLastKeysDistinct();
    PaletteHalvesDisjoint();
    DistinctConcat(PaletteFirstKeys, PaletteLastKeys);
    assert PaletteKeys == PaletteFirstKeys + PaletteLastKeys;
  }

  /** Every palette entry's `id` is its key. */
  lemma PaletteIdsAreKeys()
    ensures forall i :: 0 <= i < |ColorPalette| ==> ColorPalette[i].1.id == ColorPalette[i].0
  {
  }

  /** There are 22 palette entries with distinct ids. */
  lemma PaletteWellFormed()
    ensures |ColorPalette| == 22
    ensures forall i :: 0 <= i < |ColorPalette| ==> ColorPalette[i].1.id == ColorPalette[i].0
    ensures Distinct(seq(|ColorPalette|, i requires 0 <= i < |ColorPalette| => ColorPalette[i].0))
  {
    PaletteKeysListed();
    PaletteKeysDistinct();
    PaletteIdsAreKeys();
  }

  /** The 14 default categories have distinct names. */
  lemma DefaultNamesDistinct()
    ensures Distinct(Names(DefaultCategoryConfigs))
  {
    CategoryNamesListed();
  }

  /** The colour ids of the default categories, in order. */
  lemma DefaultColorIdsListed()
    ensures ColorIds(DefaultCategoryConfigs) == ["emerald", "orange", "amber", "yellow", "cyan", "sky", "blue", "indigo", "teal", "fuchsia", "purple", "rose", "slate", "stone"]
  {
  }

  /** The 14 default categories have distinct colours. */
  lemma DefaultColorsDistinct()
    ensures Distinct(ColorIds(DefaultCategoryConfigs))
  {
    DefaultColorIdsListed();
  }

  /** Every default category's colour comes from the palette. */
  lemma DefaultColorsFromPalette()
    ensures forall i :: 0 <= i < |DefaultCategoryConfigs| ==> DefaultCategoryConfigs[i].color in PaletteColors()
  {
    assert PaletteColors() == [Emerald, Green, Lime, Teal, Cyan, Sky, Blue, Indigo, Violet, Purple, Fuchsia, Pink, Rose, Red, Orange, Amber, Yellow, Slate, Gray, Zinc, Neutral, Stone];
  }

  /** The 14 default categories have distinct names and distinct colours, all from the palette. */
  lemma DefaultConfigsWellFormed()
    ensures |DefaultCategoryConfigs| == 14
    ensures Distinct(Names(DefaultCategoryConfigs))
    ensures Distinct(ColorIds(DefaultCategoryConfigs))
    ensures forall i :: 0 <= i < |DefaultCategoryConfigs| ==> DefaultCategoryConfigs[i].color in PaletteColors()
  {
    DefaultNamesDistinct();
    DefaultColorsDistinct();
    DefaultColorsFromPalette();
  }

  /** `CATEGORY_NAMES` lists the default names in order. */
  lemma CategoryNamesListed()
    ensures CategoryNames == ["Groceries", "Dining", "Gas", "Transportation", "Travel", "Internet", "Cellphone", "Online Services", "Utilities", "Shopping", "Entertainment", "Donation", "Business", "Other"]
  {
  }

  /** The default rules have distinct ids and non-empty keywords, and each
      names a default category. */
  lemma DefaultRulesWellFormed()
    ensures |DefaultRules| == 9
    ensures Distinct(seq(|DefaultRules|, i requires 0 <= i < |DefaultRules| => DefaultRules[i].id))
    ensures forall i :: 0 <= i < |DefaultRules| ==> DefaultRules[i].keyword != ""
    ensures forall i :: 0 <= i < |DefaultRules| ==> DefaultRules[i].category in CategoryNames
  {
    CategoryNamesListed();
  }
}
