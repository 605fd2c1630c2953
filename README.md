# Statement Scanner — a verified model of the session logic

Statement Scanner is a single-page React application. A credit-card statement
(a PDF) is sent to a remote AI extraction service, which returns the
statement's transactions. The application then categorizes, searches, totals,
reconciles and exports them entirely in memory. This project models that
in-memory logic in Dafny and proves what it promises:

- **Categorization** (`Categorize`). A non-empty manual override wins. Otherwise
  the first keyword rule in list order decides: its lower-cased keyword must be
  a substring of the lower-cased description. Otherwise the category proposed
  by the extraction stays.
- **The session** (`Session.StatementSession`). A class with the
  application's state fields: transactions, rules, category registry, search
  term, application state (IDLE / PROCESSING / ANALYZED / ERROR), period, file
  name, extracted total and error message. Its methods are the upload state
  machine, reset and the edit handlers. Each method states the whole new state
  and keeps the invariant that category names are unique and that an idle
  session holds no statement.
- **Registry edits** (`Registry`). Replace-by-id of rules, manual categories and
  category colours; rule deletion; category addition with first-unused palette
  colour assignment.
- **Views** (`Views`, `Analysis`, `TransactionList`). The search filter and the
  positive-only total spend. The reconciliation check, with a tolerance of
  strictly less than 1.0. The sidebar's per-category totals, sorted by amount
  and given percentages. The badge and bar colour lookups.
- **CSV export** (`Export`). Quote doubling, newline removal and quoting of
  the description cell; the header line and one line per transaction.
- **The settings dialog** (`Settings.SettingsForm`). The add/edit rule form,
  the custom category input and the colour picker, as a class over the form
  fields.
- **Seed data** (`Types`). The 22-colour palette, the 14 default categories
  and the 9 default rules, with their well-formedness lemmas.

Amounts are exact `real`s. JavaScript's number formatting (`toString`,
`toFixed(2)`) appears as a function parameter `amountText: real -> string`. The
random fallback colour pick appears as a parameter `roll`. The extraction call
appears as an outcome value (`Session.Extraction`).

The modules are:

| file | module | models |
|---|---|---|
| wrappers.dfy | `Wrappers` | `Option` |
| seqs.dfy | `Seqs` | `Array.prototype.filter` and subsequences |
| text.dfy | `Text` | `toLowerCase` (ASCII), `includes`, `trim`, `join` |
| types.dfy | `Types` | types.ts |
| categorize.dfy | `Categorize` | App.tsx, `processedTransactions` |
| registry.dfy | `Registry` | App.tsx, edit handlers and colour assignment |
| views.dfy | `Views` | App.tsx, search filter, total spend, validation |
| analysis.dfy | `Analysis` | components/AnalysisSidebar.tsx |
| export.dfy | `Export` | App.tsx, `handleExport` |
| session.dfy | `Session` | App.tsx, state fields and handlers |
| transaction_list.dfy | `TransactionList` | components/TransactionList.tsx |
| settings.dfy | `Settings` | components/SettingsModal.tsx |

Behaviour worth noting:

- An empty keyword matches every description, the empty one included, because
  `"".includes("")` is true (`Categorize.EmptyKeywordMatchesAll`). A non-empty
  keyword never matches an empty description
  (`Categorize.EmptyDescriptionMatchesOnlyEmpty`).
- Searching for a card suffix such as "0547" also shows transactions whose
  description or amount text contains it; the card is one of three fields
  searched (`Views.NoCardMatchesByOtherFields`, `Views.CardMatchSuffices`).
- `Transaction.cardLast4` is declared as a plain string in types.ts, but the
  code treats it as optional (`t.cardLast4?.includes`, `t.cardLast4 || ''`) and
  the extraction schema does not require it, so the model makes it an `Option`.
- Only the description cell of the export is quoted. A comma in the date, card,
  category or amount text (a date "Jan 10, 2024", or a custom category
  "Food, Drink", which the add-category dialog accepts) becomes a cell
  separator when the file is read back, shifting the later columns. The
  read-back property `Export.CsvRowReadBack` therefore assumes those four cells
  hold no comma; a newline in them likewise splits the line
  (`Export.CsvContent`, `Export.CsvLineCount`).

## Model

| member | source | states |
|---|---|---|
| Types.PaletteColors | types.ts:47-70 | `Object.values(COLOR_PALETTE)`: one colour per palette entry, in declaration order |
| Types.Names | App.tsx:24 | the category names, one per config, in order |
| Types.ColorIds | App.tsx:134 | the colour ids in use, one per config, in order |
| Types.PaletteWellFormed | types.ts:47-70 | 22 palette entries; each entry's `id` equals its key; the keys are pairwise distinct |
| Types.PaletteKeysDistinct | types.ts:47-70 | the 22 palette keys are pairwise distinct |
| Types.DefaultNamesDistinct | types.ts:72-96 | the 14 default category names are pairwise distinct |
| Types.DefaultColorsDistinct | types.ts:72-96 | the 14 default categories use pairwise-distinct colour ids |
| Types.DefaultConfigsWellFormed | types.ts:72-96 | 14 default categories, with pairwise-distinct names, pairwise-distinct colour ids, and every colour from the palette |
| Types.CategoryNamesListed | types.ts:99 | `CATEGORY_NAMES` is exactly the 14 default names, in order |
| Types.DefaultRulesWellFormed | types.ts:101-111 | 9 default rules with distinct ids and non-empty keywords; every rule's category is a default category |
| Seqs.Filter | App.tsx:48-52 | `filter` keeps exactly the elements satisfying the predicate, draws every element from the input and never grows the list |
| Seqs.FilterMultiplicity | App.tsx:48-52 | `filter` keeps every occurrence of a kept element: each element satisfying the predicate appears as often as in the input, every other element not at all |
| Seqs.FilterIsSubsequence | App.tsx:48-52 | a filtered list is an order-preserving subsequence of its input |
| Text.ToLower | App.tsx:36 | lower-casing keeps the length and folds exactly the ASCII capitals |
| Text.Contains | App.tsx:36 | the left-to-right `includes` scan holds exactly when some window of the string equals the needle, and then the needle is no longer than the string |
| Text.ContainsEmpty | components/TransactionList.tsx:25 | every string includes the empty string |
| Text.ContainsExtend | App.tsx:36 | a needle found in a string is still found after text is added on either side |
| Text.Trim | components/SettingsModal.tsx:61 | `trim()` is a slice of the input with only white space cut on either side, and it neither starts nor ends with white space |
| Text.TrimEmptyIffBlank | components/SettingsModal.tsx:61 | the trimmed name is empty exactly when the input is white space only |
| Text.Join | App.tsx:100-101 | `join`: every character of the result comes from one of the parts or from the separator; with a one-character separator that no part holds, splitting the result at it gives exactly the parts back |
| Text.Split | App.tsx:100-101 | the reference reading of joined text: one piece more than there are separators, none of them holding a separator |
| Text.SplitNoSeparator | App.tsx:100-101 | text without the separator is one piece |
| Text.SplitAround | App.tsx:100-101 | splitting at a separator splits the text on each side independently |
| Text.JoinSplit | App.tsx:100-101 | joining the pieces with the separator gives the text back |
| Categorize.RuleMatches | App.tsx:35-37 | a rule matches through its lower-cased keyword occurring in the lower-cased description, which needs the keyword to be no longer than the description |
| Categorize.FindMatchingRule | App.tsx:35-37 | `rules.find`: none exactly when no rule matches; otherwise the first matching rule in list order |
| Categorize.FirstMatchIsUnique | App.tsx:35-37 | the first match is unique |
| Categorize.HasOverride | App.tsx:30 | the override is ignored exactly for the falsy values: missing or the empty string |
| Categorize.Resolve | App.tsx:28-43 | only `category` changes; a non-empty override wins; else the first matching rule's category; with no match the transaction comes back unchanged |
| Categorize.ProcessTransactions | App.tsx:27-45 | the resolved list has the same length, and each element is its input resolved |
| Categorize.ProcessKeepsOtherFields | App.tsx:27-45 | resolution keeps every field except `category`, position by position |
| Categorize.OverrideIgnoresRules | App.tsx:29-32 | with a non-empty override, any two rule sets resolve a transaction alike |
| Categorize.ResolveIdempotent | App.tsx:27-45 | resolving twice is the same as resolving once |
| Categorize.EmptyKeywordMatchesAll | App.tsx:35-37 | an empty keyword matches every description, the empty one included |
| Categorize.EmptyDescriptionMatchesOnlyEmpty | App.tsx:35-37 | a non-empty keyword never matches an empty description |
| Categorize.MatchIgnoresCase | App.tsx:36 | matching depends only on the lower-cased keyword and description |
| Categorize.MatchSurvivesContext | App.tsx:36 | a rule that matches a merchant name still matches a description holding that name among other text |
| Categorize.AppendedRuleIsLast | App.tsx:347 | a rule added at the end decides only descriptions no earlier rule matches |
| Categorize.NetflixExample | App.tsx:36 | keyword "netflix" matches "NETFLIX.COM BILLING" |
| Categorize.RuleOrderExample | App.tsx:35-39 | of two rules with the same keyword, the first listed wins |
| Registry.UpdateRuleById | App.tsx:122-124 | same length; rules with the updated id are replaced, all others unchanged |
| Registry.UpdateUnknownRuleIsNoop | App.tsx:123 | updating an id no rule has changes nothing |
| Registry.UpdateKeepsRuleIds | App.tsx:123 | an update leaves the list of rule ids unchanged |
| Registry.DeleteRuleById | App.tsx:349 | the result holds exactly the rules whose id differs, all drawn from the input, each as often as in the input |
| Registry.DeleteKeepsOrder | App.tsx:349 | the remaining rules keep their order |
| Registry.DeleteUnknownRuleIsNoop | App.tsx:349 | deleting an id no rule has changes nothing |
| Registry.DeleteOtherRuleKeepsMatch | App.tsx:349 | deleting a rule other than the deciding one leaves a description's match unchanged |
| Registry.SetManualCategory | App.tsx:126-130 | same length; transactions with the id get the override, all others unchanged |
| Registry.SetManualUnknownIsNoop | App.tsx:127-129 | an unknown transaction id changes nothing |
| Registry.ManualChoiceWins | App.tsx:126-130 | after a non-empty manual choice, the transaction resolves to it whatever the rules |
| Registry.EmptyManualChoiceDefersToRules | App.tsx:30 | an empty manual choice resolves as if no override were set |
| Registry.SetCategoryColor | App.tsx:150-154 | same length; configs with the name get the new colour, all others unchanged |
| Registry.SetColorKeepsNames | App.tsx:151-153 | recolouring keeps the list of names |
| Registry.SetColorUnknownIsNoop | App.tsx:151-153 | recolouring an unknown name changes nothing |
| Registry.FindConfig | components/TransactionList.tsx:31 | `configs.find` by exact name: none exactly when the name is absent, else the first config with it |
| Registry.FindConfigDistinct | components/TransactionList.tsx:31 | with unique names the lookup finds that config |
| Registry.FirstUnused | App.tsx:136 | none exactly when every palette colour is used, else the first unused one in palette order |
| Registry.GetUnusedColor | App.tsx:133-139 | always a palette colour; the first unused one in palette order whenever one is free |
| Registry.AddCategory | App.tsx:141-148 | an empty or present name changes nothing; a new name is appended once with the colour `getUnusedColor` picks; names stay unique |
| Registry.AddCategoryPicksFreeColor | App.tsx:133-146 | while a palette colour is free, a new category gets a colour no category uses |
| Registry.DefaultUsesEmeraldNotGreen | types.ts:72-96 | the defaults use emerald, the first palette colour, and do not use green, the second |
| Registry.DefaultNextColorIsGreen | App.tsx:133-139 | against the defaults, the colour picker returns green |
| Registry.DefaultRegistryNextColor | App.tsx:141-148 | a category added to the defaults gets green, the first unused palette colour |
| Views.MatchesSearch | App.tsx:48-52 | an empty term matches every transaction; a match needs a searched field (description, amount text or card suffix) at least as long as the term |
| Views.FilterTransactions | App.tsx:48-52 | the view keeps exactly the transactions matching the search, each as often as in the input, and is never longer |
| Views.FilterKeepsOrder | App.tsx:48-52 | the filtered view is an order-preserving subsequence of the resolved list |
| Views.EmptySearchKeepsAll | components/TransactionList.tsx:25 | an empty search term keeps every transaction |
| Views.SearchIgnoresDescriptionCase | App.tsx:49 | the description is compared ignoring ASCII case |
| Views.NoCardMatchesByOtherFields | App.tsx:49-51 | a transaction without a card suffix matches exactly by description or amount text |
| Views.CardMatchSuffices | App.tsx:51 | a card suffix containing the term (case-sensitively) is enough to match |
| Views.TotalSpend | App.tsx:54-56 | the total spend equals the independently defined sum of the positive amounts, and is never negative |
| Views.FilteredSumIsExpenseSum | App.tsx:54-56 | summing the positive transactions equals summing each transaction's positive part |
| Views.SubsequenceSpendsLess | App.tsx:54-56 | a subsequence never spends more |
| Views.SearchLowersSpend | App.tsx:48-56 | a search can only lower the total spend |
| Views.IsValidationSuccessful | App.tsx:156-159 | false without an extracted total; otherwise true exactly when the totals differ by strictly less than 1.0 |
| Views.ToleranceBoundary | App.tsx:158 | the check is symmetric; a difference of exactly 1.0 fails; equal totals pass |
| Views.ReconciliationExamples | App.tsx:156-159 | 100.00 against 100.99 passes and against 101.00 fails; an expense of 50 and a refund of 20 total 50 |
| Analysis.AddAmount | components/AnalysisSidebar.tsx:15 | one accumulator step keeps every existing key in its place; a present key keeps the length; a missing key is appended last with the amount |
| Analysis.AddAmountLookup | components/AnalysisSidebar.tsx:15 | one accumulator step adds the amount to its own category's total and to no other |
| Analysis.AddAmountKeys | components/AnalysisSidebar.tsx:15 | one accumulator step adds the category as a key if it was missing, and no other key |
| Analysis.AddAmountDistinct | components/AnalysisSidebar.tsx:15 | one accumulator step keeps the keys unique |
| Analysis.AddAmountSum | components/AnalysisSidebar.tsx:15 | one accumulator step adds the amount to the sum of all totals |
| Analysis.Tally | components/AnalysisSidebar.tsx:14-17 | the fold keeps the accumulator's keys in order and adds at most one key per transaction |
| Analysis.TallyFacts | components/AnalysisSidebar.tsx:14-17 | the fold's totals are the accumulator's plus each category's amounts; keys are the accumulator's plus the categories seen |
| Analysis.FilterExpenseSpend | components/AnalysisSidebar.tsx:12-13 | pre-filtering to positive amounts keeps each category's spend |
| Analysis.FilterExpenseHas | components/AnalysisSidebar.tsx:12-13 | pre-filtering to positive amounts keeps the set of categories that have spend |
| Analysis.CategoryTotals | components/AnalysisSidebar.tsx:12-17 | there are never more category totals than transactions |
| Analysis.CategoryTotalsCorrect | components/AnalysisSidebar.tsx:12-19 | each category appears once, exactly the categories with a positive amount appear, each total is that category's positive sum, and they add up to the total spend |
| Analysis.CreditsDoNotCount | components/AnalysisSidebar.tsx:13 | a credit or zero amount leaves the category totals unchanged |
| Analysis.InsertDescendingContents | components/AnalysisSidebar.tsx:22 | one insertion adds exactly the inserted entry (as a multiset) |
| Analysis.InsertDescendingSorted | components/AnalysisSidebar.tsx:22 | inserting into a non-increasing list keeps it non-increasing |
| Analysis.InsertDescendingBounded | components/AnalysisSidebar.tsx:22 | an insertion adds no amount above a bound that the entry and the list respect |
| Analysis.SortDescending | components/AnalysisSidebar.tsx:21-22 | the sort is non-increasing by amount and a permutation of its input |
| Analysis.Percentage | components/AnalysisSidebar.tsx:26 | with a positive total the percentage times the total is 100 times the amount, and lies in 0..100 for an amount between 0 and the total; with no total it is 0 |
| Analysis.Shares | components/AnalysisSidebar.tsx:23-27 | one row per entry, keeping category and amount, with that amount's percentage |
| Analysis.SidebarTotal | components/AnalysisSidebar.tsx:19 | the sidebar's total of the category totals equals the total spend |
| Analysis.SortedCategories | components/AnalysisSidebar.tsx:21-27 | one row per category total, in non-increasing order of amount |
| Analysis.PercentageSumScales | components/AnalysisSidebar.tsx:26 | with a positive total, the percentages sum to the entries' sum over the total, times 100 |
| Analysis.PercentageSumZero | components/AnalysisSidebar.tsx:26 | with a zero total every percentage is 0, and so is their sum |
| Analysis.SortedCategoriesOrdered | components/AnalysisSidebar.tsx:21-27 | the rows are non-increasing by amount and are the category totals, each once |
| Analysis.SortedCategoriesPercentages | components/AnalysisSidebar.tsx:19-27 | each percentage is the row's share of the total spend; they sum to 100 when anything was spent, else to 0 |
| Analysis.SpendPositiveIff | components/AnalysisSidebar.tsx:26 | the total spend is positive exactly when some amount is positive |
| Analysis.ProgressColor | components/AnalysisSidebar.tsx:29-33 | the fill of the first config with that exact name, else "bg-slate-400" |
| Export.DoubleQuotes | App.tsx:94 | quote doubling adds one character per quote, doubles the number of quotes and introduces no other character |
| Export.NewlinesToSpaces | App.tsx:94 | same length; each newline becomes a space, every other character stays |
| Export.UndoubleDoubled | App.tsx:94 | un-doubling the quotes restores the original |
| Export.DoublingCommutes | App.tsx:94 | doubling quotes and replacing newlines can be done in either order |
| Export.QuoteField | App.tsx:94 | the cell is wrapped in quotes, two characters plus one per quote longer than the description, and never holds a newline |
| Export.QuoteFieldRoundTrip | App.tsx:94 | reading the quoted cell back gives the description with newlines turned to spaces |
| Export.CardCell | App.tsx:95 | the card suffix when present, else the empty cell |
| Export.CsvRow | App.tsx:91-98 | a row holds no newline when its date, card, category and amount cells hold none; when they hold no comma, splitting the row at its commas gives the date, the pieces of the quoted description, then card, category and amount |
| Export.RowJoin | App.tsx:98 | the five cells of a row joined by commas, written out cell by cell |
| Export.RowSplit | App.tsx:98 | five cells joined by commas split back into the first cell, the pieces of the second, and the last three, when those four hold no comma |
| Export.CsvRowReadBack | App.tsx:91-98 | reading a row back gives the date first, card, category and amount last, and, between them, the quoted cell that unquotes to the description with newlines as spaces |
| Export.CsvRows | App.tsx:91-98 | one row per resolved transaction, in order |
| Export.HeaderCellsPlain | App.tsx:87 | no header name holds a comma or a newline |
| Export.HeaderNoNewline | App.tsx:87-100 | the header line holds no newline |
| Export.HeaderLine | App.tsx:87-100 | the header line holds no newline, splits at its commas into exactly the five header names, and is one line |
| Export.CsvLineCount | App.tsx:100-101 | when no transaction's date, card, category or amount cell holds a newline, the text has exactly one newline per transaction: the header plus one line each |
| Export.CsvContent | App.tsx:84-101 | nothing exactly for an empty list; otherwise the text starts with the header line, and, when no cell but the description holds a newline, its lines are exactly the header line followed by one row per transaction in order |
| Session.StatementSession.constructor | App.tsx:10-21 | the initial state: no transactions, default rules and categories, empty search, IDLE, period "Unknown" to "Unknown", no file, no total, no error |
| Session.StatementSession.ProcessedTransactions | App.tsx:27-45 | entry i is transaction i resolved against the current rules (override, else first matching rule, else as extracted), so it differs from it at most in the category |
| Session.StatementSession.FilteredTransactions | App.tsx:47-52 | exactly the resolved transactions matching the search, in order and each as often as in the statement, and all of them for an empty search |
| Session.StatementSession.CurrentTotalSpend | App.tsx:54-56 | the shown spend is the sum of the positive amounts among the shown transactions, never negative and never above the spend of the whole statement |
| Session.StatementSession.ValidationSuccessful | App.tsx:156-159 | true exactly when a total was extracted and the shown spend lies strictly within 1.0 of it |
| Session.StatementSession.ExportContent | App.tsx:84-101 | the export is empty exactly when the statement holds no transactions, whatever the search; otherwise, when no cell but the description holds a newline, its lines are the header line and one row per resolved transaction |
| Session.StatementSession.SetSearchTerm | App.tsx:324 | only the search term changes |
| Session.StatementSession.BeginUpload | App.tsx:58-69 | no file: nothing changes; a non-PDF: only the error message is set; a PDF: PROCESSING with the file name and the error cleared |
| Session.StatementSession.CompleteUpload | App.tsx:71-81 | success replaces transactions, period and total and enters ANALYZED; failure sets the error message and enters ERROR; nothing else changes |
| Session.StatementSession.HandleFileUpload | App.tsx:58-82 | the whole upload: the four outcomes above composed, each stating the full new state |
| Session.StatementSession.ResetApp | App.tsx:114-120 | IDLE, no transactions, no file, empty search, no total; rules, categories, period and error message kept |
| Session.StatementSession.HandleUpdateRule | App.tsx:122-124 | only the rule set changes, by replace-by-id |
| Session.StatementSession.HandleManualCategoryChange | App.tsx:126-130 | only the transactions change, by setting the override on the id |
| Session.StatementSession.HandleAddCategory | App.tsx:141-148 | only the registry changes, by adding the category; names stay unique |
| Session.StatementSession.HandleUpdateCategoryColor | App.tsx:150-154 | only the registry changes, by recolouring; names stay unique, so a known name changes exactly one configuration and looking it up gives the new colour |
| Session.StatementSession.AddRule | App.tsx:347 | only the rule set changes: the rule is appended at the end |
| Session.StatementSession.DeleteRule | App.tsx:349 | only the rule set changes: rules with the id are removed |
| TransactionList.CategoryStyle | components/TransactionList.tsx:30-37 | the bg, text and border classes of the first config with that exact name, else the slate fallback |
| TransactionList.ShowingCounts | components/TransactionList.tsx:24-28 | "Showing X of Y": X is the number of transactions the search keeps, Y the list's length, X is at most Y, and X equals Y for an empty search |
| TransactionList.CategoryEditor.constructor | components/TransactionList.tsx:22 | no row is being edited |
| TransactionList.CategoryEditor.BeginEdit | components/TransactionList.tsx:100 | the clicked row's selector opens |
| TransactionList.CategoryEditor.Blur | components/TransactionList.tsx:93 | the selector closes |
| TransactionList.CategoryEditor.HandleCategorySelect | components/TransactionList.tsx:39-42 | forwards exactly (id, newCat) and closes the selector |
| Settings.SettingsForm.constructor | components/SettingsModal.tsx:29-33 | empty inputs, not editing, no colour picker |
| Settings.SettingsForm.SetKeyword | components/SettingsModal.tsx:203 | only the keyword input changes |
| Settings.SettingsForm.SetCategory | components/SettingsModal.tsx:209 | only the category input changes |
| Settings.SettingsForm.SetCustomCategory | components/SettingsModal.tsx:155 | only the custom category input changes |
| Settings.SettingsForm.HandleSave | components/SettingsModal.tsx:39-58 | an empty keyword or category: nothing; edit mode: an update with the edited id, leaving edit mode; otherwise an add with the fresh id; after a save both inputs are empty |
| Settings.SettingsForm.HandleAddCustomCategory | components/SettingsModal.tsx:60-65 | a white-space-only name is ignored; otherwise the trimmed, non-empty name is reported and the input cleared |
| Settings.SettingsForm.StartEditing | components/SettingsModal.tsx:67-71 | the form holds the rule's keyword, category and id |
| Settings.SettingsForm.CancelEditing | components/SettingsModal.tsx:73-77 | the form is empty and out of edit mode |
| Settings.SettingsForm.SelectCategoryForColor | components/SettingsModal.tsx:175 | the picker opens for that category |
| Settings.SettingsForm.ClosePicker | components/SettingsModal.tsx:119 | the picker closes without a choice |
| Settings.SettingsForm.PickColor | components/SettingsModal.tsx:129-132 | while the picker is open, the choice goes to the selected category and the picker closes |
| Settings.IsActive | components/SettingsModal.tsx:125 | marked exactly when the colour id equals that of the first config with the selected name; never for an unknown name |
| Settings.IsActiveDistinct | components/SettingsModal.tsx:125 | with unique names, marked exactly when the colour is the category's |
| Settings.OneActiveColor | components/SettingsModal.tsx:124-136 | for a category coloured from the palette, exactly one palette entry is marked |

## Left out

- services/geminiService.ts is not part of this model. It reads the file, calls the remote AI and parses JSON. Its result is an input value (`Session.Extraction`): success or failure.
- The service's `startDate || "Unknown"` defaulting and its `Date.now()`-based transaction ids are left out. Ids are free inputs with no freshness assumption.
- JSX rendering, Tailwind layout and icons are left out. Style class names are kept as opaque strings.
- `Math.random` in the all-colours-used fallback becomes the parameter `roll` (`Registry.GetUnusedColor`, `Session.StatementSession.HandleAddCategory`).
- `Number.prototype.toString` in the search and `toFixed(2)` in the CSV become the parameter `amountText`. Nothing is assumed about them.
- Amounts are exact reals, not IEEE doubles. Rounding in the sums and percentages is not modelled. For exact reals, `reduce` left to right equals the recursive right fold used here.
- Text.ToLower: folds only ASCII capitals, not Unicode case mapping.
- The CSV byte-order mark, `encodeURIComponent`, the data URI and the download link are browser I/O and are left out. The model stops at the CSV text.
- React's `useState`/`useMemo` scheduling is left out. Derived values are functions of the current fields (`Session.StatementSession.ProcessedTransactions` and its neighbours).
- Analysis.CategoryTotals: category names equal to `Object.prototype` property names are not modelled. The source accumulates into a plain object `{}`; for a category named "constructor" or "toString" the read `acc[c] || 0` finds the inherited function, so the total becomes a string; an assignment to "__proto__" is ignored, so that category disappears. The model treats the accumulator as an association list and gives such categories a numeric total.
- The sidebar's totals keep their keys in first-seen order. JavaScript moves integer-like keys first; only the non-increasing order after sorting is proved, not the order of ties.
- The dialog's `isOpen`/`onClose`, its `activeTab` and the session's `isSettingsOpen` are visibility flags only and are left out.
- `StatementSummary` (types.ts:19-24) is declared but never used, so it is left out.
