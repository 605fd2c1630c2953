/** The application's session: the statement's transactions, the rule set and
    the category registry, the search term and the upload state machine. */
module Session {
  import opened Wrappers
  import opened Types
  import opened Categorize
  import Registry
  import opened Views
  import opened Export
  import opened Text
  import opened Seqs

  /** The picked file, as far as the upload handler looks at it. */
  datatype UploadedFile = UploadedFile(name: string, mimeType: string)

  /** What the extraction service returns on success. */
  datatype StatementData = StatementData(
    transactions: seq<Transaction>,
    startDate: string,
    endDate: string,
    statementTotal: Option<real>)

  /** The outcome of the (remote, awaited) extraction call. */
  datatype Extraction = Extracted(data: StatementData) | ExtractionFailed

  /** All the session's fields as one value. */
  datatype SessionState = SessionState(
    transactions: seq<Transaction>,
    rules: seq<KeywordRule>,
    categoryConfigs: seq<CategoryConfig>,
    searchTerm: string,
    appState: AppState,
    period: Period,
    fileName: string,
    extractedTotal: Option<real>,
    errorMsg: string)

  const PdfMimeType: string := "application/pdf"
  const InvalidFileMessage: string := "Please upload a valid PDF file."
  const ExtractionFailedMessage: string := "Failed to process the statement. Please try again."
  const UnknownPeriod: Period := Period("Unknown", "Unknown")

  class StatementSession {
    var transactions: seq<Transaction>
    var rules: seq<KeywordRule>
    var categoryConfigs: seq<CategoryConfig>
    var searchTerm: string
    var appState: AppState
    var period: Period
    var fileName: string
    var extractedTotal: Option<real>
    var errorMsg: string

    function Snapshot(): SessionState
      reads this
    {
      SessionState(transactions, rules, categoryConfigs, searchTerm, appState, period, fileName, extractedTotal, errorMsg)
    }

    /** Category names stay unique; an idle session holds no statement. */
    ghost predicate Valid()
      reads this
    {
      Distinct(Names(categoryConfigs)) &&
      (appState == Idle ==> transactions == [] && fileName == "" && extractedTotal == None)
    }

    constructor ()
      ensures Valid()
      ensures Snapshot() == SessionState([], DefaultRules, DefaultCategoryConfigs, "", Idle, UnknownPeriod, "", None, "")
    {
      transactions := [];
      rules := DefaultRules;
      categoryConfigs := DefaultCategoryConfigs;
      searchTerm := "";
      appState := Idle;
      period := UnknownPeriod;
      fileName := "";
      extractedTotal := None;
      errorMsg := "";
      DefaultConfigsWellFormed();
    }

    // ---- Derived values, recomputed from the fields ----

    /** The resolved statement: each transaction resolved against the rules,
        so differing from it at most in its category. */
    function ProcessedTransactions(): (r: seq<Transaction>)
      reads this
      ensures |r| == |transactions|
      ensures forall i :: 0 <= i < |r| ==> r[i] == Resolve(transactions[i], rules)
      ensures forall i :: 0 <= i < |r| ==> r[i] == transactions[i].(category := r[i].category)
    {
      ProcessTransactions(transactions, rules)
    }

    /** What the list shows: the resolved transactions matching the search, in
        order and each as often as in the statement; all of them for an empty search. */
    function FilteredTransactions(amountText: real -> string): (r: seq<Transaction>)
      reads this
      ensures |r| <= |transactions|
      ensures forall i :: 0 <= i < |r| ==> MatchesSearch(r[i], searchTerm, amountText)
      ensures forall x :: MatchesSearch(x, searchTerm, amountText) ==>
        multiset(r)[x] == multiset(ProcessedTransactions())[x]
      ensures forall x :: !MatchesSearch(x, searchTerm, amountText) ==> multiset(r)[x] == 0
      ensures IsSubsequence(r, ProcessedTransactions())
      ensures searchTerm == "" ==> r == ProcessedTransactions()
    {
      EmptySearchKeepsAll(ProcessedTransactions(), amountText);
      FilterKeepsOrder(ProcessedTransactions(), searchTerm, amountText);
      FilterTransactions(ProcessedTransactions(), searchTerm, amountText)
    }

    /** The header's total: the sum of the positive amounts among the shown
        transactions, never above the whole statement's. */
    function CurrentTotalSpend(amountText: real -> string): (r: real)
      reads this
      ensures r == ExpenseSum(FilteredTransactions(amountText))
      ensures 0.0 <= r <= TotalSpend(ProcessedTransactions())
    {
      SearchLowersSpend(ProcessedTransactions(), searchTerm, amountText);
      TotalSpend(FilteredTransactions(amountText))
    }

    /** The reconciliation badge: green only when a total was extracted and the shown spend is within 1.0 of it. */
    function ValidationSuccessful(amountText: real -> string): (r: bool)
      reads this
      ensures r <==> (extractedTotal.Some? &&
                      extractedTotal.value - 1.0 < CurrentTotalSpend(amountText) < extractedTotal.value + 1.0)
    {
      IsValidationSuccessful(CurrentTotalSpend(amountText), extractedTotal)
    }

    /** The export covers every resolved transaction, whatever the search:
        nothing exactly when there are no transactions, else the header line and
        one line per resolved transaction. */
    function ExportContent(amountText: real -> string): (r: Option<string>)
      reads this
      ensures r.None? <==> transactions == []
      ensures r.Some? && (forall i :: 0 <= i < |transactions| ==> PlainCells(ProcessedTransactions()[i], amountText)) ==>
        Split(r.value, '\n') == [Join(Headers, ",")] + CsvRows(ProcessedTransactions(), amountText)
    {
      CsvContent(ProcessedTransactions(), amountText)
    }

    // ---- Handlers ----

    method SetSearchTerm(term: string)
      requires Valid()
      modifies this
      ensures Valid()
      ensures Snapshot() == old(Snapshot()).(searchTerm := term)
    {
      searchTerm := term;
    }

    /** The synchronous part of `handleFileUpload`: no file does nothing, a
        non-PDF file only sets the error message, a PDF enters PROCESSING. */
    method BeginUpload(file: Option<UploadedFile>) returns (started: bool)
      requires Valid()
      modifies this
      ensures Valid()
      ensures started <==> file.Some? && file.value.mimeType == PdfMimeType
      ensures file.None? ==> Snapshot() == old(Snapshot())
      ensures file.Some? && !started ==> Snapshot() == old(Snapshot()).(errorMsg := InvalidFileMessage)
      ensures started ==> Snapshot() == old(Snapshot()).(appState := Processing, fileName := file.value.name, errorMsg := "")
    {
      started := false;
      if file.None? {
        return;
      }
      if file.value.mimeType != PdfMimeType {
        errorMsg := InvalidFileMessage;
        return;
      }
      appState := Processing;
      fileName := file.value.name;
      errorMsg := "";
      started := true;
    }

    /** The part of `handleFileUpload` after the extraction call returns:
        success replaces the statement wholesale, failure enters ERROR and
        keeps whatever transactions were there. */
    method CompleteUpload(outcome: Extraction)
      requires Valid()
      modifies this
      ensures Valid()
      ensures outcome.Extracted? ==> Snapshot() == old(Snapshot()).(
        transactions := outcome.data.transactions,
        period := Period(outcome.data.startDate, outcome.data.endDate),
        extractedTotal := outcome.data.statementTotal,
        appState := Analyzed)
      ensures outcome.ExtractionFailed? ==> Snapshot() == old(Snapshot()).(
        errorMsg := ExtractionFailedMessage,
        appState := Error)
    {
      match outcome
      case Extracted(data) =>
        transactions := data.transactions;
        period := Period(data.startDate, data.endDate);
        extractedTotal := data.statementTotal;
        appState := Analyzed;
      case ExtractionFailed =>
        errorMsg := ExtractionFailedMessage;
        appState := Error;
    }

    /** `handleFileUpload` from start to end, the extraction's outcome given. */
    method HandleFileUpload(file: Option<UploadedFile>, outcome: Extraction)
      requires Valid()
      modifies this
      ensures Valid()
      ensures file.None? ==> Snapshot() == old(Snapshot())
      ensures file.Some? && file.value.mimeType != PdfMimeType ==>
        Snapshot() == old(Snapshot()).(errorMsg := InvalidFileMessage)
      ensures file.Some? && file.value.mimeType == PdfMimeType && outcome.Extracted? ==>
        Snapshot() == old(Snapshot()).(
          transactions := outcome.data.transactions,
          period := Period(outcome.data.startDate, outcome.data.endDate),
          extractedTotal := outcome.data.statementTotal,
          appState := Analyzed, fileName := file.value.name, errorMsg := "")
      ensures file.Some? && file.value.mimeType == PdfMimeType && outcome.ExtractionFailed? ==>
        Snapshot() == old(Snapshot()).(
          appState := Error, fileName := file.value.name, errorMsg := ExtractionFailedMessage)
    {
      var started := BeginUpload(file);
      if started {
        CompleteUpload(outcome);
      }
    }

    /** `resetApp`: back to IDLE with no statement; rules, categories, period and error message stay. */
    method ResetApp()
      requires Valid()
      modifies this
      ensures Valid()
      ensures Snapshot() == old(Snapshot()).(
        appState := Idle, transactions := [], fileName := "", searchTerm := "", extractedTotal := None)
    {
      appState := Idle;
      transactions := [];
      fileName := "";
      searchTerm := "";
      extractedTotal := None;
    }

    method HandleUpdateRule(updated: KeywordRule)
      requires Valid()
      modifies this
      ensures Valid()
      ensures Snapshot() == old(Snapshot()).(rules := Registry.UpdateRuleById(old(rules), updated))
    {
      rules := Registry.UpdateRuleById(rules, updated);
    }

    method HandleManualCategoryChange(id: string, category: string)
      requires Valid()
      modifies this
      ensures Valid()
      ensures Snapshot() == old(Snapshot()).(transactions := Registry.SetManualCategory(old(transactions), id, category))
    {
      transactions := Registry.SetManualCategory(transactions, id, category);
    }

    /** `handleAddCategory`; `roll` is the outcome of the random pick used
        only when every palette colour is taken. */
    method HandleAddCategory(name: string, roll: nat)
      requires Valid()
      requires roll < |ColorPalette|
      modifies this
      ensures Valid()
      ensures Snapshot() == old(Snapshot()).(categoryConfigs := Registry.AddCategory(old(categoryConfigs), name, roll))
    {
      categoryConfigs := Registry.AddCategory(categoryConfigs, name, roll);
    }

    /** `handleUpdateCategoryColor`. Names being unique, a known name changes
        exactly one configuration, and looking the name up gives the new colour. */
    method HandleUpdateCategoryColor(name: string, color: CategoryColor)
      requires Valid()
      modifies this
      ensures Valid()
      ensures Snapshot() == old(Snapshot()).(categoryConfigs := Registry.SetCategoryColor(old(categoryConfigs), name, color))
      ensures name in Names(old(categoryConfigs)) ==>
        exists k :: 0 <= k < |categoryConfigs| && old(categoryConfigs)[k].name == name &&
          categoryConfigs == old(categoryConfigs)[k := CategoryConfig(name, color)]
      ensures name in Names(old(categoryConfigs)) ==> Registry.FindConfig(categoryConfigs, name) == Some(CategoryConfig(name, color))
    {
      var before := categoryConfigs;
      Registry.SetColorKeepsNames(before, name, color);
      categoryConfigs := Registry.SetCategoryColor(before, name, color);
      if name in Names(before) {
        var k :| 0 <= k < |before| && Names(before)[k] == name;
        forall i | 0 <= i < |before| && i != k ensures before[i].name != name {
          assert Names(before)[i] != Names(before)[k];
        }
        assert categoryConfigs == before[k := CategoryConfig(name, color)];
        Registry.FindConfigDistinct(categoryConfigs, k);
      }
    }

    /** `onAddRule`: the new rule goes last, with the lowest priority. */
    method AddRule(rule: KeywordRule)
      requires Valid()
      modifies this
      ensures Valid()
      ensures Snapshot() == old(Snapshot()).(rules := old(rules) + [rule])
    {
      rules := rules + [rule];
    }

    /** `onDeleteRule`. */
    method DeleteRule(id: string)
      requires Valid()
      modifies this
      ensures Valid()
      ensures Snapshot() == old(Snapshot()).(rules := Registry.DeleteRuleById(old(rules), id))
    {
      rules := Registry.DeleteRuleById(rules, id);
    }
  }

  /** A failed extraction from IDLE ends in ERROR, and a reset returns to IDLE
      with the rule set and the registry as they were. */
  method FailedUploadThenReset()
  {
    var s := new StatementSession();
    var before := s.Snapshot();
    s.HandleFileUpload(Some(UploadedFile("march.pdf", PdfMimeType)), ExtractionFailed);
    assert s.appState == Error && s.errorMsg == ExtractionFailedMessage;
    s.ResetApp();
    assert s.appState == Idle && s.transactions == [];
    assert s.rules == before.rules && s.categoryConfigs == before.categoryConfigs;
  }

  /** A second statement replaces the first entirely. */
  method ReloadReplacesStatement(first: StatementData, second: StatementData)
  {
    var s := new StatementSession();
    s.HandleFileUpload(Some(UploadedFile("jan.pdf", PdfMimeType)), Extracted(first));
    s.ResetApp();
    s.HandleFileUpload(Some(UploadedFile("feb.pdf", PdfMimeType)), Extracted(second));
    assert s.appState == Analyzed;
    assert s.transactions == second.transactions && s.extractedTotal == second.statementTotal;
    assert s.period == Period(second.startDate, second.endDate);
  }

  /** A non-PDF upload leaves the state machine where it was. */
  method WrongFileTypeStaysIdle()
  {
    var s := new StatementSession();
    s.HandleFileUpload(Some(UploadedFile("notes.txt", "text/plain")), ExtractionFailed);
    assert s.appState == Idle && s.errorMsg == InvalidFileMessage && s.transactions == [];
  }
}
