/** The transaction table: search filter, category badge style and the inline category editor. */
module TransactionList {
  import opened Wrappers
  import opened Types
  import opened Views
  import opened Registry

  const FallbackStyle: string := "bg-slate-100 text-slate-700 border-slate-200"

  /** `getCategoryStyle`: the badge classes of the first config with that exact
      name, or the slate fallback for a category the registry does not know. */
  function CategoryStyle(configs: seq<CategoryConfig>, name: string): (r: string)
    ensures name !in Names(configs) ==> r == FallbackStyle
    ensures forall k :: IsFirstNamed(configs, name, k) ==>
               r == configs[k].color.bg + " " + configs[k].color.text + " " + configs[k].color.border
  {
    match FindConfig(configs, name)
    case Some(c) => c.color.bg + " " + c.color.text + " " + c.color.border
    case None => FallbackStyle
  }

  /** The footer's "Showing X of Y": X is the number of transactions the search keeps,
      Y the number of transactions; X never exceeds Y, and with no search term X is Y. */
  function ShowingCounts(ts: seq<Transaction>, term: string, amountText: real -> string): (r: (nat, nat))
    ensures r.0 == |FilterTransactions(ts, term, amountText)|
    ensures r.0 <= r.1 && r.1 == |ts|
    ensures term == "" ==> r.0 == r.1
  {
    if term == "" then EmptySearchKeepsAll(ts, amountText); (|FilterTransactions(ts, term, amountText)|, |ts|)
    else (|FilterTransactions(ts, term, amountText)|, |ts|)
  }

  /** The category change the list reports to its parent. */
  datatype CategoryChange = CategoryChange(id: string, category: string)

  /** The list's own state: which row's category selector is open. */
  class CategoryEditor {
    var editingId: Option<string>

    constructor ()
      ensures editingId == None
    {
      editingId := None;
    }

    /** A click on a row's badge opens its selector. */
    method BeginEdit(id: string)
      modifies this
      ensures editingId == Some(id)
    {
      editingId := Some(id);
    }

    /** Leaving the selector closes it. */
    method Blur()
      modifies this
      ensures editingId == None
    {
      editingId := None;
    }

    /** `handleCategorySelect`: reports exactly (id, newCat) and closes the selector. */
    method HandleCategorySelect(id: string, newCat: string) returns (change: CategoryChange)
      modifies this
      ensures change == CategoryChange(id, newCat)
      ensures editingId == None
    {
      change := CategoryChange(id, newCat);
      editingId := None;
    }
  }
}
