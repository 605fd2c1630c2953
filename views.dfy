/** Derived views of the statement: the search filter, the positive-only
    total spend and the reconciliation against the statement's own total. */
module Views {
  import opened Wrappers
  import opened Seqs
  import opened Text
  import opened Types

  /** The search predicate: the description contains the term ignoring case, or
      the amount's decimal text contains it, or the card suffix (when present)
      contains it. `amountText` stands for JavaScript's `Number.prototype.toString`. */
  function MatchesSearch(t: Transaction, term: string, amountText: real -> string): (m: bool)
    ensures term == "" ==> m
    ensures m ==> |term| <= |t.description| || |term| <= |amountText(t.amount)| ||
                  (t.cardLast4.Some? && |term| <= |t.cardLast4.value|)
  {
    ContainsEmpty(ToLower(t.description));
    Contains(ToLower(t.description), ToLower(term)) ||
    Contains(amountText(t.amount), term) ||
    (t.cardLast4.Some? && Contains(t.cardLast4.value, term))
  }

  function SearchPredicate(term: string, amountText: real -> string): Transaction -> bool {
    t => MatchesSearch(t, term, amountText)
  }

  /** `transactions.filter(...)` with the search predicate. */
  function FilterTransactions(ts: seq<Transaction>, term: string, amountText: real -> string): (r: seq<Transaction>)
    ensures |r| <= |ts|
    ensures forall i :: 0 <= i < |r| ==> MatchesSearch(r[i], term, amountText) && r[i] in ts
    ensures forall i :: 0 <= i < |ts| && MatchesSearch(ts[i], term, amountText) ==> ts[i] in r
    ensures forall x :: MatchesSearch(x, term, amountText) ==> multiset(r)[x] == multiset(ts)[x]
    ensures forall x :: !MatchesSearch(x, term, amountText) ==> multiset(r)[x] == 0
  {
    FilterMultiplicity(ts, SearchPredicate(term, amountText));
    Filter(ts, SearchPredicate(term, amountText))
  }

  /** The filtered view keeps the order of the list it filters. */
  lemma FilterKeepsOrder(ts: seq<Transaction>, term: string, amountText: real -> string)
    ensures IsSubsequence(FilterTransactions(ts, term, amountText), ts)
  {
    FilterIsSubsequence(ts, SearchPredicate(term, amountText));
  }

  /** An empty search term keeps every transaction. */
  lemma EmptySearchKeepsAll(ts: seq<Transaction>, amountText: real -> string)
    ensures FilterTransactions(ts, "", amountText) == ts
  {
    assert forall i :: 0 <= i < |ts| ==> SearchPredicate("", amountText)(ts[i]);
    FilterAll(ts, SearchPredicate("", amountText));
  }

  /** The description is matched ignoring ASCII case. */
  lemma SearchIgnoresDescriptionCase(t: Transaction, u: Transaction, term: string, amountText: real -> string)
    requires t == u.(description := t.description) && ToLower(t.description) == ToLower(u.description)
    ensures MatchesSearch(t, term, amountText) == MatchesSearch(u, term, amountText)
  {
  }

  /** A transaction without a card suffix can match only by description or amount. */
  lemma NoCardMatchesByOtherFields(t: Transaction, term: string, amountText: real -> string)
    requires t.cardLast4.None?
    ensures MatchesSearch(t, term, amountText) <==>
      Contains(ToLower(t.description), ToLower(term)) || Contains(amountText(t.amount), term)
  {
  }

  /** When the card suffix contains the term, the transaction is shown, whatever its other fields. */
  lemma CardMatchSuffices(t: Transaction, term: string, amountText: real -> string)
    requires t.cardLast4.Some? && Contains(t.cardLast4.value, term)
    ensures MatchesSearch(t, term, amountText)
  {
  }

  predicate IsExpense(t: Transaction) {
    t.amount > 0.0
  }

  /** `reduce((sum, t) => sum + t.amount, 0)` over exact amounts. */
  function AmountSum(ts: seq<Transaction>): real
  {
    if ts == [] then 0.0 else ts[0].amount + AmountSum(ts[1..])
  }

  /** Reference definition: each transaction adds its amount if positive, nothing otherwise. */
  function ExpenseSum(ts: seq<Transaction>): real
  {
    if ts == [] then 0.0 else (if ts[0].amount > 0.0 then ts[0].amount else 0.0) + ExpenseSum(ts[1..])
  }

  /** `ts.filter(t => t.amount > 0).reduce(...)`: exactly the positive amounts
      add up, credits and refunds are excluded, and the total is never negative. */
  function TotalSpend(ts: seq<Transaction>): (r: real)
    ensures r == ExpenseSum(ts)
    ensures r >= 0.0
  {
    FilteredSumIsExpenseSum(ts);
    NonNegativeExpenseSum(ts);
    AmountSum(Filter(ts, IsExpense))
  }

  /** Summing the positive transactions is summing each transaction's positive part. */
  lemma {:induction false} FilteredSumIsExpenseSum(ts: seq<Transaction>)
    ensures AmountSum(Filter(ts, IsExpense)) == ExpenseSum(ts)
  {
    if ts != [] {
      FilteredSumIsExpenseSum(ts[1..]);
      if IsExpense(ts[0]) {
        assert Filter(ts, IsExpense) == [ts[0]] + Filter(ts[1..], IsExpense);
        assert ([ts[0]] + Filter(ts[1..], IsExpense))[1..] == Filter(ts[1..], IsExpense);
      } else {
        assert Filter(ts, IsExpense) == Filter(ts[1..], IsExpense);
      }
    }
  }

  /** Dropping transactions can only lower the total spend. */
  lemma {:induction false} SubsequenceSpendsLess(r: seq<Transaction>, s: seq<Transaction>)
    requires IsSubsequence(r, s)
    ensures ExpenseSum(r) <= ExpenseSum(s)
    decreases |s|
  {
    if r == [] {
      NonNegativeExpenseSum(s);
    } else if r[0] == s[0] && IsSubsequence(r[1..], s[1..]) {
      SubsequenceSpendsLess(r[1..], s[1..]);
    } else {
      SubsequenceSpendsLess(r, s[1..]);
    }
  }

  lemma {:induction false} NonNegativeExpenseSum(s: seq<Transaction>)
    ensures ExpenseSum(s) >= 0.0
  {
    if s != [] {
      NonNegativeExpenseSum(s[1..]);
    }
  }

  /** The search can only lower the total spend shown. */
  lemma SearchLowersSpend(ts: seq<Transaction>, term: string, amountText: real -> string)
    ensures TotalSpend(FilterTransactions(ts, term, amountText)) <= TotalSpend(ts)
  {
    FilterKeepsOrder(ts, term, amountText);
    SubsequenceSpendsLess(FilterTransactions(ts, term, amountText), ts);
  }

  function Abs(x: real): real {
    if x < 0.0 then -x else x
  }

  /** `isValidationSuccessful`: false without a statement total; otherwise
      whether the computed total is within strictly less than 1.0 of it. */
  function IsValidationSuccessful(totalSpend: real, extractedTotal: Option<real>): (r: bool)
    ensures extractedTotal.None? ==> !r
    ensures extractedTotal.Some? ==>
      (r <==> extractedTotal.value - 1.0 < totalSpend < extractedTotal.value + 1.0)
  {
    match extractedTotal
    case None => false
    case Some(e) => Abs(totalSpend - e) < 1.0
  }

  /** The tolerance is symmetric and a difference of exactly 1.0 fails. */
  lemma ToleranceBoundary(total: real, e: real)
    ensures IsValidationSuccessful(total, Some(e)) == IsValidationSuccessful(e, Some(total))
    ensures !IsValidationSuccessful(e + 1.0, Some(e)) && !IsValidationSuccessful(e - 1.0, Some(e))
    ensures IsValidationSuccessful(e, Some(e))
  {
  }

  /** The worked examples: 100.00 against 100.99 passes, against 101.00 fails;
      an expense of 50.00 and a refund of -20.00 total 50.00. */
  lemma ReconciliationExamples(t: Transaction)
    ensures IsValidationSuccessful(100.0, Some(100.99))
    ensures !IsValidationSuccessful(100.0, Some(101.0))
    ensures TotalSpend([t.(amount := 50.0), t.(amount := -20.0)]) == 50.0
  {
    var ts := [t.(amount := 50.0), t.(amount := -20.0)];
    assert ts[1..] == [t.(amount := -20.0)] && ts[1..][1..] == [];
    assert ExpenseSum(ts[1..]) == 0.0;
  }
}
