/** The spending analysis: per-category totals of positive amounts, the grand
    total, the categories sorted by amount with their percentage, and the bar colour. */
module Analysis {
  import opened Wrappers
  import opened Seqs
  import opened Types
  import opened Views
  import opened Registry

  /** One key/value pair of the `categoryTotals` record. */
  datatype Entry = Entry(category: string, amount: real)

  /** One row of `sortedCategories`. */
  datatype CategoryShare = CategoryShare(category: string, amount: real, percentage: real)

  function Categories(es: seq<Entry>): (r: seq<string>)
    ensures |r| == |es|
    ensures forall i :: 0 <= i < |es| ==> r[i] == es[i].category
  {
    seq(|es|, i requires 0 <= i < |es| => es[i].category)
  }

  /** `acc[c] || 0`. */
  function Lookup(es: seq<Entry>, c: string): real
  {
    if es == [] then 0.0 else if es[0].category == c then es[0].amount else Lookup(es[1..], c)
  }

  /** `acc[c] = (acc[c] || 0) + a`: a present key keeps its place, a new key goes last. */
  function AddAmount(es: seq<Entry>, c: string, a: real): (r: seq<Entry>)
    ensures |r| >= |es| && forall i :: 0 <= i < |es| ==> r[i].category == es[i].category
    ensures (exists i :: 0 <= i < |es| && es[i].category == c) ==> |r| == |es|
    ensures (forall i :: 0 <= i < |es| ==> es[i].category != c) ==> r == es + [Entry(c, a)]
  {
    if es == [] then [Entry(c, a)]
    else if es[0].category == c then [Entry(c, es[0].amount + a)] + es[1..]
    else
      var rest := AddAmount(es[1..], c, a);
      assert (exists i :: 0 <= i < |es| && es[i].category == c) ==> |rest| == |es| - 1 by {
        if exists i :: 0 <= i < |es| && es[i].category == c {
          var i :| 0 <= i < |es| && es[i].category == c;
          assert es[1..][i - 1].category == c;
        }
      }
      assert (forall i :: 0 <= i < |es| ==> es[i].category != c) ==> [es[0]] + rest == es + [Entry(c, a)] by {
        if forall i :: 0 <= i < |es| ==> es[i].category != c {
          assert forall i :: 0 <= i < |es[1..]| ==> es[1..][i].category != c by {
            forall i | 0 <= i < |es[1..]| ensures es[1..][i].category != c {
              assert es[1..][i] == es[i + 1];
            }
          }
          assert es == [es[0]] + es[1..];
        }
      }
      [es[0]] + rest
  }

  /** One step of the tally adds `a` to the total of `c` and to nothing else. */
  lemma {:induction false} AddAmountLookup(es: seq<Entry>, c: string, a: real)
    ensures forall d :: Lookup(AddAmount(es, c, a), d) == Lookup(es, d) + (if d == c then a else 0.0)
  {
    if es != [] && es[0].category != c {
      AddAmountLookup(es[1..], c, a);
      assert AddAmount(es, c, a)[1..] == AddAmount(es[1..], c, a);
    } else if es != [] {
      assert AddAmount(es, c, a)[1..] == es[1..];
    }
  }

  lemma CategoriesCons(e: Entry, es: seq<Entry>)
    ensures Categories([e] + es) == [e.category] + Categories(es)
  {
  }

  /** Past a different key, a tally step leaves the head alone. */
  lemma AddAmountCons(e: Entry, es: seq<Entry>, c: string, a: real)
    requires e.category != c
    ensures AddAmount([e] + es, c, a) == [e] + AddAmount(es, c, a)
  {
    assert ([e] + es)[1..] == es;
  }

  /** One step of the tally adds `c` to the keys if it was missing, and no other key. */
  lemma {:induction false} AddAmountKeys(es: seq<Entry>, c: string, a: real)
    ensures forall d :: d in Categories(AddAmount(es, c, a)) <==> d in Categories(es) || d == c
  {
    if es == [] {
      assert Categories([Entry(c, a)]) == [c];
    } else {
      var e, rest := es[0], es[1..];
      assert es == [e] + rest;
      CategoriesCons(e, rest);
      if e.category == c {
        assert AddAmount(es, c, a) == [Entry(c, e.amount + a)] + rest;
        CategoriesCons(Entry(c, e.amount + a), rest);
        assert Categories(AddAmount(es, c, a)) == Categories(es);
      } else {
        AddAmountKeys(rest, c, a);
        AddAmountCons(e, rest, c, a);
        CategoriesCons(e, AddAmount(rest, c, a));
        assert Categories(AddAmount(es, c, a)) == [e.category] + Categories(AddAmount(rest, c, a));
      }
    }
  }

  /** One step of the tally keeps the keys distinct. */
  lemma {:induction false} AddAmountDistinct(es: seq<Entry>, c: string, a: real)
    requires Distinct(Categories(es))
    ensures Distinct(Categories(AddAmount(es, c, a)))
  {
    if es == [] {
      assert Categories([Entry(c, a)]) == [c];
    } else {
      var e, rest := es[0], es[1..];
      assert es == [e] + rest;
      CategoriesCons(e, rest);
      if e.category == c {
        assert AddAmount(es, c, a) == [Entry(c, e.amount + a)] + rest;
        CategoriesCons(Entry(c, e.amount + a), rest);
        assert Categories(AddAmount(es, c, a)) == Categories(es);
      } else {
        var keys := Categories(AddAmount(rest, c, a));
        DistinctCons(e.category, Categories(rest));
        AddAmountDistinct(rest, c, a);
        AddAmountKeys(rest, c, a);
        DistinctCons(e.category, keys);
        assert Distinct([e.category] + keys);
        AddAmountCons(e, rest, c, a);
        CategoriesCons(e, AddAmount(rest, c, a));
        assert Categories(AddAmount(es, c, a)) == [e.category] + keys;
      }
    }
  }

  /** One step of the tally adds `a` to the grand total. */
  lemma {:induction false} AddAmountSum(es: seq<Entry>, c: string, a: real)
    ensures EntrySum(AddAmount(es, c, a)) == EntrySum(es) + a
  {
    if es != [] && es[0].category != c {
      AddAmountSum(es[1..], c, a);
      assert AddAmount(es, c, a)[1..] == AddAmount(es[1..], c, a);
    } else if es != [] {
      assert AddAmount(es, c, a)[1..] == es[1..];
    }
  }

  /** The sum of the record's values. */
  function EntrySum(es: seq<Entry>): real
  {
    if es == [] then 0.0 else es[0].amount + EntrySum(es[1..])
  }

  /** The `reduce` that builds `categoryTotals`, one transaction at a time. */
  function Tally(acc: seq<Entry>, ts: seq<Transaction>): (r: seq<Entry>)
    ensures |acc| <= |r| <= |acc| + |ts|
    ensures forall i :: 0 <= i < |acc| ==> r[i].category == acc[i].category
    decreases |ts|
  {
    if ts == [] then acc
    else
      var acc' := AddAmount(acc, ts[0].category, ts[0].amount);
      var r := Tally(acc', ts[1..]);
      assert forall i :: 0 <= i < |acc| ==> r[i].category == acc'[i].category;
      r
  }

  /** What one category's positive amounts add up to (reference definition). */
  function CategorySpend(ts: seq<Transaction>, c: string): real
  {
    if ts == [] then 0.0
    else (if ts[0].category == c && ts[0].amount > 0.0 then ts[0].amount else 0.0) + CategorySpend(ts[1..], c)
  }

  predicate HasExpenseIn(ts: seq<Transaction>, c: string) {
    exists i :: 0 <= i < |ts| && ts[i].category == c && ts[i].amount > 0.0
  }

  /** `categoryTotals`: only positive amounts are tallied, so there is at most one key per transaction. */
  function CategoryTotals(ts: seq<Transaction>): (r: seq<Entry>)
    ensures |r| <= |ts|
  {
    Tally([], Filter(ts, IsExpense))
  }

  lemma {:induction false} TallyFacts(acc: seq<Entry>, ts: seq<Transaction>)
    requires forall i :: 0 <= i < |ts| ==> ts[i].amount > 0.0
    ensures forall d :: Lookup(Tally(acc, ts), d) == Lookup(acc, d) + CategorySpend(ts, d)
    ensures forall d :: d in Categories(Tally(acc, ts)) <==> d in Categories(acc) || HasExpenseIn(ts, d)
    ensures EntrySum(Tally(acc, ts)) == EntrySum(acc) + AmountSum(ts)
    ensures Distinct(Categories(acc)) ==> Distinct(Categories(Tally(acc, ts)))
    decreases |ts|
  {
    if ts != [] {
      var acc' := AddAmount(acc, ts[0].category, ts[0].amount);
      AddAmountLookup(acc, ts[0].category, ts[0].amount);
      AddAmountKeys(acc, ts[0].category, ts[0].amount);
      if Distinct(Categories(acc)) {
        AddAmountDistinct(acc, ts[0].category, ts[0].amount);
      }
      AddAmountSum(acc, ts[0].category, ts[0].amount);
      TallyFacts(acc', ts[1..]);
      forall d ensures HasExpenseIn(ts, d) <==> d == ts[0].category || HasExpenseIn(ts[1..], d) {
        if HasExpenseIn(ts[1..], d) {
          var i :| 0 <= i < |ts[1..]| && ts[1..][i].category == d && ts[1..][i].amount > 0.0;
          assert ts[i + 1] == ts[1..][i];
        }
        if HasExpenseIn(ts, d) {
          var i :| 0 <= i < |ts| && ts[i].category == d && ts[i].amount > 0.0;
          if i > 0 { assert ts[1..][i - 1] == ts[i]; }
        }
      }
    }
  }

  /** Pre-filtering to positive amounts keeps each category's spend. */
  lemma {:induction false} FilterExpenseSpend(ts: seq<Transaction>, c: string)
    ensures CategorySpend(Filter(ts, IsExpense), c) == CategorySpend(ts, c)
  {
    if ts != [] {
      FilterExpenseSpend(ts[1..], c);
      var f := Filter(ts, IsExpense);
      if IsExpense(ts[0]) {
        assert f == [ts[0]] + Filter(ts[1..], IsExpense);
        assert f[1..] == Filter(ts[1..], IsExpense);
      } else {
        assert f == Filter(ts[1..], IsExpense);
      }
    }
  }

  /** Pre-filtering to positive amounts keeps which categories have spend. */
  lemma FilterExpenseHas(ts: seq<Transaction>, c: string)
    ensures HasExpenseIn(Filter(ts, IsExpense), c) <==> HasExpenseIn(ts, c)
  {
    var f := Filter(ts, IsExpense);
    if HasExpenseIn(ts, c) {
      var i :| 0 <= i < |ts| && ts[i].category == c && ts[i].amount > 0.0;
      assert ts[i] in f;
      var k :| 0 <= k < |f| && f[k] == ts[i];
    }
    if HasExpenseIn(f, c) {
      var k :| 0 <= k < |f| && f[k].category == c && f[k].amount > 0.0;
      assert f[k] in ts;
      var i :| 0 <= i < |ts| && ts[i] == f[k];
    }
  }

  lemma {:induction false} LookupDistinct(es: seq<Entry>, i: int)
    requires Distinct(Categories(es)) && 0 <= i < |es|
    ensures Lookup(es, es[i].category) == es[i].amount
  {
    if i > 0 {
      assert Categories(es)[0] != Categories(es)[i];
      assert Categories(es[1..]) == Categories(es)[1..];
      assert es[1..][i - 1] == es[i];
      LookupDistinct(es[1..], i - 1);
    }
  }

  /** Each category appears once, exactly the categories with a positive amount
      appear, and each total is the sum of that category's positive amounts; the
      totals add up to the total spend. */
  lemma CategoryTotalsCorrect(ts: seq<Transaction>)
    ensures Distinct(Categories(CategoryTotals(ts)))
    ensures forall i :: 0 <= i < |CategoryTotals(ts)| ==>
      CategoryTotals(ts)[i].amount == CategorySpend(ts, CategoryTotals(ts)[i].category)
    ensures forall c :: c in Categories(CategoryTotals(ts)) <==> HasExpenseIn(ts, c)
    ensures EntrySum(CategoryTotals(ts)) == TotalSpend(ts)
  {
    var f := Filter(ts, IsExpense);
    var ct := CategoryTotals(ts);
    assert Categories([]) == [];
    TallyFacts([], f);
    forall c ensures CategorySpend(f, c) == CategorySpend(ts, c) && (HasExpenseIn(f, c) <==> HasExpenseIn(ts, c)) {
      FilterExpenseSpend(ts, c);
      FilterExpenseHas(ts, c);
    }
    forall i | 0 <= i < |ct| ensures ct[i].amount == CategorySpend(ts, ct[i].category) {
      LookupDistinct(ct, i);
    }
  }

  /** Only positive amounts contribute: adding a credit or a zero amount leaves the totals unchanged. */
  lemma CreditsDoNotCount(ts: seq<Transaction>, t: Transaction)
    requires t.amount <= 0.0
    ensures CategoryTotals(ts + [t]) == CategoryTotals(ts)
  {
    FilterDropsLast(ts, t);
  }

  lemma {:induction false} FilterDropsLast(ts: seq<Transaction>, t: Transaction)
    requires !IsExpense(t)
    ensures Filter(ts + [t], IsExpense) == Filter(ts, IsExpense)
  {
    if ts == [] {
      assert [t][1..] == [];
    } else {
      assert (ts + [t])[1..] == ts[1..] + [t];
      FilterDropsLast(ts[1..], t);
    }
  }

  // ---- Sorting ----

  predicate NonIncreasing(es: seq<Entry>) {
    forall i, j :: 0 <= i < j < |es| ==> es[i].amount >= es[j].amount
  }

  /** Inserts `e` before the first entry whose amount is not larger. */
  function InsertDescending(e: Entry, es: seq<Entry>): seq<Entry>
  {
    if es == [] then [e]
    else if es[0].amount <= e.amount then [e] + es
    else [es[0]] + InsertDescending(e, es[1..])
  }

  /** Insertion adds exactly `e`, and every entry of the result is `e` or came from `es`. */
  lemma {:induction false} InsertDescendingContents(e: Entry, es: seq<Entry>)
    ensures multiset(InsertDescending(e, es)) == multiset(es) + multiset{e}
    ensures EntrySum(InsertDescending(e, es)) == EntrySum(es) + e.amount
  {
    if es != [] && es[0].amount > e.amount {
      InsertDescendingContents(e, es[1..]);
      assert es == [es[0]] + es[1..];
      assert ([es[0]] + InsertDescending(e, es[1..]))[1..] == InsertDescending(e, es[1..]);
    }
  }

  /** Insertion adds no amount above a bound that `e` and `es` respect. */
  lemma {:induction false} InsertDescendingBounded(e: Entry, es: seq<Entry>, bound: real)
    requires e.amount <= bound
    requires forall i :: 0 <= i < |es| ==> es[i].amount <= bound
    ensures forall i :: 0 <= i < |InsertDescending(e, es)| ==> InsertDescending(e, es)[i].amount <= bound
  {
    if es != [] && es[0].amount > e.amount {
      InsertDescendingBounded(e, es[1..], bound);
    }
  }

  /** An entry at least as large as every entry of a non-increasing list can go in front. */
  lemma NonIncreasingCons(h: Entry, rest: seq<Entry>)
    requires NonIncreasing(rest)
    requires forall i :: 0 <= i < |rest| ==> rest[i].amount <= h.amount
    ensures NonIncreasing([h] + rest)
  {
    var r := [h] + rest;
    forall i, j | 0 <= i < j < |r| ensures r[i].amount >= r[j].amount {
      assert r[j] == rest[j - 1];
      if i > 0 { assert r[i] == rest[i - 1]; }
    }
  }

  /** Insertion into a non-increasing list keeps it non-increasing. */
  lemma {:induction false} InsertDescendingSorted(e: Entry, es: seq<Entry>)
    requires NonIncreasing(es)
    ensures NonIncreasing(InsertDescending(e, es))
  {
    if es == [] {
    } else if es[0].amount <= e.amount {
      NonIncreasingCons(e, es);
    } else {
      var tail := es[1..];
      assert NonIncreasing(tail) by {
        forall i, j | 0 <= i < j < |tail| ensures tail[i].amount >= tail[j].amount {
          assert tail[i] == es[i + 1] && tail[j] == es[j + 1];
        }
      }
      InsertDescendingSorted(e, tail);
      assert forall i :: 0 <= i < |tail| ==> tail[i].amount <= es[0].amount by {
        forall i | 0 <= i < |tail| ensures tail[i].amount <= es[0].amount {
          assert tail[i] == es[i + 1];
        }
      }
      InsertDescendingBounded(e, tail, es[0].amount);
      NonIncreasingCons(es[0], InsertDescending(e, tail));
    }
  }

  /** `Object.entries(categoryTotals).sort(([, a], [, b]) => b - a)`, by insertion. */
  function SortDescending(es: seq<Entry>): (r: seq<Entry>)
    ensures NonIncreasing(r)
    ensures multiset(r) == multiset(es)
    ensures EntrySum(r) == EntrySum(es)
  {
    if es == [] then []
    else
      var rest := SortDescending(es[1..]);
      InsertDescendingSorted(es[0], rest);
      InsertDescendingContents(es[0], rest);
      assert es == [es[0]] + es[1..];
      InsertDescending(es[0], rest)
  }

  // ---- Percentages ----

  /** `total > 0 ? (amount / total) * 100 : 0`: the share of the total, in percent. */
  function Percentage(amount: real, total: real): (p: real)
    ensures total > 0.0 ==> p * total == amount * 100.0
    ensures total <= 0.0 ==> p == 0.0
    ensures total > 0.0 && 0.0 <= amount <= total ==> 0.0 <= p <= 100.0
  {
    if total > 0.0 then (amount / total) * 100.0 else 0.0
  }

  function Shares(es: seq<Entry>, total: real): (r: seq<CategoryShare>)
    ensures |r| == |es|
    ensures forall i :: 0 <= i < |es| ==>
      r[i] == CategoryShare(es[i].category, es[i].amount, Percentage(es[i].amount, total))
  {
    seq(|es|, i requires 0 <= i < |es| => CategoryShare(es[i].category, es[i].amount, Percentage(es[i].amount, total)))
  }

  function PercentageSum(rs: seq<CategoryShare>): real
  {
    if rs == [] then 0.0 else rs[0].percentage + PercentageSum(rs[1..])
  }

  /** The sidebar's `totalSpend`: the sum of the category totals, which is the total spend. */
  function SidebarTotal(ts: seq<Transaction>): (r: real)
    ensures r == TotalSpend(ts)
  {
    CategoryTotalsCorrect(ts);
    EntrySum(CategoryTotals(ts))
  }

  /** `sortedCategories`: one row per category total, largest first. */
  function SortedCategories(ts: seq<Transaction>): (r: seq<CategoryShare>)
    ensures |r| == |CategoryTotals(ts)|
    ensures forall i, j :: 0 <= i < j < |r| ==> r[i].amount >= r[j].amount
  {
    var sorted := SortDescending(CategoryTotals(ts));
    var r := Shares(sorted, SidebarTotal(ts));
    assert |sorted| == |multiset(sorted)| == |multiset(CategoryTotals(ts))| == |CategoryTotals(ts)|;
    assert forall i :: 0 <= i < |r| ==> r[i].amount == sorted[i].amount;
    r
  }

  lemma {:induction false} PercentageSumScales(es: seq<Entry>, total: real)
    requires total > 0.0
    ensures PercentageSum(Shares(es, total)) == (EntrySum(es) / total) * 100.0
  {
    if es != [] {
      PercentageSumScales(es[1..], total);
      assert Shares(es, total)[1..] == Shares(es[1..], total);
      ScaledSharesAdd(es[0].amount, EntrySum(es[1..]), total);
    }
  }

  lemma ScaledSharesAdd(a: real, b: real, total: real)
    requires total > 0.0
    ensures (a / total) * 100.0 + (b / total) * 100.0 == ((a + b) / total) * 100.0
  {
  }

  lemma WholeShare(total: real)
    requires total > 0.0
    ensures (total / total) * 100.0 == 100.0
  {
  }

  lemma {:induction false} PercentageSumZero(es: seq<Entry>, total: real)
    requires total <= 0.0
    ensures PercentageSum(Shares(es, total)) == 0.0
  {
    if es != [] {
      PercentageSumZero(es[1..], total);
      assert Shares(es, total)[1..] == Shares(es[1..], total);
    }
  }

  /** The (category, amount) part of the rows. */
  function Unshare(rows: seq<CategoryShare>): (r: seq<Entry>)
    ensures |r| == |rows|
    ensures forall i :: 0 <= i < |rows| ==> r[i] == Entry(rows[i].category, rows[i].amount)
  {
    seq(|rows|, i requires 0 <= i < |rows| => Entry(rows[i].category, rows[i].amount))
  }

  /** The sorted rows are the category totals, each once, in non-increasing order of amount. */
  lemma SortedCategoriesOrdered(ts: seq<Transaction>)
    ensures var rows := SortedCategories(ts);
      (forall i, j :: 0 <= i < j < |rows| ==> rows[i].amount >= rows[j].amount) &&
      multiset(Unshare(rows)) == multiset(CategoryTotals(ts))
  {
    var sorted := SortDescending(CategoryTotals(ts));
    assert Unshare(SortedCategories(ts)) == sorted;
  }

  /** Each row's percentage is its share of the total spend, and the
      percentages sum to 100 whenever anything was spent (to 0 otherwise). */
  lemma SortedCategoriesPercentages(ts: seq<Transaction>)
    ensures var rows := SortedCategories(ts);
      (forall i :: 0 <= i < |rows| ==> rows[i].percentage == Percentage(rows[i].amount, TotalSpend(ts))) &&
      PercentageSum(rows) == (if TotalSpend(ts) > 0.0 then 100.0 else 0.0)
  {
    var sorted := SortDescending(CategoryTotals(ts));
    var total := TotalSpend(ts);
    assert SortedCategories(ts) == Shares(sorted, total);
    assert total == EntrySum(sorted) by {
      CategoryTotalsCorrect(ts);
    }
    if total > 0.0 {
      PercentageSumScales(sorted, total);
      WholeShare(total);
    } else {
      PercentageSumZero(sorted, total);
    }
  }

  /** Something was spent exactly when some transaction has a positive amount. */
  lemma {:induction false} SpendPositiveIff(ts: seq<Transaction>)
    ensures TotalSpend(ts) > 0.0 <==> exists i :: 0 <= i < |ts| && ts[i].amount > 0.0
  {
    if ts != [] {
      SpendPositiveIff(ts[1..]);
      if exists i :: 0 <= i < |ts[1..]| && ts[1..][i].amount > 0.0 {
        var i :| 0 <= i < |ts[1..]| && ts[1..][i].amount > 0.0;
        assert ts[i + 1].amount > 0.0;
      }
      if exists i :: 0 <= i < |ts| && ts[i].amount > 0.0 {
        var i :| 0 <= i < |ts| && ts[i].amount > 0.0;
        if i > 0 { assert ts[1..][i - 1].amount > 0.0; }
      }
    }
  }

  /** `getProgressColor`: the chart fill of the first config with that exact name, else slate-400. */
  function ProgressColor(configs: seq<CategoryConfig>, name: string): (r: string)
    ensures name !in Names(configs) ==> r == "bg-slate-400"
    ensures forall k :: IsFirstNamed(configs, name, k) ==> r == configs[k].color.fill
  {
    match FindConfig(configs, name)
    case Some(c) => c.color.fill
    case None => "bg-slate-400"
  }
}
