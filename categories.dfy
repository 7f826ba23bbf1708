/** Per-category grouping of expense transactions: the `category_totals`
    dict of `generate_pie_chart` (core/views.py) and of
    `generate_radar_chart` (core/charts/expenses_breakdown_category.py),
    split into parallel label and value lists, and the radar's closing of
    its polygon. A dict is a sequence of distinct keys plus a map. */
module Categories {
  import opened Basics
  import opened Models
  import opened Summaries

  /** The categories of the expense transactions, one per expense, in order. */
  function ExpenseCategoryList(txs: seq<Transaction>): seq<string>
  {
    if txs == [] then []
    else
      var last := txs[|txs| - 1];
      ExpenseCategoryList(txs[..|txs| - 1]) + if last.kind == "expense" then [last.category] else []
  }

  /** The keys of `category_totals`: each expense category once, in the
      order of its first expense. */
  function ExpenseCategories(txs: seq<Transaction>): seq<string>
  {
    Distinct(ExpenseCategoryList(txs))
  }

  /** Sum of the amounts of the expense transactions of category `c`. */
  function CategoryTotal(txs: seq<Transaction>, c: string): int
  {
    if txs == [] then 0
    else
      var last := txs[|txs| - 1];
      CategoryTotal(txs[..|txs| - 1], c) + (if last.kind == "expense" && last.category == c then last.amount else 0)
  }

  /** The totals of `keys`, in the order of `keys`. */
  function CategoryValues(txs: seq<Transaction>, keys: seq<string>): (vs: seq<int>)
    ensures |vs| == |keys|
    ensures forall i :: 0 <= i < |keys| ==> vs[i] == CategoryTotal(txs, keys[i])
  {
    if keys == [] then []
    else CategoryValues(txs, keys[..|keys| - 1]) + [CategoryTotal(txs, keys[|keys| - 1])]
  }

  /** A category is a label exactly when some expense has it. */
  lemma {:induction false} ExpenseCategoryListMembers(txs: seq<Transaction>, c: string)
    ensures c in ExpenseCategoryList(txs) <==> exists i :: 0 <= i < |txs| && txs[i].kind == "expense" && txs[i].category == c
  {
    if txs != [] {
      var init := txs[..|txs| - 1];
      ExpenseCategoryListMembers(init, c);
      assert forall i :: 0 <= i < |init| ==> init[i] == txs[i];
      if exists i :: 0 <= i < |txs| && txs[i].kind == "expense" && txs[i].category == c {
        var i :| 0 <= i < |txs| && txs[i].kind == "expense" && txs[i].category == c;
        if i < |init| {
          assert init[i] == txs[i];
        }
      }
    }
  }

  /** The labels are distinct, and they are exactly the categories of the
      expense transactions: no other type contributes a label. */
  lemma ExpenseCategoriesProperties(txs: seq<Transaction>)
    ensures NoDuplicates(ExpenseCategories(txs))
    ensures forall c :: c in ExpenseCategories(txs) <==>
      exists i :: 0 <= i < |txs| && txs[i].kind == "expense" && txs[i].category == c
  {
    DistinctElements(ExpenseCategoryList(txs));
    forall c
      ensures c in ExpenseCategories(txs) <==>
        exists i :: 0 <= i < |txs| && txs[i].kind == "expense" && txs[i].category == c
    {
      ExpenseCategoryListMembers(txs, c);
    }
  }

  /** Labels come in the order of their categories' first expense: the
      category of an earlier label has an expense before any expense of the
      category of a later label. */
  lemma {:induction false} LabelsInFirstOccurrenceOrder(txs: seq<Transaction>, i: nat, j: nat)
    requires i < j < |ExpenseCategories(txs)|
    ensures exists p :: (0 <= p < |txs| && txs[p].kind == "expense" && txs[p].category == ExpenseCategories(txs)[i]
                         && forall q :: 0 <= q <= p ==> !(txs[q].kind == "expense" && txs[q].category == ExpenseCategories(txs)[j]))
  {
    var init, tx := txs[..|txs| - 1], txs[|txs| - 1];
    assert txs == init + [tx];
    ExpenseCategoriesSnoc(init, tx);
    var d := ExpenseCategories(init);
    assert forall q :: 0 <= q < |init| ==> init[q] == txs[q];
    if j < |d| {
      LabelsInFirstOccurrenceOrder(init, i, j);
      var p :| 0 <= p < |init| && init[p].kind == "expense" && init[p].category == d[i]
        && forall q :: 0 <= q <= p ==> !(init[q].kind == "expense" && init[q].category == d[j]);
      assert txs[p] == init[p];
    } else {
      // The later label is the category of `tx`, new in `txs`.
      var c := tx.category;
      DistinctElements(ExpenseCategoryList(init));
      assert d[i] in d;
      ExpenseCategoryListMembers(init, d[i]);
      ExpenseCategoryListMembers(init, c);
      var p :| 0 <= p < |init| && init[p].kind == "expense" && init[p].category == d[i];
      assert txs[p] == init[p];
    }
  }

  /** A category without an expense totals 0. */
  lemma {:induction false} CategoryTotalAbsent(txs: seq<Transaction>, c: string)
    requires c !in ExpenseCategoryList(txs)
    ensures CategoryTotal(txs, c) == 0
  {
    if txs != [] {
      var init := txs[..|txs| - 1];
      assert ExpenseCategoryList(txs) == ExpenseCategoryList(init) + if txs[|txs| - 1].kind == "expense" then [txs[|txs| - 1].category] else [];
      CategoryTotalAbsent(init, c);
    }
  }

  /** Appending one transaction adds its amount to its category's total
      when it is an expense. */
  lemma CategoryTotalSnoc(init: seq<Transaction>, tx: Transaction, c: string)
    ensures CategoryTotal(init + [tx], c)
         == CategoryTotal(init, c) + (if tx.kind == "expense" && tx.category == c then tx.amount else 0)
  {
    assert (init + [tx])[..|init|] == init;
  }

  lemma CategoryValuesSnoc(txs: seq<Transaction>, ks: seq<string>, k: string)
    ensures CategoryValues(txs, ks + [k]) == CategoryValues(txs, ks) + [CategoryTotal(txs, k)]
  {
    assert (ks + [k])[..|ks|] == ks;
  }

  /** Appending one transaction adds its amount to the sum over `keys` when
      it is an expense of one of the (distinct) keys. */
  lemma {:induction false} CategoryValuesStep(init: seq<Transaction>, tx: Transaction, keys: seq<string>)
    requires NoDuplicates(keys)
    ensures Sum(CategoryValues(init + [tx], keys))
         == Sum(CategoryValues(init, keys)) + (if tx.kind == "expense" && tx.category in keys then tx.amount else 0)
  {
    if keys != [] {
      var ks, k := keys[..|keys| - 1], keys[|keys| - 1];
      assert keys == ks + [k];
      assert NoDuplicates(ks) by {
        forall i, j | 0 <= i < j < |ks| ensures ks[i] != ks[j] {
          assert ks[i] == keys[i] && ks[j] == keys[j];
        }
      }
      assert k !in ks by {
        forall i | 0 <= i < |ks| ensures ks[i] != k {
          assert ks[i] == keys[i];
        }
      }
      CategoryValuesStep(init, tx, ks);
      CategoryValuesSnoc(init + [tx], ks, k);
      CategoryValuesSnoc(init, ks, k);
      SumSnoc(CategoryValues(init + [tx], ks), CategoryTotal(init + [tx], k));
      SumSnoc(CategoryValues(init, ks), CategoryTotal(init, k));
      CategoryTotalSnoc(init, tx, k);
      assert tx.category in keys <==> tx.category in ks || tx.category == k;
    }
  }

  lemma ExpenseCategoriesSnoc(init: seq<Transaction>, tx: Transaction)
    ensures ExpenseCategoryList(init + [tx])
         == ExpenseCategoryList(init) + if tx.kind == "expense" then [tx.category] else []
    ensures ExpenseCategories(init + [tx])
         == if tx.kind == "expense" && tx.category !in ExpenseCategories(init)
            then ExpenseCategories(init) + [tx.category]
            else ExpenseCategories(init)
  {
    assert (init + [tx])[..|init|] == init;
    var l := ExpenseCategoryList(init);
    if tx.kind == "expense" {
      var l' := l + [tx.category];
      assert l'[..|l|] == l && l'[|l|] == tx.category;
      assert Distinct(l') == if tx.category in Distinct(l) then Distinct(l) else Distinct(l) + [tx.category];
    } else {
      assert l + [] == l;
    }
  }

  /** The values add up to the total amount of the expense transactions. */
  lemma {:induction false} CategoryValuesSumToExpenseTotal(txs: seq<Transaction>)
    ensures Sum(CategoryValues(txs, ExpenseCategories(txs))) == TypeTotal(txs, "expense")
  {
    if txs != [] {
      var init, tx := txs[..|txs| - 1], txs[|txs| - 1];
      assert txs == init + [tx];
      CategoryValuesSumToExpenseTotal(init);
      CategoryValuesSumStep(init, tx);
    }
  }

  lemma CategoryValuesSumStep(init: seq<Transaction>, tx: Transaction)
    requires Sum(CategoryValues(init, ExpenseCategories(init))) == TypeTotal(init, "expense")
    ensures Sum(CategoryValues(init + [tx], ExpenseCategories(init + [tx]))) == TypeTotal(init + [tx], "expense")
  {
    var txs := init + [tx];
    var d, e := ExpenseCategories(init), ExpenseCategories(txs);
    var isNew := tx.kind == "expense" && tx.category !in d;
    assert TypeTotal(txs, "expense") == TypeTotal(init, "expense") + if tx.kind == "expense" then tx.amount else 0 by {
      assert txs[..|init|] == init;
    }
    assert Sum(CategoryValues(txs, d))
        == Sum(CategoryValues(init, d)) + (if tx.kind == "expense" && tx.category in d then tx.amount else 0) by {
      DistinctElements(ExpenseCategoryList(init));
      CategoryValuesStep(init, tx, d);
    }
    assert e == if isNew then d + [tx.category] else d by {
      ExpenseCategoriesSnoc(init, tx);
    }
    if isNew {
      // A new label: its total is just this amount.
      assert CategoryTotal(txs, tx.category) == tx.amount by {
        DistinctElements(ExpenseCategoryList(init));
        CategoryTotalAbsent(init, tx.category);
        CategoryTotalSnoc(init, tx, tx.category);
      }
      assert Sum(CategoryValues(txs, e)) == Sum(CategoryValues(txs, d)) + CategoryTotal(txs, tx.category) by {
        CategoryValuesSnoc(txs, d, tx.category);
        SumSnoc(CategoryValues(txs, d), CategoryTotal(txs, tx.category));
      }
    }
  }

  /** The `category_totals` loop of `generate_pie_chart` (core/views.py):
      only expense transactions contribute, each adding its amount to its
      category's entry; `labels` and `values` are the dict's keys and values. */
  method AccumulateCategoryTotals(txs: seq<Transaction>) returns (labels: seq<string>, values: seq<int>)
    ensures labels == ExpenseCategories(txs)
    ensures |values| == |labels|
    ensures forall i :: 0 <= i < |labels| ==> values[i] == CategoryTotal(txs, labels[i])
    ensures Sum(values) == TypeTotal(txs, "expense")
  {
    var keys: seq<string> := [];
    var totals: map<string, int> := map[];
    assert txs[..0] == [];
    for i := 0 to |txs|
      invariant keys == ExpenseCategories(txs[..i])
      invariant forall c :: c in totals <==> c in keys
      invariant forall c :: c in totals ==> totals[c] == CategoryTotal(txs[..i], c)
    {
      var tx := txs[i];
      assert txs[..i + 1] == txs[..i] + [tx];
      ExpenseCategoriesSnoc(txs[..i], tx);
      DistinctElements(ExpenseCategoryList(txs[..i]));
      forall c | c in totals ensures CategoryTotal(txs[..i + 1], c) == totals[c] + (if tx.kind == "expense" && tx.category == c then tx.amount else 0) {
        CategoryTotalSnoc(txs[..i], tx, c);
      }
      if tx.kind == "expense" {
        var before := if tx.category in totals then totals[tx.category] else 0;
        CategoryTotalSnoc(txs[..i], tx, tx.category);
        if tx.category !in totals {
          CategoryTotalAbsent(txs[..i], tx.category);
          keys := keys + [tx.category];
        }
        totals := totals[tx.category := before + tx.amount];
      }
    }
    assert txs[..|txs|] == txs;
    labels := keys;
    values := [];
    for j := 0 to |labels|
      invariant values == CategoryValues(txs, labels[..j])
    {
      assert labels[..j + 1][..j] == labels[..j];
      values := values + [totals[labels[j]]];
    }
    assert labels[..|labels|] == labels;
    CategoryValuesSumToExpenseTotal(txs);
  }

  /** The radar chart's output: the placeholder, or the closed polygon. */
  datatype RadarChart = Placeholder(html: string) | Polar(theta: seq<string>, r: seq<int>)

  /** The expense transactions (`filter(type='expense')`). */
  function Expenses(txs: seq<Transaction>): (es: seq<Transaction>)
    ensures forall i :: 0 <= i < |es| ==> es[i].kind == "expense"
  {
    if txs == [] then []
    else
      var last := txs[|txs| - 1];
      Expenses(txs[..|txs| - 1]) + if last.kind == "expense" then [last] else []
  }

  /** Keeping only the expenses changes neither the categories nor the totals. */
  lemma {:induction false} ExpensesKeepCategories(txs: seq<Transaction>)
    ensures ExpenseCategoryList(Expenses(txs)) == ExpenseCategoryList(txs)
    ensures forall c :: CategoryTotal(Expenses(txs), c) == CategoryTotal(txs, c)
    ensures Expenses(txs) == [] <==> forall i :: 0 <= i < |txs| ==> txs[i].kind != "expense"
  {
    if txs != [] {
      var init, last := txs[..|txs| - 1], txs[|txs| - 1];
      assert txs == init + [last];
      ExpensesKeepCategories(init);
      ExpenseCategoriesSnoc(init, last);
      forall c ensures CategoryTotal(Expenses(txs), c) == CategoryTotal(txs, c) {
        CategoryTotalSnoc(init, last, c);
        if last.kind == "expense" {
          CategoryTotalSnoc(Expenses(init), last, c);
        } else {
          assert Expenses(txs) == Expenses(init);
        }
      }
      if last.kind == "expense" {
        ExpenseCategoriesSnoc(Expenses(init), last);
      } else {
        assert Expenses(txs) == Expenses(init);
        assert forall i :: 0 <= i < |init| ==> init[i] == txs[i];
      }
    }
  }

  /** `generate_radar_chart` over the user's transactions: the placeholder
      when there is no expense; otherwise the grouped labels and values,
      each followed by a copy of its first element. */
  method GenerateRadarChart(txs: seq<Transaction>) returns (chart: RadarChart)
    ensures chart.Placeholder? <==> forall i :: 0 <= i < |txs| ==> txs[i].kind != "expense"
    ensures chart.Placeholder? ==> chart.html == "<p>No data for radar chart.</p>"
    ensures chart.Polar? ==>
      var n := |ExpenseCategories(txs)|;
      && n >= 1
      && |chart.theta| == n + 1 && |chart.r| == n + 1
      && chart.theta[..n] == ExpenseCategories(txs)
      && (forall i :: 0 <= i < n ==> chart.r[i] == CategoryTotal(txs, chart.theta[i]))
      && chart.theta[n] == chart.theta[0] && chart.r[n] == chart.r[0]
  {
    var expenses := Expenses(txs);
    assert expenses == [] <==> forall i :: 0 <= i < |txs| ==> txs[i].kind != "expense" by {
      ExpensesKeepCategories(txs);
    }
    if expenses == [] {
      return Placeholder("<p>No data for radar chart.</p>");
    }
    var labels, values := AccumulateCategoryTotals(expenses);
    assert labels == ExpenseCategories(txs) by {
      ExpensesKeepCategories(txs);
    }
    assert forall c :: CategoryTotal(expenses, c) == CategoryTotal(txs, c) by {
      ExpensesKeepCategories(txs);
    }
    // Some expense exists, so there is a first label to repeat.
    assert |labels| >= 1 by {
      ExpenseCategoryListMembers(expenses, expenses[0].category);
      DistinctElements(ExpenseCategoryList(expenses));
      assert expenses[0].category in labels;
    }
    ghost var grouped := labels;
    labels := labels + [labels[0]];
    values := values + [values[0]];
    assert labels[..|grouped|] == grouped;
    chart := Polar(labels, values);
  }
}
