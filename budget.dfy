/** `generate_budget_vs_actual_chart` and `generate_monthly_variance_chart`
    (core/charts/budget_vs_actual_expenses.py): the per-(month, category)
    budget and actual sums of a user's expenses in one year, the column
    check on a frame given directly, the regrouping, the pair of bar traces
    per category, and the variance bars coloured by sign. */
module BudgetCharts {
  import opened Basics
  import opened Text
  import opened Grouping
  import opened AnalyticStore
  import opened Figures

  /** One row of the frame the chart reads: `month`, `category`,
      `budget_amount` and `actual_amount` (NaN as `None`). */
  datatype FrameRow = FrameRow(month: int, category: string, budget: Option<int>, actual: Option<int>)

  /** A frame: its column names and its rows. */
  datatype Frame = Frame(columns: seq<string>, rows: seq<FrameRow>)

  /** The chart's argument: a username, or a frame passed directly. */
  datatype BudgetInput = Username(name: string) | GivenFrame(frame: Frame)

  const RequiredColumns: seq<string> := ["month", "category", "budget_amount", "actual_amount"]

  const NoBudgetData: string := "<div><p>No budget vs actual data available for this user.</p></div>"

  const NoVarianceData: string := "<div><p>No variance data available.</p></div>"

  function BudgetError(e: string): string
  {
    "<div><p>Error generating budget vs actual chart: " + e + "</p></div>"
  }

  function VarianceError(e: string): string
  {
    "<div><p>Error generating variance chart: " + e + "</p></div>"
  }

  // ----- The SQL: SUM(budget_amount), SUM(actual_amount) GROUP BY month, category

  /** Does an expense row pass the query's `WHERE` clause? */
  predicate Selected(e: ExpenseRow, user: string, year: int)
  {
    e.username == user && e.year == year
  }

  /** The selected rows as grouping rows keyed by (month, category), with
      the budget, the actual amount (NULL as 0) and a count of non-NULL
      actual amounts, so that the SQL `SUM`'s NULL can be recovered. */
  function QueryInputs(expenses: seq<ExpenseRow>, user: string, year: int): (rows: seq<Row>)
    ensures Width(rows, 3)
    ensures forall i :: 0 <= i < |rows| ==> rows[i].key.major.Num? && rows[i].vals[2] >= 0
  {
    if expenses == [] then []
    else
      var e := expenses[|expenses| - 1];
      QueryInputs(expenses[..|expenses| - 1], user, year)
      + if Selected(e, user, year) then [QueryRow(e)] else []
  }

  /** A selected expense row's contribution to the grouping. */
  function QueryRow(e: ExpenseRow): Row
  {
    Row(Key(Num(e.month), e.category), [e.budgetAmount, Coalesce(e.actualAmount, 0), if e.actualAmount.Some? then 1 else 0])
  }

  /** The month of a grouping key built by this module (always a number). */
  function MonthOf(a: Atom): int
  {
    if a.Num? then a.n else 0
  }

  function ToFrameRow(r: Row): FrameRow
    requires |r.vals| == 3
  {
    FrameRow(MonthOf(r.key.major), r.key.minor, Some(r.vals[0]), if r.vals[2] > 0 then Some(r.vals[1]) else None)
  }

  /** The rows the query returns, in `ORDER BY month, category` order. */
  function BudgetQuery(expenses: seq<ExpenseRow>, user: string, year: int): seq<FrameRow>
  {
    var g := GroupSum(QueryInputs(expenses, user, year), 3);
    seq(|g|, i requires 0 <= i < |g| => ToFrameRow(g[i]))
  }

  /** The budgets of the selected rows of one (month, category). */
  function BudgetTerms(expenses: seq<ExpenseRow>, user: string, year: int, month: int, category: string): seq<int>
  {
    if expenses == [] then []
    else
      var e := expenses[|expenses| - 1];
      BudgetTerms(expenses[..|expenses| - 1], user, year, month, category)
      + if Selected(e, user, year) && e.month == month && e.category == category then [e.budgetAmount] else []
  }

  /** The actual amounts of the selected rows of one (month, category). */
  function ActualTerms(expenses: seq<ExpenseRow>, user: string, year: int, month: int, category: string): seq<Option<int>>
  {
    if expenses == [] then []
    else
      var e := expenses[|expenses| - 1];
      ActualTerms(expenses[..|expenses| - 1], user, year, month, category)
      + if Selected(e, user, year) && e.month == month && e.category == category then [e.actualAmount] else []
  }

  /** The grouping sums are the SQL sums over the (month, category)'s rows:
      the budget total, the sum of present actual amounts, and a zero count
      exactly when every actual amount is NULL. */
  lemma {:induction false} QueryInputSums(expenses: seq<ExpenseRow>, user: string, year: int, month: int, category: string)
    ensures QuerySumsAgree(expenses, user, year, month, category)
  {
    if expenses != [] {
      var init, e := expenses[..|expenses| - 1], expenses[|expenses| - 1];
      assert expenses == init + [e];
      QueryInputSums(init, user, year, month, category);
      QueryInputSumsStep(init, e, user, year, month, category);
    }
  }

  /** The grouping sums of one (month, category) against its SQL sums. */
  predicate QuerySumsAgree(expenses: seq<ExpenseRow>, user: string, year: int, month: int, category: string)
  {
    var rows, k := QueryInputs(expenses, user, year), Key(Num(month), category);
    SumsAgree(ColSum(rows, k, 0), ColSum(rows, k, 1), ColSum(rows, k, 2),
              BudgetTerms(expenses, user, year, month, category), ActualTerms(expenses, user, year, month, category))
  }

  /** Three column sums (budget, actual with NULL as 0, count of non-NULL
      actual amounts) against the budget terms and the actual terms. */
  predicate SumsAgree(budget: int, actual: int, count: int, b: seq<int>, a: seq<Option<int>>)
  {
    && budget == Sum(b)
    && actual == SumPresent(a)
    && count >= 0
    && (count == 0 <==> SqlSum(a).None?)
  }

  /** Sums that agree still agree once each side has taken in the same row. */
  lemma SumsAgreeStep(budget: int, actual: int, count: int, b: seq<int>, a: seq<Option<int>>,
                      budget': int, actual': int, count': int, b': seq<int>, a': seq<Option<int>>,
                      matching: bool, x: int, y: Option<int>)
    requires SumsAgree(budget, actual, count, b, a)
    requires budget' == budget + (if matching then x else 0)
    requires actual' == actual + (if matching then Coalesce(y, 0) else 0)
    requires count' == count + (if matching && y.Some? then 1 else 0)
    requires Sum(b') == Sum(b) + (if matching then x else 0)
    requires SumPresent(a') == SumPresent(a) + (if matching then Coalesce(y, 0) else 0)
    requires SqlSum(a').None? <==> SqlSum(a).None? && !(matching && y.Some?)
    ensures SumsAgree(budget', actual', count', b', a')
  {
  }

  lemma QueryInputSumsStep(init: seq<ExpenseRow>, e: ExpenseRow, user: string, year: int, month: int, category: string)
    requires QuerySumsAgree(init, user, year, month, category)
    ensures QuerySumsAgree(init + [e], user, year, month, category)
  {
    var es, k := init + [e], Key(Num(month), category);
    var before, after := QueryInputs(init, user, year), QueryInputs(es, user, year);
    var matching := Selected(e, user, year) && e.month == month && e.category == category;
    assert Selected(e, user, year) && QueryRow(e).key == k <==> matching;
    assert ColSum(after, k, 0) == ColSum(before, k, 0) + (if matching then e.budgetAmount else 0) by {
      QueryColumnStep(init, e, user, year, k, 0);
    }
    assert ColSum(after, k, 1) == ColSum(before, k, 1) + (if matching then Coalesce(e.actualAmount, 0) else 0) by {
      QueryColumnStep(init, e, user, year, k, 1);
    }
    assert ColSum(after, k, 2) == ColSum(before, k, 2) + (if matching && e.actualAmount.Some? then 1 else 0) by {
      QueryColumnStep(init, e, user, year, k, 2);
    }
    var b, b' := BudgetTerms(init, user, year, month, category), BudgetTerms(es, user, year, month, category);
    var a, a' := ActualTerms(init, user, year, month, category), ActualTerms(es, user, year, month, category);
    assert && Sum(b') == Sum(b) + (if matching then e.budgetAmount else 0)
           && SumPresent(a') == SumPresent(a) + (if matching then Coalesce(e.actualAmount, 0) else 0)
           && (SqlSum(a').None? <==> SqlSum(a).None? && !(matching && e.actualAmount.Some?)) by {
      if matching {
        QueryTermsMatching(init, e, user, year, month, category);
      } else {
        QueryTermsUnmatched(init, e, user, year, month, category);
      }
    }
    SumsAgreeStep(ColSum(before, k, 0), ColSum(before, k, 1), ColSum(before, k, 2), b, a,
                  ColSum(after, k, 0), ColSum(after, k, 1), ColSum(after, k, 2), b', a',
                  matching, e.budgetAmount, e.actualAmount);
  }

  /** One more expense row adds its value to column `j` of its own key only. */
  lemma QueryColumnStep(init: seq<ExpenseRow>, e: ExpenseRow, user: string, year: int, k: Key, j: nat)
    requires j < 3
    ensures ColSum(QueryInputs(init + [e], user, year), k, j)
         == ColSum(QueryInputs(init, user, year), k, j) + if Selected(e, user, year) && QueryRow(e).key == k then QueryRow(e).vals[j] else 0
  {
    var es := init + [e];
    assert es[..|es| - 1] == init;
    var before := QueryInputs(init, user, year);
    if Selected(e, user, year) {
      assert QueryInputs(es, user, year) == before + [QueryRow(e)];
      ColSumSnoc(before, QueryRow(e), k, j);
    } else {
      assert QueryInputs(es, user, year) == before;
    }
  }

  /** A row outside the (month, category) leaves its terms as they were. */
  lemma QueryTermsUnmatched(init: seq<ExpenseRow>, e: ExpenseRow, user: string, year: int, month: int, category: string)
    requires !(Selected(e, user, year) && e.month == month && e.category == category)
    ensures BudgetTerms(init + [e], user, year, month, category) == BudgetTerms(init, user, year, month, category)
    ensures ActualTerms(init + [e], user, year, month, category) == ActualTerms(init, user, year, month, category)
  {
    var es := init + [e];
    assert es[..|es| - 1] == init;
  }

  /** One more matching row adds one budget term and one actual term. */
  lemma QueryTermsMatching(init: seq<ExpenseRow>, e: ExpenseRow, user: string, year: int, month: int, category: string)
    requires Selected(e, user, year) && e.month == month && e.category == category
    ensures Sum(BudgetTerms(init + [e], user, year, month, category)) == Sum(BudgetTerms(init, user, year, month, category)) + e.budgetAmount
    ensures SumPresent(ActualTerms(init + [e], user, year, month, category)) == SumPresent(ActualTerms(init, user, year, month, category)) + Coalesce(e.actualAmount, 0)
    ensures SqlSum(ActualTerms(init + [e], user, year, month, category)).None?
        <==> SqlSum(ActualTerms(init, user, year, month, category)).None? && e.actualAmount.None?
  {
    var es := init + [e];
    assert es[..|es| - 1] == init;
    var a := ActualTerms(init, user, year, month, category);
    var a' := a + [e.actualAmount];
    assert ActualTerms(es, user, year, month, category) == a';
    assert a'[..|a|] == a;
    assert forall i :: 0 <= i < |a| ==> a'[i] == a[i];
    SumSnoc(BudgetTerms(init, user, year, month, category), e.budgetAmount);
  }

  /** The query returns each selected (month, category) once, in ascending
      (month, category) order; its budget is the sum of the budgets and its
      actual amount the SQL `SUM` of the actual amounts (NULL when all of them
      are NULL). */
  lemma BudgetQueryRows(expenses: seq<ExpenseRow>, user: string, year: int)
    ensures var q := BudgetQuery(expenses, user, year);
      forall i, j :: 0 <= i < j < |q| ==>
        q[i].month < q[j].month || (q[i].month == q[j].month && StrLt(q[i].category, q[j].category))
    ensures var q := BudgetQuery(expenses, user, year);
      forall i :: 0 <= i < |q| ==>
        && BudgetTerms(expenses, user, year, q[i].month, q[i].category) != []
        && q[i].budget == Some(Sum(BudgetTerms(expenses, user, year, q[i].month, q[i].category)))
        && q[i].actual == SqlSum(ActualTerms(expenses, user, year, q[i].month, q[i].category))
    ensures var q := BudgetQuery(expenses, user, year);
      forall e :: e in expenses && Selected(e, user, year) ==>
        exists i :: 0 <= i < |q| && q[i].month == e.month && q[i].category == e.category
  {
    var inputs := QueryInputs(expenses, user, year);
    var g := GroupSum(inputs, 3);
    var q := BudgetQuery(expenses, user, year);
    GroupSumProperties(inputs, 3);
    forall i | 0 <= i < |g| ensures g[i].key.major.Num? {
      assert g[i].key in Keys(g);
      assert g[i].key in Keys(inputs);
    }
    forall i, j | 0 <= i < j < |q|
      ensures q[i].month < q[j].month || (q[i].month == q[j].month && StrLt(q[i].category, q[j].category))
    {
      assert KeyLt(g[i].key, g[j].key);
    }
    forall i | 0 <= i < |q|
      ensures && BudgetTerms(expenses, user, year, q[i].month, q[i].category) != []
              && q[i].budget == Some(Sum(BudgetTerms(expenses, user, year, q[i].month, q[i].category)))
              && q[i].actual == SqlSum(ActualTerms(expenses, user, year, q[i].month, q[i].category))
    {
      var k := g[i].key;
      assert k == Key(Num(q[i].month), q[i].category);
      LookupAt(g, i, 0);
      LookupAt(g, i, 1);
      LookupAt(g, i, 2);
      QueryInputSums(expenses, user, year, q[i].month, q[i].category);
      assert k in Keys(inputs) by { assert k in Keys(g); }
      var p :| 0 <= p < |inputs| && inputs[p].key == k;
      QueryInputPresent(expenses, user, year, p);
      CoalesceSqlSum(ActualTerms(expenses, user, year, q[i].month, q[i].category));
    }
    forall e | e in expenses && Selected(e, user, year)
      ensures exists i :: 0 <= i < |q| && q[i].month == e.month && q[i].category == e.category
    {
      SelectedHasGroup(expenses, user, year, e);
    }
  }

  /** The query returns no row, so the charts show their placeholder,
      exactly when the user has no expense row in the year. */
  lemma BudgetQueryEmptyIff(expenses: seq<ExpenseRow>, user: string, year: int)
    ensures BudgetQuery(expenses, user, year) == [] <==> forall e :: e in expenses ==> !Selected(e, user, year)
  {
    var inputs := QueryInputs(expenses, user, year);
    var g := GroupSum(inputs, 3);
    if forall e :: e in expenses ==> !Selected(e, user, year) {
      NoSelectedNoInputs(expenses, user, year);
      GroupSumProperties(inputs, 3);
    } else {
      var e :| e in expenses && Selected(e, user, year);
      SelectedHasGroup(expenses, user, year, e);
    }
  }

  lemma {:induction false} NoSelectedNoInputs(expenses: seq<ExpenseRow>, user: string, year: int)
    requires forall e :: e in expenses ==> !Selected(e, user, year)
    ensures QueryInputs(expenses, user, year) == []
  {
    if expenses != [] {
      var init := expenses[..|expenses| - 1];
      assert forall e :: e in init ==> e in expenses;
      NoSelectedNoInputs(init, user, year);
    }
  }

  /** A selected expense row has its (month, category) row in the result. */
  lemma SelectedHasGroup(expenses: seq<ExpenseRow>, user: string, year: int, e: ExpenseRow)
    requires e in expenses && Selected(e, user, year)
    ensures var q := BudgetQuery(expenses, user, year);
      exists i :: 0 <= i < |q| && q[i].month == e.month && q[i].category == e.category
  {
    var inputs := QueryInputs(expenses, user, year);
    var g := GroupSum(inputs, 3);
    var q := BudgetQuery(expenses, user, year);
    SelectedInInputs(expenses, user, year, e);
    GroupSumProperties(inputs, 3);
    assert QueryRow(e).key in Keys(g);
    var i :| 0 <= i < |g| && g[i].key == QueryRow(e).key;
    assert q[i] == ToFrameRow(g[i]);
  }

  /** A selected expense row's (month, category) is a key of the grouping
      input. */
  lemma {:induction false} SelectedInInputs(expenses: seq<ExpenseRow>, user: string, year: int, e: ExpenseRow)
    requires e in expenses && Selected(e, user, year)
    ensures QueryRow(e).key in Keys(QueryInputs(expenses, user, year))
  {
    var init, last := expenses[..|expenses| - 1], expenses[|expenses| - 1];
    assert expenses == init + [last];
    var rows, before := QueryInputs(expenses, user, year), QueryInputs(init, user, year);
    if e in init {
      SelectedInInputs(init, user, year, e);
      var p :| 0 <= p < |before| && before[p].key == QueryRow(e).key;
      assert rows[p] == before[p];
    } else {
      assert e == last && rows == before + [QueryRow(e)];
      assert rows[|before|].key == QueryRow(e).key;
    }
  }

  /** A (month, category) that has a grouping row has a budget term. */
  lemma {:induction false} QueryInputPresent(expenses: seq<ExpenseRow>, user: string, year: int, p: nat)
    requires p < |QueryInputs(expenses, user, year)|
    ensures var k := QueryInputs(expenses, user, year)[p].key;
      BudgetTerms(expenses, user, year, MonthOf(k.major), k.minor) != []
  {
    var init, e := expenses[..|expenses| - 1], expenses[|expenses| - 1];
    var rows := QueryInputs(expenses, user, year);
    var k := rows[p].key;
    var before := QueryInputs(init, user, year);
    if p < |before| {
      assert rows[p] == before[p];
      QueryInputPresent(init, user, year, p);
    } else {
      assert Selected(e, user, year) && k == Key(Num(e.month), e.category);
    }
  }

  // ----- The frame: column check and pandas regrouping

  /** `[col for col in required if col not in columns]`. */
  function Absent(required: seq<string>, columns: seq<string>): seq<string>
  {
    if required == [] then []
    else
      var c := required[|required| - 1];
      Absent(required[..|required| - 1], columns) + if c !in columns then [c] else []
  }

  function MissingColumns(columns: seq<string>): seq<string>
  {
    Absent(RequiredColumns, columns)
  }

  /** The absent names are exactly the required names that are not columns,
      and they keep the order in which they are required. */
  lemma {:induction false} AbsentProperties(required: seq<string>, columns: seq<string>)
    requires NoDuplicates(required)
    ensures forall c :: c in Absent(required, columns) <==> c in required && c !in columns
    ensures forall i, j :: 0 <= i < j < |Absent(required, columns)| ==>
      Absent(required, columns)[i] in required && Absent(required, columns)[j] in required &&
      FirstIndex(required, Absent(required, columns)[i]) < FirstIndex(required, Absent(required, columns)[j])
  {
    if required != [] {
      var init, c := required[..|required| - 1], required[|required| - 1];
      assert required == init + [c];
      assert NoDuplicates(init) by {
        forall i, j | 0 <= i < j < |init| ensures init[i] != init[j] {
          assert init[i] == required[i] && init[j] == required[j];
        }
      }
      assert c !in init by {
        forall i | 0 <= i < |init| ensures init[i] != c { assert init[i] == required[i]; }
      }
      AbsentProperties(init, columns);
      var a := Absent(init, columns);
      var m := Absent(required, columns);
      forall i, j | 0 <= i < j < |m|
        ensures m[i] in required && m[j] in required && FirstIndex(required, m[i]) < FirstIndex(required, m[j])
      {
        assert m[i] in a by { assert m[i] == a[i]; }
        FirstIndexPrefix(init, c, m[i]);
        if j < |a| {
          assert m[j] == a[j];
          FirstIndexPrefix(init, c, m[j]);
        } else {
          assert m[j] == c;
          assert required[..|required| - 1] == init;
          FirstIndexUnique(required, c, |required| - 1);
        }
      }
    }
  }

  /** The frame's message when columns are missing; the list is written as
      Python writes a list of strings. */
  function MissingMessage(missing: seq<string>): string
  {
    "<div><p>Missing columns in data: " + ListRepr(missing) + "</p></div>"
  }

  function ListRepr(xs: seq<string>): string
  {
    "[" + ListItems(xs) + "]"
  }

  function ListItems(xs: seq<string>): string
  {
    if xs == [] then ""
    else if |xs| == 1 then "'" + xs[0] + "'"
    else ListItems(xs[..|xs| - 1]) + ", '" + xs[|xs| - 1] + "'"
  }

  lemma MissingMessageExample()
    ensures MissingColumns(["month", "category"]) == ["budget_amount", "actual_amount"]
    ensures ListRepr(MissingColumns(["month", "category"])) == "['budget_amount', 'actual_amount']"
  {
    MissingColumnsExample();
    ListReprExample();
  }

  lemma MissingColumnsExample()
    ensures MissingColumns(["month", "category"]) == ["budget_amount", "actual_amount"]
  {
    var cols := ["month", "category"];
    var r := RequiredColumns;
    assert r[..3][..2][..1][..0] == [];
    assert Absent(r[..1], cols) == [] + [] by {
      assert r[..1][..0] == [];
    }
    assert Absent(r[..2], cols) == [] + [] by {
      assert r[..2][..1] == r[..1];
    }
    assert Absent(r[..3], cols) == ["budget_amount"] by {
      assert r[..3][..2] == r[..2];
    }
    assert r[..3] == r[..|r| - 1];
  }

  lemma ListReprExample()
    ensures ListRepr(["budget_amount", "actual_amount"]) == "['budget_amount', 'actual_amount']"
  {
    var m := ["budget_amount", "actual_amount"];
    assert m[..1] == ["budget_amount"];
    assert ListItems(m[..1]) == "'budget_amount'";
    assert ListItems(m) == "'budget_amount'" + ", '" + "actual_amount" + "'";
    assert "['budget_amount', 'actual_amount']" == "[" + ("'budget_amount'" + ", '" + "actual_amount" + "'") + "]";
  }

  /** A frame row as a grouping row keyed by (month, category); pandas'
      `sum()` counts NaN as 0. */
  function FrameToRows(rows: seq<FrameRow>): (r: seq<Row>)
    ensures |r| == |rows| && Width(r, 2)
  {
    seq(|rows|, i requires 0 <= i < |rows| =>
      Row(Key(Num(rows[i].month), rows[i].category), [Coalesce(rows[i].budget, 0), Coalesce(rows[i].actual, 0)]))
  }

  /** `df.groupby(['month', 'category'])[[budget, actual]].sum()`. */
  function GroupFrame(rows: seq<FrameRow>): seq<Row>
  {
    GroupSum(FrameToRows(rows), 2)
  }

  /** After grouping, each (month, category) appears once, in ascending
      order, and its budget and actual are the sums over the frame's rows
      with that month and category. */
  lemma GroupFrameProperties(rows: seq<FrameRow>)
    ensures StrictlySorted(GroupFrame(rows))
    ensures Keys(GroupFrame(rows)) == Keys(FrameToRows(rows))
    ensures forall i, j :: 0 <= i < |GroupFrame(rows)| && 0 <= j < 2 ==>
      GroupFrame(rows)[i].vals[j] == ColSum(FrameToRows(rows), GroupFrame(rows)[i].key, j)
  {
    var g := GroupFrame(rows);
    GroupSumProperties(FrameToRows(rows), 2);
    forall i, j | 0 <= i < |g| && 0 <= j < 2
      ensures g[i].vals[j] == ColSum(FrameToRows(rows), g[i].key, j)
    {
      LookupAt(g, i, j);
    }
  }

  /** Regrouping what the query already grouped changes nothing: the
      frame's rows come back in the same order, with the same sums (a NULL
      actual amount read as 0). */
  lemma RegroupQueryRows(expenses: seq<ExpenseRow>, user: string, year: int)
    ensures GroupFrame(BudgetQuery(expenses, user, year)) == FrameToRows(BudgetQuery(expenses, user, year))
  {
    var q := BudgetQuery(expenses, user, year);
    var f := FrameToRows(q);
    var g := GroupSum(QueryInputs(expenses, user, year), 3);
    GroupSumProperties(QueryInputs(expenses, user, year), 3);
    forall i | 0 <= i < |g| ensures g[i].key.major.Num? {
      assert g[i].key in Keys(g);
    }
    assert forall i :: 0 <= i < |f| ==> f[i].key == g[i].key;
    GroupSumOfGrouped(f, 2);
  }

  // ----- The figure

  /** `grouped['category'].unique()`. */
  function GroupCategories(g: seq<Row>): seq<string>
  {
    Distinct(seq(|g|, i requires 0 <= i < |g| => g[i].key.minor))
  }

  /** `sorted(grouped['month'].unique())`; the source computes it and does
      not use it further. */
  function GroupMonths(g: seq<Row>): seq<Atom>
  {
    SortedUnique(seq(|g|, i requires 0 <= i < |g| => g[i].key.major))
  }

  /** The categories are distinct and are those of the groups; the months
      are strictly ascending and are those of the groups. */
  lemma CategoriesAndMonths(g: seq<Row>)
    ensures NoDuplicates(GroupCategories(g))
    ensures forall c :: c in GroupCategories(g) <==> exists i :: 0 <= i < |g| && g[i].key.minor == c
    ensures forall i, j :: 0 <= i < j < |GroupMonths(g)| ==> AtomLt(GroupMonths(g)[i], GroupMonths(g)[j])
    ensures forall m :: m in GroupMonths(g) <==> exists i :: 0 <= i < |g| && g[i].key.major == m
  {
    var minors := seq(|g|, i requires 0 <= i < |g| => g[i].key.minor);
    var majors := seq(|g|, i requires 0 <= i < |g| => g[i].key.major);
    DistinctElements(minors);
    SortedUniqueProperties(majors);
    forall c ensures c in minors <==> exists i :: 0 <= i < |g| && g[i].key.minor == c {
      if exists i :: 0 <= i < |g| && g[i].key.minor == c {
        var i :| 0 <= i < |g| && g[i].key.minor == c;
        assert minors[i] == c;
      }
    }
    forall m ensures m in majors <==> exists i :: 0 <= i < |g| && g[i].key.major == m {
      if exists i :: 0 <= i < |g| && g[i].key.major == m {
        var i :| 0 <= i < |g| && g[i].key.major == m;
        assert majors[i] == m;
      }
    }
  }

  /** `grouped[grouped['category'] == category]`: the rows of category `c`,
      every one of them, in the frame's order. */
  function RowsOf(g: seq<Row>, c: string): (r: seq<Row>)
    ensures forall i :: 0 <= i < |r| ==> r[i].key.minor == c && r[i] in g
    ensures forall x :: x in g && x.key.minor == c ==> x in r
  {
    if g == [] then []
    else
      var init, last := g[..|g| - 1], g[|g| - 1];
      assert g == init + [last];
      RowsOf(init, c) + if last.key.minor == c then [last] else []
  }

  /** The mask keeps the frame's order: a sorted frame gives sorted rows. */
  lemma {:induction false} RowsOfSorted(g: seq<Row>, c: string)
    requires StrictlySorted(g)
    ensures StrictlySorted(RowsOf(g, c))
  {
    if g != [] {
      var init, last := g[..|g| - 1], g[|g| - 1];
      assert StrictlySorted(init) by {
        forall i, j | 0 <= i < j < |init| ensures KeyLt(init[i].key, init[j].key) {
          assert init[i] == g[i] && init[j] == g[j];
        }
      }
      RowsOfSorted(init, c);
      var before := RowsOf(init, c);
      forall x | x in before ensures KeyLt(x.key, last.key) {
        var p :| 0 <= p < |init| && init[p] == x;
        assert g[p] == x;
      }
    }
  }

  function MonthLabels(rs: seq<Row>): seq<string>
  {
    seq(|rs|, i requires 0 <= i < |rs| => AtomText(rs[i].key.major))
  }

  function Column(rs: seq<Row>, j: nat): seq<Option<int>>
    requires HasColumn(rs, j)
  {
    seq(|rs|, i requires 0 <= i < |rs| => Some(rs[i].vals[j]))
  }

  function BudgetBar(g: seq<Row>, c: string): Bar
    requires Width(g, 2)
  {
    var rs := RowsOf(g, c);
    Bar(Title(c) + " Budget", MonthLabels(rs), Column(rs, 0), Uniform(LightBlue), Some(c))
  }

  function ActualBar(g: seq<Row>, c: string): Bar
    requires Width(g, 2)
  {
    var rs := RowsOf(g, c);
    Bar(Title(c) + " Actual", MonthLabels(rs), Column(rs, 1), Uniform(Orange), Some(c))
  }

  /** The traces of the budget chart: for each category, its budget bars
      and then its actual bars. */
  function BudgetTraces(g: seq<Row>, cs: seq<string>): seq<Bar>
    requires Width(g, 2)
  {
    if cs == [] then []
    else BudgetTraces(g, cs[..|cs| - 1]) + [BudgetBar(g, cs[|cs| - 1]), ActualBar(g, cs[|cs| - 1])]
  }

  lemma BudgetTracesSnoc(g: seq<Row>, cs: seq<string>, i: nat)
    requires Width(g, 2) && i < |cs|
    ensures BudgetTraces(g, cs[..i + 1]) == BudgetTraces(g, cs[..i]) + [BudgetBar(g, cs[i]), ActualBar(g, cs[i])]
  {
    assert cs[..i + 1][..i] == cs[..i];
  }

  /** Two traces per category, budget then actual, named after the
      title-cased category and grouped under it. */
  lemma {:induction false} BudgetTracesShape(g: seq<Row>, cs: seq<string>)
    requires Width(g, 2)
    ensures |BudgetTraces(g, cs)| == 2 * |cs|
    ensures forall i :: 0 <= i < |cs| ==>
      && BudgetTraces(g, cs)[2 * i] == BudgetBar(g, cs[i])
      && BudgetTraces(g, cs)[2 * i + 1] == ActualBar(g, cs[i])
      && BudgetTraces(g, cs)[2 * i].name == Title(cs[i]) + " Budget"
      && BudgetTraces(g, cs)[2 * i + 1].name == Title(cs[i]) + " Actual"
      && BudgetTraces(g, cs)[2 * i].marker == Uniform(LightBlue)
      && BudgetTraces(g, cs)[2 * i + 1].marker == Uniform(Orange)
  {
    if cs != [] {
      var init := cs[..|cs| - 1];
      BudgetTracesShape(g, init);
      assert forall i :: 0 <= i < |init| ==> init[i] == cs[i];
    }
  }

  /** A category's budget and actual traces have one bar for every month
      in which the frame has a row of that category, and no other bar; the
      bars are in increasing month order, labelled with the month, and each
      height is the budget (actual) summed over the frame's rows of that
      month and category. */
  lemma BarHeights(rows: seq<FrameRow>, c: string)
    ensures var g := GroupFrame(rows); var rs := RowsOf(g, c);
      && StrictlySorted(rs)
      && |BudgetBar(g, c).y| == |rs| && |ActualBar(g, c).y| == |rs|
      && (forall i :: 0 <= i < |rs| ==>
            && rs[i].key.minor == c
            && (exists j :: 0 <= j < |rows| && rows[j].category == c && rs[i].key.major == Num(rows[j].month))
            && BudgetBar(g, c).y[i] == Some(ColSum(FrameToRows(rows), rs[i].key, 0))
            && ActualBar(g, c).y[i] == Some(ColSum(FrameToRows(rows), rs[i].key, 1)))
      && (forall j :: 0 <= j < |rows| && rows[j].category == c ==>
            exists i :: 0 <= i < |rs| && rs[i].key == Key(Num(rows[j].month), c)
                        && BudgetBar(g, c).x[i] == IntToString(rows[j].month))
  {
    GroupFrameProperties(rows);
    RowsOfSorted(GroupFrame(rows), c);
    BarsHaveFrameRows(rows, c);
    FrameRowsHaveBars(rows, c);
  }

  lemma BarsHaveFrameRows(rows: seq<FrameRow>, c: string)
    ensures var g := GroupFrame(rows); var rs := RowsOf(g, c);
      forall i :: 0 <= i < |rs| ==>
        && rs[i].key.minor == c
        && (exists j :: 0 <= j < |rows| && rows[j].category == c && rs[i].key.major == Num(rows[j].month))
        && BudgetBar(g, c).y[i] == Some(ColSum(FrameToRows(rows), rs[i].key, 0))
        && ActualBar(g, c).y[i] == Some(ColSum(FrameToRows(rows), rs[i].key, 1))
  {
    var g := GroupFrame(rows);
    var rs := RowsOf(g, c);
    forall i | 0 <= i < |rs|
      ensures rs[i].key.minor == c
      ensures exists j :: 0 <= j < |rows| && rows[j].category == c && rs[i].key.major == Num(rows[j].month)
      ensures BudgetBar(g, c).y[i] == Some(ColSum(FrameToRows(rows), rs[i].key, 0))
      ensures ActualBar(g, c).y[i] == Some(ColSum(FrameToRows(rows), rs[i].key, 1))
    {
      BarOfFrameRow(rows, c, i);
    }
  }

  lemma FrameRowsHaveBars(rows: seq<FrameRow>, c: string)
    ensures var g := GroupFrame(rows); var rs := RowsOf(g, c);
      forall j :: 0 <= j < |rows| && rows[j].category == c ==>
        exists i :: 0 <= i < |rs| && rs[i].key == Key(Num(rows[j].month), c)
                    && BudgetBar(g, c).x[i] == IntToString(rows[j].month)
  {
    forall j | 0 <= j < |rows| && rows[j].category == c
      ensures var g := GroupFrame(rows); var rs := RowsOf(g, c);
        exists i :: 0 <= i < |rs| && rs[i].key == Key(Num(rows[j].month), c)
                    && BudgetBar(g, c).x[i] == IntToString(rows[j].month)
    {
      FrameRowHasBar(rows, c, j);
    }
  }

  /** Bar `i` of a category stands for a month of a frame row of that
      category, and its heights are that month's sums. */
  lemma BarOfFrameRow(rows: seq<FrameRow>, c: string, i: nat)
    requires i < |RowsOf(GroupFrame(rows), c)|
    ensures var g := GroupFrame(rows); var r := RowsOf(g, c)[i];
      && (exists j :: 0 <= j < |rows| && rows[j].category == c && r.key.major == Num(rows[j].month))
      && BudgetBar(g, c).y[i] == Some(ColSum(FrameToRows(rows), r.key, 0))
      && ActualBar(g, c).y[i] == Some(ColSum(FrameToRows(rows), r.key, 1))
  {
    var g := GroupFrame(rows);
    var r := RowsOf(g, c)[i];
    var fr := FrameToRows(rows);
    GroupFrameProperties(rows);
    assert r in g;
    var p :| 0 <= p < |g| && g[p] == r;
    assert r.key in Keys(fr) by { assert g[p].key in Keys(g); }
    var j :| 0 <= j < |fr| && fr[j].key == r.key;
    assert rows[j].category == c && r.key.major == Num(rows[j].month);
  }

  /** Every frame row of the category has its month's bar. */
  lemma FrameRowHasBar(rows: seq<FrameRow>, c: string, j: nat)
    requires j < |rows| && rows[j].category == c
    ensures var g := GroupFrame(rows); var rs := RowsOf(g, c);
      exists i :: 0 <= i < |rs| && rs[i].key == Key(Num(rows[j].month), c)
                  && BudgetBar(g, c).x[i] == IntToString(rows[j].month)
  {
    var g := GroupFrame(rows);
    var rs := RowsOf(g, c);
    var k := Key(Num(rows[j].month), c);
    assert k in Keys(g) by {
      GroupFrameProperties(rows);
      assert FrameToRows(rows)[j].key == k;
    }
    var p :| 0 <= p < |g| && g[p].key == k;
    assert g[p] in rs;
    var i :| 0 <= i < |rs| && rs[i] == g[p];
    assert BudgetBar(g, c).x[i] == AtomText(Num(rows[j].month));
  }

  /** The frame the chart works on: the query's rows under the query's
      column names, or the frame it was given. */
  function InputFrame(input: BudgetInput, expenses: seq<ExpenseRow>, year: int): Frame
  {
    match input
    case Username(name) => Frame(RequiredColumns, BudgetQuery(expenses, name, year))
    case GivenFrame(f) => f
  }

  /** `generate_budget_vs_actual_chart`: for a username, a database failure
      gives the error fragment and an empty result the placeholder; then a
      frame lacking required columns gives the missing-columns fragment;
      otherwise the figure holds the two traces of each category of the
      regrouped frame. */
  method GenerateBudgetVsActualChart(input: BudgetInput, expenses: seq<ExpenseRow>, year: int, failure: Option<string>)
    returns (out: ChartOutput)
    ensures input.Username? && failure.Some? ==> out == Html(BudgetError(failure.value))
    ensures input.Username? && failure.None? && BudgetQuery(expenses, input.name, year) == [] ==> out == Html(NoBudgetData)
    ensures input.GivenFrame? || (failure.None? && BudgetQuery(expenses, input.name, year) != []) ==>
      var f := InputFrame(input, expenses, year);
      && (MissingColumns(f.columns) != [] ==> out == Html(MissingMessage(MissingColumns(f.columns))))
      && (MissingColumns(f.columns) == [] ==> out == Plot(BudgetTraces(GroupFrame(f.rows), GroupCategories(GroupFrame(f.rows)))))
  {
    var frame: Frame;
    if input.Username? {
      if failure.Some? {
        return Html(BudgetError(failure.value));
      }
      var rows := BudgetQuery(expenses, input.name, year);
      if rows == [] {
        return Html(NoBudgetData);
      }
      frame := Frame(RequiredColumns, rows);
    } else {
      frame := input.frame;
    }
    var missing := MissingColumns(frame.columns);
    if missing != [] {
      return Html(MissingMessage(missing));
    }
    var grouped := GroupFrame(frame.rows);
    var traces := PlotBudgetVsActual(grouped);
    return Plot(traces);
  }

  /** The figure-building loop: for each category of the grouped frame, in
      order, its budget trace and then its actual trace. */
  method PlotBudgetVsActual(grouped: seq<Row>) returns (traces: seq<Bar>)
    requires Width(grouped, 2)
    ensures traces == BudgetTraces(grouped, GroupCategories(grouped))
  {
    var categories := GroupCategories(grouped);
    var fig := new Figure();
    for i := 0 to |categories|
      invariant fig.traces == BudgetTraces(grouped, categories[..i])
    {
      BudgetTracesSnoc(grouped, categories, i);
      fig.AddTrace(BudgetBar(grouped, categories[i]));
      fig.AddTrace(ActualBar(grouped, categories[i]));
    }
    assert categories[..|categories|] == categories;
    return fig.traces;
  }

  /** Nothing is missing when every required name is a column. */
  lemma {:induction false} NoneAbsent(required: seq<string>, columns: seq<string>)
    requires forall i :: 0 <= i < |required| ==> required[i] in columns
    ensures Absent(required, columns) == []
  {
    if required != [] {
      NoneAbsent(required[..|required| - 1], columns);
    }
  }

  /** The query's own frame always has every required column. */
  lemma QueryFrameComplete(expenses: seq<ExpenseRow>, name: string, year: int)
    ensures MissingColumns(InputFrame(Username(name), expenses, year).columns) == []
  {
    NoneAbsent(RequiredColumns, RequiredColumns);
  }

  // ----- The variance chart

  /** `SUM(actual_amount) - SUM(budget_amount)`: NULL when either is. */
  function Variance(r: FrameRow): Option<int>
  {
    if r.actual.Some? && r.budget.Some? then Some(r.actual.value - r.budget.value) else None
  }

  /** `'red' if var > 0 else 'green'`; a NaN variance compares false. */
  function VarianceColour(v: Option<int>): Colour
  {
    if v.Some? && v.value > 0 then Red else Green
  }

  /** `df[df['category'] == category]`: the rows of category `c`, every one
      of them, in the frame's order. */
  function FrameRowsOf(q: seq<FrameRow>, c: string): (r: seq<FrameRow>)
    ensures forall i :: 0 <= i < |r| ==> r[i].category == c && r[i] in q
    ensures forall x :: x in q && x.category == c ==> x in r
  {
    if q == [] then []
    else
      var init, last := q[..|q| - 1], q[|q| - 1];
      assert q == init + [last];
      FrameRowsOf(init, c) + if last.category == c then [last] else []
  }

  /** The query's order: by month, then by category. */
  predicate QueryOrdered(q: seq<FrameRow>)
  {
    forall i, j :: 0 <= i < j < |q| ==>
      q[i].month < q[j].month || (q[i].month == q[j].month && StrLt(q[i].category, q[j].category))
  }

  predicate MonthsIncrease(r: seq<FrameRow>)
  {
    forall k, l :: 0 <= k < l < |r| ==> r[k].month < r[l].month
  }

  /** In a frame in query order, one category's rows have strictly
      increasing months. */
  lemma {:induction false} FrameRowsOfMonths(q: seq<FrameRow>, c: string)
    requires QueryOrdered(q)
    ensures MonthsIncrease(FrameRowsOf(q, c))
  {
    if q != [] {
      var init, last := q[..|q| - 1], q[|q| - 1];
      assert QueryOrdered(init) by {
        forall i, j | 0 <= i < j < |init|
          ensures init[i].month < init[j].month || (init[i].month == init[j].month && StrLt(init[i].category, init[j].category))
        {
          assert init[i] == q[i] && init[j] == q[j];
        }
      }
      FrameRowsOfMonths(init, c);
      var before := FrameRowsOf(init, c);
      if last.category == c {
        forall k | 0 <= k < |before| ensures before[k].month < last.month {
          var p :| 0 <= p < |init| && init[p] == before[k];
          assert q[p] == before[k];
          SameCategoryOrdered(q, p, |q| - 1);
        }
        MonthsIncreaseSnoc(before, last);
      }
    }
  }

  lemma SameCategoryOrdered(q: seq<FrameRow>, i: nat, j: nat)
    requires QueryOrdered(q) && i < j < |q| && q[i].category == q[j].category
    ensures q[i].month < q[j].month
  {
    StrLtIrreflexive(q[i].category);
  }

  lemma MonthsIncreaseSnoc(r: seq<FrameRow>, x: FrameRow)
    requires MonthsIncrease(r)
    requires forall k :: 0 <= k < |r| ==> r[k].month < x.month
    ensures MonthsIncrease(r + [x])
  {
    var r' := r + [x];
    forall k, l | 0 <= k < l < |r'| ensures r'[k].month < r'[l].month {
      assert r'[k] == r[k];
    }
  }

  function VarianceBar(q: seq<FrameRow>, c: string): (b: Bar)
  {
    var rs := FrameRowsOf(q, c);
    Bar(Title(c),
        seq(|rs|, i requires 0 <= i < |rs| => IntToString(rs[i].month)),
        seq(|rs|, i requires 0 <= i < |rs| => Variance(rs[i])),
        PerBar(seq(|rs|, i requires 0 <= i < |rs| => VarianceColour(Variance(rs[i])))),
        None)
  }

  function VarianceTraces(q: seq<FrameRow>, cs: seq<string>): seq<Bar>
  {
    if cs == [] then [] else VarianceTraces(q, cs[..|cs| - 1]) + [VarianceBar(q, cs[|cs| - 1])]
  }

  function FrameCategories(q: seq<FrameRow>): seq<string>
  {
    Distinct(seq(|q|, i requires 0 <= i < |q| => q[i].category))
  }

  /** One trace per category, named after it, whose bars are coloured red
      exactly when their variance is positive. */
  lemma {:induction false} VarianceTracesShape(q: seq<FrameRow>, cs: seq<string>)
    ensures |VarianceTraces(q, cs)| == |cs|
    ensures forall i :: 0 <= i < |cs| ==>
      && VarianceTraces(q, cs)[i] == VarianceBar(q, cs[i])
      && VarianceTraces(q, cs)[i].name == Title(cs[i])
      && VarianceTraces(q, cs)[i].marker.PerBar?
      && |VarianceTraces(q, cs)[i].marker.colours| == |VarianceTraces(q, cs)[i].y|
      && forall k :: 0 <= k < |VarianceTraces(q, cs)[i].y| ==>
           (VarianceTraces(q, cs)[i].marker.colours[k] == Red <==>
            VarianceTraces(q, cs)[i].y[k].Some? && VarianceTraces(q, cs)[i].y[k].value > 0)
  {
    if cs != [] {
      var init := cs[..|cs| - 1];
      VarianceTracesShape(q, init);
      assert forall i :: 0 <= i < |init| ==> init[i] == cs[i];
    }
  }

  /** The variance trace of category `c` has one bar for each query row of
      `c`, every one of them, in increasing month order; each bar is
      labelled with its row's month and stands at its row's variance. */
  lemma VarianceBars(expenses: seq<ExpenseRow>, user: string, year: int, c: string)
    ensures var q := BudgetQuery(expenses, user, year); var rs := FrameRowsOf(q, c); var b := VarianceBar(q, c);
      && |b.x| == |rs| && |b.y| == |rs|
      && MonthsIncrease(rs)
      && (forall i :: 0 <= i < |q| && q[i].category == c ==> q[i] in rs)
      && (forall k :: 0 <= k < |rs| ==>
            && rs[k] in q && rs[k].category == c
            && b.x[k] == IntToString(rs[k].month)
            && b.y[k] == Variance(rs[k]))
  {
    var q := BudgetQuery(expenses, user, year);
    assert QueryOrdered(q) by {
      BudgetQueryRows(expenses, user, year);
    }
    FrameRowsOfMonths(q, c);
  }

  /** A bar of the variance chart is red exactly when the month's actual
      spending in the category, with at least one actual amount recorded,
      is strictly above its budget; a variance of zero is green. */
  lemma VarianceRedIff(expenses: seq<ExpenseRow>, user: string, year: int, i: nat)
    requires i < |BudgetQuery(expenses, user, year)|
    ensures var r := BudgetQuery(expenses, user, year)[i];
      var actual := SqlSum(ActualTerms(expenses, user, year, r.month, r.category));
      (VarianceColour(Variance(r)) == Red
       <==> actual.Some? && actual.value > Sum(BudgetTerms(expenses, user, year, r.month, r.category)))
  {
    BudgetQueryRows(expenses, user, year);
  }

  /** `generate_monthly_variance_chart`: the error fragment on a database
      failure, the placeholder when the query returns nothing, and otherwise
      one variance trace per category in the order the query first lists it. */
  method GenerateMonthlyVarianceChart(expenses: seq<ExpenseRow>, user: string, year: int, failure: Option<string>)
    returns (out: ChartOutput)
    ensures failure.Some? ==> out == Html(VarianceError(failure.value))
    ensures failure.None? && BudgetQuery(expenses, user, year) == [] ==> out == Html(NoVarianceData)
    ensures failure.None? && BudgetQuery(expenses, user, year) != [] ==>
      var q := BudgetQuery(expenses, user, year);
      out == Plot(VarianceTraces(q, FrameCategories(q)))
  {
    if failure.Some? {
      return Html(VarianceError(failure.value));
    }
    var q := BudgetQuery(expenses, user, year);
    if q == [] {
      return Html(NoVarianceData);
    }
    var categories := FrameCategories(q);
    var fig := new Figure();
    for i := 0 to |categories|
      invariant fig.traces == VarianceTraces(q, categories[..i])
    {
      assert categories[..i + 1][..i] == categories[..i];
      fig.AddTrace(VarianceBar(q, categories[i]));
    }
    assert categories[..|categories|] == categories;
    return Plot(fig.traces);
  }
}
