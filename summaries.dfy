/** The per-type summaries of the dashboards (core/views/dashboard.py and
    core/views.py): `summarize_transactions`, the defaults overwritten by the
    ORM's per-type totals, the four-key context summary, and the
    income / expense / saving figures the DuckDB summary query computes. */
module Summaries {
  import opened Basics
  import opened Models
  import opened AnalyticStore

  /** The keys of `summarize_transactions`' result. */
  const SummaryKeys: set<string> := {"income", "expense", "saving", "investment", "debt", "loan"}

  /** The keys of the dashboard summary. */
  const DashboardKeys: set<string> := {"income", "expense", "saving", "investment"}

  /** Sum of the amounts of the transactions of type `kind`. */
  function TypeTotal(txs: seq<Transaction>, kind: string): int
  {
    if txs == [] then 0
    else
      var last := txs[|txs| - 1];
      TypeTotal(txs[..|txs| - 1], kind) + (if last.kind == kind then last.amount else 0)
  }

  /** Sum of all amounts. */
  function Total(txs: seq<Transaction>): int
  {
    if txs == [] then 0 else Total(txs[..|txs| - 1]) + txs[|txs| - 1].amount
  }

  /** `summarize_transactions(user)` over `txs`, the user's transactions
      (`Transaction.objects.filter(user=user)`, which is `OwnedBy`): one total
      per key of `SummaryKeys`, starting from 0; a transaction of any other
      type raises `KeyError`, reported here as `Err` with that type. */
  method SummarizeTransactions(txs: seq<Transaction>) returns (r: Result<map<string, int>, string>)
    ensures r.Ok? <==> forall i :: 0 <= i < |txs| ==> txs[i].kind in SummaryKeys
    ensures r.Ok? ==> r.value.Keys == SummaryKeys
    ensures r.Ok? ==> forall k :: k in r.value ==> r.value[k] == TypeTotal(txs, k)
    ensures r.Err? ==> r.error !in SummaryKeys
    ensures r.Err? ==> exists i :: 0 <= i < |txs| && txs[i].kind == r.error
                                && forall j :: 0 <= j < i ==> txs[j].kind in SummaryKeys
  {
    var summary := map["income" := 0, "expense" := 0, "saving" := 0,
                       "investment" := 0, "debt" := 0, "loan" := 0];
    assert txs[..0] == [];
    var i := 0;
    while i < |txs|
      invariant 0 <= i <= |txs|
      invariant summary.Keys == SummaryKeys
      invariant forall k :: k in summary ==> summary[k] == TypeTotal(txs[..i], k)
      invariant forall j :: 0 <= j < i ==> txs[j].kind in summary
    {
      var tx := txs[i];
      if tx.kind !in summary {
        assert txs[i].kind !in SummaryKeys;
        assert forall j :: 0 <= j < i ==> txs[j].kind in SummaryKeys;
        assert !(forall j :: 0 <= j < |txs| ==> txs[j].kind in SummaryKeys);
        return Err(tx.kind);
      }
      ghost var before := summary;
      summary := summary[tx.kind := summary[tx.kind] + tx.amount];
      SummaryStep(before, summary, txs, i);
      i := i + 1;
    }
    assert txs[..i] == txs;
    return Ok(summary);
  }

  /** Adding transaction `i` to its own type's total extends the totals of
      `txs[..i]` to the totals of `txs[..i + 1]`. */
  lemma SummaryStep(summary: map<string, int>, next: map<string, int>, txs: seq<Transaction>, i: nat)
    requires i < |txs| && txs[i].kind in summary
    requires forall k :: k in summary ==> summary[k] == TypeTotal(txs[..i], k)
    requires next == summary[txs[i].kind := summary[txs[i].kind] + txs[i].amount]
    ensures forall k :: k in next ==> next[k] == TypeTotal(txs[..i + 1], k)
  {
    assert txs[..i + 1][..i] == txs[..i];
  }

  lemma {:induction false} TypeTotalAppend(a: seq<Transaction>, b: seq<Transaction>, kind: string)
    ensures TypeTotal(a + b, kind) == TypeTotal(a, kind) + TypeTotal(b, kind)
    decreases |b|
  {
    if b == [] {
      assert a + b == a;
    } else {
      assert (a + b)[..|a + b| - 1] == a + b[..|b| - 1];
      TypeTotalAppend(a, b[..|b| - 1], kind);
    }
  }

  /** The totals do not depend on the order in which the transactions come. */
  lemma {:induction false} TypeTotalOrderIndependent(a: seq<Transaction>, b: seq<Transaction>, kind: string)
    requires multiset(a) == multiset(b)
    ensures TypeTotal(a, kind) == TypeTotal(b, kind)
    decreases |a|
  {
    if a != [] {
      var k := MatchLast(a, b);
      TypeTotalOrderIndependent(a[..|a| - 1], b[..k] + b[k + 1..], kind);
      TypeTotalRemove(b, k, kind);
    }
  }

  /** Taking one transaction out of a sequence takes its amount out of its
      type's total. */
  lemma TypeTotalRemove(b: seq<Transaction>, k: nat, kind: string)
    requires k < |b|
    ensures TypeTotal(b, kind) == TypeTotal(b[..k] + b[k + 1..], kind) + (if b[k].kind == kind then b[k].amount else 0)
  {
    var b1, b2 := b[..k], b[k + 1..];
    assert b == (b1 + [b[k]]) + b2;
    TypeTotalAppend(b1 + [b[k]], b2, kind);
    TypeTotalAppend(b1, b2, kind);
    assert (b1 + [b[k]])[..|b1|] == b1;
  }

  /** When every type is one of the six keys, the six totals add up to the
      total amount. */
  lemma {:induction false} SummaryAddsUp(txs: seq<Transaction>)
    requires forall i :: 0 <= i < |txs| ==> txs[i].kind in SummaryKeys
    ensures TypeTotal(txs, "income") + TypeTotal(txs, "expense") + TypeTotal(txs, "saving")
          + TypeTotal(txs, "investment") + TypeTotal(txs, "debt") + TypeTotal(txs, "loan")
         == Total(txs)
  {
    if txs != [] {
      SummaryAddsUp(txs[..|txs| - 1]);
    }
  }

  lemma {:induction false} TypeTotalAbsent(txs: seq<Transaction>, kind: string)
    requires forall i :: 0 <= i < |txs| ==> txs[i].kind != kind
    ensures TypeTotal(txs, kind) == 0
  {
    if txs != [] {
      TypeTotalAbsent(txs[..|txs| - 1], kind);
    }
  }

  /** One row of `values('type').annotate(total=Sum('amount'))`. */
  datatype TypeTotalRow = TypeTotalRow(kind: string, total: int)

  function Kinds(txs: seq<Transaction>): seq<string>
  {
    seq(|txs|, i requires 0 <= i < |txs| => txs[i].kind)
  }

  /** The ORM's per-type totals: one row per type present, with its sum. The
      row order is the database's; first occurrence is used here, and nothing
      below depends on it. */
  function TotalsByType(txs: seq<Transaction>): seq<TypeTotalRow>
  {
    var kinds := Distinct(Kinds(txs));
    seq(|kinds|, i requires 0 <= i < |kinds| => TypeTotalRow(kinds[i], TypeTotal(txs, kinds[i])))
  }

  /** Successive `summary[row.type] = row.total` assignments over `m`. */
  function Overlay(m: map<string, int>, totals: seq<TypeTotalRow>): map<string, int>
  {
    if totals == [] then m
    else
      var last := totals[|totals| - 1];
      Overlay(m, totals[..|totals| - 1])[last.kind := last.total]
  }

  /** The loop of `dashboard_view` (core/views/dashboard.py) that writes the
      per-type totals over the four zero defaults. */
  method OverwriteDefaults(totals: seq<TypeTotalRow>) returns (summary: map<string, int>)
    ensures summary == Overlay(map["income" := 0, "expense" := 0, "saving" := 0, "investment" := 0], totals)
  {
    summary := map["income" := 0, "expense" := 0, "saving" := 0, "investment" := 0];
    for i := 0 to |totals|
      invariant summary == Overlay(map["income" := 0, "expense" := 0, "saving" := 0, "investment" := 0], totals[..i])
    {
      assert totals[..i + 1][..i] == totals[..i];
      summary := summary[totals[i].kind := totals[i].total];
    }
    assert totals[..|totals|] == totals;
  }

  /** Over rows with distinct types, the overlay holds each row's total under
      its type and leaves every other key as it was. */
  lemma {:induction false} OverlayDistinct(m: map<string, int>, totals: seq<TypeTotalRow>, k: string)
    requires forall i, j :: 0 <= i < j < |totals| ==> totals[i].kind != totals[j].kind
    ensures k in Overlay(m, totals) <==> k in m || exists i :: 0 <= i < |totals| && totals[i].kind == k
    ensures forall i :: 0 <= i < |totals| && totals[i].kind == k ==> Overlay(m, totals)[k] == totals[i].total
    ensures (forall i :: 0 <= i < |totals| ==> totals[i].kind != k) && k in m ==> Overlay(m, totals)[k] == m[k]
  {
    if totals != [] {
      var init := totals[..|totals| - 1];
      OverlayDistinct(m, init, k);
      assert forall i :: 0 <= i < |init| ==> init[i] == totals[i];
    }
  }

  /** The rows of `TotalsByType` have distinct types, and each carries the
      sum of its type. */
  lemma TotalsByTypeRows(txs: seq<Transaction>, k: string)
    ensures forall i, j :: 0 <= i < j < |TotalsByType(txs)| ==> TotalsByType(txs)[i].kind != TotalsByType(txs)[j].kind
    ensures (exists i :: 0 <= i < |TotalsByType(txs)| && TotalsByType(txs)[i].kind == k)
        <==> (exists i :: 0 <= i < |txs| && txs[i].kind == k)
    ensures forall i :: 0 <= i < |TotalsByType(txs)| ==> TotalsByType(txs)[i].total == TypeTotal(txs, TotalsByType(txs)[i].kind)
  {
    var kinds := Distinct(Kinds(txs));
    DistinctElements(Kinds(txs));
    var t := TotalsByType(txs);
    if exists i :: 0 <= i < |txs| && txs[i].kind == k {
      var i :| 0 <= i < |txs| && txs[i].kind == k;
      assert Kinds(txs)[i] == k;
      assert k in Kinds(txs);
      assert k in kinds;
      var j :| 0 <= j < |kinds| && kinds[j] == k;
      assert t[j].kind == k;
    }
    if exists i :: 0 <= i < |t| && t[i].kind == k {
      var i :| 0 <= i < |t| && t[i].kind == k;
      assert kinds[i] in Kinds(txs);
    }
  }

  /** After the overwrite loop, each of the four keys holds the total of its
      type, which is 0 for a type without transactions; other types present
      (debt, loan) are added as keys of their own. */
  lemma DashboardDefaultsOverwritten(txs: seq<Transaction>, k: string)
    ensures var s := Overlay(map["income" := 0, "expense" := 0, "saving" := 0, "investment" := 0], TotalsByType(txs));
      && (k in s <==> k in DashboardKeys || exists i :: 0 <= i < |txs| && txs[i].kind == k)
      && (k in s ==> s[k] == TypeTotal(txs, k))
  {
    var defaults := map["income" := 0, "expense" := 0, "saving" := 0, "investment" := 0];
    var t := TotalsByType(txs);
    TotalsByTypeRows(txs, k);
    OverlayDistinct(defaults, t, k);
    if forall i :: 0 <= i < |txs| ==> txs[i].kind != k {
      TypeTotalAbsent(txs, k);
    }
  }

  /** The context summary of `dashboard_view` (core/views.py): the per-type
      totals as a dict, read back with `.get(key, 0)` for the four keys. */
  function ContextSummary(totals: seq<TypeTotalRow>): (r: map<string, int>)
    ensures r.Keys == DashboardKeys
  {
    var byType := Overlay(map[], totals);
    map k | k in DashboardKeys :: if k in byType then byType[k] else 0
  }

  /** Exactly the four keys, each the total of its type (0 when the type has
      no transaction); debt and loan never show. */
  lemma ContextSummaryIsTypeTotals(txs: seq<Transaction>)
    ensures ContextSummary(TotalsByType(txs)) == map k | k in DashboardKeys :: TypeTotal(txs, k)
    ensures "debt" !in ContextSummary(TotalsByType(txs)) && "loan" !in ContextSummary(TotalsByType(txs))
  {
    var t := TotalsByType(txs);
    forall k | k in DashboardKeys
      ensures ContextSummary(t)[k] == TypeTotal(txs, k)
    {
      TotalsByTypeRows(txs, k);
      OverlayDistinct(map[], t, k);
      if forall i :: 0 <= i < |txs| ==> txs[i].kind != k {
        TypeTotalAbsent(txs, k);
      }
    }
  }

  /** `income_after_tax + additional_income` of each `income` row of the
      user in the period; NULL when `additional_income` is NULL. */
  function IncomeTerms(incomes: seq<IncomeRow>, user: string, month: int, year: int): seq<Option<int>>
  {
    if incomes == [] then []
    else
      var r := incomes[|incomes| - 1];
      IncomeTerms(incomes[..|incomes| - 1], user, month, year)
      + if r.username == user && r.month == month && r.year == year
        then [if r.additionalIncome.Some? then Some(r.incomeAfterTax + r.additionalIncome.value) else None]
        else []
  }

  /** `actual_amount` of each `user_expenses` row of the user in the period. */
  function ExpenseTerms(expenses: seq<ExpenseRow>, user: string, month: int, year: int): seq<Option<int>>
  {
    if expenses == [] then []
    else
      var r := expenses[|expenses| - 1];
      ExpenseTerms(expenses[..|expenses| - 1], user, month, year)
      + if r.username == user && r.month == month && r.year == year then [r.actualAmount] else []
  }

  datatype SummaryRow = SummaryRow(income: int, expense: int, saving: int)

  /** The DuckDB summary query (`fetchone()` of a CROSS JOIN of two one-row
      aggregates): `COALESCE(SUM(...), 0)` for income and expense, and their
      difference, unclamped, for saving. It always yields a row. */
  function SummaryQuery(incomes: seq<IncomeRow>, expenses: seq<ExpenseRow>, user: string, month: int, year: int): (row: Option<SummaryRow>)
    ensures row.Some?
    ensures row.value.income == SumPresent(IncomeTerms(incomes, user, month, year))
    ensures row.value.expense == SumPresent(ExpenseTerms(expenses, user, month, year))
    ensures row.value.saving == row.value.income - row.value.expense
  {
    var income := Coalesce(SqlSum(IncomeTerms(incomes, user, month, year)), 0);
    var expense := Coalesce(SqlSum(ExpenseTerms(expenses, user, month, year)), 0);
    CoalesceSqlSum(IncomeTerms(incomes, user, month, year));
    CoalesceSqlSum(ExpenseTerms(expenses, user, month, year));
    Some(SummaryRow(income, expense, income - expense))
  }

  /** The summary dict the dashboard renders: the query's three figures (0
      each when no row came back) and an investment that is always 0. */
  function DashboardSummary(row: Option<SummaryRow>): (s: map<string, int>)
    ensures s.Keys == DashboardKeys
    ensures s["investment"] == 0
    ensures row.None? ==> s["income"] == 0 && s["expense"] == 0 && s["saving"] == 0
    ensures row.Some? ==> (s["income"] == row.value.income && s["expense"] == row.value.expense
                           && s["saving"] == row.value.saving)
  {
    map["income" := if row.Some? then row.value.income else 0,
        "expense" := if row.Some? then row.value.expense else 0,
        "saving" := if row.Some? then row.value.saving else 0,
        "investment" := 0]
  }

  /** Saving is not clamped: spending more than the income makes it negative. */
  lemma SavingCanBeNegative(d: Date)
    ensures var s := DashboardSummary(SummaryQuery(
        [IncomeRow("lydia", d, 1, 2025, 1000_00, Some(0), None)],
        [ExpenseRow("lydia", "rent", d, 1, 2025, 800_00, Some(1500_00))], "lydia", 1, 2025));
      s["saving"] == -500_00 && s["income"] == 1000_00 && s["expense"] == 1500_00
  {
    var incomes := [IncomeRow("lydia", d, 1, 2025, 1000_00, Some(0), None)];
    var expenses := [ExpenseRow("lydia", "rent", d, 1, 2025, 800_00, Some(1500_00))];
    assert incomes[..0] == [] && expenses[..0] == [];
    assert IncomeTerms(incomes, "lydia", 1, 2025) == [Some(1000_00)];
    assert ExpenseTerms(expenses, "lydia", 1, 2025) == [Some(1500_00)];
    assert [Some(1000_00)][..0] == [] && [Some(1500_00)][..0] == [];
  }
}
