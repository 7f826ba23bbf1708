/** `generate_monthly_income_vs_expense` (core/charts/income_expenses.py):
    the user's transactions bucketed by the year-month of their date, summed
    per (month, type), unstacked with missing cells filled with 0, and drawn
    as an Income and an Expense bar series when those types occur. */
module IncomeChart {
  import opened Basics
  import opened Text
  import opened Grouping
  import opened Models
  import opened Figures

  const NoChartData: string := "<p>No data for chart.</p>"

  /** `pd.to_datetime(date).dt.to_period('M').astype(str)`: "YYYY-MM". */
  function MonthBucket(d: Date): (s: string)
    requires ValidDate(d)
    ensures |s| == 7 && s[4] == '-'
    ensures AllDigits(s[..4]) && AllDigits(s[5..])
  {
    var s := PadDigits(d.year, 4) + "-" + PadDigits(d.month, 2);
    assert s[..4] == PadDigits(d.year, 4) && s[5..] == PadDigits(d.month, 2);
    s
  }

  /** The bucket reads back as the date's year and month. */
  lemma MonthBucketValue(d: Date)
    requires ValidDate(d)
    ensures DecimalValue(MonthBucket(d)[..4]) == d.year
    ensures DecimalValue(MonthBucket(d)[5..]) == d.month
  {
    var s := MonthBucket(d);
    assert s[..4] == PadDigits(d.year, 4) && s[5..] == PadDigits(d.month, 2);
    PadDigitsValue(d.year, 4);
    PadDigitsValue(d.month, 2);
  }

  lemma MonthBucketExample()
    ensures MonthBucket(Date(2025, 7, 14)) == "2025-07"
  {
    assert Pow10(1) == 10 && Pow10(2) == 100 && Pow10(3) == 1000 && Pow10(4) == 10000;
    assert DigitChar(0) == '0' && DigitChar(2) == '2' && DigitChar(5) == '5' && DigitChar(7) == '7';
    assert PadDigits(2, 1) == "2";
    assert PadDigits(20, 2) == "20";
    assert PadDigits(202, 3) == "202";
    assert PadDigits(2025, 4) == "2025";
    assert PadDigits(0, 1) == "0";
    assert PadDigits(7, 2) == "07";
  }

  /** Comparing two strings of equal length extended by one character each. */
  lemma {:induction false} StrLtSnoc(x: string, c: char, y: string, e: char)
    requires |x| == |y|
    ensures StrLt(x + [c], y + [e]) <==> StrLt(x, y) || (x == y && c < e)
  {
    if x == [] {
      assert x + [c] == [c] && y + [e] == [e];
      assert [c][1..] == [] && [e][1..] == [];
    } else {
      assert (x + [c])[1..] == x[1..] + [c] && (y + [e])[1..] == y[1..] + [e];
      StrLtSnoc(x[1..], c, y[1..], e);
      if x[0] == y[0] && x[1..] == y[1..] {
        assert x == [x[0]] + x[1..] && y == [y[0]] + y[1..];
      }
    }
  }

  /** Comparing two strings of equal length followed by anything. */
  lemma {:induction false} StrLtAppend(a: string, s: string, b: string, t: string)
    requires |a| == |b|
    ensures StrLt(a + s, b + t) <==> StrLt(a, b) || (a == b && StrLt(s, t))
  {
    if a == [] {
      assert a + s == s && b + t == t;
    } else {
      assert (a + s)[1..] == a[1..] + s && (b + t)[1..] == b[1..] + t;
      StrLtAppend(a[1..], s, b[1..], t);
      if a[0] == b[0] && a[1..] == b[1..] {
        assert a == [a[0]] + a[1..] && b == [b[0]] + b[1..];
      }
    }
  }

  /** Zero-padded numbers of one width compare as strings as they compare
      as numbers. */
  lemma {:induction false} PadDigitsOrder(m: nat, n: nat, width: nat)
    requires m < Pow10(width) && n < Pow10(width)
    ensures StrLt(PadDigits(m, width), PadDigits(n, width)) <==> m < n
    ensures PadDigits(m, width) == PadDigits(n, width) <==> m == n
  {
    if width == 0 {
      assert m == 0 && n == 0;
    } else {
      PadDigitsOrder(m / 10, n / 10, width - 1);
      StrLtSnoc(PadDigits(m / 10, width - 1), DigitChar(m % 10), PadDigits(n / 10, width - 1), DigitChar(n % 10));
      if PadDigits(m, width) == PadDigits(n, width) {
        PadDigitsValue(m, width);
        PadDigitsValue(n, width);
      }
    }
  }

  /** Month buckets sort chronologically, and two dates share a bucket
      exactly when they share year and month. */
  lemma MonthBucketOrder(d: Date, e: Date)
    requires ValidDate(d) && ValidDate(e)
    ensures StrLt(MonthBucket(d), MonthBucket(e)) <==> d.year < e.year || (d.year == e.year && d.month < e.month)
    ensures MonthBucket(d) == MonthBucket(e) <==> d.year == e.year && d.month == e.month
  {
    assert Pow10(4) == 10000 && Pow10(2) == 100;
    var yd, ye := PadDigits(d.year, 4), PadDigits(e.year, 4);
    var md, me := PadDigits(d.month, 2), PadDigits(e.month, 2);
    PadDigitsOrder(d.year, e.year, 4);
    PadDigitsOrder(d.month, e.month, 2);
    assert MonthBucket(d) == yd + ("-" + md) && MonthBucket(e) == ye + ("-" + me);
    StrLtAppend(yd, "-" + md, ye, "-" + me);
    StrLtAppend("-", md, "-", me);
    StrLtIrreflexive("-");
    if MonthBucket(d) == MonthBucket(e) {
      assert MonthBucket(d)[..4] == yd && MonthBucket(e)[..4] == ye;
      assert MonthBucket(d)[5..] == md && MonthBucket(e)[5..] == me;
    }
  }

  predicate ValidDates(txs: seq<Transaction>)
  {
    forall i :: 0 <= i < |txs| ==> ValidDate(txs[i].date)
  }

  /** Each transaction as a grouping row keyed by (month bucket, type). */
  function BucketRows(txs: seq<Transaction>): (rows: seq<Row>)
    requires ValidDates(txs)
    ensures |rows| == |txs| && Width(rows, 1)
  {
    seq(|txs|, i requires 0 <= i < |txs| && ValidDates(txs) =>
      Row(Key(Txt(MonthBucket(txs[i].date)), txs[i].kind), [txs[i].amount]))
  }

  /** `df.groupby(['month', 'type'])['amount'].sum()`. */
  function MonthTypeSums(txs: seq<Transaction>): seq<Row>
    requires ValidDates(txs)
  {
    GroupSum(BucketRows(txs), 1)
  }

  /** The rows of the unstacked summary: the distinct months, ascending. */
  function Months(txs: seq<Transaction>): seq<Atom>
    requires ValidDates(txs)
  {
    var g := MonthTypeSums(txs);
    SortedUnique(seq(|g|, i requires 0 <= i < |g| => g[i].key.major))
  }

  /** One cell of the unstacked summary; `fill_value=0` for a missing pair. */
  function Cell(txs: seq<Transaction>, month: Atom, kind: string): int
    requires ValidDates(txs)
  {
    Lookup(MonthTypeSums(txs), Key(month, kind), 0)
  }

  /** The amounts of `kind` in the month bucket `month`, added up. */
  function MonthTypeTotal(txs: seq<Transaction>, month: string, kind: string): int
    requires ValidDates(txs)
  {
    if txs == [] then 0
    else
      var last := txs[|txs| - 1];
      MonthTypeTotal(txs[..|txs| - 1], month, kind)
      + (if MonthBucket(last.date) == month && last.kind == kind then last.amount else 0)
  }

  lemma {:induction false} BucketRowsSum(txs: seq<Transaction>, month: string, kind: string)
    requires ValidDates(txs)
    ensures ColSum(BucketRows(txs), Key(Txt(month), kind), 0) == MonthTypeTotal(txs, month, kind)
  {
    if txs != [] {
      var init := txs[..|txs| - 1];
      assert BucketRows(txs)[..|txs| - 1] == BucketRows(init);
      BucketRowsSum(init, month, kind);
    }
  }

  /** Each month appears once, ascending, and the months are those of the
      transactions; each cell is the sum of the matching amounts, and 0 when
      no transaction of that type falls in that month. */
  lemma SummaryProperties(txs: seq<Transaction>)
    requires ValidDates(txs)
    ensures forall i, j :: 0 <= i < j < |Months(txs)| ==> AtomLt(Months(txs)[i], Months(txs)[j])
    ensures forall m :: m in Months(txs) <==> exists i :: 0 <= i < |txs| && m == Txt(MonthBucket(txs[i].date))
    ensures forall m, k :: Cell(txs, Txt(m), k) == MonthTypeTotal(txs, m, k)
    ensures forall m, k :: (forall i :: 0 <= i < |txs| ==> !(MonthBucket(txs[i].date) == m && txs[i].kind == k))
                           ==> Cell(txs, Txt(m), k) == 0
  {
    var rows := BucketRows(txs);
    var g := MonthTypeSums(txs);
    GroupSumProperties(rows, 1);
    var majors := seq(|g|, i requires 0 <= i < |g| => g[i].key.major);
    SortedUniqueProperties(majors);
    forall m ensures m in Months(txs) <==> exists i :: 0 <= i < |txs| && m == Txt(MonthBucket(txs[i].date)) {
      if m in majors {
        var p :| 0 <= p < |g| && majors[p] == m;
        assert g[p].key in Keys(g);
        var i :| 0 <= i < |rows| && rows[i].key == g[p].key;
      }
      if exists i :: 0 <= i < |txs| && m == Txt(MonthBucket(txs[i].date)) {
        var i :| 0 <= i < |txs| && m == Txt(MonthBucket(txs[i].date));
        assert rows[i].key in Keys(rows);
        var p :| 0 <= p < |g| && g[p].key == rows[i].key;
        assert majors[p] == m;
      }
    }
    forall m, k ensures Cell(txs, Txt(m), k) == MonthTypeTotal(txs, m, k) {
      BucketRowsSum(txs, m, k);
    }
    forall m, k | forall i :: 0 <= i < |txs| ==> !(MonthBucket(txs[i].date) == m && txs[i].kind == k)
      ensures Cell(txs, Txt(m), k) == 0
    {
      MonthTypeTotalAbsent(txs, m, k);
    }
  }

  lemma {:induction false} MonthTypeTotalAbsent(txs: seq<Transaction>, m: string, k: string)
    requires ValidDates(txs)
    requires forall i :: 0 <= i < |txs| ==> !(MonthBucket(txs[i].date) == m && txs[i].kind == k)
    ensures MonthTypeTotal(txs, m, k) == 0
  {
    if txs != [] {
      MonthTypeTotalAbsent(txs[..|txs| - 1], m, k);
    }
  }

  predicate HasType(txs: seq<Transaction>, kind: string)
  {
    exists i :: 0 <= i < |txs| && txs[i].kind == kind
  }

  /** One series of the chart: the months and the `kind` column. */
  function Series(txs: seq<Transaction>, name: string, kind: string): Bar
    requires ValidDates(txs)
  {
    var months := Months(txs);
    Bar(name,
        seq(|months|, i requires 0 <= i < |months| => AtomText(months[i])),
        seq(|months|, i requires 0 <= i < |months| => Some(Cell(txs, months[i], kind))),
        DefaultMarker, None)
  }

  /** `generate_monthly_income_vs_expense` over the user's transactions. */
  function GenerateMonthlyIncomeVsExpense(txs: seq<Transaction>): (out: ChartOutput)
    requires ValidDates(txs)
    ensures txs == [] <==> out == Html(NoChartData)
    ensures out.Plot? ==>
      && |out.traces| == (if HasType(txs, "income") then 1 else 0) + (if HasType(txs, "expense") then 1 else 0)
      && (HasType(txs, "income") ==> out.traces[0] == Series(txs, "Income", "income"))
      && (HasType(txs, "expense") ==> out.traces[|out.traces| - 1] == Series(txs, "Expense", "expense"))
  {
    if txs == [] then Html(NoChartData)
    else
      Plot((if HasType(txs, "income") then [Series(txs, "Income", "income")] else [])
         + (if HasType(txs, "expense") then [Series(txs, "Expense", "expense")] else []))
  }

  /** A type is a column of the unstacked summary exactly when some
      transaction has it, so each series is drawn exactly when its type
      occurs; the Income series comes first. */
  lemma TypeColumns(txs: seq<Transaction>, kind: string)
    requires ValidDates(txs)
    ensures HasType(txs, kind) <==> exists i :: 0 <= i < |MonthTypeSums(txs)| && MonthTypeSums(txs)[i].key.minor == kind
  {
    var rows := BucketRows(txs);
    var g := MonthTypeSums(txs);
    GroupSumProperties(rows, 1);
    if HasType(txs, kind) {
      var i :| 0 <= i < |txs| && txs[i].kind == kind;
      assert rows[i].key in Keys(rows);
      var p :| 0 <= p < |g| && g[p].key == rows[i].key;
    }
    if exists p :: 0 <= p < |g| && g[p].key.minor == kind {
      var p :| 0 <= p < |g| && g[p].key.minor == kind;
      assert g[p].key in Keys(g);
      var i :| 0 <= i < |rows| && rows[i].key == g[p].key;
      assert txs[i].kind == kind;
    }
  }
}
