/** The spreadsheet upload view (core/views/upload.py): a POSTed Excel file
    must have the columns type, amount, date and category; each of its rows
    then becomes one `Transaction` of the requesting user, with its type
    lower-cased, and the view redirects to the dashboard. Any exception on
    the way renders "Upload failed: ..." instead; the rows created before it
    stay in the table.

    As written, the view passes the sheet's note as `note=`, a keyword the
    `Transaction` model does not have, so every row is refused. The model
    keeps both the view as written (`UploadAsWritten`) and the view with the
    note passed as `description` (`UploadCorrected`, implemented by the
    method `UploadExcelView`). */
module Upload {
  import opened Basics
  import opened Text
  import opened Models

  /** A cell of the sheet as pandas reads it: text, a number (held as its
      value in cents and the text `str()` gives it), or an empty cell (NaN). */
  datatype Cell = Str(s: string) | Number(cents: int, repr: string) | Blank

  /** A data frame read from the file: its column labels, and one map per
      row from column label to cell. */
  datatype Sheet = Sheet(columns: seq<string>, rows: seq<map<string, Cell>>)

  /** The request: a GET, or a POST whose form is valid or not and whose
      file pandas could read, or not (with the text of the error it raised). */
  datatype Request = Get | Post(formValid: bool, upload: Result<Sheet, string>)

  datatype Page = Render(message: string) | Redirect(target: string)

  /** Why a row, or the whole file, was refused. */
  datatype Failure =
    | Unreadable(reason: string)      // pd.read_excel raised
    | TypeNotText                     // `row['type'].lower()` on a non-string
    | DateUnparsable                  // pd.to_datetime raised
    | CreateFailed(error: CreateError) // Transaction.objects.create raised

  const RequiredColumns: set<string> := {"type", "amount", "date", "category"}

  /** How the message prints the required set; Python's set order is fixed
      here. */
  const RequiredColumnsText: string := "{'type', 'amount', 'date', 'category'}"

  const MissingColumnsMessage: string := "Missing columns. Required: " + RequiredColumnsText

  const FailurePrefix: string := "Upload failed: "

  /** The keyword the note is passed under: as written, and corrected. */
  const NoteKeyword: string := "note"
  const DescriptionKeyword: string := "description"

  function Describe(f: Failure): string
  {
    match f
    case Unreadable(reason) => reason
    case TypeNotText => "type is not text"
    case DateUnparsable => "date could not be parsed"
    case CreateFailed(UnexpectedKeywords(_)) => "Transaction() got unexpected keyword arguments"
    case CreateFailed(InvalidValue(field)) => "invalid value for " + field
  }

  function FailurePage(f: Failure): Page
  {
    Render(FailurePrefix + Describe(f))
  }

  /** `row[col]` of a frame with that column; a missing key reads as empty. */
  function At(row: map<string, Cell>, col: string): Cell
  {
    if col in row then row[col] else Blank
  }

  /** The value a cell passes as a keyword argument; an empty cell is a
      float NaN, not `None`. */
  function CellValue(c: Cell): Value
  {
    match c
    case Str(s) => Text(s)
    case Number(cents, repr) => Num(cents, repr)
    case Blank => NaN
  }

  /** What a text column stores for a cell: its `str()`, so "nan" for an
      empty cell. */
  function CellText(c: Cell): (t: string)
    ensures CharFieldValue(CellValue(c)) == Some(t)
    ensures c.Blank? ==> t == "nan"
    ensures c.Str? ==> t == c.s
  {
    match c
    case Str(s) => s
    case Number(_, repr) => repr
    case Blank => "nan"
  }

  /** What the `amount` column stores for a cell, in cents: a number as it
      is, a text as the decimal it spells; nothing for an empty cell or a
      text that is not a decimal. */
  function CellAmount(c: Cell): (a: Option<int>)
    ensures a == DecimalFieldValue(CellValue(c))
    ensures c.Number? ==> a == Some(c.cents)
    ensures c.Blank? ==> a.None?
    ensures c.Str? ==> a == DecimalText(c.s)
  {
    match c
    case Str(s) => DecimalText(s)
    case Number(cents, _) => Some(cents)
    case Blank => None
  }

  /** What every row of one upload shares: the requesting user, the day of
      the upload (`date` is `auto_now_add`), the keyword the note is passed
      under, and pandas' `to_datetime`, which is not part of this model. */
  datatype Env = Env(user: string, today: Date, noteKey: string, toDatetime: Cell -> Option<Date>)

  /** The keyword arguments built for one row, in the order Python evaluates
      them: `type` (lower-cased, failing when not a string), `amount`, `date`
      (parsed by `toDatetime`, failing when it cannot be), `category`, and
      `row.get('note', '')` under the note keyword. */
  function RowKwargs(env: Env, columns: seq<string>, row: map<string, Cell>): (r: Result<map<string, Value>, Failure>)
    ensures r.Ok? ==> r.value.Keys == {"type", "amount", "date", "category", env.noteKey}
  {
    var kind := At(row, "type");
    if !kind.Str? then Err(TypeNotText)
    else
      var day := env.toDatetime(At(row, "date"));
      if day.None? then Err(DateUnparsable)
      else
        var note := if "note" in columns then CellValue(At(row, "note")) else Text("");
        Ok(map["type" := Text(Lower(kind.s)), "amount" := CellValue(At(row, "amount")),
               "date" := Day(day.value), "category" := CellValue(At(row, "category")),
               env.noteKey := note])
  }

  /** One row's `Transaction.objects.create(user=user, ...)`. */
  function RowTransaction(env: Env, columns: seq<string>, row: map<string, Cell>): Result<Transaction, Failure>
  {
    match RowKwargs(env, columns, row)
    case Err(f) => Err(f)
    case Ok(kwargs) =>
      match NewTransaction(env.user, env.today, kwargs)
      case Err(e) => Err(CreateFailed(e))
      case Ok(tx) => Ok(tx)
  }

  predicate RowCreated(env: Env, columns: seq<string>, row: map<string, Cell>)
  {
    RowTransaction(env, columns, row).Ok?
  }

  /** What the row loop leaves behind: the transactions created, and the
      failure that stopped it, if any. */
  datatype Imported = Imported(created: seq<Transaction>, failure: Option<Failure>)

  /** What creating each row on its own would give, in row order. */
  function RowResults(env: Env, columns: seq<string>, rows: seq<map<string, Cell>>): (rs: seq<Result<Transaction, Failure>>)
    ensures |rs| == |rows|
    ensures forall i :: 0 <= i < |rows| ==> rs[i] == RowTransaction(env, columns, rows[i])
  {
    seq(|rows|, i requires 0 <= i < |rows| => RowTransaction(env, columns, rows[i]))
  }

  /** The `for _, row in df.iterrows()` loop, given each row's outcome:
      rows are created in order until one fails. */
  function Import(results: seq<Result<Transaction, Failure>>): Imported
  {
    if results == [] then Imported([], None)
    else
      var init := Import(results[..|results| - 1]);
      if init.failure.Some? then init
      else
        match results[|results| - 1]
        case Err(f) => Imported(init.created, Some(f))
        case Ok(tx) => Imported(init.created + [tx], None)
  }

  /** The loop creates the rows' transactions in row order up to the first
      row that fails, and stops there with that row's failure. */
  lemma {:induction false} ImportProperties(results: seq<Result<Transaction, Failure>>)
    ensures var r := Import(results);
      && (r.failure.None? <==> forall i :: 0 <= i < |results| ==> results[i].Ok?)
      && (r.failure.None? ==> |r.created| == |results|)
      && (r.failure.Some? ==>
            && |r.created| < |results|
            && results[|r.created|].Err?
            && r.failure.value == results[|r.created|].error)
      && (forall i :: 0 <= i < |r.created| ==> results[i].Ok? && r.created[i] == results[i].value)
  {
    if results != [] {
      var init, last := results[..|results| - 1], results[|results| - 1];
      ImportProperties(init);
      var ri := Import(init);
      assert forall i :: 0 <= i < |init| ==> init[i] == results[i];
      if ri.failure.None? && last.Ok? {
        assert Import(results).created == ri.created + [last.value];
      }
    }
  }

  /** Once a prefix of the rows has failed, the later rows change nothing. */
  lemma {:induction false} ImportStopsAtFailure(results: seq<Result<Transaction, Failure>>, i: nat)
    requires i <= |results|
    requires Import(results[..i]).failure.Some?
    ensures Import(results) == Import(results[..i])
    decreases |results| - i
  {
    if i < |results| {
      assert results[..|results| - 1][..i] == results[..i];
      ImportStopsAtFailure(results[..|results| - 1], i);
    } else {
      assert results[..i] == results;
    }
  }

  function ColumnSet(columns: seq<string>): set<string>
  {
    set c | c in columns
  }

  /** The page the view returns and the transactions it creates. */
  datatype Outcome = Outcome(page: Page, created: seq<Transaction>)

  /** `upload_excel_view`. A GET or an invalid form renders the empty
      message; an unreadable file renders the failure; a frame without the
      required columns renders the missing-columns message; otherwise the
      rows are imported and the view redirects to the dashboard unless a row
      failed. Rows are created only after the column check has passed. */
  function View(env: Env, request: Request): (o: Outcome)
    ensures o.created != [] ==> request.Post? && request.formValid && request.upload.Ok?
                                && RequiredColumns <= ColumnSet(request.upload.value.columns)
    ensures o.page.Redirect? ==> o.page.target == "dashboard"
  {
    if !request.Post? || !request.formValid then Outcome(Render(""), [])
    else
      match request.upload
      case Err(reason) => Outcome(FailurePage(Unreadable(reason)), [])
      case Ok(sheet) =>
        if !(RequiredColumns <= ColumnSet(sheet.columns)) then Outcome(Render(MissingColumnsMessage), [])
        else
          var r := Import(RowResults(env, sheet.columns, sheet.rows));
          if r.failure.None? then Outcome(Redirect("dashboard"), r.created)
          else Outcome(FailurePage(r.failure.value), r.created)
  }

  /** The view as written: the note goes under `note`. */
  function UploadAsWritten(user: string, today: Date, request: Request, toDatetime: Cell -> Option<Date>): Outcome
  {
    View(Env(user, today, NoteKeyword, toDatetime), request)
  }

  /** The view as intended: the note goes under `description`. */
  function UploadCorrected(user: string, today: Date, request: Request, toDatetime: Cell -> Option<Date>): Outcome
  {
    View(Env(user, today, DescriptionKeyword, toDatetime), request)
  }

  lemma FailurePageIsNotMissingColumns(f: Failure)
    ensures FailurePage(f) != Render(MissingColumnsMessage)
  {
    assert FailurePage(f).message[0] == 'U';
    assert MissingColumnsMessage[0] == 'M';
  }

  /** The missing-columns message is shown exactly when a readable file
      lacks one of the four columns; extra columns such as `note` do not
      matter, and a rejected file creates nothing. */
  lemma MissingColumnsIff(env: Env, sheet: Sheet)
    ensures var o := View(env, Post(true, Ok(sheet)));
      && (o.page == Render(MissingColumnsMessage) <==> !(RequiredColumns <= ColumnSet(sheet.columns)))
      && (o.page == Render(MissingColumnsMessage) ==> o.created == [])
  {
    var o := View(env, Post(true, Ok(sheet)));
    if RequiredColumns <= ColumnSet(sheet.columns) && o.page.Render? {
      var f :| o.page == FailurePage(f);
      FailurePageIsNotMissingColumns(f);
    }
  }

  /** A readable file with the four columns redirects exactly when every row
      is created, and then it has created one transaction per row, in row
      order; otherwise it renders the failure of the first refused row,
      with the rows before it created. */
  lemma RedirectIff(env: Env, sheet: Sheet)
    requires RequiredColumns <= ColumnSet(sheet.columns)
    ensures var o := View(env, Post(true, Ok(sheet)));
      && (o.page.Redirect? <==> forall i :: 0 <= i < |sheet.rows| ==> RowCreated(env, sheet.columns, sheet.rows[i]))
      && (o.page.Redirect? ==> |o.created| == |sheet.rows|)
      && (o.page.Render? ==>
            && |o.created| < |sheet.rows|
            && !RowCreated(env, sheet.columns, sheet.rows[|o.created|])
            && o.page == FailurePage(RowTransaction(env, sheet.columns, sheet.rows[|o.created|]).error))
      && (forall i :: 0 <= i < |o.created| ==>
            && RowCreated(env, sheet.columns, sheet.rows[i])
            && o.created[i] == RowTransaction(env, sheet.columns, sheet.rows[i]).value)
  {
    ImportProperties(RowResults(env, sheet.columns, sheet.rows));
  }

  /** The description a created row stores: the `str()` of the note cell
      ("nan" for an empty one), and "" when the sheet has no note column. */
  function NoteText(columns: seq<string>, row: map<string, Cell>): string
  {
    if "note" !in columns then "" else CellText(At(row, "note"))
  }

  /** With the note passed as `description`, a row is created exactly when
      its type is text, its date parses and its amount is a number or a
      decimal text; the transaction is owned by the user, has the
      lower-cased type, the category's and note's `str()`, the amount's
      value, today's date (`auto_now_add`) and the declared defaults. */
  lemma CorrectedRow(user: string, today: Date, toDatetime: Cell -> Option<Date>,
                     columns: seq<string>, row: map<string, Cell>)
    ensures var r := RowTransaction(Env(user, today, DescriptionKeyword, toDatetime), columns, row);
      && (r.Ok? <==>
            && At(row, "type").Str?
            && toDatetime(At(row, "date")).Some?
            && CellAmount(At(row, "amount")).Some?)
      && (r.Ok? ==> r.value == Transaction(user, Lower(At(row, "type").s), CellText(At(row, "category")),
                                           CellAmount(At(row, "amount")).value, Some(NoteText(columns, row)),
                                           today, false, "single"))
  {
  }

  /** A row with the amount typed as text and empty category and note
      cells is stored with that amount and with "nan" as category and
      description. */
  lemma CorrectedRowConversions(user: string, today: Date, toDatetime: Cell -> Option<Date>)
    requires toDatetime(Str("2025-07-01")).Some?
    ensures RowTransaction(Env(user, today, DescriptionKeyword, toDatetime), TestSheet.columns, TextAmountRow)
         == Ok(Transaction(user, "income", "nan", 5000_00, Some("nan"), today, false, "single"))
  {
    var row := TextAmountRow;
    assert At(row, "type") == Str("Income") && At(row, "date") == Str("2025-07-01");
    assert At(row, "amount") == Str("5000") && At(row, "category") == Blank && At(row, "note") == Blank;
    assert "note" in TestSheet.columns;
    DecimalTextExamples();
    LowerExamples();
    CorrectedRow(user, today, toDatetime, TestSheet.columns, row);
  }

  /** An empty amount cell is NaN, which the `amount` column refuses. */
  lemma BlankAmountRefused(user: string, today: Date, toDatetime: Cell -> Option<Date>)
    requires toDatetime(Str("2025-07-01")).Some?
    ensures RowTransaction(Env(user, today, DescriptionKeyword, toDatetime), TestSheet.columns,
                           TextAmountRow["amount" := Blank])
         == Err(CreateFailed(InvalidValue("amount")))
  {
    var row := TextAmountRow["amount" := Blank];
    assert At(row, "type") == Str("Income") && At(row, "date") == Str("2025-07-01");
    assert At(row, "amount") == Blank;
  }

  /** As written, no row is ever created: `note` is not a field of
      `Transaction`, so every call fails, if not earlier then with a
      TypeError for the unexpected keyword. */
  lemma AsWrittenRowRefused(user: string, today: Date, toDatetime: Cell -> Option<Date>,
                            columns: seq<string>, row: map<string, Cell>)
    ensures var env := Env(user, today, NoteKeyword, toDatetime);
      && !RowCreated(env, columns, row)
      && (RowKwargs(env, columns, row).Ok? ==>
            RowTransaction(env, columns, row) == Err(CreateFailed(UnexpectedKeywords({"note"}))))
  {
    var env := Env(user, today, NoteKeyword, toDatetime);
    var k := RowKwargs(env, columns, row);
    if k.Ok? {
      assert k.value.Keys - FieldNames == {"note"};
    }
  }

  /** As written, a file with the four columns and at least one row always
      renders "Upload failed: ..." and creates nothing. */
  lemma AsWrittenUploadFails(user: string, today: Date, toDatetime: Cell -> Option<Date>, sheet: Sheet)
    requires RequiredColumns <= ColumnSet(sheet.columns) && |sheet.rows| >= 1
    ensures var o := UploadAsWritten(user, today, Post(true, Ok(sheet)), toDatetime);
      o.page.Render? && o.page.message[..|FailurePrefix|] == FailurePrefix && o.created == []
  {
    var env := Env(user, today, NoteKeyword, toDatetime);
    RedirectIff(env, sheet);
    AsWrittenRowRefused(user, today, toDatetime, sheet.columns, sheet.rows[0]);
    var o := UploadAsWritten(user, today, Post(true, Ok(sheet)), toDatetime);
    assert !o.page.Redirect?;
  }

  /** The sheet of the application's upload test: one income row of 5000
      for category Freelance, with a note. */
  const TestSheet: Sheet := Sheet(["type", "amount", "date", "category", "note"],
    [map["type" := Str("income"), "amount" := Number(5000_00, "5000"), "date" := Str("2025-07-01"),
         "category" := Str("Freelance"), "note" := Str("Test upload")]])

  /** A row whose amount cell holds text and whose category and note are
      empty. */
  const TextAmountRow: map<string, Cell> :=
    map["type" := Str("Income"), "amount" := Str("5000"), "date" := Str("2025-07-01"),
        "category" := Blank, "note" := Blank]

  lemma TestSheetColumns()
    ensures RequiredColumns <= ColumnSet(TestSheet.columns) && "note" in TestSheet.columns
  {
    assert "type" in TestSheet.columns && "amount" in TestSheet.columns;
    assert "date" in TestSheet.columns && "category" in TestSheet.columns;
  }

  /** On that sheet the view as written renders the failure instead of
      redirecting, while the corrected view redirects after creating the
      Freelance income. */
  lemma UploadTestExample(user: string, today: Date, toDatetime: Cell -> Option<Date>)
    requires toDatetime(Str("2025-07-01")).Some?
    ensures UploadAsWritten(user, today, Post(true, Ok(TestSheet)), toDatetime)
         == Outcome(FailurePage(CreateFailed(UnexpectedKeywords({"note"}))), [])
    ensures UploadCorrected(user, today, Post(true, Ok(TestSheet)), toDatetime)
         == Outcome(Redirect("dashboard"),
                    [Transaction(user, "income", "Freelance", 5000_00, Some("Test upload"), today, false, "single")])
  {
    TestSheetColumns();
    TestRowOutcomes(user, today, toDatetime);
    TestSheetImport(Env(user, today, NoteKeyword, toDatetime));
    TestSheetImport(Env(user, today, DescriptionKeyword, toDatetime));
  }

  /** The test sheet has one row, so the loop stops or finishes with it. */
  lemma TestSheetImport(env: Env)
    ensures var r := RowTransaction(env, TestSheet.columns, TestSheet.rows[0]);
      Import(RowResults(env, TestSheet.columns, TestSheet.rows))
        == if r.Ok? then Imported([r.value], None) else Imported([], Some(r.error))
  {
    var results := RowResults(env, TestSheet.columns, TestSheet.rows);
    assert results[..0] == [];
  }

  /** The test sheet's one row, created as written and as corrected. */
  lemma TestRowOutcomes(user: string, today: Date, toDatetime: Cell -> Option<Date>)
    requires toDatetime(Str("2025-07-01")).Some?
    ensures RowTransaction(Env(user, today, NoteKeyword, toDatetime), TestSheet.columns, TestSheet.rows[0])
         == Err(CreateFailed(UnexpectedKeywords({"note"})))
    ensures RowTransaction(Env(user, today, DescriptionKeyword, toDatetime), TestSheet.columns, TestSheet.rows[0])
         == Ok(Transaction(user, "income", "Freelance", 5000_00, Some("Test upload"), today, false, "single"))
  {
    var row := TestSheet.rows[0];
    assert At(row, "type") == Str("income") && At(row, "date") == Str("2025-07-01");
    assert At(row, "amount") == Number(5000_00, "5000") && At(row, "category") == Str("Freelance");
    assert At(row, "note") == Str("Test upload");
    assert "note" in TestSheet.columns;
    LowerExamples();
    AsWrittenRowRefused(user, today, toDatetime, TestSheet.columns, row);
    CorrectedRow(user, today, toDatetime, TestSheet.columns, row);
  }

  /** The view, with the note stored as the description: it appends the
      created transactions to `table` one row at a time. */
  method UploadExcelView(table: TransactionTable, user: string, today: Date, request: Request,
                         toDatetime: Cell -> Option<Date>) returns (page: Page)
    modifies table
    ensures page == UploadCorrected(user, today, request, toDatetime).page
    ensures table.rows == old(table.rows) + UploadCorrected(user, today, request, toDatetime).created
  {
    var env := Env(user, today, DescriptionKeyword, toDatetime);
    page := Render("");
    if request.Post? && request.formValid {
      match request.upload
      case Err(reason) =>
        page := FailurePage(Unreadable(reason));
      case Ok(sheet) =>
        if !(RequiredColumns <= ColumnSet(sheet.columns)) {
          page := Render(MissingColumnsMessage);
        } else {
          var rows := sheet.rows;
          var failed: Option<Failure> := None;
          var i := 0;
          ghost var results := RowResults(env, sheet.columns, rows);
          assert results[..0] == [];
          while i < |rows| && failed.None?
            invariant 0 <= i <= |rows|
            invariant table.rows == old(table.rows) + Import(results[..i]).created
            invariant failed == Import(results[..i]).failure
          {
            assert results[..i + 1][..i] == results[..i];
            var kwargs := RowKwargs(env, sheet.columns, rows[i]);
            if kwargs.Err? {
              failed := Some(kwargs.error);
            } else {
              var r := table.Create(user, today, kwargs.value);
              if r.Err? {
                failed := Some(CreateFailed(r.error));
              }
            }
            i := i + 1;
          }
          if failed.None? {
            assert results[..i] == results;
            page := Redirect("dashboard");
          } else {
            ImportStopsAtFailure(results, i);
            page := FailurePage(failed.value);
          }
        }
    }
  }
}
