/** The application's ORM models (core/models.py): a `Transaction` of the
    user-facing ledger and a savings `Goal`, how a Transaction is built from
    keyword arguments (with its declared defaults), the table that
    `Transaction.objects.create` appends to, and `Transaction.__str__`.
    Amounts are `DecimalField(decimal_places=2)` values, held as integer cents. */
module Models {
  import opened Basics
  import opened Text

  datatype Date = Date(year: int, month: int, day: int)

  /** The dates Python's `datetime.date` can hold. */
  predicate ValidDate(d: Date)
  {
    1 <= d.year <= 9999 && 1 <= d.month <= 12 && 1 <= d.day <= 31
  }

  /** One row of the ledger. `kind` is the `type` column, `owner` the
      username of the owning user; `date` is `auto_now_add`. */
  datatype Transaction = Transaction(
    owner: string,
    kind: string,
    category: string,
    amount: int,
    description: Option<string>,
    date: Date,
    isRecurring: bool,
    householdType: string)

  datatype Goal = Goal(
    owner: string,
    name: string,
    targetAmount: int,
    currentAmount: int,
    dueDate: Date,
    goalType: string)

  /** The declared `choices` of `type` and `household_type`. Django does not
      check choices when a row is created. */
  const TypeChoices: seq<string> := ["income", "expense", "saving", "investment"]
  const HouseholdChoices: seq<string> := ["single", "couple", "family"]

  /** A `DecimalField(max_digits, decimal_places=2)` holds an amount of
      `cents` when it has at most `maxDigits` digits in all. */
  predicate FitsDecimalField(cents: int, maxDigits: nat)
  {
    -(Pow10(maxDigits) as int) < cents < Pow10(maxDigits)
  }

  /** `Transaction.amount` (10 digits, 2 of them decimals) holds exactly the
      amounts whose integer part has at most 8 digits, i.e. |amount| < 10^8. */
  lemma TransactionAmountBound(cents: int)
    ensures FitsDecimalField(cents, 10) <==> -100_000_000_00 < cents < 100_000_000_00
    ensures FitsDecimalField(cents, 10) <==>
      |NatToDecimal((if cents < 0 then -cents else cents) / 100)| <= 8
  {
    var a := if cents < 0 then -cents else cents;
    assert Pow10(8) == 100_000_000;
    assert Pow10(10) == 100 * Pow10(8);
    DecimalLength(a / 100, 7);
  }

  /** A `Goal` amount (12 digits) holds every amount a `Transaction` can. */
  lemma GoalAmountsHoldTransactionAmounts(cents: int)
    requires FitsDecimalField(cents, 10)
    ensures FitsDecimalField(cents, 12)
  {
    assert Pow10(12) == 100 * Pow10(10);
  }

  /** A `Goal` created without `current_amount` starts at 0. */
  function NewGoal(owner: string, name: string, target: int, due: Date, goalType: string,
                   currentAmount: Option<int>): (g: Goal)
    ensures currentAmount.None? ==> g.currentAmount == 0
    ensures currentAmount.Some? ==> g.currentAmount == currentAmount.value
    ensures g.targetAmount == target && g.owner == owner
  {
    Goal(owner, name, target, Coalesce(currentAmount, 0), due, goalType)
  }

  /** A keyword-argument value passed to `Transaction(...)`: a string, a
      number (an `int`, a `float` or a `Decimal`; held as its value in cents
      and the text `str()` gives it), a float NaN, a date, a boolean, or
      `None`. */
  datatype Value = Text(s: string) | Num(cents: int, repr: string) | NaN | Day(date: Date) | Flag(b: bool) | Null

  /** The keyword arguments `Transaction(**kwargs)` accepts besides `user`. */
  const FieldNames: set<string> :=
    {"id", "pk", "type", "category", "amount", "description", "date", "is_recurring", "household_type"}

  datatype CreateError =
    | UnexpectedKeywords(names: set<string>)  // TypeError raised by Model.__init__
    | InvalidValue(field: string)              // a value the column cannot store

  /** What a `CharField` or `TextField` stores for a value on save: a string
      as it is, anything else as its `str()`; `None` when the value is
      `None`, or a date (not modelled). */
  function CharFieldValue(v: Value): Option<string>
  {
    match v
    case Text(s) => Some(s)
    case Num(_, repr) => Some(repr)
    case NaN => Some("nan")
    case Flag(b) => Some(if b then "True" else "False")
    case Day(_) => None
    case Null => None
  }

  /** What `amount`, a `DecimalField`, stores for a value on save, in cents:
      a number as it is, a text through `Decimal(...)`, a boolean as 1 or 0;
      `None` for NaN (not finite), a text `Decimal` refuses, a date, and
      `None` (the column is NOT NULL). */
  function DecimalFieldValue(v: Value): Option<int>
  {
    match v
    case Num(cents, _) => Some(cents)
    case Text(s) => DecimalText(s)
    case Flag(b) => Some(if b then 100 else 0)
    case NaN => None
    case Day(_) => None
    case Null => None
  }

  /** A NOT NULL text column's value: the converted value, or `default`
      when the keyword is not passed. */
  function TextField(kwargs: map<string, Value>, name: string, default: string): Result<string, CreateError>
  {
    if name !in kwargs then Ok(default)
    else match CharFieldValue(kwargs[name])
      case Some(t) => Ok(t)
      case None => Err(InvalidValue(name))
  }

  /** `description`, a nullable `TextField`: NULL when not passed or `None`. */
  function DescriptionField(kwargs: map<string, Value>): Result<Option<string>, CreateError>
  {
    if "description" !in kwargs || kwargs["description"].Null? then Ok(None)
    else match CharFieldValue(kwargs["description"])
      case Some(t) => Ok(Some(t))
      case None => Err(InvalidValue("description"))
  }

  /** `Transaction(user=owner, **kwargs)` followed by `save()`, which converts
      each value to its column's type: an unknown keyword fails before
      anything else; `amount` has no default and is NOT NULL; `date` is
      `auto_now_add`, so it is always `today`; `type` and `category` default
      to "", `is_recurring` to False, `household_type` to "single" and
      `description` to NULL. The result is the row as stored. */
  function NewTransaction(owner: string, today: Date, kwargs: map<string, Value>): (r: Result<Transaction, CreateError>)
    ensures r.Err? && r.error.UnexpectedKeywords? <==> !(kwargs.Keys <= FieldNames)
    ensures r.Ok? <==>
      && kwargs.Keys <= FieldNames
      && "amount" in kwargs && DecimalFieldValue(kwargs["amount"]).Some?
      && ("type" in kwargs ==> CharFieldValue(kwargs["type"]).Some?)
      && ("category" in kwargs ==> CharFieldValue(kwargs["category"]).Some?)
      && ("household_type" in kwargs ==> CharFieldValue(kwargs["household_type"]).Some?)
      && ("description" in kwargs ==> kwargs["description"].Null? || CharFieldValue(kwargs["description"]).Some?)
      && ("is_recurring" in kwargs ==> kwargs["is_recurring"].Flag?)
    ensures r.Ok? ==> r.value.owner == owner && r.value.date == today
    ensures r.Ok? ==> DecimalFieldValue(kwargs["amount"]) == Some(r.value.amount)
    ensures r.Ok? ==> r.value.kind == if "type" in kwargs then CharFieldValue(kwargs["type"]).value else ""
    ensures r.Ok? ==> r.value.category == if "category" in kwargs then CharFieldValue(kwargs["category"]).value else ""
    ensures r.Ok? && "is_recurring" !in kwargs ==> !r.value.isRecurring
    ensures r.Ok? && "household_type" !in kwargs ==> r.value.householdType == "single"
    ensures r.Ok? && ("description" !in kwargs || kwargs["description"].Null?) ==> r.value.description == None
  {
    var unexpected := kwargs.Keys - FieldNames;
    if unexpected != {} then Err(UnexpectedKeywords(unexpected))
    else
      var amount := if "amount" in kwargs then DecimalFieldValue(kwargs["amount"]) else None;
      var kind := TextField(kwargs, "type", "");
      var category := TextField(kwargs, "category", "");
      var household := TextField(kwargs, "household_type", "single");
      var description := DescriptionField(kwargs);
      var recurring :=
        if "is_recurring" !in kwargs then Ok(false)
        else if kwargs["is_recurring"].Flag? then Ok(kwargs["is_recurring"].b)
        else Err(InvalidValue("is_recurring"));
      if amount.None? then Err(InvalidValue("amount"))
      else if kind.Err? then Err(kind.error)
      else if category.Err? then Err(category.error)
      else if household.Err? then Err(household.error)
      else if description.Err? then Err(description.error)
      else if recurring.Err? then Err(recurring.error)
      else Ok(Transaction(owner, kind.value, category.value, amount.value,
                          description.value, today, recurring.value, household.value))
  }

  /** A text amount is stored as the number it spells, and a NaN text
      column as "nan": "5000" for `amount` and NaN for `category` give a
      row of 5000.00 in category "nan". */
  lemma SaveConvertsValues(owner: string, today: Date)
    ensures NewTransaction(owner, today, map["type" := Text("income"), "amount" := Text("5000"), "category" := NaN])
         == Ok(Transaction(owner, "income", "nan", 5000_00, None, today, false, "single"))
    ensures NewTransaction(owner, today, map["type" := Text("income"), "amount" := Text("abc")])
         == Err(InvalidValue("amount"))
    ensures NewTransaction(owner, today, map["type" := Text("income"), "amount" := NaN])
         == Err(InvalidValue("amount"))
  {
    DecimalTextExamples();
  }

  /** `type` is stored as given, whether or not it is one of the choices:
      a "debt" transaction is created like any other. */
  lemma ChoicesNotEnforced(owner: string, today: Date)
    ensures "debt" !in TypeChoices && "loan" !in TypeChoices
    ensures NewTransaction(owner, today, map["type" := Text("debt"), "category" := Text("credit_card"),
                                          "amount" := Num(500_00, "500"), "household_type" := Text("single")])
         == Ok(Transaction(owner, "debt", "credit_card", 500_00, None, today, false, "single"))
    ensures NewTransaction(owner, today, map["type" := Text("loan"), "category" := Text("student_loan"),
                                          "amount" := Num(1000_00, "1000"), "household_type" := Text("single")])
         == Ok(Transaction(owner, "loan", "student_loan", 1000_00, None, today, false, "single"))
  {
  }

  /** `Transaction.objects.filter(user=user)`, in table order. */
  function OwnedBy(rows: seq<Transaction>, user: string): (r: seq<Transaction>)
    ensures forall i :: 0 <= i < |r| ==> r[i].owner == user && r[i] in rows
    ensures forall i :: 0 <= i < |rows| && rows[i].owner == user ==> rows[i] in r
  {
    if rows == [] then []
    else
      var init, last := rows[..|rows| - 1], rows[|rows| - 1];
      assert forall i :: 0 <= i < |init| ==> init[i] == rows[i];
      OwnedBy(init, user) + (if last.owner == user then [last] else [])
  }

  /** The ledger table: `Transaction.objects.create` appends a row. */
  class TransactionTable {
    var rows: seq<Transaction>

    constructor ()
      ensures rows == []
    {
      rows := [];
    }

    method Create(owner: string, today: Date, kwargs: map<string, Value>) returns (r: Result<Transaction, CreateError>)
      modifies this
      ensures r == NewTransaction(owner, today, kwargs)
      ensures rows == if r.Ok? then old(rows) + [r.value] else old(rows)
    {
      r := NewTransaction(owner, today, kwargs);
      if r.Ok? {
        rows := rows + [r.value];
      }
    }
  }

  /** `str(tx)`: username, type, amount with two decimals and category,
      joined by " | ". */
  function Display(tx: Transaction): string
  {
    tx.owner + " | " + tx.kind + " | " + FormatCents(tx.amount) + " | " + tx.category
  }

  /** Reads the four fields back from a display string. */
  function ParseDisplay(s: string): Option<(string, string, int, string)>
  {
    var parts := Split(s, '|');
    if |parts| == 4
       && |parts[0]| >= 1 && parts[0][|parts[0]| - 1] == ' '
       && |parts[1]| >= 2 && parts[1][0] == ' ' && parts[1][|parts[1]| - 1] == ' '
       && |parts[2]| >= 2 && parts[2][0] == ' ' && parts[2][|parts[2]| - 1] == ' '
       && |parts[3]| >= 1 && parts[3][0] == ' '
    then
      match ParseCents(parts[2][1..|parts[2]| - 1])
      case Some(amount) =>
        Some((parts[0][..|parts[0]| - 1], parts[1][1..|parts[1]| - 1], amount, parts[3][1..]))
      case None => None
    else None
  }

  lemma FormatCentsHasNoBar(cents: int)
    ensures '|' !in FormatCents(cents)
  {
    var a := if cents < 0 then -cents else cents;
    var d, f := NatToDecimal(a / 100), PadDigits(a % 100, 2);
    assert FormatCents(cents) == (if cents < 0 then "-" else "") + d + "." + f;
    assert '|' !in d && '|' !in f;
  }

  lemma SplitFour(p0: string, p1: string, p2: string, p3: string)
    requires '|' !in p0 && '|' !in p1 && '|' !in p2 && '|' !in p3
    ensures Split(p0 + ['|'] + (p1 + ['|'] + (p2 + ['|'] + p3)), '|') == [p0, p1, p2, p3]
  {
    SplitNoSeparator(p3, '|');
    SplitAtSeparator(p2, '|', p3);
    SplitAtSeparator(p1, '|', p2 + ['|'] + p3);
    SplitAtSeparator(p0, '|', p1 + ['|'] + (p2 + ['|'] + p3));
  }

  /** The display string determines username, type, amount and category
      whenever none of the three texts contains a '|'. */
  lemma DisplayRoundTrip(tx: Transaction)
    requires '|' !in tx.owner && '|' !in tx.kind && '|' !in tx.category
    ensures ParseDisplay(Display(tx)) == Some((tx.owner, tx.kind, tx.amount, tx.category))
  {
    var p0, p1, p2, p3 := tx.owner + " ", " " + tx.kind + " ", " " + FormatCents(tx.amount) + " ", " " + tx.category;
    assert Split(Display(tx), '|') == [p0, p1, p2, p3] by {
      FormatCentsHasNoBar(tx.amount);
      assert Display(tx) == p0 + ['|'] + (p1 + ['|'] + (p2 + ['|'] + p3));
      SplitFour(p0, p1, p2, p3);
    }
    ParseDisplayParts(Display(tx), tx.owner, tx.kind, tx.amount, tx.category);
  }

  /** A string that splits into the four padded fields parses back to them. */
  lemma ParseDisplayParts(s: string, owner: string, kind: string, amount: int, category: string)
    requires Split(s, '|') == [owner + " ", " " + kind + " ", " " + FormatCents(amount) + " ", " " + category]
    ensures ParseDisplay(s) == Some((owner, kind, amount, category))
  {
    var p0, p1, p2, p3 := owner + " ", " " + kind + " ", " " + FormatCents(amount) + " ", " " + category;
    assert p0[..|p0| - 1] == owner;
    assert p1[1..|p1| - 1] == kind;
    assert p3[1..] == category;
    assert ParseCents(p2[1..|p2| - 1]) == Some(amount) by {
      assert p2[1..|p2| - 1] == FormatCents(amount);
      FormatCentsRoundTrip(amount);
    }
  }

  lemma FormatCentsExample()
    ensures FormatCents(5000_00) == "5000.00"
  {
    assert NatToDecimal(5) == "5";
    assert NatToDecimal(50) == "50";
    assert NatToDecimal(500) == "500";
    assert NatToDecimal(5000) == "5000";
    assert PadDigits(0, 1) == "0";
    assert PadDigits(0, 2) == "00";
  }

  /** The rendering of the application's model test: 5000.00 shows as "5000.00". */
  lemma DisplayExample(today: Date)
    ensures Display(Transaction("testuser", "income", "salary_after_tax", 5000_00, Some("Monthly salary"),
                                today, true, "single"))
         == "testuser | income | 5000.00 | salary_after_tax"
  {
    FormatCentsExample();
    assert "testuser | income | 5000.00 | salary_after_tax"
        == "testuser" + " | " + "income" + " | " + "5000.00" + " | " + "salary_after_tax";
  }
}
