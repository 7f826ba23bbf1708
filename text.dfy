/** The string operations the application relies on: decimal rendering of
    integers and of two-decimal amounts, ASCII `str.lower()` and
    `str.title()`, splitting on a separator character, and the code-point
    order Python and DuckDB use to sort strings. */
module Text {
  import opened Basics

  predicate IsDigit(c: char) { '0' <= c <= '9' }

  predicate AllDigits(s: string) { forall i :: 0 <= i < |s| ==> IsDigit(s[i]) }

  function DigitChar(d: nat): (c: char)
    requires d < 10
    ensures IsDigit(c)
  {
    ('0' as int + d) as char
  }

  function Pow10(k: nat): (p: nat)
    ensures p >= 1
  {
    if k == 0 then 1 else 10 * Pow10(k - 1)
  }

  /** `str(n)` for a natural number: its decimal digits, without leading zeros. */
  function NatToDecimal(n: nat): (s: string)
    ensures |s| >= 1 && AllDigits(s)
  {
    if n < 10 then [DigitChar(n)] else NatToDecimal(n / 10) + [DigitChar(n % 10)]
  }

  /** The number a string of decimal digits denotes. */
  function DecimalValue(s: string): nat
    requires AllDigits(s)
  {
    if s == [] then 0
    else DecimalValue(s[..|s| - 1]) * 10 + (s[|s| - 1] as int - '0' as int)
  }

  lemma {:induction false} DecimalRoundTrip(n: nat)
    ensures DecimalValue(NatToDecimal(n)) == n
  {
    if n >= 10 {
      var s := NatToDecimal(n);
      assert s[..|s| - 1] == NatToDecimal(n / 10);
      DecimalRoundTrip(n / 10);
    }
  }

  /** `NatToDecimal(n)` has at most `k` digits exactly when `n < 10^k`. */
  lemma {:induction false} DecimalLength(n: nat, k: nat)
    ensures |NatToDecimal(n)| <= k + 1 <==> n < Pow10(k + 1)
  {
    if n >= 10 {
      if k == 0 {
        assert |NatToDecimal(n / 10)| >= 1;
      } else {
        DecimalLength(n / 10, k - 1);
      }
    }
  }

  /** `str(i)` for a Python `int`. */
  function IntToString(i: int): (s: string)
    ensures |s| >= 1
  {
    if i < 0 then "-" + NatToDecimal(-i) else NatToDecimal(i)
  }

  /** `n` written with exactly `width` digits, zero-padded on the left;
      `n` must fit. */
  function PadDigits(n: nat, width: nat): (s: string)
    requires n < Pow10(width)
    ensures |s| == width && AllDigits(s)
  {
    if width == 0 then "" else PadDigits(n / 10, width - 1) + [DigitChar(n % 10)]
  }

  lemma {:induction false} PadDigitsValue(n: nat, width: nat)
    requires n < Pow10(width)
    ensures DecimalValue(PadDigits(n, width)) == n
  {
    if width > 0 {
      var s := PadDigits(n, width);
      assert s[..|s| - 1] == PadDigits(n / 10, width - 1);
      PadDigitsValue(n / 10, width - 1);
    }
  }

  /** A two-decimal amount, given in cents, rendered as Python's
      `f"{amount:.2f}"` renders a `Decimal`: an optional minus sign, the
      integer part without leading zeros, a point and exactly two digits. */
  function FormatCents(cents: int): (s: string)
    ensures |s| >= 4 && s[|s| - 3] == '.'
    ensures IsDigit(s[|s| - 2]) && IsDigit(s[|s| - 1])
  {
    var a := if cents < 0 then -cents else cents;
    (if cents < 0 then "-" else "") + NatToDecimal(a / 100) + "." + PadDigits(a % 100, 2)
  }

  /** Reads an unsigned `digits.dd` amount back into cents. */
  function ParseUnsignedCents(body: string): Option<nat>
  {
    if |body| >= 4 && body[|body| - 3] == '.'
       && AllDigits(body[..|body| - 3]) && AllDigits(body[|body| - 2..])
    then Some(DecimalValue(body[..|body| - 3]) * 100 + DecimalValue(body[|body| - 2..]))
    else None
  }

  /** Reads back what `FormatCents` writes. */
  function ParseCents(s: string): Option<int>
  {
    if |s| > 0 && s[0] == '-' then
      match ParseUnsignedCents(s[1..])
      case Some(m) => Some(-(m as int))
      case None => None
    else
      match ParseUnsignedCents(s)
      case Some(m) => Some(m as int)
      case None => None
  }

  lemma UnsignedRoundTrip(a: nat)
    ensures ParseUnsignedCents(NatToDecimal(a / 100) + "." + PadDigits(a % 100, 2)) == Some(a)
  {
    var digits, frac := NatToDecimal(a / 100), PadDigits(a % 100, 2);
    var body := digits + "." + frac;
    assert body[..|body| - 3] == digits && body[|body| - 2..] == frac && body[|body| - 3] == '.';
    DecimalRoundTrip(a / 100);
    PadDigitsValue(a % 100, 2);
    assert ParseUnsignedCents(body) == Some(DecimalValue(digits) * 100 + DecimalValue(frac));
    assert (a / 100) * 100 + a % 100 == a;
  }

  lemma FormatCentsRoundTrip(cents: int)
    ensures ParseCents(FormatCents(cents)) == Some(cents)
  {
    var a := if cents < 0 then -cents else cents;
    var digits := NatToDecimal(a / 100);
    var body := digits + "." + PadDigits(a % 100, 2);
    UnsignedRoundTrip(a);
    var s := FormatCents(cents);
    if cents < 0 {
      assert s == "-" + body && s[1..] == body;
    } else {
      assert s == body && s[0] == digits[0] && IsDigit(digits[0]);
    }
  }

  /** Python's `Decimal(s)` for a fixed-point text, in cents: an optional
      sign, digits, and an optional point followed by at most two digits,
      with at least one digit in all; `None` for any other text. */
  function DecimalText(s: string): Option<int>
  {
    var neg := |s| > 0 && s[0] == '-';
    var body := if |s| > 0 && (s[0] == '-' || s[0] == '+') then s[1..] else s;
    var parts := Split(body, '.');
    var whole := parts[0];
    var frac := if |parts| == 2 then parts[1] else "";
    if |parts| <= 2 && AllDigits(whole) && AllDigits(frac) && |frac| <= 2 && |whole| + |frac| >= 1 then
      var m := DecimalValue(whole) * 100 + DecimalValue(frac) * (if |frac| == 1 then 10 else 1);
      Some(if neg then -m else m)
    else None
  }

  lemma NoPointInDigits(s: string)
    requires AllDigits(s)
    ensures '.' !in s
  {
  }

  /** A whole number written in decimal reads as that many units. */
  lemma DecimalTextOfWhole(n: nat)
    ensures DecimalText(NatToDecimal(n)) == Some(100 * n)
  {
    var d := NatToDecimal(n);
    NoPointInDigits(d);
    SplitNoSeparator(d, '.');
    DecimalRoundTrip(n);
    assert d[0] != '-' && d[0] != '+' by { assert IsDigit(d[0]); }
  }

  /** "5000" reads as 5000.00, and a text without digits is refused. */
  lemma DecimalTextExamples()
    ensures DecimalText("5000") == Some(5000_00)
    ensures DecimalText("abc") == None
  {
    assert NatToDecimal(5000) == "5000" by {
      assert NatToDecimal(5) == "5";
      assert NatToDecimal(50) == "50";
      assert NatToDecimal(500) == "500";
    }
    DecimalTextOfWhole(5000);
    assert Split("abc", '.') == ["abc"] by { SplitNoSeparator("abc", '.'); }
    assert !IsDigit("abc"[0]);
  }

  /** `Decimal` reads back every two-decimal amount `FormatCents` writes. */
  lemma DecimalTextOfFormatCents(cents: int)
    ensures DecimalText(FormatCents(cents)) == Some(cents)
  {
    var a := if cents < 0 then -cents else cents;
    var body := NatToDecimal(a / 100) + "." + PadDigits(a % 100, 2);
    DecimalTextUnsigned(a);
    if cents < 0 {
      assert FormatCents(cents) == "-" + body;
      DecimalTextNegative(body);
    } else {
      assert FormatCents(cents) == body;
    }
  }

  lemma DecimalTextUnsigned(a: nat)
    ensures var body := NatToDecimal(a / 100) + "." + PadDigits(a % 100, 2);
      |body| > 0 && IsDigit(body[0]) && DecimalText(body) == Some(a)
  {
    var d, f := NatToDecimal(a / 100), PadDigits(a % 100, 2);
    var body := d + "." + f;
    assert Split(body, '.') == [d, f] by {
      NoPointInDigits(d);
      NoPointInDigits(f);
      SplitNoSeparator(f, '.');
      assert body == d + ['.'] + f;
      SplitAtSeparator(d, '.', f);
    }
    assert body[0] == d[0];
    DecimalRoundTrip(a / 100);
    PadDigitsValue(a % 100, 2);
  }

  lemma DecimalTextNegative(body: string)
    requires |body| > 0 && IsDigit(body[0]) && DecimalText(body).Some?
    ensures DecimalText("-" + body) == Some(-DecimalText(body).value)
  {
    assert ("-" + body)[1..] == body;
  }

  /** ASCII `str.lower()`. */
  function LowerChar(c: char): char
  {
    if 'A' <= c <= 'Z' then (c as int + 32) as char else c
  }

  function UpperChar(c: char): char
  {
    if 'a' <= c <= 'z' then (c as int - 32) as char else c
  }

  predicate IsCased(c: char) { 'A' <= c <= 'Z' || 'a' <= c <= 'z' }

  function Lower(s: string): (r: string)
    ensures |r| == |s|
    ensures forall i :: 0 <= i < |s| ==> r[i] == LowerChar(s[i])
  {
    if s == [] then [] else [LowerChar(s[0])] + Lower(s[1..])
  }

  /** The type names the upload test writes come out lower-case. */
  lemma LowerExamples()
    ensures Lower("Income") == "income" && Lower("income") == "income"
  {
    var r, l := Lower("Income"), Lower("income");
    assert forall i :: 0 <= i < 6 ==> r[i] == "income"[i] && l[i] == "income"[i];
  }

  lemma {:induction false} LowerIdempotent(s: string)
    ensures Lower(Lower(s)) == Lower(s)
    ensures forall i :: 0 <= i < |s| ==> !('A' <= Lower(s)[i] <= 'Z')
  {
    var l := Lower(s);
    assert forall i :: 0 <= i < |l| ==> LowerChar(l[i]) == l[i];
  }

  /** How `str.title()` writes one character: a letter is upper-cased
      unless it follows a letter, when it is lower-cased; any other
      character is kept. */
  function TitleChar(c: char, afterLetter: bool): char
  {
    if !IsCased(c) then c else if afterLetter then LowerChar(c) else UpperChar(c)
  }

  /** ASCII `str.title()`; `afterLetter` says whether the character before
      `s` was a letter. */
  function TitleFrom(s: string, afterLetter: bool): (r: string)
    ensures |r| == |s|
  {
    if s == [] then []
    else [TitleChar(s[0], afterLetter)] + TitleFrom(s[1..], IsCased(s[0]))
  }

  function Title(s: string): (r: string)
  {
    TitleFrom(s, false)
  }

  lemma {:induction false} TitleFromChars(s: string, afterLetter: bool)
    ensures forall i :: 0 <= i < |s| ==>
      TitleFrom(s, afterLetter)[i] == TitleChar(s[i], if i == 0 then afterLetter else IsCased(s[i - 1]))
  {
    if s != [] {
      var r, t := TitleFrom(s, afterLetter), s[1..];
      TitleFromChars(t, IsCased(s[0]));
      assert r[1..] == TitleFrom(t, IsCased(s[0]));
      forall i | 1 <= i < |s|
        ensures r[i] == TitleChar(s[i], IsCased(s[i - 1]))
      {
        assert r[i] == TitleFrom(t, IsCased(s[0]))[i - 1] && t[i - 1] == s[i];
        if i > 1 { assert t[i - 2] == s[i - 1]; }
      }
    }
  }

  /** `category.title()` keeps every character but the case of letters,
      and upper-cases exactly the letters that start a word: those at the
      start or after a character that is not a letter. */
  lemma TitleLetters(s: string)
    ensures |Title(s)| == |s|
    ensures forall i :: 0 <= i < |s| && !IsCased(s[i]) ==> Title(s)[i] == s[i]
    ensures forall i :: 0 <= i < |s| && IsCased(s[i]) ==>
      && IsCased(Title(s)[i])
      && LowerChar(Title(s)[i]) == LowerChar(s[i])
      && ('A' <= Title(s)[i] <= 'Z' <==> i == 0 || !IsCased(s[i - 1]))
  {
    TitleFromChars(s, false);
    forall i | 0 <= i < |s| && !IsCased(s[i])
      ensures Title(s)[i] == s[i]
    {
      assert Title(s)[i] == TitleChar(s[i], i > 0 && IsCased(s[i - 1]));
    }
    forall i | 0 <= i < |s| && IsCased(s[i])
      ensures IsCased(Title(s)[i]) && LowerChar(Title(s)[i]) == LowerChar(s[i])
      ensures 'A' <= Title(s)[i] <= 'Z' <==> i == 0 || !IsCased(s[i - 1])
    {
      TitleCharCase(s[i], i > 0 && IsCased(s[i - 1]));
    }
  }

  lemma TitleCharCase(c: char, afterLetter: bool)
    requires IsCased(c)
    ensures var t := TitleChar(c, afterLetter);
      IsCased(t) && LowerChar(t) == LowerChar(c) && ('A' <= t <= 'Z' <==> !afterLetter)
  {
  }

  /** Python's `<` on strings: lexicographic by code point. */
  predicate StrLt(a: string, b: string)
  {
    if a == [] then b != []
    else if b == [] then false
    else a[0] < b[0] || (a[0] == b[0] && StrLt(a[1..], b[1..]))
  }

  lemma {:induction false} StrLtIrreflexive(a: string)
    ensures !StrLt(a, a)
  {
    if a != [] { StrLtIrreflexive(a[1..]); }
  }

  lemma {:induction false} StrLtTransitive(a: string, b: string, c: string)
    requires StrLt(a, b) && StrLt(b, c)
    ensures StrLt(a, c)
  {
    if a != [] && a[0] == b[0] && b[0] == c[0] {
      StrLtTransitive(a[1..], b[1..], c[1..]);
    }
  }

  lemma {:induction false} StrLtTotal(a: string, b: string)
    ensures a == b || StrLt(a, b) || StrLt(b, a)
  {
    if a != [] && b != [] && a[0] == b[0] {
      StrLtTotal(a[1..], b[1..]);
      if a[1..] == b[1..] {
        assert a == [a[0]] + a[1..] && b == [b[0]] + b[1..];
      }
    }
  }

  lemma StrLtAsymmetric(a: string, b: string)
    requires StrLt(a, b)
    ensures !StrLt(b, a)
  {
    if StrLt(b, a) {
      StrLtTransitive(a, b, a);
      StrLtIrreflexive(a);
    }
  }

  /** Python's `s.split(sep)` for a one-character separator. */
  function Split(s: string, sep: char): (parts: seq<string>)
    ensures |parts| >= 1
  {
    if s == [] then [""]
    else
      var rest := Split(s[1..], sep);
      if s[0] == sep then [""] + rest else [[s[0]] + rest[0]] + rest[1..]
  }

  lemma {:induction false} SplitNoSeparator(x: string, sep: char)
    requires sep !in x
    ensures Split(x, sep) == [x]
  {
    if x != [] {
      SplitNoSeparator(x[1..], sep);
      assert x == [x[0]] + x[1..];
    }
  }

  lemma {:induction false} SplitAtSeparator(x: string, sep: char, y: string)
    requires sep !in x
    ensures Split(x + [sep] + y, sep) == [x] + Split(y, sep)
  {
    if x == [] {
      assert x + [sep] + y == [sep] + y;
      assert ([sep] + y)[1..] == y;
    } else {
      var s := x + [sep] + y;
      assert s[1..] == x[1..] + [sep] + y;
      SplitAtSeparator(x[1..], sep, y);
      assert x == [x[0]] + x[1..];
    }
  }
}
