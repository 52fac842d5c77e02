/** Table cells and the two per-cell clean-ups of app.py: `clean_number`
    (noisy text to an integer, 0 on failure) and `normalize_text` (song-name
    clean-up before names are used as join keys). */
module Cells {
  import opened Wrappers
  import opened PyText

  /** One cell as pandas reads it from a CSV export: text, an integer, or a
      missing value (NaN). A float cell is represented by the text `str()`
      gives it. */
  datatype Cell = Str(s: string) | Int(n: int) | Missing

  /** Python's `str(x)` of a cell. */
  function PyStr(x: Cell): string {
    match x
    case Str(s) => s
    case Int(n) => IntToString(n)
    case Missing => "nan"
  }

  /** No two underscores stand next to each other. */
  predicate NoDoubleUnderscore(b: string)
    decreases |b|
  {
    |b| < 2 || (!(b[0] == '_' && b[1] == '_') && NoDoubleUnderscore(b[1..]))
  }

  lemma {:induction false} NoUnderscoreNoDouble(b: string)
    requires '_' !in b
    ensures NoDoubleUnderscore(b)
    decreases |b|
  {
    if |b| >= 2 { NoUnderscoreNoDouble(b[1..]); }
  }

  /** The digits of a base-10 literal as `int()` accepts them: digits, with
      single underscores allowed only between two digits. */
  predicate IsNumeralBody(b: string) {
    && b != []
    && IsDigit(b[0])
    && IsDigit(b[|b| - 1])
    && DigitsOrUnderscores(b)
    && NoDoubleUnderscore(b)
  }

  /** The value of a numeral body, or `None` when `int()` rejects it. */
  function BodyValue(b: string): (r: Option<int>)
    ensures r.Some? ==> r.value >= 0
  {
    if IsNumeralBody(b) then Some(NumeralValue(b)) else None
  }

  /** `int()` on text already stripped of whitespace: an optional sign and a
      numeral body. */
  function ParseStripped(t: string): (r: Option<int>)
    ensures r.Some? ==> t != [] && (t[0] == '-' || t[0] == '+' || IsDigit(t[0])) && IsDigit(t[|t| - 1])
  {
    if t == [] then None
    else if t[0] == '-' then
      match BodyValue(t[1..])
      case Some(v) => Some(-v)
      case None => None
    else if t[0] == '+' then BodyValue(t[1..])
    else BodyValue(t)
  }

  /** Python's `int(text)`: surrounding whitespace (as `int()` counts it),
      an optional sign and a numeral body; `None` where Python raises
      `ValueError`. */
  function ParseInt(text: string): (r: Option<int>)
    ensures r.Some? ==> var t := IntStrip(text);
              t != [] && (t[0] == '-' || t[0] == '+' || IsDigit(t[0])) && IsDigit(t[|t| - 1])
  {
    ParseStripped(IntStrip(text))
  }

  /** A leading character `int()` counts as whitespace changes nothing. */
  lemma ParseIntLeadingSpace(c: char, t: string)
    requires c in IntWhitespace
    ensures ParseInt([c] + t) == ParseInt(t)
  {
    assert ([c] + t)[1..] == t;
  }

  /** A leading character that is neither whitespace to `int()`, a sign nor
      a digit makes `int()` fail, whatever follows. */
  lemma ParseIntLeadingOther(c: char, t: string)
    requires c !in IntWhitespace && c != '-' && c != '+' && !IsDigit(c)
    ensures ParseInt([c] + t) == None
  {
    var r := IntStrip([c] + t);
    assert StripLeft([c] + t, IntWhitespace) == [c] + t;
    assert r != [] && r[0] == c;
  }

  /** `int()` strips a no-break space but not the ASCII separator U+001C,
      although `str.isspace` accepts both. */
  lemma ParseIntSpaces(t: string)
    ensures ParseInt(['\U{00A0}'] + t) == ParseInt(t)
    ensures ParseInt(['\U{001C}'] + t) == None
  {
    assert '\U{00A0}' in IntWhitespace && '\U{001C}' !in IntWhitespace;
    ParseIntLeadingSpace('\U{00A0}', t);
    ParseIntLeadingOther('\U{001C}', t);
  }

  /** A plain decimal numeral is a numeral body. */
  lemma DigitsAreBody(d: string)
    requires d != [] && AllDigits(d)
    ensures IsNumeralBody(d)
  {
    assert '_' !in d by {
      forall i | 0 <= i < |d| ensures d[i] != '_' { assert IsDigit(d[i]); }
    }
    NoUnderscoreNoDouble(d);
  }

  /** A digit is not whitespace to `int()`. */
  lemma DigitNotIntSpace(c: char)
    requires IsDigit(c)
    ensures c !in IntWhitespace
  {
  }

  /** `int()` accepts a numeral body with no sign and reads its value. */
  lemma ParseBody(d: string)
    requires IsNumeralBody(d)
    ensures ParseInt(d) == Some(NumeralValue(d))
  {
    DigitNotIntSpace(d[0]);
    DigitNotIntSpace(d[|d| - 1]);
    StripNoOp(d, IntWhitespace);
  }

  /** `int()` accepts a numeral body after a minus sign and negates its value. */
  lemma ParseNegatedBody(d: string)
    requires IsNumeralBody(d)
    ensures ParseInt("-" + d) == Some(-(NumeralValue(d) as int))
  {
    var m := "-" + d;
    assert m[0] == '-' && m[|m| - 1] == d[|d| - 1] && m[1..] == d;
    assert IntStrip(m) == m by {
      DigitNotIntSpace(d[|d| - 1]);
      StripNoOp(m, IntWhitespace);
    }
    assert ParseStripped(m) == Some(-(NumeralValue(d) as int));
  }

  /** `int()` reads back a plain decimal numeral, with or without a minus sign. */
  lemma ParseIntNumeral(d: string)
    requires d != [] && AllDigits(d)
    ensures ParseInt(d) == Some(NumeralValue(d))
    ensures ParseInt("-" + d) == Some(-(NumeralValue(d) as int))
  {
    DigitsAreBody(d);
    ParseBody(d);
    ParseNegatedBody(d);
  }

  /** The text `clean_number` hands to `int()`: `str(x)` with every `,` and
      `+` deleted, cut at the first `.`. */
  function CleanedText(x: Cell): (r: string)
    ensures ',' !in r && '+' !in r && '.' !in r
  {
    var noCommas := Replace(PyStr(x), ",", "");
    var noPlus := Replace(noCommas, "+", "");
    var r := UpToFirst(noPlus, '.');
    assert forall c :: c in r ==> c in noPlus;
    r
  }

  /** `clean_number(x)`: the integer `int()` reads from the cleaned text, and
      0 wherever `int()` would raise. It never fails. */
  function CleanNumber(x: Cell): (r: int)
    ensures r != 0 ==> ParseInt(CleanedText(x)) == Some(r)
  {
    match ParseInt(CleanedText(x))
    case Some(n) => n
    case None => 0
  }

  /** When the cleaned text is a decimal numeral, optionally negative,
      `clean_number` returns its value. */
  lemma CleanNumberOfNumeral(x: Cell, d: string)
    requires d != [] && AllDigits(d)
    ensures CleanedText(x) == d ==> CleanNumber(x) == NumeralValue(d)
    ensures CleanedText(x) == "-" + d ==> CleanNumber(x) == -(NumeralValue(d) as int)
  {
    ParseIntNumeral(d);
  }

  /** When the cleaned text is not something `int()` accepts, the result is 0. */
  lemma CleanNumberFallback(x: Cell)
    ensures ParseInt(CleanedText(x)).None? ==> CleanNumber(x) == 0
  {
  }

  /** `str(n)` is made of digits and a leading minus sign only. */
  lemma IntToStringChars(n: int)
    ensures n < 0 ==> IntToString(n) == "-" + NatToString(-n)
    ensures n >= 0 ==> IntToString(n) == NatToString(n)
    ensures ',' !in IntToString(n) && '+' !in IntToString(n) && '.' !in IntToString(n)
  {
    var s := IntToString(n);
    forall c | c in s ensures c == '-' || IsDigit(c) {
      var i :| 0 <= i < |s| && s[i] == c;
      if n < 0 && i > 0 { assert s[i] == NatToString(-n)[i - 1]; }
    }
  }

  /** An integer cell comes back unchanged. */
  lemma {:induction false} CleanNumberOfInt(n: int)
    ensures CleanNumber(Int(n)) == n
    ensures CleanNumber(Str(IntToString(n))) == n
  {
    var s := IntToString(n);
    IntToStringChars(n);
    ReplaceAbsent(s, ",", "");
    ReplaceAbsent(s, "+", "");
    UpToFirstAbsent(s, '.');
    assert CleanedText(Int(n)) == s && CleanedText(Str(s)) == s;
    if n < 0 {
      CleanNumberOfNumeral(Int(n), NatToString(-n));
      CleanNumberOfNumeral(Str(s), NatToString(-n));
    } else {
      CleanNumberOfNumeral(Int(n), NatToString(n));
      CleanNumberOfNumeral(Str(s), NatToString(n));
    }
  }

  /** `clean_number` reads back the comma-grouped format `f"{n:,}"` the
      dashboard prints. */
  lemma {:induction false} CleanNumberOfGrouped(n: nat)
    ensures CleanNumber(Str(FormatThousands(n))) == n
  {
    var s := FormatThousands(n);
    ThousandsWithoutCommas(n);
    var d := Replace(s, ",", "");
    assert '+' !in d && '.' !in d;
    ReplaceAbsent(d, "+", "");
    UpToFirstAbsent(d, '.');
    assert CleanedText(Str(s)) == d;
    CleanNumberOfNumeral(Str(s), d);
  }

  /** Text without `,`, `+` or `.` reaches `int()` unchanged. */
  lemma CleanedTextOfPlain(s: string)
    requires ',' !in s && '+' !in s && '.' !in s
    ensures CleanedText(Str(s)) == s
  {
    ReplaceAbsent(s, ",", "");
    ReplaceAbsent(s, "+", "");
    UpToFirstAbsent(s, '.');
  }

  /** Text whose first character is neither a sign, a digit nor whitespace
      is not a number: `clean_number` falls back to 0. */
  lemma CleanNumberOfWord(s: string)
    requires ',' !in s && '+' !in s && '.' !in s
    requires s != [] && !IsDigit(s[0]) && s[0] != '-' && !IsSpace(s[0]) && !IsSpace(s[|s| - 1])
    ensures CleanNumber(Str(s)) == 0
  {
    CleanedTextOfPlain(s);
    StripNoOp(s, IntWhitespace);
  }

  /** None of the characters `clean_number` edits occurs in a numeral. */
  lemma DigitsFree(d: string)
    requires AllDigits(d)
    ensures ',' !in d && '+' !in d && '.' !in d && '\U{00E2}' !in d
  {
    forall i | 0 <= i < |d| ensures d[i] != ',' && d[i] != '+' && d[i] != '.' && d[i] != '\U{00E2}' {
      assert IsDigit(d[i]);
    }
  }

  /** An explicit plus sign is dropped: "+500" coerces to 500. */
  lemma {:induction false} CleanNumberOfPlus(d: string)
    requires d != [] && AllDigits(d)
    ensures CleanNumber(Str("+" + d)) == NumeralValue(d)
  {
    var s := "+" + d;
    DigitsFree(d);
    assert ',' !in s;
    ReplaceAbsent(s, ",", "");
    ReplaceCharConcat("+", d, '+', "");
    ReplaceAbsent(d, "+", "");
    assert Replace("+", "+", "") == "";
    UpToFirstAbsent(d, '.');
    assert CleanedText(Str(s)) == d;
    CleanNumberOfNumeral(Str(s), d);
  }

  /** The fractional part is cut off: "12.7" coerces to 12, whatever follows
      the point. */
  lemma {:induction false} CleanNumberOfDecimal(d: string, f: string)
    requires d != [] && AllDigits(d)
    ensures CleanNumber(Str(d + "." + f)) == NumeralValue(d)
  {
    var s := d + "." + f;
    DigitsFree(d);
    ReplaceCharConcat(d + ".", f, ',', "");
    ReplaceCharConcat(d, ".", ',', "");
    ReplaceAbsent(d, ",", "");
    ReplaceAbsent(".", ",", "");
    var f1 := Replace(f, ",", "");
    assert Replace(s, ",", "") == d + "." + f1;
    ReplaceCharConcat(d + ".", f1, '+', "");
    ReplaceCharConcat(d, ".", '+', "");
    ReplaceAbsent(d, "+", "");
    ReplaceAbsent(".", "+", "");
    var f2 := Replace(f1, "+", "");
    assert Replace(d + "." + f1, "+", "") == d + ['.'] + f2;
    UpToFirstSplit(d, '.', f2);
    assert CleanedText(Str(s)) == d;
    CleanNumberOfNumeral(Str(s), d);
  }

  /** A word coerces to 0. */
  lemma CleanNumberOfWordText()
    ensures CleanNumber(Str("abc")) == 0
  {
    CleanNumberOfWord("abc");
  }

  /** Empty text coerces to 0. */
  lemma CleanNumberOfEmptyText()
    ensures CleanNumber(Str("")) == 0
  {
    CleanedTextOfPlain("");
  }

  /** A missing value, whose `str()` is "nan", coerces to 0. */
  lemma CleanNumberOfMissing()
    ensures CleanNumber(Missing) == 0
  {
    CleanNumberOfWord("nan");
  }

  // ----- normalize_text -----

  /** The UTF-8 bytes of a right single quote read as Windows-1252. */
  const MojibakeApostrophe: string := "\U{00E2}\U{20AC}\U{2122}"
  /** The right single quotation mark itself. */
  const RightQuote: string := "\U{2019}"
  /** The UTF-8 bytes of a trade-mark sign read as Windows-1252. */
  const MojibakeTrademark: string := "\U{00E2}\U{201E}\U{00A2}"

  /** `normalize_text(x)`: for text, both spellings of the right quote become
      `'`, the mangled trade-mark sign and every `*` are deleted and the
      result is stripped; anything else becomes `str(x)` untouched. */
  function NormalizeText(x: Cell): (r: string)
    ensures x.Str? ==> '*' !in r && '\U{2019}' !in r
    ensures x.Str? && r != [] ==> !IsSpace(r[0]) && !IsSpace(r[|r| - 1])
    ensures !x.Str? ==> r == PyStr(x)
  {
    match x
    case Str(s) =>
      var a := Replace(s, MojibakeApostrophe, "'");
      var b := Replace(a, RightQuote, "'");
      var c := Replace(b, MojibakeTrademark, "");
      Strip(Replace(c, "*", ""))
    case _ => PyStr(x)
  }

  /** A name already free of `*`, quote artefacts and outer whitespace is
      left as it is. */
  lemma NormalizeTextFixedPoint(s: string)
    requires '*' !in s && '\U{2019}' !in s && '\U{00E2}' !in s
    requires s != [] ==> !IsSpace(s[0]) && !IsSpace(s[|s| - 1])
    ensures NormalizeText(Str(s)) == s
  {
    ReplaceAbsent(s, MojibakeApostrophe, "'");
    ReplaceAbsent(s, RightQuote, "'");
    ReplaceAbsent(s, MojibakeTrademark, "");
    ReplaceAbsent(s, "*", "");
    StripNoOp(s, Whitespace);
  }

  /** Text with no mangled UTF-8 in it only sees the quote, `*` and strip
      steps. */
  lemma NormalizeWithoutMojibake(s: string)
    requires '\U{00E2}' !in s
    ensures NormalizeText(Str(s)) == Strip(Replace(Replace(s, RightQuote, "'"), "*", ""))
  {
    ReplaceAbsent(s, MojibakeApostrophe, "'");
    var b := Replace(s, RightQuote, "'");
    assert '\U{00E2}' !in b;
    ReplaceAbsent(b, MojibakeTrademark, "");
  }

  /** A title spelled with a curly apostrophe and the same title spelled with
      a straight one become the same key. */
  lemma NormalizeTextQuoteSpellings(a: string, b: string)
    requires '\U{00E2}' !in a && '\U{00E2}' !in b
    ensures NormalizeText(Str(a + "\U{2019}" + b)) == NormalizeText(Str(a + "'" + b))
  {
    assert '\U{00E2}' !in a + "\U{2019}" + b && '\U{00E2}' !in a + "'" + b;
    NormalizeWithoutMojibake(a + "\U{2019}" + b);
    NormalizeWithoutMojibake(a + "'" + b);
    QuoteStep(a, b);
  }

  lemma {:induction false} QuoteStep(a: string, b: string)
    ensures Replace(a + "\U{2019}" + b, RightQuote, "'") == Replace(a + "'" + b, RightQuote, "'")
  {
    var q := '\U{2019}';
    assert a + [q] + b == a + ([q] + b) && a + "'" + b == a + ("'" + b);
    ReplaceCharConcat(a, [q] + b, q, "'");
    ReplaceCharConcat([q], b, q, "'");
    assert Replace([q], [q], "'") == "'";
    ReplaceCharConcat(a, "'" + b, q, "'");
    ReplaceCharConcat("'", b, q, "'");
    ReplaceAbsent("'", [q], "'");
  }

  /** Footnote stars do not take part in the key. */
  lemma NormalizeTextDropsStar(a: string, b: string)
    requires '\U{00E2}' !in a && '\U{00E2}' !in b
    ensures NormalizeText(Str(a + "*" + b)) == NormalizeText(Str(a + b))
  {
    assert '\U{00E2}' !in a + "*" + b && '\U{00E2}' !in a + b;
    NormalizeWithoutMojibake(a + "*" + b);
    NormalizeWithoutMojibake(a + b);
    StarQuoteStep(a, b);
    StarStep(Replace(a, RightQuote, "'"), Replace(b, RightQuote, "'"));
  }

  lemma {:induction false} StarQuoteStep(a: string, b: string)
    ensures Replace(a + "*" + b, RightQuote, "'")
         == Replace(a, RightQuote, "'") + "*" + Replace(b, RightQuote, "'")
    ensures Replace(a + b, RightQuote, "'") == Replace(a, RightQuote, "'") + Replace(b, RightQuote, "'")
  {
    var q := '\U{2019}';
    assert a + "*" + b == a + ("*" + b);
    ReplaceCharConcat(a, "*" + b, q, "'");
    ReplaceCharConcat("*", b, q, "'");
    ReplaceAbsent("*", [q], "'");
    ReplaceCharConcat(a, b, q, "'");
  }

  lemma {:induction false} StarStep(a: string, b: string)
    ensures Replace(a + "*" + b, "*", "") == Replace(a + b, "*", "")
  {
    assert a + "*" + b == a + ("*" + b);
    ReplaceCharConcat(a, "*" + b, '*', "");
    ReplaceCharConcat("*", b, '*', "");
    assert Replace("*", "*", "") == "";
    ReplaceCharConcat(a, b, '*', "");
  }
}
