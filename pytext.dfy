/** The few pieces of Python's `str` behaviour the engine relies on:
    `isspace`/`strip`, `replace`, `split(c)[0]`, `str(int)` and the
    thousands-separated format `f"{n:,}"`. */
module PyText {

  /** The characters for which `c.isspace()` holds in Python 3: those with
      Unicode bidirectional class WS, B or S, or general category Zs. */
  const Whitespace: set<char> := {
    '\U{0009}', '\U{000A}', '\U{000B}', '\U{000C}', '\U{000D}',
    '\U{001C}', '\U{001D}', '\U{001E}', '\U{001F}', ' ',
    '\U{0085}', '\U{00A0}', '\U{1680}',
    '\U{2000}', '\U{2001}', '\U{2002}', '\U{2003}', '\U{2004}', '\U{2005}',
    '\U{2006}', '\U{2007}', '\U{2008}', '\U{2009}', '\U{200A}',
    '\U{2028}', '\U{2029}', '\U{202F}', '\U{205F}', '\U{3000}'
  }

  predicate IsSpace(c: char) { c in Whitespace }

  predicate IsDigit(c: char) { '0' <= c <= '9' }

  predicate AllDigits(s: string) {
    forall i :: 0 <= i < |s| ==> IsDigit(s[i])
  }

  /** The characters Python's `int()` admits in the body of a decimal numeral. */
  predicate DigitsOrUnderscores(s: string) {
    forall i :: 0 <= i < |s| ==> IsDigit(s[i]) || s[i] == '_'
  }

  function DigitValue(c: char): nat
    requires IsDigit(c)
  {
    c as int - '0' as int
  }

  function DigitChar(d: nat): (c: char)
    requires d < 10
    ensures IsDigit(c) && DigitValue(c) == d
  {
    (d + '0' as int) as char
  }

  /** Value of a decimal numeral read left to right; `_` separators carry no value. */
  function NumeralValue(s: string): nat
    requires DigitsOrUnderscores(s)
    decreases |s|
  {
    if s == [] then 0
    else if s[|s| - 1] == '_' then NumeralValue(s[..|s| - 1])
    else NumeralValue(s[..|s| - 1]) * 10 + DigitValue(s[|s| - 1])
  }

  function Pow10(k: nat): (p: nat)
    ensures p >= 1
  {
    if k == 0 then 1 else 10 * Pow10(k - 1)
  }

  /** Reading the digits `b` after the numeral `a` shifts `a` left by `|b|` places. */
  lemma {:induction false} NumeralAppend(a: string, b: string)
    requires DigitsOrUnderscores(a) && AllDigits(b)
    ensures DigitsOrUnderscores(a + b)
    ensures NumeralValue(a + b) == NumeralValue(a) * Pow10(|b|) + NumeralValue(b)
    decreases |b|
  {
    var ab := a + b;
    assert DigitsOrUnderscores(ab) by {
      forall i | 0 <= i < |ab| ensures IsDigit(ab[i]) || ab[i] == '_' {
        if i >= |a| { assert ab[i] == b[i - |a|]; }
      }
    }
    if b == [] {
      assert ab == a;
    } else {
      var b' := b[..|b| - 1];
      var d := b[|b| - 1];
      assert ab[..|ab| - 1] == a + b';
      assert ab[|ab| - 1] == d && IsDigit(d);
      NumeralAppend(a, b');
      var x, y, p, dv := NumeralValue(a), NumeralValue(b'), Pow10(|b'|), DigitValue(d);
      assert NumeralValue(ab) == NumeralValue(a + b') * 10 + dv;
      assert NumeralValue(b) == y * 10 + dv;
      assert Pow10(|b|) == 10 * p;
      ShiftStep(x, p, y, dv);
      assert NumeralValue(ab) == x * (10 * p) + NumeralValue(b);
    }
  }

  lemma ShiftStep(x: int, p: int, y: int, dv: int)
    ensures (x * p + y) * 10 + dv == x * (10 * p) + (y * 10 + dv)
  {
  }

  // ----- str.strip() -----

  /** The whitespace Python's `int()` strips from its argument. ASCII
      characters reach it unchanged and only ` `, `\t`, `\n`, `\v`, `\f` and
      `\r` among them count as space, so the separators U+001C to U+001F,
      which `str.isspace` accepts, are not stripped; every other
      `isspace` character is. */
  const IntWhitespace: set<char> := {
    '\U{0009}', '\U{000A}', '\U{000B}', '\U{000C}', '\U{000D}', ' ',
    '\U{0085}', '\U{00A0}', '\U{1680}',
    '\U{2000}', '\U{2001}', '\U{2002}', '\U{2003}', '\U{2004}', '\U{2005}',
    '\U{2006}', '\U{2007}', '\U{2008}', '\U{2009}', '\U{200A}',
    '\U{2028}', '\U{2029}', '\U{202F}', '\U{205F}', '\U{3000}'
  }

  /** Drops exactly the leading characters of `ws`: `s.lstrip()` when `ws`
      is `Whitespace`. */
  function StripLeft(s: string, ws: set<char>): (r: string)
    ensures |r| <= |s| && r == s[|s| - |r|..]
    ensures forall i :: 0 <= i < |s| - |r| ==> s[i] in ws
    ensures r != [] ==> r[0] !in ws
    decreases |s|
  {
    if s != [] && s[0] in ws then StripLeft(s[1..], ws) else s
  }

  /** Drops exactly the trailing characters of `ws`: `s.rstrip()` when `ws`
      is `Whitespace`. */
  function StripRight(s: string, ws: set<char>): (r: string)
    ensures |r| <= |s| && r == s[..|r|]
    ensures forall i :: |r| <= i < |s| ==> s[i] in ws
    ensures r != [] ==> r[|r| - 1] !in ws
    decreases |s|
  {
    if s != [] && s[|s| - 1] in ws then StripRight(s[..|s| - 1], ws) else s
  }

  /** A slice of `s` with no character of `ws` at either end. */
  function StripWith(s: string, ws: set<char>): (r: string)
    ensures r != [] ==> r[0] !in ws && r[|r| - 1] !in ws
    ensures forall c :: c in r ==> c in s
  {
    StripRight(StripLeft(s, ws), ws)
  }

  /** `s.strip()`: a slice of `s` with no whitespace at either end. */
  function Strip(s: string): (r: string)
    ensures r != [] ==> !IsSpace(r[0]) && !IsSpace(r[|r| - 1])
    ensures forall c :: c in r ==> c in s
  {
    StripWith(s, Whitespace)
  }

  /** The stripping `int()` does before it reads a numeral. */
  function IntStrip(s: string): (r: string)
    ensures r != [] ==> r[0] !in IntWhitespace && r[|r| - 1] !in IntWhitespace
    ensures forall c :: c in r ==> c in s
  {
    StripWith(s, IntWhitespace)
  }

  /** A string that already has no character of `ws` at its ends is left as it is. */
  lemma StripNoOp(s: string, ws: set<char>)
    requires s != [] ==> s[0] !in ws && s[|s| - 1] !in ws
    ensures StripWith(s, ws) == s
  {
  }

  // ----- str.replace(old, new) -----

  /** `s.replace(pat, rep)`: non-overlapping occurrences of `pat`, scanned from the left. */
  function Replace(s: string, pat: string, rep: string): (r: string)
    requires pat != []
    ensures forall c :: c in r ==> c in s || c in rep
    ensures |pat| == 1 && pat[0] !in rep ==> pat[0] !in r
    decreases |s|
  {
    if |s| < |pat| then s
    else if s[..|pat|] == pat then rep + Replace(s[|pat|..], pat, rep)
    else [s[0]] + Replace(s[1..], pat, rep)
  }

  /** A pattern whose first character does not occur is never replaced. */
  lemma {:induction false} ReplaceAbsent(s: string, pat: string, rep: string)
    requires pat != [] && pat[0] !in s
    ensures Replace(s, pat, rep) == s
    decreases |s|
  {
    if |s| >= |pat| {
      assert s[..|pat|] != pat by { assert s[0] != pat[0]; }
      ReplaceAbsent(s[1..], pat, rep);
      assert [s[0]] + s[1..] == s;
    }
  }

  /** Replacing one character distributes over concatenation. */
  lemma {:induction false} ReplaceCharConcat(a: string, b: string, c: char, rep: string)
    ensures Replace(a + b, [c], rep) == Replace(a, [c], rep) + Replace(b, [c], rep)
    decreases |a|
  {
    if a == [] {
      assert a + b == b;
    } else {
      assert (a + b)[..1] == a[..1];
      assert (a + b)[1..] == a[1..] + b;
      ReplaceCharConcat(a[1..], b, c, rep);
    }
  }

  // ----- str.split(c)[0] -----

  /** `s.split(c)[0]`: the longest prefix of `s` free of `c`. */
  function UpToFirst(s: string, c: char): (r: string)
    ensures |r| <= |s| && r == s[..|r|]
    ensures c !in r
    ensures |r| < |s| ==> s[|r|] == c
    decreases |s|
  {
    if s == [] || s[0] == c then [] else [s[0]] + UpToFirst(s[1..], c)
  }

  /** A string free of `c` is its own first piece. */
  lemma UpToFirstAbsent(s: string, c: char)
    requires c !in s
    ensures UpToFirst(s, c) == s
  {
  }

  /** The first piece ends at the first occurrence of `c`. */
  lemma {:induction false} UpToFirstSplit(a: string, c: char, b: string)
    requires c !in a
    ensures UpToFirst(a + [c] + b, c) == a
    decreases |a|
  {
    if a != [] {
      assert (a + [c] + b)[1..] == a[1..] + [c] + b;
      UpToFirstSplit(a[1..], c, b);
    }
  }

  predicate EndsWith(s: string, suffix: string) {
    |suffix| <= |s| && s[|s| - |suffix|..] == suffix
  }

  // ----- str(int) and f"{n:,}" -----

  /** `str(n)` for a non-negative integer: a non-empty decimal numeral of `n`
      with no leading zero. */
  function NatToString(n: nat): (r: string)
    ensures r != [] && AllDigits(r) && NumeralValue(r) == n
    ensures |r| > 1 ==> r[0] != '0'
    decreases n
  {
    if n < 10 then [DigitChar(n)]
    else
      var front := NatToString(n / 10);
      assert (front + [DigitChar(n % 10)])[..|front|] == front;
      front + [DigitChar(n % 10)]
  }

  /** `str(n)` for any integer. */
  function IntToString(n: int): (r: string)
    ensures r != [] && (n < 0 <==> r[0] == '-')
  {
    if n < 0 then "-" + NatToString(-n) else NatToString(n)
  }

  /** Three digits with leading zeros: one group of `f"{n:,}"`. */
  function Group3(k: nat): (r: string)
    requires k < 1000
    ensures |r| == 3 && AllDigits(r) && NumeralValue(r) == k
  {
    var r := [DigitChar(k / 100), DigitChar((k / 10) % 10), DigitChar(k % 10)];
    assert r[..2][..1] == [r[0]] && r[..1][..0] == [] && r[..3 - 1] == r[..2];
    assert NumeralValue(r[..1]) == k / 100;
    assert NumeralValue(r[..2]) == k / 100 * 10 + (k / 10) % 10;
    assert NumeralValue(r) == (k / 100 * 10 + (k / 10) % 10) * 10 + k % 10;
    assert k / 10 == k / 100 * 10 + (k / 10) % 10;
    r
  }

  /** `f"{n:,}"` for a non-negative integer: digits grouped by three with commas. */
  function FormatThousands(n: nat): (r: string)
    ensures r != [] && IsDigit(r[0]) && IsDigit(r[|r| - 1])
    decreases n
  {
    if n < 1000 then NatToString(n)
    else FormatThousands(n / 1000) + "," + Group3(n % 1000)
  }

  /** Deleting the commas of `f"{n:,}"` leaves a decimal numeral of `n`. */
  lemma {:induction false} ThousandsWithoutCommas(n: nat)
    ensures var d := Replace(FormatThousands(n), ",", "");
            d != [] && AllDigits(d) && NumeralValue(d) == n
    decreases n
  {
    if n < 1000 {
      ReplaceAbsent(NatToString(n), ",", "");
    } else {
      ThousandsWithoutCommas(n / 1000);
      var g := Group3(n % 1000);
      assert ',' !in g by { assert !IsDigit(','); }
      assert FormatThousands(n) == FormatThousands(n / 1000) + ([','] + g);
      DropSeparator(FormatThousands(n / 1000), ',', g);
      GroupedValue(Replace(FormatThousands(n / 1000), ",", ""), n);
    }
  }

  /** Deleting a separator that the last piece does not contain. */
  lemma DropSeparator(front: string, c: char, g: string)
    requires c !in g
    ensures Replace(front + ([c] + g), [c], []) == Replace(front, [c], []) + g
  {
    ReplaceCharConcat(front, [c] + g, c, []);
    var s := [c] + g;
    assert s[..1] == [c] && s[1..] == g;
    ReplaceAbsent(g, [c], []);
  }

  lemma GroupedValue(d: string, n: nat)
    requires n >= 1000 && d != [] && AllDigits(d) && NumeralValue(d) == n / 1000
    ensures var e := d + Group3(n % 1000);
            e != [] && AllDigits(e) && NumeralValue(e) == n
  {
    var g := Group3(n % 1000);
    NumeralAppend(d, g);
    assert Pow10(|g|) == 1000;
    assert AllDigits(d + g);
  }
}
