/**
 * The text handling the scheduler applies to its form fields: Python's
 * `str.strip()`, Python's `int(...)` on a base-10 string, and `str(n)` for an
 * integer (used in the timer's alarm message).
 */
module Text {
  import opened Outcomes

  /** The characters Python's `str.isspace()` accepts; `strip()` removes these. */
  predicate IsSpace(c: char) {
    c == ' ' || ('\U{9}' <= c <= '\U{d}') || IsSeparator(c)
    || c == '\U{85}' || c == '\U{a0}' || c == '\U{1680}'
    || ('\U{2000}' <= c <= '\U{200a}') || c == '\U{2028}' || c == '\U{2029}'
    || c == '\U{202f}' || c == '\U{205f}' || c == '\U{3000}'
  }

  /** The ASCII file, group, record and unit separators U+001C to U+001F. */
  predicate IsSeparator(c: char) {
    '\U{1c}' <= c <= '\U{1f}'
  }

  /**
   * Which whitespace a trim skips. `strip()` skips all of `str.isspace()`;
   * `int()` skips the same set except the four ASCII separators, which it
   * treats as ordinary characters.
   */
  datatype Blanks = StripBlanks | IntBlanks

  predicate IsBlank(c: char, b: Blanks) {
    IsSpace(c) && (b == IntBlanks ==> !IsSeparator(c))
  }

  /** Number of blank characters at the front of `s`. */
  function LeadingBlanks(s: string, b: Blanks): (n: nat)
    ensures n <= |s|
    ensures forall k :: 0 <= k < n ==> IsBlank(s[k], b)
    ensures n < |s| ==> !IsBlank(s[n], b)
  {
    if s == [] || !IsBlank(s[0], b) then 0 else 1 + LeadingBlanks(s[1..], b)
  }

  /** Number of blank characters at the back of `s`. */
  function TrailingBlanks(s: string, b: Blanks): (n: nat)
    ensures n <= |s|
    ensures forall k :: |s| - n <= k < |s| ==> IsBlank(s[k], b)
    ensures n < |s| ==> !IsBlank(s[|s| - 1 - n], b)
  {
    if s == [] || !IsBlank(s[|s| - 1], b) then 0 else 1 + TrailingBlanks(s[..|s| - 1], b)
  }

  /**
   * The slice of `s` left after removing blanks at both ends. Only blanks are
   * removed, and what is left neither starts nor ends with a blank.
   */
  function Trim(s: string, b: Blanks): (r: string)
    ensures exists i, j :: 0 <= i <= j <= |s| && r == s[i..j]
              && (forall k :: 0 <= k < i ==> IsBlank(s[k], b))
              && (forall k :: j <= k < |s| ==> IsBlank(s[k], b))
    ensures r != [] ==> !IsBlank(r[0], b) && !IsBlank(r[|r| - 1], b)
    ensures r == [] <==> forall k :: 0 <= k < |s| ==> IsBlank(s[k], b)
  {
    var i := LeadingBlanks(s, b);
    var j := |s| - TrailingBlanks(s[i..], b);
    assert forall k :: j <= k < |s| ==> s[k] == s[i..][k - i];
    s[i..j]
  }

  /**
   * Python's `s.strip()`: the slice of `s` left after removing whitespace at
   * both ends. Only whitespace is removed, and what is left neither starts nor
   * ends with whitespace.
   */
  function Strip(s: string): (r: string)
    ensures exists i, j :: 0 <= i <= j <= |s| && r == s[i..j]
              && (forall k :: 0 <= k < i ==> IsSpace(s[k]))
              && (forall k :: j <= k < |s| ==> IsSpace(s[k]))
    ensures r != [] ==> !IsSpace(r[0]) && !IsSpace(r[|r| - 1])
    ensures r == [] <==> forall k :: 0 <= k < |s| ==> IsSpace(s[k])
  {
    Trim(s, StripBlanks)
  }

  /** If exactly the first `n` characters are blanks, `LeadingBlanks` counts `n`. */
  lemma {:induction false} LeadingFrom(s: string, n: nat, b: Blanks)
    requires n <= |s| && (n < |s| ==> !IsBlank(s[n], b))
    requires forall k :: 0 <= k < n ==> IsBlank(s[k], b)
    ensures LeadingBlanks(s, b) == n
  {
    if n > 0 {
      LeadingFrom(s[1..], n - 1, b);
    }
  }

  /** If exactly the last `n` characters are blanks, `TrailingBlanks` counts `n`. */
  lemma {:induction false} TrailingFrom(s: string, n: nat, b: Blanks)
    requires n <= |s| && (n < |s| ==> !IsBlank(s[|s| - 1 - n], b))
    requires forall k :: |s| - n <= k < |s| ==> IsBlank(s[k], b)
    ensures TrailingBlanks(s, b) == n
  {
    if n > 0 {
      TrailingFrom(s[..|s| - 1], n - 1, b);
    }
  }

  /** Trimming a word padded with blanks gives back the word. */
  lemma TrimPadded(pre: string, w: string, post: string, b: Blanks)
    requires w != [] && !IsBlank(w[0], b) && !IsBlank(w[|w| - 1], b)
    requires forall k :: 0 <= k < |pre| ==> IsBlank(pre[k], b)
    requires forall k :: 0 <= k < |post| ==> IsBlank(post[k], b)
    ensures Trim(pre + w + post, b) == w
  {
    var s := pre + w + post;
    assert s[|pre|] == w[0];
    LeadingFrom(s, |pre|, b);
    var rest := s[|pre|..];
    assert rest == w + post;
    assert rest[|rest| - 1 - |post|] == w[|w| - 1];
    TrailingFrom(rest, |post|, b);
    assert s[|pre|..|pre| + |w|] == w;
  }

  /** A word that neither starts nor ends with a blank is its own trim. */
  lemma TrimmedWord(w: string, b: Blanks)
    requires w != [] ==> !IsBlank(w[0], b) && !IsBlank(w[|w| - 1], b)
    ensures Trim(w, b) == w
  {
    if w != [] {
      TrimPadded("", w, "", b);
      assert "" + w + "" == w;
    }
  }

  /** Stripping twice is stripping once. */
  lemma StripIdempotent(s: string)
    ensures Strip(Strip(s)) == Strip(s)
  {
    TrimmedWord(Strip(s), StripBlanks);
  }

  /** A string without whitespace is its own `strip()`. */
  lemma StripNoSpace(s: string)
    requires forall k :: 0 <= k < |s| ==> !IsSpace(s[k])
    ensures Strip(s) == s
  {
    TrimmedWord(s, StripBlanks);
  }

  /** Without separators, both kinds of trim count the same leading blanks. */
  lemma {:induction false} LeadingWithoutSeparators(s: string)
    requires forall k :: 0 <= k < |s| ==> !IsSeparator(s[k])
    ensures LeadingBlanks(s, IntBlanks) == LeadingBlanks(s, StripBlanks)
  {
    if s != [] {
      assert IsBlank(s[0], IntBlanks) == IsBlank(s[0], StripBlanks);
      assert forall k :: 0 <= k < |s| - 1 ==> s[1..][k] == s[k + 1];
      LeadingWithoutSeparators(s[1..]);
    }
  }

  /** Without separators, both kinds of trim count the same trailing blanks. */
  lemma {:induction false} TrailingWithoutSeparators(s: string)
    requires forall k :: 0 <= k < |s| ==> !IsSeparator(s[k])
    ensures TrailingBlanks(s, IntBlanks) == TrailingBlanks(s, StripBlanks)
  {
    if s != [] {
      assert IsBlank(s[|s| - 1], IntBlanks) == IsBlank(s[|s| - 1], StripBlanks);
      TrailingWithoutSeparators(s[..|s| - 1]);
    }
  }

  /** Without separators, both kinds of trim count the same trailing blanks after any prefix. */
  lemma TrailingAfterWithoutSeparators(s: string, i: nat)
    requires i <= |s|
    requires forall k :: 0 <= k < |s| ==> !IsSeparator(s[k])
    ensures TrailingBlanks(s[i..], IntBlanks) == TrailingBlanks(s[i..], StripBlanks)
  {
    var rest := s[i..];
    assert forall k :: 0 <= k < |rest| ==> rest[k] == s[i + k];
    TrailingWithoutSeparators(rest);
  }

  /** Two kinds of blank that agree on the counts at both ends give the same trim. */
  lemma TrimSameCounts(s: string)
    requires LeadingBlanks(s, IntBlanks) == LeadingBlanks(s, StripBlanks)
    requires var i := LeadingBlanks(s, StripBlanks);
      TrailingBlanks(s[i..], IntBlanks) == TrailingBlanks(s[i..], StripBlanks)
    ensures Trim(s, IntBlanks) == Trim(s, StripBlanks)
  {
    TrimByCounts(s, IntBlanks);
    TrimByCounts(s, StripBlanks);
  }

  /** `Trim` cuts exactly the counted leading and trailing blanks. */
  lemma TrimByCounts(s: string, b: Blanks)
    ensures var i := LeadingBlanks(s, b);
      Trim(s, b) == s[i..|s| - TrailingBlanks(s[i..], b)]
  {
  }

  /** Without separators in the text, `int()` and `strip()` skip the same characters. */
  lemma TrimWithoutSeparators(s: string)
    requires forall k :: 0 <= k < |s| ==> !IsSeparator(s[k])
    ensures Trim(s, IntBlanks) == Strip(s)
  {
    LeadingWithoutSeparators(s);
    TrailingAfterWithoutSeparators(s, LeadingBlanks(s, StripBlanks));
    TrimSameCounts(s);
  }

  predicate IsDigit(c: char) {
    '0' <= c <= '9'
  }

  function DigitValue(c: char): (d: nat)
    requires IsDigit(c)
    ensures d < 10
  {
    (c as int) - ('0' as int)
  }

  function DigitChar(d: nat): (c: char)
    requires d < 10
    ensures IsDigit(c) && DigitValue(c) == d
  {
    (('0' as int) + d) as char
  }

  /** Every character is a digit or an underscore. */
  predicate DigitsAndUnderscores(s: string) {
    forall k :: 0 <= k < |s| ==> IsDigit(s[k]) || s[k] == '_'
  }

  /**
   * The digit part Python's `int()` accepts in base 10: at least one digit,
   * and each underscore sits between two digits.
   */
  predicate IsDigitBody(s: string) {
    |s| > 0 && DigitsAndUnderscores(s)
    && (forall k :: 0 <= k < |s| && s[k] == '_' ==> 0 < k < |s| - 1 && IsDigit(s[k - 1]) && IsDigit(s[k + 1]))
  }

  /** The value of a digit string, underscores ignored. */
  function DigitsValue(s: string): nat
    requires DigitsAndUnderscores(s)
  {
    if s == [] then 0
    else if s[|s| - 1] == '_' then DigitsValue(s[..|s| - 1])
    else 10 * DigitsValue(s[..|s| - 1]) + DigitValue(s[|s| - 1])
  }

  /** How many digits a digit string holds, underscores not counted. */
  function DigitCount(s: string): nat
    requires DigitsAndUnderscores(s)
  {
    if s == [] then 0
    else DigitCount(s[..|s| - 1]) + (if s[|s| - 1] == '_' then 0 else 1)
  }

  /**
   * CPython's default limit on the digits of an integer converted from or to
   * decimal text (`sys.get_int_max_str_digits()`); `int()` raises
   * `ValueError` on longer digit strings.
   */
  const IntMaxStrDigits: nat := 4300

  /**
   * Python's `int(s)` for a string: surrounding whitespace other than the
   * four ASCII separators is skipped, then an optional `+` or `-` sign is
   * followed by a digit body of at most 4300 digits; anything else is the
   * `ValueError` the scheduler catches (here `None`).
   */
  function ParseInt(s: string): (r: Option<int>)
    ensures r.Some? ==> Trim(s, IntBlanks) != [] && IsDigit(Trim(s, IntBlanks)[|Trim(s, IntBlanks)| - 1])
    ensures r.Some? && r.value < 0 ==> Trim(s, IntBlanks)[0] == '-'
  {
    ParseWord(Trim(s, IntBlanks))
  }

  /** `int()` on text that has already lost its surrounding whitespace. */
  function ParseWord(t: string): (r: Option<int>)
    ensures r.Some? ==> t != [] && IsDigit(t[|t| - 1])
    ensures r.Some? && r.value < 0 ==> t[0] == '-'
  {
    if |t| > 0 && (t[0] == '-' || t[0] == '+') then
      if IsDigitBody(t[1..]) && DigitCount(t[1..]) <= IntMaxStrDigits then
        var v: int := DigitsValue(t[1..]);
        assert t[|t| - 1] == t[1..][|t| - 2];
        Some(if t[0] == '-' then -v else v)
      else None
    else if IsDigitBody(t) && DigitCount(t) <= IntMaxStrDigits then Some(DigitsValue(t))
    else None
  }

  /** Python's `str(n)` for a non-negative integer: its decimal digits, no leading zero. */
  function NatDigits(n: nat): (s: string)
    ensures |s| > 0
    ensures forall k :: 0 <= k < |s| ==> IsDigit(s[k])
    ensures n > 0 ==> s[0] != '0'
  {
    if n < 10 then [DigitChar(n)] else NatDigits(n / 10) + [DigitChar(n % 10)]
  }

  function Magnitude(n: int): nat {
    if n < 0 then -n else n
  }

  /** Python's `str(n)` for an integer. */
  function Decimal(n: int): (s: string)
    ensures |s| > 0
    ensures n < 0 <==> s[0] == '-'
  {
    if n < 0 then "-" + NatDigits(-n) else NatDigits(n)
  }

  /** `str(30) == "30"`, as the food-break preset writes it. */
  lemma DecimalThirty()
    ensures Decimal(30) == "30"
  {
    assert NatDigits(3) == "3";
    assert NatDigits(30) == NatDigits(3) + [DigitChar(0)];
  }

  lemma {:induction false} NatDigitsValue(n: nat)
    ensures DigitsAndUnderscores(NatDigits(n))
    ensures DigitsValue(NatDigits(n)) == n && DigitCount(NatDigits(n)) == |NatDigits(n)|
  {
    var s := NatDigits(n);
    if n >= 10 {
      NatDigitsValue(n / 10);
      assert s[..|s| - 1] == NatDigits(n / 10);
    }
  }

  /**
   * Reading back what `str(n)` prints gives `n`: `int(str(n)) == n`, for
   * every `n` within the 4300-digit limit.
   */
  lemma ParseDecimal(n: int)
    requires |NatDigits(Magnitude(n))| <= IntMaxStrDigits
    ensures ParseInt(Decimal(n)) == Some(n)
  {
    DecimalWord(n);
    ParseDigits(Magnitude(n), n < 0);
    assert Decimal(n) == if n < 0 then "-" + NatDigits(Magnitude(n)) else NatDigits(Magnitude(n));
  }

  /** `str(n)` has nothing for `int()` to skip, so `int()` reads it as the word it is. */
  lemma DecimalWord(n: int)
    ensures ParseInt(Decimal(n)) == ParseWord(Decimal(n))
  {
    var s := Decimal(n);
    DecimalNoSpace(n);
    assert !IsSpace(s[0]) && !IsSpace(s[|s| - 1]);
    TrimmedWord(s, IntBlanks);
  }

  /** `int()` reads the digits of `str(m)`, with or without a leading minus sign. */
  lemma ParseDigits(m: nat, negative: bool)
    requires |NatDigits(m)| <= IntMaxStrDigits
    ensures ParseWord(if negative then "-" + NatDigits(m) else NatDigits(m))
            == Some(if negative then -(m as int) else m as int)
  {
    var d := NatDigits(m);
    DigitBodyOf(m);
    if negative {
      var t := "-" + d;
      assert t[0] == '-' && t[1..] == d;
    } else {
      assert IsDigit(d[0]);
    }
  }

  /** The digits of `str(m)` form a digit body worth `m`, within the limit when `str(m)` is. */
  lemma DigitBodyOf(m: nat)
    requires |NatDigits(m)| <= IntMaxStrDigits
    ensures IsDigitBody(NatDigits(m)) && DigitCount(NatDigits(m)) <= IntMaxStrDigits
    ensures DigitsValue(NatDigits(m)) == m
  {
    NatDigitsValue(m);
  }

  lemma DecimalNoSpace(n: int)
    ensures forall k :: 0 <= k < |Decimal(n)| ==> !IsSpace(Decimal(n)[k])
  {
    var s := Decimal(n);
    if n < 0 {
      var d := NatDigits(-n);
      assert s == "-" + d;
      forall k | 0 <= k < |s| ensures !IsSpace(s[k]) {
        if k > 0 { assert s[k] == d[k - 1]; }
      }
    }
  }

  /**
   * On text without the four ASCII separators, `int()` reads what `strip()`
   * leaves: `int(s) == int(s.strip())`.
   */
  lemma ParseIgnoresSpace(s: string)
    requires forall k :: 0 <= k < |s| ==> !IsSeparator(s[k])
    ensures ParseInt(s) == ParseInt(Strip(s))
  {
    TrimWithoutSeparators(s);
    TrimmedWord(Strip(s), IntBlanks);
  }

  /**
   * A separator is the exception: `int()` refuses it where `strip()` would
   * remove it, so `int("\x1c25")` fails (compare `SeparatorStripped`).
   */
  lemma SeparatorRefused()
    ensures ParseInt("\U{1c}25") == None
  {
    var s := "\U{1c}25";
    assert Trim(s, IntBlanks) == s by {
      assert !IsBlank(s[0], IntBlanks) && !IsBlank(s[2], IntBlanks);
      TrimmedWord(s, IntBlanks);
    }
    assert !IsDigit(s[0]) && s[0] != '_';
  }

  /** `strip()` removes a leading separator, so `int("\x1c25".strip())` is 25 (compare `SeparatorRefused`). */
  lemma SeparatorStripped()
    ensures ParseInt(Strip("\U{1c}25")) == Some(25)
  {
    assert Strip("\U{1c}25") == "25" by {
      assert "\U{1c}" + "25" + "" == "\U{1c}25";
      TrimPadded("\U{1c}", "25", "", StripBlanks);
    }
    assert Decimal(25) == "25" by {
      assert NatDigits(25) == NatDigits(2) + [DigitChar(5)];
    }
    ParseDecimal(25);
  }

  /** Whitespace that `int()` skips around a number does not change what it reads. */
  lemma ParsePadded(pre: string, n: int, post: string)
    requires forall k :: 0 <= k < |pre| ==> IsBlank(pre[k], IntBlanks)
    requires forall k :: 0 <= k < |post| ==> IsBlank(post[k], IntBlanks)
    requires |NatDigits(Magnitude(n))| <= IntMaxStrDigits
    ensures ParseInt(pre + Decimal(n) + post) == Some(n)
  {
    var d := Decimal(n);
    DecimalNoSpace(n);
    TrimPadded(pre, d, post, IntBlanks);
    TrimmedWord(d, IntBlanks);
    ParseDecimal(n);
  }
}
