/**
 * The few pieces of Python's string behaviour the application relies on:
 * what counts as whitespace (str.isspace, the regex class \s, str.strip),
 * str.rstrip/lstrip, str.join and str.split with a one-character separator,
 * str() of an integer and int() of a text.
 */
module PyStrings {
  import opened Wrappers

  /** str.isspace() of a single character; `\s` and str.strip() use the same set. */
  predicate IsSpace(c: char) {
    var n := c as int;
    (9 <= n <= 13) || (28 <= n <= 32) || n == 0x85 || n == 0xA0 || n == 0x1680
    || (0x2000 <= n <= 0x200A) || n == 0x2028 || n == 0x2029 || n == 0x202F
    || n == 0x205F || n == 0x3000
  }

  predicate AllSpace(s: string) {
    forall k :: 0 <= k < |s| ==> IsSpace(s[k])
  }

  /** s.rstrip(chars): drop trailing characters for which `drop` holds. */
  function RStripWhile(s: string, drop: char -> bool): (r: string)
    ensures |r| <= |s| && r == s[..|r|]
    ensures forall k :: |r| <= k < |s| ==> drop(s[k])
    ensures r == [] || !drop(r[|r| - 1])
    decreases |s|
  {
    if s != [] && drop(s[|s| - 1]) then RStripWhile(s[..|s| - 1], drop) else s
  }

  /** s.lstrip(chars): drop leading characters for which `drop` holds. */
  function LStripWhile(s: string, drop: char -> bool): (r: string)
    ensures |r| <= |s| && r == s[|s| - |r|..]
    ensures forall k :: 0 <= k < |s| - |r| ==> drop(s[k])
    ensures r == [] || !drop(r[0])
    decreases |s|
  {
    if s != [] && drop(s[0]) then LStripWhile(s[1..], drop) else s
  }

  /** r is s with some prefix and suffix removed whose characters all satisfy `drop`. */
  ghost predicate TrimmedBy(s: string, r: string, drop: char -> bool) {
    exists i, j :: TrimmedAt(s, r, i, j, drop)
  }

  /** Every character of s[..i] and of s[j..] satisfies `drop`, and r is what lies between them. */
  ghost predicate TrimmedAt(s: string, r: string, i: int, j: int, drop: char -> bool) {
    && 0 <= i <= j <= |s| && r == s[i..j]
    && (forall k :: 0 <= k < i ==> drop(s[k]))
    && (forall k :: j <= k < |s| ==> drop(s[k]))
  }

  /** s.strip(): whitespace removed from both ends. */
  function Strip(s: string): (r: string)
    ensures r == [] <==> AllSpace(s)
    ensures r != [] ==> !IsSpace(r[0]) && !IsSpace(r[|r| - 1])
    ensures |r| <= |s|
  {
    var l := LStripWhile(s, IsSpace);
    var r := RStripWhile(l, IsSpace);
    assert r == [] ==> l == [] by {
      if l != [] {
        assert !IsSpace(l[0]);
      }
    }
    r
  }

  /** What lstrip then rstrip leave is a slice of s between ends made of dropped characters. */
  lemma StripWhileSlice(s: string, drop: char -> bool)
    ensures TrimmedBy(s, RStripWhile(LStripWhile(s, drop), drop), drop)
  {
    var l := LStripWhile(s, drop);
    var r := RStripWhile(l, drop);
    var i := |s| - |l|;
    assert l == s[i..];
    forall k | i + |r| <= k < |s|
      ensures drop(s[k])
    {
      assert s[k] == l[k - i];
    }
    assert TrimmedAt(s, r, i, i + |r|, drop);
  }

  /** What strip() leaves is a slice of s between whitespace-only ends. */
  lemma StripSlice(s: string)
    ensures TrimmedBy(s, Strip(s), IsSpace)
  {
    StripWhileSlice(s, IsSpace);
  }

  /** A text without whitespace at either end is its own strip(). */
  lemma StripUntrimmed(s: string)
    requires s != [] ==> !IsSpace(s[0]) && !IsSpace(s[|s| - 1])
    ensures Strip(s) == s
  {
  }

  /** sep.join(parts). */
  function Join(sep: string, parts: seq<string>): (r: string)
    decreases |parts|
  {
    if parts == [] then []
    else if |parts| == 1 then parts[0]
    else parts[0] + sep + Join(sep, parts[1..])
  }

  /** s.split(sep) for a one-character separator: every separator splits, empty pieces kept. */
  function Split(s: string, sep: char): (r: seq<string>)
    ensures |r| >= 1
    decreases |s|
  {
    if s == [] then [[]]
    else
      var rest := Split(s[1..], sep);
      if s[0] == sep then [[]] + rest else [[s[0]] + rest[0]] + rest[1..]
  }

  /** A piece without the separator is carried whole into the first part of the split. */
  lemma {:induction false} SplitPrefixWithoutSep(p: string, tail: string, sep: char)
    requires sep !in p
    ensures Split(p + tail, sep) == [p + Split(tail, sep)[0]] + Split(tail, sep)[1..]
    decreases |p|
  {
    if p != [] {
      assert (p + tail)[1..] == p[1..] + tail;
      SplitPrefixWithoutSep(p[1..], tail, sep);
      assert [p[0]] + (p[1..] + Split(tail, sep)[0]) == p + Split(tail, sep)[0];
    } else {
      var sp := Split(tail, sep);
      assert p + tail == tail;
      assert p + sp[0] == sp[0];
      assert sp == [sp[0]] + sp[1..];
    }
  }

  /** Splitting a join at its separator gives the parts back when no part holds the separator. */
  lemma {:induction false} SplitJoin(parts: seq<string>, sep: char)
    requires |parts| >= 1
    requires forall i :: 0 <= i < |parts| ==> sep !in parts[i]
    ensures Split(Join([sep], parts), sep) == parts
    decreases |parts|
  {
    if |parts| == 1 {
      SplitPrefixWithoutSep(parts[0], [], sep);
      assert parts[0] + [] == parts[0];
    } else {
      var rest := Join([sep], parts[1..]);
      var tail := [sep] + rest;
      SplitJoin(parts[1..], sep);
      assert Join([sep], parts) == parts[0] + tail;
      assert tail[0] == sep && tail[1..] == rest;
      assert Split(tail, sep) == [[]] + parts[1..];
      SplitPrefixWithoutSep(parts[0], tail, sep);
      assert parts[0] + [] == parts[0];
      assert parts == [parts[0]] + parts[1..];
    }
  }

  predicate IsDigit(c: char) {
    '0' <= c <= '9'
  }

  predicate AllDigits(s: string) {
    forall k :: 0 <= k < |s| ==> IsDigit(s[k])
  }

  function DigitChar(d: nat): (c: char)
    requires d < 10
    ensures IsDigit(c)
  {
    ('0' as int + d) as char
  }

  function DigitValue(c: char): (d: nat)
    requires IsDigit(c)
    ensures d < 10
  {
    c as int - '0' as int
  }

  /** str(n) for a non-negative integer: its decimal digits, no leading zero. */
  function NatToDecimal(n: nat): (r: string)
    ensures r != [] && AllDigits(r)
    ensures |r| > 1 ==> r[0] != '0'
    decreases n
  {
    if n < 10 then [DigitChar(n)] else NatToDecimal(n / 10) + [DigitChar(n % 10)]
  }

  /** str(n) for any integer. */
  function IntToDecimal(n: int): (r: string) {
    if n < 0 then "-" + NatToDecimal(-n) else NatToDecimal(n)
  }

  /** The number a string of decimal digits denotes. */
  function DecimalValue(ds: string): nat
    requires AllDigits(ds)
    decreases |ds|
  {
    if ds == [] then 0 else 10 * DecimalValue(ds[..|ds| - 1]) + DigitValue(ds[|ds| - 1])
  }

  lemma {:induction false} DecimalValueOfNatToDecimal(n: nat)
    ensures DecimalValue(NatToDecimal(n)) == n
    decreases n
  {
    if n >= 10 {
      DecimalValueOfNatToDecimal(n / 10);
      var r := NatToDecimal(n);
      assert r[..|r| - 1] == NatToDecimal(n / 10);
      assert DigitValue(DigitChar(n % 10)) == n % 10;
    } else {
      assert DigitValue(DigitChar(n)) == n;
    }
  }

  /** The digit part int() accepts: digits, single underscores only between two digits. */
  predicate IsDigitRun(s: string) {
    && s != []
    && IsDigit(s[0]) && IsDigit(s[|s| - 1])
    && (forall k :: 0 <= k < |s| ==> IsDigit(s[k]) || s[k] == '_')
    && (forall k :: 0 <= k < |s| - 1 ==> !(s[k] == '_' && s[k + 1] == '_'))
  }

  function RemoveUnderscores(s: string): (r: string)
    ensures (forall k :: 0 <= k < |s| ==> IsDigit(s[k]) || s[k] == '_') ==> AllDigits(r)
    ensures AllDigits(s) ==> r == s
    decreases |s|
  {
    if s == [] then []
    else if s[0] == '_' then RemoveUnderscores(s[1..])
    else [s[0]] + RemoveUnderscores(s[1..])
  }

  /**
   * The whitespace int() skips around the number: every str.isspace()
   * character except U+001C to U+001F. ASCII characters are not mapped before
   * the C parser, which skips only the C-locale space characters, and those
   * four separators are not among them.
   */
  predicate IntSpace(c: char) {
    IsSpace(c) && !(28 <= c as int <= 31)
  }

  /** The text int() parses: IntSpace characters removed from both ends. */
  function IntStrip(s: string): (r: string)
    ensures r != [] ==> !IntSpace(r[0]) && !IntSpace(r[|r| - 1])
  {
    var l := LStripWhile(s, IntSpace);
    var r := RStripWhile(l, IntSpace);
    assert r != [] ==> !IntSpace(r[0]) by {
      if r != [] {
        assert l != [] && l[0] == r[0];
      }
    }
    r
  }

  /** A text that neither starts nor ends with IntSpace is its own IntStrip. */
  lemma IntStripUntrimmed(s: string)
    requires s != [] ==> !IntSpace(s[0]) && !IntSpace(s[|s| - 1])
    ensures IntStrip(s) == s
  {
  }

  /** int(text) on a str: surrounding whitespace, an optional sign, ASCII digits; None where Python raises ValueError. */
  function ParseInt(text: string): (r: Option<int>) {
    ParseSigned(IntStrip(text))
  }

  /** What int() makes of the text once the surrounding whitespace is gone. */
  function ParseSigned(t: string): Option<int> {
    if t != [] && (t[0] == '-' || t[0] == '+') then
      var body := t[1..];
      if IsDigitRun(body) then
        var v: int := DecimalValue(RemoveUnderscores(body));
        Some(if t[0] == '-' then -v else v)
      else None
    else if IsDigitRun(t) then Some(DecimalValue(RemoveUnderscores(t)))
    else None
  }

  lemma DigitIsNotSpace(c: char)
    requires IsDigit(c)
    ensures !IntSpace(c)
  {
  }

  /** int() does not skip the information separators: int("\x1c5") raises, although "\x1c".isspace() holds. */
  lemma ParseIntKeepsSeparators(s: string)
    requires s == "\U{1C}5"
    ensures IsSpace(s[0]) && ParseInt(s) == None
  {
    assert !IntSpace(s[0]) && !IntSpace(s[1]);
    IntStripUntrimmed(s);
    assert s[0] != '-' && s[0] != '+' && !IsDigit(s[0]);
  }

  /** int() does skip blanks and tabs around the digits. */
  lemma ParseIntSkipsBlanks(s: string)
    requires s == " 5\t"
    ensures ParseInt(s) == Some(5)
  {
    assert IntSpace(s[0]) && !IntSpace(s[1]) && IntSpace(s[2]);
    var l := LStripWhile(s, IntSpace);
    assert l == LStripWhile(s[1..], IntSpace);
    assert l == s[1..] && |l| == 2;
    var t := RStripWhile(l, IntSpace);
    assert t == RStripWhile(l[..1], IntSpace);
    assert t == l[..1] && t[0] == '5';
    assert IntStrip(s) == t;
    assert IsDigitRun(t) && RemoveUnderscores(t) == t;
    assert DecimalValue(t) == 5 by {
      assert DecimalValue(t[..0]) == 0;
    }
  }

  /** The rendering of a natural number is a digit run int() reads back as that number. */
  lemma NatToDecimalParses(n: nat)
    ensures IsDigitRun(NatToDecimal(n))
    ensures RemoveUnderscores(NatToDecimal(n)) == NatToDecimal(n)
    ensures DecimalValue(NatToDecimal(n)) == n
  {
    DecimalValueOfNatToDecimal(n);
  }

  /** int(str(n)) == n. */
  lemma ParseIntOfIntToDecimal(n: int)
    ensures ParseInt(IntToDecimal(n)) == Some(n)
  {
    DecimalUntrimmed(n);
    if n < 0 {
      ParseNegativeDecimal(n);
    } else {
      ParseNonNegativeDecimal(n);
    }
  }

  /** str(n) has no whitespace around it. */
  lemma DecimalUntrimmed(n: int)
    ensures IntStrip(IntToDecimal(n)) == IntToDecimal(n)
  {
    var ds := NatToDecimal(if n < 0 then -n else n);
    var s := IntToDecimal(n);
    NatToDecimalParses(if n < 0 then -n else n);
    DigitIsNotSpace(ds[0]);
    DigitIsNotSpace(ds[|ds| - 1]);
    assert s[|s| - 1] == ds[|ds| - 1];
    assert s[0] == '-' || s[0] == ds[0];
    IntStripUntrimmed(s);
  }

  lemma ParseNegativeDecimal(n: int)
    requires n < 0
    ensures ParseSigned(IntToDecimal(n)) == Some(n)
  {
    var ds := NatToDecimal(-n);
    var s := "-" + ds;
    assert IntToDecimal(n) == s;
    NatToDecimalParses(-n);
    assert s[0] == '-' && s[1..] == ds;
    var v: int := DecimalValue(RemoveUnderscores(ds));
    assert v == -n;
    assert ParseSigned(s) == Some(-v);
  }

  lemma ParseNonNegativeDecimal(n: int)
    requires n >= 0
    ensures ParseSigned(IntToDecimal(n)) == Some(n)
  {
    var ds := NatToDecimal(n);
    NatToDecimalParses(n);
    assert ds[0] != '-' && ds[0] != '+';
  }
}
