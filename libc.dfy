/**
 * The parts of the C library that the firmware relies on, stated as functions:
 * reading a NUL-terminated string out of a char buffer, the `isspace` and
 * `isdigit` classes, the prefix match that `sscanf(s, "<keyword> %d", &v)`
 * performs, and the decimal text that `%d` prints.
 */
module LibC {

  datatype Option<+T> = None | Some(value: T)

  // ---------------------------------------------------------------------------
  // C strings

  /** The string a `const char *` pointing at `s[0]` denotes: everything before the first NUL. */
  function CString(s: seq<char>): (r: seq<char>)
    ensures r <= s
    ensures '\0' !in r
    ensures |r| < |s| ==> s[|r|] == '\0'
  {
    if s == [] || s[0] == '\0' then [] else [s[0]] + CString(s[1..])
  }

  /** A NUL written at index k cuts the C string there. */
  lemma {:induction false} CStringAtNul(s: seq<char>, k: nat)
    requires k < |s| && s[k] == '\0'
    ensures CString(s) == CString(s[..k])
  {
    if k > 0 && s[0] != '\0' {
      assert s[1..][k - 1] == '\0';
      CStringAtNul(s[1..], k - 1);
      assert s[1..][..k - 1] == s[..k][1..];
    }
  }

  /** A sequence without NUL is its own C string. */
  lemma {:induction false} CStringOfPlain(s: seq<char>)
    requires '\0' !in s
    ensures CString(s) == s
  {
    if s != [] {
      assert '\0' !in s[1..];
      CStringOfPlain(s[1..]);
    }
  }

  // Sequence facts used as single proof steps: stating each as a lemma keeps
  // the proofs that need one small.

  lemma ConcatAssociative(x: seq<char>, y: seq<char>, z: seq<char>)
    ensures x + (y + z) == (x + y) + z
  {
  }

  lemma DropOne(s: seq<char>, i: nat)
    requires i < |s|
    ensures s[i..][0] == s[i] && s[i..][1..] == s[i + 1..]
  {
  }

  lemma ConcatPrefix(x: seq<char>, y: seq<char>)
    ensures (x + y)[..|x|] == x && (x + y)[|x|..] == y
  {
  }

  lemma ConcatTail(x: seq<char>, y: seq<char>)
    requires x != []
    ensures (x + y)[0] == x[0] && (x + y)[1..] == x[1..] + y
  {
  }

  // ---------------------------------------------------------------------------
  // Character classes of <ctype.h> in the "C" locale

  /** `isspace`: space, tab, newline, vertical tab, form feed, carriage return. */
  predicate IsSpace(c: char)
  {
    c == ' ' || c == '\t' || c == '\n' || c == '\U{0B}' || c == '\U{0C}' || c == '\r'
  }

  predicate IsDigit(c: char)
  {
    '0' <= c <= '9'
  }

  predicate AllSpace(s: seq<char>)
  {
    forall i :: 0 <= i < |s| ==> IsSpace(s[i])
  }

  predicate AllDigits(s: seq<char>)
  {
    forall i :: 0 <= i < |s| ==> IsDigit(s[i])
  }

  /** Whether a scan that stops at the first non-digit stops at the start of `s`. */
  predicate StartsWithNonDigit(s: seq<char>)
  {
    s == [] || !IsDigit(s[0])
  }

  /** Number of leading whitespace characters of `s`. */
  function SpaceCount(s: seq<char>): (n: nat)
    ensures n <= |s|
    ensures AllSpace(s[..n])
    ensures n < |s| ==> !IsSpace(s[n])
  {
    if s != [] && IsSpace(s[0]) then
      var n := 1 + SpaceCount(s[1..]);
      assert s[..n] == [s[0]] + s[1..][..n - 1];
      n
    else 0
  }

  /** Number of leading decimal digits of `s`. */
  function DigitCount(s: seq<char>): (n: nat)
    ensures n <= |s|
    ensures AllDigits(s[..n])
    ensures StartsWithNonDigit(s[n..])
  {
    if s != [] && IsDigit(s[0]) then
      var n := 1 + DigitCount(s[1..]);
      assert s[..n] == [s[0]] + s[1..][..n - 1];
      assert s[n..] == s[1..][n - 1..];
      n
    else 0
  }

  function DigitValue(c: char): nat
    requires IsDigit(c)
  {
    c as int - '0' as int
  }

  function DigitChar(d: nat): (c: char)
    requires d < 10
    ensures IsDigit(c) && DigitValue(c) == d
  {
    ('0' as int + d) as char
  }

  /** The number denoted by a string of decimal digits, most significant first. */
  function DigitsValue(ds: seq<char>): nat
    requires AllDigits(ds)
  {
    if ds == [] then 0
    else 10 * DigitsValue(ds[..|ds| - 1]) + DigitValue(ds[|ds| - 1])
  }

  // ---------------------------------------------------------------------------
  // sscanf(s, "<keyword> %d", &v)

  /**
   * The `%d` conversion applied to `s`: skip whitespace, accept one optional
   * sign, then at least one decimal digit, and stop at the first character
   * that is not a digit. None is a matching or input failure (no digits).
   * The value is a mathematical integer: overflow of `int` is not modelled.
   */
  function ScanInt(s: seq<char>): (r: Option<int>)
  {
    ScanNumber(s[SpaceCount(s)..])
  }

  /** The part of `%d` after the whitespace: an optional sign, then digits. */
  function ScanNumber(t: seq<char>): (r: Option<int>)
  {
    if t != [] && (t[0] == '-' || t[0] == '+') then
      match ScanDigits(t[1..])
      case None => None
      case Some(m) =>
        var magnitude: int := m;
        Some(if t[0] == '-' then -magnitude else magnitude)
    else
      match ScanDigits(t)
      case None => None
      case Some(m) => Some(m)
  }

  /** The digits at the start of `u`, as a number; None when there are none. */
  function ScanDigits(u: seq<char>): (r: Option<nat>)
  {
    var k := DigitCount(u);
    if k == 0 then None else Some(DigitsValue(u[..k]))
  }

  /**
   * Whether `sscanf(s, keyword + " %d", &v)` returns 1, and the value then
   * stored. The keyword's characters must match `s` from index 0; the space
   * in the format matches any run of whitespace, none included; the rest of
   * `s` after the digits is ignored.
   */
  function ScanKeywordInt(s: seq<char>, keyword: seq<char>): Option<int>
  {
    if keyword <= s then ScanInt(s[|keyword|..]) else None
  }

  // ---------------------------------------------------------------------------
  // printf("%d", n)

  /** Decimal digits of a natural number, without leading zeros. */
  function NatToString(n: nat): (s: seq<char>)
    ensures |s| > 0 && AllDigits(s)
    decreases n
  {
    if n < 10 then [DigitChar(n)] else NatToString(n / 10) + [DigitChar(n % 10)]
  }

  /** What `%d` prints for `n`: a minus sign for negatives, then the digits. */
  function IntToString(n: int): (s: seq<char>)
  {
    if n < 0 then "-" + NatToString(-n) else NatToString(n)
  }

  /** `%d` prints no leading zero: only 0 itself starts with the digit 0. */
  lemma {:induction false} NatToStringNoLeadingZero(n: nat)
    ensures n > 0 ==> NatToString(n)[0] != '0'
    decreases n
  {
    if n >= 10 {
      NatToStringNoLeadingZero(n / 10);
    }
  }

  /** `NatToString` and `DigitsValue` are inverse. */
  lemma {:induction false} DigitsValueOfNatToString(n: nat)
    ensures DigitsValue(NatToString(n)) == n
    decreases n
  {
    var s := NatToString(n);
    if n >= 10 {
      DigitsValueOfNatToString(n / 10);
      assert s[..|s| - 1] == NatToString(n / 10);
    }
  }

  /** A run of digits followed by a non-digit is scanned up to its end. */
  lemma {:induction false} DigitCountOfDigits(ds: seq<char>, rest: seq<char>)
    requires AllDigits(ds) && StartsWithNonDigit(rest)
    ensures DigitCount(ds + rest) == |ds|
  {
    if ds != [] {
      assert (ds + rest)[1..] == ds[1..] + rest;
      DigitCountOfDigits(ds[1..], rest);
    }
  }

  /** Leading whitespace is skipped exactly. */
  lemma {:induction false} SpaceCountOfSpaces(ws: seq<char>, t: seq<char>)
    requires AllSpace(ws) && (t == [] || !IsSpace(t[0]))
    ensures SpaceCount(ws + t) == |ws|
  {
    if ws != [] {
      assert (ws + t)[1..] == ws[1..] + t;
      SpaceCountOfSpaces(ws[1..], t);
    }
  }

  /** Whitespace before the number is skipped. */
  lemma ScanIntSkipsSpace(ws: seq<char>, t: seq<char>)
    requires AllSpace(ws) && (t == [] || !IsSpace(t[0]))
    ensures ScanInt(ws + t) == ScanNumber(t)
  {
    SpaceCountOfSpaces(ws, t);
    assert (ws + t)[|ws|..] == t;
  }

  /** Digits are read up to the first non-digit. */
  lemma ScanDigitsOf(ds: seq<char>, rest: seq<char>)
    requires |ds| > 0 && AllDigits(ds) && StartsWithNonDigit(rest)
    ensures ScanDigits(ds + rest) == Some(DigitsValue(ds))
  {
    DigitCountOfDigits(ds, rest);
    ConcatPrefix(ds, rest);
  }

  /** Unsigned digits are read as they stand. */
  lemma ScanNumberOfDigits(ds: seq<char>, rest: seq<char>)
    requires |ds| > 0 && AllDigits(ds) && StartsWithNonDigit(rest)
    ensures ScanNumber(ds + rest) == Some(DigitsValue(ds))
  {
    ScanDigitsOf(ds, rest);
    ConcatTail(ds, rest);
  }

  /** A minus sign negates the digits that follow it. */
  lemma ScanNumberOfNegative(t: seq<char>, ds: seq<char>, rest: seq<char>)
    requires |ds| > 0 && AllDigits(ds) && StartsWithNonDigit(rest)
    requires t != [] && t[0] == '-' && t[1..] == ds + rest
    ensures ScanNumber(t) == Some(-(DigitsValue(ds) as int))
  {
    ScanDigitsOf(ds, rest);
  }

  /** A plus sign leaves the digits that follow it as they are. */
  lemma ScanNumberOfPositive(t: seq<char>, ds: seq<char>, rest: seq<char>)
    requires |ds| > 0 && AllDigits(ds) && StartsWithNonDigit(rest)
    requires t != [] && t[0] == '+' && t[1..] == ds + rest
    ensures ScanNumber(t) == Some(DigitsValue(ds) as int)
  {
    ScanDigitsOf(ds, rest);
  }

  /**
   * Round trip of `%d`: scanning what `%d` prints, after any whitespace and
   * before anything that is not a digit, gives back the number.
   */
  lemma ScanIntOfIntToString(ws: seq<char>, n: int, rest: seq<char>)
    requires AllSpace(ws) && StartsWithNonDigit(rest)
    ensures ScanInt(ws + IntToString(n) + rest) == Some(n)
  {
    var m: nat := if n < 0 then -n else n;
    var digits := NatToString(m);
    DigitsValueOfNatToString(m);
    if n < 0 {
      ConcatAssociative(ws, "-" + digits, rest);
      ConcatAssociative("-", digits, rest);
      ConcatTail("-", digits + rest);
      ScanNumberOfNegative("-" + (digits + rest), digits, rest);
      ScanIntSkipsSpace(ws, "-" + (digits + rest));
    } else {
      ConcatAssociative(ws, digits, rest);
      ScanNumberOfDigits(digits, rest);
      ScanIntSkipsSpace(ws, digits + rest);
    }
  }

  /**
   * The keyword, any whitespace, a number as `%d` prints it and anything that
   * does not continue the digits: `sscanf` matches and stores that number.
   */
  lemma ScanKeywordIntOf(keyword: seq<char>, ws: seq<char>, n: int, rest: seq<char>)
    requires AllSpace(ws) && StartsWithNonDigit(rest)
    ensures ScanKeywordInt(keyword + ws + IntToString(n) + rest, keyword) == Some(n)
  {
    var tail := ws + IntToString(n) + rest;
    assert keyword + ws + IntToString(n) + rest == keyword + tail;
    ConcatPrefix(keyword, tail);
    ScanIntOfIntToString(ws, n, rest);
  }

  /** A line that does not start with the keyword does not match, whatever follows. */
  lemma ScanKeywordIntMismatch(s: seq<char>, keyword: seq<char>, k: nat)
    requires k < |keyword| && (k >= |s| || s[k] != keyword[k])
    ensures ScanKeywordInt(s, keyword) == None
  {
  }

  /**
   * `%d` fails when, after the whitespace, no digit follows, either at once
   * or after one sign.
   */
  lemma ScanIntWithoutNumber(ws: seq<char>, t: seq<char>)
    requires AllSpace(ws)
    requires t == [] || (!IsSpace(t[0]) && !IsDigit(t[0])
      && ((t[0] != '-' && t[0] != '+') || StartsWithNonDigit(t[1..])))
    ensures ScanInt(ws + t) == None
  {
    ScanIntSkipsSpace(ws, t);
  }
}
