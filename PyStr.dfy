/**
 * The few pieces of Python's `str` behaviour the core relies on:
 * `str.isspace`, `str.strip()`, the truth value of `s.strip()`,
 * `"".join(...)`, and `int(s)` for a decimal string.
 */
module PyStr {
  import opened Base

  /** `c.isspace()`: the characters Python's `str.split()` and `str.strip()` treat as whitespace. */
  predicate IsSpace(c: char) {
    || ('\t' <= c <= '\r')
    || ('\U{1C}' <= c <= ' ')
    || c == '\U{85}' || c == '\U{A0}' || c == '\U{1680}'
    || ('\U{2000}' <= c <= '\U{200A}')
    || c == '\U{2028}' || c == '\U{2029}' || c == '\U{202F}' || c == '\U{205F}' || c == '\U{3000}'
  }

  /** Every character of `s` is whitespace (so `s.strip()` is the falsy empty string). */
  predicate IsBlank(s: string) {
    forall i :: 0 <= i < |s| ==> IsSpace(s[i])
  }

  /** `s.lstrip()`. */
  function TrimLeft(s: string): (r: string)
    ensures |r| <= |s| && r == s[|s| - |r|..]
    ensures forall j :: 0 <= j < |s| - |r| ==> IsSpace(s[j])
    ensures r == [] || !IsSpace(r[0])
  {
    if s != [] && IsSpace(s[0]) then TrimLeft(s[1..]) else s
  }

  /** `s.rstrip()`. */
  function TrimRight(s: string): (r: string)
    ensures |r| <= |s| && r == s[..|r|]
    ensures forall j :: |r| <= j < |s| ==> IsSpace(s[j])
    ensures r == [] || !IsSpace(r[|r| - 1])
  {
    if s != [] && IsSpace(s[|s| - 1]) then TrimRight(s[..|s| - 1]) else s
  }

  /**
   * `s.strip()`: `s` with its leading and trailing whitespace removed, so the empty
   * string exactly when `s` is all whitespace.
   */
  function Strip(s: string): (r: string)
    ensures r == [] <==> IsBlank(s)
    ensures r != [] ==> !IsSpace(r[0]) && !IsSpace(r[|r| - 1])
  {
    LeftTrimmedSuffix(s);
    TrimRight(TrimLeft(s))
  }

  /** `s.lstrip()` is the tail of `s` after its leading whitespace, character for character. */
  lemma LeftTrimmedSuffix(s: string)
    ensures forall j :: |s| - |TrimLeft(s)| <= j < |s| ==> s[j] == TrimLeft(s)[j - (|s| - |TrimLeft(s)|)]
  {
    var l := TrimLeft(s);
    var i := |s| - |l|;
    forall j | i <= j < |s|
      ensures s[j] == l[j - i]
    {
      assert s[i..][j - i] == s[j];
    }
  }

  /**
   * What `strip()` returns is a slice of `s` with only whitespace before and after it,
   * and the slice neither starts nor ends with whitespace, so no more could be removed.
   */
  lemma StripMeaning(s: string)
    ensures |Strip(s)| <= |s|
    ensures exists i :: 0 <= i <= |s| - |Strip(s)| && Strip(s) == s[i..i + |Strip(s)|]
                        && IsBlank(s[..i]) && IsBlank(s[i + |Strip(s)|..])
  {
    var l := TrimLeft(s);
    var r := TrimRight(l);
    assert Strip(s) == r;
    var i := |s| - |l|;
    assert l == s[i..];
    SliceOfSuffix(s, i, |r|);
    BlankBefore(s, i);
    BlankAfter(s, l, i, |r|);
    assert 0 <= i <= |s| - |Strip(s)| && Strip(s) == s[i..i + |Strip(s)|]
           && IsBlank(s[..i]) && IsBlank(s[i + |Strip(s)|..]);
  }

  lemma SliceOfSuffix(s: string, i: nat, k: nat)
    requires i + k <= |s|
    ensures s[i..][..k] == s[i..i + k]
  {
  }

  /** Whitespace in front of position `i` makes the prefix blank. */
  lemma BlankBefore(s: string, i: nat)
    requires i <= |s| && forall j :: 0 <= j < i ==> IsSpace(s[j])
    ensures IsBlank(s[..i])
  {
    assert forall j :: 0 <= j < i ==> s[..i][j] == s[j];
  }

  /** Whitespace after position `k` of the suffix `l` of `s` makes the rest of `s` blank. */
  lemma BlankAfter(s: string, l: string, i: nat, k: nat)
    requires i <= |s| && l == s[i..] && k <= |l|
    requires forall j :: k <= j < |l| ==> IsSpace(l[j])
    ensures i + k <= |s| && IsBlank(s[i + k..])
  {
    var t := s[i + k..];
    forall j | 0 <= j < |t|
      ensures IsSpace(t[j])
    {
      assert t[j] == l[k + j];
    }
  }

  /** `"".join(ss)`. */
  function Join(ss: seq<string>): string {
    if ss == [] then "" else ss[0] + Join(ss[1..])
  }

  lemma {:induction false} JoinAppend(a: seq<string>, b: seq<string>)
    ensures Join(a + b) == Join(a) + Join(b)
  {
    if a == [] {
      assert a + b == b;
    } else {
      assert (a + b)[0] == a[0];
      assert (a + b)[1..] == a[1..] + b;
      JoinAppend(a[1..], b);
    }
  }

  // ---------------------------------------------------------------
  // int(s) for a base-10 string
  // ---------------------------------------------------------------

  predicate IsDigit(c: char) {
    '0' <= c <= '9'
  }

  function DigitValue(c: char): (d: nat)
    requires IsDigit(c)
    ensures d < 10
  {
    (c as int) - ('0' as int)
  }

  function DigitChar(d: nat): (c: char)
    requires d < 10
    ensures IsDigit(c) && DigitValue(c) == d
  {
    (('0' as int) + d) as char
  }

  predicate DigitsOrUnderscores(t: string) {
    forall i :: 0 <= i < |t| ==> IsDigit(t[i]) || t[i] == '_'
  }

  /**
   * The digit part `int()` accepts: decimal digits, starting and ending with a digit,
   * with single underscores allowed between digits.
   */
  predicate WellFormedDigits(t: string) {
    && |t| > 0
    && IsDigit(t[0])
    && IsDigit(t[|t| - 1])
    && DigitsOrUnderscores(t)
    && forall i :: 0 <= i < |t| - 1 ==> !(t[i] == '_' && t[i + 1] == '_')
  }

  /** The number the digits of `t` spell, read left to right, underscores skipped. */
  function DigitsValue(t: string): nat
    requires DigitsOrUnderscores(t)
  {
    if t == [] then 0
    else
      var p := DigitsValue(t[..|t| - 1]);
      if t[|t| - 1] == '_' then p else 10 * p + DigitValue(t[|t| - 1])
  }

  /** The number of digits in `t`, underscores not counted. */
  function DigitCount(t: string): (k: nat)
    ensures k <= |t|
  {
    if t == [] then 0 else DigitCount(t[..|t| - 1]) + (if IsDigit(t[|t| - 1]) then 1 else 0)
  }

  /**
   * CPython's default `sys.get_int_max_str_digits()` (3.11 and later): `int()` of a
   * decimal string with more digits than this raises `ValueError`.
   */
  const MaxStrDigits: nat := 4300

  /** A digit part `int()` accepts: well formed, and within the digit limit. */
  predicate Accepted(t: string) {
    WellFormedDigits(t) && DigitCount(t) <= MaxStrDigits
  }

  /**
   * `int(s)`: `Some(n)` when Python returns `n`, `None` when it raises `ValueError`.
   * Surrounding whitespace is ignored and a single leading sign is allowed.
   */
  function ParseInt(s: string): (r: Option<int>)
    ensures r.Some? ==> !IsBlank(s)
  {
    var t := Strip(s);
    if |t| > 0 && (t[0] == '+' || t[0] == '-') then
      var body := t[1..];
      if Accepted(body) then
        Some(if t[0] == '-' then -(DigitsValue(body) as int) else DigitsValue(body))
      else None
    else if Accepted(t) then Some(DigitsValue(t))
    else None
  }

  /** `str(n)` for a natural number. */
  function NatToString(n: nat): (r: string)
    ensures |r| > 0 && IsDigit(r[0]) && IsDigit(r[|r| - 1])
    ensures forall i :: 0 <= i < |r| ==> IsDigit(r[i])
  {
    if n < 10 then [DigitChar(n)] else NatToString(n / 10) + [DigitChar(n % 10)]
  }

  /** `str(n)`. */
  function IntToString(n: int): string {
    if n < 0 then "-" + NatToString(-n) else NatToString(n)
  }

  /** The number of decimal digits of `n`. */
  function DigitsOf(n: int): nat {
    if n < 0 then |NatToString(-n)| else |NatToString(n)|
  }

  /** A string of digits only has as many digits as characters. */
  lemma {:induction false} DigitCountOfDigits(t: string)
    requires forall i :: 0 <= i < |t| ==> IsDigit(t[i])
    ensures DigitCount(t) == |t|
    decreases |t|
  {
    if t != [] {
      DigitCountOfDigits(t[..|t| - 1]);
    }
  }

  lemma {:induction false} NatToStringValue(n: nat)
    ensures WellFormedDigits(NatToString(n))
    ensures DigitsValue(NatToString(n)) == n
  {
    var r := NatToString(n);
    if n >= 10 {
      NatToStringValue(n / 10);
      assert r[..|r| - 1] == NatToString(n / 10);
    }
  }

  lemma StripUnchanged(s: string)
    requires s != [] && !IsSpace(s[0]) && !IsSpace(s[|s| - 1])
    ensures Strip(s) == s
  {
  }

  /**
   * `int(str(n)) == n`: parsing what Python prints gives the number back, as long as
   * it has at most 4300 digits; with more, `int()` raises.
   */
  lemma ParseIntToString(n: int)
    ensures DigitsOf(n) <= MaxStrDigits ==> ParseInt(IntToString(n)) == Some(n)
    ensures DigitsOf(n) > MaxStrDigits ==> ParseInt(IntToString(n)) == None
  {
    if n < 0 {
      ParseNegative(-n, IntToString(n));
    } else {
      ParseNatural(n);
      assert IntToString(n) == NatToString(n);
    }
  }

  /** `int()` of a string without surrounding space or sign reads it as digits. */
  lemma ParseUnsigned(s: string)
    requires s != [] && !IsSpace(s[0]) && !IsSpace(s[|s| - 1]) && s[0] != '+' && s[0] != '-'
    ensures ParseInt(s) == if Accepted(s) then Some(DigitsValue(s)) else None
  {
    StripUnchanged(s);
  }

  /** What `str(n)` prints is accepted by `int()` exactly within the digit limit, and spells `n`. */
  lemma NatToStringAccepted(n: nat)
    ensures Accepted(NatToString(n)) <==> |NatToString(n)| <= MaxStrDigits
    ensures DigitsValue(NatToString(n)) == n
  {
    NatToStringValue(n);
    DigitCountOfDigits(NatToString(n));
  }

  lemma ParseNatural(n: nat)
    ensures |NatToString(n)| <= MaxStrDigits ==> ParseInt(NatToString(n)) == Some(n)
    ensures |NatToString(n)| > MaxStrDigits ==> ParseInt(NatToString(n)) == None
  {
    var s := NatToString(n);
    NatToStringAccepted(n);
    assert IsDigit(s[0]) && IsDigit(s[|s| - 1]);
    ParseUnsigned(s);
  }

  /** `"-" + d` is `d` behind a minus sign. */
  lemma MinusThen(d: string, s: string)
    requires s == "-" + d && d != []
    ensures |s| > 1 && s[0] == '-' && s[1..] == d && s[|s| - 1] == d[|d| - 1]
  {
  }

  /** `int()` of a string that starts with `-` and does not end with space reads the rest as digits. */
  lemma ParseMinus(s: string, d: string)
    requires |s| > 1 && s[0] == '-' && s[1..] == d && !IsSpace(s[|s| - 1])
    ensures ParseInt(s) == if Accepted(d) then Some(-(DigitsValue(d) as int)) else None
  {
    StripUnchanged(s);
  }

  lemma ParseNegative(m: nat, s: string)
    requires m > 0 && s == "-" + NatToString(m)
    ensures |NatToString(m)| <= MaxStrDigits ==> ParseInt(s) == Some(-(m as int))
    ensures |NatToString(m)| > MaxStrDigits ==> ParseInt(s) == None
  {
    var d := NatToString(m);
    MinusThen(d, s);
    StripUnchanged(s);
    NatToStringAccepted(m);
    ParseMinus(s, d);
    NatToStringValue(m);
  }

  /**
   * A character that is neither whitespace, a digit, a sign nor an underscore
   * makes `int()` raise, wherever it stands.
   */
  lemma ParseIntRejectsForeignChar(s: string, i: nat)
    requires i < |s|
    requires !IsSpace(s[i]) && !IsDigit(s[i]) && s[i] != '+' && s[i] != '-' && s[i] != '_'
    ensures ParseInt(s) == None
  {
    var l := TrimLeft(s);
    var t := TrimRight(l);
    var off := |s| - |l|;
    assert i >= off;
    assert l[i - off] == s[i];
    assert i - off < |t|;
    assert t[i - off] == s[i];
    assert !DigitsOrUnderscores(t);
    assert !Accepted(t);
    if |t| > 0 && (t[0] == '+' || t[0] == '-') {
      assert i - off > 0;
      assert t[1..][i - off - 1] == s[i];
      assert !DigitsOrUnderscores(t[1..]);
      assert !Accepted(t[1..]);
    }
  }
}
