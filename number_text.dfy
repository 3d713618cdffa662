/**
 * Integers as text, the way the profile page stores them in browser storage: written with
 * `Number.prototype.toString()` and read back with `parseInt`.
 *
 * `parseInt(text)` with no radix: leading white space is skipped, one sign is read, a `0x` or
 * `0X` prefix selects base 16 (otherwise base 10), and then the longest run of digits of that
 * base is read; when the run is empty the result is NaN (here `None`). Whatever follows the run
 * is ignored.
 */
module NumberText {
  import opened Options

  /**
   * The characters `parseInt` skips: the white space and line terminators of ECMAScript
   * (tab, vertical tab, form feed, the byte order mark, the space separators of Unicode category
   * Zs, line feed, carriage return, and the line and paragraph separators).
   */
  predicate IsSpace(c: char) {
    || c == '\t' || c == '\U{000B}' || c == '\U{000C}' || c == '\U{FEFF}'
    || c == ' ' || c == '\U{00A0}' || c == '\U{1680}' || '\U{2000}' <= c <= '\U{200A}'
    || c == '\U{202F}' || c == '\U{205F}' || c == '\U{3000}'
    || c == '\n' || c == '\r' || c == '\U{2028}' || c == '\U{2029}'
  }

  predicate IsDecimalDigit(c: char) {
    '0' <= c <= '9'
  }

  /** The value of `c` as a digit in any base up to 36, or 36 when it is not a digit at all. */
  function DigitValue(c: char): (v: nat)
    ensures v <= 36
    ensures IsDecimalDigit(c) <==> v < 10
  {
    if '0' <= c <= '9' then c as nat - '0' as nat
    else if 'a' <= c <= 'z' then c as nat - 'a' as nat + 10
    else if 'A' <= c <= 'Z' then c as nat - 'A' as nat + 10
    else 36
  }

  function DecimalDigit(d: nat): (c: char)
    requires d < 10
    ensures IsDecimalDigit(c) && DigitValue(c) == d
  {
    ('0' as nat + d) as char
  }

  // ---------------------------------------------------------------- writing

  /** The decimal digits of `n`, most significant first, without leading zeros. */
  function NatToText(n: nat): (s: string)
    ensures |s| > 0 && IsDecimalDigit(s[0])
    ensures s[0] == '0' ==> n == 0 && |s| == 1
  {
    if n < 10 then [DecimalDigit(n)] else NatToText(n / 10) + [DecimalDigit(n % 10)]
  }

  /** `n.toString()` for an integer (plain notation; see README for large magnitudes). */
  function IntToText(n: int): string {
    if n < 0 then "-" + NatToText(-n) else NatToText(n)
  }

  // ---------------------------------------------------------------- reading

  /** The text with its leading white space removed. */
  function SkipSpaces(s: string): (t: string)
    ensures t != [] ==> !IsSpace(t[0])
  {
    if s != [] && IsSpace(s[0]) then SkipSpaces(s[1..]) else s
  }

  /** Every character of `s` is a digit of base `radix`. */
  predicate AllDigits(s: string, radix: nat) {
    forall i :: 0 <= i < |s| ==> DigitValue(s[i]) < radix
  }

  /** Length of the longest prefix of `s` made of digits of base `radix`. */
  function DigitRun(s: string, radix: nat): (k: nat)
    ensures k <= |s|
    ensures AllDigits(s[..k], radix)
    ensures k < |s| ==> DigitValue(s[k]) >= radix
  {
    if s != [] && DigitValue(s[0]) < radix then 1 + DigitRun(s[1..], radix) else 0
  }

  /** A prefix of a run of digits is a run of digits. */
  lemma AllDigitsPrefix(s: string, k: nat, radix: nat)
    requires AllDigits(s, radix) && k <= |s|
    ensures AllDigits(s[..k], radix)
  {
    forall i | 0 <= i < k
      ensures DigitValue(s[..k][i]) < radix
    {
      assert s[..k][i] == s[i];
    }
  }

  /** The number a run of digits of base `radix` denotes. */
  function DigitsValue(s: string, radix: nat): nat
    requires AllDigits(s, radix)
  {
    if s == [] then 0
    else
      AllDigitsPrefix(s, |s| - 1, radix);
      var high: nat := DigitsValue(s[..|s| - 1], radix);
      assert high * radix >= 0;
      high * radix + DigitValue(s[|s| - 1])
  }

  /** The unsigned part of `parseInt`: an optional `0x`/`0X` prefix, then the longest digit run. */
  function ParseMagnitude(unsigned: string): Option<nat> {
    var hex := |unsigned| >= 2 && unsigned[0] == '0' && (unsigned[1] == 'x' || unsigned[1] == 'X');
    var radix := if hex then 16 else 10;
    var digits := if hex then unsigned[2..] else unsigned;
    var k := DigitRun(digits, radix);
    if k == 0 then None else Some(DigitsValue(digits[..k], radix))
  }

  /** JavaScript `parseInt(s)`; `None` stands for NaN. */
  function ParseInt(s: string): Option<int> {
    var t := SkipSpaces(s);
    var negative := t != [] && t[0] == '-';
    var unsigned := if t != [] && (t[0] == '-' || t[0] == '+') then t[1..] else t;
    match ParseMagnitude(unsigned)
    case None => None
    case Some(m) => Some(if negative then -(m as int) else m as int)
  }

  // ---------------------------------------------------------------- round trip

  /** The text of `n` is made of decimal digits, and reading them back gives `n`. */
  lemma {:induction false} DigitsOfNat(n: nat)
    ensures AllDigits(NatToText(n), 10) && DigitsValue(NatToText(n), 10) == n
  {
    var s := NatToText(n);
    if n >= 10 {
      var p := NatToText(n / 10);
      DigitsOfNat(n / 10);
      assert s == p + [DecimalDigit(n % 10)];
      assert AllDigits(s, 10) by {
        forall i | 0 <= i < |s|
          ensures DigitValue(s[i]) < 10
        {
          if i < |p| {
            assert s[i] == p[i];
          }
        }
      }
      assert s[..|s| - 1] == p;
    }
  }

  /** Text that may follow a number without being read as part of it. */
  predicate EndsNumber(rest: string) {
    rest == [] || (!IsDecimalDigit(rest[0]) && rest[0] != 'x' && rest[0] != 'X')
  }

  /** The digit run of a number's text followed by a non-digit is exactly the number's text. */
  lemma DigitRunOfText(n: nat, rest: string)
    requires EndsNumber(rest)
    ensures DigitRun(NatToText(n) + rest, 10) == |NatToText(n)|
  {
    var d := NatToText(n);
    var s := d + rest;
    DigitsOfNat(n);
    assert forall i :: 0 <= i < |d| ==> s[i] == d[i];
    assert rest != [] ==> s[|d|] == rest[0];
  }

  /** The unsigned reader reads back the digits of `n`. */
  lemma ParseMagnitudeReadsText(n: nat, rest: string)
    requires EndsNumber(rest)
    ensures ParseMagnitude(NatToText(n) + rest) == Some(n)
  {
    var d := NatToText(n);
    var s := d + rest;
    DigitRunOfText(n, rest);
    DigitsOfNat(n);
    assert s[..|d|] == d;
    assert |s| >= 2 && s[0] == '0' ==> s[1] == rest[0];
  }

  /** Text that starts with a digit is read by the unsigned reader alone. */
  lemma ParseUnsigned(u: string)
    requires u != [] && IsDecimalDigit(u[0])
    ensures ParseInt(u) == match ParseMagnitude(u) case None => None case Some(m) => Some(m as int)
  {
    assert SkipSpaces(u) == u;
    assert !(u[0] == '-' || u[0] == '+');
  }

  /** Text that starts with a minus sign is the negation of what follows it. */
  lemma ParseMinus(a: string, b: string)
    ensures ParseInt("-" + a + b) == match ParseMagnitude(a + b) case None => None case Some(m) => Some(-(m as int))
  {
    var s := "-" + a + b;
    assert s[1..] == a + b;
    assert SkipSpaces(s) == s;
  }

  /** `parseInt` reads back the text of a negative number. */
  lemma ParseNegativeText(m: nat, rest: string)
    requires m > 0 && EndsNumber(rest)
    ensures ParseInt("-" + NatToText(m) + rest) == Some(-(m as int))
  {
    assert ParseMagnitude(NatToText(m) + rest) == Some(m) by {
      ParseMagnitudeReadsText(m, rest);
    }
    ParseMinus(NatToText(m), rest);
  }

  /** `parseInt` reads back the text of a non-negative number. */
  lemma ParseNonNegativeText(m: nat, rest: string)
    requires EndsNumber(rest)
    ensures ParseInt(NatToText(m) + rest) == Some(m as int)
  {
    var u := NatToText(m) + rest;
    ParseMagnitudeReadsText(m, rest);
    assert u[0] == NatToText(m)[0];
    ParseUnsigned(u);
  }

  /**
   * `parseInt` reads back what `toString` wrote, also when text follows that does not continue
   * the number (`parseInt("42px") == 42`; a following `x` would turn "0" into a hex prefix).
   */
  lemma ParseIntReadsText(n: int, rest: string)
    requires EndsNumber(rest)
    ensures ParseInt(IntToText(n) + rest) == Some(n)
  {
    if n < 0 {
      ParseNegativeText(-n, rest);
    } else {
      ParseNonNegativeText(n, rest);
    }
  }

  /** `parseInt(String(n)) == n` for every integer. */
  lemma ParseIntRoundTrip(n: int)
    ensures ParseInt(IntToText(n)) == Some(n)
  {
    ParseIntReadsText(n, []);
    assert IntToText(n) + [] == IntToText(n);
  }

  /** What is left after the white space is a suffix of the text. */
  lemma {:induction false} SkipSpacesSuffix(s: string)
    ensures |SkipSpaces(s)| <= |s|
    ensures SkipSpaces(s) == s[|s| - |SkipSpaces(s)|..]
  {
    if s != [] && IsSpace(s[0]) {
      SkipSpacesSuffix(s[1..]);
    }
  }

  /** Text without any decimal digit is NaN: what a missing storage entry (`"null"`) or "" reads as. */
  lemma NoDigitsIsNaN(s: string)
    requires forall i :: 0 <= i < |s| ==> !IsDecimalDigit(s[i])
    ensures ParseInt(s) == None
  {
    var t := SkipSpaces(s);
    SkipSpacesSuffix(s);
    assert forall i :: 0 <= i < |t| ==> !IsDecimalDigit(t[i]) by {
      forall i | 0 <= i < |t| ensures !IsDecimalDigit(t[i]) {
        assert t[i] == s[|s| - |t| + i];
      }
    }
    var unsigned := if t != [] && (t[0] == '-' || t[0] == '+') then t[1..] else t;
    assert unsigned != [] ==> !IsDecimalDigit(unsigned[0]) by {
      if unsigned != [] && unsigned != t {
        assert unsigned[0] == t[1];
      }
    }
    MagnitudeNeedsDigit(unsigned);
  }

  /** Without a leading decimal digit there is neither a hex prefix nor a digit run: NaN. */
  lemma MagnitudeNeedsDigit(u: string)
    requires u != [] ==> !IsDecimalDigit(u[0])
    ensures ParseMagnitude(u) == None
  {
  }
}
