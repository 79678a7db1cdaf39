/**
 * Conversions between integers and their text form, shared by the web
 * application and the scraper:
 *  - `parseInt(s)` as JavaScript evaluates it with no radix argument
 *    (used for `page`, `limit` and the row count in
 *    student-rank-app/src/app/api/students/route.ts and
 *    student-rank-app/src/app/page.tsx); `NaN` is `None`;
 *  - the decimal form of an integer, which is what JavaScript's
 *    `Number.prototype.toString()` and Python's `str(int)` produce.
 */
module NumberText {

  import opened Optional

  /** The white space that `parseInt` skips before the number: the
      WhiteSpace and LineTerminator characters of ECMAScript. */
  predicate IsJsSpace(c: char)
  {
    // tab, line feed, vertical tab, form feed, carriage return
    || c == '\t' || c == '\n' || c == '\U{000B}' || c == '\U{000C}' || c == '\r'
    // the space separators (Unicode category Zs)
    || c == ' ' || c == '\U{00A0}' || c == '\U{1680}' || '\U{2000}' <= c <= '\U{200A}'
    || c == '\U{202F}' || c == '\U{205F}' || c == '\U{3000}'
    // line and paragraph separators, and the byte order mark
    || c == '\U{2028}' || c == '\U{2029}' || c == '\U{FEFF}'
  }

  /** The value of `c` as a digit in bases up to 36, or 36 when it is none. */
  function DigitValue(c: char): (d: nat)
    ensures d <= 36
    ensures '0' <= c <= '9' <==> d < 10
  {
    if '0' <= c <= '9' then c as int - '0' as int
    else if 'a' <= c <= 'z' then c as int - 'a' as int + 10
    else if 'A' <= c <= 'Z' then c as int - 'A' as int + 10
    else 36
  }

  /** The length of the longest prefix of `s` made of digits of base `radix`. */
  function DigitRun(s: string, radix: nat): (k: nat)
    ensures k <= |s|
    ensures forall i :: 0 <= i < k ==> DigitValue(s[i]) < radix
    ensures k < |s| ==> DigitValue(s[k]) >= radix
  {
    if |s| == 0 || DigitValue(s[0]) >= radix then 0 else 1 + DigitRun(s[1..], radix)
  }

  /** The value of a string of digits read most significant first. */
  function DigitsValue(s: string, radix: nat): nat
  {
    if |s| == 0 then 0
    else DigitsValue(s[..|s| - 1], radix) * radix + DigitValue(s[|s| - 1])
  }

  /** The first index of `s` at or after `i` that is not JavaScript white space. */
  function SkipSpace(s: string, i: nat): (j: nat)
    requires i <= |s|
    ensures i <= j <= |s|
    ensures forall k :: i <= k < j ==> IsJsSpace(s[k])
    ensures j < |s| ==> !IsJsSpace(s[j])
    decreases |s| - i
  {
    if i < |s| && IsJsSpace(s[i]) then SkipSpace(s, i + 1) else i
  }

  /** The number after the sign: base 16 after `0x` or `0X`, else base 10;
      the longest run of digits is read, and no digit at all is NaN. */
  function ParseUnsigned(u: string): (r: Option<nat>)
  {
    var hex := |u| >= 2 && u[0] == '0' && (u[1] == 'x' || u[1] == 'X');
    var radix := if hex then 16 else 10;
    var body := if hex then u[2..] else u;
    var k := DigitRun(body, radix);
    if k == 0 then None else Some(DigitsValue(body[..k], radix))
  }

  /** Whether `s` has `0x` or `0X` at `k`. */
  predicate HexPrefixAt(s: string, k: nat)
  {
    k + 1 < |s| && s[k] == '0' && (s[k + 1] == 'x' || s[k + 1] == 'X')
  }

  /** Where the number proper starts: after the white space and one sign. */
  function NumberStart(s: string): (k: nat)
    ensures SkipSpace(s, 0) <= k <= |s|
  {
    var j := SkipSpace(s, 0);
    if j < |s| && (s[j] == '-' || s[j] == '+') then j + 1 else j
  }

  /** `parseInt(s)`: skip white space, read an optional sign, then the number.
      It is NaN exactly when no decimal digit follows the sign, or when a `0x`
      prefix is followed by no hexadecimal digit; it is negative only after
      a minus sign. */
  function ParseInt(s: string): (r: Option<int>)
    ensures var k := NumberStart(s);
      r.Some? <==> k < |s| && '0' <= s[k] <= '9'
                   && (HexPrefixAt(s, k) ==> k + 2 < |s| && DigitValue(s[k + 2]) < 16)
    ensures r.Some? && r.value < 0 ==> s[SkipSpace(s, 0)] == '-'
  {
    var t := s[SkipSpace(s, 0)..];
    var negative := |t| > 0 && t[0] == '-';
    var u := if |t| > 0 && (t[0] == '-' || t[0] == '+') then t[1..] else t;
    assert u == s[NumberStart(s)..];
    match ParseUnsigned(u)
    case None => None
    case Some(m) =>
      var v: int := if negative then -(m as int) else m;
      Some(v)
  }

  /** The decimal digit for `d`. */
  function DigitChar(d: nat): (c: char)
    requires d < 10
    ensures '0' <= c <= '9' && DigitValue(c) == d
  {
    (d + '0' as int) as char
  }

  /** The decimal form of a natural number, without leading zeros. */
  function NatToString(n: nat): (s: string)
    ensures |s| >= 1
    ensures forall i :: 0 <= i < |s| ==> '0' <= s[i] <= '9'
    ensures s[0] == '0' ==> n == 0 && |s| == 1
  {
    if n < 10 then [DigitChar(n)] else NatToString(n / 10) + [DigitChar(n % 10)]
  }

  /** The decimal form of an integer: `String(n)` in JavaScript, `str(n)` in
      Python. It starts with `-` exactly for negative n, the rest is a run of
      digits without leading zeros. */
  function IntToString(n: int): (s: string)
    ensures |s| >= 1
    ensures (s[0] == '-') <==> n < 0
    ensures n < 0 ==> |s| >= 2 && s[1] != '0'
    ensures forall i :: (if n < 0 then 1 else 0) <= i < |s| ==> '0' <= s[i] <= '9'
  {
    if n < 0 then "-" + NatToString(-n) else NatToString(n)
  }

  /** `x.toString()` for a JavaScript number that is an integer or NaN. */
  function NumberToString(x: Option<int>): (s: string)
    ensures x.None? <==> s == "NaN"
  {
    match x
    case Some(n) => IntToString(n)
    case None => "NaN"
  }

  /** Reading back the decimal digits of `n` gives `n`. */
  lemma {:induction false} NatToStringValue(n: nat)
    ensures DigitsValue(NatToString(n), 10) == n
  {
    var s := NatToString(n);
    if n >= 10 {
      NatToStringValue(n / 10);
      assert s[..|s| - 1] == NatToString(n / 10);
    }
  }

  /** The whole of `NatToString(n)` is one decimal digit run. */
  lemma NatToStringIsDigitRun(n: nat)
    ensures DigitRun(NatToString(n), 10) == |NatToString(n)|
  {
    var s := NatToString(n);
    assert forall i :: 0 <= i < |s| ==> DigitValue(s[i]) < 10;
    DigitRunAll(s, 10);
  }

  lemma {:induction false} DigitRunAll(s: string, radix: nat)
    requires forall i :: 0 <= i < |s| ==> DigitValue(s[i]) < radix
    ensures DigitRun(s, radix) == |s|
  {
    if |s| > 0 {
      DigitRunAll(s[1..], radix);
    }
  }

  /** The decimal form of `m` reads back as `m` after the sign. */
  lemma ParseUnsignedOfNatToString(m: nat)
    ensures ParseUnsigned(NatToString(m)) == Some(m)
  {
    var d := NatToString(m);
    NatToStringIsDigitRun(m);
    NatToStringValue(m);
    assert d[..|d|] == d;
  }

  /** A string that starts with a digit is read by `ParseUnsigned` as it is. */
  lemma ParseIntOfDigits(u: string, m: nat)
    requires |u| >= 1 && '0' <= u[0] <= '9'
    requires ParseUnsigned(u) == Some(m)
    ensures ParseInt(u) == Some(m)
  {
    assert !IsJsSpace(u[0]) && u[0] != '-' && u[0] != '+';
    assert SkipSpace(u, 0) == 0;
    assert u[0..] == u;
  }

  /** A minus sign followed by digits is read as the negated number. */
  lemma ParseIntOfNegatedDigits(u: string, m: nat)
    requires |u| >= 1 && '0' <= u[0] <= '9'
    requires ParseUnsigned(u) == Some(m)
    ensures ParseInt("-" + u) == Some(-(m as int))
  {
    var s := "-" + u;
    assert !IsJsSpace(s[0]);
    assert s[SkipSpace(s, 0)..] == s;
    assert s[1..] == u;
  }

  /** `parseInt(String(n))` is n for every integer n. */
  lemma ParseIntOfIntToString(n: int)
    ensures ParseInt(IntToString(n)) == Some(n)
  {
    var m := if n < 0 then -n else n;
    ParseUnsignedOfNatToString(m);
    if n < 0 {
      ParseIntOfNegatedDigits(NatToString(m), m);
    } else {
      ParseIntOfDigits(NatToString(m), m);
    }
  }

  /** `parseInt(x.toString())` is x again, NaN included. */
  lemma ParseIntOfNumberToString(x: Option<int>)
    ensures ParseInt(NumberToString(x)) == x
  {
    match x
    case Some(n) => ParseIntOfIntToString(n);
    case None =>
      assert SkipSpace("NaN", 0) == 0;
      assert DigitRun("NaN", 10) == 0;
  }

  /** Different naturals have different decimal forms. */
  lemma {:induction false} NatToStringInjective(a: nat, b: nat)
    requires NatToString(a) == NatToString(b)
    ensures a == b
  {
    NatToStringValue(a);
    NatToStringValue(b);
  }
}
