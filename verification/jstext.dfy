/**
 * The JavaScript built-ins that processData leans on, restricted to what a
 * token can reach: String.prototype.trim, the numeric tests isNaN(Number(s))
 * and isNaN(parseFloat(s)), parseInt(s), toUpperCase/toLowerCase on ASCII
 * letters, and Number.prototype.toString on an integer.
 *
 * Numbers follow a deliberately small grammar: optional surrounding
 * whitespace, an optional '+' or '-', one or more decimal digits, and an
 * optional '.' followed by decimal digits. Exponents, hexadecimal and binary
 * prefixes, "Infinity" and a fraction without an integer part (".5") are not
 * part of it, and values are exact (int and real) rather than IEEE doubles.
 */
module JsText {

  datatype Option<T> = None | Some(value: T)

  // ---------------------------------------------------------------------
  // Character classes

  predicate IsLower(c: char) { 'a' <= c <= 'z' }
  predicate IsUpper(c: char) { 'A' <= c <= 'Z' }
  predicate IsAsciiLetter(c: char) { IsLower(c) || IsUpper(c) }
  predicate IsDigit(c: char) { '0' <= c <= '9' }

  /** The WhiteSpace and LineTerminator code points that trim() and Number() skip. */
  predicate IsJsSpace(c: char) {
    var n := c as int;
    n == 0x09 || n == 0x0A || n == 0x0B || n == 0x0C || n == 0x0D || n == 0x20 ||
    n == 0xA0 || n == 0x1680 || 0x2000 <= n <= 0x200A || n == 0x2028 ||
    n == 0x2029 || n == 0x202F || n == 0x205F || n == 0x3000 || n == 0xFEFF
  }

  predicate AllDigits(s: string) { forall i :: 0 <= i < |s| ==> IsDigit(s[i]) }

  // ---------------------------------------------------------------------
  // Case conversion (only ASCII letters ever reach it)

  function ToUpper(c: char): (u: char)
    ensures IsAsciiLetter(c) ==> IsUpper(u)
    ensures IsAsciiLetter(c) ==> CaseFold(u) == CaseFold(c)
    ensures !IsAsciiLetter(c) ==> u == c
  {
    if IsLower(c) then (c as int - 32) as char else c
  }

  function ToLower(c: char): (l: char)
    ensures IsAsciiLetter(c) ==> IsLower(l)
    ensures IsAsciiLetter(c) ==> CaseFold(l) == CaseFold(c)
    ensures !IsAsciiLetter(c) ==> l == c
  {
    if IsUpper(c) then (c as int + 32) as char else c
  }

  /** The position of a letter in the alphabet, ignoring case; the identity code elsewhere. */
  function CaseFold(c: char): int {
    if IsLower(c) then c as int - 'a' as int
    else if IsUpper(c) then c as int - 'A' as int
    else c as int
  }

  /** String.prototype.toUpperCase on ASCII text. */
  function UpperStr(s: string): (r: string)
    ensures |r| == |s|
  {
    seq(|s|, i requires 0 <= i < |s| => ToUpper(s[i]))
  }

  lemma UpperLowerAgree(c: char)
    requires IsAsciiLetter(c)
    ensures ToUpper(ToLower(c)) == ToUpper(c) && ToUpper(ToUpper(c)) == ToUpper(c)
  {
  }

  // ---------------------------------------------------------------------
  // String.prototype.trim

  function TrimStart(s: string): (r: string)
    ensures |r| <= |s|
    decreases |s|
  {
    if |s| > 0 && IsJsSpace(s[0]) then TrimStart(s[1..]) else s
  }

  function TrimEnd(s: string): (r: string)
    ensures |r| <= |s|
    decreases |s|
  {
    if |s| > 0 && IsJsSpace(s[|s| - 1]) then TrimEnd(s[..|s| - 1]) else s
  }

  /** trimStart() removes exactly the leading whitespace. */
  lemma {:induction false} TrimStartFacts(s: string)
    ensures TrimStart(s) == s[|s| - |TrimStart(s)|..]
    ensures TrimStart(s) == [] || !IsJsSpace(TrimStart(s)[0])
    ensures forall i :: 0 <= i < |s| - |TrimStart(s)| ==> IsJsSpace(s[i])
  {
    if |s| > 0 && IsJsSpace(s[0]) {
      TrimStartFacts(s[1..]);
    }
  }

  /** trimEnd() removes exactly the trailing whitespace. */
  lemma {:induction false} TrimEndFacts(s: string)
    ensures TrimEnd(s) == s[..|TrimEnd(s)|]
    ensures TrimEnd(s) == [] || !IsJsSpace(TrimEnd(s)[|TrimEnd(s)| - 1])
    ensures forall i :: |TrimEnd(s)| <= i < |s| ==> IsJsSpace(s[i])
  {
    if |s| > 0 && IsJsSpace(s[|s| - 1]) {
      TrimEndFacts(s[..|s| - 1]);
    }
  }

  function Trim(s: string): string {
    TrimEnd(TrimStart(s))
  }

  // ---------------------------------------------------------------------
  // Decimal literals

  /** 1 when the text starts with a sign character, else 0. */
  function SignLength(b: string): (n: nat)
    ensures n <= |b|
    ensures n == 1 <==> |b| > 0 && (b[0] == '+' || b[0] == '-')
  {
    if |b| > 0 && (b[0] == '+' || b[0] == '-') then 1 else 0
  }

  predicate IsNegative(b: string) { |b| > 0 && b[0] == '-' }

  /** The length of the longest all-digit prefix. */
  function DigitRun(s: string): (k: nat)
    ensures k <= |s|
  {
    if |s| > 0 && IsDigit(s[0]) then 1 + DigitRun(s[1..]) else 0
  }

  /** The digit run is all digits, and stops at a non-digit or at the end. */
  lemma {:induction false} DigitRunFacts(s: string)
    ensures AllDigits(s[..DigitRun(s)])
    ensures DigitRun(s) < |s| ==> !IsDigit(s[DigitRun(s)])
  {
    if |s| > 0 && IsDigit(s[0]) {
      DigitRunFacts(s[1..]);
      assert s[..DigitRun(s)] == [s[0]] + s[1..][..DigitRun(s[1..])];
    }
  }

  function DigitValue(c: char): (d: nat)
    requires IsDigit(c)
    ensures d < 10
  {
    c as int - '0' as int
  }

  /** The value of a string of decimal digits (0 for the empty string). */
  function DigitsValue(d: string): nat
    requires AllDigits(d)
  {
    if d == [] then 0 else 10 * DigitsValue(d[..|d| - 1]) + DigitValue(d[|d| - 1])
  }

  /** The value of the digits after a decimal point: 0.d0 d1 d2 ... */
  function FractionValue(d: string): (f: real)
    requires AllDigits(d)
    ensures 0.0 <= f < 1.0
  {
    if d == [] then 0.0 else (DigitValue(d[0]) as real + FractionValue(d[1..])) / 10.0
  }

  /**
   * A complete decimal literal, with no surrounding whitespace: a sign,
   * at least one digit, and optionally '.' and digits.
   */
  predicate IsDecimalLiteral(b: string) {
    var m := b[SignLength(b)..];
    var k := DigitRun(m);
    k > 0 && (k == |m| || (m[k] == '.' && AllDigits(m[k + 1..])))
  }

  /** isNaN(s), i.e. Number(s) is NaN: blank text converts to 0, a literal to its value. */
  predicate NumberIsNaN(s: string) {
    var b := Trim(s);
    !(b == [] || IsDecimalLiteral(b))
  }

  /** parseFloat(s): the longest decimal prefix after leading whitespace, or NaN (None). */
  function ParseFloat(s: string): Option<real> {
    var b := TrimStart(s);
    var m := b[SignLength(b)..];
    var k := DigitRun(m);
    DigitRunFacts(m);
    if k == 0 then None
    else
      var rest := if k < |m| && m[k] == '.' then m[k + 1..] else [];
      DigitRunFacts(rest);
      var fraction := rest[..DigitRun(rest)];
      var magnitude := DigitsValue(m[..k]) as real + FractionValue(fraction);
      Some(if IsNegative(b) then -magnitude else magnitude)
  }

  /** parseInt(s) in base 10: sign and leading digits after leading whitespace, or NaN (None). */
  function ParseInt(s: string): Option<int> {
    var b := TrimStart(s);
    var m := b[SignLength(b)..];
    var k := DigitRun(m);
    DigitRunFacts(m);
    if k == 0 then None
    else Some(if IsNegative(b) then -(DigitsValue(m[..k]) as int) else DigitsValue(m[..k]))
  }

  /** Rounds toward zero, as parseInt does to the number it reads. */
  function Truncate(x: real): int {
    if x >= 0.0 then x.Floor else -((-x).Floor)
  }

  /** The numeric test of processData as written: !isNaN(s) && !isNaN(parseFloat(s)) && s.trim() !== ''. */
  predicate NumericTest(s: string) {
    !NumberIsNaN(s) && ParseFloat(s).Some? && Trim(s) != []
  }

  /** A numeric token: its trimmed form is a decimal literal (equivalent to NumericTest). */
  predicate IsNumericToken(s: string) {
    IsDecimalLiteral(Trim(s))
  }

  /** The integer that processData adds to the sum for a numeric token: parseInt(s). */
  function IntValue(s: string): int
    requires IsNumericToken(s)
  {
    NumericTokenParses(s);
    ParseInt(s).value
  }

  // ---------------------------------------------------------------------
  // Number.prototype.toString on integers

  function DigitChar(d: nat): (c: char)
    requires d < 10
    ensures IsDigit(c) && DigitValue(c) == d
  {
    ('0' as int + d) as char
  }

  function NatToString(n: nat): (s: string)
    ensures |s| > 0 && AllDigits(s)
  {
    if n < 10 then [DigitChar(n)] else NatToString(n / 10) + [DigitChar(n % 10)]
  }

  function IntToString(n: int): string {
    if n < 0 then "-" + NatToString(-n) else NatToString(n)
  }

  // ---------------------------------------------------------------------
  // Lemmas

  /** DigitRun is determined by where the digits stop. */
  lemma {:induction false} DigitRunIs(s: string, k: nat)
    requires k <= |s| && AllDigits(s[..k]) && (k < |s| ==> !IsDigit(s[k]))
    ensures DigitRun(s) == k
  {
    if k > 0 {
      assert IsDigit(s[..k][0]);
      assert s[1..][..k - 1] == s[..k][1..];
      DigitRunIs(s[1..], k - 1);
    }
  }

  /** Trimmed text is a piece of the text with only leading whitespace removed. */
  lemma TrimIsPrefixOfTrimStart(s: string)
    ensures Trim(s) == TrimStart(s)[..|Trim(s)|]
    ensures forall i :: |Trim(s)| <= i < |TrimStart(s)| ==> IsJsSpace(TrimStart(s)[i])
  {
    TrimEndFacts(TrimStart(s));
  }

  /**
   * The three tests of processData's numeric branch together accept exactly
   * the strings whose trimmed form is a decimal literal.
   */
  lemma {:induction false} NumericTokenIsLiteral(s: string)
    ensures NumericTest(s) <==> IsNumericToken(s)
    ensures IsNumericToken(s) ==> ParseInt(s).Some?
  {
    var t := TrimStart(s);
    var b := Trim(s);
    TrimIsPrefixOfTrimStart(s);
    if IsDecimalLiteral(b) {
      assert |b| > 0;
      assert t[0] == b[0];
      assert SignLength(t) == SignLength(b);
      var sl := SignLength(b);
      assert t[sl..][0] == b[sl..][0];
      assert DigitRun(b[sl..]) > 0;
      assert IsDigit(b[sl..][0]);
      assert DigitRun(t[sl..]) > 0;
    }
  }

  /** parseInt reads a number from every numeric token. */
  lemma NumericTokenParses(s: string)
    requires IsNumericToken(s)
    ensures ParseInt(s).Some?
  {
    var t := TrimStart(s);
    var b := Trim(s);
    TrimIsPrefixOfTrimStart(s);
    assert t[0] == b[0];
    var sl := SignLength(b);
    assert t[sl..][0] == b[sl..][0];
  }

  /**
   * parseInt and parseFloat read the same prefix: one is NaN exactly when
   * the other is, and parseInt is parseFloat rounded toward zero.
   */
  lemma ParseFloatAndParseIntAgree(s: string)
    ensures ParseInt(s).Some? <==> ParseFloat(s).Some?
    ensures ParseInt(s).Some? ==> ParseInt(s).value == Truncate(ParseFloat(s).value)
  {
    var b := TrimStart(s);
    var m := b[SignLength(b)..];
    var k := DigitRun(m);
    DigitRunFacts(m);
    if k > 0 {
      var rest := if k < |m| && m[k] == '.' then m[k + 1..] else [];
      DigitRunFacts(rest);
      var fraction := rest[..DigitRun(rest)];
      var n := DigitsValue(m[..k]);
      var f := FractionValue(fraction);
      assert (n as real + f).Floor == n;
    }
  }

  lemma {:induction false} DigitsOfNat(n: nat)
    ensures DigitsValue(NatToString(n)) == n
  {
    if n >= 10 {
      var s := NatToString(n);
      assert s[..|s| - 1] == NatToString(n / 10);
      DigitsOfNat(n / 10);
    }
  }

  /** sum.toString() reads back, through parseInt, as the same integer. */
  lemma IntToStringRoundTrip(n: int)
    ensures IsNumericToken(IntToString(n))
    ensures IntValue(IntToString(n)) == n
    ensures Trim(IntToString(n)) == IntToString(n)
  {
    var s := IntToString(n);
    var d := NatToString(if n < 0 then -n else n);
    assert s == (if n < 0 then "-" else "") + d;
    assert !IsJsSpace(s[0]) && !IsJsSpace(s[|s| - 1]);
    assert TrimStart(s) == s;
    assert TrimEnd(s) == s;
    var m := s[SignLength(s)..];
    assert m == d;
    DigitRunIs(m, |m|);
    assert m[..|m|] == d;
    DigitsOfNat(if n < 0 then -n else n);
    NumericTokenIsLiteral(s);
  }
}
