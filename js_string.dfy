/**
 * The few ECMAScript string built-ins that the page-selection parser, the
 * rate-card page and the request guard rely on, written out so that
 * their edge cases are part of the model: `trim`, `split` on one character,
 * `includes`, `startsWith`, ASCII `toLowerCase`/`toUpperCase`, and `parseInt`
 * with no radix argument.
 */
module JsString {
  import opened Wrappers

  /**
   * The characters `String.prototype.trim` and `parseInt` strip: WhiteSpace
   * (tab, vertical tab, form feed, space, no-break space, the Unicode space
   * separators and the byte order mark) and LineTerminator (line feed, carriage
   * return, line and paragraph separators).
   */
  predicate IsWhiteSpace(c: char) {
    || ('\t' <= c <= '\r')
    || c == ' ' || c == '\U{A0}' || c == '\U{1680}'
    || ('\U{2000}' <= c <= '\U{200A}')
    || c == '\U{2028}' || c == '\U{2029}' || c == '\U{202F}' || c == '\U{205F}'
    || c == '\U{3000}' || c == '\U{FEFF}'
  }

  function TrimStart(s: string): (r: string)
    ensures |r| <= |s| && r == s[|s| - |r|..]
    ensures forall i :: 0 <= i < |s| - |r| ==> IsWhiteSpace(s[i])
    ensures |r| > 0 ==> !IsWhiteSpace(r[0])
    decreases |s|
  {
    if |s| > 0 && IsWhiteSpace(s[0]) then TrimStart(s[1..]) else s
  }

  function TrimEnd(s: string): (r: string)
    ensures |r| <= |s| && r == s[..|r|]
    ensures forall i :: |r| <= i < |s| ==> IsWhiteSpace(s[i])
    ensures |r| > 0 ==> !IsWhiteSpace(r[|r| - 1])
    decreases |s|
  {
    if |s| > 0 && IsWhiteSpace(s[|s| - 1]) then TrimEnd(s[..|s| - 1]) else s
  }

  /** `s.trim()`: leading and trailing white space removed. */
  function Trim(s: string): (r: string)
    ensures |r| > 0 ==> !IsWhiteSpace(r[0]) && !IsWhiteSpace(r[|r| - 1])
  {
    TrimEnd(TrimStart(s))
  }

  lemma TrimNoWhiteSpace(s: string)
    requires forall i :: 0 <= i < |s| ==> !IsWhiteSpace(s[i])
    ensures Trim(s) == s
  {
  }

  /** `s.split(sep)` for a one-character separator: the pieces between separators, in order. */
  function Split(s: string, sep: char): (parts: seq<string>)
    ensures |parts| >= 1
    ensures (sep in s) <==> |parts| >= 2
    ensures forall i :: 0 <= i < |parts| ==> sep !in parts[i]
    decreases |s|
  {
    if |s| == 0 then [""]
    else
      var rest := Split(s[1..], sep);
      if s[0] == sep then [""] + rest
      else [[s[0]] + rest[0]] + rest[1..]
  }

  lemma {:induction false} SplitWithoutSep(s: string, sep: char)
    requires sep !in s
    ensures Split(s, sep) == [s]
    decreases |s|
  {
    if |s| > 0 {
      SplitWithoutSep(s[1..], sep);
      assert [s[0]] + s[1..] == s;
    }
  }

  lemma {:induction false} SplitAtFirstSep(x: string, sep: char, y: string)
    requires sep !in x
    ensures Split(x + [sep] + y, sep) == [x] + Split(y, sep)
    decreases |x|
  {
    var s := x + [sep] + y;
    if |x| == 0 {
      assert s[1..] == y;
    } else {
      assert s[1..] == x[1..] + [sep] + y;
      SplitAtFirstSep(x[1..], sep, y);
      assert [x[0]] + x[1..] == x;
    }
  }

  /** A text with one separator splits into the two sides of it. */
  lemma SplitInTwo(x: string, sep: char, y: string)
    requires sep !in x && sep !in y
    ensures Split(x + [sep] + y, sep) == [x, y]
  {
    SplitAtFirstSep(x, sep, y);
    SplitWithoutSep(y, sep);
  }

  function LowerChar(c: char): char {
    if 'A' <= c <= 'Z' then (c as int + 32) as char else c
  }

  function UpperChar(c: char): char {
    if 'a' <= c <= 'z' then (c as int - 32) as char else c
  }

  /**
   * `s.toLowerCase()` restricted to ASCII letters. No other code point lowercases
   * to one of the words compared against.
   */
  function ToLower(s: string): (r: string)
    ensures |r| == |s|
    ensures forall i :: 0 <= i < |s| ==> r[i] == LowerChar(s[i])
  {
    seq(|s|, i requires 0 <= i < |s| => LowerChar(s[i]))
  }

  /** `s.toUpperCase()` restricted to ASCII letters. */
  function ToUpper(s: string): (r: string)
    ensures |r| == |s|
    ensures forall i :: 0 <= i < |s| ==> r[i] == UpperChar(s[i])
  {
    seq(|s|, i requires 0 <= i < |s| => UpperChar(s[i]))
  }

  /** The value of `c` as a digit in base `radix` (10 or 16), or -1 when it is not one. */
  function DigitValue(c: char, radix: int): (d: int)
    ensures -1 <= d < 16
    ensures d >= 0 ==> d < radix
    ensures radix == 10 ==> (d >= 0 <==> '0' <= c <= '9')
    ensures radix == 16 ==> (d >= 0 <==> '0' <= c <= '9' || 'a' <= c <= 'f' || 'A' <= c <= 'F')
    ensures (radix == 10 || radix == 16) && '0' <= c <= '9' ==> d == c as int - '0' as int
    ensures radix == 16 && 'a' <= c <= 'f' ==> d == c as int - 'a' as int + 10
    ensures radix == 16 && 'A' <= c <= 'F' ==> d == c as int - 'A' as int + 10
  {
    if '0' <= c <= '9' && (c as int - '0' as int) < radix then c as int - '0' as int
    else if radix == 16 && 'a' <= c <= 'f' then c as int - 'a' as int + 10
    else if radix == 16 && 'A' <= c <= 'F' then c as int - 'A' as int + 10
    else -1
  }

  /** The longest prefix of `s` made of digits of base `radix`. */
  function DigitPrefix(s: string, radix: int): (z: string)
    ensures z <= s
    ensures forall i :: 0 <= i < |z| ==> DigitValue(z[i], radix) >= 0
    ensures |z| < |s| ==> DigitValue(s[|z|], radix) < 0
    decreases |s|
  {
    if |s| > 0 && DigitValue(s[0], radix) >= 0 then [s[0]] + DigitPrefix(s[1..], radix) else ""
  }

  /** The number a digit string denotes in base `radix`. */
  function DigitsValue(z: string, radix: int): (v: int)
    requires radix == 10 || radix == 16
    requires forall i :: 0 <= i < |z| ==> DigitValue(z[i], radix) >= 0
    ensures v >= 0
    decreases |z|
  {
    if |z| == 0 then 0
    else
      var high := DigitsValue(z[..|z| - 1], radix);
      (if radix == 16 then 16 * high else 10 * high) + DigitValue(z[|z| - 1], radix)
  }

  predicate IsDecimal(s: string) {
    forall i :: 0 <= i < |s| ==> '0' <= s[i] <= '9'
  }

  /**
   * `parseInt(s)` with no radix: leading white space is skipped, one optional
   * sign is taken, a `0x`/`0X` prefix switches to base 16, and the longest run
   * of digits that follows is read. `None` is NaN (no digit at all). `-0` is 0.
   */
  function ParseInt(s: string): (r: Option<int>)
    ensures |TrimStart(s)| == 0 ==> r.None?
    ensures r.Some? && r.value < 0 ==> '-' in s
  {
    var t := TrimStart(s);
    assert |t| > 0 ==> t[0] == s[|s| - |t|];
    ParseSigned(t)
  }

  /** Only a leading minus sign makes the number negative. */
  function ParseSigned(t: string): (r: Option<int>)
    ensures r.Some? && r.value < 0 ==> |t| > 0 && t[0] == '-'
  {
    if |t| > 0 && t[0] == '-' then
      match ParseUnsigned(t[1..])
      case Some(v) => Some(-v)
      case None => None
    else if |t| > 0 && t[0] == '+' then ParseUnsigned(t[1..])
    else ParseUnsigned(t)
  }

  function ParseUnsigned(u: string): (r: Option<int>)
    ensures r.Some? ==> r.value >= 0
  {
    if |u| >= 2 && u[0] == '0' && (u[1] == 'x' || u[1] == 'X') then ParseDigits(u[2..], 16)
    else ParseDigits(u, 10)
  }

  /** NaN exactly when the text does not start with a digit; a number is never negative. */
  function ParseDigits(u: string, radix: int): (r: Option<int>)
    requires radix == 10 || radix == 16
    ensures r.Some? <==> |u| > 0 && DigitValue(u[0], radix) >= 0
    ensures r.Some? ==> r.value >= 0
  {
    var z := DigitPrefix(u, radix);
    if |z| == 0 then None else Some(DigitsValue(z, radix))
  }

  /**
   * `parseInt` reads the leading decimal digits and ignores what follows them
   * (`parseInt("3x")` is 3), except that "0x" or "0X" starts a hexadecimal number.
   */
  lemma ParseIntLeadingDigits(digits: string, rest: string)
    requires |digits| > 0 && IsDecimal(digits)
    requires |rest| > 0 ==> DigitValue(rest[0], 10) < 0
    requires !(|digits| == 1 && digits[0] == '0' && |rest| > 0 && (rest[0] == 'x' || rest[0] == 'X'))
    ensures forall i :: 0 <= i < |digits| ==> DigitValue(digits[i], 10) >= 0
    ensures ParseInt(digits + rest) == Some(DigitsValue(digits, 10))
  {
    var s := digits + rest;
    assert s[0] == digits[0];
    if |s| >= 2 && s[0] == '0' {
      if |digits| >= 2 {
        assert s[1] == digits[1];
      } else {
        assert s[1] == rest[0];
      }
    }
    ParseIntDecimalStart(s);
    DecimalDigits(digits);
    DigitPrefixStops(digits, rest);
  }

  /** `parseInt` of a plain run of decimal digits is the number they denote. */
  lemma ParseIntDecimal(x: string)
    requires |x| > 0 && IsDecimal(x)
    ensures forall i :: 0 <= i < |x| ==> DigitValue(x[i], 10) >= 0
    ensures ParseInt(x) == Some(DigitsValue(x, 10))
  {
    ParseIntLeadingDigits(x, "");
    assert x + "" == x;
  }

  /** Text that starts with a digit and is not hexadecimal is read in base 10. */
  lemma ParseIntDecimalStart(s: string)
    requires |s| > 0 && '0' <= s[0] <= '9'
    requires !(|s| >= 2 && s[0] == '0' && (s[1] == 'x' || s[1] == 'X'))
    ensures ParseInt(s) == ParseDigits(s, 10)
  {
    assert !IsWhiteSpace(s[0]);
    NoLeadingWhiteSpace(s);
    assert ParseSigned(s) == ParseUnsigned(s);
  }

  /** The digit prefix of `digits + rest` is `digits` when `rest` does not start with a digit. */
  lemma {:induction false} DigitPrefixStops(digits: string, rest: string)
    requires IsDecimal(digits)
    requires |rest| > 0 ==> DigitValue(rest[0], 10) < 0
    ensures DigitPrefix(digits + rest, 10) == digits
    decreases |digits|
  {
    if |digits| > 0 {
      DigitPrefixStops(digits[1..], rest);
      assert (digits + rest)[1..] == digits[1..] + rest;
      assert [digits[0]] + digits[1..] == digits;
    } else {
      assert digits + rest == rest;
    }
  }

  lemma DecimalDigits(x: string)
    requires IsDecimal(x)
    ensures forall i :: 0 <= i < |x| ==> DigitValue(x[i], 10) >= 0
  {
  }

  /** Text that starts with neither white space, a sign nor a digit is NaN. */
  lemma ParseIntNotANumber(s: string)
    requires |s| > 0 && !IsWhiteSpace(s[0]) && s[0] != '-' && s[0] != '+' && DigitValue(s[0], 10) < 0
    ensures ParseInt(s) == None
  {
    assert DigitPrefix(s, 10) == "";
    assert ParseUnsigned(s) == None;
    assert ParseSigned(s) == None;
    NoLeadingWhiteSpace(s);
  }

  /** Text that does not start with white space is parsed as it stands. */
  lemma NoLeadingWhiteSpace(s: string)
    requires |s| > 0 && !IsWhiteSpace(s[0])
    ensures TrimStart(s) == s && ParseInt(s) == ParseSigned(s)
  {
  }

  // ---- Decimal rendering: the partner of `DigitsValue` ----

  function DecimalDigit(d: int): (c: char)
    requires 0 <= d < 10
    ensures '0' <= c <= '9' && DigitValue(c, 10) == d
  {
    ('0' as int + d) as char
  }

  /** The decimal numeral of `n`, without leading zeros. */
  function Decimal(n: nat): (z: string)
    ensures |z| > 0 && IsDecimal(z)
    decreases n
  {
    if n < 10 then [DecimalDigit(n)] else Decimal(n / 10) + [DecimalDigit(n % 10)]
  }

  /** The digits of the numeral of `n` denote `n`. */
  lemma {:induction false} DecimalValue(n: nat)
    ensures forall i :: 0 <= i < |Decimal(n)| ==> DigitValue(Decimal(n)[i], 10) >= 0
    ensures DigitsValue(Decimal(n), 10) == n
    decreases n
  {
    var z := Decimal(n);
    DecimalDigits(z);
    if n >= 10 {
      DecimalValue(n / 10);
      assert z[..|z| - 1] == Decimal(n / 10);
    }
  }

  /** `parseInt` reads back the numeral of every natural number. */
  lemma DecimalRoundTrip(n: nat)
    ensures ParseInt(Decimal(n)) == Some(n)
  {
    DecimalValue(n);
    ParseIntDecimal(Decimal(n));
  }

  // ---- Signs and the hexadecimal prefix ----

  /** A string made only of digits is its own digit prefix. */
  lemma {:induction false} DigitPrefixAll(z: string, radix: int)
    requires forall i :: 0 <= i < |z| ==> DigitValue(z[i], radix) >= 0
    ensures DigitPrefix(z, radix) == z
    decreases |z|
  {
    if |z| > 0 {
      DigitPrefixAll(z[1..], radix);
      assert [z[0]] + z[1..] == z;
    }
  }

  /** `parseInt("+" + x)` for a number x written in decimal is x: the plus sign is dropped. */
  lemma PlusSignDropped(n: nat)
    ensures ParseInt("+" + Decimal(n)) == Some(n)
  {
    var d := Decimal(n);
    var s := "+" + d;
    assert s[1..] == d;
    NoLeadingWhiteSpace(s);
    UnsignedDecimal(n);
  }

  /** `parseInt("-" + x)` for a number x written in decimal is −x: the minus sign negates. */
  lemma MinusSignNegates(n: nat)
    ensures ParseInt("-" + Decimal(n)) == Some(-(n as int))
  {
    var d := Decimal(n);
    var s := "-" + d;
    assert s[1..] == d;
    NoLeadingWhiteSpace(s);
    UnsignedDecimal(n);
  }

  /** An unsigned decimal rendering is read in base 10 as its value. */
  lemma UnsignedDecimal(n: nat)
    ensures ParseUnsigned(Decimal(n)) == Some(n)
  {
    var d := Decimal(n);
    assert |d| >= 2 ==> '0' <= d[1] <= '9';
    DecimalValue(n);
    DigitPrefixAll(d, 10);
  }

  /** `0x` and `0X` switch to base 16: the hexadecimal digits that follow are read as one number. */
  lemma HexPrefix(h: string)
    requires |h| > 0
    requires forall i :: 0 <= i < |h| ==> DigitValue(h[i], 16) >= 0
    ensures ParseInt("0x" + h) == Some(DigitsValue(h, 16))
    ensures ParseInt("0X" + h) == Some(DigitsValue(h, 16))
  {
    DigitPrefixAll(h, 16);
    HexPrefixWith('x', h);
    HexPrefixWith('X', h);
  }

  lemma HexPrefixWith(x: char, h: string)
    requires x == 'x' || x == 'X'
    requires |h| > 0
    requires forall i :: 0 <= i < |h| ==> DigitValue(h[i], 16) >= 0
    requires DigitPrefix(h, 16) == h
    ensures ParseInt(['0', x] + h) == Some(DigitsValue(h, 16))
  {
    var s := ['0', x] + h;
    assert s[0] == '0' && s[1] == x && s[2..] == h;
    NoLeadingWhiteSpace(s);
    assert ParseSigned(s) == ParseUnsigned(s) == ParseDigits(h, 16);
  }
}
