/**
 * The integer conversions the parser and the dashboard rely on:
 * JavaScript's `parseInt(s)` without a radix argument, the `|| 0` that
 * turns its `NaN` into 0, and the decimal rendering `String(n)` of an
 * integer, which the dashboard parses back.
 */
module JsNumber {
  import opened Wrappers
  import opened Text

  predicate IsDecDigit(c: char) {
    '0' <= c <= '9'
  }

  /** The value of `c` as a digit in any radix up to 36 (36 for anything else). */
  function DigitValue(c: char): (d: nat)
    ensures d <= 36
    ensures IsDecDigit(c) <==> d < 10
  {
    if '0' <= c <= '9' then c as int - '0' as int
    else if 'a' <= c <= 'z' then c as int - 'a' as int + 10
    else if 'A' <= c <= 'Z' then c as int - 'A' as int + 10
    else 36
  }

  /** Length of the longest prefix of `s` made of digits of `radix`. */
  function DigitPrefixLength(s: string, radix: nat): (k: nat)
    ensures k <= |s|
    ensures forall i :: 0 <= i < k ==> DigitValue(s[i]) < radix
    ensures k == |s| || DigitValue(s[k]) >= radix
  {
    if s == [] || DigitValue(s[0]) >= radix then 0
    else 1 + DigitPrefixLength(s[1..], radix)
  }

  /** The number a digit string denotes in `radix`, most significant first. */
  function DigitsValue(d: string, radix: nat): nat {
    if d == [] then 0
    else DigitsValue(d[..|d| - 1], radix) * radix + DigitValue(d[|d| - 1])
  }

  /** Whether the text after the sign carries the `0x`/`0X` prefix that makes
      `parseInt` read hexadecimal. */
  predicate HasHexPrefix(u: string) {
    |u| >= 2 && u[0] == '0' && (u[1] == 'x' || u[1] == 'X')
  }

  /** `parseInt(s)` with no radix: leading white space skipped, an optional
      sign, a `0x` prefix selecting radix 16 (else radix 10), then the longest
      run of digits; `None` (NaN) when that run is empty. */
  function ParseInt(s: string): Option<int> {
    match ParseMagnitude(Unsigned(s))
    case None => None
    case Some(m) => Some(if Negative(s) then -(m as int) else m)
  }

  /** The unsigned part of `parseInt`: the value of the longest digit run of
      the radix the prefix selects, `None` when that run is empty. */
  function ParseMagnitude(u: string): Option<nat> {
    var k := DigitPrefixLength(Body(u), Radix(u));
    if k == 0 then None else Some(DigitsValue(Body(u)[..k], Radix(u)))
  }

  /** The radix `parseInt` reads the unsigned text `u` in. */
  function Radix(u: string): nat {
    if HasHexPrefix(u) then 16 else 10
  }

  /** The unsigned text `u` with a hexadecimal prefix removed. */
  function Body(u: string): string {
    if HasHexPrefix(u) then u[2..] else u
  }

  /** Whether the first non-white character of `s` is a minus sign. */
  predicate Negative(s: string) {
    var t := TrimStart(s);
    |t| > 0 && t[0] == '-'
  }

  /** `s` with leading white space and one sign character removed. */
  function Unsigned(s: string): string {
    var t := TrimStart(s);
    if |t| > 0 && (t[0] == '-' || t[0] == '+') then t[1..] else t
  }

  /** `parseInt(s) || 0`: NaN, and also -0, become 0. */
  function ParseIntOr0(s: string): int {
    match ParseInt(s)
    case None => 0
    case Some(n) => n
  }

  /** The decimal digit character for `d < 10`. */
  function DecChar(d: nat): (c: char)
    requires d < 10
    ensures IsDecDigit(c) && DigitValue(c) == d
  {
    ('0' as int + d) as char
  }

  /** Decimal digits of `n`, most significant first, without leading zeros. */
  function ShowNat(n: nat): (r: string)
    ensures |r| >= 1
    ensures forall i :: 0 <= i < |r| ==> IsDecDigit(r[i])
  {
    if n < 10 then [DecChar(n)] else ShowNat(n / 10) + [DecChar(n % 10)]
  }

  /** `String(n)` for an integer: a minus sign for negatives, then the digits. */
  function ShowInt(n: int): string {
    if n < 0 then "-" + ShowNat(-n) else ShowNat(n)
  }

  /** Reading the decimal digits of `n` back gives `n`. */
  lemma {:induction false} DigitsValueShowNat(n: nat)
    ensures DigitsValue(ShowNat(n), 10) == n
  {
    if n >= 10 {
      DigitsValueShowNat(n / 10);
      var r := ShowNat(n);
      assert r[..|r| - 1] == ShowNat(n / 10);
    }
  }

  /** A prefix made of decimal digits, followed by something that is not one,
      is exactly the digit run `parseInt` reads in radix 10. */
  lemma {:induction false} DigitPrefixOfDigits(d: string, rest: string)
    requires forall i :: 0 <= i < |d| ==> IsDecDigit(d[i])
    requires rest == [] || !IsDecDigit(rest[0])
    ensures DigitPrefixLength(d + rest, 10) == |d|
  {
    if d != [] {
      assert (d + rest)[1..] == d[1..] + rest;
      DigitPrefixOfDigits(d[1..], rest);
    } else {
      assert d + rest == rest;
    }
  }

  /** With a sign or digit in front, TrimStart has nothing to remove. */
  lemma TrimStartSignOrDigit(s: string)
    requires s != [] && (IsDecDigit(s[0]) || s[0] == '-' || s[0] == '+')
    ensures TrimStart(s) == s
  {
  }

  /** The magnitude of a decimal digit run followed by a non-digit, outside
      the hexadecimal case, is the value of the run. */
  lemma ParseMagnitudeDecimal(d: string, rest: string)
    requires d != []
    requires forall i :: 0 <= i < |d| ==> IsDecDigit(d[i])
    requires rest == [] || (!IsDecDigit(rest[0]) && rest[0] != 'x' && rest[0] != 'X')
    ensures ParseMagnitude(d + rest) == Some(DigitsValue(d, 10))
  {
    var u := d + rest;
    assert !HasHexPrefix(u) by {
      if |d| >= 2 { assert u[1] == d[1]; }
      else if |u| >= 2 { assert u[1] == rest[0]; }
    }
    assert Body(u) == u && Radix(u) == 10;
    DigitPrefixOfDigits(d, rest);
    assert u[..|d|] == d;
  }

  /** Sign handling for a text that starts with a digit, or with a minus
      sign and then a digit. */
  lemma SignOf(s: string, v: string, neg: bool)
    requires v != [] && IsDecDigit(v[0])
    requires s == if neg then ['-'] + v else v
    ensures Unsigned(s) == v && Negative(s) == neg
  {
    TrimStartSignOrDigit(s);
    if neg { assert s[1..] == v; }
  }

  /** `parseInt(String(n) + rest)` is `n` whenever `rest` does not continue
      the number: it starts neither with a digit nor with the `x` that would
      turn a leading `0` into a hexadecimal prefix. */
  lemma ParseIntShowInt(n: int, rest: string)
    requires rest == [] || (!IsDecDigit(rest[0]) && rest[0] != 'x' && rest[0] != 'X')
    ensures ParseInt(ShowInt(n) + rest) == Some(n)
  {
    var m: nat := if n < 0 then -n else n;
    var digits := ShowNat(m);
    var s := ShowInt(n) + rest;
    assert s == if n < 0 then ['-'] + (digits + rest) else digits + rest;
    SignOf(s, digits + rest, n < 0);
    ParseMagnitudeDecimal(digits, rest);
    DigitsValueShowNat(m);
  }

  /** In particular the dashboard's `parseInt(x) || 0` of a number the
      parser produced gives that number back. */
  lemma ParseIntOr0ShowInt(n: int)
    ensures ParseIntOr0(ShowInt(n)) == n
  {
    ParseIntShowInt(n, []);
    assert ShowInt(n) + [] == ShowInt(n);
  }

  /** A text whose first non-white character is neither a sign nor a digit
      has no leading number, so `parseInt(s) || 0` is 0 (`"abc"`, `""`). */
  lemma ParseIntNoNumber(s: string)
    requires var t := TrimStart(s); t == [] || (!IsDecDigit(t[0]) && t[0] != '-' && t[0] != '+')
    ensures ParseInt(s) == None && ParseIntOr0(s) == 0
  {
  }

  /** A plain decimal cell: `parseInt("1000") || 0` is 1000. */
  lemma ParseIntPlainExample()
    ensures ParseIntOr0("1000") == 1000
  {
    assert ShowInt(1000) == "1000";
    ParseIntOr0ShowInt(1000);
  }

  /** Trailing garbage after the digits is ignored: `"12abc"` gives 12. */
  lemma ParseIntTrailingExample()
    ensures ParseIntOr0("12abc") == 12
  {
    assert ShowInt(12) + "abc" == "12abc";
    ParseIntShowInt(12, "abc");
  }

  /** A leading minus sign negates: `"-7"` gives -7. */
  lemma ParseIntNegativeExample()
    ensures ParseIntOr0("-7") == -7
  {
    assert ShowInt(-7) == "-7";
    ParseIntOr0ShowInt(-7);
  }

  /** Text without a leading number coerces to 0: `"abc"` and `""`. */
  lemma ParseIntNoNumberExamples()
    ensures ParseIntOr0("abc") == 0
    ensures ParseIntOr0("") == 0
  {
    ParseIntNoNumber("abc");
    ParseIntNoNumber("");
  }

  /** `parseInt("-0")` is -0, which `|| 0` turns into 0. */
  lemma ParseIntMinusZeroExample()
    ensures ParseIntOr0("-0") == 0
  {
    SignOf("-0", "0", true);
    assert "0" + [] == "0";
    ParseMagnitudeDecimal("0", []);
    assert DigitsValue("0", 10) == 0 by { assert "0"[..0] == []; }
  }

  /** The `0x` prefix selects hexadecimal: `"0x1A"` gives 26. */
  lemma ParseIntHexExample()
    ensures ParseIntOr0("0x1A") == 26
  {
    var u := "0x1A";
    TrimStartSignOrDigit(u);
    assert Unsigned(u) == u;
    assert HasHexPrefix(u);
    assert Body(u) == "1A" && Radix(u) == 16;
    assert DigitPrefixLength("1A", 16) == 2;
    assert "1A"[..2] == "1A";
    assert "1A"[..1] == "1";
    assert DigitsValue("1", 16) == 1 by { assert "1"[..0] == []; }
    assert ParseMagnitude(u) == Some(26);
  }

  /** A bare `0x` has no hexadecimal digit after it: NaN, coerced to 0. */
  lemma ParseIntBareHexExample()
    ensures ParseIntOr0("0x") == 0
  {
    var u := "0x";
    TrimStartSignOrDigit(u);
    assert Unsigned(u) == u;
    assert HasHexPrefix(u);
    assert Body(u) == [];
    assert ParseMagnitude(u) == None;
  }
}
