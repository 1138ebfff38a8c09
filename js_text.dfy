/**
 * The handful of JavaScript primitives the dashboard's data-synthesis code
 * relies on, written out so that their edge cases are explicit:
 * `parseInt` with its default radix, `Number.prototype.toString`,
 * `String.prototype.padStart` with a "0" filler, `String.prototype.substring`,
 * `Array.prototype.join` and the relational `<` on strings.
 */
module JsText {

  /** A JavaScript number as the dashboard produces them: an integer or NaN. */
  datatype JsNumber = Num(value: int) | NaN

  predicate IsDigit(c: char) { '0' <= c <= '9' }

  predicate AllDigits(s: string) { forall i :: 0 <= i < |s| ==> IsDigit(s[i]) }

  /** The value of a character as a digit in radix 36, or 36 when it is none. */
  function CharValue(c: char): (v: nat)
    ensures v <= 36
    ensures IsDigit(c) ==> v < 10
  {
    if '0' <= c <= '9' then c as nat - '0' as nat
    else if 'a' <= c <= 'z' then c as nat - 'a' as nat + 10
    else if 'A' <= c <= 'Z' then c as nat - 'A' as nat + 10
    else 36
  }

  function DigitChar(d: nat): (c: char)
    requires d < 10
    ensures IsDigit(c) && CharValue(c) == d
  {
    ('0' as int + d) as char
  }

  /** The white space `parseInt` skips before the number. */
  predicate IsWhiteSpace(c: char)
  {
    c == ' ' || c == '\t' || c == '\n' || c == '\r' || c == '\U{000B}' || c == '\U{000C}'
    || c == '\U{00A0}' || c == '\U{FEFF}' || c == '\U{2028}' || c == '\U{2029}'
  }

  /** `s` without its leading white space. */
  function TrimStart(s: string): (r: string)
    ensures |r| <= |s| && r == s[|s| - |r|..]
    ensures forall i :: 0 <= i < |s| - |r| ==> IsWhiteSpace(s[i])
    ensures r == [] || !IsWhiteSpace(r[0])
  {
    if s != [] && IsWhiteSpace(s[0]) then TrimStart(s[1..]) else s
  }

  /** Length of the longest prefix of `s` made of radix-`radix` digits. */
  function LeadingRun(s: string, radix: nat): (n: nat)
    ensures n <= |s|
    ensures forall i :: 0 <= i < n ==> CharValue(s[i]) < radix
    ensures n < |s| ==> CharValue(s[n]) >= radix
  {
    if s == [] || CharValue(s[0]) >= radix then 0 else 1 + LeadingRun(s[1..], radix)
  }

  /** The value of a digit string, most significant digit first. */
  function ValueIn(s: string, radix: nat): nat
  {
    if s == [] then 0 else ValueIn(s[..|s| - 1], radix) * radix + CharValue(s[|s| - 1])
  }

  /**
   * `parseInt(s)` without a radix argument: skip leading white space, take an
   * optional sign, then read the magnitude; no digits at all gives NaN.
   */
  function ParseInt(s: string): JsNumber
  {
    var t := TrimStart(s);
    if |t| > 0 && t[0] == '-' then Negate(ParseMagnitude(t[1..]))
    else if |t| > 0 && t[0] == '+' then ParseMagnitude(t[1..])
    else ParseMagnitude(t)
  }

  /** After a "0x"/"0X" prefix the digits are read in radix 16, otherwise in radix 10. */
  function ParseMagnitude(u: string): JsNumber
  {
    if |u| >= 2 && u[0] == '0' && (u[1] == 'x' || u[1] == 'X') then ParseRun(u[2..], 16)
    else ParseRun(u, 10)
  }

  /** The value of the longest leading run of digits, NaN when the run is empty. */
  function ParseRun(body: string, radix: nat): JsNumber
  {
    var n := LeadingRun(body, radix);
    if n == 0 then NaN else Num(ValueIn(body[..n], radix))
  }

  function Negate(x: JsNumber): JsNumber
  {
    match x
    case NaN => NaN
    case Num(v) => Num(-v)
  }

  /** Decimal digits of a natural number, without leading zeros. */
  function Digits(n: nat): (r: string)
    ensures |r| > 0 && AllDigits(r)
    ensures ValueIn(r, 10) == n
    ensures |r| == 1 <==> n < 10
    ensures r[0] == '0' ==> n == 0
  {
    if n < 10 then [DigitChar(n)]
    else
      var r := Digits(n / 10) + [DigitChar(n % 10)];
      assert r[..|r| - 1] == Digits(n / 10);
      r
  }

  /** `Number.prototype.toString()` on an integer (plain decimal notation) or NaN. */
  function NumberToString(x: JsNumber): string
  {
    match x
    case NaN => "NaN"
    case Num(v) => if v < 0 then "-" + Digits(-v) else Digits(v)
  }

  /** `s.padStart(width, "0")`: as many "0"s in front as `s` falls short of `width`. */
  function PadStart(s: string, width: nat): (r: string)
    ensures |r| == if |s| >= width then |s| else width
    ensures r[|r| - |s|..] == s
    ensures forall i :: 0 <= i < |r| - |s| ==> r[i] == '0'
  {
    if |s| >= width then s else Zeros(width - |s|) + s
  }

  function Zeros(n: nat): (r: string)
    ensures |r| == n && forall i :: 0 <= i < n ==> r[i] == '0'
  {
    if n == 0 then [] else Zeros(n - 1) + ['0']
  }

  /** `s.substring(start, end)`: both ends clamped to the string, swapped when reversed. */
  function Substring(s: string, start: nat, end: nat): (r: string)
    ensures end <= |s| && start <= end ==> r == s[start..end]
    ensures start <= |s| && end < start ==> r == s[end..start]
    ensures start <= |s| <= end ==> r == s[start..]
    ensures end <= |s| <= start ==> r == s[end..]
    ensures |s| <= start && |s| <= end ==> r == []
    ensures |r| <= |s|
  {
    var a := if start < |s| then start else |s|;
    var b := if end < |s| then end else |s|;
    if a <= b then s[a..b] else s[b..a]
  }

  /** `parts.join(sep)`. */
  function Join(parts: seq<string>, sep: string): string
  {
    if |parts| == 0 then ""
    else if |parts| == 1 then parts[0]
    else parts[0] + sep + Join(parts[1..], sep)
  }

  /** `a < b` on JavaScript strings: lexicographic on characters, a proper prefix first. */
  predicate StringLess(a: string, b: string)
  {
    if b == [] then false
    else if a == [] then true
    else if a[0] != b[0] then a[0] < b[0]
    else StringLess(a[1..], b[1..])
  }

  // ----- lemmas -----

  lemma DigitRoundTrip(c: char)
    requires IsDigit(c)
    ensures DigitChar(CharValue(c)) == c
  {
  }

  lemma DivModTen(v: nat, d: nat)
    requires d < 10
    ensures (v * 10 + d) / 10 == v && (v * 10 + d) % 10 == d
  {
  }

  /** Appending a digit to a positive number appends its character to the printed digits. */
  lemma DigitsStep(v: nat, d: nat)
    requires v >= 1 && d < 10
    ensures Digits(v * 10 + d) == Digits(v) + [DigitChar(d)]
  {
    DivModTen(v, d);
  }

  lemma DigitCharLess(d: nat, e: nat)
    requires d < e < 10
    ensures DigitChar(d) < DigitChar(e)
  {
  }

  lemma TwoChars(t: string)
    requires |t| == 2
    ensures t == [t[0], t[1]]
  {
  }

  /** Two-character strings compare by their first characters, then by their second. */
  lemma {:induction false} StringLessOfTwo(x: string, y: string)
    requires |x| == 2 && |y| == 2
    requires x[0] < y[0] || (x[0] == y[0] && x[1] < y[1])
    ensures StringLess(x, y)
  {
    if x[0] == y[0] {
      assert x[1..][1..] == [] && y[1..][1..] == [];
      assert StringLess(x[1..], y[1..]);
    }
  }

  /** A two-digit string is worth ten times its first digit plus its second. */
  lemma {:induction false} ValueOfTwo(t: string)
    requires |t| == 2
    ensures ValueIn(t, 10) == 10 * CharValue(t[0]) + CharValue(t[1])
  {
    assert t[..1][..0] == [];
    assert ValueIn(t[..1], 10) == CharValue(t[0]);
  }

  lemma {:induction false} LeadingRunOfDigits(s: string)
    requires AllDigits(s)
    ensures LeadingRun(s, 10) == |s|
  {
    if s != [] {
      LeadingRunOfDigits(s[1..]);
    }
  }

  /** A digit string with no leading zero has a positive value. */
  lemma {:induction false} ValuePositive(s: string)
    requires |s| > 0 && AllDigits(s) && s[0] != '0'
    ensures ValueIn(s, 10) >= 1
  {
    if |s| > 1 {
      ValuePositive(s[..|s| - 1]);
    }
  }

  /** A plain digit string is read as its decimal value. */
  lemma {:induction false} MagnitudeOfDigits(d: string)
    requires |d| > 0 && AllDigits(d)
    ensures ParseMagnitude(d) == Num(ValueIn(d, 10))
  {
    assert ParseMagnitude(d) == ParseRun(d, 10) by {
      assert !(d[0] == '0' && |d| >= 2 && (d[1] == 'x' || d[1] == 'X'));
    }
    LeadingRunOfDigits(d);
    assert d[..|d|] == d;
  }

  /** `parseInt` reads a plain digit string as its decimal value. */
  lemma {:induction false} ParseIntOfDigits(s: string)
    requires |s| > 0 && AllDigits(s)
    ensures ParseInt(s) == Num(ValueIn(s, 10))
  {
    assert TrimStart(s) == s by { assert !IsWhiteSpace(s[0]); }
    assert ParseInt(s) == ParseMagnitude(s) by { assert s[0] != '-' && s[0] != '+'; }
    MagnitudeOfDigits(s);
  }

  /** Printing a digit string's value gives the string back unless it has a leading zero. */
  lemma {:induction false} DigitsOfValue(s: string)
    requires |s| > 0 && AllDigits(s)
    requires |s| == 1 || s[0] != '0'
    ensures Digits(ValueIn(s, 10)) == s
  {
    if |s| > 1 {
      var init := s[..|s| - 1];
      DigitsOfValue(init);
      ValuePositive(init);
      assert s == init + [s[|s| - 1]];
      DigitsOfValueStep(init, s[|s| - 1]);
    } else {
      assert Digits(ValueIn(s, 10)) == [DigitChar(CharValue(s[0]))];
    }
  }

  lemma {:induction false} DigitsOfValueStep(init: string, c: char)
    requires Digits(ValueIn(init, 10)) == init && ValueIn(init, 10) >= 1 && IsDigit(c)
    ensures Digits(ValueIn(init + [c], 10)) == init + [c]
  {
    var s := init + [c];
    assert s[..|s| - 1] == init && s[|s| - 1] == c;
    assert ValueIn(s, 10) == ValueIn(init, 10) * 10 + CharValue(c);
    DigitsStep(ValueIn(init, 10), CharValue(c));
    DigitRoundTrip(c);
  }

  /** A leading minus sign negates the digits after it. */
  lemma {:induction false} ParseIntNegative(d: string)
    requires |d| > 0 && AllDigits(d)
    ensures ParseInt("-" + d) == Num(-(ValueIn(d, 10) as int))
  {
    assert TrimStart("-" + d) == "-" + d;
    assert ("-" + d)[1..] == d;
    MagnitudeOfDigits(d);
  }

  /** `parseInt("-" + String(n)) === -n` for a positive n. */
  lemma {:induction false} ParseIntOfNegative(n: nat)
    requires n > 0
    ensures ParseInt("-" + Digits(n)) == Num(-(n as int))
  {
    ParseIntNegative(Digits(n));
  }

  /** No digits, no number: the empty string reads as NaN. */
  lemma ParseIntOfEmpty()
    ensures ParseInt("") == NaN
  {
    assert TrimStart([]) == [];
    MagnitudeOfEmpty();
  }

  /** A lone minus sign reads as NaN. */
  lemma ParseIntOfMinus()
    ensures ParseInt("-") == NaN
  {
    assert TrimStart("-") == "-" by {
      assert !IsWhiteSpace('-');
    }
    assert "-"[1..] == [];
    MagnitudeOfEmpty();
  }

  lemma MagnitudeOfEmpty()
    ensures ParseMagnitude([]) == NaN
  {
    assert LeadingRun([], 10) == 0;
  }

  /** `parseInt(String(n)) === n` for every integer in plain notation. */
  lemma {:induction false} NumberRoundTrip(v: int)
    ensures ParseInt(NumberToString(Num(v))) == Num(v)
  {
    if v < 0 {
      var n: nat := -v;
      assert NumberToString(Num(v)) == "-" + Digits(n);
      ParseIntOfNegative(n);
    } else {
      assert NumberToString(Num(v)) == Digits(v);
      ParseIntOfDigits(Digits(v));
    }
  }

  /** Distinct integers print differently. */
  lemma {:induction false} NumberToStringInjective(a: int, b: int)
    requires NumberToString(Num(a)) == NumberToString(Num(b))
    ensures a == b
  {
    NumberRoundTrip(a);
    NumberRoundTrip(b);
  }

  lemma {:induction false} StringLessIrreflexive(a: string)
    ensures !StringLess(a, a)
  {
    if a != [] {
      StringLessIrreflexive(a[1..]);
    }
  }

  lemma {:induction false} StringLessTransitive(a: string, b: string, c: string)
    requires StringLess(a, b) && StringLess(b, c)
    ensures StringLess(a, c)
  {
    if a != [] && a[0] == b[0] && b[0] == c[0] {
      StringLessTransitive(a[1..], b[1..], c[1..]);
    }
  }

  /** `<` on strings is total: of two different strings one is below the other. */
  lemma {:induction false} StringLessTotal(a: string, b: string)
    requires a != b
    ensures StringLess(a, b) || StringLess(b, a)
  {
    if a != [] && b != [] && a[0] == b[0] {
      assert a == [a[0]] + a[1..] && b == [b[0]] + b[1..];
      StringLessTotal(a[1..], b[1..]);
    }
  }

  lemma {:induction false} StringLessAsymmetric(a: string, b: string)
    requires StringLess(a, b)
    ensures !StringLess(b, a)
  {
    if StringLess(b, a) {
      StringLessTransitive(a, b, a);
      StringLessIrreflexive(a);
    }
  }
}
