/**
  Rust's `str::parse` for the three numeric literal types the lexer produces
  (src/lexer.rs:104, 108, 112): `isize` and `usize` on a 64-bit target, and the
  textual grammar `f64` accepts. A failed parse is `None`; the lexer turns it into
  the panic of `unwrap()`.
 */
module Numbers {
  import opened Options
  import opened Tokens

  predicate IsDigit(c: char) {
    '0' <= c <= '9'
  }

  predicate IsDigits(s: string) {
    forall i :: 0 <= i < |s| ==> IsDigit(s[i])
  }

  function DigitValue(c: char): nat
    requires IsDigit(c)
  {
    c as int - '0' as int
  }

  function DigitChar(d: nat): (c: char)
    requires d < 10
    ensures IsDigit(c) && DigitValue(c) == d
  {
    ('0' as int + d) as char
  }

  /** The value of a run of decimal digits, most significant first. */
  function DigitsValue(s: string): nat
    requires IsDigits(s)
  {
    if s == [] then 0 else 10 * DigitsValue(s[..|s| - 1]) + DigitValue(s[|s| - 1])
  }

  /** The shortest decimal spelling of `n`: the reference inverse of `DigitsValue`. */
  function DecimalText(n: nat): (s: string)
    ensures 1 <= |s| && IsDigits(s)
    ensures |s| > 1 ==> s[0] != '0'
  {
    if n < 10 then [DigitChar(n)] else DecimalText(n / 10) + [DigitChar(n % 10)]
  }

  /** The decimal spelling of a signed value, with a leading `-` when negative. */
  function SignedText(x: int): string {
    if x < 0 then "-" + DecimalText(-x) else DecimalText(x)
  }

  lemma {:induction false} DecimalTextRoundTrip(n: nat)
    ensures DigitsValue(DecimalText(n)) == n
  {
    if n >= 10 {
      var s := DecimalText(n);
      DecimalTextRoundTrip(n / 10);
      assert s[..|s| - 1] == DecimalText(n / 10);
    }
  }

  /** The digits of an integer text: the text without its one leading sign, when
      it has one of `signs`. */
  function Magnitude(t: string, signs: set<char>): string {
    if |t| > 0 && t[0] in signs then t[1..] else t
  }

  /** Integer syntax: an optional sign, then one or more digits. */
  predicate IsIntegerSyntax(t: string, signs: set<char>) {
    1 <= |Magnitude(t, signs)| && IsDigits(Magnitude(t, signs))
  }

  /** The mathematical value of a well-formed signed integer text. */
  function SignedValue(t: string): int
    requires IsIntegerSyntax(t, {'+', '-'})
  {
    var m: int := DigitsValue(Magnitude(t, {'+', '-'}));
    if t[0] == '-' then -m else m
  }

  /** `<isize as FromStr>::from_str`: `+` or `-`, then digits, within 64-bit range.
      Leading zeros are allowed, and `-0` is zero. */
  function ParseIsize(t: string): (r: Option<isize>)
    ensures r.Some? <==> IsIntegerSyntax(t, {'+', '-'}) && ISIZE_MIN <= SignedValue(t) <= ISIZE_MAX
    ensures r.Some? ==> r.value == SignedValue(t)
    ensures r.Some? && r.value < 0 ==> t[0] == '-'
  {
    if |t| == 0 then None
    else
      var negative := t[0] == '-';
      var digits := if t[0] == '+' || t[0] == '-' then t[1..] else t;
      if |digits| == 0 || !IsDigits(digits) then None
      else
        var v: int := if negative then -(DigitsValue(digits) as int) else DigitsValue(digits);
        if ISIZE_MIN <= v <= ISIZE_MAX then Some(v) else None
  }

  /** `<usize as FromStr>::from_str`: an optional `+` (never `-`), then digits, below 2^64. */
  function ParseUsize(t: string): (r: Option<usize>)
    ensures r.Some? <==> IsIntegerSyntax(t, {'+'}) && DigitsValue(Magnitude(t, {'+'})) <= USIZE_MAX
    ensures r.Some? ==> r.value == DigitsValue(Magnitude(t, {'+'}))
    ensures |t| > 0 && t[0] == '-' ==> r.None?
  {
    if |t| == 0 then None
    else
      var digits := if t[0] == '+' then t[1..] else t;
      if |digits| == 0 || !IsDigits(digits) then None
      else
        var v := DigitsValue(digits);
        if v <= USIZE_MAX then Some(v) else None
  }

  /** A leading zero adds nothing to the value of a run of digits. */
  lemma {:induction false} LeadingZeroValue(s: string)
    requires IsDigits(s)
    ensures IsDigits("0" + s) && DigitsValue("0" + s) == DigitsValue(s)
    decreases |s|
  {
    var z := "0" + s;
    assert IsDigits(z) by {
      forall i | 0 <= i < |z| ensures IsDigit(z[i]) {
        if i > 0 { assert z[i] == s[i - 1]; }
      }
    }
    if s != [] {
      var init := s[..|s| - 1];
      assert IsDigits(init) by {
        forall i | 0 <= i < |init| ensures IsDigit(init[i]) { assert init[i] == s[i]; }
      }
      LeadingZeroValue(init);
      assert z[..|z| - 1] == "0" + init;
      assert z[|z| - 1] == s[|s| - 1];
    }
  }

  /** An explicit `+` changes nothing: `+n` parses exactly as `n` does. */
  lemma PlusIsIgnored(s: string)
    requires 1 <= |s| && IsDigits(s)
    ensures ParseUsize("+" + s) == ParseUsize(s)
    ensures ParseIsize("+" + s) == ParseIsize(s)
  {
    assert ("+" + s)[0] == '+' && ("+" + s)[1..] == s;
  }

  /** Leading zeros change nothing: `0n` parses exactly as `n` does. */
  lemma LeadingZeroIsIgnored(s: string)
    requires 1 <= |s| && IsDigits(s)
    ensures ParseUsize("0" + s) == ParseUsize(s)
    ensures ParseIsize("0" + s) == ParseIsize(s)
  {
    LeadingZeroValue(s);
    assert ("0" + s)[0] == '0';
  }

  /** Spellings other than the shortest one: `+5`, `007` and `-0`. */
  lemma NonCanonicalIntegers()
    ensures ParseUsize("+5") == Some(5)
    ensures ParseIsize("007") == Some(7)
    ensures ParseIsize("-0") == Some(0)
  {
    assert DigitsValue("5") == 5;
    assert DigitsValue("0") == 0;
    assert DigitsValue("00") == 0;
    assert "007"[..2] == "00" && "00"[..1] == "0";
    assert DigitsValue("007") == 7;
    assert "-0"[1..] == "0";
  }

  lemma ParseIsizeRoundTrip(x: isize)
    ensures ParseIsize(SignedText(x)) == Some(x)
  {
    var d: nat := if x < 0 then -(x as int) else x;
    DecimalTextRoundTrip(d);
    if x < 0 {
      assert SignedText(x)[1..] == DecimalText(d);
    }
  }

  lemma ParseUsizeRoundTrip(x: usize)
    ensures ParseUsize(DecimalText(x)) == Some(x)
  {
    DecimalTextRoundTrip(x);
  }

  /** The range check is the 64-bit one: one past the largest value is refused. */
  lemma IntegerWidthIsExplicit()
    ensures ParseIsize(DecimalText(ISIZE_MAX + 1)) == None
    ensures ParseIsize(SignedText(ISIZE_MIN - 1)) == None
    ensures ParseUsize(DecimalText(USIZE_MAX + 1)) == None
  {
    DecimalTextRoundTrip(ISIZE_MAX + 1);
    DecimalTextRoundTrip(-(ISIZE_MIN - 1));
    assert SignedText(ISIZE_MIN - 1)[1..] == DecimalText(-(ISIZE_MIN - 1));
    DecimalTextRoundTrip(USIZE_MAX + 1);
  }

  /** ASCII case folding, used by the case-insensitive words of the `f64` grammar. */
  function Lower(c: char): char {
    if 'A' <= c <= 'Z' then (c as int + 32) as char else c
  }

  function LowerText(s: string): (r: string)
    ensures |r| == |s|
  {
    if s == [] then [] else [Lower(s[0])] + LowerText(s[1..])
  }

  /** Where the decimal part of the `f64` grammar
        Number   ::= Mantissa Exponent?
        Mantissa ::= Digit+ | Digit+ '.' Digit* | '.' Digit+
        Exponent ::= ('e' | 'E') ('+' | '-')? Digit+
      stands after a prefix of the text. */
  datatype F64State =
    | Start      // nothing read
    | Whole      // digits before any `.`
    | Point      // a `.` with no digit before it
    | Fraction   // a mantissa with a `.` and at least one digit
    | ExpMark    // `e` or `E`
    | ExpSign    // `e` and a sign
    | ExpDigits  // `e`, an optional sign and digits

  predicate IsAccepting(st: F64State) {
    st == Whole || st == Fraction || st == ExpDigits
  }

  function F64Step(st: F64State, c: char): Option<F64State> {
    if IsDigit(c) then
      match st
      case Start => Some(Whole)
      case Whole => Some(Whole)
      case Point => Some(Fraction)
      case Fraction => Some(Fraction)
      case ExpMark => Some(ExpDigits)
      case ExpSign => Some(ExpDigits)
      case ExpDigits => Some(ExpDigits)
    else if c == '.' then
      match st
      case Start => Some(Point)
      case Whole => Some(Fraction)
      case _ => None
    else if c == 'e' || c == 'E' then
      if st == Whole || st == Fraction then Some(ExpMark) else None
    else if c == '+' || c == '-' then
      if st == ExpMark then Some(ExpSign) else None
    else None
  }

  /** The rest of the text `s` completes a number from state `st`. */
  predicate IsDecimalFrom(s: string, st: F64State) {
    if s == [] then IsAccepting(st)
    else match F64Step(st, s[0])
      case None => false
      case Some(next) => IsDecimalFrom(s[1..], next)
  }

  /** The text `<f64 as FromStr>::from_str` accepts: an optional sign, then `inf`,
      `infinity` or `nan` in any case, or a decimal number. Overflowing values are
      accepted too (they parse to an infinity), so there is no range check. */
  predicate IsF64Text(t: string) {
    var body := if |t| > 0 && (t[0] == '+' || t[0] == '-') then t[1..] else t;
    var word := LowerText(body);
    word == "inf" || word == "infinity" || word == "nan" || IsDecimalFrom(body, Start)
  }

  /** Digits keep a run of digits, a fraction or an exponent going. */
  lemma {:induction false} DigitsKeepState(d: string, rest: string, st: F64State)
    requires IsDigits(d) && (st == Whole || st == Fraction || st == ExpDigits)
    ensures IsDecimalFrom(d + rest, st) == IsDecimalFrom(rest, st)
    decreases |d|
  {
    if d != [] {
      assert (d + rest)[0] == d[0] && IsDigit(d[0]);
      assert (d + rest)[1..] == d[1..] + rest;
      assert IsDigits(d[1..]) by {
        forall i | 0 <= i < |d[1..]| ensures IsDigit(d[1..][i]) {
          assert d[1..][i] == d[i + 1];
        }
      }
      DigitsKeepState(d[1..], rest, st);
    } else {
      assert d + rest == rest;
    }
  }

  /** Every `digits.digits` spelling is a float. */
  lemma DecimalFractionIsF64(whole: nat, fraction: nat)
    ensures IsF64Text(DecimalText(whole) + "." + DecimalText(fraction))
  {
    var w, f := DecimalText(whole), DecimalText(fraction);
    var t := w + "." + f;
    assert t[0] == w[0];
    assert t[1..] == w[1..] + ("." + f);
    DigitsKeepState(w[1..], "." + f, Whole);
    assert ("." + f)[1..] == f + [];
    DigitsKeepState(f, [], Fraction);
  }

  /** A `digits.digits` text is made of digits and one point only: the point
      sits right after the whole part, and every other character is a digit. */
  lemma DecimalFractionChars(whole: nat, fraction: nat)
    ensures var t := DecimalText(whole) + "." + DecimalText(fraction);
      forall i :: 0 <= i < |t| ==> IsDigit(t[i]) || t[i] == '.'
    ensures var t := DecimalText(whole) + "." + DecimalText(fraction);
      forall i :: 0 <= i < |t| ==> (t[i] == '.' <==> i == |DecimalText(whole)|)
  {
    var w, f := DecimalText(whole), DecimalText(fraction);
    var t := w + "." + f;
    forall i | 0 <= i < |t|
      ensures IsDigit(t[i]) || t[i] == '.'
      ensures t[i] == '.' <==> i == |w|
    {
      if i < |w| {
        assert t[i] == w[i];
      } else if i > |w| {
        assert t[i] == f[i - |w| - 1];
      }
    }
  }

  /** The usual spellings are floats ... */
  lemma F64Accepts()
    ensures IsF64Text("1.5e-3") && IsF64Text("-.5") && IsF64Text("2.") && IsF64Text("7E10")
    ensures IsF64Text("+InF") && IsF64Text("NaN")
  {
    assert IsDecimalFrom("3", ExpSign);
    assert IsDecimalFrom("-3", ExpMark);
    assert IsDecimalFrom("e-3", Fraction);
    assert IsDecimalFrom("5e-3", Fraction);
    assert IsDecimalFrom(".5e-3", Whole);
    assert IsDecimalFrom("1.5e-3", Start);
    assert IsDecimalFrom("5", Point);
    assert IsDecimalFrom(".5", Start);
    assert IsDecimalFrom("0", ExpDigits);
    assert IsDecimalFrom("10", ExpMark);
    assert IsDecimalFrom("E10", Whole);
    assert LowerText("InF") == "inf";
    assert LowerText("NaN") == "nan";
  }

  /** ... incomplete ones are not ... */
  lemma F64RefusesIncomplete()
    ensures !IsF64Text(".") && !IsF64Text("1e") && !IsF64Text("e5") && !IsF64Text("") && !IsF64Text("-")
  {
    assert LowerText(".") == ".";
    assert LowerText("1e") == "1e";
    assert LowerText("e5") == "e5";
  }

  /** ... and neither are a second point, digit separators or a radix prefix. */
  lemma F64RefusesForeign()
    ensures !IsF64Text("1.2.3") && !IsF64Text("1_000") && !IsF64Text("0x10")
  {
    assert !IsDecimalFrom(".3", Fraction);
    assert !IsDecimalFrom("2.3", Fraction);
    assert !IsDecimalFrom(".2.3", Whole);
    assert !IsDecimalFrom("_000", Whole);
    assert !IsDecimalFrom("x10", Whole);
  }
}
