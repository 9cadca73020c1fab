/**
  What one `next_token` call produces, stated from the first significant
  character `f` on: the fixed-token table, the string, numeric and boolean
  scanners, the identifier scanner, and the end of input.
 */
module Properties {
  import opened Options
  import opened Tokens
  import opened Lexer
  import opened Scanning
  import Numbers

  // ---------------------------------------------------------------------------
  // End of input

  /** Once the cursor is past the end, every call yields no token and steps once. */
  lemma EndOfInputIsSticky(src: string, pos: nat)
    requires |src| < pos
    ensures NextToken(src, pos) == Scanned(NoToken, pos + 1)
  {
  }

  /** Input holding only spaces, tabs, newlines and carriage returns yields no token. */
  lemma WhitespaceOnlyYieldsNoToken(src: string, pos: nat)
    requires forall i :: pos <= i < |src| ==> IsWhitespace(src[i])
    ensures NextToken(src, pos).value == NoToken
  {
    SkipWhitespaceRunsOut(src, pos);
  }

  /** After a call that yields no token, the next call yields none either. */
  lemma NoTokenIsFinal(src: string, pos: nat)
    requires NextToken(src, pos).value.NoToken?
    ensures NextToken(src, NextToken(src, pos).pos).value.NoToken?
  {
    EndOfInputIsSticky(src, NextToken(src, pos).pos);
  }

  // ---------------------------------------------------------------------------
  // The fixed-token table

  /** Every fixed token is recognised from its own spelling: a two-character
      token from both characters, with the extra `consume` step, a one-character
      token from its character alone. */
  lemma FixedSpellingsAreRecognised(t: Token, pos: nat)
    requires IsFixed(t)
    ensures var s := FixedText(t);
      if |s| == 2 then LookaheadToken(Some(s[0]), Some(s[1]), pos) == Scanned(Some(t), pos + 1)
      else LookaheadToken(Some(s[0]), None, pos) == Scanned(Some(t), pos)
  {
    match t
    case SEPARATOR(s) =>
    case OPERATOR(op) =>
  }

  /** A fixed token that `next_token` returns spells the source where it starts,
      and the cursor ends right after that spelling. */
  lemma FixedTokenMatchesSource(src: string, pos: nat, f: nat)
    requires SignificantAt(src, pos, f)
    requires NextToken(src, pos).value.Tok? && IsFixed(NextToken(src, pos).value.token)
    ensures var r := NextToken(src, pos); var s := FixedText(r.value.token);
      && r.pos == f + |s|
      && PrefixAt(s, src, f)
  {
    FilteredCharsAt(src, pos, f);
    LookaheadSpellsToken(Some(src[f]), NonBlankAt(src, f + 1), f + 1);
    var r := NextToken(src, pos);
    var s := FixedText(r.value.token);
    if |s| == 2 {
      assert src[f..f + 2] == [src[f], src[f + 1]];
    }
  }

  /** Two-character operators are never split: when the first significant
      character and the one after it spell one, that operator is the token and the
      cursor ends two past its start. */
  lemma TwoCharOperatorIsNotSplit(src: string, pos: nat, f: nat, t: Token)
    requires SignificantAt(src, pos, f)
    requires IsFixed(t) && |FixedText(t)| == 2 && PrefixAt(FixedText(t), src, f)
    ensures NextToken(src, pos) == Scanned(Tok(t), f + 2)
  {
    FilteredCharsAt(src, pos, f);
    var s := FixedText(t);
    assert src[f] == s[0] && src[f + 1] == s[1];
    FixedSpellingsAreRecognised(t, f + 1);
  }

  /** A one-character fixed token standing alone (followed by whitespace or the
      end of input) is produced in its one-character form. */
  lemma LoneFixedCharacter(src: string, pos: nat, f: nat, t: Token)
    requires SignificantAt(src, pos, f)
    requires IsFixed(t) && FixedText(t) == [src[f]]
    requires NonBlankAt(src, f + 1).None?
    ensures NextToken(src, pos) == Scanned(Tok(t), f + 1)
  {
    FilteredCharsAt(src, pos, f);
    FixedSpellingsAreRecognised(t, f + 1);
  }

  /** Separators and `.` resolve whatever character follows them, each as the
      token it spells. */
  lemma SeparatorIgnoresNext(src: string, pos: nat, f: nat, t: Token)
    requires SignificantAt(src, pos, f) && IsSingleOnly(src[f])
    requires IsFixed(t) && FixedText(t) == [src[f]]
    ensures NextToken(src, pos) == Scanned(Tok(t), f + 1)
  {
    FilteredCharsAt(src, pos, f);
    FixedSpellingsAreRecognised(t, f + 1);
  }

  /** `!` always resolves: NOTEQUAL before `=`, NOT before anything else. */
  lemma BangAlwaysResolves(src: string, pos: nat, f: nat)
    requires SignificantAt(src, pos, f) && src[f] == '!'
    ensures NextToken(src, pos) ==
      if f + 1 < |src| && src[f + 1] == '=' then Scanned(Tok(OPERATOR(NOTEQUAL)), f + 2)
      else Scanned(Tok(OPERATOR(NOT)), f + 1)
  {
    FilteredCharsAt(src, pos, f);
  }

  /** `= + - * / & |` followed by a significant character that does not complete a
      pair produce no fixed token: the character falls through to the literal and
      identifier scanners, with the cursor just past it. */
  lemma UnpairedOperatorFallsThrough(src: string, pos: nat, f: nat)
    requires SignificantAt(src, pos, f) && IsPairStart(src[f])
    requires f + 1 < |src| && !IsWhitespace(src[f + 1]) && !IsPair(src[f], src[f + 1])
    ensures NextToken(src, pos) == Dispatch(src, src[f], f + 1)
  {
    FilteredCharsAt(src, pos, f);
    LookaheadResolves(src[f], NonBlankAt(src, f + 1), f + 1);
  }

  // ---------------------------------------------------------------------------
  // String literals

  /** After an opening quote the payload is every character up to the next quote,
      unescaped, and the cursor ends just past the closing quote. */
  lemma StringLiteralSpan(src: string, pos: nat, f: nat, q: nat)
    requires SignificantAt(src, pos, f) && src[f] == '"'
    requires f < q < |src| && src[q] == '"'
    requires forall k :: f < k < q ==> src[k] != '"'
    ensures NextToken(src, pos) == Scanned(Tok(LITERAL(STRING(src[f + 1..q]))), q + 1)
  {
    FilteredCharsAt(src, pos, f);
    StringScanStopsAt(src, f + 1, f + 1, q);
  }

  /** An unterminated string yields no token and leaves the cursor past the end. */
  lemma UnterminatedStringYieldsNoToken(src: string, pos: nat, f: nat)
    requires SignificantAt(src, pos, f) && src[f] == '"'
    requires forall k :: f < k < |src| ==> src[k] != '"'
    ensures NextToken(src, pos) == Scanned(NoToken, |src| + 1)
  {
    FilteredCharsAt(src, pos, f);
    StringScanRunsOut(src, f + 1, f + 1);
  }

  // ---------------------------------------------------------------------------
  // Numeric literals

  /** The first significant character starts a numeric literal: a digit, or a
      sign that the fixed-token table did not resolve. */
  predicate StartsNumber(src: string, f: nat)
    requires f < |src|
  {
    || Numbers.IsDigit(src[f])
    || ((src[f] == '+' || src[f] == '-') && f + 1 < |src| && !IsWhitespace(src[f + 1]) && !IsPair(src[f], src[f + 1]))
  }

  /** A numeric literal runs to the first `u`, `i` or `f`; the value text is
      everything before it, and the suffix picks the type. */
  lemma NumericLiteralSpan(src: string, pos: nat, f: nat, q: nat)
    requires SignificantAt(src, pos, f) && StartsNumber(src, f)
    requires f < q < |src| && IsSuffix(src[q])
    requires forall k :: f < k < q ==> !IsSuffix(src[k])
    ensures NextToken(src, pos) == Scanned(NumericValue(src[f..q], src[q]), q + 1)
  {
    FilteredCharsAt(src, pos, f);
    LookaheadResolves(src[f], NonBlankAt(src, f + 1), f + 1);
    assert NextToken(src, pos) == NumericLiteral(src, f + 1);
    NumericLiteralStopsAt(src, f, q);
  }

  /** A numeric literal without a suffix before the end of input yields no token. */
  lemma UnsuffixedNumberYieldsNoToken(src: string, pos: nat, f: nat)
    requires SignificantAt(src, pos, f) && StartsNumber(src, f)
    requires forall k :: f < k < |src| ==> !IsSuffix(src[k])
    ensures NextToken(src, pos) == Scanned(NoToken, |src| + 1)
  {
    FilteredCharsAt(src, pos, f);
    LookaheadResolves(src[f], NonBlankAt(src, f + 1), f + 1);
    SuffixScanRunsOut(src, f + 1);
  }

  /** Any character other than a digit after the first one spoils an integer
      literal: the parse fails, which the source turns into a panic. */
  lemma NonDigitSpoilsInteger(src: string, pos: nat, f: nat, q: nat, k: nat)
    requires SignificantAt(src, pos, f) && StartsNumber(src, f)
    requires f < q < |src| && (src[q] == 'u' || src[q] == 'i')
    requires forall j :: f < j < q ==> !IsSuffix(src[j])
    requires f < k < q && !Numbers.IsDigit(src[k])
    ensures NextToken(src, pos) == Scanned(ParseFailure, q + 1)
  {
    NumericLiteralSpan(src, pos, f, q);
    var raw := src[f..q];
    assert raw[k - f] == src[k];
  }

  /** `<digits>u` is an unsigned literal with the value of the digits. */
  lemma UnsignedSuffix(src: string, pos: nat, f: nat, n: usize)
    requires SignificantAt(src, pos, f)
    requires PrefixAt(Numbers.DecimalText(n) + "u", src, f)
    ensures NextToken(src, pos) == Scanned(Tok(LITERAL(USIGNEDINT(n))), f + |Numbers.DecimalText(n)| + 1)
  {
    var d := Numbers.DecimalText(n);
    var q := f + |d|;
    assert src[f..q + 1] == d + "u";
    assert src[f..q] == src[f..q + 1][..|d|];
    assert (d + "u")[..|d|] == d;
    assert Numbers.IsDigit(src[f]);
    forall k | f < k < q
      ensures !IsSuffix(src[k])
    {
      assert src[k] == d[k - f];
    }
    NumericLiteralSpan(src, pos, f, q);
    Numbers.ParseUsizeRoundTrip(n);
  }

  /** `<signed digits>i` is a signed literal with that value; a leading `-` glued
      to the digits is a sign, not SUBTRACT. */
  lemma SignedSuffix(src: string, pos: nat, f: nat, x: isize)
    requires SignificantAt(src, pos, f)
    requires PrefixAt(Numbers.SignedText(x) + "i", src, f)
    ensures NextToken(src, pos) == Scanned(Tok(LITERAL(SIGNEDINT(x))), f + |Numbers.SignedText(x)| + 1)
  {
    var d := Numbers.SignedText(x);
    var q := f + |d|;
    assert src[f..q + 1] == d + "i";
    assert src[f..q] == src[f..q + 1][..|d|];
    assert (d + "i")[..|d|] == d;
    var digits := Numbers.DecimalText(if x < 0 then -(x as int) else x);
    assert d == (if x < 0 then "-" else "") + digits;
    if x < 0 {
      assert src[f] == '-' && src[f + 1] == digits[0];
      assert Numbers.IsDigit(src[f + 1]);
    } else {
      assert Numbers.IsDigit(src[f]);
    }
    forall k | f < k < q
      ensures !IsSuffix(src[k])
    {
      assert src[k] == d[k - f];
      if x < 0 {
        assert d[k - f] == digits[k - f - 1];
      }
    }
    NumericLiteralSpan(src, pos, f, q);
    Numbers.ParseIsizeRoundTrip(x);
  }

  /** A text followed by a character at `f`, character by character. */
  lemma TextAt(src: string, f: nat, d: string, c: char)
    requires PrefixAt(d + [c], src, f)
    ensures f + |d| < |src| && src[f..f + |d|] == d && src[f + |d|] == c
    ensures forall k :: f <= k < f + |d| ==> src[k] == d[k - f]
  {
    assert src[f..f + |d|] == src[f..f + |d| + 1][..|d|];
    assert (d + [c])[..|d|] == d;
    forall k | f <= k < f + |d| ensures src[k] == d[k - f] {
      assert src[f..f + |d| + 1][k - f] == (d + [c])[k - f];
    }
  }

  /** A number whose text up to the first suffix is an `f64` text, and whose
      suffix is `f`, is one float literal carrying that text. */
  lemma FloatFromText(src: string, pos: nat, f: nat, d: string)
    requires SignificantAt(src, pos, f) && StartsNumber(src, f)
    requires f + |d| < |src| && src[f..f + |d|] == d && src[f + |d|] == 'f'
    requires forall k :: f < k < f + |d| ==> !IsSuffix(src[k])
    requires Numbers.IsF64Text(d)
    ensures NextToken(src, pos) == Scanned(Tok(LITERAL(FLOAT(d))), f + |d| + 1)
  {
    assert NumericValue(d, 'f') == Tok(LITERAL(FLOAT(d)));
    NumericLiteralSpan(src, pos, f, f + |d|);
  }

  /** A number whose suffix is `f` but whose text `f64` refuses makes the parse
      fail, which the source turns into a panic. */
  lemma RefusedFloatFails(src: string, pos: nat, f: nat, q: nat)
    requires SignificantAt(src, pos, f) && StartsNumber(src, f)
    requires f < q < |src| && src[q] == 'f'
    requires forall k :: f < k < q ==> !IsSuffix(src[k])
    requires !Numbers.IsF64Text(src[f..q])
    ensures NextToken(src, pos) == Scanned(ParseFailure, q + 1)
  {
    NumericLiteralSpan(src, pos, f, q);
  }

  /** `<digits>.<digits>f` is a float literal carrying that text. */
  lemma FloatSuffix(src: string, pos: nat, f: nat, whole: nat, fraction: nat)
    requires SignificantAt(src, pos, f)
    requires PrefixAt(Numbers.DecimalText(whole) + "." + Numbers.DecimalText(fraction) + "f", src, f)
    ensures var d := Numbers.DecimalText(whole) + "." + Numbers.DecimalText(fraction);
      NextToken(src, pos) == Scanned(Tok(LITERAL(FLOAT(d))), f + |d| + 1)
  {
    var d := Numbers.DecimalText(whole) + "." + Numbers.DecimalText(fraction);
    TextAt(src, f, d, 'f');
    Numbers.DecimalFractionChars(whole, fraction);
    assert Numbers.IsDigit(src[f]) by {
      assert src[f] == d[0];
    }
    forall k | f < k < f + |d|
      ensures !IsSuffix(src[k])
    {
      assert src[k] == d[k - f];
    }
    Numbers.DecimalFractionIsF64(whole, fraction);
    FloatFromText(src, pos, f, d);
  }

  // ---------------------------------------------------------------------------
  // Boolean literals

  /** `true` and `false` are matched at the first significant character with no
      look at what follows: `truex` starts with BOOL(true). */
  lemma BooleanIgnoresBoundary(src: string, pos: nat, f: nat, b: bool)
    requires SignificantAt(src, pos, f)
    requires PrefixAt(BoolText(b), src, f)
    ensures NextToken(src, pos) == Scanned(Tok(LITERAL(BOOL(b))), f + |BoolText(b)|)
  {
    FilteredCharsAt(src, pos, f);
    assert src[f] == BoolText(b)[0];
    LookaheadResolves(src[f], NonBlankAt(src, f + 1), f + 1);
    if b {
      assert !PrefixAt("false", src, f);
    } else {
      assert !PrefixAt("true", src, f);
    }
    assert BooleanLiteral(src, f + 1) == Scanned(Some(LITERAL(BOOL(b))), f + |BoolText(b)|);
  }

  // ---------------------------------------------------------------------------
  // Identifiers and keywords

  /** The first significant character reaches the identifier scanner: no fixed
      token, no string, no number, no boolean. */
  predicate StartsWord(src: string, f: nat)
    requires f < |src|
  {
    && !StartsFixedToken(src[f], NonBlankAt(src, f + 1))
    && src[f] != '"'
    && !IsNumericChar(src[f])
    && !PrefixAt("true", src, f)
    && !PrefixAt("false", src, f)
  }

  /** A word runs from the first significant character up to the first later
      terminator, where the cursor is left; it is a keyword exactly when it spells
      one and an identifier otherwise. */
  lemma WordSpan(src: string, pos: nat, f: nat, k: nat)
    requires SignificantAt(src, pos, f) && StartsWord(src, f)
    requires f < k < |src| && IsTerminator(src, k)
    requires forall j :: f < j < k ==> !IsTerminator(src, j)
    ensures NextToken(src, pos) == Scanned(Tok(ClassifyWord(Trim(src[f..k]))), k)
  {
    FilteredCharsAt(src, pos, f);
    LookaheadResolves(src[f], NonBlankAt(src, f + 1), f + 1);
    IdentifierScanStopsAt(src, f + 1, f + 1, k);
  }

  /** A word that runs into the end of input yields no token at all. */
  lemma WordAtEndIsLost(src: string, pos: nat, f: nat)
    requires SignificantAt(src, pos, f) && StartsWord(src, f)
    requires forall j :: f < j < |src| ==> !IsTerminator(src, j)
    ensures NextToken(src, pos) == Scanned(NoToken, |src| + 1)
  {
    FilteredCharsAt(src, pos, f);
    LookaheadResolves(src[f], NonBlankAt(src, f + 1), f + 1);
    IdentifierScanRunsOut(src, f + 1, f + 1);
  }
}
