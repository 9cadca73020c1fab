/**
  The token stream of a whole source: `Lexer::new` puts the cursor at 0 and the
  loop of src/main.rs calls `next_token` until it yields nothing. The stream ends
  in the outcome that stopped the loop: no token, or the panic of a numeric parse.
 */
module Driver {
  import opened Options
  import opened Tokens
  import opened Lexer
  import opened Scanning
  import opened Properties
  import Numbers

  /** The tokens produced from cursor `pos` on, and the outcome that ended them. */
  datatype Run = Run(tokens: seq<Token>, last: Outcome)

  function Tokenize(src: string, pos: nat): (r: Run)
    ensures !r.last.Tok?
    ensures forall i :: 0 <= i < |r.tokens| ==> !r.tokens[i].COMMENT?
    ensures |r.tokens| <= if pos <= |src| then |src| - pos else 0
    decreases if pos <= |src| then |src| + 1 - pos else 0
  {
    var step := NextToken(src, pos);
    match step.value
    case Tok(t) =>
      var rest := Tokenize(src, step.pos);
      Run([t] + rest.tokens, rest.last)
    case _ => Run([], step.value)
  }

  /** `Lexer::new` followed by the loop of src/main.rs. */
  function Lex(src: string): Run {
    Tokenize(src, 0)
  }

  /** The stream is `next_token` iterated: a token is the head of the stream
      resumed at the cursor that token left behind. */
  lemma TokenizeStep(src: string, pos: nat, t: Token, next: nat)
    requires NextToken(src, pos) == Scanned(Tok(t), next)
    ensures Tokenize(src, pos) == Run([t] + Tokenize(src, next).tokens, Tokenize(src, next).last)
  {
  }

  /** A cursor from which only whitespace remains ends the stream with no token. */
  lemma TokenizeStops(src: string, pos: nat)
    requires forall i :: pos <= i < |src| ==> IsWhitespace(src[i])
    ensures Tokenize(src, pos) == Run([], NoToken)
  {
    WhitespaceOnlyYieldsNoToken(src, pos);
  }

  /** Each token of the stream is exactly what `next_token` returns at the cursor
      the previous call left, and the stream ends where `next_token` stops
      yielding. */
  lemma {:induction false} TokenizeIsIteratedNextToken(src: string, pos: nat)
    ensures var r := Tokenize(src, pos);
      if NextToken(src, pos).value.Tok? then
        && |r.tokens| > 0
        && r.tokens[0] == NextToken(src, pos).value.token
        && r.tokens[1..] == Tokenize(src, NextToken(src, pos).pos).tokens
      else r == Run([], NextToken(src, pos).value)
  {
  }

  /** `next_token` yields `ts` one after another, from the cursors in `cursors`. */
  predicate Yields(src: string, cursors: seq<nat>, ts: seq<Token>)
    requires |cursors| == |ts| + 1
  {
    forall i :: 0 <= i < |ts| ==> NextToken(src, cursors[i]) == Scanned(Tok(ts[i]), cursors[i + 1])
  }

  /** When successive calls of `next_token` yield `ts` and the call after them
      yields nothing, the stream is exactly `ts`. */
  lemma {:induction false} TokenizeFollows(src: string, cursors: seq<nat>, ts: seq<Token>)
    requires |cursors| == |ts| + 1 && Yields(src, cursors, ts)
    requires NextToken(src, cursors[|ts|]).value.NoToken?
    ensures Tokenize(src, cursors[0]) == Run(ts, NoToken)
    decreases |ts|
  {
    if ts != [] {
      assert Yields(src, cursors[1..], ts[1..]) by {
        forall i | 0 <= i < |ts| - 1
          ensures NextToken(src, cursors[1..][i]) == Scanned(Tok(ts[1..][i]), cursors[1..][i + 1])
        {
          assert cursors[1..][i] == cursors[i + 1] && cursors[1..][i + 1] == cursors[i + 2];
        }
      }
      TokenizeFollows(src, cursors[1..], ts[1..]);
      TokenizeStep(src, cursors[0], ts[0], cursors[1]);
      assert ts == [ts[0]] + ts[1..];
    }
  }

  /** The cursors the loop of src/main.rs calls `next_token` from, starting at
      `pos`: one per token and a last one for the call that ends the stream. */
  function Cursors(src: string, pos: nat): seq<nat>
    decreases if pos <= |src| then |src| + 1 - pos else 0
  {
    var step := NextToken(src, pos);
    if step.value.Tok? then [pos] + Cursors(src, step.pos) else [pos]
  }

  /** Every stream arises that way: its tokens are what `next_token` yields from
      successive cursors starting at `pos`, and the call at the last cursor ends
      it in the stream's own outcome. With `TokenizeFollows` this characterises
      the stream completely. */
  lemma {:induction false} TokenizeYields(src: string, pos: nat)
    ensures var r, c := Tokenize(src, pos), Cursors(src, pos);
      && |c| == |r.tokens| + 1 && c[0] == pos
      && Yields(src, c, r.tokens)
      && NextToken(src, c[|r.tokens|]).value == r.last
    decreases if pos <= |src| then |src| + 1 - pos else 0
  {
    var step := NextToken(src, pos);
    if step.value.Tok? {
      TokenizeYields(src, step.pos);
      var r, c := Tokenize(src, pos), Cursors(src, pos);
      var r', c' := Tokenize(src, step.pos), Cursors(src, step.pos);
      assert r.tokens == [step.value.token] + r'.tokens && r.last == r'.last;
      assert c == [pos] + c';
      forall i | 0 <= i < |r.tokens|
        ensures NextToken(src, c[i]) == Scanned(Tok(r.tokens[i]), c[i + 1])
      {
        if i > 0 {
          assert c[i] == c'[i - 1] && c[i + 1] == c'[i] && r.tokens[i] == r'.tokens[i - 1];
        }
      }
      assert c[|r.tokens|] == c'[|r'.tokens|];
    }
  }

  // ---------------------------------------------------------------------------
  // Concrete sources

  const LetSource := "let x = 10i + 5i;"

  /** `LetTokenAt<n>`: what the call of `next_token` at cursor `n` of `LetSource`
      returns, one lemma per call the loop makes, each resting on one property of
      `next_token`. `LetYields` stitches them into the stream. */

  lemma LetTokenAt0(src: string)
    requires src == LetSource
    ensures NextToken(src, 0) == Scanned(Tok(KEYWORD(LET)), 3)
  {
    assert src[0..3] == "let";
    TrimKeepsUntrimmedEnds("let");
    assert ClassifyWord("let") == KEYWORD(LET);
    WordSpan(src, 0, 0, 3);
  }

  lemma LetTokenAt3(src: string)
    requires src == LetSource
    ensures NextToken(src, 3) == Scanned(Tok(IDENTIFIER("x")), 5)
  {
    assert src[4] == 'x';
    assert src[4..5] == [src[4]];
    TrimKeepsUntrimmedEnds("x");
    assert ClassifyWord("x") == IDENTIFIER("x");
    WordSpan(src, 3, 4, 5);
  }

  lemma LetTokenAt5(src: string)
    requires src == LetSource
    ensures NextToken(src, 5) == Scanned(Tok(OPERATOR(ASSIGNMENT)), 7)
  {
    LoneFixedCharacter(src, 5, 6, OPERATOR(ASSIGNMENT));
  }

  lemma LetTokenAt7(src: string)
    requires src == LetSource
    ensures NextToken(src, 7) == Scanned(Tok(LITERAL(SIGNEDINT(10))), 11)
  {
    assert src[8..10] == "10";
    NumericLiteralSpan(src, 7, 8, 10);
    Numbers.ParseIsizeRoundTrip(10);
    assert Numbers.SignedText(10) == "10";
  }

  lemma LetTokenAt11(src: string)
    requires src == LetSource
    ensures NextToken(src, 11) == Scanned(Tok(OPERATOR(ADD)), 13)
  {
    LoneFixedCharacter(src, 11, 12, OPERATOR(ADD));
  }

  lemma LetTokenAt13(src: string)
    requires src == LetSource
    ensures NextToken(src, 13) == Scanned(Tok(LITERAL(SIGNEDINT(5))), 16)
  {
    assert src[14..15] == "5";
    NumericLiteralSpan(src, 13, 14, 15);
  }

  lemma LetTokenAt16(src: string)
    requires src == LetSource
    ensures NextToken(src, 16) == Scanned(Tok(SEPARATOR(SEMICOLON)), 17)
  {
    SeparatorIgnoresNext(src, 16, 16, SEPARATOR(SEMICOLON));
  }

  /** The calls of `next_token` on `LetSource` yield its tokens one after another. */
  lemma LetYields(src: string, cursors: seq<nat>, ts: seq<Token>)
    requires src == LetSource && cursors == [0, 3, 5, 7, 11, 13, 16, 17]
    requires ts == [KEYWORD(LET), IDENTIFIER("x"), OPERATOR(ASSIGNMENT), LITERAL(SIGNEDINT(10)),
      OPERATOR(ADD), LITERAL(SIGNEDINT(5)), SEPARATOR(SEMICOLON)]
    ensures Yields(src, cursors, ts)
  {
    forall i | 0 <= i < |ts|
      ensures NextToken(src, cursors[i]) == Scanned(Tok(ts[i]), cursors[i + 1])
    {
      if i == 0 {
        assert cursors[i] == 0 && cursors[i + 1] == 3 && ts[i] == KEYWORD(LET);
        LetTokenAt0(src);
      } else if i == 1 {
        assert cursors[i] == 3 && cursors[i + 1] == 5 && ts[i] == IDENTIFIER("x");
        LetTokenAt3(src);
      } else if i == 2 {
        assert cursors[i] == 5 && cursors[i + 1] == 7 && ts[i] == OPERATOR(ASSIGNMENT);
        LetTokenAt5(src);
      } else if i == 3 {
        assert cursors[i] == 7 && cursors[i + 1] == 11 && ts[i] == LITERAL(SIGNEDINT(10));
        LetTokenAt7(src);
      } else if i == 4 {
        assert cursors[i] == 11 && cursors[i + 1] == 13 && ts[i] == OPERATOR(ADD);
        LetTokenAt11(src);
      } else if i == 5 {
        assert cursors[i] == 13 && cursors[i + 1] == 16 && ts[i] == LITERAL(SIGNEDINT(5));
        LetTokenAt13(src);
      } else {
        assert cursors[i] == 16 && cursors[i + 1] == 17 && ts[i] == SEPARATOR(SEMICOLON);
        LetTokenAt16(src);
      }
    }
  }

  /** A declaration with signed literals lexes to the tokens a reader expects. */
  lemma LetStatement(src: string)
    requires src == LetSource
    ensures Lex(src) == Run([
      KEYWORD(LET), IDENTIFIER("x"), OPERATOR(ASSIGNMENT), LITERAL(SIGNEDINT(10)),
      OPERATOR(ADD), LITERAL(SIGNEDINT(5)), SEPARATOR(SEMICOLON)], NoToken)
  {
    var cursors := [0, 3, 5, 7, 11, 13, 16, 17];
    var ts := [
      KEYWORD(LET), IDENTIFIER("x"), OPERATOR(ASSIGNMENT), LITERAL(SIGNEDINT(10)),
      OPERATOR(ADD), LITERAL(SIGNEDINT(5)), SEPARATOR(SEMICOLON)];
    LetYields(src, cursors, ts);
    WhitespaceOnlyYieldsNoToken(src, 17);
    TokenizeFollows(src, cursors, ts);
  }

  const IfSource := "if(a!=b){c++;}"

  /** `IfTokenAt<n>`: what the call of `next_token` at cursor `n` of `IfSource`
      returns, one lemma per call the loop makes; `IfYields` stitches them. */

  lemma IfTokenAt0(src: string)
    requires src == IfSource
    ensures NextToken(src, 0) == Scanned(Tok(KEYWORD(IF)), 2)
  {
    assert src[0..2] == "if";
    TrimKeepsUntrimmedEnds("if");
    assert ClassifyWord("if") == KEYWORD(IF);
    WordSpan(src, 0, 0, 2);
  }

  lemma IfTokenAt2(src: string)
    requires src == IfSource
    ensures NextToken(src, 2) == Scanned(Tok(SEPARATOR(LPARAN)), 3)
  {
    SeparatorIgnoresNext(src, 2, 2, SEPARATOR(LPARAN));
  }

  lemma IfTokenAt3(src: string)
    requires src == IfSource
    ensures NextToken(src, 3) == Scanned(Tok(IDENTIFIER("a")), 4)
  {
    assert src[3] == 'a';
    assert src[3..4] == [src[3]];
    TrimKeepsUntrimmedEnds("a");
    assert ClassifyWord("a") == IDENTIFIER("a");
    WordSpan(src, 3, 3, 4);
  }

  lemma IfTokenAt4(src: string)
    requires src == IfSource
    ensures NextToken(src, 4) == Scanned(Tok(OPERATOR(NOTEQUAL)), 6)
  {
    BangAlwaysResolves(src, 4, 4);
  }

  lemma IfTokenAt6(src: string)
    requires src == IfSource
    ensures NextToken(src, 6) == Scanned(Tok(IDENTIFIER("b")), 7)
  {
    assert src[6] == 'b';
    assert src[6..7] == [src[6]];
    TrimKeepsUntrimmedEnds("b");
    assert ClassifyWord("b") == IDENTIFIER("b");
    WordSpan(src, 6, 6, 7);
  }

  lemma IfTokenAt7(src: string)
    requires src == IfSource
    ensures NextToken(src, 7) == Scanned(Tok(SEPARATOR(RPARAN)), 8)
  {
    SeparatorIgnoresNext(src, 7, 7, SEPARATOR(RPARAN));
  }

  lemma IfTokenAt8(src: string)
    requires src == IfSource
    ensures NextToken(src, 8) == Scanned(Tok(SEPARATOR(LCURLY)), 9)
  {
    SeparatorIgnoresNext(src, 8, 8, SEPARATOR(LCURLY));
  }

  lemma IfTokenAt9(src: string)
    requires src == IfSource
    ensures NextToken(src, 9) == Scanned(Tok(IDENTIFIER("c")), 10)
  {
    assert src[9] == 'c';
    assert src[9..10] == [src[9]];
    TrimKeepsUntrimmedEnds("c");
    assert ClassifyWord("c") == IDENTIFIER("c");
    WordSpan(src, 9, 9, 10);
  }

  lemma IfTokenAt10(src: string)
    requires src == IfSource
    ensures NextToken(src, 10) == Scanned(Tok(OPERATOR(INCREMENT)), 12)
  {
    assert src[10..12] == "++";
    TwoCharOperatorIsNotSplit(src, 10, 10, OPERATOR(INCREMENT));
  }

  lemma IfTokenAt12(src: string)
    requires src == IfSource
    ensures NextToken(src, 12) == Scanned(Tok(SEPARATOR(SEMICOLON)), 13)
  {
    SeparatorIgnoresNext(src, 12, 12, SEPARATOR(SEMICOLON));
  }

  lemma IfTokenAt13(src: string)
    requires src == IfSource
    ensures NextToken(src, 13) == Scanned(Tok(SEPARATOR(RCURLY)), 14)
  {
    SeparatorIgnoresNext(src, 13, 13, SEPARATOR(RCURLY));
  }

  /** The calls of `next_token` on `IfSource` yield its tokens one after another. */
  lemma IfYields(src: string, cursors: seq<nat>, ts: seq<Token>)
    requires src == IfSource && cursors == [0, 2, 3, 4, 6, 7, 8, 9, 10, 12, 13, 14]
    requires ts == [KEYWORD(IF), SEPARATOR(LPARAN), IDENTIFIER("a"), OPERATOR(NOTEQUAL),
      IDENTIFIER("b"), SEPARATOR(RPARAN), SEPARATOR(LCURLY), IDENTIFIER("c"),
      OPERATOR(INCREMENT), SEPARATOR(SEMICOLON), SEPARATOR(RCURLY)]
    ensures Yields(src, cursors, ts)
  {
    forall i | 0 <= i < |ts|
      ensures NextToken(src, cursors[i]) == Scanned(Tok(ts[i]), cursors[i + 1])
    {
      if i == 0 {
        assert cursors[i] == 0 && cursors[i + 1] == 2 && ts[i] == KEYWORD(IF);
        IfTokenAt0(src);
      } else if i == 1 {
        assert cursors[i] == 2 && cursors[i + 1] == 3 && ts[i] == SEPARATOR(LPARAN);
        IfTokenAt2(src);
      } else if i == 2 {
        assert cursors[i] == 3 && cursors[i + 1] == 4 && ts[i] == IDENTIFIER("a");
        IfTokenAt3(src);
      } else if i == 3 {
        assert cursors[i] == 4 && cursors[i + 1] == 6 && ts[i] == OPERATOR(NOTEQUAL);
        IfTokenAt4(src);
      } else if i == 4 {
        assert cursors[i] == 6 && cursors[i + 1] == 7 && ts[i] == IDENTIFIER("b");
        IfTokenAt6(src);
      } else if i == 5 {
        assert cursors[i] == 7 && cursors[i + 1] == 8 && ts[i] == SEPARATOR(RPARAN);
        IfTokenAt7(src);
      } else if i == 6 {
        assert cursors[i] == 8 && cursors[i + 1] == 9 && ts[i] == SEPARATOR(LCURLY);
        IfTokenAt8(src);
      } else if i == 7 {
        assert cursors[i] == 9 && cursors[i + 1] == 10 && ts[i] == IDENTIFIER("c");
        IfTokenAt9(src);
      } else if i == 8 {
        assert cursors[i] == 10 && cursors[i + 1] == 12 && ts[i] == OPERATOR(INCREMENT);
        IfTokenAt10(src);
      } else if i == 9 {
        assert cursors[i] == 12 && cursors[i + 1] == 13 && ts[i] == SEPARATOR(SEMICOLON);
        IfTokenAt12(src);
      } else {
        assert cursors[i] == 13 && cursors[i + 1] == 14 && ts[i] == SEPARATOR(RCURLY);
        IfTokenAt13(src);
      }
    }
  }

  /** A conditional with no spaces at all: separators and operators end the words
      next to them, and `!=` and `++` come out whole. */
  lemma IfStatement(src: string)
    requires src == IfSource
    ensures Lex(src) == Run([
      KEYWORD(IF), SEPARATOR(LPARAN), IDENTIFIER("a"), OPERATOR(NOTEQUAL),
      IDENTIFIER("b"), SEPARATOR(RPARAN), SEPARATOR(LCURLY), IDENTIFIER("c"),
      OPERATOR(INCREMENT), SEPARATOR(SEMICOLON), SEPARATOR(RCURLY)], NoToken)
  {
    var cursors := [0, 2, 3, 4, 6, 7, 8, 9, 10, 12, 13, 14];
    var ts := [
      KEYWORD(IF), SEPARATOR(LPARAN), IDENTIFIER("a"), OPERATOR(NOTEQUAL),
      IDENTIFIER("b"), SEPARATOR(RPARAN), SEPARATOR(LCURLY), IDENTIFIER("c"),
      OPERATOR(INCREMENT), SEPARATOR(SEMICOLON), SEPARATOR(RCURLY)];
    IfYields(src, cursors, ts);
    WhitespaceOnlyYieldsNoToken(src, 14);
    TokenizeFollows(src, cursors, ts);
  }

  /** `true` is taken at the front of `truex` without looking further, and the
      `x` left over runs into the end of input and is lost. */
  lemma BooleanPrefixOfWord(src: string)
    requires src == "truex"
    ensures Lex(src) == Run([LITERAL(BOOL(true))], NoToken)
  {
    BooleanIgnoresBoundary(src, 0, 0, true);
    WordAtEndIsLost(src, 4, 4);
    TokenizeFollows(src, [0, 4], [LITERAL(BOOL(true))]);
  }

  /** A source that is one bare word yields nothing at all. */
  lemma LoneWordIsLost(src: string)
    requires src == "x"
    ensures Lex(src) == Run([], NoToken)
  {
    WordAtEndIsLost(src, 0, 0);
    TokenizeFollows(src, [0], []);
  }

  /** A `-` glued to digits with an `i` suffix is one negative literal. */
  lemma NegativeLiteral(src: string)
    requires src == "-1i"
    ensures Lex(src) == Run([LITERAL(SIGNEDINT(-1))], NoToken)
  {
    assert Numbers.SignedText(-1) == "-1";
    SignedSuffix(src, 0, 0, -1);
    WhitespaceOnlyYieldsNoToken(src, 3);
    TokenizeFollows(src, [0, 3], [LITERAL(SIGNEDINT(-1))]);
  }

  /** `1.5f` is one float literal carrying the text `1.5`. */
  lemma FloatLiteral(src: string)
    requires src == "1.5f"
    ensures Lex(src) == Run([LITERAL(FLOAT("1.5"))], NoToken)
  {
    assert Numbers.DecimalText(1) + "." + Numbers.DecimalText(5) == "1.5";
    FloatSuffix(src, 0, 0, 1, 5);
    WhitespaceOnlyYieldsNoToken(src, 4);
    TokenizeFollows(src, [0, 4], [LITERAL(FLOAT("1.5"))]);
  }

  /** `==` is one EQUAL, not two ASSIGNMENTs. */
  lemma DoubleEqualsIsOneToken(src: string)
    requires src == "=="
    ensures Lex(src) == Run([OPERATOR(EQUAL)], NoToken)
  {
    TwoCharOperatorIsNotSplit(src, 0, 0, OPERATOR(EQUAL));
    WhitespaceOnlyYieldsNoToken(src, 2);
    TokenizeFollows(src, [0, 2], [OPERATOR(EQUAL)]);
  }

  /** A letter inside an `i`-suffixed literal makes the parse, and the lexer, fail. */
  lemma SpoiledIntegerFails(src: string)
    requires src == "1xi"
    ensures Lex(src) == Run([], ParseFailure)
  {
    NonDigitSpoilsInteger(src, 0, 0, 2, 1);
    TokenizeIsIteratedNextToken(src, 0);
  }

  /** A bare sign before `f` is a float literal `f64` refuses: the lexer fails. */
  lemma BareSignFloatFails(src: string)
    requires src == "-f"
    ensures Lex(src) == Run([], ParseFailure)
  {
    Numbers.F64RefusesIncomplete();
    assert src[0..1] == "-";
    RefusedFloatFails(src, 0, 0, 1);
    TokenizeIsIteratedNextToken(src, 0);
  }

  /** An exponent mark with no digits after it makes a float literal fail. */
  lemma IncompleteExponentFails(src: string)
    requires src == "1ef"
    ensures Lex(src) == Run([], ParseFailure)
  {
    Numbers.F64RefusesIncomplete();
    assert src[0..2] == "1e";
    RefusedFloatFails(src, 0, 0, 2);
    TokenizeIsIteratedNextToken(src, 0);
  }

  /** The first call on `a!=b`: `!` ends the word `a`. */
  lemma ComparisonFirstWord(src: string)
    requires src == "a!=b"
    ensures NextToken(src, 0) == Scanned(Tok(IDENTIFIER("a")), 1)
  {
    assert src[0..1] == "a";
    TrimKeepsUntrimmedEnds("a");
    assert ClassifyWord("a") == IDENTIFIER("a");
    WordSpan(src, 0, 0, 1);
  }

  /** The calls of `next_token` on `a!=b` yield its tokens one after another. */
  lemma ComparisonYields(src: string, cursors: seq<nat>, ts: seq<Token>)
    requires src == "a!=b" && cursors == [0, 1, 3] && ts == [IDENTIFIER("a"), OPERATOR(NOTEQUAL)]
    ensures Yields(src, cursors, ts)
  {
    forall i | 0 <= i < |ts|
      ensures NextToken(src, cursors[i]) == Scanned(Tok(ts[i]), cursors[i + 1])
    {
      if i == 0 { ComparisonFirstWord(src); }
      else { BangAlwaysResolves(src, 1, 1); }
    }
  }

  /** `!` ends the word before it, and the word after `!=` is lost at the end. */
  lemma ComparisonLosesLastWord(src: string)
    requires src == "a!=b"
    ensures Lex(src) == Run([IDENTIFIER("a"), OPERATOR(NOTEQUAL)], NoToken)
  {
    ComparisonYields(src, [0, 1, 3], [IDENTIFIER("a"), OPERATOR(NOTEQUAL)]);
    WordAtEndIsLost(src, 3, 3);
    TokenizeFollows(src, [0, 1, 3], [IDENTIFIER("a"), OPERATOR(NOTEQUAL)]);
  }

  /** The first call on `x= y`: the word runs up to the space. */
  lemma GluedOperatorFirstWord(src: string)
    requires src == "x= y"
    ensures NextToken(src, 0) == Scanned(Tok(IDENTIFIER("x=")), 2)
  {
    assert src[0..2] == "x=";
    TrimKeepsUntrimmedEnds("x=");
    assert ClassifyWord("x=") == IDENTIFIER("x=");
    WordSpan(src, 0, 0, 2);
  }

  /** Inside a word the operator table sees the raw next character: `=` before a
      space is not ASSIGNMENT there, so it stays in the word. */
  lemma GluedOperatorJoinsWord(src: string)
    requires src == "x= y"
    ensures Lex(src) == Run([IDENTIFIER("x=")], NoToken)
  {
    GluedOperatorFirstWord(src);
    WordAtEndIsLost(src, 2, 3);
    TokenizeFollows(src, [0, 2], [IDENTIFIER("x=")]);
  }
}
