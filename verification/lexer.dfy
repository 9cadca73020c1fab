/**
  The hand-written lexer of src/lexer.rs. The Rust `Lexer` holds an immutable
  source string and one mutable byte cursor `pos`; here every `&mut self` method
  becomes a pure function from `(src, pos)` to its result together with the
  cursor it leaves behind (`Scanned`). Characters stand for bytes: the source is
  assumed to be ASCII, where the two coincide.

  The cursor is a `nat` that may run past `|src|`: `get_char` bumps it even when
  it reads nothing, which is how the end of input becomes sticky.
 */
module Lexer {
  import opened Options
  import opened Tokens
  import Numbers

  /** A result together with the cursor the Rust method leaves in `self.pos`. */
  datatype Scanned<+T> = Scanned(value: T, pos: nat)

  /** The pair of characters `get_chars` and `get_filtered_chars` return. */
  datatype Chars = Chars(first: Option<char>, second: Option<char>)

  /** What one `next_token` call ends in: a token, `None`, or the panic of a
      numeric literal's `parse().unwrap()`. */
  datatype Outcome = Tok(token: Token) | NoToken | ParseFailure

  /** The four characters the scanner treats as whitespace. */
  predicate IsWhitespace(c: char) {
    c == ' ' || c == '\t' || c == '\n' || c == '\r'
  }

  /** `get_at_index`: the one-character slice at `index`, if the source has one. */
  function CharAt(src: string, index: nat): Option<char> {
    if index < |src| then Some(src[index]) else None
  }

  /** `get_char`: read under the cursor and step past it, even at end of input. */
  function GetChar(src: string, pos: nat): (r: Scanned<Option<char>>)
    ensures r.pos == pos + 1
    ensures r.value.None? <==> |src| <= pos
    ensures r.value.Some? ==> r.value.value == src[pos]
  {
    Scanned(CharAt(src, pos), pos + 1)
  }

  /** `get_chars`: two reads and one step back, so the cursor moves by one only. */
  function GetChars(src: string, pos: nat): (r: Scanned<Chars>)
    ensures r.pos == pos + 1
    ensures r.value.first == CharAt(src, pos) && r.value.second == CharAt(src, pos + 1)
  {
    var Scanned(first, p1) := GetChar(src, pos);
    var Scanned(second, p2) := GetChar(src, p1);
    Scanned(Chars(first, second), p2 - 1)
  }

  /** The whitespace-skipping loop of `get_filtered_chars`: it stops on the first
      significant character or at end of input, one step past where it stopped. */
  function SkipWhitespace(src: string, pos: nat): (r: Scanned<Option<char>>)
    ensures pos < r.pos
    ensures r.value == CharAt(src, r.pos - 1)
    ensures r.value.Some? ==> !IsWhitespace(r.value.value)
    ensures r.value.None? ==> r.pos == if pos < |src| then |src| + 1 else pos + 1
    decreases |src| - pos
  {
    var Scanned(potential, p) := GetChar(src, pos);
    match potential
    case Some(c) => if IsWhitespace(c) then SkipWhitespace(src, p) else Scanned(potential, p)
    case None => Scanned(None, p)
  }

  /** The character at `index` as `get_filtered_chars` reports a second character:
      absent when it is whitespace or past the end. */
  function NonBlankAt(src: string, index: nat): Option<char> {
    if index < |src| && !IsWhitespace(src[index]) then Some(src[index]) else None
  }

  /** `get_filtered_chars`: the first significant character and the raw character
      right after it, reported as absent when it is whitespace or past the end.
      The cursor is left just past the first character. */
  function GetFilteredChars(src: string, pos: nat): (r: Scanned<Chars>)
    ensures pos < r.pos
    ensures r.value.first == CharAt(src, r.pos - 1)
    ensures r.value.first.Some? ==> !IsWhitespace(r.value.first.value)
    ensures r.value.first.None? ==> r.pos == if pos < |src| then |src| + 1 else pos + 1
    ensures r.value.second == NonBlankAt(src, r.pos)
  {
    var skipped := SkipWhitespace(src, pos);
    var next := GetChar(src, skipped.pos);
    var second := match next.value
      case Some(c) => if IsWhitespace(c) then None else next.value
      case None => None;
    Scanned(Chars(skipped.value, second), next.pos - 1)
  }

  /** `consume`: hand back a value and step the cursor once more. */
  function Consume<T>(val: T, pos: nat): Scanned<T> {
    Scanned(val, pos + 1)
  }

  /** `lookahead_token`: the fixed one- or two-character table. A two-character
      token is produced only when `second` completes its spelling, and then the
      cursor steps once more; a one-character operator that could begin a pair
      needs `second` absent, except `!`, which is NOT before anything but `=`. */
  function LookaheadToken(first: Option<char>, second: Option<char>, pos: nat): (r: Scanned<Option<Token>>)
    ensures r.value.Some? ==> first.Some? && IsFixed(r.value.value)
    ensures r.pos == if r.value.Some? && |FixedText(r.value.value)| == 2 then pos + 1 else pos
  {
    match first
    case Some('{') => Scanned(Some(SEPARATOR(LCURLY)), pos)
    case Some('}') => Scanned(Some(SEPARATOR(RCURLY)), pos)
    case Some('(') => Scanned(Some(SEPARATOR(LPARAN)), pos)
    case Some(')') => Scanned(Some(SEPARATOR(RPARAN)), pos)
    case Some(';') => Scanned(Some(SEPARATOR(SEMICOLON)), pos)
    case Some(',') => Scanned(Some(SEPARATOR(COMMA)), pos)
    case Some('.') => Scanned(Some(OPERATOR(DOT)), pos)
    case Some('=') =>
      (match second
       case Some('=') => Consume(Some(OPERATOR(EQUAL)), pos)
       case None => Scanned(Some(OPERATOR(ASSIGNMENT)), pos)
       case _ => Scanned(None, pos))
    case Some('!') =>
      (match second
       case Some('=') => Consume(Some(OPERATOR(NOTEQUAL)), pos)
       case _ => Scanned(Some(OPERATOR(NOT)), pos))
    case Some('+') =>
      (match second
       case Some('+') => Consume(Some(OPERATOR(INCREMENT)), pos)
       case Some('=') => Consume(Some(OPERATOR(INCASSIGN)), pos)
       case None => Scanned(Some(OPERATOR(ADD)), pos)
       case _ => Scanned(None, pos))
    case Some('-') =>
      (match second
       case Some('-') => Consume(Some(OPERATOR(DECREMENT)), pos)
       case Some('=') => Consume(Some(OPERATOR(DECASSIGN)), pos)
       case None => Scanned(Some(OPERATOR(SUBTRACT)), pos)
       case _ => Scanned(None, pos))
    case Some('*') =>
      (match second
       case Some('=') => Consume(Some(OPERATOR(MULTASSIGN)), pos)
       case None => Scanned(Some(OPERATOR(MULTIPLY)), pos)
       case _ => Scanned(None, pos))
    case Some('/') =>
      (match second
       case Some('=') => Consume(Some(OPERATOR(DIVASSIGN)), pos)
       case None => Scanned(Some(OPERATOR(DIVIDE)), pos)
       case _ => Scanned(None, pos))
    case Some('&') =>
      (match second
       case Some('&') => Consume(Some(OPERATOR(AND)), pos)
       case None => Scanned(Some(OPERATOR(BITAND)), pos)
       case _ => Scanned(None, pos))
    case Some('|') =>
      (match second
       case Some('|') => Consume(Some(OPERATOR(OR)), pos)
       case None => Scanned(Some(OPERATOR(BITOR)), pos)
       case _ => Scanned(None, pos))
    case _ => Scanned(None, pos)
  }

  /** What `lookahead_token` returns is spelled by the characters it was given:
      the first character always, the second exactly when the token has two; a
      one-character operator that could begin a pair comes out only when nothing
      follows, and `!` is NOT only when `=` does not follow. */
  lemma LookaheadSpellsToken(first: Option<char>, second: Option<char>, pos: nat)
    ensures var r := LookaheadToken(first, second, pos);
      r.value.Some? ==>
        && FixedText(r.value.value)[0] == first.value
        && (|FixedText(r.value.value)| == 2 ==> second == Some(FixedText(r.value.value)[1]))
        && ((r.value.value.OPERATOR? && |FixedText(r.value.value)| == 1
             && r.value.value.operator != NOT && r.value.value.operator != DOT) ==> second.None?)
        && (r.value.value == OPERATOR(NOT) ==> second != Some('='))
  {
  }

  /** The ten two-character spellings `lookahead_token` recognises. */
  predicate IsPair(c: char, d: char) {
    || (d == '=' && (c == '=' || c == '!' || c == '+' || c == '-' || c == '*' || c == '/'))
    || (d == c && (c == '+' || c == '-' || c == '&' || c == '|'))
  }

  /** The separators and `.`, which `lookahead_token` resolves whatever follows. */
  predicate IsSingleOnly(c: char) {
    c == '{' || c == '}' || c == '(' || c == ')' || c == ';' || c == ',' || c == '.'
  }

  /** The operator characters that resolve only alone or as the start of a pair. */
  predicate IsPairStart(c: char) {
    c == '=' || c == '+' || c == '-' || c == '*' || c == '/' || c == '&' || c == '|'
  }

  /** When `lookahead_token` resolves a character: separators, `.` and `!` always;
      the other operator characters only alone or completing a pair. */
  predicate StartsFixedToken(c: char, next: Option<char>) {
    || IsSingleOnly(c)
    || c == '!'
    || (IsPairStart(c) && (next.None? || IsPair(c, next.value)))
  }

  /** The cursor `lookahead_token` is given only decides where `consume` leaves
      it; whether a token comes out is exactly `StartsFixedToken`. */
  lemma LookaheadResolves(c: char, next: Option<char>, pos: nat)
    ensures LookaheadToken(Some(c), next, pos).value.Some? <==> StartsFixedToken(c, next)
  {
  }

  /** The characters `next_token` sends to the numeric scanner, and the ones that
      scanner steps over (src/lexer.rs:83, 101). */
  predicate IsNumericChar(c: char) {
    Numbers.IsDigit(c) || c == '-' || c == '.' || c == '+'
  }

  /** The type suffixes that end a numeric literal. */
  predicate IsSuffix(c: char) {
    c == 'u' || c == 'i' || c == 'f'
  }

  /** The three suffix arms of `process_numeric_literal`: parse `raw` as the type
      the suffix selects; a failed parse is the `unwrap()` panic. */
  function NumericValue(raw: string, suffix: char): (r: Outcome)
    requires IsSuffix(suffix)
    ensures !r.NoToken?
    ensures r.Tok? ==> r.token.LITERAL?
    ensures suffix == 'u' ==> (r.Tok? <==> Numbers.ParseUsize(raw).Some?)
    ensures suffix == 'u' && r.Tok? ==> r.token.literal == USIGNEDINT(Numbers.ParseUsize(raw).value)
    ensures suffix == 'i' ==> (r.Tok? <==> Numbers.ParseIsize(raw).Some?)
    ensures suffix == 'i' && r.Tok? ==> r.token.literal == SIGNEDINT(Numbers.ParseIsize(raw).value)
    ensures suffix == 'f' ==> (r.Tok? <==> Numbers.IsF64Text(raw))
    ensures suffix == 'f' && r.Tok? ==> r.token.literal == FLOAT(raw)
  {
    if suffix == 'u' then
      match Numbers.ParseUsize(raw)
      case Some(v) => Tok(LITERAL(USIGNEDINT(v)))
      case None => ParseFailure
    else if suffix == 'i' then
      match Numbers.ParseIsize(raw)
      case Some(v) => Tok(LITERAL(SIGNEDINT(v)))
      case None => ParseFailure
    else if Numbers.IsF64Text(raw) then Tok(LITERAL(FLOAT(raw)))
    else ParseFailure
  }

  /** The loop of `process_numeric_literal`: it walks to the first suffix, stepping
      over every other character (they all stay in the value text), and reports the
      suffix it stopped on, or nothing at end of input. */
  function SuffixScan(src: string, pos: nat): (r: Scanned<Option<char>>)
    ensures pos < r.pos
    ensures r.value.None? ==> r.pos == if pos < |src| then |src| + 1 else pos + 1
    ensures r.value.Some? ==> r.pos <= |src| && r.value.value == src[r.pos - 1] && IsSuffix(src[r.pos - 1])
    decreases |src| - pos
  {
    var next := GetChar(src, pos);
    match next.value
    case None => Scanned(None, next.pos)
    case Some(c) => if IsSuffix(c) then next else SuffixScan(src, next.pos)
  }

  /** `process_numeric_literal`, called with the cursor just past the literal's
      first character: the value text runs from that character up to the suffix,
      which picks the type; with no suffix before end of input there is no token. */
  function NumericLiteral(src: string, pos: nat): (r: Scanned<Outcome>)
    requires 1 <= pos <= |src|
    ensures pos < r.pos
    ensures r.value.NoToken? ==> r.pos == |src| + 1
    ensures !r.value.NoToken? ==> r.pos <= |src| && IsSuffix(src[r.pos - 1])
    ensures r.value.Tok? ==> r.value.token.LITERAL?
  {
    var scanned := SuffixScan(src, pos);
    match scanned.value
    case None => Scanned(NoToken, scanned.pos)
    case Some(_) => Scanned(NumericValue(src[pos - 1..scanned.pos - 1], src[scanned.pos - 1]), scanned.pos)
  }

  /** `word` occurs in `src` starting at index `i`. */
  predicate PrefixAt(word: string, src: string, i: nat) {
    i + |word| <= |src| && src[i..i + |word|] == word
  }

  function BoolText(b: bool): string {
    if b then "true" else "false"
  }

  /** `process_boolean_literal`, called with the cursor just past the first
      character: an exact `true` or `false` anchored at that character, with no
      look at what follows it. */
  function BooleanLiteral(src: string, pos: nat): (r: Scanned<Option<Token>>)
    requires 1 <= pos
    ensures r.value.Some? <==> PrefixAt("true", src, pos - 1) || PrefixAt("false", src, pos - 1)
    ensures r.value.Some? ==>
      && r.value.value.LITERAL? && r.value.value.literal.BOOL?
      && PrefixAt(BoolText(r.value.value.literal.bval), src, pos - 1)
      && r.pos == pos - 1 + |BoolText(r.value.value.literal.bval)|
    ensures r.value.None? ==> r.pos == pos
  {
    var start := pos;
    if pos + 3 > |src| then Scanned(None, pos)
    else if src[start - 1..pos + 3] == "true" then Scanned(Some(LITERAL(BOOL(true))), pos + 3)
    else if pos + 4 > |src| then Scanned(None, pos)
    else if src[start - 1..pos + 4] == "false" then Scanned(Some(LITERAL(BOOL(false))), pos + 4)
    else Scanned(None, pos)
  }

  /** The loop of `process_string_literal`: the payload is everything from `start`
      up to the next `"`, with no escapes; without one there is no token. */
  function StringScan(src: string, start: nat, pos: nat): (r: Scanned<Option<Token>>)
    requires start <= pos
    ensures pos < r.pos
    ensures r.value.None? ==> r.pos == if pos < |src| then |src| + 1 else pos + 1
    ensures r.value.Some? ==>
      && r.pos <= |src|
      && src[r.pos - 1] == '"'
      && r.value.value == LITERAL(STRING(src[start..r.pos - 1]))
    decreases |src| - pos
  {
    var Scanned(next, p) := GetChar(src, pos);
    match next
    case None => Scanned(None, p)
    case Some(c) =>
      if c == '"' then Scanned(Some(LITERAL(STRING(src[start..p - 1]))), p)
      else StringScan(src, start, p)
  }

  /** `process_string_literal`, called with the cursor just past the opening quote. */
  function StringLiteral(src: string, pos: nat): Scanned<Option<Token>> {
    StringScan(src, pos, pos)
  }

  /** The characters Rust's `str::trim` removes that an ASCII source can hold:
      tab, line feed, vertical tab, form feed, carriage return and space. */
  predicate IsTrimmable(c: char) {
    c == ' ' || '\t' <= c <= '\r'
  }

  /** The leading-whitespace half of `str::trim`. */
  function TrimStart(s: string): string {
    if |s| > 0 && IsTrimmable(s[0]) then TrimStart(s[1..]) else s
  }

  /** The trailing-whitespace half of `str::trim`. */
  function TrimEnd(s: string): string {
    if |s| > 0 && IsTrimmable(s[|s| - 1]) then TrimEnd(s[..|s| - 1]) else s
  }

  /** `str::trim` on an ASCII string. */
  function Trim(s: string): string {
    TrimEnd(TrimStart(s))
  }

  /** Where an identifier ends: a whitespace character, or one that `lookahead_token`
      resolves together with the raw (unfiltered) character after it. */
  predicate IsTerminator(src: string, k: nat) {
    k < |src| && (IsWhitespace(src[k]) || StartsFixedToken(src[k], CharAt(src, k + 1)))
  }

  /** The loop of `process_identifier`, entered with `start` one past the word's
      first character: it stops on the first terminator at or after `pos`, leaving
      the cursor on it (the step `lookahead_token` may take is undone), or yields
      nothing at end of input. */
  function IdentifierScan(src: string, start: nat, pos: nat): (r: Scanned<Option<string>>)
    requires 1 <= start <= pos
    ensures r.value.None? ==> r.pos == if pos < |src| then |src| + 1 else pos + 1
    ensures r.value.Some? ==>
      && pos <= r.pos < |src|
      && IsTerminator(src, r.pos)
      && r.value.value == Trim(src[start - 1..r.pos])
    decreases |src| - pos
  {
    var chars := GetChars(src, pos);
    match chars.value.first
    case None => Scanned(None, chars.pos)
    case Some(c) =>
      LookaheadResolves(c, chars.value.second, chars.pos);
      if LookaheadToken(chars.value.first, chars.value.second, chars.pos).value.Some? || IsWhitespace(c) then
        Scanned(Some(Trim(src[start - 1..chars.pos - 1])), chars.pos - 1)
      else IdentifierScan(src, start, chars.pos)
  }

  /** The keyword table of `process_identifier`: a word is a keyword exactly when
      it spells one, and an identifier otherwise. */
  function ClassifyWord(w: string): (t: Token)
    ensures t.KEYWORD? || t.IDENTIFIER?
    ensures forall k :: t == KEYWORD(k) <==> w == KeywordText(k)
    ensures t.IDENTIFIER? ==> t.name == w
  {
    if w == "let" then KEYWORD(LET)
    else if w == "const" then KEYWORD(CONST)
    else if w == "static" then KEYWORD(STATIC)
    else if w == "fn" then KEYWORD(FN)
    else if w == "if" then KEYWORD(IF)
    else if w == "else" then KEYWORD(ELSE)
    else if w == "for" then KEYWORD(FOR)
    else if w == "loop" then KEYWORD(LOOP)
    else if w == "break" then KEYWORD(BREAK)
    else if w == "continue" then KEYWORD(CONTINUE)
    else IDENTIFIER(w)
  }

  /** `process_identifier`, called with the cursor just past the first character. */
  function Identifier(src: string, pos: nat): (r: Scanned<Option<Token>>)
    requires 1 <= pos
    ensures r.value.None? ==> |src| < r.pos
    ensures r.value.Some? ==> pos <= r.pos < |src| && (r.value.value.KEYWORD? || r.value.value.IDENTIFIER?)
  {
    var Scanned(word, p) := IdentifierScan(src, pos, pos);
    match word
    case None => Scanned(None, p)
    case Some(w) => Scanned(Some(ClassifyWord(w)), p)
  }

  /** A scanner's optional token as the outcome of `next_token`: `None` is no token. */
  function FromOption(s: Scanned<Option<Token>>): Scanned<Outcome> {
    match s.value
    case Some(t) => Scanned(Tok(t), s.pos)
    case None => Scanned(NoToken, s.pos)
  }

  /** The fall-through of `next_token` once no fixed token applies, with the cursor
      just past the first significant character `c`: a string, a numeric literal, a
      boolean, or else an identifier or keyword. */
  function Dispatch(src: string, c: char, pos: nat): (r: Scanned<Outcome>)
    requires 1 <= pos <= |src|
    ensures r.value.Tok? ==> pos <= r.pos <= |src| && !r.value.token.COMMENT?
    ensures r.value.ParseFailure? ==> pos < r.pos <= |src|
    ensures r.value.NoToken? ==> |src| < r.pos
  {
    if c == '"' then FromOption(StringLiteral(src, pos))
    else if IsNumericChar(c) then NumericLiteral(src, pos)
    else
      var b := BooleanLiteral(src, pos);
      if b.value.Some? then Scanned(Tok(b.value.value), b.pos)
      else FromOption(Identifier(src, b.pos))
  }

  /** `next_token`: one token from the cursor on. A token always lies within the
      source and moves the cursor forward; no token leaves the cursor past the end,
      where every later call finds nothing either. */
  function NextToken(src: string, pos: nat): (r: Scanned<Outcome>)
    ensures r.value.Tok? ==> pos < r.pos <= |src| && !r.value.token.COMMENT?
    ensures r.value.ParseFailure? ==> pos < r.pos <= |src|
    ensures r.value.NoToken? ==> |src| < r.pos
  {
    var chars := GetFilteredChars(src, pos);
    var fixed := LookaheadToken(chars.value.first, chars.value.second, chars.pos);
    if fixed.value.Some? then Scanned(Tok(fixed.value.value), fixed.pos)
    else
      match chars.value.first
      case None => Scanned(NoToken, fixed.pos)
      case Some(c) => Dispatch(src, c, fixed.pos)
  }
}
