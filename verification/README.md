# A verified model of the hand-written lexer

The repository is one hand-written lexer for a small C-like language.
`Lexer` (src/lexer.rs) walks an immutable source string with a single byte
cursor `pos`. Each `next_token` call does four things in turn:

1. It skips spaces, tabs, newlines and carriage returns.
2. It tries a fixed table of one- and two-character operators and separators.
3. Otherwise it dispatches to a string, numeric or boolean scanner.
4. As a last resort it scans an identifier or keyword.

The token vocabulary is in src/tokens.rs.

The model is functional:

- Every `&mut self` method of the lexer becomes a pure function from
  `(src, pos)` to its result and the cursor it leaves behind (`Lexer.Scanned`).
- The cursor is a `nat` that may run past the end of the source. `get_char`
  advances it even when it reads nothing, and that is what makes the end of
  input sticky.
- `Lexer::new` is the cursor 0 at which `Driver.Lex` starts.
- Characters stand for bytes: the source is taken to be ASCII.
- A `next_token` call ends in a `Lexer.Outcome`: a token, no token, or
  `ParseFailure`. `ParseFailure` stands for the panic of
  `raw.parse().unwrap()` on a numeric literal.

Modules:

- `Options`: the option type.
- `Tokens`: the enums of src/tokens.rs, plus the spelling of each keyword and fixed token.
- `Numbers`: Rust's `str::parse` for `isize` and `usize` on a 64-bit target, and the textual grammar `f64` accepts.
- `Lexer`: the lexer itself.
- `Scanning`: where each scanning loop stops.
- `Properties`: what one `next_token` call produces, stated from the first significant character on.
- `Driver`: the token stream that the loop of src/main.rs draws from a source, and concrete sources lexed end to end.

The model follows the code. Several behaviours a reader might not expect are
kept as the code has them:

- **`true`/`false` need no word boundary.** The boolean matcher does not look
  at what follows, so `truex` yields BOOL(true) and then nothing
  (`Driver.BooleanPrefixOfWord`).
- **`+` and `.` also start a number.** The numeric scanner is entered on a
  digit, `-`, `+` or `.`. A `.` never reaches it, because the fixed table
  always resolves `.` as DOT.
- **The numeric scan is not a digit run.** It keeps every character up to the
  first `u`, `i` or `f`, and any stray character makes the parse fail
  (`Properties.NonDigitSpoilsInteger`).
- **Unpaired operators produce no fixed token.** `= + - * / & |` followed by a
  significant character that does not complete a pair fall through to the
  literal and identifier scanners.
- **A word at the end of input is lost.** It yields no token
  (`Properties.WordAtEndIsLost`).
- **Words end on the raw next character.** The identifier scanner asks the
  fixed table about each character together with the raw character after it,
  without treating whitespace as absent. So `=` before a space does not end a
  word: `x= y` yields the single identifier `x=` (`Driver.GluedOperatorJoinsWord`).
- **The lexer keeps no scan mode; the cursor is its only state.**

## Model

| member | source | states |
|---|---|---|
| Tokens.FixedText | src/lexer.rs:19-74 | every operator and separator is spelled by one or two characters |
| Lexer.GetChar | src/lexer.rs:187-195 | the cursor always advances by one; the character under the old cursor is returned exactly when the cursor was inside the source |
| Lexer.GetChars | src/lexer.rs:196-201 | the two characters at and after the cursor are returned, and the cursor moves by one only |
| Lexer.SkipWhitespace | src/lexer.rs:209-222 | the loop stops one past the first non-whitespace character it reads; at end of input it stops one past the end (or one past the cursor when it was already outside) |
| Lexer.GetFilteredChars | src/lexer.rs:208-233 | the first character is significant and the cursor sits just past it; the second is the raw next character, reported absent when it is whitespace or past the end |
| Lexer.LookaheadToken | src/lexer.rs:15-74 | only a present first character yields a token, and only an operator or separator; the cursor moves one more step exactly when the token has a two-character spelling |
| Lexer.LookaheadSpellsToken | src/lexer.rs:19-74 | the token's spelling starts with the first character and, when two long, ends with the second; a pair-starting one-character operator needs no second character; NOT never comes before `=` |
| Lexer.LookaheadResolves | src/lexer.rs:19-74 | a character resolves to a fixed token if and only if it is a separator, `.` or `!`, or a pair-starting operator that is alone or completes a pair |
| Lexer.NumericValue | src/lexer.rs:100-115 | never a missing token; with suffix `u` (`i`) the result is a USIGNEDINT (SIGNEDINT) literal exactly when the `usize` (`isize`) parse succeeds, and it then carries the parsed value; with suffix `f` the result is a token exactly when the f64 grammar accepts the raw text, and it is then FLOAT of that text; every other case is a parse failure |
| Lexer.SuffixScan | src/lexer.rs:98-119 | the loop stops just past the first `u`, `i` or `f` in the source, or one past the end when there is none |
| Lexer.NumericLiteral | src/lexer.rs:96-120 | the cursor always advances; no token only at end of input; otherwise the cursor sits just past a suffix and any token is a literal |
| Lexer.BooleanLiteral | src/lexer.rs:121-140 | a boolean is produced if and only if `true` or `false` is spelled at the first character, and the cursor then ends past that spelling; otherwise the cursor is unchanged |
| Lexer.StringScan | src/lexer.rs:141-154 | (`Lexer.StringLiteral` starts it just past the opening quote) the payload is exactly the text between the opening quote and the next `"`, and the cursor ends past the closing quote; without one the cursor runs past the end |
| Lexer.IdentifierScan | src/lexer.rs:156-169 | the word ends at a terminator (whitespace, or a character the fixed table resolves with its raw successor) where the cursor is left, and is the trimmed span before it; none at end of input |
| Lexer.ClassifyWord | src/lexer.rs:171-184 | a word is a keyword if and only if it spells that keyword exactly (so `lets` is not LET); any other word is an identifier carrying the word itself |
| Lexer.Identifier | src/lexer.rs:156-185 | an identifier or keyword leaves the cursor inside the source at or after the entry cursor; no token leaves it past the end |
| Lexer.Dispatch | src/lexer.rs:81-93 | after the fixed table fails, a token or a parse failure leaves the cursor within the source, and no token leaves it past the end |
| Lexer.NextToken | src/lexer.rs:75-94 | a token or a parse failure strictly advances the cursor and stays within the source; no COMMENT is ever produced; no token leaves the cursor past the end |
| Numbers.DecimalTextRoundTrip | src/lexer.rs:104-108 | the value of the decimal spelling of any natural number is that number |
| Numbers.ParseIsize | src/lexer.rs:108 | the text parses if and only if it is an optional `+` or `-` followed by one or more digits whose signed value lies in the 64-bit range, and the result is that value; a negative result comes from text starting with `-` |
| Numbers.ParseUsize | src/lexer.rs:104 | the text parses if and only if it is an optional `+` followed by one or more digits whose value is at most the 64-bit maximum, and the result is that value; text starting with `-` never parses |
| Numbers.LeadingZeroValue | src/lexer.rs:104-108 | a leading zero does not change the value of a digit string |
| Numbers.PlusIsIgnored | src/lexer.rs:104-108 | a `+` before a digit string changes neither the `usize` nor the `isize` parse |
| Numbers.LeadingZeroIsIgnored | src/lexer.rs:104-108 | a `0` before a digit string changes neither the `usize` nor the `isize` parse |
| Numbers.NonCanonicalIntegers | src/lexer.rs:104-108 | `+5` parses as the `usize` 5, `007` as the `isize` 7 and `-0` as the `isize` 0 |
| Numbers.DecimalFractionChars | src/lexer.rs:98-112 | a `digits.digits` text holds exactly one point, right after the whole part, and digits everywhere else, so no suffix letter |
| Numbers.ParseIsizeRoundTrip | src/lexer.rs:108 | every `isize` parses back from its decimal spelling |
| Numbers.ParseUsizeRoundTrip | src/lexer.rs:104 | every `usize` parses back from its decimal spelling |
| Numbers.IntegerWidthIsExplicit | src/lexer.rs:104-108 | one past the largest and one below the smallest 64-bit value are refused |
| Numbers.DecimalFractionIsF64 | src/lexer.rs:112 | every `digits.digits` text is accepted as a float |
| Numbers.F64Accepts | src/lexer.rs:112 | exponents, a leading or trailing point, signs, and `inf`/`nan` in any case are accepted as floats |
| Numbers.F64RefusesIncomplete | src/lexer.rs:112 | a lone point, an exponent mark without digits (`1e`, `e5`), the empty text and a lone sign are outside the f64 grammar |
| Numbers.F64RefusesForeign | src/lexer.rs:112 | a second point, digit separators and a radix prefix are refused |
| Scanning.SkipWhitespaceStopsAt | src/lexer.rs:209-222 | the skipping loop returns the first significant character and stops just past it |
| Scanning.SkipWhitespaceSkipsOnlyWhitespace | src/lexer.rs:209-222 | everything the skipping loop passes over is whitespace |
| Scanning.SkipWhitespaceRunsOut | src/lexer.rs:209-222 | over whitespace to the end the skipping loop finds nothing |
| Scanning.FilteredCharsAt | src/lexer.rs:208-233 | from any cursor before the first significant character, the pair read is that character and its filtered successor, and the cursor is just past it |
| Scanning.SuffixScanStopsAt | src/lexer.rs:98-117 | the numeric loop stops just past the first suffix |
| Scanning.NumericLiteralStopsAt | src/lexer.rs:96-117 | the numeric literal's value text is everything from its first character up to the first suffix |
| Scanning.SuffixScanRunsOut | src/lexer.rs:98-119 | with no suffix before the end the numeric loop finds nothing |
| Scanning.StringScanStopsAt | src/lexer.rs:143-149 | the string loop stops just past the next quote, with the span before it as payload |
| Scanning.StringScanRunsOut | src/lexer.rs:143-153 | with no quote before the end the string loop finds nothing |
| Scanning.IdentifierScanStep | src/lexer.rs:158-167 | one turn of the identifier loop stops on a terminator and otherwise moves on by exactly one |
| Scanning.IdentifierScanStopsAt | src/lexer.rs:158-165 | the identifier loop stops on the first terminator, and the word is the trimmed span up to it |
| Scanning.IdentifierScanRunsOut | src/lexer.rs:158-168 | with no terminator before the end the identifier loop finds nothing |
| Scanning.TrimKeepsUntrimmedEnds | src/lexer.rs:164 | `trim` leaves alone a span whose ends are not whitespace |
| Properties.EndOfInputIsSticky | src/lexer.rs:85 | a cursor past the end yields no token and steps once more |
| Properties.WhitespaceOnlyYieldsNoToken | src/lexer.rs:208-222 | a source holding only whitespace from the cursor on yields no token |
| Properties.NoTokenIsFinal | src/lexer.rs:81-85 | after a call with no token, the next call yields no token either |
| Properties.FixedSpellingsAreRecognised | src/lexer.rs:15-74 | every operator and separator is recognised from its own spelling, with the extra step for two characters |
| Properties.FixedTokenMatchesSource | src/lexer.rs:15-94 | a fixed token that `next_token` returns is spelled in the source at the first significant character, and the cursor ends right after that spelling |
| Properties.TwoCharOperatorIsNotSplit | src/lexer.rs:31-71 | a two-character operator spelled at the first significant character is one token, and the cursor ends two past its start |
| Properties.LoneFixedCharacter | src/lexer.rs:223-231 | a fixed character followed by whitespace or the end yields its one-character token |
| Properties.SeparatorIgnoresNext | src/lexer.rs:21-29 | separators and `.` yield their token whatever follows |
| Properties.BangAlwaysResolves | src/lexer.rs:36-39 | `!` yields NOTEQUAL before `=` and NOT before anything else |
| Properties.UnpairedOperatorFallsThrough | src/lexer.rs:31-70 | a pair-starting operator before a significant character that does not complete the pair goes to the literal and identifier scanners |
| Properties.StringLiteralSpan | src/lexer.rs:141-154 | a string literal's payload is everything between its quotes, unescaped, and the cursor ends just past the closing quote |
| Properties.UnterminatedStringYieldsNoToken | src/lexer.rs:141-154 | a string with no closing quote yields no token and leaves the cursor past the end |
| Properties.NumericLiteralSpan | src/lexer.rs:83-120 | a number started by a digit or an unresolved sign yields the suffix-typed parse of everything before the first suffix |
| Properties.UnsuffixedNumberYieldsNoToken | src/lexer.rs:96-120 | a number with no suffix before the end yields no token |
| Properties.NonDigitSpoilsInteger | src/lexer.rs:101-109 | a stray non-digit inside an integer literal makes the parse fail |
| Properties.UnsignedSuffix | src/lexer.rs:102-105 | `<digits>u` is the unsigned literal with that value |
| Properties.SignedSuffix | src/lexer.rs:106-109 | `<signed digits>i` is the signed literal with that value; a glued `-` is its sign |
| Properties.FloatFromText | src/lexer.rs:96-113 | a number started by a digit or an unresolved sign, whose text before the first suffix is accepted by the f64 grammar and whose suffix is `f`, is the FLOAT of that text |
| Properties.RefusedFloatFails | src/lexer.rs:96-113 | a number started by a digit or an unresolved sign, whose suffix is `f` and whose text before it the f64 grammar refuses, makes the call fail with the cursor past the `f` |
| Properties.FloatSuffix | src/lexer.rs:110-113 | `<digits>.<digits>f` is the FLOAT literal of the text before the `f` |
| Properties.BooleanIgnoresBoundary | src/lexer.rs:121-140 | `true` or `false` at the first significant character is a boolean whatever follows |
| Properties.WordSpan | src/lexer.rs:156-185 | a word runs to the first terminator, where the cursor is left, and becomes the keyword or identifier it spells |
| Properties.WordAtEndIsLost | src/lexer.rs:158-183 | a word that runs into the end of input yields no token |
| Driver.Tokenize | src/main.rs:12-19 | the stream never ends in a token, holds no COMMENT, and has at most one token per character left |
| Driver.TokenizeStops | src/main.rs:13-19 | from whitespace to the end the stream is empty and ends with no token |
| Driver.TokenizeFollows | src/main.rs:13-19 | when successive calls yield a list of tokens and then nothing, the stream is exactly that list |
| Driver.TokenizeYields | src/main.rs:13-19 | conversely, the stream is always a list of tokens that successive calls yield, from the starting cursor on, and its final outcome is what the call after the last token returns |
| Driver.LetStatement | src/lexer.rs:75-94 | `let x = 10i + 5i;` lexes to LET, x, ASSIGNMENT, 10, ADD, 5, SEMICOLON |
| Driver.IfStatement | src/lexer.rs:75-94 | `if(a!=b){c++;}` lexes to IF, LPARAN, a, NOTEQUAL, b, RPARAN, LCURLY, c, INCREMENT, SEMICOLON, RCURLY |
| Driver.BooleanPrefixOfWord | src/lexer.rs:121-140 | `truex` lexes to BOOL(true) alone: the boolean ignores the `x`, which is then lost at the end |
| Driver.LoneWordIsLost | src/lexer.rs:156-185 | a source that is one bare word lexes to nothing |
| Driver.NegativeLiteral | src/lexer.rs:83-109 | `-1i` lexes to the single literal -1 |
| Driver.FloatLiteral | src/lexer.rs:110-113 | `1.5f` lexes to the single literal FLOAT("1.5") |
| Driver.DoubleEqualsIsOneToken | src/lexer.rs:31-32 | `==` lexes to one EQUAL |
| Driver.SpoiledIntegerFails | src/lexer.rs:106-108 | `1xi` ends the stream in a parse failure before any token |
| Driver.BareSignFloatFails | src/lexer.rs:110-112 | `-f` ends the stream in a parse failure before any token: a lone sign is not a float |
| Driver.IncompleteExponentFails | src/lexer.rs:110-112 | `1ef` ends the stream in a parse failure before any token: `1e` is not a float |
| Driver.GluedOperatorJoinsWord | src/lexer.rs:158-165 | `x= y` lexes to the one identifier `x=`: the `=` before a space stays in the word, and `y` is lost at the end |
| Driver.ComparisonLosesLastWord | src/lexer.rs:156-185 | `a!=b` lexes to `a` and NOTEQUAL; the `b` is lost at the end |

## Left out

- Float values: a FLOAT keeps the text it was parsed from. Converting that text to a binary64 value is floating-point rounding, which is not modelled. Which texts parse is modelled (`Numbers.IsF64Text`).
- Lexer.LookaheadToken: its own contract states the kind of token and the extra cursor step only. Which characters spell which token is stated by `Lexer.LookaheadSpellsToken`, `Lexer.LookaheadResolves` and `Properties.FixedSpellingsAreRecognised`.
- Lexer.Identifier: its own contract states the token kinds and cursor bounds only. The word it yields is stated by `Properties.WordSpan` and `Scanning.IdentifierScanStopsAt`.
- Lexer.Dispatch: its own contract states cursor bounds only. What each scanner yields is stated by the span lemmas of `Properties`.
- Lexer.NextToken: its own contract states progress, bounds and the absence of COMMENT only. The token produced for each kind of first character is stated by the lemmas of `Properties`.
- Lexer.NumericLiteral: its own contract states only cursor facts. The value it yields is stated by `Properties.NumericLiteralSpan` and `Scanning.NumericLiteralStopsAt`, to keep that function's proof small.
- Integer width: `isize` and `usize` are taken to be 64 bits wide; a 64-bit target is assumed.
- Non-ASCII input: `str::get` and slicing fail off UTF-8 character boundaries. Characters here stand for bytes of an ASCII source, where no such boundary arises.
- The panic of `unwrap()` is the outcome `ParseFailure`. The process abort that follows it is not modelled.
- src/main.rs and src/bin.rs read files asynchronously and print tokens. Only the loop that calls `next_token` until it yields nothing is modelled (`Driver.Tokenize`). File reading and printing are I/O.
- benches/lexer.rs only times the lexer; it has no logic of its own.
- `#[derive(Debug)]` rendering of tokens is debugging output.
- `str::trim` also removes non-ASCII Unicode whitespace. Only its ASCII part is modelled (`Lexer.Trim`), which is all an ASCII source can hold.
- Lifetimes and borrowed `&str` payloads: spans are copied into strings.
- `Lexer::new` and `consume` have no rows of their own. `new` only sets the cursor to 0, which is where `Driver.Lex` starts. `consume`'s extra step is part of the contract of `Lexer.LookaheadToken`.
- `Lexer.StringLiteral`, `Driver.TokenizeStep`, `Driver.TokenizeIsIteratedNextToken` and `Properties.TextAt` are steps used by the members above. `StringLiteral` is `Lexer.StringScan` entered past the opening quote; the two `Tokenize` lemmas unfold one step of the stream.
- `is_whitespace` and `get_at_index` are the predicate `Lexer.IsWhitespace` and the function `Lexer.CharAt`. Their behaviour is stated through `Lexer.GetChar` and the identifier scanner.
