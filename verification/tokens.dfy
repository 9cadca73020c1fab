/**
  The token vocabulary of the lexer (src/tokens.rs), transcribed enum by enum,
  together with the textual form of every keyword and fixed token.
 */
module Tokens {

  /** Bounds of Rust's `isize` and `usize` on a 64-bit target. */
  const ISIZE_MIN: int := -0x8000_0000_0000_0000
  const ISIZE_MAX: int := 0x7FFF_FFFF_FFFF_FFFF
  const USIZE_MAX: int := 0xFFFF_FFFF_FFFF_FFFF

  type isize = x: int | ISIZE_MIN <= x <= ISIZE_MAX
  type usize = x: int | 0 <= x <= USIZE_MAX

  datatype Keyword = LET | CONST | STATIC | FN | IF | ELSE | FOR | LOOP | BREAK | CONTINUE

  /** A FLOAT keeps the text it was parsed from; its numeric value is not modelled. */
  datatype Literal =
    | STRING(text: string)
    | SIGNEDINT(ival: isize)
    | USIGNEDINT(uval: usize)
    | FLOAT(raw: string)
    | BOOL(bval: bool)

  datatype Operator =
    | EQUAL | NOTEQUAL | NOT
    | AND | BITAND
    | OR | BITOR
    | ASSIGNMENT
    | INCREMENT | INCASSIGN | ADD
    | DECREMENT | DECASSIGN | SUBTRACT
    | MULTASSIGN | MULTIPLY
    | DIVASSIGN | DIVIDE
    | DOT

  datatype Separator = LCURLY | RCURLY | LPARAN | RPARAN | SEMICOLON | COMMA

  /** COMMENT belongs to the vocabulary, but no scanning rule ever builds one. */
  datatype Token =
    | KEYWORD(keyword: Keyword)
    | IDENTIFIER(name: string)
    | SEPARATOR(separator: Separator)
    | OPERATOR(operator: Operator)
    | LITERAL(literal: Literal)
    | COMMENT(comment: string)

  /** The source spelling of each keyword. */
  function KeywordText(k: Keyword): string {
    match k
    case LET => "let"
    case CONST => "const"
    case STATIC => "static"
    case FN => "fn"
    case IF => "if"
    case ELSE => "else"
    case FOR => "for"
    case LOOP => "loop"
    case BREAK => "break"
    case CONTINUE => "continue"
  }

  /** The source spelling of each operator. */
  function OperatorText(op: Operator): string {
    match op
    case EQUAL => "=="
    case NOTEQUAL => "!="
    case NOT => "!"
    case AND => "&&"
    case BITAND => "&"
    case OR => "||"
    case BITOR => "|"
    case ASSIGNMENT => "="
    case INCREMENT => "++"
    case INCASSIGN => "+="
    case ADD => "+"
    case DECREMENT => "--"
    case DECASSIGN => "-="
    case SUBTRACT => "-"
    case MULTASSIGN => "*="
    case MULTIPLY => "*"
    case DIVASSIGN => "/="
    case DIVIDE => "/"
    case DOT => "."
  }

  /** The source spelling of each separator. */
  function SeparatorText(s: Separator): string {
    match s
    case LCURLY => "{"
    case RCURLY => "}"
    case LPARAN => "("
    case RPARAN => ")"
    case SEMICOLON => ";"
    case COMMA => ","
  }

  /** Fixed tokens are the ones fully determined by one or two characters. */
  predicate IsFixed(t: Token) {
    t.SEPARATOR? || t.OPERATOR?
  }

  function FixedText(t: Token): (s: string)
    requires IsFixed(t)
    ensures 1 <= |s| <= 2
  {
    if t.SEPARATOR? then SeparatorText(t.separator) else OperatorText(t.operator)
  }
}
