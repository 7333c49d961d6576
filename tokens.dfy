/** Tokens of the `.kror` language, the reserved-word table and the table of
    one-character punctuators. */
module Tokens {
  import opened Options

  const U32_MAX: nat := 0xFFFF_FFFF

  /** Rust's `u32`. */
  type uint32 = x: int | 0 <= x <= 0xFFFF_FFFF

  datatype ReservedKind = Type | Enum | Logic

  datatype TokenKind =
    | Comment
    | Whitespace
    | Ident(name: string)
    | Reserved(reserved: ReservedKind)
    | Number(number: uint32)
    | Literal(bitwidth: uint32, value: uint32)
    | Semi | Comma | Dot | OpenParen | CloseParen | OpenBrace | CloseBrace
    | OpenBracket | CloseBracket | At | Pound | Tilde | Question | Colon
    | Dollar | Eq | Bang | Lt | Gt | Minus | And | Or | Plus | Star
    | Slash | Caret | Percent

  /** A token tagged with the position of its first character. */
  datatype Token = Token(lineNum: nat, rowNum: nat, kind: TokenKind)

  /** How each reserved word is spelled. */
  function Spelling(k: ReservedKind): string {
    match k
    case Type => "type"
    case Enum => "enum"
    case Logic => "logic"
  }

  /** The reserved-word table: a hit is the kind spelled by the word, and the
      miss is exactly the words outside the three spellings. */
  function DetectReserved(word: string): (r: Option<ReservedKind>)
    ensures r.Some? ==> Spelling(r.value) == word
    ensures r.None? <==> word !in {"type", "enum", "logic"}
  {
    match word
    case "type" => Some(Type)
    case "enum" => Some(Enum)
    case "logic" => Some(Logic)
    case _ => None
  }

  /** `DetectReserved` recognises exactly the three spellings, each as its own
      kind. */
  lemma DetectReservedSpelling(word: string, k: ReservedKind)
    ensures DetectReserved(word) == Some(k) <==> word == Spelling(k)
    ensures DetectReserved(word).None? <==> word !in {"type", "enum", "logic"}
  {
  }

  /** The one-character tokens: every fixed arm of the scanner's dispatch
      except '/'. A character it accepts is the spelling of the kind it
      yields, so distinct characters give distinct kinds; '/' is not in the
      table, so nothing yields `Slash`. */
  function Punctuator(c: char): (r: Option<TokenKind>)
    ensures r.Some? ==> PunctuatorChar(r.value) == Some(c)
    ensures c == '/' ==> r.None?
    ensures r != Some(Slash)
  {
    match c
    case ';' => Some(Semi)
    case ',' => Some(Comma)
    case '.' => Some(Dot)
    case '(' => Some(OpenParen)
    case ')' => Some(CloseParen)
    case '{' => Some(OpenBrace)
    case '}' => Some(CloseBrace)
    case '[' => Some(OpenBracket)
    case ']' => Some(CloseBracket)
    case '@' => Some(At)
    case '#' => Some(Pound)
    case '~' => Some(Tilde)
    case '?' => Some(Question)
    case ':' => Some(Colon)
    case '$' => Some(Dollar)
    case '=' => Some(Eq)
    case '!' => Some(Bang)
    case '<' => Some(Lt)
    case '>' => Some(Gt)
    case '-' => Some(Minus)
    case '&' => Some(And)
    case '|' => Some(Or)
    case '+' => Some(Plus)
    case '*' => Some(Star)
    case '^' => Some(Caret)
    case '%' => Some(Percent)
    case _ => None
  }

  /** The character each punctuator kind is written with. */
  function PunctuatorChar(k: TokenKind): Option<char> {
    match k
    case Semi => Some(';')
    case Comma => Some(',')
    case Dot => Some('.')
    case OpenParen => Some('(')
    case CloseParen => Some(')')
    case OpenBrace => Some('{')
    case CloseBrace => Some('}')
    case OpenBracket => Some('[')
    case CloseBracket => Some(']')
    case At => Some('@')
    case Pound => Some('#')
    case Tilde => Some('~')
    case Question => Some('?')
    case Colon => Some(':')
    case Dollar => Some('$')
    case Eq => Some('=')
    case Bang => Some('!')
    case Lt => Some('<')
    case Gt => Some('>')
    case Minus => Some('-')
    case And => Some('&')
    case Or => Some('|')
    case Plus => Some('+')
    case Star => Some('*')
    case Slash => Some('/')
    case Caret => Some('^')
    case Percent => Some('%')
    case _ => None
  }

  /** Every spelled punctuator kind but `Slash` is recognised from its
      spelling; '/' has an arm of its own in the scanner. */
  lemma PunctuatorRecognised(k: TokenKind)
    ensures PunctuatorChar(k).Some? && k != Slash ==> Punctuator(PunctuatorChar(k).value) == Some(k)
    ensures PunctuatorChar(Slash) == Some('/') && Punctuator('/') == None
  {
  }
}
