/**
  The token vocabulary of the Kaleidoscope front end: punctuation marks,
  built-in binary operators, keywords, and the `Token` sum type with its
  textual `description`. Swift's raw-value enums become datatypes with a
  `RawValue` member and a partial `...FromRaw` lookup (Swift's failable
  `init(rawValue:)`); `CaseName` is what Swift string interpolation prints
  for a case.

  A Swift `Double` payload is modelled as a `real`; how Swift prints a
  `Double` is a parameter (`showNumber`) wherever it is needed.
*/
module Tokens {
  import opened Wrappers

  // ---------------------------------------------------------------- Mark

  /** The eight single-character punctuation marks. */
  datatype Mark =
    | OpenParen | CloseParen
    | OpenSquareBracket | CloseSquareBracket
    | OpenCurlyBracket | CloseCurlyBracket
    | Comma | Semicolon
  {
    function RawValue(): char
    {
      match this
      case OpenParen => '('
      case CloseParen => ')'
      case OpenSquareBracket => '['
      case CloseSquareBracket => ']'
      case OpenCurlyBracket => '{'
      case CloseCurlyBracket => '}'
      case Comma => ','
      case Semicolon => ';'
    }

    function CaseName(): string
    {
      match this
      case OpenParen => "openParen"
      case CloseParen => "closeParen"
      case OpenSquareBracket => "openSquareBracket"
      case CloseSquareBracket => "closeSquareBracket"
      case OpenCurlyBracket => "openCurlyBracket"
      case CloseCurlyBracket => "closeCurlyBracket"
      case Comma => "comma"
      case Semicolon => "semicolon"
    }

    /** Swift's `token` property. */
    function AsToken(): Token
    {
      Token.Mark(this)
    }
  }

  /** The characters that are marks. */
  const MarkChars: seq<char> := "()[]{},;"

  /** `Mark(rawValue: c)`: defined exactly on the eight mark characters, and
      the mark it yields has `c` as its raw value. */
  function MarkFromRaw(c: char): (r: Option<Mark>)
    ensures r.Some? <==> c in MarkChars
    ensures r.Some? ==> r.value.RawValue() == c
  {
    match c
    case '(' => Some(OpenParen)
    case ')' => Some(CloseParen)
    case '[' => Some(OpenSquareBracket)
    case ']' => Some(CloseSquareBracket)
    case '{' => Some(OpenCurlyBracket)
    case '}' => Some(CloseCurlyBracket)
    case ',' => Some(Comma)
    case ';' => Some(Semicolon)
    case _ => None
  }

  // ------------------------------------------------------ BinaryOperator

  /** The eight built-in single-character binary operators. */
  datatype BinaryOperator =
    | Plus | Minus | Times | Divide | Mod | Equals | Less | Great
  {
    function RawValue(): char
    {
      match this
      case Plus => '+'
      case Minus => '-'
      case Times => '*'
      case Divide => '/'
      case Mod => '%'
      case Equals => '='
      case Less => '<'
      case Great => '>'
    }

    function CaseName(): string
    {
      match this
      case Plus => "plus"
      case Minus => "minus"
      case Times => "times"
      case Divide => "divide"
      case Mod => "mod"
      case Equals => "equals"
      case Less => "less"
      case Great => "great"
    }

    /** Swift's `token` property. */
    function AsToken(): Token
    {
      Token.Operator(this)
    }
  }

  /** The characters that are built-in operators. */
  const OperatorChars: seq<char> := "+-*/%=<>"

  /** `BinaryOperator(rawValue: c)`: defined exactly on the eight operator
      characters, and the operator it yields has `c` as its raw value. */
  function OperatorFromRaw(c: char): (r: Option<BinaryOperator>)
    ensures r.Some? <==> c in OperatorChars
    ensures r.Some? ==> r.value.RawValue() == c
  {
    match c
    case '+' => Some(Plus)
    case '-' => Some(Minus)
    case '*' => Some(Times)
    case '/' => Some(Divide)
    case '%' => Some(Mod)
    case '=' => Some(Equals)
    case '<' => Some(Less)
    case '>' => Some(Great)
    case _ => None
  }

  // ------------------------------------------------------------- Keyword

  /** The ten keywords of the current token module. */
  datatype Keyword =
    | Def | Extern | If | Then | Else | For | In | Binary | Unary | Var
  {
    /** The raw value, which is also the name Swift prints for the case. */
    function RawValue(): string
    {
      match this
      case Def => "def"
      case Extern => "extern"
      case If => "if"
      case Then => "then"
      case Else => "else"
      case For => "for"
      case In => "in"
      case Binary => "binary"
      case Unary => "unary"
      case Var => "var"
    }

    /** Swift's `token` property. */
    function AsToken(): Token
    {
      Token.Keyword(this)
    }
  }

  /** The spellings of the ten keywords. */
  const KeywordSpellings: seq<string> :=
    ["def", "extern", "if", "then", "else", "for", "in", "binary", "unary", "var"]

  /** `Keyword(rawValue: s)`: exact, case-sensitive comparison with the ten
      spellings; the keyword it yields is spelt `s`. */
  function KeywordFromRaw(s: string): (r: Option<Keyword>)
    ensures r.Some? <==> s in KeywordSpellings
    ensures r.Some? ==> r.value.RawValue() == s
  {
    if s == "def" then Some(Def)
    else if s == "extern" then Some(Extern)
    else if s == "if" then Some(If)
    else if s == "then" then Some(Then)
    else if s == "else" then Some(Else)
    else if s == "for" then Some(For)
    else if s == "in" then Some(In)
    else if s == "binary" then Some(Binary)
    else if s == "unary" then Some(Unary)
    else if s == "var" then Some(Var)
    else None
  }

  // --------------------------------------------------------------- Token

  /** A lexical token; equality is structural, as Swift synthesises it. */
  datatype Token =
    | Keyword(keyword: Keyword)
    | Operator(op: BinaryOperator)
    | Mark(mark: Mark)
    | Identifier(name: string)
    | Number(value: real)
    | Comment(text: string)
    | Other(ch: char)

  /** Swift's `description`: a variant prefix followed by the payload (case
      names for enum payloads); `.other(c)` prints the bare character. */
  function Description(t: Token, showNumber: real -> string): (r: string)
    ensures t.Keyword? ==> |r| > |t.keyword.RawValue()| && r[|r| - |t.keyword.RawValue()|..] == t.keyword.RawValue()
    ensures t.Operator? ==> |r| > |t.op.CaseName()| && r[|r| - |t.op.CaseName()|..] == t.op.CaseName()
    ensures t.Mark? ==> |r| > |t.mark.CaseName()| && r[|r| - |t.mark.CaseName()|..] == t.mark.CaseName()
    ensures t.Identifier? ==> |r| > |t.name| && r[|r| - |t.name|..] == t.name
    ensures t.Number? ==> |r| > |showNumber(t.value)| && r[|r| - |showNumber(t.value)|..] == showNumber(t.value)
    ensures t.Comment? ==> |r| > |t.text| && r[|r| - |t.text|..] == t.text
    ensures t.Other? ==> r == [t.ch]
  {
    match t
    case Keyword(k) => "keyword: " + k.RawValue()
    case Operator(op) => "operator: " + op.CaseName()
    case Mark(m) => "mark: " + m.CaseName()
    case Identifier(id) => "identifier: " + id
    case Number(n) => "number: " + showNumber(n)
    case Comment(c) => "comment: " + c
    case Other(c) => [c]
  }
}
