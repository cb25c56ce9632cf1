/**
  The older five-keyword enumeration of the lexer module. A lexer built on
  it knows only `def`, `extern`, `if`, `then` and `else`; its keywords are
  embedded into the ten-keyword `Keyword` so that both sets produce the same
  `Token` type.
*/
module LegacyKeywords {
  import opened Wrappers
  import Tokens
  import TokenProperties

  datatype LegacyKeyword = Def | Extern | If | Then | Else
  {
    function RawValue(): string
    {
      match this
      case Def => "def"
      case Extern => "extern"
      case If => "if"
      case Then => "then"
      case Else => "else"
    }

    /** The keyword of the same spelling in the ten-keyword set. */
    function Embed(): (k: Tokens.Keyword)
      ensures k.RawValue() == RawValue()
    {
      match this
      case Def => Tokens.Keyword.Def
      case Extern => Tokens.Keyword.Extern
      case If => Tokens.Keyword.If
      case Then => Tokens.Keyword.Then
      case Else => Tokens.Keyword.Else
    }

    /** Swift's `token` property. */
    function AsToken(): Tokens.Token
    {
      Tokens.Token.Keyword(Embed())
    }
  }

  const LegacySpellings: seq<string> := ["def", "extern", "if", "then", "else"]

  /** `Keyword(rawValue: s)` of the older set: exact match with five spellings. */
  function LegacyKeywordFromRaw(s: string): (r: Option<LegacyKeyword>)
    ensures r.Some? <==> s in LegacySpellings
    ensures r.Some? ==> r.value.RawValue() == s
  {
    if s == "def" then Some(Def)
    else if s == "extern" then Some(Extern)
    else if s == "if" then Some(If)
    else if s == "then" then Some(Then)
    else if s == "else" then Some(Else)
    else None
  }

  /** The keyword lookup a lexer built on the older set performs. */
  function LegacyLookup(s: string): (r: Option<Tokens.Keyword>)
    ensures r.Some? <==> s in LegacySpellings
    ensures r.Some? ==> r == Tokens.KeywordFromRaw(s)
  {
    match LegacyKeywordFromRaw(s)
    case Some(k) => Some(k.Embed())
    case None => None
  }

  lemma LegacyRoundTrip(k: LegacyKeyword)
    ensures LegacyKeywordFromRaw(k.RawValue()) == Some(k)
  {
  }

  /** The older set is exactly the first five keywords of the newer one. */
  lemma LegacySetIsPrefix()
    ensures LegacySpellings == Tokens.KeywordSpellings[..5]
    ensures forall s :: s in LegacySpellings ==> s in Tokens.KeywordSpellings
  {
  }

  /** The five later keywords are not keywords of the older set. */
  lemma LaterKeywordsAreNotLegacy()
    ensures LegacyLookup("for") == None && LegacyLookup("in") == None
    ensures LegacyLookup("binary") == None && LegacyLookup("unary") == None
    ensures LegacyLookup("var") == None
  {
  }

  lemma LegacyTokenIsKeywordToken(k: LegacyKeyword)
    ensures k.AsToken() == Tokens.Token.Keyword(Tokens.KeywordFromRaw(k.RawValue()).value)
  {
    TokenProperties.KeywordRoundTrip(k.Embed());
  }
}
