/**
  The character predicates the lexer uses. A Swift `Character` is modelled
  as one Unicode scalar (a Dafny `char`); the C classification functions
  `isspace` and `isalnum` are those of the "C" locale, which classify only
  ASCII code points.
*/
module Characters {

  /** `value`: the code point of the character as an integer (it always fits
      in Swift's `Int32`). */
  function Value(c: char): (v: int)
    ensures 0 <= v < 0x11_0000
    ensures (v < 0xD800 || 0xE000 <= v) && v as char == c
  {
    c as int
  }

  /** C `isspace` in the "C" locale, on a code point. */
  predicate CIsSpace(v: int)
  {
    v == 32 || 9 <= v <= 13
  }

  /** C `isalnum` in the "C" locale, on a code point. */
  predicate CIsAlnum(v: int)
  {
    48 <= v <= 57 || 65 <= v <= 90 || 97 <= v <= 122
  }

  /** The six ASCII white-space characters. */
  const WhiteSpaceChars: seq<char> := " \t\n\U{000B}\U{000C}\r"

  /** `isSpace`: space, tab, newline, vertical tab, form feed, return. */
  function IsSpace(c: char): (b: bool)
    ensures b <==> c in WhiteSpaceChars
  {
    CIsSpace(Value(c))
  }

  /** `isNewLine`: exactly `\n` or `\r`, both of which are also white space. */
  function IsNewLine(c: char): (b: bool)
    ensures b ==> IsSpace(c)
  {
    c == '\n' || c == '\r'
  }

  /** `isAlphanumeric`: an ASCII digit or letter, or the underscore. */
  function IsAlphanumeric(c: char): (b: bool)
    ensures b <==> ('0' <= c <= '9' || 'A' <= c <= 'Z' || 'a' <= c <= 'z' || c == '_')
  {
    CIsAlnum(Value(c)) || c == '_'
  }
}
