# Kaleidoscope-Swift front end in Dafny

This project models the front end of Kaleidoscope-Swift, a Swift version of
the LLVM "Kaleidoscope" tutorial language. The model covers:

- **Tokens**: the `Token` sum type, its `Mark`, `BinaryOperator` and
  `Keyword` raw-value enumerations, and the token `description`.
- **Character classes**: the classifications the lexer relies on
  (`Character+Ex`).
- **Lexer**: a class over an input string and a forward-only index. It
  yields one token per `next` call and collects tokens until the first nil
  (`lex()`).
- **Parser**: a recursive-descent iterator with one current token. It parses
  top-level items (`def`, `extern`, `;`, top-level expressions) and
  expressions by operator-precedence climbing. This includes the path on
  which a comment in operand position re-enters `next()` and never returns.
- **Syntax trees**: the tree the parser builds (`AST3`), and the later tree
  (`AST`) with prototype kinds, `for` loops and their `description`
  printer.

Layout. Each imperative source file has two halves:

- A module of pure specification functions: `LexerSpec`, `ParserSpec`.
- A class whose methods change state and are proved to follow those
  functions: `Lexing.Lexer`, `Parsing.Parser`. Every method's `ensures`
  equates its result and its new cursor with the specification function's
  value at the old cursor.

What the source promises is proved about the specification functions in
separate lemma modules: `TokenProperties`, `LexerProperties`,
`ParserProperties` and `AstProperties`.

Parameters stand in for what the core calls but does not define:

- `Vocabulary.keyword`: the keyword lookup. The lexer is written against a
  `Keyword(rawValue:)`, and the repository has two keyword enumerations. The
  ten-keyword one in `Sources/Token` is `Tokens.KeywordFromRaw`. The
  five-keyword one in `Sources/Lexer` is `LegacyKeywords.LegacyLookup`.
- `Vocabulary.number`: Swift's `Double(String)`.
- `Printers`: how Swift prints a `Double` and a `Precedence`.

A Swift `Double` is a Dafny `real`. A Swift `Character` is one Dafny `char`.
`isspace` and `isalnum` are those of the C locale.

The parser's routines may call `next()` again on a comment and never
return. Their specification outcome is therefore `Ok(value, pos)`,
`Fail(pos)` (Swift's `nil`) or `Restart(pos)`. At method level, `Restart`
becomes the reply `Loops`, and `parse()` reports it in
`Parsed.diverges`. `ParserProperties.RestartIsAFixedPoint` shows why this
is non-termination: re-entering `next()` from a restart leads back to the
same restart.

## Model

| member | source | states |
|---|---|---|
| Tokens.MarkFromRaw | Sources/Token/Mark.swift:1-21 | `Mark(rawValue:)` succeeds exactly on the eight mark characters, and the mark found has that raw value |
| Tokens.OperatorFromRaw | Sources/Token/BinaryOperator.swift:1-6 | `BinaryOperator(rawValue:)` succeeds exactly on `+ - * / % = < >`, and the operator found has that raw value |
| Tokens.KeywordFromRaw | Sources/Token/Keyword.swift:2-18 | `Keyword(rawValue:)` succeeds exactly on the ten keyword spellings, and the keyword found has that spelling |
| TokenProperties.MarkRoundTrip | Sources/Token/Mark.swift:1-21 | looking up a mark's raw value gives the mark back |
| TokenProperties.OperatorRoundTrip | Sources/Token/BinaryOperator.swift:1-6 | looking up an operator's raw value gives the operator back |
| TokenProperties.KeywordRoundTrip | Sources/Token/Keyword.swift:2-18 | looking up a keyword's spelling gives the keyword back |
| TokenProperties.MarksAndOperatorsDisjoint | Sources/Lexer/Lexer.swift:103-109 | no character is both a mark and an operator, so the order of the two lookups in `_charToken` does not matter |
| TokenProperties.UserOperatorSymbolsAreNotBuiltIn | Sources/Token/BinaryOperator.swift:1-6 | `!`, `\|`, `&` and `:` are neither operators nor marks |
| TokenProperties.KeywordLookupIsExact | Sources/Token/Keyword.swift:2-18 | keyword lookup is case-sensitive and matches whole spellings only |
| TokenProperties.TokenPropertiesWrapTheCase | Sources/Token/Mark.swift:23-27 | each `token` property wraps its own case in the matching `Token` case (also Keyword.swift:20-24, BinaryOperator.swift:8-12) |
| TokenProperties.OperatorCaseNamesDistinct | Sources/Token/BinaryOperator.swift:1-6 | operators print under distinct case names |
| TokenProperties.MarkCaseNamesDistinct | Sources/Token/Mark.swift:1-21 | marks print under distinct case names |
| TokenProperties.KeywordNamesDistinct | Sources/Token/Keyword.swift:2-18 | keywords print under distinct names |
| Tokens.Description | Sources/Token/Token.swift:41-60 | each description ends with its payload: the keyword's spelling, the case name of an operator or mark, the identifier's name, the printed number or the comment text; `.other(c)` prints just `c` |
| TokenProperties.DescriptionShape | Sources/Token/Token.swift:41-60 | a description is never empty and starts with the initial of its variant's label (`.other` with its own character); it is one character long exactly for `.other` |
| TokenProperties.DescriptionInjective | Sources/Token/Token.swift:41-60 | apart from numbers, whose printing is a parameter, different tokens have different descriptions |
| LegacyKeywords.LegacyKeywordFromRaw | Sources/Lexer/Keyword.swift:1-8 | the five-keyword lookup succeeds exactly on `def extern if then else`, with that spelling |
| LegacyKeywords.LegacyLookup | Sources/Lexer/Keyword.swift:10-14 | the five-keyword lookup as used by the lexer gives the same token keyword as the ten-keyword lookup, on exactly the five legacy spellings |
| LegacyKeywords.LegacyRoundTrip | Sources/Lexer/Keyword.swift:1-8 | looking up a legacy keyword's spelling gives it back |
| LegacyKeywords.LegacySetIsPrefix | Sources/Lexer/Keyword.swift:1-8 | the legacy spellings are the first five of the ten |
| LegacyKeywords.LaterKeywordsAreNotLegacy | Sources/Token/Keyword.swift:10-17 | `for`, `in`, `binary`, `unary` and `var` are not legacy keywords |
| LegacyKeywords.LegacyTokenIsKeywordToken | Sources/Lexer/Keyword.swift:10-14 | a legacy keyword's token is the keyword token of the same spelling |
| Characters.Value | Sources/Lexer/Character+Ex.swift:11-13 | `value` is the character's Unicode scalar value, a valid code point that maps back to the character |
| Characters.IsSpace | Sources/Lexer/Character+Ex.swift:14-16 | `isSpace` holds exactly on the six C-locale white-space characters |
| Characters.IsNewLine | Sources/Lexer/Character+Ex.swift:18-20 | `\n` and `\r` are also white space |
| Characters.IsAlphanumeric | Sources/Lexer/Character+Ex.swift:21-23 | `isAlphanumeric` holds exactly on ASCII digits, ASCII letters and `_` |
| LexerSpec.SkipBlanks | Sources/Lexer/Lexer.swift:77-80 | the index of the first character that is neither space nor newline; everything skipped is blank |
| LexerSpec.RunEnd | Sources/Lexer/Lexer.swift:66-73 | the end of the longest run of alphanumerics and `.`; everything in the run qualifies and the next character does not |
| LexerSpec.LineEnd | Sources/Lexer/Lexer.swift:136-146 | the index of the first `\n` or `\r`, or the end; nothing before it is a newline |
| LexerSpec.CharToken | Sources/Lexer/Lexer.swift:93-109 | a token exactly for mark and operator characters, and that token's raw value is the character |
| LexerSpec.Classify | Sources/Lexer/Lexer.swift:112-123 | a run is a number exactly when it converts to a `Double`, a keyword exactly when it does not and the keyword lookup knows it, and otherwise an identifier holding the run's text |
| LexerSpec.Scan | Sources/Lexer/Lexer.swift:76-90 | one `next`: it never ends inside the leading blanks, a token consumes at least one character and is never `.other`, and no token means the index stops right after the blanks |
| LexerSpec.LexFrom | Sources/Lexer/Lexer.swift:149-155 | `lex()` from an index never moves back, never passes the end and never yields `.other` |
| LexerSpec.TokensWithinText | Sources/Lexer/Lexer.swift:76-90 | every token consumes a character, so lexing from an index yields at most as many tokens as characters it passes |
| LexerSpec.Lex | Sources/Lexer/Lexer.swift:149-155 | `lex()` yields at most one token per character and never `.other`, and no tokens for an input of blanks |
| Lexing.Lexer.constructor | Sources/Lexer/Lexer.swift:40-43 | the lexer starts at index 0 of its input |
| Lexing.Lexer.CurrentChar | Sources/Lexer/Lexer.swift:46-48 | the character at the index, or nil exactly at the end |
| Lexing.Lexer.Advance | Sources/Lexer/Lexer.swift:161-163 | moves the index one character on |
| Lexing.Lexer.ReadIdentifierOrNumber | Sources/Lexer/Lexer.swift:66-73 | consumes exactly the run that `RunEnd` delimits and returns its text |
| Lexing.Lexer.CharToken | Sources/Lexer/Lexer.swift:103-109 | returns the mark or operator token of the character, and advances only when there is one |
| Lexing.Lexer.IdentifierToken | Sources/Lexer/Lexer.swift:112-123 | on an alphanumeric, consumes the run and classifies it as a number, then a keyword, then an identifier; otherwise nil and no move |
| Lexing.Lexer.CommentToken | Sources/Lexer/Lexer.swift:136-146 | on `#`, consumes to the end of the line and returns the comment text, `#` included; otherwise nil and no move |
| Lexing.Lexer.Next | Sources/Lexer/Lexer.swift:76-90 | the token and new index are those of `Scan` at the old index |
| Lexing.Lexer.Lex | Sources/Lexer/Lexer.swift:149-155 | the tokens and the final index are those of `LexFrom` at the old index |
| LexerProperties.MarksAndOperatorsDoNotShadow | Sources/Lexer/Lexer.swift:86-89 | a mark or operator character is never blank, alphanumeric, `.` or `#`, so trying `_charToken` first hides no other token |
| LexerProperties.BlankInputLexesToNothing | Sources/Lexer/Lexer.swift:77-84 | an input of only blanks lexes to no tokens and ends at its end |
| LexerProperties.MarkOrOperatorIsOneCharacter | Sources/Lexer/Lexer.swift:103-109 | after the blanks, a mark or operator character is one token of one character |
| LexerProperties.UnclassifiedStopsLexing | Sources/Lexer/Lexer.swift:86-90 | a character that starts no token ends `lex()` there, with nothing more produced |
| LexerProperties.LexStep | Sources/Lexer/Lexer.swift:149-155 | when `next` gives a token, `lex()` starts with it and goes on from where `next` stopped |
| LexerProperties.ScanStops | Sources/Lexer/Lexer.swift:82-90 | `next` gives nil only at the end of the input or in front of a character that starts no token |
| LexerProperties.LexStops | Sources/Lexer/Lexer.swift:149-155 | `lex()` stops only at the end of the input or in front of a character that starts no token |
| LexerProperties.CommentLineIsOneToken | Sources/Lexer/Lexer.swift:136-146 | a line starting with `#` lexes to one comment holding the whole line, `#` included |
| LexerProperties.FibonacciCommentLine | Tests/llvmPracTests/LexerTests.swift:24-34 | the test's comment line lexes to exactly that comment token |
| LexerProperties.WholeRunIsOneToken | Sources/Lexer/Lexer.swift:112-123 | an input that is one run of identifier characters is one classified token |
| LexerProperties.OneCharToken | Sources/Lexer/Lexer.swift:103-109 | a lone mark or operator character is one token |
| LexerProperties.DottedRunsAreOneToken | Sources/Lexer/Lexer.swift:66-73 | `.` continues a run: `1.5` is one number and `x.y` one identifier |
| LexerProperties.HaltsAtBang | Sources/Lexer/Lexer.swift:86-90 | in `a ! b` lexing stops at `!`: `b` is never reached |
| LexerProperties.HaltsAtLeadingDot | Sources/Lexer/Lexer.swift:112-113 | `.5` lexes to nothing: `.` continues a run but cannot start one |
| LexerProperties.HaltsAtNonAsciiLetter | Sources/Lexer/Character+Ex.swift:21-23 | a non-ASCII letter starts no token |
| LexerProperties.KeywordSetDecides | Sources/Lexer/Lexer.swift:120 | `for` is a keyword under the ten-keyword lookup and an identifier under the five-keyword one |
| LexerProperties.RestIsNeverRead | Sources/Lexer/Lexer.swift:76-90 | `lex()` depends only on the input up to and including the character where it stops |
| LexerProperties.BlanksBeforeDoNotMatter | Sources/Lexer/Lexer.swift:77-80 | starting `lex()` before some blanks or after them gives the same result |
| LexerProperties.LexConcat | Sources/Lexer/Lexer.swift:149-155 | when the first text lexes completely and the join does not merge tokens, the tokens of two texts joined are the tokens of each in turn |
| LexerProperties.LexJoin | Sources/Lexer/Lexer.swift:149-155 | the same, stated on two fully lexed texts |
| LexerProperties.LexPieces | Sources/Lexer/Lexer.swift:149-155 | a text built from blank-separated words, signs and runs lexes to the tokens of its pieces in order |
| LexerProperties.FibonacciProgram | Tests/llvmPracTests/LexerTests.swift:7-22 | the Fibonacci program lexes to 29 tokens, the first `def` and the last `)` |
| ParserSpec.Cur | Sources/Parser/Parser.swift:81-84 | the current token is the token at the cursor, nil exactly past the end |
| ParserSpec.Advance | Sources/Parser/Parser.swift:81-84 | `nextToken()` moves the cursor one token on, and stays at the end |
| ParserSpec.TablePrecedence | Sources/Parser/Parser.swift:43-48 | only `<`, `+`, `-` and `*` have a precedence, each at least 10 |
| ParserSpec.Precedence | Sources/Parser/Parser.swift:95-100 | `getTokenPrecedence()` is non-negative exactly on a tabled operator token, and -1 otherwise |
| ParserSpec.Top | Sources/Parser/Parser.swift:62-76 | `next()` keeps within the tokens, never moves back, and consumes a token whenever it yields an item, which is a function or a prototype; a restart sits on a comment |
| ParserSpec.Definition | Sources/Parser/Parser.swift:165-177 | a definition that succeeds consumes tokens and is a function node |
| ParserSpec.Extern | Sources/Parser/Parser.swift:179-183 | an extern that succeeds consumes tokens and is a prototype node |
| ParserSpec.TopLevelExpr | Sources/Parser/Parser.swift:185-192 | a top-level expression becomes a function with empty name and no parameters |
| ParserSpec.Params | Sources/Parser/Parser.swift:150-153 | the parameter loop collects exactly the identifiers in front of the cursor, in order, and stops at the first non-identifier |
| ParserSpec.PrototypeOf | Sources/Parser/Parser.swift:135-163 | a prototype never restarts, and on success consumes tokens and is a prototype node |
| ParserSpec.Expression | Sources/Parser/Parser.swift:86-93 | an expression that succeeds consumes at least one token |
| ParserSpec.BinOpRHS | Sources/Parser/Parser.swift:102-133 | the precedence-climbing loop keeps within the tokens and never moves back |
| ParserSpec.Primary | Sources/Parser/Parser.swift:194-215 | a primary that succeeds consumes a token; it restarts in place exactly on a comment |
| ParserSpec.NumberExpr | Sources/Parser/Parser.swift:217-224 | succeeds exactly on a number token, consumes it and yields its value |
| ParserSpec.ParenExpr | Sources/Parser/Parser.swift:226-241 | a parenthesised expression that succeeds consumes tokens |
| ParserSpec.IdentifierExpr | Sources/Parser/Parser.swift:243-288 | an identifier expression that succeeds consumes tokens and is a variable or a call |
| ParserSpec.Args | Sources/Parser/Parser.swift:265-284 | the argument loop, on success, has at least one argument and stops on `)` |
| ParserSpec.IfExpr | Sources/Parser/Parser.swift:290-316 | an `if` that succeeds consumes tokens and is an `if` node |
| ParserSpec.ParseFrom | Sources/Parser/Parser.swift:26-29 | `parse()` yields at most one item per remaining token, each a function or a prototype |
| ParserSpec.Parse | Sources/Parser/Parser.swift:26-29 | `parse()` yields at most one item per token, each a function or a prototype, and nothing (without diverging) from no tokens |
| Parsing.AsReply | Sources/Parser/Parser.swift:62-76 | a routine replies with a node exactly on success, and replies that it loops exactly on a restart |
| Parsing.Parser.constructor | Sources/Parser/Parser.swift:50-55 | the iterator starts with the first token current |
| Parsing.Parser.CurrentToken | Sources/Parser/Parser.swift:42 | the current token is `Cur` at the cursor |
| Parsing.Parser.NextToken | Sources/Parser/Parser.swift:81-84 | moves the cursor as `Advance` does and returns the new current token |
| Parsing.Parser.GetTokenPrecedence | Sources/Parser/Parser.swift:95-100 | `Precedence` of the current token |
| Parsing.Parser.Next | Sources/Parser/Parser.swift:62-76 | reply and new cursor are those of `Top` at the old cursor |
| Parsing.Parser.ParseExpression | Sources/Parser/Parser.swift:86-93 | reply and new cursor are those of `Expression` |
| Parsing.Parser.ParseBinOpRHS | Sources/Parser/Parser.swift:102-133 | reply and new cursor are those of `BinOpRHS` |
| Parsing.Parser.ParsePrototype | Sources/Parser/Parser.swift:135-163 | reply and new cursor are those of `PrototypeOf` |
| Parsing.Parser.ParamNames | Sources/Parser/Parser.swift:150-153 | the names and the new cursor are those of `Params` one token on |
| Parsing.Parser.ParseDefinition | Sources/Parser/Parser.swift:165-177 | reply and new cursor are those of `Definition` |
| Parsing.Parser.ParseExtern | Sources/Parser/Parser.swift:179-183 | reply and new cursor are those of `Extern` |
| Parsing.Parser.ParseTopLevelExpr | Sources/Parser/Parser.swift:185-192 | reply and new cursor are those of `TopLevelExpr` |
| Parsing.Parser.ParsePrimary | Sources/Parser/Parser.swift:194-215 | reply and new cursor are those of `Primary` |
| Parsing.Parser.ParseNumberExpr | Sources/Parser/Parser.swift:217-224 | reply and new cursor are those of `NumberExpr` |
| Parsing.Parser.ParseParenExpr | Sources/Parser/Parser.swift:226-241 | reply and new cursor are those of `ParenExpr` |
| Parsing.Parser.ParseIdentifierExpr | Sources/Parser/Parser.swift:243-288 | reply and new cursor are those of `IdentifierExpr` |
| Parsing.Parser.ParseIfExpr | Sources/Parser/Parser.swift:290-316 | reply and new cursor are those of `IfExpr` |
| Parsing.Parse | Sources/Parser/Parser.swift:26-29 | collecting `next()` until nil gives the items of `ParserSpec.Parse` |
| ParserProperties.PrimaryVariable | Sources/Parser/Parser.swift:252-255 | an identifier not followed by `(` is a variable |
| ParserProperties.ExpressionVariable | Sources/Parser/Parser.swift:86-93 | an identifier followed by neither `(` nor a tabled operator is a whole expression |
| ParserProperties.BinOpRHSStops | Sources/Parser/Parser.swift:107-110 | below the required precedence, or on an untabled operator, the loop returns its left operand and consumes nothing |
| ParserProperties.BinOpRHSNeverFailsOnItsGuard | Sources/Parser/Parser.swift:113 | the loop fails at its own cursor only on an operator token, so the guard at line 113 never fires |
| ParserProperties.TwoOperators | Sources/Parser/Parser.swift:102-133 | in `x o1 y o2 z`, a tighter second operator takes `y`; otherwise the two group to the left |
| ParserLocality.MergeStep | Sources/Parser/Parser.swift:120-131 | when the next operator binds no tighter, the loop merges `lhs op rhs` and goes on |
| ParserLocality.ClimbStep | Sources/Parser/Parser.swift:120-131 | when the next operator binds tighter, the right operand is first extended at precedence + 1 |
| ParserLocality.ExpressionEmbeds | Sources/Parser/Parser.swift:86-133 | an expression read from a token run on its own is read the same inside any token list that contains the run, when the run is read to its end only if the token after it is neither `(` nor a tabled operator: the parser looks one token ahead and no further |
| ParserLocality.PrimaryEmbeds | Sources/Parser/Parser.swift:194-215 | the same for a primary |
| ParserProperties.LessPlusMinusTimes | Tests/llvmPracTests/ParserTests.swift:123-154 | `a < b + c - d * e` parses as `a < ((b + c) - (d * e))` |
| ParserProperties.LessMinusPlusTimes | Tests/llvmPracTests/ParserTests.swift:156-187 | `a < b - c + d * e` parses as `a < ((b - c) + (d * e))` |
| ParserProperties.PlacedExpression | Sources/Parser/Parser.swift:86-93 | a token run that is a whole expression on its own is that expression wherever it stands in a token list, when the token after it is neither `(` nor a tabled operator |
| ParserProperties.ParenthesisedExpression | Sources/Parser/Parser.swift:226-241 | `( e )` is `e` for any token run `e` that is a whole expression: the parentheses only group |
| ParserProperties.OneTopLevelExpression | Sources/Parser/Parser.swift:185-192 | a program that is one expression parses to one anonymous function around it |
| ParserProperties.FirstItemFails | Sources/Parser/Parser.swift:26-29 | when the first item fails, `parse()` yields nothing |
| ParserProperties.NumberProgram | Tests/llvmPracTests/ParserTests.swift:17-25 | `3` parses to `function("", [], number(3))` |
| ParserProperties.ThreeLexesAndParses | Tests/llvmPracTests/ParserTests.swift:17-25 | the same from the text `3`, through the lexer |
| ParserProperties.SemicolonsSkipped | Sources/Parser/Parser.swift:66-68 | `next()` from a run of `;` acts as from the token after the run |
| ParserProperties.NoResynchronisation | Sources/Parser/Parser.swift:26-29 | `parse()` ends at the first item that fails to parse, even when a later item would parse |
| ParserProperties.UntabledOperatorEndsTheProgram | Sources/Parser/Parser.swift:43-48 | `x / y` yields `x` and then stops at the `/` |
| ParserProperties.VariableProgram | Tests/llvmPracTests/ParserTests.swift:26-34 | `fib` parses to a variable in an anonymous function |
| ParserProperties.EmptyCall | Tests/llvmPracTests/ParserTests.swift:36-44 | `fib()` is a call without arguments |
| ParserProperties.ArgsInOrder | Sources/Parser/Parser.swift:265-284 | comma-separated arguments, each any whole expression, are collected in the order written, and the loop stops on the `)` after the last |
| ParserProperties.CallArgumentsInOrder | Sources/Parser/Parser.swift:243-288 | wherever it stands, `id(a1, ..., an)` is a call of the `ai` in order, for any arguments that are whole expressions, and it ends right after its `)` |
| ParserProperties.CallOneArgument | Tests/llvmPracTests/ParserTests.swift:46-54 | `fib(a)` parses to an anonymous function around the call of `fib` on `a` |
| ParserProperties.CallTwoArguments | Tests/llvmPracTests/ParserTests.swift:56-64 | `fib(a, b)` parses to an anonymous function around the call of `fib` on `a` and `b`, in that order |
| ParserProperties.CallWithoutCommaFails | Sources/Parser/Parser.swift:278-281 | arguments without a comma between them fail at the second argument |
| ParserProperties.UnclosedCallFails | Sources/Parser/Parser.swift:267-284 | an argument list that is not closed fails |
| ParserProperties.ParamsRun | Sources/Parser/Parser.swift:150-153 | the parameter loop takes exactly a run of identifiers |
| ParserProperties.PrototypeRead | Sources/Parser/Parser.swift:135-163 | wherever it stands, `name(p1 ... pn)` is the prototype `name(p1, ..., pn)` |
| ParserProperties.ExternPrototype | Tests/llvmPracTests/ParserTests.swift:66-94 | `extern name(p1 ... pn)` is the prototype `name(p1, ..., pn)` |
| ParserProperties.PrototypeRejectsCommas | Sources/Parser/Parser.swift:155-158 | a comma in a parameter list makes the prototype fail at the comma |
| ParserProperties.DefinitionWithBody | Sources/Parser/Parser.swift:165-177 | `def name(p1 ... pn) body` is the function `name(p1, ..., pn)` with that body, for any body that is a whole expression |
| ParserProperties.IfThenElse | Sources/Parser/Parser.swift:290-316 | wherever it stands, `if c then t else e` is the node `if(c, t, e)`, for any condition and branches that are whole expressions |
| ParserProperties.IfProgram | Tests/llvmPracTests/ParserTests.swift:96-117 | `if x < 3 then 1 else x` parses to an anonymous function around `if(x < 3, 1, x)` |
| ParserProperties.IfWithoutThenFails | Sources/Parser/Parser.swift:297-300 | without `then`, the `if` fails and nothing is yielded |
| ParserProperties.IfWithoutElseFails | Sources/Parser/Parser.swift:306-309 | without `else`, the `if` fails and nothing is yielded |
| ParserProperties.NotAPrimaryFails | Sources/Parser/Parser.swift:211-213 | a token that starts no primary makes both the primary and the expression fail in place |
| ParserProperties.CommentRestarts | Sources/Parser/Parser.swift:202-203 | a comment in operand position restarts `next()` at the same cursor |
| ParserProperties.RestartIsAFixedPoint | Sources/Parser/Parser.swift:202-203 | re-entering `next()` from a restart reaches the same restart again, so the call never returns |
| ParserProperties.NoCommentNoDivergence | Sources/Parser/Parser.swift:26-29 | without comment tokens `parse()` always returns |
| ParserProperties.CommentAfterExpression | Sources/Parser/Parser.swift:198-215 | an expression followed by a comment is yielded, and then `parse()` never returns |
| ParserProperties.CommentInsteadOfCloseParenFails | Sources/Parser/Parser.swift:274-281 | a comment where `)` or `,` is expected is an ordinary failure, not a restart |
| ParserProperties.CommentLineNeverParses | Tests/llvmPracTests/ParserTests.swift:206-216 | a lone comment line lexes to one comment, on which `parse()` never returns |
| Ast.Describe | Sources/AST/AST.swift:57-116 | a binary node prints between `(` and `)`; an `if` starts with `if` and ends with `;`; a prototype starts with the `e` of `extern` and ends with `)`; a definition starts with the `d` of `def` and ends with `}` |
| Ast.DescribeAll | Sources/AST/AST.swift:76-77 | one description per argument, each that argument's own, in order |
| AstProperties.JoinEnds | Sources/AST/AST.swift:77 | `joined(separator:)` starts with the first part and ends with the last |
| AstProperties.JoinSnoc | Sources/AST/AST.swift:77 | `joined(separator:)` puts the separator between the last two parts |
| AstProperties.DescribeAllSnoc | Sources/AST/AST.swift:77 | describing one more argument appends its description |
| AstProperties.CallArgumentsSpaced | Sources/AST/AST.swift:76-77 | a call prints its arguments in order, separated by one space and no comma |
| AstProperties.CallWithoutArguments | Sources/AST/AST.swift:76-77 | a call without arguments prints `name()` |
| AstProperties.BinaryIsParenthesised | Sources/AST/AST.swift:64-67 | a binary node prints in parentheses; inside are exactly the left operand, the operator's case name with one space on each side, and the right operand, each at its position |
| AstProperties.PrototypeIgnoresKind | Sources/AST/AST.swift:78-85 | a prototype prints as `extern name(args)` whatever its kind and precedence |
| AstProperties.FunctionAndUnaryAlike | Sources/AST/AST.swift:86-100 | functions and unary operators print alike, and neither shows its precedence |
| AstProperties.BinaryShowsPrecedence | Sources/AST/AST.swift:101-106 | a binary operator's definition prints as a function's would, with its precedence inserted after the name |
| AstProperties.ForStepOnlyWhenPresent | Sources/AST/AST.swift:108-113 | a `for` prints `, step` after its end value exactly when it has a step, and is otherwise printed the same |
| AstProperties.IfLayout | Sources/AST/AST.swift:69-75 | an `if` prints as `if `, the condition, ` then`, a new line and four spaces, and ends with `;` |

## Left out

- Grapheme clusters: a Swift `Character` may hold several Unicode scalars.
  In particular `"\r\n"` is one `Character`, equal to neither `"\n"` nor
  `"\r"`. The model lexes scalar by scalar.
- `Characters.IsSpace`, `Characters.IsAlphanumeric`: modelled with the C
  locale's ASCII sets. Other locales' `isspace`/`isalnum` are not modelled.
- `Double`: numbers are reals. NaN, infinities and rounding are not
  represented. `Double(String)` and the printing of a `Double` or a
  `Precedence` are parameters (`Vocabulary.number`, `Printers`).
  `Precedence` is modelled as `int`.
- The lexer's `Sequence`/`IteratorProtocol` conformance, which the parser
  uses through `makeIterator()`, is not part of this model. The parser
  reads the token list that `lex()` returns, which is what repeated `next`
  calls yield.
- `Lexer.before()` is never called and is not modelled.
- The commented-out top-level handlers and the `print` diagnostics of the
  parser are left out. The diagnostics are output only; the failures they
  accompany are modelled.
- The `nil` guard in `parseNumberExpr` cannot be reached from
  `parsePrimary`. `NumberExpr` still models it, and its contract states
  when it fails.
- Parsing.Parser.ParseParenExpr, Parsing.Parser.ParseIfExpr: require a
  current token, because their only caller, `parsePrimary`, enters them on
  `(` or `if`.
- A comment in operand position makes the Swift routines recurse without
  end. The model does not diverge: it stops with the `Restart` outcome and
  the `Loops` reply, and `ParserSpec.Parse` reports it in
  `Parsed.diverges`. The proof that the recursion never returns is
  `ParserProperties.RestartIsAFixedPoint`.
- The two `Prototype`/`Expr` declarations of the syntax-tree module clash
  by name, and the parser builds the `if` node that only the later tree
  declares. The model keeps the two trees apart: `Ast3` (with `If`, what
  the parser builds) and `Ast` (what `description` prints).
- The two `Keyword` enumerations, in `Sources/Token` and `Sources/Lexer`,
  are both modelled, and the lexer takes the lookup as a parameter.
  `Sources/Lexer/BinaryOperator.swift` repeats the token-side operator
  enumeration and is modelled once, as `Tokens.BinaryOperator`.
- IR generation, the command-line driver, `Parser2`, `Ast2` and the other
  syntax-tree versions are not part of this model.
