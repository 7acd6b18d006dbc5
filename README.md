# Crossover front end in Dafny

Crossover is a small scripting language implemented in C#. This project
models its front end and proves properties of the model. There are three parts:

- **Lexer** (`Tokenizer`, src/Tokenizer.cs). It turns one line of input
  into a token list. A cursor `positionInInput` and a line counter
  `lineIndex` advance in place through a chain of character tests and five
  `CheckFor*` scanners.
- **Parser** (`Parser`, src/Parser.cs). It walks a token list. It registers
  `var` and `function` declarations in its lists of usable variables and
  functions, and checks `use` and `external`. At a `{` it copies every token
  up to the matching `}` into the body of the last declared function.
- **Records and helper.** The records the parser builds
  (src/ref/TypeReferences.cs) and `TokenListToString`
  (src/utils/TokenListToString.cs), which concatenates the values of a
  token list.

The model keeps the source's form:

- The lexer and the parser are classes. Their fields change in place.
- Each method is proved against a pure specification function. `Scan`
  specifies the lexer's dispatch loop, `Walk` the parser's `for` loop and
  `Capture` its inner brace-counting loop.
- Lemmas state what those functions mean.
- The records are datatypes.

Files:

| file | module | contents |
|---|---|---|
| tokens.dfy | Tokens | token kinds and tokens |
| lexer_spec.dfy | LexerSpec | one pass of the dispatch (`Dispatch`) and the whole scan (`Scan`) |
| tokenizer.dfy | Lexer | class `Tokenizer`, its loop and the `CheckFor*` scanners |
| lexer_properties.dfy | LexerProperties | what each pass emits, where the lexer reads past the end, what a scan yields |
| type_references.dfy | TypeReferences | `Variable`, `Function`, `Parameter`, `PassedParameter`, `AccessLevel` |
| parser_spec.dfy | ParserSpec | one round of the parser loop (`ActOn`), body capture (`Capture`), the walk (`Walk`) |
| parser.dfy | Parsing | class `Parser` |
| parser_properties.dfy | ParserProperties | declarations, `use`/`external`, brace matching, lists that only grow |
| lexed_program.dfy | LexedProgram | what the parser does with a token list the lexer completed |
| token_list_to_string.dfy | UtilityTools | `TokenListToString` and its specification |

How run-time failures are modelled:

- The C# code never checks its lookahead indices (`positionInInput + k`,
  `i + 1`, `i - 1`), nor that a function is declared before it adds to the
  last one. An index outside the input, the token list or the function
  list is an exception that ends the call. The model makes it an outcome,
  `OutOfRange`.
- `CrossoverCompiler.ThrowCompilerError` is modelled as a fatal outcome,
  `CompilerError(message, line)`, carrying the source's message text.
- The lexer's operator scanner has no branch for `=`, so its loop neither
  advances nor exits. The model makes this an outcome, `Diverges`, rather
  than a loop without end.

Quirks of the code that the model keeps:

- `var` or `function` at index 0, when an identifier follows, reads index
  -1. The model makes this `OutOfRange`, just as when nothing follows the
  declaration. Without an identifier after it, the naming diagnostic comes
  first and index -1 is never read.
- The capture loop compares token values, not token kinds.
- A whole number (no decimal point) that runs to the end of the input keeps
  the default kind `Comment`. A number with a point is `FloatVariable`.
- `true_` lexes as `true` followed by the identifier `_`.
- Every lexer token has line 0, because the lexer's `Token` has no line field.

## Model

| member | source | states |
|---|---|---|
| Lexer.Tokenizer.constructor | src/Tokenizer.cs:9-16 | a new lexer has its cursor and its line counter at 0 |
| Lexer.Tokenizer.InputToTokensList | src/Tokenizer.cs:19-173 | the outcome, and where the cursor and the line counter are left, are those of `Scan` from the cursor and line counter the object already held (neither is reset) |
| Lexer.Tokenizer.ReadToken | src/Tokenizer.cs:27-48 | one pass of the dispatch loop is `Dispatch`; an advancing pass moves the cursor and the counter as the pass says, a halting pass leaves them |
| Lexer.Tokenizer.ReadLiteralToken | src/Tokenizer.cs:50-72 | the `true`, `false` and digit branches are `DispatchLiteral` |
| Lexer.Tokenizer.ReadKeywordToken | src/Tokenizer.cs:74-106 | the `function`, `exclusive` and `if` branches are `DispatchKeyword` |
| Lexer.Tokenizer.ReadWordToken | src/Tokenizer.cs:108-134 | the `for`, `return` and identifier branches are `DispatchWord` |
| Lexer.Tokenizer.ReadSymbolToken | src/Tokenizer.cs:137-169 | the operator branch, `;` (one more line) and the skip of any other character are `DispatchSymbol` |
| Lexer.Tokenizer.CheckForComment | src/Tokenizer.cs:175-207 | the comment token is the text from the cursor up to, not including, the next `;` or the end, and the cursor moves past it |
| Lexer.Tokenizer.CheckForIdentifier | src/Tokenizer.cs:209-241 | the identifier token is the maximal run of letters, digits and `_`, and the cursor moves by its length |
| Lexer.Tokenizer.CheckForString | src/Tokenizer.cs:243-285 | the string token runs from the opening quote to the first closing quote inclusive, or to the end of the input |
| Lexer.Tokenizer.CheckForIntOrFloat | src/Tokenizer.cs:287-334 | the number token and its kind are those of `ScanNumber`; a `.` in the last position is an out-of-range read that leaves the cursor |
| Lexer.Tokenizer.CheckForOperatorAndEquals | src/Tokenizer.cs:336-438 | the result is `ScanOperator`, and the cursor moves by the length of the token it yields |
| LexerSpec.ProbeWordMeaning | src/Tokenizer.cs:30-40 | a left-to-right `&&` chain of character tests matches exactly when the word stands at the cursor, and reads past the end exactly when the rest of the input is a proper prefix of the word |
| LexerSpec.CommentEnd | src/Tokenizer.cs:182-197 | the comment run holds no `;` and ends at a `;` or at the end of the input |
| LexerSpec.IdentifierEnd | src/Tokenizer.cs:216-233 | the identifier run holds only letters, digits and `_`, and is maximal |
| LexerSpec.StringEnd | src/Tokenizer.cs:254-277 | the string ends just past the first quote of either kind, or at the end of the input when no quote follows |
| LexerSpec.ProbeWord | src/Tokenizer.cs:30-128 | a chain of character tests that matches has the whole word inside the input |
| LexerSpec.ProbeFrom | src/Tokenizer.cs:30-128 | the rest of such a chain, after its first comparisons succeeded, matches only with the whole word inside the input |
| LexerSpec.ProbeLiteral | src/Tokenizer.cs:50-65 | a `true` or `false` test that matches has the word and the character after it inside the input |
| LexerSpec.ScanNumber | src/Tokenizer.cs:296-330 | a number run ends inside the input, at or after where it started, and its kind is the one assigned so far, `IntVariable` or `FloatVariable` |
| LexerSpec.ScanOperator | src/Tokenizer.cs:343-432 | an operator token is 1 or 2 characters, and is exactly the input text at the cursor |
| LexerSpec.Dispatch | src/Tokenizer.cs:27-169 | every advancing pass moves the cursor forward, staying within the input, and the line counter grows by one exactly when the character is `;` |
| LexerSpec.DispatchLiteral | src/Tokenizer.cs:50-72 | the same for the passes that reach the `true`, `false` and digit tests |
| LexerSpec.DispatchKeyword | src/Tokenizer.cs:74-106 | the same for the passes that reach the `function`, `exclusive` and `if` tests |
| LexerSpec.DispatchWord | src/Tokenizer.cs:108-134 | the same for the passes that reach the `for`, `return` and identifier tests |
| LexerSpec.DispatchSymbol | src/Tokenizer.cs:137-169 | the same for the operator, `;` and skip branches |
| LexerSpec.Emit | src/Tokenizer.cs:24-172 | adding a pass's token keeps the rest's end position and line; a failure of the rest is the failure of the run, and the token is lost; a completed list is one token longer exactly when the pass emitted one |
| LexerSpec.Scan | src/Tokenizer.cs:19-173 | the cursor and the line counter never move back, and a completed scan emits at most one token per character it reads |
| LexerSpec.Pass | src/Tokenizer.cs:27-170 | the same from a pass inside the input |
| LexerProperties.PassEmitsSourceText | src/Tokenizer.cs:27-169 | each token's value is exactly the input text the pass consumed, with line 0; a pass that emits nothing moves by one character |
| LexerProperties.PassEmitsLexerKind | src/Tokenizer.cs:27-169 | no pass emits `=`, a bracket, `use`, `external` or `.`, and a pass emits `LineEnding` exactly at `;` |
| LexerProperties.OnlyEqualsDiverges | src/Tokenizer.cs:137-152 | a pass fails to make progress exactly when the character is `=`, which the dispatch sends to the operator scanner and the scanner has no branch for |
| LexerProperties.FatalOnlyOnLoneExclamation | src/Tokenizer.cs:396-404 | the lexer raises a diagnostic exactly at `!` followed by a character other than `=`, with the `!` message and the current line |
| LexerProperties.OperatorTable | src/Tokenizer.cs:349-431 | `+ - * /` are one-character arithmetic operators; `<`/`>` take a following `=`; `!=` is a comparison; `&` and the vertical bar are one-character comparisons; `<`, `>`, `!` at the end read past it |
| LexerProperties.SkippedExactlyWhenNoTokenStarts | src/Tokenizer.cs:166-169 | a pass emits nothing and moves one character exactly when no token can start at the character |
| LexerProperties.KeywordLexed | src/Tokenizer.cs:36-128 | a keyword followed by a space yields the keyword's token, consuming only its letters, and the next pass skips the space |
| LexerProperties.VarLexed | src/Tokenizer.cs:36-40 | `var ` yields `VariableDeclaration` and advances 3 |
| LexerProperties.FunctionLexed | src/Tokenizer.cs:74-79 | `function ` yields `FunctionDeclaration` and advances 8 |
| LexerProperties.ExclusiveLexed | src/Tokenizer.cs:82-97 | `exclusive ` yields `ExclusiveKeyword` and advances 9 |
| LexerProperties.IfLexed | src/Tokenizer.cs:100-105 | `if ` yields `IfKeyword` and advances 2 |
| LexerProperties.ForLexed | src/Tokenizer.cs:108-113 | `for ` yields `ForKeyword` and advances 3 |
| LexerProperties.ReturnLexed | src/Tokenizer.cs:116-128 | `return ` yields `ReturnKeyword` and advances 6 |
| LexerProperties.SpaceAfterWordSkipped | src/Tokenizer.cs:166-169 | the space after a consumed keyword is skipped by the next pass without a token |
| LexerProperties.BoolLexed | src/Tokenizer.cs:50-65 | `true`/`false` followed by a character that is not a letter or digit is a `BoolVariable` with that text; followed by a letter or digit it is lexed as an identifier |
| LexerProperties.TrueUnderscoreSplits | src/Tokenizer.cs:50-56 | `true_` yields `true` and then the identifier starting at `_` |
| LexerProperties.IdentifierLexed | src/Tokenizer.cs:131-134 | at a letter or `_`, where neither a literal nor a keyword stands and the input does not end inside a word the dispatch tests for, the token is the whole identifier run and the cursor moves past it, also when the run reaches the end of the input |
| LexerProperties.PlainIdentifierLexed | src/Tokenizer.cs:131-134 | a letter or `_` that no probe starts with always yields the identifier run |
| LexerProperties.ScanNumberMeaning | src/Tokenizer.cs:296-330 | the number scan reads past the end exactly when its run reaches a final `.`; otherwise it takes the maximal run of digits and `.`-before-digit, typed `FloatVariable` with a point, `IntVariable` when a character ended it, and the default `Comment` when the input did |
| LexerProperties.NumberLexed | src/Tokenizer.cs:68-71 | a pass at a digit yields that number token, or reads past the end in the one case above |
| LexerProperties.SemicolonLexed | src/Tokenizer.cs:155-163 | `;` yields `LineEnding` and increments the line counter by exactly 1 |
| LexerProperties.StringLexed | src/Tokenizer.cs:44-48 | a quote yields a string token that keeps both quotes and holds no quote inside; unterminated, it runs to the end |
| LexerProperties.CommentLexed | src/Tokenizer.cs:30-33 | `//` yields a comment up to, not including, the next `;`, and the following pass is that `;`'s `LineEnding` |
| LexerProperties.OutOfRangeExactlyWhenTruncated | src/Tokenizer.cs:30-169 | a pass reads past the end of the input exactly when the input ends inside `//`, `var `, `true `, `false `, a keyword and its space, after a final `<`, `>` or `!`, or inside a number run ending in `.` |
| LexerProperties.OutOfRangeOnlyWhenTruncated | src/Tokenizer.cs:30-169 | an out-of-range pass is at one of those truncations |
| LexerProperties.ScanStopsAtFirstHalt | src/Tokenizer.cs:27-172 | a completed scan consumes the whole input; any other outcome is that of the first pass that halts, at a cursor within the input |
| LexerProperties.ScanCountsLineEndings | src/Tokenizer.cs:155-163 | after a completed scan the line counter has grown by the number of `LineEnding` tokens |
| LexerProperties.ScanEmitsLexerKinds | src/Tokenizer.cs:27-172 | every token of a completed scan has a kind the lexer emits and line 0 |
| LexerProperties.ScanPastEndIsEmpty | src/Tokenizer.cs:24-27 | with the cursor carried over at or past the end of a new input, the scan completes at once with an empty token list and leaves the cursor and the line counter as they were |
| LexerProperties.ScanOutOfRangeOnlyInLastStatement | src/Tokenizer.cs:27-172 | an out-of-range scan stops at a truncation with no `;` after it |
| LexerProperties.DeclarationWithValueDiverges | src/Tokenizer.cs:343-432 | `var x = 1;` never finishes lexing |
| TypeReferences.NewVariable | src/ref/TypeReferences.cs:8-27 | a new variable is not exclusive, at depth 0, and holds its value as text tagged with a token kind (the default `Comment`) |
| TypeReferences.NewFunction | src/ref/TypeReferences.cs:29-45 | a new function is public, with no parameters and an empty body |
| TypeReferences.NewParameter | src/ref/TypeReferences.cs:47-55 | a parameter wraps exactly the variable it was built with |
| TypeReferences.NewPassedParameter | src/ref/TypeReferences.cs:58-61 | a new passed parameter holds no tokens |
| ParserSpec.InitialState | src/Parser.cs:9-19 | a new parser has no variables or functions, depth 0 and both flags false |
| ParserSpec.AppendToLast | src/Parser.cs:127 | the function list keeps its length and every entry but the last; the last one's contents get the tokens appended, its other fields unchanged; adding nothing changes nothing |
| ParserSpec.Capture | src/Parser.cs:110-131 | a captured body ends at an index inside the token list, at or after where the capture started, with the depth back at the starting depth |
| ParserSpec.AddToLast | src/Parser.cs:126-130 | after adding the token at `i`, a capture that closes does so past `i`, inside the token list, at the starting depth |
| ParserSpec.ActOn | src/Parser.cs:27-151 | a round that goes on moves the cursor forward, at most to the end of the list; a round that stops does so with out-of-range or a diagnostic carrying one of the four messages of the walk |
| ParserSpec.Walk | src/Parser.cs:24-152 | every diagnostic of a walk carries one of the four messages; a walk that finishes did not stop at its first round |
| ParserSpec.Act | src/Parser.cs:24-27 | the same for a walk from a round inside the list |
| Parsing.Parser.constructor | src/Parser.cs:9-19 | the new object's fields are `InitialState` |
| Parsing.Parser.ActOnTokens | src/Parser.cs:21-153 | the outcome and the fields afterwards are those of `Walk` from index 0 and the fields before |
| Parsing.Parser.ActOnToken | src/Parser.cs:27-151 | one round of the `switch` is `ActOn`: the new fields, and either the next index or the outcome that stops the walk |
| Parsing.Parser.DeclareVariable | src/Parser.cs:30-47 | the `var` case of the `switch` is `ActOn` at a `VariableDeclaration` token |
| Parsing.Parser.DeclareFunction | src/Parser.cs:50-71 | the `function` case of the `switch` is `ActOn` at a `FunctionDeclaration` token |
| Parsing.Parser.CaptureBody | src/Parser.cs:96-133 | the inner loop is `Capture`: whether the closing brace was found, where, and the fields it leaves |
| Parsing.Parser.RunFunction | src/Parser.cs:155-158 | running a function is walking its body with `isInFunction` set |
| ParserProperties.VariableDeclared | src/Parser.cs:30-47 | `var` and an identifier append exactly one variable with that name, the current depth, exclusive iff the token before is `exclusive`; the cursor skips the name; nothing else changes |
| ParserProperties.FunctionDeclared | src/Parser.cs:50-71 | `function` and an identifier append exactly one function with that name, `Exclusive` scope iff the token before is `exclusive`, an empty body; it sets the function-start flag |
| ParserProperties.UnnamedDeclarationIsError | src/Parser.cs:33-35 | `var` or `function` not followed by an identifier raises that declaration's message at the token's line and appends nothing |
| ParserProperties.DeclarationAtEitherEndOutOfRange | src/Parser.cs:34-38 | a declaration as the last token, or a named one as the first token, reads outside the list and appends nothing |
| ParserProperties.UseChecked | src/Parser.cs:74-81 | `use` inside a function is an error at its line; elsewhere it changes nothing |
| ParserProperties.ExternalChecked | src/Parser.cs:84-89 | `external` not followed by a `.` token is an error at its line; followed by one it changes nothing |
| ParserProperties.OtherTokensChangeNothing | src/Parser.cs:136-150 | a standalone `}` lowers the depth by exactly 1; every other token kind leaves all state unchanged |
| ParserProperties.MatchingBraceUnique | src/Parser.cs:110-123 | a `{` has at most one matching `}` |
| ParserProperties.CaptureToClose | src/Parser.cs:110-131 | from any depth above the start, the capture appends every token before the brace that returns to the start, and ends there at the starting depth |
| ParserProperties.BraceCapturesBody | src/Parser.cs:96-133 | `{` appends to the last function exactly the tokens strictly between it and its matching `}`, nested pairs included, restores the depth, and resumes after the `}` |
| ParserProperties.CaptureUnclosed | src/Parser.cs:110-131 | a capture whose brace never closes runs out of tokens |
| ParserProperties.UnclosedBraceOutOfRange | src/Parser.cs:110-113 | an unclosed `{` reads past the end of the token list |
| ParserProperties.BodyWithoutFunctionOutOfRange | src/Parser.cs:127 | a non-empty body with no function declared reads outside the function list |
| ParserProperties.AppendToLastTwice | src/Parser.cs:127 | adding two runs of tokens to the last body is adding their concatenation |
| ParserProperties.ExtendsTransitive | src/Parser.cs:44 | the "only grows" relation is transitive |
| ParserProperties.AppendToLastExtends | src/Parser.cs:127 | adding to the last body keeps every other entry |
| ParserProperties.CaptureExtends | src/Parser.cs:110-131 | a capture only grows the last body |
| ParserProperties.ActOnKeepsLists | src/Parser.cs:27-151 | a round that neither opens a body nor completes a declaration leaves both lists as they are |
| ParserProperties.ActOnExtends | src/Parser.cs:27-151 | one round only appends variables and functions and grows the last body |
| ParserProperties.WalkExtends | src/Parser.cs:24-152 | over a whole walk, the variables are a prefix of what they become, earlier functions are unchanged, and only the last one's body grows |
| LexedProgram.ActOnLexerKind | src/Parser.cs:27-151 | on a token kind the lexer emits, one round adds only functions with empty bodies, keeps the depth, and raises only a declaration diagnostic |
| LexedProgram.OutOfRangeOnLexerKind | src/Parser.cs:30-71 | on a token kind the lexer emits, a round reads outside the list only at a `var` or `function` that is the first or the last token |
| LexedProgram.WalkLexerKinds | src/Parser.cs:24-152 | a walk over lexer kinds does the same, and reads outside the list only when a declaration is its first or last token |
| LexedProgram.ParsingLexedInput | src/Parser.cs:24-152 | parsing what a completed scan produced never captures a body or changes the depth; every function it registers has an empty body; its only diagnostics are the two naming messages; and it reads outside the list only when a `var` or `function` is the first or the last token |
| UtilityTools.TokenListToString | src/utils/TokenListToString.cs:9-22 | the result is the values of the tokens concatenated in list order, empty for an empty list, and as long as the values together |
| UtilityTools.ConcatenationAppend | src/utils/TokenListToString.cs:14-21 | converting `a + b` is converting `a` then `b` |
| UtilityTools.ConcatenationFront | src/utils/TokenListToString.cs:14-18 | the first token's value comes first |
| UtilityTools.ConcatenationLength | src/utils/TokenListToString.cs:14-18 | the length is the sum of the values' lengths |
| UtilityTools.ValueInPlace | src/utils/TokenListToString.cs:14-18 | each token's value stands right after those of the tokens before it |
| UtilityTools.ConcatenationIgnoresTypes | src/utils/TokenListToString.cs:17 | two lists with the same values give the same string, whatever their kinds and lines |

## Left out

- Crossover.cs: the console loop that reads a line and prints its tokens is I/O. It reuses one `Tokenizer`, so the cursor and the line counter carry over between lines. `InputToTokensList` models that by starting from whatever the object holds.
- Tokenizer.cs at the top level of the repository is an earlier draft that does not compile. It is not part of this model.
- `CrossoverCompiler.ThrowCompilerError` is not part of this model. Its call is modelled as a fatal outcome with the message and line. If it returned instead, the C# loop would go on.
- A C# exception (an index outside a list or the input) is modelled as the outcome `OutOfRange`. The tokens or declarations gathered before it are not returned by the lexer; the parser's fields keep what was done before the failing read.
- `Char.IsLetter` and `Char.IsDigit` are modelled on ASCII letters and digits. Unicode categories are left out.
- The quote test `(char)8.217` converts to character 8. The model uses that character with `'`.
- Strings the C# code leaves `null` (a new variable's name, value and parent script; a new function's name and parent script) are the empty string here.
- `Token` constructors that format a `bool`, `int` or `float` value, and the token's `isOnLine` field, lie outside the lexer's own code. The lexer builds every token with line 0.
- `UseKeyword`, `ExternalKeyword` and `Period` are parser token kinds that the lexer's enum does not declare. They are added to the kind type.
- The parser's list of external functions (src/Parser.cs:13) is never initialised or used. It is left out.
- The waiting flags (src/Parser.cs:18-19) are written but never read. They are carried as fields; only their values after a declaration or a brace are stated.
- Parsing.Parser.RunFunction: `Function` is a value here, so walking a function's body while the walk appends to that same function's contents (aliasing through `usableFunctions`) is not captured. The walk reads the body as it was when the call began.
- The in-place `contents.Add` on the last function (src/Parser.cs:127) is an update of the function list field that replaces its last entry.
- `lineIndex` (src/Tokenizer.cs:16) and `currentDepthLevel` (src/Parser.cs:16) are C# 32-bit `int`s. The model's counters are unbounded integers, so the wrap-around past 2147483647 (or, for the depth, below -2147483648) is not modelled.
- Reading the file named after `use`, aliasing with `as`, `external` imports, expression evaluation, calls and their parameters are not in the modelled files. They are not modelled.
