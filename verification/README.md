# Stella front end, modelled in Dafny

This project models the front end of the Stella-to-Go transpiler. Stella is a small language with `let` declarations, primitive values, fixed-size arrays and tuples, functions, `if`/`else` and `loop`. The front end reads a program line by line into a tree of scopes, checking names, mutability, arity and types as it goes, and then writes the tree out as Go text.

The model follows the live package `src/transpiler` and the small tools next to it:

- **Results, Tokens, Types, Symbols.** The error result (a Go panic becomes `Err(line, message)`), the operator and keyword tables, the six primitive types and the literal checks, and the four name-to-descriptor tables a scope keeps (variables, functions, arrays, tuples).
- **GoText.** The parts of Go's `strings` and `strconv` the code relies on (`Fields`, `Trim`, `Split`, `Join`, `Atoi`, `Itoa`), written out so that their edge cases are part of the model.
- **Comments, Formatter, ErrorParser.** Comment stripping, the command-line indenter, and the filter that keeps the first line of an error message.
- **Brackets, Lexer, Identifiers, Scanners.** Brace and bracket matching across lines, the expression tokeniser, name checks, and the character loops that cut calls, array literals, tuple literals and index groups into pieces.
- **TuplePatterns, ArrayTypes, Terms, Expressions, Typing.** Tuple patterns and tuple indexing, array annotations, and the expression checker: the token-adjacency rules and the type checker `expressionType`. Typing states the typing rules on their own and ties the checker to them. ExpressionForms builds calls, array literals, accesses, tuple literals and tuple indexes from their parts and states when each reads back and what it reads as.
- **LineKinds, Items, Statements, ArrayStatements, TupleStatements.** Line classification and the one-line statements: declarations, assignments, selections, loop headers and macros.
- **Blocks, Functions, ExpectedTypes, Scopes.** Multi-line function bodies, function declarations, the walk back to a function's return annotation, and `parseScope`.
- **Render, Target.** The Go text of each item, and the assembly of the output file.

Every operation is a pure function over immutable values. The four tables are maps, and the parsed items are variants of one datatype. The global `imports` and `tupleImports` sets of the source are returned as part of each result rather than mutated in place. Recursion over expressions is bounded by a `fuel` parameter and scope nesting by a `depth` parameter; running out of either is an error.

Where the code and its documentation disagree, the model follows the code. The two exceptions are the defects listed under Findings. For each, the model keeps a member that follows the code as written, and the rest of the model uses the corrected definition. Other differences:

- The bounds check on an array index only runs when `strconv.Atoi` fails (src/transpiler/collections.go:421-426), so an index literal within the int64 range is never checked: `Expressions.ParseArrayIndexing` accepts `foo[5]` on an `int[3]`. The check rejects only a literal that overflows int64, since Atoi then yields the int64 maximum, and any non-literal index such as `a[i]` on a zero-size array, since Atoi then yields 0 (`ExpressionForms.IndexPasses`).
- Binary `-` needs two numeric operands but not the same type on both sides. It adds the type of the operand after it (src/transpiler/types.go:306-312).
- `expressionType` has no case for tuple indexing (src/transpiler/types.go:229-257), so a token such as `t.1` is typed as a literal and rejected.
- `parseArrayExpression` reads a `returnsDerived` field that `Function` does not have (src/transpiler/collections.go:582). It is modelled as the function's return domain being the derived (array) one.
- An array declaration checks the variable, function and array tables, but not the tuple table (src/transpiler/collections.go:306-312). `ArrayStatements.ArrayDeclarationIgnoresTuples` states this.
- The keyword check in `parseIdentifier` looks at the word with its `:` still attached, so it never rejects a name (src/transpiler/parser.go:159-161).
- The function branch of `parseScope` copies the parent's tuples into the parent rather than into the new scope (src/transpiler/parser.go:1654-1657). A function body therefore starts with no tuples in scope, and the model does the same.
- Nothing checks that a loop contains a `break`.

## Model

| member | source | states |
|---|---|---|
| Tokens.BinaryOperatorsPartition | src/tokens.go:3-46 | the binary operators are exactly the numeric, comparative and boolean operators together, and those three tables share no operator |
| Tokens.BinaryOperatorCount | src/tokens.go:3-19 | there are twelve binary operators |
| Tokens.UnaryBinaryOverlap | src/tokens.go:48-54 | the unary operators are exactly `!` and `-`, and `-` is the only operator that is both unary and binary |
| Tokens.NumbersAreDigits | src/tokens.go:93-106 | a string is in the digit table exactly when it is one decimal digit |
| Tokens.KeywordTablesDisjoint | src/tokens.go:56-92 | no keyword is in two of the conditional, type, assignment and iteration tables |
| Tokens.TypeKeywordCount | src/tokens.go:65-78 | there are eight type keywords |
| Tokens.KeywordCount | src/tokens.go:108-123 | the keyword list, the union of the four tables, has fourteen members |
| Types.ReadType | src/transpiler/types.go:65-82 | a type name is accepted exactly when it is one of the six names, and the type read is named by it; anything else is an error on the given line |
| Types.ReadTypeName | src/transpiler/types.go:39-82 | naming a type and reading the name back gives the same type, and distinct types have distinct names |
| Types.NumericTypes | src/transpiler/types.go:58-63 | a type is numeric exactly when it is `int` or `float` |
| Types.CheckIntVal | src/transpiler/types.go:394-411 | the integer check accepts exactly the digit strings with no leading zero, except `0` itself |
| Types.CheckFloatVal | src/transpiler/types.go:412-436 | the float check accepts exactly the strings of digits and at most one `.` that start with a digit, where a leading `0` must be followed by `.` |
| Types.FloatCheckMeansLiteral | src/transpiler/types.go:412-436 | for a value holding a `.`, the float check accepts exactly the float literals |
| Types.GetValType | src/transpiler/types.go:84-118 | a literal is a String, Byte, Bool, Float or Int exactly when it has that literal's form; it is never IO, and any other token is an error |
| Types.NoDotIntLiteral | src/transpiler/types.go:108-117 | a digit string without `.` is never classified as a float |
| ErrorParser.ParseError | src/cli_rs/src/error_parser.rs:2-7 | the result is the prefix of the message before its first newline; it holds no newline and is the whole message when there is none |
| ErrorParser.FirstPieceHasNoNewline | src/cli_rs/src/error_parser.rs:2-6 | the first piece of the split has no newline and ends where the first newline is, so the empty-split panic cannot happen |
| Comments.CommentStart | src/transpiler/comments.go:7-13 | the cut point is the start of the last `//` on the line, or none |
| Comments.StripComment | src/transpiler/comments.go:7-16 | the result is a prefix of the line; a line without `//` is unchanged; otherwise it is cut where its last `//` starts |
| Comments.RemoveComments | src/transpiler/comments.go:4-19 | as many lines come out as go in, each the stripped version of its input line and a prefix of it |
| Comments.EarlierMarkerSurvives | src/transpiler/comments.go:7-16 | only the last `//` cuts: `a//b//c` becomes `a//b` |
| Formatter.Indent | src/cli/formatter.go:15-19 | the indentation is `tabSize` spaces per level, and nothing when the depth or the tab size is not positive |
| Formatter.Format | src/cli/formatter.go:6-43 | the output is each input line, indented by the depth before it, followed by a newline; with no positive tab size it is the input plus a newline; the first line comes first, unindented |
| Formatter.OutputShape | src/cli/formatter.go:7-41 | the whole-output facts of the line-by-line definition: the unindented case and the leading first line |
| Formatter.IndentLine | src/cli/formatter.go:15-19 | the loop writes exactly the indentation for the current depth |
| Formatter.ScanLine | src/cli/formatter.go:23-37 | the character loop over one line computes the quote-aware brace scan |
| Formatter.UnindentedOutput | src/cli/formatter.go:14-41 | with a tab size of at most zero the formatted lines are the input lines joined back, with a final newline |
| Formatter.FirstLineFirst | src/cli/formatter.go:9-20 | the first line is never indented and leads the output |
| Formatter.StringLiteralKeepsDepth | src/cli/formatter.go:23-37 | braces inside a closed string literal do not change the depth |
| Brackets.FindScopeEnd | src/transpiler/scoping.go:46-65 | the result is the first line at or after `begin` holding a position where the brace count, started at the first `{`, returns to zero; when there is none the error is on line `begin + 1` |
| Brackets.LeadingClosersIgnored | src/transpiler/scoping.go:53-56 | closing braces before the first `{` change nothing, so `} else {` opens a scope |
| Brackets.Closer | src/transpiler/scoping.go:71-81 | only `(`, `{` and `[` have a closer; any other bracket type is refused |
| Brackets.FindBracketEnd | src/transpiler/scoping.go:67-102 | the result is the first position, counting from `charIndex` on the start line, where the bracket count is zero; an invalid bracket type or an unclosed bracket is an error |
| Identifiers.ParseCharType | src/transpiler/parser.go:128-141 | a character is a letter, a digit or an underscore exactly when it is in that ASCII class |
| Identifiers.ParseIdentifier | src/transpiler/parser.go:143-169 | a word is accepted exactly when it ends in `:`, the part before it is a letter followed by letters, digits and `_`, the part is not an illegal name, and the word with its colon is not a keyword; the result is the word without the colon |
| Identifiers.NameChars | src/transpiler/parser.go:150-158 | the first-letter check and the character loop together accept exactly the names |
| Identifiers.KeywordCheckNeverFires | src/transpiler/parser.go:160-162 | the keyword check sees the word with its colon, which no keyword has, so it never rejects |
| Identifiers.ParseName | src/transpiler/parser.go:143-169 | a name with its colon comes back unchanged exactly when it is not illegal |
| Identifiers.KeywordAccepted | src/transpiler/parser.go:160-169 | `let:` is accepted as the name `let` |
| Lexer.Tokenize | src/transpiler/parser.go:241-349 | on success every token is non-empty and well formed (a literal, a call, a bracket, an operator or a plain word) and the brackets balance; an error carries the given line. The error cases are stated by the lemmas below |
| Lexer.LexShapes | src/transpiler/parser.go:245-349 | every step of the scan keeps the emitted tokens well formed, so a finished scan has balanced brackets |
| Lexer.Step | src/transpiler/parser.go:245-346 | each step consumes at least one character of the input |
| Lexer.StepOperator | src/transpiler/parser.go:294-334 | `+ - * /` always give a token; a `&`, `\|` or `=` fails exactly when it is last or the next character differs; a `!`, `<` or `>` fails exactly when it is last |
| Lexer.StepBracket | src/transpiler/parser.go:246-292 | a quote fails exactly when no closing quote follows it; a call fails exactly when its round brackets never balance; a bracket on its own never fails |
| Lexer.OperatorSpellings | src/transpiler/parser.go:294-334 | every operator token the scan can build is in the operator tables and leaves the bracket count alone |
| Lexer.OperatorForms | src/transpiler/parser.go:294-334 | an operator token is one of `+ - * / ! < >` alone, or `!= <= >= ==`, or `&&`, `\|\|` |
| Lexer.QuoteFrom | src/transpiler/parser.go:247-258 | a string literal runs to the next quote, which is the first one after the opening quote |
| Lexer.GroupEnd | src/transpiler/parser.go:260-279 | a call `name(` runs up to the place where its round brackets balance |
| Lexer.TokenizeJoin | src/transpiler/parser.go:241-349 | tokens written back with single spaces, as the Go renderer writes them, are read as the same tokens when each is a plain word, literal without spaces, bracket or operator, the brackets balance and the last token is not an operator that fuses |
| Lexer.LexJoin | src/transpiler/parser.go:245-346 | from any point of the scan, the rest of a space-joined list is read as that list |
| Lexer.OperatorStep | src/transpiler/parser.go:294-334 | an operator followed by a character it does not fuse with is emitted whole |
| Lexer.LexWord | src/transpiler/parser.go:335-344 | a plain word is gathered character by character and emitted at the next space |
| Lexer.LexLast | src/transpiler/parser.go:340-344 | the last token of the input is emitted as itself |
| Lexer.StepErrorEndsScan | src/transpiler/parser.go:244-346 | a step that fails ends the whole scan with that error |
| Lexer.EndOfScan | src/transpiler/parser.go:347-349 | once the input is used up, the scan succeeds exactly when the bracket count is zero, with the tokens emitted |
| Lexer.SpacedTokens | src/transpiler/parser.go:241-349 | words, literals, brackets and operators, each followed by a space, are read back as themselves exactly when their brackets balance, so unbalanced `( ) { }` is an error |
| Lexer.UnpairedOperatorRejected | src/transpiler/parser.go:303-318 | after any words, literals, brackets and operators, each followed by a space, a single `&`, `\|` or `=` not followed by the same character is an error |
| Lexer.TrailingOperatorRejected | src/transpiler/parser.go:319-323 | after any words, literals, brackets and operators, each followed by a space, a `!`, `<` or `>` that ends the expression is an error |
| Lexer.UnterminatedLiteralRejected | src/transpiler/parser.go:246-258 | after any words, literals, brackets and operators, each followed by a space, a quote with no quote after it is an unterminated literal, which is an error |
| Lexer.UnclosedCallRejected | src/transpiler/parser.go:259-279 | after any words, literals, brackets and operators, each followed by a space, a name followed by `(` with no `)` after it is an unclosed call, which is an error |
| Scanners.SplitArgs | src/transpiler/parser.go:1038-1066 | a non-empty argument text gives at least one argument, because the argument being read at the end is always kept; an empty text gives none |
| Scanners.SplitArgsJoin | src/transpiler/parser.go:1038-1066 | arguments without commas, parentheses or a leading space, written with ", " between them, are read back as written |
| Scanners.ArgSeparator | src/transpiler/parser.go:1051-1059 | ", " at depth zero ends the argument being read, and the space after it is dropped |
| Scanners.ArgWord | src/transpiler/parser.go:1043-1062 | a plain piece of an argument is appended character by character to the argument being read |
| Scanners.ArgWordLast | src/transpiler/parser.go:1064-1066 | a plain argument at the end of the text is kept |
| Scanners.EmptyParenthesesArgument | src/transpiler/parser.go:1033-1066 | a call with nothing between its parentheses still gives one argument, the text `()`, since only texts longer than two characters lose their parentheses |
| Scanners.ElementsJoin | src/transpiler/collections.go:161-194 | array elements without separators, spaces or quotes, written with ", " between them and a closing `]`, are read back as written |
| Scanners.ElementWord | src/transpiler/collections.go:161-194 | a plain piece of an element is appended to the element being read |
| Scanners.SpaceDiscards | src/transpiler/collections.go:186-187 | a space outside a string literal throws away the start of an element: `[a b]` reads as the single element `b` |
| Scanners.TupleElementsJoin | src/transpiler/tuple.go:117-131 | tuple elements without commas or quotes, written with "," between them, are read back as written |
| Scanners.TupleWord | src/transpiler/tuple.go:117-131 | a piece of an element without commas or quotes is appended to the element being read |
| Scanners.TupleWordLast | src/transpiler/tuple.go:129-131 | a non-empty element at the end of the text is kept |
| Scanners.QuoteStep | src/transpiler/tuple.go:118-120 | a quote toggles the string-literal state and is kept in the element |
| Scanners.CommaStep | src/transpiler/tuple.go:121-126 | a comma inside a string literal is dropped; outside one it ends the element |
| Scanners.QuotedCommaDropped | src/transpiler/tuple.go:117-131 | `"a,b",c` reads as the two elements `"ab"` and `c`: a comma inside a literal does not split and is lost |
| Scanners.IndexGroupsFrom | src/transpiler/collections.go:386-412 | a `[` inside an open group or a `]` outside one is an error on the given line |
| Scanners.OneIndexGroup | src/transpiler/collections.go:386-412 | one group `[w]` without square brackets inside gives the single index text `w` |
| Scanners.IndexWord | src/transpiler/collections.go:409-410 | inside a group, characters are gathered one by one |
| Scanners.SyntaxFrom | src/transpiler/parser.go:415-430 | the position found is at or after the start and, when inside the text, holds `(`, `[` or `.` |
| Scanners.NoSyntax | src/transpiler/parser.go:415-430 | a value with none of `(`, `[` and `.` has no syntactic character |
| TuplePatterns.ReadTypes | src/transpiler/tuple.go:76-81 | the names are read as types exactly when every name is a type name, and the types read give the names back in order |
| TuplePatterns.ParseTuplePattern | src/transpiler/tuple.go:67-89 | an accepted annotation, trimmed, is enclosed in parentheses and its types are the pieces between them split on ", "; errors carry the given line |
| TuplePatterns.PatternRoundTrip | src/transpiler/tuple.go:67-89 | reading the text of a non-empty pattern gives the pattern back |
| TuplePatterns.ReadNamesOf | src/transpiler/tuple.go:76-81 | reading the names of some types gives those types back |
| TuplePatterns.EmptyPatternRejected | src/transpiler/tuple.go:76-81 | the empty pattern `()` is rejected, since splitting the empty text gives one empty name |
| TuplePatterns.MatchTuplePattern | src/transpiler/tuple.go:91-103 | a tuple matches a pattern exactly when both have the same length and the types agree position by position |
| TuplePatterns.IsTupleIndexing | src/transpiler/tuple.go:418-448 | a token reported as a tuple index starts with a letter |
| TuplePatterns.NameDotIsIndexing | src/transpiler/tuple.go:418-448 | outside literals the first of `.` and `(` decides: a name then a dot is an index, a name then `(` is not |
| TuplePatterns.TranspileTupleIndexing | src/transpiler/tuple.go:450-461 | a "v" goes in straight after the first `.`, and a token without a dot is left alone |
| TuplePatterns.TupleIndexingReversible | src/transpiler/tuple.go:450-461 | the result is one character longer, that character is the "v" after the dot, and deleting it gives the token back |
| ArrayTypes.SquareBracketEnd | src/transpiler/collections.go:60-75 | the result is the first position where the square-bracket depth counted from the start is back to zero; when there is none, it is an error |
| ArrayTypes.GroupEnd | src/transpiler/collections.go:60-75 | a group `[w]` without square brackets inside ends at its own `]`, whatever follows |
| ArrayTypes.ScanDims | src/transpiler/collections.go:103-135 | every dimension read fits in a signed 64-bit integer and is not negative; errors carry the given line |
| ArrayTypes.ParseArrayType | src/transpiler/collections.go:77-139 | an annotation without `[` is an error; an accepted one has the text before its first `[` as the name of its base type, which is not IO, and dimensions that fit in 64 bits |
| ArrayTypes.ArrayTypeRoundTrip | src/transpiler/collections.go:77-139 | reading the text of an array type gives it back, for every base type but IO and all dimensions up to the 64-bit limit |
| ArrayTypes.ScanDimsText | src/transpiler/collections.go:103-135 | the dimension loop reads back every list of dimension groups |
| ArrayTypes.EmptyGroupRejected | src/transpiler/collections.go:115-119 | `int[]` is rejected, because an empty group holds no number |
| ArrayTypes.UnclosedGroupDropped | src/transpiler/collections.go:103-139 | `int[3` is accepted as an array type with no dimensions: a group still open at the end is dropped |
| Terms.NextOperator | src/transpiler/types.go:172-192 | the result is the first operator after the index that stands outside every parenthesis opened after the index, and none is found exactly when there is no such operator |
| Terms.OperatorAfterOperand | src/transpiler/types.go:172-192 | after an operand that is not a bracket, the next operator is the token right behind it |
| Terms.NoOperatorLeft | src/transpiler/types.go:172-192 | with no operator token after the index there is no next operator |
| Terms.NextTerm | src/transpiler/types.go:120-148 | the term after an operator skips the unary operators in front of it, and is one token, or runs from a `(` to the first place its depth is back to zero |
| Terms.PreviousTerm | src/transpiler/types.go:150-170 | the term before an operator ends just before it, and is one token, or the group that starts where the depth counted back from a `)` is first zero |
| Terms.ClosesBefore | src/transpiler/types.go:212-223 | the bracket depth is found to return to zero exactly when some prefix in the range has depth zero |
| Terms.StripOuter | src/transpiler/types.go:200-227 | `()` or `{}` alone is an error; a bracket pair enclosing the whole expression is removed, and anything else is left as it is |
| Terms.WrappedIsStripped | src/transpiler/types.go:205-227 | brackets around a body whose depth never goes below zero are always removed |
| Terms.SeparateGroupsKept | src/transpiler/types.go:205-227 | `( a ) + ( b )` keeps its brackets, because the first one closes before the end |
| Expressions.ParseExpression | src/transpiler/parser.go:239-400 | an accepted expression carries exactly the tokens the tokeniser reads from the text, at least one of them; errors carry the given line |
| Expressions.CheckTokens | src/transpiler/parser.go:354-397 | when the adjacency loop passes, every plain value token has an acceptable token before it and after it |
| Expressions.CheckValue | src/transpiler/parser.go:402-467 | a plain value is accepted exactly when it is a variable in scope or a literal and its neighbours are operators, brackets or the ends |
| Expressions.CheckUnary | src/transpiler/parser.go:469-476 | a unary operator is accepted only after a binary operator, an opening bracket or the start, and never at the end |
| Expressions.CheckBinary | src/transpiler/parser.go:478-489 | a binary operator not next to a bracket is accepted only with a value before it and a value or a unary operator after it |
| Expressions.ExpressionType | src/transpiler/types.go:194-392 | only a non-empty token list has a type |
| Expressions.UnaryType | src/transpiler/types.go:258-275 | two tokens have a type only when the first is a unary operator: `-` gives a numeric type and `!` gives Bool |
| Expressions.CollectTypes | src/transpiler/types.go:279-379 | the operator loop only adds to the types found so far |
| Expressions.OperatorResult | src/transpiler/types.go:289-378 | each operator adds at most one type |
| Expressions.UnaryOperand | src/transpiler/types.go:290-320 | a unary operator checks the term after it and adds no type |
| Expressions.BinaryTypes | src/transpiler/types.go:305-377 | a binary operator adds at most one type |
| Expressions.ParseFunctionCall | src/transpiler/parser.go:1002-1141 | an accepted call has balanced round brackets, names a function in scope by the text before its first `(`, passes as many arguments as the function has primitive parameters, and each argument's type fits its parameter |
| Expressions.CheckArguments | src/transpiler/parser.go:1068-1138 | the argument loop gives as many expressions, arrays and tuples as the function has parameters of each kind, and each expression fits its parameter |
| ExpressionForms.CallRead | src/transpiler/parser.go:1002-1141 | a call written `name(a, b)` from plain arguments, read with depth left, fails when the name is no function in scope, and otherwise is accepted exactly when the argument count matches and the argument loop accepts those same arguments, giving the loop's expressions, arrays and tuples |
| ExpressionForms.CallNoDepth | src/transpiler/parser.go:1002-1141 | with no depth left such a call is an error |
| ExpressionForms.PrimitiveArguments | src/transpiler/parser.go:1068-1138 | with only primitive parameters the argument loop accepts exactly when every argument parses and has its parameter's type, and returns those expressions in order |
| Expressions.ParseEach | src/transpiler/parser.go:1068-1138 | each argument text is parsed with the tokens the tokeniser reads from it |
| Expressions.ParseArrayIndexing | src/transpiler/collections.go:355-433 | an accepted access is one word naming an array in scope, has that array's element type and an Int index |
| ExpressionForms.ArrayIndexingRead | src/transpiler/collections.go:355-433 | an access written `name[index]`, read with depth left, is accepted exactly when the name is an array in scope, the index parses as an Int and passes the source's bound check, and it records that array and that index |
| ExpressionForms.ArrayIndexingNoDepth | src/transpiler/collections.go:355-433 | with no depth left such an access is an error |
| Expressions.ParseBaseArray | src/transpiler/collections.go:141-202 | an accepted literal is enclosed in square brackets, every element has exactly the expected type, and the length is the number of elements read |
| ExpressionForms.BaseArrayRead | src/transpiler/collections.go:141-202 | a literal written `[a, b]` from plain elements is accepted exactly when every element parses with the expected type, and holds those elements with their count as length |
| Expressions.ParseArrayExpression | src/transpiler/collections.go:548-590 | a literal gives a one-dimensional array of the expected base type, an array in scope gives its declared type, and otherwise the text names a function in scope returning an array |
| ExpressionForms.ArrayLiteralRead | src/transpiler/collections.go:548-590 | the same literal as an array value is accepted on the same condition and has one dimension, its element count |
| ExpressionForms.ArrayNameRead | src/transpiler/collections.go:548-590 | the name of an array in scope, on its own, reads as that array's declared type |
| Expressions.ParseTupleLiteral | src/transpiler/tuple.go:105-151 | an accepted literal is enclosed in parentheses and has one element per pattern type, each of that type |
| ExpressionForms.TupleLiteralRead | src/transpiler/tuple.go:105-151 | a literal written `(a,b)` from plain elements is accepted exactly when every element parses and the values fit the pattern, and gives those values |
| Expressions.ParseTupleExpression | src/transpiler/tuple.go:153-204 | a text opening with `(` is a literal matched against the pattern; a call names a function in scope; a variable is one word naming a tuple in scope |
| ExpressionForms.TupleExpressionLiteralRead | src/transpiler/tuple.go:153-204 | the same literal as a tuple value is accepted on the same condition and is a literal of those values |
| ExpressionForms.TupleNameRead | src/transpiler/tuple.go:153-204 | the name of a tuple in scope that is not also a function reads as that tuple |
| Expressions.ParseTupleIndexing | src/transpiler/tuple.go:275-305 | an accepted index has a tuple in scope before its first `.` and an integer after it; a text without a dot is an error |
| ExpressionForms.TupleIndexingRead | src/transpiler/tuple.go:275-305 | an index written `name.n` with a number in the 64-bit range is accepted exactly when the name is a tuple in scope, and gives that tuple and that number |
| Typing.LiteralTypeAgrees | src/transpiler/types.go:84-118 | the literal checker gives a literal exactly the type the literal rules give it |
| Typing.SingleOperand | src/transpiler/types.go:229-257 | one operand token has the type of the variable it names, else of the literal it spells |
| Typing.OperatorOnOperands | src/transpiler/types.go:289-378 | a binary operator between two operands adds the type the typing rule gives them, or fails when there is none |
| Typing.BinaryStep | src/transpiler/types.go:305-377 | the operand check of each binary operator agrees with the typing rule, both when it gives a type and when it gives none |
| Typing.NumericStep | src/transpiler/types.go:305-355 | `+ - * /` follow the typing rule: `+` joins two strings or two numbers of one type, `*` and `/` take two numbers of one type, `-` takes any two numbers |
| Typing.BooleanStep | src/transpiler/types.go:356-368 | `&&` and `\|\|` take two booleans and give Bool |
| Typing.ComparisonStep | src/transpiler/types.go:369-377 | a comparison takes two operands of one type and gives Bool |
| Typing.LongExpression | src/transpiler/types.go:279-391 | three or more tokens have a type exactly when the operator loop collects exactly one type |
| Typing.CollectStep | src/transpiler/types.go:282-378 | each round of the operator loop adds the next operator's type, and a failing operator ends the loop with an error |
| Typing.CollectEnd | src/transpiler/types.go:283-287 | the loop ends with what it has found when no operator is left |
| Typing.BinaryExpressionType | src/transpiler/types.go:194-392 | `x op y` has the type the typing rule gives the operands' types, and no type when the rule gives none |
| Typing.NoRuleOutsideOperators | src/transpiler/types.go:289-378 | only operators have a typing rule |
| Typing.UnaryInMiddle | src/transpiler/types.go:315-320 | a `!` between two operands adds no type |
| Typing.TwoOperators | src/transpiler/types.go:279-391 | `x op1 y op2 z` has no precedence: each operator is checked against its neighbours, and the expression has a type only when both give the same one |
| Typing.TwoTypes | src/transpiler/types.go:380-391 | two found types make one exactly when they are equal |
| Typing.MixedOperatorsRejected | src/transpiler/types.go:380-385 | `1 + 1 == 2` is rejected although each part is well typed: it collects Int and Bool |
| Typing.CheckOperand | src/transpiler/parser.go:402-467 | between operators or ends, an operand word is accepted exactly when it has a type |
| Typing.CheckThree | src/transpiler/parser.go:354-397 | the adjacency checks pass on `x op y` exactly when both operands have a type |
| Typing.BinaryExpressionParses | src/transpiler/parser.go:239-400 | the text `x op y` parses to its three tokens with the type the typing rule gives, and is rejected when the rule gives none |
| Typing.ThreeAccepted | src/transpiler/parser.go:354-399 | the tokens `x op y` pass both the adjacency and the type check exactly when the typing rule gives them a type, and then have that type |
| Typing.ParseThrough | src/transpiler/parser.go:239-400 | parsing text that tokenises to some tokens succeeds exactly when the adjacency checks and the type checker both accept them, with the type the checker gives |
| Typing.ThreeTokensRead | src/transpiler/parser.go:241-349 | the tokeniser reads `x op y` back as its three tokens |
| Typing.SubtractionTakesRightType | src/transpiler/types.go:305-314 | `1.5 - 1` is an Int: binary `-` takes the type of its right operand |
| LineKinds.EqualsOutsideMeans | src/transpiler/parser.go:528-541 | the scan finds an `=` exactly when one follows an even number of quotes |
| LineKinds.EqualsFromStep | src/transpiler/parser.go:528-541 | one character of the scan: an `=` here outside a literal, or one later with the literal state updated |
| LineKinds.IsStatement | src/transpiler/parser.go:516-551 | a line is a statement exactly when it is blank, opens with a statement keyword or `}`, holds a `!`, or has an `=` outside string literals |
| LineKinds.DeclarationKind | src/transpiler/parser.go:1336-1345 | an annotation opening with `(` declares a tuple, one holding `[` an array, anything else a variable |
| LineKinds.DeclarationType | src/transpiler/parser.go:1323-1346 | a `let` line is classified exactly when it has the words up to its annotation, by that annotation |
| LineKinds.AssignmentType | src/transpiler/parser.go:1348-1380 | an assignment is to a variable, array or tuple exactly as its first word is in that table; an array element when the first word is undeclared and holds `[` after its first character |
| LineKinds.ReturnStatementType | src/transpiler/parser.go:1382-1445 | a value opening with `(` is a tuple, one opening with `[` without a call is an array |
| LineKinds.StopsAtParen | src/transpiler/parser.go:1386-1409 | the scan of a returned value stops early only at a `(` |
| LineKinds.ScanName | src/transpiler/parser.go:1386-1409 | a name in front of `(` is collected whole |
| LineKinds.ReturnedCall | src/transpiler/parser.go:1382-1445 | a returned call takes its kind from the domain its function returns, and is an error when the function is not in scope |
| LineKinds.GetItemType | src/transpiler/parser.go:1447-1505 | a line is classified by its first word: blank lines, `let`, `function`, `if`, `loop`, `break`/`continue` and `}` each give their own kind, assignments are classified by their target, a `!` makes a macro, and any other line is a returned value |
| LineKinds.LetLine | src/transpiler/parser.go:1447-1505 | a `let` line is classified by its type annotation alone |
| LineKinds.CloserLine | src/transpiler/parser.go:1447-1505 | `} else if` opens an else-if branch, `} else {` an else branch, and `}` followed by anything other than `else` is an error |
| Statements.AfterEquals | src/transpiler/parser.go:1283-1288 | the result is just past the first `=` of the line, or 0 exactly when the line has no `=` |
| Statements.EqualsIndex | src/transpiler/parser.go:213-219 | the result is the position of the first `=`, or 0 when there is none |
| Statements.ParseVariableDeclaration | src/transpiler/parser.go:171-237 | an accepted `let` line names, after `let` and an optional `mut`, a name new to all four tables and not reserved, annotated with a type other than IO that the expression after the first `=` has; the variable is added to the variable table and nothing else changes |
| Statements.DeclarationNotRepeatable | src/transpiler/parser.go:186-194 | a declaration that succeeds is rejected when read again against the tables it produced, because its name is taken |
| Statements.ParseAssignment | src/transpiler/parser.go:1257-1305 | an accepted assignment names a mutable variable in scope, has `=` as its second word and an expression of the variable's type; an immutable variable is an error; the tables do not change |
| Statements.ImmutableNotAssignable | src/transpiler/parser.go:1268-1275 | a variable declared without `mut` can never be assigned to |
| Statements.ConditionEnd | src/transpiler/parser.go:1220-1226 | the condition ends at the first `{` after the first character, or the result is 0 when there is none |
| Statements.SelectionKind | src/transpiler/parser.go:1180-1197 | a line opening with `if` is an if, `} else if` an else-if, `} else` followed by anything else an else; anything else is an error |
| Statements.ParseSelection | src/transpiler/parser.go:1174-1255 | an accepted selection has the kind its words give and a Bool condition parsed from the text between its keyword and its `{`; an else has no condition text and gets an empty Bool condition; the tables do not change |
| Statements.ElseLine | src/transpiler/parser.go:1174-1255 | `} else {` opens an else branch with an empty condition |
| Statements.ElseAccepted | src/transpiler/parser.go:1174-1255 | every `} else` line with nothing between `else` and its brace is an else branch |
| Statements.ParseLoop | src/transpiler/loop.go:12-41 | an accepted loop header opens with `loop`, ends with its only `{`, and has a Bool condition between them; a bare `loop` is an error; the tables do not change |
| Statements.LoopHeaderRead | src/transpiler/loop.go:12-41 | a header written `loop cond {` is accepted exactly when the condition reads as a Bool, and then loops on that condition with the tables unchanged |
| Statements.MacroKind | src/transpiler/macro.go:40-55 | the macro names are exactly `print`, `println` and `panic` |
| Statements.MacroImports | src/transpiler/macro.go:40-52 | the printing macros need the "fmt" package and `panic` needs none |
| Statements.Bang | src/transpiler/macro.go:26-35 | the result is the first `!` of the line, or its length when there is none |
| Statements.ParseMacro | src/transpiler/macro.go:23-64 | an accepted macro has its kind named by the trimmed text before the first `!`, an argument parsed from the text after it, a String argument for `panic`; a line without `!` is an error |
| Statements.MacroRead | src/transpiler/macro.go:23-64 | `print!x`, `println!x` and `panic!x` with a non-empty argument are accepted exactly when the argument parses, as a String for `panic`, and give that macro on that argument |
| ArrayStatements.ParseArrayDeclaration | src/transpiler/collections.go:278-353 | an accepted array declaration has the annotation after its name, a name not taken by a variable, function or array and not reserved, and a value whose base type and first size agree with the annotation; the array is added to the array table and nothing else changes |
| ArrayStatements.ArrayHeader | src/transpiler/collections.go:278-309 | the array introduced has the name before the annotation and the type the annotation reads as |
| ArrayStatements.ArrayValueFor | src/transpiler/collections.go:311-340 | the value after the first `=` is an array expression whose base type and first size agree with the annotation |
| ArrayStatements.FitsAnnotation | src/transpiler/collections.go:334-340 | a value is accepted exactly when its base type and its first size agree with the annotation |
| ArrayStatements.ArrayDeclarationIgnoresTuples | src/transpiler/collections.go:278-353 | the tuple table plays no part in an array declaration, so an array may take the name of a tuple |
| ArrayStatements.ArrayDeclarationNotRepeatable | src/transpiler/collections.go:278-353 | a successful array declaration is rejected when repeated against the tables it produced |
| ArrayStatements.ParseArrayAssignment | src/transpiler/collections.go:435-490 | an accepted assignment names a mutable array in scope, has `=` as its second word and a value with its base type and dimensions; an immutable array is an error; the tables do not change |
| ArrayStatements.ImmutableArrayNotAssignable | src/transpiler/collections.go:448-450 | an array declared without `mut` can never be assigned a new value |
| ArrayStatements.IndexedName | src/transpiler/collections.go:492-546 | the array name is the text before the first `[`, and holds no `[` |
| ArrayStatements.ParseArrayIndexAssignment | src/transpiler/collections.go:492-546 | an accepted element assignment indexes a mutable array in scope and gives a value of its base type; an immutable array is an error; the tables do not change |
| ArrayStatements.ImmutableArrayElementNotAssignable | src/transpiler/collections.go:515-517 | no element of an array declared without `mut` can be assigned |
| TupleStatements.AnnotationBounds | src/transpiler/tuple.go:233-251 | the scan stops at an `=` and keeps the last `:` before it |
| TupleStatements.BoundsOutsideStrings | src/transpiler/tuple.go:233-251 | the `=` found is the first outside string literals and the `:` kept is outside them too; when none is found, every `=` is inside a literal |
| TupleStatements.BoundsFoundIff | src/transpiler/tuple.go:233-251 | the annotation is found exactly when the line has an `=` outside string literals, the same test that makes the line a statement |
| TupleStatements.ParseTupleDeclaration | src/transpiler/tuple.go:206-273 | an accepted tuple declaration names a new, unreserved tuple whose pattern lies between the last `:` and the first `=` outside literals and whose value fits that pattern; the tuple is added to the tuple table and nothing else changes |
| TupleStatements.TupleValueFor | src/transpiler/tuple.go:253-257 | the pattern is read from between the bounds and the value after the `=` must fit it |
| TupleStatements.TupleDeclarationNeedsEquals | src/transpiler/tuple.go:233-251 | a line without an `=` outside string literals is never a tuple declaration |
| TupleStatements.TupleDeclarationExtends | src/transpiler/tuple.go:206-273 | a tuple declaration only adds its own name to the tables |
| TupleStatements.TupleDeclarationNotRepeatable | src/transpiler/tuple.go:206-273 | a successful tuple declaration is rejected when repeated against the tables it produced |
| TupleStatements.ParseTupleAssignment | src/transpiler/tuple.go:307-341 | an accepted assignment names a mutable tuple in scope and gives a value fitting its pattern; an immutable tuple or a line without `=` is an error; the tables do not change |
| TupleStatements.ImmutableTupleNotAssignable | src/transpiler/tuple.go:307-341 | a tuple declared without `mut` can never be assigned to |
| Blocks.Declare | src/transpiler/parser.go:597-603 | a declaration met inside a block only extends the scratch tables; any other line leaves the scan as it was |
| Blocks.DeclareVariable | src/transpiler/parser.go:597-598 | a variable declaration inside a block extends the scratch tables and nothing else |
| Blocks.DeclareArray | src/transpiler/parser.go:599-600 | an array declaration inside a block extends the scratch tables and nothing else |
| Blocks.DeclareTuple | src/transpiler/parser.go:601-602 | a tuple declaration inside a block extends the scratch tables and records the arity of its pattern |
| Blocks.ScanBlock | src/transpiler/parser.go:581-596 | the scan only extends the scratch tables, never replaces a value line already found, and any value line it finds is a non-statement at depth one of the block |
| Blocks.ScanLine | src/transpiler/parser.go:597-616 | a line at depth one only extends the scratch tables, the value line it reports is a non-statement at depth one, and in an array block any line after the value line is an error |
| Blocks.ScanFrom | src/transpiler/parser.go:553-618 | a whole block scan only extends the tables it starts from, and its value line is a non-statement at depth one |
| Blocks.MultiLineExpression | src/transpiler/parser.go:553-634 | the block's value is its value line parsed in the scratch tables, or an empty IO expression when it has none |
| Blocks.MultiLineArrayExpression | src/transpiler/collections.go:592-653 | the block's value is its value line parsed as an array of the expected base type; a block without a value line is an error |
| Blocks.MultiLineTupleExpression | src/transpiler/tuple.go:343-416 | the block's value is its value line parsed as a tuple fitting the pattern; a block without a value line is an error |
| Functions.SplitParams | src/transpiler/parser.go:644-685 | the split only appends fields to those already cut |
| Functions.TrimAfterBlank | src/transpiler/parser.go:667-684 | spaces in front of a word without outer spaces are trimmed away |
| Functions.PlainRun | src/transpiler/parser.go:644-685 | characters that are not special only extend the current field |
| Functions.PlainLast | src/transpiler/parser.go:679-684 | at the end of the list the last field is cut |
| Functions.CommaSpace | src/transpiler/parser.go:661-677 | a comma at depth zero cuts the field read so far |
| Functions.SplitJoinFrom | src/transpiler/parser.go:644-685 | plain parameters joined by ", " are split back into themselves |
| Functions.ParamFieldsJoin | src/transpiler/parser.go:644-688 | the fields of plain parameters written `p1, p2, …` are the parameters themselves |
| Functions.ParseParameter | src/transpiler/parser.go:696-760 | an accepted parameter is `name: annotation` with a legal name; an annotation opening with `(` makes a tuple parameter, one holding `[` an array parameter, anything else a variable parameter that is not IO |
| Functions.Prepend | src/transpiler/parser.go:727-760 | a parameter put in front of the others comes first in the order |
| Functions.ParseFields | src/transpiler/parser.go:696-763 | the fields are read in turn and give their parameters in order; when every field is valid, reading succeeds |
| Functions.ReadAsPrepend | src/transpiler/parser.go:696-763 | the parameter read from the first field, put in front of what the others read as, is what all the fields read as |
| Functions.ParseParameters | src/transpiler/parser.go:636-767 | accepted parameters come one per field, in order, each of the kind its annotation selects, and the three lists together match the order |
| Functions.WithParameters | src/transpiler/parser.go:836-847 | the body's tables bind every parameter under its name and keep the functions |
| Functions.ParamsText | src/transpiler/parser.go:808-826 | the scan for the parameter list stops at the `)` that closes the first `(`, or reports none |
| Functions.HeaderParams | src/transpiler/parser.go:808-826 | on `head(params)tail` without nested parentheses the scan keeps exactly `(params)` and stops at its `)` |
| Functions.AfterWords | src/transpiler/parser.go:859-885 | the words after the parameter list are never empty |
| Functions.ReturnDomainOf | src/transpiler/parser.go:898-911 | a `[` anywhere in the return annotation makes it an array return, otherwise a leading `(` makes it a tuple return |
| Functions.ReturnTypes | src/transpiler/parser.go:913-928 | the return annotation is read as an array type, a tuple pattern or a primitive type as its domain says, and IO is refused for every function but `main` |
| Functions.LastEquals | src/transpiler/parser.go:938-943 | the result is one past the last `=` after the parameter list, or 0 when there is none |
| Functions.ValueBody | src/transpiler/parser.go:972-982 | a primitive body is the expression after the `=`, or the block it opens; an empty body is an error |
| Functions.ArrayBody | src/transpiler/parser.go:952-970 | an array body is the array expression after the `=`, or the block it opens; an empty body is an error |
| Functions.CheckBody | src/transpiler/parser.go:949-982 | the body has the return type the annotation gives: the same primitive type, the same array type, or a tuple fitting the pattern |
| Functions.HeadName | src/transpiler/parser.go:776-804 | the function's name is its second word up to `(`, a legal identifier not declared in any of the four tables |
| Functions.HeadParams | src/transpiler/parser.go:808-834 | the parameters are read from the text inside the first balanced pair of parentheses |
| Functions.ParseHead | src/transpiler/parser.go:776-936 | an accepted header has the name and parameters read as above and is followed by the words `-> type = {` |
| Functions.HeadAfter | src/transpiler/parser.go:853-936 | the words after the parameter list must be `-> type = {`, with the annotation second |
| Functions.ParseFunction | src/transpiler/parser.go:769-1000 | an accepted function has the header's name, parameters and return annotation, is new to the tables, and returns IO only when it is `main` |
| Functions.FunctionFrom | src/transpiler/parser.go:938-998 | the function recorded is the one its header describes, its body is checked in the header's tables with the parameters bound, and every tuple arity of its signature is recorded |
| Functions.Recorded | src/transpiler/parser.go:836-847 | after the declaration the tables bind every parameter and the function itself, and the arities include those of its tuple parameters and tuple return |
| Functions.FunctionBodyChecked | src/transpiler/parser.go:938-982 | the body is checked in the enclosing tables plus the parameters, without the function's own name |
| Functions.FunctionScopeTables | src/transpiler/parser.go:836-847 | the body's tables hold every parameter and the function itself |
| Functions.FunctionArities | src/transpiler/tuple.go:67-89 | every tuple arity in a function's signature is recorded for the generated tuple types |
| Functions.FunctionNotRedeclarable | src/transpiler/parser.go:796-804 | reading the same header again in the tables its declaration produced fails |
| Functions.OnlyMainReturnsIO | src/transpiler/parser.go:922-927 | the return annotation IO is refused for every function but `main` |
| Functions.SignatureNeeded | src/transpiler/parser.go:913-928 | a header whose return annotation cannot be read declares nothing |
| ExpectedTypes.HeaderBaseType | src/transpiler/collections.go:655-667 | the base type is read from the array annotation that is the third word from the end of the header, and is never IO |
| ExpectedTypes.ExpectedType | src/transpiler/collections.go:655-667 | the search back from a line gives the base type of the nearest header, never IO, passing over blank lines |
| ExpectedTypes.ExpectedTypeFindsHeader | src/transpiler/collections.go:655-667 | when a header is followed by no other header up to the given line, its type is the one found |
| ExpectedTypes.ExpectedTypeOfAnnotation | src/transpiler/collections.go:655-667 | from any line of a body, the search gives the base type of the header's array annotation |
| ExpectedTypes.ExpectedTypeAsWritten | src/transpiler/collections.go:655-667 | the search as written succeeds only from a non-blank line of the file, and never gives IO. With AsWrittenNeedsUnbrokenRun, AsWrittenWithoutBlanks and BlankLineStopsAsWritten: it agrees with the corrected search exactly when no blank line lies between the header and the line, and fails otherwise |
| ExpectedTypes.AsWrittenNeedsUnbrokenRun | src/transpiler/collections.go:655-667 | a successful search as written has reached a header with no header and no blank line after it up to the starting line, and gives that header's base type |
| ExpectedTypes.AsWrittenWithoutBlanks | src/transpiler/collections.go:655-667 | without blank lines between the header and the line, the search as written agrees with the corrected one |
| ExpectedTypes.BlankLineStopsAsWritten | src/transpiler/collections.go:655-667 | a blank line between the header and the line makes the search as written fail, where the corrected search finds the header's type |
| ExpectedTypes.ExpectedPattern | src/transpiler/tuple.go:463-507 | the pattern expected is the parenthesised text the search gathers, read as a tuple annotation |
| ExpectedTypes.OpenedStays | src/transpiler/tuple.go:463-507 | once a group has been read, earlier headers leave it alone: only the nearest header counts |
| ExpectedTypes.HeaderGroup | src/transpiler/tuple.go:463-507 | a header ending in a parenthesised group without nested parentheses yields that group |
| ExpectedTypes.ExpectedPatternOfHeader | src/transpiler/tuple.go:463-507 | from a body line, the search finds the pattern on the nearest header |
| ExpectedTypes.SearchReachesHeader | src/transpiler/tuple.go:463-507 | going back, the search passes over every line after the nearest header untouched |
| Scopes.CountLineNet | src/transpiler/parser.go:1593-1600 | the brace count after a line is the count before it plus the line's net number of opening braces |
| Scopes.PlainLineInMain | src/transpiler/parser.go:1593-1611 | a non-empty line without braces belongs to the scope itself exactly when the count before it is zero, so lines of inner blocks are passed over |
| Scopes.BreakAllowedIff | src/transpiler/parser.go:1861-1882 | `break` and `continue` are allowed exactly when some enclosing scope is a loop and no scope between it and the current one is global |
| Scopes.SimpleStep | src/transpiler/parser.go:1607-1905 | a one-line item only advances the scope's state; a blank line changes nothing, and every item but a blank line or a `}` is refused in the global scope |
| Scopes.DeclarationStep | src/transpiler/parser.go:1614-1634 | a declaration is parsed, then refused in the global scope |
| Scopes.VariableStep | src/transpiler/parser.go:1614-1620 | a variable declaration is refused as a global and otherwise only advances the state |
| Scopes.ArrayStep | src/transpiler/parser.go:1621-1627 | an array declaration is refused as a global and otherwise only advances the state |
| Scopes.TupleStep | src/transpiler/parser.go:1628-1634 | a tuple declaration is refused as a global and otherwise advances the state with its arity recorded |
| Scopes.AssignmentStep | src/transpiler/parser.go:1669-1696 | an assignment is refused in the global scope and leaves the tables as they were |
| Scopes.ReturnStep | src/transpiler/parser.go:1697-1724 | a returned value is allowed only in a function's own body and leaves the tables as they were |
| Scopes.OtherStep | src/transpiler/parser.go:1861-1905 | `break`/`continue` outside a loop is an error, a macro is refused in the global scope, and a blank line changes nothing |
| Scopes.BlockHeader | src/transpiler/parser.go:1725-1860 | a loop line gives a loop header and any other block line a selection; an `else` or `else if` not right after a nested scope is an error |
| Scopes.ParseScope | src/transpiler/parser.go:1542-1916 | an accepted scope has its own type and at least one item, ends where its braces balance, only extends the names of its parent, imports at most "fmt", and holds only items its kind of scope allows |
| Scopes.ScopeLines | src/transpiler/parser.go:1590-1909 | the lines up to the scope's end are read in order, each only advancing the state |
| Scopes.LineStep | src/transpiler/parser.go:1590-1909 | each step reads at least one line and only advances the state |
| Scopes.AfterBlock | src/transpiler/parser.go:1725-1860 | after a block its header and nested scope are appended and the enclosing tables are those the header was read in |
| Scopes.AfterFunction | src/transpiler/parser.go:1635-1668 | after a function block the function is added to the enclosing tables and its header and body are appended |
| Scopes.FunctionBlock | src/transpiler/parser.go:1635-1668 | a function header and its body add two items, the declaration and the nested body, and the function to the enclosing tables |
| Scopes.ControlBlock | src/transpiler/parser.go:1725-1860 | an `if`, `else if`, `else` or loop block is refused in the global scope, adds its header and nested body, and leaves the enclosing tables alone |
| Render.GoType | src/transpiler/transpiler.go:30-34 | the Go type name is one non-empty word without commas; `float` becomes `float64` and every other type keeps its name |
| Render.GoTypeInjective | src/transpiler/transpiler.go:30-34 | distinct types get distinct Go names |
| Render.IntText | src/transpiler/transpiler.go:45 | the `%d` text of a number is its decimal digits, with a `-` in front when it is negative |
| Render.RenderExpression | src/transpiler/transpiler.go:14-25 | the tokens are written with single spaces between them, and no tokens give the empty text |
| Render.SpacedIsJoin | src/transpiler/transpiler.go:16-20 | the loop writes every token followed by a space, which is the joined text plus one trailing space |
| Render.ExpressionWords | src/transpiler/transpiler.go:14-25 | reading the text word by word gives the tokens back when none is empty or holds white space |
| Render.ExpressionSplits | src/transpiler/transpiler.go:14-25 | splitting the text on single spaces gives the tokens back when none holds a space |
| Render.RenderDeclaration | src/transpiler/transpiler.go:27-38 | a declaration is exactly `var <name> <Go type>  = ` (two spaces before `=`) followed by the expression's text |
| Render.DeclarationExample | src/transpiler/transpiler.go:27-38 | `let a: int = 0` is written `var a int  = 0`, as in the repository's example Go output |
| Render.DeclarationWords | src/transpiler/transpiler.go:27-38 | read word by word, a declaration is `var`, the name, the Go type, `=` and the expression's tokens |
| Render.RenderAssignment | src/transpiler/transpiler.go:118-124 | an assignment is written `<name> = ` followed by the expression's text |
| Render.AssignmentWords | src/transpiler/transpiler.go:118-124 | read word by word, an assignment is the name, `=` and the expression's tokens |
| Render.RenderArrayAssignment | src/transpiler/transpiler.go:126-132 | an array assignment is written `<name> = ` followed by the value's text |
| Render.RenderArrayDeclaration | src/transpiler/transpiler.go:40-55 | an array declaration can be written exactly when its type has a first dimension; otherwise the source indexes out of range |
| Render.ArrayDeclarationWords | src/transpiler/transpiler.go:40-55 | read word by word, an array declaration is `var`, the name, `[size]type` as one word, `=` and the value's words |
| Render.ElementListIsJoin | src/transpiler/transpiler.go:67-72 | the element loop writes the element texts with ", " between them |
| Render.RenderArrayValue | src/transpiler/transpiler.go:57-75 | an array value is `[<length>]<type>{` then the element texts joined by ", " then `}` |
| Render.ArrayValueElements | src/transpiler/transpiler.go:57-75 | the text between the braces splits on ", " into the element texts when none holds a comma, so each element is written once and in order |
| Render.RenderParameter | src/transpiler/transpiler.go:83-88 | a parameter is written as its name, a space and its Go type |
| Render.RenderFunctionAsWritten | src/transpiler/transpiler.go:77-101 | as written, the header puts the parameters one after the other with nothing between them |
| Render.ParameterListIsConcat | src/transpiler/transpiler.go:82-89 | the parameter loop writes the parameter texts one after another |
| Render.HeaderInjective | src/transpiler/transpiler.go:77-101 | two headers of the same name and return type are equal exactly when their parameter texts are |
| Render.RenderFunction | src/transpiler/transpiler.go:77-101 | the corrected header starts `func <name>(` and ends `) <return type> {` |
| Render.FunctionParameters | src/transpiler/transpiler.go:82-89 | with ", " between parameters the list splits back into the parameter texts, in order, when no name holds a comma |
| Render.ConcatIsJoin | src/transpiler/transpiler.go:82-89 | texts written one after another are the texts joined by ", " exactly when there is at most one |
| Render.AsWrittenAgrees | src/transpiler/transpiler.go:82-89 | the header as written equals the corrected one exactly when the function has at most one primitive parameter |
| Render.ParametersRunTogether | src/transpiler/transpiler.go:82-89 | as written, `f(a int, b int) int` comes out as `func f(a intb int) int {` |
| Render.ParametersSeparated | src/transpiler/transpiler.go:77-101 | corrected, the same function comes out as `func f(a int, b int) int {` |
| Render.RenderSelection | src/transpiler/transpiler.go:103-116 | a selection starts with `if `, `} else if ` or `} else ` as its kind says, and ends with ` {` |
| Render.SelectionWords | src/transpiler/transpiler.go:103-116 | read word by word, a selection is its keywords, the condition's tokens and `{` |
| Render.RenderItems | src/transpiler/transpiler.go:134-150 | the text of a non-empty list of items ends with a newline |
| Render.RenderScope | src/transpiler/transpiler.go:134-150 | the text of a non-empty scope ends with a newline |
| Render.RenderItemsAppend | src/transpiler/transpiler.go:134-150 | the text of two lists of items one after the other is the text of the first then the text of the second |
| Render.ItemLines | src/transpiler/transpiler.go:137-147 | there is one line per item, and it is the item's own text |
| Render.RenderItem | src/transpiler/transpiler.go:134-150 | declarations, assignments, function headers, returned expressions (after `return `), selections, closers and nested scopes are written by the model with their own prefixes and endings; every other kind is written by the `other` parameter |
| Render.OwnTextIgnoresOther | src/transpiler/transpiler.go:134-150 | the text of an item the model writes itself, other than a nested scope, does not depend on `other` |
| Render.ScopeLines | src/transpiler/transpiler.go:134-150 | when no item's text holds a newline, splitting the scope's text on newlines gives one line per item, in order, and an empty last piece |
| Render.ItemsAreJoin | src/transpiler/transpiler.go:134-150 | the scope's text is the item lines joined by newlines with a final newline |
| Target.Stripped | src/transpiler/scoping.go:123 | every line loses its comment and there are as many lines as before |
| Target.ReadProgram | src/transpiler/scoping.go:104-128 | a program is read exactly when its global scope parses and declares `main`; the program carries that scope, its imports, which are at most "fmt", and its tuple arities |
| Target.ListingSize | src/transpiler/scoping.go:132-150 | a listing of a set without repeats has as many entries as the set has members |
| Target.LinesSplit | src/transpiler/scoping.go:137-140 | newline-terminated lines split on newlines give the lines back and an empty last piece |
| Target.ImportLineInjective | src/transpiler/scoping.go:138 | different libraries get different import lines |
| Target.ImportLines | src/transpiler/scoping.go:137-140 | there is one import line per library, in the given order |
| Target.Assemble | src/transpiler/scoping.go:130-155 | the Go file is the package clause and a blank line, then the import section, then the tuple section, then a newline and the text of the global scope |
| Target.TuplesOnce | src/transpiler/scoping.go:142-150 | the tuple section is one block per tuple arity in use, each the arity's code and a blank line, each arity exactly once and no other |
| Target.ImportsOnce | src/transpiler/scoping.go:132-140 | the import section has exactly one line per imported library, each library once, and nothing else |

## Left out

- Reading the source file, the `check` helper for I/O errors (src/transpiler/scoping.go:40-44), and the command-line programs. These are file and process I/O. `Target.ReadProgram` takes the file's lines as input.
- The order in which Go walks the `imports` and `tupleImports` maps (src/transpiler/scoping.go:137, 147). Go leaves it unspecified. `Target.Assemble` takes the order as a listing of each set.
- `generateTupleCode`, `illegalNames` and `ArrayExpression.transpile` are not part of this model. The code for a tuple arity and the text of the items they would write are parameters of `Target.Assemble` and `Render.RenderItem`, and the reserved names are the `illegal` parameter of every parser that declares a name.
- Rendering of macros, loops, `break`, tuple items, array-element assignments and array-valued returns goes through the same `other` parameter, for the same reason.
- `typeOfItem` (src/transpiler/parser.go:1525-1540) uses Go reflection. The model checks the item's datatype constructor instead.
- `parseIfStatement` (src/transpiler/parser.go:1143-1172), `getScopeType` (src/transpiler/parser.go:1307-1321) and `checkBrackets` (src/transpiler/parser.go:491-514) are never called by the live code.
- `isTupleIndexing` (src/transpiler/tuple.go:418-448) and `transpileTupleIndexing` (src/transpiler/tuple.go:450-461) are modelled by `TuplePatterns.IsTupleIndexing` and `TuplePatterns.TranspileTupleIndexing`, but the live code never calls them either. `Expression.transpile` (src/transpiler/transpiler.go:14-25) writes a tuple index `t.1` as it was read, and so does `Render.RenderExpression`.
- `parseArrayValue` (src/transpiler/collections.go:204-276) is called only by itself. Array literals are read by `parseBaseArray`, which is modelled.
- `checkStringVal`, `checkBoolVal` and `checkByteVal` (src/transpiler/types.go:437-460) have no members of their own. Where `getValType` calls them, only the byte check's length test can fail, and `Types.GetValType` includes it.
- `parseScopeCloser` (src/transpiler/parser.go:1507-1523) has no member of its own. Its lone-`}` check is part of `Scopes.OtherStep`.
- Lexer.Tokenize: its own contract states the success side. The error cases are stated for every scan state by `Lexer.StepOperator`, `Lexer.StepBracket`, `Lexer.StepErrorEndsScan` and `Lexer.EndOfScan`. For whole inputs they are stated only when everything before the fault is words, literals, brackets and operators, each followed by a space (`Lexer.UnpairedOperatorRejected` and the lemmas after it).
- Scopes.OtherStep: `parseBreak` (called at src/transpiler/parser.go:1862) is not part of this model, so its own checks of the line are not modelled. Every `break` or `continue` line is accepted as written, and only the check for an enclosing loop (src/transpiler/parser.go:1864-1880) can refuse it.
- Strings are sequences of characters, while Go indexes bytes. Text outside ASCII is not modelled.
- Go's 64-bit integers appear only where they matter: dimension sizes and `strconv.Atoi` clamp at the signed 64-bit limit. Lengths and line numbers are unbounded.
- The exact wording of error messages is not part of any contract.
- Error lines follow three conventions. The one-line parsers (expressions, statements, line kinds, tuple patterns) carry the 0-based line index they are given. The source prints that index plus one for some of these panics (src/transpiler/parser.go:176, 190, 202) and the bare index for others (src/transpiler/parser.go:206, 222). The scope walk and the bracket checks carry the line number the source prints. Panics that print no line carry line 0 when they are raised outside any line (src/transpiler/scoping.go:80, src/transpiler/scoping.go:127, src/transpiler/collections.go:666). Inside a helper that is handed a line they carry that line (src/transpiler/collections.go:88, src/transpiler/collections.go:147).
- Scopes.ParseScope: reads returned array literals with the corrected `ExpectedTypes.ExpectedType` described under Findings. It passes over a blank line between a function header and a returned array literal, where src/transpiler/collections.go:655-667 panics. Its contract describes the corrected behaviour.
- Scopes.ReturnStep: the step that calls the corrected `ExpectedTypes.ExpectedType`, with the same difference as `Scopes.ParseScope`.
- Target.ReadProgram: reads the global scope with `Scopes.ParseScope`, with the same difference.
- Render.RenderItem: writes function headers with the corrected `Render.RenderFunction` described under Findings. It puts `, ` between parameters, where src/transpiler/transpiler.go:82-89 puts nothing. Its contract describes the corrected text.
- Render.RenderItems: writes each item with `Render.RenderItem`, with the same difference.
- Render.RenderScope: writes a scope with `Render.RenderItems`, with the same difference.
- Target.Assemble: writes the global scope with `Render.RenderScope`, with the same difference.
- Expressions.ParseExpression and the other expression functions return an error once their `fuel` runs out, and `Scopes.ParseScope` once its `depth` runs out. The source has no such limit, so their contracts hold for every input only up to those bounds.
- `Render.RenderArrayDeclaration` takes the text of the value as a parameter, because that text comes from `ArrayExpression.transpile`.
- `Render.RenderArrayValue` writes the elements of a one-dimensional value. The children of a nested value are never filled in by the live code, since `parseArrayValue` is unused.

## Findings

| source | as written | input that shows it | evidently intended | confidence | as-written member | corrected member |
|---|---|---|---|---|---|---|
| src/transpiler/collections.go:655-667 | `findExpectedType` reads the first word of every line it walks back over, so a blank line between the function header and the returned array line is an index error | lines `function f() -> int[2] = {`, an empty line, `[1, 2]`, `}`; the search from `[1, 2]` stops at the empty line | pass over blank lines, as `findExpectedPattern` does (src/transpiler/tuple.go:469-471), and return the header's base type `int` | high (not executed) | ExpectedTypes.ExpectedTypeAsWritten, ExpectedTypes.BlankLineStopsAsWritten | ExpectedTypes.ExpectedType, ExpectedTypes.ExpectedTypeFindsHeader |
| src/transpiler/transpiler.go:82-89 | the parameter loop writes each `name type` with nothing between them | `function f(a: int, b: int) -> int` is written `func f(a intb int) int {` | separate parameters with `, ` to give `func f(a int, b int) int {` | high (not executed) | Render.RenderFunctionAsWritten, Render.ParametersRunTogether | Render.RenderFunction, Render.ParametersSeparated, Render.FunctionParameters |
