# HappyScript lexer, parser and evaluator in Dafny

HappyScript is a small interpreted language. A program is made of:

- declarations such as `int x = 1;`, `float y = 2.5;` and `string s = "hi";`;
- assignments `x = e;`;
- `smile(e);`, which prints a value;
- `ana (c) s elsa s`, an if/else.

The interpreter runs three stages in sequence. `Lexer::tokenize` turns the source text into tokens. `Parser::parseProgram` builds a syntax tree by recursive descent. `Interpreter::interpret` walks the tree, keeping a map from variable names to values.

This project models those three stages and proves what each one promises.

- **`tokens.dfy`, `ast.dfy`**: the token kinds, tokens and syntax tree (`Tokens`, `Ast`). `wrappers.dfy` holds the `Result` and `Option` types. A C++ exception is a `Failure` carrying the `runtime_error` message.
- **`lexer.dfy`** (`Lexing`), in two layers:
  - A functional scanner: `Step` reads one token or skips one character, and `LexFrom` and `Tokenize` repeat it.
  - The `Lexer` class. It has the source and the `pos` field, and `Peek`, `IsAtEnd`, `Get` and `SkipWhitespace` mirror `peek`, `isAtEnd`, `get` and `skipWhitespace`.
  - Its `Tokenize` method is the scanning loop. Each of its inner loops is proved to compute what the functional scanner computes.
- **`lexer_props.dfy`** (`LexingProps`): what a scan yields for each kind of character, the shape of the token list, the only two lex errors, and a round trip. Printing renderable tokens separated by spaces and lexing the text gives the tokens back, followed by End.
- **`parser.dfy`** (`Parsing`): the parser as functions from a token list and a cursor to a result and the new cursor.
  - The five precedence levels share one function, `ParseLevel(n)`: 4 is equality, 3 comparison, 2 addition, 1 term and 0 factor.
  - `LevelLoop` is the `while` loop of each level.
- **`parser_class.dfy`** (`RecursiveDescent`): the `Parser` class, with the token list and the `pos` cursor. It has one method per C++ method, each proved to return what `Parsing` computes and to leave the cursor where `Parsing` says.
- **`parser_props.dfy`** (`ParsingProps`):
  - `consume` and `currentToken`;
  - the number conversion;
  - associativity and precedence;
  - the statement dispatch and the if/else and block rules;
  - a round trip: `Unparse` prints an expression with the fewest parentheses its precedence needs, and parsing the printed tokens gives the same tree back.
- **`interpreter.dfy`** (`Interpreting`):
  - Runtime values `Int | Float | Str`.
  - The pure `Evaluate`.
  - The statement semantics `Exec` and `Run` on a `State`, which holds the variables and the printed values.
  - The `Interpreter` class. Its `Execute` and `Interpret` methods write the variable map and the output in place, and are proved equal to `Exec` and `Run`.
- **`interpreter_props.dfy`** (`InterpretingProps`):
  - a kind checker that predicts exactly when evaluation succeeds and which kind it yields;
  - the operator table;
  - declaration coercion;
  - the effect of each statement;
  - the frame of a statement (which variables it may write);
  - how runs compose.
- **`pipeline.dfy`** (`Pipeline`): the three stages together, as `main.cpp` chains them. Every token list the lexer produces is valid parser input. The `while`, block and "Unknown variable type" throws of `execute` cannot be reached from any source text.

The functions that define each stage carry no contract of their own. The lemmas listed in the table state their properties:

- `Lexing.LexFrom` (lexer.cpp:25-100) and `Lexing.Tokenize` (lexer.cpp:21-103): `TokenizeShape`, `TokenizeFailures` and `RenderRoundTrip`.
- `Parsing.ProgramLoop` (parser.cpp:39-55) and `Parsing.ParseProgram` (parser.cpp:37-57): `ProgramCollects`, `ProgramParses`, `ProgramHasNoBlocks` and `TopDispatch`.
- `Interpreting.Apply` (interpreter.cpp:74-111): `ApplyKinds`, `PlusDispatch`, `StringsOnlyConcatenate` and `NumericOperators`.
- `Interpreting.Evaluate` (interpreter.cpp:62-115): `EvaluateKinds`, `Leaves`, `LeftThrowsFirst` and `EvaluateReads`.
- `Interpreting.Declare` (interpreter.cpp:25-41): `DeclareTable`, `DeclareValue` and `DeclareIdempotent`.
- `Interpreting.Exec` (interpreter.cpp:13-60): the effect lemmas and `ExecFrame`.
- `Interpreting.Run` (interpreter.cpp:7-11): `RunAppend`, `RunGrows` and `RunThrowsAt`.
- `Pipeline.RunSource` (main.cpp:32-45): `NoSourceReachesDeadThrows`.

Where the code and the design description disagree, the model follows the code:

- **Tokens the lexer never produces.** The lexer never produces `while`, `{`, `}`, `<`, `<=`, `>`, `>=` or `%`. The word `while` lexes as an `Identifier`. The parser still tests for all of these, so the model keeps the parser's branches for them.
- **`execute` has no loops or blocks.** A `WhileStmt` or `BlockStmt` makes `execute` throw "Unknown statement type in execute".
- **Character-literal escapes.** The lexer looks for `\` only after it has read the character after the opening quote. So `'\n'` fails as unterminated, and `'a\b'` yields `"b"`. The model keeps this behaviour (`CharEscapeAsWritten`).
- **Number literals are floats.** A number literal always evaluates to a `Float`, since `NumberExpr` stores a `double`. An `Int` comes only from `==` and `!=`, which give 1 or 0, and from a declaration with type `int`, which keeps an `Int` or truncates a `Float`.

## Model

| member | source | states |
|---|---|---|
| Lexing.Span | lexer.cpp:30 | the end of a maximal run of characters with a property: all before it have it, the one at it does not |
| Lexing.CharLiteral | lexer.cpp:44-55 | a character literal consumes input and yields one token |
| Lexing.Step | lexer.cpp:26-98 | one pass of the main loop moves `pos` forward at least one character and yields at most one token |
| Lexing.Lexer.Get | lexer.cpp:9-11 | returns the character at `pos` (NUL at the end) and advances past it, never beyond the end |
| Lexing.Lexer.SkipWhitespace | lexer.cpp:13-15 | moves `pos` to the first non-space character at or after it |
| Lexing.Lexer.ScanNumber | lexer.cpp:28-32 | the digit-and-point loop yields the Number token the functional scanner yields and stops where it stops |
| Lexing.Lexer.ScanString | lexer.cpp:33-43 | the quoted-string loop agrees with the functional scanner, error included |
| Lexing.Lexer.ScanChar | lexer.cpp:44-55 | the character-literal code agrees with the functional scanner, error included |
| Lexing.Lexer.ScanWord | lexer.cpp:56-66 | the identifier loop and keyword table agree with the functional scanner |
| Lexing.Lexer.ScanSymbol | lexer.cpp:69-97 | the operator switch agrees with the functional scanner |
| Lexing.Lexer.ScanToken | lexer.cpp:26-98 | one body of the main loop agrees with `Step` |
| Lexing.Lexer.Tokenize | lexer.cpp:21-103 | the whole scan returns what `LexFrom` computes from the first non-space character, and on success leaves `pos` at the end of the source |
| LexingProps.StepNumber | lexer.cpp:28-32 | a digit starts a maximal run of digits and points, which becomes one Number token |
| LexingProps.StepWord | lexer.cpp:56-66 | a letter starts a maximal alphanumeric run, which becomes one token of the keyword table's kind |
| LexingProps.KeywordTable | lexer.cpp:59-65 | `smile`, `int`, `float`, `string`, `ana`, `elsa` map to their kinds; `while` and every other word is an Identifier |
| LexingProps.StepString | lexer.cpp:33-43 | a `"` literal succeeds iff a closing quote follows; its text is exactly what lies between the quotes, and it contains no quote; otherwise "Unterminated string literal" |
| LexingProps.StepChar | lexer.cpp:44-55 | at every quote, including one near or at the end of the source: `'c'` yields the one-character literal `c`; a backslash is looked for only after `c`; a missing closing quote, or input that ends first, fails with "Unterminated character literal" |
| LexingProps.CharCutOff | lexer.cpp:44-54 | a character literal cut off by the end of the source fails with "Unterminated character literal" |
| LexingProps.CharEscapeAsWritten | lexer.cpp:46-53 | `'\n'` fails and `'a\b'` yields `"b"` |
| LexingProps.StepEqualsAndBang | lexer.cpp:78-95 | `==` is one DoubleEqual, a lone `=` is Equal, `!=` is BangEqual, and a lone `!` yields no token |
| LexingProps.StepSkipsUnknown | lexer.cpp:96 | an unrecognised character is skipped without a token |
| LexingProps.StepLexed | lexer.cpp:26-98 | every token of one pass is well formed for its kind: number text, word, quote-free literal or fixed spelling |
| LexingProps.LexFromWellLexed | lexer.cpp:25-100 | every token of a successful scan is well formed |
| LexingProps.TokenizeShape | lexer.cpp:101 | the token list is non-empty, ends with End with text "", has no earlier End, and all its tokens are well formed |
| LexingProps.LexFromFailures | lexer.cpp:25-100 | a scan fails only with the two unterminated-literal messages, and never fails without a quote character |
| LexingProps.TokenizeFailures | lexer.cpp:21-103 | the same for the whole of `tokenize` |
| LexingProps.InertFrom | lexer.cpp:25-100 | text of only whitespace and unrecognised characters scans to End alone |
| LexingProps.InertSource | lexer.cpp:13-15 | whitespace and unrecognised characters never produce a token |
| LexingProps.RenderFrom | lexer.cpp:25-100 | tokens printed with a space after each scan back to themselves followed by End |
| LexingProps.RenderRoundTrip | lexer.cpp:21-103 | `tokenize` of the printed tokens is those tokens followed by End |
| Parsing.ParseExpression | parser.cpp:111-113 | an expression that parses consumes at least one token |
| Parsing.ParseLevel | parser.cpp:115-166 | a precedence level that parses consumes at least one token |
| Parsing.LevelLoop | parser.cpp:117-125 | a level's operator loop never moves the cursor backwards or past the end |
| Parsing.ParseFactor | parser.cpp:169-202 | a factor that parses consumes at least one token |
| Parsing.ParseStatement | parser.cpp:240-265 | a statement that parses consumes at least one token |
| Parsing.ParseDeclaration | parser.cpp:58-75 | a declaration that parses consumes at least one token |
| Parsing.ParsePrintStmt | parser.cpp:78-85 | a print statement that parses consumes at least one token |
| Parsing.ParseAssignStmt | parser.cpp:88-95 | an assignment that parses consumes at least one token |
| Parsing.ParseIfStmt | parser.cpp:204-228 | an if statement that parses consumes at least one token |
| Parsing.IfBranches | parser.cpp:211-218 | the branches of an if consume at least one token |
| Parsing.ParseWhileStmt | parser.cpp:229-238 | a while statement that parses consumes at least one token |
| Parsing.ParseBlockStmt | parser.cpp:266-274 | a block that parses consumes at least one token |
| Parsing.BlockLoop | parser.cpp:269-272 | the statement loop of a block consumes at least one token |
| Parsing.TopStatement | parser.cpp:40-54 | one statement of the program loop consumes at least one token |
| RecursiveDescent.Parser.Consume | parser.cpp:12-18 | advances the cursor by one when the current kind is the expected one; otherwise fails with "Unexpected token: " and the text, cursor unchanged |
| RecursiveDescent.Parser.ParseExpression | parser.cpp:111-113 | returns the tree and cursor of the functional parser, or its error |
| RecursiveDescent.Parser.ParseEquality | parser.cpp:129-138 | the `==`/`!=` loop agrees with level 4 of the functional parser |
| RecursiveDescent.Parser.ParseComparison | parser.cpp:115-127 | the comparison loop agrees with level 3 |
| RecursiveDescent.Parser.ParseAddition | parser.cpp:140-151 | the `+`/`-` loop agrees with level 2 |
| RecursiveDescent.Parser.ParseTerm | parser.cpp:155-166 | the `*`/`/`/`%` loop agrees with level 1 |
| RecursiveDescent.Parser.ParseFactor | parser.cpp:169-202 | the factor agrees with level 0, number conversion and error message included |
| RecursiveDescent.Parser.ParseDeclaration | parser.cpp:58-75 | agrees with the functional declaration parser |
| RecursiveDescent.Parser.ParsePrintStmt | parser.cpp:78-85 | agrees with the functional print parser |
| RecursiveDescent.Parser.ParseAssignStmt | parser.cpp:88-95 | agrees with the functional assignment parser |
| RecursiveDescent.Parser.ParseIfStmt | parser.cpp:204-209 | agrees with the functional if parser |
| RecursiveDescent.Parser.ParseIfBranches | parser.cpp:210-224 | the then branch and optional else branch agree with the functional parser |
| RecursiveDescent.Parser.ParseWhileStmt | parser.cpp:229-238 | agrees with the functional while parser |
| RecursiveDescent.Parser.ParseStatement | parser.cpp:240-265 | agrees with the functional statement dispatch |
| RecursiveDescent.Parser.ParseBlockStmt | parser.cpp:266-274 | agrees with the functional block parser |
| RecursiveDescent.Parser.ParseProgram | parser.cpp:37-57 | returns the statement list of the functional program loop, or its error, and on success stops at End |
| ParsingProps.CurrentPastEnd | parser.cpp:6-10 | past the end of the list the current token is End with text "" |
| ParsingProps.ConsumeMoves | parser.cpp:12-18 | `consume(k)` succeeds iff the current kind is `k`, then moves exactly one token; otherwise the message is "Unexpected token: " and the text |
| ParsingProps.NumberValueOfDigits | parser.cpp:176-180 | any non-empty run of digits without a point, leading zeros included, gives its value when it fits an `int`, and the `stoi` out-of-range throw otherwise |
| ParsingProps.LeadingZeros | parser.cpp:176-180 | `007` gives 7 |
| ParsingProps.NumberValueOfNat | parser.cpp:176-180 | the decimal spelling of a natural number gives that number when it fits an `int`, and the `stoi` out-of-range throw otherwise |
| ParsingProps.FractionBound | parser.cpp:173 | the digits after a point add less than one |
| ParsingProps.StodPrefix | parser.cpp:172-175 | text with a point gives its whole part plus its fraction; anything after a second point is ignored |
| ParsingProps.NumberValueFloor | parser.cpp:170-180 | a converted number is non-negative and its whole part is what `stoi` reads |
| ParsingProps.ParsesAt | parser.cpp:111-202 | the tokens of a printed expression, followed by a token that stops the level, parse at every level to that expression |
| ParsingProps.ParseUnparse | parser.cpp:111-202 | parsing the printed tokens of an expression gives the same tree and consumes them all |
| ParsingProps.DeclarationParses | parser.cpp:58-75 | `type name = expression ;` parses to a declaration with the type keyword's kind, the identifier's text and the expression, and ends just after the `;` |
| ParsingProps.DeclarationNeedsType | parser.cpp:59-64 | a declaration that does not start with `int`, `float` or `string` fails with "Expected type declaration" |
| ParsingProps.PrintParses | parser.cpp:78-85 | `smile ( expression ) ;` parses to a print of that expression and ends just after the `;` |
| ParsingProps.PrintNeedsSemicolon | parser.cpp:78-85 | when the `)` is not followed by `;` the print statement fails on the token found there |
| ParsingProps.AssignParses | parser.cpp:88-95 | `name = expression ;` parses to an assignment of that expression to the identifier's text and ends just after the `;` |
| ParsingProps.WhileParses | parser.cpp:229-238 | `while ( expression )` takes the next statement as its body: the loop parses exactly when the body does, with that condition and body, ends where the body ends, and otherwise fails with the body's message |
| ParsingProps.IfParses | parser.cpp:204-224 | `ana ( expression )` followed by its branches parses to the if statement `IfBranches` builds from the tokens after the `)`, with the expression between the parentheses as its condition |
| ParsingProps.MinusGroupsLeft | parser.cpp:140-151 | `a - b - c` parses to `(a - b) - c` |
| ParsingProps.TimesBindsTighter | parser.cpp:140-166 | `1 + 2 * 3` parses to `1 + (2 * 3)` |
| ParsingProps.EqualityBindsLoosest | parser.cpp:129-151 | `x == 1 + 2` parses to `x == (1 + 2)` |
| ParsingProps.FirstFactorFails | parser.cpp:115-166 | if the first factor fails, every level fails with the same message |
| ParsingProps.FactorRejects | parser.cpp:198-201 | an expression starting with anything other than a number, identifier, `(` or string literal fails with the factor message |
| ParsingProps.LeadingMinusFails | parser.cpp:198-201 | `-1` fails with "Unexpected token in factor: '-' (type = 3)" |
| ParsingProps.IfTakesElse | parser.cpp:211-218 | an if gets an else branch exactly when `elsa` follows the then statement, and that branch is the statement after it |
| ParsingProps.BlockEndsAtBrace | parser.cpp:266-274 | the block loop keeps the statements already collected and ends just after a `}` |
| ParsingProps.BlockCollects | parser.cpp:268-272 | statements parsed one after another up to a `}` are exactly the statements the loop adds, and it ends just after the `}` |
| ParsingProps.BlockParses | parser.cpp:266-274 | `{`, statements parsed one after another, then `}` parse to a block of exactly those statements, ending just after the `}` |
| ParsingProps.BlockNeedsBrace | parser.cpp:269-272 | with no `}` ahead a block always fails |
| ParsingProps.BlockAtEnd | parser.cpp:269-272 | a block that reaches End fails with "Unexpected token: " |
| ParsingProps.IfShape | parser.cpp:204-228 | `parseIfStmt` builds an if statement |
| ParsingProps.BlockShape | parser.cpp:266-274 | `parseBlockStmt` builds a block |
| ParsingProps.StatementDispatch | parser.cpp:240-265 | the kind of statement built is decided by the first token, and an identifier without a following `=` fails with "Unexpected token in statement: " |
| ParsingProps.LookaheadInBounds | parser.cpp:42 | the lookahead `tokens[pos + 1]` is in bounds, because the list ends with End |
| ParsingProps.TopDispatch | parser.cpp:39-54 | at top level a type keyword declares, identifier-`=` assigns, `smile`, `ana` and `while` start their own statements, every other token (`{`, an identifier without `=`, a number, `elsa`, `;`, ...) fails with "Unexpected token: " and its text, and no block is built |
| ParsingProps.ProgramHasNoBlocks | parser.cpp:37-57 | `parseProgram` never returns a block at top level |
| ParsingProps.ProgramCollects | parser.cpp:39-55 | statements parsed one after another up to End, none a block, are exactly the statements the loop adds, in order |
| ParsingProps.ProgramParses | parser.cpp:37-57 | a token list holding such statements up to End parses to exactly that list |
| Interpreting.Truncate | interpreter.cpp:27 | the integer is the real rounded toward zero |
| Interpreting.Interpreter.Execute | interpreter.cpp:13-60 | on success the variables and output become what `Exec` gives; on a throw the message is `Exec`'s and nothing changes |
| Interpreting.Interpreter.Interpret | interpreter.cpp:7-11 | the state after the loop is that of `Run`, and the loop fails exactly when `Run` halts with a message, with that message |
| InterpretingProps.ApplyKinds | interpreter.cpp:92-111 | an operator succeeds iff the kind table allows its operand kinds, and the result has the kind the table gives |
| InterpretingProps.EvaluateKinds | interpreter.cpp:62-115 | evaluation succeeds iff the kind checker accepts the expression for the kinds of the variables, with the predicted kind |
| InterpretingProps.Leaves | interpreter.cpp:63-73 | a number evaluates to a Float, a string to itself, a bound name to its value, and an unbound name fails with "Undefined variable: " and the name |
| InterpretingProps.PlusDispatch | interpreter.cpp:87-105 | `+` concatenates two strings, fails with "Value is not a string" when exactly one operand is a string, and adds two numbers as a Float |
| InterpretingProps.StringsOnlyConcatenate | interpreter.cpp:87-100 | any operator but `+` with a string operand fails with "Cannot mix numbers and strings in arithmetic operations" |
| InterpretingProps.NumericOperators | interpreter.cpp:102-111 | on numbers `- * /` yield Floats, `==`/`!=` yield Int 1 or 0, and every other operator (`<`, `%`, ...) fails with "Unknown operator: " |
| InterpretingProps.NotEqualNegates | interpreter.cpp:109-110 | `!=` is one minus `==`, which is 0 or 1 |
| InterpretingProps.LeftThrowsFirst | interpreter.cpp:75-76 | the left operand is evaluated first, so its throw wins |
| InterpretingProps.EvaluateReads | interpreter.cpp:62-115 | evaluation depends only on the variables the expression names |
| InterpretingProps.DeclareTable | interpreter.cpp:25-41 | a declaration succeeds iff an int or float target gets a number or a string target gets a string; the stored kind is the target's; each failure has its own message |
| InterpretingProps.TruncateWhole | interpreter.cpp:27 | truncating a whole number gives it back |
| InterpretingProps.DeclareValue | interpreter.cpp:25-38 | an int target stores the truncated number, a float target the widened number, a string target the string |
| InterpretingProps.DeclareIdempotent | interpreter.cpp:25-38 | coercing an already coerced value changes nothing |
| InterpretingProps.PrintEffect | interpreter.cpp:14-17 | print appends the value to the output and leaves the variables unchanged |
| InterpretingProps.AssignEffect | interpreter.cpp:18-21 | assignment stores the value with no kind check, and no other name is added or removed |
| InterpretingProps.DeclEffect | interpreter.cpp:22-42 | a declaration stores the coerced value and prints nothing |
| InterpretingProps.IfStringCondition | interpreter.cpp:44-48 | a string condition fails with "Condition must be numeric" |
| InterpretingProps.IfTrue | interpreter.cpp:46-51 | a non-zero condition runs exactly the then branch |
| InterpretingProps.IfFalseElse | interpreter.cpp:52-54 | a zero condition runs exactly the else branch |
| InterpretingProps.IfFalseNoElse | interpreter.cpp:52-55 | a zero condition without an else branch changes nothing |
| InterpretingProps.LoopsAndBlocksThrow | interpreter.cpp:57-59 | while and block statements fail with "Unknown statement type in execute" |
| InterpretingProps.ExecFrame | interpreter.cpp:13-60 | a statement only adds or overwrites the names it targets, removes none, and prints at most one value after the earlier ones |
| InterpretingProps.RunAppend | interpreter.cpp:7-11 | running two programs in sequence is running their concatenation, stopping at the first throw |
| InterpretingProps.RunGrows | interpreter.cpp:7-11 | a run never removes a variable or a printed value |
| InterpretingProps.RunThrowsAt | interpreter.cpp:7-11 | a failed run is a successful run of a prefix followed by a statement that throws the message |
| Pipeline.LexerFeedsParser | main.cpp:33-37 | the tokens `tokenize` returns end with End, have well-formed numbers and hold no `while` or `{` |
| Pipeline.StatementExecutable | parser.cpp:240-265 | without `while` and `{` tokens, every statement parsed has a case in `execute` |
| Pipeline.IfExecutable | parser.cpp:204-228 | the same for if statements |
| Pipeline.BranchesExecutable | parser.cpp:211-218 | the same for the branches of an if |
| Pipeline.ProgramExecutable | parser.cpp:37-57 | every statement of a parsed program has a case in `execute` |
| Pipeline.EvaluateThrows | interpreter.cpp:62-115 | `evaluate` throws only its own four messages |
| Pipeline.MessagesDiffer | interpreter.cpp:39-59 | none of `evaluate`'s messages is "Unknown variable type" or "Unknown statement type in execute" |
| Pipeline.ExecutableNeverUnknown | interpreter.cpp:13-60 | a statement with a case in `execute` never throws the unknown-statement or unknown-type message |
| Pipeline.RunNeverUnknown | interpreter.cpp:7-11 | nor does a program made of them |
| Pipeline.NoSourceReachesDeadThrows | main.cpp:32-45 | no source text that lexes and parses reaches the unknown-statement or unknown-type throw |

## Left out

- The I/O of `main.cpp` is not modelled: reading the file or standard input, the banner, writing to `std::cerr`, and the exit codes. `Pipeline.RunSource` models only the `try` block. Its `Outcome` records which stage threw and the message.
- The text `std::cout << arg` writes is not modelled. The output is the sequence of printed `Value`s.
- Doubles are exact reals. IEEE rounding, infinities and NaN are not modelled.
- `Interpreting.Quotient`: a division by zero, which gives an infinity or NaN in the source, gives 0.0 here.
- Interpreting.Truncate: does not model `static_cast<int>` of a double outside the range of `int`, which is undefined behaviour in C++.
- The `Int` payload is an unbounded integer. An `Int` arises only from `==` and `!=` (1 or 0) and from an `int` declaration, which keeps an `Int` or truncates a double. Arithmetic turns both operands into doubles, so no integer arithmetic takes place and 32-bit wrap-around never arises in the operations modelled.
- The `std::stod` range error is not modelled. The value of the digits is exact.
- The `stoi` out-of-range throw is modelled with the message `"stoi"`, the text libstdc++ gives it.
- While and block execution is not modelled, because `execute` has no code for it: both throw "Unknown statement type in execute".
- The "Value is not a number" throw of `to_double` cannot be reached and is not modelled, since `to_double` is called only on numbers.
- The final "Invalid expression" throw of `evaluate` is not modelled either, because the four expression forms are matched exhaustively.
- The source is restricted to ASCII, since locale-dependent `isspace`, `isdigit` and `isalpha` on other bytes are not modelled. The `Lexer` constructor requires it.
- Token kinds are a `newtype` over the integers 0-27 with named constants, not a datatype. The parser's factor error prints `static_cast<int>` of the kind, so the enumeration's integers are part of the behaviour.
- The kinds the enumeration of `lexer.h` lacks (`while`, braces, comparisons, `%`) are numbered 20-27 after its last member.
- RecursiveDescent.Parser.Consume: requires the expected kind not to be End. The source never consumes End, and advancing past the sentinel would move the cursor off the list.
- `Lexer::peek` and `Lexer::isAtEnd` are modelled by `Lexing.Lexer.Peek` and `Lexing.Lexer.IsAtEnd`, which carry no contract of their own.
- `Parser::currentToken` is modelled by `Parsing.Current` and `RecursiveDescent.Parser.CurrentToken`; `ParsingProps.CurrentPastEnd` states its contract.
- The body of `tokenize`'s loop is split into `ScanNumber`, `ScanString`, `ScanChar`, `ScanWord` and `ScanSymbol`, one per branch, with `ScanToken` dispatching between them.
- The else part of `parseIfStmt` is `ParseIfBranches`.
- Ownership through `unique_ptr` and dispatch through `dynamic_cast` become datatypes and pattern matching.
- A null then or else branch is not modelled, because the parser never builds one.
- The commented-out code in parser.cpp (lines 22-36 and 99-110) and in interpreter.cpp (lines 121-324) is not modelled.
