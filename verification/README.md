# CypLang core in Dafny

CypLang is a small French-keyword teaching language (`debfonc … finfonc`, `si … alors … sinon … finsi`,
`tantque … faire … finfaire`, `pour`, `retourner`, `ecrire`). Its C implementation has four parts:

- a hand-written lexer, which turns source text into tokens with line and column;
- a syntax tree;
- a recursive-descent parser;
- a tree-walking interpreter over a chain of variable scopes.

This project models those four parts as pure Dafny functions over immutable data, and proves what each
part guarantees.

- `Wrappers`: `Option` and `Result`.
- `Tokens`: the token kinds and tokens.
- `Lexer` (`src/lexer.c`):
  - the lexer is a value `LexerState(source, position, line, column)`;
  - reading past the end yields `'\0'`, as the C string terminator does;
  - a fatal lexing error (unterminated string or character literal) is a `Failure`.
- `Ast` (`src/ast/ast.c`, `src/frontend/ast/ast.h`):
  - every node kind is one constructor;
  - a subtree that a failed sub-parse left null is `Missing`;
  - the constructors that transform their arguments are modelled as functions.
- `Parser` (`src/frontend/parser/parser.c`):
  - each parsing function takes the tokens not yet consumed and returns the node and the tokens left;
  - an empty token sequence behaves as end of input forever.
- `Environment` and `Interpreter` (`src/interpreter.c`):
  - a scope chain is a sequence of maps, innermost first;
  - evaluation returns a value and the ordered lines written to standard output (`Printed`) and standard
    error (`Reported`);
  - statement execution takes fuel and returns `None` when a loop exhausts it.
- `LexerProofs`, `ParserProofs`, `CallProofs`, `PositionProofs`, `InterpreterProofs`: the properties relating several operations.

Some behaviours of the code are easy to miss; the model follows the code:

- Declarations do not shadow. A variable declaration of a name that an enclosing scope binds overwrites
  that outer binding, because `set_variable` searches the whole chain first. The outer binding keeps the
  new value after the block ends (`Environment.DeclarationOverwritesOuter`,
  `InterpreterProofs.BlockDeclarationOverwritesOuter`).
- The direction (`haut`/`bas`) of a `pour` loop is stored but never used (`InterpreterProofs.ForIgnoresDirection`).
- `non` is parsed as a prefix operator, but the interpreter does not handle it. It is reported and
  yields 0 (`InterpreterProofs.NonYieldsZero`).
- Columns are reported differently by token kind:
  - the `<` family and character literals report the column just after the token;
  - every other token reports its first column.
- Binary operator parsing does not propagate a failed right operand: `1 + ;` parses to a binary node whose
  right operand is `Missing`.

## Model

| member | source | states |
|---|---|---|
| Lexer.Advance | src/lexer.c:17-31 | moving past a newline starts the next line at column 1; any other character moves one column right; the position always moves by one |
| Lexer.SkipWhitespace | src/lexer.c:33-37 | only whitespace is skipped, and the cursor stops on the first non-space (or the end) |
| Lexer.CheckKeyword | src/lexer.c:39-74 | a word is an identifier exactly when it is not one of the reserved words; a word never classifies as end of input |
| Lexer.LexIdentifier | src/lexer.c:77-101 | the token is the longest run of letters, digits and `_`, its text is exactly that run, its kind is the keyword classification of the text, and it reports the starting line and column |
| Lexer.LexNumber | src/lexer.c:104-124 | the token is the longest run of digits, kind number, text the run, reported at its first column |
| Lexer.LexString | src/lexer.c:127-155 | a successful string token holds exactly the characters between the quotes and no quote; on text without NUL it succeeds exactly when a closing quote follows |
| Lexer.LexCharacter | src/lexer.c:157-181 | succeeds exactly when the character two ahead is a closing `'`; it consumes three characters and reports the column after them |
| Lexer.LexOperator | src/lexer.c:205-298 | consumes one or two characters forming an operator of the table, takes the two-character form whenever it exists (maximal munch), and reports the column after the token for `<` and the first column otherwise |
| Lexer.LexStart | src/lexer.c:190-330 | on a character that starts a token, a token other than end of input is produced and at least one character is consumed |
| Lexer.NextToken | src/lexer.c:183-340 | the end-of-input token is the only token without text, is produced only at the end of the text, and every other token consumes input |
| Lexer.TokenizeFrom | src/lexer.c:183-340 | a successful token stream ends with exactly one end-of-input token, and only that token lacks text |
| LexerProofs.InitTracks | src/lexer.c:6-14 | a fresh lexer is at line 1, column 1 of the text |
| LexerProofs.AdvanceTracks | src/lexer.c:17-31 | after each step the line and column are the line number and column of the cursor in the text |
| LexerProofs.AdvanceWhileTracks | src/lexer.c:33-37 | scanning a run keeps line and column equal to the cursor's real line and column |
| LexerProofs.NextTokenSkipsNoise | src/lexer.c:184-188 | a token is lexed from the first character after the whitespace and the unexpected characters, which are all skipped |
| LexerProofs.SpaceIsNoise | src/lexer.c:184-188 | skipping whitespace first does not change where the skipping of noise ends |
| LexerProofs.TokenPosition | src/lexer.c:183-340 | every token reports the line and column of its first character, except the `<` family and character literals (the column after the token) and strings (the line of the closing quote) |
| LexerProofs.LexStartPosition | src/lexer.c:190-330 | the same position rule, for a token lexed from its first character |
| LexerProofs.WordPosition | src/lexer.c:77-101 | a word is reported at its first character |
| LexerProofs.NumberPosition | src/lexer.c:104-124 | a number is reported at its first character |
| LexerProofs.StringPosition | src/lexer.c:127-155 | a string reports the column of its opening quote and the line of its closing quote |
| LexerProofs.CharacterPosition | src/lexer.c:157-181 | a character literal reports the position just after its closing quote |
| LexerProofs.OperatorPosition | src/lexer.c:205-298 | a `<`-family operator reports the position after it; the others report their first character |
| LexerProofs.EndOfInputRepeats | src/lexer.c:332-339 | once the end is reached, asking for another token returns the same end-of-input token |
| LexerProofs.EndLexesEof | src/lexer.c:332-339 | at the terminator the end-of-input token is produced without consuming anything |
| LexerProofs.StartLexes | src/lexer.c:190-330 | a token-starting character is lexed directly, with nothing skipped |
| LexerProofs.WordStartLexes | src/lexer.c:190-192 | a letter or `_` starts a word |
| LexerProofs.DigitStartLexes | src/lexer.c:194-196 | a digit starts a number |
| LexerProofs.QuoteStartLexes | src/lexer.c:198-200 | a `"` starts a string |
| LexerProofs.OperatorStartLexes | src/lexer.c:205-298 | `<`, `>`, `!` and `-` start an operator |
| LexerProofs.OneToken | src/lexer.c:183-340 | a text that lexes to one token exactly lexes to that token followed by end of input |
| LexerProofs.WordRoundTrip | src/lexer.c:77-101 | a word alone lexes back to itself, classified, at line 1 column 1, followed by end of input one column after it |
| LexerProofs.DigitsRoundTrip | src/lexer.c:104-124 | a digit string alone lexes back to a number token with that text |
| LexerProofs.ClosingQuoteFound | src/lexer.c:131-135 | the scan for the closing quote stops exactly on it |
| LexerProofs.QuotedRoundTrip | src/lexer.c:127-155 | a quoted text without quotes or NUL lexes to one string token holding exactly that text |
| LexerProofs.UnclosedQuoteFails | src/lexer.c:136-139 | a string without a closing quote is a fatal unterminated-string error |
| LexerProofs.LessReportsColumnAfter | src/lexer.c:209-238 | `<` alone is reported at column 2 |
| LexerProofs.GreaterReportsColumnOfStart | src/lexer.c:240-258 | `>` alone is reported at column 1 |
| Ast.MkIf | src/ast/ast.c:233-249 | the if-node constructor builds an if-node |
| Ast.IfSlotsRoundTrip | src/ast/ast.c:243-247 | the three slots read back are the condition, the then-branch and the possibly null else-branch it was built from |
| Ast.IfFromSlotsRoundTrip | src/ast/ast.c:243-247 | rebuilding an if-node from its three slots gives it back |
| Ast.MkCall | src/ast/ast.c:289-300 | the call node keeps the callee's name |
| Ast.CallIgnoresArguments | src/ast/ast.c:289-300 | two calls of the same name with different arguments build the same node |
| Ast.MkParameter | src/ast/ast.c:196-207 | a parameter keeps its name and type and starts with passing mode 0 |
| Ast.ParameterIgnoresInitializer | src/ast/ast.c:196-207 | the initializer given to a parameter has no effect on the node |
| Ast.MkBoolLiteral | src/ast/ast.c:361-371 | a boolean literal is tagged `vrai` exactly when its value is nonzero, and `faux` exactly when it is zero |
| Ast.MkFor | src/ast/ast.c:263-276 | a for-node keeps its initializer, condition, update, body and direction as given |
| Parser.Peek | src/frontend/parser/parser.c:20-26 | past the last token the current token is end of input |
| Parser.Next | src/frontend/parser/parser.c:20-26 | advancing drops the current token; at the end nothing changes |
| Parser.Match | src/frontend/parser/parser.c:28-35 | matching succeeds exactly when the current token has the kind, and then consumes exactly that token; otherwise nothing is consumed |
| Parser.Expect | src/frontend/parser/parser.c:37-46 | expecting succeeds exactly when the current token has the kind, and then consumes it |
| Parser.ParseFunctionCall | src/frontend/parser/parser.c:245-290 | a successful call parse is a call node of the given name |
| Parser.ParseArguments | src/frontend/parser/parser.c:255-276 | a successful argument list is nonempty and holds no failed argument |
| Parser.ParseIf | src/frontend/parser/parser.c:292-330 | a successful if-statement has a condition and a then-branch, and an else-branch only when one parsed |
| Parser.ParseWhile | src/frontend/parser/parser.c:332-358 | a successful while-statement has a condition and a body |
| Parser.ParseDeclaration | src/frontend/parser/parser.c:86-103 | every declaration attempt consumes input; a token that opens no declaration is a syntax error that skips exactly that token |
| Parser.ParseProgram | src/frontend/parser/parser.c:63-84 | the program node holds only declarations that parsed |
| ParserProofs.AtoiOfDigits | src/frontend/parser/parser.c:186-189 | `atoi` of a digit string is its decimal value |
| ParserProofs.AtoiDecimal | src/frontend/parser/parser.c:186-189 | printing a natural number in decimal and reading it with `atoi` gives it back |
| ParserProofs.DecimalValueOfDecimal | src/frontend/parser/parser.c:186-189 | the decimal value of the decimal spelling of a number is that number |
| ParserProofs.ParseShow | src/frontend/parser/parser.c:105-243 | printing an expression of literals, variables, prefix operators and binary operators with minimal parentheses and parsing it back gives the same tree and leaves the following tokens |
| ParserProofs.ShowParsesAt | src/frontend/parser/parser.c:109-169 | the same round trip at every precedence level |
| ParserProofs.ShowParsesToTail | src/frontend/parser/parser.c:109-169 | a printed operand followed by operators of its level is read as that operand followed by the loop over the operators |
| ParserProofs.BinaryParsesToTail | src/frontend/parser/parser.c:109-169 | a printed binary expression of a level is read back as that expression before the rest of the operator loop |
| ParserProofs.ShowParsesUnary | src/frontend/parser/parser.c:171-243 | the round trip for primary and prefix expressions, parenthesised expressions included |
| ParserProofs.PrecedenceAndAssociativity | src/frontend/parser/parser.c:109-169 | in `x op1 y op2 z` the tighter operator groups first, and operators of the same level group to the left |
| ParserProofs.LeftGrouping | src/frontend/parser/parser.c:109-169 | when the first operator binds at least as tightly, the first two operands group first |
| ParserProofs.RightGrouping | src/frontend/parser/parser.c:109-169 | when the second operator binds more tightly, the last two operands group first |
| ParserProofs.TimesBindsTighterThanPlus | src/frontend/parser/parser.c:139-169 | `2 + 3 * 4` parses as `2 + (3 * 4)` |
| ParserProofs.MinusGroupsToTheLeft | src/frontend/parser/parser.c:139-152 | `1 - 2 - 3` parses as `(1 - 2) - 3` |
| ParserProofs.TailTakesOperand | src/frontend/parser/parser.c:139-152 | an operator of the level makes the loop take the next operand of the level below as right operand |
| ParserProofs.IntLiteralParses | src/frontend/parser/parser.c:186-190 | a number token becomes an integer literal of its value |
| ParserProofs.NumberIsPrimary | src/frontend/parser/parser.c:186-190 | a number token becomes the literal of its `atoi` value and consumes one token |
| ParserProofs.OtherLiteralParses | src/frontend/parser/parser.c:192-208 | string, character, `vrai` and `faux` tokens become the matching literal |
| ParserProofs.NilParses | src/frontend/parser/parser.c:210-213 | `nil` reads as the integer literal 0 |
| ParserProofs.VariableParses | src/frontend/parser/parser.c:215-226 | a name not followed by `(` is a variable |
| ParserProofs.EmptyCallParses | src/frontend/parser/parser.c:245-290 | a name followed by `()` is a call of that name |
| PositionProofs.ExpressionIgnoresPositions | src/frontend/parser/parser.c:105-290 | two token streams with the same kinds and texts, whatever their lines and columns, parse to the same expression and leave streams that again differ only in positions |
| PositionProofs.ReadsAsPrinted | src/frontend/parser/parser.c:105-243 | any stream that reads like a printed expression followed by other tokens, whatever its positions, parses back to that expression |
| CallProofs.ArgumentListParses | src/frontend/parser/parser.c:245-290 | after the name, `(`, comma-separated arguments and `)` build a call of that name and consume everything up to the `)` |
| CallProofs.CallParses | src/frontend/parser/parser.c:215-221 | a name followed by `(`, comma-separated arguments and `)` is a call of that name, with every token up to the `)` consumed |
| CallProofs.ArgumentsParse | src/frontend/parser/parser.c:255-276 | comma-separated arguments are read back in order, and the list ends at the first token that is not a comma |
| CallProofs.FailedArgumentFails | src/frontend/parser/parser.c:258-267 | an argument that fails to parse fails the whole list, whatever parsed before it |
| CallProofs.CallWithFailedArgumentFails | src/frontend/parser/parser.c:245-290 | a call with an argument that fails to parse fails |
| CallProofs.UnclosedCallFails | src/frontend/parser/parser.c:278-285 | a call whose arguments are not followed by `)` fails where the `)` was expected |
| ParserProofs.PrefixParses | src/frontend/parser/parser.c:171-181 | `-` and `non` apply to the unary expression after them |
| ParserProofs.UnaryIsPrimary | src/frontend/parser/parser.c:171-181 | without a prefix operator a unary expression is a primary |
| ParserProofs.ParenthesisedParses | src/frontend/parser/parser.c:228-238 | a parenthesised expression followed by `)` is that expression, with the parentheses consumed |
| ParserProofs.UnclosedParenthesisFails | src/frontend/parser/parser.c:228-235 | without the `)` the primary fails where the `)` was expected |
| ParserProofs.IfParses | src/frontend/parser/parser.c:292-330 | `si c alors b finsi` parses to an if-node without else |
| ParserProofs.IfElseParses | src/frontend/parser/parser.c:292-330 | `si c alors b sinon e finsi` parses to an if-node with else `e` |
| ParserProofs.IfAfterCondition | src/frontend/parser/parser.c:292-330 | any condition followed by `alors`, a block and `finsi` gives an if-node without else |
| ParserProofs.IfElseAfterCondition | src/frontend/parser/parser.c:292-330 | any condition followed by `alors`, a block, `sinon`, a block and `finsi` gives an if-node with else |
| ParserProofs.IfNeedsAlors | src/frontend/parser/parser.c:299-302 | an if-statement whose condition is not followed by `alors` fails without consuming past the condition |
| ParserProofs.WhileParses | src/frontend/parser/parser.c:332-358 | `tantque c faire b finfaire` parses to a while-node |
| ParserProofs.WhileNeedsFinfaire | src/frontend/parser/parser.c:351-355 | without `finfaire` after the body the while-statement fails |
| ParserProofs.WhileAfterCondition | src/frontend/parser/parser.c:332-358 | after a condition and `faire`, the while-statement succeeds exactly when the body parses and is followed by `finfaire` |
| ParserProofs.JunkIsSkipped | src/frontend/parser/parser.c:86-103 | a token that opens no declaration is dropped from the program |
| ParserProofs.FirstDeclarationLeads | src/frontend/parser/parser.c:63-84 | a program starts with its first declaration, followed by the declarations after it |
| Environment.DefiningScope | src/interpreter.c:59-71 | the scope found is the innermost one binding the name; none is found only when no scope binds it |
| Environment.Lookup | src/interpreter.c:59-71 | a name reads the value of its innermost binding, and reads nothing only when no scope binds it |
| Environment.SetVariable | src/interpreter.c:73-132 | a write updates the name in the innermost scope that binds it, or in the innermost scope when none does; every other scope keeps all its bindings, and no scope is added or dropped |
| Environment.LookupIsVisible | src/interpreter.c:59-71 | walking the chain finds exactly the binding visible from the innermost scope |
| Environment.SetUpdatesVisible | src/interpreter.c:73-132 | a write changes exactly the visible binding of that name |
| Environment.SetThenLookup | src/interpreter.c:73-132 | after a write the name reads the value written |
| Environment.SetLeavesOthers | src/interpreter.c:73-132 | a write leaves every other name reading what it read before |
| Environment.DeclarationOverwritesOuter | src/interpreter.c:73-132 | writing a name bound only in the enclosing scope updates that scope and leaves the innermost one unchanged |
| Interpreter.CDiv | src/interpreter.c:402-406 | integer division truncates toward zero: the remainder has the sign of the dividend and is smaller than the divisor |
| Interpreter.ApplyBinary | src/interpreter.c:388-423 | `+`, `-` and `*` are integer arithmetic; `/` by a nonzero divisor is the quotient truncated toward zero, and by zero is reported and gives 0; each comparison gives 1 exactly when it holds and 0 otherwise; an unknown operator is reported and gives 0; nothing else is reported |
| Interpreter.ApplyUnary | src/interpreter.c:425-439 | `-` negates, `!` maps 0 to 1 and anything else to 0, and every other operator is reported and gives 0 |
| Interpreter.StrLen | src/interpreter.c:451-452 | the length counts the characters before the first NUL |
| Interpreter.EvalLiteral | src/interpreter.c:441-456 | a number is its value, `vrai` 1, `faux` 0, a character 0, and a string the number of its characters before the first NUL |
| Interpreter.CallEvents | src/interpreter.c:279-288 | a call writes to standard output exactly when it calls `ecrire` |
| Interpreter.Eval | src/interpreter.c:367-386 | an expression that does not call `ecrire` writes nothing to standard output; a null subtree is 0 and writes nothing; a variable is its innermost binding, or 0 with an undefined-variable report when no scope binds it |
| Interpreter.Exec | src/interpreter.c:181-242 | a statement adds no scope, changes no enclosing scope's names, only appends output, and never undoes a return |
| Interpreter.ExecSeq | src/interpreter.c:244-259 | once a return has been executed, no statement of the block runs |
| Interpreter.ExecBlock | src/interpreter.c:244-259 | after a block every scope has exactly the names it had before |
| Interpreter.WhileLoop | src/interpreter.c:310-321 | the loop adds no scope, changes no enclosing scope's names and only appends output |
| Interpreter.ExecFor | src/interpreter.c:323-351 | after a for loop every scope has exactly the names it had before; the loop's scope is gone |
| Interpreter.ForLoop | src/interpreter.c:335-346 | the loop adds no scope, changes no enclosing scope's names and only appends output |
| Interpreter.Guard | src/interpreter.c:336-339 | a for loop without a condition runs as if the condition were true |
| Interpreter.RunUpdate | src/interpreter.c:343-345 | the update is only evaluated: it changes no variable and only appends output |
| Interpreter.Run | src/interpreter.c:172-179 | a finished run leaves exactly the global scope, every block and loop scope having been dropped |
| InterpreterProofs.EvalRespectsLookup | src/interpreter.c:458-478 | an expression's value and output depend only on what each name reads |
| InterpreterProofs.EvaluationOrder | src/interpreter.c:388-392 | the left operand's output comes before the right operand's |
| InterpreterProofs.DivisionByZeroYieldsZero | src/interpreter.c:402-406 | dividing by zero gives 0 and its last report is the division by zero |
| InterpreterProofs.NonYieldsZero | src/interpreter.c:425-439 | `non` gives 0 and is reported as unhandled |
| InterpreterProofs.TwoPlusThreeTimesFour | src/interpreter.c:388-423 | the parsed `2 + 3 * 4` evaluates to 14 with no output |
| InterpreterProofs.EvalNum | src/interpreter.c:444-446 | a number literal evaluates to its value |
| InterpreterProofs.BinaryEvaluates | src/interpreter.c:388-393 | a binary expression evaluates its left operand, then its right one, and applies the operator to the two values; the reports come in that order |
| InterpreterProofs.ArithmeticEvaluates | src/interpreter.c:391-400 | `+`, `-` and `*` of two expressions are the sum, difference and product of their values, and write only what the operands write |
| InterpreterProofs.DivisionTruncates | src/interpreter.c:401-406 | dividing by an expression whose value is not 0 truncates toward zero: the remainder has the dividend's sign and is smaller than the divisor |
| InterpreterProofs.ComparisonEvaluates | src/interpreter.c:407-418 | a comparison of two expressions is 1 exactly when the relation holds between their values and 0 otherwise |
| InterpreterProofs.BoundVariableEvaluates | src/interpreter.c:458-467 | a bound variable evaluates to its innermost binding and reports nothing |
| InterpreterProofs.UnboundVariableYieldsZero | src/interpreter.c:473-477 | an unbound variable is reported as undefined and evaluates to 0 |
| InterpreterProofs.StringLiteralLength | src/interpreter.c:451-452 | a string literal without NUL evaluates to its length |
| InterpreterProofs.StringTokenLength | src/interpreter.c:451-452 | the text of every string token the lexer produces evaluates to its full length |
| InterpreterProofs.ReturnWithoutValue | src/interpreter.c:353-365 | a return without a value sets the return value to 0 and changes nothing else but the flag |
| InterpreterProofs.ReturnWithValue | src/interpreter.c:353-365 | a return with a value stores the value of its expression and sets the flag; only what the expression writes is added |
| InterpreterProofs.IfThenRuns | src/interpreter.c:300-303 | an `if` whose condition is nonzero runs exactly its then-branch, after the condition's output |
| InterpreterProofs.IfElseRuns | src/interpreter.c:300-306 | an `if` whose condition is 0 and that has a `sinon` runs exactly the `sinon` branch, after the condition's output |
| InterpreterProofs.IfWithoutElseSkips | src/interpreter.c:290-308 | an `if` without `sinon` whose condition is 0 only evaluates the condition |
| InterpreterProofs.ReturnSkipsBlock | src/interpreter.c:244-259 | a block entered after a return changes nothing |
| InterpreterProofs.ReturnSkipsWhile | src/interpreter.c:310-321 | a while loop entered after a return changes nothing |
| InterpreterProofs.ReturnEndsBlock | src/interpreter.c:252-254 | the statements after a return in a block are never run |
| InterpreterProofs.BlockForgetsLocals | src/interpreter.c:244-259 | a name unbound before a block is unbound after it |
| InterpreterProofs.BlockDeclarationOverwritesOuter | src/interpreter.c:261-273 | a declaration inside a block of a name bound outside changes the outer binding, which keeps the new value after the block |
| InterpreterProofs.WhileStopsOnZero | src/interpreter.c:310-321 | a while loop whose condition is 0 only evaluates the condition |
| InterpreterProofs.WhileTrueDiverges | src/interpreter.c:315-320 | `tantque 1` around a body that changes nothing never ends, whatever the fuel |
| InterpreterProofs.ForIgnoresDirection | src/interpreter.c:323-351 | a for loop runs the same whichever direction it was given |
| InterpreterProofs.ExecMonotone | src/interpreter.c:181-242 | a statement that finishes with some fuel finishes with the same result given more |
| InterpreterProofs.WhileMonotone | src/interpreter.c:310-321 | a while loop that finishes with some fuel finishes with the same result given more |
| InterpreterProofs.ForMonotone | src/interpreter.c:335-346 | a for loop that finishes with some fuel finishes with the same result given more |
| InterpreterProofs.RunMonotone | src/interpreter.c:172-179 | a program run that finishes with some fuel finishes with the same result given more |

## Left out

- `src/main.c` (file reading, the driver), `print_ast`, every `free_*` function and the exits on
  allocation failure: resource handling, not behaviour of the language.
- The source text is a sequence of bytes, and each byte is one Dafny `char`. The C counts columns and
  string lengths in bytes, so a multi-byte UTF-8 character such as `é` counts as two. The model agrees
  with the C only when a text is read byte by byte into `char`s.
- Parser.Atoi, ParserProofs.AtoiDecimal: decimal values are unbounded. C's `atoi` on a number beyond the
  range of `int` is not modelled, so the round trip holds in C only for values that fit in an `int`.
- `src/parser.c` (an older parser draft outside the core) and the intermediate representation stub.
- Floating-point literals and `TOKEN_REEL` values: the interpreter never stores or evaluates a float.
- The text of diagnostics. The interpreter's messages are `Reported` events carrying the kind of error,
  and fatal lexer errors are a `Failure` carrying the kind.
- Two kinds of diagnostic leave no trace in the model. An unexpected character is reported by the lexer,
  which then skips it (`src/lexer.c:320-326`); `Lexer.NextToken` skips it silently. The parser's syntax
  errors (`expect`, and the error at the end of `parse_primary`) only make the parse fail (`Missing`).
  Inside an operator loop they leave only a `Missing` operand.
- `ecrire`'s message: the C prints a fixed announcement and a fixed default message whatever the
  arguments. These are the two `Printed` events of `CallEvents`.
- `parse_block`, `parse_function_declaration`, `parse_variable_declaration`, `parse_statement` and
  `parse_for_statement` are declared but have no body in the source. They are parameters of the parser
  (`Parser.Grammar`).
- Parser.ParseDeclaration, Parser.ParseProgram: require `Progressive`, i.e. that the declaration parsers
  missing from the source consume at least one token. Without a body nothing else is known of them.
- `interpret_function_decl` has an empty body; a function declaration executes as a no-op.
- Lexer.CheckKeyword: the C tests the reserved words one after another. The model looks the word up in the
  `Keywords` table. The words are all distinct, so the first match is the table entry.
- Interpreter.Eval: values are unbounded integers; C `int` overflow in `+`, `-`, `*`, `/` and unary `-`
  is not modelled.
- Environment.SetVariable: only the integer branch of `set_variable` is modelled. Every caller passes
  `TOKEN_NUMBER`, so the string, character and boolean branches are never taken.
- Interpreter.Exec: an assignment whose target is a null subtree dereferences a null pointer in the C.
  The model reports it like any other non-variable target.
- Interpreter.Exec: fuel bounds the number of loop iterations. A run that exhausts it yields `None`, so
  non-termination is observable only as "no result for any fuel".
- `interpret_if_statement` reads the if-node as a three-slot block. The model keeps the three slots as
  fields of `If` (`Ast.IfSlots`).
- ParserProofs.ParseShow: the round trip covers expressions built from literals, variables, `-`, `non` and
  the binary operators. Calls are not covered, and neither are negative integer literals, which the parser
  only produces as `-` applied to a literal.
- Lexer.LexString: the success condition is stated for texts without an embedded NUL. The C stops at the
  first NUL as at the end of the text.
