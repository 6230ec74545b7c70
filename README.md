# pylox in Dafny

A verified model of the core of pylox, an early tree-walking interpreter for
the Lox language written in Python. The model covers these parts:

- **Lexer** (`lexer.dfy`): the character-by-character scanner. It is a class
  whose cursor methods (`Advance`, `Match`, `SkipDigits`, …) update
  `start`/`current`/`line`/`tokens` in place. Each method is proved equal to
  a pure step function (`ScanTokenSpec`, `ScanFrom`, `Lex`). Lemmas state
  what every kind of lexeme produces: an operator, a comment, whitespace, a
  word or keyword, a number, a closed or an unfinished string, or an
  unexpected character.
- **Parser** (`parser.dfy`, `parser_grammar.dfy`): the recursive-descent
  expression parser with its shared binary-level helper. It is a class over
  a token list and a cursor, proved equal to pure production functions.
  `parser_grammar.dfy` proves the round trip: parsing the flattened token
  list of any well-formed tree gives that tree back. It also proves left
  associativity, precedence and nested unary operators as consequences.
- **Resolver** (`resolver.dfy`): the static pass over a stack of scopes.
  It handles declare/define, the "already declared" and "read in its own
  initializer" errors, binding depth and slot, and "unused variable"
  reports at scope end. Each visit method is proved equal to a pure
  function, and every visit keeps the scope stack's shape.
- **Environment** (`environment.dfy`): the chain of name→value frames. It
  distinguishes the uninitialised sentinel and the two different runtime
  error classes that `get` and `assign` raise.
- **Interpreter** (`interpreter.dfy`): evaluation of literals, groupings,
  unary, binary and ternary expressions, and of expression and print
  statements. This includes Python truthiness and equality
  (`True == 1.0`), the `+` coercions between strings and numbers, division
  by zero, and `interpret`'s catch of its module-local error class only.
- **Callables and classes** (`objects.dfy`): `LoxFunction` (positional
  binding of arguments into a fresh frame over the closure), `LoxClass` and
  `LoxInstance` (fields shadow methods).
- **Printers** (`ast_printer.dfy`, `rpn.dfy`): the prefix printer
  (`parenthesize`) and the test file's reverse-Polish printer. Both take the
  literal's nil test as a parameter. `EqualsZero`, the source's
  `value == 0`, is the test the modelled visitors use, and `IsNone` is the
  intended one.
- **Code generator** (`ast_generator.dfy`): the text generator for the AST
  dataclasses. It is modelled over strings, with its `IndexError` on
  malformed definitions.
- **Front end** (`pylox.dfy`): the error excerpt and caret arithmetic of
  `ErrorReporter.__report`, and the exit codes of `run`, `run_file` and
  `run_prompt`.

`pystr.dfy` gives the Python string builtins the source relies on (slicing
with clamping, `find`/`rfind`, `split`/`join`, `strip`, `lower`, repetition)
with their own contracts. `errors.dfy` says which Python exception class
escapes an operation.

Values outside the program are parameters:

- `toNumber: string -> Option<real>` stands for Python's `float(str)` in the
  `+` coercion.
- `show: real -> string` stands for `str(float)` in the printers.
- `execute: (seq<Stmt>, seq<Frame<Value>>) -> BodyOutcome` stands for the
  interpreter's block executor, which a function call hands its body and
  its new frame chain to.

## Model

| member | source | states |
|---|---|---|
| Lexer.Lexer.Scan | pylox/lexer.py:108-118 | the scanning loop leaves the lexer in the state `ScanFrom` computes from the old state, and returns exactly the token list |
| Lexer.Lexer.ScanToken | pylox/lexer.py:120-226 | one scanning step changes the lexer state exactly as `ScanTokenSpec` says |
| Lexer.Lexer.OneOrTwoToken | pylox/lexer.py:161-180 | `!`, `=`, `<`, `>` become the two-character kind when `=` follows and the one-character kind otherwise |
| Lexer.Lexer.ScanString | pylox/lexer.py:191-200 | a string literal runs to the next quote or to the end of the source |
| Lexer.Lexer.SkipToQuote | pylox/lexer.py:192-196 | the cursor stops at the first quote at or after it; reaching the end adds exactly one "Unfinished string" report spanning from the opening quote to the end |
| Lexer.Lexer.ScanNumber | pylox/lexer.py:204-212 | a number lexeme is digits with an optional fraction, and the token carries its exact value |
| Lexer.Lexer.SkipNumber | pylox/lexer.py:205-210 | the cursor ends where `NumberEnd` says, past the integer digits and a `.` only when a digit follows it |
| Lexer.Lexer.SkipDigits | pylox/lexer.py:205-206 | the cursor ends at the first non-digit at or after it |
| Lexer.Lexer.ScanWord | pylox/lexer.py:214-223 | a word is the maximal run of alphanumerics, classified by the keyword table |
| Lexer.Lexer.SkipComment | pylox/lexer.py:186-188 | a `//` comment runs up to the next newline or the end, without consuming the newline |
| Lexer.Lexer.AddToken | pylox/lexer.py:243-246 | appends one token whose lexeme is `source[start..current]` and whose position is (line, start, current) |
| Lexer.Lexer.Advance | pylox/lexer.py:251-253 | returns the current character and moves the cursor one place |
| Lexer.Lexer.Match | pylox/lexer.py:255-262 | consumes the next character exactly when it exists and equals the expected one |
| Lexer.Lexer.Peek | pylox/lexer.py:264-267 | the character under the cursor, NUL at the end; the scanning methods' contracts rest on it |
| Lexer.Lexer.PeekNext | pylox/lexer.py:269-272 | the character after the cursor, NUL past the end; Lexer.Lexer.SkipNumber's contract rests on it |
| Lexer.CharEnd | pylox/lexer.py:186-196 | returns the first occurrence of the character at or after `i`, or the end, with no occurrence before it: where a `//` comment (`\n`) and a string (`"`) stop |
| Lexer.DigitsEnd | pylox/lexer.py:205-210 | returns the end of the maximal digit run starting at `i` |
| Lexer.WordEnd | pylox/lexer.py:215-216 | returns the end of the maximal alphanumeric run starting at `i` |
| Lexer.ScanFromRun | pylox/lexer.py:108-118 | a whole run only appends tokens and reports, each token's lexeme is its source span, and the error flag is set exactly when an "Unexpected character" report was added |
| Lexer.LexTokens | pylox/lexer.py:108-118 | the token list ends with exactly one EOF, every lexeme is the source text at its position, and `had_error` holds iff an "Unexpected character" was reported |
| Lexer.OperatorToken | pylox/lexer.py:161-180 | an operator character appends one token of the one- or two-character kind, with the matching lexeme and cursor, and changes nothing else |
| Lexer.CommentSkipped | pylox/lexer.py:183-188 | `//` adds no token and moves the cursor to the end of the line |
| Lexer.WhitespaceSkipped | pylox/lexer.py:150-158 | blanks add no token, and only a newline advances the line counter |
| Lexer.WordToken | pylox/lexer.py:214-223 | a word token spans a maximal alphanumeric run; a keyword gets its kind and no literal, any other word is an identifier carrying its own text |
| Lexer.NumberToken | pylox/lexer.py:204-212 | a number token is a digits[.digits] lexeme, maximal, whose literal is its decimal value |
| Lexer.ClosedStringToken | pylox/lexer.py:191-200 | a closed string yields one String token whose literal is the text between the quotes, with no report |
| Lexer.UnfinishedStringToken | pylox/lexer.py:191-200 | an unterminated string reports "Unfinished string" and still yields a token with the sliced literal |
| Lexer.UnexpectedCharacter | pylox/lexer.py:224-226 | any other character adds no token, one report at its position, and sets the error flag |
| Parser.Parser.Parse | pylox/parser.py:41-45 | returns the parse of the whole token list (`ParseTokens`), and returns None exactly when one error was reported |
| Parser.Parser.Expression | pylox/parser.py:93-94 | `__expression` is `__equality`: it leaves the result, the cursor and the reports exactly as the lowest binary level's production function says |
| Parser.Parser.BinaryExpression | pylox/parser.py:79-91 | one operand followed by a loop of (operator of this level, operand of the next level) yields the left-nested tree the production function gives, with the same cursor and reports |
| Parser.Parser.OperatorThenOperand | pylox/parser.py:84-90 | consumes an operator of the level iff one is next, then parses the operand of the next level |
| Parser.Parser.OperatorLoop | pylox/parser.py:86-89 | the `while self.__match(...)` loop, from a parsed left operand, ends with the left-nested tree, cursor and reports of the loop's production function; the first failing operand stops it with no tree |
| Parser.Parser.Operand | pylox/parser.py:84-89 | the operand callback a level hands `__binary_expression` (the next binary level, or `__unary` below `__factor`) gives the result, cursor and reports of that level's production function |
| Parser.Parser.Unary | pylox/parser.py:121-128 | `!`/`-` prefixes nest around the next unary, otherwise a primary |
| Parser.Parser.Primary | pylox/parser.py:130-148 | literals become Literal nodes, `(` starts a grouping, anything else reports "Expect expression." at the current token |
| Parser.Parser.Group | pylox/parser.py:143-146 | a grouping needs a closing `)`, else it reports at the offending token |
| Parser.Parser.Consume | pylox/parser.py:155-166 | returns and passes the expected token, or leaves the cursor and adds one report at the current token |
| Parser.Parser.Error | pylox/parser.py:150-153 | adds one report at the token's position |
| Parser.Parser.Advance | pylox/parser.py:59-63 | moves past the current token unless it is EOF, and returns the previous token |
| Parser.Parser.Previous | pylox/parser.py:51-53 | the token before the cursor, the last token at index 0 as Python's `[-1]`; Parser.Parser.Advance's contract uses it |
| Parser.Parser.IsAtEnd | pylox/parser.py:55-57 | the current token is EOF; Parser.Parser.Check and Parser.Parser.Advance state its effect |
| Parser.Parser.Check | pylox/parser.py:65-69 | holds iff the current token has the kind and is not at EOF |
| Parser.Parser.Match | pylox/parser.py:71-77 | consumes the current token iff its kind is one of the given ones |
| Parser.ParseBinary | pylox/parser.py:79-119 | the parse never passes the first EOF and always consumes a token when it succeeds |
| Parser.ParseUnary | pylox/parser.py:121-128 | never passes the first EOF; success consumes at least one token |
| Parser.ParsePrimary | pylox/parser.py:130-148 | never passes the first EOF; success consumes at least one token |
| ParserGrammar.OperatorLevel | pylox/parser.py:93-119 | the operator lists of the four binary levels are exactly the kinds of each precedence level, and EOF is in none |
| ParserGrammar.ParseFlatten | pylox/parser.py:4-14 | parsing the tokens of any well-formed expression tree, followed by EOF, gives that tree back |
| ParserGrammar.LeftAssociative | pylox/parser.py:79-91 | `a op b op c` at one level parses as `(a op b) op c` |
| ParserGrammar.Precedence | pylox/parser.py:93-119 | a tighter operator on the right binds first, and otherwise the tree nests to the left |
| ParserGrammar.UnaryNests | pylox/parser.py:121-128 | `op op x` parses as `op (op x)` |
| ParserGrammar.FlattenNoEof | pylox/parser.py:41-45 | a flattened tree contains no EOF, so the parser sees the whole expression |
| Resolver.Resolver.BeginScope | pylox/resolver.py:44-45 | pushes an empty scope |
| Resolver.Resolver.EndScope | pylox/resolver.py:47-54 | pops the innermost scope and reports every unused variable in declaration order |
| Resolver.Resolver.Declare | pylox/resolver.py:56-68 | declares the name in the innermost scope at the next slot, reporting a redeclaration |
| Resolver.Resolver.Define | pylox/resolver.py:70-74 | marks the name defined in the innermost scope |
| Resolver.Resolver.ResolveLocal | pylox/resolver.py:76-84 | records the distance and slot of the nearest declaring scope and marks it used |
| Resolver.Resolver.ResolveExpr | pylox/resolver.py:115-193 | `resolve_expr` (pylox/resolver.py:41-42) with the expression visitors leave the resolver in the state the pure pass `ResolveExprF` gives: literals change nothing, operands and ternary parts are resolved left to right, an assignment resolves its value before binding its name, a call resolves its arguments in order and then the callee, a set resolves its value before its object; Resolver.ScopeStep and Resolver.ResolveExprF state that the scope stack keeps its shape |
| Resolver.Resolver.VisitVariableExpr | pylox/resolver.py:106-113 | reports a read in the variable's own initializer, then resolves it locally |
| Resolver.Resolver.VisitCallExpr | pylox/resolver.py:140-143 | resolves the arguments, then the callee |
| Resolver.Resolver.VisitFunctionExpr | pylox/resolver.py:125-131 | declares the parameters in a fresh scope, resolves the body, closes the scope |
| Resolver.Resolver.DeclareParams | pylox/resolver.py:127-129 | declares and defines each parameter in order |
| Resolver.Resolver.VisitVarStmt | pylox/resolver.py:99-104 | declares the name, resolves the initializer, then defines |
| Resolver.Resolver.VisitBlockStmt | pylox/resolver.py:94-97 | resolves the statements in a scope of their own |
| Resolver.Resolver.VisitFunDefStmt | pylox/resolver.py:119-123 | declares and defines the name before resolving the function, so it may recurse |
| Resolver.Resolver.VisitClassStmt | pylox/resolver.py:183-186 | declares and defines the class name and resolves it as used |
| Resolver.Resolver.ResolveStmt | pylox/resolver.py:34-35 | dispatches one statement to its visit method |
| Resolver.Resolver.ResolveStmts | pylox/resolver.py:37-39 | resolves the statements in order |
| Resolver.ResolveExprF | pylox/resolver.py:41-42 | resolving an expression leaves the scope stack with the same shape |
| Resolver.FunctionF | pylox/resolver.py:125-131 | a function visit leaves the scope stack with the same shape |
| Resolver.BlockStmtF | pylox/resolver.py:94-97 | a block visit leaves the scope stack with the same shape |
| Resolver.ResolveStmtsF | pylox/resolver.py:37-39 | a statement list only adds names to the innermost scope and keeps the outer scopes' shape |
| Resolver.Nearest | pylox/resolver.py:76-84 | the depth found names a scope that declares the key |
| Resolver.NearestSpec | pylox/resolver.py:76-84 | the depth is d iff scope d from the top declares the name and no scope nearer the top does |
| Resolver.NearestNone | pylox/resolver.py:76-84 | there is no binding iff no scope declares the name |
| Resolver.LocalBinding | pylox/resolver.py:76-84 | the binding recorded is (distance, slot) of the nearest declaring scope, that variable becomes used, and nothing is reported |
| Resolver.LocalUnbound | pylox/resolver.py:76-84 | a name no scope declares is left to the globals: nothing changes |
| Resolver.TopLevelIsGlobal | pylox/resolver.py:56-74 | at top level, declare, define, a variable read and a `var` statement change nothing |
| Resolver.DuplicateReported | pylox/resolver.py:56-68 | a redeclaration is reported iff the name is already in the innermost scope; the new entry is undefined, unused, at the next slot |
| Resolver.FreshNameTop | pylox/resolver.py:56-74 | declaring and defining a fresh name appends it to the innermost scope as defined, unused, at the next slot |
| Resolver.ParamSlots | pylox/resolver.py:125-131 | distinct parameters occupy slots 0, 1, … in order, all defined |
| Resolver.InitializerRead | pylox/resolver.py:106-113 | reading a variable reports an error iff it is declared but not yet defined in the innermost scope |
| Resolver.UnusedReportsExact | pylox/resolver.py:47-54 | scope end reports exactly the unused variables, at their declaring tokens |
| Resolver.ClassNeverUnused | pylox/resolver.py:183-186 | in any local scope, whether or not the name was already declared there, a class name is bound at depth 0 and its own slot, and is never reported as unused |
| Resolver.ScopeStep | pylox/resolver.py:44-54 | begin and end scope around a visit restore the shape of the scope stack |
| Environments.Environment.Get | pylox/environment.py:27-42 | lookup walks the enclosing chain to the innermost frame holding the name |
| Environments.Environment.Assign | pylox/environment.py:44-59 | assignment rebinds the innermost frame holding the name, or fails and changes nothing |
| Environments.Environment.Define | pylox/environment.py:23-25 | binds the name in this frame only, uninitialised by default |
| Environments.Environment.Chain | pylox/environment.py:14-21 | no source method of its own: it returns the frame list that the `values` and `enclosing` attributes define, innermost first (the executable form of `Frames()`), which a call hands to the block executor |
| Environments.LookupInnermost | pylox/environment.py:27-42 | the innermost frame with the name decides: its value, or "Uninitialized variable" for the sentinel |
| Environments.LookupUnbound | pylox/environment.py:38-42 | a name in no frame raises the builtin RuntimeError "Undefined variable" |
| Environments.AssignInnermost | pylox/environment.py:44-59 | assignment changes exactly the innermost frame holding the name |
| Environments.AssignUnbound | pylox/environment.py:55-59 | assigning a name in no frame raises the Lox runtime error "Undefined variable" |
| Environments.AssignThenLookup | pylox/environment.py:27-59 | a successful assignment is seen by the next lookup |
| Environments.DefineThenLookup | pylox/environment.py:23-42 | a definition in the innermost frame is seen by the next lookup, or reported as uninitialised |
| Interpreter.Interpreter.Interpret | pylox/interpreter.py:28-34 | statements run in order; the first interpreter runtime error is reported once and stops the run, and other errors escape |
| Interpreter.Interpreter.ExecuteStmt | pylox/interpreter.py:145-149 | an expression statement prints nothing; a print statement appends the printed value; an error changes nothing |
| Interpreter.IsTruthy | pylox/interpreter.py:52-55 | `__is_truthy`; stated by Interpreter.Falsy |
| Interpreter.IsEqual | pylox/interpreter.py:57-58 | `__is_equal` as Python `==` on Lox values; stated by Interpreter.EqualityLaws |
| Interpreter.UnaryOp | pylox/interpreter.py:69-79 | `visit_unary_expr` on an evaluated operand; stated by Interpreter.NegateNeedsNumber and Interpreter.NotNegatesTruthiness |
| Interpreter.BinaryOp | pylox/interpreter.py:84-137 | the operator switch of `visit_binary_expr`; stated by Interpreter.NumericOperators, Interpreter.PlusCases, Interpreter.Division and Interpreter.BangEqualNegatesEqual |
| Interpreter.NumericOp | pylox/interpreter.py:90-101 | the comparisons, `-` and `*` on two numbers; stated by Interpreter.NumericResults |
| Interpreter.Add | pylox/interpreter.py:102-125 | the `+` case with its coercions: the sum, the coerced sums and the concatenation, each failure with its message; stated by Interpreter.PlusCases |
| Interpreter.Evaluate | pylox/interpreter.py:60-143 | `evaluate` and the expression visitors; stated by Interpreter.LeftOperandFirst, Interpreter.TernaryOneBranch and Interpreter.NotNegatesTruthiness |
| Interpreter.Execute | pylox/interpreter.py:145-149 | the statement visitors; Interpreter.Interpreter.ExecuteStmt is proved against it |
| Interpreter.Run | pylox/interpreter.py:28-34 | `interpret`'s loop and catch; stated by Interpreter.StopsAtFirstError and Interpreter.ReportsAtMostOnce, and Interpreter.Interpreter.Interpret is proved against it |
| Interpreter.Falsy | pylox/interpreter.py:52-55 | only nil and false are falsy; `0` and `""` are truthy |
| Interpreter.NotNegatesTruthiness | pylox/interpreter.py:69-79 | `!x` is the negated truthiness of x, and `!!x` its truthiness |
| Interpreter.NegateNeedsNumber | pylox/interpreter.py:69-79 | `-x` succeeds iff x is a number, and otherwise raises "Operand must be a number" |
| Interpreter.EqualityLaws | pylox/interpreter.py:57-58 | equality is reflexive and symmetric, transitive away from booleans, and follows Python (`true == 1`, `nil != false`) |
| Interpreter.BangEqualNegatesEqual | pylox/interpreter.py:86-89 | `!=` is the negation of `==` and fails exactly when `==` does |
| Interpreter.NumericOperators | pylox/interpreter.py:90-101 | comparisons, `-` and `*` succeed iff both operands are numbers, and raise "Both operands mus be numbers." otherwise |
| Interpreter.NumericResults | pylox/interpreter.py:90-131 | on numbers they always succeed; comparisons give booleans and arithmetic gives numbers |
| Interpreter.PlusCases | pylox/interpreter.py:102-125 | `+` succeeds exactly in the four cases; two strings give their concatenation, two numbers `l + r`, a number beside a numeric string `l + float(r)` or `float(l) + r`; an unconvertible string raises the conversion message naming that string, and any other operand pair raises the strings-or-numbers message |
| Interpreter.Division | pylox/interpreter.py:132-137 | dividing by zero raises "Do not divide by zero!", and otherwise gives the quotient |
| Interpreter.TernaryOneBranch | pylox/interpreter.py:139-143 | the ternary evaluates the condition and then exactly one branch |
| Interpreter.LeftOperandFirst | pylox/interpreter.py:81-83 | an error in the left operand is the binary expression's error |
| Interpreter.StopsAtFirstError | pylox/interpreter.py:28-34 | output is that of the statements before the first failing one, plus one report |
| Interpreter.ReportsAtMostOnce | pylox/interpreter.py:28-34 | a run reports at most one error, and none when an error escapes |
| Objects.LoxFunction.constructor | pylox/callable.py:33-36 | the arity is the number of declared parameters |
| Objects.LoxFunction.Arity | pylox/callable.py:49-50 | the arity is the number of parameters |
| Objects.LoxFunction.Call | pylox/callable.py:38-47 | arguments are bound to parameters by position in a fresh frame over the closure; too many arguments raise IndexError |
| Objects.BindPositional | pylox/callable.py:41-42 | the call frame binds exactly the first parameters, one per argument, to the arguments in order |
| Objects.ParamShadowsClosure | pylox/callable.py:39-45 | inside the body each parameter reads its argument, whatever the closure binds |
| Objects.FunctionDisplayNames | pylox/callable.py:52-53 | `<fun name>` tells function names apart |
| Objects.LoxFunction.Display | pylox/callable.py:52-53 | `<fun name>`; stated by Objects.FunctionDisplayNames and Objects.DisplaysDistinct |
| Objects.LoxClass.Display | pylox/loxclass.py:56-57 | `<class name>`; stated by Objects.DisplaysDistinct |
| Objects.LoxInstance.Display | pylox/loxclass.py:34-35 | `<instance class-name>`; stated by Objects.DisplaysDistinct |
| Objects.DisplaysDistinct | pylox/loxclass.py:34-57 | function, class and instance texts never coincide, and the class and instance texts determine the name |
| Objects.LoxClass.Arity | pylox/loxclass.py:53-54 | a class takes no arguments |
| Objects.LoxClass.Call | pylox/loxclass.py:48-51 | calling a class makes a fresh instance with no fields, whose properties are the class's methods |
| Objects.LoxInstance.Get | pylox/loxclass.py:19-28 | a field shadows a method of the same name; otherwise "Undefined property" |
| Objects.LoxInstance.Set | pylox/loxclass.py:30-32 | setting a field makes `get` return it and leaves every other property unchanged |
| AstPrinter.PrintTree | pylox/ast_printer.py:12-29 | the visitor prints the prefix form `( name child … )` with the source's `value == 0` literal test, that is `Prefix(e, show, EqualsZero)` |
| AstPrinter.Prefix | pylox/ast_printer.py:12-29 | the prefix text of a tree under a given nil test; its properties are AstPrinter.ParensBalance and AstPrinter.PrintersAgree |
| AstPrinter.LiteralTextAsWritten | pylox/ast_printer.py:28-29 | `visit_literal_expr` as written; AstPrinter.NilTestConfusesValues states what it prints for false, 0 and nil |
| AstPrinter.LiteralText | pylox/ast_printer.py:28-29 | `visit_literal_expr` with the intended `is None` test; AstPrinter.NilPrintedOnlyForNil states it |
| AstPrinter.TestsAgreeOnLiteral | pylox/ast_printer.py:28-29 | the source's test and the intended one print a literal alike exactly when it is not nil, false or 0 |
| AstPrinter.PrintersAgree | pylox/ast_printer.py:12-29 | a tree without nil, false or 0 literals prints the same under both tests |
| AstPrinter.ZeroPlusNil | pylox/ast_printer.py:19-29 | as written, `0 + nil` prints as `( + nil None )`, where the intended printer gives `( + 0.0 nil )` |
| AstPrinter.ParensBalance | pylox/ast_printer.py:12-17 | under either nil test, the printed text holds one `(` and one `)` per operator node when no lexeme or literal holds one |
| AstPrinter.NilTestConfusesValues | pylox/ast_printer.py:28-29 | as written, `false` and `0` print as "nil", and nil prints as "None" |
| AstPrinter.NilPrintedOnlyForNil | pylox/ast_printer.py:28-29 | with the intended test, "nil" is printed exactly for nil |
| Rpn.Postfix | test.py:9-19 | the postfix text of a tree under a given nil test; test.py's visitor is `Postfix(e, show, EqualsZero)`, and Rpn.PostfixIsPostOrder and Rpn.SameCharacters state its properties |
| Rpn.PostfixIsPostOrder | test.py:9-19 | under either nil test, including the source's `value == 0`, the reverse-Polish text is the post-order word list joined by spaces |
| Rpn.SameCharacters | test.py:9-19 | the prefix and postfix forms of one tree under the same nil test differ only in parentheses and their spaces |
| Rpn.PostfixPrintersAgree | test.py:9-19 | a tree without nil, false or 0 literals prints the same under both tests |
| Rpn.PostfixZeroPlusNil | test.py:9-19 | as written, `0 + nil` prints as `nil None +`, where the intended printer gives `0.0 nil +` |
| AstGenerator.GenerateAst | tool/ast_generator.py:5-42 | the generated module is the header, every type and a visitor with one method per type, or the first IndexError |
| AstGenerator.GenerateType | tool/ast_generator.py:44-54 | one dataclass per `Name: members` definition, or IndexError without a colon |
| AstGenerator.GenerateMembers | tool/ast_generator.py:56-63 | one field line per comma-separated `Type name` member |
| AstGenerator.AppendVisitMethods | tool/ast_generator.py:36-41 | appends one `visit_<name>_<base>` method per definition |
| AstGenerator.MemberNeedsName | tool/ast_generator.py:56-63 | a member fails iff it has no space, and then with IndexError |
| AstGenerator.TypeNeedsColon | tool/ast_generator.py:44-48 | a definition without a colon fails with IndexError |
| AstGenerator.AstFailsWithSomeType | tool/ast_generator.py:5-42 | generation fails iff some definition fails |
| AstGenerator.MembersRoundTrip | tool/ast_generator.py:56-63 | the member list written from any well-formed fields generates exactly those fields |
| AstGenerator.TypeRoundTrip | tool/ast_generator.py:44-54 | a well-formed definition generates the dataclass with its name, base, fields and `accept` |
| PyLox.ExcerptAsWritten | pylox/pylox.py:13-24 | `__report`'s line and indicator as written; PyLox.FirstLineClipped and PyLox.AgreeAfterFirstLine state it |
| PyLox.ExcerptOf | pylox/pylox.py:13-24 | `__report`'s line and indicator as intended; PyLox.ExcerptIsLine and PyLox.CaretsUnderSpan state it |
| PyLox.FirstLineClipped | pylox/pylox.py:14-16 | on the first line the excerpt loses its first character |
| PyLox.AgreeAfterFirstLine | pylox/pylox.py:14-24 | after the first line the reporter's arithmetic is right |
| PyLox.ExcerptIsLine | pylox/pylox.py:13-28 | the corrected excerpt is the whole source line holding the error, with no newline |
| PyLox.CaretsUnderSpan | pylox/pylox.py:24 | the indicator is spaces up to the error start and carets exactly under the span |
| PyLox.ExitCode | pylox/pylox.py:78-81 | the exit code is 65 iff a lexing error occurred, else 0 |
| PyLox.PyLox.Run | pylox/pylox.py:70-81 | run lexes the source, passes on its tokens and sets the sticky error flag |
| PyLox.PyLox.RunFile | pylox/pylox.py:45-57 | a missing file gives 66; otherwise the exit code reflects the accumulated error flag |
| PyLox.PyLox.RunPrompt | pylox/pylox.py:59-68 | every line is run in turn, the error flag is cleared after each line, and the result is 0 |
| PyLox.OneEofPerLine | pylox/pylox.py:59-68 | the prompt produces exactly one EOF token per input line |

## Left out

- Printing and console I/O: tokens, values and reports are returned as sequences instead of printed.
- Reading the file and `input()` in the front end: `run_file` takes the file's contents (None when it is missing), and `run_prompt` takes the lines up to end of input.
- Float arithmetic: numbers are exact reals. `str(float)` is the parameter `show`, and `float(str)` in `+` is the parameter `toNumber`.
- Lexer.NumberValue: the number literal's value is the exact decimal value of the lexeme, not the nearest binary double.
- `pylox/builtin.py` and `main.py` are not part of this model.
- `Interpreter.resolve` is modelled as the resolver's binding map. `Interpreter.execute_block` is the parameter `execute` of LoxFunction.Call, because the file defining it is not part of this model.
- The interpreter's visits for node kinds it does not yet implement (variables, calls, blocks, classes and the rest) are excluded by the Interpreter.Evaluable and Interpreter.Executable preconditions.
- Parser.Parser.constructor: it requires a token list that ends in EOF. The lexer always produces one (Lexer.LexTokens).
- Lexer.Lexer.Advance: it requires the cursor to be inside the source. Every caller in the source checks that first.
- PyStr.Strip and PyStr.Lower: they handle ASCII whitespace and case only.
- `Resolver.__resolve_function` is never called in the source and duplicates `visit_function_expr`, so only the latter is modelled.
- Resolver.Resolver.VisitClassStmt: the class's methods are not visited, as in the source.
- Parser.Parser.Error, Resolver.Resolver.Declare, Resolver.Resolver.EndScope, Resolver.Resolver.VisitVariableExpr and Interpreter.Interpreter.Interpret assume a reporter whose `report_parser`, `report_resolver` and `report_runtime` exist and return normally, and record each report as an entry of a `reports` list. The only reporter class in the program, `ErrorReporter` in pylox/pylox.py:8-33, defines none of them: it has only `report_lex` and the private `__report`. With that class, the first parse error, resolver report or caught runtime error would raise AttributeError out of `parse()`, the resolver or `interpret()`. The front end never builds a parser, resolver or interpreter, so that path is not reached from `run`.
- Aliasing between closures and the frames a call creates: only the new frame's own contents and its link to the closure are stated.

## Findings

| source | as written | input that shows it | evidently intended | confidence | as-written member | corrected member |
|---|---|---|---|---|---|---|
| pylox/pylox.py:14-16 | when no newline precedes the error, `line_start` is clamped to 0, and the excerpt then starts at index 1 | source `@b`, position (line 1, start 0, current 1): excerpt `b` | `line_start` is -1 on the first line, so the excerpt is the whole line `@b` with the caret under `@` | not executed | PyLox.ExcerptAsWritten (PyLox.FirstLineClipped) | PyLox.ExcerptOf (PyLox.ExcerptIsLine, PyLox.CaretsUnderSpan) |
| pylox/ast_printer.py:28-29 | the nil test is `value == 0` (here and in test.py:18-19), which is also true for `False` and `0.0`, while `None` falls through to `str(None)` | literal `false` prints `nil`, literal `0` prints `nil`, literal nil prints `None` | test `value is None` so that only nil prints as `nil` | not executed | AstPrinter.PrintTree (AstPrinter.NilTestConfusesValues, AstPrinter.ZeroPlusNil, Rpn.PostfixZeroPlusNil) | AstPrinter.LiteralText (AstPrinter.NilPrintedOnlyForNil, AstPrinter.TestsAgreeOnLiteral) |
