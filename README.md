# IDL core in Dafny

A model of the core of IDL, a small expression language. IDL has a lexer, a recursive-descent parser, a tree-walking evaluator and a continuation-passing-style (CPS) transformer used by its compiler. The model covers four parts:

- **Character stream** (`InputStream`). The source's `RenderInputStream` becomes a class with a position, a line and a column. Its `next`, `peek`, `eof` and `term` are methods. An invariant says that line and column always describe the position.
- **Parser** (`Parser`, `ParserLemmas`). The grammar appears twice.
  - As functions over the token sequence and a position. Each function gives the node built and the position after it, or the error thrown.
  - As methods that advance a shared `TokenStream` one token at a time, as the source's `parse` does. Each method is proved to agree with its function.
  - `ParserLemmas` proves what the grammar produces: operator grouping by precedence, delimited lists read back in order, the two forms of `let`, conditionals with and without `then`/`else`, function literals, calls, and the error raised by each kind of malformed input.
- **Evaluator** (`Environment`, `Operators`, `Interpreter`). `evaluate` is written in direct style. The value the source hands to its callback is the value `Eval` returns, together with the store of all scope frames at that moment.
  - Closures refer to frames by index, so a frame shared by several closures is shared in the model too.
  - Fuel bounds the number of closure calls.
  - The lemmas cover:
    - the order in which operands, conditions, callees, arguments and `let` definitions are evaluated, and the store and scope each runs in;
    - lexical scope and shadowing;
    - assignment semantics;
    - what evaluation may do to the store;
    - the operator table's error cases;
    - JavaScript's truncating `%`;
    - the identity of closures.
- **CPS transformer** (`CpsTransformer`). `cps` and its helpers are functions that take a meta-level continuation. The global symbol counter is threaded through them, and through the continuations, since those allocate names too. `SymbolGenerator` is the counter kept as state; its `Transform` runs `Cps` on that counter, as the entry point does.
  - The output has a fixed shape: no `let` survives, every function gets a generated continuation parameter first, and every conditional has an `else`.
  - For every node type with simple operands (atoms under negations and operators, which allocate no name), the lemmas state exactly what the transformer builds. For any operands they state how functions and `let` are rewritten, and for calls among the operands of an operator or a call they state the nesting that fixes the evaluation order.

`Wrappers` (Option, Result), `Ast` (the syntax tree and a size measure) and `Decimal` (decimal numerals, as template interpolation writes a number) are shared support.

## Model

| member | source | states |
|---|---|---|
| InputStream.CharAt | packages/parser/process-input-stream.js:11 | `charAt` gives the one-character string at a position, and `""` exactly when the position is past the end |
| InputStream.Message | packages/parser/process-input-stream.js:33 | the thrown message is the reason, a space, then line:column in decimal and a space; it ends in `)` when there is a cause and in the space when there is none |
| InputStream.MessageLocates | packages/parser/process-input-stream.js:33 | two errors with the same reason but a different line or column give different messages |
| InputStream.RenderInputStream.constructor | packages/parser/process-input-stream.js:3-6 | a new stream starts at position 0, line 1, column 0, and satisfies the line/column invariant |
| InputStream.RenderInputStream.Next | packages/parser/process-input-stream.js:10-22 | returns the character at the old position and always advances the position. A newline moves to the next line at column 0; any other result, `""` included, moves the column on. The line/column invariant is kept |
| InputStream.RenderInputStream.Peek | packages/parser/process-input-stream.js:26 | the character at the position, not consumed; `""` exactly at the end |
| InputStream.RenderInputStream.Eof | packages/parser/process-input-stream.js:29 | true exactly when the position has reached the end of the input |
| InputStream.RenderInputStream.Term | packages/parser/process-input-stream.js:32-34 | always fails, carrying the reason, the cause and the current line and column |
| InputStream.LineCountsNewlines | packages/parser/process-input-stream.js:13-15 | the line after any number of `next` calls is one more than the number of newlines read |
| InputStream.ColumnSinceNewline | packages/parser/process-input-stream.js:13-20 | the column counts the characters read since the last newline: none of them is a newline, and the one before them is |
| Parser.TokenStream.constructor | packages/parser/parser.js:4 | the stream starts at the first token |
| Parser.TokenStream.Peek | packages/parser/parser.js:6 | the next token, or nothing at the end |
| Parser.TokenStream.Next | packages/parser/parser.js:17 | returns the next token and consumes it; at the end it returns nothing and the position stays |
| Parser.TokenStream.Eof | packages/parser/parser.js:48 | true exactly when every token has been consumed |
| Parser.AtPunctuator | packages/parser/parser.js:11 | true exactly when the next token is the given punctuator |
| Parser.AtKeyword | packages/parser/parser.js:13 | true exactly when the next token is the given keyword |
| Parser.AtOperator | packages/parser/parser.js:15 | true exactly when the next token is the given operator |
| Parser.SkipPunct | packages/parser/parser.js:17 | succeeds exactly when the punctuator is next, moving one token on; otherwise the missing-punctuator error naming it |
| Parser.PassPunctuator | packages/parser/parser.js:17 | the stream version of SkipPunct: succeeds exactly when the punctuator is next and consumes it; otherwise the missing-punctuator error |
| Parser.SkipKeyword | packages/parser/parser.js:19 | succeeds exactly when the keyword is next, moving one token on; otherwise the missing-keyword error naming it |
| Parser.PassKeyword | packages/parser/parser.js:19 | the stream version of SkipKeyword |
| Parser.Name | packages/parser/parser.js:76-82 | succeeds exactly on a variable token and gives its name; any other token is the no-variable-name error, the end of input the end-of-input error |
| Parser.ParseVariable | packages/parser/parser.js:76-82 | result and final position agree with Name |
| Parser.BinaryTail | packages/parser/parser.js:27-42 | consumes only tokens after the position; when it consumes nothing, the left operand is returned unchanged |
| Parser.IsNextBinary | packages/parser/parser.js:27-42 | result and final position agree with BinaryTail |
| Parser.Delimited | packages/parser/parser.js:44-65 | on success, consumes at least the opening punctuator, and every item is of the parser's kind |
| Parser.DelimitedLoop | packages/parser/parser.js:48-64 | on success, consumes at least the closing punctuator, and every item is of the parser's kind |
| Parser.DelimitedItem | packages/parser/parser.js:58-62 | on success, consumes at least the closing punctuator, and every item is of the parser's kind |
| Parser.ParseDelimited | packages/parser/parser.js:44-65 | result and final position agree with Delimited |
| Parser.DelimitedItems | packages/parser/parser.js:48-64 | the loop's result and final position agree with DelimitedLoop from the first item |
| Parser.DelimitedTurn | packages/parser/parser.js:52-61 | one pass takes the separator unless it is the first pass. It then stops at the closing punctuator or reads an item, and what is left of the loop equals DelimitedLoop's remainder |
| Parser.DelimitedEntry | packages/parser/parser.js:58-61 | after the separator: consumes the closing punctuator and stops, or reads one item; agrees with DelimitedItem |
| Parser.ItemAt | packages/parser/parser.js:61 | a successful item consumes at least one token and is of the requested kind |
| Parser.ParseItem | packages/parser/parser.js:61 | result and final position agree with ItemAt |
| Parser.CallArgs | packages/parser/parser.js:68-74 | a successful call node calls exactly the given function |
| Parser.ParseCall | packages/parser/parser.js:68-74 | result and final position agree with CallArgs |
| Parser.IsNextCall | packages/parser/parser.js:121-125 | the node is wrapped in a call exactly when `(` follows; otherwise it is returned and nothing is consumed |
| Parser.IfStatement | packages/parser/parser.js:84-102 | a successful result is a conditional node |
| Parser.ParseIfStatement | packages/parser/parser.js:84-102 | result and final position agree with IfStatement |
| Parser.Resolver | packages/parser/parser.js:104-111 | a successful result is a function node |
| Parser.ParseResolver | packages/parser/parser.js:104-111 | result and final position agree with Resolver |
| Parser.ParseBoolean | packages/parser/parser.js:113-118 | consumes one token; the literal is true exactly when that token is the `true` keyword |
| Parser.Block | packages/parser/parser.js:183-193 | a successful block consumes at least its opening brace |
| Parser.ParseSequence | packages/parser/parser.js:183-193 | result and final position agree with Block |
| Parser.NamedLet | packages/parser/parser.js:223-231 | a successful binding consumes at least its name |
| Parser.ParseNamedLet | packages/parser/parser.js:223-231 | result and final position agree with NamedLet |
| Parser.LetExpr | packages/parser/parser.js:199-221 | a successful `let` consumes at least its keyword |
| Parser.ParseLet | packages/parser/parser.js:199-221 | result and final position agree with LetExpr |
| Parser.AtomCore | packages/parser/parser.js:130-169 | a successful atom consumes at least one token |
| Parser.ParseAtomForm | packages/parser/parser.js:130-169 | result and final position agree with AtomCore |
| Parser.Atom | packages/parser/parser.js:128-170 | a successful atom consumes at least one token |
| Parser.ParseAtom | packages/parser/parser.js:128-170 | result and final position agree with Atom |
| Parser.Expression | packages/parser/parser.js:195-197 | a successful expression consumes at least one token |
| Parser.ParseExpression | packages/parser/parser.js:195-197 | result and final position agree with Expression |
| Parser.RootLoop | packages/parser/parser.js:172-181 | the result is a sequence that starts with the expressions already read, and has one more whenever tokens remain |
| Parser.ParseRoot | packages/parser/parser.js:172-181 | the loop's result equals RootLoop from the stream's position |
| Parser.Program | packages/parser/parser.js:4-25 | a program is a sequence, non-empty exactly when there are tokens; no tokens give the empty sequence |
| Parser.Parse | packages/parser/parser.js:4-25 | parsing a fresh stream of the tokens gives exactly Program |
| ParserLemmas.LoneLeaf | packages/parser/parser.js:163-166 | a lone variable, integer or string token is that leaf node, as an atom; it is an expression too when no operator or `(` follows |
| ParserLemmas.ListedRoundTrip | packages/parser/parser.js:48-64 | the loop reads a written-out list of names back in order, a trailing separator included. It fails for the missing closing punctuator when the input ends first |
| ParserLemmas.DelimitedNames | packages/parser/parser.js:44-65 | `delimited` over a written-out list of names yields exactly those names and consumes exactly the list, wherever it stands in the input |
| ParserLemmas.DelimitedUnclosed | packages/parser/parser.js:48-63 | a list with no closing punctuator fails with the missing-punctuator error |
| ParserLemmas.BlockShape | packages/parser/parser.js:183-193 | a block is `false` when empty, its only element when it has one, and a sequence otherwise |
| ParserLemmas.EqualPrecedenceGroupsLeft | packages/parser/parser.js:27-42 | two operators of equal precedence group to the left |
| ParserLemmas.HigherPrecedenceNestsRight | packages/parser/parser.js:27-42 | a higher-precedence operator on the right binds tighter |
| ParserLemmas.OperatorWithoutPrecedenceStops | packages/parser/parser.js:28-31 | an operator with no precedence entry, or one not above the current level, ends the binary expression |
| ParserLemmas.OperatorAbsorbed | packages/parser/parser.js:27-42 | for any left operand: when the operator at the position is absorbed and the one after its right operand is not, the result is an assignment node for `=` and a binary node otherwise, ending after the right operand |
| ParserLemmas.AssignmentOperator | packages/parser/parser.js:33-37 | `a = b` parses to an assignment node and `a op b` to a binary node |
| ParserLemmas.IfThenElse | packages/parser/parser.js:84-102 | `if c then x else y` is a conditional with all three parts |
| ParserLemmas.IfThenWithoutElse | packages/parser/parser.js:92-101 | without `else` the conditional has no else branch |
| ParserLemmas.IfRequiresThen | packages/parser/parser.js:87-89 | without a block, a missing `then` is the missing-keyword error |
| ParserLemmas.IfBlockWithoutThen | packages/parser/parser.js:87-90 | a block then-part needs no `then` |
| ParserLemmas.IfParts | packages/parser/parser.js:84-102 | for any `if`: given where the condition and the then-part end, the conditional has an else branch exactly when `else` follows the then-part; without it the conditional ends there, with it the else-part is the expression after `else` |
| ParserLemmas.IfMissingThen | packages/parser/parser.js:87-89 | for any `if`: a condition followed by neither `then` nor a block fails with the missing-keyword error for `then` |
| ParserLemmas.LetShape | packages/parser/parser.js:199-221 | a named `let` is a call of a function of that name over the bindings the parenthesised list gives: parameter i is the name of binding i, and argument i its definition or `false`. An unnamed one is a `let` node holding exactly those bindings |
| ParserLemmas.NamedLetParts | packages/parser/parser.js:223-231 | for any input: a binding is the variable token's name, with a definition exactly when `=` follows, that definition being the expression after it; its errors are the missing-name and end-of-input errors, or the definition's error |
| ParserLemmas.NamedLetDesugars | packages/parser/parser.js:199-214 | `let f (x = 1, y) x` is the call of `f (x, y) x` on `1` and `false` |
| ParserLemmas.UnnamedLetDeclares | packages/parser/parser.js:216-220 | `let (x) x` is a `let` node binding `x` with no definition |
| ParserLemmas.ResolverName | packages/parser/parser.js:107 | a function literal is named exactly when a variable token follows the keyword |
| ParserLemmas.FunctionLiteral | packages/parser/parser.js:104-111 | `fn f (x, y) x` and the unnamed form give the parameters in order, the optional name and the body |
| ParserLemmas.CallOfVariables | packages/parser/parser.js:68-74 | for any list of variables and anywhere in the input: the call of the function on those variables in order, ending after the closing parenthesis |
| ParserLemmas.CallOfArguments | packages/parser/parser.js:68-74 | `f(x, y)` is the call of `f` on its arguments in order |
| ParserLemmas.UnexpectedAtom | packages/parser/parser.js:163-168 | a token that starts no atom raises the unexpected-token error, carrying the token after it |
| ParserLemmas.AtomAtEnd | packages/parser/parser.js:163 | an expression cannot start at the end of the input |
| ParserLemmas.Parenthesised | packages/parser/parser.js:132-139 | a parenthesised expression is the inner expression, and the closing parenthesis is required |
| ParserLemmas.NegationTakesExpression | packages/parser/parser.js:143-148 | `!` negates the whole binary expression after it |
| ParserLemmas.RootNeedsSeparator | packages/parser/parser.js:176-178 | after a top-level expression, anything but `;` is the missing-punctuator error |
| ParserLemmas.RootSequence | packages/parser/parser.js:172-181 | `a ; b` is the sequence of both, and `a ;` the sequence of `a` |
| Environment.Chain | packages/interpreter/core.js:12 | the scope chain starts at the frame itself and only visits older frames |
| Environment.Owner | packages/interpreter/core.js:12 | the nearest frame on the chain that binds the name: it binds the name, no nearer frame does, and with none found no frame on the chain does |
| Environment.Get | packages/interpreter/core.js:11-13 | a variable's value is the binding of the nearest frame on the chain that binds it (no nearer frame binds the name); an undefined-variable error exactly when no frame on the chain binds it |
| Environment.Extend | packages/interpreter/core.js:98 | a new empty frame whose parent is the given one; every existing frame is unchanged |
| Environment.Define | packages/interpreter/core.js:99 | binds in that frame only; every other frame is unchanged |
| Environment.Set | packages/interpreter/core.js:21 | fails exactly when `get` fails, with the same error. On success it overwrites the binding in the nearest frame that binds the name (the frame `get` reads) and leaves every other frame, and every other name, unchanged; it never creates a binding |
| Environment.GetAfterSet | packages/interpreter/core.js:19-22 | after a successful `set`, `get` of the name gives the new value |
| Environment.ExtendKeepsLookups | packages/interpreter/core.js:92-94 | extending never changes what existing frames see |
| Environment.ShadowNotMutate | packages/interpreter/core.js:92-100 | a binding in a child frame shadows the name from the child, while the parent still sees the outer binding and other names are unaffected |
| Operators.EnforceNumber | packages/interpreter/core.js:120-125 | the operand itself exactly when it is a number, the not-a-number error otherwise |
| Operators.EnforceDivisor | packages/interpreter/core.js:127-132 | a non-zero number passes; zero is the zero-division error, checked after the number check |
| Operators.ApplyOperator | packages/interpreter/core.js:118-163 | numeric operators fail with not-a-number exactly when an operand is not a number. `/` and `%` fail with zero-division exactly on a numeric zero divisor. Otherwise `+ - * /` give the sum, difference, product and quotient, `%` the truncating remainder, and `< > <= >=` the comparison. `&&`, `\|\|`, `==` and `!=` have their value semantics. Unknown operators fail, naming the operator |
| Operators.RemainderProperties | packages/interpreter/core.js:143-144 | the remainder is smaller than the divisor in magnitude, is zero or has the dividend's sign, and differs from the dividend by a whole multiple of the divisor |
| Operators.RemainderExamples | packages/interpreter/core.js:141-144 | `7 % 2` is 1, `-7 % 2` is -1, and division by zero fails |
| Interpreter.MakeClosure | packages/interpreter/core.js:165-187 | a new closure with a fresh identity, the literal's parameters and body. An unnamed literal captures the current scope and only the closure counter changes; a named one captures a new frame, child of the current scope, that binds the name to the closure itself, with every existing frame kept |
| Interpreter.BindParams | packages/interpreter/core.js:176-183 | binding parameters touches only the call frame and keeps its parent |
| Interpreter.BindParameters | packages/interpreter/core.js:176-183 | the loop's store equals BindParams |
| Interpreter.BindParamsBinds | packages/interpreter/core.js:176-183 | parameter i is bound to argument i, or to `false` when there are fewer arguments, unless a later parameter has the same name |
| Interpreter.BindParamsKeys | packages/interpreter/core.js:176-183 | the call frame binds exactly the parameters |
| Interpreter.CallScope | packages/interpreter/core.js:172-185 | a called body sees its parameters bound to the arguments, and otherwise exactly what the closure's own scope sees (lexical scope) |
| Interpreter.NamedClosureSeesItself | packages/interpreter/core.js:168-171 | a named function sees itself under its name, and every other name as its defining scope does |
| Interpreter.FunctionLiteralsAreDistinct | packages/interpreter/core.js:109-111 | two evaluations of the same function literal are not `==`: each creates a new closure |
| Interpreter.EvalGrows | packages/interpreter/core.js:1-116 | evaluation only adds frames and closures and overwrites bindings: existing frames keep their names and parents |
| Interpreter.EvalMoreFuel | packages/interpreter/core.js:65-82 | an evaluation that finishes gives the same outcome with more fuel |
| Interpreter.SequenceSnoc | packages/interpreter/core.js:50-63 | a sequence evaluates its elements in order and is worth its last element; the empty sequence is `false` |
| Interpreter.AssignSemantics | packages/interpreter/core.js:15-23 | assigning to a non-variable is the expect-variable error. The right side runs first, and its failure or running out of fuel is the outcome. Assigning to an unbound name is the undefined-variable error. Assigning to a bound name succeeds: the result is the right side's value in the store `set` produces, and the variable afterwards holds that value |
| Interpreter.LetSeesEarlierBindings | packages/interpreter/core.js:84-107 | in `let (x = 1, y = x + 1) y` the second definition sees the first, giving 2 |
| Interpreter.BinaryOrder | packages/interpreter/core.js:25-33 | `Eval` on an operator node: a left operand without a value is the outcome, whatever the right one is; otherwise the right operand runs in the store the left one left, and the operator is applied to both values |
| Interpreter.ConditionalTruth | packages/interpreter/core.js:35-48 | `Eval` on a conditional: any condition value other than `false` selects the then-branch, run in the condition's store; `false` selects the else-branch, or gives `false` without one |
| Interpreter.TruthExamples | packages/interpreter/core.js:38-46 | `0` and `""` are true as conditions; `if false then 1` is `false` |
| Interpreter.ArgValues | packages/interpreter/core.js:68-76 | the arguments evaluated left to right, each in the previous one's store: all their values after those already known, or the first outcome without a value |
| Interpreter.ArgumentsInOrder | packages/interpreter/core.js:68-80 | `EvalArguments` evaluates the remaining arguments in order and calls the function only once all have values |
| Interpreter.CallOrder | packages/interpreter/core.js:65-82 | `Eval` on a call: the callee first, then the arguments; the first that fails is the outcome; with all values, a closure runs its body in a new frame, child of its own scope, holding the parameters, and any other value is the not-callable error |
| Interpreter.CallRunsBody | packages/interpreter/core.js:65-82 | a called closure's body sees its parameters bound to the argument values and every other name as the closure's own scope does |
| Interpreter.DeclarationShift | packages/interpreter/core.js:85-106 | `EvalDeclaration` past the first binding is the loop of the `let` without that binding |
| Interpreter.LetNoBindings | packages/interpreter/core.js:103-105 | `Eval` on a `let` with no bindings is its body in the same scope |
| Interpreter.LetFirstBinding | packages/interpreter/core.js:85-101 | `Eval` on a `let`: the first definition (or `false`) is evaluated in the outer scope and a failure is the outcome; otherwise the rest of the `let` runs in a new child frame binding the name to the value |
| Interpreter.LetOneBinding | packages/interpreter/core.js:85-106 | a one-binding `let` runs its body in a frame that sees the name as the definition's value and every other name as the outer scope does |
| Decimal.Digits | packages/compiler/CPS-transformer.js:11 | a number is written as at least one decimal digit |
| Decimal.DigitsInjective | packages/compiler/CPS-transformer.js:11 | different numbers are written differently |
| CpsTransformer.Symbol | packages/compiler/CPS-transformer.js:6-12 | a generated name starts with the symbol mark |
| CpsTransformer.NewSymbol | packages/compiler/CPS-transformer.js:6-12 | the counter grows and the name is a generated one |
| CpsTransformer.SymbolInjective | packages/compiler/CPS-transformer.js:6-12 | names from one-letter prefixes coincide only for the same prefix and counter value |
| CpsTransformer.SymbolGenerator.constructor | packages/compiler/CPS-transformer.js:5 | the counter starts at zero |
| CpsTransformer.SymbolGenerator.Fresh | packages/compiler/CPS-transformer.js:6-12 | increments the counter and returns the name for its new value |
| CpsTransformer.SymbolGenerator.Transform | packages/compiler/CPS-transformer.js:23-24 | the transformer entry point on the global counter: the output and the new counter are those of `Cps` from the old counter; with a well-behaved continuation the counter never moves back and the output is shaped |
| CpsTransformer.Continuation | packages/compiler/CPS-transformer.js:14-21 | a one-parameter function of a fresh "R" name, whose body is what `k` builds around that name |
| CpsTransformer.OrFalse | packages/compiler/CPS-transformer.js:81 | a missing part stands as `false`, of the size the size measure gives it |
| CpsTransformer.LetStep | packages/compiler/CPS-transformer.js:75-92 | a `let` becomes a one-argument call of a function of the first name, and is smaller by the size measure |
| CpsTransformer.Rebuild | packages/compiler/CPS-transformer.js:59-70 | the operator node keeps its type and operator, around the transformed operands |
| CpsTransformer.CpsWellFormed | packages/compiler/CPS-transformer.js:26-47 | for any tree, given a well-behaved continuation `k`, the output has no `let`. Every function's first parameter is a generated name, every call passes at least one argument, and every conditional has an `else`. The counter never moves back |
| CpsTransformer.CpsSimple | packages/compiler/CPS-transformer.js:49-70 | atoms go to `k` unchanged; negations and operator nodes are rebuilt around their operands; no name is allocated |
| CpsTransformer.CallSimple | packages/compiler/CPS-transformer.js:166-182 | a call whose function and arguments are simple keeps them in order, with the reified continuation added as the first argument |
| CpsTransformer.FunctionSimple | packages/compiler/CPS-transformer.js:94-110 | for any body, a function keeps its name and gains a fresh "K" parameter in front, its body is transformed to return through "K", and the new function goes to `k`. A simple body becomes the call of "K" on it |
| CpsTransformer.ConditionalSimple | packages/compiler/CPS-transformer.js:112-138 | with simple condition and branches: both branches, a missing `else` as `false`, end in a call of a fresh "I" parameter, which is bound to the reified continuation |
| CpsTransformer.LetSimple | packages/compiler/CPS-transformer.js:75-92 | for any body and bindings: `let` with no bindings is its body, and the first binding becomes a call of a function of that name on the definition or `false`, whose body is the `let` of the rest. With one binding, a simple definition and a simple body, the full output |
| CpsTransformer.LetOneSimple | packages/compiler/CPS-transformer.js:75-92 | one binding, simple definition and body: a call of a function of the name (after its "K" parameter) on the reified continuation and the definition or `false` |
| CpsTransformer.Kept | packages/compiler/CPS-transformer.js:150-152 | the kept elements come from the sequence and satisfy the purity test |
| CpsTransformer.SequenceSimple | packages/compiler/CPS-transformer.js:140-164 | the empty sequence gives `false` to `k`. With simple elements, non-final elements that fail the purity test are dropped, the others stay in order, and the last element goes to `k` |
| CpsTransformer.BinaryOfCalls | packages/compiler/CPS-transformer.js:59-70 | in `f1(a1) op f2(a2)` the left call is transformed first and comes outermost; its continuation's "R" parameter names its value, it calls `f2`, and the innermost continuation applies the operator to both names and goes on with `k` |
| CpsTransformer.CallOfCalls | packages/compiler/CPS-transformer.js:166-182 | in `h(f1(a1), f2(a2))` the continuation is reified first, the first argument's call comes outermost, the second's inside it, and the innermost continuation calls `h` on the continuation and both results in order |

## Left out

- `STACK_GUARD` and the trampolining it drives are left out. They exist only to bound the JavaScript stack, and evaluation is modelled in direct style.
- The environment object is outside this model. Only its four operations are modelled, by the behaviour the evaluator relies on (nearest binding, extend, define, set).
- Fuel bounds the number of closure calls in `Eval`. A program that calls forever ends in `OutOfFuel`, which the source never reaches (it runs forever or overflows).
- Numbers are exact reals. The rounding of JavaScript's floating-point `/` and the integer-versus-float distinction are not modelled; `%` is modelled as JavaScript's truncating remainder.
- Calling a value that is not a closure raises JavaScript's own type error in the source. Host functions placed in the global scope are not modelled. A non-closure callee gives `NotCallable`.
- Functions are compared by identity in the source. Closures carry an identity taken from a counter, so `==` on closures is identity equality.
- `evaluate` has no case for negation nodes. Following the code, evaluating one raises the cannot-evaluate error, although the parser reads `!` into a negation node (packages/parser/parser.js:143-148) and the CPS transformer handles it (packages/compiler/CPS-transformer.js:53-55).
- The tokenizer, the constants module and the error-message text are not part of this model. Tokens are a datatype, and errors are constructors rather than strings.
- The precedence table (`PRECEDENCE`) is a parameter of the parser. The symbol mark (`KEYWORDS.SYMBOL`) and the purity test (`computePurity`) are parameters of the CPS transformer; the purity test's own module is not part of this model.
- The transformer's `TRANSFORM_ERR` default is unreachable, because the node datatype has only the recognised node types.
- CpsTransformer.CallArguments: the source writes arguments into the array in place (`args[i + 1] = value`). The model appends to a sequence value; no other code sees that array, so no aliasing is lost.
- CpsTransformer.CallSimple: states the exact output only for a simple function and simple arguments. Calls among the operands are covered by CallOfCalls for two call arguments, and the output's shape for any tree by CpsWellFormed.
- CpsTransformer.ConditionalSimple: states the exact output only for a simple condition and simple branches. For any branches, CpsWellFormed states the shape (every conditional has an `else`).
- CpsTransformer.SequenceSimple: states the exact output only for simple elements. For any elements, CpsWellFormed states the shape.
- CpsTransformer.LetSimple: states the full output only for one binding with a simple definition and body. For any bindings it states the rewrite of the first binding.
- CpsTransformer.BinaryOfCalls: covers an operator over two calls with simple function and arguments, not arbitrarily deep nesting.
- CpsTransformer.CpsWellFormed: states the shape of the output, not that every generated name is distinct across a whole transformation. Distinctness of single names is SymbolInjective, together with the counter only growing.
- InputStream.CharAt: the input is a sequence of Unicode characters, while `charAt` indexes UTF-16 code units. For a character outside the Basic Multilingual Plane the source reads two halves of a surrogate pair where the model reads one character, so positions, columns and the point where `eof` holds differ for such input.
- Parser.TokenStream.Next: the token stream's own source is not part of this model. Past the end, `next` returns nothing and does not advance.
- Wherever a parse function dereferences the missing token at the end of input, the host raises a type error. The model gives `EndOfInput` in every such place.
- Parser.ParseBoolean: requires a token to be present, as its only caller guarantees. A missing token there is not modelled.
- `passOperator` is defined but never called in the source, so it is not modelled.
- Parser.DelimitedItems: the source's single loop body is split into helper methods (DelimitedTurn, DelimitedEntry). The order of token checks and consumption is the same.
