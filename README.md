# java-tan back end in Dafny

This project models and proves properties of the back end of **java-tan**, a tree-walking
interpreter for the small dynamically typed language Tan. Tan has numbers, strings, booleans,
`nil`, variables, blocks, `if`, `while`, `for`, `print`, first-class functions, classes with
methods, `this` and `init`, and a `?:` ternary. The model covers four stages:

- **Parser** (`parser.dfy`, `shapes.dfy`). A recursive-descent parser turns a token stream into a
  list of statements. It uses panic-mode recovery: a syntax error is reported and parsing
  resynchronises at the next statement keyword. `Shapes` states what a parsed tree looks like.
  Operator precedence is a level for every node, and the argument and parameter lists are capped
  at 255. `for` is desugared into `while`.
- **Resolver** (`resolver.dfy`). A static pass walks the tree with a stack of lexical scopes.
  It records, for every variable, assignment and `this` node, how many scopes out its binding
  lives. It rejects a variable read in its own initializer, a name declared twice in one scope,
  `return` outside a function, and `this` outside a class. The walk is given as pure functions
  over a `ResolveState`. The `Resolver` class methods are proved to compute those functions.
- **Interpreter** (`interpreter.dfy`, `operators.dfy`, `environment.dfy`, `tan.dfy`). Statements
  are executed against a chain of mutable environments. Variables resolved by the resolver are
  read at their recorded distance; all others are looked up in the globals. Runtime values are
  functions (`TanFunction`), classes (`TanClass`) and instances (`TanInstance`), each a class
  whose fields change in place. Environments are linked `Environment` objects. Each one is proved
  to agree with a list of frames (`Frames()`), and nearest-binding lookup is stated on that list.
- **Reference semantics** (`semantics.dfy`). Plain functions give the meaning of side-effect-free
  expressions (`PureEval`), argument lists (`PureArgs`), statements (`PureStep`), blocks
  (`PureBlock`) and function calls (`PureCall`, in `interpreter.dfy`) over the scope the
  interpreter reads. The imperative evaluator, statement runner and call are proved to agree
  with them, and their properties are proved as lemmas.
- **Diagnostics** (`diagnostics.dfy`, `numerals.dfy`). The error sink formats
  `[line N] Error<where>: message`, keeps the emitted lines, and sets an error flag.

`ast.dfy`, `tokens.dfy`, `runtime_error.dfy` and `wrappers.dfy` hold the shared data model:

- tokens;
- expression and statement trees, whose variable, assignment and `this` nodes carry a node id
  that stands in for Java object identity;
- runtime errors;
- `Option`/`Result`.

Java exceptions that are not part of the language's error handling are explicit outcomes:

- a `ClassCastException` from `"a" + 1`;
- a `NullPointerException` on the null statement that the parser leaves after an error;
- the index-out-of-bounds of the parser's cursor at the end of the token list.

They propagate past every handler, as they do in Java.

## Model

| member | source | states |
|---|---|---|
| Diagnostics.FormatShape | src/Error.java:26-36 | a report line starts with `[line N] Error`, ends with the message, and has `:` right after the head exactly when the location text is empty |
| Diagnostics.FormatLineReadsBack | src/Error.java:28-33 | the line number can be read back from the formatted report: the digits after `[line ` parse to the line given |
| Diagnostics.TokenReportLocation | src/Error.java:17-24 | a report about a token has no ` at ...` part exactly when the token is the end-of-file token |
| Diagnostics.Error.constructor | src/Error.java:9-11 | a new sink has no error and no output |
| Diagnostics.Error.ReportLine | src/Error.java:13-15 | appends one report line with an empty location and sets the error flag |
| Diagnostics.Error.ReportToken | src/Error.java:17-24 | appends one report line and sets the error flag; the line has an empty location (`[line N] Error: message`) for the end-of-file token, and ` at '<lexeme>'` for any other token |
| Diagnostics.Error.Report | src/Error.java:26-36 | appends exactly the formatted line and sets the error flag |
| Diagnostics.Error.SetError | src/Error.java:39-41 | the error flag becomes the given status and nothing else changes |
| Diagnostics.Error.HasError | src/Error.java:43-45 | returns the error flag |
| Numerals.NatToString | src/Error.java:28-33 | the decimal rendering of a line number is non-empty and all digits, with no leading zero unless the number is 0 |
| Numerals.NatToStringRoundTrip | src/Error.java:28-33 | parsing the decimal rendering gives back the number |
| Numerals.NatToStringInjective | src/Error.java:28-33 | distinct line numbers render differently |
| Environments.Nearest | src/Environment.java:85-93 | the index of the innermost frame binding the name: that frame binds it and no inner frame does; none means no frame binds it |
| Environments.FindDefined | src/Environment.java:85-93 | a lookup succeeds exactly when some frame of the chain binds the name |
| Environments.FindAfterAssign | src/Environment.java:49-57 | after assigning to a bound name, reading it gives the new value and every other name reads as before |
| Environments.FindAfterDefine | src/Environment.java:40-42 | after defining in the innermost frame, the name reads as the new value and others read as before, shadowing any outer binding |
| Environments.AssignAfterDefine | src/Environment.java:40-57 | assigning a name just defined in the innermost frame is the same as defining it with the new value |
| Environments.Environment.Frames | src/Environment.java:8-18 | the chain has one frame per environment from this one out, innermost first |
| Environments.Environment.AncestorAt | src/Environment.java:109-116 | the ancestor at a distance, when there is one, is a well-formed environment of this chain |
| Environments.Environment.AncestorFrames | src/Environment.java:109-116 | the ancestor at a distance exists exactly when the distance is below the chain's length, and its frames are the chain with that many inner frames dropped |
| Environments.Environment.Global | src/Environment.java:26-28 | a global environment has no parent and a single empty frame |
| Environments.Environment.Local | src/Environment.java:33-35 | a local environment adds one empty frame in front of the enclosing chain |
| Environments.Environment.DefineVar | src/Environment.java:40-42 | binds or overwrites the name in this environment's own frame only; the outer frames are untouched |
| Environments.Environment.Assign | src/Environment.java:49-57 | a bound name is overwritten in its innermost binding frame; an unbound one is the `assignment to undefined variable` error with no change |
| Environments.Environment.GetValue | src/Environment.java:85-93 | returns the innermost binding of the name, or the `undefined variable` error when no frame binds it |
| Environments.Environment.Ancestor | src/Environment.java:109-116 | walks the given number of parents out, and yields null past the global environment |
| Environments.Environment.GetAt | src/Environment.java:99-105 | reads the name in the frame at that distance only; a missing frame or name gives nothing |
| Environments.Environment.AssignAt | src/Environment.java:73-80 | writes the name in the frame at that distance only, and changes nothing when that frame does not exist |
| Tan.TanFunction.constructor | src/Tan.java:133-137 | a function keeps its declaration, closure and initializer flag |
| Tan.TanFunction.Bind | src/Tan.java:146-153 | a bound method is a fresh copy of the function whose closure is a new frame binding only `this` to the instance, in front of the old closure |
| Tan.TanClass.constructor | src/Tan.java:188-192 | a class keeps its name, superclass and method table |
| Tan.TanClass.FindMethodNearest | src/Tan.java:218-226 | method lookup finds the name in the nearest class of the superclass chain that defines it |
| Tan.TanClass.FoundInClosures | src/Tan.java:218-226 | a method found through the chain has a closure that belongs to one of the chain's classes |
| Tan.TanClass.ArityOfInit | src/Tan.java:200-203 | a class's arity is the parameter count of the nearest `init`, or 0 when there is none |
| Tan.TanInstance.constructor | src/Tan.java:236-238 | a new instance of a class has no fields |
| Tan.TanInstance.Get | src/Tan.java:240-255 | a field shadows a method; otherwise the method is returned bound to this instance; otherwise it is the `Undefined property` error |
| Tan.TanInstance.Set | src/Tan.java:257-259 | the field becomes the value and the other fields are untouched |
| Operators.Truthy | src/Interpreter.java:317-324 | a value is falsey exactly when it is `nil` or `false` |
| Operators.IsEqual | src/Interpreter.java:303-310 | equality is value equality, and `nil` equals only `nil` |
| Operators.VerifyNumber | src/Interpreter.java:339-346 | no error exactly when every operand is a number; otherwise the error is at the operator with the given message |
| Operators.Plus | src/Interpreter.java:203-211 | a successful `+` produces a number or a string |
| Operators.Arithmetic | src/Interpreter.java:191-223 | a successful numeric operator produces a boolean (comparisons) or a number |
| Operators.BinaryOp | src/Interpreter.java:186-227 | a successful binary operator produces a boolean, number or string |
| Operators.UnaryOp | src/Interpreter.java:232-241 | a successful unary operator produces a boolean or a number |
| Operators.PlusCases | src/Interpreter.java:203-211 | `+` adds two numbers and concatenates two strings (with `nil` cast to `null` text); a string with a non-string class-cast fails with a host exception; anything else is the `+` type error |
| Operators.NumericOperands | src/Interpreter.java:191-223 | a numeric operator succeeds exactly when both operands are numbers and it is not division by zero; the two errors are the operator's message and `divide by 0` |
| Operators.UnaryCases | src/Interpreter.java:229-242 | unary `-` succeeds exactly on numbers and negates them; `!` always succeeds and flips truthiness |
| Operators.ShortCircuitCases | src/Interpreter.java:273-286 | `and` returns its left operand when it is falsey, `or` when it is truthy, and the right operand is evaluated in every other case |
| Operators.TrimPointZero | src/Interpreter.java:326-337 | cleaning a number's text only removes a suffix |
| Operators.CleanCases | src/Interpreter.java:326-337 | a printed number is its text with a trailing `.0` removed, and only then differs from it; a string prints as itself |
| Operators.CheckCall | src/Interpreter.java:251-260 | a call passes its checks exactly when the callee is a function or class whose arity is the argument count |
| Operators.CallErrors | src/Interpreter.java:251-260 | a non-callable callee is the `function name is not a callable function` error; a function called with other than one argument per parameter, or a class called with other than the parameter count of the nearest `init` in its chain (0 without one), is the error `Expected N arguments but got M`; both are at the closing parenthesis, and the digits after `Expected ` are the expected count |
| Operators.ParamMapKeys | src/Tan.java:164-166 | the call frame binds exactly the parameter names |
| Operators.ParamMapPositional | src/Tan.java:164-166 | with distinct parameter names, each parameter is bound to the argument at its position |
| Interpreters.Interpreter.constructor | src/Interpreter.java:46-58 | a new interpreter runs in an empty global environment with no resolved distances and no output |
| Interpreters.Interpreter.StoreResolve | src/Interpreter.java:353-355 | records the distance for the node and leaves the other entries |
| Interpreters.Interpreter.NewLocal | src/Interpreter.java:66-79 | a fresh block environment: one empty frame in front of the enclosing chain |
| Interpreters.Interpreter.Define | src/Interpreter.java:91-97 | defines the name in the target's own frame only |
| Interpreters.Interpreter.AssignChain | src/Interpreter.java:153-163 | an unresolved assignment writes through the global chain, or is the undefined-variable error with no change |
| Interpreters.Interpreter.AssignLocal | src/Interpreter.java:153-163 | a resolved assignment writes only the frame at the recorded distance |
| Interpreters.Interpreter.SetField | src/Interpreter.java:164-174 | sets exactly one field of the instance |
| Interpreters.Interpreter.LookUpVariable | src/Interpreter.java:366-373 | a resolved read looks only at the frame at its recorded distance; an unresolved one searches the globals |
| Interpreters.Interpreter.Evaluate | src/Interpreter.java:151-301 | evaluation keeps the heap closed (every value it returns lives in the interpreter's environments and instances); literals evaluate to their value, variables to their lookup, `this` to the `Expression error` fallback; and a side-effect-free expression yields exactly `PureEval` of it in the scope read before, printing, reporting and changing nothing |
| Interpreters.Interpreter.EvalOperator | src/Interpreter.java:175-286 | an operator expression (unary, binary, logical, ternary; the calls, reads and writes in these lines belong to `EvalEffect`) keeps the heap closed, and a side-effect-free one yields `PureEval` of it and changes nothing |
| Interpreters.Interpreter.EvalEffect | src/Interpreter.java:153-272 | an assignment, property write, property read or call keeps the heap closed and returns only tracked values |
| Interpreters.Interpreter.EvalUnary | src/Interpreter.java:229-242 | the operand is evaluated first and its failure propagates, otherwise the result is the unary operator on it; a side-effect-free operand is `PureEval` of it, and a side-effect-free expression yields `PureEval` |
| Interpreters.Interpreter.EvalBinary | src/Interpreter.java:182-228 | both operands are evaluated left then right, the first failure wins, otherwise the result is the binary operator on the two values; side-effect-free operands are `PureEval` of them, in the same scope, and the whole yields `PureEval` |
| Interpreters.Interpreter.EvalLogical | src/Interpreter.java:273-286 | the right operand is evaluated exactly when the left does not decide the result, otherwise the left value is the result; side-effect-free operands are `PureEval` of them, and the whole yields `PureEval` |
| Interpreters.Interpreter.EvalTernary | src/Interpreter.java:175-181 | the else branch, then the then branch, then the condition are evaluated; the first failure wins, otherwise the condition's truthiness picks one of the two values; each side-effect-free part is `PureEval` of it, and the whole yields `PureEval` |
| Interpreters.Interpreter.EvalAssign | src/Interpreter.java:153-163 | the value is computed first; a resolved name is written at its distance, an unresolved one through the globals (or the undefined-variable error with no write), and the result is the value assigned; a side-effect-free value is `PureEval` of it, the frames written are those seen before, and nothing is printed or reported |
| Interpreters.Interpreter.EvalSet | src/Interpreter.java:164-174 | the object must be an instance, else the `not an instance` error; then the value is computed and stored as that one field, and is the result; side-effect-free object and value are `PureEval` of them, and nothing is printed or reported |
| Interpreters.Interpreter.EvalGet | src/Interpreter.java:264-272 | the object must be an instance, else the `not an instance` error; then a field, a method bound to the instance in a fresh frame, or the `Undefined property` error; a side-effect-free object is `PureEval` of it and changes nothing |
| Interpreters.Interpreter.GetProperty | src/Tan.java:240-255 | a field shadows a method, a method is bound to the instance in a fresh frame, and a missing one is the `Undefined property` error |
| Interpreters.Interpreter.EvalOperands | src/Interpreter.java:244-249 | the callee and then every argument are evaluated in order; when none fails there is one value per argument; a side-effect-free callee is `PureEval` of it, and when it succeeds side-effect-free arguments give exactly `PureArgs` and change nothing |
| Interpreters.Interpreter.EvalArgs | src/Interpreter.java:246-249 | the arguments are evaluated left to right into the list, stopping at the first failure; side-effect-free arguments give exactly `PureArgs` of them and change nothing |
| Interpreters.Interpreter.EvalCall | src/Interpreter.java:243-263 | a failing callee or argument ends the call; otherwise the call is checked for callability and arity before it is invoked; the callee and arguments are tied to `PureEval` and `PureArgs` as in `EvalOperands` |
| Interpreters.Interpreter.Invoke | src/Interpreter.java:262 | a call of a checked callee dispatches to the function or class call and never leaves a language runtime error uncaught; a function whose body is side-effect free yields, prints and reports exactly what `PureCall` gives |
| Interpreters.Interpreter.BindParameters | src/Tan.java:164-166 | the call frame binds every parameter to its argument |
| Interpreters.Interpreter.NewFrame | src/Tan.java:161-166 | a fresh frame in front of the closure, binding the parameters; the scope seen from it is the bindings in front of the closure's frames as they were, with the globals unchanged |
| Interpreters.Interpreter.EmptyBodyCall | src/Tan.java:161-175 | calling a function with an empty body prints and reports nothing and yields nil, or its closure's `this` for an initializer |
| Interpreters.Interpreter.CallFunction | src/Tan.java:161-175 | the body runs in a fresh frame in front of the closure that binds the parameters by position; an initializer yields its closure's `this` (nil without one) whatever its body returned; any other function yields its `return` value, or nil when the body ends without one; an abrupt body's fault is the result, and it is never a language runtime error; a side-effect-free body yields, prints and reports exactly what `PureCall` gives |
| Interpreters.Interpreter.BindInitializer | src/Tan.java:206-216 | `init` bound to the new instance has the class's arity |
| Interpreters.Interpreter.Instantiate | src/Tan.java:206-216 | a fresh instance of the class with no fields, and a bound `init` exactly when the class chain defines one |
| Interpreters.Interpreter.CallClass | src/Tan.java:206-216 | calling a class yields a fresh instance of it; without `init` its fields stay empty, and only `init` can fail |
| Interpreters.Interpreter.Report | src/Interpreter.java:74-76 | a caught runtime error is added to the end of the reported list |
| Interpreters.Interpreter.RunBlock | src/Interpreter.java:66-79 | statements run in order in the given environment; a runtime error is reported and ends the block normally; the active environment is restored on every path; a side-effect-free block completes, prints and reports exactly what `PureBlock` gives and leaves the scope unchanged |
| Interpreters.Interpreter.RunCaught | src/Interpreter.java:68-76 | the statements run in the active environment, and a runtime error that ends them is appended to the reported list and turned into a normal end; a side-effect-free block agrees with `PureBlock` |
| Interpreters.Interpreter.RunStatements | src/Interpreter.java:71-73 | the statements run in order up to the first that does not complete normally, whose completion is the result; a side-effect-free block prints exactly `PureBlock`'s lines and ends with its completion, its caught error as the thrown fault, reporting nothing |
| Interpreters.Interpreter.RunListed | src/Interpreter.java:71-73 | one statement of the loop: in a side-effect-free block it prints its step's lines after those already printed and splits the rest of `PureBlock` after it |
| Interpreters.Interpreter.Run | src/Interpreter.java:60-62 | running a program never lets a language runtime error escape; a side-effect-free program completes, prints and reports exactly what `PureBlock` gives |
| Interpreters.Interpreter.RunStatement | src/Interpreter.java:85-146 | an expression statement completes normally or fails, a `return` never completes normally, and a null statement is a null-pointer fault; a side-effect-free statement completes as `PureStep` gives, prints exactly its lines, and changes nothing else |
| Interpreters.Interpreter.ExecPrint | src/Interpreter.java:135-138 | a print appends the cleaned text of the value to the output, or fails with the value's fault; with a side-effect-free expression the value is `PureEval` of it, and the statement agrees with `PureStep` |
| Interpreters.Interpreter.ExecVarDeclare | src/Interpreter.java:91-97 | a declaration binds the name to the initializer's value, or `nil` without one, in the current frame; a side-effect-free initializer is `PureEval` of it, the frame written is the one seen before, and nothing is printed or reported |
| Interpreters.Interpreter.ExecIf | src/Interpreter.java:116-123 | the condition's truthiness picks the branch, and a missing else branch completes normally; a side-effect-free condition is `PureEval` of it, and a side-effect-free `if` agrees with `PureStep` |
| Interpreters.Interpreter.ExecWhile | src/Interpreter.java:124-127 | a loop completes normally only after its condition evaluated to a falsey value, which for a side-effect-free condition is `PureEval` of it in the final scope; with no fuel it is out of fuel and changes nothing; with a side-effect-free condition whose first test fails or is falsey, it ends at once with that fault or normally, and changes nothing |
| Interpreters.Interpreter.ExecReturn | src/Interpreter.java:128-134 | a `return` completes with its value, or `nil` without one; a side-effect-free value is `PureEval` of it, and the statement agrees with `PureStep` |
| Semantics.LookupIn | src/Interpreter.java:366-373 | a read fails exactly when it is unresolved and no global frame binds the name, with the `undefined variable` error; a resolved read gives the value at its distance, or nil |
| Semantics.PureEval | src/Interpreter.java:175-301 | side-effect-free evaluation never runs out of fuel |
| Semantics.PureArgs | src/Interpreter.java:246-249 | without a failure there is one value per argument; with one, the values are those of the arguments before the failing one, which fails with that fault |
| Semantics.ArgsExactly | src/Interpreter.java:246-249 | any list of values and fault that meets `PureArgs`'s description is `PureArgs`'s result: the description determines it |
| Semantics.PureStep | src/Interpreter.java:116-141 | a side-effect-free statement prints at most one line and never runs out of fuel |
| Semantics.PureBlock | src/Interpreter.java:66-79 | a caught error ends the block normally; an abrupt end is never a runtime error or out of fuel; a block prints at most one line per statement |
| Semantics.After | src/Interpreter.java:71-73 | lines printed before a block come first in its output, and the completion and caught error are the block's |
| Semantics.BlockFromStep | src/Interpreter.java:71-76 | a block from position `i` unfolds by one statement: a runtime error there ends it with that error caught, another abrupt end ends it with that completion, and a normal end continues at `i + 1` |
| Semantics.BlockFromSlice | src/Interpreter.java:71-73 | running a block from position `i` is running the suffix from `i` |
| Semantics.BlockFromStart | src/Interpreter.java:71-73 | a whole block is the block run from position 0 |
| Semantics.EvalDependsOnReads | src/Interpreter.java:151-301 | a side-effect-free expression gives the same outcome in two scopes that agree on every variable it reads |
| Semantics.ResolvedReadsAgree | src/Interpreter.java:366-373 | resolved reads look only at the active frames and the distances, never at the globals |
| Semantics.ResolvedIgnoresGlobals | src/Interpreter.java:366-373 | an expression whose every variable was resolved has the same value whatever the global frames hold |
| Semantics.ShortCircuitIgnoresRight | src/Interpreter.java:273-286 | when the left operand of `and`/`or` decides, the right operand does not matter and the left value is the result |
| Semantics.BlockAppend | src/Interpreter.java:66-79 | running two statement lists in turn is running their concatenation; the second runs only when the first ends normally without a caught error |
| Semantics.PrintsInOrder | src/Interpreter.java:135-138 | a block of `print` statements whose expressions succeed prints the cleaned values, one line each, in order, and ends normally |
| Semantics.SilentBlock | src/Interpreter.java:66-79 | a block with no `print` at any depth prints nothing |
| Semantics.SilentStep | src/Interpreter.java:116-123 | a statement with no `print` in it or its branches prints nothing |
| Interpreters.Interpreter.ExecFunction | src/Interpreter.java:98-101 | a function declaration binds its name, in the current frame, to a fresh non-initializer function closing over the current environment |
| Interpreters.Interpreter.BuildMethods | src/Interpreter.java:105-112 | the method table has one entry per method name, the last declaration of a name wins, and only `init` is an initializer |
| Interpreters.Interpreter.NewClass | src/Interpreter.java:102-115 | a fresh class with the declared name and methods, closing over the current environment |
| Interpreters.Interpreter.ExecClass | src/Interpreter.java:102-115 | a class declaration binds its name to the new class in the current frame and changes no other frame |
| Resolvers.SetTop | src/Resolver.java:225-246 | marks one name in the innermost scope and leaves the outer scopes untouched |
| Resolvers.Distance | src/Resolver.java:253-262 | the distance is to the innermost scope that binds the name, and none means no scope does |
| Resolvers.DistanceOfInnermost | src/Resolver.java:253-262 | the scan from the innermost scope stops at the first scope binding the name, and that is the distance recorded |
| Resolvers.DeclareIn | src/Resolver.java:225-236 | declaring in a scope that already has the name is the redeclaration error; otherwise the name is marked declared but not defined |
| Resolvers.ResolveExpr | src/Resolver.java:146-210 | resolving an expression leaves the scope stack and the function and class flags unchanged; only distances are recorded |
| Resolvers.ResolveExprs | src/Resolver.java:171-176 | resolving a list of expressions leaves the scope stack and the function and class flags unchanged |
| Resolvers.ResolveStmt | src/Resolver.java:65-139 | a statement that resolves closes every scope it opens and restores the enclosing function and class flags |
| Resolvers.ResolveStmts | src/Resolver.java:268-272 | a statement list that resolves keeps the scope depth and the function and class flags |
| Resolvers.ResolveParams | src/Resolver.java:281-285 | declaring parameters keeps the scope depth and the flags, and records no distance |
| Resolvers.ResolveFunc | src/Resolver.java:278-291 | a function that resolves closes its parameter scope and restores the enclosing function kind |
| Resolvers.ResolveMethodDecls | src/Resolver.java:105-108 | methods that resolve keep the scope depth and the function and class flags |
| Resolvers.ExprRecordsOnlyItsNodes | src/Resolver.java:146-210 | resolving an expression records distances only for its own variable, assignment and `this` nodes, each below the number of open scopes (never for the property name of a get or set), and keeps earlier entries |
| Resolvers.ExprsRecordOnlyTheirNodes | src/Resolver.java:171-176 | the same for the arguments of a call |
| Resolvers.GlobalExprRecordsNothing | src/Resolver.java:253-262 | with no scope open, an expression records nothing, so every name stays global |
| Resolvers.ThisOutsideClassRejected | src/Resolver.java:196-202 | outside a class, no expression that mentions `this` anywhere resolves |
| Resolvers.ThisOutsideClassRejectedIn | src/Resolver.java:171-176 | outside a class, an argument list with `this` in any argument does not resolve |
| Resolvers.TopLevelReturnRejected | src/Resolver.java:122-129 | outside every function, no statement holding a `return` in its blocks or branches resolves |
| Resolvers.TopLevelReturnRejectedIn | src/Resolver.java:268-272 | outside every function, a statement list with such a statement anywhere does not resolve |
| Resolvers.ParamsBinding | src/Resolver.java:278-291 | parameters resolve exactly when their names are distinct and new to the scope; they are then all defined and the outer scopes are untouched; otherwise the error is the redeclaration at one of them |
| Resolvers.FunctionBodyScope | src/Resolver.java:278-291 | with distinct parameters, the body is resolved in one new scope binding exactly them, with the function kind set; repeated parameters are rejected before the body |
| Resolvers.OwnInitializerRejected | src/Resolver.java:72-88 | `var a = a;` in a local scope is the own-initializer error at the use |
| Resolvers.ThisInMethod | src/Resolver.java:95-111 | in a method body without a parameter named `this`, `this` resolves to the class scope one out from the parameters |
| Resolvers.Resolver.constructor | src/Resolver.java:51-53 | a new resolver has no scopes, and no enclosing function or class |
| Resolvers.Resolver.Run | src/Resolver.java:55-61 | the walk computes the resolve function on the whole program; a resolve error is reported once at its token, and nothing is reported otherwise |
| Resolvers.Resolver.BeginScope | src/Resolver.java:214-216 | pushes one empty scope |
| Resolvers.Resolver.EndScope | src/Resolver.java:218-220 | pops the innermost scope |
| Resolvers.Resolver.Declare | src/Resolver.java:225-236 | computes the declare function: skipped at the top level, the redeclaration error on a repeated name |
| Resolvers.Resolver.Define | src/Resolver.java:241-246 | marks the name defined in the innermost scope, and does nothing at the top level |
| Resolvers.Resolver.ResolveVariable | src/Resolver.java:253-262 | records the distance of the innermost scope binding the name, and nothing when no scope binds it |
| Resolvers.Resolver.ResolveExpression | src/Resolver.java:146-210 | computes the expression resolve function, including the own-initializer and `this` errors |
| Resolvers.Resolver.ResolveExpressions | src/Resolver.java:171-176 | resolves the arguments in order and stops at the first error |
| Resolvers.Resolver.ResolveStatements | src/Resolver.java:268-272 | resolves the statements in order and stops at the first error |
| Resolvers.Resolver.ResolveStatement | src/Resolver.java:65-139 | computes the statement resolve function, including the top-level `return` error |
| Resolvers.Resolver.ResolveVarDeclare | src/Resolver.java:72-88 | declares the name, resolves the initializer, then defines the name |
| Resolvers.Resolver.ResolveClass | src/Resolver.java:95-111 | binds the class name, then resolves the methods in a scope binding `this` with the class flag set |
| Resolvers.Resolver.ResolveMethods | src/Resolver.java:105-108 | resolves each method in order as a method |
| Resolvers.Resolver.ResolveFunction | src/Resolver.java:278-291 | opens the parameter scope, resolves the parameters then the body, and restores the enclosing function kind |
| Resolvers.Resolver.ResolveParameters | src/Resolver.java:281-285 | declares and defines every parameter in order, and stops at a repeated one |
| Parsers.Chain | src/Parser.java:319-401 | splitting an expression at one precedence level leaves a first operand that is not at that level |
| Parsers.OperandsShaped | src/Parser.java:319-401 | in a parsed binary or logical node, the left operand binds at least as tightly and the right operand strictly more tightly, so operators associate to the left |
| Parsers.ChainIsLeftFold | src/Parser.java:319-401 | folding the chain of one precedence level to the left rebuilds the expression |
| Parsers.ChainLinksBindTighter | src/Parser.java:319-401 | every right operand in that chain binds tighter than the level, and every operator in it belongs to the level |
| Parsers.Retarget | src/Parser.java:284-298 | `=` turns a variable into an assignment and a property access into a set, with the right-hand side as the value; any other target is the invalid assignment target error |
| Parsers.KindsAt | src/Parser.java:319-401 | the operator kinds matched at a level all have that precedence, and the logical ones are exactly the two lowest levels |
| Parsers.CombineShaped | src/Parser.java:319-401 | combining operands that bind tightly enough gives a well-shaped node at the operator's level |
| Parsers.DesugarShaped | src/Parser.java:233-250 | desugaring well-shaped `for` clauses gives a well-shaped statement |
| Parsers.Parser.constructor | src/Parser.java:43-48 | a parser starts before the first token |
| Parsers.Parser.NextToken | src/Parser.java:557-559 | the token under the cursor, and the out-of-bounds fault past the end |
| Parsers.Parser.EndOfFile | src/Parser.java:584-587 | the end is reached when the cursor has consumed the end-of-file token, or when the stream is only that token |
| Parsers.Parser.IsNextToken | src/Parser.java:564-566 | true only when a token of that kind is under the cursor |
| Parsers.Parser.Advance | src/Parser.java:536-540 | moves one token unless at the end, and returns the token just consumed |
| Parsers.Parser.MatchAtLeast | src/Parser.java:476-485 | consumes one token exactly when it has one of the kinds |
| Parsers.Parser.MatchAtLeastWithResult | src/Parser.java:500-509 | consumes one token exactly when it has one of the kinds, and returns that kind or `NONE` |
| Parsers.Parser.MatchPeek | src/Parser.java:517-531 | true exactly when the kind occurs somewhere before the end-of-file token; past the end it is the out-of-bounds fault |
| Parsers.Parser.PanicErrorCustom | src/Parser.java:640-642 | always the parse error at the token, reported once |
| Parsers.Parser.PanicError | src/Parser.java:653-659 | continues, consuming one token, exactly when the previous token has the kind or the kind occurs ahead; otherwise the parse error at the next token, reported once |
| Parsers.Parser.Synchronize | src/Parser.java:589-609 | skips past the offending token and stops at the next statement keyword or `;`, skipping none of them |
| Parsers.Parser.NewId | src/Parser.java:453-456 | hands out a new node id each time |
| Parsers.Parser.ParseExpression | src/Parser.java:272-274 | a parsed expression consumed tokens and is well-shaped; each error is reported exactly once |
| Parsers.Parser.ParseAssignment | src/Parser.java:281-303 | without `=` the result is the ternary and no `=` follows it; once both sides are parsed the result is `Retarget` of them: a variable becomes an assignment with a fresh id, a property read becomes a property write, and any other target is the `Invalid assignment identiifier` error at the `=` |
| Parsers.Parser.ParseTernary | src/Parser.java:305-317 | a parsed ternary is well-shaped at the ternary level or tighter |
| Parsers.Parser.ParseBranches | src/Parser.java:308-312 | both branches of `?:` are well-shaped at the `or` level or tighter |
| Parsers.Parser.ParseOperatorLevel | src/Parser.java:319-401 | an operator level parses a well-shaped expression binding at least that tightly |
| Parsers.Parser.ParseUnary | src/Parser.java:403-416 | `!` and `-` build a unary node on that operator over an operand at the unary level or tighter; a `+` is the `Unary '+'expressions are not supported` error reported at the token after the `+` |
| Parsers.Parser.ParseCall | src/Parser.java:418-437 | a parsed call chain is well-shaped at the call level |
| Parsers.Parser.ParseSuffix | src/Parser.java:424-434 | one call or property suffix wraps the expression, or nothing is consumed |
| Parsers.Parser.ParseProperty | src/Parser.java:427-431 | `.` followed by a name is a property access on the expression, named by the token consumed |
| Parsers.Parser.FinishCall | src/Parser.java:611-631 | a parsed call has the given callee and at most 255 well-shaped arguments |
| Parsers.Parser.ParseArguments | src/Parser.java:614-622 | a parsed list holds at most 255 well-shaped arguments, exactly those taken, and no comma follows it; 255 arguments and a comma are the `can't have more than 255 arguments` error at the token after the comma |
| Parsers.Parser.ParsePrimary | src/Parser.java:439-463 | a primary is a literal, group, variable or `this`; a token of a literal, identifier or `this` kind is consumed alone and parses; a token that cannot start a primary is the `Expect expression` error at that token |
| Parsers.Parser.ParseStatement | src/Parser.java:180-270 | a parsed statement consumed tokens and is well-shaped; a failure has been reported |
| Parsers.Parser.ParseBlockStatement | src/Parser.java:181-182 | `{` starts a well-shaped block statement |
| Parsers.Parser.ParsePrint | src/Parser.java:251-253 | `print` parses a well-shaped print statement |
| Parsers.Parser.ParseExpressionStatement | src/Parser.java:268-269 | any other statement is a well-shaped expression statement |
| Parsers.Parser.ParseCondition | src/Parser.java:184-186 | a parenthesised condition is a well-shaped expression |
| Parsers.Parser.ParseTerminator | src/Parser.java:191-195 | at a `}` nothing is consumed and the rule succeeds; at any other token it is `panicError(SEMI_COLON, message)`: it consumes one token and succeeds exactly when the previous token is a `;` or one occurs ahead, and otherwise is the error at the cursor |
| Parsers.Parser.ParseIf | src/Parser.java:183-200 | `if` parses a well-shaped conditional |
| Parsers.Parser.ParseElse | src/Parser.java:196-199 | without `else` nothing is consumed or reported; with it the branch is well-shaped |
| Parsers.Parser.ParseWhile | src/Parser.java:201-209 | `while` parses a well-shaped loop |
| Parsers.Parser.ParseFor | src/Parser.java:210-250 | `for` parses to the `while` desugaring of its clauses and body: a block holding the initializer first when there is one; a loop on the condition, or `true` without one; a loop body that runs the statement and then the increment, or whichever of the two exists; a `;` in place of the statement leaves it out |
| Parsers.Parser.ParseForClauses | src/Parser.java:211-226 | the three clauses are well-shaped, and the initializer is never the null statement |
| Parsers.Parser.ParseForSteps | src/Parser.java:217-226 | the condition and increment clauses are well-shaped |
| Parsers.Parser.ParseForInitializer | src/Parser.java:212-216 | an initializer is a well-shaped declaration, and an empty one consumes the `;` |
| Parsers.Parser.ParseForClause | src/Parser.java:217-226 | a present condition or increment is a well-shaped expression |
| Parsers.Parser.ParseReturn | src/Parser.java:254-265 | `return` keeps its keyword token; before a `;` it has no value and the `;` is left in place |
| Parsers.Parser.ParseReturnValue | src/Parser.java:256-259 | the value is absent exactly when a `;` follows, and then nothing is consumed |
| Parsers.Parser.ParseDeclaration | src/Parser.java:98-112 | a declaration never fails: a syntax error leaves a reported null statement, and progress is made unless at the end |
| Parsers.Parser.ParseDeclarationRule | src/Parser.java:99-107 | `var`, `fun`, `class` or a statement, well-shaped and never the null statement |
| Parsers.Parser.ParseVar | src/Parser.java:114-124 | `var` parses a well-shaped declaration with an optional initializer |
| Parsers.Parser.ParseFunction | src/Parser.java:126-157 | a function declaration has at most 255 parameters and a well-shaped body |
| Parsers.Parser.ParseParameters | src/Parser.java:132-142 | a parsed list holds at most 255 names, exactly those taken, and no comma follows it; 255 names and a comma are the `can't have more than 255 parameters` error at the token after the comma |
| Parsers.Parser.ParseFunctionBody | src/Parser.java:145-154 | a body is a block or one statement, each well-shaped |
| Parsers.Parser.ParseClass | src/Parser.java:159-178 | a class declaration has well-shaped methods; a superclass clause is recorded as a variable named by the `<` token |
| Parsers.Parser.ParseClassHead | src/Parser.java:160-167 | the class name is the token at the cursor; without a `<` after it nothing more is consumed; with one, the superclass clause is named by the `<` token itself and two tokens are consumed |
| Parsers.Parser.ParseClassBody | src/Parser.java:169-175 | the methods between the braces are well-shaped |
| Parsers.Parser.ParseMethods | src/Parser.java:171-174 | methods are read until `}` or the end, each well-shaped |
| Parsers.Parser.ParseBlock | src/Parser.java:79-96 | a block's declarations are well-shaped, end before `}`, and a null statement in them means an error was reported |
| Parsers.Parser.ParseProgram | src/Parser.java:65-77 | the program's statements are well-shaped, parsing stops at the last `;`, and any null statement means the error flag is set |
| Parsers.Parser.ParseItem | src/Parser.java:69-74 | one declaration and the `;` or `}` after it; progress is made unless at the end |

Some functions of the model compute what a source method computes and are the specifications
that listed members are proved against; they carry no contract of their own:

- `Operators.Clean` (src/Interpreter.java:326-337), stated by `Operators.CleanCases`;
- `Tan.TanClass.FindMethod` (src/Tan.java:218-226), stated by `Tan.TanClass.FindMethodNearest`;
- `Tan.TanClass.Arity` (src/Tan.java:200-203), stated by `Tan.TanClass.ArityOfInit`;
- `Tan.TanFunction.Arity` (src/Tan.java:156-158), used by `Operators.CheckCall` and `Operators.CallErrors`;
- `Parsers.DesugarFor` (src/Parser.java:233-250), stated by `Parsers.Parser.ParseFor`;
- `Parsers.Parser.PrevToken` (src/Parser.java:545-547), used by the contracts of the parser's cursor steps;
- `Resolvers.DefineIn`, `Resolvers.BeginScope` and `Resolvers.EndScope` (src/Resolver.java:241-246,
  214-216, 218-220), computed by `Resolvers.Resolver.Define`, `Resolvers.Resolver.BeginScope`
  and `Resolvers.Resolver.EndScope`.

## Left out

- The scanner is not part of this model; the parser takes its token list as input. The list is
  assumed to end with exactly one end-of-file token, as the scanner produces it.
- `Tan.main`, `run` and the `mode*` entry points (src/Tan.java:35-120) are left out. They hold
  file and prompt I/O and the wiring of the stages. That wiring does not stop after a parse
  error.
- The `clock` native function is left out: it reads the system clock.
- Standard output and standard error are sequences of lines kept in the model (`out`, `output`).
- Numbers are `real`, not IEEE doubles. Rounding, infinities and NaN are not modelled.
  `Double.toString` is a parameter (`showNumber`) of the interpreter.
- The JVM stack-trace and suppression flags of `ReturnException` are left out; a `return` is
  a completion value instead.
- Interpreters.Interpreter.Evaluate: calls and `while` loops carry a fuel bound; running out of
  fuel is an `OutOfFuel` fault, which does not exist in the source, where the recursion could
  diverge or overflow the stack.
- Interpreters.Interpreter.RunBlock: `Tan.err.report(e)` at src/Interpreter.java:75 has no
  matching overload in src/Error.java. The model keeps the caught runtime error in the
  interpreter's `reported` list instead of formatting it.
- Interpreters.Interpreter.ExecFunction: the source constructs a `TanFunction` with an argument
  list that does not match its constructor. The model reads it as: a `fun` declaration is never
  an initializer; a method is one exactly when its name is `init`; a class has no superclass,
  because the interpreter never evaluates the superclass clause.
- Interpreters.Interpreter.Evaluate: a `this` expression has no case in the evaluator and falls to
  the `Expression error` default (src/Interpreter.java:296-299), as written.
- Interpreters.Interpreter.Evaluate: the exact result is stated for side-effect-free
  expressions only (literals, groupings, reads, `this` and the operators, as `PureEval`). An
  assignment, property access or call is stated through its sub-results, the frame or field it
  writes and the closed-world invariant, and it may run out of fuel.
- Interpreters.Interpreter.EvalEffect: it states only that the heap stays closed. The result of
  each kind is stated by `EvalAssign`, `EvalSet`, `EvalGet` and `EvalCall`.
- Interpreters.Interpreter.EvalAssign: a value expression with side effects is tied to the
  result only through the ghost sub-result `value`.
- Interpreters.Interpreter.EvalSet: an object or value expression with side effects is tied to
  the result only through the ghost sub-results.
- Interpreters.Interpreter.EvalGet: an object expression with side effects is tied to the result
  only through the ghost sub-result `obj`.
- Interpreters.Interpreter.EvalCall: a call expression is not tied to `PureCall`. Evaluating
  side-effect-free operands is proved to keep the active scope, not every closure, so the
  callee's closure frames at the call are not tied to those before it. `Invoke` and
  `CallFunction` state the tie from the point of the call.
- Interpreters.Interpreter.Invoke: a class callee is stated by `CallClass` only (a fresh
  instance; only `init` can fail). The bound `init` runs over a fresh closure, so no reference
  result is stated for it.
- Interpreters.Interpreter.RunStatement: nested blocks, `while`, declarations, and statements
  with calls or writes are not tied to `PureStep`. A nested block allocates an environment and
  can report an error, so it is outside `PureStmt`.
- Interpreters.Interpreter.ExecWhile: only the first test of the condition is tied to
  `PureEval`. A loop whose body runs is stated by its final falsey test and the closed-world
  invariant, not by a reference semantics of its iterations.
- Interpreters.Interpreter.ExecVarDeclare: an initializer with side effects is tied to the
  binding only through the ghost sub-result `v`.
- Interpreters.Interpreter.RunBlock: a block with a statement outside `PureStmt` is stated only
  by the order of its statements, the report of a caught error and the restored environment. It
  can run out of fuel.
- `getAST` and the `ASTPrint` tree printer are left out: they only print.
- Parsers.Parser.NewId: distinctness of node ids across one parse is not proved. Each call is
  proved to return a new counter value.
- Parsers.Parser.ParseStatement: the statement rules that can call `declaration()` state only
  that a failure was reported (the report list grew), not the exact single report.
- Parsers.Parser.FinishCall: it has no clause for the fault at the end of the token list.
- Parsers.Parser.ParseExpression: the grammar rules state the shape of the tree and that the
  cursor moved. They do not state the exact cursor position afterwards.
- Parsers.Parser.ParseClass: the superclass clause is modelled as written: the `VarAccess` it
  builds is named by the token before the identifier, which is the `<`.
- Parsers.Parser.PanicError: the second chance accepts the next token whatever it is, once the
  expected kind occurs anywhere ahead, as written.
- Parsers.Parser.ParseBlock: the end-of-file check after the loop cannot fire, as written.
- Parsers.Parser.ParseProgram: tokens after the last `;` are not parsed, as written.
