# klox core in Dafny

A Dafny model of the front half and the value semantics of klox, a Kotlin
tree-walking interpreter for Lox.

- **Parser.** `Parser.kt` is a recursive-descent parser. It consumes a token
  list and returns a list of statements. A statement that failed is `null`.
  Errors are reported through `Lox.error`, and parsing recovers by panic mode.
- **Resolver.** `Resolver.kt` is a static pass. It keeps a stack of scopes
  (name → ready flag) and reports misuse of `return` and `this`. It tells the
  interpreter, through `interpreter.resolve(expr, depth)`, how many scopes
  separate a variable use from its declaration.
- **Environment.** `Environment.kt` is the run-time chain of variable tables.
- **Instances.** `LoxInstance.kt` is an object with mutable fields.
- **Values.** `Interpreter.kt` gives the value semantics: truthiness,
  equality, unary and binary operators, and `stringify`.
- **Printer.** `AstPrinter.kt` renders expressions in prefix form.

The code is modelled in its own form:

- **Parser** is a class with `tokens`, `current` and an error log. Every
  parsing method is proved to compute exactly what the functional grammar in
  `ParserSpec` computes from the old cursor and log. The functions of
  `ParserSpec` thread the cursor and the log explicitly.
- **Resolver** is a class with its five fields. Every method is proved to
  leave `State()` equal to what `ResolverSpec` computes from the old state.
  The calls to `interpreter.resolve` are recorded in a `resolutions` log, and
  the `Lox.error` reports in an `errors` log.
- **Environment** is a class with a mutable `values` map and an immutable
  `enclosing` link. A ghost `Chain` lists the environment and its ancestors.
  Each operation is stated over `Frames()`, the tables along that chain.
- **LoxInstance** is a class with a mutable `fields` map.
- **The syntax tree, the interpreter's operators and the printer** are
  datatypes and functions. `AstPrinter.Parenthesize` keeps its
  `StringBuilder` loop as a method.

The properties proved over these models are listed below.

- **Precedence and associativity.** Every tree the expression grammar builds
  is well nested: a binary node's left operand binds at least as tightly as
  the node and its right operand strictly more tightly. Only parentheses
  reset this.
- **Assignment targets.** An invalid assignment target is reported without
  failing the parse.
- **Parse results.** `parse` returns at most one statement per token, and
  every `null` statement has its own report.
- **Resolver bookkeeping.** `resolveLocal` records exactly the scopes that
  hold the name, innermost first, with the right distance. The
  initializer-read error, the duplicate declaration and `this` outside a
  class are reported exactly in the cases the code tests for. Each `return`
  error is reported in its case. A `return` inside a function adds no report
  of its own, unless it returns a value from an initializer. Declarations
  leave the name ready in the innermost scope.
- **Environment.** `assign` rewrites exactly the innermost binding, and fails
  exactly when no table binds the name. `get` after `assign` or `define`
  returns the new value.

The model follows the code where it departs from the usual Lox semantics:

- **`resolveLocal` has no `break`** (`Resolver.kt:64-68`). It calls
  `interpreter.resolve` once for every scope on the stack that holds the
  name, innermost first, instead of stopping at the first.
  `ResolverProperties.ShadowedNameReportedTwice` shows the two calls for a
  shadowed name. `Interpreter.resolve` is not part of this model, so whether
  the first or the last call wins at run time cannot be determined from the
  code.
- **The parser covers a subset of the language.** `Parser.kt` parses
  expressions only through the levels equality, comparison, term, factor,
  unary and primary. There is no logical operator, call, property access or
  `Set` target. The statements it parses are expression, `print`, `var` and
  block. The resolver nonetheless visits the larger tree, so `Ast` holds
  every node kind it visits.

## Model

| member | source | states |
|---|---|---|
| Parsing.Parser.constructor | src/main/kotlin/Parser.kt:5-8 | a new parser stands on the first token and has reported nothing |
| Parsing.Parser.IsAtEnd | src/main/kotlin/Parser.kt:26-28 | true exactly when the current token is EOF |
| Parsing.Parser.Peek | src/main/kotlin/Parser.kt:35-37 | returns the token under the cursor |
| Parsing.Parser.Previous | src/main/kotlin/Parser.kt:39-41 | returns the token just before the cursor |
| Parsing.Parser.Check | src/main/kotlin/Parser.kt:21-24 | true when the current token has the kind; never true at EOF, whatever kind is asked for |
| Parsing.Parser.Advance | src/main/kotlin/Parser.kt:30-33 | moves one token forward except at EOF, and returns the token just passed; reports are untouched |
| Parsing.Parser.Match | src/main/kotlin/Parser.kt:10-19 | true exactly when the current token is not EOF and has one of the listed kinds; then exactly that token is consumed, otherwise nothing is |
| Parsing.Parser.Error | src/main/kotlin/Parser.kt:49-52 | appends one report for the token and message, cursor unchanged |
| Parsing.Parser.Consume | src/main/kotlin/Parser.kt:43-47 | agrees with ParserSpec.Consume: the expected token is returned and passed, otherwise a ParseError with one report at the current token and no movement |
| Parsing.Parser.Synchronize | src/main/kotlin/Parser.kt:54-65 | leaves the cursor where ParserSpec.Synchronize says: past at least one token, at the first recovery point |
| Parsing.Parser.Expression | src/main/kotlin/Parser.kt:67-69 | cursor, reports and result are those of ParserSpec.Expression |
| Parsing.Parser.Assignment | src/main/kotlin/Parser.kt:71-87 | cursor, reports and result are those of ParserSpec.Assignment |
| Parsing.Parser.Equality | src/main/kotlin/Parser.kt:89-99 | cursor, reports and result are those of ParserSpec.Equality (the `while` loop is proved against ParserSpec.EqualityLoop) |
| Parsing.Parser.Comparison | src/main/kotlin/Parser.kt:101-111 | cursor, reports and result are those of ParserSpec.Comparison |
| Parsing.Parser.Term | src/main/kotlin/Parser.kt:113-123 | cursor, reports and result are those of ParserSpec.Term |
| Parsing.Parser.Factor | src/main/kotlin/Parser.kt:125-135 | cursor, reports and result are those of ParserSpec.Factor |
| Parsing.Parser.Unary | src/main/kotlin/Parser.kt:137-145 | cursor, reports and result are those of ParserSpec.Unary |
| Parsing.Parser.Primary | src/main/kotlin/Parser.kt:147-167 | cursor, reports and result are those of ParserSpec.Primary, so it throws "Expceted expression" exactly on a token that starts no primary, and "Expected ')' after expression" when a parenthesised expression is not closed |
| Parsing.Parser.ExpressionStatement | src/main/kotlin/Parser.kt:169-173 | cursor, reports and result are those of ParserSpec.ExpressionStatement |
| Parsing.Parser.PrintStatement | src/main/kotlin/Parser.kt:175-179 | cursor, reports and result are those of ParserSpec.PrintStatement |
| Parsing.Parser.Block | src/main/kotlin/Parser.kt:181-190 | cursor, reports and statement list are those of ParserSpec.Block |
| Parsing.Parser.Statement | src/main/kotlin/Parser.kt:192-197 | cursor, reports and result are those of ParserSpec.Statement |
| Parsing.Parser.VarDeclaration | src/main/kotlin/Parser.kt:199-205 | cursor, reports and result are those of ParserSpec.VarDeclaration |
| Parsing.Parser.Declaration | src/main/kotlin/Parser.kt:207-215 | cursor, reports and result are those of ParserSpec.Declaration: `null` exactly when the statement failed, with the cursor where `synchronize` leaves it |
| Parsing.Parser.Parse | src/main/kotlin/Parser.kt:217-225 | the statement list and all reports are those of ParserSpec.ParseLoop from the start |
| ParserSpec.Advance | src/main/kotlin/Parser.kt:30-33 | the cursor stays on EOF and otherwise moves by exactly one |
| ParserSpec.LiteralValue | src/main/kotlin/Parser.kt:152-154 | a NUMBER or STRING token yields the number or string it carries |
| ParserSpec.SyncLoop | src/main/kotlin/Parser.kt:57-64 | stops at the first position that follows `;`, starts a declaration keyword or is EOF, and skips no such position |
| ParserSpec.Synchronize | src/main/kotlin/Parser.kt:54-65 | the cursor moves forward, by at least one token when not at EOF, and stays on a token |
| ParserSpec.Consume | src/main/kotlin/Parser.kt:43-47 | succeeds exactly when the current token has the kind, returning it and moving one; otherwise fails with one report at the current token, cursor unchanged |
| ParserSpec.Expression | src/main/kotlin/Parser.kt:67-69 | the cursor only moves forward, reports are only appended, a failure has been reported, and a success consumed a token |
| ParserSpec.Assignment | src/main/kotlin/Parser.kt:71-87 | as for Expression |
| ParserSpec.Equality | src/main/kotlin/Parser.kt:89-99 | as for Expression |
| ParserSpec.EqualityLoop | src/main/kotlin/Parser.kt:92-96 | the cursor only moves forward, reports are only appended, a failure has been reported |
| ParserSpec.Comparison | src/main/kotlin/Parser.kt:101-111 | as for Expression |
| ParserSpec.ComparisonLoop | src/main/kotlin/Parser.kt:104-108 | as for EqualityLoop |
| ParserSpec.Term | src/main/kotlin/Parser.kt:113-123 | as for Expression |
| ParserSpec.TermLoop | src/main/kotlin/Parser.kt:116-120 | as for EqualityLoop |
| ParserSpec.Factor | src/main/kotlin/Parser.kt:125-135 | as for Expression |
| ParserSpec.FactorLoop | src/main/kotlin/Parser.kt:128-132 | as for EqualityLoop |
| ParserSpec.Unary | src/main/kotlin/Parser.kt:137-145 | as for Expression |
| ParserSpec.Primary | src/main/kotlin/Parser.kt:147-167 | as for Expression; a token other than `false`, `true`, `nil`, a number, a string, an identifier or `(` fails in place with "Expceted expression" at that token; the others but `(` consume one token and report nothing; after `(` it succeeds exactly when the inner expression parses and is followed by `)`, and a missing `)` fails with "Expected ')' after expression" at the token found instead |
| ParserSpec.ExpressionStatement | src/main/kotlin/Parser.kt:169-173 | as for Expression |
| ParserSpec.PrintStatement | src/main/kotlin/Parser.kt:175-179 | as for Expression |
| ParserSpec.VarDeclaration | src/main/kotlin/Parser.kt:199-205 | as for Expression |
| ParserSpec.Statement | src/main/kotlin/Parser.kt:192-197 | as for Expression |
| ParserSpec.Block | src/main/kotlin/Parser.kt:181-190 | as for Expression |
| ParserSpec.BlockLoop | src/main/kotlin/Parser.kt:184-186 | as for Expression, and the declarations already collected stay at the front of the list |
| ParserSpec.Declaration | src/main/kotlin/Parser.kt:207-215 | never fails (the ParseError is caught), always consumes a token, and a `null` result comes with at least one new report; the result is `null` exactly when the `var` declaration or statement failed, the cursor then moving to where `synchronize` stops, and otherwise it is that statement with its cursor; the reports are the statement's |
| ParserProperties.ExpressionNested | src/main/kotlin/Parser.kt:67-69 | every expression parsed is well nested (precedence and left associativity of the binary levels) |
| ParserProperties.AssignmentNested | src/main/kotlin/Parser.kt:71-87 | every assignment-level tree is well nested |
| ParserProperties.EqualityNested | src/main/kotlin/Parser.kt:89-99 | an equality-level tree is well nested and binds at least as tightly as `==`/`!=` |
| ParserProperties.EqualityLoopNested | src/main/kotlin/Parser.kt:92-96 | each round keeps the tree well nested: the right operand of `==` or `!=` is never itself an equality |
| ParserProperties.ComparisonNested | src/main/kotlin/Parser.kt:101-111 | a comparison-level tree is well nested and binds at least as tightly as `<` |
| ParserProperties.ComparisonLoopNested | src/main/kotlin/Parser.kt:104-108 | each round keeps the tree well nested and left-associative |
| ParserProperties.TermNested | src/main/kotlin/Parser.kt:113-123 | a term-level tree is well nested and binds at least as tightly as `+`/`-` |
| ParserProperties.TermLoopNested | src/main/kotlin/Parser.kt:116-120 | each round keeps the tree well nested: the right operand of `-` or `+` is never itself a term |
| ParserProperties.FactorNested | src/main/kotlin/Parser.kt:125-135 | a factor-level tree is well nested and binds at least as tightly as `*`/`/` |
| ParserProperties.FactorLoopNested | src/main/kotlin/Parser.kt:128-132 | each round keeps the tree well nested and left-associative |
| ParserProperties.UnaryNested | src/main/kotlin/Parser.kt:137-145 | a unary-level tree is a `!`/`-` node over a unary or a primary |
| ParserProperties.VariableFactor | src/main/kotlin/Parser.kt:125-158 | an identifier not followed by `*` or `/` parses as a factor that is just that variable |
| ParserProperties.VariableComparison | src/main/kotlin/Parser.kt:101-158 | an identifier followed by no comparison, term or factor operator parses as a comparison that is just that variable |
| ParserProperties.SubtractionGroupsLeft | src/main/kotlin/Parser.kt:113-123 | `a - b - c` parses as `(a - b) - c`, consuming everything but EOF and reporting nothing |
| ParserProperties.EqualityGroupsLeft | src/main/kotlin/Parser.kt:89-99 | `a == b == c` parses as `(a == b) == c`, consuming everything but EOF and reporting nothing |
| ParserProperties.PrimaryNested | src/main/kotlin/Parser.kt:147-167 | a primary is a literal, a variable or a parenthesised well nested expression |
| ParserProperties.AssignmentTarget | src/main/kotlin/Parser.kt:71-87 | `v = e` with a variable `v` gives an Assign to that name with value `e`; any other left side is returned unchanged with "Invalid assignment target." reported at the `=`, and parsing goes on |
| ParserProperties.ParseLoopShape | src/main/kotlin/Parser.kt:220-222 | each round of the loop keeps the statements so far, adds at most one per token consumed, only appends reports, and each `null` added has a report of its own |
| ParserProperties.ParseShape | src/main/kotlin/Parser.kt:217-225 | `parse` returns at most one statement per token before EOF; there are no more `null` statements than reports, so a parse without reports has none |
| Resolving.Resolver.constructor | src/main/kotlin/Resolver.kt:5-8 | no scopes, no current function or class, nothing reported or resolved |
| Resolving.Resolver.BeginScope | src/main/kotlin/Resolver.kt:18-20 | state becomes ResolverSpec.BeginScope: one empty scope pushed, nothing else changed |
| Resolving.Resolver.EndScope | src/main/kotlin/Resolver.kt:22-24 | state becomes ResolverSpec.EndScope: the innermost scope popped |
| Resolving.Resolver.Declare | src/main/kotlin/Resolver.kt:49-56 | state becomes ResolverSpec.Declare |
| Resolving.Resolver.Define | src/main/kotlin/Resolver.kt:58-61 | state becomes ResolverSpec.Define |
| Resolving.Resolver.ResolveLocal | src/main/kotlin/Resolver.kt:63-69 | the `downTo` loop appends exactly ResolverSpec.LocalResolutions (see the ResolverProperties rows) |
| Resolving.Resolver.ResolveFunction | src/main/kotlin/Resolver.kt:34-47 | state becomes ResolverSpec.ResolveFunction; the parameter loop is proved against ResolverSpec.DeclareParams |
| Resolving.Resolver.ResolveStmts | src/main/kotlin/Resolver.kt:71-73 | state becomes ResolverSpec.ResolveStmts: each statement in order, `null` skipped |
| Resolving.Resolver.ResolveStmt | src/main/kotlin/Resolver.kt:26-28 | state becomes ResolverSpec.ResolveStmt |
| Resolving.Resolver.VisitBlockStmt | src/main/kotlin/Resolver.kt:75-79 | state becomes ResolverSpec.VisitBlock |
| Resolving.Resolver.VisitClassStmt | src/main/kotlin/Resolver.kt:81-101 | state becomes ResolverSpec.VisitClass |
| Resolving.Resolver.ResolveMethods | src/main/kotlin/Resolver.kt:91-97 | state becomes ResolverSpec.ResolveMethods |
| Resolving.Resolver.VisitExpressionStmt | src/main/kotlin/Resolver.kt:103-105 | state becomes ResolverSpec.ResolveStmt of the statement |
| Resolving.Resolver.VisitFunctionStmt | src/main/kotlin/Resolver.kt:107-112 | state becomes ResolverSpec.ResolveStmt of the statement |
| Resolving.Resolver.VisitIfStmt | src/main/kotlin/Resolver.kt:114-118 | state becomes ResolverSpec.ResolveStmt of the statement |
| Resolving.Resolver.VisitPrintStmt | src/main/kotlin/Resolver.kt:120-122 | state becomes ResolverSpec.ResolveStmt of the statement |
| Resolving.Resolver.VisitReturnStmt | src/main/kotlin/Resolver.kt:124-135 | state becomes ResolverSpec.ResolveStmt of the statement |
| Resolving.Resolver.VisitVarStmt | src/main/kotlin/Resolver.kt:137-141 | state becomes ResolverSpec.ResolveStmt of the statement |
| Resolving.Resolver.VisitWhileStmt | src/main/kotlin/Resolver.kt:143-146 | state becomes ResolverSpec.ResolveStmt of the statement |
| Resolving.Resolver.ResolveExpr | src/main/kotlin/Resolver.kt:30-32 | state becomes ResolverSpec.ResolveExpr |
| Resolving.Resolver.VisitAssignExpr | src/main/kotlin/Resolver.kt:148-151 | state becomes ResolverSpec.ResolveExpr of the expression |
| Resolving.Resolver.VisitBinaryExpr | src/main/kotlin/Resolver.kt:153-156 | state becomes ResolverSpec.ResolveExpr of the expression |
| Resolving.Resolver.VisitCallExpr | src/main/kotlin/Resolver.kt:158-161 | state becomes ResolverSpec.ResolveExpr; the argument loop is proved against ResolverSpec.ResolveExprs |
| Resolving.Resolver.VisitGetExpr | src/main/kotlin/Resolver.kt:163-165 | state becomes ResolverSpec.ResolveExpr of the expression |
| Resolving.Resolver.VisitGroupingExpr | src/main/kotlin/Resolver.kt:167-169 | state becomes ResolverSpec.ResolveExpr of the expression |
| Resolving.Resolver.VisitLiteralExpr | src/main/kotlin/Resolver.kt:171 | a literal leaves the state as ResolverSpec.ResolveExpr has it, unchanged |
| Resolving.Resolver.VisitLogicalExpr | src/main/kotlin/Resolver.kt:173-176 | state becomes ResolverSpec.ResolveExpr of the expression |
| Resolving.Resolver.VisitSetExpr | src/main/kotlin/Resolver.kt:178-181 | state becomes ResolverSpec.ResolveExpr of the expression (value first, then object) |
| Resolving.Resolver.VisitThisExpr | src/main/kotlin/Resolver.kt:183-189 | state becomes ResolverSpec.ResolveExpr of the expression |
| Resolving.Resolver.VisitUnaryExpr | src/main/kotlin/Resolver.kt:191-193 | state becomes ResolverSpec.ResolveExpr of the expression |
| Resolving.Resolver.VisitVariableExpr | src/main/kotlin/Resolver.kt:195-201 | state becomes ResolverSpec.ResolveExpr of the expression |
| ResolverSpec.BeginScope | src/main/kotlin/Resolver.kt:18-20 | the stack grows by one empty scope on top of the old stack; nothing else changes |
| ResolverSpec.EndScope | src/main/kotlin/Resolver.kt:22-24 | the stack loses its innermost scope; nothing else changes |
| ResolverSpec.Declare | src/main/kotlin/Resolver.kt:49-56 | nothing at top level; otherwise same depth, outer scopes untouched, and the innermost scope maps the name to `false` (declared, not ready) and keeps its other entries; nothing is resolved and reports are only appended |
| ResolverSpec.Define | src/main/kotlin/Resolver.kt:58-61 | with a scope open, the innermost scope marks the name ready; nothing is reported or resolved |
| ResolverSpec.ResolveLocalLoop | src/main/kotlin/Resolver.kt:64-68 | every call made by the loop over scopes n-1..0 is for this node, at a distance of a scope the loop visited |
| ResolverSpec.LocalResolutions | src/main/kotlin/Resolver.kt:63-69 | at most one call per scope, every call for this node with a distance inside the stack |
| ResolverSpec.ResolveLocal | src/main/kotlin/Resolver.kt:63-69 | only the record of `interpreter.resolve` calls grows: scopes, context and reports are unchanged, the earlier calls are kept, and the new ones are LocalResolutions, for this node, at most one per scope |
| ResolverSpec.ResolveExpr | src/main/kotlin/Resolver.kt:148-201 | an expression never changes the scopes or the function and class kinds, only appends reports and resolutions, and every new distance is inside the stack |
| ResolverSpec.ResolveExprs | src/main/kotlin/Resolver.kt:160 | as for ResolveExpr, for the arguments in order |
| ResolverSpec.ResolveStmt | src/main/kotlin/Resolver.kt:75-146 | a statement keeps the stack depth and the outer scopes, may only add names to the innermost one, restores the function and class kinds, only appends reports and resolutions, and a block leaves the scopes exactly as they were |
| ResolverSpec.VisitBlock | src/main/kotlin/Resolver.kt:75-79 | the scopes after the block are the scopes before it |
| ResolverSpec.VisitClass | src/main/kotlin/Resolver.kt:81-101 | the class scope is gone afterwards and the enclosing class kind is restored |
| ResolverSpec.VisitReturn | src/main/kotlin/Resolver.kt:124-135 | scopes and kinds unchanged; reports and resolutions only appended |
| ResolverSpec.VisitVar | src/main/kotlin/Resolver.kt:137-141 | only the innermost scope may gain names; reports and resolutions only appended |
| ResolverSpec.ResolveStmts | src/main/kotlin/Resolver.kt:71-73 | as for ResolveStmt, over the list |
| ResolverSpec.DeclareParams | src/main/kotlin/Resolver.kt:39-42 | every parameter is ready in the function scope afterwards, names ready before stay ready, nothing is resolved |
| ResolverSpec.ResolveFunction | src/main/kotlin/Resolver.kt:34-47 | the function scope is popped again and the enclosing function kind restored |
| ResolverSpec.MethodKind | src/main/kotlin/Resolver.kt:92-94 | a method is an initializer exactly when it is named `init`, and a method otherwise |
| ResolverSpec.ResolveMethods | src/main/kotlin/Resolver.kt:91-97 | scopes and kinds unchanged across the method loop |
| ResolverSpec.Resolve | src/main/kotlin/Resolver.kt:71-73 | resolving a whole program from a fresh resolver ends with no scope open and no current function or class |
| ResolverProperties.LoopReportsOnlyHoldingScopes | src/main/kotlin/Resolver.kt:64-68 | the loop calls `interpreter.resolve` only with the distance of a scope that holds the name |
| ResolverProperties.LoopReportsEveryHoldingScope | src/main/kotlin/Resolver.kt:64-68 | the loop calls `interpreter.resolve` for every scope it visits that holds the name |
| ResolverProperties.LoopReportsInnermostFirst | src/main/kotlin/Resolver.kt:64-68 | the calls come in strictly increasing distance |
| ResolverProperties.LoopReportsNearestFirst | src/main/kotlin/Resolver.kt:64-68 | the first call is for the innermost scope holding the name |
| ResolverProperties.LocalResolutionsExact | src/main/kotlin/Resolver.kt:63-69 | `resolveLocal` calls `interpreter.resolve` exactly once per scope holding the name, with its distance from the innermost scope, nearest first |
| ResolverProperties.GlobalIffNoResolution | src/main/kotlin/Resolver.kt:63-69 | no call is made exactly when no scope holds the name (a global) |
| ResolverProperties.ShadowedNameReportedTwice | src/main/kotlin/Resolver.kt:64-68 | a name declared in two nested scopes is reported at distance 0 and then at distance 1 |
| ResolverProperties.GlobalExprNoResolution | src/main/kotlin/Resolver.kt:148-201 | at top level (no scope open) resolving any expression makes no `interpreter.resolve` call |
| ResolverProperties.GlobalExprsNoResolution | src/main/kotlin/Resolver.kt:158-161 | the same for a list of call arguments |
| ResolverProperties.DuplicateDeclaration | src/main/kotlin/Resolver.kt:49-56 | "Already a variable with this name in this scope." is reported exactly when the innermost scope already holds the name; at top level nothing happens |
| ResolverProperties.SelfInitializerReported | src/main/kotlin/Resolver.kt:195-198 | in `var a = a;` inside a scope, "Can't read local variable in its own initializer" is reported, and nothing else |
| ResolverProperties.ReturnAtTopLevel | src/main/kotlin/Resolver.kt:124-127 | `return` outside any function first reports "Can't return from top-level code." |
| ResolverProperties.ReturnValueFromInitializer | src/main/kotlin/Resolver.kt:129-134 | `return value;` in an initializer first reports "Can't return a value from an initializer." |
| ResolverProperties.ReturnInFunction | src/main/kotlin/Resolver.kt:124-135 | inside any function a bare `return;` changes nothing, and outside an initializer `return value;` only resolves the value: no report of its own |
| ResolverProperties.ThisInClass | src/main/kotlin/Resolver.kt:183-189 | inside a class `this` reports nothing |
| ResolverProperties.VariableRead | src/main/kotlin/Resolver.kt:195-201 | reading a variable reports "Can't read local variable in its own initializer" exactly when the name is declared but not ready in the innermost scope, and nothing otherwise |
| ResolverProperties.ThisOutsideClass | src/main/kotlin/Resolver.kt:183-187 | `this` outside a class reports "Can't use 'this' outside of a class." and resolves nothing |
| ResolverProperties.ThisInMethod | src/main/kotlin/Resolver.kt:183-189 | in a method body directly inside the class scope that binds `this`, `this` is first resolved at distance 1 |
| ResolverProperties.VarReady | src/main/kotlin/Resolver.kt:137-141 | after a local `var` the name is ready in the innermost scope |
| ResolverProperties.FunctionReady | src/main/kotlin/Resolver.kt:107-112 | after a local `fun` the name is ready in the innermost scope |
| ResolverProperties.ClassReady | src/main/kotlin/Resolver.kt:81-101 | after a local class the stack has its old depth and the class name is ready in the innermost scope |
| Environments.Lookup | src/main/kotlin/Environment.kt:32-40 | `get` succeeds exactly when some table binds the name, returning the value of the innermost such table; otherwise the "Undefined variable" error for that token |
| Environments.Nearest | src/main/kotlin/Environment.kt:32-40 | finds the innermost table binding the name, with no nearer table binding it, or reports that none does |
| Environments.Assigned | src/main/kotlin/Environment.kt:6-14 | a successful `assign` keeps the number of tables |
| Environments.Environment.constructor | src/main/kotlin/Environment.kt:3-4 | a new environment has an empty table in front of its enclosing chain |
| Environments.Environment.Define | src/main/kotlin/Environment.kt:20-22 | binds or rebinds the name in this table only; every other table is unchanged |
| Environments.Environment.Get | src/main/kotlin/Environment.kt:32-40 | returns the value in the innermost table binding the name, or the "Undefined variable" error |
| Environments.Environment.Assign | src/main/kotlin/Environment.kt:6-14 | rewrites the innermost binding and nothing else, or throws "Undefined variable" and changes nothing |
| Environments.Environment.Ancestor | src/main/kotlin/Environment.kt:24-30 | returns the environment `distance` links up the chain (this one for distance 0 or less), or null past the end |
| Environments.Environment.GetAt | src/main/kotlin/Environment.kt:42-44 | returns the value bound in the table `distance` links up, or null when that table or that binding is missing |
| Environments.Environment.AssignAt | src/main/kotlin/Environment.kt:16-18 | writes the name into the table `distance` links up and changes nothing else; nothing when the chain is shorter |
| Environments.AssignThenLookup | src/main/kotlin/Environment.kt:6-40 | after a successful `assign`, every table keeps its names, only the innermost binding table changed, and `get` returns the new value |
| Environments.AssignSucceedsIffBound | src/main/kotlin/Environment.kt:6-14 | `assign` succeeds exactly when some table on the chain binds the name |
| Environments.DefineThenLookup | src/main/kotlin/Environment.kt:20-40 | after `define`, `get` of the name returns the value defined |
| Environments.DefineThenGet | src/main/kotlin/Environment.kt:20-40 | `define` then `get` on a live environment returns the value defined |
| Runtime.LoxClass.FindMethod | src/main/kotlin/LoxInstance.kt:12 | finds a method exactly when the class has one of that name |
| Runtime.Bind | src/main/kotlin/LoxInstance.kt:12 | the bound method keeps its name and has the instance as receiver |
| Runtime.HostText | src/main/kotlin/Interpreter.kt:89 | booleans print as `true`/`false`, strings as themselves, instances as "<class> instance" |
| Runtime.LoxInstance.constructor | src/main/kotlin/LoxInstance.kt:3-4 | a new instance belongs to its class and has no fields |
| Runtime.LoxInstance.ToString | src/main/kotlin/LoxInstance.kt:6 | the class name followed by " instance" |
| Runtime.LoxInstance.Get | src/main/kotlin/LoxInstance.kt:8-15 | a field wins over a method; a method is bound to this instance; otherwise "Undefined property" |
| Runtime.LoxInstance.Set | src/main/kotlin/LoxInstance.kt:17-19 | sets the one field and keeps every other field |
| Runtime.SetThenGet | src/main/kotlin/LoxInstance.kt:8-19 | a property read after a write returns the value written |
| Interpreter.IsTruthy | src/main/kotlin/Interpreter.kt:10-14 | only `nil` and `false` are falsey |
| Interpreter.IsEqual | src/main/kotlin/Interpreter.kt:16-21 | `nil` equals only `nil`, and equality is structural without coercion |
| Interpreter.CheckNumberOperand | src/main/kotlin/Interpreter.kt:23-26 | fails exactly when the operand is not a number, with "Operand must be a number." |
| Interpreter.CheckNumberOperands | src/main/kotlin/Interpreter.kt:28-31 | fails exactly when an operand is not a number, with "Operands must be a number." |
| Interpreter.UnaryOp | src/main/kotlin/Interpreter.kt:44-51 | `!` is the negated truthiness; `-` negates a number and fails on anything else; any other operator gives nil |
| Interpreter.BinaryOp | src/main/kotlin/Interpreter.kt:58-77 | the numeric operators fail exactly when an operand is not a number, and give numbers or booleans; `+` adds numbers, concatenates strings, and rejects a mixed pair; `==`/`!=` never fail; on two numbers `-`, `*`, `/`, `>`, `>=`, `<`, `<=` give the difference, product, quotient and comparisons of the two |
| Interpreter.Evaluate | src/main/kotlin/Interpreter.kt:6-8 | a literal evaluates to its value, and every error evaluation can raise is one of the three operand-check errors |
| Interpreter.VisitGrouping | src/main/kotlin/Interpreter.kt:37-39 | a grouping has the value (or the error) of its inner expression |
| Interpreter.VisitLiteral | src/main/kotlin/Interpreter.kt:33-35 | a literal evaluates to its value |
| Interpreter.VisitUnary | src/main/kotlin/Interpreter.kt:41-52 | an operand error propagates; otherwise the result is UnaryOp on the operand's value |
| Interpreter.VisitBinary | src/main/kotlin/Interpreter.kt:54-78 | the left operand is evaluated first and its error wins, then the right's; otherwise BinaryOp on both values |
| Interpreter.Stringify | src/main/kotlin/Interpreter.kt:80-90 | `nil` prints as "nil"; a number's text loses a trailing ".0"; anything else prints as its host text |
| AstPrinter.Print | src/main/kotlin/AstPrinter.kt:4-6 | a literal prints as VisitLiteral does; every other node prints inside one pair of parentheses |
| AstPrinter.VisitBinary | src/main/kotlin/AstPrinter.kt:8-10 | "(" operator, then " " and each operand's rendering, left first, then ")" |
| AstPrinter.VisitGrouping | src/main/kotlin/AstPrinter.kt:12-14 | "(group " and the inner rendering, then ")" |
| AstPrinter.VisitUnary | src/main/kotlin/AstPrinter.kt:20-22 | "(" operator " " and the operand's rendering, then ")" |
| AstPrinter.ParenthesizeStep | src/main/kotlin/AstPrinter.kt:28-30 | one turn of the loop appends " " and the next child's rendering |
| AstPrinter.VisitLiteral | src/main/kotlin/AstPrinter.kt:16-18 | `nil` prints as "nil", any other value as its host text |
| AstPrinter.Renderings | src/main/kotlin/AstPrinter.kt:28-30 | one rendering per child, in order |
| AstPrinter.Parenthesize | src/main/kotlin/AstPrinter.kt:24-34 | the StringBuilder loop produces "(" + name, then " " + rendering for each child, then ")" |
| AstPrinter.ParenthesizedShape | src/main/kotlin/AstPrinter.kt:24-34 | the text starts with "(" and the name and ends with ")"; its length is the name's, plus 2, plus one space and the rendering per child |
| AstPrinter.SpaceJoinedLength | src/main/kotlin/AstPrinter.kt:28-30 | the loop adds one space plus the rendering's length per child |

## Left out

- Main.kt, the scanner and TokenType.kt are not part of this model. Tokens are given as a list that ends in EOF. Token kinds are numbered in the order of the enum's constants.
- Visitor.kt and `accept` are not part of this model. Double dispatch is a `match` on the node datatype.
- Stmt.kt is not part of this model. The statement forms are those that Parser.kt builds and Resolver.kt visits.
- `Lox.error(line, message)` prints a report with `println` and sets `hadError` (`Main.kt:47-55`). The overload taking a token, which Parser.kt and Resolver.kt call, is not in Main.kt and is not part of this model. Here reports are an append-only list of (token, message) pairs, and a non-empty list stands for `hadError`.
- `Lox.runtimeError` is not in Main.kt and is not part of this model. Here the thrown RuntimeError is an `Err` value.
- `Interpreter.interpret` prints a value or reports an error. That is I/O and is left out. `stringify` and evaluation are modelled.
- `Interpreter.resolve` is not part of this model. Each call the resolver makes is recorded as a (node, distance) pair.
- Node identity is an `id` carried by Variable, Assign and This, the only nodes passed to `interpreter.resolve`. The parser gives a Variable the index of its identifier token, and an Assign the index of its `=` token.
- The interpreter covers the expressions Interpreter.kt evaluates: literal, grouping, unary and binary. Statements, environments at run time and calls are not evaluated there.
- Interpreter.BinaryOp: numbers are unbounded reals, not IEEE doubles. Rounding, infinities and NaN are left out, and a division by zero gives 0.
- Interpreter.Stringify: the host's `Double.toString` is a parameter. So is the text of a function object.
- Runtime.LoxClass.FindMethod: LoxClass.kt is not part of this model. A class is a name and its own map of methods. Lookup is in that map, with no superclass walk.
- Runtime.Bind: LoxFunction.kt is not part of this model. Binding sets the receiver of a (name, receiver) function value.
- Parsing.Parser.Synchronize requires the cursor to be past the first token or not on EOF. Otherwise `previous()` would read index -1 and throw. `declaration` only calls it in states that meet this.
- `parse` and the class methods of Parser take a token list that ends in EOF, as the scanner produces it. They have no behaviour for an input without EOF.
