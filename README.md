# A verified model of the TPP compiler core

TPP is a small imperative language with Portuguese keywords: `inteiro`,
`flutuante`, `se … então … senão … fim`, `repita … até`, `leia`,
`escreva`, `retorna`, and a `principal` main function. The compiler has
three stages:

1. A PLY grammar builds a concrete syntax tree (`tppparser.py`).
2. A semantic analyser works on that tree (`tppsema.py`). It builds a
   symbol table, reports errors and warnings, and prunes the tree into a
   compact abstract tree.
3. A generator walks the pruned tree (`tppgencode.py`). It emits LLVM IR
   through llvmlite, one basic block at a time.

This project models those three files in Dafny and proves what each
stage promises.

| File | Module | What it holds |
|---|---|---|
| `cst.dfy` | `Cst` | The tree node, with name, kind, line and children. Also the pre-order walk that carries each node's ancestors, the `findall_by_attr` filter, and the string helpers the source uses (`find`, `rfind`, `upper`). |
| `parser.dfy` | `Parser` | The grammar actions, as functions that build nodes: types, operators, literals, `se`, the binary precedence levels, the error rules and `define_column`. |
| `lists.dfy` | `Lists` | The left-recursive lists as the parser reduces them. Proves that the pruner flattens each one back to one entry per item, in source order, and that the argument counter counts one per expression. |
| `symtab.dfy` | `SymbolTable` | The symbol-table entries and the read-only lookups of the analyser: `variableIsDeclared`, `getType`, `mainFunctionExists`, `getScope`, `valueIsIndex`/`valueIsArgument`, `getFactors`, `getTypeFactors` and `getCountParameters`. Each is a specification function, plus a method with the source's loop that is proved equal to it. |
| `sema.dfy` | `Sema` | The analyser's passes: `symbolTable`, `variableDeclaration`, `functionDeclaration`, `checkCoercions`, `initVariables`, `usedVariables`, `verifyVariables`, `verifyVariableIsUsed`, `verifyFunctionReturn`, `verifyCallFunctions`, `verifyFunctionsIsUsed` and `checkRules`. Each is a function on a `World` (the table, the error list and the diagnostic log), plus the class `Analyzer` whose methods update those three fields in place and are proved equal to the functions. |
| `prune.dfy` | `Prune` | The tree pruning (`pruneTree` and its helpers), as functions, and their while loops as methods. |
| `ir.dfy` | `Ir` | An abstract LLVM module: functions, blocks, instructions and values. Also the builder primitives (emit, terminate, append a block, position at end) and the generator's lookups (`getVar`, `getArgs`, `getFunction`). |
| `lower.dfy` | `Lower` | `expression`, `callFunction` and `arguments`, as pure functions. They compute the instructions appended and the resulting value. |
| `codegen.dfy` | `CodeGen` | Every generator method as a function on the generator state `Gen`. Also the lemmas about the control-flow layout that `repeat`, `se` and `retorna` produce. |
| `generator.dfy` | `Generator` | The class `GenCode`, with the source's fields (`symbols`, `functions`, `block`, `vars_global`, `vars_local`, `args_func`, `exit_block`). Each method does what the source method does, statement by statement, and is proved to yield the state the `CodeGen` function describes. |

The llvmlite library is modelled only where the generator relies on it to
fail:

- Putting a second terminator on a block fails, even when other
  instructions were appended after the first. So does appending to a
  block without a builder, or using a `None` operand (a `ret` of `None`
  is a bare return and succeeds).
- A global name that is already taken fails.

A failure sets a sticky `failed` flag. A failed generation yields no
module.

## Model

| member | source | states |
|---|---|---|
| Cst.PreOrder | tppsema.py:37 | The pre-order list of a subtree starts with its root. |
| Cst.Walk | tppsema.py:34 | The pre-order walk, with ancestors, starts at the node itself, paired with its own ancestors. |
| Cst.FilterName | tppsema.py:34 | `findall_by_attr` keeps exactly the walked entries with that name, in order. No other entries are kept and no such entry is dropped. |
| Cst.IndexOf | tppparser.py:891-895 | `str.find`: returns -1 exactly when the character is absent. Otherwise it is the index of its first occurrence. |
| Cst.RFind | tppparser.py:977 | `str.rfind(c, 0, end)`: the index found holds c, and no later index below `end` does. |
| Cst.Upper | tppparser.py:238-242 | `upper()` keeps the length and upper-cases each character on its own. |
| Parser.Tipo | tppparser.py:227-242 | The lexeme `inteiro`, and only that lexeme, gives an INTEIRO wrapper; anything else gives FLUTUANTE. The leaf keeps the lexeme, and its kind is the upper-cased lexeme. |
| Parser.Se | tppparser.py:418-451 | `se` has 5 children, or 7 with `senão`. The condition and the bodies sit at indices 1, 3 and 5. The last child holds `fim`. |
| Parser.Level | tppparser.py:631-641 | A binary level is its left operand alone, or left, operator, right. |
| Parser.RelationalClass | tppparser.py:759-793 | A relational class exists exactly for the six relational lexemes, and it maps back to its lexeme. |
| Parser.OperadorRelacional | tppparser.py:759-793 | A node is built exactly for the six lexemes. Its leaf holds the lexeme, and its class maps back to it. |
| Parser.OperadorSoma | tppparser.py:795-808 | MAIS exactly for `+`, otherwise MENOS. The leaf holds `+` or `-`. |
| Parser.OperadorLogico | tppparser.py:810-823 | E exactly for `&&`, otherwise OU. The node kind is OPERADOR_LOGICO only for `&&`. The leaf keeps the lexeme. |
| Parser.OperadorNegacao | tppparser.py:825-832 | A node is built exactly for `!`. |
| Parser.OperadorMultiplicacao | tppparser.py:834-847 | VEZES exactly for `*`, otherwise DIVIDE. The leaf keeps the lexeme. |
| Parser.NumberClass | tppparser.py:891-904 | NUM_INTEIRO exactly when there is no `.`. Otherwise scientific exactly when there is an `e`, and floating point otherwise. |
| Parser.Numero | tppparser.py:882-904 | The literal's leaf holds its text. The class is NUM_INTEIRO exactly when there is no `.`. |
| Parser.ErrorKey | tppparser.py:58-73 | Each error family's key maps back to that family. |
| Parser.KeyName | tppparser.py:58-73 | Each family's key suffix, after `ERR-SYN-`, maps back to that family, so no two families share a key. |
| Parser.ErrorNode | tppparser.py:959-968 | An error rule builds a leaf whose kind is its family's key. Only the argument-list rule leaves out the line. |
| Parser.ErrorFatorAsWritten | tppparser.py:871-880 | As written, the fator error rule builds no node, because its `print` call raises. |
| Parser.ErrorFator | tppparser.py:871-880 | As intended, the fator error rule builds a leaf that carries the line, with the catalog message as the prefix of its name. |
| Parser.DefineColumn | tppparser.py:976-978 | The column is at least 1. No newline lies between the line start and `lexpos`. The line start is the input's start or follows a newline. |
| SymbolTable.HasParam | tppsema.py:148-157 | Returns true exactly when some parameter has that name. |
| SymbolTable.IsDeclared | tppsema.py:148-157 | Returns true exactly when some entry owns the name in the scope or globally, or is a function in a non-global scope with that parameter. |
| SymbolTable.FirstHit | tppsema.py:148-168 | Returns the first selected entry, or none when no entry is selected. |
| SymbolTable.GetType | tppsema.py:159-168 | Defined exactly when the name is declared. The type is that of the first entry selected. |
| SymbolTable.MainFunctionExists | tppsema.py:142-146 | Returns true exactly when some function entry is named `principal`. |
| SymbolTable.HeaderIndex | tppsema.py:170-176 | Returns the first header ancestor that starts with an ID, or none when there is no such ancestor. |
| SymbolTable.ScopeOf | tppsema.py:170-176 | The scope is `global` outside any header. Otherwise it is the name in the first header found among the ancestors. |
| SymbolTable.UnderName | tppsema.py:178-190 | Returns true exactly when some ancestor has that name. |
| SymbolTable.LiteralType | tppsema.py:203 | `inteiro` exactly for NUM_INTEIRO, otherwise `flutuante`. |
| SymbolTable.FactorOf | tppsema.py:196-210 | A literal is always kept, typed by its class. A variable or call is kept exactly when its name is declared (a call globally, a variable in the expression's scope), and then with the type getType finds. The factor's value is the name and its kind is `func` for a call. |
| SymbolTable.FactorsOf | tppsema.py:192-211 | There is at most one factor per fator node. |
| SymbolTable.GetTypeFactors | tppsema.py:213-218 | Returns `ty` when every factor has it. Otherwise it returns the type of the last factor that differs. |
| SymbolTable.GetCountParameters | tppsema.py:220-227 | At least 1, and exactly 1 for a node that is not an argument list. |
| SymbolTable.FindMainFunction | tppsema.py:142-146 | The loop computes MainFunctionExists. |
| SymbolTable.ParamNamed | tppsema.py:150-156 | The parameter loop computes HasParam. |
| SymbolTable.SearchTable | tppsema.py:148-168 | The table loop finds FirstHit. |
| SymbolTable.FirstHitAt | tppsema.py:148-168 | An entry that is selected, with no selected entry before it, is FirstHit's answer. |
| SymbolTable.VariableIsDeclared | tppsema.py:148-157 | The method computes IsDeclared. |
| SymbolTable.TypeOfName | tppsema.py:159-168 | The method computes GetType. |
| SymbolTable.GetScope | tppsema.py:170-176 | The ancestor loop computes ScopeOf. |
| SymbolTable.HeaderIndexFirst | tppsema.py:170-176 | Any header ancestor bounds HeaderIndex from above. |
| SymbolTable.AncestorNamed | tppsema.py:178-190 | The loop computes UnderName. |
| SymbolTable.TypeOfFactors | tppsema.py:213-218 | The loop computes GetTypeFactors. |
| SymbolTable.CountParameters | tppsema.py:220-227 | The while loop down the left spine computes GetCountParameters. |
| Sema.ReportOnce | tppsema.py:113-118 | A report adds the pair and its diagnostic only when the pair is new. Afterwards the pair is recorded, and the error list stays free of duplicates. |
| Sema.ScanStep | tppsema.py:106-123 | One step of the declaration scan leaves the table unchanged and only adds new error pairs. |
| Sema.ScanFrom | tppsema.py:105-123 | The whole scan leaves the table unchanged and only adds new error pairs. |
| Sema.VarEntry | tppsema.py:125-140 | A variable record is a VarDecl in the given scope, not initialised, not used, with no parameters. |
| Sema.VarDeclSpec | tppsema.py:101-140 | `variableDeclaration` returns a variable record in that scope, and keeps the table and the error invariant. |
| Sema.HeaderParams | tppsema.py:78-89 | One parameter per parametro node, in order, each with its type and name. |
| Sema.FuncEntry | tppsema.py:45-69 | The function record is global. It is used exactly when named `principal`. Its name and type are read at offsets 7/4 when typed, or offset 4 and `vazio` when untyped. |
| Sema.AppendFresh | tppsema.py:40-44 | Appending an entry that is not yet declared keeps "first declaration wins". |
| Sema.Declare | tppsema.py:40-44 | A redeclaration leaves the table unchanged and logs one warning. A fresh name is appended without a log entry. "First declaration wins" is kept. Either way the old table is a prefix of the new one, and the name is visible in the scope afterwards. |
| Sema.LocalStep | tppsema.py:91-99 | Declaring one local declaration keeps the analyser invariant and only appends to the table. The scanned variable's name is visible in the function's scope afterwards. |
| Sema.LocalsFold | tppsema.py:91-99 | `functionDeclaration`'s loop keeps the invariant and only appends to the table. |
| Sema.FunctionDeclarationSpec | tppsema.py:91-99 | `functionDeclaration` keeps the invariant and only appends to the table. |
| Sema.DeclStep | tppsema.py:33-76 | One declaration of `symbolTable` keeps the invariant and only appends to the table. Afterwards the global variable it scans, or the function it declares, is visible in the global scope. |
| Sema.DeclsFold | tppsema.py:33-76 | The loop of `symbolTable` keeps the invariant and only appends to the table. |
| Sema.SymbolTableSpec | tppsema.py:33-76 | A table built from scratch has no redeclaration, and its error list no duplicate. |
| Sema.DeclaredStaysDeclared | tppsema.py:148-157 | A name visible in a table stays visible in every table that extends it. |
| Sema.DeclsFoldSplit | tppsema.py:33-76 | The declaration loop splits at any index. Running it on a list is running it on the suffix, from the state the prefix reaches. |
| Sema.SymbolTableDeclares | tppsema.py:33-76 | After `symbolTable`, every declaracao has entered its name in the global scope. For a variable, that is the name its scan reads in the state reached before it; for a function, the function's name. |
| Sema.LastParamType | tppsema.py:242-245 | Defined exactly when some parameter has the name. The result is the type of the last parameter with it. |
| Sema.Coercion | tppsema.py:247-263 | There is no warning exactly when every factor has the target type. A warning names the variable, its type and a different factor type. |
| Sema.CoercionDiags | tppsema.py:229-263 | There is at most one warning per entry, and each one names the variable and two different types. |
| Sema.Mark | tppsema.py:268-270 | Sets the init or used flag on exactly the entries that own the name. Every other entry is unchanged. |
| Sema.MarkKeepsFirstWins | tppsema.py:268-281 | Marking keeps "first declaration wins". |
| Sema.InitOrUse | tppsema.py:265-286 | A declared name is marked and no error is added. An undeclared name leaves the table unchanged, and is reported when the statement holds no call. Every entry keeps its name, scope, kind and parameters, and a flag once set stays set. A declared name, or any name in a statement without a call, ends up marked: flagged on every entry that owns it, or already reported. The invariant is kept. |
| Sema.IdsFold | tppsema.py:300-304 | The identifier loop of `verifyVariables` keeps the invariant, keeps every entry's identity, and never clears a flag. |
| Sema.NodeStep | tppsema.py:292-320 | One node of `verifyVariables` keeps the invariant, keeps every entry's identity, and never clears a flag. An assignment marks its target initialised when the target is declared or the statement holds no call. A call to a declared name marks that name used. |
| Sema.NodesFold | tppsema.py:288-320 | The node loop keeps the invariant, keeps every entry's identity, and never clears a flag. |
| Sema.AcaoFold | tppsema.py:288-320 | The acao loop keeps the invariant, keeps every entry's identity, and never clears a flag. |
| Sema.VerifyVariablesSpec | tppsema.py:288-320 | `verifyVariables` keeps the invariant, keeps every entry's identity, and never clears a flag. |
| Sema.KeepsTrans | tppsema.py:265-286 | Keeping entries and flags is transitive, so it composes over the loops. |
| Sema.KeepsDeclared | tppsema.py:148-157 | When entries and flags are kept, a name is declared before exactly when it is declared after. |
| Sema.MarkedPersists | tppsema.py:265-286 | A name that is marked, or reported, stays so through any later step that keeps entries and flags. |
| Sema.MarkMarks | tppsema.py:268-275 | Marking a declared name flags every entry that owns it. |
| Sema.IdsFoldMarks | tppsema.py:300-316 | Every identifier from the loop's position on ends up marked after the identifier loop, unless it is undeclared and the statement holds a call. |
| Sema.NodeStepMarks | tppsema.py:292-320 | In a leia, every identifier under the node ends up marked initialised. In a se, repita, escreva, retorna or non-assignment expression, it ends up marked used. The same exception applies. |
| Sema.NodesFoldSplit | tppsema.py:288-320 | The node loop splits at node i: node i is visited in the state the earlier nodes reach. |
| Sema.AcaoFoldSplit | tppsema.py:288-320 | The acao loop splits at acao a in the same way. |
| Sema.VerifyVariablesMarksIds | tppsema.py:288-320 | After `verifyVariables`, every identifier under every acao is flagged on every entry owning it, or reported. The exception is a name that was undeclared where its statement holds a call. |
| Sema.UsageWarning | tppsema.py:322-332 | Only a variable with no error gets a warning. The four combinations of init and used give, in order: not used, initialised but not used, not initialised, and nothing. |
| Sema.UsageWarnings | tppsema.py:322-332 | There is at most one warning per entry. |
| Sema.FunctionUseWarning | tppsema.py:387-392 | A warning is given exactly for an unused function. |
| Sema.FunctionUseWarnings | tppsema.py:387-392 | There is at most one warning per entry. |
| Sema.MissingReturnDiagsAsWritten | tppsema.py:343-346 | As written, every function of that name without `retorna` is reported as returning `vazio`. |
| Sema.VoidFunctionReportedAsWritten | tppsema.py:343-346 | As written, a void function without `retorna` is still reported. |
| Sema.MissingReturnDiags | tppsema.py:343-346 | As intended, there are no errors exactly when every function of that name is void. Each error names a non-void type. |
| Sema.MissingReturnAgree | tppsema.py:343-346 | When no function of that name is declared `vazio`, the corrected check and the check as written report the same errors. |
| Sema.ReturnTypeDiags | tppsema.py:347-359 | There is no error exactly when the returned factors have the declared type. Each error names two different types. |
| Sema.ArgCheck | tppsema.py:377-383 | Too few arguments exactly when the count is below the parameter count, and too many exactly when it is above. There is no error exactly for an equal count, or for an entry of another name. |
| Sema.ArgChecks | tppsema.py:376-383 | There is at most one diagnostic per entry. |
| Sema.CallDiags | tppsema.py:361-385 | Calling an undeclared name gives exactly one error. A call of `principal` ends with the main-not-allowed error. |
| Sema.FunctionReturnDiagsSnoc | tppsema.py:334-359 | The return check of a list of functions is the concatenation of the checks of the functions. |
| Sema.CallDiagsSnoc | tppsema.py:361-385 | Checking the first i + 1 calls gives the check of the first i, followed by the diagnostics of call i. |
| Sema.CheckRulesSpec | tppsema.py:399-416 | `checkRules` keeps the invariant: no duplicate errors and no redeclaration. |
| Sema.Analyzer.constructor | tppsema.py:21-31 | The analyser starts with an empty table, error list and log. |
| Sema.Analyzer.AddVariableError | tppsema.py:21-25 | Appends the pair, and nothing else changes. |
| Sema.Analyzer.Report | tppsema.py:21-31 | The guarded report does what ReportOnce says. |
| Sema.Analyzer.Enter | tppsema.py:40-44 | The declare-or-warn step does what Declare says. |
| Sema.Analyzer.DeclareItem | tppsema.py:36-76 | One iteration of `symbolTable` does what DeclStep says. |
| Sema.Analyzer.VariableDeclaration | tppsema.py:101-140 | The scan loop does what VarDeclSpec says. |
| Sema.Analyzer.FunctionDeclaration | tppsema.py:91-99 | The loop does what FunctionDeclarationSpec says. |
| Sema.Analyzer.BuildSymbolTable | tppsema.py:33-76 | The loop does what SymbolTableSpec says. |
| Sema.Analyzer.SetFlag | tppsema.py:268-275 | The marking loop does what Mark says. The errors and the log are unchanged. |
| Sema.Analyzer.InitVariables | tppsema.py:265-275 | Does what InitOrUse says, with init. |
| Sema.Analyzer.UsedVariables | tppsema.py:277-286 | Does what InitOrUse says, with use. |
| Sema.Analyzer.VisitIds | tppsema.py:300-316 | The identifier loop does what IdsFold says. |
| Sema.Analyzer.VisitNode | tppsema.py:292-320 | One node does what NodeStep says. |
| Sema.Analyzer.VerifyVariables | tppsema.py:288-320 | Does what VerifyVariablesSpec says. |
| Sema.Analyzer.VisitAcao | tppsema.py:290-320 | The inner loop over the nodes under one acao; the state becomes NodesFold over them. |
| Sema.Analyzer.VerifyVariableIsUsed | tppsema.py:322-332 | The log gains exactly UsageWarnings, and the table and errors are unchanged. |
| Sema.Analyzer.VerifyFunctionReturn | tppsema.py:334-359 | The log gains the return diagnostics of every function declaration, in tree order. |
| Sema.Analyzer.CheckReturns | tppsema.py:336-359 | The loop appends each function's return diagnostics in turn. |
| Sema.Analyzer.VerifyCallFunctions | tppsema.py:361-385 | The log gains the call diagnostics of every call, in tree order. |
| Sema.Analyzer.CheckCalls | tppsema.py:363-385 | The loop appends each call's diagnostics in turn. |
| Sema.Analyzer.VerifyFunctionsIsUsed | tppsema.py:387-392 | The log gains exactly FunctionUseWarnings. |
| Sema.Analyzer.VerifyFunctions | tppsema.py:394-397 | The log gains the return diagnostics, then the call diagnostics, then the unused-function warnings. |
| Sema.Analyzer.CheckRules | tppsema.py:399-416 | Does what CheckRulesSpec says. The analyser is Valid afterwards whenever its error list had no duplicates. |
| Prune.PrunedExpr | tppsema.py:530-560 | Pruning an expression keeps its name, kind and line. |
| Prune.PruneVariable | tppsema.py:500-528 | The identifier leaf comes first, followed by the index only for an indexed variable. The index pieces of parsed variables are stated by Lists.VectorVariable and Lists.MatrixVariable. |
| Prune.PruneAssignment | tppsema.py:491-498 | The pruned variable, then `:=`, then the expression. |
| Prune.PruneVarDecl | tppsema.py:468-486 | The type leaf, then `:`, then the flattened variable list. |
| Prune.PruneFunctionDeclaration | tppsema.py:439-466 | An untyped function keeps its header's pieces. A typed one gets its type leaf in front of the header's pieces. |
| Prune.PruneDecls | tppsema.py:418-437 | One pruned declaration per declaration, in order. |
| Prune.PruneTree | tppsema.py:673-676 | The root keeps its children. The declaration list becomes the pruned declarations, flattened. |
| Prune.SkipChain | tppsema.py:531-535 | Skipping single-child wrappers does not change the pruned pieces, and it stops at a unary level or a fork. |
| Prune.PruneDeclaration | tppsema.py:418-437 | The loops compute PruneTree. |
| Prune.DeclarationSpine | tppsema.py:419-428 | The while loop collects the declarations in source order. |
| Prune.PruneEach | tppsema.py:430-436 | The for loop prunes each declaration. |
| Prune.PruneDeclsSnoc | tppsema.py:430-436 | Pruning one more declaration appends its pruned form. |
| Prune.BodySpine | tppsema.py:649-671 | The while loop collects the body's statements in order. |
| Prune.VariableSpine | tppsema.py:468-486 | The while loop collects the declared variables in order. |
| Prune.ParameterSpine | tppsema.py:594-609 | The while loop collects a parameter's pieces. |
| Prune.ParameterListSpine | tppsema.py:439-466 | The while loop collects the parameters in order. |
| Prune.ArgumentSpine | tppsema.py:562-592 | The while loop collects the arguments in order. |
| Ir.GetType | tppgencode.py:368-369 | i32 exactly for `inteiro` and `NUM_INTEIRO`, float otherwise. |
| Ir.EmitAll | tppgencode.py:157 | Appends the code to the builder's block only. Every other block is unchanged, and so are the globals and locals. An empty append changes nothing. |
| Ir.Emit1 | tppgencode.py:157 | One instruction, refused when an operand is None. The globals and locals are unchanged. |
| Ir.Terminate | tppgencode.py:185 | A terminator, refused on a block that already holds one anywhere, since llvmlite's terminator flag is not cleared by later instructions. A return of None is a bare `ret` and is accepted. |
| Ir.BareReturn | tppgencode.py:269 | A return of None on an unterminated block succeeds and terminates it, as llvmlite's bare `ret` does. |
| Ir.TerminatedIff | tppgencode.py:185 | A block is terminated exactly when one of its instructions is a terminator. |
| Ir.TerminatedStays | tppgencode.py:252 | Appending instructions to a terminated block leaves it terminated. |
| Ir.SecondTerminatorFails | tppgencode.py:266-269 | After a terminator, any instructions and then a second terminator on the same block, the generator has failed (as `retorna` then `escreva` then a branch does). |
| Ir.AppendBlock | tppgencode.py:180-182 | The new block is empty, named as asked, and added last. Its index is the old block count. |
| Ir.MoveTo | tppgencode.py:188 | Only the builder's position changes. |
| Ir.Lookup | tppgencode.py:376-381 | Returns the first value with that name, or None. |
| Ir.GetVar | tppgencode.py:383-392 | Globals are searched first, then locals, else None. |
| Ir.GetFunction | tppgencode.py:371-374 | Returns the first function built under that name, or None exactly when none has it. |
| Ir.FuncValues | tppgencode.py:371-374 | One function value per function built, in order, carrying its name and return type. |
| Ir.FirstFunction | tppgencode.py:371-374 | The search over the module's functions gives None exactly when no function has the name. Otherwise it gives the first function with that name. |
| Ir.ExtendsTrans | tppgencode.py:159-177 | Two extensions in a row are one extension, so a sequence of statements only extends the function. |
| Ir.MoveFresh | tppgencode.py:188 | Moving the builder to a block added since keeps the extension. |
| Lower.Combine | tppgencode.py:358-366 | Arithmetic gives add, sub, mul or sdiv. Comparisons give a signed compare, with `=` read as `==`. Either fails exactly on a None operand. Any other operator returns the left operand. |
| Lower.Expression | tppgencode.py:303-366 | Lowering appends no terminator. |
| Lower.Operand | tppgencode.py:309-356 | An operand's code holds no terminator. |
| Lower.VarValue | tppgencode.py:312-322 | A global or local is loaded. Otherwise the argument of that name is used without any code. |
| Lower.CallFunction | tppgencode.py:271-275 | A call of the function found under that name, which must exist. |
| Lower.Arguments | tppgencode.py:277-285 | One value per argument that is not `vazio`. |
| Lower.FirstOperatorOnly | tppgencode.py:332-366 | Pieces after the third do not affect the result. |
| Lower.ParenthesisedFails | tppgencode.py:307-335 | A parenthesised single operand fails: `( x )`, or `( x )` followed by an operator. The piece two places after the operand is `)` or an operator symbol, and the reader finds no value there. |
| Lower.Literal | tppgencode.py:323-330 | The literal `0`, and only it, is the shared zero constant. Any other literal is a constant holding its text, of type i32 exactly for an integer literal and float otherwise. |
| CodeGen.Eval | tppgencode.py:303-366 | Evaluation extends the function in place, adds no block, and leaves the globals and locals alone. |
| CodeGen.EvalAt | tppgencode.py:303-366 | The same, for the child at an index. |
| CodeGen.CallStatement | tppgencode.py:165-166 | A call statement only extends the current block. |
| CodeGen.Assignment | tppgencode.py:147-157 | An assignment only extends the current block. |
| CodeGen.AssignmentStores | tppgencode.py:147-157 | On success, the target was found among the globals and locals, and the builder's block ends with a store of a non-None value. The store goes into a gep on the target when the target is indexed. Otherwise it goes into the target itself, with the value of the expression. |
| CodeGen.Place | tppgencode.py:121-143 | A global takes a fresh module symbol, and a taken symbol fails. A local is an alloca, which then ends the builder's block. Globals and locals are unchanged. |
| CodeGen.DeclareOne | tppgencode.py:119-145 | On success, the value is the variable's storage: a global or an alloca named after it. A scalar gets the declared type, an indexed variable the array type. A global also takes a fresh module symbol; a local's alloca ends the builder's block. Only the current block is extended. |
| CodeGen.VarDecls | tppgencode.py:117-145 | The variable loop only extends the current block and leaves the globals and locals alone. |
| CodeGen.VariableDeclaration | tppgencode.py:117-145 | On success, `variableDeclaration` returns one value per listed variable, in order. Each is the storage DeclareOne describes. Only the current block is extended. |
| CodeGen.ArrayType | tppgencode.py:130-136 | An indexed variable is i32[1000] when its pruned index has at most three pieces (one dimension). Otherwise it is a ten-element array of i32[1000]. The declared sizes and type are ignored. |
| CodeGen.VarDeclsDeclare | tppgencode.py:117-145 | On success, the loop keeps the values made so far and adds one value per remaining variable, in order, each its storage. |
| CodeGen.DeclaresShift | tppgencode.py:117-145 | Appending one more declared value keeps the earlier variables matched to their values. |
| CodeGen.InstKept | tppgencode.py:128 | An instruction in a block stays in it when the block is extended. |
| CodeGen.VarDeclsAllocate | tppgencode.py:120-145 | For a local declaration, every alloca the loop makes is in the builder's block afterwards. |
| CodeGen.DeclaresAppend | tppgencode.py:164 | Values that match the variables from position 0 still match them once appended after an existing list. |
| CodeGen.LocalDeclaration | tppgencode.py:163-164 | A declaration inside a body, on success, appends one local per variable to the locals. Each is an alloca of the variable's name and type in the builder's block. The earlier locals are kept. |
| CodeGen.GlobalDeclaration | tppgencode.py:67-68 | A top-level variable declaration, on success, appends one global per variable. Each has the variable's name and type, and the earlier globals are kept. |
| CodeGen.External | tppgencode.py:248-269 | `escreva`, `leia` and `retorna` only extend the function. |
| CodeGen.Escreva | tppgencode.py:249-255 | `escreva` only extends the function. |
| CodeGen.Leia | tppgencode.py:256-263 | `leia` only extends the function. |
| CodeGen.Retorna | tppgencode.py:264-269 | `retorna` only extends the function. |
| CodeGen.HasDirectReturn | tppgencode.py:159-177 | True exactly when some direct item is `retorna`. |
| CodeGen.RepeatOpen | tppgencode.py:180-188 | loop is the block at the old block count, and opening only extends the function. Its layout is stated by RepeatOpened. |
| CodeGen.RepeatClose | tppgencode.py:192-204 | After the body, the builder ends at loop_end. |
| CodeGen.CloseArm | tppgencode.py:234-243 | An arm that returned changes nothing. Otherwise a new ifend is appended. |
| CodeGen.IfOpen | tppgencode.py:208-216 | iftrue gets the index that is the old block count, and opening only extends the function. Its layout is stated by IfOpened. |
| CodeGen.NonVazio | tppgencode.py:290-291 | Keeps exactly the parameters that are not `vazio`, in order. |
| CodeGen.Params | tppgencode.py:287-301 | One name and one type per parameter that is not `vazio`. |
| CodeGen.ParamsContents | tppgencode.py:287-301 | The k-th name is the parameter's third child. The k-th type is the type of its first child. |
| CodeGen.ParamsFailIff | tppgencode.py:287-301 | Fails exactly when some parameter is too short to read. |
| CodeGen.ArgValues | tppgencode.py:99-100 | The function's arguments take the parameter names and types in order. |
| CodeGen.ItemExtends | tppgencode.py:159-177 | Each statement only extends the function: earlier blocks and code stay as they were. |
| CodeGen.LocalsExtends | tppgencode.py:164 | Changing the local variables keeps the extension. |
| CodeGen.BodyFoldExtends | tppgencode.py:159-177 | The loop of `body` only extends the function. |
| CodeGen.BodyExtends | tppgencode.py:159-177 | `body` only extends the function. |
| CodeGen.RepeatExtends | tppgencode.py:179-204 | `repeat` only extends the function. |
| CodeGen.LoopExtends | tppgencode.py:189-204 | The body and the close of a loop opened as RepeatOpened says keep the extension from the state before the loop. |
| CodeGen.CloseExtends | tppgencode.py:192-204 | Closing a loop keeps the extension. |
| CodeGen.IfExtends | tppgencode.py:206-246 | `ifExpression` only extends the function. |
| CodeGen.OneArmedExtends | tppgencode.py:207-221 | The one-armed `se` only extends the function. |
| CodeGen.ArmEndExtends | tppgencode.py:217-221 | The one arm, its branch to ifend when it did not return and the move to ifend keep the extension. |
| CodeGen.FinishArm | tppgencode.py:218-221 | Ending an arm and moving to a new block keeps the extension. |
| CodeGen.ExtendsLen | tppgencode.py:159-177 | An extension never loses blocks. |
| CodeGen.TwoArmedExtends | tppgencode.py:222-246 | The two-armed `se` only extends the function. |
| CodeGen.ArmsExtends | tppgencode.py:231-246 | Both arms of a two-armed `se`, after opening, keep the extension. |
| CodeGen.ThenArmExtends | tppgencode.py:232-236 | The first arm keeps the extension, and the ifend it adds, if any, is a new block. |
| CodeGen.ElseArmExtends | tppgencode.py:238-246 | The second arm, its close and the move to the last ifend keep the extension. |
| CodeGen.ArmClosed | tppgencode.py:234-243 | Closing an arm keeps the extension, and its ifend is new. |
| CodeGen.CloseLayout | tppgencode.py:192-204 | The body's block branches to loop_val, which branches conditionally to loop_end or loop. The builder ends on loop_end. |
| CodeGen.RepeatLayout | tppgencode.py:179-204 | The entry block branches to loop. loop_val branches conditionally to loop_end or back to loop. loop_end is empty and current. Some block of the body branches to loop_val. |
| CodeGen.RepeatBody | tppgencode.py:180-189 | After the body, the loop blocks are as opened, and the builder lies on loop or on a block of the body. |
| CodeGen.RepeatOpened | tppgencode.py:180-188 | After opening, loop, loop_val and loop_end are new empty blocks in that order, the entry block gained only the branch to loop, and loop is current. |
| CodeGen.LoopBody | tppgencode.py:188-189 | The loop body leaves the branch into loop, and loop_val and loop_end empty. |
| CodeGen.ReturnLayout | tppgencode.py:264-269 | `retorna` branches to a new bloco_saida holding only the return, and that block becomes the exit block. |
| CodeGen.ExitOpened | tppgencode.py:266-268 | bloco_saida is a new block after the current one, the current block now branches to it, and it is the exit block. |
| CodeGen.ExitReturns | tppgencode.py:268-269 | The return goes at the end of bloco_saida, which had no terminator, and every earlier block is unchanged. |
| CodeGen.IfOpened | tppgencode.py:208-216 | After opening, iftrue and the second block are empty, the conditional branch points at them, and iftrue is current. |
| CodeGen.OneArmedLayout | tppgencode.py:207-221 | The condition branches to iftrue or ifend, and ifend stays empty and becomes current. An arm without a direct return ends with a branch to ifend. |
| CodeGen.OneArmClose | tppgencode.py:218-221 | Closing the one arm keeps the opened layout: the condition still branches to iftrue or ifend, ifend is empty and current. Without a return, the arm's last block branches to ifend. |
| CodeGen.TwoArmedLayout | tppgencode.py:222-246 | The condition branches to iftrue or iffalse. If some arm does not return, the builder ends on an empty ifend. If neither arm returns, the first arm's ifend is left empty and unterminated. If both return, the builder stays where the second arm ended. |
| CodeGen.TwoArmedUnfold | tppgencode.py:207-246 | A `se` with the `senão` pieces takes the two-armed path, and when that succeeds, the two-armed path did not fail. |
| CodeGen.TwoArmedIs | tppgencode.py:222-246 | The two-armed `se` is the composition of open, the first arm, its close, the move to iffalse, the second arm, its close and the move to the last ifend. |
| CodeGen.TwoArmedSteps | tppgencode.py:222-246 | When the two-armed `se` succeeds, it is that composition and its last step did not fail. |
| CodeGen.ArmUnfailed | tppgencode.py:232-243 | A failure before an arm is never undone by the arm or its close. |
| CodeGen.FirstArmClose | tppgencode.py:232-239 | After the first arm, iffalse is current. A new empty ifend exists exactly when the arm did not return. |
| CodeGen.SecondArmClose | tppgencode.py:239-246 | After the second arm, the builder sits on an empty ifend when either arm fell through. |
| CodeGen.FunctionDeclarationHeader | tppgencode.py:73-115 | The name is free (`principal` is renamed `main`). One function is appended and earlier ones are unchanged. It has the declared type and the parameters' arguments, and its first block is bloco_entrada. |
| CodeGen.LinkName | tppgencode.py:89-90 | `principal`, and only it or `main`, links as `main`. Every other name is kept. |
| CodeGen.DeclStep | tppgencode.py:64-70 | A failed generator stays as it is. An initialisation, or anything but a function or variable declaration, generates nothing. |
| CodeGen.DeclStepFunctionCount | tppgencode.py:64-68 | A successful function declaration adds exactly one function. A variable declaration or an initialisation adds none. |
| CodeGen.Decls | tppgencode.py:62-70 | A failed generator stays as it is. A list holding no function or variable declaration generates nothing. |
| CodeGen.DeclsFunctionCount | tppgencode.py:62-70 | On success, the loop adds one function per declaracao_funcao. |
| CodeGen.Declaration | tppgencode.py:62-71 | A tree without children fails. A failed generator stays as it is. |
| CodeGen.Compile | tppgencode.py:62-71 | A tree without children gives no module. An empty declaration list gives an empty module. |
| CodeGen.CompileFunctionCount | tppgencode.py:62-71 | A module, when one is produced, holds exactly one function per declaracao_funcao of the program. |
| Generator.GenCode.constructor | tppgencode.py:22-60 | The generator starts as `Ir.Initial`: the four I/O function names escrevaInteiro, escrevaFlutuante, leiaInteiro and leiaFlutuante are taken in the module, and there are no functions, no variables and no builder. |
| Generator.GenCode.SetBlocks | tppgencode.py:180-182 | Sets the blocks of the function being built. |
| Generator.GenCode.Insert | tppgencode.py:157 | Does what Emit1 says. |
| Generator.GenCode.AddTerminator | tppgencode.py:185 | Does what Terminate says. |
| Generator.GenCode.InsertAll | tppgencode.py:303-366 | Does what EmitAll says. |
| Generator.GenCode.AppendBasicBlock | tppgencode.py:180 | Does what AppendBlock says. |
| Generator.GenCode.PositionAtEnd | tppgencode.py:188 | Does what MoveTo says. |
| Generator.GenCode.GetVar | tppgencode.py:383-392 | The two loops compute Ir.GetVar. |
| Generator.GenCode.GetArgs | tppgencode.py:376-381 | The loop computes Ir.GetArgs. |
| Generator.GenCode.GetFunction | tppgencode.py:371-374 | The loop computes Ir.GetFunction. |
| Generator.GenCode.Expression | tppgencode.py:303-366 | Does what Eval says. |
| Generator.GenCode.ExpressionAt | tppgencode.py:303-366 | Does what EvalAt says. |
| Generator.GenCode.CallFunction | tppgencode.py:271-275 | Does what CallStatement says. |
| Generator.GenCode.Assignment | tppgencode.py:147-157 | Does what CodeGen.Assignment says. |
| Generator.GenCode.Place | tppgencode.py:121-143 | Does what CodeGen.Place says. |
| Generator.GenCode.VariableDeclaration | tppgencode.py:117-145 | The loop does what CodeGen.VariableDeclaration says. |
| Generator.GenCode.DeclareNext | tppgencode.py:119-145 | One variable of the loop is one step of VarDecls. |
| Generator.GenCode.DeclareOne | tppgencode.py:119-145 | Does what CodeGen.DeclareOne says. |
| Generator.GenCode.ExternalFunctions | tppgencode.py:248-269 | Does what External says. |
| Generator.GenCode.Escreva | tppgencode.py:249-255 | Does what CodeGen.Escreva says. |
| Generator.GenCode.Leia | tppgencode.py:256-263 | Does what CodeGen.Leia says. |
| Generator.GenCode.Retorna | tppgencode.py:264-269 | Does what CodeGen.Retorna says. |
| Generator.GenCode.Body | tppgencode.py:159-177 | The loop does what CodeGen.Body says, and returns whether some direct item was `retorna`. |
| Generator.GenCode.BodyStep | tppgencode.py:162-176 | One item of the loop is one step of BodyFold. |
| Generator.GenCode.Item | tppgencode.py:163-176 | Does what CodeGen.Item says. |
| Generator.GenCode.Repeat | tppgencode.py:179-204 | Does what CodeGen.Repeat says. |
| Generator.GenCode.OpenRepeat | tppgencode.py:180-188 | Does what RepeatOpen says, and returns loop's index. |
| Generator.GenCode.CloseRepeat | tppgencode.py:192-204 | Does what RepeatClose says. |
| Generator.GenCode.OpenIf | tppgencode.py:208-216 | Does what IfOpen says. |
| Generator.GenCode.IfExpression | tppgencode.py:206-246 | Does what If says. |
| Generator.GenCode.OneArmedIf | tppgencode.py:207-221 | Does what OneArmed says. |
| Generator.GenCode.TwoArmedIf | tppgencode.py:222-246 | Does what TwoArmed says. |
| Generator.GenCode.ThenArm | tppgencode.py:223-236 | Opening and the first arm with its close, as TwoArmedIs composes them. |
| Generator.GenCode.ElseArm | tppgencode.py:238-246 | The second arm, its close and the move to the last ifend, as TwoArmedIs composes them. |
| Generator.GenCode.CloseIfArm | tppgencode.py:234-243 | Does what CloseArm says. |
| Generator.GenCode.Parameters | tppgencode.py:287-301 | The loop computes Params. |
| Generator.GenCode.NameArguments | tppgencode.py:99-100 | The loop computes ArgValues. |
| Generator.GenCode.FunctionDeclaration | tppgencode.py:73-115 | Does what CodeGen.FunctionDeclaration says. |
| Generator.GenCode.StartFunction | tppgencode.py:96-112 | Does what Start says. |
| Generator.GenCode.Declaration | tppgencode.py:62-71 | The loop does what CodeGen.Declaration says. |
| Generator.FirstIsLookup | tppgencode.py:376-392 | The first value with that name is what Lookup returns. |
| Generator.FirstNamedIn | tppgencode.py:385-391 | The loop computes Lookup. |
| Generator.Generate | tppgencode.py:22-71 | Generation from a fresh generator computes Compile: the module, or none on failure. |
| Lists.DeclItemsOfList | tppsema.py:419-428 | The spine walk recovers the parsed declarations, first one first. |
| Lists.PrunedProgram | tppsema.py:673-676 | A parsed program prunes to one list holding each pruned declaration, in source order. |
| Lists.VarItemsOfList | tppsema.py:468-486 | One pruned variable per parsed variable, in order. |
| Lists.BodyItemsOfList | tppsema.py:649-671 | One pruned statement per parsed statement, in order. |
| Lists.ArgItemsOfList | tppsema.py:562-592 | One pruned expression per parsed argument, in order. |
| Lists.ArgItemsOfVazio | tppsema.py:562-592 | An empty argument list stays a single `vazio`. |
| Lists.ParamItemsOfList | tppsema.py:439-466 | One pruned parameter per parsed parameter, in order. |
| Lists.ScalarParameter | tppsema.py:594-609 | A scalar parameter prunes to its type, `:` and its name. |
| Lists.BinaryLevel | tppsema.py:530-560 | A binary level prunes to its left pieces, then the operator's symbol, then its right pieces. |
| Lists.AdditiveLevel | tppsema.py:530-560 | The middle piece of an additive level is `+` or `-`. |
| Lists.CountOfList | tppsema.py:220-227 | `getCountParameters` of a parsed argument list is its number of expressions. |
| Lists.CountOfVazio | tppsema.py:220-227 | A call without arguments counts 1. |
| Lists.ScalarVariable | tppsema.py:500-505 | A variable without an index prunes to its identifier leaf alone. |
| Lists.VectorVariable | tppsema.py:500-528 | A one-index variable prunes to its identifier leaf and an indice node holding `[`, the pruned index expression and `]`. |
| Lists.MatrixVariable | tppsema.py:500-528 | A two-index variable prunes to its identifier leaf and an indice node of six pieces, with the pruned index expressions at positions 1 and 4. |
| Lists.VectorDeclared | tppgencode.py:130-145 | A pruned one-index variable is declared as i32[1000], whatever type and size it was declared with. |
| Lists.MatrixDeclared | tppgencode.py:130-145 | A pruned two-index variable is declared as ten arrays of i32[1000], whatever type and sizes it was declared with. |
| Lists.OperandChain | tppsema.py:530-535 | The single-operand levels above an operand are skipped: pruning the full expression prunes the unary expression. |
| Lists.NumberOperand | tppsema.py:538-546 | A number operand prunes to one piece, its literal-class wrapper, holding the literal. |
| Lists.VariableOperand | tppsema.py:538-544 | A variable operand prunes to the pruned variable. |
| Lists.CallOperand | tppsema.py:538-542 | A call operand prunes to the pruned call. |
| Lists.ParenthesisedOperand | tppsema.py:546-549 | A parenthesised operand prunes to `(`, the pieces of the inner expression, then `)`. |
| Lists.SignedOperand | tppsema.py:550-553 | A signed factor prunes to the sign's leaf and the unpruned children of the factor's operand. |
| Lists.NegatedVariable | tppsema.py:550-553 | So a negated variable keeps its ID wrapper and loses its var node. |
| Lists.NegationOperand | tppsema.py:550-553 | `!` before a factor gives the same shape, with the leaf `!`. |
| Lists.AssignmentAsExpression | tppsema.py:530-559 | An assignment in an expression's place: the assigned variable prunes to nothing (the source raises IndexError at that point), and the whole expression to a `Missing` piece followed by the pruned right-hand side. |
| Lists.PrunedAssignment | tppsema.py:491-498 | An assignment statement prunes to an atribuicao node: the pruned variable, the `:=` leaf and the expression with pruned children. |
| Lists.PrunedSpecial | tppsema.py:610-621 | leia, escreva and retorna prune to the keyword, `(`, the pruned variable for leia or else the pruned expression, and `)`. |
| Lists.PrunedRepeat | tppsema.py:639-647 | repita prunes to the keyword, the pruned body, `até` and the pruned condition. |
| Lists.PrunedOneArmed | tppsema.py:623-637 | A one-armed se prunes to five pieces: the condition at 1, the body at 3, and the closing wrapper kept at 4. |
| Lists.PrunedTwoArmed | tppsema.py:623-637 | A two-armed se prunes to seven pieces: the condition at 1, the bodies at 3 and 5, and the senão and closing wrappers kept at 4 and 6. |
| Lists.PrunedCall | tppsema.py:562-592 | A call prunes to the name leaf, `(`, the argument list with its items flattened, and `)`. |
| Lists.CallPiecesOf | tppsema.py:562-592 | The four children of a call contribute, in order, their leaves and the flattened argument list. |
| Lists.PrunedBody | tppsema.py:649-671 | A body prunes to one pruned statement per parsed statement, in order. |
| Lists.PrunedVarDecl | tppsema.py:468-486 | A variable declaration prunes to the type leaf, `:`, and a list of one pruned variable per declared variable, in order. |
| Lists.PrunedInit | tppsema.py:488-498 | An initialisation keeps its one child, the pruned assignment. |
| Lists.ArrayParameter | tppsema.py:594-608 | An array parameter prunes to the type leaf, `:`, the name, `[` and `]`. |
| Lists.PrunedTypedFunction | tppsema.py:439-466 | A typed function prunes to the type leaf, then the name, `(`, the flattened parameters, `)`, the pruned body and `fim`, so the name, parameters and body sit at 1, 3 and 5. |
| Lists.HeaderPiecesOf | tppsema.py:443-466 | The six children of a header contribute, in order, their leaves, the flattened parameters and the pruned body. |
| Lists.PrunedUntypedFunction | tppsema.py:441-442 | An untyped function keeps its header's children unpruned: its first child is the ID wrapper, not the name. |

## Left out

- PLY itself is not modelled. That covers the lexer, the LALR tables, the yacc driving loop and token positions. The grammar actions are functions of their right-hand sides, and lists are built by the `Lists` builders.
- `p_error` and the parser's `main`: printing, logging, reading files and exporting the tree with DotExporter are I/O.
- The message catalog (`myerror.py`) is a function parameter. Messages are not formatted; a diagnostic is its key and its arguments.
- `mytree.py` is not part of this model. `getScope` reads `node.anchestors`, and the model reads that as the node's ancestors, root first.
- The tree is total. Where Python would raise IndexError, reading a missing child gives a placeholder node named `Missing`. Mostly this matters on shapes that an error-free parse does not produce, and on a parenthesised factor in `getFactors`.
- Prune.PruneExpression: an assignment used as an expression is not refused. The grammar admits it (`expressao : atribuicao`, tppparser.py:623-626), as in `x := y := 1`, `se a := 1 então … fim`, `escreva(a := 1)` or `f(a := 1)`. The source's `pruneExpression` then walks the assigned variable down to its name leaf and raises IndexError (tppsema.py:538), so `pruneTree` produces no tree and no code is generated. The model keeps going: the variable contributes nothing and the `:=` a `Missing` piece (Lists.AssignmentAsExpression), and the generator then runs on that tree.
- The llvmlite setup is not modelled: module initialisation, the target triple, the data layout, the types of the I/O functions (only their names are taken), and `saveCode`'s file output. Four of llvmlite's refusals are modelled: a second terminator in a block (once a block has a terminator it stays terminated), a global or function name already taken in the module, an instruction or block with no builder or no function to hold it, and an operand that is None (`Ir.Emit1`; `ret` of None is a bare return, as in llvmlite). Its other checks, such as operand types, are not.
- Local names are kept as written. llvmlite renames a local whose name is already used in the function (an alloca named like a parameter becomes `x.1`), so the source's `getVar` then misses it; the model finds it under its plain name.
- Lower.Combine: llvmlite also refuses an operand of the wrong type, and the comparison operators `&&` and `||`. The model lets both through.
- Lower.Expression: the model appends an expression's code in one step. Where the source raises part-way, any instructions emitted before the raise are not modelled.
- Literal values are kept as their text. The `float` and `int` conversions of the literal are not modelled.
- The generator's `entry_block` field is not kept. The entry block is always block 0 of the function being built.
- Sema.ScanStep, Sema.ScanFrom, Sema.VarDeclSpec: the contracts state the preserved invariant and the record's shape, not each field the scan reads; the scan itself is the specification the class method is proved equal to.
- Lower.Expression, Lower.Operand: the contracts state only that no terminator is emitted; what is computed is given by the function and by Lower.Combine, Lower.VarValue and Lower.CallFunction.
- Sema.HeaderDiags: a function declared `vazio` with no `retorna` gets no error, which is what the authors intended. As written, the check at tppsema.py:343-346 reports it (see Findings). Where no function of that name is declared `vazio`, both agree (Sema.MissingReturnAgree).
- Sema.CheckRulesSpec: uses the corrected missing-return check of Sema.HeaderDiags, so a void function without `retorna` is not reported.
- Sema.Analyzer.VerifyFunctionReturn: proved equal to the corrected check, so a void function without `retorna` is not reported.
- Sema.Analyzer.CheckReturns: the loop of Sema.Analyzer.VerifyFunctionReturn, with the same correction.
- Sema.Analyzer.VerifyFunctions: runs the corrected return check, so a void function without `retorna` is not reported.
- Sema.Analyzer.CheckRules: runs the corrected return check, so a void function without `retorna` is not reported.
- CodeGen.DeclStep: the message the source prints for a declaration that is neither a function nor a variable declaration (tppgencode.py:70) is not modelled; the step only leaves the state unchanged.
- CodeGen.Assignment: its contract states only that the function is extended in place. The store itself, of the expression's value into the variable or a gep on it, is stated by CodeGen.AssignmentStores.
- CodeGen.Compile: states the failure cases, the empty program and the number of functions (CodeGen.CompileFunctionCount). The globals and each function's contents are stated one declaration at a time, by CodeGen.GlobalDeclaration and CodeGen.FunctionDeclarationHeader, not over the whole loop.
- CodeGen.Decls: the same; its contract states failure and the empty case, and CodeGen.DeclsFunctionCount states the function count.
- CodeGen.Declaration: the same as CodeGen.Decls, plus the failure on a tree without children.

## Findings

| source | as written | input that shows it | evidently intended | confidence | as-written member | corrected member |
|---|---|---|---|---|---|---|
| tppparser.py:878 | `print` is passed the keyword `line`, which `print` does not accept, so the rule raises TypeError instead of building its error node | any fator with a syntax error inside parentheses, e.g. `x := (1 +)` | print the message and build the error node carrying the line | not executed | Parser.ErrorFatorAsWritten | Parser.ErrorFator |
| tppsema.py:345 | the test `declarationType != 'vazio'` follows `declarationType == 'func'`, so it always holds, and a void function without `retorna` is reported as having a return-type error | an untyped function with no `retorna`, e.g. `f() … fim` | report only functions whose declared type is not `vazio` | not executed | Sema.VoidFunctionReportedAsWritten | Sema.MissingReturnDiags |
