# A verified model of the pp4 Decaf compiler core

This project models the semantic analysis and code generation of a
Decaf-style teaching compiler (the `pp4/` tree).

- **Semantic analysis:**
  - scope construction, and the first-wins symbol table;
  - name lookup by walking towards the root;
  - expression typing and diagnostics;
  - declaration checks: inheritance, overriding and interface conformance;
  - statement checks.
- **Layout:**
  - field and vtable offsets;
  - object and vtable sizes;
  - the vtable's method list;
  - formal, local and global storage.
- **Code generation:**
  - expressions and statements, emitted as three-address pseudo-instructions;
  - function bodies;
  - the per-node frame estimates (`GetMemBytes`).

Pure logic is written as functions with lemmas. Code that updates state in the
source is written as classes and methods:

- the scope object, and the mutable annotations on declarations;
- the code generator, as an append-only instruction sequence with temp and
  label counters and a frame-byte count;
- the break-label stack.

Each method is proved against a specification function.

The main theorems:

- **Diagnostics.** Each check reports exactly the diagnostics its rule
  describes, in both directions. Some check/type pairs disagree as written:
  relational typing is the inverse of its check, and assignment reports only
  when the left type is not an error. Those are proved as written.
- **Layout.** Fields fit inside the allocated object and never overlap.
  Method slots fit inside the vtable. A member function's vtable offset
  indexes the slot of the class's method list that holds that very function.
  A subclass keeps every slot name of its ancestors.
- **Frame estimates.** Once the locals are placed, the `GetMemBytes`
  estimate of every expression and statement is exactly the frame bytes its
  emission draws. A function declares the estimate taken before its body's
  locals are placed. That estimate counts one extra word for each read of a
  local, so the declared frame always covers the frame drawn. The two are
  equal exactly when the body reads no local.
- **Break labels.** Statement emission leaves the break-label stack as it
  found it. A `break` jumps to the top of that stack.
- **Call frames.** The code of every expression leaves the parameter stack
  as it found it. A call leaves the i-th actual in the word the callee
  reads its i-th formal from, and the receiver in the word a method reads
  `this` from.
- **Runtime checks.** Under a small reference semantics for the
  instructions:
  - the subscript check halts exactly for an out-of-range index;
  - the array-size check halts exactly for a size that is not positive;
  - allocation yields a zeroed block with the length in its first word.

Files: `wrappers`, `errors`, `ast_type`, `ast`, `ast_decl`, `scope`,
`lookup`, `layout`, `codegen`, `expr_check`, `decl_check`, `stmt_check`,
`expr_emit`, `tac`, `call_stack`, `call_kind`, `stmt_emit`, `fn_emit` (each `.dfy`, one
module each).

## Model

| member | source | states |
|---|---|---|
| Ast.Node.Located | pp4/ast.cc:11-16 | a located node keeps its location, with no parent and no scope |
| Ast.Node.Unlocated | pp4/ast.cc:18-22 | an unlocated node has no location, no parent and no scope |
| Ast.Node.Statement | pp4/include/ast_stmt.h:82-83 | a statement node owns a fresh scope with an empty table and no tags |
| Ast.Node.SetParent | pp4/ast.cc:11-22 | setting the parent changes nothing else; the setter is declared in ast.h, which is not part of this model, and the cited lines are the constructors that start the parent null |
| Ast.Program.constructor | pp4/ast_stmt.cc:32-36 | the program's scope is the single shared global scope |
| Ast.Program.GetScope | pp4/include/ast_stmt.h:72 | `GetScope` always returns the shared global scope |
| Ast.Identifier.constructor | pp4/ast.cc:24-26 | an identifier stores its own copy of the name |
| Ast.IdentifierEqualsIsNameEquality | pp4/ast.cc:28-30 | identifier equality holds iff the names are equal; it is reflexive and symmetric |
| AstType.EquivalenceReflexive | pp4/include/ast_type.h:38 | type equivalence (assumed structural) is reflexive |
| AstType.EquivalenceSymmetric | pp4/include/ast_type.h:38 | type equivalence is symmetric |
| AstType.EquivalenceTransitive | pp4/include/ast_type.h:38 | type equivalence is transitive |
| AstType.PrimitiveEquivalence | pp4/include/ast_type.h:38 | two built-in types are equivalent iff they have the same kind, wherever they were created |
| AstType.IdenticalToIntType | pp4/include/ast_type.h:39 | a type is identical to the shared `int` singleton iff it is that singleton |
| AstType.DeclaredIntIsNotIdentical | pp4/include/ast_type.h:39 | a parser-made `int` node is equivalent to the singleton but not identical to it |
| AstType.IdentityImpliesEquivalence | pp4/include/ast_type.h:38-39 | identical types are equivalent |
| AstType.Innermost | pp4/include/ast_type.h:82 | the innermost element type of an array type is not an array |
| AstType.ArrayNameIsInnermostName | pp4/include/ast_type.h:82 | an array type's `Name` is its element type's `Name`, and so the innermost element's |
| AstType.MemBytes | pp4/include/ast_type.h:45 | every type occupies exactly `VarSize` bytes |
| AstType.ReportNotDeclared | pp4/include/ast_type.h:40 | at most one report; a report happens iff the innermost type is a named type, and it names that type |
| AstDecl.VarSlot.constructor | pp4/include/ast_decl.h:53-54 | a variable starts with no location and offset 0 |
| AstDecl.VarSlot.GetMemLoc | pp4/include/ast_decl.h:66 | returns the stored location |
| AstDecl.VarSlot.SetMemLoc | pp4/include/ast_decl.h:67 | sets the location and leaves the offset unchanged |
| AstDecl.VarSlot.GetMemOffset | pp4/include/ast_decl.h:68 | returns the stored offset |
| AstDecl.VarSlot.SetMemOffset | pp4/include/ast_decl.h:69 | sets the offset and leaves the location unchanged |
| AstDecl.InitialLabel | pp4/ast_decl.cc:351-353 | `main` keeps its name; any other function's label is `____` plus its name |
| AstDecl.FnSlot.constructor | pp4/ast_decl.cc:346-355 | a function starts with its initial label and is not a method |
| AstDecl.FnSlot.GetLabel | pp4/ast_decl.cc:432-434 | returns the current label |
| AstDecl.FnSlot.AddLabelPrefix | pp4/ast_decl.cc:406-408 | puts the prefix in front of the label and changes nothing else |
| AstDecl.FnSlot.GetVTblOffset | pp4/include/ast_decl.h:156 | returns the stored vtable offset |
| AstDecl.FnSlot.SetVTblOffset | pp4/include/ast_decl.h:157 | sets the vtable offset and changes nothing else |
| AstDecl.FnSlot.SetIsMethod | pp4/include/ast_decl.h:158 | sets the method flag and changes nothing else |
| AstDecl.ClassType | pp4/include/ast_decl.h:91 | a class's type is a non-primitive named type carrying the class's own name |
| AstDecl.FnType | pp4/include/ast_decl.h:159 | a function's type is its declared return type |
| AstDecl.FnEquivalentCharacterised | pp4/ast_decl.cc:361-378 | two functions are equivalent iff their return types are equivalent, their arities are equal and their formals are pairwise equivalent; a function is never equivalent to a non-function |
| AstDecl.FnEquivalentReflexive | pp4/ast_decl.cc:361-378 | every function is equivalent to itself |
| AstDecl.FnEquivalentSymmetric | pp4/ast_decl.cc:361-378 | function equivalence is symmetric |
| AstDecl.DeclEquivalentReflexive | pp4/ast_decl.cc:16-34 | every declaration is equivalent to itself (variables compare types) |
| AstDecl.DeclMemBytes | pp4/include/ast_decl.h:126 | a variable adds `VarSize` instance bytes; a function or an interface adds none |
| AstDecl.DeclVTblBytes | pp4/include/ast_decl.h:62 | a function adds `VarSize` vtable bytes; a variable or an interface adds none |
| Scopes.AddDeclSpec | pp4/ast_stmt.cc:13-21 | a bound name yields one conflict and leaves the table unchanged; a new name is inserted silently |
| Scopes.RegisterAppend | pp4/ast_stmt.cc:53-56 | registering `a + b` is registering `a`, then `b`, with the reports concatenated |
| Scopes.RegisterKeys | pp4/ast_stmt.cc:13-21 | registering gains exactly the declared names and never replaces an entry |
| Scopes.RegisterFirstWins | pp4/ast_stmt.cc:13-21 | a new name is bound to the first declaration of that name |
| Scopes.RegisterReports | pp4/ast_stmt.cc:13-21 | each declaration either adds one new name or is reported once, and every report is a conflict |
| Scopes.Scope.constructor | pp4/include/ast_stmt.h:41-42 | a new scope has an empty table and no class, loop or function tag |
| Scopes.Scope.SetParent | pp4/include/ast_stmt.h:43 | sets the parent; the table and tags are unchanged |
| Scopes.Scope.GetParent | pp4/include/ast_stmt.h:44 | returns the parent |
| Scopes.Scope.SetClassDecl | pp4/include/ast_stmt.h:46 | sets the class tag and changes nothing else |
| Scopes.Scope.GetClassDecl | pp4/include/ast_stmt.h:47 | returns the last class tag set |
| Scopes.Scope.SetLoopStmt | pp4/include/ast_stmt.h:49 | sets the loop tag and changes nothing else |
| Scopes.Scope.GetLoopStmt | pp4/include/ast_stmt.h:50 | returns the last loop tag set |
| Scopes.Scope.SetFnDecl | pp4/include/ast_stmt.h:52 | sets the function tag and changes nothing else |
| Scopes.Scope.GetFnDecl | pp4/include/ast_stmt.h:53 | returns the last function tag set |
| Scopes.Scope.AddDecl | pp4/ast_stmt.cc:13-21 | on a bound name, returns 1 with one conflict and leaves the table unchanged; otherwise inserts and returns 0; the tags are unchanged |
| Scopes.Scope.AddAll | pp4/ast_decl.cc:384-385 | adding declarations in order gives the table and reports of `Register` |
| Scopes.FormalDecls | pp4/ast_decl.cc:384-385 | the formals, as declarations, in order |
| Scopes.BuildFnScope | pp4/ast_decl.cc:380-392 | a function's scope is tagged with the function and holds its formals, first wins; the reports are the formals' conflicts followed by those of building its body's blocks |
| Scopes.BlockBuildReports | pp4/ast_stmt.cc:92-103 | every report of building a block and the blocks inside it is a declaration conflict |
| Scopes.BuildBlockScope | pp4/ast_stmt.cc:92-103 | the block's variables are registered in its own scope, first wins; then every block nested in its statements gets its scope built, in order; the reports are the block's conflicts followed by the nested blocks' |
| Scopes.VarDecls | pp4/ast_stmt.cc:92-95 | the block's variables, as declarations, in order |
| Scopes.BuildMemberScopes | pp4/ast_decl.cc:78-90 | every member function's scope is built, formals and body, and their reports are concatenated in member order |
| Scopes.BuildDeclScope | pp4/ast_decl.cc:78-90 | a class tags its scope and registers its members, an interface registers its members, a function as `BuildFnScope`; the reports are `BuildDiags` |
| Scopes.ProgramBuildScope | pp4/ast_stmt.cc:53-60 | every top-level declaration is registered globally before any child scope is built, so the global conflicts come first |
| Scopes.BuildChildScopes | pp4/ast_stmt.cc:57-59 | the children's scopes are built in order, with their reports concatenated |
| Lookup.PathLookupSpec | pp4/ast_expr.cc:65-73 | the innermost binding wins; a name bound nowhere on the path is not found |
| Lookup.GetFieldDeclInPath | pp4/ast_expr.cc:65-73 | the walk to the root returns the innermost binding |
| Lookup.GetFieldDeclInType | pp4/ast_expr.cc:32-57 | the lookup in a type walks the superclass chain, as `TypeLookup` says |
| Lookup.InheritedMemberFound | pp4/ast_expr.cc:32-57 | a member declared in a superclass, shadowed by no class in between and by no global, is found |
| Lookup.GetClassDecl | pp4/ast_expr.cc:75-83 | returns the first class-tagged scope on the way to the root |
| Lookup.GetFieldDecl | pp4/ast_expr.cc:13-27 | with a base, looks in the base's type; without one, looks lexically |
| Layout.Methods | pp4/ast_decl.cc:285-291 | the functions among the members, in order |
| Layout.CountVarsMonotone | pp4/ast_decl.cc:220-235 | the variable and method counts of a prefix grow with the prefix |
| Layout.SuperMemBytes | pp4/ast_decl.cc:298-302 | a superclass contributes non-negative bytes |
| Layout.ClassMemBytes | pp4/ast_decl.cc:295-308 | a class's instance bytes are non-negative |
| Layout.SuperVTblBytes | pp4/ast_decl.cc:312-316 | a superclass contributes non-negative vtable bytes |
| Layout.ClassVTblBytes | pp4/ast_decl.cc:310-322 | a class's vtable bytes are non-negative |
| Layout.MemberMemBytes | pp4/ast_decl.cc:304-305 | a variable member adds `VarSize`, a function none |
| Layout.GetMemBytes | pp4/ast_decl.cc:295-308 | the loop computes the superclass's bytes plus `VarSize` per own field |
| Layout.GetVTblBytes | pp4/ast_decl.cc:310-322 | the loop computes the superclass's vtable bytes plus `VarSize` per own method |
| Layout.NumberFields | pp4/ast_decl.cc:220-226 | the k-th own field gets offset base + `VarSize`·k, in declaration order; methods are skipped |
| Layout.NumberMethods | pp4/ast_decl.cc:228-235 | the k-th own method is marked a method and gets vtable offset base + `VarSize`·k |
| Layout.PrefixLabels | pp4/ast_decl.cc:237-242 | every member function's label gets the prefix, and nothing else changes |
| Layout.PreEmit | pp4/ast_decl.cc:209-243 | fields are numbered from `OffsetToFirstField` plus the superclass's bytes; methods are marked and numbered from `OffsetToFirstMethod` plus the superclass's vtable bytes; labels get the prefix `Class.` |
| Layout.CountVarsPastVar | pp4/ast_decl.cc:220-226 | the field count strictly increases past a field |
| Layout.MethodsPastFn | pp4/ast_decl.cc:228-235 | the method count strictly increases past a method |
| Layout.FieldsFitInObject | pp4/ast_decl.cc:209-226 | each field lies after the superclass's fields and inside the allocated object, and later fields never overlap it |
| Layout.MethodsFitInVTable | pp4/ast_decl.cc:209-235 | each method slot lies after the superclass's slots and inside the vtable, and later methods never share it |
| Layout.LastNamed | pp4/ast_decl.cc:272-283 | the replacement is the default or an own method of that name |
| Layout.Overridden | pp4/ast_decl.cc:272-283 | replacement keeps the table's length and every slot's name |
| Layout.OverriddenStep | pp4/ast_decl.cc:277-282 | one own method's pass puts it in every slot of its name |
| Layout.ReplaceNamed | pp4/ast_decl.cc:277-282 | the inner loop replaces exactly the slots named like the method, at the same index |
| Layout.OverrideAll | pp4/ast_decl.cc:272-283 | the outer loop gives the inherited table with overridden slots replaced |
| Layout.CopyTable | pp4/ast_decl.cc:263-270 | the superclass's table is copied entry by entry |
| Layout.AppendMethods | pp4/ast_decl.cc:285-291 | every own method is appended in member order, so overriders appear twice |
| Layout.GetMethodDecls | pp4/ast_decl.cc:261-293 | returns `MethodTable`: the inherited slots with overriders in place, then all own methods |
| Layout.MethodsPrefix | pp4/ast_decl.cc:285-291 | the methods of a prefix of the members are a prefix of all methods |
| Layout.MethodTableSize | pp4/ast_decl.cc:261-322 | the method list has exactly `GetVTblBytes / VarSize` entries |
| Layout.MethodOffsetIndexesTable | pp4/ast_decl.cc:228-293 | a method's vtable offset divided by `VarSize` indexes the list slot holding that very method |
| Layout.InheritedBytes | pp4/ast_decl.cc:263-270 | the superclass's vtable bytes are one word per inherited slot |
| Layout.OwnMethodSlot | pp4/ast_decl.cc:285-291 | the k-th own method sits after the inherited slots at index k |
| Layout.MethodAtCount | pp4/ast_decl.cc:228-235 | a member function's place among the methods is the count of the methods before it |
| Layout.SubclassKeepsSlotNames | pp4/ast_decl.cc:261-293 | every slot of an ancestor's list holds a same-named method in every subclass's list |
| Layout.PlaceFormals | pp4/ast_decl.cc:410-421 | the i-th formal gets fp offset `OffsetToFirstParam` + `VarSize`·i, plus one word in a method |
| Layout.FormalsDistinct | pp4/ast_decl.cc:410-421 | formals take distinct words above the frame pointer, and never the receiver's word |
| Layout.PlaceGlobals | pp4/ast_stmt.cc:62-72 | the k-th global variable gets gp offset `OffsetToFirstGlobal` + `VarSize`·k; other declarations get nothing and do not advance the counter |
| Layout.GlobalsDistinct | pp4/ast_stmt.cc:62-72 | two globals never share a word, and all lie at or above the global base |
| ExprCheck.LiteralType | pp4/ast_expr.cc:89-154 | a literal's type is the shared built-in type of its kind |
| ExprCheck.ReadType | pp4/ast_expr.cc:1214-1237 | `ReadInteger()` is an int and `ReadLine()` a string |
| ExprCheck.ArithmeticTyping | pp4/ast_expr.cc:200-220 | the type is int iff every operand is int, double iff every operand is double, and otherwise error |
| ExprCheck.ArithmeticCheckAgrees | pp4/ast_expr.cc:222-245 | the check adds exactly one report iff the type is error |
| ExprCheck.RelationalTypeInvertsCheck | pp4/ast_expr.cc:283-307 | as written, the type is error iff the check is silent, and bool iff it reports |
| ExprCheck.EqualityAgrees | pp4/ast_expr.cc:366-388 | bool iff the operands are equivalent, error otherwise, and the check then reports once |
| ExprCheck.LogicalAgrees | pp4/ast_expr.cc:454-489 | bool iff every operand is bool, otherwise error with one report |
| ExprCheck.AssignAgrees | pp4/ast_expr.cc:564-583 | the left type when the right is equivalent to it, else error; the check reports only when the type is error |
| ExprCheck.AssignErrorSidesDiffer | pp4/ast_expr.cc:573-583 | `int = <error>` reports, but `<error> = int` does not |
| ExprCheck.ArrayAccessType | pp4/ast_expr.cc:635-640 | the element type for an array base, error otherwise |
| ExprCheck.ArrayAccessAgrees | pp4/ast_expr.cc:647-656 | a non-array base and a subscript not identical to `int` are each reported independently |
| ExprCheck.DeclaredIntSubscriptReported | pp4/ast_expr.cc:647-656 | a subscript whose `int` node the parser made is reported |
| ExprCheck.NewAgrees | pp4/ast_expr.cc:1105-1122 | `new C` has the error type iff it is reported, and a named type otherwise |
| ExprCheck.NewArrayType | pp4/ast_expr.cc:1131-1133 | `NewArray` types as an array of the element type |
| ExprCheck.NewArrayElementReported | pp4/ast_expr.cc:1141-1153 | the element type is reported iff it names something that is not a class; a non-int size is reported |
| ExprCheck.ThisType | pp4/ast_expr.cc:606-610 | `this` has the enclosing class's type |
| ExprCheck.ThisCheck | pp4/ast_expr.cc:612-615 | `this` is reported iff there is no enclosing class |
| ExprCheck.FieldAccessType | pp4/ast_expr.cc:731-735 | a field access has the declared type of the variable the lookup finds: without a base, the innermost binding on the path, or the member found through the enclosing class's type when no scope binds the name; with a base, the member found through the base's type |
| ExprCheck.FieldAccessCheckSpec | pp4/ast_expr.cc:743-784 | without a base: silent iff a variable of that name is visible, else the name is reported twice. With a base: the base's reports, then a missing field iff the lookup through the base's type fails, an inaccessible field iff it is found outside every class, a missing variable iff a non-variable is found inside a class, and nothing more iff a variable is found inside a class |
| ExprCheck.CallType | pp4/ast_expr.cc:892-899 | `length` on an array is an int; otherwise the callee's return type |
| ExprCheck.ArgDiagsSpec | pp4/ast_expr.cc:958-964 | a position is reported iff its actual is not equivalent to its formal |
| ExprCheck.CheckActuals | pp4/ast_expr.cc:945-965 | every actual is checked, then one arity mismatch skips the per-argument checks; otherwise each position is checked |
| ExprCheck.ConcatReports | pp4/ast_expr.cc:948-949 | every actual's own reports, in order; `Program::Check`'s loop over the declarations (pp4/ast_stmt.cc:47-50) is the same loop |
| ExprCheck.CheckArgTypes | pp4/ast_expr.cc:958-964 | the loop reports each non-equivalent position |
| ExprCheck.CallCheckFound | pp4/ast_expr.cc:902-943 | a found callee gives the base's reports followed by the actuals' check; a base naming a declaration returns early |
| ExprCheck.UnqualifiedCallOutsideClass | pp4/ast_expr.cc:892-916 | outside every class a call without a base completes iff its name is bound to a function on the path (otherwise `Call::GetType`'s assertion stops the compiler), and then adds nothing to the actuals' check |
| DeclCheck.VarTypeCheck | pp4/ast_decl.cc:40-58 | at most one `NotDeclared` report, for type lookup |
| DeclCheck.VarTypeCheckSpec | pp4/ast_decl.cc:40-58 | reported iff the innermost type is named and the nearest binding of its name is missing or is neither a class nor an interface |
| DeclCheck.CheckType | pp4/ast_decl.cc:40-58 | the loop walking to the root computes `VarTypeCheck` |
| DeclCheck.FormalsCheck | pp4/ast_decl.cc:394-400 | at most one type report per formal |
| DeclCheck.CheckFn | pp4/ast_decl.cc:394-400 | the formals are checked, then the body |
| DeclCheck.CheckMembers | pp4/ast_decl.cc:176-188 | every member is checked, in order |
| DeclCheck.ExtendsCheck | pp4/ast_decl.cc:92-100 | silent iff there is no superclass or it names a global class; otherwise one report |
| DeclCheck.ImplementsCheck | pp4/ast_decl.cc:102-112 | at most one report per implemented name |
| DeclCheck.ImplementsCheckSpec | pp4/ast_decl.cc:102-112 | exactly the implemented names that are not global interfaces are reported |
| DeclCheck.CheckImplements | pp4/ast_decl.cc:102-112 | the loop computes `ImplementsCheck` |
| DeclCheck.AgainstDiags | pp4/ast_decl.cc:190-207 | at most two reports per own name |
| DeclCheck.AgainstDiagsSpec | pp4/ast_decl.cc:190-207 | a conflict for each own name bound to a variable there, and a mismatch for each own name bound to a non-equivalent function there |
| DeclCheck.AgainstDiagsEmpty | pp4/ast_decl.cc:190-207 | silent iff no own name conflicts or mismatches |
| DeclCheck.AgainstDiagsDistinct | pp4/ast_decl.cc:190-207 | each report appears once |
| DeclCheck.CheckAgainstScope | pp4/ast_decl.cc:190-207 | the loop over the own table computes `AgainstDiags` |
| DeclCheck.AgainstOrderIndependent | pp4/ast_decl.cc:190-207 | the reports do not depend on the table's iteration order |
| DeclCheck.CheckExtendedMembers | pp4/ast_decl.cc:114-125 | compares the own scope with every class up the superclass chain |
| DeclCheck.ExtendedConflicts | pp4/ast_decl.cc:114-125 | an own name is a conflict iff some ancestor declares a variable of that name |
| DeclCheck.CheckImplementedMembers | pp4/ast_decl.cc:127-134 | compares the own scope with every implemented interface's scope |
| DeclCheck.ImplementedKinds | pp4/ast_decl.cc:127-134 | a name is a mismatch iff some implemented interface declares a non-equivalent function of that name |
| DeclCheck.FindInChain | pp4/ast_decl.cc:150-165 | a member is found iff the class or some superclass declares its name |
| DeclCheck.InterfacesCheck | pp4/ast_decl.cc:136-175 | matching is by name only; the first interface with a missing member is reported once, and the whole check ends there |
| DeclCheck.CheckImplementsInterfaces | pp4/ast_decl.cc:136-175 | the loops compute `InterfacesCheck` |
| DeclCheck.CheckClass | pp4/ast_decl.cc:176-188 | checks the members first, then the superclass name, the interface names, the signatures against each interface, the members against each ancestor, and conformance, in that order, reading the global scope (the corrected reading; see Findings) |
| DeclCheck.ClassCheckAsWrittenSpec | pp4/ast_decl.cc:102-188 | as written, a class reaches the unset parent pointer iff it extends or implements something, after reporting what the intended check reports first; any other class completes with the intended reports, its members' alone |
| DeclCheck.InterfaceNamesPass | pp4/ast_decl.cc:102-112 | a class that implements only interfaces draws no name reports |
| DeclCheck.InterfaceSignaturesPass | pp4/ast_decl.cc:127-134 | a class that redeclares its interfaces' functions equivalently draws no signature reports |
| DeclCheck.InterfaceMembersFound | pp4/ast_decl.cc:136-175 | such a class passes conformance |
| DeclCheck.MembersRedeclared | pp4/ast_decl.cc:150-165 | a class whose scope holds every member name of an interface implements all of it |
| StmtCheck.LoopStmt.constructor | pp4/include/ast_stmt.h:125-126 | a loop node carries its identity |
| StmtCheck.LoopStmt.SetBreak | pp4/include/ast_stmt.h:129-130 | `GetBreak` returns the label just set |
| StmtCheck.BuildLoopScope | pp4/ast_stmt.cc:159-163 | the loop tags its own scope with itself and changes nothing else |
| StmtCheck.BreakCheckSpec | pp4/ast_stmt.cc:275-284 | silent iff some scope on the path is loop-tagged; otherwise exactly one report |
| StmtCheck.CheckBreak | pp4/ast_stmt.cc:275-284 | the walk to the root computes `BreakCheck` |
| StmtCheck.FindEnclosingFn | pp4/ast_stmt.cc:306-327 | returns the nearest function-tagged scope's function |
| StmtCheck.ReturnCheckSpec | pp4/ast_stmt.cc:306-327 | reported outside every function; inside one, reported iff the returned type is not equivalent to the declared return type |
| StmtCheck.CheckReturn | pp4/ast_stmt.cc:306-327 | the walk computes `ReturnCheck` |
| StmtCheck.PrintArgDiags | pp4/ast_stmt.cc:358-371 | at most one report per argument |
| StmtCheck.PrintArgDiagsSpec | pp4/ast_stmt.cc:358-371 | argument p (counting from 1) is reported iff its type is not int, bool or string |
| StmtCheck.CheckPrint | pp4/ast_stmt.cc:358-371 | the loop computes `PrintCheck` |
| StmtCheck.ConditionalReportsTest | pp4/ast_stmt.cc:151-157 | after the test's and body's reports, one report iff the test is not bool (for `if` too) |
| StmtCheck.ForSkipsInitAndStep | pp4/ast_stmt.cc:151-157 | a `for` check does not depend on its initialisation or step |
| StmtCheck.CheckBlock | pp4/ast_stmt.cc:105-112 | the block's variables, then its statements, in order |
| StmtCheck.CheckProgram | pp4/ast_stmt.cc:38-51 | the scopes are built first, function bodies included, so every scope conflict precedes every check; then each top-level declaration's own check (a variable's type, a function's formals and body, a class's or an interface's check) follows, in order |
| ExprEmit.BinaryTail | pp4/ast_expr.cc:272-277 | a binary operator draws one temporary, which holds its result |
| ExprEmit.ExprCode | pp4/ast_expr.cc:93-1231 | every valued expression's code leaves a result location |
| ExprEmit.NegatedCode | pp4/ast_expr.cc:427-448 | the negation's result is the first temporary it draws |
| ExprEmit.BytesMatchTemps | pp4/ast_expr.cc:97-1231 | for every expression whose variables are placed, `GetMemBytes` equals `VarSize` times the temporaries its emission draws |
| ExprEmit.OperatorBytesMatchTemps | pp4/ast_expr.cc:254-562 | the same for the operators |
| ExprEmit.AccessBytesMatchTemps | pp4/ast_expr.cc:598-1191 | the same for assignments, element and length reads, allocations and calls |
| ExprEmit.ArithmeticBytesMatchTemps | pp4/ast_expr.cc:254-281 | the same for arithmetic |
| ExprEmit.RelationalBytesMatchTemps | pp4/ast_expr.cc:325-364 | the same for relational operators |
| ExprEmit.EqualityBytesMatchTemps | pp4/ast_expr.cc:401-452 | the same for equality |
| ExprEmit.LogicalBytesMatchTemps | pp4/ast_expr.cc:506-562 | the same for logical operators |
| ExprEmit.AssignBytesMatchTemps | pp4/ast_expr.cc:598-604 | the same for assignment |
| ExprEmit.CallBytesMatchTemps | pp4/ast_expr.cc:984-1097 | the same for calls |
| ExprEmit.AddrBytesMatchTemps | pp4/ast_expr.cc:692-695 | `GetMemBytesAddr` equals the address code's temporaries |
| ExprEmit.ActualsBytesMatchTemps | pp4/ast_expr.cc:1092-1097 | `GetMemBytesActuals` equals the actuals' temporaries |
| ExprEmit.EmitExpr | pp4/ast_expr.cc:93-1231 | appends `ExprCode`, returns its result, and draws its temporaries as frame bytes |
| ExprEmit.EmitOperator | pp4/ast_expr.cc:247-558 | the same for the operators |
| ExprEmit.EmitAccess | pp4/ast_expr.cc:585-1186 | the same for assignments, element and length reads, allocations and calls |
| ExprEmit.EmitLeaf | pp4/ast_expr.cc:93-158 | the same for constants, variables, `this` and the reads |
| ExprEmit.EmitNew | pp4/ast_expr.cc:1155-1168 | `new C` allocates the class's bytes plus the vtable word and stores the vtable address |
| ExprEmit.EmitBinary | pp4/ast_expr.cc:272-277 | appends `ArithmeticCode` for a binary operator |
| ExprEmit.EmitUnary | pp4/ast_expr.cc:261-266 | unary minus is emitted as `0 - right` |
| ExprEmit.EmitRelational | pp4/ast_expr.cc:309-323 | `>` and `>=` are emitted as `<` and `<=` with the operands swapped |
| ExprEmit.EmitLess | pp4/ast_expr.cc:341-346 | both operands, then one `<` |
| ExprEmit.EmitLessEqual | pp4/ast_expr.cc:352-360 | `<=` as `<`, `==` and their `\|\|` |
| ExprEmit.EmitEqual | pp4/ast_expr.cc:413-421 | the string builtin when the left operand is a string, `==` otherwise |
| ExprEmit.EmitNotEqual | pp4/ast_expr.cc:427-448 | two labels and the result first, then `==` and a test against zero |
| ExprEmit.EmitAndOr | pp4/ast_expr.cc:521-537 | both operands, then `&&` or `\|\|` |
| ExprEmit.EmitNot | pp4/ast_expr.cc:543-558 | the operand tested against zero through two labels |
| ExprEmit.EmitSubscriptCheck | pp4/ast_expr.cc:697-718 | appends the subscript-check code, drawing 8 temporaries and 1 label |
| ExprEmit.EmitElementAddress | pp4/ast_expr.cc:675-690 | appends base + (subscript·`VarSize` + `VarSize`) |
| ExprEmit.EmitAddr | pp4/ast_expr.cc:675-690 | base, subscript, the subscript check, then the element address |
| ExprEmit.EmitArrayAccess | pp4/ast_expr.cc:657-659 | the element read at its address (the corrected offset; see Findings) |
| ExprEmit.EmitArrayStore | pp4/ast_expr.cc:665-669 | the address, the store, and a read back of the stored value, both at the element's address (the corrected offset; see Findings) |
| ExprEmit.EmitAssign | pp4/ast_expr.cc:585-596 | the right side first, then the store or copy into the left side |
| ExprEmit.EmitArrayLength | pp4/ast_expr.cc:1040-1042 | the length word at the array's base |
| ExprEmit.EmitSizeCheck | pp4/ast_expr.cc:1193-1207 | appends the size-check code, drawing 5 temporaries and 1 label |
| ExprEmit.EmitSizedArray | pp4/ast_expr.cc:1175-1186 | the word size, the size check, then the allocation |
| ExprEmit.EmitNewArray | pp4/ast_expr.cc:1175-1186 | the size, then the rest of `NewArrayExpr::Emit` |
| ExprEmit.EmitActuals | pp4/ast_expr.cc:992-994 | every actual, in order, with their results collected |
| ExprEmit.EmitPushes | pp4/ast_expr.cc:996-998 | pushes from the last parameter down to the first |
| ExprEmit.EmitDynamicDispatch | pp4/ast_expr.cc:1048-1053 | the vtable from the receiver's first word, then the method's address from its slot |
| ExprEmit.EmitInvoke | pp4/ast_expr.cc:1000-1019 | the call itself, then the pop of the pushed words |
| ExprEmit.EmitCall | pp4/ast_expr.cc:991-1020 | the actuals, their pushes, then the call |
| Tac.Zeroes | pp4/ast_expr.cc:1175-1186 | exactly the bytes of the block are zeroed |
| Tac.RunPrintHalt | pp4/ast_expr.cc:697-718 | printing a message and halting stops with the message as the last output |
| Tac.SubscriptTestStateExtends | pp4/ast_expr.cc:697-718 | the test writes only its own temporaries; its result is 1 iff the index is out of range |
| Tac.SubscriptCheckSpec | pp4/ast_expr.cc:697-718 | the check halts with the out-of-bounds message iff the index is negative or at least the stored length; otherwise it falls through |
| Tac.AddressStateFacts | pp4/ast_expr.cc:675-690 | the address computation writes only its own temporaries |
| Tac.ElementAddressSpec | pp4/ast_expr.cc:675-690 | the element address is base + `VarSize`·(index + 1) |
| Tac.AsWrittenLastElementOutsideBlock | pp4/ast_expr.cc:657-659 | as written, reading the last element reaches a word past the allocated block |
| Tac.CorrectedElementInsideBlock | pp4/ast_expr.cc:657-659 | corrected, every in-range element is read from inside the block, never from the length word |
| Tac.AsWrittenLastElementStoreOutsideBlock | pp4/ast_expr.cc:665-669 | as written, storing into the last element writes a word past the allocated block |
| Tac.CorrectedElementStoreInsideBlock | pp4/ast_expr.cc:665-669 | corrected, a store into an in-range element overwrites that element's word and keeps the block and its length word |
| Tac.SizeTestStateExtends | pp4/ast_expr.cc:1193-1207 | the size test writes only its own temporaries; its result is 1 iff the size is not positive |
| Tac.SizeCheckSpec | pp4/ast_expr.cc:1193-1207 | the check halts with the bad-size message iff the size is not positive; otherwise it falls through |
| Tac.AllocArraySpec | pp4/ast_expr.cc:1175-1186 | a fresh zeroed block of `VarSize`·(size + 1) bytes, old memory unchanged, the size stored in its first word |
| CallStack.PushOrder | pp4/ast_expr.cc:996-998 | pushing from the last parameter down leaves the first on top |
| CallStack.ExprKeepsStack | pp4/ast_expr.cc:93-1231 | the code of any expression leaves the parameter stack as it found it |
| CallStack.CallKeepsStack | pp4/ast_expr.cc:991-1020 | a call's pop removes exactly the words pushed for it |
| CallStack.ReceiverWords | pp4/ast_expr.cc:1006-1013 | a method call pushes one receiver word, a function call none |
| CallStack.CallWords | pp4/ast_expr.cc:991-1020 | a call pushes one word per actual, plus the receiver for a method |
| CallStack.CallFrame | pp4/ast_expr.cc:991-1020 | right before the call, the pushed words are on top of the caller's stack, and the pop after it removes exactly them |
| CallStack.FormalDepth | pp4/ast_decl.cc:410-421 | formal i lives at depth i below the top, or i + 1 in a method |
| CallStack.ActualMeetsFormal | pp4/ast_expr.cc:991-1020 | the i-th actual's value sits in the word the callee reads its i-th formal from |
| CallStack.ReceiverMeetsThis | pp4/ast_expr.cc:1006-1016 | a method's receiver is pushed last, onto the word the callee reads `this` from |
| CallStack.ActualsResultAt | pp4/ast_expr.cc:992-994 | the i-th collected result is where the i-th actual's code leaves its value |
| CallKind.GlobalCallDispatched | pp4/ast_expr.cc:1077-1090 | a global function called without a base inside a class that declares no member of that name is a method call as written (the lookup through the class's type falls back to the global scope, pp4/ast_expr.cc:32-73), but a function call by the intended rule |
| CallKind.KindsAgreeOffGlobals | pp4/ast_expr.cc:1077-1090 | for a name no global declaration has, the intended rule and the source's agree on every call with a base, outside every class, or naming a member of the class's chain |
| CallKind.ChainIsMemberWalk | pp4/ast_expr.cc:32-73 | for a name no global declaration has, the lookup through a class's type finds exactly what the walk over the chain's own members finds |
| CallKind.AsWrittenFirstFormalReadsThis | pp4/ast_expr.cc:1001-1016 | a call without a base dispatched as a method leaves `this` on the word where a callee laid out as a plain function reads its first formal (pp4/ast_decl.cc:410-421), and the first actual one word further down |
| CodeGen.ThisLoc | pp4/ast_expr.cc:61-63 | the receiver is at the first parameter offset from the frame pointer |
| CodeGen.BreakStack.Push | pp4/include/ast_stmt.h:63 | puts a label on top of the break stack |
| CodeGen.BreakStack.Pop | pp4/include/ast_stmt.h:63 | removes the top label |
| CodeGen.BreakStack.Top | pp4/include/ast_stmt.h:63 | the top label is the last one pushed |
| StmtEmit.StmtBytesMatch | pp4/ast_stmt.cc:129-378 | for every statement whose locals are placed, `GetMemBytes` equals `VarSize` times the temporaries its emission draws plus its blocks' locals |
| StmtEmit.IfBytesMatch | pp4/ast_stmt.cc:269-273 | the same for `if` |
| StmtEmit.WhileBytesMatch | pp4/ast_stmt.cc:223-225 | the same for `while` |
| StmtEmit.ForBytesMatch | pp4/ast_stmt.cc:196-199 | the same for `for` |
| StmtEmit.BlockBytesMatch | pp4/ast_stmt.cc:129-136 | the same for blocks, with their locals placed |
| StmtEmit.PrintBytesMatch | pp4/ast_stmt.cc:373-378 | the same for `Print` |
| StmtEmit.SlotsWithin | pp4/ast_stmt.cc:114-127 | each statement's locals are among its block's locals |
| StmtEmit.PlaceLocals | pp4/ast_stmt.cc:114-127 | the i-th local of a block gets the next frame word below the first local's offset, and that location is recorded |
| StmtEmit.LocalOffsetsDistinct | pp4/ast_stmt.cc:114-127 | the locals of a block take distinct words at or below the first local's offset |
| StmtEmit.EmitExprAt | pp4/ast_expr.cc:93-1231 | `Expr::Emit` with the counters named: appends `ExprCode` |
| StmtEmit.EmitStmt | pp4/ast_stmt.cc:114-389 | appends `StmtCode`, gives the break stack back as it found it, and draws a frame word per temporary and per local |
| StmtEmit.EmitBlock | pp4/ast_stmt.cc:114-127 | the locals are placed, then the statements are emitted in order |
| StmtEmit.EmitIf | pp4/ast_stmt.cc:254-267 | the test, a jump to the else label when it is zero, the body, a jump past the else, the else label, the else body, the end label |
| StmtEmit.EmitIfTail | pp4/ast_stmt.cc:254-267 | the body, the jump, the else label, the else branch, and the end label |
| StmtEmit.EmitElse | pp4/ast_stmt.cc:254-267 | the else branch when there is one, nothing otherwise |
| StmtEmit.EmitWhile | pp4/ast_stmt.cc:205-221 | the top label, the test, a jump to the exit when it is zero, the body with the exit on the break stack, a jump back, the exit; the break stack is restored |
| StmtEmit.EmitWhileTail | pp4/ast_stmt.cc:205-221 | the body with the exit label on top of the break stack, then the jump back and the exit label |
| StmtEmit.EmitFor | pp4/ast_stmt.cc:179-194 | as `while`, with the initialisation first and the step after the body; the break stack is restored |
| StmtEmit.EmitForHead | pp4/ast_stmt.cc:179-194 | the initialisation, the top label, the test, and the jump to the exit |
| StmtEmit.EmitForTail | pp4/ast_stmt.cc:179-194 | the body with the exit on the break stack, the step, the jump back, the exit label |
| StmtEmit.EmitPrint | pp4/ast_stmt.cc:380-389 | each argument's value, then a call to its type's print routine |
| FnEmit.UnplacedBytes | pp4/ast_expr.cc:817-849 | before the locals are placed, an expression's estimate is its placed estimate plus `VarSize` per read of a local |
| FnEmit.UnplacedStmtBytes | pp4/ast_stmt.cc:129-378 | the same for every statement |
| FnEmit.FrameEstimate | pp4/ast_decl.cc:425 | the estimate taken before placement is the frame the body draws plus `VarSize` per read of a local |
| FnEmit.EmitFn | pp4/ast_decl.cc:410-430 | formals are placed; a body gets its label, a `BeginFunc` declaring the estimate taken before placement (the corrected size; see Findings), the body's code, and `EndFunc`; the frame drawn never exceeds the size declared, and equals it iff the body reads no local |
| FnEmit.FrameSizeAsWritten | pp4/ast_decl.cc:425 | the declared frame size as written is four times the estimate taken before placement |
| FnEmit.AsWrittenFrameTooLarge | pp4/ast_decl.cc:425 | printing one integer constant draws one word of frame, which the estimate gets right, but four words are declared |
| FnEmit.LocalReadEstimated | pp4/ast_decl.cc:425 | `{ int x; Print(x); }` draws one word of frame, but the estimate counts two |

## Left out

- `IsEquivalentTo` on types: its body (`ast_type.cc`) is not part of this model. It is assumed to be structural equivalence that ignores where a built-in type node came from. Every equivalence property above rests on this assumption.
- `NamedType`/`ArrayType` `IsEqualTo` and the `ArrayType` report override are in `ast_type.cc` too. They are taken to be structural, and delegating to the element type, respectively.
- The code generator (`codegen.h`/`codegen.cc`) is not part of this model. Its `Gen*` calls are modelled as instructions appended to a sequence, with fresh temporaries and labels from counters. The layout constants are the interface's usual ones: `VarSize` 4, parameters from 4, locals from -8, globals, fields (after the vtable word) and methods from their bases. `DoFinalCodeGen` and `GenVTable` are not modelled.
- `ClassDecl::Emit` (pp4/ast_decl.cc:245-259) and the driver loops of `Program::Emit` (pp4/ast_stmt.cc:73-79) are not modelled as such. Their parts are: `PlaceGlobals`, `PreEmit`, `GetMethodDecls` (the vtable's labels) and `EmitFn`. Emitting a whole class would frame several functions at once.
- Emission walks a laid-out tree: variable locations, field offsets, call targets and instance sizes are resolved in the tree rather than read back from `memLoc`. The type that selects a print routine (`Type::GetPrint`) is given per argument.
- Double constants and floating point are not modelled: `DoubleConstant::Emit` only asserts.
- `ReportError` formatting: diagnostics are reason codes plus the name or position they concern.
- Printing operators and the `Hashtable`/`List` implementations: tables are maps and lists are sequences. The hash table's iteration order is a parameter (`keys`), and the properties stated about it are order-independent.
- The parser (pp2/y.tab.c) is not part of this model. Whether it shares the built-in type singletons is a parameter (`Origin`).
- The source leaves `VarDecl::memLoc`/`memOffset` and `FnDecl::vtlOffset` uninitialised; the model starts them `None`, 0 and 0. `Scope::parent` is never set either; the model starts it null, and the class checks that read it are the subject of a finding below.
- Superclass walks terminate in the source only on an acyclic hierarchy; the model requires one, witnessed by a rank map.
- Known source defects left unproved: `FieldAccess::Check` passes an uninitialised type (pp4/ast_expr.cc:767); `ReturnStmt::Check` may dereference a null type (pp4/ast_stmt.cc:323-324). `CheckReturn` requires the returned type to be known where the source would dereference it.
- ExprCheck.ThisType: requires an enclosing class, the source's own assertion (pp4/ast_expr.cc:608). The parent checks ask for an operand's type unconditionally (pp4/ast_expr.cc:226, 235, 577-578 and 770; pp4/ast_stmt.cc:154, 241 and 359). So `Print(this);` or `this.x = 1;` in a global function stops the compiler, the first before any report. The parent checks here (`ArithmeticCheck`, `AssignCheck`, `ArrayAccessCheck`, `FieldAccessCheck`, `PrintArgDiags`, `ConditionalReportsTest`) take their operands' types as given and do not model that stop.
- ExprCheck.FieldAccessType: requires the lookup to find a variable, the source's own assertion (pp4/ast_expr.cc:733). Through the same parent call sites, a field that does not resolve stops the compiler once its type is asked for. An example is `A a; a.y = 1;` with no `y` in `A`: `FieldNotFoundInBase` is reported, and then `AssignExpr::Check` stops at pp4/ast_expr.cc:577. The parent checks here do not model that stop.
- ExprCheck.CallType: requires a callee (or an array's `length`), the source's own assertion (pp4/ast_expr.cc:897). Through the same parent call sites, a call whose callee is not found stops the compiler once its type is asked for. The parent checks here do not model that stop; only `CallCheck`'s own lookup models it, as `None`.
- DeclCheck.ImplementsCheck: looks the implemented names up in the global scope, where the source reads the class scope's unset parent (pp4/ast_decl.cc:103); see Findings.
- DeclCheck.ImplementsCheckSpec: states the intended check of `ImplementsCheck`, not the undefined one as written (pp4/ast_decl.cc:103).
- DeclCheck.CheckImplements: computes the intended check; as written the loop dereferences the unset parent (pp4/ast_decl.cc:103).
- DeclCheck.CheckExtendedMembers: looks the ancestors up in the global scope, where the source reads the unset parent (pp4/ast_decl.cc:118).
- DeclCheck.ExtendedConflicts: states the intended check of `ExtendedDiags`; as written it is undefined for any class with a superclass (pp4/ast_decl.cc:118).
- DeclCheck.CheckImplementedMembers: looks the interfaces up in the global scope, where the source reads the unset parent (pp4/ast_decl.cc:128).
- DeclCheck.ImplementedKinds: states the intended check of `ImplementedDiags`; as written it is undefined for any implemented name (pp4/ast_decl.cc:128).
- DeclCheck.InterfacesCheck: looks the interfaces up in the global scope, where the source reads the unset parent (pp4/ast_decl.cc:137).
- DeclCheck.CheckImplementsInterfaces: computes the intended check; as written it dereferences the unset parent for any implemented name (pp4/ast_decl.cc:137).
- DeclCheck.CheckClass: is the intended class check; as written, what a class that extends or implements something reports is undefined (`ClassCheckAsWritten`).
- DeclCheck.InterfaceNamesPass: holds of the intended check only; as written such a class reaches the unset parent.
- DeclCheck.InterfaceSignaturesPass: holds of the intended check only; as written such a class reaches the unset parent.
- DeclCheck.InterfaceMembersFound: holds of the intended check only; as written such a class reaches the unset parent.
- FnEmit.EmitFn: declares the corrected frame size (the estimate), not four times it; the as-written size is `FrameSizeAsWritten`.
- StmtEmit.StmtBytesMatch: is stated for a tree whose locals are placed, a state in which the source never asks for the estimate; the estimate the source takes is `FnEmit.FrameEstimate`, related to this one by `FnEmit.UnplacedStmtBytes`.
- StmtEmit.BlockBytesMatch: likewise stated for a block whose locals are placed.
- ExprEmit.EmitArrayAccess: reads the element at its address, not one word further on as written; the as-written load is `Tac.ElementLoadAsWritten`.
- ExprEmit.EmitArrayStore: stores and reads back at the element's address, not one word further on as written; the as-written store is `Tac.ElementStoreAsWritten`.
- ExprEmit.EmitLeaf: a field access whose base is not itself a field access (`a[0].x`, `f().x`) is emitted by the source as if it had no base: no code for the base, and the field read through `this` or its own location (pp4/ast_expr.cc:786-792). The model's `FieldAccess` leaf has no base, so such accesses, and the base code the source drops, are not represented.
- ExprEmit.EmitLeaf: `x.f` where `x` is itself an instance field has no location, and the source loads from a null location (pp4/ast_expr.cc:794-797). `FieldOfField` carries a placed base location, so this case is not represented.
- ExprEmit.EmitAssign: the same two gaps for stores: a non-field-access base is dropped (pp4/ast_expr.cc:800-806), and an instance-field base stores through a null location (pp4/ast_expr.cc:808-813).
- CallStack.ActualMeetsFormal: takes the call's kind (`Method` or `Function`) from the tree, and the tree's kind is the intended rule `CallKind.IsMethodCall`; as written (pp4/ast_expr.cc:1077-1090) a global function called inside a class is dispatched as a method, which `CallKind.AsWrittenFirstFormalReadsThis` covers; see Findings.

## Findings

| source | as written | input that shows it | evidently intended | confidence | as-written member | corrected member |
|---|---|---|---|---|---|---|
| pp4/ast_expr.cc:657-659 | `ArrayAccess::Emit` loads at offset `VarSize` from the address `EmitAddr` returns, which already skips the length word | `int[] a; a = NewArray(1, int); a[0]` reads the word just past the two-word block | load at offset 0 from the element's address | not executed; high | Tac.AsWrittenLastElementOutsideBlock | Tac.CorrectedElementInsideBlock |
| pp4/ast_expr.cc:665-669 | `ArrayAccess::EmitStore` stores, and reads back, at offset `VarSize` from the element's address | `int[] a; a = NewArray(1, int); a[0] = 5` writes the word just past the two-word block | store and read back at offset 0 | not executed; high | Tac.AsWrittenLastElementStoreOutsideBlock | Tac.CorrectedElementStoreInsideBlock |
| pp4/ast_decl.cc:102-137 | `CheckImplements`, `CheckExtendedMembers`, `CheckImplementedMembers` and `CheckImplementsInterfaces` read the enclosing scope through `scope->GetParent()`, which is never set | `class A {} class B extends A {}`: checking `B` dereferences the unset pointer | read the global scope, as `CheckExtends` does through the program node | not executed; high | DeclCheck.ClassCheckAsWrittenSpec | DeclCheck.CheckClass |
| pp4/ast_decl.cc:425 | the frame size declared is `body->GetMemBytes()*4`, though `GetMemBytes` already counts bytes | a function whose body is `Print(1);` draws 4 bytes of frame but declares 16 | declare `body->GetMemBytes()` | not executed; medium | FnEmit.AsWrittenFrameTooLarge | FnEmit.EmitFn |
| pp4/ast_expr.cc:1077-1090 | `Call::IsMethodCall` looks the name up through the enclosing class's type, whose lookup falls back to the global scope, so a global function called inside a class counts as a method call | `void g(int a) {} class A { void m() { g(1); } }`: `g(1)` pushes `this` and calls through `A`'s vtable, and `g` reads its formal `a` from the word holding `this` | a method call only when a class on the enclosing class's chain declares the name | not executed; high | CallKind.GlobalCallDispatched | CallKind.KindsAgreeOffGlobals |
