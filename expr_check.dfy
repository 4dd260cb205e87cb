/**
 * Typing and checking of expressions.
 *
 * Each node's `GetType` is a function of its operands' types; each node's
 * `Check` is its operands' diagnostics (in the order the node checks them)
 * followed by its own. The operands' diagnostics are passed in, so the
 * functions here describe one node; a node that does not check its
 * operands takes none.
 */
module ExprCheck {
  import opened Wrappers
  import opened Errors
  import opened AstType
  import opened AstDecl
  import opened Scopes
  import opened Layout
  import opened Lookup

  predicate IsIntLike(t: Type)
  {
    IsEquivalentTo(t, IntType)
  }

  predicate IsDoubleLike(t: Type)
  {
    IsEquivalentTo(t, DoubleType)
  }

  predicate IsBoolLike(t: Type)
  {
    IsEquivalentTo(t, BoolType)
  }

  // ----- literals and input expressions -----

  datatype Literal = IntLit(i: int) | DoubleLit | BoolLit(b: bool) | StringLit(s: string) | NullLit

  /** A literal's type is the shared built-in type of its kind. */
  function LiteralType(l: Literal): (r: Type)
    ensures r.Prim? && r.origin == Shared
    ensures l.IntLit? <==> r == IntType
    ensures l.BoolLit? <==> r == BoolType
    ensures l.StringLit? <==> r == StringType
  {
    match l
    case IntLit(_) => IntType
    case DoubleLit => DoubleType
    case BoolLit(_) => BoolType
    case StringLit(_) => StringType
    case NullLit => NullType
  }

  /** `ReadInteger()` is an int, `ReadLine()` a string. */
  function ReadType(readsInteger: bool): (r: Type)
    ensures r == if readsInteger then IntType else StringType
  {
    if readsInteger then IntType else StringType
  }

  // ----- arithmetic -----

  /** `ArithmeticExpr::GetType`; a missing left operand is unary minus. */
  function ArithmeticType(left: Option<Type>, right: Type): Type
  {
    match left
    case None => if IsIntLike(right) || IsDoubleLike(right) then right else ErrorType
    case Some(l) =>
      if IsIntLike(l) && IsIntLike(right) then l
      else if IsDoubleLike(l) && IsDoubleLike(right) then l
      else ErrorType
  }

  /** `ArithmeticExpr::Check`: the operands' diagnostics, then one report on a type clash. */
  function ArithmeticCheck(operands: seq<Diag>, op: string, left: Option<Type>, right: Type): seq<Diag>
  {
    match left
    case None =>
      operands + (if IsIntLike(right) || IsDoubleLike(right) then [] else [IncompatibleOperand(op)])
    case Some(l) =>
      operands + (if (IsIntLike(l) && IsIntLike(right)) || (IsDoubleLike(l) && IsDoubleLike(right))
                  then [] else [IncompatibleOperands(op)])
  }

  /**
   * Arithmetic is int exactly when every operand is int, double exactly when
   * every operand is double, and the error type otherwise; a result that is
   * not an error is the (left) operand's own type.
   */
  lemma ArithmeticTyping(left: Option<Type>, right: Type)
    ensures IsIntLike(ArithmeticType(left, right)) <==>
      (left.None? || IsIntLike(left.value)) && IsIntLike(right)
    ensures IsDoubleLike(ArithmeticType(left, right)) <==>
      (left.None? || IsDoubleLike(left.value)) && IsDoubleLike(right)
    ensures ArithmeticType(left, right) == ErrorType ||
      ArithmeticType(left, right) == (if left.Some? then left.value else right)
  {
  }

  /** The check reports exactly once precisely when the type is the error type. */
  lemma ArithmeticCheckAgrees(operands: seq<Diag>, op: string, left: Option<Type>, right: Type)
    ensures ArithmeticCheck(operands, op, left, right)[..|operands|] == operands
    ensures |ArithmeticCheck(operands, op, left, right)| == |operands| + (if ArithmeticType(left, right) == ErrorType then 1 else 0)
  {
  }

  // ----- relational -----

  /** `RelationalExpr::GetType`, as written: error for two ints or two doubles, bool otherwise. */
  function RelationalType(left: Type, right: Type): Type
  {
    if IsIntLike(left) && IsIntLike(right) then ErrorType
    else if IsDoubleLike(left) && IsDoubleLike(right) then ErrorType
    else BoolType
  }

  /** `RelationalExpr::Check`: reports unless both are int or both double; the operands are not checked. */
  function RelationalCheck(op: string, left: Type, right: Type): seq<Diag>
  {
    if IsIntLike(left) && IsIntLike(right) then []
    else if IsDoubleLike(left) && IsDoubleLike(right) then []
    else [IncompatibleOperands(op)]
  }

  /** The type and the check disagree everywhere: the type is error exactly when the check is silent. */
  lemma RelationalTypeInvertsCheck(op: string, left: Type, right: Type)
    ensures RelationalType(left, right) == ErrorType <==> RelationalCheck(op, left, right) == []
    ensures RelationalType(left, right) == BoolType <==> RelationalCheck(op, left, right) == [IncompatibleOperands(op)]
  {
  }

  // ----- equality -----

  function EqualityType(left: Type, right: Type): Type
  {
    if !IsEquivalentTo(right, left) && !IsEquivalentTo(left, right) then ErrorType else BoolType
  }

  function EqualityCheck(operands: seq<Diag>, op: string, left: Type, right: Type): seq<Diag>
  {
    operands + (if !IsEquivalentTo(right, left) && !IsEquivalentTo(left, right) then [IncompatibleOperands(op)] else [])
  }

  /** Equality is bool unless the operand types are unrelated, and then the check reports once. */
  lemma EqualityAgrees(operands: seq<Diag>, op: string, left: Type, right: Type)
    ensures EqualityType(left, right) == BoolType <==> IsEquivalentTo(left, right)
    ensures EqualityType(left, right) == ErrorType <==> !IsEquivalentTo(left, right)
    ensures EqualityCheck(operands, op, left, right) ==
      operands + (if EqualityType(left, right) == ErrorType then [IncompatibleOperands(op)] else [])
  {
    if IsEquivalentTo(right, left) {
      EquivalenceSymmetric(right, left);
    }
  }

  // ----- logical -----

  /** `LogicalExpr::GetType`; a missing left operand is `!`. */
  function LogicalType(left: Option<Type>, right: Type): Type
  {
    match left
    case None => if IsBoolLike(right) then BoolType else ErrorType
    case Some(l) => if IsBoolLike(l) && IsBoolLike(right) then BoolType else ErrorType
  }

  function LogicalCheck(operands: seq<Diag>, op: string, left: Option<Type>, right: Type): seq<Diag>
  {
    match left
    case None => operands + (if IsBoolLike(right) then [] else [IncompatibleOperand(op)])
    case Some(l) => operands + (if IsBoolLike(l) && IsBoolLike(right) then [] else [IncompatibleOperands(op)])
  }

  /** Logical operators are bool exactly when every operand is, and the check reports otherwise. */
  lemma LogicalAgrees(operands: seq<Diag>, op: string, left: Option<Type>, right: Type)
    ensures LogicalType(left, right) == BoolType <==> (left.None? || IsBoolLike(left.value)) && IsBoolLike(right)
    ensures LogicalType(left, right) != BoolType ==> LogicalType(left, right) == ErrorType
    ensures |LogicalCheck(operands, op, left, right)| == |operands| + (if LogicalType(left, right) == ErrorType then 1 else 0)
    ensures LogicalCheck(operands, op, left, right)[..|operands|] == operands
  {
  }

  // ----- assignment -----

  function AssignType(left: Type, right: Type): Type
  {
    if !IsEquivalentTo(right, left) then ErrorType else left
  }

  /** `AssignExpr::Check`: silent when the types match, and also whenever the left type is the error type. */
  function AssignCheck(operands: seq<Diag>, op: string, left: Type, right: Type): seq<Diag>
  {
    operands + (if !IsEquivalentTo(right, left) && !IsEquivalentTo(left, ErrorType) then [IncompatibleOperands(op)] else [])
  }

  /**
   * Assignment yields the left type when the right is equivalent to it and
   * error otherwise; the check reports only a clash whose left type is not
   * an error, so an error on the right is still reported while an error on
   * the left is not.
   */
  lemma AssignAgrees(operands: seq<Diag>, op: string, left: Type, right: Type)
    ensures AssignType(left, right) == (if IsEquivalentTo(right, left) then left else ErrorType)
    ensures AssignCheck(operands, op, left, right) != operands ==> AssignType(left, right) == ErrorType
    ensures AssignCheck(operands, op, left, right) == operands && AssignType(left, right) == ErrorType ==>
      IsEquivalentTo(left, ErrorType)
  {
  }

  /** The quirk both ways: `x = <error>` with `x` an int reports, `<error> = 1` does not. */
  lemma AssignErrorSidesDiffer(op: string)
    ensures AssignCheck([], op, IntType, ErrorType) == [IncompatibleOperands(op)]
    ensures AssignCheck([], op, ErrorType, IntType) == []
    ensures AssignType(ErrorType, IntType) == ErrorType
  {
  }

  // ----- array access -----

  function ArrayAccessType(base: Type): (r: Type)
    ensures base.Array? ==> r == base.elem
    ensures !base.Array? ==> r == ErrorType
  {
    if base.Array? then base.elem else ErrorType
  }

  /** `ArrayAccess::Check`: a non-array base and a subscript not identical to `int` are reported independently. */
  function ArrayAccessCheck(operands: seq<Diag>, base: Type, subscript: Type): seq<Diag>
  {
    operands
      + (if !base.Array? then [BracketsOnNonArray] else [])
      + (if !IsEqualTo(subscript, IntType) then [SubscriptNotInteger] else [])
  }

  lemma ArrayAccessAgrees(operands: seq<Diag>, base: Type, subscript: Type)
    ensures BracketsOnNonArray in ArrayAccessCheck(operands, base, subscript)[|operands|..] <==> ArrayAccessType(base) == ErrorType && !base.Array?
    ensures SubscriptNotInteger in ArrayAccessCheck(operands, base, subscript)[|operands|..] <==> subscript != IntType
    ensures |ArrayAccessCheck(operands, base, subscript)| <= |operands| + 2
  {
    var c := ArrayAccessCheck(operands, base, subscript);
    assert c[|operands|..] == (if !base.Array? then [BracketsOnNonArray] else [])
      + (if !IsEqualTo(subscript, IntType) then [SubscriptNotInteger] else []);
  }

  /** A subscript whose `int` type node was made by the parser is reported, though equivalent to int. */
  lemma DeclaredIntSubscriptReported(n: nat, elem: Type)
    ensures ArrayAccessCheck([], Array(elem), Prim(Int, Declared(n))) == [SubscriptNotInteger]
  {
  }

  // ----- object and array creation -----

  /** `NewExpr::GetType`: the class's type when the name is a class of the global scope. */
  function NewType(env: ClassEnv, className: string): Type
  {
    if className in env.decls && env.decls[className].Class? then Named(env.decls[className].className) else ErrorType
  }

  function NewCheck(env: ClassEnv, className: string): seq<Diag>
  {
    if className in env.decls && env.decls[className].Class? then [] else [NotDeclared(className, LookingForClass)]
  }

  /** `new C` has an error type exactly when it is reported, and a class type otherwise. */
  lemma NewAgrees(env: ClassEnv, className: string)
    ensures NewType(env, className) == ErrorType <==> NewCheck(env, className) != []
    ensures NewCheck(env, className) == [] ==> NewType(env, className).Named?
  {
  }

  /** `NewArrayExpr::GetType`: an array of the element type. */
  function NewArrayType(elem: Type): (r: Type)
    ensures r.Array? && r.elem == elem && !IsPrimitive(r)
  {
    Array(elem)
  }

  /**
   * `NewArrayExpr::Check`: a size not identical to `int` is reported; a
   * primitive non-void element type is accepted; any other element type
   * must name a class of the global scope, else it reports itself.
   */
  function NewArrayCheck(env: ClassEnv, sizeDiags: seq<Diag>, sizeType: Type, elem: Type): seq<Diag>
  {
    sizeDiags
      + (if !IsEqualTo(sizeType, IntType) then [NewArraySizeNotInteger] else [])
      + (if IsPrimitive(elem) && !IsEquivalentTo(elem, VoidType) then []
         else if Name(elem) in env.decls && env.decls[Name(elem)].Class? then []
         else ReportNotDeclared(elem, LookingForType))
  }

  /**
   * An element type is reported exactly when its innermost type is a name
   * that is not a class; `void` elements pass, because a built-in type never
   * reports itself.
   */
  lemma NewArrayElementReported(env: ClassEnv, sizeDiags: seq<Diag>, sizeType: Type, elem: Type)
    requires IsEqualTo(sizeType, IntType)
    ensures NewArrayCheck(env, sizeDiags, sizeType, elem) != sizeDiags <==>
      Innermost(elem).Named? && !(Name(elem) in env.decls && env.decls[Name(elem)].Class?)
    ensures NewArrayCheck(env, sizeDiags, VoidType, VoidType) == sizeDiags + [NewArraySizeNotInteger]
  {
  }

  // ----- this -----

  /** `This::GetType`: the enclosing class's type; the source asserts there is one. */
  function ThisType(path: Path): (r: Type)
    requires EnclosingClass(path).Some?
    ensures r == Named(EnclosingClass(path).value.Name())
  {
    Named(EnclosingClass(path).value.Name())
  }

  function ThisCheck(path: Path): (r: seq<Diag>)
    ensures r == [] <==> EnclosingClass(path).Some?
    ensures r != [] ==> r == [ThisOutsideClassScope]
  {
    if EnclosingClass(path).None? then [ThisOutsideClassScope] else []
  }

  // ----- field access -----

  /** `FieldAccess::GetDecl`: the lookup, kept only when it finds a variable. */
  function FieldVar(env: ClassEnv, path: Path, baseType: Option<Type>, field: string): Option<VarDecl>
    requires Acyclic(env)
  {
    var d := FieldLookup(env, path, baseType, field);
    if d.Some? && d.value.Var? then Some(d.value.v) else None
  }

  /**
   * `FieldAccess::GetType`: the declared type of the variable the lookup
   * finds (the source asserts there is one). Without a base that is the
   * innermost binding of the name on the path or, when no scope on the path
   * binds it, the member found through the enclosing class's type; with a
   * base, the member found through the base's type.
   */
  function FieldAccessType(env: ClassEnv, path: Path, baseType: Option<Type>, field: string): (r: Type)
    requires Acyclic(env) && FieldVar(env, path, baseType, field).Some?
    ensures baseType.Some? ==>
      var d := TypeLookup(env, baseType.value, field, path);
      d.Some? && d.value.Var? && d.value.v.typ == r
    ensures baseType.None? && (exists i :: 0 <= i < |path| && field in path[i].table) ==>
      exists i :: 0 <= i < |path| && field in path[i].table && (forall j :: 0 <= j < i ==> field !in path[j].table)
        && path[i].table[field].Var? && path[i].table[field].v.typ == r
    ensures baseType.None? && (forall i :: 0 <= i < |path| ==> field !in path[i].table) ==>
      EnclosingClass(path).Some? &&
      var d := TypeLookup(env, Named(EnclosingClass(path).value.Name()), field, path);
      d.Some? && d.value.Var? && d.value.v.typ == r
  {
    PathLookupSpec(path, field);
    FieldVar(env, path, baseType, field).value.typ
  }

  /**
   * `FieldAccess::Check`. Without a base: a name that is not a variable is
   * reported both as a missing field and as an undeclared variable. With a
   * base: a missing field, then access from outside every class, then a
   * non-variable are reported, the first that applies.
   */
  function FieldAccessCheck(env: ClassEnv, path: Path, base: Option<(seq<Diag>, Type)>, field: string): seq<Diag>
    requires Acyclic(env)
  {
    match base
    case None =>
      if FieldVar(env, path, None, field).Some? then []
      else [FieldNotFoundInBase(field), NotDeclared(field, LookingForVariable)]
    case Some((baseDiags, t)) =>
      var d := TypeLookup(env, t, field, path);
      if d.None? then baseDiags + [FieldNotFoundInBase(field)]
      else if EnclosingClass(path).None? then baseDiags + [InaccessibleField(field)]
      else if !d.value.Var? then baseDiags + [NotDeclared(field, LookingForVariable)]
      else baseDiags
  }

  /**
   * Without a base a field access is silent when it names a visible
   * variable and otherwise reports the name twice. With a base it keeps the
   * base's reports and adds at most one: a missing field exactly when the
   * lookup through the base's type fails, an inaccessible field exactly
   * when the field is found but the access is outside every class, a
   * missing variable exactly when a non-variable is found inside a class.
   */
  lemma FieldAccessCheckSpec(env: ClassEnv, path: Path, base: Option<(seq<Diag>, Type)>, field: string)
    requires Acyclic(env)
    ensures base.None? ==> (FieldAccessCheck(env, path, base, field) == [] <==> FieldVar(env, path, None, field).Some?)
    ensures base.None? && FieldVar(env, path, None, field).None? ==>
      FieldAccessCheck(env, path, base, field) == [FieldNotFoundInBase(field), NotDeclared(field, LookingForVariable)]
    ensures base.Some? ==>
      var r := FieldAccessCheck(env, path, base, field);
      var d := TypeLookup(env, base.value.1, field, path);
      |base.value.0| <= |r| <= |base.value.0| + 1 && r[..|base.value.0|] == base.value.0
      && (r == base.value.0 + [FieldNotFoundInBase(field)] <==> d.None?)
      && (r == base.value.0 + [InaccessibleField(field)] <==> d.Some? && EnclosingClass(path).None?)
      && ((r == base.value.0 + [NotDeclared(field, LookingForVariable)])
            <==> d.Some? && EnclosingClass(path).Some? && !d.value.Var?)
      && (r == base.value.0 <==> d.Some? && EnclosingClass(path).Some? && d.value.Var?)
  {
    if base.Some? {
      var r := FieldAccessCheck(env, path, base, field);
      var n := |base.value.0|;
      if |r| == n + 1 {
        assert (base.value.0 + [FieldNotFoundInBase(field)])[n] == FieldNotFoundInBase(field);
        assert (base.value.0 + [InaccessibleField(field)])[n] == InaccessibleField(field);
        assert (base.value.0 + [NotDeclared(field, LookingForVariable)])[n] == NotDeclared(field, LookingForVariable);
      }
    }
  }

  // ----- calls -----

  /** `Call::IsArrayLengthCall`: `length` called on an expression of array type. */
  predicate IsArrayLengthCall(baseType: Option<Type>, field: string)
  {
    baseType.Some? && baseType.value.Array? && field == "length"
  }

  /** `Call::GetDecl`: the lookup, kept only when it finds a function. */
  function CallTarget(env: ClassEnv, path: Path, baseType: Option<Type>, field: string): Option<FnDecl>
    requires Acyclic(env)
  {
    var d := FieldLookup(env, path, baseType, field);
    if d.Some? && d.value.Fn? then Some(d.value.f) else None
  }

  /** `Call::GetType`: `int` for an array's length, else the callee's return type (asserted to exist). */
  function CallType(env: ClassEnv, path: Path, baseType: Option<Type>, field: string): (r: Type)
    requires Acyclic(env)
    requires IsArrayLengthCall(baseType, field) || CallTarget(env, path, baseType, field).Some?
    ensures IsArrayLengthCall(baseType, field) ==> r == IntType
    ensures !IsArrayLengthCall(baseType, field) ==> r == CallTarget(env, path, baseType, field).value.returnType
  {
    if IsArrayLengthCall(baseType, field) then IntType
    else CallTarget(env, path, baseType, field).value.returnType
  }

  /** The per-argument reports: each position whose actual is not equivalent to its formal, in order. */
  function ArgDiags(callee: string, formals: seq<VarDecl>, actuals: seq<Type>, from: nat): seq<Diag>
    requires |formals| == |actuals| && from <= |formals|
    decreases |formals| - from
  {
    if from == |formals| then []
    else
      (if !IsEquivalentTo(formals[from].typ, actuals[from]) then [ArgMismatch(callee, from)] else [])
        + ArgDiags(callee, formals, actuals, from + 1)
  }

  function Flatten(dss: seq<seq<Diag>>): seq<Diag>
    decreases |dss|
  {
    if dss == [] then [] else Flatten(dss[..|dss| - 1]) + dss[|dss| - 1]
  }

  lemma FlattenSnoc(dss: seq<seq<Diag>>, i: nat)
    requires i < |dss|
    ensures Flatten(dss[..i + 1]) == Flatten(dss[..i]) + dss[i]
  {
    assert dss[..i + 1][..i] == dss[..i];
  }

  /** What `Call::CheckActuals` reports. */
  function ActualsCheck(callee: string, target: Option<Decl>, actualDiags: seq<seq<Diag>>, actuals: seq<Type>): seq<Diag>
  {
    Flatten(actualDiags) +
      if target.None? || !target.value.Fn? then []
      else if |target.value.f.formals| != |actuals| then
        [NumArgsMismatch(callee, |target.value.f.formals|, |actuals|)]
      else ArgDiags(callee, target.value.f.formals, actuals, 0)
  }

  /** A position is reported exactly when its actual is not equivalent to its formal. */
  lemma {:induction false} ArgDiagsSpec(callee: string, formals: seq<VarDecl>, actuals: seq<Type>, from: nat)
    requires |formals| == |actuals| && from <= |formals|
    ensures forall i :: (ArgMismatch(callee, i) in ArgDiags(callee, formals, actuals, from)) <==>
      from <= i < |formals| && !IsEquivalentTo(formals[i].typ, actuals[i])
    ensures forall d :: d in ArgDiags(callee, formals, actuals, from) ==> d.ArgMismatch?
    ensures |ArgDiags(callee, formals, actuals, from)| <= |formals| - from
    decreases |formals| - from
  {
    if from < |formals| {
      ArgDiagsSpec(callee, formals, actuals, from + 1);
    }
  }

  /** `Call::CheckActuals`: check every actual, then the arity, then each position. */
  method CheckActuals(callee: string, target: Option<Decl>, actualDiags: seq<seq<Diag>>, actuals: seq<Type>)
    returns (diags: seq<Diag>)
    ensures diags == ActualsCheck(callee, target, actualDiags, actuals)
  {
    diags := ConcatReports(actualDiags);
    if target.None? || !target.value.Fn? {
      return;
    }
    var fnDecl := target.value.f;
    var expectNumVars := |fnDecl.formals|;
    var actualNumVars := |actuals|;
    if expectNumVars != actualNumVars {
      diags := diags + [NumArgsMismatch(callee, expectNumVars, actualNumVars)];
      return;
    }
    var mismatches := CheckArgTypes(callee, fnDecl.formals, actuals);
    diags := diags + mismatches;
  }

  /**
   * Each part's diagnostics, in order: the first loop of `Call::CheckActuals`
   * over the actuals, and the loop of `Program::Check` over the declarations.
   */
  method ConcatReports(parts: seq<seq<Diag>>) returns (diags: seq<Diag>)
    ensures diags == Flatten(parts)
  {
    diags := [];
    var i := 0;
    while i < |parts|
      invariant 0 <= i <= |parts|
      invariant diags == Flatten(parts[..i])
    {
      FlattenSnoc(parts, i);
      diags := diags + parts[i];
      i := i + 1;
    }
    assert parts[..i] == parts;
  }

  /** The last loop of `Call::CheckActuals`: a mismatch per position whose types are not equivalent. */
  method CheckArgTypes(callee: string, formals: seq<VarDecl>, actuals: seq<Type>) returns (diags: seq<Diag>)
    requires |formals| == |actuals|
    ensures diags == ArgDiags(callee, formals, actuals, 0)
  {
    diags := [];
    var i := 0;
    while i < |formals|
      invariant 0 <= i <= |formals|
      invariant ArgDiags(callee, formals, actuals, 0) == diags + ArgDiags(callee, formals, actuals, i)
    {
      if !IsEquivalentTo(formals[i].typ, actuals[i]) {
        diags := diags + [ArgMismatch(callee, i)];
      }
      i := i + 1;
    }
  }

  /** How a call's base is written. */
  datatype CallBase = NoBase | FieldBase(ident: string) | OtherBase

  /**
   * `Call::Check`, as written. Without a base the callee is looked up in the
   * enclosing class's type, or, outside classes, in the type of the call
   * itself: the lookup resolves to the overload taking an expression, which
   * asks `Call::GetType`, whose assertion fails when the name is not a
   * declared function; that outcome is `None`, the compiler stopping. A
   * callee not found in a class's type is reported after its actuals are
   * checked. With a base that is a field access whose name is visible from
   * the call, nothing more is checked. Otherwise the callee is looked up in
   * the base's type and a missing one is reported unless it is an array's
   * `length`.
   */
  function CallCheck(env: ClassEnv, path: Path, base: CallBase, baseDiags: seq<Diag>, baseType: Option<Type>,
                     field: string, actualDiags: seq<seq<Diag>>, actuals: seq<Type>): Option<seq<Diag>>
    requires Acyclic(env)
    requires base.NoBase? <==> baseType.None?
  {
    if base.NoBase? then
      if EnclosingClass(path).None? && CallTarget(env, path, None, field).None? then None
      else
        var t := if EnclosingClass(path).Some? then Named(EnclosingClass(path).value.Name())
                 else CallType(env, path, None, field);
        var d := TypeLookup(env, t, field, path);
        if d.None? then Some(ActualsCheck(field, d, actualDiags, actuals) + [NotDeclared(field, LookingForFunction)])
        else Some(ActualsCheck(field, d, actualDiags, actuals))
    else if base.FieldBase? && PathLookup(path, base.ident).Some? then Some(baseDiags)
    else
      var d := TypeLookup(env, baseType.value, field, path);
      if d.None? then
        Some(baseDiags + ActualsCheck(field, d, actualDiags, actuals)
          + (if IsArrayLengthCall(baseType, field) then [] else [FieldNotFoundInBase(field)]))
      else Some(baseDiags + ActualsCheck(field, d, actualDiags, actuals))
  }

  /**
   * Outside every class a call without a base completes exactly when its
   * name is bound on the path to a function, and then adds nothing to the
   * actuals' check: the lookup through the callee's return type falls back
   * to the lexical one, so the callee is never reported missing.
   */
  lemma UnqualifiedCallOutsideClass(env: ClassEnv, path: Path, field: string,
                                    actualDiags: seq<seq<Diag>>, actuals: seq<Type>)
    requires Acyclic(env) && EnclosingClass(path).None?
    ensures CallCheck(env, path, NoBase, [], None, field, actualDiags, actuals).Some?
      <==> PathLookup(path, field).Some? && PathLookup(path, field).value.Fn?
    ensures PathLookup(path, field).Some? && PathLookup(path, field).value.Fn? ==>
      var d := TypeLookup(env, PathLookup(path, field).value.f.returnType, field, path);
      d.Some? && CallCheck(env, path, NoBase, [], None, field, actualDiags, actuals) == Some(ActualsCheck(field, d, actualDiags, actuals))
  {
  }

  /**
   * A call through a base whose callee is found reports exactly the base's
   * and the actuals' diagnostics and the arity or per-argument mismatches;
   * and a call whose base is a visible field access reports only the base's.
   */
  lemma CallCheckFound(env: ClassEnv, path: Path, baseDiags: seq<Diag>, t: Type, field: string,
                       actualDiags: seq<seq<Diag>>, actuals: seq<Type>, ident: string)
    requires Acyclic(env) && TypeLookup(env, t, field, path).Some?
    ensures CallCheck(env, path, OtherBase, baseDiags, Some(t), field, actualDiags, actuals)
      == Some(baseDiags + ActualsCheck(field, TypeLookup(env, t, field, path), actualDiags, actuals))
    ensures PathLookup(path, ident).Some? ==>
      CallCheck(env, path, FieldBase(ident), baseDiags, Some(t), field, actualDiags, actuals) == Some(baseDiags)
  {
  }
}
