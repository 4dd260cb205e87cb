/**
 * Statements: building their scopes and checking them.
 *
 * As for expressions, a statement's check is described for one node, with
 * its children's diagnostics passed in, in the order the node checks them.
 */
module StmtCheck {
  import opened Wrappers
  import opened Errors
  import opened AstType
  import opened AstDecl
  import opened Scopes
  import opened Layout
  import opened Lookup
  import opened ExprCheck
  import opened DeclCheck

  /** A loop statement node: the label its `break`s jump to, and its identity as a scope tag. */
  class LoopStmt {
    const ref: LoopRef
    var breakLabel: string

    constructor (id: nat)
      ensures ref == LoopRef(id)
    {
      ref := LoopRef(id);
      breakLabel := "";
    }

    method SetBreak(b: string)
      modifies this
      ensures GetBreak() == b
    {
      breakLabel := b;
    }

    function GetBreak(): (b: string)
      reads this
    {
      breakLabel
    }
  }

  // ----- building scopes -----

  /** `LoopStmt::BuildScope`: the loop tags its own scope with itself. */
  method BuildLoopScope(s: Scope, loop: LoopStmt)
    modifies s
    ensures s.View() == old(s.View()).(loopStmt := Some(loop.ref))
  {
    s.SetLoopStmt(loop.ref);
  }

  // ----- break -----

  /** Some scope on the path from the statement to the root carries a loop tag. */
  predicate InLoop(path: Path)
  {
    exists i :: 0 <= i < |path| && path[i].loopStmt.Some?
  }

  /** `BreakStmt::Check`. */
  function BreakCheck(path: Path): seq<Diag>
    decreases |path|
  {
    if path == [] then [BreakOutsideLoop]
    else if path[0].loopStmt.Some? then []
    else BreakCheck(path[1..])
  }

  /** A `break` is accepted exactly inside a loop, and is otherwise reported once. */
  lemma {:induction false} BreakCheckSpec(path: Path)
    ensures BreakCheck(path) == [] <==> InLoop(path)
    ensures BreakCheck(path) != [] ==> BreakCheck(path) == [BreakOutsideLoop]
    decreases |path|
  {
    if path != [] && path[0].loopStmt.None? {
      BreakCheckSpec(path[1..]);
      assert forall i :: 1 <= i < |path| ==> path[i] == path[1..][i - 1];
      if InLoop(path) {
        var i :| 0 <= i < |path| && path[i].loopStmt.Some?;
        assert path[1..][i - 1].loopStmt.Some?;
      }
    }
  }

  method CheckBreak(path: Path) returns (diags: seq<Diag>)
    ensures diags == BreakCheck(path)
  {
    var i := 0;
    while i < |path|
      invariant 0 <= i <= |path|
      invariant BreakCheck(path) == BreakCheck(path[i..])
    {
      assert path[i..][1..] == path[i + 1..];
      if path[i].loopStmt.Some? {
        return [];
      }
      i := i + 1;
    }
    return [BreakOutsideLoop];
  }

  // ----- return -----

  /** The nearest enclosing function, recognised by its scope's function tag. */
  function EnclosingFn(path: Path): Option<FnDecl>
    decreases |path|
  {
    if path == [] then None
    else if path[0].fnDecl.Some? then path[0].fnDecl
    else EnclosingFn(path[1..])
  }

  method FindEnclosingFn(path: Path) returns (d: Option<FnDecl>)
    ensures d == EnclosingFn(path)
  {
    var i := 0;
    while i < |path|
      invariant 0 <= i <= |path|
      invariant EnclosingFn(path) == EnclosingFn(path[i..])
    {
      assert path[i..][1..] == path[i + 1..];
      if path[i].fnDecl.Some? {
        return path[i].fnDecl;
      }
      i := i + 1;
    }
    return None;
  }

  /**
   * Where the source can compare the types: an expression without a type
   * is only accepted by a function whose return type is named `void`.
   */
  predicate ReturnComparable(path: Path, given: Option<Type>)
  {
    EnclosingFn(path).Some? && given.None? ==> Name(EnclosingFn(path).value.returnType) == "void"
  }

  /**
   * `ReturnStmt::Check`: the expression, then a report outside functions,
   * then a mismatch when the expression's type is not equivalent to the
   * declared return type.
   */
  function ReturnCheck(path: Path, exprDiags: seq<Diag>, given: Option<Type>): seq<Diag>
    requires ReturnComparable(path, given)
  {
    exprDiags +
      if EnclosingFn(path).None? then [ReturnOutsideFunction]
      else if given.None? then []
      else if !IsEquivalentTo(given.value, EnclosingFn(path).value.returnType) then [ReturnMismatch]
      else []
  }

  /**
   * Outside every function a `return` is reported; inside one, it is
   * reported exactly when the returned type is not equivalent to the
   * declared return type.
   */
  lemma ReturnCheckSpec(path: Path, exprDiags: seq<Diag>, given: Option<Type>)
    requires ReturnComparable(path, given)
    ensures EnclosingFn(path).None? ==> ReturnCheck(path, exprDiags, given) == exprDiags + [ReturnOutsideFunction]
    ensures EnclosingFn(path).Some? && given.Some? ==>
      (ReturnCheck(path, exprDiags, given) == exprDiags <==> IsEquivalentTo(given.value, EnclosingFn(path).value.returnType))
    ensures |ReturnCheck(path, exprDiags, given)| <= |exprDiags| + 1
  {
  }

  method CheckReturn(path: Path, exprDiags: seq<Diag>, given: Option<Type>) returns (diags: seq<Diag>)
    requires ReturnComparable(path, given)
    ensures diags == ReturnCheck(path, exprDiags, given)
  {
    diags := exprDiags;
    var d := FindEnclosingFn(path);
    if d.None? {
      diags := diags + [ReturnOutsideFunction];
      return;
    }
    var expected := d.value.returnType;
    if given.None? && Name(expected) == "void" {
      return;
    }
    if !IsEquivalentTo(given.value, expected) {
      diags := diags + [ReturnMismatch];
    }
  }

  // ----- print -----

  predicate Printable(t: Type)
  {
    IsEquivalentTo(t, IntType) || IsEquivalentTo(t, BoolType) || IsEquivalentTo(t, StringType)
  }

  /** The argument reports of `PrintStmt::Check`, each with its 1-based position. */
  function PrintArgDiags(args: seq<Type>): (r: seq<Diag>)
    ensures |r| <= |args|
    decreases |args|
  {
    if args == [] then []
    else PrintArgDiags(args[..|args| - 1]) + (if Printable(args[|args| - 1]) then [] else [PrintArgMismatch(|args|)])
  }

  /** Argument `i` (counting from 1) is reported exactly when its type is not int, bool or string. */
  lemma {:induction false} PrintArgDiagsSpec(args: seq<Type>)
    ensures forall p: nat :: PrintArgMismatch(p) in PrintArgDiags(args) <==> 1 <= p <= |args| && !Printable(args[p - 1])
    ensures forall d :: d in PrintArgDiags(args) ==> d.PrintArgMismatch?
    decreases |args|
  {
    if args != [] {
      PrintArgDiagsSpec(args[..|args| - 1]);
    }
  }

  /** `PrintStmt::Check`: its own reports first, then every argument's check. */
  function PrintCheck(args: seq<Type>, argDiags: seq<seq<Diag>>): seq<Diag>
  {
    PrintArgDiags(args) + Flatten(argDiags)
  }

  method CheckPrint(args: seq<Type>, argDiags: seq<seq<Diag>>) returns (diags: seq<Diag>)
    ensures diags == PrintCheck(args, argDiags)
  {
    diags := [];
    var i := 0;
    while i < |args|
      invariant 0 <= i <= |args|
      invariant diags == PrintArgDiags(args[..i])
    {
      assert args[..i + 1][..i] == args[..i];
      if !(IsEquivalentTo(args[i], IntType) || IsEquivalentTo(args[i], BoolType) || IsEquivalentTo(args[i], StringType)) {
        diags := diags + [PrintArgMismatch(i + 1)];
      }
      i := i + 1;
    }
    assert args[..i] == args;
    ghost var own := diags;
    i := 0;
    while i < |argDiags|
      invariant 0 <= i <= |argDiags|
      invariant diags == own + Flatten(argDiags[..i])
    {
      FlattenSnoc(argDiags, i);
      diags := diags + argDiags[i];
      i := i + 1;
    }
    assert argDiags[..i] == argDiags;
  }

  // ----- conditionals, loops and blocks -----

  /** `ConditionalStmt::Check`, which `while` and `for` loops use: test, body, then a test that is not bool. */
  function ConditionalCheck(testDiags: seq<Diag>, bodyDiags: seq<Diag>, testType: Type): seq<Diag>
  {
    testDiags + bodyDiags + (if IsEquivalentTo(testType, BoolType) then [] else [TestNotBoolean])
  }

  /** `IfStmt::Check`: as a conditional, then the else branch. */
  function IfCheck(testDiags: seq<Diag>, bodyDiags: seq<Diag>, testType: Type, elseDiags: Option<seq<Diag>>): seq<Diag>
  {
    ConditionalCheck(testDiags, bodyDiags, testType) + (if elseDiags.Some? then elseDiags.value else [])
  }

  /**
   * A `for` loop is checked as a conditional: its initialisation and step
   * are never checked, so nothing they would report appears.
   */
  function ForCheck(initDiags: seq<Diag>, testDiags: seq<Diag>, stepDiags: seq<Diag>, bodyDiags: seq<Diag>, testType: Type): seq<Diag>
  {
    ConditionalCheck(testDiags, bodyDiags, testType)
  }

  /** The statement's own report appears exactly when the test is not bool, right after the body's diagnostics. */
  lemma ConditionalReportsTest(testDiags: seq<Diag>, bodyDiags: seq<Diag>, testType: Type, elseDiags: Option<seq<Diag>>)
    ensures ConditionalCheck(testDiags, bodyDiags, testType)[..|testDiags| + |bodyDiags|] == testDiags + bodyDiags
    ensures |ConditionalCheck(testDiags, bodyDiags, testType)| == |testDiags| + |bodyDiags| + (if IsBoolLike(testType) then 0 else 1)
    ensures IfCheck(testDiags, bodyDiags, testType, elseDiags)[..|testDiags| + |bodyDiags|] == testDiags + bodyDiags
    ensures !IsBoolLike(testType) ==>
      IfCheck(testDiags, bodyDiags, testType, elseDiags)[|testDiags| + |bodyDiags|] == TestNotBoolean
  {
  }

  lemma ForSkipsInitAndStep(init1: seq<Diag>, init2: seq<Diag>, step1: seq<Diag>, step2: seq<Diag>,
                            testDiags: seq<Diag>, bodyDiags: seq<Diag>, testType: Type)
    ensures ForCheck(init1, testDiags, step1, bodyDiags, testType) == ForCheck(init2, testDiags, step2, bodyDiags, testType)
  {
  }

  /** `StmtBlock::Check`: the local variables' types, then the statements. */
  function BlockCheck(blockPath: Path, decls: seq<VarDecl>, stmtDiags: seq<seq<Diag>>): seq<Diag>
  {
    FormalsCheck(blockPath, decls) + Flatten(stmtDiags)
  }

  method CheckBlock(blockPath: Path, decls: seq<VarDecl>, stmtDiags: seq<seq<Diag>>) returns (diags: seq<Diag>)
    ensures diags == BlockCheck(blockPath, decls, stmtDiags)
  {
    diags := [];
    var i := 0;
    while i < |decls|
      invariant 0 <= i <= |decls|
      invariant diags == FormalsCheck(blockPath, decls[..i])
    {
      assert decls[..i + 1][..i] == decls[..i];
      var d := CheckType(blockPath, decls[i].typ);
      diags := diags + d;
      i := i + 1;
    }
    assert decls[..i] == decls;
    ghost var own := diags;
    i := 0;
    while i < |stmtDiags|
      invariant 0 <= i <= |stmtDiags|
      invariant diags == own + Flatten(stmtDiags[..i])
    {
      FlattenSnoc(stmtDiags, i);
      diags := diags + stmtDiags[i];
      i := i + 1;
    }
    assert stmtDiags[..i] == stmtDiags;
  }

  // ----- the program -----

  /**
   * `r` is what the top-level declaration `d`'s `Check` reports, seen from
   * the global scope: a variable's type check; a function's formals, then
   * some diagnostics of its body; a class's check in some iteration order of
   * its table with some diagnostics of its members' bodies; an interface's
   * check.
   */
  ghost predicate DeclChecked(env: ClassEnv, d: Decl, r: seq<Diag>)
    requires Acyclic(env)
  {
    match d
    case Var(_) => r == MemberCheck([GlobalView(env)], d, [])
    case Fn(f) => exists body :: r == FnCheck([GlobalView(env)], f, body)
    case Class(_, _, _, members) =>
      exists keys, bodies :: |bodies| == |members| && IsOrderOf(keys, OwnScope(d).table)
        && r == ClassCheck(env, d, keys, bodies)
    case Interface(_, _) => r == InterfaceCheck(env, d)
  }

  /** `declChecks[i]` is declaration `i`'s check, for every declaration. */
  ghost predicate ChecksOf(env: ClassEnv, decls: seq<Decl>, declChecks: seq<seq<Diag>>)
    requires Acyclic(env)
  {
    |declChecks| == |decls| && forall i :: 0 <= i < |decls| ==> DeclChecked(env, decls[i], declChecks[i])
  }

  /**
   * `Program::Check`: build every scope, then check each top-level
   * declaration in order (`declChecks[i]` is declaration `i`'s check, made
   * against the global table `env.decls` just built).
   */
  method CheckProgram(gScope: Scope, env: ClassEnv, decls: seq<Decl>, declChecks: seq<seq<Diag>>) returns (diags: seq<Diag>)
    requires gScope.View() == EmptyView
    requires Acyclic(env) && env.decls == Register(map[], decls).0 && ChecksOf(env, decls, declChecks)
    modifies gScope
    ensures gScope.table == env.decls
    ensures diags == Register(map[], decls).1 + ChildBuildDiags(decls) + Flatten(declChecks)
  {
    diags := ProgramBuildScope(gScope, decls);
    var checked := ConcatReports(declChecks);
    diags := diags + checked;
  }
}
