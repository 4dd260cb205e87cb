/**
 * Which calls are method calls (`Call::IsMethodCall`).
 *
 * A call with a base is a method call. A call without one is a method call
 * when it appears inside a class and looking its name up from the class's
 * type finds a function. That lookup searches each class from its own node,
 * whose scope falls back to the global scope, so a global function called
 * inside a class is taken for a method: the call is dispatched through the
 * receiver's vtable with `this` pushed last, while the callee, laid out as
 * a plain function, reads its first formal from the word holding `this`.
 * `IsMethodCall` is the evidently intended rule, which looks only at the
 * classes' own members.
 */
module CallKind {
  import opened Wrappers
  import opened AstType
  import opened AstDecl
  import opened Scopes
  import opened Layout
  import opened Lookup
  import opened CodeGen
  import opened ExprEmit
  import opened CallStack

  /** `Call::IsMethodCall` as written: a base, or a function found through the enclosing class's type. */
  predicate IsMethodCallAsWritten(env: ClassEnv, path: Path, hasBase: bool, field: string)
    requires Acyclic(env)
  {
    hasBase
    || (EnclosingClass(path).Some?
        && var d := TypeLookup(env, Named(EnclosingClass(path).value.Name()), field, path);
        d.Some? && d.value.Fn?)
  }

  /** The superclass walk over the classes' own members only, without the global scope. */
  function MemberLookup(env: ClassEnv, cur: Option<string>, name: string): Option<Decl>
    requires Acyclic(env)
    decreases ChainMeasure(env, cur)
  {
    if cur.None? || cur.value !in env.decls then None
    else
      var d := env.decls[cur.value];
      if d.Class? then
        if name in OwnScope(d).table then Some(OwnScope(d).table[name]) else MemberLookup(env, d.superName, name)
      else if d.Interface? then
        if name in OwnScope(d).table then Some(OwnScope(d).table[name]) else None
      else None
  }

  /** The intended rule: a base, or a function that some class on the enclosing class's chain declares. */
  predicate IsMethodCall(env: ClassEnv, path: Path, hasBase: bool, field: string)
    requires Acyclic(env)
  {
    hasBase
    || (EnclosingClass(path).Some?
        && var d := MemberLookup(env, Some(EnclosingClass(path).value.Name()), field);
        d.Some? && d.value.Fn?)
  }

  /** For a name no global declaration has, the source's walk is the walk over the members. */
  lemma {:induction false} ChainIsMemberWalk(env: ClassEnv, cur: Option<string>, name: string)
    requires Acyclic(env) && name !in env.decls
    ensures ChainLookup(env, cur, name) == MemberLookup(env, cur, name)
    decreases ChainMeasure(env, cur)
  {
    if cur.Some? && cur.value in env.decls {
      var d := env.decls[cur.value];
      if d.Class? || d.Interface? {
        var p := DeclPath(env, d);
        assert p[1..][1..] == [];
        assert PathLookup(p[1..], name) == PathLookup(p[1..][1..], name);
        if d.Class? && name !in OwnScope(d).table {
          ChainIsMemberWalk(env, d.superName, name);
        }
      }
    }
  }

  /**
   * A global function called without a base inside a class that declares no
   * member of that name is a method call as written, and a function call
   * by the intended rule.
   */
  lemma GlobalCallDispatched(env: ClassEnv, path: Path, field: string)
    requires Acyclic(env) && EnclosingClass(path).Some?
    requires EnclosingClass(path).value.Name() in env.decls && env.decls[EnclosingClass(path).value.Name()].Class?
    requires field in env.decls && env.decls[field].Fn?
    requires MemberLookup(env, Some(EnclosingClass(path).value.Name()), field).None?
    ensures IsMethodCallAsWritten(env, path, false, field)
    ensures !IsMethodCall(env, path, false, field)
  {
    var c := env.decls[EnclosingClass(path).value.Name()];
    assert field !in OwnScope(c).table;
    var p := DeclPath(env, c);
    assert p[1..][0] == GlobalView(env);
    assert PathLookup(p, field) == PathLookup(p[1..], field) == Some(env.decls[field]);
  }

  /**
   * The intended rule changes nothing else: for a name that no global
   * declaration has, the two rules agree on every call that has a base,
   * appears outside every class, or names a member of the class's chain.
   */
  lemma KindsAgreeOffGlobals(env: ClassEnv, path: Path, hasBase: bool, field: string)
    requires Acyclic(env) && field !in env.decls
    requires hasBase || EnclosingClass(path).None?
      || MemberLookup(env, Some(EnclosingClass(path).value.Name()), field).Some?
    ensures IsMethodCallAsWritten(env, path, hasBase, field) == IsMethodCall(env, path, hasBase, field)
  {
    if !hasBase && EnclosingClass(path).Some? {
      ChainIsMemberWalk(env, Some(EnclosingClass(path).value.Name()), field);
    }
  }

  /**
   * What the as-written kind does to such a call: emitted as a method call
   * on the implicit `this`, it leaves `this` on the word where a callee laid
   * out as a plain function (`FnDecl::Emit` with `isMethod` false) reads its
   * first formal; the first actual lies one word further down, and a
   * constant's value is never `this`.
   */
  lemma AsWrittenFirstFormalReadsThis(e: Expr, t: nat, l: nat, s: seq<Location>)
    requires e.Call? && e.callee.Method? && e.callee.receiver.None? && ExprEmit.WellFormed(e) && |e.actuals| > 0
    ensures
      var C := CallCode(e, t, l).code;
      |C| >= 2 && CalleeDepth(FormalOffset(false, 0)) == 0
      && CalleeDepth(FormalOffset(true, 0)) == 1 < |StackAt(C, |C| - 2, s)|
      && StackAt(C, |C| - 2, s)[0] == ThisLoc()
      && StackAt(C, |C| - 2, s)[1] == ActualsCode(e, |e.actuals|, t, l).results[0]
    ensures e.actuals[0].IntConstant? ==> ActualsCode(e, |e.actuals|, t, l).results[0] != ThisLoc()
  {
    ReceiverMeetsThis(e, t, l, s);
    ActualMeetsFormal(e, t, l, s, 0);
    FormalDepth(false, 0);
    ActualsResultAt(e, |e.actuals|, 0, t, l);
  }
}
