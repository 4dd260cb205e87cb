/**
 * The checks of declarations: a variable's declared type, a function's
 * formals, and a class's superclass, interfaces, overriding rules and
 * interface conformance.
 *
 * The class checks read the global scope, `GlobalView(env)`, where the
 * source reads the class scope's parent. That parent is never set, so as
 * written every check that reads it is undefined (`ClassCheckAsWritten`);
 * the checks here are the evidently intended ones.
 */
module DeclCheck {
  import opened Wrappers
  import opened Errors
  import opened AstType
  import opened AstDecl
  import opened Scopes
  import opened Layout
  import opened Lookup

  // ----- variables and functions -----

  /**
   * `VarDecl::CheckType`: a non-primitive type must name a class or an
   * interface at the first scope, walking outwards, that binds its name.
   */
  function VarTypeCheck(path: Path, t: Type): (r: seq<Diag>)
    ensures r == [] || r == [NotDeclared(Name(t), LookingForType)]
  {
    if IsPrimitive(t) then []
    else
      var d := PathLookup(path, Name(t));
      if d.Some? && (d.value.Class? || d.value.Interface?) then []
      else ReportNotDeclared(t, LookingForType)
  }

  /**
   * A declared type is reported exactly when its innermost type is a name
   * and the nearest binding of that name is missing or is neither a class
   * nor an interface; arrays of built-in types are never reported.
   */
  lemma VarTypeCheckSpec(path: Path, t: Type)
    ensures VarTypeCheck(path, t) != [] <==>
      Innermost(t).Named?
      && !(PathLookup(path, Name(t)).Some?
           && (PathLookup(path, Name(t)).value.Class? || PathLookup(path, Name(t)).value.Interface?))
  {
  }

  method CheckType(path: Path, t: Type) returns (diags: seq<Diag>)
    ensures diags == VarTypeCheck(path, t)
  {
    if IsPrimitive(t) {
      return [];
    }
    var i := 0;
    while i < |path|
      invariant 0 <= i <= |path|
      invariant PathLookup(path, Name(t)) == PathLookup(path[i..], Name(t))
    {
      assert path[i..][1..] == path[i + 1..];
      if Name(t) in path[i].table {
        var d := path[i].table[Name(t)];
        if !d.Class? && !d.Interface? {
          return ReportNotDeclared(t, LookingForType);
        }
        return [];
      }
      i := i + 1;
    }
    return ReportNotDeclared(t, LookingForType);
  }

  /** The formals' type checks, in order; a formal's lookups start at its function. */
  function FormalsCheck(fnPath: Path, formals: seq<VarDecl>): (r: seq<Diag>)
    ensures |r| <= |formals|
    ensures forall d :: d in r ==> d.NotDeclared? && d.reason == LookingForType
    decreases |formals|
  {
    if formals == [] then []
    else FormalsCheck(fnPath, formals[..|formals| - 1]) + VarTypeCheck(fnPath, formals[|formals| - 1].typ)
  }

  /** `FnDecl::Check`: the formals, then the body (whose diagnostics are given). */
  function FnCheck(outer: Path, f: FnDecl, bodyDiags: seq<Diag>): seq<Diag>
  {
    FormalsCheck([OwnScope(Fn(f))] + outer, f.formals) + bodyDiags
  }

  method CheckFn(outer: Path, f: FnDecl, bodyDiags: seq<Diag>) returns (diags: seq<Diag>)
    ensures diags == FnCheck(outer, f, bodyDiags)
  {
    var fnPath := [OwnScope(Fn(f))] + outer;
    diags := [];
    var i := 0;
    while i < |f.formals|
      invariant 0 <= i <= |f.formals|
      invariant diags == FormalsCheck(fnPath, f.formals[..i])
    {
      assert f.formals[..i + 1][..i] == f.formals[..i];
      var d := CheckType(fnPath, f.formals[i].typ);
      diags := diags + d;
      i := i + 1;
    }
    assert f.formals[..i] == f.formals;
    diags := diags + bodyDiags;
  }

  /** One member's `Check`, seen from the scopes of its class or interface. */
  function MemberCheck(outer: Path, m: Decl, bodyDiags: seq<Diag>): seq<Diag>
  {
    match m
    case Var(v) => VarTypeCheck(outer, v.typ)
    case Fn(f) => FnCheck(outer, f, bodyDiags)
    case _ => []
  }

  /** The members' checks in declaration order; `bodies[i]` is member `i`'s body diagnostics. */
  function MembersCheck(outer: Path, ms: seq<Decl>, bodies: seq<seq<Diag>>): seq<Diag>
    requires |bodies| == |ms|
    decreases |ms|
  {
    if ms == [] then []
    else MembersCheck(outer, ms[..|ms| - 1], bodies[..|ms| - 1]) + MemberCheck(outer, ms[|ms| - 1], bodies[|ms| - 1])
  }

  method CheckMembers(outer: Path, ms: seq<Decl>, bodies: seq<seq<Diag>>) returns (diags: seq<Diag>)
    requires |bodies| == |ms|
    ensures diags == MembersCheck(outer, ms, bodies)
  {
    diags := [];
    var i := 0;
    while i < |ms|
      invariant 0 <= i <= |ms|
      invariant diags == MembersCheck(outer, ms[..i], bodies[..i])
    {
      assert ms[..i + 1][..i] == ms[..i] && bodies[..i + 1][..i] == bodies[..i];
      var d: seq<Diag>;
      match ms[i] {
        case Var(v) => d := CheckType(outer, v.typ);
        case Fn(f) => d := CheckFn(outer, f, bodies[i]);
        case _ => d := [];
      }
      diags := diags + d;
      i := i + 1;
    }
    assert ms[..i] == ms && bodies[..i] == bodies;
  }

  /** `InterfaceDecl::Check`: the prototypes' checks; prototypes have no body. */
  function InterfaceCheck(env: ClassEnv, iface: Decl): seq<Diag>
    requires iface.Interface?
  {
    MembersCheck(DeclPath(env, iface), iface.members, seq(|iface.members|, _ => []))
  }

  // ----- superclass and interfaces named by a class -----

  predicate IsClassName(env: ClassEnv, n: string)
  {
    n in env.decls && env.decls[n].Class?
  }

  predicate IsInterfaceName(env: ClassEnv, n: string)
  {
    n in env.decls && env.decls[n].Interface?
  }

  /** `ClassDecl::CheckExtends`: a superclass name must be a class of the global scope. */
  function ExtendsCheck(env: ClassEnv, c: Decl): (r: seq<Diag>)
    requires c.Class?
    ensures r == [] <==> c.superName.None? || IsClassName(env, c.superName.value)
    ensures r != [] ==> r == [NotDeclared(c.superName.value, LookingForClass)]
  {
    if c.superName.Some? && !IsClassName(env, c.superName.value)
    then ReportNotDeclared(Named(c.superName.value), LookingForClass)
    else []
  }

  /** `ClassDecl::CheckImplements`: every implemented name must be an interface of the global scope. */
  function ImplementsCheck(env: ClassEnv, names: seq<string>): (r: seq<Diag>)
    ensures |r| <= |names|
    decreases |names|
  {
    if names == [] then []
    else
      var n := names[|names| - 1];
      ImplementsCheck(env, names[..|names| - 1])
        + (if IsInterfaceName(env, n) then [] else ReportNotDeclared(Named(n), LookingForInterface))
  }

  /** Exactly the implemented names that are not interfaces of the global scope are reported. */
  lemma {:induction false} ImplementsCheckSpec(env: ClassEnv, names: seq<string>)
    ensures forall n :: NotDeclared(n, LookingForInterface) in ImplementsCheck(env, names) <==>
      n in names && !IsInterfaceName(env, n)
    ensures forall d :: d in ImplementsCheck(env, names) ==> d.NotDeclared? && d.reason == LookingForInterface
    ensures ImplementsCheck(env, names) == [] <==> forall i :: 0 <= i < |names| ==> IsInterfaceName(env, names[i])
    decreases |names|
  {
    if names != [] {
      ImplementsCheckSpec(env, names[..|names| - 1]);
      assert forall n :: n in names <==> n in names[..|names| - 1] || n == names[|names| - 1];
    }
  }

  method CheckImplements(env: ClassEnv, c: Decl) returns (diags: seq<Diag>)
    requires c.Class?
    ensures diags == ImplementsCheck(env, c.implements)
  {
    diags := [];
    var i := 0;
    while i < |c.implements|
      invariant 0 <= i <= |c.implements|
      invariant diags == ImplementsCheck(env, c.implements[..i])
    {
      assert c.implements[..i + 1][..i] == c.implements[..i];
      var n := c.implements[i];
      if !(n in env.decls && env.decls[n].Interface?) {
        diags := diags + ReportNotDeclared(Named(n), LookingForInterface);
      }
      i := i + 1;
    }
    assert c.implements[..i] == c.implements;
  }

  // ----- overriding: one scope against another -----

  predicate Distinct(keys: seq<string>)
  {
    forall i, j :: 0 <= i < j < |keys| ==> keys[i] != keys[j]
  }

  /** `keys` is an order in which a table's iterator may yield its names: each name once. */
  predicate IsOrderOf(keys: seq<string>, t: map<string, Decl>)
  {
    Distinct(keys) && (forall k :: k in keys ==> k in t) && (forall k :: k in t ==> k in keys)
  }

  function DiagName(d: Diag): string
  {
    match d
    case DeclConflict(n) => n
    case OverrideMismatch(n) => n
    case _ => ""
  }

  /** A variable of the other scope conflicts with the same name here. */
  predicate Conflicts(own: map<string, Decl>, other: map<string, Decl>, n: string)
  {
    n in own && n in other && other[n].Var?
  }

  /** A function of the other scope is overridden here by a declaration that is not equivalent to it. */
  predicate Mismatches(own: map<string, Decl>, other: map<string, Decl>, n: string)
  {
    n in own && n in other && other[n].Fn? && !DeclEquivalent(own[n], other[n])
  }

  /**
   * `ClassDecl::CheckAgainstScope`, with the own table iterated in the
   * order `keys`: a conflict for each name the other scope binds to a
   * variable and a mismatch for each name it binds to a function that the
   * own declaration is not equivalent to.
   */
  function AgainstDiags(own: map<string, Decl>, other: map<string, Decl>, keys: seq<string>): (r: seq<Diag>)
    requires forall k :: k in keys ==> k in own
    ensures |r| <= 2 * |keys|
    decreases |keys|
  {
    if keys == [] then []
    else
      var n := keys[|keys| - 1];
      AgainstDiags(own, other, keys[..|keys| - 1])
        + (if n in other && other[n].Var? then [DeclConflict(n)] else [])
        + (if n in other && other[n].Fn? && !DeclEquivalent(own[n], other[n]) then [OverrideMismatch(n)] else [])
  }

  /** What the comparison reports, name by name. */
  lemma {:induction false} AgainstDiagsSpec(own: map<string, Decl>, other: map<string, Decl>, keys: seq<string>)
    requires forall k :: k in keys ==> k in own
    ensures forall n :: DeclConflict(n) in AgainstDiags(own, other, keys) <==> n in keys && Conflicts(own, other, n)
    ensures forall n :: OverrideMismatch(n) in AgainstDiags(own, other, keys) <==> n in keys && Mismatches(own, other, n)
    ensures forall d :: d in AgainstDiags(own, other, keys) ==> (d.DeclConflict? || d.OverrideMismatch?) && DiagName(d) in keys
    decreases |keys|
  {
    if keys != [] {
      var init := keys[..|keys| - 1];
      AgainstDiagsSpec(own, other, init);
      assert forall k :: k in keys <==> k in init || k == keys[|keys| - 1];
    }
  }

  /** The comparison is silent exactly when no name of the order conflicts or mismatches. */
  lemma {:induction false} AgainstDiagsEmpty(own: map<string, Decl>, other: map<string, Decl>, keys: seq<string>)
    requires forall k :: k in keys ==> k in own
    ensures AgainstDiags(own, other, keys) == [] <==>
      forall n :: n in keys ==> !Conflicts(own, other, n) && !Mismatches(own, other, n)
    decreases |keys|
  {
    if keys != [] {
      var init := keys[..|keys| - 1];
      var n := keys[|keys| - 1];
      AgainstDiagsEmpty(own, other, init);
      assert forall k :: k in keys <==> k in init || k == n;
      assert Conflicts(own, other, n) <==> n in other && other[n].Var?;
      assert Mismatches(own, other, n) <==> n in other && other[n].Fn? && !DeclEquivalent(own[n], other[n]);
    }
  }

  /** With each name iterated once, each report appears once. */
  lemma {:induction false} AgainstDiagsDistinct(own: map<string, Decl>, other: map<string, Decl>, keys: seq<string>)
    requires (forall k :: k in keys ==> k in own) && Distinct(keys)
    ensures forall i, j :: 0 <= i < j < |AgainstDiags(own, other, keys)| ==>
      AgainstDiags(own, other, keys)[i] != AgainstDiags(own, other, keys)[j]
    decreases |keys|
  {
    if keys != [] {
      var init := keys[..|keys| - 1];
      var n := keys[|keys| - 1];
      AgainstDiagsDistinct(own, other, init);
      AgainstDiagsSpec(own, other, init);
      assert n !in init;
    }
  }

  method CheckAgainstScope(own: map<string, Decl>, other: map<string, Decl>, keys: seq<string>)
    returns (diags: seq<Diag>)
    requires IsOrderOf(keys, own)
    ensures diags == AgainstDiags(own, other, keys)
  {
    diags := [];
    var i := 0;
    while i < |keys|
      invariant 0 <= i <= |keys|
      invariant diags == AgainstDiags(own, other, keys[..i])
    {
      assert keys[..i + 1][..i] == keys[..i];
      var d := own[keys[i]];
      if keys[i] in other {
        var lookup := other[keys[i]];
        if lookup.Var? {
          diags := diags + [DeclConflict(keys[i])];
        }
        if lookup.Fn? && !DeclEquivalent(d, lookup) {
          diags := diags + [OverrideMismatch(keys[i])];
        }
      }
      i := i + 1;
    }
    assert keys[..i] == keys;
  }

  lemma {:induction false} DistinctCounts(s: seq<Diag>)
    requires forall i, j :: 0 <= i < j < |s| ==> s[i] != s[j]
    ensures forall x :: multiset(s)[x] == if x in s then 1 else 0
    decreases |s|
  {
    if s != [] {
      var init := s[..|s| - 1];
      DistinctCounts(init);
      assert s == init + [s[|s| - 1]];
      assert s[|s| - 1] !in init;
    }
  }

  /**
   * The reports do not depend on the order in which the table is iterated:
   * any two orders yield the same reports, each once.
   */
  lemma AgainstOrderIndependent(own: map<string, Decl>, other: map<string, Decl>, k1: seq<string>, k2: seq<string>)
    requires IsOrderOf(k1, own) && IsOrderOf(k2, own)
    ensures multiset(AgainstDiags(own, other, k1)) == multiset(AgainstDiags(own, other, k2))
  {
    var a1 := AgainstDiags(own, other, k1);
    var a2 := AgainstDiags(own, other, k2);
    AgainstDiagsSpec(own, other, k1);
    AgainstDiagsSpec(own, other, k2);
    AgainstDiagsDistinct(own, other, k1);
    AgainstDiagsDistinct(own, other, k2);
    DistinctCounts(a1);
    DistinctCounts(a2);
    assert forall d :: d in a1 <==> d in a2 by {
      forall d ensures d in a1 <==> d in a2 {
        if d in a1 {
          assert d.DeclConflict? || d.OverrideMismatch?;
        }
        if d in a2 {
          assert d.DeclConflict? || d.OverrideMismatch?;
        }
      }
    }
    assert forall x :: multiset(a1)[x] == multiset(a2)[x];
  }

  // ----- overriding: a class against its ancestors and interfaces -----

  /**
   * `ClassDecl::CheckExtendedMembers`: the topmost ancestor first, each
   * ancestor's own scope compared with the class's own scope; a name that
   * is not a class of the global scope ends the walk.
   */
  function ExtendedDiags(env: ClassEnv, own: map<string, Decl>, keys: seq<string>, ext: Option<string>): seq<Diag>
    requires Acyclic(env) && forall k :: k in keys ==> k in own
    decreases ChainMeasure(env, ext)
  {
    if ext.None? || !IsClassName(env, ext.value) then []
    else
      var e := env.decls[ext.value];
      ExtendedDiags(env, own, keys, e.superName) + AgainstDiags(own, OwnScope(e).table, keys)
  }

  method CheckExtendedMembers(env: ClassEnv, own: map<string, Decl>, keys: seq<string>, ext: Option<string>)
    returns (diags: seq<Diag>)
    requires Acyclic(env) && IsOrderOf(keys, own)
    ensures diags == ExtendedDiags(env, own, keys, ext)
    decreases ChainMeasure(env, ext)
  {
    if ext.None? {
      return [];
    }
    if !(ext.value in env.decls && env.decls[ext.value].Class?) {
      return [];
    }
    var extDecl := env.decls[ext.value];
    diags := CheckExtendedMembers(env, own, keys, extDecl.superName);
    var d := CheckAgainstScope(own, OwnScope(extDecl).table, keys);
    diags := diags + d;
  }

  /** Some class on the chain from `ext` upwards binds `n` to a variable in its own scope. */
  predicate FieldInChain(env: ClassEnv, ext: Option<string>, n: string)
    requires Acyclic(env)
    decreases ChainMeasure(env, ext)
  {
    ext.Some? && IsClassName(env, ext.value)
    && var e := env.decls[ext.value];
       ((n in OwnScope(e).table && OwnScope(e).table[n].Var?) || FieldInChain(env, e.superName, n))
  }

  /**
   * Field shadowing: a name of the class is reported as a conflict exactly
   * when some ancestor declares a variable of that name.
   */
  lemma {:induction false} ExtendedConflicts(env: ClassEnv, own: map<string, Decl>, keys: seq<string>, ext: Option<string>, n: string)
    requires Acyclic(env) && forall k :: k in keys ==> k in own
    ensures DeclConflict(n) in ExtendedDiags(env, own, keys, ext) <==> n in keys && FieldInChain(env, ext, n)
    decreases ChainMeasure(env, ext)
  {
    if ext.Some? && IsClassName(env, ext.value) {
      var e := env.decls[ext.value];
      ExtendedConflicts(env, own, keys, e.superName, n);
      AgainstDiagsSpec(own, OwnScope(e).table, keys);
    }
  }

  /** `ClassDecl::CheckImplementedMembers` for each implemented name in turn. */
  function ImplementedDiags(env: ClassEnv, own: map<string, Decl>, keys: seq<string>, names: seq<string>): seq<Diag>
    requires forall k :: k in keys ==> k in own
    decreases |names|
  {
    if names == [] then []
    else
      var n := names[|names| - 1];
      ImplementedDiags(env, own, keys, names[..|names| - 1])
        + (if IsInterfaceName(env, n) then AgainstDiags(own, OwnScope(env.decls[n]).table, keys) else [])
  }

  method CheckImplementedMembers(env: ClassEnv, own: map<string, Decl>, keys: seq<string>, names: seq<string>)
    returns (diags: seq<Diag>)
    requires IsOrderOf(keys, own)
    ensures diags == ImplementedDiags(env, own, keys, names)
  {
    diags := [];
    var i := 0;
    while i < |names|
      invariant 0 <= i <= |names|
      invariant diags == ImplementedDiags(env, own, keys, names[..i])
    {
      assert names[..i + 1][..i] == names[..i];
      if names[i] in env.decls && env.decls[names[i]].Interface? {
        var d := CheckAgainstScope(own, OwnScope(env.decls[names[i]]).table, keys);
        diags := diags + d;
      }
      i := i + 1;
    }
    assert names[..i] == names;
  }

  // ----- interface conformance -----

  /** The class or one of its superclasses binds `name` in its own scope. */
  predicate MemberInChain(env: ClassEnv, c: Decl, name: string)
    requires Acyclic(env) && c.Class?
    decreases Depth(env, c)
  {
    name in OwnScope(c).table || (SuperIsClass(env, c) && MemberInChain(env, Super(env, c), name))
  }

  /** The walk of `CheckImplementsInterfaces` for one interface member. */
  method FindInChain(env: ClassEnv, c: Decl, name: string) returns (found: bool)
    requires Acyclic(env) && c.Class?
    ensures found == MemberInChain(env, c, name)
  {
    var classDecl: Option<Decl> := Some(c);
    while classDecl.Some?
      invariant classDecl.Some? ==>
        (classDecl.value.Class? && (MemberInChain(env, c, name) <==> MemberInChain(env, classDecl.value, name)))
      invariant classDecl.None? ==> !MemberInChain(env, c, name)
      decreases if classDecl.None? then 0 else 1 + Depth(env, classDecl.value)
    {
      var cd := classDecl.value;
      if name in OwnScope(cd).table {
        return true;
      }
      if cd.superName.None? {
        classDecl := None;
      } else if cd.superName.value in env.decls && env.decls[cd.superName.value].Class? {
        classDecl := Some(env.decls[cd.superName.value]);
      } else {
        classDecl := None;
      }
    }
    return false;
  }

  /** Every member of the interface is found, by name only, in the class or its superclasses. */
  predicate ImplementsAll(env: ClassEnv, c: Decl, iface: Decl)
    requires Acyclic(env) && c.Class? && iface.Interface?
  {
    forall j :: 0 <= j < |iface.members| ==> MemberInChain(env, c, iface.members[j].Name())
  }

  /**
   * `ClassDecl::CheckImplementsInterfaces` from the `i`-th implemented name
   * on: the first interface with a missing member is reported once, and the
   * check ends there.
   */
  function InterfacesCheck(env: ClassEnv, c: Decl, i: nat): (r: seq<Diag>)
    requires Acyclic(env) && c.Class? && i <= |c.implements|
    ensures |r| <= 1
    ensures r == [] <==> forall k :: i <= k < |c.implements| && IsInterfaceName(env, c.implements[k]) ==>
      ImplementsAll(env, c, env.decls[c.implements[k]])
    ensures r != [] ==>
      exists k :: (i <= k < |c.implements| && r == [InterfaceNotImplemented(c.className, c.implements[k])]
        && IsInterfaceName(env, c.implements[k]) && !ImplementsAll(env, c, env.decls[c.implements[k]]))
    decreases |c.implements| - i
  {
    if i == |c.implements| then []
    else
      var n := c.implements[i];
      if IsInterfaceName(env, n) && !ImplementsAll(env, c, env.decls[n])
      then [InterfaceNotImplemented(c.className, n)]
      else InterfacesCheck(env, c, i + 1)
  }

  method CheckImplementsInterfaces(env: ClassEnv, c: Decl) returns (diags: seq<Diag>)
    requires Acyclic(env) && c.Class?
    ensures diags == InterfacesCheck(env, c, 0)
  {
    var i := 0;
    while i < |c.implements|
      invariant 0 <= i <= |c.implements|
      invariant InterfacesCheck(env, c, 0) == InterfacesCheck(env, c, i)
    {
      var n := c.implements[i];
      if n in env.decls && env.decls[n].Interface? {
        var intMembers := env.decls[n].members;
        var j := 0;
        while j < |intMembers|
          invariant 0 <= j <= |intMembers|
          invariant forall k :: 0 <= k < j ==> MemberInChain(env, c, intMembers[k].Name())
        {
          var found := FindInChain(env, c, intMembers[j].Name());
          if !found {
            return [InterfaceNotImplemented(c.className, n)];
          }
          j := j + 1;
        }
      }
      i := i + 1;
    }
    return [];
  }

  // ----- the whole class -----

  /**
   * `ClassDecl::Check`: the members, the superclass name, the interface
   * names, the signatures against each interface, the members against each
   * ancestor, and finally interface conformance. `keys` is the iteration
   * order of the class's own table.
   */
  function ClassCheck(env: ClassEnv, c: Decl, keys: seq<string>, bodies: seq<seq<Diag>>): seq<Diag>
    requires Acyclic(env) && c.Class? && |bodies| == |c.members|
    requires IsOrderOf(keys, OwnScope(c).table)
  {
    MembersCheck(DeclPath(env, c), c.members, bodies)
      + ExtendsCheck(env, c)
      + ImplementsCheck(env, c.implements)
      + ImplementedDiags(env, OwnScope(c).table, keys, c.implements)
      + ExtendedDiags(env, OwnScope(c).table, keys, c.superName)
      + InterfacesCheck(env, c, 0)
  }

  method CheckClass(env: ClassEnv, c: Decl, keys: seq<string>, bodies: seq<seq<Diag>>) returns (diags: seq<Diag>)
    requires Acyclic(env) && c.Class? && |bodies| == |c.members|
    requires IsOrderOf(keys, OwnScope(c).table)
    ensures diags == ClassCheck(env, c, keys, bodies)
  {
    diags := CheckMembers(DeclPath(env, c), c.members, bodies);
    diags := diags + ExtendsCheck(env, c);
    var d := CheckImplements(env, c);
    diags := diags + d;
    d := CheckImplementedMembers(env, OwnScope(c).table, keys, c.implements);
    diags := diags + d;
    d := CheckExtendedMembers(env, OwnScope(c).table, keys, c.superName);
    diags := diags + d;
    d := CheckImplementsInterfaces(env, c);
    diags := diags + d;
  }

  // ----- the enclosing scope as written -----

  /**
   * How a class's check ends as written: with its reports, or at a read
   * through the class scope's parent pointer, which is never set, so that
   * what follows is undefined; `before` holds the reports made up to there.
   */
  datatype ClassOutcome = Completed(diags: seq<Diag>) | Undefined(before: seq<Diag>)

  /**
   * `ClassDecl::Check` as written. The members and the superclass name are
   * checked (the latter reaches the global scope through the program node).
   * Next `CheckImplements` reads the parent scope when the class implements
   * something; failing that, `CheckExtendedMembers` reads it when the class
   * extends something. `CheckImplementedMembers` and
   * `CheckImplementsInterfaces` read it only for implemented names.
   */
  function ClassCheckAsWritten(env: ClassEnv, c: Decl, keys: seq<string>, bodies: seq<seq<Diag>>): ClassOutcome
    requires Acyclic(env) && c.Class? && |bodies| == |c.members|
    requires IsOrderOf(keys, OwnScope(c).table)
  {
    var early := MembersCheck(DeclPath(env, c), c.members, bodies) + ExtendsCheck(env, c);
    if |c.implements| > 0 || c.superName.Some? then Undefined(early)
    else Completed(early)
  }

  /**
   * As written, exactly the classes that extend or implement something reach
   * the unset parent pointer, after reporting what the intended check reports
   * first; every other class completes with the intended check's reports,
   * which are its members' alone.
   */
  lemma ClassCheckAsWrittenSpec(env: ClassEnv, c: Decl, keys: seq<string>, bodies: seq<seq<Diag>>)
    requires Acyclic(env) && c.Class? && |bodies| == |c.members|
    requires IsOrderOf(keys, OwnScope(c).table)
    ensures ClassCheckAsWritten(env, c, keys, bodies).Undefined? <==> |c.implements| > 0 || c.superName.Some?
    ensures ClassCheckAsWritten(env, c, keys, bodies).Undefined? ==>
      var before := ClassCheckAsWritten(env, c, keys, bodies).before;
      before <= ClassCheck(env, c, keys, bodies)
    ensures ClassCheckAsWritten(env, c, keys, bodies).Completed? ==>
      ClassCheckAsWritten(env, c, keys, bodies).diags == ClassCheck(env, c, keys, bodies)
        == MembersCheck(DeclPath(env, c), c.members, bodies)
  {
    var early := MembersCheck(DeclPath(env, c), c.members, bodies) + ExtendsCheck(env, c);
    var i := ImplementsCheck(env, c.implements);
    var id := ImplementedDiags(env, OwnScope(c).table, keys, c.implements);
    var ed := ExtendedDiags(env, OwnScope(c).table, keys, c.superName);
    var ic := InterfacesCheck(env, c, 0);
    assert ClassCheck(env, c, keys, bodies) == early + i + id + ed + ic;
    assert early <= early + i <= early + i + id <= early + i + id + ed <= early + i + id + ed + ic;
    if |c.implements| == 0 && c.superName.None? {
      assert i == [] && id == [] && ed == [] && ic == [];
    }
  }

  /** Every implemented name, and only one that is, is accepted by the class's own interface-name check. */
  predicate ImplementsInterfaces(env: ClassEnv, c: Decl)
    requires c.Class?
  {
    forall i :: 0 <= i < |c.implements| ==> IsInterfaceName(env, c.implements[i])
  }

  /** Every member of every implemented interface is redeclared in the class as an equivalent function. */
  predicate RedeclaresInterfaces(env: ClassEnv, c: Decl)
    requires c.Class? && ImplementsInterfaces(env, c)
  {
    forall i, n :: 0 <= i < |c.implements| && n in OwnScope(env.decls[c.implements[i]]).table ==>
      (n in OwnScope(c).table && OwnScope(env.decls[c.implements[i]]).table[n].Fn?
       && DeclEquivalent(OwnScope(c).table[n], OwnScope(env.decls[c.implements[i]]).table[n]))
  }

  lemma InterfaceNamesPass(env: ClassEnv, c: Decl)
    requires c.Class? && ImplementsInterfaces(env, c)
    ensures ImplementsCheck(env, c.implements) == []
  {
    ImplementsCheckSpec(env, c.implements);
  }

  /** A class that redeclares its interfaces' functions with equivalent signatures draws no signature report. */
  lemma InterfaceSignaturesPass(env: ClassEnv, c: Decl, keys: seq<string>)
    requires c.Class? && IsOrderOf(keys, OwnScope(c).table)
    requires ImplementsInterfaces(env, c) && RedeclaresInterfaces(env, c)
    ensures ImplementedDiags(env, OwnScope(c).table, keys, c.implements) == []
  {
    ImplementedKinds(env, OwnScope(c).table, keys, c.implements);
  }

  /** A class that redeclares its interfaces' members passes conformance. */
  lemma InterfaceMembersFound(env: ClassEnv, c: Decl)
    requires Acyclic(env) && c.Class?
    requires ImplementsInterfaces(env, c) && RedeclaresInterfaces(env, c)
    ensures InterfacesCheck(env, c, 0) == []
  {
    forall k | 0 <= k < |c.implements|
      ensures ImplementsAll(env, c, env.decls[c.implements[k]])
    {
      var iface := env.decls[c.implements[k]];
      assert IsInterfaceName(env, c.implements[k]);
      forall n | n in OwnScope(iface).table
        ensures n in OwnScope(c).table
      {
      }
      MembersRedeclared(env, c, iface);
    }
  }

  /** A class whose own scope holds every member name of an interface implements all of it. */
  lemma MembersRedeclared(env: ClassEnv, c: Decl, iface: Decl)
    requires Acyclic(env) && c.Class? && iface.Interface?
    requires forall n :: n in OwnScope(iface).table ==> n in OwnScope(c).table
    ensures ImplementsAll(env, c, iface)
  {
    RegisterKeys(map[], iface.members);
    forall j | 0 <= j < |iface.members|
      ensures MemberInChain(env, c, iface.members[j].Name())
    {
      assert iface.members[j].Name() in Names(iface.members);
    }
  }

  /**
   * Against the interfaces, a name is reported as a mismatch exactly when
   * some implemented interface declares a function of that name that the
   * class's declaration is not equivalent to.
   */
  lemma {:induction false} ImplementedKinds(env: ClassEnv, own: map<string, Decl>, keys: seq<string>, names: seq<string>)
    requires forall k :: k in keys ==> k in own
    ensures forall n :: OverrideMismatch(n) in ImplementedDiags(env, own, keys, names) <==>
      exists i :: 0 <= i < |names| && IsInterfaceName(env, names[i]) && n in keys
        && Mismatches(own, OwnScope(env.decls[names[i]]).table, n)
    ensures forall d :: d in ImplementedDiags(env, own, keys, names) ==> d.DeclConflict? || d.OverrideMismatch?
    ensures ImplementedDiags(env, own, keys, names) == [] <==>
      forall i, n :: 0 <= i < |names| && IsInterfaceName(env, names[i]) && n in keys ==>
        !Conflicts(own, OwnScope(env.decls[names[i]]).table, n) && !Mismatches(own, OwnScope(env.decls[names[i]]).table, n)
    ensures forall n :: DeclConflict(n) in ImplementedDiags(env, own, keys, names) ==>
      exists i :: 0 <= i < |names| && IsInterfaceName(env, names[i]) && Conflicts(own, OwnScope(env.decls[names[i]]).table, n)
  {
    ImplementedMismatches(env, own, keys, names);
    ImplementedReportKinds(env, own, keys, names);
    ImplementedSilent(env, own, keys, names);
    ImplementedConflicts(env, own, keys, names);
  }

  lemma {:induction false} ImplementedMismatches(env: ClassEnv, own: map<string, Decl>, keys: seq<string>, names: seq<string>)
    requires forall k :: k in keys ==> k in own
    ensures forall n :: OverrideMismatch(n) in ImplementedDiags(env, own, keys, names) <==>
      exists i :: 0 <= i < |names| && IsInterfaceName(env, names[i]) && n in keys
        && Mismatches(own, OwnScope(env.decls[names[i]]).table, n)
    decreases |names|
  {
    ReportedMismatchesFound(env, own, keys, names);
    FoundMismatchesReported(env, own, keys, names);
  }

  lemma {:induction false} ReportedMismatchesFound(env: ClassEnv, own: map<string, Decl>, keys: seq<string>, names: seq<string>)
    requires forall k :: k in keys ==> k in own
    ensures forall n :: OverrideMismatch(n) in ImplementedDiags(env, own, keys, names) ==>
      exists i :: 0 <= i < |names| && IsInterfaceName(env, names[i]) && n in keys
        && Mismatches(own, OwnScope(env.decls[names[i]]).table, n)
    decreases |names|
  {
    if names != [] {
      var n := names[|names| - 1];
      var init := names[..|names| - 1];
      ReportedMismatchesFound(env, own, keys, init);
      var prev := ImplementedDiags(env, own, keys, init);
      var last := if IsInterfaceName(env, n) then AgainstDiags(own, OwnScope(env.decls[n]).table, keys) else [];
      assert ImplementedDiags(env, own, keys, names) == prev + last;
      if IsInterfaceName(env, n) {
        AgainstDiagsSpec(own, OwnScope(env.decls[n]).table, keys);
      }
      forall m | OverrideMismatch(m) in prev + last
        ensures exists i :: 0 <= i < |names| && IsInterfaceName(env, names[i]) && m in keys
                           && Mismatches(own, OwnScope(env.decls[names[i]]).table, m)
      {
        if OverrideMismatch(m) in prev {
          var i :| 0 <= i < |init| && IsInterfaceName(env, init[i]) && m in keys
            && Mismatches(own, OwnScope(env.decls[init[i]]).table, m);
          assert init[i] == names[i];
        } else {
          assert names[|names| - 1] == n;
        }
      }
    }
  }

  lemma {:induction false} FoundMismatchesReported(env: ClassEnv, own: map<string, Decl>, keys: seq<string>, names: seq<string>)
    requires forall k :: k in keys ==> k in own
    ensures forall i, n ::
      (0 <= i < |names| && IsInterfaceName(env, names[i]) && n in keys
       && Mismatches(own, OwnScope(env.decls[names[i]]).table, n)) ==>
        OverrideMismatch(n) in ImplementedDiags(env, own, keys, names)
    decreases |names|
  {
    if names != [] {
      var n := names[|names| - 1];
      var init := names[..|names| - 1];
      FoundMismatchesReported(env, own, keys, init);
      var prev := ImplementedDiags(env, own, keys, init);
      var last := if IsInterfaceName(env, n) then AgainstDiags(own, OwnScope(env.decls[n]).table, keys) else [];
      assert ImplementedDiags(env, own, keys, names) == prev + last;
      if IsInterfaceName(env, n) {
        AgainstDiagsSpec(own, OwnScope(env.decls[n]).table, keys);
      }
      forall i, m | 0 <= i < |names| && IsInterfaceName(env, names[i]) && m in keys
          && Mismatches(own, OwnScope(env.decls[names[i]]).table, m)
        ensures OverrideMismatch(m) in prev + last
      {
        if i < |init| {
          assert init[i] == names[i];
          assert OverrideMismatch(m) in prev;
        } else {
          assert names[i] == n;
          assert OverrideMismatch(m) in last;
        }
      }
    }
  }

  lemma {:induction false} ImplementedReportKinds(env: ClassEnv, own: map<string, Decl>, keys: seq<string>, names: seq<string>)
    requires forall k :: k in keys ==> k in own
    ensures forall d :: d in ImplementedDiags(env, own, keys, names) ==> d.DeclConflict? || d.OverrideMismatch?
    decreases |names|
  {
    if names != [] {
      var n := names[|names| - 1];
      ImplementedReportKinds(env, own, keys, names[..|names| - 1]);
      if IsInterfaceName(env, n) {
        AgainstDiagsSpec(own, OwnScope(env.decls[n]).table, keys);
      }
    }
  }

  lemma {:induction false} ImplementedSilent(env: ClassEnv, own: map<string, Decl>, keys: seq<string>, names: seq<string>)
    requires forall k :: k in keys ==> k in own
    ensures ImplementedDiags(env, own, keys, names) == [] <==>
      forall i, n :: 0 <= i < |names| && IsInterfaceName(env, names[i]) && n in keys ==>
        !Conflicts(own, OwnScope(env.decls[names[i]]).table, n) && !Mismatches(own, OwnScope(env.decls[names[i]]).table, n)
    decreases |names|
  {
    if ImplementedDiags(env, own, keys, names) == [] {
      SilentMeansNoClash(env, own, keys, names);
    }
    if NoClash(env, own, keys, names) {
      NoClashMeansSilent(env, own, keys, names);
    }
  }

  /** A name no implemented interface clashes with: a silent comparison, from left to right. */
  predicate NoClash(env: ClassEnv, own: map<string, Decl>, keys: seq<string>, names: seq<string>)
  {
    forall i, n :: 0 <= i < |names| && IsInterfaceName(env, names[i]) && n in keys ==>
      !Conflicts(own, OwnScope(env.decls[names[i]]).table, n) && !Mismatches(own, OwnScope(env.decls[names[i]]).table, n)
  }

  lemma {:induction false} SilentMeansNoClash(env: ClassEnv, own: map<string, Decl>, keys: seq<string>, names: seq<string>)
    requires forall k :: k in keys ==> k in own
    requires ImplementedDiags(env, own, keys, names) == []
    ensures NoClash(env, own, keys, names)
    decreases |names|
  {
    if names != [] {
      var n := names[|names| - 1];
      var init := names[..|names| - 1];
      var prev := ImplementedDiags(env, own, keys, init);
      var last := if IsInterfaceName(env, n) then AgainstDiags(own, OwnScope(env.decls[n]).table, keys) else [];
      assert prev + last == [];
      assert |prev| == 0 && |last| == 0;
      SilentMeansNoClash(env, own, keys, init);
      if IsInterfaceName(env, n) {
        AgainstDiagsEmpty(own, OwnScope(env.decls[n]).table, keys);
      }
      forall i, m | 0 <= i < |names| && IsInterfaceName(env, names[i]) && m in keys
        ensures !Conflicts(own, OwnScope(env.decls[names[i]]).table, m)
          && !Mismatches(own, OwnScope(env.decls[names[i]]).table, m)
      {
        if i < |init| {
          assert init[i] == names[i];
        }
      }
    }
  }

  lemma {:induction false} NoClashMeansSilent(env: ClassEnv, own: map<string, Decl>, keys: seq<string>, names: seq<string>)
    requires forall k :: k in keys ==> k in own
    requires NoClash(env, own, keys, names)
    ensures ImplementedDiags(env, own, keys, names) == []
    decreases |names|
  {
    if names != [] {
      var n := names[|names| - 1];
      var init := names[..|names| - 1];
      assert forall i :: 0 <= i < |init| ==> init[i] == names[i];
      NoClashMeansSilent(env, own, keys, init);
      if IsInterfaceName(env, n) {
        AgainstDiagsEmpty(own, OwnScope(env.decls[n]).table, keys);
      }
    }
  }

  lemma {:induction false} ImplementedConflicts(env: ClassEnv, own: map<string, Decl>, keys: seq<string>, names: seq<string>)
    requires forall k :: k in keys ==> k in own
    ensures forall n :: DeclConflict(n) in ImplementedDiags(env, own, keys, names) ==>
      exists i :: 0 <= i < |names| && IsInterfaceName(env, names[i]) && Conflicts(own, OwnScope(env.decls[names[i]]).table, n)
    decreases |names|
  {
    if names != [] {
      var n := names[|names| - 1];
      var init := names[..|names| - 1];
      ImplementedConflicts(env, own, keys, init);
      if IsInterfaceName(env, n) {
        AgainstDiagsSpec(own, OwnScope(env.decls[n]).table, keys);
      }
      assert forall i :: 0 <= i < |init| ==> init[i] == names[i];
    }
  }

}
