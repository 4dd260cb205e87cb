/**
 * Name lookup by walking towards the root.
 *
 * A node's ancestors, from the node itself up to the program, each own a
 * scope; `Path` lists those scopes innermost first, the global scope last.
 * A lexical lookup takes the first scope that binds the name. A lookup in a
 * class type walks the superclass chain through the global scope, searching
 * each class from its own node (its scope, then the global scope).
 */
module Lookup {
  import opened Wrappers
  import opened AstType
  import opened AstDecl
  import opened Scopes
  import opened Layout

  type Path = seq<ScopeView>

  /** The global scope's contents: the program's declarations and no tags. */
  function GlobalView(env: ClassEnv): ScopeView
  {
    ScopeView(env.decls, None, None, None)
  }

  /** The first binding of `name` along `path`. */
  function PathLookup(path: Path, name: string): Option<Decl>
    decreases |path|
  {
    if path == [] then None
    else if name in path[0].table then Some(path[0].table[name])
    else PathLookup(path[1..], name)
  }

  /** The innermost binding wins; a name bound nowhere on the path is not found. */
  lemma {:induction false} PathLookupSpec(path: Path, name: string)
    ensures PathLookup(path, name).None? <==> forall i :: 0 <= i < |path| ==> name !in path[i].table
    ensures PathLookup(path, name).Some? ==>
      exists i :: 0 <= i < |path| && name in path[i].table
        && PathLookup(path, name) == Some(path[i].table[name])
        && forall j :: 0 <= j < i ==> name !in path[j].table
    decreases |path|
  {
    if path != [] && name !in path[0].table {
      PathLookupSpec(path[1..], name);
      assert forall i :: 1 <= i < |path| ==> path[i] == path[1..][i - 1];
      if PathLookup(path, name).Some? {
        var i :| 0 <= i < |path[1..]| && name in path[1..][i].table
          && PathLookup(path[1..], name) == Some(path[1..][i].table[name])
          && forall j :: 0 <= j < i ==> name !in path[1..][j].table;
        assert name in path[i + 1].table;
        assert forall j :: 0 <= j < i + 1 ==> name !in path[j].table by {
          forall j | 0 <= j < i + 1 ensures name !in path[j].table {
            if j > 0 { assert path[j] == path[1..][j - 1]; }
          }
        }
      }
    }
  }

  /** `Expr::GetFieldDecl(field, Node*)`: walk up from the node until some scope binds the name. */
  method GetFieldDeclInPath(path: Path, name: string) returns (d: Option<Decl>)
    ensures d == PathLookup(path, name)
  {
    var i := 0;
    while i < |path|
      invariant 0 <= i <= |path|
      invariant PathLookup(path, name) == PathLookup(path[i..], name)
    {
      assert path[i..][1..] == path[i + 1..];
      if name in path[i].table {
        return Some(path[i].table[name]);
      }
      i := i + 1;
    }
    return None;
  }

  /** The scopes seen from a class or interface declaration: its own, then the global one. */
  function DeclPath(env: ClassEnv, d: Decl): Path
  {
    [OwnScope(d), GlobalView(env)]
  }

  /** The measure of a walk positioned at the class named `cur`. */
  function ChainMeasure(env: ClassEnv, cur: Option<string>): nat
    requires Acyclic(env)
  {
    if cur.None? then 0
    else if cur.value in env.decls && env.decls[cur.value].Class? then 2 + Depth(env, env.decls[cur.value])
    else 1
  }

  /**
   * The superclass walk of `Expr::GetFieldDecl(field, Type*)`: a class is
   * searched from its own node, then its superclass; an interface from its
   * own node only; anything else ends the walk.
   */
  function ChainLookup(env: ClassEnv, cur: Option<string>, name: string): Option<Decl>
    requires Acyclic(env)
    decreases ChainMeasure(env, cur)
  {
    if cur.None? || cur.value !in env.decls then None
    else
      var d := env.decls[cur.value];
      if d.Class? then
        var found := PathLookup(DeclPath(env, d), name);
        if found.Some? then found else ChainLookup(env, d.superName, name)
      else if d.Interface? then PathLookup(DeclPath(env, d), name)
      else None
  }

  /** `Expr::GetFieldDecl(field, Type*)`: the walk, then the lexical lookup from the expression. */
  function TypeLookup(env: ClassEnv, t: Type, name: string, path: Path): Option<Decl>
    requires Acyclic(env)
  {
    var found := ChainLookup(env, if t.Named? then Some(t.name) else None, name);
    if found.Some? then found else PathLookup(path, name)
  }

  method GetFieldDeclInType(env: ClassEnv, t: Type, name: string, path: Path) returns (d: Option<Decl>)
    requires Acyclic(env)
    ensures d == TypeLookup(env, t, name, path)
  {
    var cur: Option<string> := if t.Named? then Some(t.name) else None;
    while cur.Some?
      invariant ChainLookup(env, cur, name) == ChainLookup(env, if t.Named? then Some(t.name) else None, name)
      decreases ChainMeasure(env, cur)
    {
      if cur.value !in env.decls {
        cur := None;
      } else {
        var c := env.decls[cur.value];
        if c.Class? {
          var fieldDecl := GetFieldDeclInPath(DeclPath(env, c), name);
          if fieldDecl.Some? {
            return fieldDecl;
          }
          cur := c.superName;
        } else if c.Interface? {
          var fieldDecl := GetFieldDeclInPath(DeclPath(env, c), name);
          if fieldDecl.Some? {
            return fieldDecl;
          }
          cur := None;
        } else {
          cur := None;
        }
      }
    }
    d := GetFieldDeclInPath(path, name);
  }

  /** No class on the chain from `c` up to, but excluding, `a` declares `name`. */
  predicate NotDeclaredBelow(env: ClassEnv, a: Decl, c: Decl, name: string)
    requires Acyclic(env) && c.Class?
    decreases Depth(env, c)
  {
    a == c || (name !in OwnScope(c).table && SuperIsClass(env, c) && NotDeclaredBelow(env, a, Super(env, c), name))
  }

  /**
   * Inherited members are found: when the class bound to `cname` or one of
   * its superclasses `a` declares `name`, no class between them does, and no
   * global declaration has that name, the walk from `cname` yields `a`'s
   * member.
   */
  lemma {:induction false} InheritedMemberFound(env: ClassEnv, a: Decl, cname: string, name: string)
    requires Acyclic(env) && cname in env.decls && env.decls[cname].Class?
    requires NotDeclaredBelow(env, a, env.decls[cname], name)
    requires name in OwnScope(a).table && name !in env.decls
    ensures ChainLookup(env, Some(cname), name) == Some(OwnScope(a).table[name])
    decreases Depth(env, env.decls[cname])
  {
    var c := env.decls[cname];
    if a != c {
      var p := DeclPath(env, c);
      assert p[1..][1..] == [];
      assert PathLookup(p, name) == PathLookup(p[1..], name) == PathLookup(p[1..][1..], name) == None;
      InheritedMemberFound(env, a, c.superName.value, name);
    }
  }

  /** `Expr::GetClassDecl`: the nearest enclosing class, recognised by its scope's class tag. */
  function EnclosingClass(path: Path): Option<Decl>
    decreases |path|
  {
    if path == [] then None
    else if path[0].classDecl.Some? then path[0].classDecl
    else EnclosingClass(path[1..])
  }

  method GetClassDecl(path: Path) returns (c: Option<Decl>)
    ensures c == EnclosingClass(path)
  {
    var i := 0;
    while i < |path|
      invariant 0 <= i <= |path|
      invariant EnclosingClass(path) == EnclosingClass(path[i..])
    {
      assert path[i..][1..] == path[i + 1..];
      if path[i].classDecl.Some? {
        return path[i].classDecl;
      }
      i := i + 1;
    }
    return None;
  }

  /**
   * `Expr::GetFieldDecl(field, base)`: through the base's type when there is
   * a base; otherwise lexically, and failing that through the enclosing
   * class's type.
   */
  function FieldLookup(env: ClassEnv, path: Path, baseType: Option<Type>, name: string): Option<Decl>
    requires Acyclic(env)
  {
    if baseType.Some? then TypeLookup(env, baseType.value, name, path)
    else
      var d := PathLookup(path, name);
      if d.Some? then d
      else match EnclosingClass(path)
        case None => None
        case Some(c) => TypeLookup(env, Named(c.Name()), name, path)
  }

  method GetFieldDecl(env: ClassEnv, path: Path, baseType: Option<Type>, name: string) returns (d: Option<Decl>)
    requires Acyclic(env)
    ensures d == FieldLookup(env, path, baseType, name)
  {
    if baseType.Some? {
      d := GetFieldDeclInType(env, baseType.value, name, path);
      return;
    }
    d := GetFieldDeclInPath(path, name);
    if d.None? {
      var classDecl := GetClassDecl(path);
      if classDecl.Some? {
        d := GetFieldDeclInType(env, Named(classDecl.value.Name()), name, path);
      }
    }
  }
}
