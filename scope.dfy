/**
 * Scopes and the symbol table.
 *
 * A scope maps names to declarations and may be tagged with the class,
 * function or loop it belongs to, so that a search walking up the tree can
 * recognise an enclosing class, function or loop. Inserting a declaration is
 * first-wins: a second declaration of a name in the same scope is reported
 * as a conflict and the first one is kept.
 *
 * Scope construction runs in two phases per construct: register every
 * declaration the construct introduces, then build the scopes of its
 * children.
 */
module Scopes {
  import opened Wrappers
  import opened Errors
  import opened AstType
  import opened AstDecl

  /** Identifies a loop statement. */
  datatype LoopRef = LoopRef(id: nat)

  /** The contents of a scope at one moment: its table and its three tags. */
  datatype ScopeView = ScopeView(
    table: map<string, Decl>,
    classDecl: Option<Decl>,
    loopStmt: Option<LoopRef>,
    fnDecl: Option<FnDecl>)

  const EmptyView: ScopeView := ScopeView(map[], None, None, None)

  /** The effect of adding one declaration to a table: first wins. */
  function AddDeclSpec(table: map<string, Decl>, d: Decl): (r: (map<string, Decl>, seq<Diag>))
    ensures d.Name() in table ==> r == (table, [DeclConflict(d.Name())])
    ensures d.Name() !in table ==> r == (table[d.Name() := d], [])
  {
    if d.Name() in table then (table, [DeclConflict(d.Name())]) else (table[d.Name() := d], [])
  }

  /** Adding the declarations `ds` one after another, in order. */
  function Register(table: map<string, Decl>, ds: seq<Decl>): (map<string, Decl>, seq<Diag>)
    decreases |ds|
  {
    if ds == [] then (table, [])
    else
      var prev := Register(table, ds[..|ds| - 1]);
      var last := AddDeclSpec(prev.0, ds[|ds| - 1]);
      (last.0, prev.1 + last.1)
  }

  /** The names a sequence of declarations introduces. */
  function Names(ds: seq<Decl>): set<string>
  {
    set i | 0 <= i < |ds| :: ds[i].Name()
  }

  /** `ds[i]` is the first declaration of its name in `ds`. */
  predicate FirstOfName(ds: seq<Decl>, i: int)
  {
    0 <= i < |ds| && forall j :: 0 <= j < i ==> ds[j].Name() != ds[i].Name()
  }

  lemma {:induction false} RegisterAppend(t: map<string, Decl>, a: seq<Decl>, b: seq<Decl>)
    ensures Register(t, a + b).0 == Register(Register(t, a).0, b).0
    ensures Register(t, a + b).1 == Register(t, a).1 + Register(Register(t, a).0, b).1
    decreases |b|
  {
    if b == [] {
      assert a + b == a;
    } else {
      var b' := b[..|b| - 1];
      assert (a + b)[..|a + b| - 1] == a + b';
      assert (a + b)[|a + b| - 1] == b[|b| - 1];
      RegisterAppend(t, a, b');
    }
  }

  lemma NamesSnoc(ds: seq<Decl>)
    requires ds != []
    ensures Names(ds) == Names(ds[..|ds| - 1]) + {ds[|ds| - 1].Name()}
  {
    var ds' := ds[..|ds| - 1];
    forall n | n in Names(ds) ensures n in Names(ds') + {ds[|ds| - 1].Name()} {
      var i :| 0 <= i < |ds| && ds[i].Name() == n;
      if i < |ds| - 1 { assert ds'[i] == ds[i]; }
    }
    forall n | n in Names(ds') ensures n in Names(ds) {
      var i :| 0 <= i < |ds'| && ds'[i].Name() == n;
      assert ds[i] == ds'[i];
    }
  }

  /** Registering gains exactly the declared names and never replaces an existing entry. */
  lemma {:induction false} RegisterKeys(t: map<string, Decl>, ds: seq<Decl>)
    ensures Register(t, ds).0.Keys == t.Keys + Names(ds)
    ensures forall n :: n in t ==> Register(t, ds).0[n] == t[n]
    decreases |ds|
  {
    if ds != [] {
      RegisterKeys(t, ds[..|ds| - 1]);
      NamesSnoc(ds);
    }
  }

  /** A new name is bound to the first declaration of that name. */
  lemma {:induction false} RegisterFirstWins(t: map<string, Decl>, ds: seq<Decl>, i: int)
    requires FirstOfName(ds, i) && ds[i].Name() !in t
    ensures ds[i].Name() in Register(t, ds).0 && Register(t, ds).0[ds[i].Name()] == ds[i]
    decreases |ds|
  {
    var ds' := ds[..|ds| - 1];
    RegisterKeys(t, ds');
    if i < |ds| - 1 {
      assert FirstOfName(ds', i) && ds'[i] == ds[i];
      RegisterFirstWins(t, ds', i);
    } else {
      assert forall j :: 0 <= j < |ds'| ==> ds'[j].Name() != ds[i].Name();
    }
  }

  /**
   * Every declaration either adds a new name or is reported once, and every
   * report is a declaration conflict.
   */
  lemma {:induction false} RegisterReports(t: map<string, Decl>, ds: seq<Decl>)
    ensures |Register(t, ds).1| + |Register(t, ds).0.Keys - t.Keys| == |ds|
    ensures forall k :: 0 <= k < |Register(t, ds).1| ==> Register(t, ds).1[k].DeclConflict?
    decreases |ds|
  {
    if ds != [] {
      var ds' := ds[..|ds| - 1];
      var d := ds[|ds| - 1];
      RegisterReports(t, ds');
      RegisterKeys(t, ds');
      var prev := Register(t, ds');
      if d.Name() !in prev.0 {
        NewKeyCount(t, prev.0, d);
      }
    }
  }

  lemma NewKeyCount(t: map<string, Decl>, m: map<string, Decl>, d: Decl)
    requires t.Keys <= m.Keys && d.Name() !in m
    ensures |m[d.Name() := d].Keys - t.Keys| == |m.Keys - t.Keys| + 1
  {
    var n := d.Name();
    assert m[n := d].Keys - t.Keys == (m.Keys - t.Keys) + {n};
  }

  /** A scope owned by a class, a function, a statement or the program. */
  class Scope {
    var parent: Scope?
    var table: map<string, Decl>
    var classDecl: Option<Decl>
    var loopStmt: Option<LoopRef>
    var fnDecl: Option<FnDecl>

    /** An empty table and no tags; the source leaves `parent` unset, the model starts it null. */
    constructor ()
      ensures View() == EmptyView && parent == null
    {
      parent, table, classDecl, loopStmt, fnDecl := null, map[], None, None, None;
    }

    function View(): ScopeView
      reads this
    {
      ScopeView(table, classDecl, loopStmt, fnDecl)
    }

    method SetParent(p: Scope?)
      modifies this
      ensures parent == p && View() == old(View())
    {
      parent := p;
    }

    function GetParent(): (p: Scope?)
      reads this
      ensures p == parent
    {
      parent
    }

    method SetClassDecl(d: Decl)
      modifies this
      ensures classDecl == Some(d)
      ensures table == old(table) && loopStmt == old(loopStmt) && fnDecl == old(fnDecl) && parent == old(parent)
    {
      classDecl := Some(d);
    }

    function GetClassDecl(): (d: Option<Decl>)
      reads this
      ensures d == classDecl
    {
      classDecl
    }

    method SetLoopStmt(l: LoopRef)
      modifies this
      ensures loopStmt == Some(l)
      ensures table == old(table) && classDecl == old(classDecl) && fnDecl == old(fnDecl) && parent == old(parent)
    {
      loopStmt := Some(l);
    }

    function GetLoopStmt(): (l: Option<LoopRef>)
      reads this
      ensures l == loopStmt
    {
      loopStmt
    }

    method SetFnDecl(f: FnDecl)
      modifies this
      ensures fnDecl == Some(f)
      ensures table == old(table) && classDecl == old(classDecl) && loopStmt == old(loopStmt) && parent == old(parent)
    {
      fnDecl := Some(f);
    }

    function GetFnDecl(): (f: Option<FnDecl>)
      reads this
      ensures f == fnDecl
    {
      fnDecl
    }

    /**
     * Adds `d` unless its name is already bound here: returns 0 after
     * inserting, or 1 with one conflict report and the table unchanged.
     */
    method AddDecl(d: Decl) returns (status: int, diags: seq<Diag>)
      modifies this
      ensures d.Name() in old(table) ==>
        status == 1 && table == old(table) && diags == [DeclConflict(d.Name())]
      ensures d.Name() !in old(table) ==>
        status == 0 && table == old(table)[d.Name() := d] && diags == []
      ensures classDecl == old(classDecl) && loopStmt == old(loopStmt)
      ensures fnDecl == old(fnDecl) && parent == old(parent)
    {
      if d.Name() in table {
        status, diags := 1, [DeclConflict(d.Name())];
        return;
      }
      table := table[d.Name() := d];
      status, diags := 0, [];
    }

    /** Adds every declaration of `ds` in order, collecting the conflicts. */
    method AddAll(ds: seq<Decl>) returns (diags: seq<Diag>)
      modifies this
      ensures (table, diags) == Register(old(table), ds)
      ensures classDecl == old(classDecl) && loopStmt == old(loopStmt)
      ensures fnDecl == old(fnDecl) && parent == old(parent)
    {
      diags := [];
      var i := 0;
      while i < |ds|
        invariant 0 <= i <= |ds|
        invariant (table, diags) == Register(old(table), ds[..i])
        invariant classDecl == old(classDecl) && loopStmt == old(loopStmt)
        invariant fnDecl == old(fnDecl) && parent == old(parent)
      {
        assert ds[..i + 1][..i] == ds[..i];
        var _, d := AddDecl(ds[i]);
        diags := diags + d;
        i := i + 1;
      }
      assert ds[..i] == ds;
    }
  }

  /** The formal parameters of a function, as declarations. */
  function FormalDecls(f: FnDecl): (ds: seq<Decl>)
    ensures |ds| == |f.formals|
    ensures forall i :: 0 <= i < |ds| ==> ds[i] == Var(f.formals[i])
  {
    seq(|f.formals|, i requires 0 <= i < |f.formals| => Var(f.formals[i]))
  }

  /** A block's variables, as declarations, in order. */
  function VarDecls(vs: seq<VarDecl>): (ds: seq<Decl>)
    ensures |ds| == |vs| && forall i :: 0 <= i < |vs| ==> ds[i] == Var(vs[i])
  {
    seq(|vs|, i requires 0 <= i < |vs| => Var(vs[i]))
  }

  /** The scope a declaration owns once built: its table and its tag. */
  function OwnScope(d: Decl): ScopeView
  {
    match d
    case Var(_) => EmptyView
    case Fn(f) => ScopeView(Register(map[], FormalDecls(f)).0, None, None, Some(f))
    case Class(_, _, _, members) => ScopeView(Register(map[], [d] + members).0, Some(d), None, None)
    case Interface(_, members) => ScopeView(Register(map[], members).0, None, None, None)
  }

  /**
   * The conflicts reported while building a block's scope: its variables,
   * registered in its own scope, then the blocks nested in its statements,
   * each in its own scope.
   */
  function BlockBuildDiags(b: BlockTree): seq<Diag>
    decreases b, 1
  {
    Register(map[], VarDecls(b.decls)).1 + NestedBuildDiags(b, |b.nested|)
  }

  /** The conflicts of building the first `n` blocks nested in `b`, in order. */
  function NestedBuildDiags(b: BlockTree, n: nat): seq<Diag>
    requires n <= |b.nested|
    decreases b, 0, n
  {
    if n == 0 then [] else NestedBuildDiags(b, n - 1) + BlockBuildDiags(b.nested[n - 1])
  }

  /** Every report of building a block and the blocks inside it is a declaration conflict. */
  lemma {:induction false} BlockBuildReports(b: BlockTree)
    ensures forall k :: 0 <= k < |BlockBuildDiags(b)| ==> BlockBuildDiags(b)[k].DeclConflict?
    decreases b, 1
  {
    RegisterReports(map[], VarDecls(b.decls));
    NestedBuildReports(b, |b.nested|);
  }

  lemma {:induction false} NestedBuildReports(b: BlockTree, n: nat)
    requires n <= |b.nested|
    ensures forall k :: 0 <= k < |NestedBuildDiags(b, n)| ==> NestedBuildDiags(b, n)[k].DeclConflict?
    decreases b, 0, n
  {
    if n > 0 {
      NestedBuildReports(b, n - 1);
      BlockBuildReports(b.nested[n - 1]);
    }
  }

  /** The conflicts of building a function's scope: its formals, then its body's blocks. */
  function FnBuildDiags(f: FnDecl): seq<Diag>
  {
    Register(map[], FormalDecls(f)).1 + (if f.body.Some? then BlockBuildDiags(f.body.value) else [])
  }

  /**
   * The conflicts reported while building the scopes of the members of a
   * class or interface (members are variables and functions; only a
   * function owns a scope, filled with its formals, and has a body).
   */
  function MemberBuildDiags(members: seq<Decl>): seq<Diag>
    decreases |members|
  {
    if members == [] then []
    else
      var m := members[|members| - 1];
      MemberBuildDiags(members[..|members| - 1])
        + (if m.Fn? then FnBuildDiags(m.f) else [])
  }

  /** The conflicts reported while building a declaration's own scope and its members'. */
  function BuildDiags(d: Decl): seq<Diag>
  {
    match d
    case Var(_) => []
    case Fn(f) => FnBuildDiags(f)
    case Class(_, _, _, members) => Register(map[], [d] + members).1 + MemberBuildDiags(members)
    case Interface(_, members) => Register(map[], members).1 + MemberBuildDiags(members)
  }

  /** The conflicts of building every top-level declaration's scope, in order. */
  function ChildBuildDiags(ds: seq<Decl>): seq<Diag>
    decreases |ds|
  {
    if ds == [] then [] else ChildBuildDiags(ds[..|ds| - 1]) + BuildDiags(ds[|ds| - 1])
  }

  lemma ChildBuildDiagsSnoc(ds: seq<Decl>, i: nat)
    requires i < |ds|
    ensures ChildBuildDiags(ds[..i + 1]) == ChildBuildDiags(ds[..i]) + BuildDiags(ds[i])
  {
    assert ds[..i + 1][..i] == ds[..i];
  }

  /**
   * `StmtBlock::BuildScope`: the block's variables are registered in its own
   * scope, then the scope of every block nested in its statements is built,
   * each in a fresh scope.
   */
  method BuildBlockScope(b: BlockTree, s: Scope) returns (diags: seq<Diag>)
    requires s.View() == EmptyView
    modifies s
    ensures s.View() == ScopeView(Register(map[], VarDecls(b.decls)).0, None, None, None) && s.parent == old(s.parent)
    ensures diags == BlockBuildDiags(b)
    decreases b
  {
    diags := s.AddAll(VarDecls(b.decls));
    ghost var own := diags;
    var i := 0;
    while i < |b.nested|
      invariant 0 <= i <= |b.nested|
      invariant diags == own + NestedBuildDiags(b, i)
      invariant s.View() == ScopeView(Register(map[], VarDecls(b.decls)).0, None, None, None) && s.parent == old(s.parent)
    {
      var inner := new Scope();
      var d := BuildBlockScope(b.nested[i], inner);
      diags := diags + d;
      i := i + 1;
    }
  }

  /** `FnDecl::BuildScope`: tagged with the function, its formals registered, then its body's scopes built. */
  method BuildFnScope(f: FnDecl, s: Scope) returns (diags: seq<Diag>)
    requires s.View() == EmptyView
    modifies s
    ensures s.View() == OwnScope(Fn(f)) && s.parent == old(s.parent)
    ensures diags == BuildDiags(Fn(f))
  {
    s.SetFnDecl(f);
    diags := s.AddAll(FormalDecls(f));
    if f.body.Some? {
      var bodyScope := new Scope();
      var d := BuildBlockScope(f.body.value, bodyScope);
      diags := diags + d;
    }
  }

  /** Builds the scope of every function among `members`, each in a fresh scope. */
  method BuildMemberScopes(members: seq<Decl>) returns (diags: seq<Diag>)
    ensures diags == MemberBuildDiags(members)
  {
    diags := [];
    var i := 0;
    while i < |members|
      invariant 0 <= i <= |members|
      invariant diags == MemberBuildDiags(members[..i])
    {
      assert members[..i + 1][..i] == members[..i];
      var m := members[i];
      if m.Fn? {
        var ms := new Scope();
        var d := BuildFnScope(m.f, ms);
        diags := diags + d;
      }
      i := i + 1;
    }
    assert members[..i] == members;
  }

  /**
   * A declaration's own scope: a class tags it, registers itself and then its
   * members; an interface registers its members; a function tags it and
   * registers its formals. Then the members' scopes are built.
   */
  method BuildDeclScope(d: Decl, s: Scope) returns (diags: seq<Diag>)
    requires s.View() == EmptyView
    modifies s
    ensures s.View() == OwnScope(d) && s.parent == old(s.parent)
    ensures diags == BuildDiags(d)
  {
    match d
    case Var(_) =>
      diags := [];
    case Fn(f) =>
      diags := BuildFnScope(f, s);
    case Class(_, _, _, members) =>
      s.SetClassDecl(d);
      var _, d0 := s.AddDecl(d);
      var d1 := s.AddAll(members);
      RegisterAppend(map[], [d], members);
      assert Register(map[], [d]) == Register(map[], [] + [d]);
      assert [d][..0] == [];
      var d2 := BuildMemberScopes(members);
      diags := d0 + d1 + d2;
    case Interface(_, members) =>
      var d1 := s.AddAll(members);
      var d2 := BuildMemberScopes(members);
      diags := d1 + d2;
  }

  /**
   * The program's scope construction: every top-level declaration is
   * registered in the global scope before any declaration's own scope is
   * built, so the global conflicts come first.
   */
  method ProgramBuildScope(gScope: Scope, decls: seq<Decl>) returns (diags: seq<Diag>)
    modifies gScope
    ensures gScope.table == Register(old(gScope.table), decls).0
    ensures diags == Register(old(gScope.table), decls).1 + ChildBuildDiags(decls)
    ensures gScope.classDecl == old(gScope.classDecl) && gScope.loopStmt == old(gScope.loopStmt)
    ensures gScope.fnDecl == old(gScope.fnDecl)
  {
    var registered := gScope.AddAll(decls);
    var children := BuildChildScopes(decls);
    diags := registered + children;
  }

  /** Each declaration's own scope, built in a fresh scope object, in order. */
  method BuildChildScopes(decls: seq<Decl>) returns (diags: seq<Diag>)
    ensures diags == ChildBuildDiags(decls)
  {
    diags := [];
    var i := 0;
    while i < |decls|
      invariant 0 <= i <= |decls|
      invariant diags == ChildBuildDiags(decls[..i])
    {
      ChildBuildDiagsSnoc(decls, i);
      var s := new Scope();
      var d := BuildDeclScope(decls[i], s);
      diags := diags + d;
      i := i + 1;
    }
    assert decls[..i] == decls;
  }
}
