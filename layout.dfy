/**
 * Object and vtable layout.
 *
 * An object is a vtable address followed by the fields of every class up
 * the superclass chain, the superclass's first; a vtable is one slot per
 * method, the superclass's slots first. Superclasses are looked up by name
 * in the global scope, whose table is `ClassEnv.decls` here. The hierarchy
 * is acyclic, which `ClassEnv.rank` witnesses: a class's superclass has a
 * smaller rank.
 */
module Layout {
  import opened Wrappers
  import opened CodeGen
  import opened AstType
  import opened AstDecl

  datatype ClassEnv = ClassEnv(decls: map<string, Decl>, rank: map<string, nat>)

  /** Class members are variables and functions only, as the grammar builds them. */
  predicate ValidMembers(ms: seq<Decl>)
  {
    forall i :: 0 <= i < |ms| ==> ms[i].Var? || ms[i].Fn?
  }

  /** The superclass name, when there is one, is bound in the global scope. */
  predicate SuperBound(env: ClassEnv, c: Decl)
    requires c.Class?
  {
    c.superName.Some? ==> c.superName.value in env.decls
  }

  /** `n` names a class in the global scope. */
  predicate IsClassName(env: ClassEnv, n: string)
  {
    n in env.decls && env.decls[n].Class?
  }

  /** `c` is a class whose superclass name names a class. */
  predicate SuperIsClass(env: ClassEnv, c: Decl)
  {
    c.Class? && c.superName.Some? && IsClassName(env, c.superName.value)
  }

  /**
   * The same for the declaration bound to `n`, spelled out so that the
   * quantifiers below do not walk up the superclass chain on their own.
   */
  predicate NamedSuperIsClass(env: ClassEnv, n: string)
    requires n in env.decls
  {
    var c := env.decls[n];
    c.Class? && c.superName.Some? && c.superName.value in env.decls && env.decls[c.superName.value].Class?
  }

  /** Every class of the global scope has a rank above its superclass's. */
  predicate Acyclic(env: ClassEnv)
  {
    forall n {:trigger IsClassName(env, n)} :: n in env.decls && IsClassName(env, n) ==>
      && n in env.rank
      && (NamedSuperIsClass(env, n) ==>
            env.decls[n].superName.value in env.rank
            && env.rank[env.decls[n].superName.value] < env.rank[n])
  }

  /**
   * The hierarchy is acyclic, and every class of the global scope has member
   * variables and functions only and a bound superclass name.
   */
  predicate WellFormed(env: ClassEnv)
  {
    && Acyclic(env)
    && forall n {:trigger IsClassName(env, n)} :: n in env.decls && IsClassName(env, n) ==>
      ValidMembers(env.decls[n].members) && SuperBound(env, env.decls[n])
  }

  /** What sizing a class needs: the environment and the class itself well-formed. */
  predicate Layoutable(env: ClassEnv, c: Decl)
  {
    WellFormed(env) && c.Class? && ValidMembers(c.members) && SuperBound(env, c)
  }

  /** A class whose superclass chain consists of classes only. */
  predicate Resolved(env: ClassEnv)
  {
    WellFormed(env)
    && forall n {:trigger IsClassName(env, n)} :: n in env.decls && IsClassName(env, n) && env.decls[n].superName.Some? ==>
      NamedSuperIsClass(env, n)
  }

  predicate ResolvedClass(env: ClassEnv, c: Decl)
  {
    Resolved(env) && Layoutable(env, c) && (c.superName.Some? ==> SuperIsClass(env, c))
  }

  function Super(env: ClassEnv, c: Decl): (s: Decl)
    requires c.Class? && c.superName.Some? && c.superName.value in env.decls
  {
    env.decls[c.superName.value]
  }

  /** How far up the superclass chain goes, bounded by the ranks. */
  function Depth(env: ClassEnv, c: Decl): nat
    requires Acyclic(env) && c.Class?
  {
    if SuperIsClass(env, c) then 1 + env.rank[c.superName.value] else 0
  }

  /** The number of variables among `ms`. */
  function CountVars(ms: seq<Decl>): nat
    decreases |ms|
  {
    if ms == [] then 0 else CountVars(ms[..|ms| - 1]) + (if ms[|ms| - 1].Var? then 1 else 0)
  }

  /** The functions among `ms`, in order. */
  function Methods(ms: seq<Decl>): (r: seq<FnDecl>)
    ensures |r| <= |ms|
    decreases |ms|
  {
    if ms == [] then [] else Methods(ms[..|ms| - 1]) + (if ms[|ms| - 1].Fn? then [ms[|ms| - 1].f] else [])
  }

  lemma CountVarsStep(ms: seq<Decl>, i: int)
    requires 0 <= i < |ms|
    ensures CountVars(ms[..i + 1]) == CountVars(ms[..i]) + (if ms[i].Var? then 1 else 0)
    ensures Methods(ms[..i + 1]) == Methods(ms[..i]) + (if ms[i].Fn? then [ms[i].f] else [])
  {
    assert ms[..i + 1][..i] == ms[..i];
  }

  lemma {:induction false} CountVarsMonotone(ms: seq<Decl>, i: int, j: int)
    requires 0 <= i <= j <= |ms|
    ensures CountVars(ms[..i]) <= CountVars(ms[..j])
    ensures |Methods(ms[..i])| <= |Methods(ms[..j])|
    decreases j - i
  {
    if i < j {
      CountVarsStep(ms, j - 1);
      CountVarsMonotone(ms, i, j - 1);
    }
  }

  /** Bytes a superclass contributes, whatever kind of declaration its name is bound to. */
  function SuperMemBytes(env: ClassEnv, c: Decl): (r: int)
    requires Layoutable(env, c)
    ensures r >= 0
    decreases Depth(env, c), 0
  {
    if c.superName.None? then 0
    else
      var d := Super(env, c);
      if SuperIsClass(env, c) then ClassMemBytes(env, d) else DeclMemBytes(d)
  }

  /** Bytes of a class's fields, its superclass's included (the vtable word excluded). */
  function ClassMemBytes(env: ClassEnv, c: Decl): (r: int)
    requires Layoutable(env, c)
    ensures r >= 0
    decreases Depth(env, c), 1
  {
    SuperMemBytes(env, c) + VarSize * CountVars(c.members)
  }

  function SuperVTblBytes(env: ClassEnv, c: Decl): (r: int)
    requires Layoutable(env, c)
    ensures r >= 0
    decreases Depth(env, c), 0
  {
    if c.superName.None? then 0
    else
      var d := Super(env, c);
      if SuperIsClass(env, c) then ClassVTblBytes(env, d) else DeclVTblBytes(d)
  }

  /** Bytes of a class's vtable: a slot per method, its superclass's included. */
  function ClassVTblBytes(env: ClassEnv, c: Decl): (r: int)
    requires Layoutable(env, c)
    ensures r >= 0
    decreases Depth(env, c), 1
  {
    SuperVTblBytes(env, c) + VarSize * |Methods(c.members)|
  }

  /** Bytes one member contributes to an object. */
  function MemberMemBytes(m: Decl): (r: int)
    requires m.Var? || m.Fn?
    ensures r == if m.Var? then VarSize else 0
  {
    DeclMemBytes(m)
  }

  /** `ClassDecl::GetMemBytes`: the superclass's bytes plus the sum over the members. */
  method GetMemBytes(env: ClassEnv, c: Decl) returns (bytes: int)
    requires Layoutable(env, c)
    ensures bytes == ClassMemBytes(env, c)
    decreases Depth(env, c)
  {
    bytes := 0;
    if c.superName.Some? {
      var d := env.decls[c.superName.value];
      var sb: int;
      if d.Class? {
        sb := GetMemBytes(env, d);
      } else {
        sb := DeclMemBytes(d);
      }
      bytes := bytes + sb;
    }
    var i := 0;
    while i < |c.members|
      invariant 0 <= i <= |c.members|
      invariant bytes == SuperMemBytes(env, c) + VarSize * CountVars(c.members[..i])
    {
      CountVarsStep(c.members, i);
      bytes := bytes + DeclMemBytes(c.members[i]);
      i := i + 1;
    }
    assert c.members[..i] == c.members;
  }

  /** `ClassDecl::GetVTblBytes`: the superclass's vtable bytes plus the sum over the members. */
  method GetVTblBytes(env: ClassEnv, c: Decl) returns (bytes: int)
    requires Layoutable(env, c)
    ensures bytes == ClassVTblBytes(env, c)
    decreases Depth(env, c)
  {
    bytes := 0;
    if c.superName.Some? {
      var d := env.decls[c.superName.value];
      var sb: int;
      if d.Class? {
        sb := GetVTblBytes(env, d);
      } else {
        sb := DeclVTblBytes(d);
      }
      bytes := bytes + sb;
    }
    var i := 0;
    while i < |c.members|
      invariant 0 <= i <= |c.members|
      invariant bytes == SuperVTblBytes(env, c) + VarSize * |Methods(c.members[..i])|
    {
      CountVarsStep(c.members, i);
      bytes := bytes + DeclVTblBytes(c.members[i]);
      i := i + 1;
    }
    assert c.members[..i] == c.members;
  }

  /** The offset PreEmit gives the member variable at position `i`. */
  function FieldOffset(env: ClassEnv, c: Decl, i: int): int
    requires Layoutable(env, c) && 0 <= i <= |c.members|
  {
    OffsetToFirstField + SuperMemBytes(env, c) + VarSize * CountVars(c.members[..i])
  }

  /** The vtable offset PreEmit gives the member function at position `i`. */
  function MethodOffset(env: ClassEnv, c: Decl, i: int): int
    requires Layoutable(env, c) && 0 <= i <= |c.members|
  {
    OffsetToFirstMethod + SuperVTblBytes(env, c) + VarSize * |Methods(c.members[..i])|
  }

  /** No two member variables share a slot record, nor do two member functions. */
  predicate DistinctSlots(ms: seq<Decl>)
  {
    && (forall i, j :: 0 <= i < j < |ms| && ms[i].Var? && ms[j].Var? ==> ms[i].v.slot != ms[j].v.slot)
    && (forall i, j :: 0 <= i < j < |ms| && ms[i].Fn? && ms[j].Fn? ==> ms[i].f.slot != ms[j].f.slot)
  }

  function VarSlots(ms: seq<Decl>): set<VarSlot>
  {
    set i | 0 <= i < |ms| && ms[i].Var? :: ms[i].v.slot
  }

  function FnSlots(ms: seq<Decl>): set<FnSlot>
  {
    set i | 0 <= i < |ms| && ms[i].Fn? :: ms[i].f.slot
  }

  /** PreEmit's first loop: member variables get consecutive slots from `base`. */
  method NumberFields(ms: seq<Decl>, base: int)
    requires DistinctSlots(ms)
    modifies VarSlots(ms)
    ensures forall i :: 0 <= i < |ms| && ms[i].Var? ==>
      ms[i].v.slot.memOffset == base + VarSize * CountVars(ms[..i])
    ensures forall s :: s in VarSlots(ms) ==> s.memLoc == old(s.memLoc)
  {
    var memOffset := base;
    var i := 0;
    while i < |ms|
      invariant 0 <= i <= |ms|
      invariant memOffset == base + VarSize * CountVars(ms[..i])
      invariant forall j :: 0 <= j < i && ms[j].Var? ==> ms[j].v.slot.memOffset == base + VarSize * CountVars(ms[..j])
      invariant forall s :: s in VarSlots(ms) ==> s.memLoc == old(s.memLoc)
    {
      CountVarsStep(ms, i);
      if ms[i].Var? {
        ms[i].v.slot.SetMemOffset(memOffset);
        memOffset := memOffset + VarSize;
      }
      i := i + 1;
    }
  }

  /** PreEmit's second loop: member functions become methods with consecutive vtable slots from `base`. */
  method NumberMethods(ms: seq<Decl>, base: int)
    requires DistinctSlots(ms)
    modifies FnSlots(ms)
    ensures forall i :: 0 <= i < |ms| && ms[i].Fn? ==>
      ms[i].f.slot.isMethod && ms[i].f.slot.vtlOffset == base + VarSize * |Methods(ms[..i])|
    ensures forall s :: s in FnSlots(ms) ==> s.fnLabel == old(s.fnLabel)
  {
    var vtblOffset := base;
    var i := 0;
    while i < |ms|
      invariant 0 <= i <= |ms|
      invariant vtblOffset == base + VarSize * |Methods(ms[..i])|
      invariant forall j :: 0 <= j < i && ms[j].Fn? ==>
        ms[j].f.slot.isMethod && ms[j].f.slot.vtlOffset == base + VarSize * |Methods(ms[..j])|
      invariant forall s :: s in FnSlots(ms) ==> s.fnLabel == old(s.fnLabel)
    {
      CountVarsStep(ms, i);
      if ms[i].Fn? {
        ms[i].f.slot.SetIsMethod(true);
        ms[i].f.slot.SetVTblOffset(vtblOffset);
        vtblOffset := vtblOffset + VarSize;
      }
      i := i + 1;
    }
  }

  /** PreEmit's third loop: every member function's label gets `prefix` in front. */
  method PrefixLabels(ms: seq<Decl>, prefix: string)
    requires DistinctSlots(ms)
    modifies FnSlots(ms)
    ensures forall i :: 0 <= i < |ms| && ms[i].Fn? ==> ms[i].f.slot.fnLabel == prefix + old(ms[i].f.slot.fnLabel)
    ensures forall s :: s in FnSlots(ms) ==> s.vtlOffset == old(s.vtlOffset) && s.isMethod == old(s.isMethod)
  {
    var i := 0;
    while i < |ms|
      invariant 0 <= i <= |ms|
      invariant forall j :: 0 <= j < i && ms[j].Fn? ==> ms[j].f.slot.fnLabel == prefix + old(ms[j].f.slot.fnLabel)
      invariant forall j :: i <= j < |ms| && ms[j].Fn? ==> ms[j].f.slot.fnLabel == old(ms[j].f.slot.fnLabel)
      invariant forall s :: s in FnSlots(ms) ==> s.vtlOffset == old(s.vtlOffset) && s.isMethod == old(s.isMethod)
    {
      if ms[i].Fn? {
        ms[i].f.slot.AddLabelPrefix(prefix);
      }
      i := i + 1;
    }
  }

  /**
   * `ClassDecl::PreEmit`: numbers the member variables from the end of the
   * superclass's fields and the member functions from the end of the
   * superclass's vtable, marks the functions as methods and prefixes their
   * labels with the class name and a dot.
   */
  method PreEmit(env: ClassEnv, c: Decl)
    requires Layoutable(env, c) && DistinctSlots(c.members)
    modifies VarSlots(c.members), FnSlots(c.members)
    ensures forall i :: 0 <= i < |c.members| && c.members[i].Var? ==>
      c.members[i].v.slot.memOffset == FieldOffset(env, c, i)
      && c.members[i].v.slot.memLoc == old(c.members[i].v.slot.memLoc)
    ensures forall i :: 0 <= i < |c.members| && c.members[i].Fn? ==>
      && c.members[i].f.slot.isMethod
      && c.members[i].f.slot.vtlOffset == MethodOffset(env, c, i)
      && c.members[i].f.slot.fnLabel == c.className + "." + old(c.members[i].f.slot.fnLabel)
  {
    var memOffset := OffsetToFirstField;
    var vtblOffset := OffsetToFirstMethod;
    if c.superName.Some? {
      var d := env.decls[c.superName.value];
      var mb: int, vb: int;
      if d.Class? {
        assert IsClassName(env, c.superName.value);
        mb := GetMemBytes(env, d);
        vb := GetVTblBytes(env, d);
      } else {
        mb, vb := DeclMemBytes(d), DeclVTblBytes(d);
      }
      memOffset := memOffset + mb;
      vtblOffset := vtblOffset + vb;
    }
    NumberFields(c.members, memOffset);
    NumberMethods(c.members, vtblOffset);
    PrefixLabels(c.members, c.className + ".");
  }

  /** Counting variables strictly increases past a variable. */
  lemma CountVarsPastVar(ms: seq<Decl>, i: int, j: int)
    requires 0 <= i < j <= |ms| && ms[i].Var?
    ensures CountVars(ms[..i]) < CountVars(ms[..j])
    ensures CountVars(ms[..j]) <= CountVars(ms)
  {
    CountVarsStep(ms, i);
    CountVarsMonotone(ms, i + 1, j);
    CountVarsMonotone(ms, j, |ms|);
    assert ms[..|ms|] == ms;
  }

  lemma MethodsPastFn(ms: seq<Decl>, i: int, j: int)
    requires 0 <= i < j <= |ms| && ms[i].Fn?
    ensures |Methods(ms[..i])| < |Methods(ms[..j])|
    ensures |Methods(ms[..j])| <= |Methods(ms)|
  {
    CountVarsStep(ms, i);
    CountVarsMonotone(ms, i + 1, j);
    CountVarsMonotone(ms, j, |ms|);
    assert ms[..|ms|] == ms;
  }

  /**
   * Every field PreEmit places lies after the superclass's fields and inside
   * the object `NewExpr` allocates (a vtable word plus `ClassMemBytes`), and
   * two distinct fields never overlap.
   */
  lemma FieldsFitInObject(env: ClassEnv, c: Decl, i: int)
    requires Layoutable(env, c) && 0 <= i < |c.members| && c.members[i].Var?
    ensures OffsetToFirstField + SuperMemBytes(env, c) <= FieldOffset(env, c, i)
    ensures FieldOffset(env, c, i) + VarSize <= VarSize + ClassMemBytes(env, c)
    ensures forall j :: i < j < |c.members| && c.members[j].Var? ==>
      FieldOffset(env, c, i) + VarSize <= FieldOffset(env, c, j)
  {
    CountVarsPastVar(c.members, i, i + 1);
    forall j | i < j < |c.members| && c.members[j].Var?
      ensures FieldOffset(env, c, i) + VarSize <= FieldOffset(env, c, j)
    {
      CountVarsPastVar(c.members, i, j);
    }
  }

  /**
   * Every method slot PreEmit assigns lies after the superclass's slots and
   * inside the class's vtable, and two member functions never share a slot.
   */
  lemma MethodsFitInVTable(env: ClassEnv, c: Decl, i: int)
    requires Layoutable(env, c) && 0 <= i < |c.members| && c.members[i].Fn?
    ensures OffsetToFirstMethod + SuperVTblBytes(env, c) <= MethodOffset(env, c, i)
    ensures MethodOffset(env, c, i) + VarSize <= ClassVTblBytes(env, c)
    ensures forall j :: i < j < |c.members| && c.members[j].Fn? ==>
      MethodOffset(env, c, i) + VarSize <= MethodOffset(env, c, j)
  {
    MethodsPastFn(c.members, i, i + 1);
    forall j | i < j < |c.members| && c.members[j].Fn?
      ensures MethodOffset(env, c, i) + VarSize <= MethodOffset(env, c, j)
    {
      MethodsPastFn(c.members, i, j);
    }
  }

  /** The last of `own` named `n`, or `dflt` when none is. */
  function LastNamed(own: seq<FnDecl>, n: string, dflt: FnDecl): (r: FnDecl)
    ensures r == dflt || (r in own && r.name == n)
    decreases |own|
  {
    if own == [] then dflt
    else if own[|own| - 1].name == n then own[|own| - 1]
    else LastNamed(own[..|own| - 1], n, dflt)
  }

  /** Each inherited slot taken over by the last own method of the same name, if any. */
  function Overridden(inherited: seq<FnDecl>, own: seq<FnDecl>): (r: seq<FnDecl>)
    ensures |r| == |inherited|
    ensures forall j :: 0 <= j < |r| ==> r[j].name == inherited[j].name
  {
    seq(|inherited|, j requires 0 <= j < |inherited| => LastNamed(own, inherited[j].name, inherited[j]))
  }

  /**
   * A class's vtable: the superclass's table with overridden slots replaced,
   * followed by every own method (an overriding method thus appears twice).
   */
  function MethodTable(env: ClassEnv, c: Decl): seq<FnDecl>
    requires ResolvedClass(env, c)
    decreases Depth(env, c)
  {
    var inherited := if c.superName.Some? then MethodTable(env, Super(env, c)) else [];
    Overridden(inherited, Methods(c.members)) + Methods(c.members)
  }

  function Inherited(env: ClassEnv, c: Decl): seq<FnDecl>
    requires ResolvedClass(env, c)
  {
    if c.superName.Some? then MethodTable(env, Super(env, c)) else []
  }

  /** One own method's pass over the table: every slot of its name now holds it. */
  lemma OverriddenStep(inherited: seq<FnDecl>, own: seq<FnDecl>, d: FnDecl, j: int)
    requires 0 <= j < |inherited|
    ensures Overridden(inherited, own + [d])[j] ==
      (if Overridden(inherited, own)[j].name == d.name then d else Overridden(inherited, own)[j])
  {
    assert (own + [d])[..|own + [d]| - 1] == own;
  }

  /** The inner replacement loop: every slot named like `d` now holds `d`. */
  method ReplaceNamed(before: seq<FnDecl>, d: FnDecl) returns (decls: seq<FnDecl>)
    ensures |decls| == |before|
    ensures forall k :: 0 <= k < |decls| ==> decls[k] == (if before[k].name == d.name then d else before[k])
  {
    decls := before;
    var j := 0;
    while j < |decls|
      invariant 0 <= j <= |decls| == |before|
      invariant forall k :: 0 <= k < j ==> decls[k] == (if before[k].name == d.name then d else before[k])
      invariant forall k :: j <= k < |decls| ==> decls[k] == before[k]
    {
      if decls[j].name == d.name {
        // RemoveAt(j) followed by InsertAt(d, j)
        decls := decls[j := d];
      }
      j := j + 1;
    }
  }

  /** The outer replacement loop, over the members in order. */
  method OverrideAll(inherited: seq<FnDecl>, ms: seq<Decl>) returns (decls: seq<FnDecl>)
    ensures decls == Overridden(inherited, Methods(ms))
  {
    decls := inherited;
    var i := 0;
    while i < |ms|
      invariant 0 <= i <= |ms|
      invariant decls == Overridden(inherited, Methods(ms[..i]))
    {
      CountVarsStep(ms, i);
      if ms[i].Fn? {
        var d := ms[i].f;
        ghost var prev := Methods(ms[..i]);
        decls := ReplaceNamed(decls, d);
        forall k | 0 <= k < |inherited|
          ensures decls[k] == Overridden(inherited, prev + [d])[k]
        {
          OverriddenStep(inherited, prev, d, k);
        }
        assert decls == Overridden(inherited, prev + [d]);
      } else {
        assert Methods(ms[..i + 1]) == Methods(ms[..i]);
      }
      i := i + 1;
    }
    assert ms[..i] == ms;
  }

  /** Copying the superclass's table entry by entry. */
  method CopyTable(exDecls: seq<FnDecl>) returns (decls: seq<FnDecl>)
    ensures decls == exDecls
  {
    decls := [];
    var i := 0;
    while i < |exDecls|
      invariant 0 <= i <= |exDecls|
      invariant decls == exDecls[..i]
    {
      assert exDecls[..i + 1] == exDecls[..i] + [exDecls[i]];
      decls := decls + [exDecls[i]];
      i := i + 1;
    }
    assert exDecls[..i] == exDecls;
  }

  /** The final loop: every own method appended in member order. */
  method AppendMethods(replaced: seq<FnDecl>, ms: seq<Decl>) returns (decls: seq<FnDecl>)
    ensures decls == replaced + Methods(ms)
  {
    decls := replaced;
    var i := 0;
    while i < |ms|
      invariant 0 <= i <= |ms|
      invariant decls == replaced + Methods(ms[..i])
    {
      CountVarsStep(ms, i);
      if ms[i].Fn? {
        decls := decls + [ms[i].f];
      }
      i := i + 1;
    }
    assert ms[..i] == ms;
  }

  /** `ClassDecl::GetMethodDecls`: copy the superclass's table, replace overridden slots, append own methods. */
  method GetMethodDecls(env: ClassEnv, c: Decl) returns (decls: seq<FnDecl>)
    requires ResolvedClass(env, c)
    ensures decls == MethodTable(env, c)
    decreases Depth(env, c)
  {
    var inherited: seq<FnDecl> := [];
    if c.superName.Some? {
      var exDecls := GetMethodDecls(env, env.decls[c.superName.value]);
      inherited := CopyTable(exDecls);
    }
    assert inherited == Inherited(env, c);
    var replaced := OverrideAll(inherited, c.members);
    decls := AppendMethods(replaced, c.members);
  }

  lemma ResolvedSuper(env: ClassEnv, c: Decl)
    requires ResolvedClass(env, c) && c.superName.Some?
    ensures ResolvedClass(env, Super(env, c))
    ensures Depth(env, Super(env, c)) < Depth(env, c)
  {
  }

  /** The functions of a prefix of the members are a prefix of all their functions. */
  lemma {:induction false} MethodsPrefix(ms: seq<Decl>, i: int)
    requires 0 <= i <= |ms|
    ensures Methods(ms[..i]) <= Methods(ms)
    decreases |ms| - i
  {
    if i < |ms| {
      CountVarsStep(ms, i);
      MethodsPrefix(ms, i + 1);
    } else {
      assert ms[..i] == ms;
    }
  }

  /** The vtable has exactly the number of slots `GetVTblBytes` accounts for. */
  lemma {:induction false} MethodTableSize(env: ClassEnv, c: Decl)
    requires ResolvedClass(env, c)
    ensures VarSize * |MethodTable(env, c)| == ClassVTblBytes(env, c)
    decreases Depth(env, c)
  {
    if c.superName.Some? {
      ResolvedSuper(env, c);
      MethodTableSize(env, Super(env, c));
    }
  }

  /**
   * The vtable offset PreEmit gives a member function names the slot of the
   * class's table that holds that very function.
   */
  lemma MethodOffsetIndexesTable(env: ClassEnv, c: Decl, i: int)
    requires ResolvedClass(env, c) && 0 <= i < |c.members| && c.members[i].Fn?
    ensures MethodOffset(env, c, i) % VarSize == 0
    ensures 0 <= MethodOffset(env, c, i) / VarSize < |MethodTable(env, c)|
    ensures MethodTable(env, c)[MethodOffset(env, c, i) / VarSize] == c.members[i].f
  {
    var m := |Methods(c.members[..i])|;
    var x := |Inherited(env, c)| + m;
    assert MethodOffset(env, c, i) == VarSize * x by {
      InheritedBytes(env, c);
    }
    assert x < |MethodTable(env, c)| && MethodTable(env, c)[x] == c.members[i].f by {
      MethodAtCount(c.members, i);
      OwnMethodSlot(env, c, m);
    }
    WordMultiple(x);
  }

  lemma WordMultiple(x: int)
    ensures (VarSize * x) % VarSize == 0 && (VarSize * x) / VarSize == x
  {
  }

  /** The superclass's vtable bytes are a slot per inherited method. */
  lemma InheritedBytes(env: ClassEnv, c: Decl)
    requires ResolvedClass(env, c)
    ensures SuperVTblBytes(env, c) == VarSize * |Inherited(env, c)|
  {
    if c.superName.Some? {
      ResolvedSuper(env, c);
      MethodTableSize(env, Super(env, c));
    }
  }

  /** The class's own methods follow the inherited slots, in order. */
  lemma TableUnfold(env: ClassEnv, c: Decl)
    requires ResolvedClass(env, c)
    ensures MethodTable(env, c) == Overridden(Inherited(env, c), Methods(c.members)) + Methods(c.members)
  {
  }

  lemma OwnMethodSlot(env: ClassEnv, c: Decl, k: int)
    requires ResolvedClass(env, c) && 0 <= k < |Methods(c.members)|
    ensures |Inherited(env, c)| + k < |MethodTable(env, c)|
    ensures MethodTable(env, c)[|Inherited(env, c)| + k] == Methods(c.members)[k]
  {
    TableUnfold(env, c);
  }

  /** A member function's own functions before it count its place among all of them. */
  lemma MethodAtCount(ms: seq<Decl>, i: int)
    requires 0 <= i < |ms| && ms[i].Fn?
    ensures |Methods(ms[..i])| < |Methods(ms)| && Methods(ms)[|Methods(ms[..i])|] == ms[i].f
  {
    CountVarsStep(ms, i);
    MethodsPrefix(ms, i + 1);
  }

  /** `a` is `c` or one of its superclasses. */
  predicate IsAncestorOrSelf(env: ClassEnv, a: Decl, c: Decl)
    requires Acyclic(env) && c.Class?
    decreases Depth(env, c)
  {
    a == c || (SuperIsClass(env, c) && IsAncestorOrSelf(env, a, Super(env, c)))
  }

  /**
   * Dispatch consistency: a slot of a class's vtable holds, in the vtable of
   * every subclass, a method of the same name. A call compiled against a
   * static class type therefore reaches a same-named method whatever
   * subclass the receiver belongs to.
   */
  lemma {:induction false} SubclassKeepsSlotNames(env: ClassEnv, a: Decl, c: Decl, j: int)
    requires ResolvedClass(env, c) && ResolvedClass(env, a) && IsAncestorOrSelf(env, a, c)
    requires 0 <= j < |MethodTable(env, a)|
    ensures j < |MethodTable(env, c)| && MethodTable(env, c)[j].name == MethodTable(env, a)[j].name
    decreases Depth(env, c)
  {
    if a != c {
      ResolvedSuper(env, c);
      var s := Super(env, c);
      SubclassKeepsSlotNames(env, a, s, j);
      assert MethodTable(env, c)[j] == Overridden(MethodTable(env, s), Methods(c.members))[j];
    }
  }

  /** Where `FnDecl::Emit` places formal `i`: after the receiver for a method. */
  function FormalOffset(isMethod: bool, i: int): int
  {
    OffsetToFirstParam + (if isMethod then VarSize else 0) + VarSize * i
  }

  predicate DistinctVarSlots(vs: seq<VarDecl>)
  {
    forall i, j :: 0 <= i < j < |vs| ==> vs[i].slot != vs[j].slot
  }

  function FormalSlots(vs: seq<VarDecl>): set<VarSlot>
  {
    set i | 0 <= i < |vs| :: vs[i].slot
  }

  /** The first loop of `FnDecl::Emit`: every formal gets its frame-relative location. */
  method PlaceFormals(f: FnDecl)
    requires DistinctVarSlots(f.formals)
    modifies FormalSlots(f.formals)
    ensures forall i :: 0 <= i < |f.formals| ==>
      f.formals[i].slot.memLoc == Some(Loc(FpRelative, FormalOffset(f.slot.isMethod, i), f.formals[i].name))
    ensures forall s :: s in FormalSlots(f.formals) ==> s.memOffset == old(s.memOffset)
  {
    var offset := OffsetToFirstParam;
    if f.slot.isMethod {
      offset := offset + VarSize;
    }
    var i := 0;
    while i < |f.formals|
      invariant 0 <= i <= |f.formals|
      invariant offset == FormalOffset(f.slot.isMethod, i)
      invariant forall j :: 0 <= j < i ==>
        f.formals[j].slot.memLoc == Some(Loc(FpRelative, FormalOffset(f.slot.isMethod, j), f.formals[j].name))
      invariant forall s :: s in FormalSlots(f.formals) ==> s.memOffset == old(s.memOffset)
    {
      var d := f.formals[i];
      d.slot.SetMemLoc(Some(Loc(FpRelative, offset, d.name)));
      offset := offset + MemBytes(d.typ);
      i := i + 1;
    }
  }

  /**
   * Formals occupy distinct words above the frame pointer, and a method's
   * formals never take the receiver's word.
   */
  lemma FormalsDistinct(isMethod: bool, i: int, j: int)
    requires 0 <= i < j
    ensures FormalOffset(isMethod, i) + VarSize <= FormalOffset(isMethod, j)
    ensures OffsetToFirstParam <= FormalOffset(isMethod, i)
    ensures isMethod ==> ThisLoc().offset + VarSize <= FormalOffset(isMethod, i)
  {
  }

  function GlobalOffset(decls: seq<Decl>, i: int): int
    requires 0 <= i <= |decls|
  {
    OffsetToFirstGlobal + VarSize * CountVars(decls[..i])
  }

  /** The first loop of `Program::Emit`: every global variable gets the next global-pointer word. */
  method PlaceGlobals(decls: seq<Decl>)
    requires DistinctSlots(decls)
    modifies VarSlots(decls)
    ensures forall i :: 0 <= i < |decls| && decls[i].Var? ==>
      decls[i].v.slot.memLoc == Some(Loc(GpRelative, GlobalOffset(decls, i), decls[i].v.name))
    ensures forall s :: s in VarSlots(decls) ==> s.memOffset == old(s.memOffset)
  {
    var offset := OffsetToFirstGlobal;
    var i := 0;
    while i < |decls|
      invariant 0 <= i <= |decls|
      invariant offset == GlobalOffset(decls, i)
      invariant forall j :: 0 <= j < i && decls[j].Var? ==>
        decls[j].v.slot.memLoc == Some(Loc(GpRelative, GlobalOffset(decls, j), decls[j].v.name))
      invariant forall s :: s in VarSlots(decls) ==> s.memOffset == old(s.memOffset)
    {
      CountVarsStep(decls, i);
      if decls[i].Var? {
        var d := decls[i].v;
        d.slot.SetMemLoc(Some(Loc(GpRelative, offset, d.name)));
        offset := offset + MemBytes(d.typ);
      }
      i := i + 1;
    }
  }

  /** Two global variables never share a word, and all lie at or above the global base. */
  lemma GlobalsDistinct(decls: seq<Decl>, i: int, j: int)
    requires 0 <= i < j < |decls| && decls[i].Var? && decls[j].Var?
    ensures OffsetToFirstGlobal <= GlobalOffset(decls, i)
    ensures GlobalOffset(decls, i) + VarSize <= GlobalOffset(decls, j)
  {
    CountVarsPastVar(decls, i, j);
  }
}
