/**
 * Declarations: variables, functions, classes and interfaces.
 *
 * A declaration is a value, except for the annotations that layout and code
 * generation write onto it later; those live in two small mutable records,
 * `VarSlot` (a variable's storage location and its offset inside an object)
 * and `FnSlot` (a function's label, vtable offset and method flag), which a
 * declaration refers to.
 */
module AstDecl {
  import opened Wrappers
  import opened CodeGen
  import opened AstType

  /** The annotations layout writes onto a variable declaration. */
  class VarSlot {
    var memLoc: Option<Location>
    var memOffset: int

    /** The source leaves both fields uninitialised; the model starts them empty. */
    constructor ()
      ensures memLoc == None && memOffset == 0
    {
      memLoc, memOffset := None, 0;
    }

    function GetMemLoc(): (l: Option<Location>)
      reads this
      ensures l == memLoc
    {
      memLoc
    }

    method SetMemLoc(m: Option<Location>)
      modifies this
      ensures memLoc == m && memOffset == old(memOffset)
    {
      memLoc := m;
    }

    function GetMemOffset(): (o: int)
      reads this
      ensures o == memOffset
    {
      memOffset
    }

    method SetMemOffset(m: int)
      modifies this
      ensures memOffset == m && memLoc == old(memLoc)
    {
      memOffset := m;
    }
  }

  /** The label every function starts with: `main` keeps its name, others get a prefix. */
  function InitialLabel(name: string): (l: string)
    ensures name == "main" ==> l == name
    ensures name != "main" ==> l == "____" + name && l != name
  {
    if name == "main" then name else "____" + name
  }

  /** The annotations layout writes onto a function declaration. */
  class FnSlot {
    var fnLabel: string
    var vtlOffset: int
    var isMethod: bool

    /** The vtable offset is left uninitialised by the source; the model starts it at 0. */
    constructor (name: string)
      ensures fnLabel == InitialLabel(name) && vtlOffset == 0 && !isMethod
    {
      fnLabel, vtlOffset, isMethod := InitialLabel(name), 0, false;
    }

    function GetLabel(): (l: string)
      reads this
      ensures l == fnLabel
    {
      fnLabel
    }

    method AddLabelPrefix(prefix: string)
      modifies this
      ensures fnLabel == prefix + old(fnLabel)
      ensures vtlOffset == old(vtlOffset) && isMethod == old(isMethod)
    {
      fnLabel := prefix + fnLabel;
    }

    function GetVTblOffset(): (o: int)
      reads this
      ensures o == vtlOffset
    {
      vtlOffset
    }

    method SetVTblOffset(v: int)
      modifies this
      ensures vtlOffset == v && fnLabel == old(fnLabel) && isMethod == old(isMethod)
    {
      vtlOffset := v;
    }

    method SetIsMethod(b: bool)
      modifies this
      ensures isMethod == b && fnLabel == old(fnLabel) && vtlOffset == old(vtlOffset)
    {
      isMethod := b;
    }
  }

  datatype VarDecl = VarDecl(name: string, typ: Type, slot: VarSlot)

  /**
   * What building scopes needs of a statement block: the variables it
   * declares, and the blocks nested in its statements (as bodies of `if`,
   * `while` and `for`, or directly), in order.
   */
  datatype BlockTree = BlockTree(decls: seq<VarDecl>, nested: seq<BlockTree>)

  /** A function; a prototype has no body. */
  datatype FnDecl = FnDecl(name: string, returnType: Type, formals: seq<VarDecl>, body: Option<BlockTree>, slot: FnSlot)

  datatype Decl =
    | Var(v: VarDecl)
    | Fn(f: FnDecl)
    | Class(className: string, superName: Option<string>, implements: seq<string>, members: seq<Decl>)
    | Interface(ifaceName: string, members: seq<Decl>)
  {
    function Name(): string
    {
      match this
      case Var(v) => v.name
      case Fn(f) => f.name
      case Class(n, _, _, _) => n
      case Interface(n, _) => n
    }
  }

  /** A class's type is the named type carrying the class's own name. */
  function ClassType(c: Decl): (t: Type)
    requires c.Class?
    ensures t.Named? && t.name == c.className && !IsPrimitive(t)
  {
    Named(c.className)
  }

  /** A function's type is its declared return type. */
  function FnType(f: FnDecl): (t: Type)
    ensures t == f.returnType
  {
    f.returnType
  }

  /** A function returns a value unless its return type is the `void` singleton itself. */
  predicate HasReturnVal(f: FnDecl)
  {
    f.returnType != VoidType
  }

  /** Variable declarations are equivalent when their types are. */
  predicate VarEquivalent(v: VarDecl, w: VarDecl)
  {
    IsEquivalentTo(v.typ, w.typ)
  }

  /** Same return type, same arity, pairwise-equivalent formals. */
  predicate FnEquivalent(f: FnDecl, g: FnDecl)
  {
    && IsEquivalentTo(f.returnType, g.returnType)
    && |f.formals| == |g.formals|
    && forall i :: 0 <= i < |f.formals| ==> VarEquivalent(f.formals[i], g.formals[i])
  }

  /**
   * `IsEquivalentTo` on declarations: a variable matches only a variable of an
   * equivalent type, a function only an equivalent function; classes and
   * interfaces inherit the base rule, which accepts anything.
   */
  predicate DeclEquivalent(d: Decl, other: Decl)
  {
    match d
    case Var(v) => other.Var? && VarEquivalent(v, other.v)
    case Fn(f) => other.Fn? && FnEquivalent(f, other.f)
    case _ => true
  }

  lemma FnEquivalentReflexive(f: FnDecl)
    ensures FnEquivalent(f, f)
  {
    EquivalenceReflexive(f.returnType);
    forall i | 0 <= i < |f.formals|
      ensures VarEquivalent(f.formals[i], f.formals[i])
    {
      EquivalenceReflexive(f.formals[i].typ);
    }
  }

  lemma FnEquivalentSymmetric(f: FnDecl, g: FnDecl)
    requires FnEquivalent(f, g)
    ensures FnEquivalent(g, f)
  {
    EquivalenceSymmetric(f.returnType, g.returnType);
    forall i | 0 <= i < |g.formals|
      ensures VarEquivalent(g.formals[i], f.formals[i])
    {
      EquivalenceSymmetric(f.formals[i].typ, g.formals[i].typ);
    }
  }

  /** Function equivalence spelled out: both directions of the defining condition. */
  lemma FnEquivalentCharacterised(f: FnDecl, g: FnDecl)
    ensures DeclEquivalent(Fn(f), Fn(g)) <==>
      && IsEquivalentTo(f.returnType, g.returnType)
      && |f.formals| == |g.formals|
      && forall i :: 0 <= i < |f.formals| ==> IsEquivalentTo(f.formals[i].typ, g.formals[i].typ)
    ensures forall d: Decl :: !d.Fn? ==> !DeclEquivalent(Fn(f), d)
  {
  }

  lemma DeclEquivalentReflexive(d: Decl)
    ensures DeclEquivalent(d, d)
  {
    match d
    case Var(v) => EquivalenceReflexive(v.typ);
    case Fn(f) => FnEquivalentReflexive(f);
    case _ =>
  }

  /** Bytes a declaration adds to an object: a variable one slot, a function none. */
  function DeclMemBytes(d: Decl): (r: int)
    requires !d.Class?
    ensures d.Var? ==> r == VarSize
    ensures d.Fn? || d.Interface? ==> r == 0
  {
    match d
    case Var(_) => VarSize
    case Fn(_) => 0
    case Interface(_, _) => 0
  }

  /** Bytes a declaration adds to a vtable: a function one slot, a variable none. */
  function DeclVTblBytes(d: Decl): (r: int)
    requires !d.Class?
    ensures d.Fn? ==> r == VarSize
    ensures d.Var? || d.Interface? ==> r == 0
  {
    match d
    case Var(_) => 0
    case Fn(_) => VarSize
    case Interface(_, _) => 0
  }
}
