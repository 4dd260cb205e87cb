/**
 * Types of the source language: a built-in type, a named (class or
 * interface) type, or an array of some element type.
 *
 * The built-in types `int`, `double`, `bool`, `void`, `null`, `string` and
 * `error` exist as shared singletons; the parser may also create further
 * built-in type nodes of the same kind. Because identity comparison
 * (`IsEqualTo` on a built-in type) tells the two apart, every built-in type
 * records where it came from.
 */
module AstType {
  import opened CodeGen
  import opened Errors

  datatype BaseKind = Int | Double | Bool | Void | Null | String | Error

  /** `Shared`: the singleton of its kind; `Declared(n)`: type node number n. */
  datatype Origin = Shared | Declared(node: nat)

  datatype Type =
    | Prim(kind: BaseKind, origin: Origin)
    | Named(name: string)
    | Array(elem: Type)

  const IntType: Type := Prim(Int, Shared)
  const DoubleType: Type := Prim(Double, Shared)
  const BoolType: Type := Prim(Bool, Shared)
  const VoidType: Type := Prim(Void, Shared)
  const NullType: Type := Prim(Null, Shared)
  const StringType: Type := Prim(String, Shared)
  const ErrorType: Type := Prim(Error, Shared)

  /**
   * Type equivalence. Its definition is not part of this model's source; it
   * is taken to be structural: built-in types by kind, named types by name,
   * arrays by element type.
   */
  predicate IsEquivalentTo(t: Type, other: Type)
  {
    match (t, other)
    case (Prim(k, _), Prim(k', _)) => k == k'
    case (Named(n), Named(n')) => n == n'
    case (Array(e), Array(e')) => IsEquivalentTo(e, e')
    case _ => false
  }

  lemma {:induction false} EquivalenceReflexive(t: Type)
    ensures IsEquivalentTo(t, t)
  {
    if t.Array? {
      EquivalenceReflexive(t.elem);
    }
  }

  lemma {:induction false} EquivalenceSymmetric(t: Type, u: Type)
    requires IsEquivalentTo(t, u)
    ensures IsEquivalentTo(u, t)
  {
    if t.Array? {
      EquivalenceSymmetric(t.elem, u.elem);
    }
  }

  lemma {:induction false} EquivalenceTransitive(t: Type, u: Type, v: Type)
    requires IsEquivalentTo(t, u) && IsEquivalentTo(u, v)
    ensures IsEquivalentTo(t, v)
  {
    if t.Array? {
      EquivalenceTransitive(t.elem, u.elem, v.elem);
    }
  }

  /** Two built-in types are equivalent exactly when they have the same kind. */
  lemma PrimitiveEquivalence(k: BaseKind, o: Origin, k': BaseKind, o': Origin)
    ensures IsEquivalentTo(Prim(k, o), Prim(k', o')) <==> k == k'
  {
  }

  /**
   * Identity comparison. On a built-in type it is object identity, which
   * the model reads as equality of kind and origin. On named and array types
   * it is overridden outside this model's source; it is taken to coincide
   * with equivalence there.
   */
  predicate IsEqualTo(t: Type, other: Type)
  {
    match t
    case Prim(_, _) => t == other
    case _ => IsEquivalentTo(t, other)
  }

  /** Only the shared `int` singleton is identical to it. */
  lemma IdenticalToIntType(t: Type)
    ensures IsEqualTo(t, IntType) <==> t == IntType
  {
  }

  /** A parser-made `int` node is equivalent, but not identical, to the singleton. */
  lemma DeclaredIntIsNotIdentical(n: nat)
    ensures IsEquivalentTo(Prim(Int, Declared(n)), IntType)
    ensures !IsEqualTo(Prim(Int, Declared(n)), IntType)
  {
  }

  lemma {:induction false} IdentityImpliesEquivalence(t: Type, u: Type)
    requires IsEqualTo(t, u)
    ensures IsEquivalentTo(t, u)
  {
    if t.Prim? {
      EquivalenceReflexive(t);
    }
  }

  /** Built-in types are the primitive ones; named and array types are not. */
  predicate IsPrimitive(t: Type)
  {
    t.Prim?
  }

  function KindName(k: BaseKind): string
  {
    match k
    case Int => "int"
    case Double => "double"
    case Bool => "bool"
    case Void => "void"
    case Null => "null"
    case String => "string"
    case Error => "error"
  }

  /** The innermost element type of a (possibly nested) array type. */
  function Innermost(t: Type): (r: Type)
    ensures !r.Array?
  {
    if t.Array? then Innermost(t.elem) else t
  }

  /** The name used for lookups: an array type is named after its element type. */
  function Name(t: Type): string
  {
    match t
    case Prim(k, _) => KindName(k)
    case Named(n) => n
    case Array(e) => Name(e)
  }

  lemma {:induction false} ArrayNameIsInnermostName(t: Type)
    ensures Name(t) == Name(Innermost(t))
    ensures t.Array? ==> Name(t) == Name(t.elem)
  {
    if t.Array? {
      ArrayNameIsInnermostName(t.elem);
    }
  }

  /** Every value of every type occupies one variable slot. */
  function MemBytes(t: Type): (r: int)
    ensures r == VarSize
  {
    VarSize
  }

  /**
   * Reporting an undeclared type name: a built-in type never reports, a
   * named type reports its own name, and an array type (whose override is
   * outside this model's source) is taken to report for its element type.
   */
  function ReportNotDeclared(t: Type, reason: Reason): (r: seq<Diag>)
    ensures |r| <= 1
    ensures r != [] <==> Innermost(t).Named?
    ensures r != [] ==> r == [NotDeclared(Name(t), reason)]
  {
    match t
    case Prim(_, _) => []
    case Named(n) => [NotDeclared(n, reason)]
    case Array(e) => ReportNotDeclared(e, reason)
  }
}
