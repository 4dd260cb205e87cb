/**
 * The base of every tree node, and identifiers.
 *
 * A node knows its source location (if any), its parent and the scope it
 * owns; the constructors start a node detached, with no scope. Statements
 * and declarations give themselves a fresh scope on construction.
 */
module Ast {
  import opened Wrappers
  import opened Scopes

  /** A span of source text: first and last line and column. */
  datatype SourceLoc = SourceLoc(firstLine: int, firstColumn: int, lastLine: int, lastColumn: int)

  class Node {
    var location: Option<SourceLoc>
    var parent: Node?
    var scope: Scope?

    /** A node at `loc`: it keeps its own copy of the location. */
    constructor Located(loc: SourceLoc)
      ensures location == Some(loc) && parent == null && scope == null
    {
      location, parent, scope := Some(loc), null, null;
    }

    /** A node without a location. */
    constructor Unlocated()
      ensures location == None && parent == null && scope == null
    {
      location, parent, scope := None, null, null;
    }

    /** A statement's constructor: the node owns a fresh, empty, untagged scope. */
    constructor Statement(loc: Option<SourceLoc>)
      ensures location == loc && parent == null
      ensures scope != null && fresh(scope) && scope.View() == EmptyView
    {
      location, parent := loc, null;
      scope := new Scope();
    }

    method SetParent(p: Node?)
      modifies this
      ensures parent == p && location == old(location) && scope == old(scope)
    {
      parent := p;
    }
  }

  /** The program node's scope is always the one global scope. */
  class Program {
    const gScope: Scope

    constructor (g: Scope)
      ensures gScope == g
    {
      gScope := g;
    }

    function GetScope(): (s: Scope)
      reads this
      ensures s == gScope
    {
      gScope
    }
  }

  class Identifier {
    var location: SourceLoc
    var name: string

    /** The identifier keeps its own copy of the name. */
    constructor (loc: SourceLoc, n: string)
      ensures location == loc && name == n
    {
      location, name := loc, n;
    }

    /** Identifiers are equal when their names are the same string. */
    predicate Equals(rhs: Identifier)
      reads this, rhs
    {
      name == rhs.name
    }
  }

  lemma IdentifierEqualsIsNameEquality(a: Identifier, b: Identifier)
    ensures a.Equals(b) <==> a.name == b.name
    ensures a.Equals(a)
    ensures a.Equals(b) ==> b.Equals(a)
  {
  }
}
