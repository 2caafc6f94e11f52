/** Lexical scopes linked to their parents: each holds its own variable bindings,
    and names are resolved from the innermost scope outwards. */
module Scoping {
  import opened Wrappers
  import opened Registers
  import Symbols

  /** scope.py's own variable record; every field but the name may be unset. */
  datatype Variable = Variable(name: string, typ: Option<string>, reg: Option<Reg>, offset: Option<int>)

  datatype ScopeError = Undefined(name: string)

  class Scope {
    const parent: Scope?
    /** Number of scopes above this one. */
    ghost const depth: nat
    /** Every scope above this one, up to the root. */
    ghost const ancestors: set<Scope>
    var variables: map<string, Variable>
    var functions: map<string, Symbols.Symbol>

    /** The chain is well founded, `ancestors` lists it, and every scope binds each
        variable under that variable's own name. */
    ghost predicate Valid()
      reads this, ancestors
      decreases depth
    {
      (forall n :: n in variables ==> variables[n].name == n) &&
      (parent == null ==> depth == 0 && ancestors == {}) &&
      (parent != null ==>
         parent.depth < depth && ancestors == {parent} + parent.ancestors && parent.Valid())
    }

    /** This scope and every scope above it. */
    ghost function Chain(): set<Scope>
    {
      {this} + ancestors
    }

    /** Every ancestor sits strictly higher in the chain, so a scope is never its own ancestor. */
    lemma {:induction false} AncestorsAreHigher()
      requires Valid()
      ensures forall s :: s in ancestors ==> s.depth < depth
      ensures this !in ancestors
      decreases depth
    {
      if parent != null {
        parent.AncestorsAreHigher();
      }
    }

    /** A scope with no bindings under `parent` (the root scope when `parent` is null). */
    constructor (parent: Scope?)
      requires parent != null ==> parent.Valid()
      ensures Valid() && this.parent == parent
      ensures ancestors == if parent == null then {} else {parent} + parent.ancestors
      ensures variables == map[] && functions == map[]
    {
      this.parent := parent;
      depth := if parent == null then 0 else parent.depth + 1;
      ancestors := if parent == null then {} else {parent} + parent.ancestors;
      variables := map[];
      functions := map[];
    }

    /** Binds `v` under its name unless this scope already binds that name: the first
        binding wins and parents are left alone. */
    method AddVar(v: Variable)
      requires Valid()
      modifies this`variables
      ensures Valid()
      ensures variables == if v.name in old(variables) then old(variables) else old(variables)[v.name := v]
      ensures forall s :: s in ancestors ==> s.variables == old(s.variables)
      ensures LookupVar(v.name) == Ok(variables[v.name])
    {
      AncestorsAreHigher();
      if v.name !in variables {
        variables := variables[v.name := v];
      }
    }

    /** Resolves a name through the chain: this scope's binding if it has one, otherwise
        the parent's answer; fails at the root. */
    function LookupVar(name: string): (r: Result<Variable, ScopeError>)
      requires Valid()
      reads this, ancestors
      ensures name in variables ==> r == Ok(variables[name])
      ensures r.Ok? ==> r.value.name == name
      ensures r.Ok? ==> exists s :: s in Chain() && name in s.variables && r.value == s.variables[name] &&
                          forall u :: u in Chain() && u.depth > s.depth ==> name !in u.variables
      ensures r.Err? <==> name !in variables && forall s :: s in ancestors ==> name !in s.variables
      ensures r.Err? ==> r.error == Undefined(name)
      decreases depth
    {
      AncestorsAreHigher();
      if name in variables then Ok(variables[name])
      else if parent != null then
        assert Chain() == {this} + parent.Chain();
        parent.LookupVar(name)
      else Err(Undefined(name))
    }
  }
}
