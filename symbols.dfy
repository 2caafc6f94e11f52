/** Symbol records kept in the frame-keyed symbol table: a bare symbol, a variable
    and a function. */
module Symbols {
  import opened Wrappers
  import opened Registers

  datatype SymbolKind = VariableKind | FunctionKind

  /** `Symbol` and its two subclasses. A variable's type annotation is kept as text;
      its register and frame offset are unset until the code generator assigns them. */
  datatype Symbol =
    | Symbol(name: string, kind: SymbolKind)
    | Variable(name: string, typ: Option<string>, reg: Option<Reg>, offset: Option<int>)
    | Function(name: string, args: seq<Symbol>, ret: Option<Reg>)
  {
    /** The kind the object reports: fixed by the subclass, stored for a bare symbol. */
    function Kind(): SymbolKind {
      match this
      case Symbol(_, k) => k
      case Variable(_, _, _, _) => VariableKind
      case Function(_, _, _) => FunctionKind
    }
  }

  /** `Symbol(name, kind)`. */
  function NewSymbol(name: string, kind: SymbolKind): (s: Symbol)
    ensures s.name == name && s.Kind() == kind
  {
    Symbol(name, kind)
  }

  /** `Variable(name, type=None, reg=None, offset=None)`: always of the variable kind. */
  function NewVariable(name: string, typ: Option<string> := None, reg: Option<Reg> := None,
                       offset: Option<int> := None): (v: Symbol)
    ensures v.name == name && v.Kind() == VariableKind
    ensures v.Variable? && v.typ == typ && v.reg == reg && v.offset == offset
  {
    Variable(name, typ, reg, offset)
  }

  /** `Function(name, args, ret_reg=None)`: always of the function kind, the return
      register kept as `ret`. */
  function NewFunction(name: string, args: seq<Symbol>, retReg: Option<Reg> := None): (f: Symbol)
    ensures f.name == name && f.Kind() == FunctionKind
    ensures f.Function? && f.args == args && f.ret == retReg
  {
    Function(name, args, retReg)
  }

  /** The defaults: a variable built from its name alone has no type, register or offset,
      and a function built without a return register has none. */
  lemma Defaults(name: string, args: seq<Symbol>)
    ensures NewVariable(name) == Variable(name, None, None, None)
    ensures NewFunction(name, args).ret == None
  {
  }
}
