/** Sizing a function's frame: the parameter names, then every name the body assigns
    that is neither already counted nor reported as in scope. */
module Locals {
  import opened Wrappers
  import opened PyAst

  datatype CountError = MultipleTargets(count: nat)   // raised as RuntimeError

  /** `visit_Name` on an assigned name: append it unless it is already listed or in scope. */
  function AddName(names: seq<string>, id: string, inScope: string -> bool): seq<string>
  {
    if id !in names && !inScope(id) then names + [id] else names
  }

  /** The name list after visiting an expression. Only assigned names can change it. */
  function AfterExpr(names: seq<string>, e: Expr, inScope: string -> bool): seq<string>
    decreases e
  {
    match e
    case Name(id, ctx) => if ctx == Store then AddName(names, id, inScope) else names
    case Constant(_) => names
    case BinOp(left, right) => AfterExpr(AfterExpr(names, left, inScope), right, inScope)
    case Compare(left, comparators) => AfterExprs(AfterExpr(names, left, inScope), comparators, inScope)
    case Call(_, args) => AfterExprs(names, args, inScope)
    case Tuple(elts) => AfterExprs(names, elts, inScope)
  }

  function AfterExprs(names: seq<string>, es: seq<Expr>, inScope: string -> bool): seq<string>
    decreases es
  {
    if es == [] then names else AfterExprs(AfterExpr(names, es[0], inScope), es[1..], inScope)
  }

  /** The name list after visiting a statement, or the error an assignment with other
      than one target raises. Of an assignment only the target is visited. */
  function AfterStmt(names: seq<string>, s: Stmt, inScope: string -> bool): Result<seq<string>, CountError>
    decreases s
  {
    match s
    case Assign(targets, _) =>
      if |targets| != 1 then Err(MultipleTargets(|targets|))
      else Ok(AfterExpr(names, targets[0], inScope))
    case ExprStmt(value) => Ok(AfterExpr(names, value, inScope))
    case Return(value) => Ok(AfterExpr(names, value, inScope))
    case If(test, body, orelse) =>
      (match AfterStmts(AfterExpr(names, test, inScope), body, inScope)
       case Err(err) => Err(err)
       case Ok(afterBody) => AfterStmts(afterBody, orelse, inScope))
    case While(test, body) => AfterStmts(AfterExpr(names, test, inScope), body, inScope)
  }

  function AfterStmts(names: seq<string>, ss: seq<Stmt>, inScope: string -> bool): Result<seq<string>, CountError>
    decreases ss
  {
    if ss == [] then Ok(names)
    else match AfterStmt(names, ss[0], inScope)
      case Err(err) => Err(err)
      case Ok(next) => AfterStmts(next, ss[1..], inScope)
  }

  /** The name list a `LocalsCounter` holds once built for `func`, or the error its
      construction raises. */
  function Collect(func: FunctionDef, inScope: string -> bool): Result<seq<string>, CountError>
  {
    AfterStmts(func.params, func.body, inScope)
  }

  // ---------------------------------------------------------------------------
  // The reference description of the result: which names end up listed.

  /** The names an expression assigns. */
  function StoreNames(e: Expr): set<string>
    decreases e
  {
    match e
    case Name(id, ctx) => if ctx == Store then {id} else {}
    case Constant(_) => {}
    case BinOp(left, right) => StoreNames(left) + StoreNames(right)
    case Compare(left, comparators) => StoreNames(left) + StoreNamesOf(comparators)
    case Call(_, args) => StoreNamesOf(args)
    case Tuple(elts) => StoreNamesOf(elts)
  }

  function StoreNamesOf(es: seq<Expr>): set<string>
    decreases es
  {
    if es == [] then {} else StoreNames(es[0]) + StoreNamesOf(es[1..])
  }

  /** The names a statement assigns: for an assignment, those of its targets only. */
  function StmtStoreNames(s: Stmt): set<string>
    decreases s
  {
    match s
    case Assign(targets, _) => StoreNamesOf(targets)
    case ExprStmt(value) => StoreNames(value)
    case Return(value) => StoreNames(value)
    case If(test, body, orelse) => StoreNames(test) + StmtsStoreNames(body) + StmtsStoreNames(orelse)
    case While(test, body) => StoreNames(test) + StmtsStoreNames(body)
  }

  function StmtsStoreNames(ss: seq<Stmt>): set<string>
    decreases ss
  {
    if ss == [] then {} else StmtStoreNames(ss[0]) + StmtsStoreNames(ss[1..])
  }

  /** Every assignment, at any depth, has exactly one target. */
  predicate SingleTargets(s: Stmt)
    decreases s
  {
    match s
    case Assign(targets, _) => |targets| == 1
    case ExprStmt(_) => true
    case Return(_) => true
    case If(_, body, orelse) => AllSingleTargets(body) && AllSingleTargets(orelse)
    case While(_, body) => AllSingleTargets(body)
  }

  predicate AllSingleTargets(ss: seq<Stmt>)
    decreases ss
  {
    ss == [] || (SingleTargets(ss[0]) && AllSingleTargets(ss[1..]))
  }

  /** `after` is `before` with names appended, each one new to the list and not in scope. */
  ghost predicate Extends(before: seq<string>, after: seq<string>, inScope: string -> bool)
  {
    before <= after &&
    forall i :: |before| <= i < |after| ==> !inScope(after[i]) && after[i] !in after[..i]
  }

  lemma ExtendsTrans(a: seq<string>, b: seq<string>, c: seq<string>, inScope: string -> bool)
    requires Extends(a, b, inScope) && Extends(b, c, inScope)
    ensures Extends(a, c, inScope)
  {
    forall i | |a| <= i < |c|
      ensures !inScope(c[i]) && c[i] !in c[..i]
    {
      if i < |b| {
        assert c[i] == b[i] && c[..i] == b[..i];
      }
    }
  }

  /** Visiting an expression only appends fresh, out-of-scope names, and the names it
      ends with are those it started with plus the out-of-scope names the expression assigns. */
  lemma {:induction false} AfterExprSpec(names: seq<string>, e: Expr, inScope: string -> bool)
    ensures Extends(names, AfterExpr(names, e, inScope), inScope)
    ensures forall x :: x in AfterExpr(names, e, inScope) <==> x in names || (x in StoreNames(e) && !inScope(x))
    decreases e
  {
    match e
    case Name(id, ctx) =>
    case Constant(_) =>
    case BinOp(left, right) =>
      var mid := AfterExpr(names, left, inScope);
      AfterExprSpec(names, left, inScope);
      AfterExprSpec(mid, right, inScope);
      ExtendsTrans(names, mid, AfterExpr(mid, right, inScope), inScope);
    case Compare(left, comparators) =>
      var mid := AfterExpr(names, left, inScope);
      AfterExprSpec(names, left, inScope);
      AfterExprsSpec(mid, comparators, inScope);
      ExtendsTrans(names, mid, AfterExprs(mid, comparators, inScope), inScope);
    case Call(_, args) =>
      AfterExprsSpec(names, args, inScope);
    case Tuple(elts) =>
      AfterExprsSpec(names, elts, inScope);
  }

  lemma {:induction false} AfterExprsSpec(names: seq<string>, es: seq<Expr>, inScope: string -> bool)
    ensures Extends(names, AfterExprs(names, es, inScope), inScope)
    ensures forall x :: x in AfterExprs(names, es, inScope) <==> x in names || (x in StoreNamesOf(es) && !inScope(x))
    decreases es
  {
    if es != [] {
      var mid := AfterExpr(names, es[0], inScope);
      AfterExprSpec(names, es[0], inScope);
      AfterExprsSpec(mid, es[1..], inScope);
      ExtendsTrans(names, mid, AfterExprs(mid, es[1..], inScope), inScope);
    }
  }

  /** Visiting a statement fails exactly when some assignment in it has other than one
      target; otherwise it only appends fresh, out-of-scope names, namely the out-of-scope
      names the statement assigns that were not listed yet. */
  lemma {:induction false} AfterStmtSpec(names: seq<string>, s: Stmt, inScope: string -> bool)
    ensures AfterStmt(names, s, inScope).Ok? <==> SingleTargets(s)
    ensures AfterStmt(names, s, inScope).Ok? ==>
              var after := AfterStmt(names, s, inScope).value;
              Extends(names, after, inScope) &&
              forall x :: x in after <==> x in names || (x in StmtStoreNames(s) && !inScope(x))
    decreases s
  {
    match s
    case Assign(targets, _) =>
      if |targets| == 1 {
        AfterExprSpec(names, targets[0], inScope);
        assert StoreNamesOf(targets) == StoreNames(targets[0]) + StoreNamesOf([]) by {
          assert targets[1..] == [];
        }
      }
    case ExprStmt(value) =>
      AfterExprSpec(names, value, inScope);
    case Return(value) =>
      AfterExprSpec(names, value, inScope);
    case If(test, body, orelse) =>
      var mid := AfterExpr(names, test, inScope);
      AfterExprSpec(names, test, inScope);
      AfterStmtsSpec(mid, body, inScope);
      if AfterStmts(mid, body, inScope).Ok? {
        var afterBody := AfterStmts(mid, body, inScope).value;
        ExtendsTrans(names, mid, afterBody, inScope);
        AfterStmtsSpec(afterBody, orelse, inScope);
        if AfterStmts(afterBody, orelse, inScope).Ok? {
          ExtendsTrans(names, afterBody, AfterStmts(afterBody, orelse, inScope).value, inScope);
        }
      }
    case While(test, body) =>
      var mid := AfterExpr(names, test, inScope);
      AfterExprSpec(names, test, inScope);
      AfterStmtsSpec(mid, body, inScope);
      if AfterStmts(mid, body, inScope).Ok? {
        ExtendsTrans(names, mid, AfterStmts(mid, body, inScope).value, inScope);
      }
  }

  lemma {:induction false} AfterStmtsSpec(names: seq<string>, ss: seq<Stmt>, inScope: string -> bool)
    ensures AfterStmts(names, ss, inScope).Ok? <==> AllSingleTargets(ss)
    ensures AfterStmts(names, ss, inScope).Ok? ==>
              var after := AfterStmts(names, ss, inScope).value;
              Extends(names, after, inScope) &&
              forall x :: x in after <==> x in names || (x in StmtsStoreNames(ss) && !inScope(x))
    decreases ss
  {
    if ss != [] {
      AfterStmtSpec(names, ss[0], inScope);
      if AfterStmt(names, ss[0], inScope).Ok? {
        var mid := AfterStmt(names, ss[0], inScope).value;
        AfterStmtsSpec(mid, ss[1..], inScope);
        if AfterStmts(mid, ss[1..], inScope).Ok? {
          ExtendsTrans(names, mid, AfterStmts(mid, ss[1..], inScope).value, inScope);
        }
      }
    }
  }

  /** What a built counter holds: it fails exactly when some assignment in the body has
      other than one target; otherwise its list starts with the parameters in order, then
      holds each out-of-scope name the body assigns that is not a parameter, once each.
      So `count()` is at least the number of parameters, and names that are only read
      are never counted. */
  lemma CollectSpec(func: FunctionDef, inScope: string -> bool)
    ensures Collect(func, inScope).Ok? <==> AllSingleTargets(func.body)
    ensures Collect(func, inScope).Ok? ==>
              var names := Collect(func, inScope).value;
              |names| >= |func.params| && names[..|func.params|] == func.params &&
              (forall i, j :: |func.params| <= i < |names| && 0 <= j < |names| && j != i ==> names[i] != names[j]) &&
              (forall i :: |func.params| <= i < |names| ==> !inScope(names[i])) &&
              (forall x :: x in names <==> x in func.params || (x in StmtsStoreNames(func.body) && !inScope(x)))
  {
    AfterStmtsSpec(func.params, func.body, inScope);
    if Collect(func, inScope).Ok? {
      var names := Collect(func, inScope).value;
      forall i, j | |func.params| <= i < |names| && 0 <= j < |names| && j != i
        ensures names[i] != names[j]
      {
        if j < i {
          assert names[j] in names[..i];
        } else {
          assert names[i] in names[..j];
        }
      }
    }
  }

  /** The names a counter for `func` lists after the parameters: those its body assigns
      that are neither parameters nor in scope. */
  function NewLocals(func: FunctionDef, inScope: string -> bool): (locals: set<string>)
    ensures forall x :: x in locals ==> x in StmtsStoreNames(func.body) && !inScope(x) && x !in func.params
  {
    set x | x in StmtsStoreNames(func.body) && !inScope(x) && x !in func.params
  }

  /** A list without repeats has as many elements as distinct values. */
  lemma {:induction false} DistinctCardinality(s: seq<string>)
    requires forall i, j :: 0 <= i < j < |s| ==> s[i] != s[j]
    ensures |set x | x in s| == |s|
    decreases |s|
  {
    if s != [] {
      DistinctCardinality(s[1..]);
      assert (set x | x in s) == (set x | x in s[1..]) + {s[0]};
      assert s[0] !in s[1..];
    }
  }

  /** A list made of `prefix` followed by entries that repeat nothing, and that lists
      exactly the prefix and the values in `extra`, is as long as both together. */
  lemma SuffixCount(names: seq<string>, prefix: seq<string>, extra: set<string>)
    requires |names| >= |prefix| && names[..|prefix|] == prefix
    requires forall i, j :: |prefix| <= i < |names| && 0 <= j < |names| && j != i ==> names[i] != names[j]
    requires forall x :: x in extra ==> x !in prefix
    requires forall x :: x in names <==> x in prefix || x in extra
    ensures |names| == |prefix| + |extra|
  {
    var p := |prefix|;
    var added := names[p..];
    forall i, j | 0 <= i < j < |added|
      ensures added[i] != added[j]
    {
      assert added[i] == names[p + i] && added[j] == names[p + j];
    }
    forall x | x in added
      ensures x in extra
    {
      var i :| 0 <= i < |added| && added[i] == x;
      assert names[p + i] == x;
    }
    forall x | x in extra
      ensures x in added
    {
      var i :| 0 <= i < |names| && names[i] == x;
      assert i >= p;
      assert added[i - p] == x;
    }
    assert (set x | x in added) == extra;
    DistinctCardinality(added);
    assert names == names[..p] + added;
  }

  /** `count()` of a counter built for `func`: the parameters plus one per distinct
      out-of-scope name the body assigns that is not a parameter. */
  lemma CountOfCollect(func: FunctionDef, inScope: string -> bool)
    ensures Collect(func, inScope).Ok? ==>
              |Collect(func, inScope).value| == |func.params| + |NewLocals(func, inScope)|
  {
    CollectSpec(func, inScope);
    if Collect(func, inScope).Ok? {
      SuffixCount(Collect(func, inScope).value, func.params, NewLocals(func, inScope));
    }
  }

  /** The value of an assignment is never visited: only its target decides the outcome. */
  lemma AssignIgnoresValue(names: seq<string>, target: Expr, v: Expr, w: Expr, inScope: string -> bool)
    ensures AfterStmt(names, Assign([target], v), inScope) == AfterStmt(names, Assign([target], w), inScope)
  {
  }

  class LocalsCounter {
    var names: seq<string>
    /** Stands for the scope's `in_scope` query, which scope.py does not define. */
    const inScope: string -> bool

    constructor Empty(inScope: string -> bool)
      ensures names == [] && this.inScope == inScope
    {
      names := [];
      this.inScope := inScope;
    }

    /** `LocalsCounter(func, scope)`: lists the parameters, then visits the body statement by
        statement; fails as the construction does when an assignment has several targets. */
    static method New(func: FunctionDef, inScope: string -> bool) returns (r: Result<LocalsCounter, CountError>)
      ensures r.Ok? ==> fresh(r.value) && r.value.inScope == inScope && Collect(func, inScope) == Ok(r.value.names)
      ensures r.Ok? ==> r.value.Count() == |func.params| + |NewLocals(func, inScope)|
      ensures r.Err? ==> Collect(func, inScope) == Err(r.error)
    {
      var counter := new LocalsCounter.Empty(inScope);
      var k := 0;
      while k < |func.params|
        invariant 0 <= k <= |func.params|
        invariant counter.names == func.params[..k]
      {
        counter.names := counter.names + [func.params[k]];
        k := k + 1;
      }
      assert func.params[..k] == func.params;
      var i := 0;
      while i < |func.body|
        invariant 0 <= i <= |func.body|
        invariant AfterStmts(counter.names, func.body[i..], inScope) == Collect(func, inScope)
      {
        assert func.body[i..][1..] == func.body[i + 1..];
        var err := counter.VisitStmt(func.body[i]);
        if err.Some? {
          return Err(err.value);
        }
        i := i + 1;
      }
      CountOfCollect(func, inScope);
      return Ok(counter);
    }

    /** `visit` on a statement: an assignment goes to `VisitAssign`, any other statement has
        its children visited in order. */
    method VisitStmt(s: Stmt) returns (err: Option<CountError>)
      modifies this
      ensures match AfterStmt(old(names), s, inScope)
              case Ok(after) => err == None && names == after
              case Err(e) => err == Some(e)
      decreases s, 1
    {
      match s
      case Assign(_, _) =>
        err := VisitAssign(s);
      case ExprStmt(value) =>
        VisitExpr(value);
        err := None;
      case Return(value) =>
        VisitExpr(value);
        err := None;
      case If(test, body, orelse) =>
        VisitExpr(test);
        err := VisitStmts(body);
        if err == None {
          err := VisitStmts(orelse);
        }
      case While(test, body) =>
        VisitExpr(test);
        err := VisitStmts(body);
    }

    method VisitStmts(ss: seq<Stmt>) returns (err: Option<CountError>)
      modifies this
      ensures match AfterStmts(old(names), ss, inScope)
              case Ok(after) => err == None && names == after
              case Err(e) => err == Some(e)
      decreases ss
    {
      var i := 0;
      while i < |ss|
        invariant 0 <= i <= |ss|
        invariant AfterStmts(names, ss[i..], inScope) == AfterStmts(old(names), ss, inScope)
      {
        assert ss[i..][1..] == ss[i + 1..];
        err := VisitStmt(ss[i]);
        if err.Some? {
          return;
        }
        i := i + 1;
      }
      err := None;
    }

    /** `visit_Assign`: fails unless there is exactly one target, and visits that target only. */
    method VisitAssign(s: Stmt) returns (err: Option<CountError>)
      requires s.Assign?
      modifies this
      ensures |s.targets| != 1 ==> err == Some(MultipleTargets(|s.targets|)) && names == old(names)
      ensures |s.targets| == 1 ==> err == None && names == AfterExpr(old(names), s.targets[0], inScope)
      decreases s, 0
    {
      if |s.targets| != 1 {
        return Some(MultipleTargets(|s.targets|));
      }
      VisitExpr(s.targets[0]);
      err := None;
    }

    /** `visit` on an expression: a name goes to `VisitName`, anything else has its children
        visited in order. */
    method VisitExpr(e: Expr)
      modifies this
      ensures names == AfterExpr(old(names), e, inScope)
      decreases e, 1
    {
      match e
      case Name(_, _) => VisitName(e);
      case Constant(_) =>
      case BinOp(left, right) =>
        VisitExpr(left);
        VisitExpr(right);
      case Compare(left, comparators) =>
        VisitExpr(left);
        VisitExprs(comparators);
      case Call(_, args) => VisitExprs(args);
      case Tuple(elts) => VisitExprs(elts);
    }

    method VisitExprs(es: seq<Expr>)
      modifies this
      ensures names == AfterExprs(old(names), es, inScope)
      decreases es
    {
      var i := 0;
      while i < |es|
        invariant 0 <= i <= |es|
        invariant AfterExprs(names, es[i..], inScope) == AfterExprs(old(names), es, inScope)
      {
        assert es[i..][1..] == es[i + 1..];
        VisitExpr(es[i]);
        i := i + 1;
      }
    }

    /** `visit_Name`: an assigned name is appended unless already listed or in scope;
        a read name changes nothing. */
    method VisitName(e: Expr)
      requires e.Name?
      modifies this
      ensures e.ctx == Store && e.id !in old(names) && !inScope(e.id) ==> names == old(names) + [e.id]
      ensures !(e.ctx == Store && e.id !in old(names) && !inScope(e.id)) ==> names == old(names)
      decreases e, 0
    {
      if e.ctx == Store {
        var accountedFor := e.id in names;
        var inScopeNow := inScope(e.id);
        if !accountedFor && !inScopeNow {
          names := names + [e.id];
        }
      }
    }

    /** `count()`: the number of names listed; `CountOfCollect` says what they are. */
    function Count(): (n: nat)
      reads this
      ensures n == |names|
    {
      |names|
    }
  }
}
