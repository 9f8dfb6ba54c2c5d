/**
 * The evaluator: one method per kind of expression, dispatched from
 * `EvalExpr`. They work on a `Scope` object whose bindings an assignment
 * anywhere in the tree updates in place; each method is proved to return what
 * `Semantics.Eval` says and to leave exactly the bindings it says.
 */
module Evaluator {
  import opened Values
  import Ast
  import Defs
  import opened Scopes
  import opened Semantics

  /** `eval_expr`: dispatches on the kind of expression. */
  method EvalExpr(scope: Scope, ctx: Defs.Context, ext: Externals, e: Ast.Expr) returns (r: Result<Var>)
    modifies scope
    ensures Out(r, scope.vars) == Eval(old(scope.vars), ctx, ext, e)
    decreases e, 1, 0
  {
    match e
    case Ternary(_, _, _) => r := EvalTernary(scope, ctx, ext, e);
    case Assign(_, _) => r := EvalAssign(scope, ctx, ext, e);
    case Atom(a) => r := EvalAtom(a);
    case LValue(path) => r := EvalLValue(scope, path);
    case StructInit(_, _) => r := EvalStructInit(scope, ctx, ext, e);
    case Call(_, _) => r := EvalCall(scope, ctx, ext, e);
    case BinExpr(_, _, _) => r := EvalBinExpr(scope, ctx, ext, e);
    case UnExpr(_, _) => r := EvalUnExpr(scope, ctx, ext, e);
  }

  /**
   * `eval_assign`: evaluates the right-hand side, then stores it at the target
   * through `MutateVar`, whose check refuses to overwrite a struct and, below
   * the top level, a value of another type. Returns the assigned value.
   */
  method EvalAssign(scope: Scope, ctx: Defs.Context, ext: Externals, e: Ast.Expr) returns (r: Result<Var>)
    requires e.Assign?
    modifies scope
    ensures Out(r, scope.vars) == Eval(old(scope.vars), ctx, ext, e)
    decreases e, 0, 0
  {
    var val := EvalExpr(scope, ctx, ext, e.rhs);
    if val.Err? {
      return val;
    }
    var stored := scope.MutateVar(e.target, AssignHook(val.value, |e.target|));
    if stored.Err? {
      return Err(stored.error);
    }
    r := val;
  }

  /** `eval_ternary`: evaluates the condition, then the one branch it selects. */
  method EvalTernary(scope: Scope, ctx: Defs.Context, ext: Externals, e: Ast.Expr) returns (r: Result<Var>)
    requires e.Ternary?
    modifies scope
    ensures Out(r, scope.vars) == Eval(old(scope.vars), ctx, ext, e)
    decreases e, 0, 0
  {
    var c := EvalExpr(scope, ctx, ext, e.cond);
    if c.Err? {
      return c;
    }
    match c.value
    case Bool(true) => r := EvalExpr(scope, ctx, ext, e.branch1);
    case Bool(false) => r := EvalExpr(scope, ctx, ext, e.branch2);
    case _ => r := Err(NonBooleanCondition);
  }

  /** `eval_atom`: the value of a literal; it never fails. */
  method EvalAtom(a: Ast.Atom) returns (r: Result<Var>)
    ensures r.Ok? && r.value == AtomValue(a)
    ensures AsAtom(r.value) == Some(a)
  {
    match a
    case Void => r := Ok(Var.Void);
    case Bool(b) => r := Ok(Var.Bool(b));
    case Int(i) => r := Ok(Var.Int(i));
    case Float(x) => r := Ok(Var.Float(x));
    case Char(c) => r := Ok(Var.Char(c));
    case String(s) => r := Ok(Var.String(s));
  }

  /** `eval_lvalue`: the value stored at the path; the scope is only read. */
  method EvalLValue(scope: Scope, path: Ast.Path) returns (r: Result<Var>)
    ensures r == Lookup(scope.vars, path)
  {
    r := scope.GetVar(path);
  }

  /**
   * `eval_struct_init`: looks the name up, then walks the fields in source
   * order, building the field map, and finally compares its size with the
   * number of declared fields.
   */
  method EvalStructInit(scope: Scope, ctx: Defs.Context, ext: Externals, e: Ast.Expr) returns (r: Result<Var>)
    requires e.StructInit?
    modifies scope
    ensures Out(r, scope.vars) == Eval(old(scope.vars), ctx, ext, e)
    decreases e, 0, 0
  {
    var def := Defs.GetDef(ctx, e.name);
    if def.Err? {
      return Err(def.error);
    }
    if !Defs.IsShape(def.value) {
      return Err(NotAStructType);
    }
    var shape := def.value.shape;
    var m: map<string, Var> := map[];
    var i := 0;
    while i < |e.fields|
      invariant i <= |e.fields|
      invariant InitFields(scope.vars, ctx, ext, e, shape, i, m) == InitFields(old(scope.vars), ctx, ext, e, shape, 0, map[])
    {
      var (name, fieldExpr) := e.fields[i];
      if name !in shape {
        return Err(UnknownField);
      }
      var v := EvalExpr(scope, ctx, ext, fieldExpr);
      if v.Err? {
        return v;
      }
      if name in m {
        return Err(FieldAlreadyInitialized);
      }
      m := m[name := v.value];
      i := i + 1;
    }
    if |shape| != |m| {
      return Err(FieldCountMismatch);
    }
    r := Ok(Var.Struct(e.name, m));
  }

  /** `eval_call`: evaluates the arguments in order, then applies the built-in. */
  method EvalCall(scope: Scope, ctx: Defs.Context, ext: Externals, e: Ast.Expr) returns (r: Result<Var>)
    requires e.Call?
    modifies scope
    ensures Out(r, scope.vars) == Eval(old(scope.vars), ctx, ext, e)
    decreases e, 0, 0
  {
    var args: seq<Var> := [];
    var i := 0;
    while i < |e.args|
      invariant i <= |e.args|
      invariant EvalArgs(scope.vars, ctx, ext, e, i, args) == EvalArgs(old(scope.vars), ctx, ext, e, 0, [])
    {
      var v := EvalExpr(scope, ctx, ext, e.args[i]);
      if v.Err? {
        return v;
      }
      args := args + [v.value];
      i := i + 1;
    }
    r := ext.call(e.builtin, args);
  }

  /** `eval_bin_expr`: evaluates the left operand, then the right, then applies the operator. */
  method EvalBinExpr(scope: Scope, ctx: Defs.Context, ext: Externals, e: Ast.Expr) returns (r: Result<Var>)
    requires e.BinExpr?
    modifies scope
    ensures Out(r, scope.vars) == Eval(old(scope.vars), ctx, ext, e)
    decreases e, 0, 0
  {
    var left := EvalExpr(scope, ctx, ext, e.left);
    if left.Err? {
      return left;
    }
    var right := EvalExpr(scope, ctx, ext, e.right);
    if right.Err? {
      return right;
    }
    r := ext.bin(e.binOp, left.value, right.value);
  }

  /** `eval_un_expr`: evaluates the operand, then applies the operator. */
  method EvalUnExpr(scope: Scope, ctx: Defs.Context, ext: Externals, e: Ast.Expr) returns (r: Result<Var>)
    requires e.UnExpr?
    modifies scope
    ensures Out(r, scope.vars) == Eval(old(scope.vars), ctx, ext, e)
    decreases e, 0, 0
  {
    var v := EvalExpr(scope, ctx, ext, e.operand);
    if v.Err? {
      return v;
    }
    r := ext.un(e.unOp, v.value);
  }
}
