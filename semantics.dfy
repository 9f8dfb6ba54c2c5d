/**
 * The meaning of an expression, as a function: `Eval` takes the bindings
 * before the expression and gives its result together with the bindings
 * after it. Sub-expressions are evaluated in source order and each one sees
 * the bindings the previous one left, so an assignment nested anywhere is
 * visible to everything evaluated after it, also when a later step fails.
 * The imperative evaluator is proved to compute exactly this.
 */
module Semantics {
  import opened Values
  import Ast
  import Defs
  import opened Scopes

  datatype Option<+T> = None | Some(value: T)

  /**
   * The operations whose bodies are not part of this model: built-in calls,
   * binary and unary operators, applied to already evaluated operands.
   */
  datatype Externals = Externals(
    call: (Ast.BuiltIn, seq<Var>) -> Result<Var>,
    bin: (Ast.BinOp, Var, Var) -> Result<Var>,
    un: (Ast.UnOp, Var) -> Result<Var>)

  /** The outcome of one evaluation: its result and the bindings it leaves behind. */
  datatype Out<+T> = Out(result: Result<T>, vars: Bindings)

  /** The value an atom stands for: the same kind, carrying the same payload. */
  function AtomValue(a: Ast.Atom): (v: Var)
    ensures !v.Struct?
  {
    match a
    case Void => Var.Void
    case Bool(b) => Var.Bool(b)
    case Int(i) => Var.Int(i)
    case Float(x) => Var.Float(x)
    case Char(c) => Var.Char(c)
    case String(s) => Var.String(s)
  }

  /** The literal that denotes a value, for every value except a struct. */
  function AsAtom(v: Var): (r: Option<Ast.Atom>)
    ensures r.None? <==> v.Struct?
  {
    match v
    case Void => Some(Ast.Atom.Void)
    case Bool(b) => Some(Ast.Atom.Bool(b))
    case Int(i) => Some(Ast.Atom.Int(i))
    case Float(x) => Some(Ast.Atom.Float(x))
    case Char(c) => Some(Ast.Atom.Char(c))
    case String(s) => Some(Ast.Atom.String(s))
    case Struct(_, _) => None
  }

  /** Atom evaluation is a bijection between literals and non-struct values. */
  lemma AtomRoundTrip(a: Ast.Atom, v: Var)
    ensures AsAtom(AtomValue(a)) == Some(a)
    ensures !v.Struct? ==> AtomValue(AsAtom(v).value) == v
  {
  }

  /**
   * The check the assignment hands to `mutate_var`: a struct is never
   * overwritten, and below the top level the new value must have the type of
   * the old one. On success the new value is what gets stored.
   */
  function AssignRule(val: Var, pathLength: nat, cur: Var): (r: Result<Var>)
    ensures r.Ok? <==> !cur.Struct? && (pathLength <= 1 || TypeOf(val) == TypeOf(cur))
    ensures r.Ok? ==> r.value == val
    ensures cur.Struct? ==> r.error == CannotReassignStruct
    ensures r.Err? && !cur.Struct? ==> r.error == TypeMismatch
  {
    if cur.Struct? then Err(CannotReassignStruct)
    else if pathLength > 1 && TypeOf(val) != TypeOf(cur) then Err(TypeMismatch)
    else Ok(val)
  }

  /** `AssignRule` as the closure passed to `mutate_var`. */
  function AssignHook(val: Var, pathLength: nat): Var -> Result<Var> {
    cur => AssignRule(val, pathLength, cur)
  }

  /** The meaning of an expression: its result and the bindings after it. */
  function Eval(vars: Bindings, ctx: Defs.Context, ext: Externals, e: Ast.Expr): Out<Var>
    decreases e, 2, 0
  {
    match e
    case Ternary(_, _, _) => TernaryMeaning(vars, ctx, ext, e)
    case Assign(_, _) => AssignMeaning(vars, ctx, ext, e)
    case Atom(a) => Out(Ok(AtomValue(a)), vars)
    case LValue(path) => Out(Lookup(vars, path), vars)
    case StructInit(_, _) => StructInitMeaning(vars, ctx, ext, e)
    case Call(_, _) => CallMeaning(vars, ctx, ext, e)
    case BinExpr(_, _, _) => BinExprMeaning(vars, ctx, ext, e)
    case UnExpr(_, _) => UnExprMeaning(vars, ctx, ext, e)
  }

  /** An assignment: the right-hand side first, then `mutate_var` at the target with `AssignRule`. */
  function AssignMeaning(vars: Bindings, ctx: Defs.Context, ext: Externals, e: Ast.Expr): Out<Var>
    requires e.Assign?
    decreases e, 1, 0
  {
    var o := Eval(vars, ctx, ext, e.rhs);
    match o.result
    case Err(err) => Out(Err(err), o.vars)
    case Ok(val) =>
      match Mutate(o.vars, e.target, AssignHook(val, |e.target|))
      case Err(err) => Out(Err(err), o.vars)
      case Ok(after) => Out(Ok(val), after)
  }

  /** A ternary: the condition, then the branch a boolean condition selects. */
  function TernaryMeaning(vars: Bindings, ctx: Defs.Context, ext: Externals, e: Ast.Expr): Out<Var>
    requires e.Ternary?
    decreases e, 1, 0
  {
    var c := Eval(vars, ctx, ext, e.cond);
    match c.result
    case Err(err) => Out(Err(err), c.vars)
    case Ok(Bool(true)) => Eval(c.vars, ctx, ext, e.branch1)
    case Ok(Bool(false)) => Eval(c.vars, ctx, ext, e.branch2)
    case Ok(_) => Out(Err(NonBooleanCondition), c.vars)
  }

  /** A struct initialisation: the shape, the fields in order, then the field count. */
  function StructInitMeaning(vars: Bindings, ctx: Defs.Context, ext: Externals, e: Ast.Expr): Out<Var>
    requires e.StructInit?
    decreases e, 1, 0
  {
    match Defs.GetDef(ctx, e.name)
    case Err(err) => Out(Err(err), vars)
    case Ok(def) =>
      if !Defs.IsShape(def) then Out(Err(NotAStructType), vars)
      else
        var o := InitFields(vars, ctx, ext, e, def.shape, 0, map[]);
        match o.result
        case Err(err) => Out(Err(err), o.vars)
        case Ok(m) =>
          if |def.shape| != |m| then Out(Err(FieldCountMismatch), o.vars)
          else Out(Ok(Var.Struct(e.name, m)), o.vars)
  }

  /** A built-in call: the arguments in order, then the built-in. */
  function CallMeaning(vars: Bindings, ctx: Defs.Context, ext: Externals, e: Ast.Expr): Out<Var>
    requires e.Call?
    decreases e, 1, 0
  {
    var o := EvalArgs(vars, ctx, ext, e, 0, []);
    match o.result
    case Err(err) => Out(Err(err), o.vars)
    case Ok(args) => Out(ext.call(e.builtin, args), o.vars)
  }

  /** A binary expression: the left operand, the right operand, then the operator. */
  function BinExprMeaning(vars: Bindings, ctx: Defs.Context, ext: Externals, e: Ast.Expr): Out<Var>
    requires e.BinExpr?
    decreases e, 1, 0
  {
    var l := Eval(vars, ctx, ext, e.left);
    match l.result
    case Err(err) => Out(Err(err), l.vars)
    case Ok(lv) =>
      var r := Eval(l.vars, ctx, ext, e.right);
      match r.result
      case Err(err) => Out(Err(err), r.vars)
      case Ok(rv) => Out(ext.bin(e.binOp, lv, rv), r.vars)
  }

  /** A unary expression: the operand, then the operator. */
  function UnExprMeaning(vars: Bindings, ctx: Defs.Context, ext: Externals, e: Ast.Expr): Out<Var>
    requires e.UnExpr?
    decreases e, 1, 0
  {
    var o := Eval(vars, ctx, ext, e.operand);
    match o.result
    case Err(err) => Out(Err(err), o.vars)
    case Ok(v) => Out(ext.un(e.unOp, v), o.vars)
  }

  /**
   * Fields `i..` of a struct initialisation, on top of the map `acc` built from
   * fields `..i`: an undeclared name fails before its expression is evaluated,
   * a name already in the map fails after it.
   */
  function InitFields(vars: Bindings, ctx: Defs.Context, ext: Externals, e: Ast.Expr,
                      shape: Defs.Shape, i: nat, acc: map<string, Var>): (r: Out<map<string, Var>>)
    requires e.StructInit? && i <= |e.fields|
    decreases e, 0, |e.fields| - i
  {
    if i == |e.fields| then Out(Ok(acc), vars)
    else
      var (name, fieldExpr) := e.fields[i];
      if name !in shape then Out(Err(UnknownField), vars)
      else
        var o := Eval(vars, ctx, ext, fieldExpr);
        match o.result
        case Err(err) => Out(Err(err), o.vars)
        case Ok(v) =>
          if name in acc then Out(Err(FieldAlreadyInitialized), o.vars)
          else InitFields(o.vars, ctx, ext, e, shape, i + 1, acc[name := v])
  }

  /** The arguments `i..` of a call, evaluated in order and appended to `acc`. */
  function EvalArgs(vars: Bindings, ctx: Defs.Context, ext: Externals, e: Ast.Expr,
                    i: nat, acc: seq<Var>): (r: Out<seq<Var>>)
    requires e.Call? && i <= |e.args|
    ensures r.result.Ok? ==> |r.result.value| == |acc| + |e.args| - i && r.result.value[..|acc|] == acc
    decreases e, 0, |e.args| - i
  {
    if i == |e.args| then Out(Ok(acc), vars)
    else
      var o := Eval(vars, ctx, ext, e.args[i]);
      match o.result
      case Err(err) => Out(Err(err), o.vars)
      case Ok(v) => EvalArgs(o.vars, ctx, ext, e, i + 1, acc + [v])
  }

  // ---------------------------------------------------------------------------
  // Struct initialisation

  /** The field expressions `i..` of a struct initialisation evaluated in order, names ignored. */
  ghost function FieldValues(vars: Bindings, ctx: Defs.Context, ext: Externals, e: Ast.Expr, i: nat): Out<seq<Var>>
    requires e.StructInit? && i <= |e.fields|
    decreases |e.fields| - i
  {
    if i == |e.fields| then Out(Ok([]), vars)
    else
      var o := Eval(vars, ctx, ext, e.fields[i].1);
      match o.result
      case Err(err) => Out(Err(err), o.vars)
      case Ok(v) =>
        var rest := FieldValues(o.vars, ctx, ext, e, i + 1);
        match rest.result
        case Err(err) => Out(Err(err), rest.vars)
        case Ok(vs) => Out(Ok([v] + vs), rest.vars)
  }

  /** The names of fields `..i`. */
  ghost function NamesBefore(fields: seq<(string, Ast.Expr)>, i: nat): set<string>
    requires i <= |fields|
  {
    set j | 0 <= j < i :: fields[j].0
  }

  /** No name occurs twice among fields `i..`. */
  ghost predicate DistinctFrom(fields: seq<(string, Ast.Expr)>, i: nat) {
    forall j, k :: i <= j < k < |fields| ==> fields[j].0 != fields[k].0
  }

  /** No name among fields `i..` is in `keys`. */
  ghost predicate AvoidsFrom(fields: seq<(string, Ast.Expr)>, i: nat, keys: set<string>) {
    forall j :: i <= j < |fields| ==> fields[j].0 !in keys
  }

  /** Every name among fields `i..` is declared by `shape`. */
  ghost predicate DeclaredFrom(fields: seq<(string, Ast.Expr)>, i: nat, shape: Defs.Shape) {
    forall j :: i <= j < |fields| ==> fields[j].0 in shape
  }

  /** Adding the name at position `i` to the names seen so far: the freshness conditions move one step. */
  lemma FreshStep(fields: seq<(string, Ast.Expr)>, i: nat, keys: set<string>)
    requires i < |fields|
    ensures DistinctFrom(fields, i) && AvoidsFrom(fields, i, keys) <==>
      fields[i].0 !in keys && DistinctFrom(fields, i + 1) && AvoidsFrom(fields, i + 1, keys + {fields[i].0})
  {
  }

  /**
   * From position `i` on, the loop over the fields succeeds exactly when the
   * remaining names are new and declared and every remaining expression
   * evaluates; it then leaves the bindings the field expressions leave.
   */
  lemma {:induction false} InitFieldsSucceeds(vars: Bindings, ctx: Defs.Context, ext: Externals, e: Ast.Expr,
                                              shape: Defs.Shape, i: nat, acc: map<string, Var>)
    requires e.StructInit? && i <= |e.fields|
    requires acc.Keys == NamesBefore(e.fields, i)
    ensures InitFields(vars, ctx, ext, e, shape, i, acc).result.Ok? <==>
      && DistinctFrom(e.fields, i) && AvoidsFrom(e.fields, i, acc.Keys) && DeclaredFrom(e.fields, i, shape)
      && FieldValues(vars, ctx, ext, e, i).result.Ok?
    ensures InitFields(vars, ctx, ext, e, shape, i, acc).result.Ok? ==>
      InitFields(vars, ctx, ext, e, shape, i, acc).vars == FieldValues(vars, ctx, ext, e, i).vars
    decreases |e.fields| - i
  {
    var fs := e.fields;
    if i == |fs| {
      return;
    }
    var (name, fieldExpr) := fs[i];
    if name !in shape {
      assert !DeclaredFrom(fs, i, shape);
      return;
    }
    var r := Eval(vars, ctx, ext, fieldExpr);
    if r.result.Err? {
      return;
    }
    FreshStep(fs, i, acc.Keys);
    if name in acc {
      return;
    }
    var acc' := acc[name := r.result.value];
    assert NamesBefore(fs, i + 1) == NamesBefore(fs, i) + {name};
    InitFieldsSucceeds(r.vars, ctx, ext, e, shape, i + 1, acc');
    assert DeclaredFrom(fs, i, shape) <==> DeclaredFrom(fs, i + 1, shape);
  }

  /**
   * When the loop from position `i` succeeds, the map it returns holds the
   * names of all fields, keeps what `acc` held, and maps each remaining name
   * to the value of its expression.
   */
  lemma {:induction false} InitFieldsContents(vars: Bindings, ctx: Defs.Context, ext: Externals, e: Ast.Expr,
                                              shape: Defs.Shape, i: nat, acc: map<string, Var>)
    requires e.StructInit? && i <= |e.fields|
    requires acc.Keys == NamesBefore(e.fields, i)
    requires InitFields(vars, ctx, ext, e, shape, i, acc).result.Ok?
    ensures var m := InitFields(vars, ctx, ext, e, shape, i, acc).result.value;
      var fv := FieldValues(vars, ctx, ext, e, i);
      && fv.result.Ok?
      && |fv.result.value| == |e.fields| - i
      && m.Keys == NamesBefore(e.fields, |e.fields|)
      && (forall k :: k in acc ==> m[k] == acc[k])
      && (forall j :: i <= j < |e.fields| ==> m[e.fields[j].0] == fv.result.value[j - i])
    decreases |e.fields| - i
  {
    var fs := e.fields;
    if i == |fs| {
      return;
    }
    var (name, fieldExpr) := fs[i];
    var r := Eval(vars, ctx, ext, fieldExpr);
    var acc' := acc[name := r.result.value];
    assert NamesBefore(fs, i + 1) == NamesBefore(fs, i) + {name};
    InitFieldsContents(r.vars, ctx, ext, e, shape, i + 1, acc');
    var m := InitFields(r.vars, ctx, ext, e, shape, i + 1, acc').result.value;
    var rest := FieldValues(r.vars, ctx, ext, e, i + 1).result.value;
    var fv := FieldValues(vars, ctx, ext, e, i);
    assert fv.result.value == [r.result.value] + rest;
    forall j | i <= j < |fs|
      ensures m[fs[j].0] == fv.result.value[j - i]
    {
      if j > i {
        assert fv.result.value[j - i] == rest[j - (i + 1)];
      }
    }
  }

  /** Distinct names: as many names as fields. */
  lemma {:induction false} DistinctNamesCount(fields: seq<(string, Ast.Expr)>, n: nat)
    requires n <= |fields| && DistinctFrom(fields, 0)
    ensures |NamesBefore(fields, n)| == n
  {
    if n > 0 {
      DistinctNamesCount(fields, n - 1);
      assert NamesBefore(fields, n) == NamesBefore(fields, n - 1) + {fields[n - 1].0};
    }
  }

  /** A subset as large as its superset is the superset. */
  lemma {:induction false} SubsetOfSameSize<T>(a: set<T>, b: set<T>)
    requires a <= b && |a| == |b|
    ensures a == b
    decreases a
  {
    if a != {} {
      var y :| y in a;
      SubsetOfSameSize(a - {y}, b - {y});
    }
  }

  /**
   * A struct initialisation of a registered shape succeeds exactly when the
   * supplied names are distinct, all declared, as many as the declared fields,
   * and every field expression evaluates. The result is then a struct tagged
   * with the shape's name whose field set is the declared one, each field
   * holding the value of its expression.
   */
  lemma StructInitOutcome(vars: Bindings, ctx: Defs.Context, ext: Externals, name: string,
                          fields: seq<(string, Ast.Expr)>)
    requires name in ctx && Defs.IsShape(ctx[name])
    ensures var e := Ast.StructInit(name, fields);
      var o := Eval(vars, ctx, ext, e);
      var shape := ctx[name].shape;
      var fv := FieldValues(vars, ctx, ext, e, 0);
      && (o.result.Ok? <==>
            DistinctFrom(fields, 0) && DeclaredFrom(fields, 0, shape) && |fields| == |shape| && fv.result.Ok?)
      && (o.result.Ok? ==>
            && o.vars == fv.vars
            && o.result.value.Struct?
            && o.result.value.name == name
            && o.result.value.fields.Keys == shape.Keys
            && |fv.result.value| == |fields|
            && (forall j :: 0 <= j < |fields| ==> o.result.value.fields[fields[j].0] == fv.result.value[j]))
  {
    var e := Ast.StructInit(name, fields);
    var shape := ctx[name].shape;
    assert NamesBefore(fields, 0) == {};
    InitFieldsSucceeds(vars, ctx, ext, e, shape, 0, map[]);
    var o := InitFields(vars, ctx, ext, e, shape, 0, map[]);
    if o.result.Ok? {
      InitFieldsContents(vars, ctx, ext, e, shape, 0, map[]);
      var m := o.result.value;
      DistinctNamesCount(fields, |fields|);
      assert |m| == |fields|;
      if |fields| == |shape| {
        SubsetOfSameSize(m.Keys, shape.Keys);
      }
    }
  }

  /** An unregistered name, or one registered as something other than a shape, cannot be initialised. */
  lemma StructInitNeedsShape(vars: Bindings, ctx: Defs.Context, ext: Externals, name: string,
                             fields: seq<(string, Ast.Expr)>)
    ensures name !in ctx ==>
      Eval(vars, ctx, ext, Ast.StructInit(name, fields)) == Out(Err(UndefinedName), vars)
    ensures name in ctx && !Defs.IsShape(ctx[name]) ==>
      Eval(vars, ctx, ext, Ast.StructInit(name, fields)) == Out(Err(NotAStructType), vars)
  {
  }

  /** An undeclared field name fails before its expression runs: the bindings are those before it. */
  lemma UndeclaredFieldNotEvaluated(vars: Bindings, ctx: Defs.Context, ext: Externals, e: Ast.Expr,
                                    shape: Defs.Shape, i: nat, acc: map<string, Var>)
    requires e.StructInit? && i < |e.fields| && e.fields[i].0 !in shape
    ensures InitFields(vars, ctx, ext, e, shape, i, acc) == Out(Err(UnknownField), vars)
  {
  }

  /** A repeated field name fails only after its expression has been evaluated. */
  lemma RepeatedFieldEvaluatedFirst(vars: Bindings, ctx: Defs.Context, ext: Externals, e: Ast.Expr,
                                    shape: Defs.Shape, i: nat, acc: map<string, Var>)
    requires e.StructInit? && i < |e.fields| && e.fields[i].0 in shape && e.fields[i].0 in acc
    ensures var o := Eval(vars, ctx, ext, e.fields[i].1);
      InitFields(vars, ctx, ext, e, shape, i, acc)
        == Out(Err(if o.result.Err? then o.result.error else FieldAlreadyInitialized), o.vars)
  {
  }

  /**
   * Running the field loop of `e` over a prefix `p` of its fields: when the
   * prefix succeeds, the whole loop continues from the end of the prefix with
   * the map and bindings the prefix produced.
   */
  lemma {:induction false} InitFieldsPrefix(vars: Bindings, ctx: Defs.Context, ext: Externals, e: Ast.Expr,
                                            p: Ast.Expr, shape: Defs.Shape, i: nat, acc: map<string, Var>)
    requires e.StructInit? && p.StructInit?
    requires |p.fields| <= |e.fields| && p.fields == e.fields[..|p.fields|]
    requires i <= |p.fields|
    requires InitFields(vars, ctx, ext, p, shape, i, acc).result.Ok?
    ensures var q := InitFields(vars, ctx, ext, p, shape, i, acc);
      InitFields(vars, ctx, ext, e, shape, i, acc) == InitFields(q.vars, ctx, ext, e, shape, |p.fields|, q.result.value)
    decreases |p.fields| - i
  {
    if i < |p.fields| {
      assert p.fields[i] == e.fields[i];
      var (name, fieldExpr) := e.fields[i];
      var o := Eval(vars, ctx, ext, fieldExpr);
      InitFieldsPrefix(o.vars, ctx, ext, e, p, shape, i + 1, acc[name := o.result.value]);
    }
  }

  /**
   * The fields before position `k` are distinct, declared and all evaluate:
   * the loop then reaches position `k` holding their names, in the bindings
   * their expressions leave.
   */
  lemma ReachField(vars: Bindings, ctx: Defs.Context, ext: Externals, name: string,
                   fields: seq<(string, Ast.Expr)>, shape: Defs.Shape, k: nat)
    requires k <= |fields|
    requires DistinctFrom(fields[..k], 0) && DeclaredFrom(fields[..k], 0, shape)
    requires FieldValues(vars, ctx, ext, Ast.StructInit(name, fields[..k]), 0).result.Ok?
    ensures var p := Ast.StructInit(name, fields[..k]);
      var q := InitFields(vars, ctx, ext, p, shape, 0, map[]);
      && q.result.Ok?
      && q.vars == FieldValues(vars, ctx, ext, p, 0).vars
      && q.result.value.Keys == NamesBefore(fields, k)
      && InitFields(vars, ctx, ext, Ast.StructInit(name, fields), shape, 0, map[])
           == InitFields(q.vars, ctx, ext, Ast.StructInit(name, fields), shape, k, q.result.value)
  {
    var e := Ast.StructInit(name, fields);
    var p := Ast.StructInit(name, fields[..k]);
    assert NamesBefore(p.fields, 0) == {};
    InitFieldsSucceeds(vars, ctx, ext, p, shape, 0, map[]);
    InitFieldsContents(vars, ctx, ext, p, shape, 0, map[]);
    InitFieldsPrefix(vars, ctx, ext, e, p, shape, 0, map[]);
    assert NamesBefore(p.fields, k) == NamesBefore(fields, k) by {
      forall j | 0 <= j < k ensures p.fields[j].0 == fields[j].0 { }
    }
  }

  /**
   * Distinct, declared names whose expressions all evaluate, but fewer or more
   * of them than the shape declares: the initialisation fails with
   * `FieldCountMismatch` once every field expression has run.
   */
  lemma StructInitCountMismatch(vars: Bindings, ctx: Defs.Context, ext: Externals, name: string,
                                fields: seq<(string, Ast.Expr)>)
    requires name in ctx && Defs.IsShape(ctx[name])
    requires DistinctFrom(fields, 0) && DeclaredFrom(fields, 0, ctx[name].shape)
    requires FieldValues(vars, ctx, ext, Ast.StructInit(name, fields), 0).result.Ok?
    requires |fields| != |ctx[name].shape|
    ensures Eval(vars, ctx, ext, Ast.StructInit(name, fields))
      == Out(Err(FieldCountMismatch), FieldValues(vars, ctx, ext, Ast.StructInit(name, fields), 0).vars)
  {
    var e := Ast.StructInit(name, fields);
    var shape := ctx[name].shape;
    assert NamesBefore(fields, 0) == {};
    InitFieldsSucceeds(vars, ctx, ext, e, shape, 0, map[]);
    InitFieldsContents(vars, ctx, ext, e, shape, 0, map[]);
    DistinctNamesCount(fields, |fields|);
  }

  /**
   * The first undeclared name, after the fields before it were accepted,
   * decides the error: `UnknownField`, in the bindings the earlier field
   * expressions left; its own expression never runs.
   */
  lemma StructInitFirstUndeclared(vars: Bindings, ctx: Defs.Context, ext: Externals, name: string,
                                  fields: seq<(string, Ast.Expr)>, k: nat)
    requires name in ctx && Defs.IsShape(ctx[name])
    requires k < |fields|
    requires DistinctFrom(fields[..k], 0) && DeclaredFrom(fields[..k], 0, ctx[name].shape)
    requires FieldValues(vars, ctx, ext, Ast.StructInit(name, fields[..k]), 0).result.Ok?
    requires fields[k].0 !in ctx[name].shape
    ensures Eval(vars, ctx, ext, Ast.StructInit(name, fields))
      == Out(Err(UnknownField), FieldValues(vars, ctx, ext, Ast.StructInit(name, fields[..k]), 0).vars)
  {
    var e := Ast.StructInit(name, fields);
    var shape := ctx[name].shape;
    ReachField(vars, ctx, ext, name, fields, shape, k);
    var q := InitFields(vars, ctx, ext, Ast.StructInit(name, fields[..k]), shape, 0, map[]);
    UndeclaredFieldNotEvaluated(q.vars, ctx, ext, e, shape, k, q.result.value);
  }

  /**
   * The first declared name whose expression fails, after the fields before
   * it were accepted, decides the error: that expression's, in the bindings it
   * left.
   */
  lemma StructInitFirstFailingField(vars: Bindings, ctx: Defs.Context, ext: Externals, name: string,
                                    fields: seq<(string, Ast.Expr)>, k: nat)
    requires name in ctx && Defs.IsShape(ctx[name])
    requires k < |fields|
    requires DistinctFrom(fields[..k], 0) && DeclaredFrom(fields[..k], 0, ctx[name].shape)
    requires FieldValues(vars, ctx, ext, Ast.StructInit(name, fields[..k]), 0).result.Ok?
    requires fields[k].0 in ctx[name].shape
    ensures var before := FieldValues(vars, ctx, ext, Ast.StructInit(name, fields[..k]), 0).vars;
      var o := Eval(before, ctx, ext, fields[k].1);
      o.result.Err? ==> Eval(vars, ctx, ext, Ast.StructInit(name, fields)) == Out(Err(o.result.error), o.vars)
  {
    ReachField(vars, ctx, ext, name, fields, ctx[name].shape, k);
  }

  /**
   * The first name that repeats an earlier one, after the fields before it
   * were accepted, decides the error once its expression has run: that
   * expression's error if it fails, else `FieldAlreadyInitialized`, in the
   * bindings it left.
   */
  lemma StructInitFirstRepeated(vars: Bindings, ctx: Defs.Context, ext: Externals, name: string,
                                fields: seq<(string, Ast.Expr)>, k: nat, j: nat)
    requires name in ctx && Defs.IsShape(ctx[name])
    requires j < k < |fields| && fields[j].0 == fields[k].0
    requires DistinctFrom(fields[..k], 0) && DeclaredFrom(fields[..k], 0, ctx[name].shape)
    requires FieldValues(vars, ctx, ext, Ast.StructInit(name, fields[..k]), 0).result.Ok?
    ensures var before := FieldValues(vars, ctx, ext, Ast.StructInit(name, fields[..k]), 0).vars;
      var o := Eval(before, ctx, ext, fields[k].1);
      Eval(vars, ctx, ext, Ast.StructInit(name, fields))
        == Out(Err(if o.result.Err? then o.result.error else FieldAlreadyInitialized), o.vars)
  {
    var e := Ast.StructInit(name, fields);
    var shape := ctx[name].shape;
    ReachField(vars, ctx, ext, name, fields, shape, k);
    var q := InitFields(vars, ctx, ext, Ast.StructInit(name, fields[..k]), shape, 0, map[]);
    assert fields[j].0 in NamesBefore(fields, k);
    RepeatedFieldEvaluatedFirst(q.vars, ctx, ext, e, shape, k, q.result.value);
  }

  // ---------------------------------------------------------------------------
  // Assignment

  /**
   * An assignment evaluates its right-hand side first. It then fails, leaving
   * the bindings as the right-hand side left them, when the target cannot be
   * reached, holds a struct, or (below the top level) holds a value of another
   * type. Otherwise it stores the value at the target and returns it.
   */
  lemma AssignOutcome(vars: Bindings, ctx: Defs.Context, ext: Externals, target: Ast.Path, rhs: Ast.Expr)
    ensures var r := Eval(vars, ctx, ext, rhs);
      var o := Eval(vars, ctx, ext, Ast.Assign(target, rhs));
      && (r.result.Err? ==> o == Out(Err(r.result.error), r.vars))
      && (r.result.Ok? && Lookup(r.vars, target).Err? ==> o == Out(Err(Lookup(r.vars, target).error), r.vars))
      && (r.result.Ok? && Lookup(r.vars, target).Ok? ==>
            var val := r.result.value;
            var cur := Lookup(r.vars, target).value;
            && (cur.Struct? ==> o == Out(Err(CannotReassignStruct), r.vars))
            && (!cur.Struct? && |target| > 1 && TypeOf(val) != TypeOf(cur) ==> o == Out(Err(TypeMismatch), r.vars))
            && (!cur.Struct? && (|target| == 1 || TypeOf(val) == TypeOf(cur)) ==>
                  && o.result == Ok(val)
                  && Lookup(o.vars, target) == Ok(val)
                  && o.vars.Keys == r.vars.Keys))
  {
    var r := Eval(vars, ctx, ext, rhs);
    if r.result.Ok? {
      MutateAtPath(r.vars, target, AssignHook(r.result.value, |target|));
    }
  }

  /** A successful assignment changes nothing reachable by a path that diverges from its target. */
  lemma AssignFrame(vars: Bindings, ctx: Defs.Context, ext: Externals, target: Ast.Path, rhs: Ast.Expr,
                    other: Ast.Path)
    requires Eval(vars, ctx, ext, Ast.Assign(target, rhs)).result.Ok?
    requires Diverge(target, other)
    ensures var r := Eval(vars, ctx, ext, rhs);
      Lookup(Eval(vars, ctx, ext, Ast.Assign(target, rhs)).vars, other) == Lookup(r.vars, other)
  {
    var r := Eval(vars, ctx, ext, rhs);
    MutateFrame(r.vars, target, AssignHook(r.result.value, |target|), other);
  }

  /**
   * Assigning to a field keeps every enclosing struct: each proper prefix of
   * the target still holds a struct with the same name and the same set of
   * field names.
   */
  lemma AssignKeepsStructShape(vars: Bindings, ctx: Defs.Context, ext: Externals, target: Ast.Path,
                               rhs: Ast.Expr, n: nat)
    requires Eval(vars, ctx, ext, Ast.Assign(target, rhs)).result.Ok?
    requires 1 <= n < |target|
    ensures var before := Eval(vars, ctx, ext, rhs).vars;
      var after := Eval(vars, ctx, ext, Ast.Assign(target, rhs)).vars;
      var q: Ast.Path := target[..n];
      && Lookup(before, q).Ok? && Lookup(after, q).Ok?
      && Lookup(before, q).value.Struct? && Lookup(after, q).value.Struct?
      && Lookup(after, q).value.name == Lookup(before, q).value.name
      && Lookup(after, q).value.fields.Keys == Lookup(before, q).value.fields.Keys
  {
    var r := Eval(vars, ctx, ext, rhs);
    var q: Ast.Path := target[..n];
    assert q[0] == target[0] && q[1..] == target[1..][..n - 1];
    ReplaceKeepsShapes(r.vars[target[0]], target[1..], AssignHook(r.result.value, |target|), n - 1);
  }

  // ---------------------------------------------------------------------------
  // Ternary

  /**
   * A ternary evaluates its condition, then only the branch a boolean
   * condition selects; any other condition value is an error and neither
   * branch runs.
   */
  lemma TernaryOutcome(vars: Bindings, ctx: Defs.Context, ext: Externals, cond: Ast.Expr,
                       branch1: Ast.Expr, branch2: Ast.Expr)
    ensures Eval(vars, ctx, ext, cond).result.Err? ==>
      Eval(vars, ctx, ext, Ast.Ternary(cond, branch1, branch2))
        == Out(Err(Eval(vars, ctx, ext, cond).result.error), Eval(vars, ctx, ext, cond).vars)
    ensures Eval(vars, ctx, ext, cond).result == Ok(Var.Bool(true)) ==>
      Eval(vars, ctx, ext, Ast.Ternary(cond, branch1, branch2)) == Eval(Eval(vars, ctx, ext, cond).vars, ctx, ext, branch1)
    ensures Eval(vars, ctx, ext, cond).result == Ok(Var.Bool(false)) ==>
      Eval(vars, ctx, ext, Ast.Ternary(cond, branch1, branch2)) == Eval(Eval(vars, ctx, ext, cond).vars, ctx, ext, branch2)
    ensures Eval(vars, ctx, ext, cond).result.Ok? && !Eval(vars, ctx, ext, cond).result.value.Bool? ==>
      Eval(vars, ctx, ext, Ast.Ternary(cond, branch1, branch2)) == Out(Err(NonBooleanCondition), Eval(vars, ctx, ext, cond).vars)
  {
    var t := Ast.Ternary(cond, branch1, branch2);
    assert t.cond == cond && t.branch1 == branch1 && t.branch2 == branch2;
    var c := Eval(vars, ctx, ext, cond);
    var m := TernaryMeaning(vars, ctx, ext, t);
    assert Eval(vars, ctx, ext, t) == m;
    if c.result.Err? {
      assert m == Out(Err(c.result.error), c.vars);
    } else if c.result == Ok(Var.Bool(true)) {
      assert m == Eval(c.vars, ctx, ext, branch1);
    } else if c.result == Ok(Var.Bool(false)) {
      assert m == Eval(c.vars, ctx, ext, branch2);
    } else {
      assert m == Out(Err(NonBooleanCondition), c.vars);
    }
  }

  /** The branch a ternary does not take is never evaluated: replacing it changes nothing. */
  lemma TernaryIgnoresUntakenBranch(vars: Bindings, ctx: Defs.Context, ext: Externals, cond: Ast.Expr,
                                    branch1: Ast.Expr, branch2: Ast.Expr, other: Ast.Expr)
    ensures Eval(vars, ctx, ext, cond).result == Ok(Var.Bool(true)) ==>
      Eval(vars, ctx, ext, Ast.Ternary(cond, branch1, branch2)) == Eval(vars, ctx, ext, Ast.Ternary(cond, branch1, other))
    ensures Eval(vars, ctx, ext, cond).result == Ok(Var.Bool(false)) ==>
      Eval(vars, ctx, ext, Ast.Ternary(cond, branch1, branch2)) == Eval(vars, ctx, ext, Ast.Ternary(cond, other, branch2))
    ensures Eval(vars, ctx, ext, cond).result.Ok? && !Eval(vars, ctx, ext, cond).result.value.Bool? ==>
      Eval(vars, ctx, ext, Ast.Ternary(cond, branch1, branch2)) == Eval(vars, ctx, ext, Ast.Ternary(cond, other, other))
  {
    TernaryOutcome(vars, ctx, ext, cond, branch1, branch2);
    TernaryOutcome(vars, ctx, ext, cond, branch1, other);
    TernaryOutcome(vars, ctx, ext, cond, other, branch2);
    TernaryOutcome(vars, ctx, ext, cond, other, other);
  }

  // ---------------------------------------------------------------------------
  // Calls

  /** The arguments `i..` of a call evaluated in order, each in the bindings the previous one left. */
  ghost function ArgValues(vars: Bindings, ctx: Defs.Context, ext: Externals, e: Ast.Expr, i: nat): Out<seq<Var>>
    requires e.Call? && i <= |e.args|
    decreases |e.args| - i
  {
    if i == |e.args| then Out(Ok([]), vars)
    else
      var o := Eval(vars, ctx, ext, e.args[i]);
      match o.result
      case Err(err) => Out(Err(err), o.vars)
      case Ok(v) =>
        var rest := ArgValues(o.vars, ctx, ext, e, i + 1);
        match rest.result
        case Err(err) => Out(Err(err), rest.vars)
        case Ok(vs) => Out(Ok([v] + vs), rest.vars)
  }

  /**
   * The argument loop from position `i` fails exactly when some remaining
   * argument fails, with the first such error; otherwise it appends to `acc`
   * the values of the remaining arguments, one per argument, in source order.
   * Either way it leaves the bindings the evaluated arguments leave.
   */
  lemma {:induction false} EvalArgsValues(vars: Bindings, ctx: Defs.Context, ext: Externals, e: Ast.Expr,
                                          i: nat, acc: seq<Var>)
    requires e.Call? && i <= |e.args|
    ensures var av := ArgValues(vars, ctx, ext, e, i);
      var r := EvalArgs(vars, ctx, ext, e, i, acc);
      && r.vars == av.vars
      && (r.result.Ok? <==> av.result.Ok?)
      && (av.result.Err? ==> r.result.error == av.result.error)
      && (av.result.Ok? ==> |av.result.value| == |e.args| - i && r.result.value == acc + av.result.value)
    decreases |e.args| - i
  {
    if i < |e.args| {
      var o := Eval(vars, ctx, ext, e.args[i]);
      if o.result.Ok? {
        var acc' := acc + [o.result.value];
        EvalArgsValues(o.vars, ctx, ext, e, i + 1, acc');
        var rest := ArgValues(o.vars, ctx, ext, e, i + 1);
        if rest.result.Ok? {
          assert acc' + rest.result.value == acc + ([o.result.value] + rest.result.value);
        }
      }
    }
  }

  /**
   * A call evaluates every argument in order; the first failing argument
   * decides the error and no built-in runs. Otherwise the built-in is applied
   * to the argument values in source order.
   */
  lemma CallOutcome(vars: Bindings, ctx: Defs.Context, ext: Externals, builtin: Ast.BuiltIn, args: seq<Ast.Expr>)
    ensures var av := ArgValues(vars, ctx, ext, Ast.Call(builtin, args), 0);
      Eval(vars, ctx, ext, Ast.Call(builtin, args))
        == if av.result.Ok? then Out(ext.call(builtin, av.result.value), av.vars)
           else Out(Err(av.result.error), av.vars)
  {
    var e := Ast.Call(builtin, args);
    EvalArgsValues(vars, ctx, ext, e, 0, []);
    var av := ArgValues(vars, ctx, ext, e, 0);
    if av.result.Ok? {
      assert [] + av.result.value == av.result.value;
    }
    assert Eval(vars, ctx, ext, e) == CallMeaning(vars, ctx, ext, e);
  }

  // ---------------------------------------------------------------------------
  // Atoms and lvalues

  /** An atom never fails, leaves the bindings alone and yields its own value. */
  lemma AtomOutcome(vars: Bindings, ctx: Defs.Context, ext: Externals, a: Ast.Atom)
    ensures Eval(vars, ctx, ext, Ast.Atom(a)) == Out(Ok(AtomValue(a)), vars)
    ensures AsAtom(Eval(vars, ctx, ext, Ast.Atom(a)).result.value) == Some(a)
  {
  }
}
