/**
 * Worked examples proved about `Eval`, on a registry holding one shape,
 * `Point { x: Int, y: Int }`.
 */
module Scenarios {
  import opened Values
  import Ast
  import Defs
  import opened Scopes
  import opened Semantics

  const PointShape: Defs.Shape := map["x" := IntType, "y" := IntType]
  const Registry: Defs.Context := map["Point" := Defs.Struct(PointShape), "gravity" := Defs.Static(Var.Int(10))]

  function IntLit(n: I64): Ast.Expr {
    Ast.Expr.Atom(Ast.Atom.Int(n))
  }

  function PointValue(x: I64, y: I64): Var {
    Var.Struct("Point", map["x" := Var.Int(x), "y" := Var.Int(y)])
  }

  /** Initialising `Point`: all fields; a missing one; an unknown one; a repeated one; a non-shape name. */
  lemma PointInit(vars: Bindings, ext: Externals)
    ensures Eval(vars, Registry, ext, Ast.StructInit("Point", [("x", IntLit(1)), ("y", IntLit(2))]))
      == Out(Ok(PointValue(1, 2)), vars)
    ensures Eval(vars, Registry, ext, Ast.StructInit("Point", [("x", IntLit(1))]))
      == Out(Err(FieldCountMismatch), vars)
    ensures Eval(vars, Registry, ext, Ast.StructInit("Point", [("x", IntLit(1)), ("z", IntLit(3))]))
      == Out(Err(UnknownField), vars)
    ensures Eval(vars, Registry, ext, Ast.StructInit("Point", [("x", IntLit(1)), ("x", IntLit(2))]))
      == Out(Err(FieldAlreadyInitialized), vars)
    ensures Eval(vars, Registry, ext, Ast.StructInit("gravity", []))
      == Out(Err(NotAStructType), vars)
  {
    var e := Ast.StructInit("Point", [("x", IntLit(1)), ("y", IntLit(2))]);
    assert InitFields(vars, Registry, ext, e, PointShape, 0, map[])
      == Out(Ok(map["x" := Var.Int(1), "y" := Var.Int(2)]), vars);
    var e2 := Ast.StructInit("Point", [("x", IntLit(1)), ("x", IntLit(2))]);
    assert InitFields(vars, Registry, ext, e2, PointShape, 1, map["x" := Var.Int(1)])
      == Out(Err(FieldAlreadyInitialized), vars);
  }

  /** Assigning an `Int` to the field `p.x` of a bound `Point` stores it and returns it. */
  lemma PointFieldAssign(ext: Externals)
    ensures Eval(map["p" := PointValue(1, 2)], Registry, ext, Ast.Assign(["p", "x"], IntLit(5)))
      == Out(Ok(Var.Int(5)), map["p" := PointValue(5, 2)])
  {
    var vars := map["p" := PointValue(1, 2)];
    var f := AssignHook(Var.Int(5), 2);
    PointFieldReplace();
    var target: Ast.Path := ["p", "x"];
    assert target[0] == "p" && target[1..] == ["x"];
    assert vars["p" := PointValue(5, 2)] == map["p" := PointValue(5, 2)];
    assert Mutate(vars, target, f) == Ok(map["p" := PointValue(5, 2)]);
    var e := Ast.Assign(target, IntLit(5));
    assert Eval(vars, Registry, ext, e.rhs) == Out(Ok(Var.Int(5)), vars);
    assert AssignMeaning(vars, Registry, ext, e) == Out(Ok(Var.Int(5)), map["p" := PointValue(5, 2)]);
  }

  /** The field update inside `PointFieldAssign`: `x` of `Point { x: 1, y: 2 }` becomes 5. */
  lemma PointFieldReplace()
    ensures Replace(PointValue(1, 2), ["x"], AssignHook(Var.Int(5), 2)) == Ok(PointValue(5, 2))
  {
    var f := AssignHook(Var.Int(5), 2);
    assert f(Var.Int(1)) == Ok(Var.Int(5));
    assert ["x"][1..] == [];
    assert PointValue(1, 2).fields["x" := Var.Int(5)] == PointValue(5, 2).fields;
  }

  /** A binding that holds a whole struct cannot be assigned to. */
  lemma PointWholeAssign(ext: Externals)
    ensures Eval(map["p" := PointValue(1, 2)], Registry, ext, Ast.Assign(["p"], IntLit(5)))
      == Out(Err(CannotReassignStruct), map["p" := PointValue(1, 2)])
  {
    var target: Ast.Path := ["p"];
    assert target[1..] == [];
  }

  /** A `Bool` cannot be stored in the `Int` field `p.x`. */
  lemma PointFieldTypeMismatch(ext: Externals)
    ensures Eval(map["p" := PointValue(1, 2)], Registry, ext, Ast.Assign(["p", "x"], Ast.Expr.Atom(Ast.Atom.Bool(true))))
      == Out(Err(TypeMismatch), map["p" := PointValue(1, 2)])
  {
    var target: Ast.Path := ["p", "x"];
    assert target[1..] == ["x"];
    assert ["x"][1..] == [];
  }

  /** A top-level binding holding a non-struct is rebound whatever the new value's type. */
  lemma TopLevelRebind(ext: Externals)
    ensures Eval(map["n" := Var.Int(1)], Registry, ext, Ast.Assign(["n"], Ast.Expr.Atom(Ast.Atom.Bool(true))))
      == Out(Ok(Var.Bool(true)), map["n" := Var.Bool(true)])
  {
    var target: Ast.Path := ["n"];
    assert target[1..] == [];
    assert map["n" := Var.Int(1)]["n" := Var.Bool(true)] == map["n" := Var.Bool(true)];
  }
}
