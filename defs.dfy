/**
 * The definition registry (`Context`): every declared name maps to a `Def`.
 * Components, resources and structs are shapes (field name to declared type);
 * the other kinds of declaration are not shapes and cannot be initialised.
 */
module Defs {
  import Values

  /** The declared fields of a shape: field name to declared type. */
  type Shape = map<string, Values.VarType>

  datatype Def =
    | Component(shape: Shape)
    | Resource(shape: Shape)
    | Struct(shape: Shape)
    | Static(value: Values.Var)
    | System

  type Context = map<string, Def>

  /** The three kinds of declaration that share the struct-initialisation rule. */
  predicate IsShape(d: Def) {
    d.Component? || d.Resource? || d.Struct?
  }

  /** `get_def`: the definition registered under `name`, or `UndefinedName`. */
  function GetDef(ctx: Context, name: string): (r: Values.Result<Def>)
    ensures r.Ok? <==> name in ctx
    ensures r.Ok? ==> r.value == ctx[name]
    ensures r.Err? ==> r.error == Values.UndefinedName
  {
    if name in ctx then Values.Ok(ctx[name]) else Values.Err(Values.UndefinedName)
  }
}
