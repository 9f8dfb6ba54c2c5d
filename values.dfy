/**
 * The runtime value model of the evaluator: the tagged union `Var` that every
 * expression reduces to, the type tags `get_type()` reports for it, and the
 * error tags an evaluation can fail with.
 */
module Values {

  /** A signed 64-bit integer, the payload of `Int`. */
  type I64 = x: int | -0x8000_0000_0000_0000 <= x < 0x8000_0000_0000_0000

  /** A 32-bit float, kept opaque: the model carries its bits and never interprets them. */
  datatype F32 = F32(bits: bv32)

  /** A runtime value. Structs are values here: a name and a map from field name to value. */
  datatype Var =
    | Void
    | Bool(b: bool)
    | Int(i: I64)
    | Float(x: F32)
    | Char(c: char)
    | String(s: string)
    | Struct(name: string, fields: map<string, Var>)

  /** What `get_type()` reports for a value: the variant, and for a struct its shape name. */
  datatype VarType =
    | VoidType
    | BoolType
    | IntType
    | FloatType
    | CharType
    | StringType
    | StructType(name: string)

  function TypeOf(v: Var): (t: VarType)
    ensures t.StructType? <==> v.Struct?
    ensures v.Struct? ==> t.name == v.name
  {
    match v
    case Void => VoidType
    case Bool(_) => BoolType
    case Int(_) => IntType
    case Float(_) => FloatType
    case Char(_) => CharType
    case String(_) => StringType
    case Struct(name, _) => StructType(name)
  }

  /** Two values have the same type exactly when they are the same variant (and, for structs, the same shape). */
  lemma SameTypeSameVariant(u: Var, v: Var)
    ensures TypeOf(u) == TypeOf(v) <==>
      && (u.Void? <==> v.Void?) && (u.Bool? <==> v.Bool?) && (u.Int? <==> v.Int?)
      && (u.Float? <==> v.Float?) && (u.Char? <==> v.Char?) && (u.String? <==> v.String?)
      && (u.Struct? <==> v.Struct?) && (u.Struct? && v.Struct? ==> u.name == v.name)
  {
  }

  /** The failures of an evaluation, as tags. */
  datatype Error =
    | UndefinedName
    | NotAStruct
    | UnknownField
    | FieldAlreadyInitialized
    | FieldCountMismatch
    | NotAStructType
    | CannotReassignStruct
    | TypeMismatch
    | NonBooleanCondition
    | ArityMismatch
    | InvalidOperator

  datatype Result<+T> = Ok(value: T) | Err(error: Error)
}
