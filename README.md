# cstar expression evaluator, modelled in Dafny

cstar is a small language for Entity-Component-System simulations. Programs declare
components, resources, structs, statics and systems, and a tree-walking evaluator runs
the systems' code. This project models the core of that evaluator,
`src/eval/expressions.rs`. It covers:

- the runtime value `Var`;
- the definition registry (`Context`, name to `Def`);
- the scope the evaluator reads and mutates through paths;
- the eight kinds of expression the evaluator dispatches on.

The modules follow the program's structure:

- `Values` (`values.dfy`): `Var`, the type tags reported by `get_type()`, and the error tags.
- `Ast` (`ast.dfy`): the expression tree, in the form the evaluator reads it. There is a
  `Ternary` variant, an lvalue is a non-empty path of names, and a struct initialisation
  carries `name` and its `(field, expr)` list in source order.
- `Defs` (`defs.dfy`): `Def` (`Component`, `Resource`, `Struct` are shapes; `Static` and
  `System` are not), `Context` and `get_def`.
- `Scopes` (`scopes.dfy`): the `Scope` class. It holds a `map` of bindings, has a
  path-walking `GetVar` and a `MutateVar` that applies an update closure at a path. Beside
  it are the pure path functions `Descend`, `Lookup`, `Replace` and `Mutate`, with lemmas
  saying what a mutation changes and what it leaves alone.
- `Semantics` (`semantics.dfy`): `Eval`, a function giving the meaning of an expression.
  It maps the bindings before an expression to its result and the bindings after it. It
  has one meaning function per kind of expression, and lemmas for struct initialisation,
  assignment, the ternary, calls and atoms.
- `Evaluator` (`evaluator.dfy`): one method per `eval_*` function of the source. Each
  method works on a `Scope` object that is updated in place. Each is proved to return, and
  to leave in the scope, exactly what `Eval` gives. `eval_struct_init` is a loop that builds
  the field map and exits early on an error, as in the source.
- `Scenarios` (`scenarios.dfy`): worked examples proved about `Eval`, on a registry
  holding `Point { x: Int, y: Int }`.

Three points where the model follows exactly what the code does:

- Assignment refuses any target that currently holds a struct, at any depth. The source's
  comment at `src/eval/expressions.rs:26` reads "Structs can't be reassigned to", and the
  check at line 27 does not look at the path length. A field that holds a nested struct
  therefore cannot be replaced wholesale either, not only a top-level binding.
- The expression tree follows what the evaluator reads, not `src/ast/expressions.rs`:
  - a `Ternary` variant;
  - `lvalue.path` as a non-empty path;
  - `struct_init.name`.
- The values a struct initialisation stores are not checked against the shape's declared
  field types. Only the field names and their count are checked (lines 76-87).

## Model

| member | source | states |
|---|---|---|
| Values.TypeOf | src/eval/expressions.rs:32-33 | `get_type()` reports a struct type exactly for struct values, carrying the struct's shape name |
| Values.SameTypeSameVariant | src/eval/expressions.rs:32-33 | the type check compares variants: two values have the same type iff they are the same variant, and for structs have the same shape name |
| Defs.GetDef | src/eval/expressions.rs:71 | `get_def` succeeds exactly for registered names, returning their definition, and otherwise fails with `UndefinedName` |
| Scopes.Descend | src/eval/expressions.rs:65-67 | following an empty field path yields the value itself; a failed walk fails only with `NotAStruct` or `UnknownField` |
| Scopes.Lookup | src/eval/expressions.rs:65-67 | reading a path fails with `UndefinedName` exactly when its first segment is unbound; any other failure is `NotAStruct` or `UnknownField` |
| Scopes.Replace | src/eval/expressions.rs:25-38 | a successful update below a struct returns a struct with the same name and the same set of field names |
| Scopes.Mutate | src/eval/expressions.rs:25-38 | a successful `mutate_var` never adds or removes a top-level binding |
| Scopes.ReplaceAtPath | src/eval/expressions.rs:25-38 | updating at a field path succeeds iff the path can be followed and the closure accepts the value found; the path then holds the closure's value; otherwise it fails with the path's error, else the closure's |
| Scopes.ReplaceKeepsShapes | src/eval/expressions.rs:25-38 | a successful update keeps every struct strictly above the updated position, with its name and field names unchanged |
| Scopes.ReplaceFrame | src/eval/expressions.rs:36 | a successful update leaves every field path that diverges from the updated one as it was |
| Scopes.MutateAtPath | src/eval/expressions.rs:25-38 | `mutate_var` succeeds iff `get_var` finds a value at the path and the closure accepts it; reading the path afterwards gives the closure's value; otherwise it fails with the lookup's error, else the closure's |
| Scopes.MutateFrame | src/eval/expressions.rs:36 | after a successful `mutate_var`, every path that diverges from the mutated one reads as before |
| Scopes.Scope.GetVar | src/eval/expressions.rs:66 | `get_var` walks the path segment by segment with a cursor and returns exactly the value `Lookup` specifies, or its error |
| Scopes.Scope.MutateVar | src/eval/expressions.rs:25-38 | `mutate_var` succeeds iff `Mutate` does; the bindings become `Mutate`'s result, and on failure they are unchanged |
| Semantics.AtomValue | src/eval/expressions.rs:53-62 | an atom evaluates to a primitive value, never a struct |
| Semantics.AsAtom | src/eval/expressions.rs:53-62 | every value except a struct is denoted by a literal |
| Semantics.AtomRoundTrip | src/eval/expressions.rs:53-62 | each of the six atom kinds maps to the same-tagged value with the same payload: literal to value and back is the identity, and so is value to literal and back for every non-struct value |
| Semantics.AssignRule | src/eval/expressions.rs:26-37 | the assignment closure accepts iff the current value is not a struct and, for a path longer than one, the new value has the current value's type; it stores exactly the new value; a struct is refused with `CannotReassignStruct`, and any other refusal is `TypeMismatch` |
| Semantics.InitFieldsSucceeds | src/eval/expressions.rs:75-83 | from position i on, the field loop succeeds iff the remaining names are distinct, not yet initialised and declared, and every remaining field expression evaluates; it then leaves the bindings those evaluations leave |
| Semantics.InitFieldsContents | src/eval/expressions.rs:75-83 | a successful field loop returns a map whose keys are all the supplied names, keeps the earlier entries, and maps each name to the value of its own expression |
| Semantics.EvalArgs | src/eval/expressions.rs:15 | evaluating the arguments from position i on, when it succeeds, appends one value per remaining argument to those already collected and keeps them in front |
| Semantics.EvalArgsValues | src/eval/expressions.rs:15 | the argument loop fails exactly when some remaining argument fails, with the first such error; otherwise it appends to the collected values exactly the remaining arguments' values, in source order, each evaluated in the bindings the earlier ones left; it leaves the bindings those evaluations leave |
| Semantics.CallOutcome | src/eval/expressions.rs:15 | a call's first failing argument decides its error and no built-in runs; otherwise the built-in is applied to the argument values in source order, in the bindings the arguments left |
| Semantics.StructInitOutcome | src/eval/expressions.rs:70-90 | for a registered shape, initialisation succeeds iff the names are distinct, all declared, as many as the declared fields, and every field expression evaluates; the result is a struct tagged with the shape's name whose field set is exactly the declared one, each field holding its expression's value |
| Semantics.StructInitNeedsShape | src/eval/expressions.rs:70-92 | an unregistered name fails with `UndefinedName`, and a name registered as something other than a component, resource or struct fails with `NotAStructType`; in both cases no field expression is evaluated |
| Semantics.UndeclaredFieldNotEvaluated | src/eval/expressions.rs:76-78 | an undeclared field name fails with `UnknownField` before its expression is evaluated, so the bindings are those before it |
| Semantics.RepeatedFieldEvaluatedFirst | src/eval/expressions.rs:80-82 | a repeated field name is rejected only after its expression has been evaluated: the bindings are those the expression left, and an error from the expression takes precedence |
| Semantics.InitFieldsPrefix | src/eval/expressions.rs:75-83 | when the field loop over the first fields succeeds, the loop over all fields continues from there with the map and bindings that prefix produced |
| Semantics.ReachField | src/eval/expressions.rs:75-83 | when the fields before position k are distinct, declared and all evaluate, the loop reaches position k holding exactly their names, in the bindings their expressions left |
| Semantics.StructInitCountMismatch | src/eval/expressions.rs:85-87 | distinct, declared names whose expressions all evaluate but whose number differs from the shape's field count fail with `FieldCountMismatch`, in the bindings all the field expressions left |
| Semantics.StructInitFirstUndeclared | src/eval/expressions.rs:75-78 | after the earlier fields were accepted, the first undeclared name fails the whole initialisation with `UnknownField` in the bindings the earlier expressions left; its own expression never runs |
| Semantics.StructInitFirstFailingField | src/eval/expressions.rs:75-80 | after the earlier fields were accepted, a declared field whose expression fails fails the whole initialisation with that error, in the bindings the expression left |
| Semantics.StructInitFirstRepeated | src/eval/expressions.rs:75-82 | after the earlier fields were accepted, the first name repeating an earlier one fails the whole initialisation once its expression has run: with that expression's error if it fails, else `FieldAlreadyInitialized`, in the bindings it left |
| Semantics.AssignOutcome | src/eval/expressions.rs:22-41 | assignment evaluates the right-hand side first. It then fails, leaving the bindings as the right-hand side left them, if the target cannot be reached, holds a struct (at any path length), or (path longer than one) holds a value of another type. Otherwise it returns the value, the target reads as that value, and no top-level binding is added or removed; a length-1 path to a non-struct is rebound with no type check |
| Semantics.AssignFrame | src/eval/expressions.rs:36-40 | a successful assignment changes nothing reachable by a path diverging from the target |
| Semantics.AssignKeepsStructShape | src/eval/expressions.rs:25-38 | a successful assignment keeps every struct on the way to the target: each proper prefix of the target path holds a struct before and after, with the same name and the same field names |
| Semantics.TernaryOutcome | src/eval/expressions.rs:44-50 | the condition is evaluated first; its error propagates; `true` gives exactly branch1's outcome, `false` exactly branch2's, and any other value fails with `NonBooleanCondition` with neither branch evaluated |
| Semantics.TernaryIgnoresUntakenBranch | src/eval/expressions.rs:45-49 | the branch not taken is never evaluated: replacing it by any other expression changes neither the result nor the bindings; on a non-boolean condition neither branch matters |
| Semantics.AtomOutcome | src/eval/expressions.rs:12 | an atom expression never fails, leaves the bindings unchanged, and yields the value its literal denotes |
| Evaluator.EvalExpr | src/eval/expressions.rs:8-19 | the dispatch returns, and leaves in the scope, exactly the outcome `Eval` gives |
| Evaluator.EvalAssign | src/eval/expressions.rs:22-41 | the in-place assignment through `MutateVar` returns and leaves exactly `AssignMeaning`'s outcome |
| Evaluator.EvalTernary | src/eval/expressions.rs:44-50 | the ternary method returns and leaves exactly `TernaryMeaning`'s outcome |
| Evaluator.EvalAtom | src/eval/expressions.rs:53-62 | an atom always evaluates successfully, to the value its literal denotes |
| Evaluator.EvalLValue | src/eval/expressions.rs:65-67 | an lvalue returns the value stored at its path (or the lookup's error) and does not modify the scope |
| Evaluator.EvalStructInit | src/eval/expressions.rs:70-93 | the loop that builds the field map returns and leaves exactly `StructInitMeaning`'s outcome, whose properties `StructInitOutcome` states |
| Evaluator.EvalCall | src/eval/expressions.rs:15 | a call evaluates its arguments in order, then applies the built-in |
| Evaluator.EvalBinExpr | src/eval/expressions.rs:16 | a binary expression evaluates the left operand, then the right, then applies the operator |
| Evaluator.EvalUnExpr | src/eval/expressions.rs:17 | a unary expression evaluates its operand, then applies the operator |
| Scenarios.PointInit | src/eval/expressions.rs:70-93 | `Point { x: 1, y: 2 }` builds the struct; omitting `y` fails with `FieldCountMismatch`; `z` in place of `y` fails with `UnknownField`; `x` twice fails with `FieldAlreadyInitialized`; a static's name fails with `NotAStructType` |
| Scenarios.PointFieldAssign | src/eval/expressions.rs:22-41 | `p.x = 5` on a bound `Point` stores 5 in `x`, leaves `y`, and returns 5 |
| Scenarios.PointWholeAssign | src/eval/expressions.rs:26-29 | `p = 5` on a binding holding a `Point` fails with `CannotReassignStruct` and changes nothing |
| Scenarios.PointFieldTypeMismatch | src/eval/expressions.rs:32-34 | `p.x = true` fails with `TypeMismatch` and changes nothing |
| Scenarios.TopLevelRebind | src/eval/expressions.rs:32-37 | `n = true` on a binding holding an `Int` rebinds it, with no type check at path length 1 |

## Left out

- Sharing of struct contents between bindings is not modelled. `Var`'s definition is not
  part of this model, so whether the source shares struct contents cannot be read from the
  core; line 89 stores a plain map built at lines 73-82. The model gives structs value
  semantics: a write through one binding is never seen through another.
- The `List` value and list initialisation are left out. The evaluator in this core
  neither builds nor matches them.
- Evaluator.EvalCall, Evaluator.EvalBinExpr, Evaluator.EvalUnExpr: the bodies of
  `eval_call`, `eval_bin_expr` and `eval_un_expr` are not part of this model. The model
  assumes their operands are evaluated left to right. The call, the operator and the
  built-ins then come from a parameter (`Semantics.Externals`) whose functions are
  uninterpreted. `Print`'s output, the arity check's position, and `Clone`, `Spawn` and
  `Delete` are therefore not modelled.
- Semantics.EvalArgs: its own contract gives only the number of values and the kept prefix.
  What those values are is stated by `Semantics.EvalArgsValues`, and what a call does with
  them by `Semantics.CallOutcome`. Both rest on the left-to-right assumption above.
- `Float` values are opaque 32-bit payloads. No float arithmetic is modelled.
- Errors are tags. The text of the error messages is not modelled.
- The bodies of `get_var` and `mutate_var` are not part of this model. `GetVar` walks the
  path with a cursor. `MutateVar` applies the update through the pure `Mutate`, not through
  a cursor into the aggregate. The closure `get_var` receives is always a plain clone, so
  `GetVar` returns the value itself.
- The `mutate_var` closure is modelled as a function from the current value to a
  replacement value or an error. The only closure the core passes (line 25) has this form.
- `Def`'s definition and `get_type()` are not part of this model. `Static` and `System`
  stand for the registry's non-shape kinds. A struct's type is taken to be its shape's
  name. The scope does not consult statics.
- `Int` holds a 64-bit signed value (`I64`). The core does no arithmetic on it, so there is
  no wrap-around to model.
- The parser (`src/parser/mod.rs`, `src/parser/systems.rs`) is not modelled: it walks
  parse trees of a generated grammar that is not part of this model.
- `Scope`'s `set_var`, the system scheduler and the entity storage are not modelled. The
  evaluator does not call them.
