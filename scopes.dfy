/**
 * The binding environment the evaluator reads and writes. A path names a
 * top-level binding and then descends through struct fields; reading and
 * mutating follow the path one segment at a time and fail at the first
 * segment that is missing or that would descend into a non-struct.
 */
module Scopes {
  import opened Values
  import Ast

  /** Top-level bindings: identifier to value. */
  type Bindings = map<string, Var>

  /** The value reached from `v` by following the field names `fields`. */
  function Descend(v: Var, fields: seq<string>): (r: Result<Var>)
    ensures fields == [] ==> r == Ok(v)
    ensures r.Err? ==> r.error == NotAStruct || r.error == UnknownField
    decreases fields
  {
    if fields == [] then Ok(v)
    else if !v.Struct? then Err(NotAStruct)
    else if fields[0] !in v.fields then Err(UnknownField)
    else Descend(v.fields[fields[0]], fields[1..])
  }

  /** The value at `path`: its first segment must be bound, the rest are followed with `Descend`. */
  function Lookup(vars: Bindings, path: Ast.Path): (r: Result<Var>)
    ensures r == Err(UndefinedName) <==> path[0] !in vars
    ensures r.Err? ==> r.error in {UndefinedName, NotAStruct, UnknownField}
  {
    if path[0] !in vars then Err(UndefinedName) else Descend(vars[path[0]], path[1..])
  }

  /**
   * `v` with the value at `fields` replaced by what `f` makes of it. `f` is the
   * update a caller hands to `mutate_var`: `Ok(w)` stores `w`, `Err` aborts.
   * Every struct on the way keeps its name and its set of field names.
   */
  function Replace(v: Var, fields: seq<string>, f: Var -> Result<Var>): (r: Result<Var>)
    ensures r.Ok? && fields != [] ==>
      v.Struct? && r.value.Struct? && r.value.name == v.name && r.value.fields.Keys == v.fields.Keys
    decreases fields
  {
    if fields == [] then f(v)
    else if !v.Struct? then Err(NotAStruct)
    else if fields[0] !in v.fields then Err(UnknownField)
    else
      match Replace(v.fields[fields[0]], fields[1..], f)
      case Err(e) => Err(e)
      case Ok(w) => Ok(Struct(v.name, v.fields[fields[0] := w]))
  }

  /** The bindings after `f` is applied at `path`; the set of top-level names never changes. */
  function Mutate(vars: Bindings, path: Ast.Path, f: Var -> Result<Var>): (r: Result<Bindings>)
    ensures r.Ok? ==> r.value.Keys == vars.Keys
  {
    if path[0] !in vars then Err(UndefinedName)
    else
      match Replace(vars[path[0]], path[1..], f)
      case Err(e) => Err(e)
      case Ok(w) => Ok(vars[path[0] := w])
  }

  /** Two paths diverge when, after a common prefix, they name different fields. */
  predicate Diverge(a: seq<string>, b: seq<string>)
    decreases a
  {
    |a| > 0 && |b| > 0 && (a[0] != b[0] || Diverge(a[1..], b[1..]))
  }

  /**
   * `Replace` succeeds exactly when the path can be followed and `f` accepts the
   * value found there; it then stores `f`'s value at the path. Otherwise it fails
   * with the first error: that of the path, else that of `f`.
   */
  lemma {:induction false} ReplaceAtPath(v: Var, fields: seq<string>, f: Var -> Result<Var>)
    ensures Descend(v, fields).Err? ==> Replace(v, fields, f) == Err(Descend(v, fields).error)
    ensures Descend(v, fields).Ok? ==>
      var cur := Descend(v, fields).value;
      && (f(cur).Err? ==> Replace(v, fields, f) == Err(f(cur).error))
      && (f(cur).Ok? ==> Replace(v, fields, f).Ok? && Descend(Replace(v, fields, f).value, fields) == f(cur))
    decreases fields
  {
    if fields != [] && v.Struct? && fields[0] in v.fields {
      ReplaceAtPath(v.fields[fields[0]], fields[1..], f);
    }
  }

  /**
   * A successful `Replace` keeps every struct strictly above the updated
   * position: its name and its set of field names are as before.
   */
  lemma {:induction false} ReplaceKeepsShapes(v: Var, fields: seq<string>, f: Var -> Result<Var>, n: nat)
    requires Replace(v, fields, f).Ok? && n < |fields|
    ensures var a := Descend(v, fields[..n]);
      var b := Descend(Replace(v, fields, f).value, fields[..n]);
      && a.Ok? && b.Ok? && a.value.Struct? && b.value.Struct?
      && b.value.name == a.value.name && b.value.fields.Keys == a.value.fields.Keys
    decreases fields
  {
    if n > 0 {
      assert fields[..n][1..] == fields[1..][..n - 1];
      ReplaceKeepsShapes(v.fields[fields[0]], fields[1..], f, n - 1);
    }
  }

  /** A successful `Replace` leaves every path that diverges from its own as it was. */
  lemma {:induction false} ReplaceFrame(v: Var, fields: seq<string>, f: Var -> Result<Var>, other: seq<string>)
    requires Replace(v, fields, f).Ok?
    requires Diverge(fields, other)
    ensures Descend(Replace(v, fields, f).value, other) == Descend(v, other)
    decreases fields
  {
    var w := Replace(v, fields, f).value;
    if fields[0] == other[0] {
      ReplaceFrame(v.fields[fields[0]], fields[1..], f, other[1..]);
    } else if other[0] in v.fields {
      assert w.fields[other[0]] == v.fields[other[0]];
    }
  }

  /**
   * `Mutate` succeeds exactly when `Lookup` finds a value at the path and `f`
   * accepts it; then the path holds `f`'s value. Otherwise it fails with
   * `Lookup`'s error, else `f`'s.
   */
  lemma MutateAtPath(vars: Bindings, path: Ast.Path, f: Var -> Result<Var>)
    ensures Lookup(vars, path).Err? ==> Mutate(vars, path, f) == Err(Lookup(vars, path).error)
    ensures Lookup(vars, path).Ok? ==>
      var cur := Lookup(vars, path).value;
      && (f(cur).Err? ==> Mutate(vars, path, f) == Err(f(cur).error))
      && (f(cur).Ok? ==> Mutate(vars, path, f).Ok? && Lookup(Mutate(vars, path, f).value, path) == f(cur))
  {
    if path[0] in vars {
      ReplaceAtPath(vars[path[0]], path[1..], f);
    }
  }

  /** A successful `Mutate` changes nothing reachable by a path that diverges from the mutated one. */
  lemma MutateFrame(vars: Bindings, path: Ast.Path, f: Var -> Result<Var>, other: Ast.Path)
    requires Mutate(vars, path, f).Ok?
    requires Diverge(path, other)
    ensures Lookup(Mutate(vars, path, f).value, other) == Lookup(vars, other)
  {
    if path[0] == other[0] {
      ReplaceFrame(vars[path[0]], path[1..], f, other[1..]);
    }
  }

  /** The scope: a mutable set of top-level bindings. */
  class Scope {
    var vars: Bindings

    constructor (vars: Bindings)
      ensures this.vars == vars
    {
      this.vars := vars;
    }

    /** `get_var`: reads the value at `path` with a cursor that moves one segment per step. */
    method GetVar(path: Ast.Path) returns (r: Result<Var>)
      ensures r == Lookup(vars, path)
    {
      if path[0] !in vars {
        return Err(UndefinedName);
      }
      var cur := vars[path[0]];
      var i := 1;
      while i < |path|
        invariant 1 <= i <= |path|
        invariant Descend(cur, path[i..]) == Lookup(vars, path)
      {
        if !cur.Struct? {
          return Err(NotAStruct);
        }
        if path[i] !in cur.fields {
          return Err(UnknownField);
        }
        assert path[i..][1..] == path[i + 1..];
        cur := cur.fields[path[i]];
        i := i + 1;
      }
      r := Ok(cur);
    }

    /** `mutate_var`: applies `f` at `path`; on failure the bindings are left untouched. */
    method MutateVar(path: Ast.Path, f: Var -> Result<Var>) returns (r: Result<()>)
      modifies this
      ensures r.Ok? <==> Mutate(old(vars), path, f).Ok?
      ensures r.Ok? ==> vars == Mutate(old(vars), path, f).value
      ensures r.Err? ==> r.error == Mutate(old(vars), path, f).error && vars == old(vars)
    {
      var m := Mutate(vars, path, f);
      if m.Err? {
        return Err(m.error);
      }
      vars := m.value;
      r := Ok(());
    }
  }
}
