/** Typed expressions: the term language, its constructor checks and the replacement
    of input columns (velox/core/ITypedExpr.h, velox/core/Expressions.h). */
module TypedExprs {
  import opened Types

  datatype Value =
    | Null
    | Atom(n: int)
    | Elements(elements: seq<Value>)
    | Struct(names: seq<string>, fields: seq<Value>)

  /** FieldAccessTypedExpr is split by its two constructors: a Column is a leaf naming an
      input column, a Subfield selects by name from one input. A constant holds either a
      scalar variant or a constant-encoded vector. */
  datatype Expr =
    | Input(typ: Type)
    | Constant(typ: Type, value: Value)
    | VectorConstant(typ: Type, value: Value)
    | Call(typ: Type, inputs: seq<Expr>, name: string)
    | Column(typ: Type, name: string)
    | Subfield(typ: Type, input: Expr, name: string)
    | Dereference(typ: Type, input: Expr, index: nat)
    | Concat(names: seq<string>, inputs: seq<Expr>)
    | Lambda(params: seq<string>, paramTypes: seq<Type>, body: Expr)
    | Cast(typ: Type, input: Expr, nullOnFailure: bool)

  type Mapping = map<string, Expr>

  /** type(): stored, except for the two classes that compute it from their inputs. */
  function TypeOf(e: Expr): Type
    decreases e, 1
  {
    match e
    case Concat(names, inputs) => RowOf(names, TypesOf(inputs)[..Min(|names|, |inputs|)])
    case Lambda(_, types, body) => FunctionOf(types + [TypeOf(body)])
    case _ => e.typ
  }

  function Min(a: nat, b: nat): nat {
    if a < b then a else b
  }

  function TypesOf(es: seq<Expr>): (ts: seq<Type>)
    ensures |ts| == |es|
    ensures forall i | 0 <= i < |es| :: ts[i] == TypeOf(es[i])
    decreases es, 0
  {
    if es == [] then [] else TypesOf(es[..|es| - 1]) + [TypeOf(es[|es| - 1])]
  }

  /** Collects the row type of a concatenation column by column. */
  method ToType(names: seq<string>, expressions: seq<Expr>) returns (r: Option<Type>)
    ensures r.Some? <==> |names| <= |expressions|
    ensures r.Some? ==> r.value == TypeOf(Concat(names, expressions))
  {
    var children, namesCopy := [], [];
    for i := 0 to |names|
      invariant i <= |expressions|
      invariant namesCopy == names[..i] && children == TypesOf(expressions)[..i]
    {
      if i >= |expressions| {
        return None;
      }
      namesCopy := namesCopy + [names[i]];
      children := children + [TypeOf(expressions[i])];
    }
    return Some(RowOf(namesCopy, children));
  }

  /** What the constructors check, at every depth. */
  predicate WellFormed(e: Expr) {
    match e
    case Call(_, inputs, _) => forall x <- inputs :: WellFormed(x)
    case Subfield(_, x, _) => WellFormed(x)
    case Dereference(_, x, _) => WellFormed(x) && !x.Input?
    case Concat(names, inputs) => |names| <= |inputs| && forall x <- inputs :: WellFormed(x)
    case Lambda(ps, ts, body) => |ps| == |ts| && WellFormed(body)
    case Cast(_, x, _) => WellFormed(x)
    case _ => true
  }

  /** The direct subexpressions: the inputs, or the body of a lambda. */
  function Children(e: Expr): (cs: seq<Expr>)
    ensures forall c <- cs :: c < e
  {
    match e
    case Call(_, inputs, _) => inputs
    case Subfield(_, x, _) => [x]
    case Dereference(_, x, _) => [x]
    case Concat(_, inputs) => inputs
    case Lambda(_, _, body) => [body]
    case Cast(_, x, _) => [x]
    case _ => []
  }

  /** inputs(): a lambda keeps its body outside of them. */
  function InputsOf(e: Expr): (xs: seq<Expr>)
    ensures forall x <- xs :: x < e
  {
    if e.Lambda? then [] else Children(e)
  }

  // ----- rewriteInputNames -----

  /** Replaces mapped columns. A name read through the whole input row is only renamed,
      and only when it is mapped to some field access. None stands for a raised error:
      a lambda binding a mapped name, or the dereference constructor refusing the input row. */
  function Rewrite(e: Expr, m: Mapping): Option<Expr>
    decreases e, 1
  {
    match e
    case Input(_) => Some(e)
    case Constant(_, _) => Some(e)
    case VectorConstant(_, _) => Some(e)
    case Call(t, inputs, name) =>
      var xs := RewriteAll(inputs, m);
      if xs.None? then None else Some(Call(t, xs.value, name))
    case Column(_, name) => Some(if name in m then m[name] else e)
    case Subfield(t, input, name) =>
      var x := Rewrite(input, m);
      if x.None? then None
      else Some(Subfield(t, x.value, if x.value.Input? then RenamedField(name, m) else name))
    case Dereference(t, input, index) =>
      var x := Rewrite(input, m);
      if x.None? || x.value.Input? then None else Some(Dereference(t, x.value, index))
    case Concat(names, inputs) =>
      var xs := RewriteAll(inputs, m);
      if xs.None? then None else Some(Concat(names, xs.value))
    case Lambda(ps, ts, body) =>
      if exists p <- ps :: p in m then None
      else
        var b := Rewrite(body, m);
        if b.None? then None else Some(Lambda(ps, ts, b.value))
    case Cast(t, input, nullOnFailure) =>
      var x := Rewrite(input, m);
      if x.None? then None else Some(Cast(t, x.value, nullOnFailure))
  }

  function RenamedField(name: string, m: Mapping): string {
    if name in m && (m[name].Column? || m[name].Subfield?) then m[name].name else name
  }

  function RewriteAll(es: seq<Expr>, m: Mapping): (r: Option<seq<Expr>>)
    ensures r.Some? <==> forall i | 0 <= i < |es| :: Rewrite(es[i], m).Some?
    ensures r.Some? ==> |r.value| == |es|
    ensures r.Some? ==> forall i | 0 <= i < |es| :: Rewrite(es[i], m) == Some(r.value[i])
    decreases es, 0
  {
    if es == [] then Some([])
    else
      var xs, x := RewriteAll(es[..|es| - 1], m), Rewrite(es[|es| - 1], m);
      if xs.None? || x.None? then None else Some(xs.value + [x.value])
  }

  /** rewriteInputNames as the virtual method runs it. */
  method RewriteInputNames(e: Expr, m: Mapping) returns (r: Option<Expr>)
    ensures r == Rewrite(e, m)
    decreases e, 1
  {
    match e
    case Call(t, inputs, name) =>
      var xs := RewriteInputsRecursive(inputs, m);
      r := if xs.None? then None else Some(Call(t, xs.value, name));
    case Column(_, name) =>
      r := Some(if name in m then m[name] else e);
    case Subfield(t, input, name) =>
      var x := RewriteInputNames(input, m);
      if x.None? {
        return None;
      }
      var newName := name;
      if x.value.Input? && name in m && (m[name].Column? || m[name].Subfield?) {
        newName := m[name].name;
      }
      r := Some(Subfield(t, x.value, newName));
    case Dereference(t, input, index) =>
      var x := RewriteInputNames(input, m);
      r := if x.None? || x.value.Input? then None else Some(Dereference(t, x.value, index));
    case Concat(names, inputs) =>
      var xs := RewriteInputsRecursive(inputs, m);
      r := if xs.None? then None else Some(Concat(names, xs.value));
    case Lambda(ps, ts, body) =>
      for i := 0 to |ps|
        invariant forall j | 0 <= j < i :: ps[j] !in m
      {
        if ps[i] in m {
          return None;
        }
      }
      var b := RewriteInputNames(body, m);
      r := if b.None? then None else Some(Lambda(ps, ts, b.value));
    case Cast(t, input, nullOnFailure) =>
      var x := RewriteInputNames(input, m);
      r := if x.None? then None else Some(Cast(t, x.value, nullOnFailure));
    case _ =>
      r := Some(e);
  }

  method RewriteInputsRecursive(inputs: seq<Expr>, m: Mapping) returns (r: Option<seq<Expr>>)
    ensures r == RewriteAll(inputs, m)
    decreases inputs, 0
  {
    var newInputs := [];
    for i := 0 to |inputs|
      invariant Some(newInputs) == RewriteAll(inputs[..i], m)
    {
      assert inputs[..i + 1][..i] == inputs[..i];
      var x := RewriteInputNames(inputs[i], m);
      if x.None? {
        return None;
      }
      newInputs := newInputs + [x.value];
    }
    assert inputs[..|inputs|] == inputs;
    return Some(newInputs);
  }

  /** The only two obstructions a caller can meet: a lambda that binds a mapped name, or
      a dereference whose input is a column mapped to the whole input row. */
  predicate Obstructs(s: Expr, m: Mapping) {
    || (s.Lambda? && exists p <- s.params :: p in m)
    || (s.Dereference? && s.input.Column? && s.input.name in m && m[s.input.name].Input?)
  }

  predicate Obstructed(e: Expr, m: Mapping) {
    Obstructs(e, m) || exists i | 0 <= i < |Children(e)| :: Obstructed(Children(e)[i], m)
  }

  lemma {:induction false} RewriteFailsIff(e: Expr, m: Mapping)
    requires WellFormed(e)
    ensures Rewrite(e, m).None? <==> Obstructed(e, m)
  {
    forall i | 0 <= i < |Children(e)|
      ensures Rewrite(Children(e)[i], m).None? <==> Obstructed(Children(e)[i], m)
    {
      RewriteFailsIff(Children(e)[i], m);
    }
    RewriteFailsHere(e, m);
  }

  lemma {:induction false} RewriteFailsHere(e: Expr, m: Mapping)
    requires WellFormed(e)
    ensures Rewrite(e, m).None? <==>
            Obstructs(e, m) || exists i | 0 <= i < |Children(e)| :: Rewrite(Children(e)[i], m).None?
  {
    if Children(e) != [] {
      assert Children(e)[0] in Children(e);
    }
  }

  /** The names a rewrite looks up: columns, fields of the input row and lambda parameters. */
  predicate Mentions(e: Expr, name: string) {
    || ((e.Column? || (e.Subfield? && e.input.Input?)) && e.name == name)
    || (e.Lambda? && name in e.params)
    || exists i | 0 <= i < |Children(e)| :: Mentions(Children(e)[i], name)
  }

  /** An expression that mentions no mapped name comes back as it is. */
  lemma {:induction false} RewriteKeepsOthers(e: Expr, m: Mapping)
    requires WellFormed(e) && forall n <- m :: !Mentions(e, n)
    ensures Rewrite(e, m) == Some(e)
  {
    forall i | 0 <= i < |Children(e)| ensures Rewrite(Children(e)[i], m) == Some(Children(e)[i]) {
      assert forall n <- m :: Mentions(Children(e)[i], n) ==> Mentions(e, n);
      assert Children(e)[i] in Children(e);
      RewriteKeepsOthers(Children(e)[i], m);
    }
    RewriteKeepsHere(e, m);
  }

  lemma {:induction false} RewriteKeepsHere(e: Expr, m: Mapping)
    requires WellFormed(e) && forall n <- m :: !Mentions(e, n)
    requires forall i | 0 <= i < |Children(e)| :: Rewrite(Children(e)[i], m) == Some(Children(e)[i])
    ensures Rewrite(e, m) == Some(e)
  {
    if e.Call? || e.Concat? {
      forall i | 0 <= i < |e.inputs| ensures Rewrite(e.inputs[i], m) == Some(e.inputs[i]) {
        assert e.inputs[i] == Children(e)[i];
      }
      assert RewriteAll(e.inputs, m).value == e.inputs;
    } else if Children(e) != [] {
      assert Rewrite(Children(e)[0], m) == Some(Children(e)[0]);
    }
  }

  /** Every column of e that is replaced is replaced by an expression of its own type. */
  predicate RespectsTypes(e: Expr, m: Mapping) {
    && (e.Column? && e.name in m ==> TypeOf(m[e.name]) == e.typ)
    && forall i | 0 <= i < |Children(e)| :: RespectsTypes(Children(e)[i], m)
  }

  /** Types survive a type-respecting rewrite, the two computed ones included, and the
      result passes every constructor check. */
  lemma {:induction false} RewritePreservesTypes(e: Expr, m: Mapping)
    requires WellFormed(e) && Rewrite(e, m).Some? && RespectsTypes(e, m)
    requires forall n <- m :: WellFormed(m[n])
    ensures TypeOf(Rewrite(e, m).value) == TypeOf(e)
    ensures WellFormed(Rewrite(e, m).value)
  {
    RewriteFailsHere(e, m);
    forall i | 0 <= i < |Children(e)|
      ensures var r := Rewrite(Children(e)[i], m);
              r.Some? && TypeOf(r.value) == TypeOf(Children(e)[i]) && WellFormed(r.value)
    {
      RewritePreservesTypes(Children(e)[i], m);
    }
    if e.Call? || e.Concat? {
      var xs := RewriteAll(e.inputs, m).value;
      forall i | 0 <= i < |xs| ensures TypeOf(xs[i]) == TypeOf(e.inputs[i]) && WellFormed(xs[i]) {
        assert e.inputs[i] == Children(e)[i];
      }
      assert TypesOf(xs) == TypesOf(e.inputs);
    } else if Children(e) != [] {
      assert WellFormed(Rewrite(Children(e)[0], m).value);
    }
  }
}
