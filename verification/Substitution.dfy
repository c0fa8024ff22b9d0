/** What an expression means on a row, and why replacing input columns keeps that meaning. */
module Substitution {
  import opened Types
  import opened TypedExprs

  /** The result of evaluating an expression. A lambda denotes its graph, so two lambdas
      that agree on every argument tuple are equal outcomes. */
  datatype Outcome = Val(v: Value) | Fn(graph: imap<seq<Value>, Outcome>) | Fail

  type Env = map<string, Outcome>

  /** Any choice of scalar functions, special forms and casts. They see the outcomes of all
      arguments, failures included, so a special form may ignore a failing argument. */
  datatype Functions = Functions(
    call: (string, Type, seq<Outcome>) -> Outcome,
    cast: (Type, bool, Outcome) -> Outcome)

  function IndexOf(names: seq<string>, name: string): (r: Option<nat>)
    ensures r.Some? ==> r.value < |names| && names[r.value] == name
    ensures r.None? ==> name !in names
  {
    if names == [] then None
    else if names[0] == name then Some(0)
    else
      var r := IndexOf(names[1..], name);
      if r.None? then None else Some(r.value + 1)
  }

  function FieldAt(o: Outcome, index: nat): Outcome {
    match o
    case Val(Null) => o
    case Val(Struct(_, fields)) => if index < |fields| then Val(fields[index]) else Fail
    case _ => Fail
  }

  function FieldNamed(o: Outcome, name: string): Outcome {
    match o
    case Val(Null) => o
    case Val(Struct(names, _)) =>
      var i := IndexOf(names, name);
      if i.None? then Fail else FieldAt(o, i.value)
    case _ => Fail
  }

  ghost function MakeStruct(names: seq<string>, outcomes: seq<Outcome>): Outcome {
    if |names| <= |outcomes| && forall i | 0 <= i < |names| :: outcomes[i].Val?
    then Val(Struct(names, seq(|names|, i requires 0 <= i < |names| => outcomes[i].v)))
    else Fail
  }

  function Lookup(env: Env, name: string): Outcome {
    if name in env then env[name] else Fail
  }

  function Bind(params: seq<string>, args: seq<Value>): (b: Env)
    requires |params| == |args|
    ensures b.Keys == set p | p in params
  {
    if params == [] then map[]
    else Bind(params[..|params| - 1], args[..|args| - 1])[params[|params| - 1] := Val(args[|args| - 1])]
  }

  /** The whole input row may only stand under a field access; anywhere else it is
      rejected (velox/expression/ExprCompiler.cpp, lines 182-187 and 492-493). */
  ghost function Eval(f: Functions, e: Expr, env: Env): Outcome
    decreases e, 1
  {
    match e
    case Input(_) => Fail
    case Constant(_, v) => Val(v)
    case VectorConstant(_, v) => Val(v)
    case Call(t, inputs, name) => f.call(name, t, EvalAll(f, inputs, env))
    case Column(_, name) => Lookup(env, name)
    case Subfield(_, input, name) =>
      if input.Input? then Lookup(env, name) else FieldNamed(Eval(f, input, env), name)
    case Dereference(_, input, index) => FieldAt(Eval(f, input, env), index)
    case Concat(names, inputs) => MakeStruct(names, EvalAll(f, inputs, env))
    case Lambda(ps, _, body) =>
      Fn(imap args: seq<Value> | |args| == |ps| :: Eval(f, body, env + Bind(ps, args)))
    case Cast(t, input, nullOnFailure) => f.cast(t, nullOnFailure, Eval(f, input, env))
  }

  ghost function EvalAll(f: Functions, es: seq<Expr>, env: Env): (r: seq<Outcome>)
    ensures |r| == |es|
    ensures forall i | 0 <= i < |es| :: r[i] == Eval(f, es[i], env)
    decreases es, 0
  {
    if es == [] then [] else EvalAll(f, es[..|es| - 1], env) + [Eval(f, es[|es| - 1], env)]
  }

  /** The columns an expression reads from its row. */
  predicate Reads(e: Expr, name: string) {
    match e
    case Column(_, n) => n == name
    case Subfield(_, x, n) => if x.Input? then n == name else Reads(x, name)
    case Lambda(ps, _, body) => name !in ps && Reads(body, name)
    case Call(_, inputs, _) => exists x <- inputs :: Reads(x, name)
    case Concat(_, inputs) => exists x <- inputs :: Reads(x, name)
    case Dereference(_, x, _) => Reads(x, name)
    case Cast(_, x, _) => Reads(x, name)
    case _ => false
  }

  /** Evaluation depends on nothing but the columns that are read. */
  lemma {:induction false} Coincidence(f: Functions, e: Expr, a: Env, b: Env)
    requires forall n :: Reads(e, n) ==> Lookup(a, n) == Lookup(b, n)
    ensures Eval(f, e, a) == Eval(f, e, b)
    decreases e
  {
    match e
    case Call(_, inputs, _) => CoincidenceAll(f, e, inputs, a, b);
    case Concat(_, inputs) => CoincidenceAll(f, e, inputs, a, b);
    case Column(_, n) => assert Reads(e, n);
    case Subfield(_, x, n) => if x.Input? { assert Reads(e, n); } else { Coincidence(f, x, a, b); }
    case Dereference(_, x, _) => Coincidence(f, x, a, b);
    case Cast(_, x, _) => Coincidence(f, x, a, b);
    case Lambda(ps, _, body) =>
      forall args: seq<Value> | |args| == |ps|
        ensures Eval(f, body, a + Bind(ps, args)) == Eval(f, body, b + Bind(ps, args))
      {
        forall n | Reads(body, n) ensures Lookup(a + Bind(ps, args), n) == Lookup(b + Bind(ps, args), n) {
          assert n !in ps ==> Reads(e, n);
        }
        Coincidence(f, body, a + Bind(ps, args), b + Bind(ps, args));
      }
    case _ =>
  }

  lemma {:induction false} CoincidenceAll(f: Functions, e: Expr, es: seq<Expr>, a: Env, b: Env)
    requires (e.Call? || e.Concat?) && es == e.inputs
    requires forall n :: Reads(e, n) ==> Lookup(a, n) == Lookup(b, n)
    ensures EvalAll(f, es, a) == EvalAll(f, es, b)
    decreases e, 0
  {
    forall i | 0 <= i < |es| ensures Eval(f, es[i], a) == Eval(f, es[i], b) {
      forall n | Reads(es[i], n) ensures Lookup(a, n) == Lookup(b, n) { assert Reads(e, n); }
      Coincidence(f, es[i], a, b);
    }
  }

  /** The condition a caller can check before rewriting, with the lambda parameters in
      scope collected in bound:
      - a replaced column is replaced by an expression that reads none of them;
      - a name read through the input row is unmapped, or mapped to a plain column;
      - no field is selected from a column that is mapped to the whole input row. */
  predicate Safe(e: Expr, m: Mapping, bound: set<string>)
    decreases e
  {
    match e
    case Column(_, n) => n in m ==> forall p <- bound :: !Reads(m[n], p)
    case Subfield(_, x, n) =>
      if x.Input? then n in m ==> IsPlainColumn(m[n]) && m[n].name !in bound
      else Safe(x, m, bound) && !(x.Column? && x.name in m && m[x.name].Input?)
    case Call(_, inputs, _) => forall x <- inputs :: Safe(x, m, bound)
    case Concat(_, inputs) => forall x <- inputs :: Safe(x, m, bound)
    case Dereference(_, x, _) => Safe(x, m, bound)
    case Cast(_, x, _) => Safe(x, m, bound)
    case Lambda(ps, _, body) => Safe(body, m, bound + set p | p in ps)
    case _ => true
  }

  predicate IsPlainColumn(e: Expr) {
    e.Column? || (e.Subfield? && e.input.Input?)
  }

  /** The row in which every mapped name holds the value of its replacement. */
  ghost function Update(f: Functions, m: Mapping, env: Env): Env {
    map n | n in env.Keys + m.Keys :: if n in m then Eval(f, m[n], env) else env[n]
  }

  /** The substitution lemma: evaluating the rewritten expression on a row is evaluating
      the original on the row updated by the mapping, for every row and all functions. */
  lemma {:induction false} RewriteSubstitutes(f: Functions, e: Expr, m: Mapping, env: Env)
    requires Rewrite(e, m).Some? && Safe(e, m, {})
    ensures Eval(f, Rewrite(e, m).value, env) == Eval(f, e, Update(f, m, env))
  {
    var none: Env := map[];
    assert none.Keys == {};
    SubstitutesUnder(f, e, m, env, Update(f, m, env), none);
    assert env + map[] == env;
    assert Update(f, m, env) + map[] == Update(f, m, env);
  }

  ghost predicate IsUpdate(f: Functions, m: Mapping, env: Env, up: Env) {
    forall n :: Lookup(up, n) == if n in m then Eval(f, m[n], env) else Lookup(env, n)
  }

  /** The same under lambdas, whose parameters are the keys of locals. */
  lemma {:induction false} SubstitutesUnder(f: Functions, e: Expr, m: Mapping, env: Env, up: Env, locals: Env)
    requires Rewrite(e, m).Some? && Safe(e, m, locals.Keys) && locals.Keys !! m.Keys
    requires IsUpdate(f, m, env, up)
    ensures Eval(f, Rewrite(e, m).value, env + locals) == Eval(f, e, up + locals)
    decreases e
  {
    match e
    case Call(_, inputs, _) => SubstitutesAll(f, e, m, env, up, locals);
    case Concat(_, inputs) => SubstitutesAll(f, e, m, env, up, locals);
    case Column(_, n) => SubstitutesColumn(f, n, m, env, up, locals);
    case Subfield(_, x, n) => SubstitutesField(f, e, m, env, up, locals);
    case Dereference(_, x, _) => SubstitutesUnder(f, x, m, env, up, locals);
    case Cast(_, x, _) => SubstitutesUnder(f, x, m, env, up, locals);
    case Lambda(_, _, _) => SubstitutesLambda(f, e, m, env, up, locals);
    case _ =>
  }

  lemma {:induction false} SubstitutesField(f: Functions, e: Expr, m: Mapping, env: Env, up: Env, locals: Env)
    requires e.Subfield?
    requires Rewrite(e, m).Some? && Safe(e, m, locals.Keys) && locals.Keys !! m.Keys
    requires IsUpdate(f, m, env, up)
    ensures Eval(f, Rewrite(e, m).value, env + locals) == Eval(f, e, up + locals)
    decreases e, 0
  {
    if e.input.Input? {
      SubstitutesColumn(f, e.name, m, env, up, locals);
    } else {
      SubstitutesUnder(f, e.input, m, env, up, locals);
    }
  }

  lemma {:induction false} SubstitutesLambda(f: Functions, e: Expr, m: Mapping, env: Env, up: Env, locals: Env)
    requires e.Lambda?
    requires Rewrite(e, m).Some? && Safe(e, m, locals.Keys) && locals.Keys !! m.Keys
    requires IsUpdate(f, m, env, up)
    ensures Eval(f, Rewrite(e, m).value, env + locals) == Eval(f, e, up + locals)
    decreases e, 1
  {
    var Lambda(ps, _, body) := e;
    var b := Rewrite(body, m).value;
    forall args: seq<Value> | |args| == |ps|
      ensures Eval(f, b, env + locals + Bind(ps, args)) == Eval(f, body, up + locals + Bind(ps, args))
    {
      SubstitutesBody(f, e, m, env, up, locals, Bind(ps, args));
    }
  }

  lemma {:induction false} SubstitutesColumn(f: Functions, n: string, m: Mapping, env: Env, up: Env, locals: Env)
    requires locals.Keys !! m.Keys && IsUpdate(f, m, env, up)
    ensures n !in m ==> Lookup(env + locals, n) == Lookup(up + locals, n)
    ensures n in m && (forall p <- locals.Keys :: !Reads(m[n], p)) ==>
              Eval(f, m[n], env + locals) == Lookup(up + locals, n)
  {
    assert Lookup(up, n) == if n in m then Eval(f, m[n], env) else Lookup(env, n);
    if n in m && forall p <- locals.Keys :: !Reads(m[n], p) {
      Coincidence(f, m[n], env + locals, env);
    }
  }

  lemma {:induction false} SubstitutesBody(
    f: Functions, e: Expr, m: Mapping, env: Env, up: Env, locals: Env, params: Env)
    requires e.Lambda? && params.Keys == set p | p in e.params
    requires Rewrite(e, m).Some? && Safe(e, m, locals.Keys) && locals.Keys !! m.Keys
    requires IsUpdate(f, m, env, up)
    ensures Eval(f, Rewrite(e.body, m).value, env + locals + params) == Eval(f, e.body, up + locals + params)
    decreases e, 0
  {
    assert (locals + params).Keys == locals.Keys + set p | p in e.params;
    SubstitutesUnder(f, e.body, m, env, up, locals + params);
    assert env + locals + params == env + (locals + params);
    assert up + locals + params == up + (locals + params);
  }

  lemma {:induction false} SubstitutesAll(f: Functions, e: Expr, m: Mapping, env: Env, up: Env, locals: Env)
    requires e.Call? || e.Concat?
    requires Rewrite(e, m).Some? && Safe(e, m, locals.Keys) && locals.Keys !! m.Keys
    requires IsUpdate(f, m, env, up)
    ensures EvalAll(f, RewriteAll(e.inputs, m).value, env + locals) == EvalAll(f, e.inputs, up + locals)
    decreases e, 0
  {
    var xs := RewriteAll(e.inputs, m).value;
    forall i | 0 <= i < |xs| ensures Eval(f, xs[i], env + locals) == Eval(f, e.inputs[i], up + locals) {
      SubstitutesUnder(f, e.inputs[i], m, env, up, locals);
    }
  }

  // ----- why each clause of Safe is there -----

  /** A replacement that reads a lambda parameter is captured: the code does not rename
      the parameter and does not fail. */
  lemma {:induction false} CaptureChangesMeaning(f: Functions, a: string, x: string, t: Type, outer: Value, arg: Value)
    requires a != x && outer != arg
    ensures var e := Lambda([x], [t], Column(t, a));
            var m: Mapping := map[a := Column(t, x)];
            var env: Env := map[x := Val(outer)];
            Rewrite(e, m).Some? && Eval(f, Rewrite(e, m).value, env) != Eval(f, e, Update(f, m, env))
  {
    var e := Lambda([x], [t], Column(t, a));
    var m: Mapping := map[a := Column(t, x)];
    var env: Env := map[x := Val(outer)];
    var up := Update(f, m, env);
    assert Bind([x], [arg])[x] == Val(arg);
    assert up[a] == Val(outer);
    assert Rewrite(e, m) == Some(Lambda([x], [t], Column(t, x)));
    assert Eval(f, Rewrite(e, m).value, env).graph[[arg]] == Val(arg);
    assert Eval(f, e, up).graph[[arg]] == Lookup(up + Bind([x], [arg]), a) == Val(outer);
  }

  /** The same happens to a name read through the input row. */
  lemma {:induction false} InputFieldIsCaptured(
    f: Functions, a: string, x: string, t: Type, r: Type, outer: Value, arg: Value)
    requires a != x && outer != arg
    ensures var e := Lambda([x], [t], Subfield(t, Input(r), a));
            var m: Mapping := map[a := Column(t, x)];
            var env: Env := map[x := Val(outer)];
            Rewrite(e, m).Some? && Eval(f, Rewrite(e, m).value, env) != Eval(f, e, Update(f, m, env))
  {
    var e := Lambda([x], [t], Subfield(t, Input(r), a));
    var m: Mapping := map[a := Column(t, x)];
    var env: Env := map[x := Val(outer)];
    var up := Update(f, m, env);
    assert Bind([x], [arg])[x] == Val(arg);
    assert up[a] == Val(outer);
    assert Rewrite(e.body, m) == Some(Subfield(t, Input(r), x));
    assert Rewrite(e, m) == Some(Lambda([x], [t], Subfield(t, Input(r), x)));
    assert Eval(f, Rewrite(e, m).value, env).graph[[arg]] == Val(arg);
    assert Eval(f, e, up).graph[[arg]] == Lookup(up + Bind([x], [arg]), a) == Val(outer);
  }

  /** A name read through the input row keeps its old meaning when it is mapped to
      anything but a field access. */
  lemma {:induction false} InputFieldIsNotReplaced(
    f: Functions, a: string, t: Type, r: Type, before: Value, after: Value)
    requires before != after
    ensures var e := Subfield(t, Input(r), a);
            var m: Mapping := map[a := Constant(t, after)];
            var env: Env := map[a := Val(before)];
            Rewrite(e, m) == Some(e) && Eval(f, e, env) != Eval(f, e, Update(f, m, env))
  {
  }

  /** A name read through the input row that is mapped to a field of a column becomes a column
      with the name of that field. */
  lemma {:induction false} InputFieldLosesItsColumn(
    f: Functions, a: string, c: string, n: string, t: Type, r: Type, v: Value)
    requires c != n
    ensures var e := Subfield(t, Input(r), a);
            var m: Mapping := map[a := Subfield(t, Column(r, c), n)];
            var env: Env := map[c := Val(Struct([n], [v]))];
            Rewrite(e, m).Some? && Eval(f, Rewrite(e, m).value, env) != Eval(f, e, Update(f, m, env))
  {
    var m: Mapping := map[a := Subfield(t, Column(r, c), n)];
    var env: Env := map[c := Val(Struct([n], [v]))];
    assert Rewrite(Subfield(t, Input(r), a), m) == Some(Subfield(t, Input(r), n));
    assert Update(f, m, env)[a] == Eval(f, m[a], env);
    assert Eval(f, Column(r, c), env) == env[c];
    assert Eval(f, m[a], env) == FieldNamed(env[c], n) == Val(v);
  }

  /** Mapping a column to the whole input row turns a field of that column into a column. */
  lemma {:induction false} FieldOfInputRowChangesMeaning(f: Functions, c: string, n: string, t: Type, r: Type, v: Value)
    requires c != n
    ensures var e := Subfield(t, Column(r, c), n);
            var m: Mapping := map[c := Input(r)];
            var env: Env := map[n := Val(v)];
            Rewrite(e, m).Some? && Eval(f, Rewrite(e, m).value, env) != Eval(f, e, Update(f, m, env))
  {
    var m: Mapping := map[c := Input(r)];
    var env: Env := map[n := Val(v)];
    assert Update(f, m, env)[c] == Fail;
  }
}
