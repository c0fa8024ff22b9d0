/** Function signatures: the analysis of their types and the priority it leads to
    (velox/core/SimpleFunctionMetadata.h). */
module Signatures {
  import opened Types

  /** The C++ types a simple function may use. A generic without variable is Any. */
  datatype Arg =
    | Primitive(name: string)
    | Custom(name: string)
    | Generic(variable: Option<nat>, comparable: bool, orderable: bool)
    | MapOf(key: Arg, value: Arg)
    | ArrayOf(element: Arg)
    | RowOf(fields: seq<Arg>)
    | VariadicOf(element: Arg)

  datatype Variable = Variable(orderable: bool, comparable: bool)

  type Variables = map<nat, Variable>

  datatype Use = Use(id: nat, variable: Variable)

  // ----- statistics -----

  datatype Stats = Stats(hasVariadic: bool, hasGeneric: bool, hasVariadicOfGeneric: bool, concreteCount: nat)

  const NONE := Stats(false, false, false, 0)

  function Plus(a: Stats, b: Stats): Stats {
    Stats(a.hasVariadic || b.hasVariadic, a.hasGeneric || b.hasGeneric,
          a.hasVariadicOfGeneric || b.hasVariadicOfGeneric, a.concreteCount + b.concreteCount)
  }

  const CONCRETE := Stats(false, false, false, 1)

  /** What analysing one type adds. */
  function StatsOf(t: Arg): Stats {
    match t
    case Primitive(_) => CONCRETE
    case Custom(_) => CONCRETE
    case Generic(_, _, _) => Stats(false, true, false, 0)
    case MapOf(k, v) => Plus(CONCRETE, Plus(StatsOf(k), StatsOf(v)))
    case ArrayOf(e) => Plus(CONCRETE, StatsOf(e))
    case RowOf(fields) => Plus(CONCRETE, StatsOfAll(fields))
    case VariadicOf(e) => var s := StatsOf(e); Stats(true, s.hasGeneric, s.hasGeneric, s.concreteCount)
  }

  /** A signature is its return type followed by its arguments. */
  function StatsOfAll(ts: seq<Arg>): Stats {
    if ts == [] then NONE else Plus(StatsOfAll(ts[..|ts| - 1]), StatsOf(ts[|ts| - 1]))
  }

  // ----- what the statistics mean -----

  /** All type constructors in a type, outermost first. */
  function Nodes(t: Arg): seq<Arg> {
    match t
    case MapOf(k, v) => [t] + (Nodes(k) + Nodes(v))
    case ArrayOf(e) => [t] + Nodes(e)
    case RowOf(fields) => [t] + NodesOfAll(fields)
    case VariadicOf(e) => [t] + Nodes(e)
    case _ => [t]
  }

  function NodesOfAll(ts: seq<Arg>): seq<Arg> {
    if ts == [] then [] else NodesOfAll(ts[..|ts| - 1]) + Nodes(ts[|ts| - 1])
  }

  predicate Concrete(t: Arg) {
    !t.Generic? && !t.VariadicOf?
  }

  function CountConcrete(ts: seq<Arg>): nat {
    if ts == [] then 0 else (if Concrete(ts[0]) then 1 else 0) + CountConcrete(ts[1..])
  }

  predicate SomeGeneric(nodes: seq<Arg>) {
    exists t | t in nodes :: t.Generic?
  }

  /** The statistics counted over the constructors of the types. */
  predicate Counts(s: Stats, nodes: seq<Arg>) {
    && (s.hasVariadic <==> exists t | t in nodes :: t.VariadicOf?)
    && (s.hasGeneric <==> SomeGeneric(nodes))
    && (s.hasVariadicOfGeneric <==> exists t | t in nodes :: t.VariadicOf? && SomeGeneric(Nodes(t.element)))
    && s.concreteCount == CountConcrete(nodes)
  }

  lemma {:induction false} CountConcreteConcat(a: seq<Arg>, b: seq<Arg>)
    ensures CountConcrete(a + b) == CountConcrete(a) + CountConcrete(b)
  {
    if a == [] {
      assert a + b == b;
    } else {
      assert (a + b)[1..] == a[1..] + b;
      CountConcreteConcat(a[1..], b);
    }
  }

  lemma {:induction false} CountsConcat(s: Stats, a: seq<Arg>, t: Stats, b: seq<Arg>)
    requires Counts(s, a) && Counts(t, b)
    ensures Counts(Plus(s, t), a + b)
  {
    CountConcreteConcat(a, b);
    assert forall x :: x in a + b <==> x in a || x in b;
  }

  lemma {:induction false} CountsNode(t: Arg)
    requires Concrete(t)
    ensures Counts(CONCRETE, [t])
  {
    assert forall x :: x in [t] <==> x == t;
  }

  lemma {:induction false} VariadicCounts(t: Arg, s: Stats)
    requires t.VariadicOf? && Counts(s, Nodes(t.element))
    ensures Counts(Stats(true, s.hasGeneric, s.hasGeneric, s.concreteCount), Nodes(t))
  {
    var inner := Nodes(t.element);
    CountConcreteConcat([t], inner);
    assert t in Nodes(t);
    if x :| x in inner && x.VariadicOf? && SomeGeneric(Nodes(x.element)) {
      NodesNest(t.element, x);
    }
  }

  /** The constructors of a part are constructors of the whole. */
  lemma {:induction false} NodesNest(t: Arg, x: Arg)
    requires x in Nodes(t) && x.VariadicOf? && SomeGeneric(Nodes(x.element))
    ensures SomeGeneric(Nodes(t))
    decreases t, 1
  {
    match t
    case MapOf(k, v) => if x in Nodes(k) { NodesNest(k, x); } else { NodesNest(v, x); }
    case ArrayOf(e) => NodesNest(e, x);
    case RowOf(fields) => NodesNestAll(fields, x);
    case VariadicOf(e) => if x != t { NodesNest(e, x); }
    case _ =>
  }

  lemma {:induction false} NodesNestAll(ts: seq<Arg>, x: Arg)
    requires x in NodesOfAll(ts) && x.VariadicOf? && SomeGeneric(Nodes(x.element))
    ensures SomeGeneric(NodesOfAll(ts))
    decreases ts, 0
  {
    var n := |ts| - 1;
    if x in Nodes(ts[n]) { NodesNest(ts[n], x); } else { NodesNestAll(ts[..n], x); }
  }

  lemma {:induction false} StatsCount(t: Arg)
    ensures Counts(StatsOf(t), Nodes(t))
    decreases t, 1
  {
    match t
    case MapOf(k, v) =>
      StatsCount(k);
      StatsCount(v);
      CountsConcat(StatsOf(k), Nodes(k), StatsOf(v), Nodes(v));
      CountsNode(t);
      CountsConcat(CONCRETE, [t], Plus(StatsOf(k), StatsOf(v)), Nodes(k) + Nodes(v));
    case ArrayOf(e) =>
      StatsCount(e);
      CountsNode(t);
      CountsConcat(CONCRETE, [t], StatsOf(e), Nodes(e));
    case RowOf(fields) =>
      StatsCountAll(fields);
      CountsNode(t);
      CountsConcat(CONCRETE, [t], StatsOfAll(fields), NodesOfAll(fields));
    case VariadicOf(e) =>
      StatsCount(e);
      VariadicCounts(t, StatsOf(e));
    case Generic(_, _, _) => CountsGeneric(t);
    case _ => CountsNode(t);
  }

  lemma {:induction false} CountsGeneric(t: Arg)
    requires t.Generic?
    ensures Counts(Stats(false, true, false, 0), [t])
  {
    assert t in [t];
  }

  lemma {:induction false} CountsEmpty()
    ensures Counts(NONE, [])
  {
  }

  /** The statistics of a signature are those counted over all its type constructors. */
  lemma {:induction false} StatsCountAll(ts: seq<Arg>)
    ensures Counts(StatsOfAll(ts), NodesOfAll(ts))
    decreases ts, 0
  {
    if ts == [] {
      CountsEmpty();
    } else {
      var n := |ts| - 1;
      StatsCountAll(ts[..n]);
      StatsCount(ts[n]);
      CountsConcat(StatsOfAll(ts[..n]), NodesOfAll(ts[..n]), StatsOf(ts[n]), Nodes(ts[n]));
    }
  }
}
