/** The loops of velox/core/PlanNode.cpp that build output types. */
module PlanBuilders {
  import opened Types
  import opened TypedExprs
  import opened Plans

  /** The constructor of UnnestNode: names are taken in order, one per array and two per map.
      None if a variable is neither, or if the names run out. */
  method UnnestOutput(replicate: seq<Expr>, unnest: seq<Expr>, unnestNames: seq<string>, ordinality: Option<string>)
    returns (r: Option<Type>)
    ensures r == var op := MakeUnnest(replicate, unnest, unnestNames, ordinality);
                 if op.None? then None else Some(op.value.outputType)
  {
    var names, types, i := [], [], 0;
    while i < |replicate|
      invariant i <= |replicate| && names == FieldNames(replicate)[..i] && types == TypesOf(replicate[..i])
    {
      assert replicate[..i + 1][..i] == replicate[..i];
      names, types, i := names + [FieldName(replicate[i])], types + [TypeOf(replicate[i])], i + 1;
    }
    assert replicate[..i] == replicate && names == FieldNames(replicate);
    var next := 0;
    i := 0;
    var columns := [];
    while i < |unnest|
      invariant i <= |unnest| && next == |columns| <= |unnestNames|
      invariant UnnestedTypes(unnest[..i]) == Some(columns)
    {
      UnnestedNext(unnest, i);
      var t := TypeOf(unnest[i]);
      var more: seq<Type>;
      if t.ArrayOf? {
        more := [t.element];
      } else if t.MapOf? {
        more := [t.key, t.val];
      } else {
        UnnestedStuck(unnest, i + 1);
        return None;
      }
      if next + |more| > |unnestNames| {
        UnnestedGrows(unnest, i + 1);
        return None;
      }
      columns, next, i := columns + more, next + |more|, i + 1;
    }
    assert unnest[..i] == unnest;
    names, types := names + unnestNames[..next], types + columns;
    if ordinality.Some? {
      names, types := names + [ordinality.value], types + [BIGINT];
    } else {
      assert names + [] == names && types + [] == types;
    }
    r := Some(RowOf(names, types));
    assert MakeUnnest(replicate, unnest, unnestNames, ordinality).value.outputType == RowOf(names, types);
  }

  function Joined(x: Option<seq<Type>>, y: Option<seq<Type>>): Option<seq<Type>> {
    if x.None? || y.None? then None else Some(x.value + y.value)
  }

  function UnnestedType(t: Type): Option<seq<Type>> {
    if t.ArrayOf? then Some([t.element]) else if t.MapOf? then Some([t.key, t.val]) else None
  }

  lemma {:induction false} UnnestedFirst(vars: seq<Expr>)
    requires vars != []
    ensures UnnestedTypes(vars) == Joined(UnnestedType(TypeOf(vars[0])), UnnestedTypes(vars[1..]))
  {
  }

  lemma {:induction false} JoinedAssociates(x: Option<seq<Type>>, y: Option<seq<Type>>, z: Option<seq<Type>>)
    ensures Joined(Joined(x, y), z) == Joined(x, Joined(y, z))
  {
    if x.Some? && y.Some? && z.Some? {
      assert (x.value + y.value) + z.value == x.value + (y.value + z.value);
    }
  }

  lemma {:induction false} UnnestedConcat(a: seq<Expr>, b: seq<Expr>)
    ensures UnnestedTypes(a + b) == Joined(UnnestedTypes(a), UnnestedTypes(b))
  {
    if a == [] {
      assert a + b == b;
      var y := UnnestedTypes(b);
      assert y.Some? ==> [] + y.value == y.value;
    } else {
      assert (a + b)[1..] == a[1..] + b && (a + b)[0] == a[0];
      UnnestedConcat(a[1..], b);
      UnnestedFirst(a + b);
      UnnestedFirst(a);
      JoinedAssociates(UnnestedType(TypeOf(a[0])), UnnestedTypes(a[1..]), UnnestedTypes(b));
    }
  }

  lemma {:induction false} UnnestedNext(vars: seq<Expr>, i: nat)
    requires i < |vars|
    ensures UnnestedTypes(vars[..i + 1]) == Joined(UnnestedTypes(vars[..i]), UnnestedType(TypeOf(vars[i])))
  {
    assert vars[..i + 1] == vars[..i] + [vars[i]];
    UnnestedConcat(vars[..i], [vars[i]]);
    UnnestedFirst([vars[i]]);
    assert [vars[i]][1..] == [];
    var t := UnnestedType(TypeOf(vars[i]));
    assert t.Some? ==> t.value + [] == t.value;
  }

  lemma {:induction false} UnnestedStuck(vars: seq<Expr>, i: nat)
    requires i <= |vars| && UnnestedTypes(vars[..i]).None?
    ensures UnnestedTypes(vars).None?
  {
    assert vars == vars[..i] + vars[i..];
    UnnestedConcat(vars[..i], vars[i..]);
  }

  lemma {:induction false} UnnestedGrows(vars: seq<Expr>, i: nat)
    requires i <= |vars| && UnnestedTypes(vars[..i]).Some?
    ensures UnnestedTypes(vars).Some? ==> |UnnestedTypes(vars).value| >= |UnnestedTypes(vars[..i]).value|
  {
    assert vars == vars[..i] + vars[i..];
    UnnestedConcat(vars[..i], vars[i..]);
  }

  // ----- the columns of an unnest, one by one -----

  /** The number of columns that unnesting the first j variables gives. */
  function Start(vars: seq<Expr>, j: nat): nat
    requires j <= |vars|
  {
    WidthOf(vars[..j])
  }

  function WidthOf(vars: seq<Expr>): nat {
    if vars == [] then 0 else WidthOf(vars[..|vars| - 1]) + (if TypeOf(vars[|vars| - 1]).MapOf? then 2 else 1)
  }

  lemma {:induction false} StartNext(vars: seq<Expr>, j: nat)
    requires j < |vars|
    ensures Start(vars, j + 1) == Start(vars, j) + if TypeOf(vars[j]).MapOf? then 2 else 1
  {
    assert vars[..j + 1][..j] == vars[..j];
  }

  /** The columns from position at on hold the elements of an array, or the keys and then the
      values of a map. */
  predicate Unnests(t: Type, types: seq<Type>, at: nat) {
    if t.MapOf? then at + 1 < |types| && types[at] == t.key && types[at + 1] == t.val
    else t.ArrayOf? && at < |types| && types[at] == t.element
  }

  /** The first i variables give these types, each in its place. */
  predicate UnnestedAs(vars: seq<Expr>, i: nat, types: seq<Type>)
    requires i <= |vars|
  {
    && |types| == Start(vars, i)
    && forall j | 0 <= j < i :: Unnests(TypeOf(vars[j]), types, Start(vars, j))
  }

  predicate Unnestable(vars: seq<Expr>, i: nat)
    requires i <= |vars|
  {
    forall j | 0 <= j < i :: TypeOf(vars[j]).ArrayOf? || TypeOf(vars[j]).MapOf?
  }

  lemma {:induction false} UnnestedAt(vars: seq<Expr>, i: nat)
    requires i <= |vars|
    ensures var r := UnnestedTypes(vars[..i]);
            (r.Some? <==> Unnestable(vars, i)) && (r.Some? ==> UnnestedAs(vars, i, r.value))
  {
    hide TypeOf, UnnestedAs;
    if i > 0 {
      UnnestedAt(vars, i - 1);
      UnnestedNext(vars, i - 1);
      var before, more := UnnestedTypes(vars[..i - 1]), UnnestedType(TypeOf(vars[i - 1]));
      if before.Some? && more.Some? {
        OneMore(vars, i - 1, before.value, more.value);
      }
    } else {
      NoneYet(vars);
    }
  }

  lemma {:induction false} NoneYet(vars: seq<Expr>)
    ensures UnnestedAs(vars, 0, [])
  {
    assert vars[..0] == [];
  }

  lemma {:induction false} OneMore(vars: seq<Expr>, i: nat, types: seq<Type>, more: seq<Type>)
    requires i < |vars| && UnnestedAs(vars, i, types) && UnnestedType(TypeOf(vars[i])) == Some(more)
    ensures UnnestedAs(vars, i + 1, types + more)
  {
    hide TypeOf, Start, Unnests;
    UnnestsOwn(TypeOf(vars[i]), more);
    StartNext(vars, i);
    forall j | 0 <= j < i + 1 ensures Unnests(TypeOf(vars[j]), types + more, Start(vars, j)) {
      if j < i {
        UnnestsBefore(TypeOf(vars[j]), types, Start(vars, j), more);
      } else {
        UnnestsBehind(TypeOf(vars[j]), more, 0, types);
      }
    }
  }

  lemma {:induction false} UnnestsOwn(t: Type, types: seq<Type>)
    requires UnnestedType(t) == Some(types)
    ensures Unnests(t, types, 0) && |types| == if t.MapOf? then 2 else 1
  {
  }

  lemma {:induction false} UnnestsBefore(t: Type, types: seq<Type>, at: nat, back: seq<Type>)
    requires Unnests(t, types, at)
    ensures Unnests(t, types + back, at)
  {
  }

  lemma {:induction false} UnnestsBehind(t: Type, types: seq<Type>, at: nat, front: seq<Type>)
    requires Unnests(t, types, at)
    ensures Unnests(t, front + types, |front| + at)
  {
  }

  /** Every column in its place: the replicated ones, the unnested ones under the next names, and
      the ordinality at the end. */
  predicate UnnestLayout(
    replicate: seq<Expr>, unnest: seq<Expr>, names: seq<string>, ordinality: Option<string>, out: Type)
  {
    var n, w := |replicate|, Start(unnest, |unnest|);
    && out.RowOf? && |out.names| == |out.children| == n + w + (if ordinality.Some? then 1 else 0)
    && (forall i | 0 <= i < n :: out.names[i] == FieldName(replicate[i]) && out.children[i] == TypeOf(replicate[i]))
    && w <= |names| && (forall i | 0 <= i < w :: out.names[n + i] == names[i])
    && (forall j | 0 <= j < |unnest| :: Unnests(TypeOf(unnest[j]), out.children, n + Start(unnest, j)))
    && (ordinality.Some? ==> out.names[n + w] == ordinality.value && out.children[n + w] == BIGINT)
  }

  /** The constructor raises exactly on a variable that is neither array nor map or on too few
      names; otherwise every column is in its place. */
  lemma {:induction false} UnnestColumns(
    replicate: seq<Expr>, unnest: seq<Expr>, names: seq<string>, ordinality: Option<string>)
    ensures var r := MakeUnnest(replicate, unnest, names, ordinality);
            && (r.Some? <==>
                Unnestable(unnest, |unnest|) && Start(unnest, |unnest|) <= |names|)
            && (r.Some? ==> r.value.Unnest?
                            && UnnestLayout(replicate, unnest, names, ordinality, r.value.outputType))
  {
    hide TypeOf, Start, Unnests, UnnestLayout;
    assert unnest[..|unnest|] == unnest;
    UnnestedAt(unnest, |unnest|);
    if MakeUnnest(replicate, unnest, names, ordinality).Some? {
      LaidOut(replicate, unnest, names, ordinality, UnnestedTypes(unnest).value);
    }
  }

  lemma {:induction false} LaidOut(
    replicate: seq<Expr>, unnest: seq<Expr>, names: seq<string>, ordinality: Option<string>, types: seq<Type>)
    requires |types| == Start(unnest, |unnest|) <= |names|
    requires forall j | 0 <= j < |unnest| :: Unnests(TypeOf(unnest[j]), types, Start(unnest, j))
    ensures var (n, t) := if ordinality.Some? then ([ordinality.value], [BIGINT]) else ([], []);
            UnnestLayout(replicate, unnest, names, ordinality,
                         RowOf(FieldNames(replicate) + names[..|types|] + n, TypesOf(replicate) + types + t))
  {
    hide TypeOf, Start, Unnests;
    var t := if ordinality.Some? then [BIGINT] else [];
    forall j | 0 <= j < |unnest|
      ensures Unnests(TypeOf(unnest[j]), TypesOf(replicate) + types + t, |replicate| + Start(unnest, j))
    {
      UnnestsBehind(TypeOf(unnest[j]), types, Start(unnest, j), TypesOf(replicate));
      UnnestsBefore(TypeOf(unnest[j]), TypesOf(replicate) + types, |replicate| + Start(unnest, j), t);
    }
  }

  /** getWindowOutputType(): the input columns followed by one column per function. */
  method WindowOutput(input: Type, windowNames: seq<string>, functions: seq<WindowFunction>) returns (r: Option<Type>)
    requires input.RowOf?
    ensures r == if |windowNames| != |functions| then None
                 else Some(AppendColumns(input, windowNames,
                     seq(|functions|, i requires 0 <= i < |functions| => TypeOf(functions[i].call))))
  {
    if |windowNames| != |functions| { return None; }
    var names, types, i := input.names, input.children, 0;
    while i < |windowNames|
      invariant i <= |windowNames|
      invariant names == input.names + windowNames[..i]
      invariant types == input.children + seq(i, j requires 0 <= j < i => TypeOf(functions[j].call))
    {
      names, types, i := names + [windowNames[i]], types + [TypeOf(functions[i].call)], i + 1;
    }
    assert windowNames[..i] == windowNames;
    r := Some(RowOf(names, types));
  }

  /** The duplicate check of getExpandOutputType(), which inserts into a hash set. */
  method HasUniqueNames(names: seq<string>) returns (ok: bool)
    ensures ok == Unique(names)
  {
    var seen: set<string>, i := {}, 0;
    while i < |names|
      invariant i <= |names| && Unique(names[..i])
      invariant forall n :: n in seen <==> exists j | 0 <= j < i :: names[j] == n
    {
      if names[i] in seen { return false; }
      seen, i := seen + {names[i]}, i + 1;
    }
    assert names[..i] == names;
    ok := true;
  }

  // ----- output types column by column -----

  function Zip(names: seq<string>, types: seq<Type>): seq<(string, Type)> {
    seq(Min(|names|, |types|), i requires 0 <= i < |names| && i < |types| => (names[i], types[i]))
  }

  /** A row type as the list of its columns. */
  function Columns(t: Type): seq<(string, Type)> {
    Zip(NamesOf(t), ColumnsOf(t))
  }

  function FieldColumns(es: seq<Expr>): seq<(string, Type)> {
    seq(|es|, i requires 0 <= i < |es| => (FieldName(es[i]), TypeOf(es[i])))
  }

  /** Behind the columns of the input come columns of these types. */
  predicate Appends(input: seq<(string, Type)>, types: seq<Type>, out: seq<(string, Type)>) {
    |out| == |input| + |types| && input <= out && forall i | 0 <= i < |types| :: out[|input| + i].1 == types[i]
  }

  /** What a node shows of the columns of its first source and of its own. */
  predicate Exposes(op: Op, input: seq<(string, Type)>, out: seq<(string, Type)>) {
    match op
    case Project(names, es) => |out| == |es| && out == Zip(names, TypesOf(es))
    case Aggregation(_, keys, _, names, aggs, _, _, _) =>
      && |out| == |keys| + |aggs|
      && out == FieldColumns(keys) + Zip(names, seq(|aggs|, i requires 0 <= i < |aggs| => TypeOf(aggs[i].call)))
    case GroupId(_, infos, inputs, name) =>
      out == seq(|infos|, i requires 0 <= i < |infos| => (infos[i].output, TypeOf(infos[i].input)))
             + FieldColumns(inputs) + [(name, BIGINT)]
    case MarkDistinct(name, _) => out == input + [(name, BOOLEAN)]
    case AssignUniqueId(_, _) => Appends(input, [BIGINT], out)
    case RowNumber(_, _, _) => out == input || Appends(input, [BIGINT], out)
    case TopNRowNumber(_, _, _, _, _) => out == input || Appends(input, [BIGINT], out)
    case Window(_, _, _, fs, _, _) =>
      Appends(input, seq(|fs|, i requires 0 <= i < |fs| => TypeOf(fs[i].call)), out)
    case Expand(_, matrix) =>
      matrix != [] && |out| == |matrix[0]| && forall i | 0 <= i < |out| :: out[i].1 == TypeOf(matrix[0][i])
    case Filter(_) => out == input
    case LocalMerge(_, _) => out == input
    case LocalPartition(_, _) => out == input
    case OrderBy(_, _, _) => out == input
    case TopN(_, _, _, _) => out == input
    case Limit(_, _, _) => out == input
    case EnforceSingleRow => out == input
    case _ => true
  }

  lemma {:induction false} ZipAppend(ms: seq<string>, ss: seq<Type>, names: seq<string>, types: seq<Type>)
    requires |ms| == |ss|
    ensures Zip(ms + names, ss + types) == Zip(ms, ss) + Zip(names, types)
  {
  }

  lemma {:induction false} AppendedColumns(t: Type, names: seq<string>, types: seq<Type>)
    requires |NamesOf(t)| == |ColumnsOf(t)| && |names| == |types|
    ensures Columns(AppendColumns(t, names, types)) == Columns(t) + Zip(names, types)
    ensures Appends(Columns(t), types, Columns(AppendColumns(t, names, types)))
  {
    ZipAppend(NamesOf(t), ColumnsOf(t), names, types);
    hide Zip, Appends;
    AppendsZip(Columns(t), names, types);
  }

  lemma {:induction false} AppendsZip(input: seq<(string, Type)>, names: seq<string>, types: seq<Type>)
    requires |names| == |types|
    ensures Appends(input, types, input + Zip(names, types))
  {
  }

  lemma {:induction false} MarkColumns(op: Op, input: Type)
    requires op.MarkDistinct? && |NamesOf(input)| == |ColumnsOf(input)|
    ensures Exposes(op, Columns(input), Columns(AppendColumns(input, [op.markerName], [BOOLEAN])))
  {
    AppendedColumns(input, [op.markerName], [BOOLEAN]);
    assert Zip([op.markerName], [BOOLEAN]) == [(op.markerName, BOOLEAN)];
  }

  lemma {:induction false} AggregationColumns(op: Op)
    requires op.Aggregation? && |op.aggregateNames| == |op.aggregates|
    ensures var aggs := op.aggregates;
            Exposes(op, [], Columns(RowOf(FieldNames(op.groupingKeys) + op.aggregateNames,
                TypesOf(op.groupingKeys) + seq(|aggs|, i requires 0 <= i < |aggs| => TypeOf(aggs[i].call)))))
  {
    hide TypeOf, FieldName;
  }

  lemma {:induction false} GroupIdColumns(op: Op)
    requires op.GroupId?
    ensures var infos, inputs := op.groupingKeyInfos, op.aggregationInputs;
            Exposes(op, [], Columns(RowOf(
                seq(|infos|, i requires 0 <= i < |infos| => infos[i].output) + FieldNames(inputs) + [op.groupIdName],
                seq(|infos|, i requires 0 <= i < |infos| => TypeOf(infos[i].input)) + TypesOf(inputs) + [BIGINT])))
  {
    hide TypeOf, FieldName;
  }

  lemma {:induction false} NumberedColumns(op: Op, input: Type, name: Option<string>)
    requires (op.RowNumber? || op.TopNRowNumber?) && op.outputType == OptionalRowNumber(input, name)
    requires input.RowOf? && |input.names| == |input.children|
    ensures Exposes(op, Columns(input), Columns(op.outputType))
  {
    if name.Some? {
      AppendedColumns(input, [name.value], [BIGINT]);
    }
  }

  lemma {:induction false} WindowColumns(op: Op, input: Type, names: seq<string>)
    requires op.Window? && WindowBuilt(op, input, names) && |NamesOf(input)| == |ColumnsOf(input)|
    ensures Exposes(op, Columns(input), Columns(op.outputType))
  {
    hide TypeOf;
    var fs := op.functions;
    AppendedColumns(input, names, seq(|fs|, i requires 0 <= i < |fs| => TypeOf(fs[i].call)));
    hide Columns, AppendColumns, Appends, Unique;
  }

  lemma {:induction false} ExpandColumns(op: Op, names: seq<string>)
    requires op.Expand? && MakeExpand(op.matrix, names) == Some(op)
    ensures Exposes(op, [], Columns(op.outputType))
  {
    assert op.matrix[0] in op.matrix;
  }

  /** The kinds that keep the output type their constructor builds. */
  lemma {:induction false} BuiltColumns(op: Op, sources: seq<Plan>)
    requires Constructed(op, sources)
    requires SourceType(sources).RowOf? && |SourceType(sources).names| == |SourceType(sources).children|
    ensures op.AssignUniqueId? || op.RowNumber? || op.TopNRowNumber? || op.Window? || op.Expand? ==>
              Exposes(op, Columns(SourceType(sources)), Columns(op.outputType))
  {
    hide Check, Columns, Zip, Appends, AppendColumns, OptionalRowNumber, MakeExpand, MakeUnnest, WindowBuilt,
      SourceType, TypeOf;
    var input := SourceType(sources);
    if op.AssignUniqueId? {
      var name :| op.outputType == AppendColumns(input, [name], [BIGINT]);
      AppendedColumns(input, [name], [BIGINT]);
    } else if op.RowNumber? || op.TopNRowNumber? {
      var name :| op.outputType == OptionalRowNumber(input, name);
      NumberedColumns(op, input, name);
    } else if op.Window? {
      var names :| WindowBuilt(op, input, names);
      WindowColumns(op, input, names);
    } else if op.Expand? {
      var names :| MakeExpand(op.matrix, names) == Some(op);
      ExpandColumns(op, names);
    }
  }

  /** Every node built by its constructor shows each column under its own name with its own type,
      in the order its kind says. */
  lemma {:induction false} OutputColumns(p: Plan)
    requires Valid(p)
    ensures Exposes(p.op, Columns(SourceType(p.sources)), Columns(OutputType(p)))
  {
    var op, input := p.op, SourceType(p.sources);
    if p.sources != [] { assert p.sources[0] in p.sources; }
    assert input.RowOf? && |input.names| == |input.children|;
    assert Check(op, p.sources);
    BuiltColumns(op, p.sources);
    hide Columns, Zip, Appends, AppendColumns, Constructed, WellFormedExprs, TypeOf, FieldName;
    if op.Project? {
      ColumnsZip(op.names, TypesOf(op.projections));
    } else if op.Aggregation? {
      AggregationColumns(op);
    } else if op.GroupId? {
      GroupIdColumns(op);
    } else if op.MarkDistinct? {
      MarkColumns(op, input);
    }
  }

  lemma {:induction false} ColumnsZip(names: seq<string>, types: seq<Type>)
    ensures Columns(RowOf(names, types)) == Zip(names, types)
    ensures |Zip(names, types)| == Min(|names|, |types|)
  {
  }

  /** Whether a join of this type may show columns of its left or right source. */
  predicate ShowsSide(j: JoinType, side: nat) {
    if side == 0 then !j.RightSemiFilter? && !j.RightSemiProject?
    else side == 1 && !j.LeftSemiFilter? && !j.LeftSemiProject? && !j.Anti?
  }

  /** Every output column of a join, but for the marker of a semi-project join, stands for one
      column of one source, which the join type shows, and is not ambiguous. */
  lemma {:induction false} JoinColumnTraced(p: Plan, i: nat) returns (side: nat, k: nat)
    requires Valid(p) && (p.op.HashJoin? || p.op.MergeJoin? || p.op.NestedLoopJoin?) && i < |NamesOf(OutputType(p))|
    requires (p.op.joinType.LeftSemiProject? || p.op.joinType.RightSemiProject?) ==> i < |NamesOf(OutputType(p))| - 1
    ensures side < 2 == |p.sources| && k < |NamesOf(OutputType(p.sources[side]))|
    ensures NamesOf(OutputType(p.sources[side]))[k] == NamesOf(OutputType(p))[i]
    ensures NamesOf(OutputType(p))[i] !in NamesOf(OutputType(p.sources[1 - side])) && ShowsSide(p.op.joinType, side)
  {
    assert OutputType(p) == p.op.outputType;
    JoinIsChecked(p.op, p.sources, i);
    var name := NamesOf(p.op.outputType)[i];
    hide OutputType, Valid, ShowsSide, Check;
    side := if name in NamesOf(OutputType(p.sources[0])) then 0 else 1;
    var names := NamesOf(OutputType(p.sources[side]));
    k :| k < |names| && names[k] == name;
  }

  lemma {:induction false} JoinIsChecked(op: Op, sources: seq<Plan>, i: nat)
    requires (op.HashJoin? || op.MergeJoin? || op.NestedLoopJoin?) && Check(op, sources)
    requires i < |NamesOf(op.outputType)|
    requires (op.joinType.LeftSemiProject? || op.joinType.RightSemiProject?) ==> i < |NamesOf(op.outputType)| - 1
    ensures |sources| == 2
    ensures var name, j := NamesOf(op.outputType)[i], op.joinType;
            var left, right := NamesOf(OutputType(sources[0])), NamesOf(OutputType(sources[1]));
            (name in left && name !in right && ShowsSide(j, 0)) || (name in right && name !in left && ShowsSide(j, 1))
  {
    hide OutputType;
    assert NamesOf(op.outputType)[i] in NamesOf(op.outputType);
  }
}
