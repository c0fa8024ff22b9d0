/** Query plan trees: the registered node kinds, their output types and the checks of
    their constructors (velox/core/PlanNode.h, velox/core/PlanNode.cpp). */
module Plans {
  import opened Types
  import opened TypedExprs
  import opened Dynamic

  datatype SortOrder = SortOrder(ascending: bool, nullsFirst: bool)

  datatype Step = PartialStep | FinalStep | IntermediateStep | SingleStep

  datatype Aggregate = Aggregate(
    call: Expr,
    rawInputTypes: seq<Type>,
    mask: Option<Expr>,
    sortingKeys: seq<Expr>,
    sortingOrders: seq<SortOrder>,
    distinct: bool)

  datatype WindowType = Range | Rows

  datatype BoundType = UnboundedPreceding | Preceding | CurrentRow | Following | UnboundedFollowing

  datatype WindowFrame = WindowFrame(
    typ: WindowType,
    startType: BoundType,
    startValue: Option<Expr>,
    endType: BoundType,
    endValue: Option<Expr>)

  datatype WindowFunction = WindowFunction(call: Expr, frame: WindowFrame, ignoreNulls: bool)

  datatype GroupingKeyInfo = GroupingKeyInfo(output: string, input: Expr)

  datatype JoinType = Inner | Left | Right | Full | LeftSemiFilter | LeftSemiProject
                    | RightSemiFilter | RightSemiProject | Anti

  datatype LocalPartitionType = Gather | Repartition

  datatype OutputKind = Partitioned | Broadcast | Arbitrary

  datatype CommitStrategy = NoCommit | TaskCommit

  /** The fields each node keeps besides its id and sources. Where a constructor takes
      names and keeps only the output type built from them, so does the model. */
  datatype Op =
    | Values(values: seq<Vector>, parallelizable: bool, repeatTimes: int)
    | Filter(filter: Expr)
    | Project(names: seq<string>, projections: seq<Expr>)
    | TableScan(outputType: Type, tableHandle: nat, assignments: seq<(string, nat)>)
    | Aggregation(
        step: Step,
        groupingKeys: seq<Expr>,
        preGroupedKeys: seq<Expr>,
        aggregateNames: seq<string>,
        aggregates: seq<Aggregate>,
        globalGroupingSets: seq<int>,
        groupId: Option<Expr>,
        ignoreNullKeys: bool)
    | TableWrite(
        columns: Type,
        columnNames: seq<string>,
        aggregation: Option<Plan>,
        connectorId: string,
        insertHandle: nat,
        hasPartitioningScheme: bool,
        outputType: Type,
        commitStrategy: CommitStrategy)
    | TableWriteMerge(outputType: Type, aggregation: Option<Plan>)
    | Expand(outputType: Type, matrix: seq<seq<Expr>>)
    | GroupId(
        groupingSets: seq<seq<string>>,
        groupingKeyInfos: seq<GroupingKeyInfo>,
        aggregationInputs: seq<Expr>,
        groupIdName: string)
    | Exchange(outputType: Type)
    | MergeExchange(outputType: Type, sortingKeys: seq<Expr>, sortingOrders: seq<SortOrder>)
    | LocalMerge(sortingKeys: seq<Expr>, sortingOrders: seq<SortOrder>)
    | LocalPartition(kind: LocalPartitionType, spec: nat)
    | PartitionedOutput(
        outputKind: OutputKind,
        keys: seq<Expr>,
        numPartitions: int,
        replicateNullsAndAny: bool,
        spec: nat,
        outputType: Type)
    | HashJoin(
        joinType: JoinType,
        nullAware: bool,
        leftKeys: seq<Expr>,
        rightKeys: seq<Expr>,
        joinFilter: Option<Expr>,
        outputType: Type)
    | MergeJoin(
        joinType: JoinType,
        leftKeys: seq<Expr>,
        rightKeys: seq<Expr>,
        joinFilter: Option<Expr>,
        outputType: Type)
    | NestedLoopJoin(joinType: JoinType, joinFilter: Option<Expr>, outputType: Type)
    | OrderBy(sortingKeys: seq<Expr>, sortingOrders: seq<SortOrder>, isPartial: bool)
    | TopN(sortingKeys: seq<Expr>, sortingOrders: seq<SortOrder>, count: int, isPartial: bool)
    | Limit(offset: int, count: int, isPartial: bool)
    | Unnest(
        replicateVariables: seq<Expr>,
        unnestVariables: seq<Expr>,
        withOrdinality: bool,
        outputType: Type)
    | EnforceSingleRow
    | AssignUniqueId(taskUniqueId: int, outputType: Type)
    | Window(
        partitionKeys: seq<Expr>,
        sortingKeys: seq<Expr>,
        sortingOrders: seq<SortOrder>,
        functions: seq<WindowFunction>,
        inputsSorted: bool,
        outputType: Type)
    | RowNumber(partitionKeys: seq<Expr>, rowLimit: Option<int>, outputType: Type)
    | TopNRowNumber(
        partitionKeys: seq<Expr>,
        sortingKeys: seq<Expr>,
        sortingOrders: seq<SortOrder>,
        limit: int,
        outputType: Type)
    | MarkDistinct(markerName: string, distinctKeys: seq<Expr>)

  datatype Plan = Plan(id: string, op: Op, sources: seq<Plan>)

  // ----- output types -----

  function FieldName(e: Expr): string {
    if e.Column? || e.Subfield? then e.name else ""
  }

  predicate IsField(e: Expr) {
    e.Column? || e.Subfield?
  }

  function FieldNames(es: seq<Expr>): (ns: seq<string>)
    ensures |ns| == |es|
  {
    seq(|es|, i requires 0 <= i < |es| => FieldName(es[i]))
  }

  function NamesOf(t: Type): seq<string> {
    if t.RowOf? then t.names else []
  }

  function ColumnsOf(t: Type): seq<Type> {
    if t.RowOf? then t.children else []
  }

  function AppendColumns(t: Type, names: seq<string>, types: seq<Type>): Type {
    RowOf(NamesOf(t) + names, ColumnsOf(t) + types)
  }

  function OutputType(p: Plan): Type {
    var first := if p.sources == [] then RowOf([], []) else OutputType(p.sources[0]);
    match p.op
    case Values(vs, _, _) => if vs == [] then RowOf([], []) else vs[0].typ
    case Project(names, es) => RowOf(names, TypesOf(es))
    case Aggregation(_, keys, _, names, aggs, _, _, _) =>
      RowOf(FieldNames(keys) + names,
            TypesOf(keys) + seq(|aggs|, i requires 0 <= i < |aggs| => TypeOf(aggs[i].call)))
    case GroupId(_, infos, inputs, name) =>
      RowOf(seq(|infos|, i requires 0 <= i < |infos| => infos[i].output) + FieldNames(inputs) + [name],
            seq(|infos|, i requires 0 <= i < |infos| => TypeOf(infos[i].input)) + TypesOf(inputs) + [BIGINT])
    case MarkDistinct(name, _) => AppendColumns(first, [name], [BOOLEAN])
    case Filter(_) => first
    case LocalMerge(_, _) => first
    case LocalPartition(_, _) => first
    case OrderBy(_, _, _) => first
    case TopN(_, _, _, _) => first
    case Limit(_, _, _) => first
    case EnforceSingleRow => first
    case _ => p.op.outputType
  }

  function SourceType(sources: seq<Plan>): Type {
    if sources == [] then RowOf([], []) else OutputType(sources[0])
  }

  // ----- constructors that build the output type from names they do not keep -----

  /** One unnested column for an array, two for a map; None for any other type. */
  function UnnestedTypes(vars: seq<Expr>): Option<seq<Type>> {
    if vars == [] then Some([])
    else
      var t, rest := TypeOf(vars[0]), UnnestedTypes(vars[1..]);
      if rest.None? then None
      else if t.ArrayOf? then Some([t.element] + rest.value)
      else if t.MapOf? then Some([t.key, t.val] + rest.value)
      else None
  }

  /** Replicated columns, then unnested columns named in order, then the ordinality column. */
  function MakeUnnest(
    replicate: seq<Expr>, unnest: seq<Expr>, names: seq<string>, ordinality: Option<string>): Option<Op>
  {
    var types := UnnestedTypes(unnest);
    if types.None? || |names| < |types.value| then None
    else
      var (n, t) := if ordinality.Some? then ([ordinality.value], [BIGINT]) else ([], []);
      Some(Unnest(replicate, unnest, ordinality.Some?,
                  RowOf(FieldNames(replicate) + names[..|types.value|] + n,
                        TypesOf(replicate) + types.value + t)))
  }

  function MakeExpand(matrix: seq<seq<Expr>>, names: seq<string>): Option<Op> {
    if && names != [] && matrix != []
       && (forall row <- matrix :: |row| == |names|)
       && Unique(names)
       && (forall row <- matrix, e <- row :: IsField(e) || e.Constant? || e.VectorConstant?)
       && (forall row <- matrix, i | 0 <= i < |row| && i < |matrix[0]| ::
             Equivalent(TypeOf(row[i]), TypeOf(matrix[0][i])))
    then Some(Expand(RowOf(names, TypesOf(matrix[0])), matrix)) else None
  }

  function MakeWindow(
    partitionKeys: seq<Expr>, sortingKeys: seq<Expr>, sortingOrders: seq<SortOrder>, names: seq<string>,
    functions: seq<WindowFunction>, inputsSorted: bool, input: Type): Option<Op>
  {
    if && |names| == |functions| > 0
       && |sortingKeys| == |sortingOrders|
       && Unique(FieldNames(partitionKeys) + FieldNames(sortingKeys))
       && (forall f <- functions :: f.frame.typ.Range? && (f.frame.startValue.Some? || f.frame.endValue.Some?)
                                    ==> |sortingKeys| == 1)
    then
      var types := seq(|functions|, i requires 0 <= i < |functions| => TypeOf(functions[i].call));
      Some(Window(partitionKeys, sortingKeys, sortingOrders, functions, inputsSorted,
                  AppendColumns(input, names, types)))
    else None
  }

  predicate WindowBuilt(op: Op, input: Type, names: seq<string>)
    requires op.Window?
  {
    MakeWindow(op.partitionKeys, op.sortingKeys, op.sortingOrders, names, op.functions, op.inputsSorted, input)
        == Some(op)
  }

  function OptionalRowNumber(input: Type, name: Option<string>): Type {
    if name.None? then input else AppendColumns(input, [name.value], [BIGINT])
  }

  predicate Unique(names: seq<string>) {
    forall i, j | 0 <= i < j < |names| :: names[i] != names[j]
  }

  // ----- constructor checks -----

  predicate CheckAggregation(op: Op)
    requires op.Aggregation?
  {
    && |op.aggregateNames| == |op.aggregates|
    && (forall k <- op.preGroupedKeys :: FieldName(k) in FieldNames(op.groupingKeys))
    && (op.groupId.Some? ==> FieldName(op.groupId.value) in FieldNames(op.groupingKeys))
    && (op.groupId.Some? <==> op.globalGroupingSets != [])
  }

  /** The checks of AbstractJoinNode. */
  predicate CheckJoin(joinType: JoinType, lefts: seq<Expr>, rights: seq<Expr>, out: Type, sources: seq<Plan>)
    requires |sources| == 2
  {
    var left, right := NamesOf(OutputType(sources[0])), NamesOf(OutputType(sources[1]));
    var project := joinType.LeftSemiProject? || joinType.RightSemiProject?;
    var mayLeft := !joinType.RightSemiFilter? && !joinType.RightSemiProject?;
    var mayRight := !joinType.LeftSemiFilter? && !joinType.LeftSemiProject? && !joinType.Anti?;
    var names, types := NamesOf(out), ColumnsOf(out);
    && |names| == |types|
    && lefts != [] && |lefts| == |rights|
    && (forall k <- lefts :: FieldName(k) in left)
    && (forall k <- rights :: FieldName(k) in right)
    && (forall i | 0 <= i < |lefts| :: SameKind(TypeOf(lefts[i]), TypeOf(rights[i])))
    && (project ==>
          && names != [] && types[|types| - 1] == BOOLEAN
          && names[|names| - 1] !in left && names[|names| - 1] !in right)
    && (forall i | 0 <= i < |names| - (if project then 1 else 0) ::
          (mayLeft && names[i] in left && names[i] !in right) || (mayRight && names[i] in right && names[i] !in left))
  }

  predicate SameKind(a: Type, b: Type) {
    match (a, b)
    case (Scalar(k, _), Scalar(l, _)) => k == l
    case (ArrayOf(_), ArrayOf(_)) => true
    case (MapOf(_, _), MapOf(_, _)) => true
    case (RowOf(_, _), RowOf(_, _)) => true
    case (FunctionOf(_), FunctionOf(_)) => true
    case (Opaque(_), Opaque(_)) => true
    case _ => false
  }

  predicate CheckSorting(keys: seq<Expr>, orders: seq<SortOrder>) {
    keys != [] && |keys| == |orders|
  }

  /** What the constructor of each node checks of its arguments. */
  predicate Check(op: Op, sources: seq<Plan>) {
    match op
    case Filter(f) => TypeOf(f).Scalar? && TypeOf(f).kind == BOOLEAN.kind
    case Project(names, es) => |names| == |es|
    case Aggregation(_, _, _, _, _, _, _, _) => CheckAggregation(op)
    case TableWrite(columns, names, _, _, _, _, _, _) =>
      |NamesOf(columns)| == |names| && forall n <- NamesOf(columns) :: n in NamesOf(SourceType(sources))
    case GroupId(sets, _, _, _) => |sets| >= 2
    case LocalPartition(_, _) =>
      sources != [] && forall s <- sources :: TypeEq(OutputType(s), OutputType(sources[0]))
    case PartitionedOutput(kind, keys, n, _, _, _) =>
      n > 0 && (n == 1 || !kind.Partitioned? ==> keys == [])
    case HashJoin(j, nullAware, ls, rs, filter, out) =>
      && |sources| == 2 && CheckJoin(j, ls, rs, out, sources)
      && (nullAware ==>
            && (j.Anti? || j.LeftSemiProject? || j.RightSemiProject?)
            && |ls| == 1
            && (filter.Some? ==> !j.RightSemiProject?))
    case MergeJoin(j, ls, rs, _, out) => |sources| == 2 && CheckJoin(j, ls, rs, out, sources)
    case NestedLoopJoin(j, _, out) =>
      && |sources| == 2 && (j.Inner? || j.Left? || j.Right? || j.Full?)
      && forall n <- NamesOf(out) ::
           (n in NamesOf(OutputType(sources[0]))) != (n in NamesOf(OutputType(sources[1])))
    case OrderBy(keys, orders, _) => CheckSorting(keys, orders)
    case TopN(keys, orders, count, _) => CheckSorting(keys, orders) && count > 0 && Unique(FieldNames(keys))
    case Limit(_, count, _) => count > 0
    case TopNRowNumber(parts, keys, orders, limit, _) =>
      CheckSorting(keys, orders) && limit > 0 && Unique(FieldNames(parts) + FieldNames(keys))
    case MarkDistinct(name, keys) => name != "" && keys != []
    case _ => true
  }

  /** The node is the result of its constructor: the checks passed and an output type that
      is derived from names came out of the corresponding builder. */
  ghost predicate Constructed(op: Op, sources: seq<Plan>) {
    && Check(op, sources)
    && (op.Unnest? ==>
          exists names, ord :: MakeUnnest(op.replicateVariables, op.unnestVariables, names, ord) == Some(op))
    && (op.Expand? ==> exists names :: MakeExpand(op.matrix, names) == Some(op))
    && (op.Window? ==> exists names :: WindowBuilt(op, SourceType(sources), names))
    && (op.AssignUniqueId? ==> exists name :: op.outputType == AppendColumns(SourceType(sources), [name], [BIGINT]))
    && (op.RowNumber? || op.TopNRowNumber? ==>
          exists name :: op.outputType == OptionalRowNumber(SourceType(sources), name))
    && (op.TableScan? ==> forall i, j | 0 <= i < j < |op.assignments| :: op.assignments[i].0 != op.assignments[j].0)
    && ((op.TableWrite? || op.TableWriteMerge?) && op.aggregation.Some? ==> op.aggregation.value.op.Aggregation?)
  }

  datatype Arity = Leaf | Unary | Binary | Many

  function ArityOf(op: Op): Arity {
    match op
    case Values(_, _, _) => Leaf
    case TableScan(_, _, _) => Leaf
    case Exchange(_) => Leaf
    case MergeExchange(_, _, _) => Leaf
    case HashJoin(_, _, _, _, _, _) => Binary
    case MergeJoin(_, _, _, _, _) => Binary
    case NestedLoopJoin(_, _, _) => Binary
    case LocalMerge(_, _) => Many
    case LocalPartition(_, _) => Many
    case _ => Unary
  }

  predicate Fits(a: Arity, n: nat) {
    match a
    case Leaf => n == 0
    case Unary => n == 1
    case Binary => n == 2
    case Many => true
  }

  /** All expressions are well formed and fields and calls are what their types say. */
  predicate WellFormedExprs(op: Op) {
    match op
    case Filter(f) => WellFormed(f)
    case Project(_, es) => AllWellFormed(es)
    case Aggregation(_, ks, ps, _, aggs, _, g, _) =>
      AllFields(ks) && AllFields(ps) && OptField(g) &&
      forall a <- aggs :: WellFormed(a.call) && a.call.Call? && OptField(a.mask) && AllFields(a.sortingKeys)
    case Expand(_, matrix) => forall row <- matrix :: AllWellFormed(row)
    case GroupId(_, infos, inputs, _) =>
      AllFields(inputs) && forall i <- infos :: WellFormed(i.input) && IsField(i.input)
    case MergeExchange(_, ks, _) => AllFields(ks)
    case LocalMerge(ks, _) => AllFields(ks)
    case PartitionedOutput(_, ks, _, _, _, _) => AllWellFormed(ks)
    case HashJoin(_, _, ls, rs, f, _) => AllFields(ls) && AllFields(rs) && OptWellFormed(f)
    case MergeJoin(_, ls, rs, f, _) => AllFields(ls) && AllFields(rs) && OptWellFormed(f)
    case NestedLoopJoin(_, f, _) => OptWellFormed(f)
    case OrderBy(ks, _, _) => AllFields(ks)
    case TopN(ks, _, _, _) => AllFields(ks)
    case Unnest(rs, us, _, _) => AllFields(rs) && AllFields(us)
    case Window(ps, ks, _, fs, _, _) =>
      AllFields(ps) && AllFields(ks) &&
      forall f <- fs :: WellFormed(f.call) && f.call.Call? && OptWellFormed(f.frame.startValue)
          && OptWellFormed(f.frame.endValue)
    case RowNumber(ps, _, _) => AllFields(ps)
    case TopNRowNumber(ps, ks, _, _, _) => AllFields(ps) && AllFields(ks)
    case MarkDistinct(_, ks) => AllFields(ks)
    case _ => true
  }

  predicate AllWellFormed(es: seq<Expr>) {
    forall e <- es :: WellFormed(e)
  }

  predicate AllFields(es: seq<Expr>) {
    forall e <- es :: WellFormed(e) && IsField(e)
  }

  predicate OptWellFormed(e: Option<Expr>) {
    e.Some? ==> WellFormed(e.value)
  }

  predicate OptField(e: Option<Expr>) {
    e.Some? ==> WellFormed(e.value) && IsField(e.value)
  }

  /** The plan was built by the constructors. */
  ghost predicate Valid(p: Plan) {
    && Fits(ArityOf(p.op), |p.sources|)
    && Constructed(p.op, p.sources)
    && WellFormedExprs(p.op)
    && ((p.op.TableWrite? || p.op.TableWriteMerge?) && p.op.aggregation.Some? ==> Valid(p.op.aggregation.value))
    && (forall s <- p.sources :: Valid(s))
    && (forall s <- p.sources :: OutputType(s).RowOf? && ValidType(OutputType(s)))
  }
}
