/** Reading back what was written rebuilds every plan, exactly when the memory pool
    reaches every vector that needs it (velox/core/PlanNode.cpp). */
module PlanRoundTrip {
  import opened Types
  import opened TypedExprs
  import opened Dynamic
  import ES = ExprSerde
  import opened Plans
  import opened PlanNames
  import opened PlanParts
  import opened PlanSerde

  /** Where the pool gets to inside one node: filters, join filters, aggregate calls and
      masks, grouping-key inputs and window functions are read without it. */
  predicate ReadableOp(c: Codec, op: Op, pool: bool) {
    match op
    case Values(vs, _, _) => VectorsReadable(c, vs, pool)
    case Filter(f) => ES.Readable(c, f, false)
    case Project(_, es) => ExprsReadable(c, es, pool)
    case Aggregation(_, ks, ps, _, aggs, _, g, _) =>
      && ExprsReadable(c, ks, pool) && ExprsReadable(c, ps, pool) && OptReadable(c, g, pool)
      && AggregatesReadable(c, aggs, pool)
    case Expand(_, matrix) => MatrixReadable(c, matrix, pool)
    case GroupId(_, infos, inputs, _) => InfosReadable(c, infos) && ExprsReadable(c, inputs, pool)
    case MergeExchange(_, ks, _) => ExprsReadable(c, ks, pool)
    case LocalMerge(ks, _) => ExprsReadable(c, ks, pool)
    case PartitionedOutput(_, ks, _, _, _, _) => ExprsReadable(c, ks, pool)
    case HashJoin(_, _, ls, rs, f, _) =>
      ExprsReadable(c, ls, pool) && ExprsReadable(c, rs, pool) && OptReadable(c, f, false)
    case MergeJoin(_, ls, rs, f, _) =>
      ExprsReadable(c, ls, pool) && ExprsReadable(c, rs, pool) && OptReadable(c, f, false)
    case NestedLoopJoin(_, f, _) => OptReadable(c, f, pool)
    case OrderBy(ks, _, _) => ExprsReadable(c, ks, pool)
    case TopN(ks, _, _, _) => ExprsReadable(c, ks, pool)
    case Unnest(rs, us, _, _) => ExprsReadable(c, rs, pool) && ExprsReadable(c, us, pool)
    case Window(ps, ks, _, fs, _, _) =>
      ExprsReadable(c, ps, pool) && ExprsReadable(c, ks, pool) && FunctionsReadable(c, fs)
    case RowNumber(ps, _, _) => ExprsReadable(c, ps, pool)
    case TopNRowNumber(ps, ks, _, _, _) => ExprsReadable(c, ps, pool) && ExprsReadable(c, ks, pool)
    case MarkDistinct(_, ks) => ExprsReadable(c, ks, pool)
    case _ => true
  }

  predicate AggregatesReadable(c: Codec, aggs: seq<Aggregate>, pool: bool) {
    forall a <- aggs :: AggregateReadable(c, a, pool)
  }

  predicate InfosReadable(c: Codec, infos: seq<GroupingKeyInfo>) {
    forall i <- infos :: ES.Readable(c, i.input, false)
  }

  predicate FunctionsReadable(c: Codec, fs: seq<WindowFunction>) {
    forall f <- fs :: FunctionReadable(c, f)
  }

  /** Where the pool gets to in a plan: everything below a table write is read without it. */
  predicate Readable(c: Codec, p: Plan, pool: bool) {
    var below := pool && !p.op.TableWrite? && !p.op.TableWriteMerge?;
    && ReadableOp(c, p.op, pool)
    && (AggregationOf(p.op).Some? ==> Readable(c, AggregationOf(p.op).value, false))
    && forall s <- p.sources :: Readable(c, s, below)
  }

  // ----- one lemma per create function -----

  lemma {:induction false} RecoversValues(c: Codec, op: Op, h: Head, d: Dyn, pool: bool)
    requires ValidCodec(c) && op.Values? && d == Object(h, ValuesFields(c, op))
    ensures ReadValues(c, d, pool) == if VectorsReadable(c, op.values, pool) then Some(op) else None
  {
    hide RestoreAll, SaveAll, VectorsReadable, ValidCodec;
    VectorsRoundTrip(c, op.values, pool);
  }

  lemma {:induction false} RecoversFilter(c: Codec, op: Op, h: Head, d: Dyn, pool: bool, sources: seq<Plan>)
    requires ValidCodec(c) && op.Filter? && d == Object(h, FilterFields(c, op))
    requires WellFormed(op.filter) && Checked(op, sources) == Some(op)
    ensures ReadFilter(c, d, sources) == if ES.Readable(c, op.filter, false) then Some(op) else None
  {
    hide ES.Read, ES.Write, ES.Readable, Checked, ValidCodec;
    ES.ExprRoundTrip(c, op.filter, false);
  }

  lemma {:induction false} RecoversProject(c: Codec, op: Op, h: Head, d: Dyn, pool: bool, sources: seq<Plan>)
    requires ValidCodec(c) && op.Project? && d == Object(h, ProjectFields(c, op))
    requires AllWellFormed(op.projections) && Checked(op, sources) == Some(op)
    ensures ReadProject(c, d, pool, sources) == if ExprsReadable(c, op.projections, pool) then Some(op) else None
  {
    hide ReadList, WriteList, ExprsReadable, AllFields, AllWellFormed, ValidCodec, Checked;
    StringsRoundTrip(op.names);
    ExprsRoundTrip(c, op.projections, pool);
  }

  lemma {:induction false} RecoversTableScan(op: Op, h: Head, d: Dyn)
    requires op.TableScan? && d == Object(h, TableScanFields(op))
    requires forall i, j | 0 <= i < j < |op.assignments| :: op.assignments[i].0 != op.assignments[j].0
    ensures ReadTableScan(d) == Some(op)
  {
    hide ReadList, WriteList, LastAssignments;
    PairsRoundTrip(op.assignments);
    DistinctAssignments(op.assignments);
  }

  /** Assigning distinct names one by one rebuilds the list of assignments. */
  lemma {:induction false} DistinctAssignments(pairs: seq<(string, nat)>)
    requires forall i, j | 0 <= i < j < |pairs| :: pairs[i].0 != pairs[j].0
    ensures LastAssignments(pairs) == pairs
  {
    if pairs != [] {
      var n := |pairs| - 1;
      DistinctAssignments(pairs[..n]);
      PutNew(pairs[..n], pairs[n]);
    }
  }

  lemma {:induction false} PutNew(pairs: seq<(string, nat)>, p: (string, nat))
    requires forall q <- pairs :: q.0 != p.0
    ensures Put(pairs, p) == pairs + [p]
  {
    if pairs != [] {
      PutNew(pairs[1..], p);
    }
  }

  lemma {:induction false} RecoversExpand(c: Codec, op: Op, h: Head, d: Dyn, pool: bool)
    requires ValidCodec(c) && op.Expand? && d == Object(h, ExpandFields(c, op))
    requires MakeExpand(op.matrix, NamesOf(op.outputType)) == Some(op)
        && (forall row <- op.matrix :: AllWellFormed(row))
    ensures ReadExpand(c, d, pool) == if MatrixReadable(c, op.matrix, pool) then Some(op) else None
  {
    hide ReadList, WriteList, MakeExpand, MatrixReadable, ValidCodec, AllWellFormed;
    StringsRoundTrip(NamesOf(op.outputType));
    MatrixRoundTrip(c, op.matrix, pool);
  }

  lemma {:induction false} RecoversGroupId(c: Codec, op: Op, h: Head, d: Dyn, pool: bool, sources: seq<Plan>)
    requires ValidCodec(c) && op.GroupId? && d == Object(h, GroupIdFields(c, op))
    requires AllFields(op.aggregationInputs) && InfosWellFormed(op.groupingKeyInfos) && Checked(op, sources) == Some(op)
    ensures ReadGroupId(c, d, pool, sources) ==
            if InfosReadable(c, op.groupingKeyInfos)
               && ExprsReadable(c, op.aggregationInputs, pool) then Some(op) else None
  {
    hide ReadList, WriteList, ExprsReadable, AllFields, AllWellFormed, ValidCodec, Checked, InfosReadable,
         InfosWellFormed;
    InfosRoundTrip(c, op.groupingKeyInfos);
    StringSetsRoundTrip(op.groupingSets);
    FieldsRoundTrip(c, op.aggregationInputs, pool);
  }

  lemma {:induction false} RecoversExchange(op: Op, h: Head, d: Dyn)
    requires op.Exchange? && d == Object(h, ExchangeFields(op))
    ensures ReadExchange(d) == Some(op)
  {
  }

  lemma {:induction false} RecoversMergeExchange(c: Codec, op: Op, h: Head, d: Dyn, pool: bool)
    requires ValidCodec(c) && op.MergeExchange? && d == Object(h, MergeExchangeFields(c, op))
    requires AllFields(op.sortingKeys)
    ensures ReadMergeExchange(c, d, pool) == if ExprsReadable(c, op.sortingKeys, pool) then Some(op) else None
  {
    hide ReadList, WriteList, ExprsReadable, AllFields, AllWellFormed, ValidCodec;
    FieldsRoundTrip(c, op.sortingKeys, pool);
    OrdersRoundTrip(op.sortingOrders);
  }

  lemma {:induction false} RecoversLocalMerge(c: Codec, op: Op, h: Head, d: Dyn, pool: bool)
    requires ValidCodec(c) && op.LocalMerge? && d == Object(h, LocalMergeFields(c, op))
    requires AllFields(op.sortingKeys)
    ensures ReadLocalMerge(c, d, pool) == if ExprsReadable(c, op.sortingKeys, pool) then Some(op) else None
  {
    hide ReadList, WriteList, ExprsReadable, AllFields, AllWellFormed, ValidCodec;
    FieldsRoundTrip(c, op.sortingKeys, pool);
    OrdersRoundTrip(op.sortingOrders);
  }

  lemma {:induction false} RecoversLocalPartition(op: Op, h: Head, d: Dyn, sources: seq<Plan>)
    requires op.LocalPartition? && d == Object(h, LocalPartitionFields(op)) && Checked(op, sources) == Some(op)
    ensures ReadLocalPartition(d, sources) == Some(op)
  {
    hide Checked, LocalPartitionTypeFromName, LocalPartitionTypeName;
    NamesInvert(SingleStep, CurrentRow, Rows, op.kind, Broadcast, NoCommit);
  }

  lemma {:induction false} RecoversPartitionedOutput(c: Codec, op: Op, h: Head, d: Dyn, pool: bool, sources: seq<Plan>)
    requires ValidCodec(c) && op.PartitionedOutput? && d == Object(h, PartitionedOutputFields(c, op))
    requires AllWellFormed(op.keys) && Checked(op, sources) == Some(op)
    ensures ReadPartitionedOutput(c, d, pool, sources) == if ExprsReadable(c, op.keys, pool) then Some(op) else None
  {
    hide ReadList, WriteList, ExprsReadable, AllFields, AllWellFormed, ValidCodec, Checked, OutputKindFromName,
         OutputKindName;
    ExprsRoundTrip(c, op.keys, pool);
    NamesInvert(SingleStep, CurrentRow, Rows, Gather, op.outputKind, NoCommit);
  }

  /** The fields common to both joins. */
  ghost predicate HasJoin(c: Codec, d: Dyn, j: JoinType, ls: seq<Expr>, rs: seq<Expr>, f: Option<Expr>, out: Type) {
    && Get(d, LeftKeys) == Some(WriteList(ls, ExprW(c)))
    && Get(d, RightKeys) == Some(WriteList(rs, ExprW(c)))
    && Get(d, FilterKey) == ExprOf(c, f)
    && GetStr(d, JoinTypeKey) == Some(JoinTypeName(j))
    && GetType(d, OutputType) == Some(out)
  }

  lemma {:induction false} RecoversJoin(
    c: Codec, d: Dyn, pool: bool, j: JoinType, ls: seq<Expr>, rs: seq<Expr>, f: Option<Expr>, out: Type)
    requires ValidCodec(c) && HasJoin(c, d, j, ls, rs, f, out)
    requires AllFields(ls) && AllFields(rs) && OptWellFormed(f)
    ensures ReadJoin(c, d, pool) ==
            if ExprsReadable(c, ls, pool) && ExprsReadable(c, rs, pool) && OptReadable(c, f, false)
            then Some(MergeJoin(j, ls, rs, f, out)) else None
  {
    hide ReadList, WriteList, ReadOpt, ExprOf, JoinTypeFromName, JoinTypeName, ExprsReadable, OptReadable, AllFields,
         ValidCodec;
    FieldsRoundTrip(c, ls, pool);
    FieldsRoundTrip(c, rs, pool);
    OptRoundTrip(c, f, false);
    JoinNamesInvert(j);
  }

  lemma {:induction false} HashJoinGets(c: Codec, op: Op, h: Head, d: Dyn)
    requires op.HashJoin? && d == Object(h, HashJoinFields(c, op))
    ensures HasJoin(c, d, op.joinType, op.leftKeys, op.rightKeys, op.joinFilter, op.outputType)
    ensures GetBool(d, NullAware) == Some(op.nullAware)
  {
    hide WriteList, ExprOf, JoinTypeName;
  }

  lemma {:induction false} RecoversHashJoin(c: Codec, op: Op, h: Head, d: Dyn, pool: bool, sources: seq<Plan>)
    requires ValidCodec(c) && op.HashJoin? && d == Object(h, HashJoinFields(c, op))
    requires AllFields(op.leftKeys) && AllFields(op.rightKeys) && OptWellFormed(op.joinFilter)
        && Checked(op, sources) == Some(op)
    ensures ReadHashJoin(c, d, pool, sources) ==
            if ExprsReadable(c, op.leftKeys, pool)
               && ExprsReadable(c, op.rightKeys, pool) && OptReadable(c, op.joinFilter, false) then Some(op) else None
  {
    hide Object, HashJoinFields, HasJoin, ReadJoin, GetBool, Checked, ExprsReadable, OptReadable, AllFields, ValidCodec;
    HashJoinGets(c, op, h, d);
    RecoversJoin(c, d, pool, op.joinType, op.leftKeys, op.rightKeys, op.joinFilter, op.outputType);
  }

  lemma {:induction false} RecoversMergeJoin(c: Codec, op: Op, h: Head, d: Dyn, pool: bool, sources: seq<Plan>)
    requires ValidCodec(c) && op.MergeJoin? && d == Object(h, MergeJoinFields(c, op))
    requires AllFields(op.leftKeys) && AllFields(op.rightKeys) && OptWellFormed(op.joinFilter)
        && Checked(op, sources) == Some(op)
    ensures ReadMergeJoin(c, d, pool, sources) ==
            if ExprsReadable(c, op.leftKeys, pool)
               && ExprsReadable(c, op.rightKeys, pool) && OptReadable(c, op.joinFilter, false) then Some(op) else None
  {
    hide WriteList, ExprOf, JoinTypeName, ReadJoin, Checked, ExprsReadable, OptReadable, AllFields, ValidCodec;
    RecoversJoin(c, d, pool, op.joinType, op.leftKeys, op.rightKeys, op.joinFilter, op.outputType);
  }

  lemma {:induction false} RecoversNestedLoopJoin(c: Codec, op: Op, h: Head, d: Dyn, pool: bool, sources: seq<Plan>)
    requires ValidCodec(c) && op.NestedLoopJoin? && d == Object(h, NestedLoopJoinFields(c, op))
    requires OptWellFormed(op.joinFilter) && Checked(op, sources) == Some(op)
    ensures ReadNestedLoopJoin(c, d, pool, sources) == if OptReadable(c, op.joinFilter, pool) then Some(op) else None
  {
    hide ReadOpt, ExprOf, JoinTypeName, JoinTypeFromName, Checked, OptReadable, ValidCodec;
    OptRoundTrip(c, op.joinFilter, pool);
    JoinNamesInvert(op.joinType);
  }

  lemma {:induction false} RecoversOrderBy(c: Codec, op: Op, h: Head, d: Dyn, pool: bool, sources: seq<Plan>)
    requires ValidCodec(c) && op.OrderBy? && d == Object(h, OrderByFields(c, op))
    requires AllFields(op.sortingKeys) && Checked(op, sources) == Some(op)
    ensures ReadOrderBy(c, d, pool, sources) == if ExprsReadable(c, op.sortingKeys, pool) then Some(op) else None
  {
    hide ReadList, WriteList, ExprsReadable, AllFields, AllWellFormed, ValidCodec, Checked;
    FieldsRoundTrip(c, op.sortingKeys, pool);
    OrdersRoundTrip(op.sortingOrders);
  }

  lemma {:induction false} RecoversTopN(c: Codec, op: Op, h: Head, d: Dyn, pool: bool, sources: seq<Plan>)
    requires ValidCodec(c) && op.TopN? && d == Object(h, TopNFields(c, op))
    requires AllFields(op.sortingKeys) && Checked(op, sources) == Some(op)
    ensures ReadTopN(c, d, pool, sources) == if ExprsReadable(c, op.sortingKeys, pool) then Some(op) else None
  {
    hide ReadList, WriteList, ExprsReadable, AllFields, AllWellFormed, ValidCodec, Checked;
    FieldsRoundTrip(c, op.sortingKeys, pool);
    OrdersRoundTrip(op.sortingOrders);
  }

  lemma {:induction false} RecoversLimit(op: Op, h: Head, d: Dyn, sources: seq<Plan>)
    requires op.Limit? && d == Object(h, LimitFields(op)) && Checked(op, sources) == Some(op)
    ensures ReadLimit(d, sources) == Some(op)
  {
    hide Checked;
  }

  lemma {:induction false} RecoversRowNumber(c: Codec, op: Op, h: Head, d: Dyn, pool: bool, input: Type)
    requires ValidCodec(c) && op.RowNumber? && d == Object(h, RowNumberFields(c, op, input))
    requires AllFields(op.partitionKeys) && input.RowOf? && ValidType(input)
        && (exists name :: op.outputType == OptionalRowNumber(input, name))
    ensures ReadRowNumber(c, d, pool, input) == if ExprsReadable(c, op.partitionKeys, pool) then Some(op) else None
  {
    hide ReadList, WriteList, ExprsReadable, AllFields, AllWellFormed, ValidCodec, RowNumberName, OptionalRowNumber;
    FieldsRoundTrip(c, op.partitionKeys, pool);
    RowNumberRecovered(op.outputType, input);
  }

  lemma {:induction false} RecoversTopNRowNumber(
    c: Codec, op: Op, h: Head, d: Dyn, pool: bool, sources: seq<Plan>, input: Type)
    requires ValidCodec(c) && op.TopNRowNumber? && d == Object(h, TopNRowNumberFields(c, op, input))
    requires AllFields(op.partitionKeys) && AllFields(op.sortingKeys) && input.RowOf? && ValidType(input)
        && (exists name :: op.outputType == OptionalRowNumber(input, name)) && Checked(op, sources) == Some(op)
    ensures ReadTopNRowNumber(c, d, pool, sources, input) ==
            if ExprsReadable(c, op.partitionKeys, pool)
               && ExprsReadable(c, op.sortingKeys, pool) then Some(op) else None
  {
    hide ReadList, WriteList, ExprsReadable, AllFields, AllWellFormed, ValidCodec, RowNumberName, OptionalRowNumber,
         Checked;
    FieldsRoundTrip(c, op.partitionKeys, pool);
    FieldsRoundTrip(c, op.sortingKeys, pool);
    OrdersRoundTrip(op.sortingOrders);
    RowNumberRecovered(op.outputType, input);
  }

  /** Whether a row number column was generated is recovered from the widths, its name
      from the last position. */
  lemma {:induction false} RowNumberRecovered(out: Type, input: Type)
    requires input.RowOf? && ValidType(input) && exists name :: out == OptionalRowNumber(input, name)
    ensures ReadOpt(RowNumberName(out, input), StrR()).Some?
    ensures OptionalRowNumber(input, ReadOpt(RowNumberName(out, input), StrR()).value) == out
  {
  }

  lemma {:induction false} RecoversMarkDistinct(c: Codec, op: Op, h: Head, d: Dyn, pool: bool, sources: seq<Plan>)
    requires ValidCodec(c) && op.MarkDistinct? && d == Object(h, MarkDistinctFields(c, op))
    requires AllFields(op.distinctKeys) && Checked(op, sources) == Some(op)
    ensures ReadMarkDistinct(c, d, pool, sources) == if ExprsReadable(c, op.distinctKeys, pool) then Some(op) else None
  {
    hide ReadList, WriteList, ExprsReadable, AllFields, AllWellFormed, ValidCodec, Checked;
    FieldsRoundTrip(c, op.distinctKeys, pool);
  }

  lemma {:induction false} RecoversAssignUniqueId(op: Op, h: Head, d: Dyn, input: Type)
    requires op.AssignUniqueId? && d == Object(h, AssignUniqueIdFields(op))
    requires exists name :: op.outputType == AppendColumns(input, [name], [BIGINT])
    ensures ReadAssignUniqueId(d, input) == Some(op)
  {
    var name :| op.outputType == AppendColumns(input, [name], [BIGINT]);
    assert Last(NamesOf(op.outputType)) == name;
  }

  lemma {:induction false} RecoversUnnest(c: Codec, op: Op, h: Head, d: Dyn, pool: bool)
    requires ValidCodec(c) && op.Unnest? && d == Object(h, UnnestFields(c, op))
    requires AllFields(op.replicateVariables) && AllFields(op.unnestVariables)
        && (exists names, ord :: MakeUnnest(op.replicateVariables, op.unnestVariables, names, ord) == Some(op))
    ensures ReadUnnest(c, d, pool) ==
            if ExprsReadable(c, op.replicateVariables, pool)
               && ExprsReadable(c, op.unnestVariables, pool) then Some(op) else None
  {
    hide ReadList, WriteList, ExprsReadable, AllFields, AllWellFormed, ValidCodec, MakeUnnest, NamesFrom;
    FieldsRoundTrip(c, op.replicateVariables, pool);
    FieldsRoundTrip(c, op.unnestVariables, pool);
    StringsRoundTrip(NamesFrom(NamesOf(op.outputType), |op.replicateVariables|, if op.withOrdinality then 1 else 0));
    UnnestRecovered(op);
  }

  /** The unnested names and the ordinality name are recovered by position. */
  lemma {:induction false} UnnestRecovered(op: Op)
    requires op.Unnest?
    requires exists names, ord :: MakeUnnest(op.replicateVariables, op.unnestVariables, names, ord) == Some(op)
    ensures MakeUnnest(op.replicateVariables, op.unnestVariables,
                       NamesFrom(NamesOf(op.outputType), |op.replicateVariables|, if op.withOrdinality then 1 else 0),
                       if op.withOrdinality then Some(Last(NamesOf(op.outputType))) else None) == Some(op)
  {
    hide UnnestedTypes, FieldNames, TypesOf;
    var names, ord :| MakeUnnest(op.replicateVariables, op.unnestVariables, names, ord) == Some(op);
    var k := |UnnestedTypes(op.unnestVariables).value|;
    var all := NamesOf(op.outputType);
    var tail := if ord.Some? then [ord.value] else [];
    assert all == FieldNames(op.replicateVariables) + names[..k] + tail;
    assert NamesFrom(all, |op.replicateVariables|, |tail|) == names[..k];
    assert ord.Some? ==> Last(all) == ord.value;
    assert names[..k][..k] == names[..k];
  }

  /** The names of the window columns follow those of the input. */
  lemma {:induction false} WindowRecovered(op: Op, input: Type, names: seq<string>)
    requires op.Window? && input.RowOf? && ValidType(input) && WindowBuilt(op, input, names)
    ensures WindowBuilt(op, input, NamesFrom(NamesOf(op.outputType), |ColumnsOf(input)|, 0))
  {
    assert NamesOf(op.outputType) == input.names + names;
    assert NamesFrom(NamesOf(op.outputType), |ColumnsOf(input)|, 0) == names;
  }

  lemma {:induction false} RecoversWindow(c: Codec, op: Op, h: Head, d: Dyn, pool: bool, input: Type)
    requires ValidCodec(c) && op.Window? && d == Object(h, WindowFields(c, op, input))
    requires AllFields(op.partitionKeys) && AllFields(op.sortingKeys) && FunctionsWellFormed(op.functions)
    requires input.RowOf? && ValidType(input) && exists names :: WindowBuilt(op, input, names)
    ensures ReadWindow(c, d, pool, input) ==
            if ExprsReadable(c, op.partitionKeys, pool)
               && ExprsReadable(c, op.sortingKeys, pool) && FunctionsReadable(c, op.functions) then Some(op) else None
  {
    hide ReadList, WriteList, ExprsReadable, AllFields, AllWellFormed, ValidCodec, MakeWindow, NamesFrom,
         FunctionsReadable, FunctionsWellFormed;
    var names :| WindowBuilt(op, input, names);
    WindowRecovered(op, input, names);
    FieldsRoundTrip(c, op.partitionKeys, pool);
    FieldsRoundTrip(c, op.sortingKeys, pool);
    OrdersRoundTrip(op.sortingOrders);
    FunctionsRoundTrip(c, op.functions);
    StringsRoundTrip(NamesFrom(NamesOf(op.outputType), |ColumnsOf(input)|, 0));
  }

  predicate FunctionsWellFormed(fs: seq<WindowFunction>) {
    forall f <- fs :: WellFormed(f.call) && f.call.Call? && OptWellFormed(f.frame.startValue)
        && OptWellFormed(f.frame.endValue)
  }

  lemma {:induction false} FunctionsRoundTrip(c: Codec, fs: seq<WindowFunction>)
    requires ValidCodec(c) && FunctionsWellFormed(fs)
    ensures ReadList(Some(WriteList(fs, FunctionW(c))), FunctionR(c)) ==
            if FunctionsReadable(c, fs) then Some(fs) else None
  {
    hide ReadFunction, WriteFunction, FunctionReadable, ReadList, WriteList, ValidCodec;
    var w, r := FunctionW(c), FunctionR(c);
    forall f <- fs ensures r(w(f)) == if FunctionReadable(c, f) then Some(f) else None { FunctionRoundTrip(c, f); }
    ListRoundTrip(fs, w, r);
  }

  predicate InfosWellFormed(infos: seq<GroupingKeyInfo>) {
    forall i <- infos :: WellFormed(i.input) && IsField(i.input)
  }

  lemma {:induction false} InfosRoundTrip(c: Codec, infos: seq<GroupingKeyInfo>)
    requires ValidCodec(c) && InfosWellFormed(infos)
    ensures ReadList(Some(WriteList(infos, InfoW(c))), InfoR(c)) ==
            if InfosReadable(c, infos) then Some(infos) else None
  {
    hide ES.Read, ES.Write, ES.Readable, ReadList, WriteList, ValidCodec;
    var w, r := InfoW(c), InfoR(c);
    forall i <- infos ensures r(w(i)) == if ES.Readable(c, i.input, false) then Some(i) else None {
      ES.ExprRoundTrip(c, i.input, false);
      assert Get(w(i), InputKey) == Some(ES.Write(c, i.input)) && GetStr(w(i), Output) == Some(i.output);
    }
    ListRoundTrip(infos, w, r);
  }

  predicate AggregatesWellFormed(aggs: seq<Aggregate>) {
    forall a <- aggs :: WellFormed(a.call) && a.call.Call? && OptField(a.mask) && AllFields(a.sortingKeys)
  }

  lemma {:induction false} AggregatesRoundTrip(c: Codec, aggs: seq<Aggregate>, pool: bool)
    requires ValidCodec(c) && AggregatesWellFormed(aggs)
    ensures ReadList(Some(WriteList(aggs, AggregateW(c))), AggregateR(c, pool)) ==
            if AggregatesReadable(c, aggs, pool) then Some(aggs) else None
  {
    hide ReadAggregate, WriteAggregate, AggregateReadable, ReadList, WriteList, ValidCodec;
    var w, r := AggregateW(c), AggregateR(c, pool);
    forall a <- aggs ensures r(w(a)) == if AggregateReadable(c, a, pool) then Some(a) else None {
      AggregateRoundTrip(c, a, pool);
    }
    ListRoundTrip(aggs, w, r);
  }

  predicate AggregationWellFormed(op: Op)
    requires op.Aggregation?
  {
    AllFields(op.groupingKeys) && AllFields(op.preGroupedKeys) && OptField(op.groupId)
        && AggregatesWellFormed(op.aggregates)
  }

  lemma {:induction false} AggregationGets(c: Codec, op: Op, h: Head, d: Dyn)
    requires op.Aggregation? && d == Object(h, AggregationFields(c, op))
    ensures Get(d, GroupingKeys) == Some(WriteList(op.groupingKeys, ExprW(c)))
    ensures Get(d, PreGroupedKeys) == Some(WriteList(op.preGroupedKeys, ExprW(c)))
    ensures Get(d, AggregateNames) == Some(WriteList(op.aggregateNames, StrW()))
    ensures Get(d, Aggregates) == Some(WriteList(op.aggregates, AggregateW(c)))
    ensures Get(d, GlobalGroupingSets) == Some(WriteList(op.globalGroupingSets, IntW()))
    ensures Get(d, Key.GroupId) == ExprOf(c, op.groupId)
    ensures GetStr(d, StepKey) == Some(StepName(op.step))
    ensures GetBool(d, IgnoreNullKeys) == Some(op.ignoreNullKeys)
  {
    hide WriteList, ExprOf, StepName;
  }

  lemma {:induction false} RecoversAggregation(c: Codec, op: Op, h: Head, d: Dyn, pool: bool, sources: seq<Plan>)
    requires ValidCodec(c) && op.Aggregation? && d == Object(h, AggregationFields(c, op))
    requires AggregationWellFormed(op) && Checked(op, sources) == Some(op)
    ensures ReadAggregation(c, d, pool, sources) ==
            if ExprsReadable(c, op.groupingKeys, pool)
               && ExprsReadable(c, op.preGroupedKeys, pool) && OptReadable(c, op.groupId, pool)
               && AggregatesReadable(c, op.aggregates, pool) then Some(op) else None
  {
    hide Object, AggregationFields, Get, GetStr, GetBool, ReadList, WriteList, ReadOpt, ExprOf, ExprsReadable,
         OptReadable, AggregatesReadable, AllFields, AggregatesWellFormed, StepName, StepFromName, Checked, ValidCodec;
    AggregationGets(c, op, h, d);
    FieldsRoundTrip(c, op.groupingKeys, pool);
    FieldsRoundTrip(c, op.preGroupedKeys, pool);
    StringsRoundTrip(op.aggregateNames);
    AggregatesRoundTrip(c, op.aggregates, pool);
    IntsRoundTrip(op.globalGroupingSets);
    OptRoundTrip(c, op.groupId, pool);
    NamesInvert(op.step, CurrentRow, Rows, Gather, Broadcast, NoCommit);
  }

  lemma {:induction false} TableWriteGets(op: Op, h: Head, d: Dyn, agg: Option<Dyn>)
    requires op.TableWrite? && d == Object(h, TableWriteFields(op, agg))
    ensures GetType(d, Columns) == Some(op.columns) && Get(d, ColumnNames) == Some(WriteList(op.columnNames, StrW()))
    ensures GetStr(d, ConnectorId) == Some(op.connectorId) && ReadHandle(d, InsertHandle) == Some(op.insertHandle)
    ensures GetBool(d, HasPartitioningScheme) == Some(op.hasPartitioningScheme)
    ensures GetType(d, OutputType) == Some(op.outputType)
    ensures GetStr(d, Key.CommitStrategy) == Some(CommitStrategyName(op.commitStrategy))
  {
    hide WriteList, CommitStrategyName;
  }

  lemma {:induction false} RecoversTableWrite(op: Op, h: Head, d: Dyn, sources: seq<Plan>, agg: Option<Dyn>)
    requires op.TableWrite? && d == Object(h, TableWriteFields(op, agg)) && Checked(op, sources) == Some(op)
    ensures ReadTableWrite(d, sources, op.aggregation) == Some(op)
  {
    hide Object, TableWriteFields, Get, GetStr, GetType, GetBool, ReadHandle, ReadList, WriteList, Checked,
         CommitStrategyName, CommitStrategyFromName;
    TableWriteGets(op, h, d, agg);
    StringsRoundTrip(op.columnNames);
    NamesInvert(SingleStep, CurrentRow, Rows, Gather, Broadcast, op.commitStrategy);
  }

  lemma {:induction false} RecoversTableWriteMerge(op: Op, h: Head, d: Dyn, agg: Option<Dyn>)
    requires op.TableWriteMerge? && d == Object(h, TableWriteMergeFields(op, agg))
    ensures ReadTableWriteMerge(d, op.aggregation) == Some(op)
  {
  }

  // ----- all node kinds together -----

  /** What the constructors guarantee of a node whose sources are known. */
  ghost predicate ValidNode(op: Op, sources: seq<Plan>) {
    && Constructed(op, sources) && WellFormedExprs(op)
    && SourceType(sources).RowOf? && ValidType(SourceType(sources))
  }

  /** The create function recovers the node, or raises an error if a pool is missing. */
  ghost predicate Recovers(c: Codec, op: Op, d: Dyn, pool: bool, sources: seq<Plan>) {
    ReadOp(c, ClassOf(op), d, pool, sources, AggregationOf(op)) == if ReadableOp(c, op, pool) then Some(op) else None
  }

  /** Every create function recovers its node. */
  lemma {:induction false} RecoversOp(
    c: Codec, op: Op, h: Head, d: Dyn, pool: bool, sources: seq<Plan>, agg: Option<Dyn>)
    requires ValidCodec(c) && ValidNode(op, sources)
    requires d == Object(h, Fields(c, op, SourceType(sources), agg))
    ensures Recovers(c, op, d, pool, sources)
  {
    hide ValidCodec, ValidNode, Object, Fields, SourceType, Recovers;
    match FamilyOf(op)
    case Producing => RecoversProducing(c, op, h, d, pool, sources, agg);
    case Receiving => RecoversReceiving(c, op, h, d, pool, sources, agg);
    case Writing => RecoversWriting(c, op, h, d, pool, sources, agg);
    case RowWise => RecoversRowWise(c, op, h, d, pool, sources, agg);
    case Multiplying => RecoversMultiplying(c, op, h, d, pool, sources, agg);
    case Reshaping => RecoversReshaping(c, op, h, d, pool, sources, agg);
    case Routing => RecoversRouting(c, op, h, d, pool, sources, agg);
    case Ordering => RecoversOrdering(c, op, h, d, pool, sources, agg);
    case Combining => RecoversCombining(c, op, h, d, pool, sources, agg);
    case Windowing => RecoversWindowing(c, op, h, d, pool, sources, agg);
    case Numbering => RecoversNumbering(c, op, h, d, pool, sources, agg);
  }

  /** Groups the node kinds, so that each group is handled in a lemma of its own. */
  datatype Family =
    | Producing | Receiving | Writing | RowWise | Multiplying | Reshaping | Routing | Ordering | Combining | Windowing
    | Numbering

  function FamilyOf(op: Op): Family {
    if op.Values? || op.TableScan? then Producing
    else if op.Exchange? || op.MergeExchange? then Receiving
    else if op.TableWrite? || op.TableWriteMerge? then Writing
    else if op.Filter? || op.Project? then RowWise
    else if op.Expand? || op.GroupId? then Multiplying
    else if op.Unnest? || op.EnforceSingleRow? || op.AssignUniqueId? then Reshaping
    else if op.LocalMerge? || op.LocalPartition? || op.PartitionedOutput? then Routing
    else if op.OrderBy? || op.TopN? || op.Limit? then Ordering
    else if op.Aggregation? || op.HashJoin? || op.MergeJoin? || op.NestedLoopJoin? then Combining
    else if op.Window? then Windowing
    else Numbering
  }

  lemma {:induction false} RecoversProducing(
    c: Codec, op: Op, h: Head, d: Dyn, pool: bool, sources: seq<Plan>, agg: Option<Dyn>)
    requires ValidCodec(c) && ValidNode(op, sources) && FamilyOf(op) == Producing
    requires d == Object(h, Fields(c, op, SourceType(sources), agg))
    ensures Recovers(c, op, d, pool, sources)
  {
    hide ValidCodec, Object, Check, SourceType, Plans.OutputType, AllFields, AllWellFormed, ExprsReadable,
         OptReadable, VectorsReadable, ES.Readable, MakeUnnest, MakeExpand, MakeWindow, OptionalRowNumber,
         AppendColumns, ReadValues, ReadTableScan, ValuesFields, TableScanFields;
    match op
    case Values(_, _, _) => RecoversValues(c, op, h, d, pool);
    case TableScan(_, _, _) => RecoversTableScan(op, h, d);
  }

  lemma {:induction false} RecoversReceiving(
    c: Codec, op: Op, h: Head, d: Dyn, pool: bool, sources: seq<Plan>, agg: Option<Dyn>)
    requires ValidCodec(c) && ValidNode(op, sources) && FamilyOf(op) == Receiving
    requires d == Object(h, Fields(c, op, SourceType(sources), agg))
    ensures Recovers(c, op, d, pool, sources)
  {
    hide ValidCodec, Object, Check, SourceType, Plans.OutputType, AllFields, AllWellFormed, ExprsReadable,
         OptReadable, VectorsReadable, ES.Readable, MakeUnnest, MakeExpand, MakeWindow, OptionalRowNumber,
         AppendColumns, ReadExchange, ReadMergeExchange, ExchangeFields, MergeExchangeFields;
    match op
    case Exchange(_) => RecoversExchange(op, h, d);
    case MergeExchange(_, _, _) => RecoversMergeExchange(c, op, h, d, pool);
  }

  lemma {:induction false} RecoversWriting(
    c: Codec, op: Op, h: Head, d: Dyn, pool: bool, sources: seq<Plan>, agg: Option<Dyn>)
    requires ValidCodec(c) && ValidNode(op, sources) && FamilyOf(op) == Writing
    requires d == Object(h, Fields(c, op, SourceType(sources), agg))
    ensures Recovers(c, op, d, pool, sources)
  {
    hide ValidCodec, Object, Check, SourceType, Plans.OutputType, AllFields, AllWellFormed, ExprsReadable,
         OptReadable, VectorsReadable, ES.Readable, MakeUnnest, MakeExpand, MakeWindow, OptionalRowNumber,
         AppendColumns, ReadTableWrite, ReadTableWriteMerge, TableWriteFields, TableWriteMergeFields;
    match op
    case TableWrite(_, _, _, _, _, _, _, _) => RecoversTableWrite(op, h, d, sources, agg);
    case TableWriteMerge(_, _) => RecoversTableWriteMerge(op, h, d, agg);
  }

  lemma {:induction false} RecoversRowWise(
    c: Codec, op: Op, h: Head, d: Dyn, pool: bool, sources: seq<Plan>, agg: Option<Dyn>)
    requires ValidCodec(c) && ValidNode(op, sources) && FamilyOf(op) == RowWise
    requires d == Object(h, Fields(c, op, SourceType(sources), agg))
    ensures Recovers(c, op, d, pool, sources)
  {
    hide ValidCodec, Object, Check, SourceType, Plans.OutputType, AllFields, AllWellFormed, ExprsReadable,
         OptReadable, VectorsReadable, ES.Readable, MakeUnnest, MakeExpand, MakeWindow, OptionalRowNumber,
         AppendColumns, ReadFilter, ReadProject, FilterFields, ProjectFields;
    match op
    case Filter(_) => RecoversFilter(c, op, h, d, pool, sources);
    case Project(_, _) => RecoversProject(c, op, h, d, pool, sources);
  }

  lemma {:induction false} RecoversMultiplying(
    c: Codec, op: Op, h: Head, d: Dyn, pool: bool, sources: seq<Plan>, agg: Option<Dyn>)
    requires ValidCodec(c) && ValidNode(op, sources) && FamilyOf(op) == Multiplying
    requires d == Object(h, Fields(c, op, SourceType(sources), agg))
    ensures Recovers(c, op, d, pool, sources)
  {
    hide ValidCodec, Object, Check, SourceType, Plans.OutputType, AllFields, AllWellFormed, ExprsReadable,
         OptReadable, VectorsReadable, ES.Readable, MakeUnnest, MakeExpand, MakeWindow, OptionalRowNumber,
         AppendColumns, MatrixReadable, InfosReadable, ReadExpand, ReadGroupId, ExpandFields, GroupIdFields;
    match op
    case Expand(_, _) =>
      ExpandRecovered(op);
      RecoversExpand(c, op, h, d, pool);
    case GroupId(_, _, _, _) => RecoversGroupId(c, op, h, d, pool, sources);
  }

  lemma {:induction false} RecoversReshaping(
    c: Codec, op: Op, h: Head, d: Dyn, pool: bool, sources: seq<Plan>, agg: Option<Dyn>)
    requires ValidCodec(c) && ValidNode(op, sources) && FamilyOf(op) == Reshaping
    requires d == Object(h, Fields(c, op, SourceType(sources), agg))
    ensures Recovers(c, op, d, pool, sources)
  {
    hide ValidCodec, Object, Check, SourceType, Plans.OutputType, AllFields, AllWellFormed, ExprsReadable,
         OptReadable, VectorsReadable, ES.Readable, MakeUnnest, MakeExpand, MakeWindow, OptionalRowNumber,
         AppendColumns, ReadUnnest, ReadAssignUniqueId, UnnestFields, AssignUniqueIdFields;
    match op
    case Unnest(_, _, _, _) => RecoversUnnest(c, op, h, d, pool);
    case EnforceSingleRow =>
    case AssignUniqueId(_, _) => RecoversAssignUniqueId(op, h, d, SourceType(sources));
  }

  lemma {:induction false} RecoversRouting(
    c: Codec, op: Op, h: Head, d: Dyn, pool: bool, sources: seq<Plan>, agg: Option<Dyn>)
    requires ValidCodec(c) && ValidNode(op, sources) && FamilyOf(op) == Routing
    requires d == Object(h, Fields(c, op, SourceType(sources), agg))
    ensures Recovers(c, op, d, pool, sources)
  {
    hide ValidCodec, Object, Check, SourceType, Plans.OutputType, AllFields, AllWellFormed, ExprsReadable,
         OptReadable, VectorsReadable, ES.Readable, MakeUnnest, MakeExpand, MakeWindow, OptionalRowNumber,
         AppendColumns, ReadLocalMerge, ReadLocalPartition, ReadPartitionedOutput, LocalMergeFields,
         LocalPartitionFields, PartitionedOutputFields;
    match op
    case LocalMerge(_, _) => RecoversLocalMerge(c, op, h, d, pool);
    case LocalPartition(_, _) => RecoversLocalPartition(op, h, d, sources);
    case PartitionedOutput(_, _, _, _, _, _) => RecoversPartitionedOutput(c, op, h, d, pool, sources);
  }

  lemma {:induction false} RecoversOrdering(
    c: Codec, op: Op, h: Head, d: Dyn, pool: bool, sources: seq<Plan>, agg: Option<Dyn>)
    requires ValidCodec(c) && ValidNode(op, sources) && FamilyOf(op) == Ordering
    requires d == Object(h, Fields(c, op, SourceType(sources), agg))
    ensures Recovers(c, op, d, pool, sources)
  {
    hide ValidCodec, Object, Check, SourceType, Plans.OutputType, AllFields, AllWellFormed, ExprsReadable,
         OptReadable, VectorsReadable, ES.Readable, MakeUnnest, MakeExpand, MakeWindow, OptionalRowNumber,
         AppendColumns, ReadOrderBy, ReadTopN, ReadLimit, OrderByFields, TopNFields, LimitFields;
    match op
    case OrderBy(_, _, _) => RecoversOrderBy(c, op, h, d, pool, sources);
    case TopN(_, _, _, _) => RecoversTopN(c, op, h, d, pool, sources);
    case Limit(_, _, _) => RecoversLimit(op, h, d, sources);
  }

  lemma {:induction false} RecoversCombining(
    c: Codec, op: Op, h: Head, d: Dyn, pool: bool, sources: seq<Plan>, agg: Option<Dyn>)
    requires ValidCodec(c) && ValidNode(op, sources) && FamilyOf(op) == Combining
    requires d == Object(h, Fields(c, op, SourceType(sources), agg))
    ensures Recovers(c, op, d, pool, sources)
  {
    hide ValidCodec, Object, Check, SourceType, Plans.OutputType, AllFields, AllWellFormed, ExprsReadable,
         OptReadable, VectorsReadable, ES.Readable, MakeUnnest, MakeExpand, MakeWindow, OptionalRowNumber,
         AppendColumns, AggregatesReadable, ReadAggregation, ReadHashJoin, ReadMergeJoin, ReadNestedLoopJoin,
         AggregationFields, HashJoinFields, MergeJoinFields, NestedLoopJoinFields;
    match op
    case Aggregation(_, _, _, _, _, _, _, _) => RecoversAggregation(c, op, h, d, pool, sources);
    case HashJoin(_, _, _, _, _, _) => RecoversHashJoin(c, op, h, d, pool, sources);
    case MergeJoin(_, _, _, _, _) => RecoversMergeJoin(c, op, h, d, pool, sources);
    case NestedLoopJoin(_, _, _) => RecoversNestedLoopJoin(c, op, h, d, pool, sources);
  }

  lemma {:induction false} RecoversWindowing(
    c: Codec, op: Op, h: Head, d: Dyn, pool: bool, sources: seq<Plan>, agg: Option<Dyn>)
    requires ValidCodec(c) && ValidNode(op, sources) && FamilyOf(op) == Windowing
    requires d == Object(h, Fields(c, op, SourceType(sources), agg))
    ensures Recovers(c, op, d, pool, sources)
  {
    hide ValidCodec, Object, Check, SourceType, Plans.OutputType, AllFields, AllWellFormed, ExprsReadable,
         OptReadable, VectorsReadable, ES.Readable, MakeUnnest, MakeExpand, MakeWindow, OptionalRowNumber,
         AppendColumns, FunctionsReadable, ReadWindow, WindowFields;
    var input := SourceType(sources);
    RecoversWindow(c, op, h, d, pool, input);
  }

  lemma {:induction false} RecoversNumbering(
    c: Codec, op: Op, h: Head, d: Dyn, pool: bool, sources: seq<Plan>, agg: Option<Dyn>)
    requires ValidCodec(c) && ValidNode(op, sources) && FamilyOf(op) == Numbering
    requires d == Object(h, Fields(c, op, SourceType(sources), agg))
    ensures Recovers(c, op, d, pool, sources)
  {
    hide ValidCodec, Object, Check, SourceType, Plans.OutputType, AllFields, AllWellFormed, ExprsReadable,
         OptReadable, VectorsReadable, ES.Readable, MakeUnnest, MakeExpand, MakeWindow, OptionalRowNumber,
         AppendColumns, ReadRowNumber, ReadTopNRowNumber, ReadMarkDistinct, RowNumberFields, TopNRowNumberFields,
         MarkDistinctFields;
    var input := SourceType(sources);
    match op
    case RowNumber(_, _, _) => RecoversRowNumber(c, op, h, d, pool, input);
    case TopNRowNumber(_, _, _, _, _) => RecoversTopNRowNumber(c, op, h, d, pool, sources, input);
    case MarkDistinct(_, _) => RecoversMarkDistinct(c, op, h, d, pool, sources);
  }

  lemma {:induction false} ExpandRecovered(op: Op)
    requires op.Expand? && exists names :: MakeExpand(op.matrix, names) == Some(op)
    ensures MakeExpand(op.matrix, NamesOf(op.outputType)) == Some(op)
  {
  }

  // ----- whole plans -----

  /** The ids of the nodes constructed when p is read back, with multiplicity: an
      aggregation constructs everything below it twice. */
  function Cost(p: Plan): multiset<string> {
    var below := Sum(seq(|p.sources|, i requires 0 <= i < |p.sources| => Cost(p.sources[i])));
    var agg := if AggregationOf(p.op).None? then multiset{} else Cost(AggregationOf(p.op).value);
    multiset{p.id} + (if p.op.Aggregation? then below + below else below) + agg
  }

  predicate DropsPool(op: Op) {
    op.TableWrite? || op.TableWriteMerge?
  }

  /** Result of reading a plan back: the plan itself and the cost of doing so, or an error. */
  ghost predicate ReadsBack(c: Codec, d: Dyn, p: Plan, pool: bool) {
    Read(c, d, pool) == if Readable(c, p, pool) then Some(Built(p, Cost(p))) else None
  }

  /** The plan round trip, with its exact condition. */
  lemma {:induction false} PlanRoundTrips(c: Codec, p: Plan, pool: bool)
    requires ValidCodec(c) && Valid(p)
    ensures ReadsBack(c, Write(c, p), p, pool)
    decreases p
  {
    hide ValidCodec, ReadsBack, ValidNode;
    var op, below := p.op, pool && !DropsPool(p.op);
    var ds := seq(|p.sources|, i requires 0 <= i < |p.sources| => Write(c, p.sources[i]));
    var agg := if AggregationOf(op).None? then None else Some(Write(c, AggregationOf(op).value));
    forall i | 0 <= i < |ds| ensures ReadsBack(c, ds[i], p.sources[i], below) {
      PlanRoundTrips(c, p.sources[i], below);
    }
    if AggregationOf(op).Some? {
      PlanRoundTrips(c, AggregationOf(op).value, false);
    }
    ValidNodes(p);
    NodeRoundTrips(c, p, ds, agg, pool);
  }

  lemma {:induction false} ValidNodes(p: Plan)
    requires Valid(p)
    ensures ValidNode(p.op, p.sources) && Fits(ArityOf(p.op), |p.sources|)
  {
    hide Constructed, WellFormedExprs, Plans.OutputType;
    if p.sources != [] {
      assert p.sources[0] in p.sources;
    }
  }

  lemma {:induction false} NodeRoundTrips(c: Codec, p: Plan, ds: seq<Dyn>, agg: Option<Dyn>, pool: bool)
    requires ValidCodec(c) && ValidNode(p.op, p.sources) && Fits(ArityOf(p.op), |p.sources|)
    requires |ds| == |p.sources|
    requires forall i | 0 <= i < |ds| :: ReadsBack(c, ds[i], p.sources[i], pool && !DropsPool(p.op))
    requires agg.Some? == AggregationOf(p.op).Some?
    requires agg.Some? ==> ReadsBack(c, agg.value, AggregationOf(p.op).value, false)
    requires agg.Some? ==> AggregationOf(p.op).value.op.Aggregation?
    ensures ReadsBack(c, Object(Head(ClassOf(p.op), p.id, WrittenSources(p.op, ds)),
                                Fields(c, p.op, SourceType(p.sources), agg)), p, pool)
  {
    hide ValidCodec, ValidNode, Fields, Object, ClassOf, SourceType, ReadsBack, Recovers, ReadSources,
         ReadAggregationNode, WrittenSources;
    var h := Head(ClassOf(p.op), p.id, WrittenSources(p.op, ds));
    var d := Object(h, Fields(c, p.op, SourceType(p.sources), agg));
    RecoversOp(c, p.op, h, d, pool, p.sources, agg);
    HeadGets(h, Fields(c, p.op, SourceType(p.sources), agg));
    ReadsSources(c, p, d, ds, pool);
    ReadsAggregation(c, p, h, d, agg);
    ReadsWhole(c, p, d, pool);
  }

  lemma {:induction false} HeadGets(h: Head, m: map<Key, Dyn>)
    ensures GetClass(Object(h, m), Name) == Some(h.cls) && GetStr(Object(h, m), Id) == Some(h.id)
    ensures Sources !in m ==> Get(Object(h, m), Sources) == h.sources
  {
  }

  function SourceCosts(p: Plan): (ms: seq<multiset<string>>)
    ensures |ms| == |p.sources| && forall i | 0 <= i < |ms| :: ms[i] == Cost(p.sources[i])
  {
    seq(|p.sources|, i requires 0 <= i < |p.sources| => Cost(p.sources[i]))
  }

  function BelowCost(p: Plan): multiset<string> {
    Sum(SourceCosts(p))
  }

  predicate SourcesReadable(c: Codec, p: Plan, pool: bool) {
    forall i | 0 <= i < |p.sources| :: Readable(c, p.sources[i], pool && !DropsPool(p.op))
  }

  lemma {:induction false} ReadsSources(c: Codec, p: Plan, d: Dyn, ds: seq<Dyn>, pool: bool)
    requires Fits(ArityOf(p.op), |p.sources|) && |ds| == |p.sources|
    requires Get(d, Sources) == WrittenSources(p.op, ds)
    requires forall i | 0 <= i < |ds| :: ReadsBack(c, ds[i], p.sources[i], pool && !DropsPool(p.op))
    ensures ReadSources(c, ClassOf(p.op), d, pool) ==
            if SourcesReadable(c, p, pool)
            then Some(BuiltSources(p.sources, if p.op.Aggregation? then BelowCost(p) + BelowCost(p) else BelowCost(p)))
            else None
  {
    hide Read, Readable, Cost;
    if DropsPool(p.op) {
      assert ReadsBack(c, ds[0], p.sources[0], false);
      var costs := seq(|p.sources|, i requires 0 <= i < |p.sources| => Cost(p.sources[i]));
      assert costs == [Cost(p.sources[0])];
      assert Sum(costs) == Sum([]) + Cost(p.sources[0]);
      assert p.sources == [p.sources[0]] && BelowCost(p) == Cost(p.sources[0]);
      assert SourcesReadable(c, p, pool) <==> Readable(c, p.sources[0], false);
    } else {
      ReadsSourceList(c, p, d, ds, pool);
    }
  }

  lemma {:induction false} ReadsSourceList(c: Codec, p: Plan, d: Dyn, ds: seq<Dyn>, pool: bool)
    requires |ds| == |p.sources| && !DropsPool(p.op) && Get(d, Sources) == WrittenSources(p.op, ds)
    requires forall i | 0 <= i < |ds| :: ReadsBack(c, ds[i], p.sources[i], pool)
    ensures ReadSourceList(c, d, pool) ==
            if SourcesReadable(c, p, pool) then Some(BuiltSources(p.sources, BelowCost(p))) else None
  {
    hide Read, Readable, Cost;
    if ds == [] {
      assert p.sources == [];
    } else {
      var rs := seq(|ds|, i requires 0 <= i < |ds| => Read(c, ds[i], pool));
      var bs := seq(|ds|, i requires 0 <= i < |ds| => Built(p.sources[i], Cost(p.sources[i])));
      forall i | 0 <= i < |rs| ensures rs[i] == if Readable(c, p.sources[i], pool) then Some(bs[i]) else None {
        assert ReadsBack(c, ds[i], p.sources[i], pool);
      }
      AllOfExactly(rs, bs);
      assert GetArr(d, Sources) == Some(ds);
      assert Gathered(bs).plans == p.sources;
      assert seq(|bs|, i requires 0 <= i < |bs| => bs[i].ids) ==
             seq(|p.sources|, i requires 0 <= i < |p.sources| => Cost(p.sources[i]));
    }
  }

  lemma {:induction false} ReadsAggregation(c: Codec, p: Plan, h: Head, d: Dyn, agg: Option<Dyn>)
    requires d == Object(h, Fields(c, p.op, SourceType(p.sources), agg))
    requires agg.Some? == AggregationOf(p.op).Some?
    requires agg.Some? ==> ReadsBack(c, agg.value, AggregationOf(p.op).value, false)
    requires agg.Some? ==> AggregationOf(p.op).value.op.Aggregation?
    ensures ReadAggregationNode(c, ClassOf(p.op), d) ==
            var a := AggregationOf(p.op);
            if a.None? then Some((None, multiset{}))
            else if Readable(c, a.value, false) then Some((a, Cost(a.value))) else None
  {
    hide Read, Readable, Cost, SourceType, WriteList;
    if DropsPool(p.op) {
      assert Get(d, AggregationNodeKey) == agg;
    }
  }

  lemma {:induction false} ReadsWhole(c: Codec, p: Plan, d: Dyn, pool: bool)
    requires GetClass(d, Name) == Some(ClassOf(p.op)) && GetStr(d, Id) == Some(p.id)
    requires Recovers(c, p.op, d, pool, p.sources)
    requires ReadSources(c, ClassOf(p.op), d, pool) ==
             if SourcesReadable(c, p, pool)
             then Some(BuiltSources(p.sources, if p.op.Aggregation? then BelowCost(p) + BelowCost(p) else BelowCost(p)))
             else None
    requires ReadAggregationNode(c, ClassOf(p.op), d) ==
             var a := AggregationOf(p.op);
             if a.None? then Some((None, multiset{}))
             else if Readable(c, a.value, false) then Some((a, Cost(a.value))) else None
    ensures ReadsBack(c, d, p, pool)
  {
    hide ReadOp, ReadSources, ReadAggregationNode, ReadableOp, ClassOf, Readable, Cost, SourcesReadable, BelowCost,
         GetClass, GetStr;
    ReadableParts(c, p, pool);
    CostParts(p);
  }

  lemma {:induction false} ReadableParts(c: Codec, p: Plan, pool: bool)
    ensures Readable(c, p, pool) <==>
            && ReadableOp(c, p.op, pool) && SourcesReadable(c, p, pool)
            && (AggregationOf(p.op).Some? ==> Readable(c, AggregationOf(p.op).value, false))
  {
    hide ReadableOp;
    if SourcesReadable(c, p, pool) {
      forall s <- p.sources ensures Readable(c, s, pool && !DropsPool(p.op)) {
        var i :| 0 <= i < |p.sources| && p.sources[i] == s;
      }
    }
    if Readable(c, p, pool) {
      forall i | 0 <= i < |p.sources| ensures Readable(c, p.sources[i], pool && !DropsPool(p.op)) {
        assert p.sources[i] in p.sources;
      }
    }
  }

  lemma {:induction false} CostParts(p: Plan)
    ensures Cost(p) == multiset{p.id}
                       + (if p.op.Aggregation? then BelowCost(p) + BelowCost(p) else BelowCost(p))
                       + (if AggregationOf(p.op).None? then multiset{} else Cost(AggregationOf(p.op).value))
  {
  }
}
