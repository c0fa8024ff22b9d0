/** Writing whole plans to objects and reading them back (velox/core/PlanNode.cpp). */
module PlanSerde {
  import opened Types
  import opened TypedExprs
  import opened Dynamic
  import ES = ExprSerde
  import opened Plans
  import opened PlanNames
  import opened PlanParts

  function ClassOf(op: Op): Class {
    match op
    case Values(_, _, _) => ValuesNode
    case Filter(_) => FilterNode
    case Project(_, _) => ProjectNode
    case TableScan(_, _, _) => TableScanNode
    case Aggregation(_, _, _, _, _, _, _, _) => AggregationNode
    case TableWrite(_, _, _, _, _, _, _, _) => TableWriteNode
    case TableWriteMerge(_, _) => TableWriteMergeNode
    case Expand(_, _) => ExpandNode
    case GroupId(_, _, _, _) => GroupIdNode
    case Exchange(_) => ExchangeNode
    case MergeExchange(_, _, _) => MergeExchangeNode
    case LocalMerge(_, _) => LocalMergeNode
    case LocalPartition(_, _) => LocalPartitionNode
    case PartitionedOutput(_, _, _, _, _, _) => PartitionedOutputNode
    case HashJoin(_, _, _, _, _, _) => HashJoinNode
    case MergeJoin(_, _, _, _, _) => MergeJoinNode
    case NestedLoopJoin(_, _, _) => NestedLoopJoinNode
    case OrderBy(_, _, _) => OrderByNode
    case TopN(_, _, _, _) => TopNNode
    case Limit(_, _, _) => LimitNode
    case Unnest(_, _, _, _) => UnnestNode
    case EnforceSingleRow => EnforceSingleRowNode
    case AssignUniqueId(_, _) => AssignUniqueIdNode
    case Window(_, _, _, _, _, _) => WindowNode
    case RowNumber(_, _, _) => RowNumberNode
    case TopNRowNumber(_, _, _, _, _) => TopNRowNumberNode
    case MarkDistinct(_, _) => MarkDistinctNode
  }

  function Last(ns: seq<string>): string {
    if ns == [] then "" else ns[|ns| - 1]
  }

  /** The names from position n on, except the last `drop` of them. */
  function NamesFrom(ns: seq<string>, n: nat, drop: nat): seq<string> {
    if n + drop <= |ns| then ns[n..|ns| - drop] else []
  }

  /** generateRowNumber: decided by comparing the widths of output and input. */
  function RowNumberName(out: Type, input: Type): Option<Dyn> {
    if |ColumnsOf(out)| > |ColumnsOf(input)| then Some(DStr(Last(NamesOf(out)))) else None
  }

  // The fields serialize() adds to name, id and sources. Names that the node does not keep
  // are taken from its output type by position.

  function ValuesFields(c: Codec, op: Op): (fields: map<Key, Dyn>)
    requires op.Values?
    ensures Sources !in fields
  {
    var Values(vs, par, rep) := op;
    map[Data := DBlob(SaveAll(c, vs)), Parallelizable := DBool(par), RepeatTimes := DInt(rep)]
  }

  function FilterFields(c: Codec, op: Op): (fields: map<Key, Dyn>)
    requires op.Filter?
    ensures Sources !in fields
  {
    var Filter(f) := op;
    map[FilterKey := ES.Write(c, f)]
  }

  function ProjectFields(c: Codec, op: Op): (fields: map<Key, Dyn>)
    requires op.Project?
    ensures Sources !in fields
  {
    var Project(ns, es) := op;
    map[Names := WriteList(ns, StrW()), Projections := WriteList(es, ExprW(c))]
  }

  function TableScanFields(op: Op): (fields: map<Key, Dyn>)
    requires op.TableScan?
    ensures Sources !in fields
  {
    var TableScan(out, h, pairs) := op;
    map[OutputType := DType(out), TableHandle := DHandle(h), Assignments := WriteList(pairs, PairW())]
  }

  function AggregationFields(c: Codec, op: Op): (fields: map<Key, Dyn>)
    requires op.Aggregation?
    ensures Sources !in fields
  {
    var Aggregation(step, ks, ps, ns, aggs, sets, g, ign) := op;
    var m := map[StepKey := DStr(StepName(step)),
                 GroupingKeys := WriteList(ks, ExprW(c)),
                 PreGroupedKeys := WriteList(ps, ExprW(c)),
                 AggregateNames := WriteList(ns, StrW()),
                 Aggregates := WriteList(aggs, AggregateW(c)),
                 GlobalGroupingSets := WriteList(sets, IntW()),
                 IgnoreNullKeys := DBool(ign)];
    PutOpt(m, Key.GroupId, ExprOf(c, g))
  }

  function TableWriteFields(op: Op, agg: Option<Dyn>): (fields: map<Key, Dyn>)
    requires op.TableWrite?
    ensures Sources !in fields
  {
    var TableWrite(cols, ns, _, cid, h, part, out, commit) := op;
    var m := map[Columns := DType(cols),
                 ColumnNames := WriteList(ns, StrW()),
                 ConnectorId := DStr(cid),
                 InsertHandle := DHandle(h),
                 HasPartitioningScheme := DBool(part),
                 OutputType := DType(out),
                 Key.CommitStrategy := DStr(CommitStrategyName(commit))];
    PutOpt(m, AggregationNodeKey, agg)
  }

  function TableWriteMergeFields(op: Op, agg: Option<Dyn>): (fields: map<Key, Dyn>)
    requires op.TableWriteMerge?
    ensures Sources !in fields
  {
    var TableWriteMerge(out, _) := op;
    var m := map[OutputType := DType(out)];
    PutOpt(m, AggregationNodeKey, agg)
  }

  function ExpandFields(c: Codec, op: Op): (fields: map<Key, Dyn>)
    requires op.Expand?
    ensures Sources !in fields
  {
    var Expand(out, matrix) := op;
    map[Projections := WriteList(matrix, RowW(c)), Names := WriteList(NamesOf(out), StrW())]
  }

  function GroupIdFields(c: Codec, op: Op): (fields: map<Key, Dyn>)
    requires op.GroupId?
    ensures Sources !in fields
  {
    var GroupId(sets, infos, inputs, name) := op;
    map[GroupingSets := WriteList(sets, StrsW()),
        AggregationInputs := WriteList(inputs, ExprW(c)),
        GroupIdName := DStr(name),
        GroupingKeyInfos := WriteList(infos, InfoW(c))]
  }

  function ExchangeFields(op: Op): (fields: map<Key, Dyn>)
    requires op.Exchange?
    ensures Sources !in fields
  {
    var Exchange(out) := op;
    map[OutputType := DType(out)]
  }

  function MergeExchangeFields(c: Codec, op: Op): (fields: map<Key, Dyn>)
    requires op.MergeExchange?
    ensures Sources !in fields
  {
    var MergeExchange(out, ks, os) := op;
    map[OutputType := DType(out), SortingKeys := WriteList(ks, ExprW(c)), SortingOrders := WriteList(os, OrderW())]
  }

  function LocalMergeFields(c: Codec, op: Op): (fields: map<Key, Dyn>)
    requires op.LocalMerge?
    ensures Sources !in fields
  {
    var LocalMerge(ks, os) := op;
    map[SortingKeys := WriteList(ks, ExprW(c)), SortingOrders := WriteList(os, OrderW())]
  }

  function LocalPartitionFields(op: Op): (fields: map<Key, Dyn>)
    requires op.LocalPartition?
    ensures Sources !in fields
  {
    var LocalPartition(t, spec) := op;
    map[Typ := DStr(LocalPartitionTypeName(t)), PartitionFunctionSpec := DHandle(spec)]
  }

  function PartitionedOutputFields(c: Codec, op: Op): (fields: map<Key, Dyn>)
    requires op.PartitionedOutput?
    ensures Sources !in fields
  {
    var PartitionedOutput(k, ks, n, rep, spec, out) := op;
    map[Kind := DStr(OutputKindName(k)),
        NumPartitions := DInt(n),
        Keys := WriteList(ks, ExprW(c)),
        ReplicateNullsAndAny := DBool(rep),
        PartitionFunctionSpec := DHandle(spec),
        OutputType := DType(out)]
  }

  function HashJoinFields(c: Codec, op: Op): (fields: map<Key, Dyn>)
    requires op.HashJoin?
    ensures Sources !in fields
  {
    var HashJoin(j, na, ls, rs, f, out) := op;
    JoinFields(c, j, ls, rs, f, out)[NullAware := DBool(na)]
  }

  function MergeJoinFields(c: Codec, op: Op): (fields: map<Key, Dyn>)
    requires op.MergeJoin?
    ensures Sources !in fields
  {
    var MergeJoin(j, ls, rs, f, out) := op;
    JoinFields(c, j, ls, rs, f, out)
  }

  function NestedLoopJoinFields(c: Codec, op: Op): (fields: map<Key, Dyn>)
    requires op.NestedLoopJoin?
    ensures Sources !in fields
  {
    var NestedLoopJoin(j, f, out) := op;
    var m := map[JoinTypeKey := DStr(JoinTypeName(j)), OutputType := DType(out)];
    PutOpt(m, JoinCondition, ExprOf(c, f))
  }

  function OrderByFields(c: Codec, op: Op): (fields: map<Key, Dyn>)
    requires op.OrderBy?
    ensures Sources !in fields
  {
    var OrderBy(ks, os, part) := op;
    map[SortingKeys := WriteList(ks, ExprW(c)), SortingOrders := WriteList(os, OrderW()), Partial := DBool(part)]
  }

  function TopNFields(c: Codec, op: Op): (fields: map<Key, Dyn>)
    requires op.TopN?
    ensures Sources !in fields
  {
    var TopN(ks, os, n, part) := op;
    map[SortingKeys := WriteList(ks, ExprW(c)), SortingOrders := WriteList(os, OrderW()),
        Count := DInt(n), Partial := DBool(part)]
  }

  function LimitFields(op: Op): (fields: map<Key, Dyn>)
    requires op.Limit?
    ensures Sources !in fields
  {
    var Limit(o, n, part) := op;
    map[Partial := DBool(part), Count := DInt(n), Offset := DInt(o)]
  }

  function UnnestFields(c: Codec, op: Op): (fields: map<Key, Dyn>)
    requires op.Unnest?
    ensures Sources !in fields
  {
    var Unnest(rs, us, ord, out) := op;
    var m := map[ReplicateVariables := WriteList(rs, ExprW(c)),
                 UnnestVariables := WriteList(us, ExprW(c)),
                 UnnestNames := WriteList(NamesFrom(NamesOf(out), |rs|, if ord then 1 else 0), StrW())];
    PutOpt(m, OrdinalityName, if ord then Some(DStr(Last(NamesOf(out)))) else None)
  }

  function AssignUniqueIdFields(op: Op): (fields: map<Key, Dyn>)
    requires op.AssignUniqueId?
    ensures Sources !in fields
  {
    var AssignUniqueId(task, out) := op;
    map[IdName := DStr(Last(NamesOf(out))), TaskUniqueId := DInt(task)]
  }

  function WindowFields(c: Codec, op: Op, input: Type): (fields: map<Key, Dyn>)
    requires op.Window?
    ensures Sources !in fields
  {
    var Window(ps, ks, os, fs, sorted, out) := op;
    map[PartitionKeys := WriteList(ps, ExprW(c)),
        SortingKeys := WriteList(ks, ExprW(c)),
        SortingOrders := WriteList(os, OrderW()),
        FunctionsKey := WriteList(fs, FunctionW(c)),
        Names := WriteList(NamesFrom(NamesOf(out), |ColumnsOf(input)|, 0), StrW()),
        InputsSorted := DBool(sorted)]
  }

  function RowNumberFields(c: Codec, op: Op, input: Type): (fields: map<Key, Dyn>)
    requires op.RowNumber?
    ensures Sources !in fields
  {
    var RowNumber(ps, limit, out) := op;
    var m := map[PartitionKeys := WriteList(ps, ExprW(c))];
    var max := if limit.Some? then Some(DInt(limit.value)) else None;
    PutOpt(PutOpt(m, RowNumberColumnName, RowNumberName(out, input)), Key.Limit, max)
  }

  function TopNRowNumberFields(c: Codec, op: Op, input: Type): (fields: map<Key, Dyn>)
    requires op.TopNRowNumber?
    ensures Sources !in fields
  {
    var TopNRowNumber(ps, ks, os, limit, out) := op;
    var m := map[PartitionKeys := WriteList(ps, ExprW(c)),
                 SortingKeys := WriteList(ks, ExprW(c)),
                 SortingOrders := WriteList(os, OrderW()),
                 Key.Limit := DInt(limit)];
    PutOpt(m, RowNumberColumnName, RowNumberName(out, input))
  }

  function MarkDistinctFields(c: Codec, op: Op): (fields: map<Key, Dyn>)
    requires op.MarkDistinct?
    ensures Sources !in fields
  {
    var MarkDistinct(name, ks) := op;
    map[DistinctKeys := WriteList(ks, ExprW(c)), MarkerName := DStr(name)]
  }

  function Fields(c: Codec, op: Op, input: Type, agg: Option<Dyn>): (fields: map<Key, Dyn>)
    ensures Sources !in fields
  {
    match op
    case Values(_, _, _) => ValuesFields(c, op)
    case Filter(_) => FilterFields(c, op)
    case Project(_, _) => ProjectFields(c, op)
    case TableScan(_, _, _) => TableScanFields(op)
    case Aggregation(_, _, _, _, _, _, _, _) => AggregationFields(c, op)
    case TableWrite(_, _, _, _, _, _, _, _) => TableWriteFields(op, agg)
    case TableWriteMerge(_, _) => TableWriteMergeFields(op, agg)
    case Expand(_, _) => ExpandFields(c, op)
    case GroupId(_, _, _, _) => GroupIdFields(c, op)
    case Exchange(_) => ExchangeFields(op)
    case MergeExchange(_, _, _) => MergeExchangeFields(c, op)
    case LocalMerge(_, _) => LocalMergeFields(c, op)
    case LocalPartition(_, _) => LocalPartitionFields(op)
    case PartitionedOutput(_, _, _, _, _, _) => PartitionedOutputFields(c, op)
    case HashJoin(_, _, _, _, _, _) => HashJoinFields(c, op)
    case MergeJoin(_, _, _, _, _) => MergeJoinFields(c, op)
    case NestedLoopJoin(_, _, _) => NestedLoopJoinFields(c, op)
    case OrderBy(_, _, _) => OrderByFields(c, op)
    case TopN(_, _, _, _) => TopNFields(c, op)
    case Limit(_, _, _) => LimitFields(op)
    case Unnest(_, _, _, _) => UnnestFields(c, op)
    case EnforceSingleRow => map[]
    case AssignUniqueId(_, _) => AssignUniqueIdFields(op)
    case Window(_, _, _, _, _, _) => WindowFields(c, op, input)
    case RowNumber(_, _, _) => RowNumberFields(c, op, input)
    case TopNRowNumber(_, _, _, _, _) => TopNRowNumberFields(c, op, input)
    case MarkDistinct(_, _) => MarkDistinctFields(c, op)
  }

  function JoinFields(
    c: Codec, j: JoinType, ls: seq<Expr>, rs: seq<Expr>, f: Option<Expr>, out: Type): (fields: map<Key, Dyn>)
    ensures Sources !in fields
  {
    var m := map[JoinTypeKey := DStr(JoinTypeName(j)),
                 LeftKeys := WriteList(ls, ExprW(c)),
                 RightKeys := WriteList(rs, ExprW(c)),
                 OutputType := DType(out)];
    PutOpt(m, FilterKey, ExprOf(c, f))
  }

  function AggregationOf(op: Op): Option<Plan> {
    if op.TableWrite? || op.TableWriteMerge? then op.aggregation else None
  }

  /** What every node writes first. */
  datatype Head = Head(cls: Class, id: string, sources: Option<Dyn>)

  function Object(h: Head, m: map<Key, Dyn>): Dyn {
    DObj(PutOpt(m[Name := DClass(h.cls)][Id := DStr(h.id)], Sources, h.sources))
  }

  /** serialize(). A table write replaces the list of sources by its only source. */
  function Write(c: Codec, p: Plan): Dyn {
    var ds := seq(|p.sources|, i requires 0 <= i < |p.sources| => Write(c, p.sources[i]));
    var agg := if AggregationOf(p.op).None? then None else Some(Write(c, AggregationOf(p.op).value));
    Object(Head(ClassOf(p.op), p.id, WrittenSources(p.op, ds)), Fields(c, p.op, SourceType(p.sources), agg))
  }

  function WrittenSources(op: Op, ds: seq<Dyn>): Option<Dyn> {
    if ds == [] then None
    else if op.TableWrite? || op.TableWriteMerge? then Some(ds[0])
    else Some(DArr(ds))
  }

  /** serialize() as it pushes the sources in a loop and fills the object. */
  method Serialize(c: Codec, p: Plan) returns (d: Dyn)
    ensures d == Write(c, p)
    decreases p
  {
    hide Fields, Object, WrittenSources, SourceType, ClassOf;
    var ds, i := [], 0;
    while i < |p.sources|
      invariant i <= |p.sources| && |ds| == i
      invariant forall j | 0 <= j < i :: ds[j] == Write(c, p.sources[j])
    {
      var source := Serialize(c, p.sources[i]);
      ds, i := ds + [source], i + 1;
    }
    assert ds == seq(|p.sources|, j requires 0 <= j < |p.sources| => Write(c, p.sources[j]));
    var agg: Option<Dyn> := None;
    if AggregationOf(p.op).Some? {
      var a := Serialize(c, AggregationOf(p.op).value);
      agg := Some(a);
    }
    d := Object(Head(ClassOf(p.op), p.id, WrittenSources(p.op, ds)), Fields(c, p.op, SourceType(p.sources), agg));
  }

  // ----- reading -----

  function Checked(op: Op, sources: seq<Plan>): Option<Op> {
    if Check(op, sources) then Some(op) else None
  }

  function ReadHandle(d: Dyn, k: Key): Option<nat> {
    var h :- Get(d, k);
    if h.DHandle? then Some(h.h) else None
  }

  // The create functions: they read their fields and call the constructor, which runs its
  // checks again and rebuilds the output type.

  function ReadValues(c: Codec, d: Dyn, pool: bool): Option<Op> {
    var blob :- Get(d, Data);
    if !blob.DBlob? then None
    else
      var vs :- RestoreAll(c, blob.bytes, pool);
      var par :- GetBool(d, Parallelizable);
      var rep :- GetInt(d, RepeatTimes);
      Some(Values(vs, par, rep))
  }

  function ReadFilter(c: Codec, d: Dyn, sources: seq<Plan>): Option<Op> {
    var fd :- Get(d, FilterKey);
    var f :- ES.Read(c, fd, false);
    Checked(Filter(f), sources)
  }

  function ReadProject(c: Codec, d: Dyn, pool: bool, sources: seq<Plan>): Option<Op> {
    var ns :- ReadList(Get(d, Names), StrR());
    var es :- ReadList(Get(d, Projections), ExprR(c, pool));
    Checked(Project(ns, es), sources)
  }

  function ReadTableScan(d: Dyn): Option<Op> {
    var out :- GetType(d, OutputType);
    var h :- ReadHandle(d, TableHandle);
    var pairs :- ReadList(Get(d, Assignments), PairR());
    Some(TableScan(out, h, LastAssignments(pairs)))
  }

  function ReadTableWrite(d: Dyn, sources: seq<Plan>, agg: Option<Plan>): Option<Op> {
    var cols :- GetType(d, Columns);
    var ns :- ReadList(Get(d, ColumnNames), StrR());
    var cid :- GetStr(d, ConnectorId);
    var h :- ReadHandle(d, InsertHandle);
    var part :- GetBool(d, HasPartitioningScheme);
    var out :- GetType(d, OutputType);
    var cn :- GetStr(d, Key.CommitStrategy);
    var commit :- CommitStrategyFromName(cn);
    Checked(TableWrite(cols, ns, agg, cid, h, part, out, commit), sources)
  }

  function ReadTableWriteMerge(d: Dyn, agg: Option<Plan>): Option<Op> {
    var out :- GetType(d, OutputType);
    Some(TableWriteMerge(out, agg))
  }

  function ReadExpand(c: Codec, d: Dyn, pool: bool): Option<Op> {
    var ns :- ReadList(Get(d, Names), StrR());
    var matrix :- ReadList(Get(d, Projections), RowR(c, pool));
    MakeExpand(matrix, ns)
  }

  function ReadGroupId(c: Codec, d: Dyn, pool: bool, sources: seq<Plan>): Option<Op> {
    var infos :- ReadList(Get(d, GroupingKeyInfos), InfoR(c));
    var sets :- ReadList(Get(d, GroupingSets), StrsR());
    var inputs :- ReadList(Get(d, AggregationInputs), FieldR(c, pool));
    var name :- GetStr(d, GroupIdName);
    Checked(Op.GroupId(sets, infos, inputs, name), sources)
  }

  function ReadExchange(d: Dyn): Option<Op> {
    var out :- GetType(d, OutputType);
    Some(Exchange(out))
  }

  function ReadMergeExchange(c: Codec, d: Dyn, pool: bool): Option<Op> {
    var out :- GetType(d, OutputType);
    var ks :- ReadList(Get(d, SortingKeys), FieldR(c, pool));
    var os :- ReadList(Get(d, SortingOrders), OrderR());
    Some(MergeExchange(out, ks, os))
  }

  function ReadLocalMerge(c: Codec, d: Dyn, pool: bool): Option<Op> {
    var ks :- ReadList(Get(d, SortingKeys), FieldR(c, pool));
    var os :- ReadList(Get(d, SortingOrders), OrderR());
    Some(LocalMerge(ks, os))
  }

  function ReadLocalPartition(d: Dyn, sources: seq<Plan>): Option<Op> {
    var tn :- GetStr(d, Typ);
    var t :- LocalPartitionTypeFromName(tn);
    var spec :- ReadHandle(d, PartitionFunctionSpec);
    Checked(LocalPartition(t, spec), sources)
  }

  function ReadPartitionedOutput(c: Codec, d: Dyn, pool: bool, sources: seq<Plan>): Option<Op> {
    var kn :- GetStr(d, Kind);
    var k :- OutputKindFromName(kn);
    var ks :- ReadList(Get(d, Keys), ExprR(c, pool));
    var n :- GetInt(d, NumPartitions);
    var rep :- GetBool(d, ReplicateNullsAndAny);
    var spec :- ReadHandle(d, PartitionFunctionSpec);
    var out :- GetType(d, OutputType);
    Checked(PartitionedOutput(k, ks, n, rep, spec, out), sources)
  }

  function ReadHashJoin(c: Codec, d: Dyn, pool: bool, sources: seq<Plan>): Option<Op> {
    var na :- GetBool(d, NullAware);
    var j :- ReadJoin(c, d, pool);
    Checked(HashJoin(j.joinType, na, j.leftKeys, j.rightKeys, j.joinFilter, j.outputType), sources)
  }

  function ReadMergeJoin(c: Codec, d: Dyn, pool: bool, sources: seq<Plan>): Option<Op> {
    var j :- ReadJoin(c, d, pool);
    Checked(j, sources)
  }

  function ReadNestedLoopJoin(c: Codec, d: Dyn, pool: bool, sources: seq<Plan>): Option<Op> {
    var f :- ReadOpt(Get(d, JoinCondition), ExprR(c, pool));
    var out :- GetType(d, OutputType);
    var jn :- GetStr(d, JoinTypeKey);
    var j :- JoinTypeFromName(jn);
    Checked(NestedLoopJoin(j, f, out), sources)
  }

  function ReadOrderBy(c: Codec, d: Dyn, pool: bool, sources: seq<Plan>): Option<Op> {
    var ks :- ReadList(Get(d, SortingKeys), FieldR(c, pool));
    var os :- ReadList(Get(d, SortingOrders), OrderR());
    var part :- GetBool(d, Partial);
    Checked(OrderBy(ks, os, part), sources)
  }

  function ReadTopN(c: Codec, d: Dyn, pool: bool, sources: seq<Plan>): Option<Op> {
    var ks :- ReadList(Get(d, SortingKeys), FieldR(c, pool));
    var os :- ReadList(Get(d, SortingOrders), OrderR());
    var n :- GetInt(d, Count);
    var part :- GetBool(d, Partial);
    Checked(TopN(ks, os, n, part), sources)
  }

  function ReadLimit(d: Dyn, sources: seq<Plan>): Option<Op> {
    var o :- GetInt(d, Offset);
    var n :- GetInt(d, Count);
    var part :- GetBool(d, Partial);
    Checked(Op.Limit(o, n, part), sources)
  }

  function ReadUnnest(c: Codec, d: Dyn, pool: bool): Option<Op> {
    var rs :- ReadList(Get(d, ReplicateVariables), FieldR(c, pool));
    var us :- ReadList(Get(d, UnnestVariables), FieldR(c, pool));
    var ns :- ReadList(Get(d, UnnestNames), StrR());
    var ord :- ReadOpt(Get(d, OrdinalityName), StrR());
    MakeUnnest(rs, us, ns, ord)
  }

  function ReadAssignUniqueId(d: Dyn, input: Type): Option<Op> {
    var name :- GetStr(d, IdName);
    var task :- GetInt(d, TaskUniqueId);
    Some(AssignUniqueId(task, AppendColumns(input, [name], [BIGINT])))
  }

  function ReadWindow(c: Codec, d: Dyn, pool: bool, input: Type): Option<Op> {
    var ps :- ReadList(Get(d, PartitionKeys), FieldR(c, pool));
    var ks :- ReadList(Get(d, SortingKeys), FieldR(c, pool));
    var os :- ReadList(Get(d, SortingOrders), OrderR());
    var fs :- ReadList(Get(d, FunctionsKey), FunctionR(c));
    var ns :- ReadList(Get(d, Names), StrR());
    var sorted :- GetBool(d, InputsSorted);
    MakeWindow(ps, ks, os, ns, fs, sorted, input)
  }

  function ReadRowNumber(c: Codec, d: Dyn, pool: bool, input: Type): Option<Op> {
    var ps :- ReadList(Get(d, PartitionKeys), FieldR(c, pool));
    var limit :- ReadOpt(Get(d, Key.Limit), IntR());
    var name :- ReadOpt(Get(d, RowNumberColumnName), StrR());
    Some(RowNumber(ps, limit, OptionalRowNumber(input, name)))
  }

  function ReadTopNRowNumber(c: Codec, d: Dyn, pool: bool, sources: seq<Plan>, input: Type): Option<Op> {
    var ps :- ReadList(Get(d, PartitionKeys), FieldR(c, pool));
    var ks :- ReadList(Get(d, SortingKeys), FieldR(c, pool));
    var os :- ReadList(Get(d, SortingOrders), OrderR());
    var name :- ReadOpt(Get(d, RowNumberColumnName), StrR());
    var limit :- GetInt(d, Key.Limit);
    Checked(TopNRowNumber(ps, ks, os, limit, OptionalRowNumber(input, name)), sources)
  }

  function ReadMarkDistinct(c: Codec, d: Dyn, pool: bool, sources: seq<Plan>): Option<Op> {
    var ks :- ReadList(Get(d, DistinctKeys), FieldR(c, pool));
    var name :- GetStr(d, MarkerName);
    Checked(MarkDistinct(name, ks), sources)
  }

  /** The registered create function of each class. */
  function ReadOp(c: Codec, cls: Class, d: Dyn, pool: bool, sources: seq<Plan>, agg: Option<Plan>): Option<Op> {
    match cls
    case ValuesNode => ReadValues(c, d, pool)
    case FilterNode => ReadFilter(c, d, sources)
    case ProjectNode => ReadProject(c, d, pool, sources)
    case TableScanNode => ReadTableScan(d)
    case AggregationNode => ReadAggregation(c, d, pool, sources)
    case TableWriteNode => ReadTableWrite(d, sources, agg)
    case TableWriteMergeNode => ReadTableWriteMerge(d, agg)
    case ExpandNode => ReadExpand(c, d, pool)
    case GroupIdNode => ReadGroupId(c, d, pool, sources)
    case ExchangeNode => ReadExchange(d)
    case MergeExchangeNode => ReadMergeExchange(c, d, pool)
    case LocalMergeNode => ReadLocalMerge(c, d, pool)
    case LocalPartitionNode => ReadLocalPartition(d, sources)
    case PartitionedOutputNode => ReadPartitionedOutput(c, d, pool, sources)
    case HashJoinNode => ReadHashJoin(c, d, pool, sources)
    case MergeJoinNode => ReadMergeJoin(c, d, pool, sources)
    case NestedLoopJoinNode => ReadNestedLoopJoin(c, d, pool, sources)
    case OrderByNode => ReadOrderBy(c, d, pool, sources)
    case TopNNode => ReadTopN(c, d, pool, sources)
    case LimitNode => ReadLimit(d, sources)
    case UnnestNode => ReadUnnest(c, d, pool)
    case EnforceSingleRowNode => Some(EnforceSingleRow)
    case AssignUniqueIdNode => ReadAssignUniqueId(d, SourceType(sources))
    case WindowNode => ReadWindow(c, d, pool, SourceType(sources))
    case RowNumberNode => ReadRowNumber(c, d, pool, SourceType(sources))
    case TopNRowNumberNode => ReadTopNRowNumber(c, d, pool, sources, SourceType(sources))
    case MarkDistinctNode => ReadMarkDistinct(c, d, pool, sources)
    case _ => None
  }

  function ReadAggregation(c: Codec, d: Dyn, pool: bool, sources: seq<Plan>): Option<Op> {
    var ks :- ReadList(Get(d, GroupingKeys), FieldR(c, pool));
    var ps :- ReadList(Get(d, PreGroupedKeys), FieldR(c, pool));
    var ns :- ReadList(Get(d, AggregateNames), StrR());
    var aggs :- ReadList(Get(d, Aggregates), AggregateR(c, pool));
    var sets :- ReadList(Get(d, GlobalGroupingSets), IntR());
    var g :- ReadOpt(Get(d, Key.GroupId), FieldR(c, pool));
    var sn :- GetStr(d, StepKey);
    var step :- StepFromName(sn);
    var ign :- GetBool(d, IgnoreNullKeys);
    Checked(Aggregation(step, ks, ps, ns, aggs, sets, g, ign), sources)
  }

  /** The fields common to hash and merge joins; the filter is read without the pool. */
  function ReadJoin(c: Codec, d: Dyn, pool: bool): (r: Option<Op>)
    ensures r.Some? ==> r.value.MergeJoin?
  {
    var ls :- ReadList(Get(d, LeftKeys), FieldR(c, pool));
    var rs :- ReadList(Get(d, RightKeys), FieldR(c, pool));
    var f :- ReadOpt(Get(d, FilterKey), ExprR(c, false));
    var out :- GetType(d, OutputType);
    var jn :- GetStr(d, JoinTypeKey);
    var j :- JoinTypeFromName(jn);
    Some(MergeJoin(j, ls, rs, f, out))
  }

  /** assignments[name] = handle for each pair in turn. */
  function LastAssignments(pairs: seq<(string, nat)>): seq<(string, nat)> {
    if pairs == [] then []
    else Put(LastAssignments(pairs[..|pairs| - 1]), pairs[|pairs| - 1])
  }

  function Put(pairs: seq<(string, nat)>, p: (string, nat)): seq<(string, nat)> {
    if pairs == [] then [p]
    else if pairs[0].0 == p.0 then [p] + pairs[1..]
    else [pairs[0]] + Put(pairs[1..], p)
  }

  /** A plan together with the ids of all nodes constructed while reading it. */
  datatype Built = Built(plan: Plan, ids: multiset<string>)

  datatype BuiltSources = BuiltSources(plans: seq<Plan>, ids: multiset<string>)

  function Sum(ms: seq<multiset<string>>): multiset<string> {
    if ms == [] then multiset{} else Sum(ms[..|ms| - 1]) + ms[|ms| - 1]
  }

  function Gathered(bs: seq<Built>): BuiltSources {
    BuiltSources(seq(|bs|, i requires 0 <= i < |bs| => bs[i].plan),
                 Sum(seq(|bs|, i requires 0 <= i < |bs| => bs[i].ids)))
  }

  /** deserialize<PlanNode>: None stands for any raised error. */
  function Read(c: Codec, d: Dyn, pool: bool): Option<Built>
    decreases d, 2
  {
    var cls :- GetClass(d, Name);
    var id :- GetStr(d, Id);
    var src :- ReadSources(c, cls, d, pool);
    var agg :- ReadAggregationNode(c, cls, d);
    var op :- ReadOp(c, cls, d, pool, src.plans, agg.0);
    Some(Built(Plan(id, op, src.plans), multiset{id} + src.ids + agg.1))
  }

  function SourceCount(cls: Class): Arity {
    if cls in {ValuesNode, TableScanNode, ExchangeNode, MergeExchangeNode} then Leaf
    else if cls in {HashJoinNode, MergeJoinNode, NestedLoopJoinNode} then Binary
    else if cls in {LocalMergeNode, LocalPartitionNode} then Many
    else Unary
  }

  /** Scans and exchanges do not look for sources, a table write reads an object without
      the pool, and an aggregation reads its list twice and keeps the second copy. */
  function ReadSources(c: Codec, cls: Class, d: Dyn, pool: bool): Option<BuiltSources>
    decreases d, 1
  {
    if cls in {TableScanNode, ExchangeNode, MergeExchangeNode} then Some(BuiltSources([], multiset{}))
    else if cls in {TableWriteNode, TableWriteMergeNode} then
      var sd :- Get(d, Sources);
      var s :- Read(c, sd, false);
      Some(BuiltSources([s.plan], s.ids))
    else
      var first :- ReadSourceList(c, d, pool);
      if !Fits(SourceCount(cls), |first.plans|) then None
      else if cls == AggregationNode then
        var second := ReadSourceList(c, d, pool).value;
        Some(BuiltSources(second.plans, first.ids + second.ids))
      else Some(first)
  }

  function ReadSourceList(c: Codec, d: Dyn, pool: bool): Option<BuiltSources>
    decreases d, 0
  {
    if Get(d, Sources).None? then Some(BuiltSources([], multiset{}))
    else
      var ds :- GetArr(d, Sources);
      var bs :- AllOf(seq(|ds|, i requires 0 <= i < |ds| => Read(c, ds[i], pool)));
      Some(Gathered(bs))
  }

  /** The statistics aggregation of a table write, if present, is read without the pool. */
  function ReadAggregationNode(c: Codec, cls: Class, d: Dyn): Option<(Option<Plan>, multiset<string>)>
    decreases d, 0
  {
    if cls !in {TableWriteNode, TableWriteMergeNode} || Get(d, AggregationNodeKey).None? then Some((None, multiset{}))
    else
      var a :- Read(c, Get(d, AggregationNodeKey).value, false);
      if a.plan.op.Aggregation? then Some((Some(a.plan), a.ids)) else None
  }
}
