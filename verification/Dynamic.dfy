/** The tree-shaped objects that expressions and plans are written to, and the abstract
    vector format they embed. */
module Dynamic {
  import opened Types
  import opened TypedExprs

  type Bytes = seq<bv8>

  /** Object keys. The source's keys are pairwise distinct literals, compared only for equality. */
  datatype Key =
    | Name | Typ | Inputs | Value | ValueVector | FunctionName | FieldName | FieldIndex
    | Signature | Body | NullOnFailure
    | Id | Sources | Data | Parallelizable | RepeatTimes | FilterKey | Names | Projections
    | OutputType | TableHandle | Assignments | Assign | ColumnHandle
    | StepKey | GroupingKeys | PreGroupedKeys | AggregateNames | Aggregates
    | GlobalGroupingSets | GroupId | IgnoreNullKeys
    | CallKey | RawInputTypes | Mask | SortingKeys | SortingOrders | Distinct
    | Ascending | NullsFirst
    | GroupingSets | AggregationInputs | GroupIdName | GroupingKeyInfos | Output | InputKey
    | ReplicateVariables | UnnestVariables | UnnestNames | OrdinalityName
    | JoinTypeKey | LeftKeys | RightKeys | NullAware | JoinCondition
    | IdName | TaskUniqueId
    | PartitionKeys | FunctionsKey | InputsSorted | FunctionCall | Frame | IgnoreNulls
    | StartType | StartValue | EndType | EndValue
    | DistinctKeys | MarkerName | RowNumberColumnName | Limit
    | Columns | ColumnNames | AggregationNodeKey | ConnectorId | InsertHandle
    | HasPartitioningScheme | CommitStrategy
    | PartitionFunctionSpec | Kind | NumPartitions | Keys | ReplicateNullsAndAny
    | Count | Offset | Partial

  /** The class names under which create functions are registered. */
  datatype Class =
    | InputExpr | ConstantExpr | CallExpr | FieldAccessExpr | DereferenceExpr | ConcatExpr
    | LambdaExpr | CastExpr
    | AggregationNode | AssignUniqueIdNode | EnforceSingleRowNode | ExchangeNode | ExpandNode
    | FilterNode | GroupIdNode | HashJoinNode | MergeExchangeNode | MergeJoinNode
    | NestedLoopJoinNode | LimitNode | LocalMergeNode | LocalPartitionNode | OrderByNode
    | PartitionedOutputNode | ProjectNode | RowNumberNode | TableScanNode | TableWriteNode
    | TableWriteMergeNode | TopNNode | TopNRowNumberNode | UnnestNode | ValuesNode
    | WindowNode | MarkDistinctNode

  /** Types, scalar variants and opaque handles are written by code outside this model;
      each stands for its own serialized form. */
  datatype Dyn =
    | DClass(c: Class)
    | DBool(b: bool)
    | DInt(n: int)
    | DStr(s: string)
    | DType(t: Type)
    | DValue(v: Value)
    | DHandle(h: nat)
    | DBlob(bytes: Bytes)
    | DArr(elems: seq<Dyn>)
    | DObj(fields: map<Key, Dyn>)

  // ----- checked access, as obj[key] and the asX conversions raise -----

  function Get(d: Dyn, k: Key): (r: Option<Dyn>)
    ensures r.Some? ==> r.value < d
  {
    if d.DObj? && k in d.fields then Some(d.fields[k]) else None
  }

  function GetClass(d: Dyn, k: Key): Option<Class> {
    var x := Get(d, k);
    if x.Some? && x.value.DClass? then Some(x.value.c) else None
  }

  function GetStr(d: Dyn, k: Key): Option<string> {
    var x := Get(d, k);
    if x.Some? && x.value.DStr? then Some(x.value.s) else None
  }

  function GetInt(d: Dyn, k: Key): Option<int> {
    var x := Get(d, k);
    if x.Some? && x.value.DInt? then Some(x.value.n) else None
  }

  function GetBool(d: Dyn, k: Key): Option<bool> {
    var x := Get(d, k);
    if x.Some? && x.value.DBool? then Some(x.value.b) else None
  }

  function GetType(d: Dyn, k: Key): Option<Type> {
    var x := Get(d, k);
    if x.Some? && x.value.DType? then Some(x.value.t) else None
  }

  function GetArr(d: Dyn, k: Key): (r: Option<seq<Dyn>>)
    ensures r.Some? ==> forall x <- r.value :: x < d
  {
    var x := Get(d, k);
    if x.Some? && x.value.DArr? then Some(x.value.elems) else None
  }

  // ----- vectors -----

  datatype Vector = Vector(typ: Type, rows: seq<Value>)

  /** The vector format: saving and restoring from the front of a stream. Restoring
      without a memory pool fails on the vectors whose buffers have to be allocated. */
  datatype Codec = Codec(
    save: Vector -> Bytes,
    restore: (Bytes, bool) -> Option<(Vector, Bytes)>,
    needsPool: Vector -> bool)

  /** Saved vectors are non-empty, self-delimiting and restored exactly. */
  ghost predicate ValidCodec(c: Codec) {
    && (forall v :: |c.save(v)| > 0)
    && (forall v, rest: Bytes, pool :: c.restore(c.save(v) + rest, pool) ==
                                       if pool || !c.needsPool(v) then Some((v, rest)) else None)
  }
}
