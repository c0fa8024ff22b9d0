/** The textual names of the enumerations in plan nodes (velox/core/PlanNode.cpp,
    velox/connectors/Connector.cpp). */
module PlanNames {
  import opened Types
  import opened Plans

  // ----- name tables -----

  function StepName(s: Step): string {
    match s
    case PartialStep => "PARTIAL"
    case FinalStep => "FINAL"
    case IntermediateStep => "INTERMEDIATE"
    case SingleStep => "SINGLE"
  }

  function StepFromName(n: string): Option<Step> {
    if n == "PARTIAL" then Some(PartialStep)
    else if n == "FINAL" then Some(FinalStep)
    else if n == "INTERMEDIATE" then Some(IntermediateStep)
    else if n == "SINGLE" then Some(SingleStep)
    else None
  }

  function JoinTypeName(j: JoinType): string {
    match j
    case Inner => "INNER"
    case Left => "LEFT"
    case Right => "RIGHT"
    case Full => "FULL"
    case LeftSemiFilter => "LEFT SEMI (FILTER)"
    case RightSemiFilter => "RIGHT SEMI (FILTER)"
    case LeftSemiProject => "LEFT SEMI (PROJECT)"
    case RightSemiProject => "RIGHT SEMI (PROJECT)"
    case Anti => "ANTI"
  }

  function JoinTypeFromName(n: string): Option<JoinType> {
    if n == "INNER" then Some(Inner)
    else if n == "LEFT" then Some(Left)
    else if n == "RIGHT" then Some(Right)
    else if n == "FULL" then Some(Full)
    else if n == "LEFT SEMI (FILTER)" then Some(LeftSemiFilter)
    else if n == "RIGHT SEMI (FILTER)" then Some(RightSemiFilter)
    else if n == "LEFT SEMI (PROJECT)" then Some(LeftSemiProject)
    else if n == "RIGHT SEMI (PROJECT)" then Some(RightSemiProject)
    else if n == "ANTI" then Some(Anti)
    else None
  }

  function BoundTypeName(b: BoundType): string {
    match b
    case CurrentRow => "CURRENT ROW"
    case Preceding => "PRECEDING"
    case Following => "FOLLOWING"
    case UnboundedPreceding => "UNBOUNDED PRECEDING"
    case UnboundedFollowing => "UNBOUNDED FOLLOWING"
  }

  function BoundTypeFromName(n: string): Option<BoundType> {
    if n == "CURRENT ROW" then Some(CurrentRow)
    else if n == "PRECEDING" then Some(Preceding)
    else if n == "FOLLOWING" then Some(Following)
    else if n == "UNBOUNDED PRECEDING" then Some(UnboundedPreceding)
    else if n == "UNBOUNDED FOLLOWING" then Some(UnboundedFollowing)
    else None
  }

  function WindowTypeName(w: WindowType): string {
    match w
    case Rows => "ROWS"
    case Range => "RANGE"
  }

  function WindowTypeFromName(n: string): Option<WindowType> {
    if n == "ROWS" then Some(Rows) else if n == "RANGE" then Some(Range) else None
  }

  function LocalPartitionTypeName(t: LocalPartitionType): string {
    match t
    case Gather => "GATHER"
    case Repartition => "REPARTITION"
  }

  function LocalPartitionTypeFromName(n: string): Option<LocalPartitionType> {
    if n == "GATHER" then Some(Gather) else if n == "REPARTITION" then Some(Repartition) else None
  }

  function OutputKindName(k: OutputKind): string {
    match k
    case Partitioned => "PARTITIONED"
    case Broadcast => "BROADCAST"
    case Arbitrary => "ARBITRARY"
  }

  function OutputKindFromName(n: string): Option<OutputKind> {
    if n == "PARTITIONED" then Some(Partitioned)
    else if n == "BROADCAST" then Some(Broadcast)
    else if n == "ARBITRARY" then Some(Arbitrary)
    else None
  }

  function CommitStrategyName(s: CommitStrategy): string {
    match s
    case NoCommit => "NO_COMMIT"
    case TaskCommit => "TASK_COMMIT"
  }

  function CommitStrategyFromName(n: string): Option<CommitStrategy> {
    if n == "NO_COMMIT" then Some(NoCommit) else if n == "TASK_COMMIT" then Some(TaskCommit) else None
  }

  /** Every name table is inverted by its reader. */
  lemma NamesInvert(s: Step, b: BoundType, w: WindowType, t: LocalPartitionType, k: OutputKind, c: CommitStrategy)
    ensures StepFromName(StepName(s)) == Some(s)
    ensures BoundTypeFromName(BoundTypeName(b)) == Some(b)
    ensures WindowTypeFromName(WindowTypeName(w)) == Some(w)
    ensures LocalPartitionTypeFromName(LocalPartitionTypeName(t)) == Some(t)
    ensures OutputKindFromName(OutputKindName(k)) == Some(k)
    ensures CommitStrategyFromName(CommitStrategyName(c)) == Some(c)
  {
  }

  lemma JoinNamesInvert(j: JoinType)
    ensures JoinTypeFromName(JoinTypeName(j)) == Some(j)
  {
  }
}
