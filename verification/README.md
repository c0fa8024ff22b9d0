# Velox core: a verified model

A Dafny model of the core of the Velox engine as it is kept in this repository, with the
properties its parts rely on. Each module follows one component.

- **Expressions** (`Types`, `TypedExprs`, `Substitution`, `ExprEquality`, `Dynamic`, `ExprSerde`):
  the eight expression classes as terms, substitution of columns against an evaluator with
  lambdas, equality and hashing, and serialization.
- **Plans** (`Plans`, `PlanNames`, `PlanParts`, `PlanSerde`, `PlanRoundTrip`, `PlanCost`,
  `PlanBuilders`, `PlanPrinter`): 27 node kinds with their constructor checks, written to objects
  and read back, what reading costs, and the printer.
- **Buffers** (`Ints`, `Widths`, `Buffers`, `BufferInvariants`, `BufferContents`, `BufferAppends`,
  `BufferRuns`, `BufferSights`, `BufferLoops`, `BufferStore`): `Buffers` gives each operation as a function on a heap
  of handles and reference-counted buffers; `BufferStore.Store` performs the same operations in
  place, step by step, and is proved against those functions.
- **Concurrency** (`RefCount`, `ScanTrackers`): step relations over all interleavings.
- **Built on buffers** (`BitBuffers`, `StringArena`): packed bits and the string arena.
- **Arithmetic cores** (`Signatures`, `SignatureAnalysis`, `SignaturePriority`, `DataGen`).

Conventions. `Option` stands for an operation that may raise: `None` is any raised error. The
memory pool is a parameter: `Pool` is any rounding up of sizes, and `PoolAnswer` says whether a
request succeeds, what bytes the memory holds, and whether reallocation moves the block. The
vector format is a parameter `Codec`, saved vectors being self-delimiting and restored exactly.
Hash functions are parameters. The padding in front of a buffer is that of a platform with
256-bit vectors (AVX2). `Ints.Signed` is the conversion to `int32_t`. `Result` and `Status` add to
returning and raising a third outcome, undefined behaviour. Products and quotients by a variable width are written with
`Widths.Product`, `Quotient` and `Remainder`.

Where the code falls short of what is said about it, the model follows the code:

- `reallocate` with an initial value overwrites a partial element at the end of the old content,
  since the fill starts at an element boundary (debug builds check for this).
- `rewriteInputNames` also fails on a dereference of a column mapped to the input row.
- `operator==` ignores the type of input rows and dereferences while `hash` mixes it in.
- The bodies of lambdas, aggregate masks, grouping-key inputs and window functions are read
  without the pool.
- `nbytes` narrows its argument to `int32_t`.
- Buffers of non-PODs count their objects in an `int`: from 2^31 objects on, objects are left
  unconstructed or the loops leave the buffer, and `setSize`, `allocate` and `reallocate` report no
  error.
- The reference count is an `int32_t`: with more than 2^32 handles a drop that is not the last
  releases the buffer.
- A tracker's callback erases whatever is registered under its id, a replacement included.
- `computePriority` wraps around when a signature has more concrete types than its rank allows.

## Model

| member | source | states |
|---|---|---|
| `TypedExprs.ToType` | velox/core/Expressions.h:503-514 | the column-by-column loop yields the row type that `TypeOf` gives a concatenation; it raises when an expression is missing |
| `TypedExprs.RewriteInputNames` | velox/core/Expressions.h:291-319 | the virtual method computes `Rewrite` |
| `TypedExprs.RewriteInputsRecursive` | velox/core/ITypedExpr.h:91-99 | the loop rewrites all inputs in order and stops at the first failure |
| `TypedExprs.RewriteFailsIff` | velox/core/Expressions.h:533-543 | a rewrite raises exactly when some lambda binds a mapped name, or a dereference sits on a column that is mapped to the whole input row |
| `TypedExprs.RewriteKeepsOthers` | velox/core/Expressions.h:291-319 | an expression that mentions no mapped name comes back as it is |
| `TypedExprs.RewritePreservesTypes` | velox/core/Expressions.h:291-319 | a type-respecting rewrite keeps the type of every node, and its result passes all constructor checks |
| `Substitution.RewriteSubstitutes` | velox/core/Expressions.h:291-319 | evaluating the rewritten expression in a row equals evaluating the original in the row updated by the mapping: for all rows, all functions, and under any nesting of lambdas |
| `Substitution.Coincidence` | velox/core/Expressions.h:271-319 | the value of an expression depends only on the columns it reads, lambda values compared argument by argument |
| `Substitution.CaptureChangesMeaning` | velox/core/Expressions.h:533-543 | counterexample: a replacement that reads a lambda parameter is captured |
| `Substitution.InputFieldIsCaptured` | velox/core/Expressions.h:291-319 | counterexample: a name read through the input row and mapped to a column is captured by a lambda parameter of that name |
| `Substitution.InputFieldIsNotReplaced` | velox/core/Expressions.h:291-319 | counterexample: a name read through the input row is not replaced by a computed expression |
| `Substitution.InputFieldLosesItsColumn` | velox/core/Expressions.h:291-319 | counterexample: a name read through the input row and mapped to a field of a column becomes a column with the name of the field |
| `Substitution.FieldOfInputRowChangesMeaning` | velox/core/Expressions.h:291-319 | counterexample: a field of a column mapped to the input row becomes a column of that row |
| `ExprEquality.EqIsSameForm` | velox/core/Expressions.h:28-567 | `operator==` of all classes is equality of normal forms: everything is compared but the types of input rows and dereferences, the names of nested row types and the indices of nested opaque types |
| `ExprEquality.EqualMeansSame` | velox/core/Expressions.h:555-564 | equal expressions have the same value in every row, under all functions that do not tell equal types apart |
| `ExprEquality.EqReflexive` | velox/core/Expressions.h:28-31 | `operator==` is reflexive on all eight classes |
| `ExprEquality.EqSymmetric` | velox/core/Expressions.h:245-258 | `operator==` is symmetric, including across the two kinds of constants and field accesses |
| `ExprEquality.EqTransitive` | velox/core/Expressions.h:344-357 | `operator==` is transitive |
| `ExprEquality.ComputeHash` | velox/core/ITypedExpr.h:58-64 | the hash loop computes `Hash` |
| `ExprEquality.AlikeHash` | velox/core/ITypedExpr.h:58-64 | the hash reads nothing of a node but its class and name, value, index or flag, the kinds of its type, and its children |
| `ExprEquality.HashReadsAll` | velox/core/ITypedExpr.h:58-64 | the hash reads all of that: without collisions equal hashes mean that none of it differs |
| `ExprEquality.EqTypes` | velox/core/Expressions.h:422-432 | equal expressions, well typed over one input row type, have equivalent types, although `operator==` does not compare them everywhere |
| `ExprEquality.EqImpliesSameHash` | velox/core/ITypedExpr.h:58-64 | equality implies equal hashes whatever the mixing and base hashes are, for well-typed expressions over one input row type |
| `ExprEquality.InputRowsHashApart` | velox/core/Expressions.h:28-40 | the shared row type is needed: two equal input rows of different row types hash differently under the mixing of the code |
| `ExprEquality.IllTypedDereferencesHashApart` | velox/core/Expressions.h:408-432 | well-typedness is needed: two equal dereferences of one column, one of them wrongly typed, hash differently under the mixing of the code |
| `ExprSerde.SerializeBase` | velox/core/Expressions.cpp:39-55 | the object filled by the loop over the inputs is the written base; no input list is written for a leaf |
| `ExprSerde.Serialize` | velox/core/Expressions.cpp:70-209 | the object filled class by class is `Write` |
| `ExprSerde.ExprRoundTrip` | velox/core/Expressions.cpp:27-217 | deserializing a serialized expression gives it back exactly when every vector constant that needs the pool is outside lambda bodies and a pool is given; otherwise it raises |
| `PlanNames.NamesInvert` | velox/core/PlanNode.cpp:282-311 | reading the printed name of a step, bound, frame type, partition type, output kind or commit strategy gives it back |
| `PlanNames.JoinNamesInvert` | velox/core/PlanNode.cpp:1030-1053 | reading the printed name of a join type gives it back |
| `PlanParts.RestoreValues` | velox/core/PlanNode.cpp:692-713 | the loop restores vectors from the front of the stream until it is used up |
| `PlanParts.VectorsRoundTrip` | velox/core/PlanNode.cpp:673-713 | any list of vectors saved one behind the other is restored exactly if each has its pool, else reading raises |
| `PlanParts.AggregateRoundTrip` | velox/core/PlanNode.cpp:372-405 | an aggregate with its mask, sorting keys and distinct flag is read back; the mask is read without the pool |
| `PlanParts.FunctionRoundTrip` | velox/core/PlanNode.cpp:1463-1478 | a window function with its frame is read back; everything in it is read without the pool |
| `PlanParts.FrameRoundTrip` | velox/core/PlanNode.cpp:1429-1461 | a window frame with its optional bounds is read back |
| `PlanBuilders.UnnestOutput` | velox/core/PlanNode.cpp:831-866 | the loops of the constructor compute `MakeUnnest`, raising on a variable that is neither array nor map |
| `PlanBuilders.UnnestColumns` | velox/core/PlanNode.cpp:831-866 | column by column: the replicated variables, then for each array its elements and for each map its keys and its values under the next names, then the ordinality; raised exactly on another type or too few names |
| `PlanBuilders.WindowOutput` | velox/core/PlanNode.cpp:1253-1270 | the loop appends one column per window function to the input columns |
| `PlanBuilders.OutputColumns` | velox/core/PlanNode.cpp:75-101 | every node built by its constructor shows each column under its own name with its own type, those of the source first where they are passed on |
| `PlanBuilders.JoinColumnTraced` | velox/core/PlanNode.cpp:957-1000 | every output column of a join but the match marker stands for a column of exactly one source, one the join type may show |
| `PlanBuilders.HasUniqueNames` | velox/core/PlanNode.cpp:464-471 | the hash-set loop accepts exactly the lists without duplicates |
| `PlanRoundTrip.RecoversValues` | velox/core/PlanNode.cpp:673-713 | the create function recovers every field of the node from its written object, given its sources |
| `PlanRoundTrip.RecoversFilter` | velox/core/PlanNode.cpp:2271-2284 | the create function recovers every field of the node from its written object, given its sources |
| `PlanRoundTrip.RecoversProject` | velox/core/PlanNode.cpp:725-744 | the create function recovers every field of the node from its written object, given its sources |
| `PlanRoundTrip.RecoversTableScan` | velox/core/PlanNode.cpp:754-789 | the create function recovers the node; assigning the columns one by one gives back the list of assignments, whose columns are distinct |
| `PlanRoundTrip.RecoversExpand` | velox/core/PlanNode.cpp:521-542 | the create function recovers every field of the node from its written object, given its sources |
| `PlanRoundTrip.RecoversGroupId` | velox/core/PlanNode.cpp:613-652 | the create function recovers every field of the node from its written object, given its sources |
| `PlanRoundTrip.RecoversExchange` | velox/core/PlanNode.cpp:807-817 | the create function recovers every field of the node from its written object, given its sources |
| `PlanRoundTrip.RecoversMergeExchange` | velox/core/PlanNode.cpp:1870-1887 | the create function recovers every field of the node from its written object, given its sources |
| `PlanRoundTrip.RecoversLocalMerge` | velox/core/PlanNode.cpp:1763-1781 | the create function recovers every field of the node from its written object, given its sources |
| `PlanRoundTrip.RecoversLocalPartition` | velox/core/PlanNode.cpp:1896-1913 | the create function recovers every field of the node from its written object, given its sources |
| `PlanRoundTrip.RecoversPartitionedOutput` | velox/core/PlanNode.cpp:2009-2034 | the create function recovers every field of the node from its written object, given its sources |
| `PlanRoundTrip.RecoversHashJoin` | velox/core/PlanNode.cpp:1062-1094 | the create function recovers every field of the node from its written object, given its sources |
| `PlanRoundTrip.RecoversMergeJoin` | velox/core/PlanNode.cpp:1096-1124 | the create function recovers every field of the node from its written object, given its sources |
| `PlanRoundTrip.RecoversNestedLoopJoin` | velox/core/PlanNode.cpp:1180-1211 | the create function recovers every field of the node from its written object, given its sources |
| `PlanRoundTrip.RecoversOrderBy` | velox/core/PlanNode.cpp:2136-2156 | the create function recovers every field of the node from its written object, given its sources |
| `PlanRoundTrip.RecoversTopN` | velox/core/PlanNode.cpp:2075-2097 | the create function recovers every field of the node from its written object, given its sources |
| `PlanRoundTrip.RecoversLimit` | velox/core/PlanNode.cpp:2109-2127 | the create function recovers every field of the node from its written object, given its sources |
| `PlanRoundTrip.RecoversUnnest` | velox/core/PlanNode.cpp:872-913 | the create function recovers the column names by position from the stored output, and with them the whole node |
| `PlanRoundTrip.RecoversAssignUniqueId` | velox/core/PlanNode.cpp:1232-1250 | the create function recovers every field of the node from its written object, given its sources |
| `PlanRoundTrip.RecoversWindow` | velox/core/PlanNode.cpp:1480-1529 | the create function recovers the column names by position from the stored output, and with them the whole node |
| `PlanRoundTrip.RecoversRowNumber` | velox/core/PlanNode.cpp:1627-1661 | the create function recovers the column names by position from the stored output, and with them the whole node |
| `PlanRoundTrip.RecoversTopNRowNumber` | velox/core/PlanNode.cpp:1722-1757 | the create function recovers the column names by position from the stored output, and with them the whole node |
| `PlanRoundTrip.RecoversMarkDistinct` | velox/core/PlanNode.cpp:1557-1572 | the create function recovers every field of the node from its written object, given its sources |
| `PlanRoundTrip.RecoversAggregation` | velox/core/PlanNode.cpp:313-443 | the create function recovers grouping, aggregates and grouping sets, masks being read without the pool |
| `PlanRoundTrip.RecoversOp` | velox/core/PlanNode.cpp:1948-1960 | every registered create function recovers its node or raises for a missing pool, single-row enforcement included |
| `PlanRoundTrip.NodeRoundTrips` | velox/core/PlanNode.cpp:1785-1864 | a node is read back whole, or raises for a missing pool, once its sources are, and for table writes and their merges the statistics aggregation, which is read without the pool |
| `PlanRoundTrip.WindowRecovered` | velox/core/PlanNode.cpp:1504-1529 | the names at the end of the output, whatever they are, rebuild the window node they came from |
| `PlanRoundTrip.UnnestRecovered` | velox/core/PlanNode.cpp:895-913 | the names at their positions in the output rebuild the unnest node |
| `PlanRoundTrip.ReadsSources` | velox/core/PlanNode.cpp:1803-1834 | the sources come back from a list or, for a table write, from a single object read without the pool; an aggregation reads its source twice |
| `PlanRoundTrip.ReadsAggregation` | velox/core/PlanNode.cpp:1803-1834 | the statistics aggregation of a table write comes back, read without the pool |
| `PlanSerde.Serialize` | velox/core/PlanNode.cpp:2254-2269 | the loop that pushes the sources fills the object `Write` |
| `PlanRoundTrip.PlanRoundTrips` | velox/core/PlanNode.cpp:32-48 | reading back a written plan of any of the 27 kinds gives the same plan exactly when the pool reaches every vector and constant that needs it, and raises otherwise |
| `PlanCost.CostIsTotal` | velox/core/PlanNode.cpp:409-443 | every plan, ids repeated or not: the nodes of an id constructed by reading are the sum over its occurrences of 2^k, k being the number of aggregations strictly above, statistics aggregations of table writes included |
| `PlanCost.ConstructedPowerOfTwo` | velox/core/PlanNode.cpp:409-443 | where ids are distinct each node is constructed 2^k times |
| `PlanCost.ReadingCost` | velox/core/PlanNode.cpp:32-48 | the same of reading a written plan: the plan comes back, and each id was constructed as often as its occurrences weigh |
| `PlanPrinter.ToString` | velox/core/PlanNode.cpp:2162-2196 | the recursive stream writer appends `Render` of the tree of names |
| `PlanPrinter.SourcesInOrder` | velox/core/PlanNode.cpp:2162-2196 | a node is printed before its sources, and each source right after those before it, two columns deeper |
| `PlanPrinter.ForestIsDetermined` | velox/core/PlanNode.cpp:2162-2196 | a printed list of trees at some depth, followed by shallower text, can be read in only one way |
| `PlanPrinter.RenderingIsInjective` | velox/core/PlanNode.cpp:2162-2196 | two plans with the same recursive rendering have the same shape and node names |
| `Widths.ProductIsTimes` | velox/buffer/Buffer.h:316 | the product by repetition is the product of the code |
| `Widths.QuotientAndRemainder` | velox/buffer/Buffer.h:483-489 | quotient and remainder by repetition are those of the integer division in the code |
| `BufferLoops.ConstructRange` | velox/buffer/Buffer.h:600-623 | for a bound narrowed to an `int`, constructs raw slots only, each exactly once; a bound that turned negative constructs nothing |
| `BufferLoops.DestroyRange` | velox/buffer/Buffer.h:573-582 | for counts that fit an `int`, destroys constructed slots only, each exactly once |
| `BufferLoops.AssignRange` | velox/buffer/Buffer.h:584-598 | for counts that fit an `int`, assigns constructed slots only |
| `BufferLoops.FillElements` | velox/buffer/Buffer.h:474-497 | fills whole elements between the two offsets, both rounded down |
| `BufferInvariants.DropKeeps` | velox/buffer/Buffer.h:71-80 | dropping a handle keeps counts equal to handles, the charge, lifetimes and pins; a held buffer is live |
| `BufferInvariants.CopyHandleKeeps` | velox/buffer/Buffer.h:63-65 | copying a handle keeps the invariant |
| `BufferInvariants.SetSizeKeeps` | velox/buffer/Buffer.h:544-560 | a size change that does not raise keeps the invariant, constructed and destroyed objects accounted for, if and only if the new count is below 2^31 |
| `BufferInvariants.AllocatePodKeeps` | velox/buffer/Buffer.h:312-327 | allocation of PODs charges the pool for capacity and padding and keeps the invariant |
| `BufferInvariants.AllocateNonPodKeeps` | velox/buffer/Buffer.h:600-623 | a served allocation of non-PODs keeps the invariant, every object constructed, if and only if fewer than 2^31 are asked for |
| `BufferInvariants.ReallocatePodKeeps` | velox/buffer/Buffer.h:347-413 | all four paths for PODs keep the invariant |
| `BufferInvariants.ReallocateNonPodKeeps` | velox/buffer/Buffer.h:347-371 | either path for non-PODs that does not raise is defined and keeps the invariant, constructions and destructions included, if and only if fewer than 2^31 objects are asked for |
| `BufferInvariants.AppendToKeeps` | velox/buffer/Buffer.h:422-437 | an append keeps the invariant |
| `BufferInvariants.CopyKeeps` | velox/buffer/Buffer.h:439-457 | a copy keeps the invariant |
| `BufferContents.FillResizes` | velox/buffer/Buffer.h:474-497 | the old bytes survive the fill exactly when there is no growth, no value, or the last partial element already looks like the value |
| `BufferContents.ReallocatePodContents` | velox/buffer/Buffer.h:334-413 | on every path the caller ends as the only holder of the old bytes cut or extended by the value, exactly under that condition, while every other handle reads the same size and bytes |
| `BufferContents.PartialElementIsOverwritten` | velox/buffer/Buffer.h:483-489 | witness: three bytes in elements of two are damaged by growing with a value |
| `BufferContents.ReallocateNonPodContents` | velox/buffer/Buffer.h:357-371 | unless it raises, the call is defined and the caller ends with the old objects cut or extended by copies of the value if and only if fewer than 2^31 are asked for; every other handle reads the same objects |
| `BufferSights.SetSizeSeen` | velox/buffer/Buffer.h:119-124 | raises exactly for a view, a size beyond the capacity or a partial object; otherwise all handles to the buffer see the new size with the old content up to it and default objects beyond, and no other handle sees a change |
| `BufferSights.CopySeen` | velox/buffer/Buffer.h:439-457 | succeeds exactly for bytes that the pool can hold; the new handle is the only one to a buffer that reads the same, and no handle sees a change |
| `BufferSights.ReallocatePodSeen` | velox/buffer/Buffer.h:347-413 | raises exactly when the size overflows or the pool is needed and does not serve; the caller ends alone with the resized bytes and the expected capacity, and nobody else sees a change |
| `BufferSights.ReallocateNonPodSeen` | velox/buffer/Buffer.h:347-371 | the same for objects, below 2^31 of them |
| `BufferSights.OutcomeSeen` | velox/buffer/Buffer.h:312-457 | each of the eleven operations raises exactly when what the handles show says so, and else changes what they show and which of them share a buffer as specified, below 2^31 objects |
| `BufferSights.RunsRefine` | velox/buffer/Buffer.h:312-628 | every run of operations, raising or not, refines the steps on what the handles show, below 2^31 objects at a time |
| `BufferSights.OnlyHolderIsSpared` | velox/buffer/Buffer.h:347-413 | whatever a run does with other handles, a handle that shares its buffer with nobody keeps what it sees and stays alone |
| `BufferAppends.AppendToAppends` | velox/buffer/Buffer.h:422-437 | an append succeeds exactly when no size overflows and the pool serves a needed growth; then the caller reads its bytes followed by the items and no holder loses a byte, even where the write is in place in a shared buffer |
| `BufferAppends.AppendAllAppends` | velox/buffer/Buffer.h:422-437 | any sequence of appends leaves the initial bytes followed by all items in order, and a prefix for every holder |
| `BufferAppends.AppendsAreAmortised` | velox/buffer/Buffer.h:422-437 | over any sequence of appends the reallocations move at most twice as many bytes as the buffer ends with |
| `BufferRuns.OutcomeKeeps` | velox/buffer/Buffer.h:312-457 | from a valid heap no operation uses a buffer that is gone, and each that does not raise, whatever the pool answers, is defined and ends in a valid heap if and only if it asks for fewer than 2^31 objects |
| `BufferRuns.RunsKeep` | velox/buffer/Buffer.h:312-628 | in a run from a valid heap every heap is valid (the pool is charged for exactly the live pooled buffers, counts equal handles, and constructed minus destroyed objects are those alive) and no operation is undefined, if and only if no operation that succeeds asks for 2^31 objects; an operation that raises changes nothing |
| `BufferRuns.TooManyObjects` | velox/buffer/Buffer.h:573-623 | witness: 2^31 objects of 16 bytes are allocated without one being constructed, and releasing them is undefined |
| `BufferRuns.NothingLeaks` | velox/buffer/Buffer.h:71-80 | no run from the empty heap that asks for fewer than 2^31 objects at a time goes wrong, and once such a run has dropped all handles the pool holds no byte, every object is destroyed and every pin is released |
| `BufferStore.Store.Release` | velox/buffer/Buffer.h:71-80 | the last reference destroys the objects, unpins, and returns the memory |
| `BufferStore.Store.ReleaseResources` | velox/buffer/Buffer.h:573-582 | the loop destroys exactly the objects of a valid buffer, which are fewer than 2^31 |
| `BufferStore.Store.CopyPtr` | velox/buffer/Buffer.h:63-65 | adds one handle and one reference |
| `BufferStore.Store.DropPtr` | velox/buffer/Buffer.h:71-80 | the new state is `Drop` of the old one and valid |
| `BufferStore.Store.Resize` | velox/buffer/Buffer.h:119-124 | the outcome and the new state are those of `SetSize`; below 2^31 objects the state stays valid and all handles to the buffer, and no others, see the new size |
| `BufferStore.Store.ResizeObjects` | velox/buffer/Buffer.h:544-560 | the two loops up to the narrowed count construct raw slots or destroy objects, and at most one of them runs; a count that turns negative is undefined |
| `BufferStore.Store.FillNewMemory` | velox/buffer/Buffer.h:474-497 | fills only on growth with a value |
| `BufferStore.Store.AllocatePods` | velox/buffer/Buffer.h:312-327 | allocates, charges, fills; fails without effect |
| `BufferStore.Store.AllocateObjects` | velox/buffer/Buffer.h:600-623 | allocates raw slots and constructs objects up to the narrowed count; the new state is valid if and only if the request is refused or below 2^31 |
| `BufferStore.Store.Reallocate` | velox/buffer/Buffer.h:334-341 | a null handle is refused without effect |
| `BufferStore.Store.ReallocatePods` | velox/buffer/Buffer.h:347-413 | the new state is `ReallocatePod` of the old one and valid; a failure leaves the whole state as it was |
| `BufferStore.Store.GrowInPlace` | velox/buffer/Buffer.h:347-355 | a unique buffer with room grows without changing address |
| `BufferStore.Store.CopyToNew` | velox/buffer/Buffer.h:372-381 | a shared buffer is copied; the handle moves to the copy |
| `BufferStore.Store.ReallocateUnique` | velox/buffer/Buffer.h:382-413 | detaching and lowering the count around the pool call is undone when the pool throws: handle, count, size and content are as before |
| `BufferStore.Store.ReallocateObjects` | velox/buffer/Buffer.h:347-371 | the outcome and the new state are those of `ReallocateNonPod`; below 2^31 objects the call is defined and the state stays valid |
| `BufferStore.Store.AppendItems` | velox/buffer/Buffer.h:422-437 | the new state is `AppendTo` of the old one; a failure changes nothing |
| `BufferStore.Store.CopyBuffer` | velox/buffer/Buffer.h:439-457 | a new buffer with one handle that reads the same; non-PODs are refused |
| `BufferStore.Store.MakeView` | velox/buffer/Buffer.h:637-666 | a view takes one pin |
| `RefCount.RunKeeps` | velox/buffer/Buffer.h:63-80 | the protocol invariant holds in every interleaving of at most 2^32 handles at a time |
| `RefCount.CountIsHandles` | velox/buffer/Buffer.h:63-80 | in every interleaving the `int32_t` count is the number of live handles modulo 2^32, and it is that number exactly while there are fewer than 2^31 |
| `RefCount.HandlesKeepAlive` | velox/buffer/Buffer.h:63-80 | nothing is released or freed while a handle is live, with at most 2^32 at a time |
| `RefCount.LastDropReleases` | velox/buffer/Buffer.h:71-80 | in every interleaving a drop releases the buffer exactly when the number of handles is 1 modulo 2^32, which is right for the last handle and wrong exactly for larger such numbers |
| `RefCount.TooManyHandles` | velox/buffer/Buffer.h:63-80 | witness: of 2^32 + 1 handles the first one dropped releases the buffer under all others |
| `RefCount.ReleasedExactlyOnce` | velox/buffer/Buffer.h:71-80 | with at most 2^32 handles at a time: when nobody is left the memory was returned once and the resources were released once, unless the pool took the block over |
| `RefCount.NoUseAfterFree` | velox/buffer/Buffer.h:71-80 | with at most 2^32 handles at a time no agent that still has a step to take finds the memory freed |
| `RefCount.UniqueIsAlone` | velox/buffer/Buffer.h:130-132 | with at most 2^32 handles at a time: after `unique()` answered true, and inside the detached window of `reallocate`, no other agent can take any step until the holder acts |
| `RefCount.UniqueAnswers` | velox/buffer/Buffer.h:130-132 | `unique()` answers true exactly when no other handle is live, with at most 2^32 at a time |
| `RefCount.DetachedWindow` | velox/buffer/Buffer.h:382-401 | the only holder can ask and detach; putting the block back restores the state, and moving it away returns the memory without a release |
| `RefCount.CanFinish` | velox/buffer/Buffer.h:71-80 | every interleaving can be continued until nobody is left, the memory returned once and the resources released once unless the block moved |
| `BitBuffers.BytesCoverBits` | velox/common/base/BitUtil.h:94-108 | the bytes hold all n bits exactly when n + 7 fits an `int32_t` or narrows below -7 |
| `BitBuffers.NarrowingLosesBits` | velox/common/base/BitUtil.h:106-108 | witness: 2^32 bits get no bytes |
| `BitBuffers.AllocationShows` | velox/buffer/Buffer.h:515-523 | a new bit buffer shows the initial value in every bit |
| `BitBuffers.BitRunRefines` | velox/buffer/Buffer.h:526-535 | any sequence of resizes and bit writes refines a map of written bits: each bit reads as last written since its byte was cut off, else as the initial value |
| `BitBuffers.NeverWrittenReadsInit` | velox/buffer/Buffer.h:515-535 | a bit never written reads as the initial value after any run |
| `BitBuffers.StaleBitComesBack` | velox/buffer/Buffer.h:526-535 | of a fresh bit buffer that is written at one bit, shrunk and grown again, that bit reads as written exactly when its byte was not cut off, and else as the initial value |
| `StringArena.OwnKeepsViews` | velox/buffer/StringViewBufferHolder.cpp:23-38 | storing a string changes no earlier view and overlaps none |
| `StringArena.OwnedCarries` | velox/buffer/StringViewBufferHolder.cpp:23-45 | the returned view carries the string |
| `StringArena.OwnKeepsPacked` | velox/buffer/StringViewBufferHolder.cpp:26-32 | two neighbouring blocks hold more than one reservation together |
| `StringArena.PackedIsHalfFull` | velox/buffer/StringViewBufferHolder.h:79 | k neighbouring blocks, k at least two, hold more than k / 2 reservations |
| `StringArena.ViewsKeepReading` | velox/buffer/StringViewBufferHolder.cpp:23-45 | whatever is called after a view was returned, it reads its string exactly as long as somebody holds its block |
| `StringArena.ViewsNeverOverlap` | velox/buffer/StringViewBufferHolder.cpp:33-37 | no two views ever returned share a byte |
| `StringArena.BlocksAreHalfFull` | velox/buffer/StringViewBufferHolder.h:62-79 | in every run, between moves, the held blocks are more than half a reservation full on average |
| `StringArena.StringViewBufferHolder.GetOwnedBytes` | velox/buffer/StringViewBufferHolder.cpp:23-38 | the new arena and the view are `OwnBytes` of the old arena |
| `StringArena.StringViewBufferHolder.GetOwnedView` | velox/buffer/StringViewBufferHolder.cpp:40-45 | short views come back as they are, without touching the arena |
| `StringArena.StringViewBufferHolder.MoveBuffers` | velox/buffer/StringViewBufferHolder.h:62-66 | the caller gets every block the holder holds, none of them freed, the holder keeps none, and every view reads what it read before |
| `ScanTrackers.AtomicDeathIsSafe` | velox/connectors/Connector.cpp:95-123 | if a death and its callback are one step, every interleaving has at most one live tracker per id, shared by all its holders |
| `ScanTrackers.SafeUnlessExpiredFound` | velox/connectors/Connector.cpp:107-122 | with separate steps the same holds in every run in which no lookup finds an expired entry |
| `ScanTrackers.ExpiredEntryBreaksTheRun` | velox/connectors/Connector.cpp:115-120 | and only there: every run that reaches an expired entry continues to two live trackers of one id in three steps |
| `ScanTrackers.DyingEntryIsReachable` | velox/common/caching/ScanTracker.h:128-132 | such an entry is reached by getting a tracker and dropping the only handle |
| `ScanTrackers.KeysNeverDangle` | velox/connectors/Connector.cpp:95-117 | in every run, split or not, the tracker whose id a key views has not been destroyed, although a replacement keeps the key of its predecessor |
| `ScanTrackers.CanDrain` | velox/connectors/Connector.cpp:95-123 | every run, split or not, can be continued until all handles are gone, every tracker is destroyed and the registry is empty |
| `ScanTrackers.Registry.GetShared` | velox/connectors/Connector.cpp:104-123 | returns a live tracker of the id, and the registry changes as `GetTracker` says |
| `ScanTrackers.Registry.UnregisterTracker` | velox/connectors/Connector.cpp:99-102 | the callback of a dying tracker leaves the entries of other ids and no dangling key, and keeps one live tracker per id if there was one |
| `Signatures.StatsCountAll` | velox/core/SimpleFunctionMetadata.h:92-107 | the collected statistics are those counted over all type constructors of the signature: generics, variadics, variadics of generics, concrete types |
| `SignatureAnalysis.TypeAnalysisResults.Run` | velox/core/SimpleFunctionMetadata.h:198-306 | the in-place run adds the statistics, text and variables of the type, and raises exactly on a conflicting variable |
| `SignatureAnalysis.TypeAnalysisResults.RunVariadic` | velox/core/SimpleFunctionMetadata.h:243-263 | analysing into clean results and merging them comes to the same |
| `SignatureAnalysis.TypeAnalysisResults.AddVariable` | velox/core/SimpleFunctionMetadata.h:157-166 | a known variable must come with the same properties |
| `SignatureAnalysis.AddAllMerges` | velox/core/SimpleFunctionMetadata.h:243-263 | collecting into a clean map and merging succeeds and ends like collecting in place |
| `SignatureAnalysis.AddAllFailsOnConflict` | velox/core/SimpleFunctionMetadata.h:157-166 | collecting fails exactly when two uses of one variable differ, and else knows exactly the variables used |
| `SignatureAnalysis.AnalyzeSignature` | velox/core/SimpleFunctionMetadata.h:432-454 | the analysis of a signature raises exactly on a conflict, and else returns the text of each type, the variables used and the priority |
| `SignaturePriority.RankIsDefined` | velox/core/SimpleFunctionMetadata.h:128-149 | the checks of `getRank` never fail on an analysed signature, its end is unreachable, and each rank has its documented meaning |
| `SignaturePriority.SpecialisingLowersPriority` | velox/core/SimpleFunctionMetadata.h:151-154 | replacing any generic leaf by a more specific type lowers the priority, except exactly when the unsigned difference wraps for the new signature only |
| `SignaturePriority.RankDominates` | velox/core/SimpleFunctionMetadata.h:151-154 | below a million concrete types the rank decides |
| `SignaturePriority.ConcreteCountDecides` | velox/core/SimpleFunctionMetadata.h:120-127 | within a rank the signature with more concrete types comes first |
| `SignaturePriority.MillionArgumentsTie` | velox/core/SimpleFunctionMetadata.h:151-154 | witness: with a million concrete arguments a variadic signature has the priority of a function without arguments |
| `SignaturePriority.SpecialisingWraps` | velox/core/SimpleFunctionMetadata.h:151-154 | witness: beside a million concrete types, making the only generic concrete raises the priority from 2000000 to 2^32 - 1 |
| `DataGen.PlanCovers` | db-ml/baseline/load_data_to_db.py:369-387 | the arithmetic divides by zero exactly when one of the counts is zero; otherwise the ranges cover all rows with no more workers than cores |
| `DataGen.RoundedCeiling` | db-ml/baseline/load_data_to_db.py:371-387 | below 2^53 the ceiling of the rounded floating-point quotient is the exact ceiling, however the quotient is rounded within 2^-53 of it |
| `DataGen.GenerateDataToDisk` | db-ml/baseline/load_data_to_db.py:289-325 | one worker writes exactly the rows of its generations, cut at the total, in order |
| `DataGen.AppendKeeps` | db-ml/baseline/load_data_to_db.py:316-318 | a locked append puts each row of one generation in the file and no row twice |
| `DataGen.EveryRowOnce` | db-ml/baseline/load_data_to_db.py:399-417 | in every order of the locked appends the finished file holds every row number below the total exactly once |
| `DataGen.RunsCanFinish` | db-ml/baseline/load_data_to_db.py:399-417 | every run can be continued until all workers are done |
| `DataGen.TrailingWorkerIsIdle` | db-ml/baseline/load_data_to_db.py:385-387 | witness: five rows of 2^28 bytes on four cores give shares of two, and the last worker has nothing to do |

## Left out

- Substitution.RewriteSubstitutes: its condition `Safe` is sufficient only, because a rewrite outside it may still agree by accident, for instance where a function ignores the captured argument; the five counterexamples show that each part of the condition is needed.
- ExprEquality.EqImpliesSameHash: one direction only, because different expressions may have equal hashes; the two counterexamples, with base hashes of zero, show that each hypothesis is needed.
- ExprEquality.Eq: floating-point NaN inside constants is not modelled, so equality of values is an equivalence.
- Substitution.Eval: the evaluation rules are those the expression compiler applies to these classes (velox/expression/ExprCompiler.cpp:182-187, 492-493); a bare input row has no value, and null semantics of casts and calls are inside the function parameters.
- PlanRoundTrip.PlanRoundTrips: ArrowStream nodes have no serialized form, and the running counter of AssignUniqueId is not part of the plan.
- ExprSerde.Read: a vector that needs a pool and gets none counts as an error here, where the code passes a null pool on and dereferences it.
- PlanBuilders.UnnestOutput: running out of names is an error here, where the code indexes past the end.
- Buffers.CopyHandle: the count is unbounded in runs of the heap; that it wraps around is modelled in `RefCount` alone.
- StringArena.StringViewBufferHolder.GetOwnedBytes: for a string of any length, where the code takes its length as an `int32_t`; negative lengths are not modelled.
- BufferContents.ReallocatePodContents: in a release build; the debug fill of fresh memory and the end guards are not modelled.
- BufferStore.Store.ReallocatePods: a handle to a buffer of the other kind is excluded, as the debug check of the code does.
- SignaturePriority.SpecialisingLowersPriority: for signatures below 2^32 - 4000000 concrete types, beyond which the 64-bit difference wraps more than once.
- DataGen.PlanCovers: exact ceilings, where the code rounds a floating-point quotient, which makes no difference below 2^53 rows (`DataGen.RoundedCeiling`); the random values in the rows and the progress bar do not matter here.
- `ITypedExpr::equals`, which does not implement its documented meaning and has no callers among the modelled code.
- Vector, Base64, JSON and type formats, and connector handles: abstract inverse pairs.
- Plan details in the printer (`addDetails`), and `findFirstNode`.
- `ValidateVariadicArgs` and `buildSignature`, which only forward what the analysis found.
- Execution of plans, the cost model, configuration, the string writer, and all bindings.
