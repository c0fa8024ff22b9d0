/** How often each node is constructed when a plan is read back (velox/core/PlanNode.cpp). */
module PlanCost {
  import opened Types
  import opened Dynamic
  import opened Plans
  import opened PlanSerde
  import opened PlanRoundTrip

  function Pow2(n: nat): nat {
    if n == 0 then 1 else 2 * Pow2(n - 1)
  }

  /** The sources of a node and, for a table write, its statistics aggregation. */
  function Parts(p: Plan): (ps: seq<Plan>)
    ensures forall q <- ps :: q < p
  {
    p.sources + (if AggregationOf(p.op).None? then [] else [AggregationOf(p.op).value])
  }

  /** The node reached by following the given positions from the root. */
  function NodeAt(p: Plan, path: seq<nat>): Option<Plan>
    decreases path
  {
    if path == [] then Some(p)
    else if path[0] >= |Parts(p)| then None
    else NodeAt(Parts(p)[path[0]], path[1..])
  }

  /** The number of aggregations strictly above that node. */
  function AggregationsAbove(p: Plan, path: seq<nat>): nat
    decreases path
  {
    if path == [] || path[0] >= |Parts(p)| then 0
    else (if p.op.Aggregation? then 1 else 0) + AggregationsAbove(Parts(p)[path[0]], path[1..])
  }

  // ----- all nodes -----

  function Prefixed(i: nat, paths: seq<seq<nat>>): (r: seq<seq<nat>>)
    ensures |r| == |paths|
  {
    seq(|paths|, k requires 0 <= k < |paths| => [i] + paths[k])
  }

  /** The paths to all nodes, root first. */
  function Paths(p: Plan): seq<seq<nat>>
    decreases p, |Parts(p)| + 1
  {
    [[]] + PathsBelow(p, |Parts(p)|)
  }

  /** The paths through the first n parts. */
  function PathsBelow(p: Plan, n: nat): seq<seq<nat>>
    requires n <= |Parts(p)|
    decreases p, n
  {
    if n == 0 then [] else PathsBelow(p, n - 1) + Prefixed(n - 1, Paths(Parts(p)[n - 1]))
  }

  lemma {:induction false} PathsAreNodes(p: Plan, path: seq<nat>)
    ensures NodeAt(p, path).Some? <==> path in Paths(p)
    decreases p, |Parts(p)| + 1
  {
    if path != [] {
      PathsBelowAreNodes(p, |Parts(p)|, path);
    }
  }

  lemma {:induction false} PathsBelowAreNodes(p: Plan, n: nat, path: seq<nat>)
    requires n <= |Parts(p)| && path != []
    ensures path in PathsBelow(p, n) <==> path[0] < n && NodeAt(p, path).Some?
    decreases p, n
  {
    if n > 0 {
      PathsBelowAreNodes(p, n - 1, path);
      PathsAreNodes(Parts(p)[n - 1], path[1..]);
      InPrefixed(n - 1, Paths(Parts(p)[n - 1]), path);
    }
  }

  lemma {:induction false} InPrefixed(i: nat, paths: seq<seq<nat>>, path: seq<nat>)
    requires path != []
    ensures path in Prefixed(i, paths) <==> path[0] == i && path[1..] in paths
  {
    var r := Prefixed(i, paths);
    if path[0] == i && path[1..] in paths {
      var k :| 0 <= k < |paths| && paths[k] == path[1..];
      assert r[k] == [i] + path[1..] == path;
    }
    if path in r {
      var k :| 0 <= k < |r| && r[k] == path;
      assert path[1..] == paths[k];
    }
  }

  // ----- counting constructions -----

  /** How often the node at the end of the path is constructed, if x is its id. */
  function Weight(p: Plan, path: seq<nat>, x: string): nat {
    var q := NodeAt(p, path);
    if q.Some? && q.value.id == x then Pow2(AggregationsAbove(p, path)) else 0
  }

  function Total(p: Plan, paths: seq<seq<nat>>, x: string): nat {
    if paths == [] then 0 else Total(p, paths[..|paths| - 1], x) + Weight(p, paths[|paths| - 1], x)
  }

  /** An aggregation reads its source twice. */
  function Doubled(p: Plan, n: nat): nat {
    if p.op.Aggregation? then n + n else n
  }

  lemma {:induction false} TotalConcat(p: Plan, a: seq<seq<nat>>, b: seq<seq<nat>>, x: string)
    ensures Total(p, a + b, x) == Total(p, a, x) + Total(p, b, x)
  {
    if b == [] {
      assert a + b == a;
    } else {
      assert (a + b)[..|a + b| - 1] == a + b[..|b| - 1];
      TotalConcat(p, a, b[..|b| - 1], x);
    }
  }

  /** An aggregation doubles what happens below it. */
  lemma {:induction false} WeightBelow(p: Plan, i: nat, path: seq<nat>, x: string)
    requires i < |Parts(p)|
    ensures Weight(p, [i] + path, x) == Doubled(p, Weight(Parts(p)[i], path, x))
  {
    assert ([i] + path)[1..] == path;
  }

  lemma {:induction false} TotalPrefixed(p: Plan, i: nat, paths: seq<seq<nat>>, x: string)
    requires i < |Parts(p)|
    ensures Total(p, Prefixed(i, paths), x) == Doubled(p, Total(Parts(p)[i], paths, x))
  {
    if paths != [] {
      var n := |paths| - 1;
      assert Prefixed(i, paths)[..n] == Prefixed(i, paths[..n]);
      TotalPrefixed(p, i, paths[..n], x);
      WeightBelow(p, i, paths[n], x);
    }
  }

  /** The cost of the first n parts for one id. */
  function PartsCost(p: Plan, n: nat, x: string): nat
    requires n <= |Parts(p)|
  {
    if n == 0 then 0 else PartsCost(p, n - 1, x) + Cost(Parts(p)[n - 1])[x]
  }

  lemma {:induction false} SourcesCost(p: Plan, ms: seq<multiset<string>>, n: nat, x: string)
    requires n <= |ms| == |p.sources| && forall i | 0 <= i < |ms| :: ms[i] == Cost(p.sources[i])
    ensures PartsCost(p, n, x) == Sum(ms[..n])[x]
  {
    hide Cost;
    if n > 0 {
      SourcesCost(p, ms, n - 1, x);
      assert ms[..n][..n - 1] == ms[..n - 1];
      assert Parts(p)[n - 1] == p.sources[n - 1];
    }
  }

  lemma {:induction false} CostAt(p: Plan, x: string)
    ensures Cost(p)[x] == (if x == p.id then 1 else 0) + Doubled(p, PartsCost(p, |Parts(p)|, x))
  {
    hide Cost, BelowCost;
    CostParts(p);
    BelowCostAt(p, x);
  }

  lemma {:induction false} BelowCostAt(p: Plan, x: string)
    ensures BelowCost(p)[x] == PartsCost(p, |p.sources|, x)
  {
    hide SourceCosts;
    var ms := SourceCosts(p);
    SourcesCost(p, ms, |ms|, x);
    assert ms[..|ms|] == ms;
  }

  /** Reading constructs as many nodes of an id as its occurrences weigh, an occurrence below k
      aggregations weighing 2^k. */
  lemma {:induction false} CostIsTotal(p: Plan, x: string)
    ensures Cost(p)[x] == Total(p, Paths(p), x)
    decreases p, |Parts(p)| + 1
  {
    hide Cost;
    CostAt(p, x);
    TotalBelow(p, |Parts(p)|, x);
    var root: seq<seq<nat>> := [[]];
    TotalConcat(p, root, PathsBelow(p, |Parts(p)|), x);
    TotalOfOne(p, root, 0, x);
  }

  lemma {:induction false} TotalBelow(p: Plan, n: nat, x: string)
    requires n <= |Parts(p)|
    ensures Total(p, PathsBelow(p, n), x) == Doubled(p, PartsCost(p, n, x))
    decreases p, n
  {
    hide Cost;
    if n > 0 {
      var q := Parts(p)[n - 1];
      TotalBelow(p, n - 1, x);
      CostIsTotal(q, x);
      TotalPrefixed(p, n - 1, Paths(q), x);
      TotalConcat(p, PathsBelow(p, n - 1), Prefixed(n - 1, Paths(q)), x);
    }
  }

  // ----- distinct ids -----

  ghost predicate DistinctIds(p: Plan) {
    forall i, j | 0 <= i < j < |Paths(p)| && NodeAt(p, Paths(p)[i]).Some? && NodeAt(p, Paths(p)[j]).Some? ::
      NodeAt(p, Paths(p)[i]).value.id != NodeAt(p, Paths(p)[j]).value.id
  }

  lemma {:induction false} TotalOfOne(p: Plan, paths: seq<seq<nat>>, k: nat, x: string)
    requires k < |paths| && forall i | 0 <= i < |paths| && i != k :: Weight(p, paths[i], x) == 0
    ensures Total(p, paths, x) == Weight(p, paths[k], x)
  {
    var n := |paths| - 1;
    if k < n {
      TotalOfOne(p, paths[..n], k, x);
    } else {
      TotalOfNone(p, paths[..n], x);
    }
  }

  lemma {:induction false} TotalOfNone(p: Plan, paths: seq<seq<nat>>, x: string)
    requires forall i | 0 <= i < |paths| :: Weight(p, paths[i], x) == 0
    ensures Total(p, paths, x) == 0
  {
    if paths != [] {
      TotalOfNone(p, paths[..|paths| - 1], x);
    }
  }

  /** Where ids are distinct each node is constructed 2^k times, k being the number of
      aggregations above it. */
  lemma {:induction false} ConstructedPowerOfTwo(p: Plan, path: seq<nat>)
    requires DistinctIds(p) && NodeAt(p, path).Some?
    ensures Cost(p)[NodeAt(p, path).value.id] == Pow2(AggregationsAbove(p, path))
  {
    hide Cost, Paths;
    var paths, x := Paths(p), NodeAt(p, path).value.id;
    PathsAreNodes(p, path);
    var k :| 0 <= k < |paths| && paths[k] == path;
    CostIsTotal(p, x);
    TotalOfOne(p, paths, k, x);
  }

  /** As seen by a caller: reading back a written plan yields it, and constructs as many nodes
      of each id as its occurrences weigh. */
  lemma {:induction false} ReadingCost(c: Codec, p: Plan, pool: bool, x: string)
    requires ValidCodec(c) && Valid(p) && Readable(c, p, pool)
    ensures var r := Read(c, Write(c, p), pool);
            r.Some? && r.value.plan == p && r.value.ids[x] == Total(p, Paths(p), x)
  {
    hide ValidCodec, Valid, Readable, Write, Read, Cost;
    PlanRoundTrips(c, p, pool);
    CostIsTotal(p, x);
  }
}
