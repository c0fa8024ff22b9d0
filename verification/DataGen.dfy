/** Parallel data generation: the ranges handed to the workers and their locked appends to one
    file (db-ml/baseline/load_data_to_db.py:276-325, 369-414). */
module DataGen {
  import opened Types
  import opened Widths

  const GENERATION_SIZE: nat := 1 * 256 * 1024 * 1024

  // ----- ranges -----

  /** ceil(a / b). */
  function CeilDiv(a: nat, b: nat): (q: nat)
    requires b > 0
    ensures a > 0 ==> q > 0
  {
    if a == 0 then 0 else Quotient(a - 1, b) + 1
  }

  /** Division and multiplication: a is in one of the first g blocks of width w. */
  lemma {:induction false} InFirstBlocks(a: nat, g: nat, w: nat)
    requires w > 0
    ensures Quotient(a, w) < g <==> a < Product(g, w)
  {
    if g > 0 && a >= w {
      InFirstBlocks(a - w, g - 1, w);
    }
  }

  lemma {:induction false} CeilDivCovers(a: nat, b: nat)
    requires b > 0
    ensures a <= Product(CeilDiv(a, b), b)
  {
    if a > 0 {
      InFirstBlocks(a - 1, CeilDiv(a, b), b);
    }
  }

  // ----- floating-point ceilings -----

  /** Up to 2^53 a double is exact on integers. */
  const EXACT: nat := 0x20_0000_0000_0000

  function Ceiling(x: real): int {
    -((-x).Floor)
  }

  /** What rounding the quotient a / b to a double may give: at most 2^-53 of it is lost, and no
      integer is stepped over. */
  ghost predicate Rounded(a: nat, b: nat, q: real)
    requires b > 0
  {
    && (EXACT - 1) as real * (a as real) <= EXACT as real * (q * (b as real))
    && forall k: nat {:trigger Product(k, b)} :: a <= Product(k, b) ==> q <= k as real
  }

  lemma {:induction false} SmallError(x: real, y: real)
    requires x < EXACT as real && (EXACT - 1) as real * x <= EXACT as real * y
    ensures x - 1.0 < y
  {
  }

  lemma {:induction false} ScaleBoth(p: real, q: real, d: real)
    requires d > 0.0 && q <= p
    ensures q * d <= p * d
  {
  }

  lemma {:induction false} ProductAsReal(n: nat, w: nat)
    ensures Product(n, w) as real == (n as real) * (w as real)
  {
    if n > 0 {
      ProductAsReal(n - 1, w);
      assert n as real == (n - 1) as real + 1.0;
      assert (n as real) * (w as real) == ((n - 1) as real) * (w as real) + w as real;
    }
  }

  lemma {:induction false} Below(a: nat, b: nat)
    requires b > 0
    ensures (CeilDiv(a, b) - 1) as real * (b as real) <= a as real - 1.0
  {
    hide Product;
    var k := CeilDiv(a, b);
    if k > 0 {
      InFirstBlocks(a - 1, k - 1, b);
      ProductAsReal(k - 1, b);
    }
  }

  /** For fewer than 2^53 rows the rounding does not show: math.ceil() of the rounded quotient is
      the exact ceiling. */
  lemma {:induction false} RoundedCeiling(a: nat, b: nat, q: real)
    requires b > 0 && a < EXACT && Rounded(a, b, q)
    ensures Ceiling(q) == CeilDiv(a, b)
  {
    hide Product;
    var k: int, d: real := CeilDiv(a, b), b as real;
    var qd := q * d;
    assert q <= k as real by {
      CeilDivCovers(a, b);
    }
    assert a as real - 1.0 < qd by {
      SmallError(a as real, qd);
    }
    if q <= (k - 1) as real {
      ScaleBoth((k - 1) as real, q, d);
      Below(a, b);
      assert false;
    }
  }

  /** How the work is cut: rows per generation, generations in all, workers, and generations
      per worker. */
  datatype Plan = Plan(total: nat, rows: nat, generations: nat, workers: nat, share: nat)

  /** The arithmetic of load_ffnn_data_to_postgres(); None if it divides by zero. */
  function MakePlan(total: nat, features: nat, cores: nat): Option<Plan> {
    var tuple := Product(features, 4);
    if tuple == 0 then None
    else
      var rows := CeilDiv(GENERATION_SIZE, tuple);
      var generations := CeilDiv(total, rows);
      var workers := if cores <= generations then cores else generations;
      if workers == 0 then None else Some(Plan(total, rows, generations, workers, CeilDiv(generations, workers)))
  }

  /** Every row is in some worker's range. */
  predicate ValidPlan(p: Plan) {
    && p.rows > 0 && p.share > 0 && p.workers > 0
    && p.total <= Product(p.generations, p.rows) && p.generations <= Product(p.workers, p.share)
  }

  /** There is a plan exactly when all three numbers are positive, and then it covers all rows
      with no more workers than cores. */
  lemma {:induction false} PlanCovers(total: nat, features: nat, cores: nat)
    ensures var p := MakePlan(total, features, cores);
            && (p.Some? <==> total > 0 && features > 0 && cores > 0)
            && (p.Some? ==> ValidPlan(p.value) && p.value.total == total && p.value.workers <= cores)
  {
    if MakePlan(total, features, cores).Some? {
      var p := MakePlan(total, features, cores).value;
      CeilDivCovers(p.total, p.rows);
      CeilDivCovers(p.generations, p.workers);
      ProductIsTimes(p.share, p.workers);
      ProductIsTimes(p.workers, p.share);
    }
  }

  // ----- rows -----

  function Rows(from: nat, to: nat): seq<nat> {
    if from < to then Rows(from, to - 1) + [to - 1] else []
  }

  lemma {:induction false} RowsOnce(from: nat, to: nat, r: nat)
    ensures multiset(Rows(from, to))[r] == if from <= r < to then 1 else 0
  {
    if from < to {
      RowsOnce(from, to - 1, r);
    }
  }

  lemma {:induction false} RowsConcat(a: nat, b: nat, c: nat)
    requires a <= b <= c
    ensures Rows(a, c) == Rows(a, b) + Rows(b, c)
    decreases c - b
  {
    if b < c {
      RowsConcat(a, b, c - 1);
      assert Rows(a, c) == Rows(a, b) + (Rows(b, c - 1) + [c - 1]);
    }
  }

  function Min(a: nat, b: nat): nat {
    if a <= b then a else b
  }

  /** The rows of one generation, cut at the total. */
  function Generation(p: Plan, g: nat): seq<nat> {
    Rows(Product(g, p.rows), Min(Product(g + 1, p.rows), p.total))
  }

  lemma {:induction false} GenerationOnce(p: Plan, g: nat, r: nat)
    requires p.rows > 0
    ensures multiset(Generation(p, g))[r] == if r < p.total && Quotient(r, p.rows) == g then 1 else 0
  {
    RowsOnce(Product(g, p.rows), Min(Product(g + 1, p.rows), p.total), r);
    InFirstBlocks(r, g, p.rows);
    InFirstBlocks(r, g + 1, p.rows);
  }

  /** One worker on its own: the loop over its generations, which stops at the total. */
  method GenerateDataToDisk(start: nat, end: nat, rows: nat, total: nat) returns (written: seq<nat>)
    requires start <= end
    ensures written == Rows(Product(start, rows), Min(Product(end, rows), total))
  {
    written := [];
    var g := start;
    while g < end
      invariant start <= g <= end
      invariant written == Rows(Product(start, rows), Min(Product(g, rows), total))
    {
      var first := Product(g, rows);
      OffsetsGrow(start, g, rows);
      OffsetsGrow(g + 1, end, rows);
      if first >= total { return; }
      var last := Product(g + 1, rows);
      last := if last <= total then last else total;
      RowsConcat(Product(start, rows), first, last);
      written := written + Rows(first, last);
      g := g + 1;
    }
  }

  lemma {:induction false} OffsetsGrow(a: nat, b: nat, w: nat)
    requires a <= b
    ensures Product(a, w) <= Product(b, w)
    decreases b
  {
    if a < b {
      OffsetsGrow(a, b - 1, w);
    }
  }

  // ----- all workers -----

  /** The next generation of each worker, and the row numbers in the file so far. */
  datatype State = State(next: seq<nat>, file: seq<nat>)

  function First(p: Plan, i: nat): nat {
    Product(i, p.share)
  }

  function Start(p: Plan): State {
    State(seq(p.workers, i requires i >= 0 => First(p, i)), [])
  }

  /** A worker is done at the end of its range or at the first generation beyond the total. */
  predicate Done(p: Plan, s: State, i: nat)
    requires i < |s.next|
  {
    s.next[i] >= First(p, i + 1) || Product(s.next[i], p.rows) >= p.total
  }

  /** Worker i takes the lock and appends its next generation. */
  function Append(p: Plan, s: State, i: nat): Option<State> {
    if i >= |s.next| || Done(p, s, i) then None
    else Some(State(s.next[i := s.next[i] + 1], s.file + Generation(p, s.next[i])))
  }

  /** A schedule names the worker that gets the lock at each step. */
  function Run(p: Plan, s: State, schedule: seq<nat>): Option<State>
    decreases |schedule|
  {
    if schedule == [] then Some(s)
    else
      var r := Append(p, s, schedule[0]);
      if r.None? then None else Run(p, r.value, schedule[1..])
  }

  /** The worker whose range holds row r. */
  function WorkerOf(p: Plan, r: nat): nat
    requires ValidPlan(p)
  {
    Quotient(Quotient(r, p.rows), p.share)
  }

  /** Row r is in the file once its worker has passed its generation, and never twice. */
  predicate RowInv(p: Plan, s: State, r: nat)
    requires ValidPlan(p) && |s.next| == p.workers
  {
    multiset(s.file)[r] ==
      if r < p.total && WorkerOf(p, r) < p.workers && Quotient(r, p.rows) < s.next[WorkerOf(p, r)] then 1 else 0
  }

  ghost predicate Inv(p: Plan, s: State) {
    && ValidPlan(p) && |s.next| == p.workers
    && (forall i | 0 <= i < p.workers :: First(p, i) <= s.next[i] <= First(p, i + 1))
    && forall r: nat :: RowInv(p, s, r)
  }

  lemma {:induction false} StartKeeps(p: Plan)
    requires ValidPlan(p)
    ensures Inv(p, Start(p))
  {
    var s := Start(p);
    forall r: nat ensures RowInv(p, s, r) {
      InFirstBlocks(Quotient(r, p.rows), WorkerOf(p, r), p.share);
    }
    forall i | 0 <= i < p.workers ensures First(p, i) <= s.next[i] <= First(p, i + 1) {
      OffsetsGrow(i, i + 1, p.share);
    }
  }

  lemma {:induction false} AppendKeeps(p: Plan, s: State, i: nat)
    requires Inv(p, s) && Append(p, s, i).Some?
    ensures Inv(p, Append(p, s, i).value)
  {
    hide Product, Generation;
    var t, g := Append(p, s, i).value, s.next[i];
    InFirstBlocks(g, i, p.share);
    InFirstBlocks(g, i + 1, p.share);
    forall r: nat ensures RowInv(p, t, r) {
      assert RowInv(p, s, r);
      GenerationOnce(p, g, r);
      assert multiset(t.file)[r] == multiset(s.file)[r] + multiset(Generation(p, g))[r];
    }
  }

  lemma {:induction false} RunKeeps(p: Plan, s: State, schedule: seq<nat>)
    requires Inv(p, s) && Run(p, s, schedule).Some?
    ensures Inv(p, Run(p, s, schedule).value)
    decreases |schedule|
  {
    if schedule != [] {
      AppendKeeps(p, s, schedule[0]);
      RunKeeps(p, Append(p, s, schedule[0]).value, schedule[1..]);
    }
  }

  lemma {:induction false} DoneCovers(p: Plan, s: State, r: nat)
    requires Inv(p, s) && r < p.total && forall i | 0 <= i < p.workers :: Done(p, s, i)
    ensures multiset(s.file)[r] == 1
  {
    var g, i := Quotient(r, p.rows), WorkerOf(p, r);
    assert RowInv(p, s, r);
    InFirstBlocks(r, p.generations, p.rows);
    InFirstBlocks(g, p.workers, p.share);
    InFirstBlocks(g, i + 1, p.share);
    InFirstBlocks(r, s.next[i], p.rows);
    assert Done(p, s, i);
  }

  /** Whatever the order in which the workers get the lock, once all are done the file holds
      every row number below the total exactly once and no other. */
  lemma {:induction false} EveryRowOnce(total: nat, features: nat, cores: nat, schedule: seq<nat>, r: nat)
    requires MakePlan(total, features, cores).Some?
    requires var p := MakePlan(total, features, cores).value;
             && Run(p, Start(p), schedule).Some? && |Run(p, Start(p), schedule).value.next| == p.workers
             && forall i | 0 <= i < p.workers :: Done(p, Run(p, Start(p), schedule).value, i)
    ensures var p := MakePlan(total, features, cores).value;
            multiset(Run(p, Start(p), schedule).value.file)[r] == if r < total then 1 else 0
  {
    PlanCovers(total, features, cores);
    var p := MakePlan(total, features, cores).value;
    StartKeeps(p);
    RunKeeps(p, Start(p), schedule);
    var s := Run(p, Start(p), schedule).value;
    assert RowInv(p, s, r);
    if r < total {
      DoneCovers(p, s, r);
    }
  }

  // ----- every run can be finished -----

  lemma {:induction false} RunConcat(p: Plan, s: State, first: seq<nat>, more: seq<nat>)
    requires Run(p, s, first).Some?
    ensures Run(p, s, first + more) == Run(p, Run(p, s, first).value, more)
    decreases |first|
  {
    if first == [] {
      assert first + more == more;
    } else {
      assert (first + more)[0] == first[0] && (first + more)[1..] == first[1..] + more;
      RunConcat(p, Append(p, s, first[0]).value, first[1..], more);
    }
  }

  /** Worker i alone can work off its range; no worker becomes undone. */
  lemma {:induction false} WorkerFinishes(p: Plan, s: State, i: nat) returns (schedule: seq<nat>)
    requires i < |s.next|
    ensures var r := Run(p, s, schedule);
            && r.Some? && |r.value.next| == |s.next| && Done(p, r.value, i)
            && forall j | 0 <= j < |s.next| && j != i :: r.value.next[j] == s.next[j]
    decreases First(p, i + 1) - s.next[i]
  {
    if Done(p, s, i) {
      schedule := [];
    } else {
      var s' := Append(p, s, i).value;
      var rest := WorkerFinishes(p, s', i);
      schedule := [i] + rest;
      assert schedule[1..] == rest;
    }
  }

  lemma {:induction false} WorkersFinish(p: Plan, s: State, k: nat) returns (schedule: seq<nat>)
    requires k <= |s.next| && forall j | 0 <= j < k :: Done(p, s, j)
    ensures var r := Run(p, s, schedule);
            && r.Some? && |r.value.next| == |s.next| && forall j | 0 <= j < |s.next| :: Done(p, r.value, j)
    decreases |s.next| - k
  {
    if k == |s.next| {
      schedule := [];
    } else {
      var first := WorkerFinishes(p, s, k);
      var s' := Run(p, s, first).value;
      forall j | 0 <= j < k + 1 ensures Done(p, s', j) {
        if j < k { assert Done(p, s, j); }
      }
      var rest := WorkersFinish(p, s', k + 1);
      RunConcat(p, s, first, rest);
      schedule := first + rest;
    }
  }

  /** Every run can be continued until all workers are done, so none ever blocks the file. */
  lemma {:induction false} RunsCanFinish(p: Plan, schedule: seq<nat>) returns (more: seq<nat>)
    requires ValidPlan(p) && Run(p, Start(p), schedule).Some?
    ensures var r := Run(p, Start(p), schedule + more);
            r.Some? && |r.value.next| == p.workers && forall i | 0 <= i < p.workers :: Done(p, r.value, i)
  {
    StartKeeps(p);
    RunKeeps(p, Start(p), schedule);
    more := WorkersFinish(p, Run(p, Start(p), schedule).value, 0);
    RunConcat(p, Start(p), schedule, more);
  }

  /** Rounding up twice can leave trailing workers without work: five generations for four
      cores give shares of two, and the last worker starts beyond the end. */
  lemma {:induction false} TrailingWorkerIsIdle()
    ensures var p := MakePlan(5, 0x400_0000, 4);
            && p == Some(Plan(5, 1, 5, 4, 2))
            && Done(p.value, Start(p.value), 3)
  {
    ProductIsTimes(0x400_0000, 4);
    assert CeilDiv(GENERATION_SIZE, GENERATION_SIZE) == 1;
    WidthOne(4);
    WidthOne(6);
    assert CeilDiv(5, 1) == 5 && CeilDiv(5, 4) == 2;
    assert Product(3, 2) == 6 && Product(4, 2) == 8;
  }
}
