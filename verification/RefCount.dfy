/** The reference count of one buffer under all interleavings of its holders
    (velox/buffer/Buffer.h:63-80, 130-140, 347-401). */
module RefCount {
  import opened Types
  import opened Ints

  /** Where the owner of a BufferPtr variable stands. */
  datatype Agent =
    | Holder(sawUnique: bool) // a live handle; whether unique() returned true and no copy was made since
    | Releasing               // fetch_sub returned 1: about to call releaseResources()
    | Freeing                 // about to return the memory to the pool
    | Detached                // in reallocate(), between fetch_sub and the end of the pool's reallocate()
    | Gone

  /** The counter, which is an int32_t and wraps around, the agents, and how often the resources
      and the memory were given up. */
  datatype State = State(count: int, agents: seq<Agent>, released: nat, freed: nat, moved: bool)

  /** One atomic step of agent k. */
  datatype Step =
    | CopyHandle(k: nat)
    | DropHandle(k: nat)
    | AskUnique(k: nat)
    | Detach(k: nat)
    | PutBack(k: nat)  // the pool failed or kept the address
    | MoveAway(k: nat) // the pool moved the block and freed the old one
    | Release(k: nat)
    | Free(k: nat)

  /** The atomic operations act on the counter alone and wrap around; an agent takes only its own steps. */
  function Next(s: State, step: Step): Option<State> {
    if step.k >= |s.agents| then None
    else
      var k, agent := step.k, s.agents[step.k];
      match step
      case CopyHandle(_) =>
        if agent.Holder? then
          Some(s.(count := Signed(s.count + 1), agents := s.agents[k := Holder(false)] + [Holder(false)]))
        else None
      case DropHandle(_) =>
        if agent.Holder? then
          Some(s.(count := Signed(s.count - 1), agents := s.agents[k := if s.count == 1 then Releasing else Gone]))
        else None
      case AskUnique(_) =>
        if agent.Holder? then Some(s.(agents := s.agents[k := Holder(agent.sawUnique || s.count == 1)])) else None
      case Detach(_) =>
        if agent != Holder(true) then None
        else Some(s.(count := Signed(s.count - 1), agents := s.agents[k := Detached]))
      case PutBack(_) =>
        if agent.Detached? then Some(s.(count := Signed(s.count + 1), agents := s.agents[k := Holder(false)])) else None
      case MoveAway(_) =>
        if agent.Detached? then Some(s.(freed := s.freed + 1, moved := true, agents := s.agents[k := Gone])) else None
      case Release(_) =>
        if agent.Releasing? then Some(s.(released := s.released + 1, agents := s.agents[k := Freeing])) else None
      case Free(_) =>
        if agent.Freeing? then Some(s.(freed := s.freed + 1, agents := s.agents[k := Gone])) else None
  }

  /** A new buffer with the handle that allocate() returns. */
  const START := State(1, [Holder(false)], 0, 0, false)

  function Run(s: State, steps: seq<Step>): Option<State>
    decreases |steps|
  {
    if steps == [] then Some(s)
    else
      var t := Next(s, steps[0]);
      if t.None? then None else Run(t.value, steps[1..])
  }

  // ----- the invariant -----

  function Handles(agents: seq<Agent>): nat {
    if agents == [] then 0
    else Handles(agents[..|agents| - 1]) + (if agents[|agents| - 1].Holder? then 1 else 0)
  }

  /** The agents responsible for the memory after the last handle is gone. */
  function Owners(agents: seq<Agent>): nat {
    if agents == [] then 0
    else Owners(agents[..|agents| - 1]) + (if Owner(agents[|agents| - 1]) then 1 else 0)
  }

  predicate Owner(a: Agent) {
    a.Releasing? || a.Freeing? || a.Detached?
  }

  lemma {:induction false} HandlesUpdate(agents: seq<Agent>, k: nat, a: Agent)
    requires k < |agents|
    ensures Handles(agents[k := a])
        == Handles(agents) - (if agents[k].Holder? then 1 else 0) + (if a.Holder? then 1 else 0)
    ensures Owners(agents[k := a]) == Owners(agents) - (if Owner(agents[k]) then 1 else 0) + (if Owner(a) then 1 else 0)
  {
    var n := |agents| - 1;
    if k < n {
      HandlesUpdate(agents[..n], k, a);
      assert agents[k := a][..n] == agents[..n][k := a];
    } else {
      assert agents[k := a][..n] == agents[..n];
    }
  }

  lemma {:induction false} HandlesAppend(agents: seq<Agent>, a: Agent)
    ensures Handles(agents + [a]) == Handles(agents) + (if a.Holder? then 1 else 0)
    ensures Owners(agents + [a]) == Owners(agents) + (if Owner(a) then 1 else 0)
  {
    assert (agents + [a])[..|agents|] == agents;
  }

  /** What an agent's position says about the shared state. */
  predicate Consistent(s: State, a: Agent) {
    && (a == Holder(true) ==> Handles(s.agents) == 1)
    && (a.Freeing? ==> s.released == 1)
    && (a.Releasing? || a.Detached? ==> s.released == 0)
  }

  /** The count is the number of live handles, as far as an int32_t can tell. */
  predicate Counts(s: State) {
    s.count == Signed(Handles(s.agents))
  }

  /** There are handles, or one owner, or the memory is freed; the resources are released once
      unless the block moved away. */
  predicate Inv(s: State) {
    && Counts(s)
    && (if Handles(s.agents) > 0 then Owners(s.agents) == 0 && s.freed == 0 && s.released == 0
        else Owners(s.agents) + s.freed == 1)
    && (s.freed == 1 ==> s.released == if s.moved then 0 else 1)
    && (s.freed == 0 ==> !s.moved)
    && forall k | 0 <= k < |s.agents| :: Consistent(s, s.agents[k])
  }

  lemma {:induction false} Present(agents: seq<Agent>, k: nat)
    requires k < |agents|
    ensures agents[k].Holder? ==> Handles(agents) >= 1
    ensures Owner(agents[k]) ==> Owners(agents) >= 1
  {
    HandlesUpdate(agents, k, Gone);
  }

  /** Two holders count twice, two owners count twice. */
  lemma {:induction false} PresentTwice(agents: seq<Agent>, j: nat, k: nat)
    requires j < |agents| && k < |agents| && j != k
    ensures agents[j].Holder? && agents[k].Holder? ==> Handles(agents) >= 2
    ensures Owner(agents[j]) && Owner(agents[k]) ==> Owners(agents) >= 2
  {
    HandlesUpdate(agents, k, Gone);
    Present(agents[k := Gone], j);
  }

  lemma {:induction false} StepCounts(s: State, step: Step)
    requires Counts(s) && Next(s, step).Some?
    ensures Counts(Next(s, step).value)
  {
    hide Handles, Signed;
    var k, t := step.k, Next(s, step).value;
    SignedStep(Handles(s.agents));
    HandlesUpdate(s.agents, k, t.agents[k]);
    if step.CopyHandle? {
      HandlesAppend(s.agents[k := Holder(false)], Holder(false));
    }
  }

  /** Up to 2^32 handles the counter tells a single handle from more. */
  lemma {:induction false} OneMeansOne(n: nat)
    requires n <= INT_RANGE
    ensures Signed(n) == 1 <==> n == 1
  {
  }

  lemma {:induction false} StepKeeps(s: State, step: Step)
    requires Inv(s) && Handles(s.agents) <= INT_RANGE && Next(s, step).Some?
    ensures Inv(Next(s, step).value)
  {
    hide Handles, Owners, Signed;
    var k, t := step.k, Next(s, step).value;
    StepCounts(s, step);
    OneMeansOne(Handles(s.agents));
    HandlesUpdate(s.agents, k, t.agents[k]);
    Present(s.agents, k);
    if step.CopyHandle? {
      HandlesAppend(s.agents[k := Holder(false)], Holder(false));
    }
    forall j | 0 <= j < |t.agents| ensures Consistent(t, t.agents[j]) {
      if j < |s.agents| && j != k {
        PresentTwice(s.agents, j, k);
        Present(s.agents, j);
        assert Consistent(s, s.agents[j]);
      }
    }
  }

  /** The run never has more than 2^32 handles at once. */
  predicate Bounded(s: State, steps: seq<Step>)
    decreases |steps|
  {
    && Handles(s.agents) <= INT_RANGE
    && (steps != [] && Next(s, steps[0]).Some? ==> Bounded(Next(s, steps[0]).value, steps[1..]))
  }

  /** Every interleaving of up to 2^32 handles keeps the invariant. */
  lemma {:induction false} RunKeeps(s: State, steps: seq<Step>)
    requires Inv(s) && Run(s, steps).Some? && Bounded(s, steps)
    ensures Inv(Run(s, steps).value) && Handles(Run(s, steps).value.agents) <= INT_RANGE
    decreases |steps|
  {
    hide Inv, Next;
    if steps != [] {
      StepKeeps(s, steps[0]);
      RunKeeps(Next(s, steps[0]).value, steps[1..]);
    }
  }

  lemma {:induction false} RunCounts(s: State, steps: seq<Step>)
    requires Counts(s) && Run(s, steps).Some?
    ensures Counts(Run(s, steps).value)
    decreases |steps|
  {
    hide Counts, Next;
    if steps != [] {
      StepCounts(s, steps[0]);
      RunCounts(Next(s, steps[0]).value, steps[1..]);
    }
  }

  lemma {:induction false} StartIsValid()
    ensures Inv(START)
  {
    assert START.agents[..0] == [];
  }

  // ----- what it means -----

  /** In every interleaving the count is the number of live handles modulo 2^32, and it is that
      number itself while there are fewer than 2^31. */
  lemma {:induction false} CountIsHandles(steps: seq<Step>)
    requires Run(START, steps).Some?
    ensures var s := Run(START, steps).value;
            && s.count == Signed(Handles(s.agents))
            && (s.count == Handles(s.agents) <==> Handles(s.agents) < INT_LIMIT)
  {
    StartIsValid();
    RunCounts(START, steps);
  }

  /** While a handle is live nothing has been released or freed. */
  lemma {:induction false} HandlesKeepAlive(steps: seq<Step>, k: nat)
    requires Run(START, steps).Some? && Bounded(START, steps)
    ensures var s := Run(START, steps).value;
            k < |s.agents| && s.agents[k].Holder? ==> s.released == 0 && s.freed == 0
  {
    StartIsValid();
    RunKeeps(START, steps);
    var s := Run(START, steps).value;
    if k < |s.agents| {
      Present(s.agents, k);
    }
  }

  /** No use after free: an agent that still works on the buffer finds its memory. */
  lemma {:induction false} NoUseAfterFree(steps: seq<Step>, k: nat)
    requires Run(START, steps).Some? && Bounded(START, steps) && k < |Run(START, steps).value.agents|
    ensures !Run(START, steps).value.agents[k].Gone? ==> Run(START, steps).value.freed == 0
  {
    StartIsValid();
    RunKeeps(START, steps);
    Present(Run(START, steps).value.agents, k);
  }

  /** When nobody is left, the memory was returned exactly once, and the resources were
      released exactly once unless the pool's reallocate() took the block over. */
  lemma {:induction false} ReleasedExactlyOnce(steps: seq<Step>)
    requires Run(START, steps).Some? && Bounded(START, steps)
    requires forall k | 0 <= k < |Run(START, steps).value.agents| :: Run(START, steps).value.agents[k].Gone?
    ensures var s := Run(START, steps).value; s.freed == 1 && s.released == if s.moved then 0 else 1
  {
    StartIsValid();
    RunKeeps(START, steps);
    AllGone(Run(START, steps).value.agents);
  }

  lemma {:induction false} AllGone(agents: seq<Agent>)
    requires forall k | 0 <= k < |agents| :: agents[k].Gone?
    ensures Handles(agents) == 0 && Owners(agents) == 0
  {
    if agents != [] {
      AllGone(agents[..|agents| - 1]);
    }
  }

  /** The agent that saw unique() is alone: until it acts itself, no agent can take any step, so
      writing in place and the detached window of reallocate() are undisturbed. */
  lemma {:induction false} UniqueIsAlone(steps: seq<Step>, k: nat, step: Step)
    requires Run(START, steps).Some? && Bounded(START, steps)
    requires var s := Run(START, steps).value;
             k < |s.agents| && (s.agents[k] == Holder(true) || s.agents[k].Detached?)
    requires Next(Run(START, steps).value, step).Some?
    ensures step.k == k
  {
    StartIsValid();
    RunKeeps(START, steps);
    var s := Run(START, steps).value;
    assert Consistent(s, s.agents[k]);
    Present(s.agents, k);
    if step.k != k {
      Present(s.agents, step.k);
      PresentTwice(s.agents, k, step.k);
    }
  }

  lemma {:induction false} LastHandle(agents: seq<Agent>, k: nat)
    requires k < |agents| && agents[k].Holder?
    ensures Handles(agents) == 1 <==> forall j | 0 <= j < |agents| && j != k :: !agents[j].Holder?
  {
    Present(agents, k);
    if Handles(agents) == 1 {
      forall j | 0 <= j < |agents| && j != k ensures !agents[j].Holder? {
        PresentTwice(agents, j, k);
      }
    } else {
      HandlesUpdate(agents, k, Gone);
      SomeHandle(agents[k := Gone]);
    }
  }

  /** In every interleaving, dropping a handle releases the buffer exactly when the number of
      handles is 1 modulo 2^32. That is the last handle, and only the last one, exactly when
      there is one handle or the number is not 1 modulo 2^32. */
  lemma {:induction false} LastDropReleases(steps: seq<Step>, k: nat)
    requires Run(START, steps).Some? && Next(Run(START, steps).value, DropHandle(k)).Some?
    ensures var s := Run(START, steps).value;
            var releases := Next(s, DropHandle(k)).value.agents[k].Releasing?;
            var last := forall j | 0 <= j < |s.agents| && j != k :: !s.agents[j].Holder?;
            && (releases <==> Handles(s.agents) % INT_RANGE == 1)
            && ((releases <==> last) <==> (Handles(s.agents) == 1 || Handles(s.agents) % INT_RANGE != 1))
  {
    CountIsHandles(steps);
    hide Run, Handles;
    LastHandle(Run(START, steps).value.agents, k);
  }

  lemma {:induction false} SomeHandle(agents: seq<Agent>)
    requires Handles(agents) > 0
    ensures exists j | 0 <= j < |agents| :: agents[j].Holder?
  {
    var n := |agents| - 1;
    if !agents[n].Holder? {
      SomeHandle(agents[..n]);
      var j :| 0 <= j < n && agents[..n][j].Holder?;
      assert agents[j].Holder?;
    }
  }

  /** unique() answers true exactly when no other handle is live. */
  lemma {:induction false} UniqueAnswers(steps: seq<Step>, k: nat)
    requires Run(START, steps).Some? && Bounded(START, steps) && Next(Run(START, steps).value, AskUnique(k)).Some?
    ensures var s := Run(START, steps).value;
            Next(s, AskUnique(k)).value.agents[k] == Holder(true) <==>
            forall j | 0 <= j < |s.agents| && j != k :: !s.agents[j].Holder?
  {
    StartIsValid();
    RunKeeps(START, steps);
    var s := Run(START, steps).value;
    hide Run, Handles;
    assert Consistent(s, s.agents[k]);
    LastHandle(s.agents, k);
    OneMeansOne(Handles(s.agents));
  }

  /** The only holder may ask, and detach when told that it is unique. If the pool keeps the
      block in place the state is as before; if it moves it, the memory is returned without a
      release. */
  lemma {:induction false} DetachedWindow(steps: seq<Step>, k: nat)
    requires Run(START, steps).Some? && Bounded(START, steps)
    requires var s := Run(START, steps).value;
             k < |s.agents| && s.agents[k].Holder? && forall j | 0 <= j < |s.agents| && j != k :: !s.agents[j].Holder?
    ensures var s := Run(START, steps).value;
            var asked := Next(s, AskUnique(k));
            && asked.Some? && Next(asked.value, Detach(k)).Some?
            && var detached := Next(asked.value, Detach(k)).value;
               && detached.agents[k].Detached?
               && Next(detached, PutBack(k)) == Some(s.(agents := s.agents[k := Holder(false)]))
               && Next(detached, MoveAway(k))
                  == Some(State(0, s.agents[k := Gone], 0, 1, true))
  {
    UniqueAnswers(steps, k);
    StartIsValid();
    RunKeeps(START, steps);
    var s := Run(START, steps).value;
    hide Run, Handles, Owners;
    LastHandle(s.agents, k);
    var t := Next(Next(s, AskUnique(k)).value, Detach(k)).value;
    assert s.agents[k := Holder(true)][k := Detached] == s.agents[k := Detached];
    assert s.agents[k := Detached][k := Holder(false)] == s.agents[k := Holder(false)];
    assert s.agents[k := Detached][k := Gone] == s.agents[k := Gone];
  }

  // ----- every run can be finished -----

  /** How far an agent is from being gone. */
  function Rank(a: Agent): nat {
    match a
    case Gone => 0
    case Freeing => 1
    case Releasing => 2
    case Holder(_) => 3
    case Detached => 4
  }

  /** A step that agent k can always take on its way out. */
  function Leave(a: Agent, k: nat): Step {
    match a
    case Holder(_) => DropHandle(k)
    case Releasing => Release(k)
    case Detached => PutBack(k)
    case _ => Free(k)
  }

  lemma {:induction false} LeaveWorks(s: State, k: nat)
    requires Inv(s) && Handles(s.agents) <= INT_RANGE && k < |s.agents| && !s.agents[k].Gone?
    ensures var r := Next(s, Leave(s.agents[k], k));
            && r.Some? && Inv(r.value) && Handles(r.value.agents) <= INT_RANGE
            && |r.value.agents| == |s.agents| && Rank(r.value.agents[k]) < Rank(s.agents[k])
            && forall j | 0 <= j < |s.agents| && j != k :: r.value.agents[j] == s.agents[j]
  {
    StepKeeps(s, Leave(s.agents[k], k));
    Present(s.agents, k);
    HandlesUpdate(s.agents, k, Next(s, Leave(s.agents[k], k)).value.agents[k]);
  }

  lemma {:induction false} Finish(s: State, n: nat) returns (more: seq<Step>)
    requires Inv(s) && Handles(s.agents) <= INT_RANGE && n <= |s.agents|
    requires forall k | 0 <= k < n :: s.agents[k].Gone?
    ensures Run(s, more).Some? && Bounded(s, more)
    ensures var t := Run(s, more).value; forall k | 0 <= k < |t.agents| :: t.agents[k].Gone?
    decreases |s.agents| - n, if n < |s.agents| then Rank(s.agents[n]) else 0
  {
    hide Inv, Next, Handles;
    if n == |s.agents| {
      more := [];
    } else if s.agents[n].Gone? {
      more := Finish(s, n + 1);
    } else {
      LeaveWorks(s, n);
      var step := Leave(s.agents[n], n);
      var rest := Finish(Next(s, step).value, n);
      more := [step] + rest;
      assert more[1..] == rest;
    }
  }

  lemma {:induction false} RunConcat(s: State, first: seq<Step>, more: seq<Step>)
    requires Run(s, first).Some? && Run(Run(s, first).value, more).Some?
    requires Bounded(s, first) && Bounded(Run(s, first).value, more)
    ensures Run(s, first + more) == Run(Run(s, first).value, more) && Bounded(s, first + more)
    decreases |first|
  {
    hide Next, Handles;
    if first == [] {
      assert first + more == more;
    } else {
      assert (first + more)[0] == first[0] && (first + more)[1..] == first[1..] + more;
      RunConcat(Next(s, first[0]).value, first[1..], more);
    }
  }

  /** No interleaving gets stuck: every run can be continued until nobody is left, and then the
      memory has been returned once and the resources released once unless the block moved. */
  lemma {:induction false} CanFinish(steps: seq<Step>) returns (more: seq<Step>)
    requires Run(START, steps).Some? && Bounded(START, steps)
    ensures Run(START, steps + more).Some? && Bounded(START, steps + more)
    ensures var s := Run(START, steps + more).value;
            && (forall k | 0 <= k < |s.agents| :: s.agents[k].Gone?)
            && s.freed == 1 && s.released == if s.moved then 0 else 1
  {
    StartIsValid();
    RunKeeps(START, steps);
    more := Finish(Run(START, steps).value, 0);
    RunConcat(START, steps, more);
    ReleasedExactlyOnce(steps + more);
  }

  // ----- more than 2^32 handles -----

  function Holders(n: nat): seq<Agent> {
    seq(n, _ => Holder(false))
  }

  lemma {:induction false} HoldersCount(n: nat)
    ensures Handles(Holders(n)) == n
  {
    if n > 0 {
      HoldersCount(n - 1);
      assert Holders(n)[..n - 1] == Holders(n - 1);
    }
  }

  function Copies(n: nat): seq<Step> {
    seq(n, _ => CopyHandle(0))
  }

  lemma {:induction false} CopiesRun(n: nat, m: nat)
    requires m > 0
    ensures Run(State(Signed(m), Holders(m), 0, 0, false), Copies(n))
            == Some(State(Signed(m + n), Holders(m + n), 0, 0, false))
    decreases n
  {
    hide Signed;
    var s := State(Signed(m), Holders(m), 0, 0, false);
    if n > 0 {
      SignedStep(m);
      assert Holders(m)[0 := Holder(false)] + [Holder(false)] == Holders(m + 1);
      assert Copies(n)[0] == CopyHandle(0) && Copies(n)[1..] == Copies(n - 1);
      CopiesRun(n - 1, m + 1);
    }
  }

  /** The bound is needed: with 2^32 + 1 handles the first one dropped is taken for the last and
      releases the buffer under all the others. */
  lemma {:induction false} TooManyHandles()
    ensures var r := Run(START, Copies(INT_RANGE));
            && r.Some? && Handles(r.value.agents) == INT_RANGE + 1
            && var t := Next(r.value, DropHandle(0));
               t.Some? && t.value.agents[0].Releasing? && Handles(t.value.agents) == INT_RANGE
  {
    assert Signed(1) == 1 && Holders(1) == [Holder(false)];
    CopiesRun(INT_RANGE, 1);
    HoldersCount(INT_RANGE + 1);
    assert Signed(INT_RANGE + 1) == 1;
    HandlesUpdate(Holders(INT_RANGE + 1), 0, Releasing);
  }
}
