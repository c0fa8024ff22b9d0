/** The registry of scan trackers: weak pointers erased by a callback of the destructor
    (velox/connectors/Connector.cpp:95-123, velox/common/caching/ScanTracker.h:128-132). */
module ScanTrackers {
  import opened Types
  import Buffers

  /** Dying: the last shared_ptr is gone but the destructor has not yet unregistered. */
  datatype Phase = Live | Dying | Dead

  datatype Tracker = Tracker(id: string, strong: nat, phase: Phase)

  /** A registry entry: the tracker that owns the characters of the key, which is a
      string_view, and the tracker that the weak pointer refers to. */
  datatype Entry = Entry(owner: nat, target: nat)

  /** Trackers by address, the registry, and the shared_ptrs held by threads. */
  datatype State = State(trackers: seq<Tracker>, registry: map<string, Entry>, handles: seq<Option<nat>>)

  const START := State([], map[], [])

  datatype Step = Get(id: string) | Copy(i: nat) | Drop(i: nat) | Callback(t: nat)

  // ----- the steps -----

  /** trackers[t->id()] = t: an existing entry keeps its key, a new one takes that of t. */
  function Registered(registry: map<string, Entry>, id: string, t: nat): map<string, Entry> {
    registry[id := Entry(if id in registry then registry[id].owner else t, t)]
  }

  function Create(s: State, id: string): State {
    var t := |s.trackers|;
    State(s.trackers + [Tracker(id, 1, Live)], Registered(s.registry, id, t), s.handles + [Some(t)])
  }

  function Share(s: State, t: nat): State
    requires t < |s.trackers|
  {
    s.(trackers := s.trackers[t := s.trackers[t].(strong := s.trackers[t].strong + 1)],
       handles := s.handles + [Some(t)])
  }

  /** weak_ptr::lock() succeeds. */
  predicate Lockable(s: State, id: string) {
    id in s.registry && s.registry[id].target < |s.trackers| && s.trackers[s.registry[id].target].phase.Live?
  }

  /** weak_ptr::lock() fails on a registered tracker. */
  predicate Expired(s: State, id: string) {
    id in s.registry && !Lockable(s, id)
  }

  /** getTracker(), which runs under the write lock. */
  function GetTracker(s: State, id: string): State {
    if Lockable(s, id) then Share(s, s.registry[id].target) else Create(s, id)
  }

  /** unregisterTracker(), which erases whatever is registered under the id. */
  function Unregister(s: State, t: nat): State
    requires t < |s.trackers|
  {
    s.(registry := s.registry - {s.trackers[t].id}, trackers := s.trackers[t := s.trackers[t].(phase := Dead)])
  }

  function Let(s: State, i: nat): State
    requires i < |s.handles| && s.handles[i].Some? && s.handles[i].value < |s.trackers|
    requires s.trackers[s.handles[i].value].strong > 0
  {
    var t := s.handles[i].value;
    var tracker := s.trackers[t];
    s.(handles := s.handles[i := None],
       trackers := s.trackers[t :=
           Tracker(tracker.id, tracker.strong - 1, if tracker.strong == 1 then Dying else tracker.phase)])
  }

  predicate Holds(s: State, i: nat) {
    && i < |s.handles| && s.handles[i].Some? && s.handles[i].value < |s.trackers|
    && s.trackers[s.handles[i].value].strong > 0
  }

  /** One step. When atomic, the death of a tracker and its callback are one step. */
  function Next(s: State, step: Step, atomic: bool): Option<State> {
    match step
    case Get(id) => Some(GetTracker(s, id))
    case Copy(i) => if Holds(s, i) then Some(Share(s, s.handles[i].value)) else None
    case Drop(i) =>
      if Holds(s, i) then
        var t, r := s.handles[i].value, Let(s, i);
        Some(if atomic && r.trackers[t].phase.Dying? then Unregister(r, t) else r)
      else None
    case Callback(t) => if t < |s.trackers| && s.trackers[t].phase.Dying? then Some(Unregister(s, t)) else None
  }

  function Run(s: State, steps: seq<Step>, atomic: bool): Option<State>
    decreases |steps|
  {
    if steps == [] then Some(s)
    else
      var r := Next(s, steps[0], atomic);
      if r.None? then None else Run(r.value, steps[1..], atomic)
  }

  // ----- the promise -----

  /** All live trackers of one id are the same tracker. */
  ghost predicate OnePerId(s: State) {
    forall t, u | 0 <= t < |s.trackers| && 0 <= u < |s.trackers| && s.trackers[t].phase.Live?
        && s.trackers[u].phase.Live? ::
      s.trackers[t].id == s.trackers[u].id ==> t == u
  }

  /** All holders of one id share one live tracker. */
  ghost predicate HoldersShare(s: State) {
    forall i: nat, j: nat | Holds(s, i) && Holds(s, j) ::
      && s.trackers[s.handles[i].value].phase.Live?
      && (s.trackers[s.handles[i].value].id == s.trackers[s.handles[j].value].id ==> s.handles[i] == s.handles[j])
  }

  // ----- what holds in every run -----

  /** A tracker is live exactly while it has handles. */
  predicate Counted(s: State, t: nat)
    requires t < |s.trackers|
  {
    s.trackers[t].strong == Buffers.Count(s.handles, t) && (s.trackers[t].phase.Live? <==> s.trackers[t].strong > 0)
  }

  /** Address t is a tracker of this id whose destructor has not finished. */
  predicate Standing(s: State, t: nat, id: string) {
    t < |s.trackers| && s.trackers[t].id == id && !s.trackers[t].phase.Dead?
  }

  /** Neither the key of an entry nor its weak pointer belongs to a tracker that is gone. */
  predicate Sound(s: State) {
    && (forall i | 0 <= i < |s.handles| :: s.handles[i].Some? ==> s.handles[i].value < |s.trackers|)
    && (forall t | 0 <= t < |s.trackers| :: Counted(s, t))
    && (forall id | id in s.registry :: Standing(s, s.registry[id].owner, id) && Standing(s, s.registry[id].target, id))
  }

  lemma {:induction false} Uncounted(handles: seq<Option<nat>>, t: nat)
    requires forall i | 0 <= i < |handles| :: handles[i] != Some(t)
    ensures Buffers.Count(handles, t) == 0
  {
    if handles != [] {
      Uncounted(handles[..|handles| - 1], t);
    }
  }

  lemma {:induction false} CreateIsSound(s: State, id: string)
    requires Sound(s)
    ensures Sound(Create(s, id))
  {
    var r := Create(s, id);
    forall t | 0 <= t < |r.trackers| ensures Counted(r, t) {
      Buffers.CountAppend(s.handles, Some(|s.trackers|), t);
      if t < |s.trackers| {
        assert Counted(s, t);
      } else {
        Uncounted(s.handles, t);
      }
    }
  }

  lemma {:induction false} ShareIsSound(s: State, t: nat)
    requires Sound(s) && t < |s.trackers| && s.trackers[t].strong > 0
    ensures Sound(Share(s, t))
  {
    var r := Share(s, t);
    forall u | 0 <= u < |r.trackers| ensures Counted(r, u) {
      Buffers.CountAppend(s.handles, Some(t), u);
      assert Counted(s, u);
    }
  }

  lemma {:induction false} LetIsSound(s: State, i: nat)
    requires Sound(s) && Holds(s, i)
    ensures Sound(Let(s, i))
  {
    var r := Let(s, i);
    forall u | 0 <= u < |r.trackers| ensures Counted(r, u) {
      Buffers.CountUpdate(s.handles, i, None, u);
      assert Counted(s, u);
    }
  }

  lemma {:induction false} UnregisterIsSound(s: State, t: nat)
    requires Sound(s) && t < |s.trackers| && s.trackers[t].phase.Dying?
    ensures Sound(Unregister(s, t))
  {
    var r := Unregister(s, t);
    forall u | 0 <= u < |r.trackers| ensures Counted(r, u) {
      assert Counted(s, u);
    }
  }

  lemma {:induction false} StepIsSound(s: State, step: Step, atomic: bool)
    requires Sound(s) && Next(s, step, atomic).Some?
    ensures Sound(Next(s, step, atomic).value)
  {
    match step
    case Get(id) =>
      if Lockable(s, id) {
        assert Counted(s, s.registry[id].target);
        ShareIsSound(s, s.registry[id].target);
      } else {
        CreateIsSound(s, id);
      }
    case Copy(i) => ShareIsSound(s, s.handles[i].value);
    case Drop(i) =>
      LetIsSound(s, i);
      var t, r := s.handles[i].value, Let(s, i);
      if atomic && r.trackers[t].phase.Dying? { UnregisterIsSound(r, t); }
    case Callback(t) => UnregisterIsSound(s, t);
  }

  lemma {:induction false} RunIsSound(s: State, steps: seq<Step>, atomic: bool)
    requires Sound(s) && Run(s, steps, atomic).Some?
    ensures Sound(Run(s, steps, atomic).value)
    decreases |steps|
  {
    if steps != [] {
      StepIsSound(s, steps[0], atomic);
      RunIsSound(Next(s, steps[0], atomic).value, steps[1..], atomic);
    }
  }

  /** No key dangles: in every run, split or not, the tracker that owns the characters of a key
      has not been destroyed, although a replacement leaves the key of its predecessor. */
  lemma {:induction false} KeysNeverDangle(steps: seq<Step>, atomic: bool, id: string)
    requires Run(START, steps, atomic).Some? && id in Run(START, steps, atomic).value.registry
    ensures var s := Run(START, steps, atomic).value; Standing(s, s.registry[id].owner, id)
  {
    RunIsSound(START, steps, atomic);
  }

  // ----- the invariant behind the promise -----

  /** Every tracker that is not gone is the registered one of its id. */
  predicate AllRegistered(s: State) {
    forall t | 0 <= t < |s.trackers| ::
      !s.trackers[t].phase.Dead? ==> s.trackers[t].id in s.registry && s.registry[s.trackers[t].id].target == t
  }

  predicate Inv(s: State) {
    Sound(s) && AllRegistered(s)
  }

  predicate NoneDying(s: State) {
    forall t | 0 <= t < |s.trackers| :: !s.trackers[t].phase.Dying?
  }

  lemma {:induction false} StepRegisters(s: State, step: Step, atomic: bool)
    requires AllRegistered(s) && Next(s, step, atomic).Some? && (step.Get? ==> !Expired(s, step.id))
    requires forall t | 0 <= t < |s.trackers| :: s.trackers[t].phase.Live? <==> s.trackers[t].strong > 0
    ensures AllRegistered(Next(s, step, atomic).value)
    ensures atomic && NoneDying(s) ==> NoneDying(Next(s, step, atomic).value)
  {
  }

  /** A step that does not find an expired entry keeps the invariant. */
  lemma {:induction false} StepKeeps(s: State, step: Step, atomic: bool)
    requires Inv(s) && Next(s, step, atomic).Some? && (step.Get? ==> !Expired(s, step.id))
    ensures Inv(Next(s, step, atomic).value)
    ensures atomic && NoneDying(s) ==> NoneDying(Next(s, step, atomic).value)
  {
    hide AllRegistered, Next, NoneDying, Expired, Standing;
    StepIsSound(s, step, atomic);
    forall t | 0 <= t < |s.trackers| ensures s.trackers[t].phase.Live? <==> s.trackers[t].strong > 0 {
      assert Counted(s, t);
    }
    StepRegisters(s, step, atomic);
  }

  lemma {:induction false} InvPromises(s: State)
    requires Inv(s)
    ensures OnePerId(s) && HoldersShare(s)
  {
    forall i: nat, j: nat | Holds(s, i) && Holds(s, j)
      ensures && s.trackers[s.handles[i].value].phase.Live?
              && (s.trackers[s.handles[i].value].id == s.trackers[s.handles[j].value].id
                  ==> s.handles[i] == s.handles[j])
    {
      assert Counted(s, s.handles[i].value) && Counted(s, s.handles[j].value);
    }
  }

  // ----- death and callback in one step -----

  lemma {:induction false} NoneDyingNoneExpired(s: State, id: string)
    requires Inv(s) && NoneDying(s)
    ensures !Expired(s, id)
  {
  }

  lemma {:induction false} AtomicRunKeeps(s: State, steps: seq<Step>)
    requires Inv(s) && NoneDying(s) && Run(s, steps, true).Some?
    ensures Inv(Run(s, steps, true).value)
    decreases |steps|
  {
    if steps != [] {
      if steps[0].Get? { NoneDyingNoneExpired(s, steps[0].id); }
      StepKeeps(s, steps[0], true);
      AtomicRunKeeps(Next(s, steps[0], true).value, steps[1..]);
    }
  }

  /** If a tracker's death and its callback form one step, every interleaving has at most one
      live tracker per id, shared by all holders of that id. */
  lemma {:induction false} AtomicDeathIsSafe(steps: seq<Step>)
    requires Run(START, steps, true).Some?
    ensures OnePerId(Run(START, steps, true).value) && HoldersShare(Run(START, steps, true).value)
  {
    AtomicRunKeeps(START, steps);
    InvPromises(Run(START, steps, true).value);
  }

  // ----- death and callback in two steps -----

  /** Some getTracker() of the run finds a registered but expired tracker. */
  predicate FindsExpired(s: State, steps: seq<Step>)
    decreases |steps|
  {
    && steps != []
    && ((steps[0].Get? && Expired(s, steps[0].id))
        || (Next(s, steps[0], false).Some? && FindsExpired(Next(s, steps[0], false).value, steps[1..])))
  }

  lemma {:induction false} SplitRunKeeps(s: State, steps: seq<Step>)
    requires Inv(s) && Run(s, steps, false).Some? && !FindsExpired(s, steps)
    ensures Inv(Run(s, steps, false).value)
    decreases |steps|
  {
    if steps != [] {
      StepKeeps(s, steps[0], false);
      SplitRunKeeps(Next(s, steps[0], false).value, steps[1..]);
    }
  }

  /** With separate steps the promise still holds until an expired entry is found. */
  lemma {:induction false} SafeUnlessExpiredFound(steps: seq<Step>)
    requires Run(START, steps, false).Some? && !FindsExpired(START, steps)
    ensures OnePerId(Run(START, steps, false).value) && HoldersShare(Run(START, steps, false).value)
  {
    SplitRunKeeps(START, steps);
    InvPromises(Run(START, steps, false).value);
  }

  /** And not beyond: where getTracker() finds an expired entry, the pending callback erases the
      replacement, and the next getTracker() makes a second live tracker. */
  lemma {:induction false} ExpiredFoundIsUnsafe(s: State, id: string)
    requires Sound(s) && Expired(s, id)
    ensures var more := [Get(id), Callback(s.registry[id].target), Get(id)];
            var r := Run(s, more, false);
            r.Some? && !OnePerId(r.value)
  {
    var t, n := s.registry[id].target, |s.trackers|;
    assert Counted(s, t);
    var s1 := Create(s, id);
    var s2 := Unregister(s1, t);
    var s3 := Create(s2, id);
    ThreeSteps(s, [Get(id), Callback(t), Get(id)], s1, s2, s3);
    assert s3.trackers[n] == s3.trackers[n + 1] == Tracker(id, 1, Live);
  }

  lemma {:induction false} ThreeSteps(s: State, steps: seq<Step>, s1: State, s2: State, s3: State)
    requires |steps| == 3 && Next(s, steps[0], false) == Some(s1)
    requires Next(s1, steps[1], false) == Some(s2) && Next(s2, steps[2], false) == Some(s3)
    ensures Run(s, steps, false) == Some(s3)
  {
    assert steps[1..][0] == steps[1] && steps[1..][1..][0] == steps[2];
    assert Run(s3, steps[1..][1..][1..], false) == Some(s3);
    assert Run(s2, steps[1..][1..], false) == Some(s3);
    assert Run(s1, steps[1..], false) == Some(s3);
  }

  lemma {:induction false} RunConcat(s: State, first: seq<Step>, more: seq<Step>, atomic: bool)
    requires Run(s, first, atomic).Some?
    ensures Run(s, first + more, atomic) == Run(Run(s, first, atomic).value, more, atomic)
    decreases |first|
  {
    if first == [] {
      assert first + more == more;
    } else {
      assert (first + more)[0] == first[0] && (first + more)[1..] == first[1..] + more;
      RunConcat(Next(s, first[0], atomic).value, first[1..], more, atomic);
    }
  }

  /** So with separate steps every run that reaches an expired entry continues to two live
      trackers of one id. */
  lemma {:induction false} ExpiredEntryBreaksTheRun(steps: seq<Step>, id: string)
    requires Run(START, steps, false).Some? && Expired(Run(START, steps, false).value, id)
    ensures var s := Run(START, steps, false).value;
            var r := Run(START, steps + [Get(id), Callback(s.registry[id].target), Get(id)], false);
            r.Some? && !OnePerId(r.value)
  {
    RunIsSound(START, steps, false);
    var s := Run(START, steps, false).value;
    ExpiredFoundIsUnsafe(s, id);
    RunConcat(START, steps, [Get(id), Callback(s.registry[id].target), Get(id)], false);
  }

  /** Such a run: get, drop the only handle, and let another thread get before the callback. */
  lemma {:induction false} DyingEntryIsReachable(id: string)
    ensures var steps := [Get(id), Drop(0)];
            && Run(START, steps, false).Some? && !FindsExpired(START, steps)
            && Expired(Run(START, steps, false).value, id)
  {
    var steps := [Get(id), Drop(0)];
    var s1 := Create(START, id);
    var s2 := Let(s1, 0);
    assert Next(START, steps[0], false) == Some(s1);
    assert steps[1..][0] == steps[1] && steps[1..][1..] == [];
    assert Next(s1, steps[1], false) == Some(s2);
    assert Run(s2, [], false) == Some(s2);
    assert !FindsExpired(s1, steps[1..]);
  }

  // ----- every run can be finished -----

  /** Drops every handle from number n on. */
  lemma {:induction false} DropAll(s: State, n: nat, atomic: bool) returns (more: seq<Step>)
    requires Sound(s) && n <= |s.handles| && forall i | 0 <= i < n :: s.handles[i].None?
    ensures Run(s, more, atomic).Some? && Sound(Run(s, more, atomic).value)
    ensures var t := Run(s, more, atomic).value; forall i | 0 <= i < |t.handles| :: t.handles[i].None?
    decreases |s.handles| - n
  {
    if n == |s.handles| {
      more := [];
    } else if s.handles[n].None? {
      more := DropAll(s, n + 1, atomic);
    } else {
      assert Counted(s, s.handles[n].value);
      Buffers.CountPositive(s.handles, n, s.handles[n].value);
      StepIsSound(s, Drop(n), atomic);
      var rest := DropAll(Next(s, Drop(n), atomic).value, n + 1, atomic);
      more := [Drop(n)] + rest;
      assert more[1..] == rest;
    }
  }

  /** Runs the callback of every tracker from number n on. */
  lemma {:induction false} CallAll(s: State, n: nat, atomic: bool) returns (more: seq<Step>)
    requires Sound(s) && n <= |s.trackers| && forall t | 0 <= t < n :: s.trackers[t].phase.Dead?
    requires forall i | 0 <= i < |s.handles| :: s.handles[i].None?
    ensures Run(s, more, atomic).Some?
    ensures var r := Run(s, more, atomic).value;
            && Sound(r) && r.handles == s.handles && forall t | 0 <= t < |r.trackers| :: r.trackers[t].phase.Dead?
    decreases |s.trackers| - n
  {
    if n == |s.trackers| {
      more := [];
    } else {
      assert Counted(s, n);
      Uncounted(s.handles, n);
      if s.trackers[n].phase.Dead? {
        more := CallAll(s, n + 1, atomic);
      } else {
        StepIsSound(s, Callback(n), atomic);
        var rest := CallAll(Next(s, Callback(n), atomic).value, n + 1, atomic);
        more := [Callback(n)] + rest;
        assert more[1..] == rest;
      }
    }
  }

  /** Nothing is left behind: every run, split or not, can be continued until all handles are
      gone, and then every tracker has been destroyed and the registry is empty. */
  lemma {:induction false} CanDrain(steps: seq<Step>, atomic: bool) returns (more: seq<Step>)
    requires Run(START, steps, atomic).Some?
    ensures Run(START, steps + more, atomic).Some?
    ensures var s := Run(START, steps + more, atomic).value;
            && (forall i | 0 <= i < |s.handles| :: s.handles[i].None?)
            && (forall t | 0 <= t < |s.trackers| :: s.trackers[t].phase.Dead?)
            && s.registry == map[]
  {
    RunIsSound(START, steps, atomic);
    var s := Run(START, steps, atomic).value;
    var drops := DropAll(s, 0, atomic);
    var calls := CallAll(Run(s, drops, atomic).value, 0, atomic);
    RunConcat(s, drops, calls, atomic);
    more := drops + calls;
    RunConcat(START, steps, more, atomic);
    var r := Run(START, steps + more, atomic).value;
    assert forall id :: id in r.registry ==> Standing(r, r.registry[id].owner, id);
  }

  // ----- in place -----

  /** The static registry and the locked sections of getTracker() and unregisterTracker(). */
  class Registry {
    var trackers: seq<Tracker>
    var registered: map<string, Entry>
    var handles: seq<Option<nat>>

    ghost function Current(): State
      reads this
    {
      State(trackers, registered, handles)
    }

    constructor ()
      ensures Current() == START
    {
      trackers, registered, handles := [], map[], [];
    }

    method MakeShared(id: string) returns (t: nat)
      modifies this`trackers
      ensures t == |old(trackers)| && trackers == old(trackers) + [Tracker(id, 1, Live)]
    {
      t := |trackers|;
      trackers := trackers + [Tracker(id, 1, Live)];
    }

    /** The returned tracker is the one the new handle points to. */
    method GetShared(id: string) returns (t: nat)
      requires Sound(Current())
      modifies this
      ensures Current() == GetTracker(old(Current()), id)
      ensures t < |trackers| && trackers[t].id == id && trackers[t].phase.Live? && handles == old(handles) + [Some(t)]
      ensures Sound(Current()) && (old(Inv(Current()) && !Expired(Current(), id)) ==> Inv(Current()))
    {
      StepIsSound(Current(), Get(id), false);
      if Inv(Current()) && !Expired(Current(), id) { StepKeeps(Current(), Get(id), false); }
      if id !in registered {
        t := MakeShared(id);
        registered := registered[id := Entry(t, t)];
      } else {
        t := registered[id].target;
        if trackers[t].phase.Live? {
          trackers := trackers[t := trackers[t].(strong := trackers[t].strong + 1)];
        } else {
          t := MakeShared(id);
          registered := registered[id := registered[id].(target := t)];
        }
      }
      handles := handles + [Some(t)];
    }

    /** The callback of a dying tracker, after which it is gone. Entries of other ids stay, no
        key is left dangling, and one live tracker per id remains so if it was so before. */
    method UnregisterTracker(t: nat)
      requires Sound(Current()) && t < |trackers| && trackers[t].phase.Dying?
      modifies this
      ensures Current() == Unregister(old(Current()), t)
      ensures forall id | id != old(trackers[t].id) ::
                (id in registered <==> id in old(registered))
                    && (id in registered ==> registered[id] == old(registered)[id])
      ensures Sound(Current()) && (old(Inv(Current())) ==> Inv(Current()))
      ensures old(OnePerId(Current())) ==> OnePerId(Current())
    {
      StepIsSound(Current(), Callback(t), false);
      if Inv(Current()) { StepKeeps(Current(), Callback(t), false); }
      registered := registered - {trackers[t].id};
      trackers := trackers[t := trackers[t].(phase := Dead)];
    }
  }
}
