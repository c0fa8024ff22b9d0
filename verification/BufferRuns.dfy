/** Every run of buffer operations, successful or raising: counts, the pool's charge, object
    lifetimes and pins (velox/buffer/Buffer.h). */
module BufferRuns {
  import opened Types
  import opened Ints
  import opened Widths
  import opened Buffers
  import opened BufferInvariants

  datatype Action =
    | CopyPtr(i: nat)
    | DropPtr(i: nat)
    | NewPods(elems: nat, width: nat, init: Option<Bytes>)
    | NewObjects(elems: nat, width: nat, value: Option<int>)
    | NewView(bytes: Bytes)
    | Resizing(i: nat, size: nat)
    | Growing(i: nat, elems: nat, width: nat, init: Option<Bytes>)
    | GrowingObjects(i: nat, elems: nat, value: Option<int>)
    | Appending(i: nat, items: Bytes)
    | Copying(i: nat)
    | Writing(i: nat, at: nat, x: bv8)

  predicate Null(h: Heap, i: nat) {
    i < |h.handles| && h.handles[i].None?
  }

  /** What the code takes for granted: handles of the right kind, which only reallocate() and
      copy() accept as null. */
  predicate Enabled(h: Heap, a: Action) {
    match a
    case NewPods(_, w, init) => ValidInit(w, init)
    case NewObjects(_, w, _) => w > 0
    case NewView(_) => true
    case Growing(i, _, w, init) => (Null(h, i) || (Holds(h, i) && Held(h, i).payload.Pod?)) && ValidInit(w, init)
    case GrowingObjects(i, _, _) => Null(h, i) || (Holds(h, i) && Held(h, i).payload.NonPod?)
    case Appending(i, _) => Holds(h, i) && Held(h, i).payload.Pod?
    case Copying(i) => Null(h, i) || Holds(h, i)
    case _ => Holds(h, a.i)
  }

  /** The size of the memory an action asks the pool for. */
  function Wanted(h: Heap, a: Action): nat
    requires Enabled(h, a)
  {
    match a
    case NewPods(elems, w, _) => Product(elems, w)
    case Growing(_, elems, w, _) => Product(elems, w)
    case Appending(i, items) => Product(Grown(Held(h, i), items), 1)
    case Copying(i) => if Null(h, i) then 0 else Held(h, i).size
    case _ => 0
  }

  predicate Answers(h: Heap, pool: Pool, a: Action, ans: PoolAnswer)
    requires Enabled(h, a)
  {
    |ans.mem| == Capacity(pool, Wanted(h, a))
  }

  /** copy() of a null handle is a null handle. */
  function AddNull(h: Heap): Heap {
    h.(handles := h.handles + [None])
  }

  lemma {:induction false} AddNullKeeps(h: Heap)
    requires Inv(h)
    ensures Inv(AddNull(h))
  {
    var h' := AddNull(h);
    forall k | 0 <= k < |h'.buffers| ensures BufferInv(h', k) {
      CountAppend(h.handles, None, k);
      assert BufferInv(h, k);
    }
  }

  /** The buffer behind the handle an action works on is live and counted and, unless only its
      count changes, intact. */
  predicate Sound(h: Heap, a: Action)
    requires Enabled(h, a)
  {
    a.NewPods? || a.NewObjects? || a.NewView? || Null(h, a.i) ||
    (&& Held(h, a.i).live && Held(h, a.i).refs > 0
     && (a.CopyPtr? || (a.DropPtr? && Held(h, a.i).refs > 1) || ValidBuffer(Held(h, a.i))))
  }

  /** What an action comes to. Using a buffer that is gone, or touching the objects of one whose
      objects are not those its size says, is undefined. */
  function Outcome(h: Heap, pool: Pool, a: Action, ans: PoolAnswer): Result
    requires Enabled(h, a) && Answers(h, pool, a, ans)
  {
    if !Sound(h, a) then Undefined
    else
      match a
      case CopyPtr(i) => Done(CopyHandle(h, i))
      case DropPtr(i) => Done(Drop(h, i))
      case NewPods(elems, w, init) => ResultOf(AllocatePod(h, pool, elems, w, init, ans))
      case NewObjects(elems, w, value) => ResultOf(AllocateNonPod(h, pool, elems, w, value, ans))
      case NewView(bytes) => Done(CreateView(h, bytes))
      case Resizing(i, size) => SetSize(h, i, size)
      case Growing(i, elems, w, init) =>
        if Null(h, i) then Raised else ResultOf(ReallocatePod(h, pool, i, elems, w, init, ans))
      case GrowingObjects(i, elems, value) =>
        if Null(h, i) then Raised else ReallocateNonPod(h, pool, i, elems, value, ans)
      case Appending(i, items) => ResultOf(AppendTo(h, pool, i, items, ans))
      case Copying(i) => if Null(h, i) then Done(AddNull(h)) else ResultOf(Copy(h, pool, i, ans))
      case Writing(i, at, x) => ResultOf(WriteByte(h, i, at, x))
  }

  /** What a caller can check beforehand: fewer than 2^31 objects are asked for. */
  predicate Modest(h: Heap, a: Action)
    requires Enabled(h, a)
  {
    match a
    case NewObjects(elems, _, _) => elems < INT_LIMIT
    case GrowingObjects(i, elems, _) => elems < INT_LIMIT
    case Resizing(i, size) => Held(h, i).payload.NonPod? ==> size < INT_LIMIT * Held(h, i).payload.width
    case _ => true
  }

  lemma {:induction false} TimesMonotone(a: int, b: int, w: nat)
    requires a <= b
    ensures a * w <= b * w
  {
    assert b * w == a * w + (b - a) * w;
  }

  /** The count that setSize() computes, in terms of the size. */
  lemma {:induction false} CountBelow(size: nat, w: nat)
    requires w > 0
    ensures Quotient(size, w) < INT_LIMIT <==> size < INT_LIMIT * w
  {
    hide Quotient, Remainder;
    QuotientAndRemainder(size, w);
    var q := Quotient(size, w);
    assert (q + 1) * w == q * w + w;
    if q < INT_LIMIT {
      TimesMonotone(q + 1, INT_LIMIT, w);
    } else {
      TimesMonotone(INT_LIMIT, q, w);
    }
  }

  lemma {:induction false} EnabledIsSound(h: Heap, a: Action)
    requires Inv(h) && Enabled(h, a)
    ensures Sound(h, a)
  {
    if !a.NewPods? && !a.NewObjects? && !a.NewView? && !Null(h, a.i) {
      HeldIsValid(h, a.i);
    }
  }

  /** From a valid heap an action that does not raise ends in a valid heap exactly when it asks
      for fewer than 2^31 objects. */
  lemma {:induction false} OutcomeKeeps(h: Heap, pool: Pool, a: Action, ans: PoolAnswer)
    requires Inv(h) && Enabled(h, a) && Answers(h, pool, a, ans)
    ensures var r := Outcome(h, pool, a, ans); !r.Raised? ==> ((r.Done? && Inv(r.heap)) <==> Modest(h, a))
  {
    hide Inv, AddNull, CopyHandle, Drop, AllocatePod, AllocateNonPod, SetSize, ReallocatePod, ReallocateNonPod,
      AppendTo, Copy, WriteByte, Add, Capacity, Product;
    EnabledIsSound(h, a);
    match a
    case CopyPtr(i) => CopyHandleKeeps(h, i);
    case DropPtr(i) => DropKeeps(h, i);
    case NewPods(elems, w, init) => AllocatePodKeeps(h, pool, elems, w, init, ans);
    case NewObjects(elems, w, value) => AllocateNonPodKeeps(h, pool, elems, w, value, ans);
    case NewView(bytes) => AddKeeps(h, Buffer(View(bytes), |bytes|, |bytes|, 1, true));
    case Resizing(i, size) =>
      SetSizeKeeps(h, i, size);
      if Held(h, i).payload.NonPod? { CountBelow(size, Held(h, i).payload.width); }
    case Growing(i, elems, w, init) => if !Null(h, i) { ReallocatePodKeeps(h, pool, i, elems, w, init, ans); }
    case GrowingObjects(i, elems, value) => if !Null(h, i) { ReallocateNonPodKeeps(h, pool, i, elems, value, ans); }
    case Appending(i, items) => AppendToKeeps(h, pool, i, items, ans);
    case Copying(i) => if Null(h, i) { AddNullKeeps(h); } else { CopyKeeps(h, pool, i, ans); }
    case Writing(i, at, x) => WriteByteKeeps(h, i, at, x);
  }

  // ----- runs -----

  /** A run of any actions, up to one that is undefined; one that raises leaves the heap. */
  predicate Legal(h: Heap, pool: Pool, actions: seq<Action>, answers: seq<PoolAnswer>)
    decreases |actions|
  {
    && |answers| == |actions|
    && (actions != [] ==>
          && Enabled(h, actions[0]) && Answers(h, pool, actions[0], answers[0])
          && match Outcome(h, pool, actions[0], answers[0])
             case Done(g) => Legal(g, pool, actions[1..], answers[1..])
             case Raised => Legal(h, pool, actions[1..], answers[1..])
             case Undefined => true)
  }

  function End(h: Heap, pool: Pool, actions: seq<Action>, answers: seq<PoolAnswer>): Result
    requires Legal(h, pool, actions, answers)
    decreases |actions|
  {
    if actions == [] then Done(h)
    else
      match Outcome(h, pool, actions[0], answers[0])
      case Done(g) => End(g, pool, actions[1..], answers[1..])
      case Raised => End(h, pool, actions[1..], answers[1..])
      case Undefined => Undefined
  }

  /** Every heap of the run is valid and no action is undefined. */
  ghost predicate StaysValid(h: Heap, pool: Pool, actions: seq<Action>, answers: seq<PoolAnswer>)
    requires Legal(h, pool, actions, answers)
    decreases |actions|
  {
    && Inv(h)
    && (actions != [] ==>
          match Outcome(h, pool, actions[0], answers[0])
          case Done(g) => StaysValid(g, pool, actions[1..], answers[1..])
          case Raised => StaysValid(h, pool, actions[1..], answers[1..])
          case Undefined => false)
  }

  /** Every action of the run that does not raise asks for fewer than 2^31 objects. */
  predicate AsksModestly(h: Heap, pool: Pool, actions: seq<Action>, answers: seq<PoolAnswer>)
    requires Legal(h, pool, actions, answers)
    decreases |actions|
  {
    actions != [] ==>
      match Outcome(h, pool, actions[0], answers[0])
      case Done(g) => Modest(h, actions[0]) && AsksModestly(g, pool, actions[1..], answers[1..])
      case Raised => AsksModestly(h, pool, actions[1..], answers[1..])
      case Undefined => Modest(h, actions[0])
  }

  /** A run stays valid exactly when it never asks for 2^31 objects or more. */
  lemma {:induction false} RunsKeep(h: Heap, pool: Pool, actions: seq<Action>, answers: seq<PoolAnswer>)
    requires Inv(h) && Legal(h, pool, actions, answers)
    ensures StaysValid(h, pool, actions, answers) <==> AsksModestly(h, pool, actions, answers)
    decreases |actions|
  {
    hide Inv, Outcome, Modest;
    if actions != [] {
      OutcomeKeeps(h, pool, actions[0], answers[0]);
      var r := Outcome(h, pool, actions[0], answers[0]);
      if r.Raised? {
        RunsKeep(h, pool, actions[1..], answers[1..]);
      } else if r.Done? {
        if Inv(r.heap) {
          RunsKeep(r.heap, pool, actions[1..], answers[1..]);
        }
      }
    }
  }

  lemma {:induction false} ValidEnd(h: Heap, pool: Pool, actions: seq<Action>, answers: seq<PoolAnswer>)
    requires Legal(h, pool, actions, answers) && StaysValid(h, pool, actions, answers)
    ensures End(h, pool, actions, answers).Done? && Inv(End(h, pool, actions, answers).heap)
    decreases |actions|
  {
    hide Inv, Outcome;
    if actions != [] {
      var r := Outcome(h, pool, actions[0], answers[0]);
      ValidEnd(if r.Done? then r.heap else h, pool, actions[1..], answers[1..]);
    }
  }

  lemma {:induction false} NoChargeWhenDead(f: Buffer -> int, bs: seq<Buffer>)
    requires forall b | b in bs :: f(b) == 0
    ensures Sum(f, bs) == 0
  {
    if bs != [] {
      assert bs[|bs| - 1] in bs;
      NoChargeWhenDead(f, bs[..|bs| - 1]);
    }
  }

  lemma {:induction false} NoHandlesNoneLive(h: Heap, a: nat)
    requires Inv(h) && a < |h.buffers| && forall i | 0 <= i < |h.handles| :: h.handles[i].None?
    ensures !h.buffers[a].live
  {
    NoneCounted(h.handles, a);
    assert BufferInv(h, a);
  }

  lemma {:induction false} NoHandlesNoCharge(h: Heap)
    requires Inv(h) && forall i | 0 <= i < |h.handles| :: h.handles[i].None?
    ensures h.charged == 0 && h.constructed == h.destroyed && h.pins == 0
  {
    forall b | b in h.buffers ensures !b.live {
      var a: nat :| a < |h.buffers| && h.buffers[a] == b;
      NoHandlesNoneLive(h, a);
    }
    NoChargeWhenDead(Charge, h.buffers);
    NoChargeWhenDead(Objects, h.buffers);
    NoChargeWhenDead(Pin, h.buffers);
  }

  /** Nothing leaks: a run that never asks for 2^31 objects is defined throughout, and once every
      handle is gone the pool holds no bytes, every constructed object is destroyed, and no view
      pins foreign memory. */
  lemma {:induction false} NothingLeaks(pool: Pool, actions: seq<Action>, answers: seq<PoolAnswer>)
    requires Legal(EMPTY, pool, actions, answers) && AsksModestly(EMPTY, pool, actions, answers)
    ensures var end := End(EMPTY, pool, actions, answers);
            && end.Done?
            && ((forall i | 0 <= i < |end.heap.handles| :: end.heap.handles[i].None?) ==>
                  end.heap.charged == 0 && end.heap.constructed == end.heap.destroyed && end.heap.pins == 0)
  {
    hide Outcome, Modest;
    EmptyIsValid();
    hide Inv;
    RunsKeep(EMPTY, pool, actions, answers);
    ValidEnd(EMPTY, pool, actions, answers);
    var end := End(EMPTY, pool, actions, answers).heap;
    if forall i | 0 <= i < |end.handles| :: end.handles[i].None? {
      NoHandlesNoCharge(end);
    }
  }

  lemma {:induction false} NoneConstructed(pool: Pool)
    ensures var b := NewNonPod(pool, 0x8000_0000, 16, None);
            b.payload.NonPod? && b.live && b.refs == 1 && b.size == 0x8_0000_0000 && !ValidBuffer(b)
  {
    hide Product, Quotient, FirstObjects;
    ProductIsTimes(0x8000_0000, 16);
    NewObjectsAreExact(pool, 0x8000_0000, 16, None);
  }

  /** The bound is needed: 2^31 objects of 16 bytes are allocated without a single one being
      constructed, and releasing them is undefined. */
  lemma {:induction false} TooManyObjects(pool: Pool, ans: PoolAnswer)
    requires ans.ok && |ans.mem| == Capacity(pool, 0)
    ensures var r := Outcome(EMPTY, pool, NewObjects(0x8000_0000, 16, None), ans);
            && r.Done? && r.heap.constructed == 0 && Held(r.heap, 0).size == 0x8_0000_0000
            && !Inv(r.heap) && Outcome(r.heap, pool, DropPtr(0), ans) == Undefined
  {
    hide Product, Quotient, FirstObjects, NewNonPod, ValidBuffer, Inv;
    assert Signed(0x8000_0000) == -0x8000_0000;
    ProductIsTimes(0x8000_0000, 16);
    NoneConstructed(pool);
    EmptyIsValid();
    AllocateNonPodKeeps(EMPTY, pool, 0x8000_0000, 16, None, ans);
  }

  lemma {:induction false} EmptyIsValid()
    ensures Inv(EMPTY)
  {
  }
}
