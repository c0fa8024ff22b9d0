/** The buffers in place: the methods of Buffer, AlignedBuffer, NonPODAlignedBuffer and
    BufferView as updates of a mutable store (velox/buffer/Buffer.h). */
module BufferStore {
  import opened Types
  import opened Ints
  import opened Widths
  import opened Buffers
  import opened BufferInvariants
  import opened BufferContents
  import opened BufferAppends
  import opened BufferLoops
  import opened BufferSights

  /** How a call ends: it returns, it throws, or its behaviour is undefined. */
  datatype Status = Returned | Threw | Broke

  /** A call that ended this way left this state, as the outcome r of the specification says. */
  ghost predicate Agrees(status: Status, r: Result, before: Heap, after: Heap) {
    match r
    case Done(g) => status.Returned? && after == g
    case Raised => status.Threw? && after == before
    case Undefined => status.Broke?
  }

  /** Everybody who shares the buffer of handle i sees it set to the size, and nobody else sees a
      change. */
  ghost predicate Resizes(h: Heap, g: Heap, i: nat, size: nat) {
    && Holds(g, i) && Held(g, i).size == size
    && Updates(Seen(h), Seen(g), i, SightAt(g, i)) && SetTo(SightAt(h, i), SightAt(g, i), size)
  }

  class Store {
    var buffers: seq<Buffer>
    var handles: seq<Option<nat>>
    var charged: int
    var constructed: int
    var destroyed: int
    var pins: int

    ghost function State(): Heap
      reads this
    {
      Heap(buffers, handles, charged, constructed, destroyed, pins)
    }

    ghost predicate Valid()
      reads this
    {
      Inv(State())
    }

    constructor ()
      ensures State() == EMPTY && Valid()
    {
      buffers, handles, charged, constructed, destroyed, pins := [], [], 0, 0, 0, 0;
    }

    // ----- reference counting -----

    method AddRef(a: nat)
      requires a < |buffers|
      modifies this`buffers
      ensures buffers == old(buffers)[a := old(buffers[a]).(refs := old(buffers[a].refs) + 1)]
    {
      buffers := buffers[a := buffers[a].(refs := buffers[a].refs + 1)];
    }

    method CopyPtr(i: nat)
      requires Valid() && Holds(State(), i)
      modifies this
      ensures Valid() && State() == CopyHandle(old(State()), i)
    {
      ghost var before := State();
      handles := handles + [handles[i]];
      AddRef(handles[i].value);
      CopyHandleKeeps(before, i);
    }

    /** Destroys the objects of a buffer, or unpins the memory behind a view. */
    method ReleaseResources(a: nat)
      requires a < |buffers| && ValidBuffer(buffers[a]) && buffers[a].live
      modifies this`buffers, this`destroyed, this`pins
      ensures var b := old(buffers[a]);
              && buffers == old(buffers)[a := b.(payload := Freed(b).payload)]
              && destroyed == old(destroyed) + Objects(b) && pins == old(pins) - Pin(b)
    {
      var b := buffers[a];
      match b.payload {
        case NonPod(w, slots) =>
          LengthFits(b);
          var cleared, gone := DestroyRange(slots, 0, Length(b));
          assert cleared == Freed(b).payload.slots;
          buffers := buffers[a := b.(payload := NonPod(w, cleared))];
          destroyed := destroyed + gone;
        case View(_) =>
          pins := pins - 1;
        case Pod(_) =>
      }
    }

    /** The last reference to go releases the resources and returns the memory to the pool. */
    method Release(a: nat)
      requires a < |buffers| && buffers[a].refs > 0 && buffers[a].live && ValidBuffer(buffers[a])
      modifies this
      ensures State() == Buffers.Release(old(State()), a)
    {
      var b := buffers[a];
      SameCharges(b, b.refs - 1);
      buffers := buffers[a := b.(refs := b.refs - 1)];
      if b.refs == 1 {
        ReleaseResources(a);
        charged := charged - Charge(b);
        buffers := buffers[a := buffers[a].(live := false)];
      }
    }

    method DropPtr(i: nat)
      requires Valid() && Holds(State(), i)
      modifies this
      ensures Valid() && old(Held(State(), i).refs > 0) && State() == Drop(old(State()), i)
    {
      ghost var before := State();
      HeldIsValid(before, i);
      DropKeeps(before, i);
      var a := handles[i].value;
      handles := handles[i := None];
      Release(a);
    }

    // ----- sizes -----

    /** setSize(): default constructs or destroys the objects in between; views refuse. */
    method Resize(i: nat, size: nat) returns (status: Status)
      requires Valid() && Holds(State(), i)
      modifies this
      ensures Agrees(status, SetSize(old(State()), i, size), old(State()), State())
      ensures old(ValidBuffer(Held(State(), i)))
      ensures var b := old(Held(State(), i));
              status.Threw? || (b.payload.NonPod? ==> Quotient(size, b.payload.width) < INT_LIMIT) ==>
                !status.Broke? && Valid() && (status.Returned? ==> Resizes(old(State()), State(), i, size))
    {
      ghost var before := State();
      HeldIsValid(before, i);
      SetSizeKeeps(before, i, size);
      SetSizeSeen(before, i, size);
      hide Seen, Updates, SetTo, SightAt;
      var a, b := handles[i].value, buffers[handles[i].value];
      match b.payload {
        case View(_) =>
          status := Threw;
        case Pod(_) =>
          if size > b.capacity { return Threw; }
          buffers := buffers[a := b.(size := size)];
          status := Returned;
        case NonPod(w, slots) =>
          if Remainder(size, w) != 0 || size > b.capacity { return Threw; }
          status := ResizeObjects(a, size);
      }
    }

    /** The two loops of setSize() on objects, of which at most one runs. A count that turns
        negative makes the second one start before the buffer. */
    method ResizeObjects(a: nat, size: nat) returns (status: Status)
      requires a < |buffers| && ValidNonPod(buffers[a])
      requires Remainder(size, buffers[a].payload.width) == 0 && size <= buffers[a].capacity
      modifies this`buffers, this`constructed, this`destroyed
      ensures var b := old(buffers[a]);
              var oldN, newN := Length(b), Signed(Quotient(size, b.payload.width));
              && status == (if newN < 0 then Broke else Returned)
              && (newN >= 0 ==>
                    && buffers == old(buffers)[a := b.(size := size,
                         payload := NonPod(b.payload.width, Buffers.Resize(b.payload.slots, oldN, newN, DEFAULT)))]
                    && constructed == old(constructed) + (if newN > oldN then newN - oldN else 0)
                    && destroyed == old(destroyed) + (if oldN > newN then oldN - newN else 0))
    {
      var b := buffers[a];
      var w, slots := b.payload.width, b.payload.slots;
      LengthFits(b);
      SizeFits(b, size);
      var oldN, newN := Length(b), Signed(Quotient(size, w));
      if newN < 0 { return Broke; }
      var grown, built := ConstructRange(slots, oldN, newN, DEFAULT);
      var cut, gone := DestroyRange(grown, newN, oldN);
      assert cut == Buffers.Resize(slots, oldN, newN, DEFAULT);
      buffers := buffers[a := b.(size := size, payload := NonPod(w, cut))];
      constructed, destroyed := constructed + built, destroyed + gone;
      status := Returned;
    }

    // ----- PODs -----

    /** fillNewMemory() of PODs: nothing happens without growth or without a value. */
    method FillNewMemory(a: nat, oldSize: nat, newSize: nat, w: nat, init: Option<Bytes>)
      requires a < |buffers| && buffers[a].payload.Pod? && newSize <= |buffers[a].payload.bytes| && ValidInit(w, init)
      modifies this`buffers
      ensures var b := old(buffers[a]);
              buffers == old(buffers)[a := b.(payload := Pod(FillNew(b.payload.bytes, oldSize, newSize, w, init)))]
    {
      var b := buffers[a];
      if oldSize < newSize && init.Some? {
        var bytes := FillElements(b.payload.bytes, oldSize, newSize, init.value);
        buffers := buffers[a := b.(payload := Pod(bytes))];
      }
    }

    /** A block from the pool, its size set, and a handle to it. */
    method AddBlock(bytes: Bytes, size: nat)
      modifies this
      ensures State() == Add(old(State()), Buffer(Pod(bytes), size, |bytes|, 1, true))
    {
      handles := handles + [Some(|buffers|)];
      buffers := buffers + [Buffer(Pod(bytes), size, |bytes|, 1, true)];
      charged := charged + |bytes| + PADDED;
    }

    method AllocatePods(elems: nat, w: nat, init: Option<Bytes>, pool: Pool, ans: PoolAnswer) returns (ok: bool)
      requires Valid() && ValidInit(w, init) && |ans.mem| == Capacity(pool, Product(elems, w))
      modifies this
      ensures ok == AllocatePod(old(State()), pool, elems, w, init, ans).Some?
      ensures State() == if ok then AllocatePod(old(State()), pool, elems, w, init, ans).value else old(State())
      ensures Valid()
    {
      ghost var before := State();
      var size := Product(elems, w);
      AllocatePodKeeps(before, pool, elems, w, init, ans);
      if Overflows(size) || Overflows(size + PADDED) || !ans.ok { return false; }
      AddBlock(ans.mem, size);
      FillNewMemory(|buffers| - 1, 0, size, w, init);
      ok := true;
    }

    /** *buffer = std::move(newBuffer), where newBuffer is the last handle. */
    method MoveLast(i: nat)
      requires Holds(State(), i) && i < |handles| - 1 && handles[|handles| - 1].Some?
      requires Held(State(), i).live && Held(State(), i).refs > 0 && ValidBuffer(Held(State(), i))
      modifies this
      ensures State() == MoveLastTo(old(State()), i)
    {
      var last, a := |handles| - 1, handles[i].value;
      handles := handles[i := handles[last]][last := None];
      Release(a);
    }

    /** reallocate<T>() raises on a null handle. */
    method Reallocate(i: nat, elems: nat, w: nat, init: Option<Bytes>, pool: Pool, ans: PoolAnswer) returns (ok: bool)
      requires Valid() && i < |handles| && (handles[i].Some? ==> Holds(State(), i) && Held(State(), i).payload.Pod?)
      requires ValidInit(w, init) && |ans.mem| == Capacity(pool, Product(elems, w))
      modifies this
      ensures old(handles[i].None?) ==> !ok
      ensures ok ==> old(ValidPod(Held(State(), i)) && Held(State(), i).refs > 0)
                     && Some(State()) == ReallocatePod(old(State()), pool, i, elems, w, init, ans)
      ensures !ok ==> State() == old(State())
      ensures Valid()
    {
      if handles[i].None? { return false; }
      ok := ReallocatePods(i, elems, w, init, pool, ans);
    }

    /** reallocate<T>() of PODs. */
    method ReallocatePods(
      i: nat, elems: nat, w: nat, init: Option<Bytes>, pool: Pool, ans: PoolAnswer) returns (ok: bool)
      requires Valid() && Holds(State(), i) && Held(State(), i).payload.Pod?
      requires ValidInit(w, init) && |ans.mem| == Capacity(pool, Product(elems, w))
      modifies this
      ensures old(ValidPod(Held(State(), i)) && Held(State(), i).refs > 0)
      ensures ok == ReallocatePod(old(State()), pool, i, elems, w, init, ans).Some?
      ensures State() == if ok then ReallocatePod(old(State()), pool, i, elems, w, init, ans).value else old(State())
      ensures Valid()
    {
      ghost var before := State();
      HeldIsValid(before, i);
      var size, a := Product(elems, w), handles[i].value;
      var b := buffers[a];
      if Overflows(size) { return false; }
      if GrowsInPlace(b, size) {
        GrowInPlace(i, size, w, init);
        ok := true;
      } else if b.refs != 1 {
        ok := CopyToNew(i, elems, w, init, pool, ans);
      } else if Overflows(size + PADDED) {
        ok := false;
      } else {
        ok := ReallocateUnique(i, size, w, init, pool, ans);
      }
    }

    /** The in-place path. */
    method GrowInPlace(i: nat, size: nat, w: nat, init: Option<Bytes>)
      requires Valid() && Holds(State(), i) && ValidPod(Held(State(), i)) && GrowsInPlace(Held(State(), i), size)
      requires ValidInit(w, init)
      modifies this
      ensures State() == Rewrite(old(State()), i, GrownPod(old(Held(State(), i)), size, w, init))
      ensures Valid()
    {
      ghost var before := State();
      var a := handles[i].value;
      var b := buffers[a];
      FillNewMemory(a, b.size, size, w, init);
      buffers := buffers[a := buffers[a].(size := size)];
      assert State() == Rewrite(before, i, GrownPod(b, size, w, init));
      RewriteKeeps(before, i, GrownPod(b, size, w, init));
    }

    /** The shared path: the other holders keep the old buffer. */
    method CopyToNew(i: nat, elems: nat, w: nat, init: Option<Bytes>, pool: Pool, ans: PoolAnswer) returns (ok: bool)
      requires Valid() && Holds(State(), i) && ValidPod(Held(State(), i)) && Held(State(), i).refs > 0
      requires ValidInit(w, init) && |ans.mem| == Capacity(pool, Product(elems, w))
      modifies this
      ensures ok ==> var size := Product(elems, w);
                     && size <= |ans.mem|
                     && State() == Replaced(old(State()), i, CopiedPod(old(Held(State(), i)), size, w, init, ans.mem))
      ensures ok == (!Overflows(Product(elems, w)) && !Overflows(Product(elems, w) + PADDED) && ans.ok)
      ensures !ok ==> State() == old(State())
      ensures Valid()
    {
      var size, b := Product(elems, w), buffers[handles[i].value];
      ghost var before := State();
      ok := AllocatePods(elems, w, None, pool, ans);
      if !ok { return; }
      var n := |buffers| - 1;
      buffers := buffers[n := buffers[n].(payload := Pod(CopyPrefix(ans.mem, b.payload.bytes, Min(size, b.size))))];
      FillNewMemory(n, b.size, size, w, init);
      ReallocatedPodIsValid(b, size, w, init, ans.mem);
      assert State() == Add(before, CopiedPod(b, size, w, init, ans.mem));
      HeldIsValid(before, i);
      AddMoveKeeps(before, CopiedPod(b, size, w, init, ans.mem), i);
      MoveLast(i);
    }

    /** The unique path: the handle is detached and the count lowered around the call into the
        pool, and both are restored if the pool throws. */
    method ReallocateUnique(
      i: nat, size: nat, w: nat, init: Option<Bytes>, pool: Pool, ans: PoolAnswer) returns (ok: bool)
      requires Valid() && Holds(State(), i) && ValidPod(Held(State(), i)) && Held(State(), i).refs == 1
      requires ValidInit(w, init) && |ans.mem| == Capacity(pool, size)
      modifies this
      ensures ok == ans.ok
      ensures !ok ==> State() == old(State())
      ensures ok ==> var c := MovedPod(old(Held(State(), i)), size, w, init, ans.mem);
                     State() == if ans.moves then Replaced(old(State()), i, c) else Rewrite(old(State()), i, c)
      ensures Valid()
    {
      hide Inv, FillNew, Capacity, CopyPrefix;
      ghost var before := State();
      HeldIsValid(before, i);
      var a, n := handles[i].value, |buffers|;
      var b := buffers[a];
      ghost var c := MovedPod(b, size, w, init, ans.mem);
      ReallocatedPodIsValid(b, size, w, init, ans.mem);
      handles := handles[i := None];
      buffers := buffers[a := b.(refs := b.refs - 1)];
      ok := ans.ok;
      if !ok || !ans.moves {
        handles := handles[i := Some(a)];
        AddRef(a);
        assert State() == before;
        if ok { AdoptBlock(i, size, w, init, ans.mem); }
      } else {
        AddMoveKeeps(before, c, i);
        charged := charged - Charge(b) + |ans.mem| + PADDED;
        buffers := buffers[a := Freed(b)] + [Buffer(Pod(Carried(b.payload.bytes, ans.mem)), size, |ans.mem|, 1, true)];
        handles := handles[i := Some(n)] + [None];
        FillNewMemory(n, b.size, size, w, init);
        assert State() == Replaced(before, i, c);
      }
    }

    /** The block kept its address: the handle gets the new capacity and size. */
    method AdoptBlock(i: nat, size: nat, w: nat, init: Option<Bytes>, mem: Bytes)
      requires Valid() && Holds(State(), i) && ValidPod(Held(State(), i)) && Held(State(), i).refs == 1
      requires ValidInit(w, init) && size <= |mem|
      modifies this
      ensures State() == Rewrite(old(State()), i, MovedPod(old(Held(State(), i)), size, w, init, mem))
      ensures Valid()
    {
      ghost var before := State();
      HeldIsValid(before, i);
      var a := handles[i].value;
      var b := buffers[a];
      ghost var c := MovedPod(b, size, w, init, mem);
      charged := charged - Charge(b) + |mem| + PADDED;
      buffers := buffers[a := Buffer(Pod(Carried(b.payload.bytes, mem)), size, |mem|, 1, true)];
      FillNewMemory(a, b.size, size, w, init);
      assert State() == Rewrite(before, i, c);
      ReallocatedPodIsValid(b, size, w, init, mem);
      RewriteKeeps(before, i, c);
    }

    // ----- objects -----

    /** A block of raw slots of which those up to the narrowed count are constructed. */
    method AllocateObjects(elems: nat, w: nat, value: Option<int>, pool: Pool, ans: PoolAnswer) returns (ok: bool)
      requires Valid() && w > 0
      modifies this
      ensures ok == AllocateNonPod(old(State()), pool, elems, w, value, ans).Some?
      ensures State() == if ok then AllocateNonPod(old(State()), pool, elems, w, value, ans).value else old(State())
      ensures Valid() <==> !ok || elems < INT_LIMIT
    {
      ghost var before := State();
      ghost var added := NewNonPod(pool, elems, w, value);
      AllocateNonPodKeeps(before, pool, elems, w, value, ans);
      NewObjectsFit(pool, elems, w);
      var size := Product(elems, w);
      if Overflows(size) || Overflows(size + PADDED) || !ans.ok { return false; }
      var capacity, v := Capacity(pool, size), if value.Some? then value.value else DEFAULT;
      var raw := seq(Quotient(capacity, w), _ => Raw);
      var slots, built := ConstructRange(raw, 0, Signed(elems), v);
      FirstObjectsBuilt(raw, Reached(0, elems), v);
      handles := handles + [Some(|buffers|)];
      buffers := buffers + [Buffer(NonPod(w, slots), size, capacity, 1, true)];
      charged, constructed := charged + capacity + PADDED, constructed + built;
      ok := true;
      assert State() == Constructing(Add(before, added), Reached(0, elems));
    }

    /** reallocate<T>() of non-PODs: in place, or by allocating, assigning and releasing. */
    method ReallocateObjects(
      i: nat, elems: nat, value: Option<int>, pool: Pool, ans: PoolAnswer) returns (status: Status)
      requires Valid() && Holds(State(), i) && Held(State(), i).payload.NonPod?
      modifies this
      ensures old(ValidNonPod(Held(State(), i)) && Held(State(), i).refs > 0)
      ensures Agrees(status, ReallocateNonPod(old(State()), pool, i, elems, value, ans), old(State()), State())
      ensures status.Threw? || elems < INT_LIMIT ==> !status.Broke? && Valid()
    {
      HeldIsValid(State(), i);
      ReallocateNonPodKeeps(State(), pool, i, elems, value, ans);
      var b := buffers[handles[i].value];
      var size := Product(elems, b.payload.width);
      if Overflows(size) { return Threw; }
      if GrowsInPlace(b, size) {
        GrowObjects(i, elems, value);
        status := Returned;
      } else {
        status := CopyObjects(i, elems, value, pool, ans);
      }
    }

    method GrowObjects(i: nat, elems: nat, value: Option<int>)
      requires Valid() && Holds(State(), i) && Held(State(), i).live && ValidNonPod(Held(State(), i))
      requires GrowsInPlace(Held(State(), i), Product(elems, Held(State(), i).payload.width))
      modifies this
      ensures var b := old(Held(State(), i));
              State() == Constructing(Rewrite(old(State()), i, GrownObjects(b, elems, value)), Added(b, elems))
    {
      var a := handles[i].value;
      var b := buffers[a];
      WidthPositive(b);
      LengthFits(b);
      GrownObjectsAreExact(b, elems, value);
      var v := if value.Some? then value.value else DEFAULT;
      var slots, built := ConstructRange(b.payload.slots, Length(b), Signed(elems), v);
      buffers := buffers[a := b.(payload := NonPod(b.payload.width, slots))];
      constructed := constructed + built;
      buffers := buffers[a := buffers[a].(size := Product(elems, b.payload.width))];
      assert buffers[a] == GrownObjects(b, elems, value);
    }

    /** allocate(), copyFrom() and the move over the old handle. */
    method CopyObjects(i: nat, elems: nat, value: Option<int>, pool: Pool, ans: PoolAnswer) returns (status: Status)
      requires Valid() && Holds(State(), i) && ValidNonPod(Held(State(), i))
      requires Held(State(), i).live && Held(State(), i).refs > 0
      modifies this
      ensures var b := old(Held(State(), i));
              var size := Product(elems, b.payload.width);
              && (status.Threw? <==> Overflows(size) || Overflows(size + PADDED) || !ans.ok)
              && (status.Threw? ==> State() == old(State()))
              && (status.Broke? <==> !status.Threw? && CopiedCount(b, elems) > Reached(0, elems))
              && (status.Returned? ==>
                    var c := CopiedObjects(pool, b, elems, value);
                    State() == Constructing(Replaced(old(State()), i, c), Reached(0, elems)))
    {
      hide Inv, Capacity, Reached, Assigned, FirstObjects, MoveLastTo;
      ghost var before := State();
      var b := buffers[handles[i].value];
      WidthPositive(b);
      var ok := AllocateObjects(elems, b.payload.width, value, pool, ans);
      if !ok { return Threw; }
      var n := CopiedCount(b, elems);
      if n > Reached(0, elems) { return Broke; }
      ObjectsToAssign(pool, b, elems, value);
      AssignFrom(|buffers| - 1, b, n);
      AssignedLast(before, pool, b, elems, value);
      ghost var added := Add(before, CopiedObjects(pool, b, elems, value));
      assert State() == Constructing(added, Reached(0, elems));
      MovesConstructing(added, Reached(0, elems), i);
      MoveLast(i);
      status := Returned;
    }

    /** copyFrom() of non-PODs. */
    method AssignFrom(a: nat, b: Buffer, n: nat)
      requires a < |buffers| && buffers[a].payload.NonPod? && b.payload.NonPod?
      requires n < INT_LIMIT && AllObjects(buffers[a].payload.slots, n) && AllObjects(b.payload.slots, n)
      modifies this`buffers
      ensures var c := old(buffers[a]);
              buffers == old(buffers)[a :=
                  c.(payload := NonPod(c.payload.width, Assigned(c.payload.slots, b.payload.slots, n)))]
    {
      var slots := AssignRange(buffers[a].payload.slots, b.payload.slots, n);
      buffers := buffers[a := buffers[a].(payload := NonPod(buffers[a].payload.width, slots))];
    }

    // ----- appendTo, copy and views -----

    /** setSize() followed by memcpy(). */
    method PutBytes(i: nat, at: nat, items: Bytes)
      requires Valid() && CanTake(State(), i, at + |items|)
      modifies this
      ensures State() == PutItems(old(State()), i, at, items) && Valid()
    {
      ghost var before := State();
      PutItemsKeeps(before, i, at, items);
      var a := handles[i].value;
      buffers := buffers[a := buffers[a].(size := at + |items|)];
      var bytes := buffers[a].payload.bytes;
      buffers := buffers[a := buffers[a].(payload := Pod(bytes[..at] + items + bytes[at + |items|..]))];
      assert State() == PutItems(before, i, at, items);
    }

    /** appendTo(): in place whenever the items fit, shared or not. */
    method AppendItems(i: nat, items: Bytes, pool: Pool, ans: PoolAnswer) returns (ok: bool)
      requires Valid() && Holds(State(), i) && Held(State(), i).payload.Pod?
      requires |ans.mem| == Capacity(pool, Product(Grown(Held(State(), i), items), 1))
      modifies this
      ensures old(ValidPod(Held(State(), i)) && Held(State(), i).refs > 0)
      ensures ok == AppendTo(old(State()), pool, i, items, ans).Some?
      ensures ok ==> State() == AppendTo(old(State()), pool, i, items, ans).value
      ensures !ok ==> State() == old(State())
      ensures Valid()
    {
      ghost var before := State();
      HeldIsValid(before, i);
      var b := buffers[handles[i].value];
      var newSize := b.size + |items|;
      if Overflows(newSize) { return false; }
      if newSize > b.capacity {
        if Overflows(2 * b.capacity) { return false; }
        GrowingAppend(before, pool, i, items, ans);
        ok := ReallocatePods(i, Grown(b, items), 1, None, pool, ans);
        if ok { PutBytes(i, b.size, items); }
      } else {
        PutBytes(i, b.size, items);
        ok := true;
      }
    }

    method CopyBuffer(i: nat, pool: Pool, ans: PoolAnswer) returns (ok: bool)
      requires Valid() && Holds(State(), i) && |ans.mem| == Capacity(pool, Held(State(), i).size)
      modifies this
      ensures old(Held(State(), i).live && ValidBuffer(Held(State(), i)))
      ensures ok == Copy(old(State()), pool, i, ans).Some?
      ensures State() == if ok then Copy(old(State()), pool, i, ans).value else old(State())
      ensures ok ==> Holds(State(), |old(handles)|) && Held(State(), |old(handles)|).refs == 1
                     && Read(Held(State(), |old(handles)|)) == old(Read(Held(State(), i)))
      ensures Valid()
    {
      ghost var before := State();
      CopyKeeps(before, pool, i, ans);
      CopySeen(before, pool, i, ans);
      hide Seen, Adds;
      var b := buffers[handles[i].value];
      if b.payload.NonPod? || Overflows(b.size + PADDED) || !ans.ok { return false; }
      AddBlock(CopyPrefix(ans.mem, b.payload.bytes, b.size), b.size);
      ok := true;
    }

    /** BufferView::create(). */
    method MakeView(bytes: Bytes)
      requires Valid()
      modifies this
      ensures State() == CreateView(old(State()), bytes) && Valid()
    {
      ghost var before := State();
      AddKeeps(before, Buffer(View(bytes), |bytes|, |bytes|, 1, true));
      handles := handles + [Some(|buffers|)];
      buffers := buffers + [Buffer(View(bytes), |bytes|, |bytes|, 1, true)];
      pins := pins + 1;
      assert State() == CreateView(before, bytes);
    }
  }

  lemma {:induction false} FirstObjectsBuilt(raw: seq<Slot>, elems: nat, v: int)
    requires elems <= |raw| && forall k | 0 <= k < |raw| :: raw[k] == Raw
    ensures Buffers.Resize(raw, 0, elems, v) == FirstObjects(|raw|, elems, v)
  {
  }

  predicate AllObjects(slots: seq<Slot>, n: nat) {
    n <= |slots| && forall k | 0 <= k < n :: slots[k].Object?
  }

  lemma {:induction false} ObjectsToAssign(pool: Pool, b: Buffer, elems: nat, value: Option<int>)
    requires ValidNonPod(b) && CopiedCount(b, elems) <= Reached(0, elems)
    ensures var n := CopiedCount(b, elems);
            AllObjects(NewNonPod(pool, elems, b.payload.width, value).payload.slots, n)
                && AllObjects(b.payload.slots, n)
  {
    NewObjectsFit(pool, elems, b.payload.width);
    LengthFits(b);
  }

  /** Assigning to the buffer added last is adding it with the objects assigned. */
  lemma {:induction false} AssignedLast(h: Heap, pool: Pool, b: Buffer, elems: nat, value: Option<int>)
    requires ValidNonPod(b)
    ensures var c := CopiedObjects(pool, b, elems, value);
            var g := Add(h, NewNonPod(pool, elems, b.payload.width, value));
            Add(h, c) == g.(buffers := g.buffers[|h.buffers| := c])
  {
  }

  lemma {:induction false} MovesConstructing(h: Heap, n: int, i: nat)
    requires Holds(h, i) && Held(h, i).refs > 0 && i < |h.handles| - 1 && h.handles[|h.handles| - 1].Some?
    ensures MoveLastTo(Constructing(h, n), i) == Constructing(MoveLastTo(h, i), n)
  {
  }

  lemma {:induction false} SizeFits(b: Buffer, size: nat)
    requires ValidNonPod(b) && size <= b.capacity
    ensures Quotient(size, b.payload.width) <= |b.payload.slots|
  {
    QuotientMonotone(size, b.capacity, b.payload.width);
  }

  lemma {:induction false} LengthFits(b: Buffer)
    requires ValidNonPod(b)
    ensures Length(b) <= |b.payload.slots|
    ensures forall k | 0 <= k < Length(b) :: b.payload.slots[k].Object?
    ensures forall k | Length(b) <= k < |b.payload.slots| :: b.payload.slots[k] == Raw
  {
    QuotientMonotone(b.size, b.capacity, b.payload.width);
  }
}
