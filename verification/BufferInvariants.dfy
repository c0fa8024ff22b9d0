/** Every operation on buffers keeps the heap invariant: counts, the pool's charge, object
    lifetimes and pins (velox/buffer/Buffer.h). */
module BufferInvariants {
  import opened Types
  import opened Ints
  import opened Widths
  import opened Buffers

  /** Replacing a buffer by one with the same count, the accounts following suit. */
  lemma {:induction false} ReplaceKeeps(h: Heap, a: nat, b: Buffer, constructed: int, destroyed: int)
    requires Inv(h) && a < |h.buffers|
    requires b.refs == h.buffers[a].refs && b.live == h.buffers[a].live && (b.live ==> ValidBuffer(b))
    requires constructed - destroyed == h.constructed - h.destroyed - Objects(h.buffers[a]) + Objects(b)
    ensures Inv(Heap(h.buffers[a := b], h.handles, h.charged - Charge(h.buffers[a]) + Charge(b), constructed, destroyed,
                     h.pins - Pin(h.buffers[a]) + Pin(b)))
  {
    SumUpdate(Charge, h.buffers, a, b);
    SumUpdate(Objects, h.buffers, a, b);
    SumUpdate(Pin, h.buffers, a, b);
    var h' := Heap(h.buffers[a := b], h.handles, h.charged - Charge(h.buffers[a]) + Charge(b), constructed, destroyed,
                   h.pins - Pin(h.buffers[a]) + Pin(b));
    forall k | 0 <= k < |h'.buffers| ensures BufferInv(h', k) {
      assert BufferInv(h, k) && BufferInv(h, a);
    }
  }

  /** Adding a buffer together with the construction of its objects. */
  lemma {:induction false} AddKeeps(h: Heap, b: Buffer)
    requires Inv(h) && b.refs == 1 && b.live && ValidBuffer(b)
    ensures Inv(Constructing(Add(h, b), Objects(b)))
    ensures !b.payload.NonPod? ==> Inv(Add(h, b))
  {
    var h' := Constructing(Add(h, b), Objects(b));
    forall k | 0 <= k < |h'.buffers| ensures BufferInv(h', k) {
      CountAppend(h.handles, Some(|h.buffers|), k);
      if k < |h.buffers| {
        assert BufferInv(h, k);
      } else {
        NoHandleBeyond(h, k);
      }
    }
    assert !b.payload.NonPod? ==> h' == Add(h, b);
  }

  lemma {:induction false} NoHandleBeyond(h: Heap, a: nat)
    requires forall i | 0 <= i < |h.handles| :: h.handles[i].Some? ==> h.handles[i].value < |h.buffers|
    requires a >= |h.buffers|
    ensures Count(h.handles, a) == 0
  {
    NoneCounted(h.handles, a);
  }

  lemma {:induction false} NoneCounted(hs: seq<Option<nat>>, a: nat)
    requires forall i | 0 <= i < |hs| :: hs[i] != Some(a)
    ensures Count(hs, a) == 0
  {
    if hs != [] {
      NoneCounted(hs[..|hs| - 1], a);
    }
  }

  /** The invariant with one reference to a still to be released. */
  ghost predicate Pending(h: Heap, a: nat) {
    && a < |h.buffers|
    && (forall i | 0 <= i < |h.handles| :: h.handles[i].Some? ==> h.handles[i].value < |h.buffers|)
    && (forall k | 0 <= k < |h.buffers| && k != a :: BufferInv(h, k))
    && h.buffers[a].refs == Count(h.handles, a) + 1 && h.buffers[a].live && ValidBuffer(h.buffers[a])
    && h.charged == Sum(Charge, h.buffers)
    && h.constructed - h.destroyed == Sum(Objects, h.buffers)
    && h.pins == Sum(Pin, h.buffers)
  }

  lemma {:induction false} ReleaseKeeps(h: Heap, a: nat)
    requires Pending(h, a)
    ensures Inv(Release(h, a))
  {
    var h' := Release(h, a);
    SumUpdate(Charge, h.buffers, a, h'.buffers[a]);
    SumUpdate(Objects, h.buffers, a, h'.buffers[a]);
    SumUpdate(Pin, h.buffers, a, h'.buffers[a]);
    forall k | 0 <= k < |h'.buffers| ensures BufferInv(h', k) {
      if k != a { assert BufferInv(h, k); }
    }
  }

  lemma {:induction false} DropKeeps(h: Heap, i: nat)
    requires Inv(h) && Holds(h, i)
    ensures Held(h, i).refs > 0 && Held(h, i).live && ValidBuffer(Held(h, i)) && Inv(Drop(h, i))
  {
    var a := h.handles[i].value;
    var h' := h.(handles := h.handles[i := None]);
    assert BufferInv(h, a);
    CountPositive(h.handles, i, a);
    forall k | 0 <= k < |h'.buffers| && k != a ensures BufferInv(h', k) {
      CountUpdate(h.handles, i, None, k);
      assert BufferInv(h, k);
    }
    CountUpdate(h.handles, i, None, a);
    assert Pending(h', a);
    ReleaseKeeps(h', a);
  }

  lemma {:induction false} CopyHandleKeeps(h: Heap, i: nat)
    requires Inv(h) && Holds(h, i)
    ensures Inv(CopyHandle(h, i))
  {
    hide Charge, Objects, Pin;
    var a, b, h' := h.handles[i].value, Held(h, i), CopyHandle(h, i);
    assert BufferInv(h, a);
    CountPositive(h.handles, i, a);
    SameCharges(b, b.refs + 1);
    SumUpdate(Charge, h.buffers, a, h'.buffers[a]);
    SumUpdate(Objects, h.buffers, a, h'.buffers[a]);
    SumUpdate(Pin, h.buffers, a, h'.buffers[a]);
    forall k | 0 <= k < |h'.buffers| ensures BufferInv(h', k) {
      CountAppend(h.handles, Some(a), k);
      assert BufferInv(h, k);
    }
  }

  lemma {:induction false} SameCharges(b: Buffer, n: nat)
    ensures var c := b.(refs := n); Charge(c) == Charge(b) && Objects(c) == Objects(b) && Pin(c) == Pin(b)
  {
  }

  lemma {:induction false} MoveLastKeeps(h: Heap, i: nat)
    requires Inv(h) && Holds(h, i) && i < |h.handles| - 1 && h.handles[|h.handles| - 1].Some?
    ensures Held(h, i).refs > 0 && Inv(MoveLastTo(h, i))
  {
    hide ValidBuffer, Charge, Objects, Freed;
    var last, a := |h.handles| - 1, h.handles[i].value;
    var hs := h.handles[i := h.handles[last]];
    var h' := h.(handles := hs[last := None]);
    assert BufferInv(h, a);
    CountPositive(h.handles, i, a);
    forall k | 0 <= k < |h.buffers|
      ensures Count(h'.handles, k) == Count(h.handles, k) - (if k == a then 1 else 0)
    {
      CountUpdate(h.handles, i, h.handles[last], k);
      CountUpdate(hs, last, None, k);
    }
    forall k | 0 <= k < |h'.buffers| && k != a ensures BufferInv(h', k) { assert BufferInv(h, k); }
    assert Pending(h', a);
    ReleaseKeeps(h', a);
  }

  // ----- the operations -----

  lemma {:induction false} HeldIsValid(h: Heap, i: nat)
    requires Inv(h) && Holds(h, i)
    ensures Held(h, i).live && Held(h, i).refs > 0 && ValidBuffer(Held(h, i))
    ensures Held(h, i).refs == Count(h.handles, h.handles[i].value)
  {
    assert BufferInv(h, h.handles[i].value);
    CountPositive(h.handles, i, h.handles[i].value);
  }

  /** setSize() either keeps the invariant, raises, or was asked for too many objects: exactly
      then its loops miss some of them or leave the buffer. */
  lemma {:induction false} SetSizeKeeps(h: Heap, i: nat, size: nat)
    requires Inv(h) && Holds(h, i)
    ensures var r, b := SetSize(h, i, size), Held(h, i);
            && ValidBuffer(b)
            && (!r.Raised? ==>
                  ((r.Done? && Inv(r.heap)) <==> !b.payload.NonPod? || Quotient(size, b.payload.width) < INT_LIMIT))
  {
    var r, a, b := SetSize(h, i, size), h.handles[i].value, Held(h, i);
    HeldIsValid(h, i);
    if r.Done? {
      var c := r.heap.buffers[a];
      if b.payload.NonPod? {
        ResizedIsExact(b, size);
      }
      if ValidBuffer(c) {
        ReplaceKeeps(h, a, c, r.heap.constructed, r.heap.destroyed);
      } else if Inv(r.heap) {
        HeldIsValid(r.heap, i);
      }
    }
  }

  /** After setSize() the objects are exactly those the size says, unless their count does not
      fit an int. */
  lemma {:induction false} ResizedIsExact(b: Buffer, size: nat)
    requires ValidNonPod(b) && Remainder(size, b.payload.width) == 0 && size <= b.capacity
    requires Signed(Quotient(size, b.payload.width)) >= 0
    ensures var w, n := b.payload.width, Quotient(size, b.payload.width);
            var c := b.(size := size, payload := NonPod(w, Resize(b.payload.slots, Length(b), Signed(n), DEFAULT)));
            && (Exact(c) <==> n < INT_LIMIT) && (n < INT_LIMIT ==> ValidBuffer(c))
  {
    var w := b.payload.width;
    QuotientMonotone(size, b.capacity, w);
    QuotientMonotone(b.size, b.capacity, w);
    var n, s := Quotient(size, w), Signed(Quotient(size, w));
    var slots := Resize(b.payload.slots, Length(b), s, DEFAULT);
    if s < n {
      assert slots[s] == Raw;
    }
  }

  /** Adding a valid buffer and moving its handle over handle i. */
  lemma {:induction false} AddMoveKeeps(h: Heap, b: Buffer, i: nat)
    requires Inv(h) && Holds(h, i) && b.refs == 1 && b.live && ValidBuffer(b)
    ensures Held(h, i).refs > 0 && Inv(Constructing(Replaced(h, i, b), Objects(b)))
    ensures !b.payload.NonPod? ==> Inv(Replaced(h, i, b))
  {
    AddKeeps(h, b);
    HeldIsValid(h, i);
    var g := Constructing(Add(h, b), Objects(b));
    MoveLastKeeps(g, i);
    assert MoveLastTo(g, i) == Constructing(Replaced(h, i, b), Objects(b));
    assert !b.payload.NonPod? ==> Constructing(Replaced(h, i, b), Objects(b)) == Replaced(h, i, b);
  }

  lemma {:induction false} ReallocatedPodIsValid(b: Buffer, size: nat, w: nat, init: Option<Bytes>, mem: Bytes)
    requires ValidPod(b) && ValidInit(w, init) && size <= |mem|
    ensures ValidBuffer(CopiedPod(b, size, w, init, mem)) && ValidBuffer(MovedPod(b, size, w, init, mem))
    ensures GrowsInPlace(b, size) ==> ValidBuffer(GrownPod(b, size, w, init))
  {
  }

  /** Replacing the held buffer without constructing or destroying objects. */
  lemma {:induction false} RewriteKeeps(h: Heap, i: nat, b: Buffer)
    requires Inv(h) && Holds(h, i) && ValidPod(Held(h, i)) && ValidPod(b)
    requires b.refs == Held(h, i).refs && b.live == Held(h, i).live
    ensures Inv(Rewrite(h, i, b))
  {
    ReplaceKeeps(h, h.handles[i].value, b, h.constructed, h.destroyed);
  }

  lemma {:induction false} ReallocatePodKeeps(
    h: Heap, pool: Pool, i: nat, elems: nat, w: nat, init: Option<Bytes>, ans: PoolAnswer)
    requires Inv(h) && Holds(h, i) && Held(h, i).payload.Pod?
    requires ValidInit(w, init) && |ans.mem| == Capacity(pool, Product(elems, w))
    ensures ValidPod(Held(h, i)) && Held(h, i).refs > 0
    ensures var r := ReallocatePod(h, pool, i, elems, w, init, ans); r.Some? ==> Inv(r.value)
  {
    HeldIsValid(h, i);
    var b, size := Held(h, i), Product(elems, w);
    ReallocatedPodIsValid(b, size, w, init, ans.mem);
    if GrowsInPlace(b, size) {
      RewriteKeeps(h, i, GrownPod(b, size, w, init));
    } else if b.refs != 1 {
      AddMoveKeeps(h, CopiedPod(b, size, w, init, ans.mem), i);
    } else if ans.moves {
      AddMoveKeeps(h, MovedPod(b, size, w, init, ans.mem), i);
    } else {
      RewriteKeeps(h, i, MovedPod(b, size, w, init, ans.mem));
    }
  }

  /** Growing in place constructs exactly the objects the size says, unless their count does
      not fit an int. */
  lemma {:induction false} GrownObjectsAreExact(b: Buffer, elems: nat, init: Option<int>)
    requires ValidNonPod(b) && GrowsInPlace(b, Product(elems, b.payload.width))
    ensures var c := GrownObjects(b, elems, init);
            && Length(c) == elems && Length(b) < elems <= |b.payload.slots|
            && (Exact(c) <==> elems < INT_LIMIT) && (elems < INT_LIMIT ==> ValidBuffer(c))
  {
    var w := b.payload.width;
    QuotientOfProduct(elems, w);
    QuotientStrict(b.size, Product(elems, w), w);
    QuotientMonotone(Product(elems, w), b.capacity, w);
    var c, n := GrownObjects(b, elems, init), Reached(Length(b), elems);
    if n < elems {
      assert c.payload.slots[n] == Raw;
    }
  }

  lemma {:induction false} NewObjectsFit(pool: Pool, elems: nat, w: nat)
    requires w > 0
    ensures elems <= Quotient(Capacity(pool, Product(elems, w)), w)
    ensures Quotient(Product(elems, w), w) == elems && Remainder(Product(elems, w), w) == 0
  {
    QuotientOfProduct(elems, w);
    QuotientMonotone(Product(elems, w), Capacity(pool, Product(elems, w)), w);
  }

  /** The same of a new buffer. */
  lemma {:induction false} NewObjectsAreExact(pool: Pool, elems: nat, w: nat, init: Option<int>)
    requires w > 0
    ensures var c := NewNonPod(pool, elems, w, init);
            && Length(c) == elems && (Exact(c) <==> elems < INT_LIMIT) && (elems < INT_LIMIT ==> ValidBuffer(c))
  {
    NewObjectsFit(pool, elems, w);
    var c, n := NewNonPod(pool, elems, w, init), Reached(0, elems);
    if n < elems {
      assert c.payload.slots[n] == Raw;
    }
  }

  /** And of a copy, if that is defined at all. */
  lemma {:induction false} CopiedObjectsAreExact(pool: Pool, b: Buffer, elems: nat, init: Option<int>)
    requires ValidNonPod(b) && CopiedCount(b, elems) <= Reached(0, elems)
    ensures var c := CopiedObjects(pool, b, elems, init);
            && c.refs == 1 && c.live && Length(c) == elems
            && (Exact(c) <==> elems < INT_LIMIT) && (elems < INT_LIMIT ==> ValidBuffer(c))
  {
    NewObjectsFit(pool, elems, b.payload.width);
    NewObjectsAreExact(pool, elems, b.payload.width, init);
    QuotientMonotone(b.size, b.capacity, b.payload.width);
    var c, n := CopiedObjects(pool, b, elems, init), Reached(0, elems);
    if n < elems {
      assert c.payload.slots[n] == Raw;
    }
  }

  lemma {:induction false} GrowKeeps(h: Heap, i: nat, elems: nat, init: Option<int>)
    requires Inv(h) && Holds(h, i) && Held(h, i).live && ValidNonPod(Held(h, i))
    requires GrowsInPlace(Held(h, i), Product(elems, Held(h, i).payload.width)) && Held(h, i).payload.width > 0
    ensures var g := Constructing(Rewrite(h, i, GrownObjects(Held(h, i), elems, init)), Added(Held(h, i), elems));
            Inv(g) <==> elems < INT_LIMIT
  {
    var b := Held(h, i);
    var c := GrownObjects(b, elems, init);
    GrownObjectsAreExact(b, elems, init);
    if elems < INT_LIMIT {
      ReplaceKeeps(h, h.handles[i].value, c, h.constructed + Added(b, elems), h.destroyed);
    } else {
      var g := Constructing(Rewrite(h, i, c), Added(b, elems));
      if Inv(g) { HeldIsValid(g, i); }
    }
  }

  /** The copying path of a non-POD reallocation. */
  lemma {:induction false} CopyingKeeps(h: Heap, pool: Pool, i: nat, elems: nat, init: Option<int>)
    requires Inv(h) && Holds(h, i) && ValidNonPod(Held(h, i)) && Held(h, i).refs > 0
    requires CopiedCount(Held(h, i), elems) <= Reached(0, elems)
    ensures var c := CopiedObjects(pool, Held(h, i), elems, init);
            Inv(Constructing(Replaced(h, i, c), Reached(0, elems))) <==> elems < INT_LIMIT
  {
    var c := CopiedObjects(pool, Held(h, i), elems, init);
    CopiedObjectsAreExact(pool, Held(h, i), elems, init);
    if elems < INT_LIMIT {
      AddMoveKeeps(h, c, i);
    } else {
      var g := Constructing(Replaced(h, i, c), Reached(0, elems));
      assert Held(g, i) == c;
      if Inv(g) { HeldIsValid(g, i); }
    }
  }

  /** reallocate() of objects either raises or keeps the invariant exactly when the new count
      fits an int. */
  lemma {:induction false} ReallocateNonPodKeeps(
    h: Heap, pool: Pool, i: nat, elems: nat, init: Option<int>, ans: PoolAnswer)
    requires Inv(h) && Holds(h, i) && Held(h, i).payload.NonPod?
    ensures ValidNonPod(Held(h, i)) && Held(h, i).refs > 0
    ensures var r := ReallocateNonPod(h, pool, i, elems, init, ans);
            !r.Raised? ==> ((r.Done? && Inv(r.heap)) <==> elems < INT_LIMIT)
  {
    HeldIsValid(h, i);
    var b := Held(h, i);
    WidthPositive(b);
    if GrowsInPlace(b, Product(elems, b.payload.width)) {
      GrowKeeps(h, i, elems, init);
    } else if CopiedCount(b, elems) <= Reached(0, elems) {
      CopyingKeeps(h, pool, i, elems, init);
    }
  }

  lemma {:induction false} WidthPositive(b: Buffer)
    requires ValidNonPod(b)
    ensures b.payload.width > 0
  {
  }

  lemma {:induction false} AllocatePodKeeps(
    h: Heap, pool: Pool, elems: nat, w: nat, init: Option<Bytes>, ans: PoolAnswer)
    requires Inv(h) && ValidInit(w, init) && |ans.mem| == Capacity(pool, Product(elems, w))
    ensures var r := AllocatePod(h, pool, elems, w, init, ans); r.Some? ==> Inv(r.value)
  {
    AddKeeps(h, NewPod(pool, Product(elems, w), w, init, ans.mem));
  }

  /** allocate() of objects keeps the invariant exactly when their count fits an int. */
  lemma {:induction false} AllocateNonPodKeeps(
    h: Heap, pool: Pool, elems: nat, w: nat, init: Option<int>, ans: PoolAnswer)
    requires Inv(h) && w > 0
    ensures var r := AllocateNonPod(h, pool, elems, w, init, ans); r.Some? ==> (Inv(r.value) <==> elems < INT_LIMIT)
  {
    var b := NewNonPod(pool, elems, w, init);
    NewObjectsAreExact(pool, elems, w, init);
    if elems < INT_LIMIT {
      AddKeeps(h, b);
    } else {
      var g := Constructing(Add(h, b), Reached(0, elems));
      assert Held(g, |h.handles|) == b;
      if Inv(g) { HeldIsValid(g, |h.handles|); }
    }
  }

  lemma {:induction false} PutItemsKeeps(h: Heap, i: nat, at: nat, items: Bytes)
    requires Inv(h) && CanTake(h, i, at + |items|)
    ensures Inv(PutItems(h, i, at, items))
  {
    HeldIsValid(h, i);
    RewriteKeeps(h, i, WriteAt(Held(h, i).(size := at + |items|), at, items));
  }

  lemma {:induction false} AppendToKeeps(h: Heap, pool: Pool, i: nat, items: Bytes, ans: PoolAnswer)
    requires Inv(h) && Holds(h, i) && Held(h, i).payload.Pod?
    requires |ans.mem| == Capacity(pool, Product(Grown(Held(h, i), items), 1))
    ensures ValidPod(Held(h, i)) && Held(h, i).refs > 0
    ensures var r := AppendTo(h, pool, i, items, ans); r.Some? ==> Inv(r.value)
  {
    HeldIsValid(h, i);
    var b := Held(h, i);
    ReallocatePodKeeps(h, pool, i, Grown(b, items), 1, None, ans);
    if AppendFits(b, items) {
      PutItemsKeeps(h, i, b.size, items);
    } else {
      var r := ReallocatePod(h, pool, i, Grown(b, items), 1, None, ans);
      if r.Some? && CanTake(r.value, i, b.size + |items|) {
        PutItemsKeeps(r.value, i, b.size, items);
      }
    }
  }

  lemma {:induction false} CopyKeeps(h: Heap, pool: Pool, i: nat, ans: PoolAnswer)
    requires Inv(h) && Holds(h, i) && |ans.mem| == Capacity(pool, Held(h, i).size)
    ensures Held(h, i).live && ValidBuffer(Held(h, i))
    ensures Copy(h, pool, i, ans).Some? ==> Inv(Copy(h, pool, i, ans).value)
  {
    HeldIsValid(h, i);
    if Copy(h, pool, i, ans).Some? {
      var b := Held(h, i);
      AddKeeps(h, Buffer(Pod(CopyPrefix(ans.mem, b.payload.bytes, b.size)), b.size, |ans.mem|, 1, true));
    }
  }

  lemma {:induction false} WriteByteKeeps(h: Heap, i: nat, at: nat, x: bv8)
    requires Inv(h) && Holds(h, i)
    ensures WriteByte(h, i, at, x).Some? ==> Inv(WriteByte(h, i, at, x).value)
  {
    HeldIsValid(h, i);
    if WriteByte(h, i, at, x).Some? {
      RewriteKeeps(h, i, Held(h, i).(payload := Pod(Held(h, i).payload.bytes[at := x])));
    }
  }
}
