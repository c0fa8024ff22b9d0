/** What the holders of buffers read before and after reallocate (velox/buffer/Buffer.h). */
module BufferContents {
  import opened Types
  import opened Ints
  import opened Widths
  import opened Buffers
  import opened BufferInvariants

  // ----- bytes -----

  /** Byte j of memory filled with the value init. */
  function PatternAt(init: Bytes, j: nat): bv8
    requires |init| > 0
  {
    init[Remainder(j, |init|)]
  }

  /** `after` is `before` cut, or extended by copies of init when one is given. */
  predicate ResizedTo(before: Bytes, after: Bytes, init: Option<Bytes>)
    requires init.Some? ==> |init.value| > 0
  {
    && (forall j | 0 <= j < |after| && j < |before| :: after[j] == before[j])
    && (init.Some? ==> forall j | |before| <= j < |after| :: after[j] == PatternAt(init.value, j))
  }

  /** The bytes of a last partial element, if any, already look like init. */
  predicate EndsCleanly(before: Bytes, init: Bytes)
    requires |init| > 0
  {
    forall j | RoundDown(|before|, |init|) <= j < |before| :: before[j] == PatternAt(init, j)
  }

  /** When filling new memory leaves the old bytes alone. */
  predicate FillsCleanly(before: Bytes, size: nat, init: Option<Bytes>)
    requires init.Some? ==> |init.value| > 0
  {
    init.None? || size <= |before| || EndsCleanly(before, init.value)
  }

  /** fillNewMemory starts at the last element boundary, so it overwrites a partial element. */
  lemma {:induction false} FillResizes(before: Bytes, base: Bytes, size: nat, w: nat, init: Option<Bytes>)
    requires ValidInit(w, init) && Remainder(size, w) == 0 && size <= |base|
    requires forall j | 0 <= j < size && j < |before| :: base[j] == before[j]
    ensures ResizedTo(before, FillNew(base, |before|, size, w, init)[..size], init)
        <==> FillsCleanly(before, size, init)
  {
    var f := FillNew(base, |before|, size, w, init);
    if init.Some? && size > |before| {
      forall j | RoundDown(|before|, w) <= j < size ensures f[j] == PatternAt(init.value, j) {
      }
      if ResizedTo(before, f[..size], init) {
        forall j | RoundDown(|before|, w) <= j < |before| ensures before[j] == PatternAt(init.value, j) {
          assert f[..size][j] == before[j];
        }
      }
    }
  }

  function UsedBytes(b: Buffer): Bytes
    requires ValidPod(b)
  {
    b.payload.bytes[..b.size]
  }

  /** The new buffer has one holder, the new size, and the resized bytes exactly when the old
      ones end cleanly. */
  predicate ResizedPod(b: Buffer, c: Buffer, size: nat, init: Option<Bytes>)
    requires ValidPod(b) && (init.Some? ==> |init.value| > 0)
  {
    && ValidPod(c) && c.size == size && c.refs == 1
    && (ResizedTo(UsedBytes(b), UsedBytes(c), init) <==> FillsCleanly(UsedBytes(b), size, init))
  }

  /** A copy made because the buffer is shared. */
  lemma {:induction false} CopiedPodResizes(b: Buffer, size: nat, w: nat, init: Option<Bytes>, mem: Bytes)
    requires ValidPod(b) && ValidInit(w, init) && Remainder(size, w) == 0 && size <= |mem|
    ensures ResizedPod(b, CopiedPod(b, size, w, init, mem), size, init)
  {
    FillResizes(UsedBytes(b), CopyPrefix(mem, b.payload.bytes, Min(size, b.size)), size, w, init);
  }

  /** A reallocation by the pool. */
  lemma {:induction false} MovedPodResizes(b: Buffer, size: nat, w: nat, init: Option<Bytes>, mem: Bytes)
    requires ValidPod(b) && ValidInit(w, init) && Remainder(size, w) == 0 && size <= |mem|
    ensures ResizedPod(b, MovedPod(b, size, w, init, mem), size, init)
  {
    FillResizes(UsedBytes(b), Carried(b.payload.bytes, mem), size, w, init);
  }

  // ----- holders -----

  /** Every handle other than i still holds a buffer that reads the same. */
  ghost predicate OthersRead(h: Heap, h': Heap, i: nat) {
    forall j: nat | j != i && Holds(h, j) :: ReadsTheSame(h, h', j)
  }

  predicate ReadsTheSame(h: Heap, h': Heap, j: nat)
    requires Holds(h, j)
  {
    Holds(h', j) && Read(Held(h', j)) == Read(Held(h, j)) && Held(h', j).size == Held(h, j).size
  }

  lemma {:induction false} RewriteSpares(h: Heap, i: nat, b: Buffer)
    requires Inv(h) && Holds(h, i) && Held(h, i).refs == 1
    ensures Holds(Rewrite(h, i, b), i) && Held(Rewrite(h, i, b), i) == b
    ensures OthersRead(h, Rewrite(h, i, b), i)
  {
    HeldIsValid(h, i);
    forall j: nat | j != i && Holds(h, j) ensures ReadsTheSame(h, Rewrite(h, i, b), j) {
      UniqueHandle(h.handles, i, j, h.handles[i].value);
    }
  }

  lemma {:induction false} ReplacedSpares(h: Heap, i: nat, b: Buffer)
    requires Inv(h) && Holds(h, i) && Held(h, i).refs > 0
    ensures Holds(Replaced(h, i, b), i) && Held(Replaced(h, i, b), i) == b
    ensures OthersRead(h, Replaced(h, i, b), i)
  {
    var h' := Replaced(h, i, b);
    HeldIsValid(h, i);
    forall j: nat | j != i && Holds(h, j) ensures ReadsTheSame(h, h', j) {
      if Held(h, i).refs == 1 {
        UniqueHandle(h.handles, i, j, h.handles[i].value);
      }
    }
  }

  /** reallocate of PODs: the caller's handle holds the old bytes cut or extended to the new
      size, exactly when those end cleanly; every other handle reads what it read before. */
  lemma {:induction false} ReallocatePodContents(
    h: Heap, pool: Pool, i: nat, elems: nat, w: nat, init: Option<Bytes>, ans: PoolAnswer)
    requires Inv(h) && Holds(h, i) && ValidPod(Held(h, i)) && Held(h, i).refs > 0
    requires ValidInit(w, init) && |ans.mem| == Capacity(pool, Product(elems, w))
    ensures var r := ReallocatePod(h, pool, i, elems, w, init, ans);
            r.Some? ==> && Holds(r.value, i)
                        && ResizedPod(Held(h, i), Held(r.value, i), Product(elems, w), init)
                        && OthersRead(h, r.value, i)
  {
    var b, size := Held(h, i), Product(elems, w);
    QuotientOfProduct(elems, w);
    if GrowsInPlace(b, size) {
      RewriteSpares(h, i, GrownPod(b, size, w, init));
    } else if b.refs != 1 {
      CopiedPodResizes(b, size, w, init, ans.mem);
      ReplacedSpares(h, i, CopiedPod(b, size, w, init, ans.mem));
    } else if ans.moves {
      MovedPodResizes(b, size, w, init, ans.mem);
      ReplacedSpares(h, i, MovedPod(b, size, w, init, ans.mem));
    } else {
      MovedPodResizes(b, size, w, init, ans.mem);
      RewriteSpares(h, i, MovedPod(b, size, w, init, ans.mem));
    }
  }

  /** A partial element at the end of the buffer is overwritten by the fill. */
  lemma {:induction false} PartialElementIsOverwritten()
    ensures var before, init := [1 as bv8, 2, 3], [0 as bv8, 0];
            && !FillsCleanly(before, 4, Some(init))
            && FillNew(before + [9], 3, 4, 2, Some(init)) == [1, 2, 0, 0]
  {
    var before, init := [1 as bv8, 2, 3], [0 as bv8, 0];
    assert Remainder(2, 2) == 0 && Remainder(3, 2) == 1 && Remainder(4, 2) == 0;
    assert before[2] != PatternAt(init, 2);
  }

  // ----- objects -----

  function UsedObjects(b: Buffer): (r: seq<Slot>)
    requires ValidNonPod(b)
    ensures |r| == Length(b) <= |b.payload.slots|
  {
    QuotientMonotone(b.size, b.capacity, b.payload.width);
    b.payload.slots[..Length(b)]
  }

  /** The old objects cut or extended by copies of init, default objects if there is none. */
  predicate ResizedObjects(before: seq<Slot>, after: seq<Slot>, init: Option<int>) {
    forall j | 0 <= j < |after| ::
      after[j] == if j < |before| then before[j] else Object(if init.Some? then init.value else DEFAULT)
  }

  predicate ResizedNonPod(b: Buffer, c: Buffer, elems: nat, init: Option<int>)
    requires ValidNonPod(b)
  {
    && ValidNonPod(c) && c.payload.width == b.payload.width && c.size == Product(elems, b.payload.width) && c.refs == 1
    && |UsedObjects(c)| == elems && ResizedObjects(UsedObjects(b), UsedObjects(c), init)
  }

  /** Slot j of the objects of b extended by init. */
  function ExtendedAt(b: Buffer, j: nat, init: Option<int>): Slot
    requires ValidNonPod(b)
  {
    if j < |UsedObjects(b)| then UsedObjects(b)[j] else Object(if init.Some? then init.value else DEFAULT)
  }

  lemma {:induction false} SlotsResize(b: Buffer, c: Buffer, elems: nat, init: Option<int>)
    requires ValidNonPod(b) && ValidNonPod(c) && c.refs == 1
    requires c.payload.width == b.payload.width && c.size == Product(elems, b.payload.width)
    requires forall j | 0 <= j < |c.payload.slots| && j < elems :: c.payload.slots[j] == ExtendedAt(b, j, init)
    ensures ResizedNonPod(b, c, elems, init)
  {
    QuotientOfProduct(elems, b.payload.width);
    QuotientMonotone(c.size, c.capacity, b.payload.width);
  }

  lemma {:induction false} GrownObjectsResize(b: Buffer, elems: nat, init: Option<int>)
    requires ValidNonPod(b) && GrowsInPlace(b, Product(elems, b.payload.width))
    ensures ResizedNonPod(b, GrownObjects(b, elems, init), elems, init) <==> elems < INT_LIMIT
  {
    GrownObjectsAreExact(b, elems, init);
    if elems < INT_LIMIT {
      SlotsResize(b, GrownObjects(b, elems, init), elems, init);
    }
  }

  lemma {:induction false} CopiedObjectsResize(pool: Pool, b: Buffer, elems: nat, init: Option<int>)
    requires ValidNonPod(b) && CopiedCount(b, elems) <= Reached(0, elems)
    ensures ResizedNonPod(b, CopiedObjects(pool, b, elems, init), elems, init) <==> elems < INT_LIMIT
  {
    CopiedObjectsAreExact(pool, b, elems, init);
    if elems < INT_LIMIT {
      var c, n := CopiedObjects(pool, b, elems, init), |UsedObjects(b)|;
      forall j | 0 <= j < |c.payload.slots| && j < elems ensures c.payload.slots[j] == ExtendedAt(b, j, init) {
        if j < n {
          assert UsedObjects(b)[j] == b.payload.slots[j];
        }
      }
      SlotsResize(b, c, elems, init);
    }
  }

  /** reallocate of objects: unless it raises, the caller's handle holds the old objects cut or
      extended exactly when the new count fits an int; where it returns, every other handle
      reads what it read before. */
  lemma {:induction false} ReallocateNonPodContents(
    h: Heap, pool: Pool, i: nat, elems: nat, init: Option<int>, ans: PoolAnswer)
    requires Inv(h) && Holds(h, i) && ValidNonPod(Held(h, i)) && Held(h, i).refs > 0
    ensures var r := ReallocateNonPod(h, pool, i, elems, init, ans);
            && (r.Done? ==> Holds(r.heap, i) && OthersRead(h, r.heap, i))
            && (!r.Raised? ==>
                  ((r.Done? && ResizedNonPod(Held(h, i), Held(r.heap, i), elems, init)) <==> elems < INT_LIMIT))
  {
    var b := Held(h, i);
    WidthPositive(b);
    if GrowsInPlace(b, Product(elems, b.payload.width)) {
      GrownObjectsResize(b, elems, init);
      RewriteSpares(h, i, GrownObjects(b, elems, init));
    } else if CopiedCount(b, elems) <= Reached(0, elems) {
      CopiedObjectsResize(pool, b, elems, init);
      ReplacedSpares(h, i, CopiedObjects(pool, b, elems, init));
    }
  }
}
