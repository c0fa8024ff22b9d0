/** The heap of reference-counted buffers as a value: what each operation of
    velox/buffer/Buffer.h does to handles, counts, contents and the pool's charge. */
module Buffers {
  import opened Types
  import opened Ints
  import opened Widths

  type Bytes = seq<bv8>

  /** kPaddedSize: the 64-byte header and the padding behind the payload, which is the width of
      a SIMD register, 32 bytes where vectors are 256 bits wide (AVX2). */
  const PADDED: nat := 96

  /** size_t arithmetic is checked and raises on overflow. */
  const SIZE_LIMIT: nat := 0x1_0000_0000_0000_0000

  /** A cell of a non-POD buffer: raw memory or a constructed object. */
  datatype Slot = Raw | Object(v: int)

  /** T(): the default-constructed object. */
  const DEFAULT := 0

  /** A POD buffer holds bytes, a non-POD buffer holds objects of a fixed width, and a view
      refers to bytes it does not own. */
  datatype Payload =
    | Pod(bytes: Bytes)
    | NonPod(width: nat, slots: seq<Slot>)
    | View(bytes: Bytes)

  datatype Buffer = Buffer(payload: Payload, size: nat, capacity: nat, refs: nat, live: bool)

  /** Buffers by address, handles (BufferPtr variables) by number, the bytes charged to the
      pool, the objects constructed and destroyed so far, and the pins held by views. */
  datatype Heap = Heap(
    buffers: seq<Buffer>,
    handles: seq<Option<nat>>,
    charged: int,
    constructed: int,
    destroyed: int,
    pins: int)

  /** The heap before any allocation. */
  const EMPTY := Heap([], [], 0, 0, 0, 0)

  // ----- sums over the heap -----

  function Charge(b: Buffer): int {
    if b.live && !b.payload.View? then b.capacity + PADDED else 0
  }

  /** The number of objects of a non-POD buffer. */
  function Length(b: Buffer): nat
    requires b.payload.NonPod? && b.payload.width > 0
  {
    Quotient(b.size, b.payload.width)
  }

  function Objects(b: Buffer): int {
    if b.live && b.payload.NonPod? && b.payload.width > 0 then Length(b) else 0
  }

  function Pin(b: Buffer): int {
    if b.live && b.payload.View? then 1 else 0
  }

  function Sum(f: Buffer -> int, bs: seq<Buffer>): int {
    if bs == [] then 0 else Sum(f, bs[..|bs| - 1]) + f(bs[|bs| - 1])
  }

  function Count(hs: seq<Option<nat>>, a: nat): nat {
    if hs == [] then 0 else Count(hs[..|hs| - 1], a) + (if hs[|hs| - 1] == Some(a) then 1 else 0)
  }

  lemma {:induction false} SumUpdate(f: Buffer -> int, bs: seq<Buffer>, i: nat, b: Buffer)
    requires i < |bs|
    ensures Sum(f, bs[i := b]) == Sum(f, bs) - f(bs[i]) + f(b)
  {
    var n := |bs| - 1;
    if i < n {
      SumUpdate(f, bs[..n], i, b);
      assert bs[i := b][..n] == bs[..n][i := b];
    } else {
      assert bs[i := b][..n] == bs[..n];
    }
  }

  lemma {:induction false} CountUpdate(hs: seq<Option<nat>>, i: nat, x: Option<nat>, a: nat)
    requires i < |hs|
    ensures Count(hs[i := x], a) == Count(hs, a) - (if hs[i] == Some(a) then 1 else 0) + (if x == Some(a) then 1 else 0)
  {
    var n := |hs| - 1;
    if i < n {
      CountUpdate(hs[..n], i, x, a);
      assert hs[i := x][..n] == hs[..n][i := x];
    } else {
      assert hs[i := x][..n] == hs[..n];
    }
  }

  lemma {:induction false} CountAppend(hs: seq<Option<nat>>, x: Option<nat>, a: nat)
    ensures Count(hs + [x], a) == Count(hs, a) + (if x == Some(a) then 1 else 0)
  {
    assert (hs + [x])[..|hs|] == hs;
  }

  lemma {:induction false} CountPositive(hs: seq<Option<nat>>, i: nat, a: nat)
    requires i < |hs| && hs[i] == Some(a)
    ensures Count(hs, a) > 0
  {
    if i < |hs| - 1 {
      CountPositive(hs[..|hs| - 1], i, a);
    }
  }

  /** A buffer with a single handle is not reachable through any other. */
  lemma {:induction false} UniqueHandle(hs: seq<Option<nat>>, i: nat, j: nat, a: nat)
    requires i < |hs| && j < |hs| && hs[i] == Some(a) && Count(hs, a) == 1 && i != j
    ensures hs[j] != Some(a)
  {
    if hs[j] == Some(a) {
      CountUpdate(hs, i, None, a);
      CountPositive(hs[i := None], j, a);
    }
  }

  // ----- the invariant -----

  /** The constructed objects of a non-POD buffer are exactly the first size / width. */
  predicate Exact(b: Buffer)
    requires b.payload.NonPod? && b.payload.width > 0
  {
    forall i | 0 <= i < |b.payload.slots| :: b.payload.slots[i].Object? <==> i < Length(b)
  }

  /** The loops of the code count objects in an int. */
  predicate ValidBuffer(b: Buffer) {
    && b.size <= b.capacity
    && match b.payload
       case Pod(bytes) => |bytes| == b.capacity
       case View(bytes) => |bytes| == b.capacity
       case NonPod(w, slots) =>
         && w > 0 && Remainder(b.size, w) == 0 && |slots| == Quotient(b.capacity, w)
         && Exact(b) && Length(b) < INT_LIMIT
  }

  /** Counts equal the number of handles, a buffer is live as long as it has one, the pool is
      charged for exactly the live pooled buffers, and no object is lost or leaked. */
  ghost predicate Inv(h: Heap) {
    && (forall i | 0 <= i < |h.handles| :: h.handles[i].Some? ==> h.handles[i].value < |h.buffers|)
    && (forall a | 0 <= a < |h.buffers| :: BufferInv(h, a))
    && h.charged == Sum(Charge, h.buffers)
    && h.constructed - h.destroyed == Sum(Objects, h.buffers)
    && h.pins == Sum(Pin, h.buffers)
  }

  ghost predicate BufferInv(h: Heap, a: nat)
    requires a < |h.buffers|
  {
    var b := h.buffers[a];
    && b.refs == Count(h.handles, a)
    && (b.live <==> b.refs > 0)
    && (b.live ==> ValidBuffer(b))
  }

  datatype Content = ByteContent(bytes: Bytes) | ObjectContent(objects: seq<Slot>)

  /** What a holder reads: the used bytes, or the used objects. */
  function Read(b: Buffer): Content {
    match b.payload
    case Pod(bytes) => ByteContent(if b.size <= |bytes| then bytes[..b.size] else bytes)
    case View(bytes) => ByteContent(if b.size <= |bytes| then bytes[..b.size] else bytes)
    case NonPod(w, slots) => ObjectContent(if w > 0 && Length(b) <= |slots| then slots[..Length(b)] else slots)
  }

  predicate Holds(h: Heap, i: nat) {
    i < |h.handles| && h.handles[i].Some? && h.handles[i].value < |h.buffers|
  }

  function Held(h: Heap, i: nat): Buffer
    requires Holds(h, i)
  {
    h.buffers[h.handles[i].value]
  }

  // ----- reference counting -----

  /** Copying a BufferPtr: addRef(). */
  function CopyHandle(h: Heap, i: nat): Heap
    requires Holds(h, i)
  {
    var a, b := h.handles[i].value, Held(h, i);
    h.(buffers := h.buffers[a := b.(refs := b.refs + 1)], handles := h.handles + [Some(a)])
  }

  /** release(): the last reference destroys the objects and returns the memory. */
  function Release(h: Heap, a: nat): Heap
    requires a < |h.buffers| && h.buffers[a].refs > 0
  {
    var b := h.buffers[a];
    if b.refs > 1 then h.(buffers := h.buffers[a := b.(refs := b.refs - 1)])
    else
      Heap(h.buffers[a := Freed(b)], h.handles, h.charged - Charge(b), h.constructed, h.destroyed + Objects(b),
           h.pins - Pin(b))
  }

  function Freed(b: Buffer): Buffer {
    var p := if b.payload.NonPod? then b.payload.(slots := seq(|b.payload.slots|, _ => Raw)) else b.payload;
    b.(payload := p, refs := 0, live := false)
  }

  /** Destroying a BufferPtr, or assigning null to it. */
  function Drop(h: Heap, i: nat): Heap
    requires Holds(h, i) && Held(h, i).refs > 0
  {
    var a := h.handles[i].value;
    Release(h.(handles := h.handles[i := None]), a)
  }

  // ----- allocation -----

  /** preferredSize() of the memory pool rounds a size up; the pool is given by what it adds. */
  type Pool = nat -> nat

  /** The payload of a block that preferredSize() makes of size and padding. */
  function Capacity(pool: Pool, size: nat): (r: nat)
    ensures r >= size
  {
    size + pool(size + PADDED)
  }

  /** What an operation comes to: a new heap, a raised error, or undefined behaviour. */
  datatype Result = Done(heap: Heap) | Raised | Undefined

  function ResultOf(r: Option<Heap>): Result {
    if r.Some? then Done(r.value) else Raised
  }

  /** What the memory pool answers: whether it can serve the request, the bytes found in the
      memory it hands out, and whether reallocation moves the block. */
  datatype PoolAnswer = PoolAnswer(ok: bool, mem: Bytes, moves: bool)

  predicate Overflows(n: nat) {
    n >= SIZE_LIMIT
  }

  predicate ValidInit(w: nat, init: Option<Bytes>) {
    w > 0 && (init.Some? ==> |init.value| == w)
  }

  /** Bytes from..to overwritten by copies of init. */
  function Filled(bytes: Bytes, from: nat, to: nat, init: Bytes): (r: Bytes)
    requires |init| > 0
    ensures |r| == |bytes|
  {
    seq(|bytes|, j requires 0 <= j < |bytes| => if from <= j < to then init[Remainder(j, |init|)] else bytes[j])
  }

  /** fillNewMemory for PODs: std::fill over whole elements, rounded down at both ends. */
  function FillNew(bytes: Bytes, oldSize: nat, newSize: nat, w: nat, init: Option<Bytes>): (r: Bytes)
    requires ValidInit(w, init)
    ensures |r| == |bytes|
  {
    if newSize <= oldSize || init.None? then bytes
    else Filled(bytes, RoundDown(oldSize, w), RoundDown(newSize, w), init.value)
  }

  function NewPod(pool: Pool, size: nat, w: nat, init: Option<Bytes>, mem: Bytes): Buffer
    requires ValidInit(w, init) && |mem| == Capacity(pool, size)
  {
    Buffer(Pod(FillNew(mem, 0, size, w, init)), size, |mem|, 1, true)
  }

  function FirstObjects(n: nat, filled: nat, v: int): seq<Slot> {
    seq(n, i => if i < filled then Object(v) else Raw)
  }

  /** Where a loop of int i from a count up to the narrowed count n ends. */
  function Reached(from: nat, n: nat): (r: nat)
    ensures n < INT_LIMIT && from <= n ==> r == n
    ensures from <= n ==> r <= n && (from < INT_LIMIT <= n ==> r < n)
  {
    if Signed(n) > from then Signed(n) else from
  }

  /** A non-POD buffer as allocate() leaves it: the size says elems, and the objects up to the
      narrowed count are constructed. */
  function NewNonPod(pool: Pool, elems: nat, w: nat, init: Option<int>): Buffer
    requires w > 0
  {
    var size := Product(elems, w);
    var capacity, v := Capacity(pool, size), if init.Some? then init.value else DEFAULT;
    Buffer(NonPod(w, FirstObjects(Quotient(capacity, w), Reached(0, elems), v)), size, capacity, 1, true)
  }

  /** Adds a freshly allocated buffer and the handle that owns it. */
  function Add(h: Heap, b: Buffer): Heap {
    Heap(h.buffers + [b], h.handles + [Some(|h.buffers|)], h.charged + Charge(b), h.constructed, h.destroyed,
         h.pins + Pin(b))
  }

  /** n objects are constructed. */
  function Constructing(h: Heap, n: int): Heap {
    h.(constructed := h.constructed + n)
  }

  /** allocate<T> for PODs. */
  function AllocatePod(h: Heap, pool: Pool, elems: nat, w: nat, init: Option<Bytes>, ans: PoolAnswer): Option<Heap>
    requires ValidInit(w, init) && |ans.mem| == Capacity(pool, Product(elems, w))
  {
    var size := Product(elems, w);
    if Overflows(size) || Overflows(size + PADDED) || !ans.ok then None
    else Some(Add(h, NewPod(pool, size, w, init, ans.mem)))
  }

  /** allocate<T> for non-PODs of width w. */
  function AllocateNonPod(h: Heap, pool: Pool, elems: nat, w: nat, init: Option<int>, ans: PoolAnswer): Option<Heap>
    requires w > 0
  {
    var size := Product(elems, w);
    if Overflows(size) || Overflows(size + PADDED) || !ans.ok then None
    else Some(Constructing(Add(h, NewNonPod(pool, elems, w, init)), Reached(0, elems)))
  }

  /** *buffer = std::move(newBuffer), newBuffer being the last handle. */
  function MoveLastTo(h: Heap, i: nat): Heap
    requires Holds(h, i) && Held(h, i).refs > 0 && i < |h.handles| - 1 && h.handles[|h.handles| - 1].Some?
  {
    var last := |h.handles| - 1;
    Release(h.(handles := h.handles[i := h.handles[last]][last := None]), h.handles[i].value)
  }

  /** Allocates b and moves its handle over handle i. */
  function Replaced(h: Heap, i: nat, b: Buffer): Heap
    requires Holds(h, i) && Held(h, i).refs > 0
  {
    MoveLastTo(Add(h, b), i)
  }

  // ----- setSize -----

  /** setSize() of all three kinds: objects between the old and the new size are default
      constructed or destroyed. The new count is narrowed; if it turns negative, destruction
      starts before the buffer. */
  function SetSize(h: Heap, i: nat, size: nat): Result
    requires Holds(h, i)
  {
    var a, b := h.handles[i].value, Held(h, i);
    match b.payload
    case View(_) => Raised
    case Pod(_) => if size > b.capacity then Raised else Done(h.(buffers := h.buffers[a := b.(size := size)]))
    case NonPod(w, slots) =>
      if w == 0 || Remainder(b.size, w) != 0 || Remainder(size, w) != 0 || size > b.capacity then Raised
      else if Signed(Quotient(size, w)) < 0 then Undefined
      else
        var oldN, newN: nat := Length(b), Signed(Quotient(size, w));
        Done(h.(buffers := h.buffers[a := b.(size := size, payload := NonPod(w, Resize(slots, oldN, newN, DEFAULT)))],
                constructed := h.constructed + (if newN > oldN then newN - oldN else 0),
                destroyed := h.destroyed + (if oldN > newN then oldN - newN else 0)))
  }

  function Resize(slots: seq<Slot>, oldN: nat, newN: nat, v: int): (r: seq<Slot>)
    ensures |r| == |slots|
  {
    seq(|slots|, i requires 0 <= i < |slots| =>
      if oldN <= i < newN then Object(v) else if newN <= i < oldN then Raw else slots[i])
  }

  // ----- reallocate -----

  /** The bytes of a grown or cut block: the common prefix is kept. */
  function Carried(before: Bytes, mem: Bytes): (r: Bytes)
    ensures |r| == |mem|
  {
    seq(|mem|, j requires 0 <= j < |mem| => if j < |before| then before[j] else mem[j])
  }

  function Min(a: nat, b: nat): nat {
    if a < b then a else b
  }

  /** copyFrom() of PODs: the first n bytes. */
  function CopyPrefix(to: Bytes, from: Bytes, n: nat): (r: Bytes)
    requires n <= |to| && n <= |from|
    ensures |r| == |to|
  {
    from[..n] + to[n..]
  }

  predicate GrowsInPlace(b: Buffer, size: nat) {
    b.size < size < b.capacity && b.refs == 1
  }

  /** Stores b in place of the buffer held by handle i, adjusting the pool's charge. */
  function Rewrite(h: Heap, i: nat, b: Buffer): Heap
    requires Holds(h, i)
  {
    h.(buffers := h.buffers[h.handles[i].value := b], charged := h.charged - Charge(Held(h, i)) + Charge(b))
  }

  /** fillNewMemory for non-PODs constructs the elements behind the old size, up to the
      narrowed new count. */
  function Added(b: Buffer, elems: nat): int
    requires b.payload.NonPod? && b.payload.width > 0
  {
    Reached(Length(b), elems) - Length(b)
  }

  predicate ValidPod(b: Buffer) {
    b.payload.Pod? && ValidBuffer(b)
  }

  /** In place: only the new bytes are filled. */
  function GrownPod(b: Buffer, size: nat, w: nat, init: Option<Bytes>): Buffer
    requires ValidPod(b) && ValidInit(w, init)
  {
    b.(size := size, payload := Pod(FillNew(b.payload.bytes, b.size, size, w, init)))
  }

  /** Shared: a new buffer with the used bytes copied over. */
  function CopiedPod(b: Buffer, size: nat, w: nat, init: Option<Bytes>, mem: Bytes): Buffer
    requires ValidPod(b) && ValidInit(w, init) && size <= |mem|
  {
    var copied := CopyPrefix(mem, b.payload.bytes, Min(size, b.size));
    Buffer(Pod(FillNew(copied, b.size, size, w, init)), size, |mem|, 1, true)
  }

  /** Unique: the block as reallocated by the pool. */
  function MovedPod(b: Buffer, size: nat, w: nat, init: Option<Bytes>, mem: Bytes): Buffer
    requires ValidPod(b) && ValidInit(w, init)
  {
    Buffer(Pod(FillNew(Carried(b.payload.bytes, mem), b.size, size, w, init)), size, |mem|, 1, true)
  }

  /** reallocate<T> for POD element types of width w. */
  function ReallocatePod(
    h: Heap, pool: Pool, i: nat, elems: nat, w: nat, init: Option<Bytes>, ans: PoolAnswer): Option<Heap>
    requires Holds(h, i) && ValidPod(Held(h, i)) && Held(h, i).refs > 0
    requires ValidInit(w, init) && |ans.mem| == Capacity(pool, Product(elems, w))
  {
    var size, b := Product(elems, w), Held(h, i);
    if Overflows(size) then None
    else if GrowsInPlace(b, size) then Some(Rewrite(h, i, GrownPod(b, size, w, init)))
    else if Overflows(size + PADDED) || !ans.ok then None
    else if b.refs != 1 then Some(Replaced(h, i, CopiedPod(b, size, w, init, ans.mem)))
    else if ans.moves then Some(Replaced(h, i, MovedPod(b, size, w, init, ans.mem)))
    else Some(Rewrite(h, i, MovedPod(b, size, w, init, ans.mem)))
  }

  predicate ValidNonPod(b: Buffer) {
    b.payload.NonPod? && ValidBuffer(b)
  }

  /** In place: the new objects are copy or default constructed. */
  function GrownObjects(b: Buffer, elems: nat, init: Option<int>): Buffer
    requires ValidNonPod(b)
  {
    var w, v := b.payload.width, if init.Some? then init.value else DEFAULT;
    var slots := Resize(b.payload.slots, Length(b), Reached(Length(b), elems), v);
    b.(size := Product(elems, w), payload := NonPod(w, slots))
  }

  /** A new buffer of constructed objects, the first ones assigned from the old buffer. */
  function CopiedObjects(pool: Pool, b: Buffer, elems: nat, init: Option<int>): Buffer
    requires ValidNonPod(b)
  {
    var w := b.payload.width;
    var n := NewNonPod(pool, elems, w, init);
    n.(payload := NonPod(w, Assigned(n.payload.slots, b.payload.slots, CopiedCount(b, elems))))
  }

  /** The number of objects that reallocate() assigns to the new buffer. */
  function CopiedCount(b: Buffer, elems: nat): nat
    requires b.payload.NonPod? && b.payload.width > 0
  {
    Min(elems, Length(b))
  }

  /** reallocate<T> for a non-POD T: in place, or by allocating, assigning and releasing.
      Assignment to an object that was not constructed is undefined. */
  function ReallocateNonPod(h: Heap, pool: Pool, i: nat, elems: nat, init: Option<int>, ans: PoolAnswer): Result
    requires Holds(h, i) && ValidNonPod(Held(h, i)) && Held(h, i).refs > 0
  {
    var b := Held(h, i);
    var size := Product(elems, b.payload.width);
    if Overflows(size) then Raised
    else if GrowsInPlace(b, size) then
      Done(Constructing(Rewrite(h, i, GrownObjects(b, elems, init)), Added(b, elems)))
    else if Overflows(size + PADDED) || !ans.ok then Raised
    else if CopiedCount(b, elems) > Reached(0, elems) then Undefined
    else Done(Constructing(Replaced(h, i, CopiedObjects(pool, b, elems, init)), Reached(0, elems)))
  }

  /** copyFrom() of non-PODs: to[i] = from[i] for the first n objects. */
  function Assigned(to: seq<Slot>, from: seq<Slot>, n: nat): (r: seq<Slot>)
    ensures |r| == |to|
  {
    seq(|to|, i requires 0 <= i < |to| => if i < n && i < |from| then from[i] else to[i])
  }

  // ----- appendTo and copy -----

  function WriteAt(b: Buffer, at: nat, items: Bytes): Buffer
    requires b.payload.Pod? && at + |items| <= |b.payload.bytes|
  {
    b.(payload := Pod(b.payload.bytes[..at] + items + b.payload.bytes[at + |items|..]))
  }

  predicate AppendFits(b: Buffer, items: Bytes) {
    b.size + |items| <= b.capacity
  }

  /** The number of bytes appendTo() asks for when the items do not fit. */
  function Grown(b: Buffer, items: Bytes): nat {
    if 2 * b.capacity < b.size + |items| then b.size + |items| else 2 * b.capacity
  }

  predicate CanTake(h: Heap, i: nat, size: nat) {
    Holds(h, i) && Held(h, i).payload.Pod? && size <= Held(h, i).capacity && size <= |Held(h, i).payload.bytes|
  }

  /** setSize(at + items), then memcpy of the items to offset at. */
  function PutItems(h: Heap, i: nat, at: nat, items: Bytes): Heap
    requires CanTake(h, i, at + |items|)
  {
    var b := Held(h, i).(size := at + |items|);
    Rewrite(h, i, WriteAt(b, at, items))
  }

  /** appendTo(): grows to at least twice the capacity when the items do not fit, and writes
      in place otherwise, whether or not the buffer is shared. */
  function AppendTo(h: Heap, pool: Pool, i: nat, items: Bytes, ans: PoolAnswer): Option<Heap>
    requires Holds(h, i) && ValidPod(Held(h, i)) && Held(h, i).refs > 0
    requires |ans.mem| == Capacity(pool, Product(Grown(Held(h, i), items), 1))
  {
    var b := Held(h, i);
    var newSize := b.size + |items|;
    if Overflows(newSize) then None
    else if AppendFits(b, items) then Some(PutItems(h, i, b.size, items))
    else if Overflows(2 * b.capacity) then None
    else
      var r := ReallocatePod(h, pool, i, Grown(b, items), 1, None, ans);
      if r.None? || !CanTake(r.value, i, newSize) then None else Some(PutItems(r.value, i, b.size, items))
  }

  /** copy(): a new buffer with the same used bytes; non-PODs are refused. */
  function Copy(h: Heap, pool: Pool, i: nat, ans: PoolAnswer): Option<Heap>
    requires Holds(h, i) && Held(h, i).live && ValidBuffer(Held(h, i))
    requires |ans.mem| == Capacity(pool, Held(h, i).size)
  {
    var b := Held(h, i);
    if b.payload.NonPod? || Overflows(b.size + PADDED) || !ans.ok then None
    else Some(Add(h, Buffer(Pod(CopyPrefix(ans.mem, b.payload.bytes, b.size)), b.size, |ans.mem|, 1, true)))
  }

  /** BufferView::create(): pins the external memory. */
  function CreateView(h: Heap, bytes: Bytes): Heap {
    Add(h, Buffer(View(bytes), |bytes|, |bytes|, 1, true))
  }

  /** A write through asMutable() below the used size. */
  function WriteByte(h: Heap, i: nat, at: nat, x: bv8): Option<Heap>
    requires Holds(h, i)
  {
    var b := Held(h, i);
    if !b.payload.Pod? || at >= b.size || at >= |b.payload.bytes| then None
    else Some(Rewrite(h, i, b.(payload := Pod(b.payload.bytes[at := x]))))
  }
}
