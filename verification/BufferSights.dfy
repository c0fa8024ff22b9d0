/** What the holders of buffers see, handle by handle: which handles share a buffer, what they
    read, and how much room there is. Every run of buffer operations refines steps on this view
    (velox/buffer/Buffer.h). */
module BufferSights {
  import opened Types
  import opened Ints
  import opened Widths
  import opened Buffers
  import opened BufferInvariants
  import opened BufferContents
  import opened BufferRuns

  /** What one handle shows: nothing if it is null, else the used bytes or objects and the
      capacity in bytes. Bytes are owned, or foreign behind a view. */
  datatype Sight =
    | Nothing
    | SeesBytes(owned: bool, bytes: Bytes, capacity: nat)
    | SeesObjects(width: nat, objects: seq<Slot>, capacity: nat)

  /** The sights of all handles, and groups of handles that share a buffer. Only whether two
      handles are in one group matters. */
  datatype World = World(groups: seq<Option<nat>>, sights: seq<Sight>)

  predicate Same(v: World, j: nat, k: nat) {
    j < |v.groups| && k < |v.groups| && v.groups[j].Some? && v.groups[j] == v.groups[k]
  }

  predicate Alone(v: World, i: nat) {
    forall j | 0 <= j < |v.groups| && j != i :: !Same(v, i, j)
  }

  function SizeOf(s: Sight): nat {
    match s
    case Nothing => 0
    case SeesBytes(_, bytes, _) => |bytes|
    case SeesObjects(w, objects, _) => Product(|objects|, w)
  }

  // ----- three kinds of change -----

  predicate SameGroups(v: World, v': World) {
    forall j: nat, k: nat | j < |v.groups| && k < |v.groups| :: Same(v', j, k) <==> Same(v, j, k)
  }

  /** One more handle, which sees s and joins the group of handle `like`, or no group. */
  predicate Adds(v: World, v': World, s: Sight, like: Option<nat>) {
    && |v'.groups| == |v.groups| + 1 && v'.sights == v.sights + [s]
    && SameGroups(v, v')
    && forall j: nat | j < |v.groups| :: Same(v', j, |v.groups|) <==> like.Some? && Same(v, like.value, j)
  }

  /** Handle i and all that share its buffer see s. */
  predicate Updates(v: World, v': World, i: nat, s: Sight) {
    && |v'.groups| == |v.groups| && |v'.sights| == |v.sights|
    && SameGroups(v, v')
    && forall j | 0 <= j < |v.sights| :: v'.sights[j] == if Same(v, i, j) then s else v.sights[j]
  }

  /** Handle i sees s and shares it with nobody; all others see what they saw. A handle that was
      needed on the way is left behind as null. */
  predicate Moves(v: World, v': World, i: nat, s: Sight) {
    && |v'.groups| == |v'.sights| >= |v.sights|
    && (forall j | 0 <= j < |v'.sights| ::
          v'.sights[j] == if j == i then s else if j < |v.sights| then v.sights[j] else Nothing)
    && (forall j: nat, k: nat | j < |v.groups| && k < |v.groups| && j != i && k != i ::
          Same(v', j, k) <==> Same(v, j, k))
    && (forall j: nat | j < |v'.groups| && j != i :: !Same(v', i, j) && (j >= |v.groups| ==> !Same(v', j, j)))
  }

  // ----- what each operation does to the view -----

  /** What an operation takes for granted of the handles it is given. */
  predicate Applies(v: World, a: Action) {
    match a
    case NewPods(_, w, init) => ValidInit(w, init)
    case NewObjects(_, w, _) => w > 0
    case NewView(_) => true
    case Growing(i, _, w, init) => i < |v.sights| && (v.sights[i].Nothing? || Owned(v.sights[i])) && ValidInit(w, init)
    case GrowingObjects(i, _, _) => i < |v.sights| && (v.sights[i].Nothing? || HasObjects(v.sights[i]))
    case Appending(i, _) => i < |v.sights| && Owned(v.sights[i])
    case Copying(i) => i < |v.sights|
    case _ => a.i < |v.sights| && !v.sights[a.i].Nothing? && (v.sights[a.i].SeesObjects? ==> HasObjects(v.sights[a.i]))
  }

  predicate Owned(s: Sight) {
    s.SeesBytes? && s.owned
  }

  predicate HasObjects(s: Sight) {
    s.SeesObjects? && s.width > 0
  }

  /** The pool hands out size bytes and the padding. */
  predicate Served(size: nat, ans: PoolAnswer) {
    !Overflows(size) && !Overflows(size + PADDED) && ans.ok
  }

  /** reallocate() does not need the pool. */
  predicate InPlace(v: World, i: nat, size: nat)
    requires i < |v.sights| && !v.sights[i].Nothing?
  {
    SizeOf(v.sights[i]) < size < v.sights[i].capacity && Alone(v, i)
  }

  predicate Resized(v: World, i: nat, size: nat, ans: PoolAnswer)
    requires i < |v.sights| && !v.sights[i].Nothing?
  {
    !Overflows(size) && (InPlace(v, i, size) || Served(size, ans))
  }

  predicate Roomy(s: Sight, n: nat)
    requires !s.Nothing?
  {
    SizeOf(s) + n <= s.capacity
  }

  /** The bytes appendTo() asks for when there is no room. */
  function Doubled(s: Sight, n: nat): nat
    requires !s.Nothing?
  {
    if 2 * s.capacity < SizeOf(s) + n then SizeOf(s) + n else 2 * s.capacity
  }

  /** The operation raises, and nothing changes. */
  predicate Refuses(v: World, a: Action, ans: PoolAnswer)
    requires Applies(v, a)
  {
    match a
    case CopyPtr(_) => false
    case DropPtr(_) => false
    case NewPods(elems, w, _) => !Served(Product(elems, w), ans)
    case NewObjects(elems, w, _) => !Served(Product(elems, w), ans)
    case NewView(_) => false
    case Resizing(i, size) =>
      var s := v.sights[i];
      size > s.capacity || (if s.SeesBytes? then !s.owned else Remainder(size, s.width) != 0)
    case Growing(i, elems, w, _) => v.sights[i].Nothing? || !Resized(v, i, Product(elems, w), ans)
    case GrowingObjects(i, elems, _) =>
      v.sights[i].Nothing? || !Resized(v, i, Product(elems, v.sights[i].width), ans)
    case Appending(i, items) =>
      var s := v.sights[i];
      Overflows(SizeOf(s) + |items|) || (!Roomy(s, |items|) && !Served(Doubled(s, |items|), ans))
    case Copying(i) =>
      var s := v.sights[i];
      !s.Nothing? && (s.SeesObjects? || Overflows(SizeOf(s) + PADDED) || !ans.ok)
    case Writing(i, at, _) => !Owned(v.sights[i]) || at >= SizeOf(v.sights[i])
  }

  /** setSize(): what was read is kept up to the smaller size, further bytes are any, further
      objects are default objects. */
  predicate SetTo(s: Sight, t: Sight, size: nat) {
    match (s, t)
    case (SeesBytes(o, xs, c), SeesBytes(p, ys, d)) =>
      o == p && c == d && |ys| == size && forall j | 0 <= j < |xs| && j < |ys| :: ys[j] == xs[j]
    case (SeesObjects(w, xs, c), SeesObjects(u, ys, d)) =>
      w == u && c == d && Product(|ys|, w) == size && ResizedObjects(xs, ys, None)
    case _ => false
  }

  /** reallocate() of PODs: the old bytes cut, or extended by the value, exactly when they end
      with whole elements or look like it. */
  predicate GrownTo(s: Sight, t: Sight, size: nat, init: Option<Bytes>, capacity: nat)
    requires init.Some? ==> |init.value| > 0
  {
    && Owned(s) && Owned(t) && |t.bytes| == size && t.capacity == capacity
    && (ResizedTo(s.bytes, t.bytes, init) <==> FillsCleanly(s.bytes, size, init))
  }

  /** reallocate() of objects: the old objects cut, or extended by copies of the value. */
  predicate ObjectsGrownTo(s: Sight, t: Sight, elems: nat, value: Option<int>, capacity: nat) {
    && HasObjects(s) && t.SeesObjects? && t.width == s.width && t.capacity == capacity
    && |t.objects| == elems && ResizedObjects(s.objects, t.objects, value)
  }

  /** The operation changes v to v'. */
  predicate Steps(v: World, pool: Pool, a: Action, ans: PoolAnswer, v': World)
    requires Applies(v, a)
  {
    match a
    case CopyPtr(i) => Adds(v, v', v.sights[i], Some(i))
    case DropPtr(i) => Moves(v, v', i, Nothing)
    case NewPods(elems, w, init) =>
      |v'.sights| > |v.sights| && var t := v'.sights[|v.sights|];
      && Adds(v, v', t, None)
      && Owned(t) && |t.bytes| == Product(elems, w) && t.capacity == |ans.mem| && ResizedTo([], t.bytes, init)
    case NewObjects(elems, w, value) =>
      |v'.sights| > |v.sights| && var t := v'.sights[|v.sights|];
      && Adds(v, v', t, None)
      && ObjectsGrownTo(SeesObjects(w, [], 0), t, elems, value, Capacity(pool, Product(elems, w)))
    case NewView(bytes) => Adds(v, v', SeesBytes(false, bytes, |bytes|), None)
    case Resizing(i, size) =>
      i < |v'.sights| && Updates(v, v', i, v'.sights[i]) && SetTo(v.sights[i], v'.sights[i], size)
    case Growing(i, elems, w, init) =>
      var size := Product(elems, w);
      && !v.sights[i].Nothing? && i < |v'.sights| && Moves(v, v', i, v'.sights[i])
      && GrownTo(v.sights[i], v'.sights[i], size, init, if InPlace(v, i, size) then v.sights[i].capacity else |ans.mem|)
    case GrowingObjects(i, elems, value) =>
      !v.sights[i].Nothing? &&
      var size := Product(elems, v.sights[i].width);
      && i < |v'.sights| && Moves(v, v', i, v'.sights[i])
      && ObjectsGrownTo(v.sights[i], v'.sights[i], elems, value,
                        if InPlace(v, i, size) then v.sights[i].capacity else Capacity(pool, size))
    case Appending(i, items) =>
      var s := v.sights[i];
      if Roomy(s, |items|) then Updates(v, v', i, SeesBytes(true, s.bytes + items, s.capacity))
      else Moves(v, v', i, SeesBytes(true, s.bytes + items, |ans.mem|))
    case Copying(i) =>
      var s := v.sights[i];
      Adds(v, v', if s.SeesBytes? then SeesBytes(true, s.bytes, |ans.mem|) else Nothing, None)
    case Writing(i, at, x) =>
      var s := v.sights[i];
      Owned(s) && at < |s.bytes| && Updates(v, v', i, SeesBytes(true, s.bytes[at := x], s.capacity))
  }

  // ----- the view of a heap -----

  function SightOf(b: Buffer): Sight {
    match b.payload
    case Pod(_) => SeesBytes(true, Read(b).bytes, b.capacity)
    case View(_) => SeesBytes(false, Read(b).bytes, b.capacity)
    case NonPod(w, _) => SeesObjects(w, Read(b).objects, b.capacity)
  }

  function SightAt(h: Heap, j: nat): Sight {
    if Holds(h, j) then SightOf(Held(h, j)) else Nothing
  }

  function Seen(h: Heap): World {
    World(h.handles, seq(|h.handles|, j requires 0 <= j < |h.handles| => SightAt(h, j)))
  }

  /** Equal handles and buffers that look the same give the same view. */
  lemma {:induction false} SeenAlike(h: Heap, g: Heap)
    requires h.handles == g.handles
    requires forall j: nat | j < |h.handles| :: SightAt(h, j) == SightAt(g, j)
    ensures Seen(h) == Seen(g)
  {
  }

  lemma {:induction false} SizeSeen(b: Buffer)
    requires ValidBuffer(b)
    ensures SizeOf(SightOf(b)) == b.size
  {
    if b.payload.NonPod? {
      var w := b.payload.width;
      QuotientMonotone(b.size, b.capacity, w);
      QuotientAndRemainder(b.size, w);
      ProductIsTimes(Length(b), w);
    }
  }

  lemma {:induction false} OtherHandle(hs: seq<Option<nat>>, i: nat, a: nat)
    requires i < |hs| && hs[i] == Some(a) && Count(hs, a) > 1
    ensures exists j | 0 <= j < |hs| && j != i :: hs[j] == Some(a)
  {
    CountUpdate(hs, i, None, a);
    if forall j | 0 <= j < |hs| && j != i :: hs[j] != Some(a) {
      NoneCounted(hs[i := None], a);
    }
  }

  /** The count tells whether a handle is alone. */
  lemma {:induction false} AloneIsUnique(h: Heap, i: nat)
    requires Inv(h) && Holds(h, i)
    ensures Alone(Seen(h), i) <==> Held(h, i).refs == 1
  {
    var a := h.handles[i].value;
    HeldIsValid(h, i);
    if Held(h, i).refs == 1 {
      forall j | 0 <= j < |h.handles| && j != i ensures !Same(Seen(h), i, j) {
        UniqueHandle(h.handles, i, j, a);
      }
    } else {
      OtherHandle(h.handles, i, a);
      var j: nat :| j < |h.handles| && j != i && h.handles[j] == Some(a);
      assert Same(Seen(h), i, j);
    }
  }

  // ----- the three kinds of change on a heap -----

  lemma {:induction false} AddSeen(h: Heap, b: Buffer)
    requires Inv(h)
    ensures Adds(Seen(h), Seen(Add(h, b)), SightOf(b), None)
  {
    var v, v', n := Seen(h), Seen(Add(h, b)), |h.handles|;
    forall j: nat | j < n ensures v'.sights[j] == v.sights[j] && !Same(v', j, n) {
    }
    assert v'.sights == v.sights + [SightOf(b)];
  }

  lemma {:induction false} AddNullSeen(h: Heap)
    ensures Adds(Seen(h), Seen(AddNull(h)), Nothing, None)
  {
    var v, v' := Seen(h), Seen(AddNull(h));
    assert v'.sights == v.sights + [Nothing];
  }

  lemma {:induction false} CopyHandleSeen(h: Heap, i: nat)
    requires Inv(h) && Holds(h, i)
    ensures Adds(Seen(h), Seen(CopyHandle(h, i)), SightAt(h, i), Some(i))
  {
    var v, v' := Seen(h), Seen(CopyHandle(h, i));
    assert v'.sights == v.sights + [SightAt(h, i)];
  }

  /** g is h with the buffer of handle i replaced by b. */
  predicate Replaces(h: Heap, g: Heap, i: nat, b: Buffer) {
    Holds(h, i) && g.handles == h.handles && g.buffers == h.buffers[h.handles[i].value := b]
  }

  lemma {:induction false} UpdateSeen(h: Heap, g: Heap, i: nat, b: Buffer)
    requires Inv(h) && Replaces(h, g, i, b)
    ensures Updates(Seen(h), Seen(g), i, SightOf(b))
    ensures Held(h, i).refs == 1 ==> Moves(Seen(h), Seen(g), i, SightOf(b))
  {
    if Held(h, i).refs == 1 {
      AloneIsUnique(h, i);
    }
  }

  /** Releasing a buffer changes no sight of a handle to another, or of a buffer with more
      references. */
  lemma {:induction false} ReleaseSeen(h: Heap, a: nat, j: nat)
    requires a < |h.buffers| && h.buffers[a].refs > 0 && j < |h.handles|
    requires h.buffers[a].refs > 1 || h.handles[j] != Some(a)
    ensures SightAt(Release(h, a), j) == SightAt(h, j)
  {
  }

  /** g is h with handle i pointing elsewhere, to nothing or to a buffer of its own. */
  lemma {:induction false} MoveSeen(h: Heap, g: Heap, i: nat)
    requires i < |h.handles| <= |g.handles|
    requires forall j | 0 <= j < |g.handles| && j != i ::
               && g.handles[j] == (if j < |h.handles| then h.handles[j] else None)
               && (g.handles[j].Some? ==> g.handles[j] != g.handles[i])
    requires forall j: nat | j < |h.handles| && j != i :: SightAt(g, j) == SightAt(h, j)
    ensures Moves(Seen(h), Seen(g), i, SightAt(g, i))
  {
  }

  lemma {:induction false} DropSeen(h: Heap, i: nat)
    requires Inv(h) && Holds(h, i) && Held(h, i).refs > 0
    ensures Moves(Seen(h), Seen(Drop(h, i)), i, Nothing)
  {
    var a, g := h.handles[i].value, h.(handles := h.handles[i := None]);
    HeldIsValid(h, i);
    forall j: nat | j < |h.handles| && j != i ensures SightAt(Drop(h, i), j) == SightAt(h, j) {
      if Held(h, i).refs == 1 { UniqueHandle(h.handles, i, j, a); }
      ReleaseSeen(g, a, j);
    }
    MoveSeen(h, Drop(h, i), i);
  }

  lemma {:induction false} ReplacedSight(h: Heap, i: nat, b: Buffer, j: nat)
    requires Inv(h) && Holds(h, i) && Held(h, i).refs > 0 && j < |h.handles|
    ensures SightAt(Replaced(h, i, b), j) == if j == i then SightOf(b) else SightAt(h, j)
  {
    hide SightOf;
    var a, n, g := h.handles[i].value, |h.handles|, Add(h, b);
    var g' := g.(handles := g.handles[i := g.handles[n]][n := None]);
    HeldIsValid(h, i);
    if j != i && Held(h, i).refs == 1 {
      UniqueHandle(h.handles, i, j, a);
    }
    ReleaseSeen(g', a, j);
    hide Release, Inv;
    assert SightAt(g', j) == if j == i then SightOf(b) else SightAt(h, j) by {
      assert j != i && h.handles[j].Some? ==> h.handles[j].value < |h.buffers|;
    }
  }

  lemma {:induction false} ReplacedSeen(h: Heap, i: nat, b: Buffer)
    requires Inv(h) && Holds(h, i) && Held(h, i).refs > 0
    ensures Moves(Seen(h), Seen(Replaced(h, i, b)), i, SightOf(b))
  {
    hide SightOf, Moves, SightAt, Count;
    var n, g := |h.handles|, Replaced(h, i, b);
    forall j: nat | j < n ensures SightAt(g, j) == if j == i then SightOf(b) else SightAt(h, j) {
      ReplacedSight(h, i, b, j);
    }
    assert g.handles == h.handles[i := Some(|h.buffers|)] + [None];
    MoveSeen(h, g, i);
  }

  // ----- the operations -----

  /** setSize() raises exactly for a view, a size beyond the capacity or a partial object. Where
      it returns, and the count of objects fits an int, everybody who shares the buffer sees the
      new size, with what was read before kept up to it, and nobody else sees a change. */
  lemma {:induction false} SetSizeSeen(h: Heap, i: nat, size: nat)
    requires Inv(h) && Holds(h, i)
    ensures ValidBuffer(Held(h, i))
    ensures var r, b := SetSize(h, i, size), Held(h, i);
            && (r.Raised? <==>
                b.payload.View? || size > b.capacity || (b.payload.NonPod? && Remainder(size, b.payload.width) != 0))
            && (!r.Raised? && (b.payload.NonPod? ==> Quotient(size, b.payload.width) < INT_LIMIT) ==>
                  && r.Done? && Holds(r.heap, i) && Held(r.heap, i).size == size
                  && Updates(Seen(h), Seen(r.heap), i, SightAt(r.heap, i))
                  && SetTo(SightAt(h, i), SightAt(r.heap, i), size))
  {
    var r, b := SetSize(h, i, size), Held(h, i);
    HeldIsValid(h, i);
    if r.Done? {
      UpdateSeen(h, r.heap, i, Held(r.heap, i));
      if b.payload.NonPod? {
        SlotsSet(b, Held(r.heap, i), size);
      }
    }
  }

  lemma {:induction false} SlotsSet(b: Buffer, c: Buffer, size: nat)
    requires ValidNonPod(b) && Remainder(size, b.payload.width) == 0 && size <= b.capacity
    requires var w, n := b.payload.width, Quotient(size, b.payload.width);
             n < INT_LIMIT ==>
               c == b.(size := size, payload := NonPod(w, Resize(b.payload.slots, Length(b), n, DEFAULT)))
    ensures Quotient(size, b.payload.width) < INT_LIMIT ==> SetTo(SightOf(b), SightOf(c), size)
  {
    var w := b.payload.width;
    QuotientMonotone(size, b.capacity, w);
    QuotientMonotone(b.size, b.capacity, w);
    QuotientAndRemainder(size, w);
    ProductIsTimes(Quotient(size, w), w);
  }

  /** copy() succeeds exactly for bytes that the pool has room for. Then the new handle is the
      only one to a buffer with the same bytes, and nobody else sees a change. */
  lemma {:induction false} CopySeen(h: Heap, pool: Pool, i: nat, ans: PoolAnswer)
    requires Inv(h) && Holds(h, i) && |ans.mem| == Capacity(pool, Held(h, i).size)
    ensures Held(h, i).live && ValidBuffer(Held(h, i))
    ensures var r, b, n := Copy(h, pool, i, ans), Held(h, i), |h.handles|;
            && (r.Some? <==> !b.payload.NonPod? && !Overflows(b.size + PADDED) && ans.ok)
            && (r.Some? ==>
                  && Holds(r.value, n) && Held(r.value, n).refs == 1 && Read(Held(r.value, n)) == Read(b)
                  && Adds(Seen(h), Seen(r.value), SeesBytes(true, Read(b).bytes, |ans.mem|), None))
  {
    HeldIsValid(h, i);
    var r, b := Copy(h, pool, i, ans), Held(h, i);
    if r.Some? {
      var c := Buffer(Pod(CopyPrefix(ans.mem, b.payload.bytes, b.size)), b.size, |ans.mem|, 1, true);
      assert Read(c).bytes == b.payload.bytes[..b.size];
      AddSeen(h, c);
    }
  }

  lemma {:induction false} WriteByteSeen(h: Heap, i: nat, at: nat, x: bv8)
    requires Inv(h) && Holds(h, i)
    ensures var r, s := WriteByte(h, i, at, x), SightAt(h, i);
            && (r.Some? <==> Owned(s) && at < |s.bytes|)
            && (r.Some? ==> Updates(Seen(h), Seen(r.value), i, SeesBytes(true, s.bytes[at := x], s.capacity)))
  {
    HeldIsValid(h, i);
    var r, b := WriteByte(h, i, at, x), Held(h, i);
    if r.Some? {
      var c := b.(payload := Pod(b.payload.bytes[at := x]));
      assert Read(c).bytes == Read(b).bytes[at := x];
      UpdateSeen(h, r.value, i, c);
    }
  }

  lemma {:induction false} AllocatePodSeen(
    h: Heap, pool: Pool, elems: nat, w: nat, init: Option<Bytes>, ans: PoolAnswer)
    requires Inv(h) && ValidInit(w, init) && |ans.mem| == Capacity(pool, Product(elems, w))
    ensures var r, n := AllocatePod(h, pool, elems, w, init, ans), |h.handles|;
            && (r.Some? <==> Served(Product(elems, w), ans))
            && (r.Some? ==>
                  var t := SightAt(r.value, n);
                  && |r.value.handles| == n + 1
                  && Adds(Seen(h), Seen(r.value), t, None) && Owned(t) && |t.bytes| == Product(elems, w)
                  && t.capacity == |ans.mem| && ResizedTo([], t.bytes, init))
  {
    var size := Product(elems, w);
    var c := NewPod(pool, size, w, init, ans.mem);
    AddSeen(h, c);
    QuotientOfProduct(elems, w);
    FillResizes([], ans.mem, size, w, init);
  }

  lemma {:induction false} NewObjectsSeen(pool: Pool, elems: nat, w: nat, value: Option<int>)
    requires w > 0 && elems < INT_LIMIT
    ensures ObjectsGrownTo(SeesObjects(w, [], 0), SightOf(NewNonPod(pool, elems, w, value)), elems, value,
                           Capacity(pool, Product(elems, w)))
  {
    NewObjectsFit(pool, elems, w);
  }

  lemma {:induction false} AllocateNonPodSeen(
    h: Heap, pool: Pool, elems: nat, w: nat, value: Option<int>, ans: PoolAnswer)
    requires Inv(h) && w > 0
    ensures var r, n := AllocateNonPod(h, pool, elems, w, value, ans), |h.handles|;
            && (r.Some? <==> Served(Product(elems, w), ans))
            && (r.Some? && elems < INT_LIMIT ==>
                  var t := SightAt(r.value, n);
                  && |r.value.handles| == n + 1
                  && Adds(Seen(h), Seen(r.value), t, None)
                  && ObjectsGrownTo(SeesObjects(w, [], 0), t, elems, value, Capacity(pool, Product(elems, w))))
  {
    var r, c := AllocateNonPod(h, pool, elems, w, value, ans), NewNonPod(pool, elems, w, value);
    if r.Some? && elems < INT_LIMIT {
      AddSeen(h, c);
      SeenAlike(r.value, Add(h, c));
      NewObjectsSeen(pool, elems, w, value);
    }
  }

  /** The buffer reallocate() leaves the caller with, in terms of sights. */
  lemma {:induction false} ResizedPodSeen(b: Buffer, c: Buffer, size: nat, init: Option<Bytes>)
    requires ValidPod(b) && (init.Some? ==> |init.value| > 0) && ResizedPod(b, c, size, init)
    ensures GrownTo(SightOf(b), SightOf(c), size, init, c.capacity)
  {
  }

  lemma {:induction false} ReallocatePodSeen(
    h: Heap, pool: Pool, i: nat, elems: nat, w: nat, init: Option<Bytes>, ans: PoolAnswer)
    requires Inv(h) && Holds(h, i) && Held(h, i).payload.Pod?
    requires ValidInit(w, init) && |ans.mem| == Capacity(pool, Product(elems, w))
    ensures ValidPod(Held(h, i)) && Held(h, i).refs > 0 && !SightAt(h, i).Nothing?
    ensures var r, v, size := ReallocatePod(h, pool, i, elems, w, init, ans), Seen(h), Product(elems, w);
            && (r.Some? <==> Resized(v, i, size, ans))
            && (r.Some? ==>
                  && Holds(r.value, i) && Moves(v, Seen(r.value), i, SightAt(r.value, i))
                  && GrownTo(SightAt(h, i), SightAt(r.value, i), size, init,
                             if InPlace(v, i, size) then SightAt(h, i).capacity else |ans.mem|))
  {
    HeldIsValid(h, i);
    AloneIsUnique(h, i);
    ReallocatePodContents(h, pool, i, elems, w, init, ans);
    var r, b, size := ReallocatePod(h, pool, i, elems, w, init, ans), Held(h, i), Product(elems, w);
    SizeSeen(b);
    hide FillNew, ResizedPod, GrownTo, Moves, Inv, Product;
    if r.Some? {
      var c := Held(r.value, i);
      ResizedPodSeen(b, c, size, init);
      if GrowsInPlace(b, size) {
        UpdateSeen(h, r.value, i, GrownPod(b, size, w, init));
      } else if b.refs != 1 {
        ReplacedSeen(h, i, CopiedPod(b, size, w, init, ans.mem));
      } else if ans.moves {
        ReplacedSeen(h, i, MovedPod(b, size, w, init, ans.mem));
      } else {
        UpdateSeen(h, r.value, i, MovedPod(b, size, w, init, ans.mem));
      }
    }
  }

  lemma {:induction false} ResizedNonPodSeen(b: Buffer, c: Buffer, elems: nat, value: Option<int>)
    requires ValidNonPod(b) && ResizedNonPod(b, c, elems, value)
    ensures ObjectsGrownTo(SightOf(b), SightOf(c), elems, value, c.capacity)
  {
  }

  lemma {:induction false} ReallocateNonPodSeen(
    h: Heap, pool: Pool, i: nat, elems: nat, value: Option<int>, ans: PoolAnswer)
    requires Inv(h) && Holds(h, i) && Held(h, i).payload.NonPod?
    ensures ValidNonPod(Held(h, i)) && Held(h, i).refs > 0 && SightAt(h, i).SeesObjects?
    ensures var r, v := ReallocateNonPod(h, pool, i, elems, value, ans), Seen(h);
            var size := Product(elems, Held(h, i).payload.width);
            && (!r.Raised? <==> Resized(v, i, size, ans))
            && (!r.Raised? && elems < INT_LIMIT ==>
                  && r.Done? && Holds(r.heap, i) && Moves(v, Seen(r.heap), i, SightAt(r.heap, i))
                  && ObjectsGrownTo(SightAt(h, i), SightAt(r.heap, i), elems, value,
                                    if InPlace(v, i, size) then SightAt(h, i).capacity else Capacity(pool, size)))
  {
    HeldIsValid(h, i);
    AloneIsUnique(h, i);
    ReallocateNonPodContents(h, pool, i, elems, value, ans);
    var r, b := ReallocateNonPod(h, pool, i, elems, value, ans), Held(h, i);
    var size := Product(elems, b.payload.width);
    SizeSeen(b);
    hide ResizedNonPod, ObjectsGrownTo, Moves, Inv, Product;
    if !r.Raised? && elems < INT_LIMIT {
      ResizedNonPodSeen(b, Held(r.heap, i), elems, value);
      if GrowsInPlace(b, size) {
        UpdateSeen(h, r.heap, i, GrownObjects(b, elems, value));
      } else {
        var c := CopiedObjects(pool, b, elems, value);
        ReplacedSeen(h, i, c);
        SeenAlike(r.heap, Replaced(h, i, c));
      }
    }
  }

  lemma {:induction false} PutItemsSeen(h: Heap, i: nat, at: nat, items: Bytes)
    requires Inv(h) && Holds(h, i) && ValidPod(Held(h, i)) && at <= Held(h, i).size
    requires at + |items| <= Held(h, i).capacity
    ensures var s, g := SightAt(h, i), PutItems(h, i, at, items);
            var t := SeesBytes(true, s.bytes[..at] + items, s.capacity);
            && Updates(Seen(h), Seen(g), i, t) && (Held(h, i).refs == 1 ==> Moves(Seen(h), Seen(g), i, t))
  {
    var g, b := PutItems(h, i, at, items), Held(h, i);
    assert Read(Held(g, i)).bytes == Read(b).bytes[..at] + items;
    UpdateSeen(h, g, i, Held(g, i));
  }

  /** Two moves of one handle are one. */
  lemma {:induction false} MovesCompose(u: World, v: World, w: World, i: nat, s: Sight, t: Sight)
    requires i < |u.groups| == |u.sights|
    requires Moves(u, v, i, s) && Moves(v, w, i, t)
    ensures Moves(u, w, i, t)
  {
  }

  lemma {:induction false} AppendToSeen(h: Heap, pool: Pool, i: nat, items: Bytes, ans: PoolAnswer)
    requires Inv(h) && Holds(h, i) && Held(h, i).payload.Pod?
    requires |ans.mem| == Capacity(pool, Product(Grown(Held(h, i), items), 1))
    ensures ValidPod(Held(h, i)) && Held(h, i).refs > 0 && SightAt(h, i).SeesBytes?
    ensures var r, v, a := AppendTo(h, pool, i, items, ans), Seen(h), Appending(i, items);
            && Applies(v, a) && (r.None? <==> Refuses(v, a, ans))
            && (r.Some? ==> Steps(v, pool, a, ans, Seen(r.value)))
  {
    hide Inv, Moves, Updates, GrownTo, ReallocatePod, PutItems, Product;
    HeldIsValid(h, i);
    var b, n := Held(h, i), Grown(Held(h, i), items);
    SizeSeen(b);
    WidthOne(n);
    if AppendFits(b, items) {
      PutItemsSeen(h, i, b.size, items);
      assert SightAt(h, i).bytes[..b.size] == SightAt(h, i).bytes;
    } else if !Overflows(b.size + |items|) && !Overflows(2 * b.capacity) {
      ReallocatePodSeen(h, pool, i, n, 1, None, ans);
      ReallocatePodKeeps(h, pool, i, n, 1, None, ans);
      ReallocatePodContents(h, pool, i, n, 1, None, ans);
      var r := ReallocatePod(h, pool, i, n, 1, None, ans);
      if r.Some? {
        GrownAppendSeen(h, r.value, i, items, n, ans);
      }
    }
  }

  lemma {:induction false} GrownAppendSeen(h: Heap, g: Heap, i: nat, items: Bytes, n: nat, ans: PoolAnswer)
    requires Inv(h) && Inv(g) && Holds(h, i) && Holds(g, i) && ValidPod(Held(h, i)) && ValidPod(Held(g, i))
    requires Held(g, i).refs == 1 && Held(g, i).size == n && n >= Held(h, i).size + |items|
    requires Moves(Seen(h), Seen(g), i, SightAt(g, i))
    requires GrownTo(SightAt(h, i), SightAt(g, i), n, None, |ans.mem|)
    ensures CanTake(g, i, Held(h, i).size + |items|)
    ensures Moves(Seen(h), Seen(PutItems(g, i, Held(h, i).size, items)), i,
                  SeesBytes(true, SightAt(h, i).bytes + items, |ans.mem|))
  {
    var b := Held(h, i);
    PutItemsSeen(g, i, b.size, items);
    assert SightAt(g, i).bytes[..b.size] == SightAt(h, i).bytes;
    MovesCompose(Seen(h), Seen(g), Seen(PutItems(g, i, b.size, items)), i, SightAt(g, i),
                 SeesBytes(true, SightAt(h, i).bytes + items, |ans.mem|));
  }

  // ----- every operation and every run -----

  lemma {:induction false} EnabledApplies(h: Heap, a: Action)
    requires Inv(h) && Enabled(h, a)
    ensures Applies(Seen(h), a)
  {
    if !a.NewPods? && !a.NewObjects? && !a.NewView? && Holds(h, a.i) {
      HeldIsValid(h, a.i);
      assert Seen(h).sights[a.i] == SightOf(Held(h, a.i));
    }
  }

  /** Every operation from a valid heap raises exactly when the view says so; if it asks for
      fewer than 2^31 objects and does not raise, it changes the view as specified. */
  lemma {:induction false} OutcomeSeen(h: Heap, pool: Pool, a: Action, ans: PoolAnswer)
    requires Inv(h) && Enabled(h, a) && Answers(h, pool, a, ans)
    ensures Applies(Seen(h), a)
    ensures var r := Outcome(h, pool, a, ans);
            && (r.Raised? <==> Refuses(Seen(h), a, ans))
            && (!r.Raised? && Modest(h, a) ==> r.Done? && Steps(Seen(h), pool, a, ans, Seen(r.heap)))
  {
    hide Inv, AddNull, CopyHandle, Drop, AllocatePod, AllocateNonPod, SetSize, ReallocatePod, ReallocateNonPod,
      AppendTo, Copy, WriteByte, Capacity, Product, Adds, Updates, Moves, SetTo, GrownTo, ObjectsGrownTo, Resized;
    EnabledIsSound(h, a);
    EnabledApplies(h, a);
    match a
    case CopyPtr(i) => CopyHandleSeen(h, i);
    case DropPtr(i) => DropSeen(h, i);
    case NewPods(elems, w, init) => AllocatePodSeen(h, pool, elems, w, init, ans);
    case NewObjects(elems, w, value) => AllocateNonPodSeen(h, pool, elems, w, value, ans);
    case NewView(bytes) => ViewSeen(h, bytes);
    case Resizing(i, size) =>
      SetSizeSeen(h, i, size);
      if Held(h, i).payload.NonPod? { CountBelow(size, Held(h, i).payload.width); }
    case Growing(i, elems, w, init) => if !Null(h, i) { ReallocatePodSeen(h, pool, i, elems, w, init, ans); }
    case GrowingObjects(i, elems, value) => if !Null(h, i) { ReallocateNonPodSeen(h, pool, i, elems, value, ans); }
    case Appending(i, items) => AppendToSeen(h, pool, i, items, ans);
    case Copying(i) =>
      if Null(h, i) {
        AddNullSeen(h);
      } else {
        CopySeen(h, pool, i, ans);
        SizeSeen(Held(h, i));
      }
    case Writing(i, at, x) => WriteByteSeen(h, i, at, x);
  }

  lemma {:induction false} ViewSeen(h: Heap, bytes: Bytes)
    requires Inv(h)
    ensures Adds(Seen(h), Seen(CreateView(h, bytes)), SeesBytes(false, bytes, |bytes|), None)
  {
    var b := Buffer(View(bytes), |bytes|, |bytes|, 1, true);
    assert bytes[..|bytes|] == bytes;
    AddSeen(h, b);
  }

  /** The view may go from v to end by these operations, those refused leaving it alone. */
  ghost predicate Allowed(v: World, pool: Pool, actions: seq<Action>, answers: seq<PoolAnswer>, end: World)
    requires |answers| == |actions|
    decreases |actions|
  {
    if actions == [] then end == v
    else
      && Applies(v, actions[0])
      && if Refuses(v, actions[0], answers[0]) then Allowed(v, pool, actions[1..], answers[1..], end)
         else exists w :: Steps(v, pool, actions[0], answers[0], w) && Allowed(w, pool, actions[1..], answers[1..], end)
  }

  /** Every run that asks for fewer than 2^31 objects at a time refines the steps on the view. */
  lemma {:induction false} RunsRefine(h: Heap, pool: Pool, actions: seq<Action>, answers: seq<PoolAnswer>)
    requires Inv(h) && Legal(h, pool, actions, answers) && AsksModestly(h, pool, actions, answers)
    ensures End(h, pool, actions, answers).Done?
    ensures Allowed(Seen(h), pool, actions, answers, Seen(End(h, pool, actions, answers).heap))
    decreases |actions|
  {
    hide Inv, Outcome, Modest, Seen, Applies, Refuses, Steps, Enabled, Answers;
    if actions != [] {
      OutcomeSeen(h, pool, actions[0], answers[0]);
      OutcomeKeeps(h, pool, actions[0], answers[0]);
      var r := Outcome(h, pool, actions[0], answers[0]);
      RunsRefine(if r.Done? then r.heap else h, pool, actions[1..], answers[1..]);
    }
  }

  /** The handle an operation is given. */
  predicate Names(a: Action, i: nat) {
    !a.NewPods? && !a.NewObjects? && !a.NewView? && a.i == i
  }

  /** Handle j keeps what it sees and stays alone. */
  predicate Spares(v: World, w: World, j: nat) {
    j < |v.sights| == |v.groups| && j < |w.sights| == |w.groups| && w.sights[j] == v.sights[j] && Alone(w, j)
  }

  lemma {:induction false} AddsSpares(v: World, w: World, s: Sight, like: Option<nat>, j: nat)
    requires j < |v.sights| == |v.groups| && Alone(v, j) && Adds(v, w, s, like) && like != Some(j)
    ensures Spares(v, w, j)
  {
    var n := |v.groups|;
    forall k: nat | k < |w.groups| && k != j ensures !Same(w, j, k) {
      if k < n {
        assert !Same(v, j, k);
      } else if like.Some? && Same(v, like.value, j) {
        assert Same(v, j, like.value);
      }
    }
  }

  lemma {:induction false} UpdatesSpares(v: World, w: World, i: nat, s: Sight, j: nat)
    requires i < |v.sights| && j < |v.sights| == |v.groups| && Alone(v, j) && Updates(v, w, i, s) && i != j
    ensures Spares(v, w, j)
  {
    assert !Same(v, j, i);
    forall k: nat | k < |w.groups| && k != j ensures !Same(w, j, k) {
      assert !Same(v, j, k);
    }
  }

  lemma {:induction false} MovesSpares(v: World, w: World, i: nat, s: Sight, j: nat)
    requires i < |v.sights| && j < |v.sights| == |v.groups| && Alone(v, j) && Moves(v, w, i, s) && i != j
    ensures Spares(v, w, j)
  {
    forall k: nat | k < |w.groups| && k != j ensures !Same(w, j, k) {
      if k == i {
        assert !Same(w, i, j);
      } else if k < |v.groups| {
        assert !Same(v, j, k);
      } else {
        assert !Same(w, k, k);
      }
    }
  }

  lemma {:induction false} StepSpares(v: World, pool: Pool, a: Action, ans: PoolAnswer, w: World, j: nat)
    requires j < |v.sights| == |v.groups| && Alone(v, j)
    requires Applies(v, a) && Steps(v, pool, a, ans, w) && !Names(a, j)
    ensures Spares(v, w, j)
  {
    hide Adds, Updates, Moves, Spares, Alone, SetTo, GrownTo, ObjectsGrownTo, Capacity, Product, Overflows;
    match a
    case CopyPtr(i) => AddsSpares(v, w, v.sights[i], Some(i), j);
    case DropPtr(i) => MovesSpares(v, w, i, Nothing, j);
    case NewPods(_, _, _) => AddsSpares(v, w, w.sights[|v.sights|], None, j);
    case NewObjects(_, _, _) => AddsSpares(v, w, w.sights[|v.sights|], None, j);
    case NewView(bytes) => AddsSpares(v, w, SeesBytes(false, bytes, |bytes|), None, j);
    case Resizing(i, _) => UpdatesSpares(v, w, i, w.sights[i], j);
    case Growing(i, _, _, _) => MovesSpares(v, w, i, w.sights[i], j);
    case GrowingObjects(i, _, _) => MovesSpares(v, w, i, w.sights[i], j);
    case Appending(i, items) =>
      var s := v.sights[i];
      if Roomy(s, |items|) {
        UpdatesSpares(v, w, i, SeesBytes(true, s.bytes + items, s.capacity), j);
      } else {
        MovesSpares(v, w, i, SeesBytes(true, s.bytes + items, |ans.mem|), j);
      }
    case Copying(i) =>
      var s := v.sights[i];
      AddsSpares(v, w, if s.SeesBytes? then SeesBytes(true, s.bytes, |ans.mem|) else Nothing, None, j);
    case Writing(i, at, x) =>
      UpdatesSpares(v, w, i, SeesBytes(true, v.sights[i].bytes[at := x], v.sights[i].capacity), j);
  }

  /** A buffer is a value to its only holder: whatever is done with other handles, a handle that
      is alone keeps what it sees and stays alone. */
  lemma {:induction false} OnlyHolderIsSpared(
    v: World, pool: Pool, actions: seq<Action>, answers: seq<PoolAnswer>, end: World, j: nat)
    requires |answers| == |actions| && Allowed(v, pool, actions, answers, end)
    requires j < |v.sights| == |v.groups| && Alone(v, j) && forall a <- actions :: !Names(a, j)
    ensures Spares(v, end, j)
    decreases |actions|
  {
    hide Applies, Refuses, Steps, Alone;
    if actions != [] {
      var w := v;
      if !Refuses(v, actions[0], answers[0]) {
        w :| Steps(v, pool, actions[0], answers[0], w) && Allowed(w, pool, actions[1..], answers[1..], end);
        StepSpares(v, pool, actions[0], answers[0], w, j);
      }
      OnlyHolderIsSpared(w, pool, actions[1..], answers[1..], end, j);
    }
  }
}
