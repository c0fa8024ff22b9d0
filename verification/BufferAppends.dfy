/** Sequences of appendTo calls: contents, holders and the bytes moved by reallocations
    (velox/buffer/Buffer.h:422-437). */
module BufferAppends {
  import opened Types
  import opened Widths
  import opened Buffers
  import opened BufferInvariants
  import opened BufferContents

  /** The same content, or the same bytes followed by more. */
  predicate Extends(before: Content, after: Content) {
    before == after || (before.ByteContent? && after.ByteContent? && before.bytes <= after.bytes)
  }

  /** What every holder read before is still there, at the same offsets. */
  ghost predicate NothingLost(h: Heap, h': Heap) {
    forall j: nat | Holds(h, j) :: StillReads(h, h', j)
  }

  predicate StillReads(h: Heap, h': Heap, j: nat)
    requires Holds(h, j)
  {
    Holds(h', j) && Extends(Read(Held(h, j)), Read(Held(h', j)))
  }

  /** The conditions under which appendTo does not raise. */
  predicate CanAppend(b: Buffer, items: Bytes, ans: PoolAnswer) {
    && !Overflows(b.size + |items|)
    && (AppendFits(b, items) || (!Overflows(Grown(b, items) + PADDED) && ans.ok))
  }

  /** The buffer afterwards; a buffer that had to grow at least doubled its capacity. */
  predicate AppendedTo(b: Buffer, c: Buffer, items: Bytes)
    requires ValidPod(b)
  {
    && ValidPod(c) && UsedBytes(c) == UsedBytes(b) + items
    && c.capacity >= if AppendFits(b, items) then b.capacity else 2 * b.capacity
  }

  lemma {:induction false} PutItemsAppends(h: Heap, i: nat, items: Bytes, n: nat)
    requires Inv(h) && Holds(h, i) && ValidPod(Held(h, i)) && n <= Held(h, i).size
    requires n + |items| <= Held(h, i).capacity
    requires n == Held(h, i).size || Held(h, i).refs == 1
    ensures var h', b := PutItems(h, i, n, items), Held(h, i);
            && Holds(h', i) && ValidPod(Held(h', i)) && Held(h', i).capacity == b.capacity
            && UsedBytes(Held(h', i)) == b.payload.bytes[..n] + items
    ensures n == Held(h, i).size ==> NothingLost(h, PutItems(h, i, n, items))
    ensures Held(h, i).refs == 1 ==> OthersRead(h, PutItems(h, i, n, items), i)
  {
    var h' := PutItems(h, i, n, items);
    if Held(h, i).refs == 1 {
      RewriteSpares(h, i, Held(h', i));
    }
  }

  /** The growing path. */
  lemma {:induction false} GrowThenPut(h: Heap, g: Heap, i: nat, items: Bytes, size: nat)
    requires Inv(g) && Holds(h, i) && ValidPod(Held(h, i)) && Holds(g, i)
    requires ResizedPod(Held(h, i), Held(g, i), size, None) && OthersRead(h, g, i)
    requires size >= 2 * Held(h, i).capacity && size >= Held(h, i).size + |items|
    requires !AppendFits(Held(h, i), items)
    ensures CanTake(g, i, Held(h, i).size + |items|)
    ensures var h' := PutItems(g, i, Held(h, i).size, items);
            && Holds(h', i) && AppendedTo(Held(h, i), Held(h', i), items)
            && NothingLost(h, h')
  {
    var b := Held(h, i);
    PutItemsAppends(g, i, items, b.size);
    var h' := PutItems(g, i, b.size, items);
    assert UsedBytes(Held(g, i))[..b.size] == UsedBytes(b);
    forall j: nat | Holds(h, j) ensures StillReads(h, h', j) {
      if j != i {
        assert ReadsTheSame(h, g, j) && ReadsTheSame(g, h', j);
      }
    }
  }

  /** A growing append: what AppendTo does once the reallocation has succeeded. */
  lemma {:induction false} GrowingAppend(h: Heap, pool: Pool, i: nat, items: Bytes, ans: PoolAnswer)
    requires Inv(h) && Holds(h, i) && ValidPod(Held(h, i)) && Held(h, i).refs > 0
    requires |ans.mem| == Capacity(pool, Product(Grown(Held(h, i), items), 1))
    requires !AppendFits(Held(h, i), items) && !Overflows(Held(h, i).size + |items|)
        && !Overflows(2 * Held(h, i).capacity)
    ensures var r := ReallocatePod(h, pool, i, Grown(Held(h, i), items), 1, None, ans);
            var t := AppendTo(h, pool, i, items, ans);
            && t.Some? == r.Some?
            && (r.Some? ==> && CanTake(r.value, i, Held(h, i).size + |items|)
                            && t.value == PutItems(r.value, i, Held(h, i).size, items)
                            && Holds(t.value, i) && AppendedTo(Held(h, i), Held(t.value, i), items)
                            && NothingLost(h, t.value))
  {
    var n := Grown(Held(h, i), items);
    WidthOne(n);
    ReallocatePodKeeps(h, pool, i, n, 1, None, ans);
    ReallocatePodContents(h, pool, i, n, 1, None, ans);
    var r := ReallocatePod(h, pool, i, n, 1, None, ans);
    if r.Some? {
      GrowThenPut(h, r.value, i, items, n);
    }
  }

  /** appendTo succeeds exactly when no size overflows and the pool can serve a needed growth;
      then the caller reads its bytes followed by the items and no holder loses a byte. */
  lemma {:induction false} AppendToAppends(h: Heap, pool: Pool, i: nat, items: Bytes, ans: PoolAnswer)
    requires Inv(h) && Holds(h, i) && ValidPod(Held(h, i)) && Held(h, i).refs > 0
    requires |ans.mem| == Capacity(pool, Product(Grown(Held(h, i), items), 1))
    ensures var r := AppendTo(h, pool, i, items, ans);
            && (r.Some? <==> CanAppend(Held(h, i), items, ans))
            && (r.Some? ==> && Holds(r.value, i) && AppendedTo(Held(h, i), Held(r.value, i), items)
                            && NothingLost(h, r.value))
  {
    var b := Held(h, i);
    if AppendFits(b, items) {
      PutItemsAppends(h, i, items, b.size);
    } else if !Overflows(b.size + |items|) && !Overflows(2 * b.capacity) {
      GrowingAppend(h, pool, i, items, ans);
      WidthOne(Grown(b, items));
      ReallocatePodSucceeds(h, pool, i, Grown(b, items), 1, None, ans);
    }
  }

  lemma {:induction false} ReallocatePodSucceeds(
    h: Heap, pool: Pool, i: nat, elems: nat, w: nat, init: Option<Bytes>, ans: PoolAnswer)
    requires Holds(h, i) && ValidPod(Held(h, i)) && Held(h, i).refs > 0
    requires ValidInit(w, init) && |ans.mem| == Capacity(pool, Product(elems, w))
    ensures var size := Product(elems, w);
            ReallocatePod(h, pool, i, elems, w, init, ans).Some? <==>
              !Overflows(size) && (GrowsInPlace(Held(h, i), size) || (!Overflows(size + PADDED) && ans.ok))
  {
  }

  // ----- sequences of appends -----

  /** Appends all items in order; the pool's answers must have the requested sizes. */
  function AppendAll(h: Heap, pool: Pool, i: nat, items: seq<Bytes>, answers: seq<PoolAnswer>): Option<Heap>
    requires |answers| == |items|
    decreases |items|
  {
    if items == [] then Some(h)
    else
      var r := Append(h, pool, i, items[0], answers[0]);
      if r.None? then None else AppendAll(r.value, pool, i, items[1..], answers[1..])
  }

  function Append(h: Heap, pool: Pool, i: nat, items: Bytes, ans: PoolAnswer): Option<Heap> {
    if && Holds(h, i) && ValidPod(Held(h, i)) && Held(h, i).refs > 0
       && |ans.mem| == Capacity(pool, Product(Grown(Held(h, i), items), 1)) then
      AppendTo(h, pool, i, items, ans)
    else None
  }

  /** The payload bytes a growing append moves: at most the old capacity. */
  function Moved(h: Heap, i: nat, items: Bytes): nat {
    if Holds(h, i) && !AppendFits(Held(h, i), items) then Held(h, i).capacity else 0
  }

  function TotalMoved(h: Heap, pool: Pool, i: nat, items: seq<Bytes>, answers: seq<PoolAnswer>): nat
    requires |answers| == |items|
    decreases |items|
  {
    if items == [] then 0
    else
      var r := Append(h, pool, i, items[0], answers[0]);
      Moved(h, i, items[0]) + if r.None? then 0 else TotalMoved(r.value, pool, i, items[1..], answers[1..])
  }

  function Concat(items: seq<Bytes>): Bytes {
    if items == [] then [] else items[0] + Concat(items[1..])
  }

  lemma {:induction false} ConcatStep(a: Bytes, items: seq<Bytes>)
    requires items != []
    ensures (a + items[0]) + Concat(items[1..]) == a + Concat(items)
  {
  }

  /** One append with the facts the sequence needs. */
  lemma {:induction false} AppendStep(h: Heap, pool: Pool, i: nat, items: Bytes, ans: PoolAnswer)
    requires Inv(h) && Holds(h, i) && Held(h, i).payload.Pod?
    requires Append(h, pool, i, items, ans).Some?
    ensures var h' := Append(h, pool, i, items, ans).value;
            && ValidPod(Held(h, i)) && Inv(h') && Holds(h', i) && AppendedTo(Held(h, i), Held(h', i), items)
            && NothingLost(h, h')
  {
    HeldIsValid(h, i);
    AppendToKeeps(h, pool, i, items, ans);
    AppendToAppends(h, pool, i, items, ans);
  }

  /** Any sequence of appends: the caller reads the initial bytes followed by all items, and
      what any holder read initially is still a prefix of what it reads. */
  lemma {:induction false} AppendAllAppends(h: Heap, pool: Pool, i: nat, items: seq<Bytes>, answers: seq<PoolAnswer>)
    requires Inv(h) && Holds(h, i) && Held(h, i).payload.Pod? && |answers| == |items|
    requires AppendAll(h, pool, i, items, answers).Some?
    ensures var h' := AppendAll(h, pool, i, items, answers).value;
            && ValidPod(Held(h, i)) && Inv(h') && Holds(h', i) && ValidPod(Held(h', i))
            && UsedBytes(Held(h', i)) == UsedBytes(Held(h, i)) + Concat(items)
            && NothingLost(h, h')
    decreases |items|
  {
    HeldIsValid(h, i);
    if items != [] {
      AppendStep(h, pool, i, items[0], answers[0]);
      var g := Append(h, pool, i, items[0], answers[0]).value;
      AppendAllAppends(g, pool, i, items[1..], answers[1..]);
      ConcatStep(UsedBytes(Held(h, i)), items);
    }
  }

  /** The bytes moved so far never exceed the capacity, nor twice the size. */
  lemma {:induction false} MovedWithin(
    h: Heap, pool: Pool, i: nat, items: seq<Bytes>, answers: seq<PoolAnswer>, spent: nat)
    requires Inv(h) && Holds(h, i) && Held(h, i).payload.Pod? && |answers| == |items|
    requires AppendAll(h, pool, i, items, answers).Some?
    requires spent <= Held(h, i).capacity && spent <= 2 * Held(h, i).size
    ensures var h' := AppendAll(h, pool, i, items, answers).value;
            Holds(h', i) && spent + TotalMoved(h, pool, i, items, answers) <= 2 * Held(h', i).size
    decreases |items|
  {
    if items != [] {
      AppendStep(h, pool, i, items[0], answers[0]);
      var g := Append(h, pool, i, items[0], answers[0]).value;
      assert |UsedBytes(Held(g, i))| == Held(g, i).size;
      MovedWithin(g, pool, i, items[1..], answers[1..], spent + Moved(h, i, items[0]));
    }
  }

  /** Amortised cost: reallocations move at most twice as many bytes as the buffer ends with. */
  lemma {:induction false} AppendsAreAmortised(h: Heap, pool: Pool, i: nat, items: seq<Bytes>, answers: seq<PoolAnswer>)
    requires Inv(h) && Holds(h, i) && Held(h, i).payload.Pod? && |answers| == |items|
    requires AppendAll(h, pool, i, items, answers).Some?
    ensures var h' := AppendAll(h, pool, i, items, answers).value;
            Holds(h', i) && TotalMoved(h, pool, i, items, answers) <= 2 * Held(h', i).size
  {
    MovedWithin(h, pool, i, items, answers, 0);
  }
}
