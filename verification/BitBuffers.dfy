/** Buffers of bool: bits packed into bytes (velox/buffer/Buffer.h:515-535,
    velox/common/base/BitUtil.h:94-108). */
module BitBuffers {
  import opened Types
  import opened Ints
  import opened Widths
  import opened Buffers
  import opened BufferInvariants
  import opened BufferContents

  // ----- sizes -----

  /** Division of C++, which truncates towards zero. */
  function Truncated8(x: int): int {
    if x >= 0 then x / 8 else -((-x) / 8)
  }

  /** bits::nbytes(): the element count is narrowed to int32_t, rounded up to whole bytes and
      the result widened to uint64_t. */
  function NBytes(n: nat): (r: nat)
    ensures n + 7 < INT_LIMIT ==> r == (n + 7) / 8
  {
    var q := Truncated8(Signed(Signed(n) + 7));
    if q >= 0 then q else q + SIZE_LIMIT
  }

  /** The bytes hold all n bits exactly when n + 7 fits an int32_t, or narrows to a number so
      negative that the byte count is astronomically large. */
  lemma {:induction false} BytesCoverBits(n: nat)
    requires n < SIZE_LIMIT
    ensures 8 * NBytes(n) >= n <==> n + 7 < INT_LIMIT || Signed(n + 7) <= -8
  {
  }

  /** A buffer of 2^32 bits gets no bytes at all. */
  lemma {:induction false} NarrowingLosesBits()
    ensures NBytes(0x1_0000_0000) == 0
  {
  }

  // ----- bits -----

  function Mask(k: nat): bv8
    requires k < 8
  {
    match k case 0 => 1 case 1 => 2 case 2 => 4 case 3 => 8 case 4 => 16 case 5 => 32 case 6 => 64 case _ => 128
  }

  predicate BitOf(b: bv8, k: nat)
    requires k < 8
  {
    b & Mask(k) != 0
  }

  function WithBit(b: bv8, k: nat, v: bool): bv8
    requires k < 8
  {
    if v then b | Mask(k) else b & !Mask(k)
  }

  lemma {:induction false} WithBitSets(b: bv8, k: nat, v: bool, j: nat)
    requires k < 8 && j < 8
    ensures BitOf(WithBit(b, k, v), j) == if j == k then v else BitOf(b, j)
  {
  }

  /** The byte that fills memory with copies of one bit. */
  function FillByte(v: bool): bv8 {
    if v then 0xFF else 0
  }

  // ----- a bit buffer refines a map of written bits -----

  predicate BitAt(bytes: Bytes, k: nat)
    requires k < 8 * |bytes|
  {
    BitOf(bytes[k / 8], k % 8)
  }

  /** Bit k as the history of writes demands: the last value written, or init. */
  predicate Expected(written: map<nat, bool>, init: bool, k: nat) {
    if k in written then written[k] else init
  }

  ghost predicate Shows(bytes: Bytes, written: map<nat, bool>, init: bool) {
    forall k: nat | k < 8 * |bytes| :: BitAt(bytes, k) == Expected(written, init, k)
  }

  /** Cutting the buffer forgets the bits of the bytes that are cut off. */
  function Kept(written: map<nat, bool>, size: nat): map<nat, bool> {
    map k | k in written && k < 8 * size :: written[k]
  }

  lemma {:induction false} ResizingShows(before: Bytes, after: Bytes, written: map<nat, bool>, init: bool)
    requires Shows(before, written, init) && ResizedTo(before, after, Some([FillByte(init)]))
    requires forall k | k in written :: k < 8 * |before|
    ensures Shows(after, Kept(written, |after|), init)
  {
    forall k: nat | k < 8 * |after| ensures BitAt(after, k) == Expected(Kept(written, |after|), init, k) {
      if k / 8 < |before| {
        assert BitAt(before, k) == Expected(written, init, k);
      } else {
        assert after[k / 8] == PatternAt([FillByte(init)], k / 8);
      }
    }
  }

  lemma {:induction false} WritingShows(before: Bytes, written: map<nat, bool>, init: bool, k: nat, v: bool)
    requires Shows(before, written, init) && k < 8 * |before|
    ensures Shows(before[k / 8 := WithBit(before[k / 8], k % 8, v)], written[k := v], init)
  {
    var after := before[k / 8 := WithBit(before[k / 8], k % 8, v)];
    forall j: nat | j < 8 * |after| ensures BitAt(after, j) == Expected(written[k := v], init, j) {
      assert BitAt(before, j) == Expected(written, init, j);
      if j / 8 == k / 8 {
        WithBitSets(before[k / 8], k % 8, v, j % 8);
      }
    }
  }

  // ----- runs -----

  datatype BitAction = ResizeBits(n: nat) | WriteBit(k: nat, v: bool)

  /** reallocate<bool> with the initial value, or setting one bit. */
  function BitStep(h: Heap, pool: Pool, i: nat, init: bool, a: BitAction, ans: PoolAnswer): Option<Heap> {
    if !Holds(h, i) || !ValidPod(Held(h, i)) || Held(h, i).refs == 0 then None
    else
      match a
      case ResizeBits(n) =>
        if |ans.mem| == Capacity(pool, Product(NBytes(n), 1)) then
          ReallocatePod(h, pool, i, NBytes(n), 1, Some([FillByte(init)]), ans)
        else None
      case WriteBit(k, v) =>
        var bytes := UsedBytes(Held(h, i));
        if k < 8 * |bytes| then WriteByte(h, i, k / 8, WithBit(bytes[k / 8], k % 8, v)) else None
  }

  function Effect(written: map<nat, bool>, a: BitAction): map<nat, bool> {
    match a
    case ResizeBits(n) => Kept(written, NBytes(n))
    case WriteBit(k, v) => written[k := v]
  }

  /** Handle i holds a buffer that shows the written bits. */
  ghost predicate Refines(h: Heap, i: nat, written: map<nat, bool>, init: bool) {
    && Inv(h) && Holds(h, i) && ValidPod(Held(h, i))
    && (forall k | k in written :: k < 8 * Held(h, i).size)
    && Shows(UsedBytes(Held(h, i)), written, init)
  }

  lemma {:induction false} ResizeRefines(
    h: Heap, pool: Pool, i: nat, written: map<nat, bool>, init: bool, n: nat, ans: PoolAnswer)
    requires Refines(h, i, written, init) && BitStep(h, pool, i, init, ResizeBits(n), ans).Some?
    ensures Refines(BitStep(h, pool, i, init, ResizeBits(n), ans).value, i, Kept(written, NBytes(n)), init)
  {
    var fill := Some([FillByte(init)]);
    WidthOne(NBytes(n));
    ReallocatePodKeeps(h, pool, i, NBytes(n), 1, fill, ans);
    ReallocatePodContents(h, pool, i, NBytes(n), 1, fill, ans);
    var before := UsedBytes(Held(h, i));
    WidthOne(|before|);
    var c := Held(BitStep(h, pool, i, init, ResizeBits(n), ans).value, i);
    ResizingShows(before, UsedBytes(c), written, init);
  }

  lemma {:induction false} WriteRefines(
    h: Heap, pool: Pool, i: nat, written: map<nat, bool>, init: bool, k: nat, v: bool, ans: PoolAnswer)
    requires Refines(h, i, written, init) && BitStep(h, pool, i, init, WriteBit(k, v), ans).Some?
    ensures Refines(BitStep(h, pool, i, init, WriteBit(k, v), ans).value, i, written[k := v], init)
  {
    var bytes := UsedBytes(Held(h, i));
    WriteByteKeeps(h, i, k / 8, WithBit(bytes[k / 8], k % 8, v));
    WritingShows(bytes, written, init, k, v);
    var c := Held(BitStep(h, pool, i, init, WriteBit(k, v), ans).value, i);
    assert UsedBytes(c) == bytes[k / 8 := WithBit(bytes[k / 8], k % 8, v)];
  }

  function BitRun(h: Heap, pool: Pool, i: nat, init: bool, acts: seq<BitAction>, answers: seq<PoolAnswer>): Option<Heap>
    requires |answers| == |acts|
    decreases |acts|
  {
    if acts == [] then Some(h)
    else
      var r := BitStep(h, pool, i, init, acts[0], answers[0]);
      if r.None? then None else BitRun(r.value, pool, i, init, acts[1..], answers[1..])
  }

  function Effects(written: map<nat, bool>, acts: seq<BitAction>): map<nat, bool>
    decreases |acts|
  {
    if acts == [] then written else Effects(Effect(written, acts[0]), acts[1..])
  }

  /** Any sequence of resizes and writes: every bit of the buffer reads as the last value
      written to it since its byte was last cut off, and as init otherwise. */
  lemma {:induction false} BitRunRefines(
    h: Heap, pool: Pool, i: nat, init: bool, acts: seq<BitAction>, answers: seq<PoolAnswer>, written: map<nat, bool>)
    requires |answers| == |acts| && Refines(h, i, written, init) && BitRun(h, pool, i, init, acts, answers).Some?
    ensures Refines(BitRun(h, pool, i, init, acts, answers).value, i, Effects(written, acts), init)
    decreases |acts|
  {
    if acts != [] {
      match acts[0] {
        case ResizeBits(n) => ResizeRefines(h, pool, i, written, init, n, answers[0]);
        case WriteBit(k, v) => WriteRefines(h, pool, i, written, init, k, v, answers[0]);
      }
      BitRunRefines(BitStep(h, pool, i, init, acts[0], answers[0]).value, pool, i, init, acts[1..], answers[1..],
                    Effect(written, acts[0]));
    }
  }

  lemma {:induction false} UnwrittenStaysOut(written: map<nat, bool>, acts: seq<BitAction>, k: nat)
    requires k !in written && forall a | a in acts :: a.WriteBit? ==> a.k != k
    ensures k !in Effects(written, acts)
    decreases |acts|
  {
    if acts != [] {
      assert acts[0] in acts;
      UnwrittenStaysOut(Effect(written, acts[0]), acts[1..], k);
    }
  }

  /** allocate<bool> shows init everywhere. */
  lemma {:induction false} AllocationShows(h: Heap, pool: Pool, n: nat, init: bool, ans: PoolAnswer)
    requires Inv(h) && |ans.mem| == Capacity(pool, Product(NBytes(n), 1))
    ensures var r := AllocatePod(h, pool, NBytes(n), 1, Some([FillByte(init)]), ans);
            r.Some? ==> Refines(r.value, |h.handles|, map[], init)
  {
    var size, fill := NBytes(n), Some([FillByte(init)]);
    WidthOne(size);
    AllocatePodKeeps(h, pool, size, 1, fill, ans);
    FillResizes([], ans.mem, size, 1, fill);
    var b := NewPod(pool, size, 1, fill, ans.mem);
    assert Shows([], map[], init);
    ResizingShows([], UsedBytes(b), map[], init);
    assert Kept(map[], size) == map[];
  }

  /** A bit never written reads as the initial value, whatever was resized or written since the
      allocation. */
  lemma {:induction false} NeverWrittenReadsInit(
    h: Heap, pool: Pool, n: nat, init: bool, ans: PoolAnswer, acts: seq<BitAction>, answers: seq<PoolAnswer>, k: nat)
    requires Inv(h) && |ans.mem| == Capacity(pool, Product(NBytes(n), 1)) && |answers| == |acts|
    requires AllocatePod(h, pool, NBytes(n), 1, Some([FillByte(init)]), ans).Some?
    requires BitRun(AllocatePod(h, pool, NBytes(n), 1, Some([FillByte(init)]), ans).value, pool, |h.handles|, init,
        acts, answers).Some?
    requires forall a | a in acts :: a.WriteBit? ==> a.k != k
    ensures var g := BitRun(AllocatePod(h, pool, NBytes(n), 1, Some([FillByte(init)]), ans).value, pool, |h.handles|,
        init, acts, answers).value;
            && Holds(g, |h.handles|) && ValidPod(Held(g, |h.handles|))
            && (k < 8 * |UsedBytes(Held(g, |h.handles|))| ==> BitAt(UsedBytes(Held(g, |h.handles|)), k) == init)
  {
    AllocationShows(h, pool, n, init, ans);
    var start := AllocatePod(h, pool, NBytes(n), 1, Some([FillByte(init)]), ans).value;
    BitRunRefines(start, pool, |h.handles|, init, acts, answers, map[]);
    UnwrittenStaysOut(map[], acts, k);
  }

  lemma {:induction false} ResizeSetsSize(
    h: Heap, pool: Pool, i: nat, written: map<nat, bool>, init: bool, n: nat, ans: PoolAnswer)
    requires Refines(h, i, written, init) && BitStep(h, pool, i, init, ResizeBits(n), ans).Some?
    ensures var g := BitStep(h, pool, i, init, ResizeBits(n), ans).value;
            Holds(g, i) && ValidPod(Held(g, i)) && |UsedBytes(Held(g, i))| == NBytes(n)
  {
    WidthOne(NBytes(n));
    ReallocatePodContents(h, pool, i, NBytes(n), 1, Some([FillByte(init)]), ans);
  }

  lemma {:induction false} KeptBit(k: nat, v: bool, small: nat, large: nat)
    requires k < 8 * large
    ensures Kept(map[k := v], small) == if k < 8 * small then map[k := v] else map[]
    ensures Kept(Kept(map[k := v], small), large) == Kept(map[k := v], small)
  {
  }

  lemma {:induction false} ThreeSteps(
    h: Heap, pool: Pool, i: nat, init: bool, a: BitAction, b: BitAction, c: BitAction, answers: seq<PoolAnswer>)
    requires |answers| == 3 && BitRun(h, pool, i, init, [a, b, c], answers).Some?
    ensures var g := BitStep(h, pool, i, init, a, answers[0]);
            && g.Some? && BitStep(g.value, pool, i, init, b, answers[1]).Some?
            && BitRun(h, pool, i, init, [a, b, c], answers)
               == BitStep(BitStep(g.value, pool, i, init, b, answers[1]).value, pool, i, init, c, answers[2])
  {
    hide BitStep;
    var acts := [a, b, c];
    assert acts[1..] == [b, c] && acts[1..][1..] == [c] && acts[1..][1..][1..] == [];
    var g := BitStep(h, pool, i, init, a, answers[0]).value;
    assert BitRun(g, pool, i, init, [b, c], answers[1..]) == BitRun(h, pool, i, init, acts, answers);
    var g' := BitStep(g, pool, i, init, b, answers[1]).value;
    assert BitRun(g', pool, i, init, [c], answers[1..][1..]) == BitRun(g, pool, i, init, [b, c], answers[1..]);
    var r := BitStep(g', pool, i, init, c, answers[2]);
    assert r.Some? && BitRun(r.value, pool, i, init, [], answers[1..][1..][1..]) == r;
    assert BitRun(g', pool, i, init, [c], answers[1..][1..]) == r;
  }

  /** Shrinking does not clear bits: of a buffer that is written, shrunk and grown back, the bit
      has its old value again exactly when its byte was not cut off, and else the initial one. */
  lemma {:induction false} StaleBitComesBack(
    h: Heap, pool: Pool, i: nat, init: bool, k: nat, v: bool, small: nat, large: nat, answers: seq<PoolAnswer>)
    requires Refines(h, i, map[], init) && k < 8 * NBytes(large) && |answers| == 3
    requires BitRun(h, pool, i, init, [WriteBit(k, v), ResizeBits(small), ResizeBits(large)], answers).Some?
    ensures var g := BitRun(h, pool, i, init, [WriteBit(k, v), ResizeBits(small), ResizeBits(large)], answers).value;
            && Holds(g, i) && ValidPod(Held(g, i)) && |UsedBytes(Held(g, i))| == NBytes(large)
            && BitAt(UsedBytes(Held(g, i)), k) == if k < 8 * NBytes(small) then v else init
  {
    hide NBytes, BitStep, BitRun, Kept;
    ThreeSteps(h, pool, i, init, WriteBit(k, v), ResizeBits(small), ResizeBits(large), answers);
    var g1 := BitStep(h, pool, i, init, WriteBit(k, v), answers[0]).value;
    var g2 := BitStep(g1, pool, i, init, ResizeBits(small), answers[1]).value;
    var kept := Kept(map[k := v], NBytes(small));
    assert map[][k := v] == map[k := v];
    WriteRefines(h, pool, i, map[], init, k, v, answers[0]);
    ResizeRefines(g1, pool, i, map[k := v], init, small, answers[1]);
    ResizeRefines(g2, pool, i, kept, init, large, answers[2]);
    ResizeSetsSize(g2, pool, i, kept, init, large, answers[2]);
    KeptBit(k, v, NBytes(small), NBytes(large));
  }
}
