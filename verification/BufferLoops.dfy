/** The loops of velox/buffer/Buffer.h over the memory of one buffer. */
module BufferLoops {
  import opened Types
  import opened Ints
  import opened Widths
  import opened Buffers

  /** Placement construction of slots from..to, counted in an int. Each of them must be raw. */
  method ConstructRange(slots: seq<Slot>, from: nat, to: int, v: int) returns (r: seq<Slot>, built: nat)
    requires from < INT_LIMIT && to < INT_LIMIT && to <= |slots| && forall k | from <= k < to :: slots[k] == Raw
    ensures r == Resize(slots, from, if from < to then to else from, v)
    ensures built == if from < to then to - from else 0
  {
    r, built := slots, 0;
    var i := from;
    while i < to
      invariant from <= i && (i <= to || i == from)
      invariant |r| == |slots| && built == i - from
      invariant forall k | 0 <= k < |r| :: r[k] == if from <= k < i then Object(v) else slots[k]
    {
      assert r[i] == Raw;
      r, built, i := r[i := Object(v)], built + 1, i + 1;
    }
  }

  /** Destructor calls on slots from..to, counted in an int. Each of them must hold an object. */
  method DestroyRange(slots: seq<Slot>, from: nat, to: nat) returns (r: seq<Slot>, gone: nat)
    requires from < INT_LIMIT && to < INT_LIMIT && to <= |slots| && forall k | from <= k < to :: slots[k].Object?
    ensures |r| == |slots| && forall k | 0 <= k < |r| :: r[k] == if from <= k < to then Raw else slots[k]
    ensures gone == if from < to then to - from else 0
  {
    r, gone := slots, 0;
    var i := from;
    while i < to
      invariant from <= i && (i <= to || i == from)
      invariant |r| == |slots| && gone == i - from
      invariant forall k | 0 <= k < |r| :: r[k] == if from <= k < i then Raw else slots[k]
    {
      assert r[i].Object?;
      r, gone, i := r[i := Raw], gone + 1, i + 1;
    }
  }

  /** copyFrom of non-PODs: copy assignment of n objects onto n objects, counted in an int. */
  method AssignRange(to: seq<Slot>, from: seq<Slot>, n: nat) returns (r: seq<Slot>)
    requires n < INT_LIMIT && n <= |to| && n <= |from| && forall k | 0 <= k < n :: to[k].Object? && from[k].Object?
    ensures r == Assigned(to, from, n)
  {
    r := to;
    var i := 0;
    while i < n
      invariant i <= n && |r| == |to|
      invariant forall k | 0 <= k < |r| :: r[k] == if k < i then from[k] else to[k]
    {
      r, i := r[i := from[i]], i + 1;
    }
  }

  /** std::fill of whole elements of init between two byte offsets. */
  method FillElements(bytes: Bytes, oldSize: nat, newSize: nat, init: Bytes) returns (r: Bytes)
    requires |init| > 0 && oldSize < newSize <= |bytes|
    ensures r == FillNew(bytes, oldSize, newSize, |init|, Some(init))
  {
    var w := |init|;
    var p, end := RoundDown(oldSize, w), RoundDown(newSize, w);
    r := bytes;
    RoundDownWhole(oldSize, w);
    RoundDownWhole(newSize, w);
    RoundDownMonotone(oldSize, newSize, w);
    while p < end
      invariant RoundDown(oldSize, w) <= p <= end <= |bytes| && Remainder(p, w) == 0
      invariant r == Filled(bytes, RoundDown(oldSize, w), p, init)
    {
      NextWhole(p, end, w);
      FilledStep(bytes, RoundDown(oldSize, w), p, init);
      r, p := r[..p] + init + r[p + w..], p + w;
    }
  }

  /** Writing one more element behind those already filled. */
  lemma {:induction false} FilledStep(bytes: Bytes, from: nat, p: nat, init: Bytes)
    requires |init| > 0 && from <= p && p + |init| <= |bytes| && Remainder(p, |init|) == 0
    ensures var r := Filled(bytes, from, p, init);
            r[..p] + init + r[p + |init|..] == Filled(bytes, from, p + |init|, init)
  {
    forall k | p <= k < p + |init| ensures Remainder(k, |init|) == k - p { RemainderOffset(p, k - p, |init|); }
  }

  lemma {:induction false} RemainderOffset(p: nat, d: nat, w: nat)
    requires w > 0 && Remainder(p, w) == 0 && d < w
    ensures Remainder(p + d, w) == d
  {
    if p >= w {
      RemainderOffset(p - w, d, w);
    }
  }

  lemma {:induction false} NextWhole(p: nat, end: nat, w: nat)
    requires w > 0 && Remainder(p, w) == 0 && Remainder(end, w) == 0 && p < end
    ensures p + w <= end && Remainder(p + w, w) == 0
  {
    if p >= w {
      NextWhole(p - w, end - w, w);
    }
  }

  lemma {:induction false} RoundDownWhole(size: nat, w: nat)
    requires w > 0
    ensures Remainder(RoundDown(size, w), w) == 0
  {
    if size >= w {
      RoundDownWhole(size - w, w);
    }
  }

  lemma {:induction false} RoundDownMonotone(a: nat, b: nat, w: nat)
    requires w > 0 && a <= b
    ensures RoundDown(a, w) <= RoundDown(b, w)
  {
    if a >= w {
      RoundDownMonotone(a - w, b - w, w);
    }
  }
}
