/** The bump arena for strings (velox/buffer/StringViewBufferHolder.h and .cpp). */
module StringArena {
  import opened Types

  type Bytes = seq<bv8>

  /** StringView::kInlineSize and kInitialStringReservation. */
  const INLINE_SIZE: nat := 12
  const RESERVATION: nat := 8192

  /** A buffer: its memory and how much of it is in use. */
  datatype Block = Block(bytes: Bytes, size: nat)

  /** A StringView carries a short string itself and points into a block otherwise. */
  datatype View = Inline(text: Bytes) | Ref(block: nat, offset: nat, length: nat)

  /** All blocks ever allocated by address, those still held by stringBuffers_, and those that
      nobody holds any more. */
  datatype Arena = Arena(blocks: seq<Block>, current: seq<nat>, freed: set<nat>)

  const EMPTY := Arena([], [], {})

  /** The blocks of stringBuffers_ are the youngest ones, in order. */
  predicate Valid(a: Arena) {
    && |a.current| <= |a.blocks|
    && (forall j | 0 <= j < |a.current| :: a.current[j] == |a.blocks| - |a.current| + j && a.current[j] !in a.freed)
    && (forall b | b in a.freed :: b < |a.blocks|)
    && (forall b | 0 <= b < |a.blocks| :: a.blocks[b].size <= |a.blocks[b].bytes| && |a.blocks[b].bytes| >= RESERVATION)
  }

  function Max(x: nat, y: nat): nat {
    if x < y then y else x
  }

  predicate Needs(a: Arena, n: nat)
    requires Valid(a)
  {
    a.current == [] || a.blocks[|a.blocks| - 1].size + n > |a.blocks[|a.blocks| - 1].bytes|
  }

  /** The pool serves the allocation, if there is one. */
  predicate Served(a: Arena, n: nat, mem: Bytes)
    requires Valid(a)
  {
    Needs(a, n) ==> |mem| >= Max(n, RESERVATION)
  }

  /** Starts a new block if the last one cannot take n more bytes; mem is what the pool gives. */
  function Reserve(a: Arena, n: nat, mem: Bytes): (r: Arena)
    requires Valid(a) && Served(a, n, mem)
    ensures Valid(r) && r.current != [] && r.freed == a.freed
    ensures var last := r.blocks[|r.blocks| - 1]; last.size + n <= |last.bytes|
  {
    if Needs(a, n) then Arena(a.blocks + [Block(mem, 0)], a.current + [|a.blocks|], a.freed) else a
  }

  /** memcpy behind the used bytes of the last block. */
  function Put(a: Arena, text: Bytes): (r: Arena)
    requires Valid(a) && a.current != []
    requires var last := a.blocks[|a.blocks| - 1]; last.size + |text| <= |last.bytes|
    ensures Valid(r)
  {
    var n := |a.blocks| - 1;
    var b := a.blocks[n];
    var bytes := b.bytes[..b.size] + text + b.bytes[b.size + |text|..];
    a.(blocks := a.blocks[n := Block(bytes, b.size + |text|)])
  }

  function ViewOf(block: nat, offset: nat, text: Bytes): View {
    if |text| <= INLINE_SIZE then Inline(text) else Ref(block, offset, |text|)
  }

  /** getOwnedStringView(data, size). */
  function OwnBytes(a: Arena, text: Bytes, mem: Bytes): (r: (Arena, View))
    requires Valid(a) && Served(a, |text|, mem)
    ensures Valid(r.0)
  {
    var b := Reserve(a, |text|, mem);
    (Put(b, text), ViewOf(|b.blocks| - 1, b.blocks[|b.blocks| - 1].size, text))
  }

  /** getOwnedStringView(stringView): a short view is returned as it is. */
  function OwnView(a: Arena, text: Bytes, mem: Bytes): (r: (Arena, View))
    requires Valid(a) && (|text| > INLINE_SIZE ==> Served(a, |text|, mem))
    ensures Valid(r.0)
  {
    if |text| <= INLINE_SIZE then (a, Inline(text)) else OwnBytes(a, text, mem)
  }

  /** moveBuffers(): the caller takes the blocks over. */
  function Move(a: Arena): Arena {
    a.(current := [])
  }

  /** The last holder outside the arena lets go of block b. */
  function Forget(a: Arena, b: nat): Arena {
    if b < |a.blocks| && b !in a.current then a.(freed := a.freed + {b}) else a
  }

  // ----- what a view reads -----

  function ReadView(a: Arena, v: View): Option<Bytes> {
    match v
    case Inline(text) => Some(text)
    case Ref(b, offset, length) =>
      if b < |a.blocks| && b !in a.freed && offset + length <= |a.blocks[b].bytes| then
        Some(a.blocks[b].bytes[offset..offset + length])
      else None
  }

  /** The view carries the text, or points to it in the used part of a block. */
  predicate Carries(a: Arena, v: View, text: Bytes) {
    match v
    case Inline(t) => t == text
    case Ref(b, offset, length) =>
      && b < |a.blocks| && offset + length <= a.blocks[b].size <= |a.blocks[b].bytes|
      && a.blocks[b].bytes[offset..offset + length] == text
  }

  predicate Overlap(v: View, w: View) {
    && v.Ref? && w.Ref? && v.block == w.block
    && v.offset < w.offset + w.length && w.offset < v.offset + v.length
  }

  // ----- how full the blocks are -----

  /** Any two neighbours in stringBuffers_ hold more than one reservation together. */
  predicate Packed(a: Arena)
    requires Valid(a)
  {
    forall j | 0 <= j < |a.current| - 1 :: Pair(a, j) > RESERVATION
  }

  function Pair(a: Arena, j: nat): nat
    requires Valid(a) && j + 1 < |a.current|
  {
    a.blocks[a.current[j]].size + a.blocks[a.current[j + 1]].size
  }

  function Used(a: Arena, k: nat): nat
    requires Valid(a) && k <= |a.current|
  {
    if k == 0 then 0 else Used(a, k - 1) + a.blocks[a.current[k - 1]].size
  }

  /** k blocks, k at least two, hold more than k / 2 reservations. */
  lemma {:induction false} PackedIsHalfFull(a: Arena, k: nat)
    requires Valid(a) && Packed(a) && 2 <= k <= |a.current|
    ensures Used(a, k) > (k / 2) * RESERVATION
  {
    assert Pair(a, k - 2) > RESERVATION;
    assert Used(a, k) == Used(a, k - 2) + Pair(a, k - 2);
    if k >= 4 {
      PackedIsHalfFull(a, k - 2);
    }
  }

  lemma {:induction false} OwnKeepsPacked(a: Arena, text: Bytes, mem: Bytes)
    requires Valid(a) && Packed(a) && Served(a, |text|, mem)
    ensures Packed(OwnBytes(a, text, mem).0)
  {
    var r := OwnBytes(a, text, mem).0;
    forall j | 0 <= j < |r.current| - 1 ensures Pair(r, j) > RESERVATION {
      if j + 1 < |a.current| {
        assert Pair(a, j) > RESERVATION;
      }
    }
  }

  lemma {:induction false} OwnKeepsViews(a: Arena, text: Bytes, mem: Bytes, v: View, t: Bytes)
    requires Valid(a) && Served(a, |text|, mem) && Carries(a, v, t)
    ensures Carries(OwnBytes(a, text, mem).0, v, t) && !Overlap(v, OwnBytes(a, text, mem).1)
  {
    var b := Reserve(a, |text|, mem);
    assert Carries(b, v, t);
    var r := Put(b, text);
    if v.Ref? {
      assert r.blocks[v.block].bytes[v.offset..v.offset + v.length]
          == b.blocks[v.block].bytes[v.offset..v.offset + v.length];
    }
  }

  lemma {:induction false} OwnedCarries(a: Arena, text: Bytes, mem: Bytes)
    requires Valid(a) && Served(a, |text|, mem)
    ensures Carries(OwnBytes(a, text, mem).0, OwnBytes(a, text, mem).1, text)
  {
  }

  // ----- every run -----

  datatype Action = OwningBytes(text: Bytes) | OwningView(text: Bytes) | CopyingBuffers | Moving | Forgetting(b: nat)

  datatype Issued = Issued(view: View, text: Bytes)

  datatype World = World(arena: Arena, issued: seq<Issued>)

  /** One call; if the pool cannot give the memory, the call raises and nothing changes. */
  function Step(w: World, act: Action, mem: Bytes): World
    requires Valid(w.arena)
  {
    match act
    case OwningBytes(text) =>
      if !Served(w.arena, |text|, mem) then w
      else var r := OwnBytes(w.arena, text, mem); World(r.0, w.issued + [Issued(r.1, text)])
    case OwningView(text) =>
      if |text| > INLINE_SIZE && !Served(w.arena, |text|, mem) then w
      else var r := OwnView(w.arena, text, mem); World(r.0, w.issued + [Issued(r.1, text)])
    case CopyingBuffers => w
    case Moving => w.(arena := Move(w.arena))
    case Forgetting(b) => w.(arena := Forget(w.arena, b))
  }

  predicate Inv(w: World) {
    && Valid(w.arena) && Packed(w.arena)
    && (forall i | 0 <= i < |w.issued| :: Carries(w.arena, w.issued[i].view, w.issued[i].text))
    && (forall i, j | 0 <= i < j < |w.issued| :: !Overlap(w.issued[i].view, w.issued[j].view))
  }

  lemma {:induction false} OwningKeeps(w: World, text: Bytes, mem: Bytes)
    requires Inv(w) && Served(w.arena, |text|, mem)
    ensures var r := OwnBytes(w.arena, text, mem); Inv(World(r.0, w.issued + [Issued(r.1, text)]))
  {
    var r := OwnBytes(w.arena, text, mem);
    OwnKeepsPacked(w.arena, text, mem);
    OwnedCarries(w.arena, text, mem);
    forall i | 0 <= i < |w.issued|
      ensures Carries(r.0, w.issued[i].view, w.issued[i].text) && !Overlap(w.issued[i].view, r.1)
    {
      OwnKeepsViews(w.arena, text, mem, w.issued[i].view, w.issued[i].text);
    }
  }

  lemma {:induction false} StepKeeps(w: World, act: Action, mem: Bytes)
    requires Inv(w)
    ensures Inv(Step(w, act, mem))
  {
    hide OwnBytes;
    match act
    case OwningBytes(text) => if Served(w.arena, |text|, mem) { OwningKeeps(w, text, mem); }
    case OwningView(text) => if Served(w.arena, |text|, mem) { OwningKeeps(w, text, mem); }
    case CopyingBuffers =>
    case Moving =>
    case Forgetting(b) =>
      assert forall j | 0 <= j < |w.arena.current| - 1 :: Pair(Forget(w.arena, b), j) == Pair(w.arena, j);
  }

  const START := World(EMPTY, [])

  ghost function Run(w: World, acts: seq<Action>, mems: seq<Bytes>): (r: World)
    requires Inv(w) && |mems| == |acts|
    ensures Inv(r)
    decreases |acts|
  {
    if acts == [] then w
    else StepKeeps(w, acts[0], mems[0]); Run(Step(w, acts[0], mems[0]), acts[1..], mems[1..])
  }

  /** Views once returned are never taken back. */
  lemma {:induction false} RunIssues(w: World, acts: seq<Action>, mems: seq<Bytes>)
    requires Inv(w) && |mems| == |acts|
    ensures w.issued <= Run(w, acts, mems).issued
    decreases |acts|
  {
    if acts != [] {
      StepKeeps(w, acts[0], mems[0]);
      StepIssues(w, acts[0], mems[0]);
      RunIssues(Step(w, acts[0], mems[0]), acts[1..], mems[1..]);
    }
  }

  lemma {:induction false} StepIssues(w: World, act: Action, mem: Bytes)
    requires Valid(w.arena)
    ensures w.issued <= Step(w, act, mem).issued
  {
  }

  /** Whatever is called after a view was returned, the view still reads its string, exactly as
      long as somebody holds its block. */
  lemma {:induction false} ViewsKeepReading(
    acts: seq<Action>, mems: seq<Bytes>, later: seq<Action>, laterMems: seq<Bytes>, i: nat)
    requires |mems| == |acts| && |laterMems| == |later| && i < |Run(START, acts, mems).issued|
    ensures var w := Run(START, acts, mems);
            var a, v := Run(w, later, laterMems).arena, w.issued[i].view;
            ReadView(a, v) == if v.Ref? && v.block in a.freed then None else Some(w.issued[i].text)
  {
    var w := Run(START, acts, mems);
    RunIssues(w, later, laterMems);
    var end := Run(w, later, laterMems);
    assert end.issued[i] == w.issued[i];
    assert Carries(end.arena, end.issued[i].view, end.issued[i].text);
  }

  /** No two views ever returned share a byte of a block. */
  lemma {:induction false} ViewsNeverOverlap(acts: seq<Action>, mems: seq<Bytes>, i: nat, j: nat)
    requires |mems| == |acts| && i < j < |Run(START, acts, mems).issued|
    ensures var w := Run(START, acts, mems); !Overlap(w.issued[i].view, w.issued[j].view)
  {
    assert Inv(Run(START, acts, mems));
  }

  /** Between moves, k blocks hold more than k / 2 reservations when k is at least two. */
  lemma {:induction false} BlocksAreHalfFull(acts: seq<Action>, mems: seq<Bytes>)
    requires |mems| == |acts|
    ensures var a := Run(START, acts, mems).arena;
            |a.current| >= 2 ==> Used(a, |a.current|) > (|a.current| / 2) * RESERVATION
  {
    var a := Run(START, acts, mems).arena;
    if |a.current| >= 2 {
      PackedIsHalfFull(a, |a.current|);
    }
  }

  // ----- in place -----

  class StringViewBufferHolder {
    var blocks: seq<Block>
    var stringBuffers: seq<nat>
    var freed: set<nat>

    ghost function State(): Arena
      reads this
    {
      Arena(blocks, stringBuffers, freed)
    }

    constructor ()
      ensures State() == EMPTY && Valid(State())
    {
      blocks, stringBuffers, freed := [], [], {};
    }

    method GetOwnedBytes(text: Bytes, mem: Bytes) returns (v: View)
      requires Valid(State()) && Served(State(), |text|, mem)
      modifies this
      ensures (State(), v) == OwnBytes(old(State()), text, mem)
    {
      hide ReadView, Max;
      ghost var before := State();
      if |stringBuffers| == 0 || blocks[|blocks| - 1].size + |text| > |blocks[|blocks| - 1].bytes| {
        stringBuffers := stringBuffers + [|blocks|];
        blocks := blocks + [Block(mem, 0)];
      }
      assert State() == Reserve(before, |text|, mem);
      var n := |blocks| - 1;
      var offset, bytes := blocks[n].size, blocks[n].bytes;
      blocks := blocks[n := Block(bytes[..offset] + text + bytes[offset + |text|..], offset)];
      blocks := blocks[n := blocks[n].(size := offset + |text|)];
      assert State() == Put(Reserve(before, |text|, mem), text);
      v := ViewOf(n, offset, text);
    }

    method GetOwnedView(text: Bytes, mem: Bytes) returns (v: View)
      requires Valid(State()) && (|text| > INLINE_SIZE ==> Served(State(), |text|, mem))
      modifies this
      ensures (State(), v) == OwnView(old(State()), text, mem)
    {
      if |text| <= INLINE_SIZE { return Inline(text); }
      v := GetOwnedBytes(text, mem);
    }

    /** The caller gets every block the holder still holds, none of them freed; the holder
        keeps none, and every view reads what it read. */
    method MoveBuffers() returns (result: seq<nat>)
      requires Valid(State())
      modifies this
      ensures result == old(stringBuffers) && stringBuffers == []
      ensures State() == Move(old(State())) && Valid(State())
      ensures forall b | b in result :: b < |blocks| && b !in freed
      ensures forall v :: ReadView(State(), v) == ReadView(old(State()), v)
    {
      result := stringBuffers;
      stringBuffers := [];
    }

    method Buffers() returns (result: seq<nat>)
      ensures result == stringBuffers
    {
      result := stringBuffers;
    }
  }
}
