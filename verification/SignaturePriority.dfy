/** Ranks and priorities of signatures (velox/core/SimpleFunctionMetadata.h:108-155). */
module SignaturePriority {
  import opened Types
  import opened Signatures

  const RANK_STEP: int := 1000000
  const UINT_RANGE: int := 0x1_0000_0000

  /** getRank(); None if a check fails or the unreachable end is reached. */
  function GetRank(s: Stats): Option<nat> {
    if !s.hasGeneric && !s.hasVariadic then Some(1)
    else if s.hasVariadic && !s.hasGeneric then if s.hasVariadicOfGeneric then None else Some(2)
    else if s.hasGeneric && !s.hasVariadicOfGeneric then Some(3)
    else if s.hasVariadicOfGeneric then if s.hasVariadic && s.hasGeneric then Some(4) else None
    else None
  }

  /** A variadic of a generic is a variadic and contains a generic. */
  lemma {:induction false} VariadicOfGenericIsBoth(ts: seq<Arg>)
    ensures var s := StatsOfAll(ts); s.hasVariadicOfGeneric ==> s.hasVariadic && s.hasGeneric
  {
    StatsCountAll(ts);
    var nodes := NodesOfAll(ts);
    if x :| x in nodes && x.VariadicOf? && SomeGeneric(Nodes(x.element)) {
      NodesNestAll(ts, x);
    }
  }

  /** The checks of getRank() never fail on an analysed signature, its end is unreachable, and
      the rank is the documented one. */
  lemma {:induction false} RankIsDefined(ts: seq<Arg>)
    ensures var s, nodes := StatsOfAll(ts), NodesOfAll(ts);
            && GetRank(s).Some?
            && (GetRank(s).value == 1 <==> !SomeGeneric(nodes) && !SomeVariadic(nodes))
            && (GetRank(s).value == 2 <==> !SomeGeneric(nodes) && SomeVariadic(nodes))
            && (GetRank(s).value == 3 <==> SomeGeneric(nodes) && !SomeVariadicOfGeneric(nodes))
            && (GetRank(s).value == 4 <==> SomeVariadicOfGeneric(nodes))
  {
    hide SomeGeneric;
    VariadicOfGenericIsBoth(ts);
    StatsCountAll(ts);
  }

  predicate SomeVariadic(nodes: seq<Arg>) {
    exists t | t in nodes :: t.VariadicOf?
  }

  predicate SomeVariadicOfGeneric(nodes: seq<Arg>) {
    exists t | t in nodes :: t.VariadicOf? && SomeGeneric(Nodes(t.element))
  }

  function Rank(ts: seq<Arg>): (r: nat)
    ensures 1 <= r <= 4
  {
    RankIsDefined(ts);
    GetRank(StatsOfAll(ts)).value
  }

  /** The difference that computePriority() returns as a uint32_t. */
  function Score(ts: seq<Arg>): int {
    Rank(ts) * RANK_STEP - StatsOfAll(ts).concreteCount
  }

  function Priority(ts: seq<Arg>): (p: nat)
    ensures p < UINT_RANGE
  {
    Score(ts) % UINT_RANGE
  }

  // ----- replacing a generic leaf -----

  function Generics(t: Arg): nat {
    match t
    case Generic(_, _, _) => 1
    case MapOf(k, v) => Generics(k) + Generics(v)
    case ArrayOf(e) => Generics(e)
    case RowOf(fields) => GenericsOfAll(fields)
    case VariadicOf(e) => Generics(e)
    case _ => 0
  }

  function GenericsOfAll(ts: seq<Arg>): nat {
    if ts == [] then 0 else GenericsOfAll(ts[..|ts| - 1]) + Generics(ts[|ts| - 1])
  }

  /** The type with its k-th generic leaf, from the left, replaced by c. */
  function Specialised(t: Arg, k: nat, c: Arg): Arg {
    match t
    case Generic(_, _, _) => if k == 0 then c else t
    case MapOf(x, y) =>
      if k < Generics(x) then Arg.MapOf(Specialised(x, k, c), y) else Arg.MapOf(x, Specialised(y, k - Generics(x), c))
    case ArrayOf(e) => Arg.ArrayOf(Specialised(e, k, c))
    case RowOf(fields) => Arg.RowOf(SpecialisedAll(fields, k, c))
    case VariadicOf(e) => VariadicOf(Specialised(e, k, c))
    case _ => t
  }

  function SpecialisedAll(ts: seq<Arg>, k: nat, c: Arg): seq<Arg> {
    if ts == [] then []
    else
      var n := |ts| - 1;
      var before := GenericsOfAll(ts[..n]);
      if k < before then SpecialisedAll(ts[..n], k, c) + [ts[n]] else ts[..n] + [Specialised(ts[n], k - before, c)]
  }

  /** t is at most as general as s and has `more` concrete types more. */
  predicate Sharpens(s: Stats, t: Stats, more: nat) {
    && t.hasVariadic == s.hasVariadic && t.concreteCount == s.concreteCount + more
    && (t.hasGeneric ==> s.hasGeneric) && (t.hasVariadicOfGeneric ==> s.hasVariadicOfGeneric)
  }

  lemma {:induction false} SharpensPlus(a: Stats, s: Stats, t: Stats, more: nat)
    requires Sharpens(s, t, more)
    ensures Sharpens(Plus(a, s), Plus(a, t), more) && Sharpens(Plus(s, a), Plus(t, a), more)
  {
  }

  lemma {:induction false} SpecialisedSharpens(t: Arg, k: nat, c: Arg)
    requires k < Generics(t) && !StatsOf(c).hasVariadic && !StatsOf(c).hasVariadicOfGeneric
    ensures Sharpens(StatsOf(t), StatsOf(Specialised(t, k, c)), StatsOf(c).concreteCount)
    decreases t, 1
  {
    var more := StatsOf(c).concreteCount;
    match t
    case Generic(_, _, _) =>
    case MapOf(x, y) =>
      if k < Generics(x) {
        SpecialisedSharpens(x, k, c);
        SharpensPlus(StatsOf(y), StatsOf(x), StatsOf(Specialised(x, k, c)), more);
      } else {
        SpecialisedSharpens(y, k - Generics(x), c);
        SharpensPlus(StatsOf(x), StatsOf(y), StatsOf(Specialised(y, k - Generics(x), c)), more);
      }
    case ArrayOf(e) => SpecialisedSharpens(e, k, c);
    case RowOf(fields) => SpecialisedAllSharpens(fields, k, c);
    case VariadicOf(e) => SpecialisedSharpens(e, k, c);
  }

  lemma {:induction false} SpecialisedAllSharpens(ts: seq<Arg>, k: nat, c: Arg)
    requires k < GenericsOfAll(ts) && !StatsOf(c).hasVariadic && !StatsOf(c).hasVariadicOfGeneric
    ensures Sharpens(StatsOfAll(ts), StatsOfAll(SpecialisedAll(ts, k, c)), StatsOf(c).concreteCount)
    decreases ts, 0
  {
    var n, r := |ts| - 1, SpecialisedAll(ts, k, c);
    var before := GenericsOfAll(ts[..n]);
    assert r[..|r| - 1] == if k < before then SpecialisedAll(ts[..n], k, c) else ts[..n];
    if k < before {
      SpecialisedAllSharpens(ts[..n], k, c);
    } else {
      SpecialisedSharpens(ts[n], k - before, c);
    }
  }

  /** A sharper signature never has a higher rank. */
  lemma {:induction false} SharpensRank(s: Stats, t: Stats, more: nat)
    requires Sharpens(s, t, more) && GetRank(s).Some? && GetRank(t).Some?
    ensures GetRank(t).value <= GetRank(s).value
  {
  }

  /** A type that is neither generic at its top nor variadic anywhere has a concrete type. */
  lemma {:induction false} NonGenericIsConcrete(c: Arg)
    requires !c.Generic? && !StatsOf(c).hasVariadic
    ensures StatsOf(c).concreteCount >= 1
  {
  }

  lemma {:induction false} SpecialisingScoresLower(ts: seq<Arg>, k: nat, c: Arg)
    requires k < GenericsOfAll(ts) && !c.Generic? && !StatsOf(c).hasVariadic
    ensures Score(SpecialisedAll(ts, k, c)) < Score(ts)
  {
    VariadicOfGenericIsBoth([c]);
    assert StatsOfAll([c]) == StatsOf(c) by { assert [c][..0] == []; }
    NonGenericIsConcrete(c);
    SpecialisedAllSharpens(ts, k, c);
    RankIsDefined(ts);
    RankIsDefined(SpecialisedAll(ts, k, c));
    SharpensRank(StatsOfAll(ts), StatsOfAll(SpecialisedAll(ts, k, c)), StatsOf(c).concreteCount);
  }

  /** Replacing any generic leaf of a signature by a more specific type lowers the priority,
      except exactly when the unsigned difference wraps for the new signature only. */
  lemma {:induction false} SpecialisingLowersPriority(ts: seq<Arg>, k: nat, c: Arg)
    requires k < GenericsOfAll(ts) && !c.Generic? && !StatsOf(c).hasVariadic
    requires StatsOfAll(SpecialisedAll(ts, k, c)).concreteCount < UINT_RANGE - 4 * RANK_STEP
    ensures var us := SpecialisedAll(ts, k, c);
            Priority(us) < Priority(ts)
            <==> (StatsOfAll(us).concreteCount <= Rank(us) * RANK_STEP
                  || StatsOfAll(ts).concreteCount > Rank(ts) * RANK_STEP)
  {
    hide StatsOfAll, SpecialisedAll, Rank;
    SpecialisingScoresLower(ts, k, c);
    SpecialisedAllSharpens(ts, k, c) by { NonVariadic(c); }
    Wrap(Score(SpecialisedAll(ts, k, c)), Score(ts));
  }

  lemma {:induction false} NonVariadic(c: Arg)
    requires !StatsOf(c).hasVariadic
    ensures !StatsOf(c).hasVariadicOfGeneric
  {
    VariadicOfGenericIsBoth([c]);
    assert StatsOfAll([c]) == StatsOf(c) by { assert [c][..0] == []; }
  }

  /** Unsigned 32-bit order of two differences less than 2^32 apart. */
  lemma {:induction false} Wrap(x: int, y: int)
    requires -UINT_RANGE < x < y < UINT_RANGE && y - x < UINT_RANGE
    ensures x % UINT_RANGE < y % UINT_RANGE <==> x >= 0 || y < 0
  {
  }

  /** The rank decides whenever both signatures have fewer than a million concrete types. */
  lemma {:induction false} RankDominates(ts: seq<Arg>, us: seq<Arg>)
    requires Rank(ts) < Rank(us)
    requires StatsOfAll(ts).concreteCount < RANK_STEP && StatsOfAll(us).concreteCount < RANK_STEP
    ensures Priority(ts) < Priority(us)
  {
    hide StatsOfAll, Rank;
  }

  /** Within a rank, more concrete types mean a lower priority. */
  lemma {:induction false} ConcreteCountDecides(ts: seq<Arg>, us: seq<Arg>)
    requires Rank(ts) == Rank(us)
    requires StatsOfAll(ts).concreteCount <= RANK_STEP && StatsOfAll(us).concreteCount <= RANK_STEP
    ensures Priority(ts) < Priority(us) <==> StatsOfAll(ts).concreteCount > StatsOfAll(us).concreteCount
  {
    hide StatsOfAll, Rank;
  }

  // ----- a million concrete types -----

  function Repeated(t: Arg, n: nat): seq<Arg> {
    seq(n, _ => t)
  }

  lemma {:induction false} RepeatedStats(t: Arg, n: nat)
    requires StatsOf(t) == CONCRETE
    ensures StatsOfAll(Repeated(t, n)) == NONE.(concreteCount := n)
  {
    if n > 0 {
      var ts := Repeated(t, n);
      RepeatedStats(t, n - 1);
      assert |ts| == n && ts[n - 1] == t && ts[..n - 1] == Repeated(t, n - 1);
    }
  }

  lemma {:induction false} RepeatedThen(t: Arg, n: nat, x: Arg)
    requires StatsOf(t) == CONCRETE
    ensures StatsOfAll(Repeated(t, n) + [x]) == Plus(NONE.(concreteCount := n), StatsOf(x))
  {
    RepeatedStats(t, n);
    var ts := Repeated(t, n) + [x];
    assert ts[..|ts| - 1] == Repeated(t, n);
  }

  /** With a million concrete arguments a variadic signature ties with a function of none, so
      the bound on the count is needed. */
  lemma {:induction false} MillionArgumentsTie(t: Arg)
    requires StatsOf(t) == CONCRETE
    ensures var us := Repeated(t, 1000000) + [VariadicOf(t)];
            Rank([t]) < Rank(us) && Priority([t]) == Priority(us) == 999999
  {
    assert Repeated(t, 0) + [t] == [t];
    RepeatedThen(t, 0, t);
    RepeatedThen(t, 1000000, VariadicOf(t));
  }

  lemma {:induction false} RepeatedGenerics(t: Arg, n: nat)
    requires Generics(t) == 0
    ensures GenericsOfAll(Repeated(t, n)) == 0
  {
    if n > 0 {
      RepeatedGenerics(t, n - 1);
      assert Repeated(t, n)[..n - 1] == Repeated(t, n - 1);
    }
  }

  /** And a specialised signature can come last: beside a million concrete types, making the
      only generic concrete turns the priority 2000000 into 2^32 - 1. */
  lemma {:induction false} SpecialisingWraps(t: Arg, g: Arg)
    requires t.Primitive? && g.Generic?
    ensures var ts := Repeated(t, 1000000) + [g];
            && GenericsOfAll(ts) == 1 && Priority(ts) == 2000000
            && Priority(SpecialisedAll(ts, 0, t)) == UINT_RANGE - 1
  {
    var n := 1000000;
    var ts := Repeated(t, n) + [g];
    RepeatedThen(t, n, g);
    RepeatedThen(t, n, t);
    RepeatedGenerics(t, n);
    assert ts[..|ts| - 1] == Repeated(t, n);
    assert SpecialisedAll(ts, 0, t) == Repeated(t, n) + [t];
  }
}
