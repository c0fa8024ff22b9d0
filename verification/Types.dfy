/** The type language shared by expressions and plans (velox/type/Type.h, Type.cpp). */
module Types {

  datatype Option<+T> = None | Some(value: T) {
    predicate IsFailure() {
      None?
    }

    function PropagateFailure<U>(): Option<U>
      requires None?
    {
      None
    }

    function Extract(): T
      requires Some?
    {
      value
    }
  }

  /** A list of results as one result: a single error spoils the whole list. */
  function AllOf<T>(xs: seq<Option<T>>): (r: Option<seq<T>>)
    ensures r.Some? <==> forall i | 0 <= i < |xs| :: xs[i].Some?
    ensures r.Some? ==> |r.value| == |xs| && forall i | 0 <= i < |xs| :: xs[i] == Some(r.value[i])
  {
    if xs == [] then Some([])
    else
      var r, x := AllOf(xs[..|xs| - 1]), xs[|xs| - 1];
      if r.None? || x.None? then None else Some(r.value + [x.value])
  }

  lemma AllOfExactly<T>(rs: seq<Option<T>>, xs: seq<T>)
    requires |rs| == |xs| && forall i | 0 <= i < |rs| :: rs[i].Some? ==> rs[i].value == xs[i]
    ensures AllOf(rs) == if forall i | 0 <= i < |rs| :: rs[i].Some? then Some(xs) else None
  {
    if AllOf(rs).Some? {
      assert AllOf(rs).value == xs;
    }
  }

  /** A scalar carries its TypeKind and an identity: decimals and custom types share a
      kind with a plain scalar and differ from it only by class and parameters. */
  datatype Type =
    | Scalar(kind: bv64, id: nat)
    | ArrayOf(element: Type)
    | MapOf(key: Type, val: Type)
    | RowOf(names: seq<string>, children: seq<Type>)
    | FunctionOf(children: seq<Type>)
    | Opaque(index: nat)

  const BIGINT := Scalar(4, 4)
  const BOOLEAN := Scalar(0, 0)

  /** The check of the RowType constructor, at every depth. */
  predicate ValidType(t: Type) {
    match t
    case Scalar(_, _) => true
    case ArrayOf(c) => ValidType(c)
    case MapOf(k, v) => ValidType(k) && ValidType(v)
    case RowOf(names, cs) => |names| == |cs| && forall c <- cs :: ValidType(c)
    case FunctionOf(cs) => forall c <- cs :: ValidType(c)
    case Opaque(_) => true
  }

  /** Weak matching: row names and opaque indices are ignored. */
  predicate Equivalent(a: Type, b: Type)
    decreases a
  {
    match (a, b)
    case (Scalar(k, i), Scalar(l, j)) => k == l && i == j
    case (ArrayOf(x), ArrayOf(y)) => Equivalent(x, y)
    case (MapOf(k, v), MapOf(l, w)) => Equivalent(k, l) && Equivalent(v, w)
    case (RowOf(_, xs), RowOf(_, ys)) =>
      |xs| == |ys| && forall i | 0 <= i < |xs| :: Equivalent(xs[i], ys[i])
    case (FunctionOf(xs), FunctionOf(ys)) =>
      |xs| == |ys| && forall i | 0 <= i < |xs| :: Equivalent(xs[i], ys[i])
    case (Opaque(_), Opaque(_)) => true
    case _ => false
  }

  /** operator==: only the outermost row compares names, nested rows match weakly. */
  predicate TypeEq(a: Type, b: Type) {
    && Equivalent(a, b)
    && (a.RowOf? ==> a.names == b.names)
    && (a.Opaque? ==> a.index == b.index)
  }

  function HashStep(hash: bv64, child: bv64): bv64 {
    hash * 31 + child
  }

  /** hashKind: mixes type kinds only, in 64-bit wrapping arithmetic. */
  function HashKind(t: Type): bv64
    decreases t, 1
  {
    match t
    case Scalar(k, _) => k
    case ArrayOf(c) => HashStep(30, HashKind(c))
    case MapOf(k, v) => HashStep(HashStep(31, HashKind(k)), HashKind(v))
    case RowOf(_, cs) => HashKinds(32, cs)
    case FunctionOf(cs) => HashKinds(34, cs)
    case Opaque(_) => 35
  }

  function HashKinds(seed: bv64, ts: seq<Type>): bv64
    decreases ts, 0
  {
    if ts == [] then seed
    else HashStep(HashKinds(seed, ts[..|ts| - 1]), HashKind(ts[|ts| - 1]))
  }

  lemma {:induction false} EquivalentReflexive(a: Type)
    ensures Equivalent(a, a) && TypeEq(a, a)
  {
    match a
    case Scalar(_, _) =>
    case ArrayOf(c) => EquivalentReflexive(c);
    case MapOf(k, v) => EquivalentReflexive(k); EquivalentReflexive(v);
    case RowOf(_, cs) => forall i | 0 <= i < |cs| { EquivalentReflexive(cs[i]); }
    case FunctionOf(cs) => forall i | 0 <= i < |cs| { EquivalentReflexive(cs[i]); }
    case Opaque(_) =>
  }

  /** Weakly matching types have the same kind hash, so equal types do too. */
  lemma {:induction false} EquivalentHash(a: Type, b: Type)
    requires Equivalent(a, b)
    ensures HashKind(a) == HashKind(b)
    decreases a, 1
  {
    match (a, b)
    case (ArrayOf(x), ArrayOf(y)) => EquivalentHash(x, y);
    case (MapOf(k, v), MapOf(l, w)) => EquivalentHash(k, l); EquivalentHash(v, w);
    case (RowOf(_, xs), RowOf(_, ys)) => EquivalentHashes(32, xs, ys);
    case (FunctionOf(xs), FunctionOf(ys)) => EquivalentHashes(34, xs, ys);
    case _ =>
  }

  lemma {:induction false} EquivalentHashes(seed: bv64, xs: seq<Type>, ys: seq<Type>)
    requires |xs| == |ys| && forall i | 0 <= i < |xs| :: Equivalent(xs[i], ys[i])
    ensures HashKinds(seed, xs) == HashKinds(seed, ys)
    decreases xs, 0
  {
    if xs != [] {
      var n := |xs| - 1;
      EquivalentHash(xs[n], ys[n]);
      EquivalentHashes(seed, xs[..n], ys[..n]);
    }
  }
}
