/** operator== and hash() of expressions (velox/core/ITypedExpr.h, velox/core/Expressions.h). */
module ExprEquality {
  import opened Types
  import opened TypedExprs
  import opened Substitution

  /** operator==. An input row equals any other, and a dereference compares only its
      index and input; all other classes compare their types as well. */
  predicate Eq(a: Expr, b: Expr)
    decreases a
  {
    match (a, b)
    case (Input(_), Input(_)) => true
    case (Constant(t, v), Constant(u, w)) => TypeEq(t, u) && v == w
    case (VectorConstant(t, v), VectorConstant(u, w)) => TypeEq(t, u) && v == w
    case (Call(t, xs, n), Call(u, ys, o)) =>
      n == o && TypeEq(t, u) && |xs| == |ys| && forall i | 0 <= i < |xs| :: Eq(xs[i], ys[i])
    case (Column(t, n), Column(u, o)) => n == o && TypeEq(t, u)
    case (Subfield(t, x, n), Subfield(u, y, o)) => n == o && TypeEq(t, u) && Eq(x, y)
    case (Dereference(_, x, i), Dereference(_, y, j)) => i == j && Eq(x, y)
    case (Concat(_, xs), Concat(_, ys)) =>
      TypeEq(TypeOf(a), TypeOf(b)) && |xs| == |ys| && forall i | 0 <= i < |xs| :: Eq(xs[i], ys[i])
    case (Lambda(ps, ts, x), Lambda(qs, us, y)) =>
      TypeEq(TypeOf(a), TypeOf(b)) && TypeEq(RowOf(ps, ts), RowOf(qs, us)) && Eq(x, y)
    case (Cast(t, x, m), Cast(u, y, n)) => TypeEq(t, u) && Eq(x, y) && m == n
    case _ => false
  }

  /** Where a and b are equal their children are, pairwise. */
  lemma {:induction false} EqChildren(a: Expr, b: Expr)
    requires Eq(a, b)
    ensures |Children(a)| == |Children(b)|
    ensures forall i | 0 <= i < |Children(a)| :: Eq(Children(a)[i], Children(b)[i])
  {
  }

  // ----- equality is equality of normal forms -----

  /** What weak matching sees of a type. */
  function Weak(t: Type): Type {
    match t
    case Scalar(_, _) => t
    case ArrayOf(c) => ArrayOf(Weak(c))
    case MapOf(k, v) => MapOf(Weak(k), Weak(v))
    case RowOf(_, cs) => RowOf([], seq(|cs|, i requires 0 <= i < |cs| => Weak(cs[i])))
    case FunctionOf(cs) => FunctionOf(seq(|cs|, i requires 0 <= i < |cs| => Weak(cs[i])))
    case Opaque(_) => Opaque(0)
  }

  /** What operator== of types sees of a type. */
  function Seen(t: Type): Type {
    if t.RowOf? then RowOf(t.names, Weak(t).children) else if t.Opaque? then t else Weak(t)
  }

  lemma {:induction false} EquivalentIsWeak(a: Type, b: Type)
    ensures Equivalent(a, b) <==> Weak(a) == Weak(b)
    decreases a
  {
    match (a, b)
    case (ArrayOf(x), ArrayOf(y)) => EquivalentIsWeak(x, y);
    case (MapOf(k, v), MapOf(l, w)) => EquivalentIsWeak(k, l); EquivalentIsWeak(v, w);
    case (RowOf(_, xs), RowOf(_, ys)) => EquivalentsAreWeak(a, xs, ys);
    case (FunctionOf(xs), FunctionOf(ys)) => EquivalentsAreWeak(a, xs, ys);
    case _ =>
  }

  lemma {:induction false} EquivalentsAreWeak(a: Type, xs: seq<Type>, ys: seq<Type>)
    requires (a.RowOf? || a.FunctionOf?) && xs == a.children
    ensures (|xs| == |ys| && forall i | 0 <= i < |xs| :: Equivalent(xs[i], ys[i]))
        <==> seq(|xs|, i requires 0 <= i < |xs| => Weak(xs[i])) == seq(|ys|, i requires 0 <= i < |ys| => Weak(ys[i]))
    decreases a, 0
  {
    var us := seq(|xs|, i requires 0 <= i < |xs| => Weak(xs[i]));
    var vs := seq(|ys|, i requires 0 <= i < |ys| => Weak(ys[i]));
    if |xs| == |ys| {
      forall i | 0 <= i < |xs| ensures Equivalent(xs[i], ys[i]) <==> us[i] == vs[i] {
        EquivalentIsWeak(xs[i], ys[i]);
      }
    }
  }

  lemma {:induction false} TypeEqIsSeen(a: Type, b: Type)
    ensures TypeEq(a, b) <==> Seen(a) == Seen(b)
  {
    EquivalentIsWeak(a, b);
  }

  /** What operator== compares of one node besides its type and its children. */
  datatype Label =
    | InputRow
    | Literal(value: Value)
    | VectorLiteral(value: Value)
    | Apply(name: string)
    | ColumnNamed(name: string)
    | SubfieldNamed(name: string)
    | ChildAt(index: nat)
    | MakeRow
    | Abstraction(signature: Type)
    | Conversion(nullOnFailure: bool)

  function LabelOf(e: Expr): Label {
    match e
    case Input(_) => InputRow
    case Constant(_, v) => Literal(v)
    case VectorConstant(_, v) => VectorLiteral(v)
    case Call(_, _, n) => Apply(n)
    case Column(_, n) => ColumnNamed(n)
    case Subfield(_, _, n) => SubfieldNamed(n)
    case Dereference(_, _, i) => ChildAt(i)
    case Concat(_, _) => MakeRow
    case Lambda(ps, ts, _) => Abstraction(Seen(RowOf(ps, ts)))
    case Cast(_, _, n) => Conversion(n)
  }

  /** A type that is not compared is left out. */
  datatype Form = Form(head: Label, typ: Option<Type>, kids: seq<Form>)

  function TypeSeen(e: Expr): Option<Type> {
    if e.Input? || e.Dereference? then None else Some(Seen(TypeOf(e)))
  }

  function FormOf(e: Expr): Form {
    Form(LabelOf(e), TypeSeen(e), seq(|Children(e)|, i requires 0 <= i < |Children(e)| => FormOf(Children(e)[i])))
  }

  /** operator== is equality of everything but the types of input rows and dereferences, the
      names of nested row types and the index of nested opaque types. */
  lemma {:induction false} EqIsSameForm(a: Expr, b: Expr)
    ensures Eq(a, b) <==> FormOf(a) == FormOf(b)
    decreases a
  {
    EqHere(a, b);
    var xs, ys := Children(a), Children(b);
    if |xs| == |ys| {
      forall i | 0 <= i < |xs| ensures Eq(xs[i], ys[i]) <==> FormOf(a).kids[i] == FormOf(b).kids[i] {
        EqIsSameForm(xs[i], ys[i]);
      }
    }
  }

  lemma {:induction false} EqHere(a: Expr, b: Expr)
    ensures Eq(a, b) <==>
            && LabelOf(a) == LabelOf(b) && TypeSeen(a) == TypeSeen(b) && |Children(a)| == |Children(b)|
            && forall i | 0 <= i < |Children(a)| :: Eq(Children(a)[i], Children(b)[i])
  {
    hide Seen;
    TypeEqIsSeen(TypeOf(a), TypeOf(b));
    if a.Lambda? && b.Lambda? {
      TypeEqIsSeen(RowOf(a.params, a.paramTypes), RowOf(b.params, b.paramTypes));
    }
    hide TypeEq, TypeOf;
    if LabelOf(a) == LabelOf(b) {
      SameLabel(a, b);
    }
  }

  lemma {:induction false} SameLabel(a: Expr, b: Expr)
    requires LabelOf(a) == LabelOf(b)
    ensures Eq(a, b) <==>
            && (a.Input? || a.Dereference? || TypeEq(TypeOf(a), TypeOf(b)))
            && (a.Lambda? ==> TypeEq(RowOf(a.params, a.paramTypes), RowOf(b.params, b.paramTypes)))
            && |Children(a)| == |Children(b)|
            && forall i | 0 <= i < |Children(a)| :: Eq(Children(a)[i], Children(b)[i])
  {
    hide Seen, TypeEq;
    if a.Subfield? || a.Dereference? || a.Lambda? || a.Cast? {
      assert Children(a)[0] < a;
    }
  }

  lemma {:induction false} EqReflexive(a: Expr)
    ensures Eq(a, a)
  {
    EqIsSameForm(a, a);
  }

  lemma {:induction false} EqSymmetric(a: Expr, b: Expr)
    requires Eq(a, b)
    ensures Eq(b, a)
  {
    EqIsSameForm(a, b);
    EqIsSameForm(b, a);
  }

  lemma {:induction false} EqTransitive(a: Expr, b: Expr, c: Expr)
    requires Eq(a, b) && Eq(b, c)
    ensures Eq(a, c)
  {
    EqIsSameForm(a, b);
    EqIsSameForm(b, c);
    EqIsSameForm(a, c);
  }

  // ----- equal expressions mean the same -----

  /** Functions that do not tell equal types apart. */
  ghost predicate TypeBlind(f: Functions) {
    && (forall n, t, u, os {:trigger f.call(n, t, os), f.call(n, u, os)} ::
          TypeEq(t, u) ==> f.call(n, t, os) == f.call(n, u, os))
    && (forall t, u, b, o {:trigger f.cast(t, b, o), f.cast(u, b, o)} ::
          TypeEq(t, u) ==> f.cast(t, b, o) == f.cast(u, b, o))
  }

  /** Equal expressions have the same value in every row. */
  lemma {:induction false} EqualMeansSame(f: Functions, a: Expr, b: Expr, env: Env)
    requires Eq(a, b) && TypeBlind(f)
    ensures Eval(f, a, env) == Eval(f, b, env)
    decreases a, 1
  {
    if a.Call? || a.Concat? {
      EqualMeanSame(f, a, b, env);
      EqualNodes(f, a, b, env);
    } else if a.Lambda? {
      EqualLambdas(f, a, b, env);
    } else if a.Subfield? || a.Dereference? || a.Cast? {
      EqualMeansSame(f, a.input, b.input, env);
      EqualNodes(f, a, b, env);
    }
  }

  /** One node over equal inputs. */
  lemma {:induction false} EqualNodes(f: Functions, a: Expr, b: Expr, env: Env)
    requires Eq(a, b) && TypeBlind(f)
    requires a.Call? || a.Concat? ==> b.Call? == a.Call? && b.Concat? == a.Concat?
                                      && EvalAll(f, a.inputs, env) == EvalAll(f, b.inputs, env)
    requires a.Subfield? || a.Dereference? || a.Cast? ==> Eval(f, a.input, env) == Eval(f, b.input, env)
    ensures a.Lambda? || Eval(f, a, env) == Eval(f, b, env)
  {
    SameNames(a, b);
    hide MakeStruct;
  }

  lemma {:induction false} EqualLambdas(f: Functions, a: Expr, b: Expr, env: Env)
    requires a.Lambda? && Eq(a, b) && TypeBlind(f)
    ensures Eval(f, a, env) == Eval(f, b, env)
    decreases a, 0
  {
    SameNames(a, b);
    forall args: seq<Value> | |args| == |a.params|
      ensures Eval(f, a.body, env + Bind(a.params, args)) == Eval(f, b.body, env + Bind(a.params, args))
    {
      EqualMeansSame(f, a.body, b.body, env + Bind(a.params, args));
    }
  }

  lemma {:induction false} SameNames(a: Expr, b: Expr)
    requires Eq(a, b)
    ensures a.Concat? ==> b.names == a.names
    ensures a.Lambda? ==> b.params == a.params
  {
  }

  lemma {:induction false} EqualMeanSame(f: Functions, a: Expr, b: Expr, env: Env)
    requires (a.Call? && b.Call?) || (a.Concat? && b.Concat?)
    requires Eq(a, b) && TypeBlind(f)
    ensures EvalAll(f, a.inputs, env) == EvalAll(f, b.inputs, env)
    decreases a, 0
  {
    forall i | 0 <= i < |a.inputs| ensures Eval(f, a.inputs[i], env) == Eval(f, b.inputs[i], env) {
      EqualMeansSame(f, a.inputs[i], b.inputs[i], env);
    }
  }

  // ----- hashing -----

  /** bits::hashMix (velox/common/base/BitUtil.h, lines 737-746). */
  function HashMix(upper: bv64, lower: bv64): bv64 {
    var a := (lower ^ upper) * 0x9ddfea08eb382d69;
    var a' := a ^ (a >> 47);
    var b := (upper ^ a') * 0x9ddfea08eb382d69;
    (b ^ (b >> 47)) * 0x9ddfea08eb382d69
  }

  datatype Class = InputClass | ConstantClass | CallClass | FieldAccessClass | DereferenceClass
                 | ConcatClass | LambdaClass | CastClass

  /** Any choice of the mixing function, the standard library's hashes and the hash of stored
      values; the code hashes to 64 bits, with the kind of a type as it is, and mixes with
      HashMix. */
  datatype Hashers<!H> = Hashers(
    mix: (H, H) -> H,
    kind: bv64 -> H,
    base: Class -> H,
    text: string -> H,
    val: Value -> H,
    index: nat -> H,
    flag: bool -> H)

  function LocalHash<H>(h: Hashers<H>, e: Expr): H
    decreases e, 0
  {
    match e
    case Input(_) => h.base(InputClass)
    case Constant(_, v) => h.mix(h.base(ConstantClass), h.val(v))
    case VectorConstant(_, v) => h.mix(h.base(ConstantClass), h.val(v))
    case Call(_, _, n) => h.mix(h.base(CallClass), h.text(n))
    case Column(_, n) => h.mix(h.base(FieldAccessClass), h.text(n))
    case Subfield(_, _, n) => h.mix(h.base(FieldAccessClass), h.text(n))
    case Dereference(_, _, i) => h.mix(h.base(DereferenceClass), h.index(i))
    case Concat(_, _) => h.base(ConcatClass)
    case Lambda(_, _, body) => h.mix(h.base(LambdaClass), Hash(h, body))
    case Cast(_, _, n) => h.mix(h.base(CastClass), h.flag(n))
  }

  function Seed<H>(h: Hashers<H>, e: Expr): H
    decreases e, 1
  {
    h.mix(h.kind(HashKind(TypeOf(e))), LocalHash(h, e))
  }

  function Hash<H>(h: Hashers<H>, e: Expr): H
    decreases e, 2
  {
    HashInputs(h, Seed(h, e), e, |InputsOf(e)|)
  }

  function HashInputs<H>(h: Hashers<H>, seed: H, e: Expr, n: nat): H
    requires n <= |InputsOf(e)|
    decreases e, 0, n
  {
    if n == 0 then seed else h.mix(HashInputs(h, seed, e, n - 1), Hash(h, InputsOf(e)[n - 1]))
  }

  /** hash() as its loop computes it. */
  method ComputeHash<H>(h: Hashers<H>, e: Expr) returns (hash: H)
    ensures hash == Hash(h, e)
  {
    hash := Seed(h, e);
    var i := 0;
    while i < |InputsOf(e)|
      invariant i <= |InputsOf(e)| && hash == HashInputs(h, Seed(h, e), e, i)
    {
      var x := ComputeHash(h, InputsOf(e)[i]);
      hash := h.mix(hash, x);
      i := i + 1;
    }
  }

  // ----- what the hash reads -----

  /** What hash() reads of one node besides the kinds of its type and its children. */
  datatype Mark = Mark(of: Class, datum: Datum)
  datatype Datum = NoDatum | TextDatum(string) | ValueDatum(Value) | IndexDatum(nat) | FlagDatum(bool)

  function MarkOf(e: Expr): Mark {
    match e
    case Input(_) => Mark(InputClass, NoDatum)
    case Constant(_, v) => Mark(ConstantClass, ValueDatum(v))
    case VectorConstant(_, v) => Mark(ConstantClass, ValueDatum(v))
    case Call(_, _, n) => Mark(CallClass, TextDatum(n))
    case Column(_, n) => Mark(FieldAccessClass, TextDatum(n))
    case Subfield(_, _, n) => Mark(FieldAccessClass, TextDatum(n))
    case Dereference(_, _, i) => Mark(DereferenceClass, IndexDatum(i))
    case Concat(_, _) => Mark(ConcatClass, NoDatum)
    case Lambda(_, _, _) => Mark(LambdaClass, NoDatum)
    case Cast(_, _, n) => Mark(CastClass, FlagDatum(n))
  }

  /** a and b differ in nothing that hash() reads. */
  predicate Alike(a: Expr, b: Expr)
    decreases a
  {
    && HashKind(TypeOf(a)) == HashKind(TypeOf(b)) && MarkOf(a) == MarkOf(b)
    && |Children(a)| == |Children(b)|
    && forall i | 0 <= i < |Children(a)| :: Alike(Children(a)[i], Children(b)[i])
  }

  /** Hashing without collisions: every hash is the term that computes it. */
  datatype Term =
    | Mixed(left: Term, right: Term)
    | KindTerm(bv64)
    | BaseTerm(Class)
    | TextTerm(string)
    | ValueTerm(Value)
    | IndexTerm(nat)
    | FlagTerm(bool)

  const FREE := Hashers((x: Term, y: Term) => Mixed(x, y), (k: bv64) => KindTerm(k), (c: Class) => BaseTerm(c),
                        (t: string) => TextTerm(t), (v: Value) => ValueTerm(v), (i: nat) => IndexTerm(i),
                        (b: bool) => FlagTerm(b))

  /** Nothing else is read: alike expressions hash alike under all hashers. */
  lemma {:induction false} AlikeHash<H>(h: Hashers<H>, a: Expr, b: Expr)
    requires Alike(a, b)
    ensures Hash(h, a) == Hash(h, b)
    decreases a
  {
    forall i | 0 <= i < |Children(a)| ensures Hash(h, Children(a)[i]) == Hash(h, Children(b)[i]) {
      AlikeHash(h, Children(a)[i], Children(b)[i]);
    }
    AlikeSeed(h, a, b);
    SameHashInputs(h, Seed(h, a), a, b, |InputsOf(a)|);
  }

  lemma {:induction false} AlikeSeed<H>(h: Hashers<H>, a: Expr, b: Expr)
    requires Alike(a, b)
    requires forall i | 0 <= i < |Children(a)| :: Hash(h, Children(a)[i]) == Hash(h, Children(b)[i])
    ensures Seed(h, a) == Seed(h, b) && |InputsOf(a)| == |InputsOf(b)|
  {
    hide HashKind, TypeOf;
    if a.Lambda? {
      assert Hash(h, Children(a)[0]) == Hash(h, Children(b)[0]);
    }
  }

  lemma {:induction false} SameHashInputs<H>(h: Hashers<H>, seed: H, a: Expr, b: Expr, n: nat)
    requires n <= |InputsOf(a)| == |InputsOf(b)|
    requires forall i | 0 <= i < n :: Hash(h, InputsOf(a)[i]) == Hash(h, InputsOf(b)[i])
    ensures HashInputs(h, seed, a, n) == HashInputs(h, seed, b, n)
  {
    hide HashKind, LocalHash, TypeOf, InputsOf;
    if n > 0 {
      SameHashInputs(h, seed, a, b, n - 1);
    }
  }

  /** The length of the chain of inputs mixed in. */
  function Depth(t: Term): nat {
    if t.Mixed? then 1 + Depth(t.left) else 0
  }

  lemma {:induction false} DepthOfInputs(seed: Term, e: Expr, n: nat)
    requires n <= |InputsOf(e)|
    ensures Depth(HashInputs(FREE, seed, e, n)) == Depth(seed) + n
  {
    hide InputsOf;
    if n > 0 {
      DepthOfInputs(seed, e, n - 1);
    }
  }

  lemma {:induction false} InputsAreRead(s: Term, t: Term, a: Expr, b: Expr, n: nat)
    requires n <= |InputsOf(a)| && n <= |InputsOf(b)|
    requires HashInputs(FREE, s, a, n) == HashInputs(FREE, t, b, n)
    ensures s == t && forall i | 0 <= i < n :: Hash(FREE, InputsOf(a)[i]) == Hash(FREE, InputsOf(b)[i])
  {
    hide InputsOf;
    if n > 0 {
      InputsAreRead(s, t, a, b, n - 1);
    }
  }

  lemma {:induction false} SeedIsRead(a: Expr, b: Expr)
    requires Seed(FREE, a) == Seed(FREE, b)
    ensures HashKind(TypeOf(a)) == HashKind(TypeOf(b)) && MarkOf(a) == MarkOf(b)
    ensures a.Lambda? ==> Hash(FREE, a.body) == Hash(FREE, b.body)
  {
    hide HashKind, TypeOf;
  }

  lemma {:induction false} NodeIsRead(a: Expr, b: Expr)
    requires Hash(FREE, a) == Hash(FREE, b)
    ensures HashKind(TypeOf(a)) == HashKind(TypeOf(b)) && MarkOf(a) == MarkOf(b) && |Children(a)| == |Children(b)|
    ensures forall i | 0 <= i < |Children(a)| :: Hash(FREE, Children(a)[i]) == Hash(FREE, Children(b)[i])
  {
    hide HashKind, TypeOf, LocalHash;
    DepthOfInputs(Seed(FREE, a), a, |InputsOf(a)|);
    DepthOfInputs(Seed(FREE, b), b, |InputsOf(b)|);
    InputsAreRead(Seed(FREE, a), Seed(FREE, b), a, b, |InputsOf(a)|);
    SeedIsRead(a, b);
  }

  /** All of it is read: expressions that hash alike without collisions are alike. */
  lemma {:induction false} HashReadsAll(a: Expr, b: Expr)
    requires Hash(FREE, a) == Hash(FREE, b)
    ensures Alike(a, b)
    decreases a
  {
    NodeIsRead(a, b);
    hide HashKind, TypeOf, MarkOf;
    forall i | 0 <= i < |Children(a)| ensures Alike(Children(a)[i], Children(b)[i]) {
      HashReadsAll(Children(a)[i], Children(b)[i]);
    }
  }

  /** All input-row nodes have type r, and every dereference has the type of its field. */
  predicate Typed(e: Expr, r: Type) {
    && (e.Input? ==> e.typ == r)
    && (e.Dereference? ==>
          var t := TypeOf(e.input);
          t.RowOf? && e.index < |t.children| && e.typ == t.children[e.index])
    && forall i | 0 <= i < |Children(e)| :: Typed(Children(e)[i], r)
  }

  /** Equal, well-typed expressions over one row type have matching types. */
  lemma {:induction false} EqTypes(a: Expr, b: Expr, r: Type)
    requires Eq(a, b) && Typed(a, r) && Typed(b, r)
    ensures Equivalent(TypeOf(a), TypeOf(b))
    decreases a
  {
    if a.Input? {
      EquivalentReflexive(r);
    } else if a.Dereference? {
      assert Children(a)[0] == a.input && Children(b)[0] == b.input;
      EqTypes(a.input, b.input, r);
    }
  }

  lemma {:induction false} EqIsAlike(a: Expr, b: Expr, r: Type)
    requires Eq(a, b) && Typed(a, r) && Typed(b, r)
    ensures Alike(a, b)
    decreases a
  {
    EqTypes(a, b, r);
    EquivalentHash(TypeOf(a), TypeOf(b));
    EqChildren(a, b);
    forall i | 0 <= i < |Children(a)| ensures Alike(Children(a)[i], Children(b)[i]) {
      EqIsAlike(Children(a)[i], Children(b)[i], r);
    }
  }

  /** Equality implies equal hashes, whatever the underlying hashes are. */
  lemma {:induction false} EqImpliesSameHash<H>(h: Hashers<H>, a: Expr, b: Expr, r: Type)
    requires Eq(a, b) && Typed(a, r) && Typed(b, r)
    ensures Hash(h, a) == Hash(h, b)
  {
    EqIsAlike(a, b, r);
    AlikeHash(h, a, b);
  }

  /** The mixing of the code over base hashes that are all zero. */
  const PLAIN := Hashers(HashMix, (k: bv64) => k, (c: Class) => 0, (t: string) => 0, (v: Value) => 0, (i: nat) => 0,
                         (b: bool) => 0)

  const EMPTY_ROW := RowOf([], [])
  const FLAG_ROW := RowOf(["flag"], [BOOLEAN])

  lemma {:induction false} RowKinds()
    ensures HashKind(EMPTY_ROW) == 32 && HashKind(FLAG_ROW) == 992
  {
    var ts := FLAG_ROW.children;
    assert ts[..0] == [] && ts[0] == BOOLEAN;
    assert HashKinds(32, ts[..0]) == 32 && HashKind(BOOLEAN) == 0;
  }

  /** Without a shared row type the implication fails: input rows are always equal, but
      their types are hashed. */
  lemma {:induction false} InputRowsHashApart()
    ensures Eq(Input(EMPTY_ROW), Input(FLAG_ROW)) && Hash(PLAIN, Input(EMPTY_ROW)) != Hash(PLAIN, Input(FLAG_ROW))
  {
    RowKinds();
    assert HashMix(32, 0) != HashMix(992, 0);
    hide HashMix, HashKind;
    assert Hash(PLAIN, Input(EMPTY_ROW)) == Seed(PLAIN, Input(EMPTY_ROW)) == HashMix(32, 0);
    assert Hash(PLAIN, Input(FLAG_ROW)) == Seed(PLAIN, Input(FLAG_ROW)) == HashMix(992, 0);
  }

  lemma {:induction false} HashOfDereference(h: Hashers<bv64>, t: Type, x: Expr)
    ensures Hash(h, Dereference(t, x, 0))
            == h.mix(h.mix(h.kind(HashKind(t)), h.mix(h.base(DereferenceClass), h.index(0))), Hash(h, x))
  {
    hide HashKind;
    var e := Dereference(t, x, 0);
    assert InputsOf(e) == [x];
    assert HashInputs(h, Seed(h, e), e, 0) == Seed(h, e);
  }

  lemma {:induction false} MixedConstants()
    ensures HashMix(0, 0) == 0 && HashMix(992, 0) == 0x5803f0480a575ca5 && HashMix(4, 0) == 0xd778db497bb1bae2
    ensures HashMix(0, 0x5803f0480a575ca5) != HashMix(0xd778db497bb1bae2, 0x5803f0480a575ca5)
  {
  }

  lemma {:induction false} HashOfColumn()
    ensures Hash(PLAIN, Column(FLAG_ROW, "row")) == 0x5803f0480a575ca5
  {
    hide HashMix;
    RowKinds();
    MixedConstants();
    var x := Column(FLAG_ROW, "row");
    assert LocalHash(PLAIN, x) == HashMix(0, 0);
    assert Hash(PLAIN, x) == Seed(PLAIN, x) == HashMix(992, 0);
  }

  /** Nor does it hold for a dereference of the wrong type, which equality does not see. */
  lemma {:induction false} IllTypedDereferencesHashApart()
    ensures var x := Column(FLAG_ROW, "row");
            var a, b := Dereference(BOOLEAN, x, 0), Dereference(BIGINT, x, 0);
            Eq(a, b) && Hash(PLAIN, a) != Hash(PLAIN, b)
  {
    var x := Column(FLAG_ROW, "row");
    assert Eq(Dereference(BOOLEAN, x, 0), Dereference(BIGINT, x, 0)) by {
      EqReflexive(x);
    }
    hide HashMix, Eq;
    MixedConstants();
    HashOfColumn();
    HashOfDereference(PLAIN, BOOLEAN, x);
    HashOfDereference(PLAIN, BIGINT, x);
  }
}
