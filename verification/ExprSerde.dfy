/** Writing expressions to objects and reading them back (velox/core/Expressions.cpp). */
module ExprSerde {
  import opened Types
  import opened TypedExprs
  import opened Dynamic

  function ClassOf(e: Expr): Class {
    match e
    case Input(_) => InputExpr
    case Constant(_, _) => ConstantExpr
    case VectorConstant(_, _) => ConstantExpr
    case Call(_, _, _) => CallExpr
    case Column(_, _) => FieldAccessExpr
    case Subfield(_, _, _) => FieldAccessExpr
    case Dereference(_, _, _) => DereferenceExpr
    case Concat(_, _) => ConcatExpr
    case Lambda(_, _, _) => LambdaExpr
    case Cast(_, _, _) => CastExpr
  }

  /** serializeBase: an empty input list is not written at all. */
  function Base(e: Expr, inputs: seq<Dyn>): map<Key, Dyn> {
    var m := map[Name := DClass(ClassOf(e)), Typ := DType(TypeOf(e))];
    if inputs == [] then m else m[Inputs := DArr(inputs)]
  }

  /** serialize(): each class adds its own fields to the base. */
  function Write(c: Codec, e: Expr): Dyn
    decreases e, 1
  {
    DObj(Base(e, WriteInputs(c, e)) + Own(c, e))
  }

  function WriteInputs(c: Codec, e: Expr): (ds: seq<Dyn>)
    ensures |ds| == |InputsOf(e)|
    decreases e, 0
  {
    var xs := InputsOf(e);
    seq(|xs|, i requires 0 <= i < |xs| => Write(c, xs[i]))
  }

  function Own(c: Codec, e: Expr): map<Key, Dyn>
    decreases e, 0
  {
    match e
    case Input(_) => map[]
    case Constant(_, v) => map[Value := DValue(v)]
    case VectorConstant(t, v) => map[ValueVector := DBlob(c.save(Vector(t, [v])))]
    case Call(_, _, n) => map[FunctionName := DStr(n)]
    case Column(_, n) => map[FieldName := DStr(n)]
    case Subfield(_, _, n) => map[FieldName := DStr(n)]
    case Dereference(_, _, i) => map[FieldIndex := DInt(i)]
    case Concat(_, _) => map[]
    case Lambda(ps, ts, b) => map[Signature := DType(RowOf(ps, ts)), Body := Write(c, b)]
    case Cast(_, _, n) => map[NullOnFailure := DBool(n)]
  }

  /** serializeBase() as it fills the object, pushing the inputs in a loop. */
  method SerializeBase(c: Codec, e: Expr) returns (obj: map<Key, Dyn>)
    ensures obj == Base(e, WriteInputs(c, e))
    decreases e, 0
  {
    obj := map[Name := DClass(ClassOf(e)), Typ := DType(TypeOf(e))];
    var xs := InputsOf(e);
    if xs != [] {
      var inputs, i := [], 0;
      while i < |xs|
        invariant i <= |xs| && inputs == WriteInputs(c, e)[..i]
      {
        var x := Serialize(c, xs[i]);
        inputs, i := inputs + [x], i + 1;
      }
      assert inputs == WriteInputs(c, e);
      obj := obj[Inputs := DArr(inputs)];
    }
  }

  /** serialize(): the base object with the fields of the class set on it. */
  method Serialize(c: Codec, e: Expr) returns (d: Dyn)
    ensures d == Write(c, e)
    decreases e, 2
  {
    hide Base, TypeOf, ClassOf;
    var obj := SerializeBase(c, e);
    obj := SetFields(c, e, obj);
    d := DObj(obj);
  }

  method SetFields(c: Codec, e: Expr, base: map<Key, Dyn>) returns (obj: map<Key, Dyn>)
    ensures obj == base + Own(c, e)
    decreases e, 1
  {
    obj := base;
    match e {
      case Input(_) =>
      case Constant(_, v) => obj := obj[Value := DValue(v)];
      case VectorConstant(t, v) => obj := obj[ValueVector := DBlob(c.save(Vector(t, [v])))];
      case Call(_, _, n) => obj := obj[FunctionName := DStr(n)];
      case Column(_, n) => obj := obj[FieldName := DStr(n)];
      case Subfield(_, _, n) => obj := obj[FieldName := DStr(n)];
      case Dereference(_, _, i) => obj := obj[FieldIndex := DInt(i)];
      case Concat(_, _) =>
      case Lambda(ps, ts, b) =>
        var body := Serialize(c, b);
        obj := obj[Signature := DType(RowOf(ps, ts))][Body := body];
      case Cast(_, _, n) => obj := obj[NullOnFailure := DBool(n)];
    }
  }

  /** deserialize<ITypedExpr>: looks the class up by name and calls its create function.
      None stands for any raised error. The body of a lambda is read without the pool. */
  function Read(c: Codec, d: Dyn, pool: bool): Option<Expr>
    decreases d, 1
  {
    var cls, t := GetClass(d, Name), GetType(d, Typ);
    if cls.None? then None
    else if cls.value == LambdaExpr then
      var sig, b := GetType(d, Signature), Get(d, Body);
      if sig.None? || !sig.value.RowOf? || b.None? then None
      else
        var body := Read(c, b.value, false);
        if body.None? then None else Some(Lambda(sig.value.names, sig.value.children, body.value))
    else if t.None? then None
    else if cls.value == InputExpr then Some(Input(t.value))
    else if cls.value == ConstantExpr then ReadConstant(c, d, t.value, pool)
    else
      var xs := ReadInputs(c, d, pool);
      if xs.None? then None else Build(cls.value, d, t.value, xs.value)
  }

  function ReadConstant(c: Codec, d: Dyn, t: Type, pool: bool): Option<Expr> {
    var v, blob := Get(d, Value), Get(d, ValueVector);
    if v.Some? then if v.value.DValue? then Some(Constant(t, v.value.v)) else None
    else if blob.None? || !blob.value.DBlob? then None
    else
      var r := c.restore(blob.value.bytes, pool);
      if r.None? || r.value.0.rows == [] then None
      else Some(VectorConstant(r.value.0.typ, r.value.0.rows[0]))
  }

  function ReadInputs(c: Codec, d: Dyn, pool: bool): Option<seq<Expr>>
    decreases d, 0
  {
    if Get(d, Inputs).None? then Some([])
    else
      var arr := GetArr(d, Inputs);
      if arr.None? then None
      else AllOf(seq(|arr.value|, i requires 0 <= i < |arr.value| => Read(c, arr.value[i], pool)))
  }

  /** The create functions of the classes that take inputs, with their checks. */
  function Build(cls: Class, d: Dyn, t: Type, xs: seq<Expr>): Option<Expr> {
    if cls == CallExpr then
      var n := GetStr(d, FunctionName);
      if n.None? then None else Some(Call(t, xs, n.value))
    else if cls == FieldAccessExpr then
      var n := GetStr(d, FieldName);
      if n.None? || |xs| > 1 then None
      else Some(if xs == [] then Column(t, n.value) else Subfield(t, xs[0], n.value))
    else if cls == DereferenceExpr then
      var i := GetInt(d, FieldIndex);
      if i.None? || i.value < 0 || |xs| != 1 || xs[0].Input? then None
      else Some(Dereference(t, xs[0], i.value))
    else if cls == ConcatExpr then
      if !t.RowOf? || |t.names| > |xs| then None else Some(Concat(t.names, xs))
    else if cls == CastExpr then
      var n := GetBool(d, NullOnFailure);
      if n.None? || |xs| != 1 then None else Some(Cast(t, xs[0], n.value))
    else None
  }

  /** Every vector constant that needs a pool is read with one: none of them sits in the
      body of a lambda, and none anywhere when there is no pool to begin with. */
  predicate Readable(c: Codec, e: Expr, pool: bool)
    decreases e
  {
    if e.VectorConstant? then pool || !c.needsPool(Vector(e.typ, [e.value]))
    else if e.Lambda? then Readable(c, e.body, false)
    else forall i | 0 <= i < |Children(e)| :: Readable(c, Children(e)[i], pool)
  }

  /** The round trip, with its exact condition: an expression is read back unchanged when
      every vector constant reaches a pool, and otherwise the reader raises an error. */
  lemma {:induction false} ExprRoundTrip(c: Codec, e: Expr, pool: bool)
    requires ValidCodec(c) && WellFormed(e)
    ensures Read(c, Write(c, e), pool) == if Readable(c, e, pool) then Some(e) else None
    decreases e
  {
    if e.Lambda? {
      ExprRoundTrip(c, e.body, false);
      BaseFields(c, e);
      LambdaFields(c, e);
      ReadsLambda(c, Write(c, e), Write(c, e.body), e, pool);
    } else if Children(e) == [] && !e.Call? && !e.Concat? && !e.Column? {
      RoundTripLeaf(c, e, pool);
    } else {
      RoundTripInputs(c, e, pool);
      BaseFields(c, e);
      BuildsBack(c, e);
      ReadsNode(c, Write(c, e), e, pool);
    }
  }

  lemma {:induction false} ReadsLambda(c: Codec, d: Dyn, body: Dyn, e: Expr, pool: bool)
    requires e.Lambda?
    requires GetClass(d, Name) == Some(LambdaExpr) && Get(d, Body) == Some(body)
    requires GetType(d, Signature) == Some(RowOf(e.params, e.paramTypes))
    requires Read(c, body, false) == if Readable(c, e.body, false) then Some(e.body) else None
    ensures Read(c, d, pool) == if Readable(c, e, pool) then Some(e) else None
  {
  }

  lemma {:induction false} RoundTripLeaf(c: Codec, e: Expr, pool: bool)
    requires ValidCodec(c) && (e.Input? || e.Constant? || e.VectorConstant?)
    ensures Read(c, Write(c, e), pool) == if Readable(c, e, pool) then Some(e) else None
  {
    BaseFields(c, e);
    if e.VectorConstant? {
      RestoreOne(c, Vector(e.typ, [e.value]), pool);
    }
  }

  lemma {:induction false} ReadsNode(c: Codec, d: Dyn, e: Expr, pool: bool)
    requires !e.Lambda? && !e.Input? && !e.Constant? && !e.VectorConstant?
    requires GetClass(d, Name) == Some(ClassOf(e)) && GetType(d, Typ) == Some(TypeOf(e))
    requires Build(ClassOf(e), d, TypeOf(e), InputsOf(e)) == Some(e)
    requires ReadInputs(c, d, pool) == if Readable(c, e, pool) then Some(InputsOf(e)) else None
    ensures Read(c, d, pool) == if Readable(c, e, pool) then Some(e) else None
  {
  }

  /** The fields of the classes leave the base alone. */
  lemma {:induction false} OwnKeys(c: Codec, e: Expr)
    ensures Name !in Own(c, e) && Typ !in Own(c, e) && Inputs !in Own(c, e)
  {
  }

  lemma {:induction false} BaseFields(c: Codec, e: Expr)
    ensures var d, xs := Write(c, e), InputsOf(e);
            && GetClass(d, Name) == Some(ClassOf(e))
            && GetType(d, Typ) == Some(TypeOf(e))
            && (xs == [] ==> Get(d, Inputs).None?)
            && (xs != [] ==> GetArr(d, Inputs) == Some(WriteInputs(c, e)))
  {
    hide TypeOf, ClassOf, Own;
    OwnKeys(c, e);
  }

  lemma {:induction false} LambdaFields(c: Codec, e: Expr)
    requires e.Lambda?
    ensures Get(Write(c, e), Body) == Some(Write(c, e.body))
    ensures GetType(Write(c, e), Signature) == Some(RowOf(e.params, e.paramTypes))
  {
    hide TypeOf, ClassOf;
  }

  /** Given the inputs back, each create function recovers the rest from its fields. */
  lemma {:induction false} BuildsBack(c: Codec, e: Expr)
    requires WellFormed(e) && !e.Lambda? && !e.Input? && !e.Constant? && !e.VectorConstant?
    ensures Build(ClassOf(e), Write(c, e), TypeOf(e), InputsOf(e)) == Some(e)
  {
  }

  lemma {:induction false} RestoreOne(c: Codec, v: Vector, pool: bool)
    requires ValidCodec(c)
    ensures c.restore(c.save(v), pool) == if pool || !c.needsPool(v) then Some((v, [])) else None
  {
    assert c.save(v) + [] == c.save(v);
  }

  lemma {:induction false} RoundTripInputs(c: Codec, e: Expr, pool: bool)
    requires ValidCodec(c) && WellFormed(e) && !e.Lambda? && !e.VectorConstant?
    ensures ReadInputs(c, Write(c, e), pool) == if Readable(c, e, pool) then Some(InputsOf(e)) else None
    decreases e, 0
  {
    var xs := InputsOf(e);
    BaseFields(c, e);
    if xs != [] {
      var ds := WriteInputs(c, e);
      forall i | 0 <= i < |xs|
        ensures Read(c, ds[i], pool) == if Readable(c, xs[i], pool) then Some(xs[i]) else None
      {
        ExprRoundTrip(c, xs[i], pool);
      }
      ReadsEach(c, Write(c, e), ds, xs, pool);
    }
  }

  lemma {:induction false} ReadsEach(c: Codec, d: Dyn, ds: seq<Dyn>, xs: seq<Expr>, pool: bool)
    requires GetArr(d, Inputs) == Some(ds) && |ds| == |xs|
    requires forall i | 0 <= i < |xs| ::
               Read(c, ds[i], pool) == if Readable(c, xs[i], pool) then Some(xs[i]) else None
    ensures ReadInputs(c, d, pool) == if forall i | 0 <= i < |xs| :: Readable(c, xs[i], pool) then Some(xs) else None
  {
    var rs := seq(|ds|, i requires 0 <= i < |ds| => Read(c, ds[i], pool));
    AllOfExactly(rs, xs);
    assert ReadInputs(c, d, pool) == AllOf(rs);
    assert forall i | 0 <= i < |xs| :: rs[i].Some? <==> Readable(c, xs[i], pool);
  }
}
