/** Writing and reading the parts of a plan node: lists, keys, aggregates, window functions and vectors
    (velox/core/PlanNode.cpp). */
module PlanParts {
  import opened Types
  import opened TypedExprs
  import opened Dynamic
  import ES = ExprSerde
  import opened Plans
  import opened PlanNames

  // ----- lists and optional fields -----

  function WriteList<T>(xs: seq<T>, w: T -> Dyn): Dyn {
    DArr(seq(|xs|, i requires 0 <= i < |xs| => w(xs[i])))
  }

  function ReadList<T>(d: Option<Dyn>, r: Dyn -> Option<T>): Option<seq<T>> {
    if d.None? || !d.value.DArr? then None
    else AllOf(seq(|d.value.elems|, i requires 0 <= i < |d.value.elems| => r(d.value.elems[i])))
  }

  /** A list is read back exactly when each of its elements is. */
  lemma ListRoundTrip<T>(xs: seq<T>, w: T -> Dyn, r: Dyn -> Option<T>)
    requires forall x <- xs :: r(w(x)) == Some(x) || r(w(x)) == None
    ensures ReadList(Some(WriteList(xs, w)), r) == if forall x <- xs :: r(w(x)).Some? then Some(xs) else None
  {
    var ds := WriteList(xs, w).elems;
    var rs := seq(|ds|, i requires 0 <= i < |ds| => r(ds[i]));
    assert forall i | 0 <= i < |xs| :: rs[i] == r(w(xs[i]));
    AllOfExactly(rs, xs);
    assert ReadList(Some(WriteList(xs, w)), r) == AllOf(rs);
    if forall i | 0 <= i < |rs| :: rs[i].Some? {
      forall x <- xs ensures r(w(x)).Some? {
        var i :| 0 <= i < |xs| && xs[i] == x;
        assert rs[i].Some?;
      }
    }
  }

  function PutOpt(m: map<Key, Dyn>, k: Key, d: Option<Dyn>): map<Key, Dyn> {
    if d.None? then m else m[k := d.value]
  }

  function ReadOpt<T>(d: Option<Dyn>, r: Dyn -> Option<T>): Option<Option<T>> {
    if d.None? then Some(None)
    else
      var x := r(d.value);
      if x.None? then None else Some(x)
  }

  // ----- readers and writers of the parts of a node -----

  function StrW(): string -> Dyn { (s: string) => DStr(s) }

  function StrR(): Dyn -> Option<string> { (d: Dyn) => if d.DStr? then Some(d.s) else None }

  function StrsW(): seq<string> -> Dyn { (ss: seq<string>) => WriteList(ss, StrW()) }

  function StrsR(): Dyn -> Option<seq<string>> { (d: Dyn) => ReadList(Some(d), StrR()) }

  function IntW(): int -> Dyn { (n: int) => DInt(n) }

  function IntR(): Dyn -> Option<int> { (d: Dyn) => if d.DInt? then Some(d.n) else None }

  function TypeW(): Type -> Dyn { (t: Type) => DType(t) }

  function TypeR(): Dyn -> Option<Type> { (d: Dyn) => if d.DType? then Some(d.t) else None }

  function ExprW(c: Codec): Expr -> Dyn { (e: Expr) => ES.Write(c, e) }

  function ExprR(c: Codec, pool: bool): Dyn -> Option<Expr> { (d: Dyn) => ES.Read(c, d, pool) }

  /** Reads an expression and keeps it only if it is a field access. */
  function ReadField(c: Codec, d: Dyn, pool: bool): Option<Expr> {
    var e := ES.Read(c, d, pool);
    if e.Some? && IsField(e.value) then e else None
  }

  function FieldR(c: Codec, pool: bool): Dyn -> Option<Expr> { (d: Dyn) => ReadField(c, d, pool) }

  function ReadCall(c: Codec, d: Dyn, pool: bool): Option<Expr> {
    var e := ES.Read(c, d, pool);
    if e.Some? && e.value.Call? then e else None
  }

  function RowW(c: Codec): seq<Expr> -> Dyn { (es: seq<Expr>) => WriteList(es, ExprW(c)) }

  function RowR(c: Codec, pool: bool): Dyn -> Option<seq<Expr>> { (d: Dyn) => ReadList(Some(d), ExprR(c, pool)) }

  function OrderW(): SortOrder -> Dyn {
    (o: SortOrder) => DObj(map[Ascending := DBool(o.ascending), NullsFirst := DBool(o.nullsFirst)])
  }

  function ReadOrder(d: Dyn): Option<SortOrder> {
    var a :- GetBool(d, Ascending);
    var n :- GetBool(d, NullsFirst);
    Some(SortOrder(a, n))
  }

  function OrderR(): Dyn -> Option<SortOrder> { (d: Dyn) => ReadOrder(d) }

  function PairW(): ((string, nat)) -> Dyn {
    (p: (string, nat)) => DObj(map[Assign := DStr(p.0), ColumnHandle := DHandle(p.1)])
  }

  function ReadPair(d: Dyn): Option<(string, nat)> {
    var n :- GetStr(d, Assign);
    var h :- Get(d, ColumnHandle);
    if h.DHandle? then Some((n, h.h)) else None
  }

  function PairR(): Dyn -> Option<(string, nat)> { (d: Dyn) => ReadPair(d) }

  function ExprOf(c: Codec, e: Option<Expr>): Option<Dyn> {
    if e.None? then None else Some(ES.Write(c, e.value))
  }

  function WriteAggregate(c: Codec, a: Aggregate): Dyn {
    var m := map[CallKey := ES.Write(c, a.call),
                 RawInputTypes := WriteList(a.rawInputTypes, TypeW()),
                 SortingKeys := WriteList(a.sortingKeys, ExprW(c)),
                 SortingOrders := WriteList(a.sortingOrders, OrderW()),
                 Distinct := DBool(a.distinct)];
    DObj(PutOpt(m, Mask, ExprOf(c, a.mask)))
  }

  function AggregateW(c: Codec): Aggregate -> Dyn { (a: Aggregate) => WriteAggregate(c, a) }

  /** The call and the mask are read without the pool. */
  function ReadAggregate(c: Codec, d: Dyn, pool: bool): Option<Aggregate> {
    var cd :- Get(d, CallKey);
    var call :- ReadCall(c, cd, false);
    var types :- ReadList(Get(d, RawInputTypes), TypeR());
    var mask :- ReadOpt(Get(d, Mask), FieldR(c, false));
    var keys :- ReadList(Get(d, SortingKeys), FieldR(c, pool));
    var orders :- ReadList(Get(d, SortingOrders), OrderR());
    var distinct :- GetBool(d, Distinct);
    Some(Aggregate(call, types, mask, keys, orders, distinct))
  }

  function AggregateR(c: Codec, pool: bool): Dyn -> Option<Aggregate> { (d: Dyn) => ReadAggregate(c, d, pool) }

  function WriteInfo(c: Codec, i: GroupingKeyInfo): Dyn {
    DObj(map[Output := DStr(i.output), InputKey := ES.Write(c, i.input)])
  }

  function InfoW(c: Codec): GroupingKeyInfo -> Dyn { (i: GroupingKeyInfo) => WriteInfo(c, i) }

  function ReadInfo(c: Codec, d: Dyn): Option<GroupingKeyInfo> {
    var o :- GetStr(d, Output);
    var i :- Get(d, InputKey);
    var e :- ReadField(c, i, false);
    Some(GroupingKeyInfo(o, e))
  }

  function InfoR(c: Codec): Dyn -> Option<GroupingKeyInfo> { (d: Dyn) => ReadInfo(c, d) }

  function WriteFrame(c: Codec, f: WindowFrame): Dyn {
    var m := map[Typ := DStr(WindowTypeName(f.typ)),
                 StartType := DStr(BoundTypeName(f.startType)),
                 EndType := DStr(BoundTypeName(f.endType))];
    DObj(PutOpt(PutOpt(m, StartValue, ExprOf(c, f.startValue)), EndValue, ExprOf(c, f.endValue)))
  }

  function ReadFrame(c: Codec, d: Dyn): Option<WindowFrame> {
    var start :- ReadOpt(Get(d, StartValue), ExprR(c, false));
    var end :- ReadOpt(Get(d, EndValue), ExprR(c, false));
    var tn :- GetStr(d, Typ);
    var t :- WindowTypeFromName(tn);
    var sn :- GetStr(d, StartType);
    var s :- BoundTypeFromName(sn);
    var en :- GetStr(d, EndType);
    var e :- BoundTypeFromName(en);
    Some(WindowFrame(t, s, start, e, end))
  }

  function WriteFunction(c: Codec, f: WindowFunction): Dyn {
    DObj(map[FunctionCall := ES.Write(c, f.call), Frame := WriteFrame(c, f.frame), IgnoreNulls := DBool(f.ignoreNulls)])
  }

  function FunctionW(c: Codec): WindowFunction -> Dyn { (f: WindowFunction) => WriteFunction(c, f) }

  /** Window functions are read without the pool altogether. */
  function ReadFunction(c: Codec, d: Dyn): Option<WindowFunction> {
    var cd :- Get(d, FunctionCall);
    var call :- ReadCall(c, cd, false);
    var fd :- Get(d, Frame);
    var frame :- ReadFrame(c, fd);
    var i :- GetBool(d, IgnoreNulls);
    Some(WindowFunction(call, frame, i))
  }

  function FunctionR(c: Codec): Dyn -> Option<WindowFunction> { (d: Dyn) => ReadFunction(c, d) }

  // ----- vectors of a values node -----

  function SaveAll(c: Codec, vs: seq<Vector>): Bytes {
    if vs == [] then [] else c.save(vs[0]) + SaveAll(c, vs[1..])
  }

  /** Restores vectors until the stream is used up. */
  function RestoreAll(c: Codec, bytes: Bytes, pool: bool): Option<seq<Vector>>
    decreases |bytes|
  {
    if bytes == [] then Some([])
    else
      var r :- c.restore(bytes, pool);
      if |r.1| >= |bytes| then None
      else
        var rest :- RestoreAll(c, r.1, pool);
        Some([r.0] + rest)
  }

  function Prepend(vs: seq<Vector>, r: Option<seq<Vector>>): Option<seq<Vector>> {
    if r.None? then None else Some(vs + r.value)
  }

  /** The loop of ValuesNode::create over its data stream. */
  method RestoreValues(c: Codec, data: Bytes, pool: bool) returns (r: Option<seq<Vector>>)
    ensures r == RestoreAll(c, data, pool)
  {
    var values, rest := [], data;
    ghost var all := RestoreAll(c, data, pool);
    assert all.Some? ==> [] + all.value == all.value;
    while rest != []
      invariant RestoreAll(c, data, pool) == Prepend(values, RestoreAll(c, rest, pool))
      decreases |rest|
    {
      var next := c.restore(rest, pool);
      if next.None? || |next.value.1| >= |rest| {
        return None;
      }
      ghost var tail := RestoreAll(c, next.value.1, pool);
      assert tail.Some? ==> values + ([next.value.0] + tail.value) == values + [next.value.0] + tail.value;
      values, rest := values + [next.value.0], next.value.1;
    }
    assert values + [] == values;
    return Some(values);
  }

  predicate VectorsReadable(c: Codec, vs: seq<Vector>, pool: bool) {
    forall v <- vs :: pool || !c.needsPool(v)
  }

  /** Concatenated vectors are split up again, unless one of them needs the missing pool. */
  lemma {:induction false} VectorsRoundTrip(c: Codec, vs: seq<Vector>, pool: bool)
    requires ValidCodec(c)
    ensures RestoreAll(c, SaveAll(c, vs), pool) == if VectorsReadable(c, vs, pool) then Some(vs) else None
  {
    if vs != [] {
      VectorsRoundTrip(c, vs[1..], pool);
      assert vs == [vs[0]] + vs[1..];
      assert c.restore(c.save(vs[0]) + SaveAll(c, vs[1..]), pool) ==
             if pool || !c.needsPool(vs[0]) then Some((vs[0], SaveAll(c, vs[1..]))) else None;
    }
  }

  // ----- round trips of the parts -----

  predicate ExprsReadable(c: Codec, es: seq<Expr>, pool: bool) {
    forall e <- es :: ES.Readable(c, e, pool)
  }

  predicate OptReadable(c: Codec, e: Option<Expr>, pool: bool) {
    e.Some? ==> ES.Readable(c, e.value, pool)
  }

  lemma {:induction false} ExprsRoundTrip(c: Codec, es: seq<Expr>, pool: bool)
    requires ValidCodec(c) && AllWellFormed(es)
    ensures ReadList(Some(WriteList(es, ExprW(c))), ExprR(c, pool)) ==
            if ExprsReadable(c, es, pool) then Some(es) else None
  {
    var w, r := ExprW(c), ExprR(c, pool);
    forall e <- es ensures r(w(e)) == if ES.Readable(c, e, pool) then Some(e) else None {
      ES.ExprRoundTrip(c, e, pool);
    }
    ListRoundTrip(es, w, r);
  }

  lemma {:induction false} FieldsRoundTrip(c: Codec, es: seq<Expr>, pool: bool)
    requires ValidCodec(c) && AllFields(es)
    ensures ReadList(Some(WriteList(es, ExprW(c))), FieldR(c, pool)) ==
            if ExprsReadable(c, es, pool) then Some(es) else None
  {
    var w, r := ExprW(c), FieldR(c, pool);
    forall e <- es ensures r(w(e)) == if ES.Readable(c, e, pool) then Some(e) else None {
      ES.ExprRoundTrip(c, e, pool);
    }
    ListRoundTrip(es, w, r);
  }

  lemma {:induction false} OptRoundTrip(c: Codec, e: Option<Expr>, pool: bool)
    requires ValidCodec(c) && OptWellFormed(e)
    ensures ReadOpt(ExprOf(c, e), ExprR(c, pool)) == if OptReadable(c, e, pool) then Some(e) else None
    ensures OptField(e) ==>
              ReadOpt(ExprOf(c, e), FieldR(c, pool)) == if OptReadable(c, e, pool) then Some(e) else None
  {
    if e.Some? {
      ES.ExprRoundTrip(c, e.value, pool);
    }
  }

  predicate MatrixReadable(c: Codec, matrix: seq<seq<Expr>>, pool: bool) {
    forall row <- matrix :: ExprsReadable(c, row, pool)
  }

  lemma {:induction false} MatrixRoundTrip(c: Codec, rows: seq<seq<Expr>>, pool: bool)
    requires ValidCodec(c) && forall row <- rows :: AllWellFormed(row)
    ensures ReadList(Some(WriteList(rows, RowW(c))), RowR(c, pool)) ==
            if MatrixReadable(c, rows, pool) then Some(rows) else None
  {
    var w, r := RowW(c), RowR(c, pool);
    forall row <- rows ensures r(w(row)) == if ExprsReadable(c, row, pool) then Some(row) else None {
      ExprsRoundTrip(c, row, pool);
    }
    ListRoundTrip(rows, w, r);
  }

  // Strings, integers, types, sort orders and column assignments are always read back.

  lemma {:induction false} StringsRoundTrip(xs: seq<string>)
    ensures ReadList(Some(WriteList(xs, StrW())), StrR()) == Some(xs)
  {
    ListRoundTrip(xs, StrW(), StrR());
  }

  lemma {:induction false} StringSetsRoundTrip(xs: seq<seq<string>>)
    ensures ReadList(Some(WriteList(xs, StrsW())), StrsR()) == Some(xs)
  {
    forall x <- xs ensures StrsR()(StrsW()(x)) == Some(x) { StringsRoundTrip(x); }
    ListRoundTrip(xs, StrsW(), StrsR());
  }

  lemma {:induction false} IntsRoundTrip(xs: seq<int>)
    ensures ReadList(Some(WriteList(xs, IntW())), IntR()) == Some(xs)
  {
    ListRoundTrip(xs, IntW(), IntR());
  }

  lemma {:induction false} TypesRoundTrip(xs: seq<Type>)
    ensures ReadList(Some(WriteList(xs, TypeW())), TypeR()) == Some(xs)
  {
    ListRoundTrip(xs, TypeW(), TypeR());
  }

  lemma {:induction false} OrdersRoundTrip(xs: seq<SortOrder>)
    ensures ReadList(Some(WriteList(xs, OrderW())), OrderR()) == Some(xs)
  {
    forall x <- xs ensures OrderR()(OrderW()(x)) == Some(x) {
      var d := OrderW()(x);
      assert GetBool(d, Ascending) == Some(x.ascending) && GetBool(d, NullsFirst) == Some(x.nullsFirst);
    }
    ListRoundTrip(xs, OrderW(), OrderR());
  }

  lemma {:induction false} PairsRoundTrip(xs: seq<(string, nat)>)
    ensures ReadList(Some(WriteList(xs, PairW())), PairR()) == Some(xs)
  {
    ListRoundTrip(xs, PairW(), PairR());
  }

  predicate AggregateReadable(c: Codec, a: Aggregate, pool: bool) {
    ES.Readable(c, a.call, false) && OptReadable(c, a.mask, false) && ExprsReadable(c, a.sortingKeys, pool)
  }

  lemma {:induction false} AggregateRoundTrip(c: Codec, a: Aggregate, pool: bool)
    requires ValidCodec(c) && WellFormed(a.call) && a.call.Call? && OptField(a.mask) && AllFields(a.sortingKeys)
    ensures ReadAggregate(c, WriteAggregate(c, a), pool) == if AggregateReadable(c, a, pool) then Some(a) else None
  {
    hide ES.Read, ES.Write, ReadList, WriteList, ReadOpt;
    ES.ExprRoundTrip(c, a.call, false);
    OptRoundTrip(c, a.mask, false);
    FieldsRoundTrip(c, a.sortingKeys, pool);
    TypesRoundTrip(a.rawInputTypes);
    OrdersRoundTrip(a.sortingOrders);
    AggregateFields(c, a);
  }

  lemma {:induction false} AggregateFields(c: Codec, a: Aggregate)
    ensures var d := WriteAggregate(c, a);
            && Get(d, CallKey) == Some(ES.Write(c, a.call))
            && Get(d, Mask) == ExprOf(c, a.mask)
            && Get(d, RawInputTypes) == Some(WriteList(a.rawInputTypes, TypeW()))
            && Get(d, SortingKeys) == Some(WriteList(a.sortingKeys, ExprW(c)))
            && Get(d, SortingOrders) == Some(WriteList(a.sortingOrders, OrderW()))
            && GetBool(d, Distinct) == Some(a.distinct)
  {
    hide ES.Write, WriteList;
  }

  predicate FunctionReadable(c: Codec, f: WindowFunction) {
    && ES.Readable(c, f.call, false)
    && OptReadable(c, f.frame.startValue, false)
    && OptReadable(c, f.frame.endValue, false)
  }

  lemma {:induction false} FunctionRoundTrip(c: Codec, f: WindowFunction)
    requires ValidCodec(c) && WellFormed(f.call) && f.call.Call?
    requires OptWellFormed(f.frame.startValue) && OptWellFormed(f.frame.endValue)
    ensures ReadFunction(c, WriteFunction(c, f)) == if FunctionReadable(c, f) then Some(f) else None
  {
    hide ES.Read, ES.Write, ReadFrame, WriteFrame;
    ES.ExprRoundTrip(c, f.call, false);
    FrameRoundTrip(c, f.frame);
    var d := WriteFunction(c, f);
    assert Get(d, FunctionCall) == Some(ES.Write(c, f.call)) && Get(d, Frame) == Some(WriteFrame(c, f.frame));
    assert GetBool(d, IgnoreNulls) == Some(f.ignoreNulls);
  }

  lemma {:induction false} FrameRoundTrip(c: Codec, f: WindowFrame)
    requires ValidCodec(c) && OptWellFormed(f.startValue) && OptWellFormed(f.endValue)
    ensures ReadFrame(c, WriteFrame(c, f)) ==
            if OptReadable(c, f.startValue, false) && OptReadable(c, f.endValue, false) then Some(f) else None
  {
    hide ES.Read, ES.Write, ReadOpt;
    OptRoundTrip(c, f.startValue, false);
    OptRoundTrip(c, f.endValue, false);
    WindowNamesInvert(f.typ, f.startType, f.endType);
    var d := WriteFrame(c, f);
    assert Get(d, StartValue) == ExprOf(c, f.startValue) && Get(d, EndValue) == ExprOf(c, f.endValue);
    assert GetStr(d, Typ) == Some(WindowTypeName(f.typ));
    assert GetStr(d, StartType) == Some(BoundTypeName(f.startType));
    assert GetStr(d, EndType) == Some(BoundTypeName(f.endType));
  }

  lemma {:induction false} WindowNamesInvert(t: WindowType, s: BoundType, e: BoundType)
    ensures WindowTypeFromName(WindowTypeName(t)) == Some(t)
    ensures BoundTypeFromName(BoundTypeName(s)) == Some(s) && BoundTypeFromName(BoundTypeName(e)) == Some(e)
  {
    NamesInvert(SingleStep, s, t, Gather, Broadcast, NoCommit);
    NamesInvert(SingleStep, e, t, Gather, Broadcast, NoCommit);
  }
}
