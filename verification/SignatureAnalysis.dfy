/** The in-place analysis of signature types: TypeAnalysisResults and TypeAnalysis::run
    (velox/core/SimpleFunctionMetadata.h:92-306, 432-454). */
module SignatureAnalysis {
  import opened Types
  import opened Signatures
  import opened SignaturePriority

  // ----- variables -----

  /** The variables a type mentions, from left to right. */
  function Uses(t: Arg): seq<Use> {
    match t
    case Generic(v, comparable, orderable) => if v.Some? then [Use(v.value, Variable(orderable, comparable))] else []
    case MapOf(k, v) => Uses(k) + Uses(v)
    case ArrayOf(e) => Uses(e)
    case RowOf(fields) => UsesOfAll(fields)
    case VariadicOf(e) => Uses(e)
    case _ => []
  }

  function UsesOfAll(ts: seq<Arg>): seq<Use> {
    if ts == [] then [] else UsesOfAll(ts[..|ts| - 1]) + Uses(ts[|ts| - 1])
  }

  /** addVariable(): the properties of a known variable must be repeated. */
  function Add(m: Variables, u: Use): Option<Variables> {
    if u.id in m && m[u.id] != u.variable then None else Some(m[u.id := u.variable])
  }

  function AddAll(m: Variables, us: seq<Use>): Option<Variables> {
    if us == [] then Some(m)
    else
      var r := AddAll(m, us[..|us| - 1]);
      if r.None? then None else Add(r.value, us[|us| - 1])
  }

  lemma {:induction false} AddAllConcat(m: Variables, us: seq<Use>, vs: seq<Use>)
    ensures AddAll(m, us + vs) == var r := AddAll(m, us); if r.None? then None else AddAll(r.value, vs)
  {
    if vs == [] {
      assert us + vs == us;
    } else {
      var n := |vs| - 1;
      assert (us + vs)[..|us + vs| - 1] == us + vs[..n];
      AddAllConcat(m, us, vs[..n]);
    }
  }

  predicate Compatible(m: Variables, t: Variables) {
    forall k | k in m && k in t :: m[k] == t[k]
  }

  /** Collecting into a clean map first and merging it afterwards comes to the same. */
  lemma {:induction false} AddAllMerges(m: Variables, us: seq<Use>)
    ensures AddAll(map[], us).None? ==> AddAll(m, us).None?
    ensures AddAll(map[], us).Some? ==>
              var t := AddAll(map[], us).value;
              && (AddAll(m, us).Some? <==> Compatible(m, t))
              && (AddAll(m, us).Some? ==> AddAll(m, us).value == m + t)
  {
    if us == [] {
      assert m + map[] == m;
    } else {
      AddAllMerges(m, us[..|us| - 1]);
    }
  }

  predicate Conflict(us: seq<Use>) {
    exists i, j | 0 <= i < j < |us| :: us[i].id == us[j].id && us[i].variable != us[j].variable
  }

  /** The map knows exactly the variables used, with the properties of each use. */
  predicate Knows(m: Variables, us: seq<Use>) {
    && (forall i | 0 <= i < |us| :: us[i].id in m && m[us[i].id] == us[i].variable)
    && (forall k | k in m :: exists i | 0 <= i < |us| :: us[i].id == k)
  }

  /** Collecting fails exactly when two uses of a variable differ in their properties. */
  lemma {:induction false} AddAllFailsOnConflict(us: seq<Use>)
    ensures AddAll(map[], us).None? <==> Conflict(us)
    ensures AddAll(map[], us).Some? ==> Knows(AddAll(map[], us).value, us)
  {
    if us != [] {
      var n := |us| - 1;
      var before := us[..n];
      AddAllFailsOnConflict(before);
      var r := AddAll(map[], before);
      if r.None? {
        var i, j :| 0 <= i < j < n && before[i].id == before[j].id && before[i].variable != before[j].variable;
        assert us[i].id == us[j].id && us[i].variable != us[j].variable;
      } else {
        ConflictWithLast(us, r.value);
        if Add(r.value, us[n]).Some? {
          KnowsLast(us, r.value);
        }
      }
    }
  }

  lemma {:induction false} ConflictWithLast(us: seq<Use>, m: Variables)
    requires us != [] && Knows(m, us[..|us| - 1]) && !Conflict(us[..|us| - 1])
    ensures Conflict(us) <==> us[|us| - 1].id in m && m[us[|us| - 1].id] != us[|us| - 1].variable
  {
    var n := |us| - 1;
    var before, last := us[..n], us[n];
    if last.id in m && m[last.id] != last.variable {
      var i :| 0 <= i < n && before[i].id == last.id;
      assert us[i].id == us[n].id && us[i].variable != us[n].variable;
    }
    if i, j :| 0 <= i < j < |us| && us[i].id == us[j].id && us[i].variable != us[j].variable {
      if j < n {
        assert before[i].id == before[j].id && before[i].variable != before[j].variable;
      } else {
        assert before[i].id in m;
      }
    }
  }

  lemma {:induction false} KnowsLast(us: seq<Use>, m: Variables)
    requires us != [] && Knows(m, us[..|us| - 1]) && Add(m, us[|us| - 1]).Some?
    ensures Knows(Add(m, us[|us| - 1]).value, us)
  {
    var n := |us| - 1;
    var r := Add(m, us[n]).value;
    forall i | 0 <= i < |us| ensures us[i].id in r && r[us[i].id] == us[i].variable {
      if i < n { assert us[..n][i].id in m; }
    }
    forall k | k in r ensures exists i | 0 <= i < |us| :: us[i].id == k {
      if k != us[n].id {
        var i :| 0 <= i < n && us[..n][i].id == k;
        assert us[i].id == k;
      }
    }
  }

  // ----- text -----

  function Lower(s: string): string {
    seq(|s|, i requires 0 <= i < |s| => if 'A' <= s[i] <= 'Z' then s[i] - 'A' + 'a' else s[i])
  }

  function Digits(n: nat): string {
    if n < 10 then [('0' as int + n) as char] else Digits(n / 10) + [('0' as int + n % 10) as char]
  }

  /** The type as the signature builder reads it; a variadic shows its element. */
  function Text(t: Arg): string {
    match t
    case Primitive(name) => Lower(name)
    case Custom(name) => name
    case Generic(v, _, _) => if v.None? then "any" else "__user_T" + Digits(v.value)
    case MapOf(k, v) => "map(" + Text(k) + ", " + Text(v) + ")"
    case ArrayOf(e) => "array(" + Text(e) + ")"
    case RowOf(fields) => "row(" + TextOfAll(fields) + ")"
    case VariadicOf(e) => Text(e)
  }

  function TextOfAll(ts: seq<Arg>): string {
    if ts == [] then ""
    else TextOfAll(ts[..|ts| - 1]) + (if |ts| > 1 then ", " else "") + Text(ts[|ts| - 1])
  }

  // ----- what one analysis adds -----

  datatype Analysis = Analysis(stats: Stats, uses: seq<Use>, text: string)

  function AnalysisOf(t: Arg): Analysis {
    Analysis(StatsOf(t), Uses(t), Text(t))
  }

  function AnalysisOfAll(ts: seq<Arg>): Analysis {
    Analysis(StatsOfAll(ts), UsesOfAll(ts), TextOfAll(ts))
  }

  function Then(a: Analysis, b: Analysis): Analysis {
    Analysis(Plus(a.stats, b.stats), a.uses + b.uses, a.text + b.text)
  }

  /** n concrete types and some text. */
  function Literal(n: nat, text: string): Analysis {
    Analysis(NONE.(concreteCount := n), [], text)
  }

  /** What the results hold. */
  datatype Snapshot = Snapshot(stats: Stats, variables: Variables, out: string)

  /** The results after an analysis, or None if its variables conflict. */
  function After(s: Snapshot, a: Analysis): Option<Snapshot> {
    var m := AddAll(s.variables, a.uses);
    if m.None? then None else Some(Snapshot(Plus(s.stats, a.stats), m.value, s.out + a.text))
  }

  lemma {:induction false} AfterThen(s: Snapshot, a: Analysis, b: Analysis)
    ensures After(s, Then(a, b)) == var r := After(s, a); if r.None? then None else After(r.value, b)
  {
    AddAllConcat(s.variables, a.uses, b.uses);
    assert s.out + (a.text + b.text) == (s.out + a.text) + b.text;
  }

  lemma {:induction false} AfterLiteral(s: Snapshot, n: nat, text: string)
    ensures After(s, Literal(n, text))
            == Some(Snapshot(s.stats.(concreteCount := s.stats.concreteCount + n), s.variables, s.out + text))
  {
  }

  lemma {:induction false} Bracketed(open: string, a: Analysis, close: string)
    ensures Then(Then(Literal(1, open), a), Literal(0, close))
        == Analysis(Plus(CONCRETE, a.stats), a.uses, open + a.text + close)
  {
  }

  lemma {:induction false} Separated(open: string, a: Analysis, comma: string, b: Analysis, close: string)
    ensures Then(Then(Then(Then(Literal(1, open), a), Literal(0, comma)), b), Literal(0, close))
            == Analysis(Plus(CONCRETE, Plus(a.stats, b.stats)), a.uses + b.uses, open + a.text + comma + b.text + close)
  {
  }

  lemma {:induction false} ArrayAnalysis(t: Arg)
    requires t.ArrayOf?
    ensures AnalysisOf(t) == Then(Then(Literal(1, "array("), AnalysisOf(t.element)), Literal(0, ")"))
  {
    hide Then, Literal;
    Bracketed("array(", AnalysisOf(t.element), ")");
  }

  lemma {:induction false} RowAnalysis(t: Arg)
    requires t.RowOf?
    ensures AnalysisOf(t) == Then(Then(Literal(1, "row("), AnalysisOfAll(t.fields)), Literal(0, ")"))
  {
    hide Then, Literal, Plus;
    Bracketed("row(", AnalysisOfAll(t.fields), ")");
  }

  lemma {:induction false} LeafAnalysis(t: Arg)
    ensures t.Primitive? ==> AnalysisOf(t) == Literal(1, Lower(t.name))
    ensures t.Custom? ==> AnalysisOf(t) == Literal(1, t.name)
  {
    hide Lower;
  }

  lemma {:induction false} MapAnalysis(t: Arg)
    requires t.MapOf?
    ensures AnalysisOf(t)
            == Then(Then(Then(Then(Literal(1, "map("), AnalysisOf(t.key)), Literal(0, ", ")), AnalysisOf(t.value)),
                Literal(0, ")"))
  {
    hide Then, Literal, Plus;
    Separated("map(", AnalysisOf(t.key), ", ", AnalysisOf(t.value), ")");
  }

  lemma {:induction false} FieldsAnalysis(ts: seq<Arg>, i: nat)
    requires i < |ts|
    ensures AnalysisOfAll(ts[..i + 1])
            == Then(Then(AnalysisOfAll(ts[..i]), Literal(0, if i > 0 then ", " else "")), AnalysisOf(ts[i]))
  {
    assert ts[..i + 1][..i] == ts[..i];
  }

  /** Once the variables conflict they go on conflicting. */
  lemma {:induction false} StuckEarly(s: Snapshot, ts: seq<Arg>, i: nat)
    requires i <= |ts| && After(s, AnalysisOfAll(ts[..i])).None?
    ensures After(s, AnalysisOfAll(ts)).None?
    decreases |ts| - i
  {
    if i == |ts| {
      assert ts[..i] == ts;
    } else {
      var comma := Literal(0, if i > 0 then ", " else "");
      FieldsAnalysis(ts, i);
      AfterThen(s, Then(AnalysisOfAll(ts[..i]), comma), AnalysisOf(ts[i]));
      AfterThen(s, AnalysisOfAll(ts[..i]), comma);
      StuckEarly(s, ts, i + 1);
    }
  }

  // ----- the analysis in place -----

  class TypeAnalysisResults {
    var hasVariadic: bool
    var hasGeneric: bool
    var hasVariadicOfGeneric: bool
    var concreteCount: nat
    var out: string
    var variables: Variables

    ghost function Now(): Snapshot
      reads this
    {
      Snapshot(Stats(hasVariadic, hasGeneric, hasVariadicOfGeneric, concreteCount), variables, out)
    }

    constructor ()
      ensures Now() == Snapshot(NONE, map[], "")
    {
      hasVariadic, hasGeneric, hasVariadicOfGeneric, concreteCount, out, variables := false, false, false, 0, "", map[];
    }

    method AddVariable(u: Use) returns (ok: bool)
      modifies this`variables
      ensures ok == Add(old(variables), u).Some?
      ensures variables == if ok then Add(old(variables), u).value else old(variables)
    {
      if u.id !in variables {
        variables := variables[u.id := u.variable];
        ok := true;
      } else {
        ok := u.variable == variables[u.id];
        assert ok ==> variables == variables[u.id := u.variable];
      }
    }

    method ResetText()
      modifies this`out
      ensures out == ""
    {
      out := "";
    }

    /** computePriority(): a difference returned as a uint32_t. */
    function ComputePriority(): nat
      requires GetRank(Stats(hasVariadic, hasGeneric, hasVariadicOfGeneric, concreteCount)).Some?
      reads this
    {
      var rank := GetRank(Stats(hasVariadic, hasGeneric, hasVariadicOfGeneric, concreteCount)).value;
      (rank * RANK_STEP - concreteCount) % UINT_RANGE
    }

    method Emit(n: nat, text: string)
      modifies this`concreteCount, this`out
      ensures Some(Now()) == After(old(Now()), Literal(n, text))
    {
      AfterLiteral(Now(), n, text);
      concreteCount := concreteCount + n;
      out := out + text;
    }

    /** TypeAnalysis<T>::run(): adds the statistics, the text and the variables of a type, and
        raises when a variable is used with different properties. */
    method Run(t: Arg) returns (ok: bool)
      modifies this
      ensures ok == After(old(Now()), AnalysisOf(t)).Some?
      ensures ok ==> Some(Now()) == After(old(Now()), AnalysisOf(t))
      decreases t, 1
    {
      LeafAnalysis(t);
      ok := true;
      match t {
        case Primitive(name) => Emit(1, Lower(name));
        case Custom(name) => Emit(1, name);
        case Generic(_, _, _) => ok := RunGeneric(t);
        case ArrayOf(_) => ok := RunArray(t);
        case MapOf(_, _) => ok := RunMap(t);
        case RowOf(_) => ok := RunRow(t);
        case VariadicOf(_) => ok := RunVariadic(t);
      }
    }

    method RunGeneric(t: Arg) returns (ok: bool)
      requires t.Generic?
      modifies this
      ensures ok == After(old(Now()), AnalysisOf(t)).Some?
      ensures ok ==> Some(Now()) == After(old(Now()), AnalysisOf(t))
    {
      ok := true;
      if t.variable.None? {
        out := out + "any";
      } else {
        var u := Use(t.variable.value, Variable(t.orderable, t.comparable));
        assert [u][..0] == [];
        assert AddAll(variables, [u]) == Add(variables, u);
        out := out + ("__user_T" + Digits(t.variable.value));
        ok := AddVariable(u);
      }
      hasGeneric := true;
    }

    method RunArray(t: Arg) returns (ok: bool)
      requires t.ArrayOf?
      modifies this
      ensures ok == After(old(Now()), AnalysisOf(t)).Some?
      ensures ok ==> Some(Now()) == After(old(Now()), AnalysisOf(t))
      decreases t, 0
    {
      ghost var start, inner := Now(), Then(Literal(1, "array("), AnalysisOf(t.element));
      ArrayAnalysis(t);
      AfterThen(start, inner, Literal(0, ")"));
      AfterThen(start, Literal(1, "array("), AnalysisOf(t.element));
      Emit(1, "array(");
      ok := Run(t.element);
      if ok { Emit(0, ")"); }
    }

    method RunMap(t: Arg) returns (ok: bool)
      requires t.MapOf?
      modifies this
      ensures ok == After(old(Now()), AnalysisOf(t)).Some?
      ensures ok ==> Some(Now()) == After(old(Now()), AnalysisOf(t))
      decreases t, 0
    {
      ghost var start, a := Now(), Then(Literal(1, "map("), AnalysisOf(t.key));
      ghost var b := Then(a, Literal(0, ", "));
      MapAnalysis(t);
      AfterThen(start, Then(b, AnalysisOf(t.value)), Literal(0, ")"));
      AfterThen(start, b, AnalysisOf(t.value));
      AfterThen(start, a, Literal(0, ", "));
      AfterThen(start, Literal(1, "map("), AnalysisOf(t.key));
      Emit(1, "map(");
      ok := Run(t.key);
      if !ok { return; }
      Emit(0, ", ");
      ok := Run(t.value);
      if ok { Emit(0, ")"); }
    }

    method RunRow(t: Arg) returns (ok: bool)
      requires t.RowOf?
      modifies this
      ensures ok == After(old(Now()), AnalysisOf(t)).Some?
      ensures ok ==> Some(Now()) == After(old(Now()), AnalysisOf(t))
      decreases t, 0
    {
      ghost var start, inner := Now(), Then(Literal(1, "row("), AnalysisOfAll(t.fields));
      RowAnalysis(t);
      AfterThen(start, inner, Literal(0, ")"));
      AfterThen(start, Literal(1, "row("), AnalysisOfAll(t.fields));
      Emit(1, "row(");
      ok := RunFields(t.fields);
      if ok { Emit(0, ")"); }
    }

    method RunFields(fields: seq<Arg>) returns (ok: bool)
      modifies this
      ensures ok == After(old(Now()), AnalysisOfAll(fields)).Some?
      ensures ok ==> Some(Now()) == After(old(Now()), AnalysisOfAll(fields))
      decreases fields, 0
    {
      ghost var start := Now();
      var first, i := true, 0;
      ok := true;
      NoFields(start, fields);
      while i < |fields|
        invariant i <= |fields| && first == (i == 0) && ok
        invariant After(start, AnalysisOfAll(fields[..i])) == Some(Now())
      {
        ghost var comma := Literal(0, if i > 0 then ", " else "");
        FieldsAnalysis(fields, i);
        AfterThen(start, Then(AnalysisOfAll(fields[..i]), comma), AnalysisOf(fields[i]));
        AfterThen(start, AnalysisOfAll(fields[..i]), comma);
        Emit(0, if first then "" else ", ");
        first := false;
        ok := Run(fields[i]);
        if !ok {
          StuckEarly(start, fields, i + 1);
          return;
        }
        i := i + 1;
      }
      assert fields[..i] == fields;
    }

    /** Analyses the element into clean results and merges them. */
    method RunVariadic(t: Arg) returns (ok: bool)
      requires t.VariadicOf?
      modifies this
      ensures ok == After(old(Now()), AnalysisOf(t)).Some?
      ensures ok ==> Some(Now()) == After(old(Now()), AnalysisOf(t))
      decreases t, 0
    {
      hide After, AnalysisOf, Compatible;
      ghost var start := Now();
      var tmp := new TypeAnalysisResults();
      ok := tmp.Run(t.element);
      VariadicAfter(start, t);
      if !ok { return; }
      hasVariadic := true;
      hasGeneric := hasGeneric || tmp.hasGeneric;
      hasVariadicOfGeneric := tmp.hasGeneric || hasVariadicOfGeneric;
      concreteCount := concreteCount + tmp.concreteCount;
      ok := MergeVariables(tmp.variables);
      out := out + tmp.out;
    }

    method MergeVariables(more: Variables) returns (ok: bool)
      modifies this`variables
      ensures ok == Compatible(old(variables), more)
      ensures ok ==> variables == old(variables) + more
    {
      var rest := more.Keys;
      while rest != {}
        invariant rest <= more.Keys && variables == old(variables) + (more - rest)
        invariant forall k | k in more && k !in rest && k in old(variables) :: old(variables)[k] == more[k]
        decreases rest
      {
        var k :| k in rest;
        ok := AddVariable(Use(k, more[k]));
        if !ok {
          assert k in old(variables) && old(variables)[k] != more[k];
          return;
        }
        rest := rest - {k};
      }
      ok := true;
    }
  }

  lemma {:induction false} NoFields(s: Snapshot, fields: seq<Arg>)
    ensures After(s, AnalysisOfAll(fields[..0])) == Some(s)
  {
    assert fields[..0] == [];
    assert s.out + "" == s.out;
  }

  /** Merging the clean results of the element comes to analysing it in place. */
  lemma {:induction false} VariadicAfter(s: Snapshot, t: Arg)
    requires t.VariadicOf?
    ensures var r, clean := After(s, AnalysisOf(t)), After(Snapshot(NONE, map[], ""), AnalysisOf(t.element));
            if clean.None? then r.None?
            else
              var x := clean.value;
              var added := Stats(true, x.stats.hasGeneric, x.stats.hasGeneric, x.stats.concreteCount);
              && (r.Some? <==> Compatible(s.variables, x.variables))
              && (r.Some? ==> r.value == Snapshot(Plus(s.stats, added), s.variables + x.variables, s.out + x.out))
  {
    AddAllMerges(s.variables, Uses(t.element));
    assert "" + Text(t.element) == Text(t);
  }

  // ----- whole signatures -----

  /** The results agree with the analysis of the types so far. */
  ghost predicate Covers(now: Snapshot, ts: seq<Arg>) {
    now.stats == StatsOfAll(ts) && AddAll(map[], UsesOfAll(ts)) == Some(now.variables)
  }

  lemma {:induction false} CoversNext(now: Snapshot, ts: seq<Arg>, i: nat)
    requires i < |ts| && Covers(now, ts[..i])
    ensures var r := After(now, AnalysisOf(ts[i]));
            && (r.None? ==> AddAll(map[], UsesOfAll(ts)).None?)
            && (r.Some? ==> Covers(r.value, ts[..i + 1]) && r.value.out == now.out + Text(ts[i]))
  {
    assert ts[..i + 1][..i] == ts[..i];
    AddAllConcat(map[], UsesOfAll(ts[..i]), Uses(ts[i]));
    if After(now, AnalysisOf(ts[i])).None? {
      Stuck(ts, i + 1);
    }
  }

  lemma {:induction false} CoversAll(now: Snapshot, ts: seq<Arg>)
    requires Covers(now, ts)
    ensures now.stats == StatsOfAll(ts) && AddAll(map[], UsesOfAll(ts)) == Some(now.variables)
  {
  }

  /** The text plays no part. */
  lemma {:induction false} CoversAnyText(now: Snapshot, ts: seq<Arg>, text: string)
    requires Covers(now, ts)
    ensures Covers(now.(out := text), ts)
  {
  }

  lemma {:induction false} Stuck(ts: seq<Arg>, i: nat)
    requires i <= |ts| && AddAll(map[], UsesOfAll(ts[..i])).None?
    ensures AddAll(map[], UsesOfAll(ts)).None?
    decreases |ts| - i
  {
    if i == |ts| {
      assert ts[..i] == ts;
    } else {
      assert ts[..i + 1][..i] == ts[..i];
      AddAllConcat(map[], UsesOfAll(ts[..i]), Uses(ts[i]));
      Stuck(ts, i + 1);
    }
  }

  lemma {:induction false} CoversNone()
    ensures Covers(Snapshot(NONE, map[], ""), [])
  {
  }

  /** One more type of the signature ts, analysed into results that cover those before it. */
  method AnalyzeNext(
    results: TypeAnalysisResults, ghost ts: seq<Arg>, ghost i: nat, t: Arg) returns (ok: bool, text: string)
    requires i < |ts| && t == ts[i] && Covers(results.Now(), ts[..i]) && results.out == ""
    modifies results
    ensures ok ==> Covers(results.Now(), ts[..i + 1]) && text == Text(t)
    ensures !ok ==> AddAll(map[], UsesOfAll(ts)).None?
  {
    hide After, AnalysisOf, AddAll, Text, Covers, UsesOfAll;
    CoversNext(results.Now(), ts, i);
    ok := results.Run(t);
    text := results.out;
  }

  /** analyzeSignatureTypes() and the priority computed from it. It raises exactly when two uses
      of a variable differ in their properties. */
  method AnalyzeSignature(ret: Arg, args: seq<Arg>)
    returns (ok: bool, output: string, texts: seq<string>, variables: Variables, priority: nat)
    ensures var ts := [ret] + args;
            && ok == !Conflict(UsesOfAll(ts))
            && (ok ==> && output == Text(ret) && |texts| == |args|
                       && (forall i | 0 <= i < |args| :: texts[i] == Text(args[i]))
                       && Knows(variables, UsesOfAll(ts)) && priority == Priority(ts))
  {
    hide AddAll, Text, Covers, UsesOfAll, StatsOfAll, Conflict, Knows, GetRank;
    ghost var ts := [ret] + args;
    AddAllFailsOnConflict(UsesOfAll(ts));
    texts, variables, priority := [], map[], 0;
    var results := new TypeAnalysisResults();
    CoversNone();
    assert ts[..0] == [];
    ok, output := AnalyzeNext(results, ts, 0, ret);
    if !ok { return; }
    var i := 0;
    while i < |args|
      invariant i <= |args| && |texts| == i && ok
      invariant Covers(results.Now(), ts[..i + 1])
      invariant forall k | 0 <= k < i :: texts[k] == Text(args[k])
    {
      CoversAnyText(results.Now(), ts[..i + 1], "");
      results.ResetText();
      var text: string;
      ok, text := AnalyzeNext(results, ts, i + 1, args[i]);
      if !ok { return; }
      texts := texts + [text];
      i := i + 1;
    }
    assert ts[..i + 1] == ts;
    CoversAll(results.Now(), ts);
    RankIsDefined(ts);
    variables, priority := results.variables, results.ComputePriority();
  }
}
