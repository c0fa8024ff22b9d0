/** The recursive, undetailed rendering of a plan (velox/core/PlanNode.cpp). */
module PlanPrinter {
  import opened Plans

  /** The part of a plan that the rendering shows. */
  datatype Tree = Tree(name: string, kids: seq<Tree>)

  function NodeName(op: Op): string {
    match op
    case Values(_, _, _) => "Values"
    case Filter(_) => "Filter"
    case Project(_, _) => "Project"
    case TableScan(_, _, _) => "TableScan"
    case Aggregation(_, _, _, _, _, _, _, _) => "Aggregation"
    case TableWrite(_, _, _, _, _, _, _, _) => "TableWrite"
    case TableWriteMerge(_, _) => "TableWriteMerge"
    case Expand(_, _) => "Expand"
    case GroupId(_, _, _, _) => "GroupId"
    case Exchange(_) => "Exchange"
    case MergeExchange(_, _, _) => "MergeExchange"
    case LocalMerge(_, _) => "LocalMerge"
    case LocalPartition(_, _) => "LocalPartition"
    case PartitionedOutput(_, _, _, _, _, _) => "PartitionedOutput"
    case HashJoin(_, _, _, _, _, _) => "HashJoin"
    case MergeJoin(_, _, _, _, _) => "MergeJoin"
    case NestedLoopJoin(_, _, _) => "NestedLoopJoin"
    case OrderBy(_, _, _) => "OrderBy"
    case TopN(_, _, _, _) => "TopN"
    case Limit(_, _, _) => "Limit"
    case Unnest(_, _, _, _) => "Unnest"
    case EnforceSingleRow => "EnforceSingleRow"
    case AssignUniqueId(_, _) => "AssignUniqueId"
    case Window(_, _, _, _, _, _) => "Window"
    case RowNumber(_, _, _) => "RowNumber"
    case TopNRowNumber(_, _, _, _, _) => "TopNRowNumber"
    case MarkDistinct(_, _) => "MarkDistinct"
  }

  /** The tree of node names of a plan. */
  function Shape(p: Plan): Tree {
    Tree(NodeName(p.op), seq(|p.sources|, i requires 0 <= i < |p.sources| => Shape(p.sources[i])))
  }

  function Spaces(n: nat): string {
    seq(n, i => ' ')
  }

  function Line(name: string, indentation: nat): string {
    Spaces(indentation) + "-- " + name + "\n"
  }

  function Render(t: Tree, indentation: nat): string
    decreases t, 1
  {
    Line(t.name, indentation) + RenderAll(t.kids, indentation + 2)
  }

  function RenderAll(ts: seq<Tree>, indentation: nat): string
    decreases ts, 0
  {
    if ts == [] then "" else Render(ts[0], indentation) + RenderAll(ts[1..], indentation)
  }

  class StringStream {
    var text: string

    constructor ()
      ensures text == ""
    {
      text := "";
    }

    method Append(s: string)
      modifies this
      ensures text == old(text) + s
    {
      text := text + s;
    }
  }

  /** toString(): writes the node, and in recursive mode its sources two columns deeper. */
  method ToString(p: Plan, stream: StringStream, recursive: bool, indentationSize: nat)
    modifies stream
    ensures stream.text == old(stream.text) +
                           if recursive then Render(Shape(p), indentationSize)
                           else Line(NodeName(p.op), indentationSize)
    decreases p
  {
    hide NodeName;
    stream.Append(Spaces(indentationSize));
    stream.Append("-- ");
    stream.Append(NodeName(p.op));
    stream.Append("\n");
    ghost var head := stream.text;
    assert head == old(stream.text) + Line(NodeName(p.op), indentationSize);
    if recursive {
      ghost var kids := Shape(p).kids;
      ghost var all := RenderAll(kids, indentationSize + 2);
      for i := 0 to |p.sources|
        invariant head + all == stream.text + RenderAll(kids[i..], indentationSize + 2)
      {
        ghost var before := stream.text;
        ToString(p.sources[i], stream, true, indentationSize + 2);
        RenderNext(kids, i, indentationSize + 2, before);
      }
      assert stream.text + RenderAll(kids[|kids|..], indentationSize + 2) == stream.text;
      assert head + all == old(stream.text) + (Line(NodeName(p.op), indentationSize) + all);
    }
  }

  lemma {:induction false} RenderNext(ts: seq<Tree>, i: nat, d: nat, before: string)
    requires i < |ts|
    ensures before + RenderAll(ts[i..], d) == before + Render(ts[i], d) + RenderAll(ts[i + 1..], d)
  {
    assert ts[i..][0] == ts[i] && ts[i..][1..] == ts[i + 1..];
  }

  // ----- sources in order -----

  /** Where the rendering of tree i starts in a list of renderings. */
  function Offset(ts: seq<Tree>, d: nat, i: nat): nat
    requires i <= |ts|
  {
    if i == 0 then 0 else Offset(ts, d, i - 1) + |Render(ts[i - 1], d)|
  }

  lemma {:induction false} RenderedPrefix(ts: seq<Tree>, d: nat, i: nat)
    requires i <= |ts|
    ensures |RenderAll(ts[..i], d)| == Offset(ts, d, i)
    ensures RenderAll(ts, d) == RenderAll(ts[..i], d) + RenderAll(ts[i..], d)
  {
    if i == 0 {
      assert ts[..0] == [] && ts[0..] == ts;
    } else {
      RenderedPrefix(ts, d, i - 1);
      assert ts[..i] == ts[..i - 1] + [ts[i - 1]];
      RenderedLast(ts[..i - 1], ts[i - 1], d);
      RenderNext(ts, i - 1, d, RenderAll(ts[..i - 1], d));
    }
  }

  lemma {:induction false} RenderedLast(ts: seq<Tree>, t: Tree, d: nat)
    ensures RenderAll(ts + [t], d) == RenderAll(ts, d) + Render(t, d)
  {
    if ts == [] {
      assert [] + [t] == [t] && [t][1..] == [];
      assert RenderAll([t], d) == Render(t, d) + "";
    } else {
      assert (ts + [t])[0] == ts[0] && (ts + [t])[1..] == ts[1..] + [t];
      RenderedLast(ts[1..], t, d);
    }
  }

  lemma {:induction false} Middle(a: string, b: string, c: string, d: string)
    ensures a + (b + c + d) == a + b + c + d && (a + (b + c + d))[|a| + |b|..|a| + |b| + |c|] == c
  {
  }

  /** A node comes before its sources, and source i two columns deeper right after those before
      it. */
  lemma {:induction false} SourcesInOrder(t: Tree, d: nat, i: nat)
    requires i < |t.kids|
    ensures Line(t.name, d) <= Render(t, d)
    ensures var at := |Line(t.name, d)| + Offset(t.kids, d + 2, i);
            var end := at + |Render(t.kids[i], d + 2)|;
            end <= |Render(t, d)| && Render(t, d)[at..end] == Render(t.kids[i], d + 2)
  {
    var kids := t.kids;
    RenderedPrefix(kids, d + 2, i);
    var head, before, mine := Line(t.name, d), RenderAll(kids[..i], d + 2), Render(kids[i], d + 2);
    RenderNext(kids, i, d + 2, before);
    Middle(head, before, mine, RenderAll(kids[i + 1..], d + 2));
  }

  // ----- the text determines the tree -----

  /** No name spans lines. Every node name is such a name. */
  predicate OneLine(t: Tree) {
    '\n' !in t.name && forall k <- t.kids :: OneLine(k)
  }

  lemma {:induction false} NamesAreOneLine(p: Plan)
    ensures OneLine(Shape(p))
  {
    hide NodeName;
    NameIsOneLine(p.op);
    forall s <- p.sources ensures OneLine(Shape(s)) { NamesAreOneLine(s); }
    forall k <- Shape(p).kids ensures OneLine(k) {
      var i :| 0 <= i < |p.sources| && k == Shape(p.sources[i]);
      assert p.sources[i] in p.sources;
    }
  }

  lemma {:induction false} NameIsOneLine(op: Op)
    ensures '\n' !in NodeName(op)
  {
    hide NodeName;
    if InFirst(op) {
      FirstNames(op);
    } else if InSecond(op) {
      SecondNames(op);
    } else if InThird(op) {
      ThirdNames(op);
    } else {
      OtherNames(op);
    }
  }

  predicate InFirst(op: Op) {
    op.Values? || op.Filter? || op.Project? || op.TableScan? || op.Aggregation?
    || op.TableWrite? || op.TableWriteMerge? || op.Expand? || op.GroupId?
  }

  predicate InSecond(op: Op) {
    op.Exchange? || op.MergeExchange? || op.LocalMerge? || op.LocalPartition? || op.PartitionedOutput?
  }

  predicate InThird(op: Op) {
    op.HashJoin? || op.MergeJoin? || op.NestedLoopJoin? || op.OrderBy? || op.TopN? || op.Limit?
  }

  lemma {:induction false} FirstNames(op: Op)
    requires InFirst(op)
    ensures '\n' !in NodeName(op)
  {
    match op
    case Values(_, _, _) => assert '\n' !in "Values";
    case Filter(_) => assert '\n' !in "Filter";
    case Project(_, _) => assert '\n' !in "Project";
    case TableScan(_, _, _) => assert '\n' !in "TableScan";
    case Aggregation(_, _, _, _, _, _, _, _) => assert '\n' !in "Aggregation";
    case TableWrite(_, _, _, _, _, _, _, _) => assert '\n' !in "TableWrite";
    case TableWriteMerge(_, _) => assert '\n' !in "TableWriteMerge";
    case Expand(_, _) => assert '\n' !in "Expand";
    case GroupId(_, _, _, _) => assert '\n' !in "GroupId";
  }

  lemma {:induction false} SecondNames(op: Op)
    requires InSecond(op)
    ensures '\n' !in NodeName(op)
  {
    match op
    case Exchange(_) => assert '\n' !in "Exchange";
    case MergeExchange(_, _, _) => assert '\n' !in "MergeExchange";
    case LocalMerge(_, _) => assert '\n' !in "LocalMerge";
    case LocalPartition(_, _) => assert '\n' !in "LocalPartition";
    case PartitionedOutput(_, _, _, _, _, _) => assert '\n' !in "PartitionedOutput";
  }

  lemma {:induction false} ThirdNames(op: Op)
    requires InThird(op)
    ensures '\n' !in NodeName(op)
  {
    match op
    case HashJoin(_, _, _, _, _, _) => assert '\n' !in "HashJoin";
    case MergeJoin(_, _, _, _, _) => assert '\n' !in "MergeJoin";
    case NestedLoopJoin(_, _, _) => assert '\n' !in "NestedLoopJoin";
    case OrderBy(_, _, _) => assert '\n' !in "OrderBy";
    case TopN(_, _, _, _) => assert '\n' !in "TopN";
    case Limit(_, _, _) => assert '\n' !in "Limit";
  }

  lemma {:induction false} OtherNames(op: Op)
    requires !InFirst(op) && !InSecond(op) && !InThird(op)
    ensures '\n' !in NodeName(op)
  {
    match op
    case Unnest(_, _, _, _) => assert '\n' !in "Unnest";
    case EnforceSingleRow => assert '\n' !in "EnforceSingleRow";
    case AssignUniqueId(_, _) => assert '\n' !in "AssignUniqueId";
    case Window(_, _, _, _, _, _) => assert '\n' !in "Window";
    case RowNumber(_, _, _) => assert '\n' !in "RowNumber";
    case TopNRowNumber(_, _, _, _, _) => assert '\n' !in "TopNRowNumber";
    case MarkDistinct(_, _) => assert '\n' !in "MarkDistinct";
  }

  /** What may follow a forest rendered at depth d: nothing, or a line that is less indented. */
  predicate Shallower(rest: string, d: nat) {
    rest == "" || exists k | 0 <= k < d && k < |rest| :: IsIndented(rest, k)
  }

  predicate IsIndented(s: string, k: nat)
    requires k < |s|
  {
    (forall i | 0 <= i < k :: s[i] == ' ') && s[k] == '-'
  }

  lemma {:induction false} SameFirstLine(m: string, n: string, d: nat, a: string, b: string)
    requires '\n' !in m && '\n' !in n && Line(m, d) + a == Line(n, d) + b
    ensures m == n && a == b
  {
    var s, start := Line(m, d) + a, d + 3;
    assert forall i | 0 <= i < |m| :: s[start + i] == m[i];
    assert forall i | 0 <= i < |n| :: s[start + i] == n[i];
    assert s[start + |m|] == '\n' && s[start + |n|] == '\n';
    assert |m| == |n|;
    assert m == s[start..start + |m|] == n;
    assert a == s[start + |m| + 1..] == b;
  }

  lemma {:induction false} ForestStarts(ts: seq<Tree>, d: nat, rest: string)
    requires ts != []
    ensures var s := RenderAll(ts, d) + rest; d < |s| && IsIndented(s, d)
  {
    var s, line := RenderAll(ts, d) + rest, Line(ts[0].name, d);
    assert RenderAll(ts, d) == line + RenderAll(ts[0].kids, d + 2) + RenderAll(ts[1..], d);
    assert line[..d] == Spaces(d) && line[d] == '-';
    assert forall i | 0 <= i < |line| :: s[i] == line[i];
  }

  lemma {:induction false} ForestIsNotShallower(ts: seq<Tree>, d: nat, rest: string)
    requires ts != []
    ensures !Shallower(RenderAll(ts, d) + rest, d)
  {
    ForestStarts(ts, d, rest);
  }

  /** Preorder lines with their indentation determine the forest and where it ends. */
  lemma {:induction false} ForestIsDetermined(ts: seq<Tree>, us: seq<Tree>, d: nat, a: string, b: string)
    requires (forall t <- ts :: OneLine(t)) && (forall u <- us :: OneLine(u))
    requires Shallower(a, d) && Shallower(b, d)
    requires RenderAll(ts, d) + a == RenderAll(us, d) + b
    ensures ts == us && a == b
    decreases |RenderAll(ts, d)| + |RenderAll(us, d)|
  {
    hide OneLine;
    if ts != [] && us != [] {
      BothStart(ts, us, d, a, b);
    } else {
      assert ts == [] ==> RenderAll(ts, d) + a == a;
      assert us == [] ==> RenderAll(us, d) + b == b;
      if ts != [] { ForestIsNotShallower(ts, d, a); }
      if us != [] { ForestIsNotShallower(us, d, b); }
    }
  }

  lemma {:induction false} BothStart(ts: seq<Tree>, us: seq<Tree>, d: nat, a: string, b: string)
    requires ts != [] && us != []
    requires (forall t <- ts :: OneLine(t)) && (forall u <- us :: OneLine(u))
    requires Shallower(a, d) && Shallower(b, d)
    requires RenderAll(ts, d) + a == RenderAll(us, d) + b
    ensures ts == us && a == b
    decreases |RenderAll(ts, d)| + |RenderAll(us, d)|, 0
  {
    hide Shallower, Line;
    var t, u := ts[0], us[0];
    assert OneLine(t) && OneLine(u);
    var a', b' := RenderAll(ts[1..], d) + a, RenderAll(us[1..], d) + b;
    FirstLine(ts, d, a);
    FirstLine(us, d, b);
    SameFirstLine(t.name, u.name, d, RenderAll(t.kids, d + 2) + a', RenderAll(u.kids, d + 2) + b');
    RestIsShallower(ts[1..], d, a);
    RestIsShallower(us[1..], d, b);
    ForestIsDetermined(t.kids, u.kids, d + 2, a', b');
    ForestIsDetermined(ts[1..], us[1..], d, a, b);
    assert ts == [t] + ts[1..] && us == [u] + us[1..];
  }

  lemma {:induction false} FirstLine(ts: seq<Tree>, d: nat, a: string)
    requires ts != []
    ensures RenderAll(ts, d) + a == Line(ts[0].name, d) + (RenderAll(ts[0].kids, d + 2) + (RenderAll(ts[1..], d) + a))
    ensures |RenderAll(ts[0].kids, d + 2)| < |RenderAll(ts, d)| && |RenderAll(ts[1..], d)| < |RenderAll(ts, d)|
  {
    assert RenderAll(ts, d) == Line(ts[0].name, d) + RenderAll(ts[0].kids, d + 2) + RenderAll(ts[1..], d);
  }

  lemma {:induction false} RestIsShallower(ts: seq<Tree>, d: nat, a: string)
    requires Shallower(a, d)
    ensures Shallower(RenderAll(ts, d) + a, d + 2)
  {
    if ts == [] {
      assert RenderAll(ts, d) + a == a;
    } else {
      ForestStarts(ts, d, a);
    }
  }

  /** Two plans with the same printed text have the same tree of node names. */
  lemma {:induction false} RenderingIsInjective(p: Plan, q: Plan)
    requires Render(Shape(p), 0) == Render(Shape(q), 0)
    ensures Shape(p) == Shape(q)
  {
    NamesAreOneLine(p);
    NamesAreOneLine(q);
    var ts, us := [Shape(p)], [Shape(q)];
    assert ts[1..] == [] && us[1..] == [];
    assert RenderAll(ts, 0) + "" == Render(Shape(p), 0) && RenderAll(us, 0) + "" == Render(Shape(q), 0);
    ForestIsDetermined(ts, us, 0, "", "");
    assert ts[0] == us[0];
  }
}
