/** What the renderer guarantees: the visitor writes exactly the rendered
    text, rendering fails exactly on the kinds it has no rule for, and the
    fields the visitor never reads do not affect the output. */
module ToSqlProperties {
  import opened Wrappers
  import opened Nodes
  import opened NodeOps
  import opened Collector
  import opened ToSql
  import SelectStatements

  /** The collector after appending `text`, or a failure when there is none. */
  function Appended(c: SqlCollector, text: Option<string>): Option<SqlCollector> {
    match text
    case None => None
    case Some(s) => Some(Push(c, s))
  }

  lemma PushPush(c: SqlCollector, x: string, y: string)
    ensures Push(Push(c, x), y) == Push(c, x + y)
  {
    assert (c.value + x) + y == c.value + (x + y);
  }

  lemma PushEmpty(c: SqlCollector)
    ensures Push(c, "") == c
  {
    assert c.value + "" == c.value;
  }

  lemma ColumnIsQuoted(c: SqlCollector, name: string)
    ensures Column(c, name) == Push(c, Quoted(name))
  {
    PushPush(c, "\"", name);
    PushPush(c, "\"" + name, "\"");
  }

  // ---------------------------------------------------------------------------
  // Visiting writes exactly the rendered text

  /** Visiting `n` appends `Render(n)` to whatever was collected before, and
      fails exactly when rendering fails. */
  lemma {:induction false} VisitIsRender(n: Node, c: SqlCollector)
    ensures Visit(n, c) == Appended(c, Render(n))
    decreases n, 1
  {
    match n
    case FunctionNode(f) => VisitFunctionIsRender(f, c);
    case Unary(k, x) =>
      if k == Limit {
        VisitIsRender(x, Push(c, "LIMIT "));
        if Render(x).Some? {
          PushPush(c, "LIMIT ", Render(x).value);
        }
      } else {
        VisitIsRender(x, c);
        if Render(x).Some? {
          PushPush(c, Render(x).value, if k == Ascending then " ASC" else " DESC");
        }
      }
    case Binary(k, l, r) => VisitBinaryIsRender(k, l, r, c);
    case SelectStatementNode(st) =>
      VisitCoresIsRender(st, 0, c);
      assert SelectStatements.Cores(st)[0..] == SelectStatements.Cores(st);
      StatementRendersCores(st);
    case SelectCoreNode(core) => VisitCoreIsRender(core, c);
    case JoinSourceNode(s) => VisitJoinSourceIsRender(s, c);
    case _ => VisitLeafIsRender(n, c);
  }

  /** The nodes without children. */
  lemma VisitLeafIsRender(n: Node, c: SqlCollector)
    requires !n.FunctionNode? && !n.Unary? && !n.Binary?
    requires !n.SelectStatementNode? && !n.SelectCoreNode? && !n.JoinSourceNode?
    ensures Visit(n, c) == Appended(c, Render(n))
  {
    match n
    case UnqualifiedColumn(name) => ColumnIsQuoted(c, name);
    case TableName(name) => ColumnIsQuoted(c, name);
    case QualifiedColumn(relation, name) =>
      ColumnIsQuoted(c, relation);
      ColumnIsQuoted(Push(Push(c, Quoted(relation)), "."), name);
      PushPush(c, Quoted(relation), ".");
      PushPush(c, Quoted(relation) + ".", Quoted(name));
    case _ =>
  }

  lemma {:induction false} VisitBinaryIsRender(k: BinaryKind, l: Node, r: Node, c: SqlCollector)
    ensures Visit(Binary(k, l, r), c) == Appended(c, Render(Binary(k, l, r)))
    decreases Binary(k, l, r), 0
  {
    VisitIsRender(l, c);
    if BinaryOperator(k).Some? && Render(l).Some? {
      var op, ls := BinaryOperator(k).value, Render(l).value;
      VisitIsRender(r, Push(Push(Push(Push(c, ls), " "), op), " "));
      VisitBinaryStep(k, l, r, c, op, ls);
    } else {
      VisitBinaryFails(k, l, r, c);
    }
  }

  /** The binary step once both operands are known to visit as they render. */
  lemma VisitBinaryStep(k: BinaryKind, l: Node, r: Node, c: SqlCollector, op: string, ls: string)
    requires BinaryOperator(k) == Some(op) && Render(l) == Some(ls)
    requires Visit(l, c) == Some(Push(c, ls))
    requires Visit(r, Push(Push(Push(Push(c, ls), " "), op), " "))
             == Appended(Push(Push(Push(Push(c, ls), " "), op), " "), Render(r))
    ensures Visit(Binary(k, l, r), c) == Appended(c, Render(Binary(k, l, r)))
  {
    var c2 := Push(Push(Push(Push(c, ls), " "), op), " ");
    assert Visit(Binary(k, l, r), c) == Visit(r, c2);
    assert c2 == Push(c, ls + " " + op + " ") by {
      PushPush(c, ls, " ");
      PushPush(c, ls + " ", op);
      PushPush(c, ls + " " + op, " ");
    }
    match Render(r) {
      case None =>
      case Some(rs) =>
        assert Render(Binary(k, l, r)) == Some(ls + " " + op + " " + rs);
        PushPush(c, ls + " " + op + " ", rs);
    }
  }

  lemma VisitBinaryFails(k: BinaryKind, l: Node, r: Node, c: SqlCollector)
    requires BinaryOperator(k).None? || Render(l).None?
    requires Visit(l, c) == Appended(c, Render(l))
    ensures Visit(Binary(k, l, r), c) == None && Render(Binary(k, l, r)) == None
  {
  }

  lemma {:induction false} VisitFunctionIsRender(f: Function, c: SqlCollector)
    ensures Visit(FunctionNode(f), c) == Appended(c, Render(FunctionNode(f)))
    decreases FunctionNode(f), 0
  {
    var name := FunctionName(f);
    var open := if name == "EXISTS" then " " else "";
    var distinct := if f.distinct then "DISTINCT " else "";
    var c1 := Push(c, name);
    var c2 := if name == "EXISTS" then Push(c1, " ") else c1;
    var c3 := Push(c2, "(");
    var c4 := if f.distinct then Push(c3, "DISTINCT ") else c3;
    FoldJoinIsRenderList(f.expressions, 0, c4, ", ");
    assert f.expressions[0..] == f.expressions;
    PushEmpty(c1);
    PushEmpty(c3);
    PushPush(c, name, open);
    PushPush(c, name + open, "(");
    PushPush(c, name + open + "(", distinct);
    match RenderList(f.expressions, ", ") {
      case None =>
      case Some(args) =>
        PushPush(c, name + open + "(" + distinct, args);
        PushPush(c, name + open + "(" + distinct + args, ")");
        var head := name + open + "(" + distinct + args + ")";
        match f.alias {
          case None =>
            PushEmpty(Push(c, head));
            assert head + "" == head;
          case Some(a) =>
            PushPush(c, head, " AS ");
            ColumnIsQuoted(Push(c, head + " AS "), a);
            PushPush(c, head + " AS ", Quoted(a));
            assert head + " AS " + Quoted(a) == head + (" AS " + Quoted(a));
        }
    }
  }

  /** The `fold_join` loop from index `i` writes the nodes from `i` on,
      separated as `RenderList` separates them. */
  lemma {:induction false} FoldJoinIsRenderList(ns: seq<Node>, i: nat, c: SqlCollector, sep: string)
    requires i <= |ns|
    ensures FoldJoin(ns, i, c, sep) == Appended(c, RenderList(ns[i..], sep))
    decreases ns, |ns| - i
  {
    if i < |ns| {
      VisitIsRender(ns[i], c);
      assert ns[i..][0] == ns[i];
      assert ns[i..][1..] == ns[i + 1..];
      match Render(ns[i])
      case None =>
      case Some(head) =>
        var c1 := Push(c, head);
        var c2 := if i != |ns| - 1 then Push(c1, sep) else c1;
        FoldJoinIsRenderList(ns, i + 1, c2, sep);
        match RenderAll(ns[i + 1..])
        case None =>
        case Some(tail) =>
          assert RenderAll(ns[i..]) == Some([head] + tail);
          if i == |ns| - 1 {
            assert JoinStrings([head] + tail, sep) == head;
          } else {
            assert ([head] + tail)[1..] == tail;
            assert JoinStrings([head] + tail, sep) == head + sep + JoinStrings(tail, sep);
            PushPush(c, head, sep);
            PushPush(c, head + sep, JoinStrings(tail, sep));
          }
    } else {
      assert ns[i..] == [];
      PushEmpty(c);
    }
  }

  lemma {:induction false} VisitCoreIsRender(core: SelectCore, c: SqlCollector)
    ensures VisitCore(core, c) == Appended(c, RenderCore(core))
    decreases core
  {
    var c1 := Push(c, "SELECT");
    if |core.projections| != 0 {
      FoldJoinIsRenderList(core.projections, 0, Push(c1, " "), ", ");
      assert core.projections[0..] == core.projections;
    }
    if |core.projections| == 0 {
      assert RenderAll(core.projections) == Some([]);
    }
    match RenderList(core.projections, ", ")
    case None =>
    case Some(projections) =>
      var select := "SELECT" + (if |core.projections| == 0 then "" else " " + projections);
      var c2 := Push(c, select);
      if |core.projections| != 0 {
        PushPush(c, "SELECT", " ");
        PushPush(c, "SELECT" + " ", projections);
        assert "SELECT" + " " + projections == select;
      } else {
        assert select == "SELECT";
      }
      assert VisitCore(core, c) == (match core.source
        case None => Some(c2)
        case Some(s) => VisitJoinSource(s, Push(c2, " FROM ")));
      match core.source
      case None =>
      case Some(s) =>
        VisitJoinSourceIsRender(s, Push(c2, " FROM "));
        PushPush(c, select, " FROM ");
        match RenderJoinSource(s)
        case None =>
        case Some(from) =>
          PushPush(c, select + " FROM ", from);
  }

  lemma {:induction false} VisitJoinSourceIsRender(s: JoinSource, c: SqlCollector)
    ensures VisitJoinSource(s, c) == Appended(c, RenderJoinSource(s))
    decreases s
  {
    match s.left
    case None => PushEmpty(c);
    case Some(l) => VisitIsRender(l, c);
  }

  lemma {:induction false} VisitCoresIsRender(st: SelectStatement, i: nat, c: SqlCollector)
    requires i <= |st.cores| + 1
    ensures VisitCores(st, i, c) == Appended(c, RenderCores(SelectStatements.Cores(st)[i..]))
    decreases st, |st.cores| + 1 - i
  {
    var cs := SelectStatements.Cores(st);
    if i < |cs| {
      var core := cs[i];
      assert core == st.context || core == st.cores[i];
      VisitCoreIsRender(core, c);
      assert cs[i..][0] == core;
      assert cs[i..][1..] == cs[i + 1..];
      match RenderCore(core)
      case None =>
      case Some(head) =>
        VisitCoresIsRender(st, i + 1, Push(c, head));
        match RenderCores(cs[i + 1..])
        case None =>
        case Some(tail) => PushPush(c, head, tail);
    } else {
      assert cs[i..] == [];
      PushEmpty(c);
    }
  }

  /** Two option texts one after the other; failure if either fails. */
  function Then(a: Option<string>, b: Option<string>): Option<string> {
    match (a, b)
    case (Some(x), Some(y)) => Some(x + y)
    case _ => None
  }

  /** Rendering a concatenation of core lists concatenates their texts. */
  lemma {:induction false} RenderCoresConcat(a: seq<SelectCore>, b: seq<SelectCore>)
    ensures RenderCores(a + b) == Then(RenderCores(a), RenderCores(b))
    decreases |a|
  {
    if |a| == 0 {
      assert a + b == b;
      match RenderCores(b)
      case None =>
      case Some(y) => assert "" + y == y;
    } else {
      assert (a + b)[0] == a[0];
      assert (a + b)[1..] == a[1..] + b;
      RenderCoresConcat(a[1..], b);
      match RenderCore(a[0])
      case None =>
      case Some(h) =>
        match RenderCores(a[1..])
        case None =>
        case Some(t) =>
          match RenderCores(b)
          case None =>
          case Some(y) => assert h + (t + y) == (h + t) + y;
    }
  }

  /** A statement renders as the texts of its `cores()`, in order, unseparated. */
  lemma StatementRendersCores(st: SelectStatement)
    ensures RenderStatement(st) == RenderCores(SelectStatements.Cores(st))
  {
    RenderCoresConcat(st.cores, [st.context]);
    assert [st.context][1..] == [];
    match RenderCore(st.context)
    case None =>
    case Some(x) => assert x + "" == x;
  }

  /** `to_sql` of the tests: visit into a fresh collector, read its value. */
  function ToSqlText(n: Node): (r: Option<string>)
    ensures r == Render(n)
  {
    VisitIsRender(n, New());
    assert Render(n).Some? ==> Push(New(), Render(n).value).value == "" + Render(n).value;
    assert Render(n).Some? ==> "" + Render(n).value == Render(n).value;
    match Visit(n, New())
    case None => None
    case Some(c) => Some(c.value)
  }

  // ---------------------------------------------------------------------------
  // Which trees render

  /** The node's own kind has a `ToSqlVisitor` override. */
  predicate HasRenderRule(n: Node) {
    || n.FunctionNode? || n.Bind? || n.Literal? || n.UnqualifiedColumn? || n.QualifiedColumn?
    || n.TableName? || n.SelectStatementNode? || n.SelectCoreNode? || n.JoinSourceNode?
    || (n.Unary? && (n.unary == Limit || n.unary == Ascending || n.unary == Descending))
    || (n.Binary? && (n.binary == Equality || n.binary == Assignment || n.binary == And
                      || n.binary == Or || n.binary == Matches || n.binary == DoesNotMatch))
  }

  /** Every node the visitor reaches from `n` has a render rule. */
  predicate Renderable(n: Node) {
    HasRenderRule(n) &&
    match n
    case FunctionNode(f) => forall i :: 0 <= i < |f.expressions| ==> Renderable(f.expressions[i])
    case Unary(_, x) => Renderable(x)
    case Binary(_, l, r) => Renderable(l) && Renderable(r)
    case SelectStatementNode(st) =>
      (forall i :: 0 <= i < |st.cores| ==> CoreRenderable(st.cores[i])) && CoreRenderable(st.context)
    case SelectCoreNode(c) => CoreRenderable(c)
    case JoinSourceNode(s) => JoinSourceRenderable(s)
    case _ => true
  }

  /** The projections and the primary relation render; wheres and joins are never visited. */
  predicate CoreRenderable(c: SelectCore) {
    && (forall i :: 0 <= i < |c.projections| ==> Renderable(c.projections[i]))
    && (c.source.Some? ==> JoinSourceRenderable(c.source.value))
  }

  predicate JoinSourceRenderable(s: JoinSource) {
    s.left.Some? ==> Renderable(s.left.value)
  }

  /** Rendering succeeds exactly on the trees whose visited nodes all have a rule. */
  lemma {:induction false} RenderSucceedsIffRenderable(n: Node)
    ensures Render(n).Some? <==> Renderable(n)
    decreases n, 1
  {
    match n
    case FunctionNode(f) =>
      RenderAllSucceedsIff(f.expressions);
      assert Render(n).Some? <==> RenderList(f.expressions, ", ").Some?;
    case Unary(k, x) => RenderUnarySucceedsIff(k, x);
    case Binary(k, l, r) => RenderBinarySucceedsIff(k, l, r);
    case SelectStatementNode(st) =>
      RenderCoresSucceedsIff(st.cores);
      RenderCoreSucceedsIff(st.context);
    case SelectCoreNode(c) => RenderCoreSucceedsIff(c);
    case JoinSourceNode(s) => RenderJoinSourceSucceedsIff(s);
    case _ =>
  }

  lemma {:induction false} RenderUnarySucceedsIff(k: UnaryKind, x: Node)
    ensures Render(Unary(k, x)).Some? <==> Renderable(Unary(k, x))
    decreases Unary(k, x), 0
  {
    RenderSucceedsIffRenderable(x);
    UnaryIff(k, x);
  }

  lemma UnaryIff(k: UnaryKind, x: Node)
    requires Render(x).Some? <==> Renderable(x)
    ensures Render(Unary(k, x)).Some? <==> Renderable(Unary(k, x))
  {
    if k == Limit || k == Ascending || k == Descending {
      UnaryStep(k, x);
    } else {
      UnaryNoRule(k, x);
    }
  }

  lemma UnaryStep(k: UnaryKind, x: Node)
    requires k == Limit || k == Ascending || k == Descending
    ensures Render(Unary(k, x)).Some? == Render(x).Some?
    ensures Renderable(Unary(k, x)) == Renderable(x)
  {
  }

  lemma UnaryNoRule(k: UnaryKind, x: Node)
    requires k != Limit && k != Ascending && k != Descending
    ensures Render(Unary(k, x)) == None && !Renderable(Unary(k, x))
  {
  }

  lemma {:induction false} RenderBinarySucceedsIff(k: BinaryKind, l: Node, r: Node)
    ensures Render(Binary(k, l, r)).Some? <==> Renderable(Binary(k, l, r))
    decreases Binary(k, l, r), 0
  {
    RenderSucceedsIffRenderable(l);
    RenderSucceedsIffRenderable(r);
    BinaryIff(k, l, r);
  }

  /** One step of the induction: a binary node renders exactly when its
      operands do, provided its kind has an operator. */
  lemma BinaryIff(k: BinaryKind, l: Node, r: Node)
    requires Render(l).Some? <==> Renderable(l)
    requires Render(r).Some? <==> Renderable(r)
    ensures Render(Binary(k, l, r)).Some? <==> Renderable(Binary(k, l, r))
  {
    if BinaryOperator(k).Some? {
      BinaryStep(k, l, r);
    } else {
      BinaryNoRule(k, l, r);
    }
  }

  lemma BinaryStep(k: BinaryKind, l: Node, r: Node)
    requires BinaryOperator(k).Some?
    ensures Render(Binary(k, l, r)).Some? == (Render(l).Some? && Render(r).Some?)
    ensures Renderable(Binary(k, l, r)) == (Renderable(l) && Renderable(r))
  {
    OperatorIffRule(k, l, r);
  }

  lemma BinaryNoRule(k: BinaryKind, l: Node, r: Node)
    requires BinaryOperator(k).None?
    ensures Render(Binary(k, l, r)) == None && !Renderable(Binary(k, l, r))
  {
    UnsupportedBinary(k, l, r);
    OperatorIffRule(k, l, r);
  }

  lemma OperatorIffRule(k: BinaryKind, l: Node, r: Node)
    ensures BinaryOperator(k).Some? <==> HasRenderRule(Binary(k, l, r))
  {
  }

  /** A list renders to `ts` exactly when `ts` holds, position by position,
      the text of each node: one text per node, in order. */
  lemma {:induction false} RenderAllInOrder(ns: seq<Node>, ts: seq<string>)
    ensures RenderAll(ns) == Some(ts) <==>
            |ts| == |ns| && forall i :: 0 <= i < |ns| ==> Render(ns[i]) == Some(ts[i])
    decreases |ns|
  {
    if |ns| > 0 && |ts| == |ns| {
      RenderAllInOrder(ns[1..], ts[1..]);
      RenderAllInOrderStep(ns, ts);
    }
  }

  /** The step of `RenderAllInOrder`, given its statement for the tails. */
  lemma RenderAllInOrderStep(ns: seq<Node>, ts: seq<string>)
    requires |ns| > 0 && |ts| == |ns|
    requires RenderAll(ns[1..]) == Some(ts[1..]) <==>
             forall i :: 0 <= i < |ns| - 1 ==> Render(ns[1..][i]) == Some(ts[1..][i])
    ensures RenderAll(ns) == Some(ts) <==> forall i :: 0 <= i < |ns| ==> Render(ns[i]) == Some(ts[i])
  {
    assert ts == [ts[0]] + ts[1..];
    assert forall i :: 1 <= i < |ns| ==> ns[i] == ns[1..][i - 1] && ts[i] == ts[1..][i - 1];
  }

  lemma {:induction false} RenderAllSucceedsIff(ns: seq<Node>)
    ensures RenderAll(ns).Some? <==> forall i :: 0 <= i < |ns| ==> Renderable(ns[i])
    decreases ns, 0
  {
    if |ns| > 0 {
      RenderSucceedsIffRenderable(ns[0]);
      RenderAllSucceedsIff(ns[1..]);
      assert forall i :: 1 <= i < |ns| ==> ns[i] == ns[1..][i - 1];
    }
  }

  lemma {:induction false} RenderCoreSucceedsIff(c: SelectCore)
    ensures RenderCore(c).Some? <==> CoreRenderable(c)
    decreases c
  {
    RenderAllSucceedsIff(c.projections);
    if c.source.Some? {
      RenderJoinSourceSucceedsIff(c.source.value);
    }
  }

  lemma {:induction false} RenderJoinSourceSucceedsIff(s: JoinSource)
    ensures RenderJoinSource(s).Some? <==> JoinSourceRenderable(s)
    decreases s
  {
    if s.left.Some? {
      RenderSucceedsIffRenderable(s.left.value);
    }
  }

  lemma {:induction false} RenderCoresSucceedsIff(cs: seq<SelectCore>)
    ensures RenderCores(cs).Some? <==> forall i :: 0 <= i < |cs| ==> CoreRenderable(cs[i])
    decreases cs
  {
    if |cs| > 0 {
      RenderCoreSucceedsIff(cs[0]);
      RenderCoresSucceedsIff(cs[1..]);
      assert forall i :: 1 <= i < |cs| ==> cs[i] == cs[1..][i - 1];
    }
  }

  /** A kind without an override fails, whatever its children, and so does visiting it. */
  lemma UnsupportedKindFails(n: Node, c: SqlCollector)
    requires !HasRenderRule(n)
    ensures Render(n) == None && Visit(n, c) == None
  {
  }

  /** Among them: comparisons other than equality, joins, the statement
      modifiers, aliases and the constants. */
  lemma UnsupportedExamples(l: Node, r: Node, x: Node, alias: string)
    ensures Render(Binary(GreaterThan, l, r)) == None
    ensures Render(Binary(NotEqual, l, r)) == None
    ensures Render(Binary(Join, l, r)) == None
    ensures Render(Unary(Offset, x)) == None
    ensures Render(Unary(Lock, x)) == None
    ensures Render(TableAlias(x, alias)) == None
    ensures Render(True) == None && Render(False) == None && Render(Null) == None
  {
    UnsupportedBinary(GreaterThan, l, r);
    UnsupportedBinary(NotEqual, l, r);
    UnsupportedBinary(Join, l, r);
  }

  /** The rendering half of `BinaryNoRule`: a kind without an operator fails. */
  lemma UnsupportedBinary(k: BinaryKind, l: Node, r: Node)
    requires BinaryOperator(k) == None
    ensures Render(Binary(k, l, r)) == None
  {
  }

  // ---------------------------------------------------------------------------
  // What never reaches the output

  /** The WHERE list of a core, the joins of a join source, and the ORDER BY,
      LIMIT and OFFSET of a statement are never rendered. */
  lemma RenderIgnoresUnvisitedFields(c: SelectCore, wheres: seq<Node>, s: JoinSource,
                                     joins: seq<JoinClause>, st: SelectStatement,
                                     orders: Option<Node>, limit: Option<Node>, offset: Option<Node>)
    ensures RenderCore(c.(wheres := wheres)) == RenderCore(c)
    ensures RenderJoinSource(s.(right := joins)) == RenderJoinSource(s)
    ensures RenderStatement(st.(orders := orders, limit := limit, offset := offset)) == RenderStatement(st)
  {
  }

  /** A core whose source has joins renders as if it had none. */
  lemma RenderCoreIgnoresJoins(c: SelectCore, joins: seq<JoinClause>)
    requires c.source.Some?
    ensures RenderCore(c.(source := Some(c.source.value.(right := joins)))) == RenderCore(c)
  {
  }

  // ---------------------------------------------------------------------------
  // The separator rule

  function TotalLength(xs: seq<string>): nat {
    if |xs| == 0 then 0 else |xs[0]| + TotalLength(xs[1..])
  }

  /** Joining adds exactly one separator between each pair of neighbours:
      the text is the items' length plus `|xs| - 1` separators. */
  lemma {:induction false} JoinStringsLength(xs: seq<string>, sep: string)
    requires |xs| > 0
    ensures |JoinStrings(xs, sep)| == TotalLength(xs) + (|xs| - 1) * |sep|
    decreases |xs|
  {
    if |xs| > 1 {
      JoinStringsLength(xs[1..], sep);
      assert (|xs| - 1) * |sep| == (|xs| - 2) * |sep| + |sep|;
    }
  }

  /** Appending an item to a nonempty list appends one separator and the
      item: earlier items keep their order and nothing trails. */
  lemma {:induction false} JoinStringsSnoc(xs: seq<string>, x: string, sep: string)
    requires |xs| > 0
    ensures JoinStrings(xs + [x], sep) == JoinStrings(xs, sep) + sep + x
    decreases |xs|
  {
    assert (xs + [x])[0] == xs[0];
    if |xs| > 1 {
      assert (xs + [x])[1..] == xs[1..] + [x];
      JoinStringsSnoc(xs[1..], x, sep);
    }
  }

  lemma JoinStringsSmall(x: string, sep: string)
    ensures JoinStrings([], sep) == "" && JoinStrings([x], sep) == x
  {
  }

  // ---------------------------------------------------------------------------
  // The rules of the individual kinds

  /** Literals are verbatim; identifiers are double-quoted with no escaping. */
  lemma RenderLeaves(text: string, relation: string, name: string, v: BindValue)
    ensures Render(Literal(text)) == Some(text)
    ensures Render(UnqualifiedColumn(name)) == Some("\"" + name + "\"")
    ensures Render(TableName(name)) == Some("\"" + name + "\"")
    ensures Render(QualifiedColumn(relation, name)) == Some("\"" + relation + "\".\"" + name + "\"")
    ensures Render(Bind(v)) == Some(BindText(v))
  {
    assert Render(Literal(text)) == Some(text);
    assert Render(UnqualifiedColumn(name)) == Some(Quoted(name));
    assert Render(TableName(name)) == Some(Quoted(name));
    assert Quoted(relation) + "." + Quoted(name) == "\"" + relation + "\".\"" + name + "\"";
    assert Render(Bind(v)) == Some(BindText(v));
  }

  /** A binary kind with an operator: left, space, operator, space, right. */
  lemma RenderBinaryRule(k: BinaryKind, l: Node, r: Node, ls: string, op: string, rs: string)
    requires Render(l) == Some(ls) && Render(r) == Some(rs) && BinaryOperator(k) == Some(op)
    ensures Render(Binary(k, l, r)) == Some(ls + (" " + op + " ") + rs)
  {
    assert ls + " " + op + " " + rs == ls + (" " + op + " ") + rs;
  }

  /** The infix kinds: left, space, operator, space, right. */
  lemma RenderInfix(k: BinaryKind, l: Node, r: Node, ls: string, rs: string)
    requires Render(l) == Some(ls) && Render(r) == Some(rs)
    ensures k == Equality || k == Assignment ==> Render(Binary(k, l, r)) == Some(ls + " = " + rs)
    ensures k == And ==> Render(Binary(k, l, r)) == Some(ls + " AND " + rs)
    ensures k == Or ==> Render(Binary(k, l, r)) == Some(ls + " OR " + rs)
    ensures k == Matches ==> Render(Binary(k, l, r)) == Some(ls + " LIKE " + rs)
    ensures k == DoesNotMatch ==> Render(Binary(k, l, r)) == Some(ls + " NOT LIKE " + rs)
  {
    match BinaryOperator(k) {
      case None =>
      case Some(op) =>
        RenderBinaryRule(k, l, r, ls, op, rs);
        SpacedOperators();
    }
  }

  lemma SpacedOperators()
    ensures " " + "=" + " " == " = " && " " + "AND" + " " == " AND " && " " + "OR" + " " == " OR "
    ensures " " + "LIKE" + " " == " LIKE " && " " + "NOT LIKE" + " " == " NOT LIKE "
  {
  }

  /** The direction kinds are postfix, `Limit` is prefix. */
  lemma RenderUnaryRules(x: Node, xs: string)
    requires Render(x) == Some(xs)
    ensures Render(Unary(Ascending, x)) == Some(xs + " ASC")
    ensures Render(Unary(Descending, x)) == Some(xs + " DESC")
    ensures Render(Unary(Limit, x)) == Some("LIMIT " + xs)
  {
    assert RenderUnary(Ascending, x) == Some(xs + " ASC");
    assert RenderUnary(Descending, x) == Some(xs + " DESC");
    assert RenderUnary(Limit, x) == Some("LIMIT " + xs);
  }

  /** A function call: its name, a space only after "EXISTS", the
      parenthesised arguments joined by ", " (after "DISTINCT " when
      flagged), then " AS " and the quoted alias when there is one. */
  lemma RenderFunctionRule(f: Function, args: seq<string>)
    requires RenderAll(f.expressions) == Some(args)
    ensures Render(FunctionNode(f)) == Some(
      FunctionName(f) + (if FunctionName(f) == "EXISTS" then " (" else "(")
      + (if f.distinct then "DISTINCT " else "") + JoinStrings(args, ", ") + ")"
      + (if f.alias.Some? then " AS \"" + f.alias.value + "\"" else ""))
  {
    var name := FunctionName(f);
    var open := if name == "EXISTS" then " " else "";
    var distinct := if f.distinct then "DISTINCT " else "";
    var alias := if f.alias.Some? then " AS " + Quoted(f.alias.value) else "";
    assert RenderList(f.expressions, ", ") == Some(JoinStrings(args, ", "));
    assert name + open + "(" == name + (if name == "EXISTS" then " (" else "(");
    if f.alias.Some? {
      assert " AS " + Quoted(f.alias.value) == " AS \"" + f.alias.value + "\"";
    }
  }

  /** A core: "SELECT", the projections after a space when there are any,
      then " FROM " and the primary relation when the source is present. */
  lemma RenderCoreRule(c: SelectCore, projections: seq<string>, from: string)
    requires RenderAll(c.projections) == Some(projections)
    requires c.source.Some? ==> RenderJoinSource(c.source.value) == Some(from)
    ensures RenderCore(c) == Some(
      "SELECT" + (if |projections| == 0 then "" else " " + JoinStrings(projections, ", "))
      + (if c.source.Some? then " FROM " + from else ""))
  {
    var select := "SELECT" + (if |projections| == 0 then "" else " " + JoinStrings(projections, ", "));
    if c.source.Some? {
      assert select + " FROM " + from == select + (" FROM " + from);
    } else {
      assert select + "" == select;
    }
  }
}
