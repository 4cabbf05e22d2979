/** The builder layer: a table handle and the select builder it starts.
    (The two Rust files refer to each other, so they share a module.) */
module Dsl {
  import opened Wrappers
  import opened Nodes
  import opened SqlLiteral
  import opened NodeOps
  import SelectCores
  import SelectStatements

  datatype Table = Table(name: string)

  /** A select statement under construction. */
  datatype SelectBuilder = SelectBuilder(ast: SelectStatement)

  /** `Table::new`. */
  function NewTable(name: string): (t: Table)
    ensures GetName(t) == name
  {
    Table(name)
  }

  /** `get_name`. */
  function GetName(t: Table): string {
    t.name
  }

  /** `at` (and indexing): the column `col` qualified by the table's name. */
  function At(t: Table, col: string): (n: Node)
    ensures n.QualifiedColumn? && n.relation == GetName(t) && n.name == col
  {
    QualifiedColumn(t.name, col)
  }

  /** `alias_as`: the table's name under the alias `aliasName`. */
  function AliasAs(t: Table, aliasName: string): (n: Node)
    ensures n.TableAlias? && n.table == TableName(GetName(t)) && n.alias == aliasName
  {
    TableAlias(TableName(t.name), aliasName)
  }

  /** `alias`: the alias is the table's name followed by "_2". */
  function Alias(t: Table): (n: Node)
    ensures n.TableAlias? && n.table == TableName(GetName(t)) && n.alias == GetName(t) + "_2"
    ensures n == AliasAs(t, GetName(t) + "_2")
  {
    AliasAs(t, t.name + "_2")
  }

  /** `SelectBuilder::new`: a fresh statement whose context selects from the table. */
  function NewBuilder(t: Table): (b: SelectBuilder)
    ensures b.ast.cores == [] && b.ast.orders == None && b.ast.limit == None && b.ast.offset == None
    ensures b.ast.context.wheres == [] && b.ast.context.projections == []
    ensures b.ast.context.source == Some(JoinSource(Some(TableName(GetName(t))), []))
  {
    From(SelectBuilder(SelectStatements.Build()), t.name)
  }

  /** `statement`: the statement held, as it is. */
  function Statement(b: SelectBuilder): (st: SelectStatement)
    ensures st == b.ast
  {
    b.ast
  }

  /** `project`: replaces the context's projections and nothing else; like
      `set_projections` it takes projection-eligible nodes only. */
  function Project(b: SelectBuilder, projections: seq<Node>): (r: SelectBuilder)
    requires forall i :: 0 <= i < |projections| ==> IsProjection(projections[i])
    ensures r.ast.context.projections == projections
    ensures r.ast.context.wheres == b.ast.context.wheres && r.ast.context.source == b.ast.context.source
    ensures r.ast.cores == b.ast.cores && r.ast.orders == b.ast.orders
    ensures r.ast.limit == b.ast.limit && r.ast.offset == b.ast.offset
  {
    SelectBuilder(SelectStatements.WithContext(b.ast, SelectCores.SetProjections(b.ast.context, projections)))
  }

  /** `from`: the context's primary relation becomes the named table; its
      joins, and everything outside the context, are kept. */
  function From(b: SelectBuilder, table: string): (r: SelectBuilder)
    ensures b.ast.context.source == None ==> r == b
    ensures b.ast.context.source.Some? ==>
      r.ast.context.source == Some(b.ast.context.source.value.(left := Some(TableName(table))))
    ensures r.ast.context.wheres == b.ast.context.wheres
    ensures r.ast.context.projections == b.ast.context.projections
    ensures r.ast.cores == b.ast.cores && r.ast.orders == b.ast.orders
    ensures r.ast.limit == b.ast.limit && r.ast.offset == b.ast.offset
  {
    var context := SelectCores.SetLeft(b.ast.context, NodeOperand(TableName(table)));
    SelectBuilder(SelectStatements.WithContext(b.ast, context))
  }

  /** `exists`: the builtin EXISTS over the whole statement, plain. */
  function Exists(b: SelectBuilder): (n: Node)
    ensures n.FunctionNode? && n.call.kind == Nodes.Exists
    ensures n.call.expressions == [SelectStatementNode(b.ast)]
    ensures !n.call.distinct && n.call.alias == None
  {
    FunctionNode(BuiltinFunction(Nodes.Exists, [SelectStatementNode(b.ast)]))
  }

  /** `select`: a builder selecting from this table. */
  function Select(t: Table): (b: SelectBuilder)
    ensures b.ast.context.source == Some(JoinSource(Some(TableName(GetName(t))), []))
    ensures b.ast.context.wheres == [] && b.ast.context.projections == [] && b.ast.cores == []
    ensures b.ast.orders == None && b.ast.limit == None && b.ast.offset == None
  {
    NewBuilder(t)
  }

  /** `project` on a table: a builder from the table whose projections are
      the given ones, in order. */
  function ProjectTable(t: Table, p: ProjectionArg): (b: SelectBuilder)
    requires ProjectionArgEligible(p)
    ensures b.ast.context.projections == ToProjections(p)
    ensures b.ast.context.source == Some(JoinSource(Some(TableName(GetName(t))), []))
    ensures b.ast.context.wheres == [] && b.ast.cores == []
    ensures b.ast.orders == None && b.ast.limit == None && b.ast.offset == None
  {
    Project(Select(t), ToProjections(p))
  }

  /** The last `from` wins. */
  lemma FromLastWins(b: SelectBuilder, first: string, second: string)
    ensures From(From(b, first), second) == From(b, second)
  {
  }

  /** `from` and `project` touch different fields, so their order does not matter. */
  lemma FromProjectCommute(b: SelectBuilder, table: string, projections: seq<Node>)
    requires forall i :: 0 <= i < |projections| ==> IsProjection(projections[i])
    ensures From(Project(b, projections), table) == Project(From(b, table), projections)
  {
  }
}
