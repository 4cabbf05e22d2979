/** The SQL expression tree: every node kind the visitor knows, the bind values
    a `Bind` node carries, and the statement-assembly records (join source,
    select core, select statement), which are nodes themselves.

    In the Rust library each kind is its own struct generated by a macro; here
    they are the constructors of one datatype. Binary kinds share the
    `Binary` constructor and unary kinds the `Unary` constructor, each tagged
    with its kind, so every kind of the visitor is exactly one constructor or
    one (constructor, kind) pair. */
module Nodes {
  import opened Wrappers

  /** Rust's `uint` and `int`, taken at 64 bits. */
  type Uint = u: int | 0 <= u < 0x1_0000_0000_0000_0000
  type Int = i: int | -0x8000_0000_0000_0000 <= i < 0x8000_0000_0000_0000

  /** The value of a `Bind` node. A float carries the text Rust's
      `to_string` gives for it; the float itself is not modelled. */
  datatype BindValue =
    | IntKind(i: Int)
    | UintKind(u: Uint)
    | BoolKind(b: bool)
    | F32Kind(f32: string)
    | F64Kind(f64: string)
    | StringKind(s: string)

  /** The kinds built by the `unary!` macro: one operand each. */
  datatype UnaryKind =
    | Bin | Group | Having | Limit | Not | Offset | On | Top | Lock | DistinctOn
    | Ascending | Descending

  /** The kinds built by the `binary!` macro that the visitor dispatches on:
      a left and a right operand each. */
  datatype BinaryKind =
    | As | Assignment | Between | DoesNotMatch | GreaterThan | GreaterThanOrEqual
    | Join | LessThan | LessThanOrEqual | Matches | NotEqual | NotIn | Or | Union
    | UnionAll | Intersect | Except | Delete | Equality | In | And
    | Multiplication | Division | Addition | Subtraction

  /** The function a `Function` node calls: a builtin aggregate or a named one. */
  datatype FunctionKind = Sum | Exists | Max | Min | Avg | Count | Named(name: string)

  datatype Node =
    | True
    | False
    | Null
    | QualifiedColumn(relation: string, name: string)
    | UnqualifiedColumn(name: string)
    | TableName(name: string)
      /** A table name with an alias; `table` is the aliased relation. */
    | TableAlias(table: Node, alias: string)
    | BindParam(param: string)
      /** Trusted SQL text, emitted verbatim. */
    | Literal(value: string)
    | Bind(bind: BindValue)
      /** `alias` is the text of the alias literal. */
    | Extract(operand: Node, field: string, alias: string)
    | FunctionNode(call: Function)
    | Unary(unary: UnaryKind, operand: Node)
    | Binary(binary: BinaryKind, left: Node, right: Node)
    | SelectCoreNode(core: SelectCore)
    | JoinSourceNode(source: JoinSource)
    | SelectStatementNode(statement: SelectStatement)

  /** A function call; `alias` is the name of the unqualified column it is
      aliased to, when there is one. */
  datatype Function = Function(kind: FunctionKind, expressions: seq<Node>,
                               alias: Option<string>, distinct: bool)

  /** A join as a join source holds it: the joined relation and, once
      attached, its ON node (an `On` unary wrapping the predicate). */
  datatype JoinClause = JoinClause(relation: Node, on: Option<Node>)

  /** The FROM target: an optional primary relation and the joins, in order. */
  datatype JoinSource = JoinSource(left: Option<Node>, right: seq<JoinClause>)

  /** One projection / FROM / WHERE unit. */
  datatype SelectCore = SelectCore(source: Option<JoinSource>, wheres: seq<Node>,
                                   projections: seq<Node>)

  /** A whole query: the primary core (`context`), the cores before it, and
      the statement-level modifiers; `limit` and `offset` hold the operand of
      the `Limit` and `Offset` nodes. */
  datatype SelectStatement = SelectStatement(context: SelectCore, cores: seq<SelectCore>,
                                             orders: Option<Node>, limit: Option<Node>,
                                             offset: Option<Node>)

  /** Marker `Orderable`: the kinds that may be ordered (and so take `asc`/`desc`). */
  predicate IsOrderable(n: Node) {
    || n.QualifiedColumn? || n.UnqualifiedColumn? || n.Bind?
    || (n.Binary? && n.binary in {Multiplication, Division, Addition, Subtraction})
  }

  /** Marker `InfixOperation`: the arithmetic binary kinds. */
  predicate IsInfixOperation(n: Node) {
    n.Binary? && n.binary in {Multiplication, Division, Addition, Subtraction}
  }

  /** Marker `Projection`: the kinds that may appear in a SELECT list. */
  predicate IsProjection(n: Node) {
    n.QualifiedColumn? || n.UnqualifiedColumn? || n.Literal? || n.Bind?
  }

  /** The `Ordering` trait is implemented by the two direction kinds. */
  predicate IsOrdering(n: Node) {
    n.Unary? && (n.unary == Ascending || n.unary == Descending)
  }
}
