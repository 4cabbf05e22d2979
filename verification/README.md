# rust-arel in Dafny

A model of the core of `rust-arel`, a library that builds SQL syntax trees
and renders them as SQL text. The model covers:

- the node kinds the visitor dispatches on;
- the records that assemble a query (join source, select core, select statement);
- the helpers that build comparison, ordering and conjunction nodes;
- the small table / select-builder layer;
- the `ToSqlVisitor` renderer and the `SqlCollector` it writes into, bind encoding included.

Each Rust `&mut self` mutator becomes a pure function from the old value to
the new one. Rendering is modelled twice:

- `ToSql.Visit` threads a collector through the visitor's pushes, in the
  visitor's order. It fails (`None`) wherever the visitor reaches a kind it
  does not override, because the default visitor method fails.
- `ToSql.Render` says compositionally what text each node stands for.

`ToSqlProperties.VisitIsRender` proves the two agree on every tree. Every
other property of the output is then stated about `Render`. The expected
strings of the library's own renderer tests are proved as lemmas in
`ToSqlTests`.

The model follows the code in three places where SQL intuition expects
more:

- A select core renders only `SELECT`, its projections and its primary
  relation. The WHERE list is never written.
- A join source renders only its primary relation. Its joins are never written.
- A statement renders only its cores. ORDER BY, LIMIT and OFFSET are never
  written.

Neither identifiers nor string values are escaped.

Modules and files:

| file | module | source |
|---|---|---|
| wrappers.dfy | `Wrappers` | Rust's `Option` |
| nodes.dfy | `Nodes` | the node kinds and the marker traits |
| sql_literal.dfy | `SqlLiteral` | src/arel/nodes/sql_literal.rs |
| node_ops.dfy | `NodeOps` | src/arel/nodes/mod.rs |
| select_core.dfy | `SelectCores` | src/arel/nodes/select_core.rs |
| select_statement.dfy | `SelectStatements` | src/arel/nodes/select_statement.rs |
| decimal.dfy | `Decimal` | integer `to_string` |
| collector.dfy | `Collector` | src/arel/collector.rs |
| predications.dfy | `Predications` | src/arel/predications.rs |
| conjunctions.dfy | `Conjunctions` | src/arel/conjunctions.rs |
| dsl.dfy | `Dsl` | src/arel/dsl/table.rs and src/arel/dsl/select.rs |
| to_sql.dfy | `ToSql` | src/arel/to_sql.rs, the renderer |
| to_sql_properties.dfy | `ToSqlProperties` | what the renderer guarantees |
| dsl_rendering.dfy | `DslRendering` | what the builder's statements render to |
| to_sql_tests.dfy | `ToSqlTests` | src/arel/to_sql.rs, the test module |

## Model

| member | source | states |
|---|---|---|
| Nodes.IsOrderable | src/arel/nodes/mod.rs:115-123 | the orderable kinds are the two column kinds, `Bind` (src/arel/nodes/sql_literal.rs:28) and the four arithmetic kinds (line 236); it is the precondition of `Predications.Asc` and `Predications.Desc` |
| Nodes.IsProjection | src/arel/nodes/mod.rs:116-123 | the projection-eligible kinds are the two column kinds, `Literal` and `Bind`; `SqlLiteral.LiteralAndBindMarkers` and `NodeOps.ToProjections` state it of their nodes |
| Nodes.IsInfixOperation | src/arel/nodes/mod.rs:236-237 | the infix operations are the four arithmetic binary kinds |
| Nodes.IsOrdering | src/arel/nodes/mod.rs:177-191 | the `Ordering` nodes are the two direction kinds; it is the precondition of `direction` and `reverse` |
| SqlLiteral.NewLiteral | src/arel/nodes/sql_literal.rs:7-11 | `Literal::new` stores its text verbatim as a `Literal` node |
| SqlLiteral.ToBind | src/arel/nodes/sql_literal.rs:51-57 | each primitive becomes a `Bind` of the matching kind (uint, int, bool, f32, f64; both string types to `StringKind`), carrying the identical payload |
| SqlLiteral.BindFrom | src/arel/nodes/sql_literal.rs:59-63 | `Bind::from(v)` is `v.to_bind()` |
| SqlLiteral.ToNode | src/arel/nodes/sql_literal.rs:43-47 | a node converts to itself; a primitive converts to its `to_bind` node |
| SqlLiteral.ToBindInjective | src/arel/nodes/sql_literal.rs:51-57 | two primitives give the same bind exactly when they are the same value, up to owned versus borrowed string |
| SqlLiteral.PrimitiveToNodeIsBind | src/arel/nodes/sql_literal.rs:43-47 | a primitive used as a node is `Bind::from` it, which is orderable and projection-eligible |
| SqlLiteral.LiteralAndBindMarkers | src/arel/nodes/sql_literal.rs:13-29 | `Literal` is projection-eligible and not orderable; `Bind` is both |
| NodeOps.BuildBinary | src/arel/nodes/mod.rs:210-216 | `build` makes a node of the given binary kind with both operands passed through `to_node`, in place |
| NodeOps.BinaryRoundTrip | src/arel/nodes/mod.rs:210-227 | `left()` and `right()` return exactly what `build` was given, unswapped; every binary node is the `build` of its own operands |
| NodeOps.BuildUnary | src/arel/macros.rs:134-139 | `build` makes a node of the given unary kind over the converted operand |
| NodeOps.UnaryRoundTrip | src/arel/nodes/mod.rs:163-169 | for every unary kind, `operand()` returns what `build` was given, and every unary node is the `build` of its operand |
| NodeOps.DirectionOf | src/arel/nodes/mod.rs:177-191 | `direction()` is `Asc` exactly for `Ascending` |
| NodeOps.Reverse | src/arel/nodes/mod.rs:177-191 | `reverse` gives the other direction kind over the same operand |
| NodeOps.ReverseInvolutive | src/arel/nodes/mod.rs:177-191 | reversing twice restores the original kind and operand |
| NodeOps.DirectionTests | src/arel/nodes/mod.rs:148-160 | `is_ascending` and `is_descending` are exact complements, agree with `direction()`, and swap under `reverse` |
| NodeOps.IsAscending | src/arel/nodes/mod.rs:148-153 | true exactly when the direction is `Asc`; `NodeOps.DirectionTests` states it is the kind `Ascending` and the complement of `is_descending` |
| NodeOps.IsDescending | src/arel/nodes/mod.rs:155-160 | true exactly when the direction is `Desc`; `NodeOps.DirectionTests` states it agrees with `direction()` and swaps under `reverse` |
| NodeOps.NamedFunction | src/arel/nodes/mod.rs:261-268 | `Function::named` stores the name and the expressions as given, not distinct and with no alias |
| NodeOps.BuiltinFunction | src/arel/nodes/mod.rs:270-277 | `Function::builtin` stores the kind and the expressions as given, not distinct and with no alias |
| NodeOps.FunctionName | src/arel/nodes/mod.rs:279-289 | the six builtins are named SUM, EXISTS, MAX, MIN, AVG and COUNT; a named function is named by its string |
| NodeOps.FunctionNameExists | src/arel/nodes/mod.rs:279-289 | the name is "EXISTS" exactly for the builtin `Exists` and for a named "EXISTS"; distinct builtins have distinct names |
| NodeOps.Distinct | src/arel/nodes/mod.rs:296-299 | `distinct()` sets the flag and leaves kind, expressions and alias unchanged |
| NodeOps.AliasFunction | src/arel/nodes/mod.rs:291-294 | `as_(a)` sets the alias to the column `a` and leaves the other fields unchanged |
| NodeOps.FunctionModifiers | src/arel/nodes/mod.rs:291-299 | `distinct()` is idempotent, the last `as_` wins, and the two commute |
| NodeOps.ToProjections | src/arel/nodes/mod.rs:82-106 | vectors, one-element arrays, pairs and triples give their elements in order, none added or dropped, all projection-eligible; `DslRendering.ProjectTableText` states they are the SELECT list of the projecting table, in order |
| SelectCores.BuildJoinSource | src/arel/nodes/select_core.rs:83-85 | a new join source has no primary relation and no joins |
| SelectCores.Build | src/arel/nodes/select_core.rs:10-16 | a new core has a present, empty source and no wheres or projections |
| SelectCores.AddWhere | src/arel/nodes/select_core.rs:18-20 | the predicate is appended at the end; earlier wheres, the projections and the source are unchanged |
| SelectCores.SetProjections | src/arel/nodes/select_core.rs:34-36 | the projection list, whose elements must be projection-eligible as the Rust vector type demands, is replaced whole; wheres and source are unchanged |
| SelectCores.AddJoin | src/arel/nodes/select_core.rs:38-43 | the join is appended to a present source, keeping its primary relation; with no source nothing changes |
| SelectCores.JoinSourceOn | src/arel/nodes/select_core.rs:76-81 | only the last join gets `On(x)` as its ON node, keeping its relation; earlier joins and the primary relation are unchanged; with no joins nothing changes |
| SelectCores.On | src/arel/nodes/select_core.rs:45-50 | `on` applies the join-source `on` to a present source, and is a no-op without one |
| SelectCores.SetLeft | src/arel/nodes/select_core.rs:52-57 | the primary relation is replaced and the joins kept; with no source nothing changes |
| SelectCores.OnLastWins | src/arel/nodes/select_core.rs:76-81 | a second `on` overwrites the first |
| SelectCores.OnTargetsNewestJoin | src/arel/nodes/select_core.rs:38-50 | `on` right after `add_join` attaches to the join just added and to nothing else |
| SelectCores.SetLeftLastWins | src/arel/nodes/select_core.rs:52-57 | of two `set_left` calls only the second counts |
| SelectStatements.Build | src/arel/nodes/select_statement.rs:13-21 | a new statement has a fresh core as context, no prior cores, and no orders, limit or offset |
| SelectStatements.Cores | src/arel/nodes/select_statement.rs:27-29 | `cores()` has one more element than the stored cores: the stored ones first, in order, then the context |
| SelectStatements.WithContext | src/arel/nodes/select_statement.rs:23-25 | a mutation through `context()` changes the primary core only |
| SelectStatements.CoresAfterContextMutation | src/arel/nodes/select_statement.rs:23-29 | after such a mutation `cores()` differs only in its last element, which is the new context |
| Decimal.NatText | src/arel/collector.rs:36 | the decimal text of an unsigned number is one or more digits; it starts with '0' exactly for zero, and then it is "0" |
| Decimal.NatTextRoundTrip | src/arel/collector.rs:36 | reading those digits back gives the number |
| Decimal.NatTextUnique | src/arel/collector.rs:36 | the text is canonical: every digit string without a leading zero (other than "0") is the text of the number it denotes |
| Decimal.IntText | src/arel/collector.rs:37 | the text of a non-negative number is digits that read back to it, with no leading zero; a negative number gets '-' and then such digits of its magnitude |
| Collector.New | src/arel/collector.rs:16-22 | a new collector's value is empty |
| Collector.Push | src/arel/collector.rs:25-29 | `push` appends to the value; `Collector.PushAppends` states the earlier text stays a prefix followed by exactly the pushed text |
| Collector.PushAppends | src/arel/collector.rs:25-29 | `push` keeps the earlier text as a prefix and puts exactly the pushed text after it |
| Collector.BindText | src/arel/collector.rs:35-43 | integers are unquoted, non-empty decimal text with no leading zero that reads back to the value, after a '-' for a negative one; booleans are `'t'` and `'f'`; strings are the unescaped text between single quotes; floats are their display text |
| Collector.AddBind | src/arel/collector.rs:32-46 | `add_bind` keeps the earlier text as a prefix and puts exactly the value's encoding after it |
| Predications.Eql | src/arel/predications.rs:5-7 | `eql` builds `Equality` with the receiver left and the argument right, both converted |
| Predications.Matches | src/arel/predications.rs:9-11 | `matches` builds `Matches`, receiver left |
| Predications.DoesNotMatch | src/arel/predications.rs:13-15 | `does_not_match` builds `DoesNotMatch`, receiver left |
| Predications.Gt | src/arel/predications.rs:17-19 | `gt` builds `GreaterThan`, receiver left |
| Predications.Lt | src/arel/predications.rs:21-23 | `lt` builds `LessThan`, receiver left |
| Predications.Gte | src/arel/predications.rs:25-27 | `gte` builds `GreaterThanOrEqual`, receiver left |
| Predications.Lte | src/arel/predications.rs:29-31 | `lte` builds `LessThanOrEqual`, receiver left |
| Predications.Asc | src/arel/predications.rs:36-46 | `asc`, which takes only orderable values, builds an ascending ordering over the receiver |
| Predications.Desc | src/arel/predications.rs:36-46 | `desc`, which takes only orderable values, builds a descending ordering over the receiver |
| Predications.AscDescReverse | src/arel/predications.rs:36-46 | `asc` and `desc` of the same value are each other's reverse |
| Predications.ComparisonsShareShape | src/arel/predications.rs:5-31 | the comparison helpers differ only in the kind they build |
| Conjunctions.And | src/arel/conjunctions.rs:5-10 | `and` builds `And` with the receiver left and the converted argument right |
| Conjunctions.Or | src/arel/conjunctions.rs:12-17 | `or` builds `Or` with the receiver left and the converted argument right |
| Conjunctions.AndOrSameShape | src/arel/conjunctions.rs:5-17 | `and` and `or` place their operands identically and differ only in kind; a primitive argument is stored as its `Bind` node |
| Dsl.NewTable | src/arel/dsl/table.rs:9-15 | `get_name` of a new table is the name it was given |
| Dsl.GetName | src/arel/dsl/table.rs:13-15 | `get_name` returns the stored name; `Dsl.NewTable` states it is the name the table was created with |
| Dsl.At | src/arel/dsl/table.rs:40-46 | `at(col)` is the column `col` qualified by the table's name |
| Dsl.AliasAs | src/arel/dsl/table.rs:30-33 | `alias_as` wraps the table's name with the given alias |
| Dsl.Alias | src/arel/dsl/table.rs:26-28 | `alias()` is `alias_as` of the name followed by "_2" |
| Dsl.NewBuilder | src/arel/dsl/select.rs:10-17 | a new builder holds a fresh statement whose context selects from the table, with no joins, wheres or projections |
| Dsl.Statement | src/arel/dsl/select.rs:19-21 | `statement()` returns the held statement unchanged |
| Dsl.Project | src/arel/dsl/select.rs:27-30 | `project` replaces the context's projections, which must be projection-eligible, and nothing else |
| Dsl.From | src/arel/dsl/select.rs:32-35 | `from` replaces the context's primary relation with the named table, keeping its joins and everything else |
| Dsl.Exists | src/arel/dsl/select.rs:37-39 | `exists()` is the builtin EXISTS over the whole statement, not distinct and with no alias |
| Dsl.Select | src/arel/dsl/table.rs:22-24 | `select()` is a builder whose context selects from this table, with no joins, wheres, projections or prior cores, and no orders, limit or offset |
| Dsl.ProjectTable | src/arel/dsl/table.rs:17-20 | `project(p)` on a table gives a builder from the table whose projections are `to_projections(p)` |
| DslRendering.ProjectTableText | src/arel/dsl/table.rs:17-20 | a table projecting `p` renders as "SELECT", the texts of `to_projections(p)` joined by ", ", " FROM " and the quoted table name, and has no text when one projection has none |
| DslRendering.ProjectTableRenders | src/arel/dsl/table.rs:17-20 | when the projections render to `texts`, the projecting table renders to exactly that SELECT list over the quoted table name |
| DslRendering.ProjectPairText | src/arel/dsl/table.rs:17-20 | projecting a pair `(a, b)` puts `a`'s text first and `b`'s second in the SELECT list |
| Dsl.FromLastWins | src/arel/dsl/select.rs:32-35 | of two `from` calls only the second counts |
| Dsl.FromProjectCommute | src/arel/dsl/select.rs:27-35 | `from` and `project` commute |
| ToSql.Visit | src/arel/to_sql.rs:8-111 | the visitor method of each kind, push by push, failing on a kind without an override; `ToSqlProperties.VisitIsRender` states it appends exactly `Render` of the node |
| ToSql.Column | src/arel/to_sql.rs:127-135 | `column` (and `table`) pushes a double quote, the name and a double quote; `ToSqlProperties.ColumnIsQuoted` states this is one push of the quoted name |
| ToSql.FoldJoin | src/arel/to_sql.rs:137-146 | the `fold_join` loop from index `i`, separator after every item but the last; `ToSqlProperties.FoldJoinIsRenderList` states what it writes |
| ToSql.VisitCore | src/arel/to_sql.rs:84-102 | the `SelectCore` method; `ToSqlProperties.VisitCoreIsRender` states it appends `RenderCore` |
| ToSql.VisitJoinSource | src/arel/to_sql.rs:104-106 | the `JoinSource` method; `ToSqlProperties.VisitJoinSourceIsRender` states it appends `RenderJoinSource` |
| ToSql.VisitCores | src/arel/to_sql.rs:78-82 | the `SelectStatement` loop over `cores()` from index `i`; `ToSqlProperties.VisitCoresIsRender` states it appends the rendering of the remaining cores |
| ToSql.BinaryOperator | src/arel/to_sql.rs:41-68 | the operator of each binary kind with an override; `ToSqlProperties.OperatorIffRule` states it exists exactly for those kinds and `ToSqlProperties.RenderInfix` gives each text |
| ToSql.JoinStrings | src/arel/to_sql.rs:137-146 | the items with the separator between neighbours; `ToSqlProperties.JoinStringsLength` and `ToSqlProperties.JoinStringsSnoc` state n-1 separators and none trailing |
| ToSql.Render | src/arel/to_sql.rs:8-147 | the text a node stands for; `ToSqlProperties.VisitIsRender` states it is what the visitor writes and `ToSqlProperties.RenderSucceedsIffRenderable` when it exists |
| ToSql.RenderFunction | src/arel/to_sql.rs:9-21 | the text of a call; `ToSqlProperties.RenderFunctionRule` states its layout |
| ToSql.RenderUnary | src/arel/to_sql.rs:45-76 | the text of a unary node; `ToSqlProperties.RenderUnaryRules` states the `Limit` and direction texts and `ToSqlProperties.RenderUnarySucceedsIff` that the other kinds fail |
| ToSql.RenderBinary | src/arel/to_sql.rs:114-120 | the text of a binary node; `ToSqlProperties.RenderBinaryRule` states its layout and `ToSqlProperties.RenderBinarySucceedsIff` when it exists |
| ToSql.RenderAll | src/arel/to_sql.rs:137-146 | on success one text per node; `ToSqlProperties.RenderAllInOrder` states the i-th text is the i-th node's, and `ToSqlProperties.RenderAllSucceedsIff` that it succeeds exactly when every node renders |
| ToSql.RenderList | src/arel/to_sql.rs:137-146 | the texts joined by the separator; `ToSqlProperties.FoldJoinIsRenderList` states it is what `fold_join` writes |
| ToSql.RenderCore | src/arel/to_sql.rs:84-102 | the text of a core; `ToSqlProperties.RenderCoreRule` states its layout |
| ToSql.RenderJoinSource | src/arel/to_sql.rs:104-106 | the text of the primary relation, or nothing; `ToSqlProperties.RenderCoreIgnoresJoins` states the joins do not matter |
| ToSql.RenderCores | src/arel/to_sql.rs:78-82 | the cores' texts, unseparated; `ToSqlProperties.RenderCoresConcat` states it distributes over concatenation |
| ToSql.RenderStatement | src/arel/to_sql.rs:78-82 | the text of a statement; `ToSqlProperties.StatementRendersCores` states it is the texts of `cores()` in order |
| ToSqlProperties.VisitIsRender | src/arel/to_sql.rs:8-147 | visiting any node appends exactly its rendered text to what was collected before, and fails exactly when rendering fails |
| ToSqlProperties.VisitLeafIsRender | src/arel/to_sql.rs:23-39 | the same for the leaf kinds, whose methods push the bind encoding, the literal text or the quoted names |
| ToSqlProperties.VisitBinaryIsRender | src/arel/to_sql.rs:114-120 | the same for binary nodes: left operand, spaced operator, right operand |
| ToSqlProperties.VisitFunctionIsRender | src/arel/to_sql.rs:9-21 | the same for function calls |
| ToSqlProperties.FoldJoinIsRenderList | src/arel/to_sql.rs:137-146 | the `fold_join` loop from index `i` writes the remaining nodes with the separator between neighbours and none trailing |
| ToSqlProperties.VisitCoreIsRender | src/arel/to_sql.rs:84-102 | visiting a core appends its rendered text |
| ToSqlProperties.VisitJoinSourceIsRender | src/arel/to_sql.rs:104-106 | visiting a join source appends its rendered text |
| ToSqlProperties.VisitCoresIsRender | src/arel/to_sql.rs:78-82 | the statement loop from index `i` appends the rendering of the remaining cores of `cores()` |
| ToSqlProperties.RenderCoresConcat | src/arel/to_sql.rs:78-82 | rendering two core lists one after the other concatenates their texts |
| ToSqlProperties.StatementRendersCores | src/arel/to_sql.rs:78-82 | a statement renders as the texts of its `cores()`, in order, with no separator |
| ToSqlProperties.ToSqlText | src/arel/to_sql.rs:164-168 | visiting into a new collector and reading its value gives the rendered text |
| ToSqlProperties.RenderSucceedsIffRenderable | src/arel/visitor.rs:14-16 | rendering succeeds exactly when every node the visitor reaches has an override |
| ToSqlProperties.RenderUnarySucceedsIff | src/arel/to_sql.rs:45-76 | the same for unary nodes: only `Limit` and the two directions render, and then exactly when their operand does |
| ToSqlProperties.RenderBinarySucceedsIff | src/arel/to_sql.rs:41-68 | the same for binary nodes: only the six kinds with an operator render, and then exactly when both operands do |
| ToSqlProperties.RenderAllInOrder | src/arel/to_sql.rs:137-146 | a node list renders to a list of texts exactly when the texts are as many as the nodes and each is the text of the node at the same position |
| ToSqlProperties.RenderAllSucceedsIff | src/arel/to_sql.rs:137-146 | a node list renders exactly when every element does |
| ToSqlProperties.RenderCoreSucceedsIff | src/arel/to_sql.rs:84-102 | a core renders exactly when its projections and its primary relation do |
| ToSqlProperties.RenderJoinSourceSucceedsIff | src/arel/to_sql.rs:104-106 | a join source renders exactly when its primary relation, if any, does |
| ToSqlProperties.RenderCoresSucceedsIff | src/arel/to_sql.rs:78-82 | a core list renders exactly when every core does |
| ToSqlProperties.UnsupportedKindFails | src/arel/visitor.rs:14-16 | a kind without an override fails whatever its children, both rendered and visited |
| ToSqlProperties.UnsupportedExamples | src/arel/visitor.rs:22-30 | GreaterThan, NotEqual, Join, Offset, Lock, TableAlias, True, False and Null all fail |
| ToSqlProperties.RenderIgnoresUnvisitedFields | src/arel/to_sql.rs:78-106 | the wheres of a core, the joins of a join source, and the orders, limit and offset of a statement do not affect the output |
| ToSqlProperties.RenderCoreIgnoresJoins | src/arel/to_sql.rs:98-106 | a core whose source has joins renders as if it had none |
| ToSqlProperties.JoinStringsLength | src/arel/to_sql.rs:137-146 | joining n items adds exactly n-1 separators |
| ToSqlProperties.JoinStringsSnoc | src/arel/to_sql.rs:137-146 | adding an item to a nonempty list adds one separator and the item at the end; nothing trails |
| ToSqlProperties.RenderLeaves | src/arel/to_sql.rs:23-39 | literals render verbatim; column and table names render between double quotes, unescaped; a qualified column renders as `"rel"."name"`; a bind renders as its encoding |
| ToSqlProperties.RenderBinaryRule | src/arel/to_sql.rs:114-120 | a binary kind with an operator renders as left, space, operator, space, right |
| ToSqlProperties.RenderInfix | src/arel/to_sql.rs:41-68 | the operators are `=` for Equality and Assignment, then AND, OR, LIKE and NOT LIKE |
| ToSqlProperties.RenderUnaryRules | src/arel/to_sql.rs:45-76 | the directions append " ASC" or " DESC" to their operand; `Limit` puts "LIMIT " before it |
| ToSqlProperties.RenderFunctionRule | src/arel/to_sql.rs:9-21 | a call renders as its name, a space only after "EXISTS", "(", "DISTINCT " when flagged, the arguments joined by ", ", ")", and " AS " and the quoted alias when there is one |
| ToSqlProperties.RenderCoreRule | src/arel/to_sql.rs:84-102 | a core renders as "SELECT", then a space and the projections joined by ", " only when there are any, then " FROM " and the primary relation only when the source is present |
| ToSqlTests.TestNamedFunction | src/arel/to_sql.rs:178-182 | `omg` on `*` renders `omg(*)` |
| ToSqlTests.TestEqPredication | src/arel/to_sql.rs:184-189 | that call `eql` the bind 2 renders `omg(*) = 2` |
| ToSqlTests.DistinctStar | src/arel/to_sql.rs:9-21 | a DISTINCT builtin on `*` renders as its name, a space for EXISTS only, then `(DISTINCT *)` |
| ToSqlTests.TestBuiltinFunctions | src/arel/to_sql.rs:191-212 | the six DISTINCT builtins on `*` render `SUM(DISTINCT *)`, `EXISTS (DISTINCT *)`, `MAX(DISTINCT *)`, `MIN(DISTINCT *)`, `COUNT(DISTINCT *)` and `AVG(DISTINCT *)` |
| ToSqlTests.TestNamedFunctionWithList | src/arel/to_sql.rs:214-218 | `omg` on two stars renders `omg(*, *)` |
| ToSqlTests.TestEscapeStrings | src/arel/to_sql.rs:224-228 | `*` `eql` a string renders `* = 'Aaron Patterson'` |
| ToSqlTests.TestBoolean | src/arel/to_sql.rs:230-237 | `*` `eql` false and true render `* = 'f'` and `* = 't'` |
| ToSqlTests.TestNumber | src/arel/to_sql.rs:239-246 | `foo` `eql` an unsigned or a signed zero renders `foo = 0` |
| ToSqlTests.TestMatches | src/arel/to_sql.rs:254-260 | `users.name` `matches` "foo%" renders `"users"."name" LIKE 'foo%'` |
| ToSqlTests.TestNotMatches | src/arel/to_sql.rs:262-268 | `users.name` `does_not_match` "foo%" renders `"users"."name" NOT LIKE 'foo%'` |
| ToSqlTests.TestColumnAsc | src/arel/to_sql.rs:276-282 | `users.name` `asc` renders `"users"."name" ASC` |
| ToSqlTests.TestColumnDesc | src/arel/to_sql.rs:284-290 | `users.name` `desc` renders `"users"."name" DESC` |
| ToSqlTests.TestAnd | src/arel/to_sql.rs:299-303 | `foo` `and` 2 renders `foo AND 2` |
| ToSqlTests.TestOr | src/arel/to_sql.rs:305-309 | `foo` `or` 2 renders `foo OR 2` |
| ToSqlTests.TestAssignment | src/arel/to_sql.rs:311-319 | assigning column `bar` to column `foo` renders `"foo" = "bar"` |
| ToSqlTests.TestQualifiedColumnAssignment | src/arel/to_sql.rs:321-330 | assigning `users.name` to `users.id` renders `"users"."id" = "users"."name"` |
| ToSqlTests.TestLimitQuotesStrings | src/arel/to_sql.rs:338-342 | a limit on the string "omg" renders `LIMIT 'omg'` |
| ToSqlTests.TestSimpleSelect | src/arel/to_sql.rs:349-355 | the statement of `users` projecting `*` renders `SELECT * FROM "users"` |
| ToSqlTests.TestSelectExists | src/arel/to_sql.rs:357-363 | its `exists()` renders `EXISTS (SELECT * FROM "users")` |
| ToSqlTests.TestSelectExistsAlias | src/arel/to_sql.rs:365-371 | `exists().as_("foo")` renders `EXISTS (SELECT * FROM "users") AS "foo"` |
| ToSqlTests.JoinIsNotRendered | src/arel/to_sql.rs:104-106 | the `users` core with a join to `users_2` ON `users.id = users_2.id` still renders `SELECT * FROM "users"`, because joins are never written |

## Left out

- Macro and trait plumbing (src/arel/macros.rs, the `Visitor` trait, the per-kind structs): the `Node` datatype and a `match` take their place. The only behaviour kept is that the default visitor method fails, modelled as `None`.
- Ownership glue (`Box`, `borrow`, `ToBorrowedNode`, the trait-object casts): it has no effect on the values.
- The marker traits are predicates on nodes (`Nodes.IsOrderable`, `Nodes.IsProjection`, `Nodes.IsInfixOperation`). Rust enforces them at compile time. Here they are `requires` clauses where the Rust signature has the bound (`asc`, `desc`, `to_projections`, `set_projections`, `project`).
- Collector.BindText: float binds carry the text Rust's `to_string` gives them. The float formatting itself is not modelled.
- `Nodes.Uint` and `Nodes.Int` are the 64-bit ranges. Rust arithmetic on them does not occur in the core.
- The unsigned `len() - 1` in the select-core and `fold_join` loops is not modelled. It wraps on an empty list, but the projection guard and the empty loop mean nothing is written then, and the model writes nothing too.
- The accessors (`source`, `projections`, `wheres`, `left`, `right`, `value`) are the datatype's fields, read directly.
- Joins: `Join` is a plain binary kind in src/arel/nodes/mod.rs, but the select core writes an `on` field into it. A join held by a join source is modelled as `Nodes.JoinClause`, a relation plus an optional ON node, for the assembly properties only. It has no render rule, and neither has the `Join` kind.
- `InnerJoin`, `OuterJoin` and `FullOuterJoin` are declared as binary structs but the visitor has no method for them. They are not part of the model.
- `TableAlias`, `ColumnAt`, `Relation`, `OrderBy` and `ToOrder` are imported from `arel::nodes` (src/arel/dsl/table.rs:1, src/arel/macros.rs:44-54), but src/arel/nodes/mod.rs and its three submodules `sql_literal`, `select_statement` and `select_core` define none of them. `TableAlias` is a node holding the table node and the alias name, with no render rule.
- The distinction between `String` and `&str` arguments: both are `string`. `SqlLiteral.Primitive` keeps the two `ToBind` sources apart so that both conversions are modelled.
- No SQL is executed. The library has no I/O apart from building the string.
