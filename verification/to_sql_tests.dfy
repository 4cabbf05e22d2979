/** The expected strings of the renderer's own test cases, proved of the model. */
module ToSqlTests {
  import opened Wrappers
  import opened Nodes
  import opened SqlLiteral
  import opened NodeOps
  import opened Collector
  import opened ToSql
  import opened ToSqlProperties
  import Predications
  import Conjunctions
  import Dsl
  import SelectCores

  function Star(): Node { NewLiteral("*") }
  function Foo(): Node { NewLiteral("foo") }

  lemma RenderAllOne(n: Node, s: string)
    requires Render(n) == Some(s)
    ensures RenderAll([n]) == Some([s])
  {
    assert [n][1..] == [];
    assert RenderAll([]) == Some([]);
    assert [s] + [] == [s];
  }

  lemma RenderAllTwo(n: Node, s: string, m: Node, t: string)
    requires Render(n) == Some(s) && Render(m) == Some(t)
    ensures RenderAll([n, m]) == Some([s, t])
  {
    assert [n, m][1..] == [m];
    RenderAllOne(m, t);
    assert [s] + [t] == [s, t];
  }

  lemma BindTextTwo()
    ensures BindText(UintKind(2)) == "2"
  {
    assert Decimal.DigitChar(2) == '2';
  }

  lemma BindTextZero()
    ensures BindText(UintKind(0)) == "0" && BindText(IntKind(0)) == "0"
  {
    assert Decimal.DigitChar(0) == '0';
  }

  lemma BindTextBools()
    ensures BindText(BoolKind(true)) == "'t'" && BindText(BoolKind(false)) == "'f'"
  {
  }

  /** An infix node whose operands render, rendered through the public entry point. */
  lemma InfixText(k: BinaryKind, l: Node, r: Node, ls: string, op: string, rs: string)
    requires Render(l) == Some(ls) && Render(r) == Some(rs) && BinaryOperator(k) == Some(op)
    ensures ToSqlText(Binary(k, l, r)) == Some(ls + " " + op + " " + rs)
  {
    RenderBinaryRule(k, l, r, ls, op, rs);
    assert ls + (" " + op + " ") + rs == ls + " " + op + " " + rs;
  }

  /** A plain call of a function with the given name on `*`. */
  lemma StarCall(f: Function)
    requires f.expressions == [Star()] && f.alias == None
    ensures Render(FunctionNode(f)) == Some(
      FunctionName(f) + (if FunctionName(f) == "EXISTS" then " (" else "(")
      + (if f.distinct then "DISTINCT " else "") + "*" + ")" + "")
  {
    RenderLeaves("*", "", "", BoolKind(false));
    RenderAllOne(Star(), "*");
    JoinStringsSmall("*", ", ");
    RenderFunctionRule(f, ["*"]);
  }

  lemma TestNamedFunction()
    ensures ToSqlText(FunctionNode(NamedFunction("omg", [Star()]))) == Some("omg(*)")
  {
    StarCall(NamedFunction("omg", [Star()]));
    assert "omg" + "(" + "" + "*" + ")" + "" == "omg(*)";
  }

  lemma TestEqPredication()
    ensures ToSqlText(Predications.Eql(NodeOperand(FunctionNode(NamedFunction("omg", [Star()]))),
                                       NodeOperand(BindFrom(UintValue(2))))) == Some("omg(*) = 2")
  {
    var call := FunctionNode(NamedFunction("omg", [Star()]));
    assert "omg(*)" + " " + "=" + " " + "2" == "omg(*) = 2";
    TestNamedFunction();
    BindTextTwo();
    assert Predications.Eql(NodeOperand(call), NodeOperand(BindFrom(UintValue(2)))) == Binary(Equality, call, Bind(UintKind(2)));
    InfixText(Equality, call, Bind(UintKind(2)), "omg(*)", "=", "2");
  }

  lemma TestNamedFunctionWithList()
    ensures ToSqlText(FunctionNode(NamedFunction("omg", [Star(), Star()]))) == Some("omg(*, *)")
  {
    RenderLeaves("*", "", "", BoolKind(false));
    RenderAllTwo(Star(), "*", Star(), "*");
    assert ["*", "*"][1..] == ["*"];
    assert JoinStrings(["*", "*"], ", ") == "*, *";
    RenderFunctionRule(NamedFunction("omg", [Star(), Star()]), ["*", "*"]);
    assert "omg" + "(" + "" + "*, *" + ")" + "" == "omg(*, *)";
  }

  /** A builtin called DISTINCT on `*`: its name, then "(DISTINCT *)". */
  lemma DistinctStar(k: FunctionKind)
    requires !k.Named?
    ensures ToSqlText(FunctionNode(Distinct(BuiltinFunction(k, [Star()])))) == Some(
      FunctionName(BuiltinFunction(k, [])) + (if k == Exists then " (" else "(") + "DISTINCT " + "*" + ")" + "")
  {
    var f := Distinct(BuiltinFunction(k, [Star()]));
    StarCall(f);
    FunctionNameExists(f, f);
    assert FunctionName(f) == FunctionName(BuiltinFunction(k, []));
  }

  lemma TestBuiltinFunctions()
    ensures ToSqlText(FunctionNode(Distinct(BuiltinFunction(Sum, [Star()])))) == Some("SUM(DISTINCT *)")
    ensures ToSqlText(FunctionNode(Distinct(BuiltinFunction(Exists, [Star()])))) == Some("EXISTS (DISTINCT *)")
    ensures ToSqlText(FunctionNode(Distinct(BuiltinFunction(Max, [Star()])))) == Some("MAX(DISTINCT *)")
    ensures ToSqlText(FunctionNode(Distinct(BuiltinFunction(Min, [Star()])))) == Some("MIN(DISTINCT *)")
    ensures ToSqlText(FunctionNode(Distinct(BuiltinFunction(Count, [Star()])))) == Some("COUNT(DISTINCT *)")
    ensures ToSqlText(FunctionNode(Distinct(BuiltinFunction(Avg, [Star()])))) == Some("AVG(DISTINCT *)")
  {
    DistinctSum();
    DistinctExists();
    DistinctMax();
    DistinctMin();
    DistinctCount();
    DistinctAvg();
  }

  lemma DistinctSum()
    ensures ToSqlText(FunctionNode(Distinct(BuiltinFunction(Sum, [Star()])))) == Some("SUM(DISTINCT *)")
  {
    assert "SUM" + "(" + "DISTINCT " + "*" + ")" + "" == "SUM(DISTINCT *)";
    DistinctStar(Sum);
  }

  lemma DistinctExists()
    ensures ToSqlText(FunctionNode(Distinct(BuiltinFunction(Exists, [Star()])))) == Some("EXISTS (DISTINCT *)")
  {
    assert "EXISTS" + " (" + "DISTINCT " + "*" + ")" + "" == "EXISTS (DISTINCT *)";
    DistinctStar(Exists);
  }

  lemma DistinctMax()
    ensures ToSqlText(FunctionNode(Distinct(BuiltinFunction(Max, [Star()])))) == Some("MAX(DISTINCT *)")
  {
    assert "MAX" + "(" + "DISTINCT " + "*" + ")" + "" == "MAX(DISTINCT *)";
    DistinctStar(Max);
  }

  lemma DistinctMin()
    ensures ToSqlText(FunctionNode(Distinct(BuiltinFunction(Min, [Star()])))) == Some("MIN(DISTINCT *)")
  {
    assert "MIN" + "(" + "DISTINCT " + "*" + ")" + "" == "MIN(DISTINCT *)";
    DistinctStar(Min);
  }

  lemma DistinctCount()
    ensures ToSqlText(FunctionNode(Distinct(BuiltinFunction(Count, [Star()])))) == Some("COUNT(DISTINCT *)")
  {
    assert "COUNT" + "(" + "DISTINCT " + "*" + ")" + "" == "COUNT(DISTINCT *)";
    DistinctStar(Count);
  }

  lemma DistinctAvg()
    ensures ToSqlText(FunctionNode(Distinct(BuiltinFunction(Avg, [Star()])))) == Some("AVG(DISTINCT *)")
  {
    assert "AVG" + "(" + "DISTINCT " + "*" + ")" + "" == "AVG(DISTINCT *)";
    DistinctStar(Avg);
  }

  lemma TestEscapeStrings()
    ensures ToSqlText(Predications.Eql(NodeOperand(Star()), PrimitiveOperand(StrSlice("Aaron Patterson"))))
            == Some("* = 'Aaron Patterson'")
  {
    var name := "Aaron Patterson";
    assert "*" + " " + "=" + " " + ("'" + name + "'") == "* = 'Aaron Patterson'";
    assert Predications.Eql(NodeOperand(Star()), PrimitiveOperand(StrSlice(name))) == Binary(Equality, Star(), Bind(StringKind(name)));
    InfixText(Equality, Star(), Bind(StringKind(name)), "*", "=", "'" + name + "'");
  }

  lemma TestBooleanFalse()
    ensures ToSqlText(Predications.Eql(NodeOperand(Star()), PrimitiveOperand(BoolValue(false)))) == Some("* = 'f'")
  {
    assert "*" + " " + "=" + " " + "'f'" == "* = 'f'";
    BindTextBools();
    assert Predications.Eql(NodeOperand(Star()), PrimitiveOperand(BoolValue(false))) == Binary(Equality, Star(), Bind(BoolKind(false)));
    InfixText(Equality, Star(), Bind(BoolKind(false)), "*", "=", "'f'");
  }

  lemma TestBooleanTrue()
    ensures ToSqlText(Predications.Eql(NodeOperand(Star()), PrimitiveOperand(BoolValue(true)))) == Some("* = 't'")
  {
    assert "*" + " " + "=" + " " + "'t'" == "* = 't'";
    BindTextBools();
    assert Predications.Eql(NodeOperand(Star()), PrimitiveOperand(BoolValue(true))) == Binary(Equality, Star(), Bind(BoolKind(true)));
    InfixText(Equality, Star(), Bind(BoolKind(true)), "*", "=", "'t'");
  }

  lemma TestBoolean()
    ensures ToSqlText(Predications.Eql(NodeOperand(Star()), PrimitiveOperand(BoolValue(false)))) == Some("* = 'f'")
    ensures ToSqlText(Predications.Eql(NodeOperand(Star()), PrimitiveOperand(BoolValue(true)))) == Some("* = 't'")
  {
    TestBooleanFalse();
    TestBooleanTrue();
  }

  lemma TestNumber()
    ensures ToSqlText(Predications.Eql(NodeOperand(Foo()), PrimitiveOperand(UintValue(0)))) == Some("foo = 0")
    ensures ToSqlText(Predications.Eql(NodeOperand(Foo()), PrimitiveOperand(IntValue(0)))) == Some("foo = 0")
  {
    assert "foo" + " " + "=" + " " + "0" == "foo = 0";
    BindTextZero();
    assert Predications.Eql(NodeOperand(Foo()), PrimitiveOperand(UintValue(0))) == Binary(Equality, Foo(), Bind(UintKind(0)));
    InfixText(Equality, Foo(), Bind(UintKind(0)), "foo", "=", "0");
    assert Predications.Eql(NodeOperand(Foo()), PrimitiveOperand(IntValue(0))) == Binary(Equality, Foo(), Bind(IntKind(0)));
    InfixText(Equality, Foo(), Bind(IntKind(0)), "foo", "=", "0");
  }

  /** `"users"."name"`, the column the predication tests start from. */
  lemma UsersName()
    ensures Dsl.At(Dsl.NewTable("users"), "name") == QualifiedColumn("users", "name")
    ensures Render(QualifiedColumn("users", "name")) == Some("\"users\".\"name\"")
  {
    assert "\"" + "users" + "\".\"" + "name" + "\"" == "\"users\".\"name\"";
    RenderLeaves("", "users", "name", BoolKind(false));
  }

  /** A column compared with a string by an operator the visitor renders. */
  lemma ColumnAgainstString(k: BinaryKind, column: Node, cs: string, op: string, text: string)
    requires Render(column) == Some(cs) && BinaryOperator(k) == Some(op)
    ensures ToSqlText(Binary(k, column, ToBind(StrSlice(text)))) == Some(cs + " " + op + " " + ("'" + text + "'"))
  {
    InfixText(k, column, ToBind(StrSlice(text)), cs, op, "'" + text + "'");
  }

  lemma TestMatches()
    ensures ToSqlText(Predications.Matches(NodeOperand(Dsl.At(Dsl.NewTable("users"), "name")),
                                           PrimitiveOperand(StrSlice("foo%"))))
            == Some("\"users\".\"name\" LIKE 'foo%'")
  {
    assert "\"users\".\"name\"" + " " + "LIKE" + " " + ("'" + "foo%" + "'") == "\"users\".\"name\" LIKE 'foo%'";
    UsersName();
    ColumnAgainstString(Nodes.Matches, QualifiedColumn("users", "name"), "\"users\".\"name\"", "LIKE", "foo%");
  }

  lemma TestNotMatches()
    ensures ToSqlText(Predications.DoesNotMatch(NodeOperand(Dsl.At(Dsl.NewTable("users"), "name")),
                                                PrimitiveOperand(StrSlice("foo%"))))
            == Some("\"users\".\"name\" NOT LIKE 'foo%'")
  {
    assert "\"users\".\"name\"" + " " + "NOT LIKE" + " " + ("'" + "foo%" + "'") == "\"users\".\"name\" NOT LIKE 'foo%'";
    UsersName();
    ColumnAgainstString(Nodes.DoesNotMatch, QualifiedColumn("users", "name"), "\"users\".\"name\"", "NOT LIKE", "foo%");
  }

  lemma TestColumnAsc()
    ensures ToSqlText(Predications.Asc(Dsl.At(Dsl.NewTable("users"), "name"))) == Some("\"users\".\"name\" ASC")
  {
    assert "\"users\".\"name\"" + " ASC" == "\"users\".\"name\" ASC";
    UsersName();
    RenderUnaryRules(QualifiedColumn("users", "name"), "\"users\".\"name\"");
  }

  lemma TestColumnDesc()
    ensures ToSqlText(Predications.Desc(Dsl.At(Dsl.NewTable("users"), "name"))) == Some("\"users\".\"name\" DESC")
  {
    assert "\"users\".\"name\"" + " DESC" == "\"users\".\"name\" DESC";
    UsersName();
    RenderUnaryRules(QualifiedColumn("users", "name"), "\"users\".\"name\"");
  }

  lemma TestAnd()
    ensures ToSqlText(Conjunctions.And(Foo(), PrimitiveOperand(UintValue(2)))) == Some("foo AND 2")
  {
    assert "foo" + " " + "AND" + " " + "2" == "foo AND 2";
    BindTextTwo();
    InfixText(Nodes.And, Foo(), Bind(UintKind(2)), "foo", "AND", "2");
  }

  lemma TestOr()
    ensures ToSqlText(Conjunctions.Or(Foo(), PrimitiveOperand(UintValue(2)))) == Some("foo OR 2")
  {
    assert "foo" + " " + "OR" + " " + "2" == "foo OR 2";
    BindTextTwo();
    InfixText(Nodes.Or, Foo(), Bind(UintKind(2)), "foo", "OR", "2");
  }

  lemma TestAssignment()
    ensures ToSqlText(Binary(Assignment, UnqualifiedColumn("foo"), UnqualifiedColumn("bar"))) == Some("\"foo\" = \"bar\"")
  {
    assert "\"" + "foo" + "\"" == "\"foo\"";
    assert "\"" + "bar" + "\"" == "\"bar\"";
    assert "\"foo\"" + " " + "=" + " " + "\"bar\"" == "\"foo\" = \"bar\"";
    RenderLeaves("", "", "foo", BoolKind(false));
    RenderLeaves("", "", "bar", BoolKind(false));
    InfixText(Assignment, UnqualifiedColumn("foo"), UnqualifiedColumn("bar"), "\"foo\"", "=", "\"bar\"");
  }

  lemma TestQualifiedColumnAssignment()
    ensures ToSqlText(Binary(Assignment, Dsl.At(Dsl.NewTable("users"), "id"), Dsl.At(Dsl.NewTable("users"), "name")))
            == Some("\"users\".\"id\" = \"users\".\"name\"")
  {
    assert "\"" + "users" + "\".\"" + "id" + "\"" == "\"users\".\"id\"";
    assert "\"users\".\"id\"" + " " + "=" + " " + "\"users\".\"name\"" == "\"users\".\"id\" = \"users\".\"name\"";
    UsersName();
    RenderLeaves("", "users", "id", BoolKind(false));
    InfixText(Assignment, QualifiedColumn("users", "id"), QualifiedColumn("users", "name"),
              "\"users\".\"id\"", "=", "\"users\".\"name\"");
  }

  lemma TestLimitQuotesStrings()
    ensures ToSqlText(Unary(Limit, ToNode(NodeOperand(BindFrom(StrSlice("omg")))))) == Some("LIMIT 'omg'")
  {
    assert "LIMIT " + ("'" + "omg" + "'") == "LIMIT 'omg'";
    assert BindText(StringKind("omg")) == "'" + "omg" + "'";
    RenderUnaryRules(Bind(StringKind("omg")), "'" + "omg" + "'");
  }

  function UsersStar(): Dsl.SelectBuilder {
    Dsl.ProjectTable(Dsl.NewTable("users"), Single(Star()))
  }

  /** The context of `users` projecting `*` renders as the plain select. */
  lemma UsersStarCore()
    ensures RenderCore(UsersStar().ast.context) == Some("SELECT * FROM \"users\"")
  {
    var c := UsersStar().ast.context;
    RenderLeaves("*", "", "users", BoolKind(false));
    RenderAllOne(Star(), "*");
    JoinStringsSmall("*", ", ");
    assert c.source.value.left == Some(TableName("users"));
    assert RenderJoinSource(c.source.value) == Some("\"" + "users" + "\"");
    assert "\"" + "users" + "\"" == "\"users\"";
    assert |c.projections| == 1 && c.source.Some?;
    RenderCoreRule(c, ["*"], "\"users\"");
    assert ("SELECT" + (" " + "*")) + (" FROM " + "\"users\"") == "SELECT * FROM \"users\"";
  }

  lemma UsersStarStatement()
    ensures Render(SelectStatementNode(Dsl.Statement(UsersStar()))) == Some("SELECT * FROM \"users\"")
  {
    var st := UsersStar().ast;
    UsersStarCore();
    assert RenderCores(st.cores) == Some("");
    assert "" + "SELECT * FROM \"users\"" == "SELECT * FROM \"users\"";
  }

  lemma TestSimpleSelect()
    ensures ToSqlText(SelectStatementNode(Dsl.Statement(UsersStar()))) == Some("SELECT * FROM \"users\"")
  {
    UsersStarStatement();
  }

  /** EXISTS over a statement that renders: the text in parentheses after
      "EXISTS ", then the quoted alias when there is one. */
  lemma ExistsRule(st: SelectStatement, text: string, alias: Option<string>)
    requires Render(SelectStatementNode(st)) == Some(text)
    ensures Render(FunctionNode(BuiltinFunction(Nodes.Exists, [SelectStatementNode(st)]).(alias := alias)))
            == Some("EXISTS (" + text + ")" + (if alias.Some? then " AS \"" + alias.value + "\"" else ""))
  {
    var f := BuiltinFunction(Nodes.Exists, [SelectStatementNode(st)]).(alias := alias);
    RenderAllOne(SelectStatementNode(st), text);
    JoinStringsSmall(text, ", ");
    RenderFunctionRule(f, [text]);
    assert "EXISTS" + " (" + "" + text == "EXISTS (" + text;
  }

  lemma TestSelectExists()
    ensures ToSqlText(Dsl.Exists(UsersStar())) == Some("EXISTS (SELECT * FROM \"users\")")
  {
    var select := "SELECT * FROM \"users\"";
    assert "EXISTS (" + select + ")" + "" == "EXISTS (SELECT * FROM \"users\")";
    UsersStarStatement();
    var st := UsersStar().ast;
    assert Dsl.Exists(UsersStar()) == FunctionNode(BuiltinFunction(Nodes.Exists, [SelectStatementNode(st)]).(alias := None));
    ExistsRule(st, select, None);
  }

  lemma TestSelectExistsAlias()
    ensures ToSqlText(FunctionNode(AliasFunction(Dsl.Exists(UsersStar()).call, "foo")))
            == Some("EXISTS (SELECT * FROM \"users\") AS \"foo\"")
  {
    var select := "SELECT * FROM \"users\"";
    assert "EXISTS (" + select + ")" + (" AS \"" + "foo" + "\"") == "EXISTS (SELECT * FROM \"users\") AS \"foo\"";
    UsersStarStatement();
    var st := UsersStar().ast;
    assert AliasFunction(Dsl.Exists(UsersStar()).call, "foo")
        == BuiltinFunction(Nodes.Exists, [SelectStatementNode(st)]).(alias := Some("foo"));
    ExistsRule(st, select, Some("foo"));
  }

  /** A join attached to the context, even with its ON, does not show in the text. */
  lemma JoinIsNotRendered()
    ensures
      var users := Dsl.NewTable("users");
      var core := UsersStar().ast.context;
      var on := Predications.Eql(NodeOperand(Dsl.At(users, "id")), NodeOperand(QualifiedColumn("users_2", "id")));
      var joined := SelectCores.On(SelectCores.AddJoin(core, JoinClause(Dsl.Alias(users), None)), NodeOperand(on));
      ToSqlText(SelectCoreNode(joined)) == Some("SELECT * FROM \"users\"")
  {
    var users := Dsl.NewTable("users");
    var core := UsersStar().ast.context;
    var on := Predications.Eql(NodeOperand(Dsl.At(users, "id")), NodeOperand(QualifiedColumn("users_2", "id")));
    var joined := SelectCores.On(SelectCores.AddJoin(core, JoinClause(Dsl.Alias(users), None)), NodeOperand(on));
    assert joined.source.Some?;
    assert joined == core.(source := Some(core.source.value.(right := joined.source.value.right)));
    RenderCoreIgnoresJoins(core, joined.source.value.right);
    UsersStarCore();
  }
}
