/** What the builder's statements render to: `project` on a table puts the
    converted projections, in order, into the SELECT list. */
module DslRendering {
  import opened Wrappers
  import opened Nodes
  import opened NodeOps
  import opened ToSql
  import opened ToSqlProperties
  import Dsl

  /** "SELECT", the projection texts joined by ", " (nothing for none), then
      " FROM " and the relation's text. */
  function SelectFromText(texts: seq<string>, from: string): string {
    "SELECT" + (if |texts| == 0 then "" else " " + JoinStrings(texts, ", ")) + " FROM " + from
  }

  /** The text of a table projecting `p`: the projections' texts joined by
      ", " after "SELECT", then FROM and the quoted table name; no text at
      all when one of the projections has none. */
  lemma ProjectTableText(t: Dsl.Table, p: ProjectionArg)
    requires ProjectionArgEligible(p)
    ensures match RenderAll(ToProjections(p))
            case None => Render(SelectStatementNode(Dsl.Statement(Dsl.ProjectTable(t, p)))) == None
            case Some(texts) =>
              Render(SelectStatementNode(Dsl.Statement(Dsl.ProjectTable(t, p))))
              == Some(SelectFromText(texts, Quoted(Dsl.GetName(t))))
  {
    match RenderAll(ToProjections(p))
    case None =>
      var c := Dsl.Statement(Dsl.ProjectTable(t, p)).context;
      assert c.projections == ToProjections(p);
      assert RenderList(c.projections, ", ") == None;
      assert RenderCore(c) == None;
    case Some(texts) =>
      ProjectTableRenders(t, p, texts);
  }

  /** The success half of `ProjectTableText`. */
  lemma ProjectTableRenders(t: Dsl.Table, p: ProjectionArg, texts: seq<string>)
    requires ProjectionArgEligible(p)
    requires RenderAll(ToProjections(p)) == Some(texts)
    ensures Render(SelectStatementNode(Dsl.Statement(Dsl.ProjectTable(t, p))))
            == Some(SelectFromText(texts, Quoted(Dsl.GetName(t))))
  {
    var st := Dsl.Statement(Dsl.ProjectTable(t, p));
    var c := st.context;
    assert RenderCores(st.cores) == Some("");
    assert RenderJoinSource(c.source.value) == Some(Quoted(Dsl.GetName(t)));
    RenderCoreRule(c, texts, Quoted(Dsl.GetName(t)));
    var text := SelectFromText(texts, Quoted(Dsl.GetName(t)));
    assert "" + text == text;
  }

  lemma RenderAllPair(a: Node, b: Node, x: string, y: string)
    requires Render(a) == Some(x) && Render(b) == Some(y)
    ensures RenderAll([a, b]) == Some([x, y])
  {
    assert [a, b][1..] == [b] && [b][1..] == [];
    assert RenderAll([]) == Some([]);
    assert RenderAll([b]) == Some([y] + []);
    assert [y] + [] == [y] && [x] + [y] == [x, y];
  }

  lemma JoinPair(x: string, y: string)
    ensures JoinStrings([x, y], ", ") == x + ", " + y
  {
    JoinStringsSmall(x, ", ");
    JoinStringsSnoc([x], y, ", ");
    assert [x] + [y] == [x, y];
  }

  /** With two projections, the SELECT list is their texts, first then second. */
  lemma ProjectPairText(t: Dsl.Table, a: Node, b: Node, x: string, y: string)
    requires IsProjection(a) && IsProjection(b)
    requires Render(a) == Some(x) && Render(b) == Some(y)
    ensures Render(SelectStatementNode(Dsl.Statement(Dsl.ProjectTable(t, Pair(a, b))))) == Some(
      "SELECT " + x + ", " + y + " FROM " + Quoted(Dsl.GetName(t)))
  {
    assert ToProjections(Pair(a, b)) == [a, b];
    RenderAllPair(a, b, x, y);
    ProjectTableRenders(t, Pair(a, b), [x, y]);
    JoinPair(x, y);
    assert SelectFromText([x, y], Quoted(Dsl.GetName(t)))
        == "SELECT " + x + ", " + y + " FROM " + Quoted(Dsl.GetName(t));
  }
}
