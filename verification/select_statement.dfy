/** Assembly of a select statement: its primary core and the cores before it. */
module SelectStatements {
  import opened Wrappers
  import opened Nodes
  import SelectCores

  /** `SelectStatement::build`: a fresh core as context, no prior cores, and
      no ORDER BY, LIMIT or OFFSET. */
  function Build(): (st: SelectStatement)
    ensures st.context == SelectCores.Build() && st.cores == []
    ensures st.orders == None && st.limit == None && st.offset == None
  {
    SelectStatement(SelectCores.Build(), [], None, None, None)
  }

  /** `cores()`: the prior cores in their stored order, then the context. */
  function Cores(st: SelectStatement): (r: seq<SelectCore>)
    ensures |r| == |st.cores| + 1
    ensures r[..|st.cores|] == st.cores
    ensures r[|st.cores|] == st.context
  {
    st.cores + [st.context]
  }

  /** A mutation through `context()`: the context becomes `c`, and the prior
      cores and the modifiers stay as they were. */
  function WithContext(st: SelectStatement, c: SelectCore): (r: SelectStatement)
    ensures r.context == c && r.cores == st.cores
    ensures r.orders == st.orders && r.limit == st.limit && r.offset == st.offset
  {
    st.(context := c)
  }

  /** After a mutation through `context()`, `cores()` differs only in its last element. */
  lemma CoresAfterContextMutation(st: SelectStatement, c: SelectCore)
    ensures Cores(WithContext(st, c))[..|st.cores|] == Cores(st)[..|st.cores|]
    ensures Cores(WithContext(st, c))[|st.cores|] == c
  {
  }
}
