/** Assembly of one select core and its join source. Each Rust `&mut self`
    mutator is a function from the old value to the new one. */
module SelectCores {
  import opened Wrappers
  import opened Nodes
  import opened SqlLiteral

  /** `JoinSource::build`: no primary relation, no joins. */
  function BuildJoinSource(): (s: JoinSource)
    ensures s.left == None && s.right == []
  {
    JoinSource(None, [])
  }

  /** `SelectCore::build`: an empty join source, no wheres, no projections. */
  function Build(): (c: SelectCore)
    ensures c.source.Some? && c.source.value.left == None && c.source.value.right == []
    ensures c.wheres == [] && c.projections == []
  {
    SelectCore(Some(BuildJoinSource()), [], [])
  }

  /** `add_where`: appends the predicate; nothing else changes. */
  function AddWhere(c: SelectCore, w: Node): (r: SelectCore)
    ensures |r.wheres| == |c.wheres| + 1 && r.wheres[|c.wheres|] == w
    ensures r.wheres[..|c.wheres|] == c.wheres
    ensures r.projections == c.projections && r.source == c.source
  {
    c.(wheres := c.wheres + [w])
  }

  /** `set_projections`: replaces the whole list; nothing else changes. The
      list holds projection-eligible nodes only, as its Rust type demands. */
  function SetProjections(c: SelectCore, ps: seq<Node>): (r: SelectCore)
    requires forall i :: 0 <= i < |ps| ==> IsProjection(ps[i])
    ensures r.projections == ps
    ensures r.wheres == c.wheres && r.source == c.source
  {
    c.(projections := ps)
  }

  /** `add_join`: appends to the join list of a present source; a core
      without a source is left as it is. */
  function AddJoin(c: SelectCore, j: JoinClause): (r: SelectCore)
    ensures c.source == None ==> r == c
    ensures c.source.Some? ==> r.source.Some? && r.source.value.left == c.source.value.left
    ensures c.source.Some? ==> r.source.value.right == c.source.value.right + [j]
    ensures r.wheres == c.wheres && r.projections == c.projections
  {
    match c.source
    case None => c
    case Some(s) => c.(source := Some(s.(right := s.right + [j])))
  }

  /** `JoinSource::on`: the last join gets `On(on)` as its ON node, replacing
      any earlier one; the other joins and the primary relation are kept;
      with no joins nothing changes. */
  function JoinSourceOn(s: JoinSource, on: Operand): (r: JoinSource)
    ensures s.right == [] ==> r == s
    ensures r.left == s.left && |r.right| == |s.right|
    ensures forall i :: 0 <= i < |s.right| - 1 ==> r.right[i] == s.right[i]
    ensures s.right != [] ==>
      var last := |s.right| - 1;
      r.right[last].relation == s.right[last].relation
      && r.right[last].on == Some(Unary(UnaryKind.On, ToNode(on)))
  {
    if s.right == [] then s
    else
      var last := |s.right| - 1;
      s.(right := s.right[last := s.right[last].(on := Some(Unary(UnaryKind.On, ToNode(on))))])
  }

  /** `SelectCore::on`: `JoinSource::on` on a present source, else no change. */
  function On(c: SelectCore, on: Operand): (r: SelectCore)
    ensures c.source == None ==> r == c
    ensures c.source.Some? ==> r.source == Some(JoinSourceOn(c.source.value, on))
    ensures r.wheres == c.wheres && r.projections == c.projections
  {
    match c.source
    case None => c
    case Some(s) => c.(source := Some(JoinSourceOn(s, on)))
  }

  /** `set_left`: replaces the primary relation of a present source, keeping
      its joins; a core without a source is left as it is. */
  function SetLeft(c: SelectCore, node: Operand): (r: SelectCore)
    ensures c.source == None ==> r == c
    ensures c.source.Some? ==> r.source.Some? && r.source.value.left == Some(ToNode(node))
    ensures c.source.Some? ==> r.source.value.right == c.source.value.right
    ensures r.wheres == c.wheres && r.projections == c.projections
  {
    match c.source
    case None => c
    case Some(s) => c.(source := Some(s.(left := Some(ToNode(node)))))
  }

  /** Last join wins: a second `on` overwrites the first. */
  lemma OnLastWins(c: SelectCore, a: Operand, b: Operand)
    ensures On(On(c, a), b) == On(c, b)
  {
    match c.source
    case None =>
    case Some(s) =>
      if s.right != [] {
        var once := JoinSourceOn(s, a);
        assert JoinSourceOn(once, b).right == JoinSourceOn(s, b).right;
      }
  }

  /** `on` right after `add_join` attaches to the join just added, and only to it. */
  lemma OnTargetsNewestJoin(c: SelectCore, j: JoinClause, on: Operand)
    requires c.source.Some?
    ensures On(AddJoin(c, j), on) == AddJoin(c, j.(on := Some(Unary(UnaryKind.On, ToNode(on)))))
  {
    var s := c.source.value;
    var attached := j.(on := Some(Unary(UnaryKind.On, ToNode(on))));
    assert JoinSourceOn(s.(right := s.right + [j]), on).right == s.right + [attached];
  }

  /** `set_left` twice keeps only the second relation. */
  lemma SetLeftLastWins(c: SelectCore, a: Operand, b: Operand)
    ensures SetLeft(SetLeft(c, a), b) == SetLeft(c, b)
  {
  }
}
