/** The generic node operations: `Binary`/`Unary` build and accessors, the
    `Ordering` trait of the direction kinds, `Function` construction, and
    `ToProjections`. */
module NodeOps {
  import opened Wrappers
  import opened Nodes
  import opened SqlLiteral

  /** `Binary::build`: both operands pass through `to_node`, in place. */
  function BuildBinary(k: BinaryKind, l: Operand, r: Operand): (n: Node)
    ensures n.Binary? && n.binary == k
    ensures n.left == ToNode(l) && n.right == ToNode(r)
  {
    Binary(k, ToNode(l), ToNode(r))
  }

  /** `Unary::build`. */
  function BuildUnary(k: UnaryKind, x: Operand): (n: Node)
    ensures n.Unary? && n.unary == k && n.operand == ToNode(x)
  {
    Unary(k, ToNode(x))
  }

  /** `left()` and `right()` give back exactly what `build` was given, and
      every binary node is the `build` of its own operands. */
  lemma BinaryRoundTrip(k: BinaryKind, l: Operand, r: Operand, n: Node)
    ensures BuildBinary(k, l, r).left == ToNode(l)
    ensures BuildBinary(k, l, r).right == ToNode(r)
    ensures n.Binary? ==> BuildBinary(n.binary, NodeOperand(n.left), NodeOperand(n.right)) == n
  {
  }

  /** `operand()` gives back exactly what `build` was given, for every unary kind. */
  lemma UnaryRoundTrip(k: UnaryKind, x: Operand, n: Node)
    ensures BuildUnary(k, x).operand == ToNode(x)
    ensures n.Unary? ==> BuildUnary(n.unary, NodeOperand(n.operand)) == n
  {
  }

  datatype Direction = Asc | Desc

  /** `Ordering::direction`. */
  function DirectionOf(n: Node): (d: Direction)
    requires IsOrdering(n)
    ensures d == Asc <==> n.unary == Ascending
  {
    if n.unary == Ascending then Asc else Desc
  }

  /** `Ordering::reverse`: the other direction kind over the same operand. */
  function Reverse(n: Node): (r: Node)
    requires IsOrdering(n)
    ensures IsOrdering(r) && r.operand == n.operand
    ensures DirectionOf(r) != DirectionOf(n)
  {
    match n.unary
    case Descending => Unary(Ascending, n.operand)
    case Ascending => Unary(Descending, n.operand)
  }

  /** `is_ascending`, from the direction. */
  predicate IsAscending(n: Node)
    requires IsOrdering(n)
  {
    match DirectionOf(n)
    case Asc => true
    case Desc => false
  }

  /** `is_descending`, from the direction. */
  predicate IsDescending(n: Node)
    requires IsOrdering(n)
  {
    match DirectionOf(n)
    case Asc => false
    case Desc => true
  }

  /** Reversing twice restores the original kind and operand. */
  lemma ReverseInvolutive(n: Node)
    requires IsOrdering(n)
    ensures Reverse(Reverse(n)) == n
  {
  }

  /** The two direction tests are exact complements, agree with `direction()`,
      and both swap under `reverse`. */
  lemma DirectionTests(n: Node)
    requires IsOrdering(n)
    ensures IsAscending(n) <==> !IsDescending(n)
    ensures IsAscending(n) <==> n.unary == Ascending
    ensures IsDescending(n) <==> DirectionOf(n) == Desc
    ensures IsAscending(Reverse(n)) <==> IsDescending(n)
  {
  }

  /** `Function::named`. */
  function NamedFunction(name: string, exprs: seq<Node>): (f: Function)
    ensures f.kind == Named(name) && f.expressions == exprs
    ensures f.alias == None && !f.distinct
  {
    Function(Named(name), exprs, None, false)
  }

  /** `Function::builtin`. */
  function BuiltinFunction(kind: FunctionKind, exprs: seq<Node>): (f: Function)
    ensures f.kind == kind && f.expressions == exprs
    ensures f.alias == None && !f.distinct
  {
    Function(kind, exprs, None, false)
  }

  /** `Function::name`: the builtin keyword, or the given name. */
  function FunctionName(f: Function): (s: string)
    ensures f.kind == Sum ==> s == "SUM"
    ensures f.kind == Exists ==> s == "EXISTS"
    ensures f.kind == Max ==> s == "MAX"
    ensures f.kind == Min ==> s == "MIN"
    ensures f.kind == Avg ==> s == "AVG"
    ensures f.kind == Count ==> s == "COUNT"
    ensures f.kind.Named? ==> s == f.kind.name
  {
    match f.kind
    case Sum => "SUM"
    case Exists => "EXISTS"
    case Max => "MAX"
    case Min => "MIN"
    case Avg => "AVG"
    case Count => "COUNT"
    case Named(name) => name
  }

  /** The name is "EXISTS" exactly for the builtin `Exists` and for a named
      function called "EXISTS"; the builtin names are pairwise distinct. */
  lemma FunctionNameExists(f: Function, g: Function)
    ensures FunctionName(f) == "EXISTS" <==> (f.kind == Exists || f.kind == Named("EXISTS"))
    ensures !f.kind.Named? && !g.kind.Named? ==> (FunctionName(f) == FunctionName(g) <==> f.kind == g.kind)
  {
  }

  /** `distinct()`: sets the flag and nothing else. */
  function Distinct(f: Function): (r: Function)
    ensures r.distinct
    ensures r.kind == f.kind && r.expressions == f.expressions && r.alias == f.alias
  {
    f.(distinct := true)
  }

  /** `as_(alias)`: aliases the call to the unqualified column `alias` and
      changes nothing else. */
  function AliasFunction(f: Function, alias: string): (r: Function)
    ensures r.alias == Some(alias)
    ensures r.kind == f.kind && r.expressions == f.expressions && r.distinct == f.distinct
  {
    f.(alias := Some(alias))
  }

  /** `distinct()` is idempotent, the last `as_` wins, and the two commute. */
  lemma FunctionModifiers(f: Function, a: string, b: string)
    ensures Distinct(Distinct(f)) == Distinct(f)
    ensures AliasFunction(AliasFunction(f, a), b) == AliasFunction(f, b)
    ensures Distinct(AliasFunction(f, a)) == AliasFunction(Distinct(f), a)
  {
  }

  /** The shapes with a `ToProjections` implementation: a vector, a
      one-element array, a pair and a triple. */
  datatype ProjectionArg =
    | Vector(items: seq<Node>)
    | Single(item: Node)
    | Pair(first: Node, second: Node)
    | Triple(first: Node, second: Node, third: Node)

  /** The elements, which the `ToProjection` bound makes projection-eligible. */
  predicate ProjectionArgEligible(p: ProjectionArg) {
    match p
    case Vector(items) => forall i :: 0 <= i < |items| ==> IsProjection(items[i])
    case Single(a) => IsProjection(a)
    case Pair(a, b) => IsProjection(a) && IsProjection(b)
    case Triple(a, b, c) => IsProjection(a) && IsProjection(b) && IsProjection(c)
  }

  /** `to_projections`: the elements in order, none dropped or added. */
  function ToProjections(p: ProjectionArg): (r: seq<Node>)
    requires ProjectionArgEligible(p)
    ensures forall i :: 0 <= i < |r| ==> IsProjection(r[i])
    ensures p.Vector? ==> r == p.items
    ensures p.Single? ==> r == [p.item]
    ensures p.Pair? ==> |r| == 2 && r[0] == p.first && r[1] == p.second
    ensures p.Triple? ==> |r| == 3 && r[0] == p.first && r[1] == p.second && r[2] == p.third
  {
    match p
    case Vector(items) => items
    case Single(a) => [a]
    case Pair(a, b) => [a, b]
    case Triple(a, b, c) => [a, b, c]
  }
}
