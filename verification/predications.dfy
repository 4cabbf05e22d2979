/** The predication helpers: comparison nodes with the receiver on the left,
    and ordering nodes over orderable receivers. */
module Predications {
  import opened Nodes
  import opened SqlLiteral
  import opened NodeOps

  /** `eql`. */
  function Eql(receiver: Operand, other: Operand): (n: Node)
    ensures n.Binary? && n.binary == Equality
    ensures n.left == ToNode(receiver) && n.right == ToNode(other)
  {
    BuildBinary(Equality, receiver, other)
  }

  /** `matches`. */
  function Matches(receiver: Operand, other: Operand): (n: Node)
    ensures n.Binary? && n.binary == Nodes.Matches
    ensures n.left == ToNode(receiver) && n.right == ToNode(other)
  {
    BuildBinary(Nodes.Matches, receiver, other)
  }

  /** `does_not_match`. */
  function DoesNotMatch(receiver: Operand, other: Operand): (n: Node)
    ensures n.Binary? && n.binary == Nodes.DoesNotMatch
    ensures n.left == ToNode(receiver) && n.right == ToNode(other)
  {
    BuildBinary(Nodes.DoesNotMatch, receiver, other)
  }

  /** `gt`. */
  function Gt(receiver: Operand, other: Operand): (n: Node)
    ensures n.Binary? && n.binary == GreaterThan
    ensures n.left == ToNode(receiver) && n.right == ToNode(other)
  {
    BuildBinary(GreaterThan, receiver, other)
  }

  /** `lt`. */
  function Lt(receiver: Operand, other: Operand): (n: Node)
    ensures n.Binary? && n.binary == LessThan
    ensures n.left == ToNode(receiver) && n.right == ToNode(other)
  {
    BuildBinary(LessThan, receiver, other)
  }

  /** `gte`. */
  function Gte(receiver: Operand, other: Operand): (n: Node)
    ensures n.Binary? && n.binary == GreaterThanOrEqual
    ensures n.left == ToNode(receiver) && n.right == ToNode(other)
  {
    BuildBinary(GreaterThanOrEqual, receiver, other)
  }

  /** `lte`. */
  function Lte(receiver: Operand, other: Operand): (n: Node)
    ensures n.Binary? && n.binary == LessThanOrEqual
    ensures n.left == ToNode(receiver) && n.right == ToNode(other)
  {
    BuildBinary(LessThanOrEqual, receiver, other)
  }

  /** `asc`, offered only on orderable values. */
  function Asc(receiver: Node): (n: Node)
    requires IsOrderable(receiver)
    ensures IsOrdering(n) && IsAscending(n) && n.operand == receiver
  {
    BuildUnary(Ascending, NodeOperand(receiver))
  }

  /** `desc`, offered only on orderable values. */
  function Desc(receiver: Node): (n: Node)
    requires IsOrderable(receiver)
    ensures IsOrdering(n) && IsDescending(n) && n.operand == receiver
  {
    BuildUnary(Descending, NodeOperand(receiver))
  }

  /** `asc` and `desc` of the same value are each other's reverse. */
  lemma AscDescReverse(x: Node)
    requires IsOrderable(x)
    ensures Reverse(Asc(x)) == Desc(x) && Reverse(Desc(x)) == Asc(x)
  {
  }

  /** The comparison helpers differ only in the node kind they build: each
      puts the converted receiver left and the converted argument right. */
  lemma ComparisonsShareShape(a: Operand, b: Operand)
    ensures Eql(a, b) == Binary(Equality, ToNode(a), ToNode(b))
    ensures Gt(a, b) == Eql(a, b).(binary := GreaterThan)
    ensures Lt(a, b) == Eql(a, b).(binary := LessThan)
    ensures Gte(a, b) == Eql(a, b).(binary := GreaterThanOrEqual)
    ensures Lte(a, b) == Eql(a, b).(binary := LessThanOrEqual)
    ensures Matches(a, b) == Eql(a, b).(binary := Nodes.Matches)
    ensures DoesNotMatch(a, b) == Eql(a, b).(binary := Nodes.DoesNotMatch)
  {
  }
}
