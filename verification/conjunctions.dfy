/** The conjunction helpers: AND and OR of a node and any convertible value. */
module Conjunctions {
  import opened Nodes
  import opened SqlLiteral

  /** `and`: the receiver on the left, the converted argument on the right. */
  function And(receiver: Node, other: Operand): (n: Node)
    ensures n.Binary? && n.binary == Nodes.And
    ensures n.left == ToNode(NodeOperand(receiver)) && n.right == ToNode(other)
  {
    Binary(Nodes.And, ToNode(NodeOperand(receiver)), ToNode(other))
  }

  /** `or`: the receiver on the left, the converted argument on the right. */
  function Or(receiver: Node, other: Operand): (n: Node)
    ensures n.Binary? && n.binary == Nodes.Or
    ensures n.left == ToNode(NodeOperand(receiver)) && n.right == ToNode(other)
  {
    Binary(Nodes.Or, ToNode(NodeOperand(receiver)), ToNode(other))
  }

  /** `and` and `or` place their operands identically and differ only in
      kind; a primitive argument is stored as its `Bind` node. */
  lemma AndOrSameShape(a: Node, b: Operand)
    ensures And(a, b).left == Or(a, b).left == a
    ensures And(a, b).right == Or(a, b).right
    ensures And(a, b).binary != Or(a, b).binary
    ensures b.PrimitiveOperand? ==> And(a, b).right == BindFrom(b.value)
  {
  }
}
