/** Literals, bind values and the conversions that turn Rust values into
    nodes (`ToBind`, `ToNode`, `Bind::from`). */
module SqlLiteral {
  import opened Nodes

  /** The Rust values with a `ToBind` implementation. `OwnedString` is
      `String`, `StrSlice` is `&str`; a float carries its display text. */
  datatype Primitive =
    | UintValue(u: Uint)
    | IntValue(i: Int)
    | F32Value(f32: string)
    | F64Value(f64: string)
    | BoolValue(b: bool)
    | OwnedString(s: string)
    | StrSlice(s: string)

  /** Anything with a `ToNode` implementation: a node, or a primitive value. */
  datatype Operand = NodeOperand(node: Node) | PrimitiveOperand(value: Primitive)

  /** `Literal::new`: trusted text stored as given. */
  function NewLiteral(text: string): (n: Node)
    ensures n.Literal? && n.value == text
  {
    Literal(text)
  }

  /** `to_bind`: a `Bind` node whose value has the primitive's kind and payload. */
  function ToBind(p: Primitive): (n: Node)
    ensures n.Bind?
    ensures p.UintValue? <==> n.bind.UintKind?
    ensures p.IntValue? <==> n.bind.IntKind?
    ensures p.BoolValue? <==> n.bind.BoolKind?
    ensures p.F32Value? <==> n.bind.F32Kind?
    ensures p.F64Value? <==> n.bind.F64Kind?
    ensures (p.OwnedString? || p.StrSlice?) <==> n.bind.StringKind?
    ensures p.UintValue? ==> n.bind.u == p.u
    ensures p.IntValue? ==> n.bind.i == p.i
    ensures p.BoolValue? ==> n.bind.b == p.b
    ensures p.F32Value? ==> n.bind.f32 == p.f32
    ensures p.F64Value? ==> n.bind.f64 == p.f64
    ensures (p.OwnedString? || p.StrSlice?) ==> n.bind.s == p.s
  {
    match p
    case UintValue(u) => Bind(UintKind(u))
    case IntValue(i) => Bind(IntKind(i))
    case F32Value(f) => Bind(F32Kind(f))
    case F64Value(f) => Bind(F64Kind(f))
    case BoolValue(b) => Bind(BoolKind(b))
    case OwnedString(s) => Bind(StringKind(s))
    case StrSlice(s) => Bind(StringKind(s))
  }

  /** `Bind::from`. */
  function BindFrom(p: Primitive): (n: Node)
    ensures n.Bind? && n == ToBind(p)
  {
    ToBind(p)
  }

  /** `to_node`: a node converts to itself, a primitive to its `Bind` node. */
  function ToNode(o: Operand): (n: Node)
    ensures o.NodeOperand? ==> n == o.node
    ensures o.PrimitiveOperand? ==> n == ToBind(o.value)
  {
    match o
    case NodeOperand(node) => node
    case PrimitiveOperand(p) => ToBind(p)
  }

  /** Two primitives denote the same value when they differ at most in being
      an owned or a borrowed string. */
  predicate SameValue(p: Primitive, q: Primitive) {
    if (p.OwnedString? || p.StrSlice?) && (q.OwnedString? || q.StrSlice?) then p.s == q.s
    else p == q
  }

  /** Converting to a bind loses nothing but the owned/borrowed distinction. */
  lemma ToBindInjective(p: Primitive, q: Primitive)
    ensures ToBind(p) == ToBind(q) <==> SameValue(p, q)
  {
  }

  /** A primitive passed where a node is expected is stored as `Bind::from` it. */
  lemma PrimitiveToNodeIsBind(p: Primitive)
    ensures ToNode(PrimitiveOperand(p)) == BindFrom(p)
    ensures IsOrderable(ToNode(PrimitiveOperand(p))) && IsProjection(ToNode(PrimitiveOperand(p)))
  {
  }

  /** `Literal` is projection-eligible; `Bind` is orderable and projection-eligible. */
  lemma LiteralAndBindMarkers(text: string, v: BindValue)
    ensures IsProjection(NewLiteral(text)) && !IsOrderable(NewLiteral(text))
    ensures IsProjection(Bind(v)) && IsOrderable(Bind(v))
  {
  }
}
