/** The SQL collector: an append-only string and the encoding of bind values. */
module Collector {
  import opened Nodes
  import opened Decimal

  datatype SqlCollector = SqlCollector(value: string)

  /** `SqlCollector::new`: nothing collected yet. */
  function New(): (c: SqlCollector)
    ensures |c.value| == 0
  {
    SqlCollector("")
  }

  /** `push`. */
  function Push(c: SqlCollector, text: string): SqlCollector {
    SqlCollector(c.value + text)
  }

  /** `push` keeps the earlier text as a prefix and puts `text` after it. */
  lemma PushAppends(c: SqlCollector, text: string)
    ensures |Push(c, text).value| == |c.value| + |text|
    ensures Push(c, text).value[..|c.value|] == c.value
    ensures Push(c, text).value[|c.value|..] == text
  {
  }

  /** The text `add_bind` writes for a value: integers as unquoted decimal,
      booleans as 't' or 'f' in single quotes, strings between single quotes
      with no escaping, floats as their display text. */
  function BindText(v: BindValue): (s: string)
    ensures v.UintKind? ==> |s| >= 1 && AllDigits(s) && DigitsValue(s) == v.u && (s[0] == '0' ==> s == "0")
    ensures v.IntKind? && v.i >= 0 ==> |s| >= 1 && AllDigits(s) && DigitsValue(s) == v.i && (s[0] == '0' ==> s == "0")
    ensures v.IntKind? && v.i < 0 ==> |s| >= 2 && s[0] == '-' && AllDigits(s[1..]) && DigitsValue(s[1..]) + v.i == 0
    ensures v.IntKind? && v.i < 0 ==> s[1] != '0'
    ensures v.BoolKind? ==> s == ['\'', if v.b then 't' else 'f', '\'']
    ensures v.StringKind? ==> |s| == |v.s| + 2 && s[0] == '\'' && s[|s| - 1] == '\'' && s[1..|s| - 1] == v.s
    ensures v.F32Kind? ==> s == v.f32
    ensures v.F64Kind? ==> s == v.f64
  {
    match v
    case UintKind(u) => NatTextRoundTrip(u); NatText(u)
    case IntKind(i) => IntText(i)
    case F32Kind(f) => f
    case F64Kind(f) => f
    case BoolKind(b) => if b then "'t'" else "'f'"
    case StringKind(s) => "'" + s + "'"
  }

  /** `add_bind`: pushes the value's encoding at the end. */
  function AddBind(c: SqlCollector, v: BindValue): (r: SqlCollector)
    ensures |r.value| == |c.value| + |BindText(v)|
    ensures r.value[..|c.value|] == c.value && r.value[|c.value|..] == BindText(v)
  {
    Push(c, BindText(v))
  }
}
