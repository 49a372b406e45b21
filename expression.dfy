/** Expressions (expression.go): the untyped value carried by filters, generate
    and summarize entries, join conditions and function bodies. */
module Expressions {
  import opened Wrappers
  import opened Errors
  import opened Yaml

  /** What the library stores in the expression's `interface{}` field. The
      elements of a mapping or a list are kept as the nodes they come from. */
  datatype Value =
    | Nil
    | Text(s: string)
    | Integer(i: int)
    | Boolean(b: bool)
    | OtherScalarValue(text: string)
    | Mapping(fields: map<string, Node>)
    | List(items: seq<Node>)

  datatype Expression = Expression(value: Value)

  /** The zero value: an expression whose value is nil. */
  const NoExpression := Expression(Nil)

  /** Expression.UnmarshalYAML: a scalar becomes the scalar's typed value, a
      mapping a string-keyed map, a sequence a list. Every node is one of the
      three kinds, so this decoder never fails. */
  function DecodeExpression(n: Node): (e: Expression)
    ensures IsScalar(n) <==> !(e.value.Mapping? || e.value.List?)
    ensures n.Null? <==> e.value.Nil?
    ensures n.Str? <==> e.value.Text?
    ensures n.Str? ==> e.value.s == n.s
    ensures n.Map? ==> (e.value.Mapping? && e.value.fields.Keys == KeysOf(n.entries)
                        && forall k :: k in e.value.fields ==> Lookup(n.entries, k) == Some(e.value.fields[k]))
    ensures n.Seq? ==> e.value == List(n.items)
  {
    match n
    case Null => NoExpression
    case Str(s) => Expression(Text(s))
    case Int(i) => Expression(Integer(i))
    case Bool(b) => Expression(Boolean(b))
    case OtherScalar(text) => Expression(OtherScalarValue(text))
    case Map(entries) => Expression(Mapping(ToMap(entries)))
    case Seq(items) => Expression(List(items))
  }

  /** Expression.Validate: a type check that accepts a string, a map or a list
      and rejects every other value, null, integers and booleans included. */
  function ValidateExpression(e: Expression): (r: Outcome<ValidationError>)
    ensures r.Pass? <==> (e.value.Text? || e.value.Mapping? || e.value.List?)
    ensures r.Fail? ==> r.error == UnsupportedExpressionType
  {
    match e.value
    case Text(_) => Pass
    case Mapping(_) => Pass
    case List(_) => Pass
    case _ => Fail(UnsupportedExpressionType)
  }

  /** The node an expression can be decoded from: what the library writes out
      for its value. */
  ghost function SourceNode(e: Expression): Node {
    match e.value
    case Nil => Null
    case Text(s) => Str(s)
    case Integer(i) => Int(i)
    case Boolean(b) => Bool(b)
    case OtherScalarValue(text) => OtherScalar(text)
    case Mapping(fields) => Map(EntriesOf(fields))
    case List(items) => Seq(items)
  }

  /** Decoding is the inverse of writing the value out: every expression is
      the decoding of its source node. */
  lemma DecodeSourceNode(e: Expression)
    ensures DecodeExpression(SourceNode(e)) == e
  {
  }

  /** Decode then validate: exactly the string, mapping and sequence nodes
      give a valid expression. */
  lemma DecodeThenValidate(n: Node)
    ensures ValidateExpression(DecodeExpression(n)).Pass? <==> (n.Str? || n.Map? || n.Seq?)
  {
  }

  /** A mapping node placed in a Go `map[string]Expression`, each value decoded
      as an expression (a null node leaves the map nil, here empty). */
  function DecodeExpressionMap(n: Node): (r: Result<map<string, Expression>, DecodeError>)
    ensures r.Ok? <==> n.Null? || n.Map?
    ensures n.Null? ==> r == Ok(map[])
    ensures n.Map? ==> (r.value.Keys == KeysOf(n.entries)
      && forall k :: k in r.value ==> r.value[k] == DecodeExpression(ToMap(n.entries)[k]))
    ensures r.Err? ==> r.error == TypeMismatch
  {
    match n
    case Null => Ok(map[])
    case Map(entries) =>
      var raw := ToMap(entries);
      Ok(map k | k in raw :: DecodeExpression(raw[k]))
    case _ => Err(TypeMismatch)
  }
}
