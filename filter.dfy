/** The filter step (filter.go): an expression held in an embedded Expression. */
module Filtering {
  import opened Wrappers
  import opened Errors
  import opened Yaml
  import opened Expressions

  datatype Filter = Filter(expression: Expression)

  /** The embedded Expression's decoder is promoted to Filter, so a filter body
      is decoded exactly as an expression. */
  function DecodeFilter(n: Node): (f: Filter)
    ensures f.expression == DecodeExpression(n)
  {
    Filter(DecodeExpression(n))
  }

  /** Filter.Validate delegates to the expression's type check. */
  function ValidateFilter(f: Filter): (r: Outcome<ValidationError>)
    ensures r == ValidateExpression(f.expression)
    ensures r.Pass? <==> (f.expression.value.Text? || f.expression.value.Mapping? || f.expression.value.List?)
  {
    ValidateExpression(f.expression)
  }

  /** A filter whose expression is a string, a mapping or a sequence is valid;
      one whose expression is an integer, a boolean, null or another scalar is not. */
  lemma FilterValidity(n: Node)
    ensures ValidateFilter(DecodeFilter(n)).Pass? <==> (n.Str? || n.Map? || n.Seq?)
  {
    DecodeThenValidate(n);
  }
}
