/** The generate step (generate.go): named expressions that add columns. */
module Generation {
  import opened Wrappers
  import opened Errors
  import opened Yaml
  import opened Expressions

  datatype Generate = Generate(expressions: map<string, Expression>)

  /** Generate.UnmarshalYAML: the mapping of names to expressions, as is. */
  function DecodeGenerate(n: Node): (r: Result<Generate, DecodeError>)
    ensures r.Ok? <==> n.Null? || n.Map?
    ensures n.Map? ==> (r.value.expressions.Keys == KeysOf(n.entries)
      && forall k :: k in r.value.expressions ==> r.value.expressions[k] == DecodeExpression(ToMap(n.entries)[k]))
    ensures r.Err? ==> r.error == TypeMismatch
  {
    var exprs :- DecodeExpressionMap(n);
    Ok(Generate(exprs))
  }

  /** The check of one entry, its error naming the entry. */
  function CheckEntry(name: string, e: Expression): (r: Outcome<ValidationError>)
    ensures r.Pass? <==> ValidateExpression(e).Pass?
    ensures r.Fail? ==> r.error == InvalidExpressionFor(name, ValidateExpression(e).error)
  {
    match ValidateExpression(e)
    case Pass => Pass
    case Fail(err) => Fail(InvalidExpressionFor(name, err))
  }

  /** Generate.Validate: at least one entry, and every entry's expression valid.
      Entries are visited in Go's map order, so which failing entry is reported
      is left open. */
  ghost function ValidateGenerate(g: Generate): (r: Outcome<ValidationError>)
    ensures |g.expressions| == 0 ==> r == Fail(EmptyGenerate)
    ensures |g.expressions| > 0 ==>
      (r.Pass? <==> forall k :: k in g.expressions ==> ValidateExpression(g.expressions[k]).Pass?)
    ensures |g.expressions| > 0 && r.Fail? ==>
      exists k :: k in g.expressions && ValidateExpression(g.expressions[k]).Fail?
        && r.error == InvalidExpressionFor(k, ValidateExpression(g.expressions[k]).error)
  {
    if |g.expressions| == 0 then Fail(EmptyGenerate)
    else
      var checks := map k | k in g.expressions :: CheckEntry(k, g.expressions[k]);
      var r := SomeFailure(checks);
      assert forall k :: k in checks ==> (checks[k].Pass? <==> ValidateExpression(g.expressions[k]).Pass?);
      assert r.Fail? ==> exists k :: k in checks && checks[k] == r && r == CheckEntry(k, g.expressions[k]);
      r
  }
}
