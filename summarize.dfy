/** The summarize step (summarize.go): named aggregation expressions. */
module Summarization {
  import opened Wrappers
  import opened Errors
  import opened Yaml
  import opened Expressions

  datatype Summarize = Summarize(aggregations: map<string, Expression>)

  /** What Summarize.UnmarshalYAML produces: one aggregation per key of the
      mapping, each value decoded as an expression. */
  function DecodeSummarize(n: Node): (r: Result<Summarize, DecodeError>)
    ensures r.Ok? <==> n.Null? || n.Map?
    ensures n.Map? ==> (r.value.aggregations.Keys == KeysOf(n.entries)
      && forall k :: k in r.value.aggregations ==> r.value.aggregations[k] == DecodeExpression(ToMap(n.entries)[k]))
    ensures r.Err? ==> r.error == TypeMismatch
  {
    var aggs :- DecodeExpressionMap(n);
    Ok(Summarize(aggs))
  }

  /** Summarize.UnmarshalYAML: decodes the mapping into a raw map, then builds
      the aggregations entry by entry, in Go's map order. */
  method UnmarshalSummarize(n: Node) returns (r: Result<Summarize, DecodeError>)
    ensures r == DecodeSummarize(n)
  {
    var raw: map<string, Node>;
    match n {
      case Null => raw := map[];
      case Map(entries) => raw := ToMap(entries);
      case _ => return Err(TypeMismatch);
    }
    var aggregations: map<string, Expression> := map[];
    var todo := raw.Keys;
    while todo != {}
      invariant todo <= raw.Keys
      invariant aggregations.Keys == raw.Keys - todo
      invariant forall k :: k in aggregations ==> aggregations[k] == DecodeExpression(raw[k])
      decreases todo
    {
      var key :| key in todo;
      aggregations := aggregations[key := DecodeExpression(raw[key])];
      todo := todo - {key};
    }
    assert aggregations == map k | k in raw :: DecodeExpression(raw[k]);
    r := Ok(Summarize(aggregations));
  }

  /** Summarize.Validate: at least one aggregation; the entries themselves are
      not checked. */
  function ValidateSummarize(s: Summarize): (r: Outcome<ValidationError>)
    ensures r.Pass? <==> |s.aggregations| > 0
    ensures r.Fail? ==> r.error == EmptySummarize
  {
    if |s.aggregations| == 0 then Fail(EmptySummarize) else Pass
  }

  /** A summarize with an aggregation that is not a valid expression still
      validates. */
  lemma EntriesAreNotChecked()
    ensures var s := Summarize(map["total" := NoExpression]);
      ValidateExpression(s.aggregations["total"]).Fail? && ValidateSummarize(s).Pass?
  {
  }
}
