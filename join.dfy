/** The join step (join.go). */
module Joining {
  import opened Wrappers
  import opened Errors
  import opened Yaml
  import opened Expressions
  import opened Datasets

  /** The named join kinds. The retain field is a free string: nothing checks
      it against these. */
  const Inner: string := "inner"
  const Left: string := "left"
  const Right: string := "right"
  const Full: string := "full"

  datatype Join = Join(dataset: Dataset, where: Expression, retain: string)

  /** Join.UnmarshalYAML: the record's three fields, then an empty `retain`
      defaults to inner. */
  function DecodeJoin(n: Node): (r: Result<Join, DecodeError>)
    ensures r.Ok? <==> (n.Null? ||
      (n.Map? && DecodeDataset(Field(n.entries, "dataset")).Ok? && IsScalar(Field(n.entries, "retain"))))
    ensures r.Ok? ==> r.value.retain != ""
    ensures r.Ok? && n.Map? ==>
      && r.value.dataset == DecodeDataset(Field(n.entries, "dataset")).value
      && r.value.where == DecodeExpression(Field(n.entries, "where"))
      && var given := DecodeString(Field(n.entries, "retain")).value;
         r.value.retain == if given == "" then Inner else given
    ensures r.Err? ==> r.error == TypeMismatch
  {
    match n
    case Null => Ok(Join(ZeroDataset, NoExpression, Inner))
    case Map(entries) =>
      var dataset :- DecodeDataset(Field(entries, "dataset"));
      var retain :- DecodeString(Field(entries, "retain"));
      Ok(Join(dataset, DecodeExpression(Field(entries, "where")), if retain == "" then Inner else retain))
    case _ => Err(TypeMismatch)
  }

  /** Join.Validate checks nothing. */
  function ValidateJoin(j: Join): (r: Outcome<ValidationError>)
    ensures r.Pass?
  {
    Pass
  }

  /** An absent `retain` decodes to inner; a present one is kept as given, even
      when it names no join kind. */
  lemma RetainDefault(dataset: Node, where: Node, retain: string)
    requires DecodeDataset(dataset).Ok?
    ensures DecodeJoin(Map([("dataset", dataset), ("where", where)])).Ok?
    ensures DecodeJoin(Map([("dataset", dataset), ("where", where)])).value.retain == Inner
    ensures retain != "" ==>
      DecodeJoin(Map([("dataset", dataset), ("where", where), ("retain", Str(retain))])).value.retain == retain
  {
    var e := [("dataset", dataset), ("where", where), ("retain", Str(retain))];
    assert e[2] == ("retain", Str(retain));
    assert "retain" in KeysOf(e);
    assert Field(e, "retain") == Str(retain);
    var e2 := [("dataset", dataset), ("where", where)];
    assert e2[1..][1..] == [];
    assert Field(e2, "retain") == Null;
  }
}
