/** The select and select! steps (select.go), and the column-list shape they
    share with sort: a single column name, or a list of names. */
module Selection {
  import opened Wrappers
  import opened Errors
  import opened Yaml

  datatype Select = Select(column: string, columns: seq<string>)
  datatype SelectNot = SelectNot(column: string, columns: seq<string>)

  /** The shape decode the three `UnmarshalYAML`s share, up to the error they
      return for a node of the wrong shape: a string sets the single column, a
      sequence of strings the list. */
  function DecodeColumns(n: Node, shapeError: DecodeError): (r: Result<(string, seq<string>), DecodeError>)
    ensures n.Str? ==> r == Ok((n.s, []))
    ensures n.Seq? ==> (r.Ok? <==> forall i :: 0 <= i < |n.items| ==> n.items[i].Str?)
    ensures n.Seq? && r.Ok? ==> (r.value.0 == "" && |r.value.1| == |n.items|
      && forall i :: 0 <= i < |n.items| ==> n.items[i] == Str(r.value.1[i]))
    ensures n.Seq? && r.Err? ==> r.error == NonStringColumn
    ensures !n.Str? && !n.Seq? ==> r == Err(shapeError)
    ensures r.Ok? ==> r.value.0 == "" || r.value.1 == []
  {
    match n
    case Str(s) => Ok((s, []))
    case Seq(items) =>
      if forall i :: 0 <= i < |items| ==> items[i].Str? then
        Ok(("", seq(|items|, i requires 0 <= i < |items| => items[i].s)))
      else
        Err(NonStringColumn)
    case _ => Err(shapeError)
  }

  /** The shared decode as the source runs it: the list is allocated at the
      length of the sequence and filled element by element; a non-string
      element stops it (the source panics there). */
  method UnmarshalColumns(n: Node, shapeError: DecodeError) returns (r: Result<(string, seq<string>), DecodeError>)
    ensures r == DecodeColumns(n, shapeError)
  {
    match n {
      case Str(s) =>
        r := Ok((s, []));
      case Seq(items) =>
        var columns := new string[|items|];
        var i := 0;
        while i < |items|
          invariant 0 <= i <= |items|
          invariant forall j :: 0 <= j < i ==> items[j] == Str(columns[j])
        {
          if !items[i].Str? {
            return Err(NonStringColumn);
          }
          columns[i] := items[i].s;
          i := i + 1;
        }
        assert columns[..] == seq(|items|, j requires 0 <= j < |items| => items[j].s);
        r := Ok(("", columns[..]));
      case _ =>
        r := Err(shapeError);
    }
  }

  /** Select.UnmarshalYAML */
  function DecodeSelect(n: Node): (r: Result<Select, DecodeError>)
    ensures r.Ok? <==> DecodeColumns(n, InvalidSelect).Ok?
    ensures r.Ok? ==> (r.value.column, r.value.columns) == DecodeColumns(n, InvalidSelect).value
    ensures r.Err? ==> r.error == DecodeColumns(n, InvalidSelect).error
  {
    var (column, columns) :- DecodeColumns(n, InvalidSelect);
    Ok(Select(column, columns))
  }

  /** SelectNot.UnmarshalYAML */
  function DecodeSelectNot(n: Node): (r: Result<SelectNot, DecodeError>)
    ensures r.Ok? <==> DecodeColumns(n, InvalidSelectNot).Ok?
    ensures r.Ok? ==> (r.value.column, r.value.columns) == DecodeColumns(n, InvalidSelectNot).value
    ensures r.Err? ==> r.error == DecodeColumns(n, InvalidSelectNot).error
  {
    var (column, columns) :- DecodeColumns(n, InvalidSelectNot);
    Ok(SelectNot(column, columns))
  }

  /** Select.Validate checks nothing. */
  function ValidateSelect(s: Select): (r: Outcome<ValidationError>)
    ensures r.Pass?
  {
    Pass
  }

  /** SelectNot.Validate checks nothing. */
  function ValidateSelectNot(s: SelectNot): (r: Outcome<ValidationError>)
    ensures r.Pass?
  {
    Pass
  }

  /** The two decoders accept the same nodes, produce the same columns, and
      differ only in the error for a node of the wrong shape. */
  lemma SelectDecodersAgree(n: Node)
    ensures DecodeSelect(n).Ok? <==> DecodeSelectNot(n).Ok?
    ensures DecodeSelect(n).Ok? ==>
      DecodeSelect(n).value.column == DecodeSelectNot(n).value.column
      && DecodeSelect(n).value.columns == DecodeSelectNot(n).value.columns
    ensures DecodeSelect(n).Err? ==>
      (DecodeSelect(n).error == InvalidSelect <==> DecodeSelectNot(n).error == InvalidSelectNot)
    ensures DecodeSelect(n).Err? && DecodeSelect(n).error != InvalidSelect ==>
      DecodeSelectNot(n).error == DecodeSelect(n).error
  {
  }
}
