/** The sort step (sort.go): the column-list shape of select. */
module Sorting {
  import opened Wrappers
  import opened Errors
  import opened Yaml
  import opened Selection

  datatype Sort = Sort(column: string, columns: seq<string>)

  /** Sort.UnmarshalYAML */
  function DecodeSort(n: Node): (r: Result<Sort, DecodeError>)
    ensures n.Str? ==> r == Ok(Sort(n.s, []))
    ensures n.Seq? ==> (r.Ok? <==> forall i :: 0 <= i < |n.items| ==> n.items[i].Str?)
    ensures n.Seq? && r.Err? ==> r.error == NonStringColumn
    ensures n.Seq? && r.Ok? ==> (r.value.column == "" && |r.value.columns| == |n.items|
      && forall i :: 0 <= i < |n.items| ==> n.items[i] == Str(r.value.columns[i]))
    ensures !n.Str? && !n.Seq? ==> r == Err(InvalidSort)
  {
    var (column, columns) :- DecodeColumns(n, InvalidSort);
    Ok(Sort(column, columns))
  }

  /** Sort.Validate checks nothing. */
  function ValidateSort(s: Sort): (r: Outcome<ValidationError>)
    ensures r.Pass?
  {
    Pass
  }
}
