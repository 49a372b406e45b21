/** The take step (take.go): a row count or a range string. */
module Taking {
  import opened Wrappers
  import opened Errors
  import opened Yaml

  datatype Take = Take(number: int, range: string)

  /** Take.UnmarshalYAML: a type switch on the decoded value. Only a Go `int`
      sets the count, so an integer that overflows 64 bits, like a boolean, a
      mapping, a sequence or any other scalar, is rejected. */
  function DecodeTake(n: Node): (r: Result<Take, DecodeError>)
    ensures r.Ok? <==> n.Str? || (n.Int? && InInt64(n.i))
    ensures n.Int? && r.Ok? ==> r.value == Take(n.i, "")
    ensures n.Str? ==> r.value == Take(0, n.s)
    ensures r.Err? ==> r.error == InvalidTake
  {
    match n
    case Int(i) => if InInt64(i) then Ok(Take(i, "")) else Err(InvalidTake)
    case Str(s) => Ok(Take(0, s))
    case _ => Err(InvalidTake)
  }

  /** Take.Validate checks nothing. */
  function ValidateTake(t: Take): (r: Outcome<ValidationError>)
    ensures r.Pass?
  {
    Pass
  }
}
