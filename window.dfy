/** The window step (window.go). */
module Windowing {
  import opened Wrappers
  import opened Errors
  import opened Yaml

  datatype Window = Window(rows: string, range: string, expanding: bool, rolling: int)

  /** Window.UnmarshalYAML: the record's fields from the keys of the same name;
      an absent key leaves its field at "", "", false or 0. */
  function DecodeWindow(n: Node): (r: Result<Window, DecodeError>)
    ensures r.Ok? <==> (n.Null? ||
      (n.Map? && IsScalar(Field(n.entries, "rows")) && IsScalar(Field(n.entries, "range"))
       && DecodeBool(Field(n.entries, "expanding")).Ok? && DecodeInt(Field(n.entries, "rolling")).Ok?))
    ensures r.Ok? && n.Map? ==>
      && r.value.rows == DecodeString(Field(n.entries, "rows")).value
      && r.value.range == DecodeString(Field(n.entries, "range")).value
      && r.value.expanding == DecodeBool(Field(n.entries, "expanding")).value
      && r.value.rolling == DecodeInt(Field(n.entries, "rolling")).value
    ensures r.Ok? && n.Map? ==>
      && ("rows" !in KeysOf(n.entries) ==> r.value.rows == "")
      && ("range" !in KeysOf(n.entries) ==> r.value.range == "")
      && ("expanding" !in KeysOf(n.entries) ==> !r.value.expanding)
      && ("rolling" !in KeysOf(n.entries) ==> r.value.rolling == 0)
    ensures r.Err? ==> r.error == TypeMismatch
  {
    match n
    case Null => Ok(Window("", "", false, 0))
    case Map(entries) =>
      var rows :- DecodeString(Field(entries, "rows"));
      var range :- DecodeString(Field(entries, "range"));
      var expanding :- DecodeBool(Field(entries, "expanding"));
      var rolling :- DecodeInt(Field(entries, "rolling"));
      Ok(Window(rows, range, expanding, rolling))
    case _ => Err(TypeMismatch)
  }

  /** `expanding: yes` and `expanding: off` are read as booleans. */
  lemma ExpandingWords()
    ensures DecodeWindow(Map([("expanding", Str("yes"))])) == Ok(Window("", "", true, 0))
    ensures DecodeWindow(Map([("expanding", Str("off")), ("rolling", Int(3))])) == Ok(Window("", "", false, 3))
    ensures DecodeWindow(Map([("expanding", Str("maybe"))])) == Err(TypeMismatch)
  {
    assert [("expanding", Str("off")), ("rolling", Int(3))][1..] == [("rolling", Int(3))];
  }

  /** Window.Validate checks nothing: no constraint between rows and range. */
  function ValidateWindow(w: Window): (r: Outcome<ValidationError>)
    ensures r.Pass?
  {
    Pass
  }
}
