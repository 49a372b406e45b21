/** Datasets (dataset.go): a bare name, or a `{name, format}` descriptor. */
module Datasets {
  import opened Wrappers
  import opened Errors
  import opened Yaml

  /** The named data formats. The format field is a free string: nothing checks
      it against these. */
  const Table: string := "table"
  const Csv: string := "csv"
  const Json: string := "json"
  const Parquet: string := "parquet"

  datatype DatasetComplex = DatasetComplex(name: string, format: string)

  /** `complex` is Go's `*DatasetComplex`: None is the nil pointer. */
  datatype Dataset = Dataset(simple: string, complex: Option<DatasetComplex>)

  /** The zero value, which the required-dataset check compares against. */
  const ZeroDataset := Dataset("", None)

  /** The `{name, format}` struct as the library fills it from a mapping. */
  function DecodeComplex(n: Node): (r: Result<DatasetComplex, DecodeError>)
    ensures r.Ok? <==> n.Null? || (n.Map? && IsScalar(Field(n.entries, "name")) && IsScalar(Field(n.entries, "format")))
    ensures r.Ok? && n.Map? ==> r.value == DatasetComplex(DecodeString(Field(n.entries, "name")).value,
                                                          DecodeString(Field(n.entries, "format")).value)
    ensures r.Err? ==> r.error == TypeMismatch
  {
    match n
    case Null => Ok(DatasetComplex("", ""))
    case Map(entries) =>
      var name :- DecodeString(Field(entries, "name"));
      var format :- DecodeString(Field(entries, "format"));
      Ok(DatasetComplex(name, format))
    case _ => Err(TypeMismatch)
  }

  /** Dataset.UnmarshalYAML: first as a string, then as a descriptor; when both
      fail, the descriptor's error is returned. */
  function DecodeDataset(n: Node): (r: Result<Dataset, DecodeError>)
    ensures IsScalar(n) ==> r.Ok? && r.value == Dataset(DecodeString(n).value, None)
    ensures !IsScalar(n) ==> (r.Ok? <==> DecodeComplex(n).Ok?)
    ensures !IsScalar(n) && r.Ok? ==> r.value == Dataset("", Some(DecodeComplex(n).value))
    ensures !IsScalar(n) && r.Err? ==> r == Err(DecodeComplex(n).error)
  {
    match DecodeString(n)
    case Ok(s) => Ok(Dataset(s, None))
    case Err(_) =>
      var c :- DecodeComplex(n);
      Ok(Dataset("", Some(c)))
  }

  /** The descriptor written out; empty fields are omitted. */
  function ComplexEntries(c: DatasetComplex): seq<(string, Node)> {
    (if c.name != "" then [("name", Str(c.name))] else [])
      + (if c.format != "" then [("format", Str(c.format))] else [])
  }

  /** Dataset.MarshalYAML: the bare name when it is non-empty, otherwise the
      descriptor (null when there is none). */
  function MarshalDataset(d: Dataset): (n: Node)
    ensures d.simple != "" ==> n == Str(d.simple)
    ensures d.simple == "" ==> (n.Null? <==> d.complex.None?)
    ensures d.simple == "" && d.complex.Some? ==> n.Map?
  {
    if d.simple != "" then Str(d.simple)
    else
      match d.complex
      case None => Null
      case Some(c) => Map(ComplexEntries(c))
  }

  lemma DecodeComplexEntries(c: DatasetComplex)
    ensures DecodeComplex(Map(ComplexEntries(c))) == Ok(c)
  {
    var e := ComplexEntries(c);
    var f := if c.format != "" then [("format", Str(c.format))] else [];
    assert Lookup(f, "format") == if c.format != "" then Some(Str(c.format)) else None;
    assert Lookup(f, "name") == None;
    if c.name != "" {
      assert e == [("name", Str(c.name))] + f;
      assert e[1..] == f;
    } else {
      assert e == f;
    }
  }

  /** Writing a dataset out and reading it back gives it back exactly when it
      does not carry both a name and a descriptor (marshalling keeps only the
      name then). */
  lemma MarshalRoundTrip(d: Dataset)
    ensures DecodeDataset(MarshalDataset(d)) == Ok(d) <==> !(d.simple != "" && d.complex.Some?)
  {
    if d.simple == "" && d.complex.Some? {
      DecodeComplexEntries(d.complex.value);
    }
  }

  /** A non-empty bare name survives the round trip. */
  lemma SimpleRoundTrip(s: string)
    requires s != ""
    ensures DecodeDataset(MarshalDataset(Dataset(s, None))) == Ok(Dataset(s, None))
  {
    MarshalRoundTrip(Dataset(s, None));
  }

  /** `dataset: {}` yields a descriptor, so it is not the zero value. */
  lemma EmptyMappingIsNotZero()
    ensures DecodeDataset(Map([])) == Ok(Dataset("", Some(DatasetComplex("", ""))))
    ensures DecodeDataset(Map([])).value != ZeroDataset
  {
  }
}
