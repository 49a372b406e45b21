/** The query document (query.go): settings, declarations, a dataset, steps
    and a destination; and the check that runs over it. */
module Queries {
  import opened Wrappers
  import opened Errors
  import opened Yaml
  import opened Expressions
  import opened Datasets
  import opened Filtering
  import opened Generation
  import opened Taking
  import opened Steps
  import opened Declarations

  /** `target` is a free string: nothing checks it against the dialects. */
  datatype Settings = Settings(version: string, target: string)

  /** A nil declaration table and a nil step list are the empty ones: both
      are checked as having no entries. */
  datatype Query = Query(settings: Option<Settings>, declare: Declare, dataset: Dataset, steps: seq<Step>, into: string)

  /** The dataset is missing: it equals the zero value, no name and no
      descriptor. */
  predicate DatasetMissing(d: Dataset) {
    d.simple == "" && d.complex.None?
  }

  /** Query.Validate: the dataset, then the declarations, then the steps in
      order; the first failure is returned, wrapped by where it was found. */
  ghost function ValidateQuery(q: Query): (r: Outcome<ValidationError>)
    ensures r == Fail(DatasetRequired) <==> DatasetMissing(q.dataset)
    ensures !DatasetMissing(q.dataset) ==>
      (r.Pass? <==> ValidateDeclare(q.declare).Pass? && forall i :: 0 <= i < |q.steps| ==> ValidateStep(q.steps[i]).Pass?)
    ensures !DatasetMissing(q.dataset) && ValidateDeclare(q.declare).Fail? ==>
      r == Fail(InvalidDeclareSection(ValidateDeclare(q.declare).error))
    ensures (!DatasetMissing(q.dataset) && ValidateDeclare(q.declare).Pass? && r.Fail?) ==>
      exists i :: 0 <= i < |q.steps| && ValidateStep(q.steps[i]).Fail?
        && r == Fail(InvalidStep(ValidateStep(q.steps[i]).error))
        && forall j :: 0 <= j < i ==> ValidateStep(q.steps[j]).Pass?
  {
    if q.dataset == ZeroDataset then Fail(DatasetRequired)
    else
      match ValidateDeclare(q.declare)
      case Fail(e) => Fail(InvalidDeclareSection(e))
      case Pass =>
        match ValidateInOrder(q.steps)
        case Fail(e) => Fail(InvalidStep(e))
        case Pass => Pass
  }

  /** The steps are checked in order: the first failing step is the one
      reported, whatever fails after it. */
  lemma QueryReportsFirstStep(q: Query, i: nat)
    requires !DatasetMissing(q.dataset) && ValidateDeclare(q.declare).Pass?
    requires i < |q.steps| && ValidateStep(q.steps[i]).Fail?
    requires forall j :: 0 <= j < i ==> ValidateStep(q.steps[j]).Pass?
    ensures ValidateQuery(q) == Fail(InvalidStep(ValidateStep(q.steps[i]).error))
  {
    InOrderReportsFirstFailure(q.steps, i);
  }

  /** A missing dataset is reported before anything else is looked at. */
  lemma DatasetCheckedFirst(q: Query)
    requires DatasetMissing(q.dataset)
    ensures ValidateQuery(q) == Fail(DatasetRequired)
  {
  }

  /** `dataset: orders` alone is a valid query; `dataset: {}` is one too, as
      the mapping decodes to an empty descriptor, which is not the zero
      value. */
  lemma DatasetScenarios()
    ensures ValidateQuery(Query(None, map[], DecodeDataset(Str("orders")).value, [], "")).Pass?
    ensures ValidateQuery(Query(None, map[], DecodeDataset(Map([])).value, [], "")).Pass?
  {
    EmptyMappingIsNotZero();
  }

  /** `[{filter: "x > 1"}, {take: 10}]` decodes to a filter and a take, in
      that order, and the two steps validate. */
  lemma FilterThenTakeScenario()
    ensures DecodedSteps(Seq([Map([("filter", Str("x > 1"))]), Map([("take", Int(10))])]))
      == Ok([FilterStep(Filter(Expression(Text("x > 1")))), TakeStep(Take(10, ""))])
    ensures ValidateQuery(Query(None, map[], Dataset("orders", None),
      [FilterStep(Filter(Expression(Text("x > 1")))), TakeStep(Take(10, ""))], "")).Pass?
  {
    var items := [Map([("filter", Str("x > 1"))]), Map([("take", Int(10))])];
    var steps := [FilterStep(Filter(Expression(Text("x > 1")))), TakeStep(Take(10, ""))];
    assert DecodeStep(items[0]) == Ok(steps[0]);
    assert DecodeStep(items[1]) == Ok(steps[1]);
    var r := DecodedSteps(Seq(items));
    assert r.Ok?;
    assert r.value == steps;
    assert ValidateStep(steps[0]).Pass? && ValidateStep(steps[1]).Pass?;
  }

  /** `[{bogus: 1}]` fails to decode, naming the key. */
  lemma UnknownStepScenario()
    ensures DecodedSteps(Seq([Map([("bogus", Int(1))])])) == Err(UnknownStepType("bogus"))
  {
    StepErrorAbortsList([Map([("bogus", Int(1))])], 0);
  }

  /** A declaration named `2bad` fails the query's check, naming the key.
      The query is built as a value here: a document declaring `2bad` never
      reaches the check, since decoding the table already rejects the name
      (declare.go:37-40, `Declarations.UnmarshalDeclare`). */
  lemma BadDeclarationScenario(value: DeclareValue)
    requires DeclareValueCheck(value).Pass?
    ensures ValidateQuery(Query(None, map["2bad" := value], Dataset("orders", None), [], ""))
      == Fail(InvalidDeclareSection(BadVariableName("2bad")))
  {
    VariableNameExamples();
    IdentifierLaw("2bad", value);
  }

  /** `{generate: {}}` decodes, then fails the check as empty. */
  lemma EmptyGenerateScenario()
    ensures DecodeStep(Map([("generate", Map([]))])) == Ok(GenerateStep(Generate(map[])))
    ensures ValidateQuery(Query(None, map[], Dataset("orders", None), [GenerateStep(Generate(map[]))], ""))
      == Fail(InvalidStep(EmptyGenerate))
  {
    QueryReportsFirstStep(Query(None, map[], Dataset("orders", None), [GenerateStep(Generate(map[]))], ""), 0);
  }
}
