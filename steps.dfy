/** The step list (query.go, loop.go, group.go): the single-key mappings of a
    pipeline, dispatched on their key to the step they name; and the step
    checks, which recurse into a loop's body but not into a group's. */
module Steps {
  import opened Wrappers
  import opened Errors
  import opened Yaml
  import opened Expressions
  import opened Filtering
  import opened Joining
  import opened Datasets
  import opened Generation
  import opened Sorting
  import opened Taking
  import opened Windowing
  import opened Selection
  import opened Summarization

  /** The Step interface: one constructor per step type. */
  datatype Step =
    | FilterStep(filter: Filter)
    | JoinStep(join: Join)
    | GroupStep(group: Group)
    | GenerateStep(generate: Generate)
    | SortStep(sort: Sort)
    | TakeStep(take: Take)
    | WindowStep(window: Window)
    | SelectStep(selection: Select)
    | SelectNotStep(exclusion: SelectNot)
    | LoopStep(loop: Loop)
    | SummarizeStep(summarize: Summarize)

  /** `by` (here `groupBy`) is kept as the untyped value it was decoded from. */
  datatype Group = Group(groupBy: Node, steps: seq<Step>)

  datatype Loop = Loop(steps: seq<Step>)

  /** The step types the dispatcher recognises. */
  const Tags: set<string> :=
    {"filter", "join", "group", "generate", "sort", "take", "window", "select", "select!", "loop", "summarize"}

  /** The `Type()` of each step. */
  function TypeOf(s: Step): (t: string)
    ensures t in Tags
  {
    match s
    case FilterStep(_) => "filter"
    case JoinStep(_) => "join"
    case GroupStep(_) => "group"
    case GenerateStep(_) => "generate"
    case SortStep(_) => "sort"
    case TakeStep(_) => "take"
    case WindowStep(_) => "window"
    case SelectStep(_) => "select"
    case SelectNotStep(_) => "select!"
    case LoopStep(_) => "loop"
    case SummarizeStep(_) => "summarize"
  }

  /** The dispatcher's switch: the zero value of the step a key names, or
      nothing for a key it does not know. */
  function NewStep(stepType: string): (r: Option<Step>)
    ensures r.Some? <==> stepType in Tags
    ensures r.Some? ==> TypeOf(r.value) == stepType
  {
    match stepType
    case "filter" => Some(FilterStep(Filter(NoExpression)))
    case "join" => Some(JoinStep(Join(ZeroDataset, NoExpression, "")))
    case "group" => Some(GroupStep(Group(Null, [])))
    case "generate" => Some(GenerateStep(Generate(map[])))
    case "sort" => Some(SortStep(Sort("", [])))
    case "take" => Some(TakeStep(Take(0, "")))
    case "window" => Some(WindowStep(Window("", "", false, 0)))
    case "select" => Some(SelectStep(Select("", [])))
    case "select!" => Some(SelectNotStep(SelectNot("", [])))
    case "loop" => Some(LoopStep(Loop([])))
    case "summarize" => Some(SummarizeStep(Summarize(map[])))
    case _ => None
  }

  /** Every element of a sequence node can be placed in a Go
      `map[string]interface{}`: it is a mapping or null. */
  predicate AllMappings(items: seq<Node>) {
    forall i :: 0 <= i < |items| ==> items[i].Null? || items[i].Map?
  }

  /** What Steps.UnmarshalYAML produces. The node is first decoded as a list of
      mappings as a whole, so an element that is not a mapping fails the list
      before any element is dispatched; then the elements are dispatched in
      order and the first one that fails fails the list. A null node leaves the
      list nil, here empty. */
  function DecodedSteps(n: Node): (r: Result<seq<Step>, DecodeError>)
    ensures n.Null? ==> r == Ok([])
    ensures !n.Null? && !(n.Seq? && AllMappings(n.items)) ==> r == Err(TypeMismatch)
    ensures n.Seq? && AllMappings(n.items) ==>
      (r.Ok? <==> forall i :: 0 <= i < |n.items| ==> DecodeStep(n.items[i]).Ok?)
    ensures r.Ok? && n.Seq? ==> (|r.value| == |n.items|
      && forall i :: 0 <= i < |n.items| ==> DecodeStep(n.items[i]) == Ok(r.value[i]))
    ensures r.Err? && n.Seq? && AllMappings(n.items) ==>
      exists i :: 0 <= i < |n.items| && DecodeStep(n.items[i]) == Err(r.error)
        && forall j :: 0 <= j < i ==> DecodeStep(n.items[j]).Ok?
    ensures r.Err? && r.error.UnknownStepType? ==> r.error.tag !in Tags
    decreases n, 0
  {
    match n
    case Null => Ok([])
    case Seq(items) =>
      if AllMappings(items) then
        var results := seq(|items|, i requires 0 <= i < |items| => DecodeStep(items[i]));
        assert forall i :: 0 <= i < |items| ==> results[i] == DecodeStep(items[i]);
        Collect(results)
      else
        Err(TypeMismatch)
    case _ => Err(TypeMismatch)
  }

  /** One element of the list: a single-key mapping whose key names the step
      and whose value is decoded into it. A null element is an empty mapping. */
  function DecodeStep(item: Node): (r: Result<Step, DecodeError>)
    ensures item.Null? ==> r == Err(NotSingleKeyStep)
    ensures item.Map? && |item.entries| != 1 ==> r == Err(NotSingleKeyStep)
    ensures item.Map? && |item.entries| == 1 && item.entries[0].0 !in Tags ==>
      r == Err(UnknownStepType(item.entries[0].0))
    ensures item.Map? && |item.entries| == 1 && item.entries[0].0 in Tags ==>
      (item.entries[0].1.Null? ==> r == Ok(NewStep(item.entries[0].0).value))
    ensures r.Ok? ==> item.Map? && |item.entries| == 1 && TypeOf(r.value) == item.entries[0].0
    ensures r.Err? && r.error.UnknownStepType? ==> r.error.tag !in Tags
    decreases item, 4
  {
    match item
    case Null => Err(NotSingleKeyStep)
    case Map(entries) =>
      if |entries| != 1 then Err(NotSingleKeyStep)
      else
        var (stepType, stepValue) := entries[0];
        assert entries[0] in entries;
        (match NewStep(stepType)
         case None => Err(UnknownStepType(stepType))
         case Some(step) => Unmarshal(step, stepValue))
    case _ => Err(TypeMismatch)
  }

  /** The re-encoded value handed to the library to fill the new step. A null
      value never reaches the step's own decoder: the step keeps its zero
      value. */
  function Unmarshal(step: Step, value: Node): (r: Result<Step, DecodeError>)
    ensures value.Null? ==> r == Ok(step)
    ensures r.Ok? ==> TypeOf(r.value) == TypeOf(step)
    ensures r.Err? && r.error.UnknownStepType? ==> r.error.tag !in Tags
    decreases value, 3
  {
    if value.Null? then Ok(step) else DecodeBody(step, value)
  }

  /** The step's own `UnmarshalYAML` (or, for a filter, the embedded
      expression's). */
  function DecodeBody(step: Step, n: Node): (r: Result<Step, DecodeError>)
    ensures r.Ok? ==> TypeOf(r.value) == TypeOf(step)
    ensures r.Err? && r.error.UnknownStepType? ==> r.error.tag !in Tags
    decreases n, 2
  {
    match step
    case FilterStep(_) => Ok(FilterStep(DecodeFilter(n)))
    case JoinStep(_) => var j :- DecodeJoin(n); Ok(JoinStep(j))
    case GroupStep(_) => var g :- DecodeGroup(n); Ok(GroupStep(g))
    case GenerateStep(_) => var g :- DecodeGenerate(n); Ok(GenerateStep(g))
    case SortStep(_) => var s :- DecodeSort(n); Ok(SortStep(s))
    case TakeStep(_) => var t :- DecodeTake(n); Ok(TakeStep(t))
    case WindowStep(_) => var w :- DecodeWindow(n); Ok(WindowStep(w))
    case SelectStep(_) => var s :- DecodeSelect(n); Ok(SelectStep(s))
    case SelectNotStep(_) => var s :- DecodeSelectNot(n); Ok(SelectNotStep(s))
    case LoopStep(_) => var l :- DecodeLoop(n); Ok(LoopStep(l))
    case SummarizeStep(_) => var s :- DecodeSummarize(n); Ok(SummarizeStep(s))
  }

  /** Group.UnmarshalYAML: `by` as it is, `steps` through the step-list decoder;
      an absent `steps` key leaves the nested list empty. */
  function DecodeGroup(n: Node): (r: Result<Group, DecodeError>)
    ensures n.Null? ==> r == Ok(Group(Null, []))
    ensures (IsScalar(n) && !n.Null?) || n.Seq? ==> r == Err(TypeMismatch)
    ensures r.Err? && r.error.UnknownStepType? ==> r.error.tag !in Tags
    decreases n, 1
  {
    match n
    case Null => Ok(Group(Null, []))
    case Map(entries) =>
      (match Lookup(entries, "steps")
       case None => Ok(Group(Field(entries, "by"), []))
       case Some(v) =>
         var steps :- DecodedSteps(v);
         Ok(Group(Field(entries, "by"), steps)))
    case _ => Err(TypeMismatch)
  }

  /** A group's mapping: `by` is kept as it is, `steps` is decoded by the
      step-list decoder and its error fails the group; an absent `steps` key
      leaves the nested list empty. */
  lemma GroupDecoding(entries: seq<(string, Node)>)
    ensures DecodeGroup(Map(entries)).Ok? <==> DecodedSteps(Field(entries, "steps")).Ok?
    ensures DecodeGroup(Map(entries)).Ok? ==>
      && DecodeGroup(Map(entries)).value.groupBy == Field(entries, "by")
      && Ok(DecodeGroup(Map(entries)).value.steps) == DecodedSteps(Field(entries, "steps"))
    ensures DecodeGroup(Map(entries)).Err? ==>
      DecodeGroup(Map(entries)).error == DecodedSteps(Field(entries, "steps")).error
    ensures "steps" !in KeysOf(entries) ==> DecodeGroup(Map(entries)) == Ok(Group(Field(entries, "by"), []))
  {
  }

  /** Loop.UnmarshalYAML: the body is a step list. */
  function DecodeLoop(n: Node): (r: Result<Loop, DecodeError>)
    ensures r.Ok? <==> DecodedSteps(n).Ok?
    ensures r.Ok? ==> Ok(r.value.steps) == DecodedSteps(n)
    ensures r.Err? ==> r.error == DecodedSteps(n).error
    ensures r.Err? && r.error.UnknownStepType? ==> r.error.tag !in Tags
    decreases n, 1
  {
    var steps :- DecodedSteps(n);
    Ok(Loop(steps))
  }

  /** Steps.UnmarshalYAML as the source runs it: the list is allocated at the
      length of the sequence and filled element by element, returning at the
      first element that fails. */
  method UnmarshalSteps(n: Node) returns (r: Result<seq<Step>, DecodeError>)
    ensures r == DecodedSteps(n)
  {
    match n {
      case Null =>
        return Ok([]);
      case Seq(items) =>
        if !AllMappings(items) {
          return Err(TypeMismatch);
        }
        var steps := new Step[|items|](_ => FilterStep(Filter(NoExpression)));
        var i := 0;
        while i < |items|
          invariant 0 <= i <= |items|
          invariant forall j :: 0 <= j < i ==> DecodeStep(items[j]) == Ok(steps[j])
        {
          var step := DecodeStep(items[i]);
          if step.Err? {
            return Err(step.error);
          }
          steps[i] := step.value;
          i := i + 1;
        }
        assert DecodedSteps(n).Ok?;
        assert DecodedSteps(n).value == steps[..];
        return Ok(steps[..]);
      case _ =>
        return Err(TypeMismatch);
    }
  }

  /** The steps' `Validate()`: a loop checks its body, a group does not look
      into its nested steps, and window, join, sort, take, select and select!
      check nothing. */
  ghost function ValidateStep(s: Step): (r: Outcome<ValidationError>)
    ensures (s.JoinStep? || s.GroupStep? || s.SortStep? || s.TakeStep? || s.WindowStep?
             || s.SelectStep? || s.SelectNotStep?) ==> r.Pass?
    ensures s.FilterStep? ==> r == ValidateExpression(s.filter.expression)
    ensures s.SummarizeStep? ==> (r.Pass? <==> |s.summarize.aggregations| > 0)
    ensures s.GenerateStep? ==> (r.Pass? <==> (|s.generate.expressions| > 0
      && forall k :: k in s.generate.expressions ==> ValidateExpression(s.generate.expressions[k]).Pass?))
    ensures s.LoopStep? ==> (r.Pass? <==> (|s.loop.steps| > 0
      && forall i :: 0 <= i < |s.loop.steps| ==> ValidateStep(s.loop.steps[i]).Pass?))
  {
    match s
    case FilterStep(f) => ValidateFilter(f)
    case JoinStep(j) => ValidateJoin(j)
    case GroupStep(g) => ValidateGroup(g)
    case GenerateStep(g) => ValidateGenerate(g)
    case SortStep(x) => ValidateSort(x)
    case TakeStep(t) => ValidateTake(t)
    case WindowStep(w) => ValidateWindow(w)
    case SelectStep(x) => ValidateSelect(x)
    case SelectNotStep(x) => ValidateSelectNot(x)
    case LoopStep(l) => ValidateLoop(l)
    case SummarizeStep(x) => ValidateSummarize(x)
  }

  /** Group.Validate checks nothing, its nested steps included. */
  function ValidateGroup(g: Group): (r: Outcome<ValidationError>)
    ensures r.Pass?
  {
    Pass
  }

  /** Loop.Validate: a non-empty body whose steps pass in order; the first
      failing step is reported. */
  ghost function ValidateLoop(l: Loop): (r: Outcome<ValidationError>)
    ensures |l.steps| == 0 ==> r == Fail(EmptyLoop)
    ensures |l.steps| > 0 ==> (r.Pass? <==> forall i :: 0 <= i < |l.steps| ==> ValidateStep(l.steps[i]).Pass?)
    ensures |l.steps| > 0 && r.Fail? ==>
      exists i :: 0 <= i < |l.steps| && ValidateStep(l.steps[i]).Fail?
        && r == Fail(InvalidStepInLoop(ValidateStep(l.steps[i]).error))
        && forall j :: 0 <= j < i ==> ValidateStep(l.steps[j]).Pass?
  {
    if |l.steps| == 0 then Fail(EmptyLoop)
    else
      var checks := seq(|l.steps|, i requires 0 <= i < |l.steps| => ValidateStep(l.steps[i]));
      assert forall i :: 0 <= i < |l.steps| ==> checks[i] == ValidateStep(l.steps[i]);
      match FirstFailure(checks)
      case Pass => Pass
      case Fail(e) => Fail(InvalidStepInLoop(e))
  }

  /** A list of steps checked in order, stopping at the first failure: the loop
      of Query.Validate, whose caller wraps the error. */
  ghost function ValidateInOrder(steps: seq<Step>): (r: Outcome<ValidationError>)
    ensures r.Pass? <==> forall i :: 0 <= i < |steps| ==> ValidateStep(steps[i]).Pass?
    ensures r.Fail? ==>
      exists i :: 0 <= i < |steps| && ValidateStep(steps[i]) == r
        && forall j :: 0 <= j < i ==> ValidateStep(steps[j]).Pass?
  {
    var checks := seq(|steps|, i requires 0 <= i < |steps| => ValidateStep(steps[i]));
    assert forall i :: 0 <= i < |steps| ==> checks[i] == ValidateStep(steps[i]);
    FirstFailure(checks)
  }

  /** A key outside the eleven step types fails with that key, whatever its
      value; a key inside them never yields that error. */
  lemma UnknownTagFails(stepType: string, value: Node)
    ensures DecodeStep(Map([(stepType, value)])) == Err(UnknownStepType(stepType)) <==> stepType !in Tags
  {
  }

  /** A known key with a non-null value: the value goes through the decoder
      of the step the key names, and that decoder's step or error is the
      element's. */
  lemma KnownStepDecoding(tag: string, v: Node)
    requires tag in Tags && !v.Null?
    ensures tag == "filter" ==> DecodeStep(Map([(tag, v)])) == Ok(FilterStep(DecodeFilter(v)))
    ensures tag == "join" ==> DecodeStep(Map([(tag, v)])) == (var j :- DecodeJoin(v); Ok(JoinStep(j)))
    ensures tag == "group" ==> DecodeStep(Map([(tag, v)])) == (var g :- DecodeGroup(v); Ok(GroupStep(g)))
    ensures tag == "generate" ==> DecodeStep(Map([(tag, v)])) == (var g :- DecodeGenerate(v); Ok(GenerateStep(g)))
    ensures tag == "sort" ==> DecodeStep(Map([(tag, v)])) == (var s :- DecodeSort(v); Ok(SortStep(s)))
    ensures tag == "take" ==> DecodeStep(Map([(tag, v)])) == (var t :- DecodeTake(v); Ok(TakeStep(t)))
    ensures tag == "window" ==> DecodeStep(Map([(tag, v)])) == (var w :- DecodeWindow(v); Ok(WindowStep(w)))
    ensures tag == "select" ==> DecodeStep(Map([(tag, v)])) == (var s :- DecodeSelect(v); Ok(SelectStep(s)))
    ensures tag == "select!" ==> DecodeStep(Map([(tag, v)])) == (var s :- DecodeSelectNot(v); Ok(SelectNotStep(s)))
    ensures tag == "loop" ==> DecodeStep(Map([(tag, v)])) == (var l :- DecodeLoop(v); Ok(LoopStep(l)))
    ensures tag == "summarize" ==> DecodeStep(Map([(tag, v)])) == (var s :- DecodeSummarize(v); Ok(SummarizeStep(s)))
  {
    DispatchToBody(tag, v);
  }

  /** A single-key step whose key is known is decoded by Unmarshal on the
      step the key names. */
  lemma DispatchToBody(tag: string, v: Node)
    requires tag in Tags
    ensures DecodeStep(Map([(tag, v)])) == Unmarshal(NewStep(tag).value, v)
  {
    assert [(tag, v)][0] == (tag, v);
  }

  /** An element whose own step decoder rejects its value fails the whole
      list with that decoder's error: here a take step holding a mapping, as
      the second element of the list. */
  lemma VariantErrorAbortsList(first: Node)
    requires (first.Null? || first.Map?) && DecodeStep(first).Ok?
    ensures DecodedSteps(Seq([first, Map([("take", Map([]))])])) == Err(InvalidTake)
  {
    KnownStepDecoding("take", Map([]));
    StepErrorAbortsList([first, Map([("take", Map([]))])], 1);
  }

  /** A step that fails to decode fails the whole list with its error, when
      the steps before it decode. */
  lemma StepErrorAbortsList(items: seq<Node>, i: nat)
    requires AllMappings(items)
    requires i < |items| && DecodeStep(items[i]).Err?
    requires forall j :: 0 <= j < i ==> DecodeStep(items[j]).Ok?
    ensures DecodedSteps(Seq(items)) == Err(DecodeStep(items[i]).error)
  {
    var r := DecodedSteps(Seq(items));
    assert r.Err?;
    var k :| 0 <= k < |items| && DecodeStep(items[k]) == Err(r.error)
      && forall j :: 0 <= j < k ==> DecodeStep(items[j]).Ok?;
    assert !(k < i) && !(i < k);
  }

  /** A nested step that fails makes a group or a loop around it fail to
      decode: both bodies go through the step-list decoder. */
  lemma LoopNestedDecodeFailure(item: Node)
    requires (item.Null? || item.Map?) && DecodeStep(item).Err?
    ensures DecodeStep(Map([("loop", Seq([item]))])) == Err(DecodeStep(item).error)
  {
    StepErrorAbortsList([item], 0);
    var l := DecodeLoop(Seq([item]));
    assert l == Err(DecodeStep(item).error);
    assert DecodeBody(LoopStep(Loop([])), Seq([item])) == Err(DecodeStep(item).error);
  }

  lemma GroupNestedDecodeFailure(item: Node, groupBy: Node)
    requires (item.Null? || item.Map?) && DecodeStep(item).Err?
    ensures DecodeStep(Map([("group", Map([("by", groupBy), ("steps", Seq([item]))]))])) == Err(DecodeStep(item).error)
  {
    StepErrorAbortsList([item], 0);
    var e := [("by", groupBy), ("steps", Seq([item]))];
    assert e[1] == ("steps", Seq([item]));
    assert "steps" in KeysOf(e);
    assert Field(e, "steps") == Seq([item]);
    GroupDecoding(e);
    assert DecodeGroup(Map(e)) == Err(DecodeStep(item).error);
    KnownStepDecoding("group", Map(e));
  }

  /** A null step body never reaches the step's own decoder: a `take` or a
      `select` with a null body is the zero step rather than a shape error, a
      `join` with a null body keeps an empty `retain`, and a `loop` with a
      null body decodes and is then rejected as empty. */
  lemma NullBodyKeepsZeroValue()
    ensures DecodeTake(Null).Err? && DecodeStep(Map([("take", Null)])) == Ok(TakeStep(Take(0, "")))
    ensures DecodeSelect(Null).Err? && DecodeStep(Map([("select", Null)])) == Ok(SelectStep(Select("", [])))
    ensures DecodeJoin(Null).value.retain == Inner
      && DecodeStep(Map([("join", Null)])) == Ok(JoinStep(Join(ZeroDataset, NoExpression, "")))
    ensures DecodeStep(Map([("loop", Null)])) == Ok(LoopStep(Loop([])))
      && ValidateStep(LoopStep(Loop([]))) == Fail(EmptyLoop)
  {
  }

  /** A loop checks the step it holds; a group holding the same step does not. */
  lemma NestedValidation(s: Step, groupBy: Node)
    requires ValidateStep(s).Fail?
    ensures ValidateStep(LoopStep(Loop([s]))) == Fail(InvalidStepInLoop(ValidateStep(s).error))
    ensures ValidateStep(GroupStep(Group(groupBy, [s]))).Pass?
  {
    var l := Loop([s]);
    assert ValidateStep(LoopStep(l)) == ValidateLoop(l);
  }

  /** The steps are checked in order: the first failing step is the one
      reported, whatever fails after it. */
  lemma InOrderReportsFirstFailure(steps: seq<Step>, i: nat)
    requires i < |steps| && ValidateStep(steps[i]).Fail?
    requires forall j :: 0 <= j < i ==> ValidateStep(steps[j]).Pass?
    ensures ValidateInOrder(steps) == ValidateStep(steps[i])
  {
    var r := ValidateInOrder(steps);
    var k :| 0 <= k < |steps| && ValidateStep(steps[k]) == r
      && forall j :: 0 <= j < k ==> ValidateStep(steps[j]).Pass?;
    assert !(k < i) && !(i < k);
  }

  /** The loop check reports the first failing step of its body, in order. */
  lemma LoopReportsFirstFailure(steps: seq<Step>, i: nat)
    requires i < |steps| && ValidateStep(steps[i]).Fail?
    requires forall j :: 0 <= j < i ==> ValidateStep(steps[j]).Pass?
    ensures ValidateLoop(Loop(steps)) == Fail(InvalidStepInLoop(ValidateStep(steps[i]).error))
  {
    var r := ValidateLoop(Loop(steps));
    var k :| 0 <= k < |steps| && ValidateStep(steps[k]).Fail?
      && r == Fail(InvalidStepInLoop(ValidateStep(steps[k]).error))
      && forall j :: 0 <= j < k ==> ValidateStep(steps[j]).Pass?;
    assert !(k < i) && !(i < k);
  }
}
