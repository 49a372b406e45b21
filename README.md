# duql query documents in Dafny

A model of the `duql` package of the DUQL command-line tool. A DUQL query
is a YAML document with four kinds of content:

- an optional `settings` block;
- an optional `declare` table of named pipelines, expressions, tuples and
  functions;
- a required `dataset`;
- an ordered list of `steps`, each a single-key mapping such as
  `{filter: "x > 1"}` or `{take: 10}`.

Reading a query happens in two passes, and both are modelled. First the
YAML library builds a node tree and hands each part to the `UnmarshalYAML`
of the Go type it lands in. That is how a bare string becomes a dataset, a
list becomes a column list, and a `{key: value}` step becomes the step its
key names. Then `Validate` walks the decoded query and returns the first
error it meets.

The YAML tree is the datatype `Yaml.Node`. Each decoder is a function from
`Node` to a `Result`. Where the source builds its result in a loop, that
loop is written as a method as well. For the step list's array fill, the
column list's array fill, the summarize map and the arm count of a declared
value, the method is proved equal to the function that specifies it. The
declaration table's loop is a method only: its `ensures` clauses are its
specification.

The YAML library's own rules decide what reaches each decoder, and they are
modelled in `yaml.dfy`:

- a null node never reaches a custom decoder and leaves the target at its
  zero value;
- a non-null scalar can be placed in a string;
- a Go `bool` also takes the YAML 1.1 words `yes`, `no`, `on`, `off` and
  their variants, which YAML 1.2 otherwise reads as strings;
- a plain timestamp placed in an untyped value stays a string;
- an absent struct key is a null.

Go's map iteration order is unspecified. Where a loop walks a map and stops
at the first failure, the failure reported is left open. The model states
only that it is the failure of some entry.

Modules, one per source file: `Wrappers` (results and the three ways
failures combine), `Errors`, `Yaml`, `Expressions`, `Datasets`,
`Filtering`, `Generation`, `Summarization`, `Joining`, `Windowing`,
`Selection` (select and select!), `Sorting`, `Taking`, `Steps` (query.go's
step list, loop.go, group.go), `Declarations` and `Queries`.

### Behaviour of the code worth knowing

- **`dataset: {}` passes.** The mapping decodes to a present, empty
  descriptor. That is not the zero dataset, so the required-dataset check
  (query.go:77-79) lets it through. See `Datasets.EmptyMappingIsNotZero`
  and `Queries.DatasetScenarios`.
- **A null expression is accepted while decoding.** A null value never
  reaches the expression decoder, so it stays nil. Only `Validate` rejects
  it, as an unsupported expression type.
- **Steps nested in a group or a window are never checked.**
  `Group.Validate` and `Window.Validate` return nil without looking inside
  (group.go:14-17, window.go:17-20). A loop does check its body. See
  `Steps.NestedValidation`.
- **Summarize entries are not checked.** `Summarize.Validate` only requires
  a non-empty map (summarize.go:41-47). See
  `Summarization.EntriesAreNotChecked`.
- **Errors carry little context.** Six wrappers add context: "invalid
  step", "invalid step in loop", "invalid declare section", "invalid value
  for k" (declare.go:68), "invalid function expression" (declare.go:98) and
  "invalid expression for k" (generate.go:24). Only "invalid value for k"
  and "invalid expression for k" name a position: a declaration or a
  generate entry. No error names a step's
  index or its nesting path.
- **A non-string element in a select or sort column list crashes.** The
  unchecked type assertion at select.go:49, select.go:69 and sort.go:35
  panics. The model reports it as a distinct error, `NonStringColumn`.

## Model

| member | source | states |
|---|---|---|
| `Expressions.DecodeExpression` | duqlc/internal/duql/expression.go:14-34 | A scalar becomes its typed value: null to nil, a string to the same text. A mapping becomes a string-keyed map with exactly the mapping's keys and values. A sequence becomes the same list. Scalars are exactly the nodes that give neither a map nor a list. |
| `Expressions.ValidateExpression` | duqlc/internal/duql/expression.go:36-50 | Passes exactly for a string, a map or a list. Every other value, including nil, integer and boolean, fails with the unsupported-type error. |
| `Expressions.DecodeSourceNode` | duqlc/internal/duql/expression.go:14-34 | Decoding inverts writing out: every expression is the decoding of its own source node. |
| `Expressions.DecodeThenValidate` | duqlc/internal/duql/expression.go:14-50 | A decoded expression validates iff its node was a string, a mapping or a sequence. A decoded mapping or sequence always validates. |
| `Expressions.DecodeExpressionMap` | duqlc/internal/duql/generate.go:31-35 | A mapping placed in `map[string]Expression` has the mapping's keys, each value decoded as an expression. Null gives an empty map. Any other node is a type error. |
| `Datasets.DecodeComplex` | duqlc/internal/duql/dataset.go:32-36 | The `{name, format}` descriptor decodes iff the node is null, or a mapping whose `name` and `format` are scalars. The fields are those scalars' text. Otherwise it is a type error. |
| `Datasets.DecodeDataset` | duqlc/internal/duql/dataset.go:23-38 | A scalar yields the simple name and no descriptor. Otherwise the node must decode as a descriptor, which is then set with the name left empty. When both attempts fail, the descriptor's error is returned. |
| `Datasets.MarshalDataset` | duqlc/internal/duql/dataset.go:41-46 | A non-empty name is written as a bare string. Otherwise the descriptor is written, or null when there is none. |
| `Datasets.DecodeComplexEntries` | duqlc/internal/duql/dataset.go:41-46 | A written descriptor, with its empty fields omitted, decodes back to the same descriptor. |
| `Datasets.MarshalRoundTrip` | duqlc/internal/duql/dataset.go:23-46 | Reading back what was written gives the dataset exactly when it does not hold both a name and a descriptor. |
| `Datasets.SimpleRoundTrip` | duqlc/internal/duql/dataset.go:25-44 | A non-empty simple name survives writing out and reading back. |
| `Datasets.EmptyMappingIsNotZero` | duqlc/internal/duql/dataset.go:32-36 | `dataset: {}` decodes to an empty descriptor, which differs from the zero dataset. |
| `Filtering.DecodeFilter` | duqlc/internal/duql/filter.go:3-5 | A filter body is decoded exactly as an expression, through the embedded field's decoder. |
| `Filtering.ValidateFilter` | duqlc/internal/duql/filter.go:11-13 | The check is the expression check of the predicate. It passes exactly for a string, map or list predicate. |
| `Filtering.FilterValidity` | duqlc/internal/duql/filter.go:11-13 | A decoded filter is valid iff its node was a string, mapping or sequence. An integer, boolean or null filter is invalid. |
| `Generation.DecodeGenerate` | duqlc/internal/duql/generate.go:30-37 | Decode yields exactly the source mapping of names to decoded expressions. A non-mapping node fails with a type error. |
| `Generation.CheckEntry` | duqlc/internal/duql/generate.go:23-25 | One entry passes iff its expression validates. Its failure names the entry and wraps the expression's error. |
| `Generation.ValidateGenerate` | duqlc/internal/duql/generate.go:18-28 | An empty map fails with "must contain at least one expression". A non-empty map passes iff every entry's expression validates. Otherwise the error names some failing entry and wraps its error. |
| `Summarization.DecodeSummarize` | duqlc/internal/duql/summarize.go:15-35 | One aggregation per source key, each decoded as an expression. The key sets are equal. A non-mapping node fails. |
| `Summarization.UnmarshalSummarize` | duqlc/internal/duql/summarize.go:15-35 | The loop that fills the aggregation map key by key, in any order, produces exactly `DecodeSummarize`. |
| `Summarization.ValidateSummarize` | duqlc/internal/duql/summarize.go:41-47 | Passes iff there is at least one aggregation. Otherwise it fails with "must contain at least one aggregation". |
| `Summarization.EntriesAreNotChecked` | duqlc/internal/duql/summarize.go:41-47 | A summarize whose only aggregation is an invalid expression still validates. |
| `Joining.DecodeJoin` | duqlc/internal/duql/join.go:29-38 | A mapping decodes iff its `dataset` follows the dataset rules and its `retain` is a scalar. `where` follows the expression rules. `retain` is the given text, or `inner` when empty, and is never empty. Other shapes are a type error. |
| `Joining.ValidateJoin` | duqlc/internal/duql/join.go:24-27 | Always passes. |
| `Joining.RetainDefault` | duqlc/internal/duql/join.go:34-36 | An absent `retain` decodes to `inner`. A given non-empty `retain` is kept as is, even when it names no join kind. |
| `Windowing.ExpandingWords` | duqlc/internal/duql/window.go:8 | `expanding: yes` reads as true and `expanding: off` as false. `expanding: maybe` is a type error. |
| `Windowing.DecodeWindow` | duqlc/internal/duql/window.go:22-28 | rows, range, expanding and rolling come from the keys of the same name. Absent keys keep "", "", false and 0. A field of the wrong kind, an out-of-range rolling, or a non-mapping node fails. |
| `Windowing.ValidateWindow` | duqlc/internal/duql/window.go:17-20 | Always passes: there is no rows/range constraint. |
| `Selection.DecodeColumns` | duqlc/internal/duql/select.go:43-53 | A string sets the single column and leaves the list empty. A sequence of strings sets the list, with the same length and order. A sequence with a non-string element is rejected. Any other shape gives the caller's error. At most one of the two is set. |
| `Selection.UnmarshalColumns` | duqlc/internal/duql/select.go:43-53 | The loop that allocates the column array at the list's length and fills it element by element produces exactly `DecodeColumns`. |
| `Selection.DecodeSelect` | duqlc/internal/duql/select.go:37-55 | Select is the column-list decode, with "invalid select specification" for a wrong shape. |
| `Selection.DecodeSelectNot` | duqlc/internal/duql/select.go:57-75 | SelectNot is the column-list decode, with "invalid select not specification" for a wrong shape. |
| `Selection.SelectDecodersAgree` | duqlc/internal/duql/select.go:37-75 | Select and SelectNot accept the same nodes, give the same columns, and differ only in the wrong-shape error. Every other error, `NonStringColumn`, is the same for both. |
| `Selection.ValidateSelect` | duqlc/internal/duql/select.go:23-26 | Always passes. |
| `Selection.ValidateSelectNot` | duqlc/internal/duql/select.go:32-35 | Always passes. |
| `Sorting.DecodeSort` | duqlc/internal/duql/sort.go:23-41 | A string sets the column only. A sequence is accepted iff every element is a string, and then sets the list, keeping its length and order. A sequence with a non-string element gives `NonStringColumn`. Any other shape fails with "invalid sort specification". |
| `Sorting.ValidateSort` | duqlc/internal/duql/sort.go:18-21 | Always passes. |
| `Taking.DecodeTake` | duqlc/internal/duql/take.go:23-38 | An integer that fits a Go `int` sets the count and leaves the range empty. A string sets the range and leaves the count 0. Everything else fails with "invalid take specification": a mapping, a sequence, a boolean, another scalar or an overflowing integer. |
| `Taking.ValidateTake` | duqlc/internal/duql/take.go:18-21 | Always passes. |
| `Steps.TypeOf` | duqlc/internal/duql/query.go:34-55 | Every step's `Type()` is one of the eleven step tags. |
| `Steps.NewStep` | duqlc/internal/duql/query.go:33-58 | The switch knows exactly the eleven tags, and the step it creates for a tag has that tag as its `Type()`. |
| `Steps.DecodedSteps` | duqlc/internal/duql/query.go:19-74 | Null gives no steps. A node that is not a sequence of mappings is a type error, checked before any element is dispatched. Otherwise decode succeeds iff every element does. On success, step i comes from element i, and the lengths are equal. An error is the first failing element's. An unknown-tag error always names a key outside the tags. |
| `Steps.DecodeStep` | duqlc/internal/duql/query.go:26-70 | An element with zero or several keys fails with "each step must be a single-key object". An unknown key fails with "unknown step type" naming it. A known key with a null value gives that step's zero value. A decoded step's `Type()` equals its key. |
| `Steps.Unmarshal` | duqlc/internal/duql/query.go:60-69 | A null value leaves the new step as created. A decoded result keeps the step's type, and an unknown-tag error never names a known tag. Which decoder runs for a non-null value is stated by `Steps.KnownStepDecoding`. |
| `Steps.DecodeBody` | duqlc/internal/duql/query.go:65-67 | A step decoded by its own decoder keeps its type. An unknown-tag error it passes on never names a known tag. |
| `Steps.DispatchToBody` | duqlc/internal/duql/query.go:31-67 | A single-key step whose key is known is the zero step of that key, filled from its value. |
| `Steps.KnownStepDecoding` | duqlc/internal/duql/query.go:33-67 | For each of the eleven keys with a non-null value, the element is decoded by that step's own decoder. The element's step wraps that decoder's result, and the element's error is that decoder's error. |
| `Steps.VariantErrorAbortsList` | duqlc/internal/duql/query.go:65-67 | A step whose own decoder rejects its value aborts the list with that decoder's error: `[ok-step, {take: {}}]` fails with "invalid take specification". |
| `Steps.DecodeGroup` | duqlc/internal/duql/group.go:19-30 | Null gives an empty group. A scalar or sequence body is a type error. |
| `Steps.GroupDecoding` | duqlc/internal/duql/group.go:19-30 | `by` is kept as given. `steps` goes through the step-list decoder, and its error is the group's. An absent `steps` leaves the nested list empty. |
| `Steps.DecodeLoop` | duqlc/internal/duql/loop.go:30-37 | The loop body is decoded by the step-list decoder: same success, same steps, same error. |
| `Steps.UnmarshalSteps` | duqlc/internal/duql/query.go:19-74 | The loop that allocates the step array at the list's length, fills it in order and returns at the first failing element produces exactly `DecodedSteps`. |
| `Steps.UnknownTagFails` | duqlc/internal/duql/query.go:33-57 | A single-key step fails with "unknown step type: k" iff k is not one of the eleven tags, whatever the value's shape. |
| `Steps.StepErrorAbortsList` | duqlc/internal/duql/query.go:65-67 | An element whose decoder fails aborts the whole list with that element's error, when the elements before it decode. |
| `Steps.LoopNestedDecodeFailure` | duqlc/internal/duql/loop.go:30-37 | An unknown, multi-key or otherwise failing nested step makes the loop fail to decode, with the nested error. |
| `Steps.GroupNestedDecodeFailure` | duqlc/internal/duql/group.go:24-26 | An unknown, multi-key or otherwise failing nested step makes the group fail to decode, with the nested error. |
| `Steps.NullBodyKeepsZeroValue` | duqlc/internal/duql/query.go:60-67 | A null step body bypasses the step's decoder. `take` and `select` then give their zero step rather than a shape error. `join` keeps an empty `retain` rather than `inner`. `loop` decodes and then fails as empty. |
| `Steps.ValidateStep` | duqlc/internal/duql/query.go:88-92 | join, group, sort, take, window, select and select! always pass. filter is its expression check. summarize passes iff non-empty. generate passes iff non-empty with every expression valid. loop passes iff non-empty with every nested step valid. |
| `Steps.ValidateGroup` | duqlc/internal/duql/group.go:14-17 | Always passes: nested steps are not inspected. |
| `Steps.ValidateLoop` | duqlc/internal/duql/loop.go:18-28 | An empty body fails with "loop must contain at least one step". A non-empty body passes iff every nested step does. Otherwise it reports the first failing step, in order, wrapped "invalid step in loop". |
| `Steps.ValidateInOrder` | duqlc/internal/duql/query.go:87-93 | Steps checked in order pass iff each passes. Otherwise the first failing step's error is returned. |
| `Steps.InOrderReportsFirstFailure` | duqlc/internal/duql/query.go:88-92 | The step reported is the first failing one, whatever fails after it. |
| `Steps.LoopReportsFirstFailure` | duqlc/internal/duql/loop.go:22-27 | A loop reports its first failing nested step, wrapped "invalid step in loop". |
| `Steps.NestedValidation` | duqlc/internal/duql/loop.go:18-28 | A failing step inside a loop fails the loop with the wrapped error. The same step inside a group does not fail the group. |
| `Declarations.ValidVariableNameChars` | duqlc/internal/duql/declare.go:58-60 | A name matches `^[a-zA-Z_][a-zA-Z0-9_]*$` iff it is non-empty, its first character is an ASCII letter or `_`, and the rest are ASCII letters, digits or `_`. |
| `Declarations.VariableNameExamples` | duqlc/internal/duql/declare.go:58-60 | "", "2bad", "a b" and "x-y" are rejected. "_x1" and "orders" are accepted. |
| `Declarations.UnmarshalDeclare` | duqlc/internal/duql/declare.go:30-56 | Null gives an empty table, and another non-mapping node a type error. A mapping decodes iff every key is a valid name and every value decodes. A success has exactly the source's keys, each with its decoded value. A failure is "invalid variable name: k" for some invalid key k, or the decode error of some valid key's value. |
| `Declarations.ExactlyOneArmCount` | duqlc/internal/duql/declare.go:75-91 | "Exactly one arm" is "the set of present arms has one element", so zero arms and two or more arms both fail. |
| `Declarations.DeclareValueCheck` | duqlc/internal/duql/declare.go:74-103 | Not exactly one arm fails with "declare value must be exactly one of". A single pipeline, expression or tuple arm passes whatever its contents. A function with no parameters fails with "function must have at least one parameter". Otherwise a function passes iff its body validates, and a failure is wrapped "invalid function expression". |
| `Declarations.ValidateDeclareValue` | duqlc/internal/duql/declare.go:74-103 | Counting the present arms in four steps and then checking a function gives exactly `DeclareValueCheck`. |
| `Declarations.CheckDeclaration` | duqlc/internal/duql/declare.go:64-69 | One entry passes iff its name is valid and its value passes. An invalid name is reported first. A failing value is reported as "invalid value for k" wrapping its error. |
| `Declarations.ValidateDeclare` | duqlc/internal/duql/declare.go:62-72 | The table passes iff every key is a valid name and every value validates. Otherwise the error is that of some failing entry. |
| `Declarations.IdentifierLaw` | duqlc/internal/duql/declare.go:62-72 | A one-entry table with a valid value passes iff its name is an identifier. Otherwise the name is reported. |
| `Declarations.TwoArmsFail` | duqlc/internal/duql/declare.go:89-91 | A value with both an expression and a tuple arm fails the table check, naming its key. |
| `Queries.ValidateQuery` | duqlc/internal/duql/query.go:76-96 | "dataset is required" exactly when the dataset has no name and no descriptor. With a dataset, the query passes iff the declarations and every step pass. A declaration failure is wrapped "invalid declare section". Otherwise the first failing step, in order, is wrapped "invalid step". |
| `Queries.DatasetCheckedFirst` | duqlc/internal/duql/query.go:77-79 | A missing dataset is reported whatever the declarations and steps hold. |
| `Queries.QueryReportsFirstStep` | duqlc/internal/duql/query.go:87-93 | With a dataset and valid declarations, the first failing step is the one reported. |
| `Queries.DatasetScenarios` | duqlc/internal/duql/query.go:77-79 | `dataset: orders` alone is valid, and so is `dataset: {}`. |
| `Queries.FilterThenTakeScenario` | duqlc/internal/duql/query.go:19-74 | `[{filter: "x > 1"}, {take: 10}]` decodes to that filter and that take, in order, and the query validates. |
| `Queries.UnknownStepScenario` | duqlc/internal/duql/query.go:56-57 | `[{bogus: 1}]` fails with "unknown step type: bogus". |
| `Queries.BadDeclarationScenario` | duqlc/internal/duql/query.go:81-85 | A declaration named `2bad` fails the query with "invalid declare section" wrapping "invalid variable name: 2bad". |
| `Queries.EmptyGenerateScenario` | duqlc/internal/duql/query.go:87-93 | `{generate: {}}` decodes, and the query then fails with "invalid step" wrapping the empty-generate error. |

## Left out

- **YAML text parsing.** The model starts from the node tree the library
  builds. Mapping keys are strings and are distinct, since the library
  rejects repeated keys. Aliases and anchors are resolved before any
  decoder runs.
- **Re-encoding hops.** `yaml.Marshal` followed by `yaml.Unmarshal` appears
  in query.go:60-67, declare.go:43-50 and summarize.go:24-29. The model
  hands the sub-node straight to the next decoder.
- **Struct-tag decoding of `Query` and `DeclareValue`.** `Query` is modelled
  as a value; how the library fills its fields from the document is not
  modelled. The library filling `DeclareValue`'s inline arms is a
  parameter of `Declarations.UnmarshalDeclare`.
- **Window's `steps` field.** Window's `[]Step` field (window.go:10) is
  struct-tag decoding into an interface type, so the model's window ignores
  that key.
- **Go map iteration order.** It is an unspecified choice.
  `Generation.ValidateGenerate`, `Declarations.ValidateDeclare` and
  `Declarations.UnmarshalDeclare` say which entry's failure may be
  reported, not which one is.
- **Error messages.** Each distinct message is an error constructor, not a
  formatted string. The library's type errors, with their line numbers and
  their collection of several failures into one, are the single
  `TypeMismatch`.
- **Expression's "unsupported YAML node type" branch** (expression.go:30-31).
  It cannot be reached: every node the library hands over is a scalar, a
  mapping or a sequence. The expression decoder is total here.
- **Summarize per-entry decode errors** (summarize.go:28-30). An expression
  decode never fails in the model, so this path is absent.
- **Panics.** The unchecked `col.(string)` in select.go and sort.go panics
  on a non-string element. The model returns `NonStringColumn` instead.
- **Floating point.** Floating-point scalars, infinity and not-a-number are
  kept only as `OtherScalar` with their text.
- Yaml.DecodeInt: rejects every floating-point scalar. The library accepts
  any floating-point number up to the int64 maximum into a Go `int`,
  truncated (`rolling: 2.5` gives 2). So `Windowing.DecodeWindow` reports a
  type error where Go sets a truncated `rolling`.
- Yaml.DecodeString: writes an integer or boolean scalar as its canonical
  text (`31`, `true`). That matches what a step or declaration value
  carries after its re-encoding hop. `Datasets.DecodeDataset` on the
  query's own top-level `dataset` has no hop, so there Go keeps the text as
  written (`0x1F`, `True`) and the model does not. The hop's other
  rewrites are not modelled: a float such as `1e3` comes back as the
  integer `1000`.
- **Nil versus empty.** A nil declaration table or step list is the same as
  an empty one. Every check in the source treats the two alike.
- **Settings** (settings.go). They are plain data. The target dialect is a
  free string that nothing checks.
- **Out of scope.** The command-line front end, the file-walking validator,
  the logger and the converter are I/O and UI only.
- **Steps round trip.** The source has no step encoder, so no round trip
  for steps is stated. The dataset round trip is
  (`Datasets.MarshalRoundTrip`).
