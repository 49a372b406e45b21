/** The errors the decoders and the `Validate` methods return, one constructor
    per distinct message (wrapping errors keep the error they wrap). */
module Errors {

  datatype DecodeError =
    /** The YAML library cannot place the node in the Go type it decodes into
        (a mapping into a string, a scalar into a struct, ...). */
    | TypeMismatch
    /** "each step must be a single-key object" */
    | NotSingleKeyStep
    /** "unknown step type: <tag>" */
    | UnknownStepType(tag: string)
    /** "invalid variable name: <name>", raised while decoding a declare table */
    | InvalidVariableName(name: string)
    /** "invalid select specification" */
    | InvalidSelect
    /** "invalid select not specification" */
    | InvalidSelectNot
    /** "invalid sort specification" */
    | InvalidSort
    /** "invalid take specification" */
    | InvalidTake
    /** A column list holds an element that is not a string. The source does
        not return an error here: its unchecked type assertion panics. */
    | NonStringColumn

  datatype ValidationError =
    /** "dataset is required" */
    | DatasetRequired
    /** "invalid declare section: <cause>" */
    | InvalidDeclareSection(cause: ValidationError)
    /** "invalid step: <cause>" */
    | InvalidStep(cause: ValidationError)
    /** "invalid variable name: <name>", raised while validating a declare table */
    | BadVariableName(name: string)
    /** "invalid value for <name>: <cause>" */
    | InvalidValueFor(name: string, cause: ValidationError)
    /** "declare value must be exactly one of: pipeline, expression, tuple, or function" */
    | NotExactlyOneArm
    /** "function must have at least one parameter" */
    | FunctionWithoutParameters
    /** "invalid function expression: <cause>" */
    | InvalidFunctionExpression(cause: ValidationError)
    /** "unsupported expression type: <Go type>" */
    | UnsupportedExpressionType
    /** "generate must contain at least one expression" */
    | EmptyGenerate
    /** "invalid expression for <name>: <cause>" */
    | InvalidExpressionFor(name: string, cause: ValidationError)
    /** "summarize must contain at least one aggregation" */
    | EmptySummarize
    /** "loop must contain at least one step" */
    | EmptyLoop
    /** "invalid step in loop: <cause>" */
    | InvalidStepInLoop(cause: ValidationError)
}
