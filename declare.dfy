/** The declaration table (declare.go): named pipelines, expressions, tuples
    and functions, keyed by identifiers. */
module Declarations {
  import opened Wrappers
  import opened Errors
  import opened Yaml
  import opened Expressions
  import opened Steps

  datatype FunctionParameter = FunctionParameter(name: string, defaultValue: Node)

  datatype FunctionDefinition = FunctionDefinition(parameters: seq<FunctionParameter>, expression: Expression)

  /** The four arms of a declared value; None is Go's nil pointer or nil map.
      `definition` is the source's `Function` field. */
  datatype DeclareValue = DeclareValue(
    pipeline: Option<seq<Step>>,
    expression: Option<Expression>,
    tuple: Option<map<string, Node>>,
    definition: Option<FunctionDefinition>)

  type Declare = map<string, DeclareValue>

  // Identifiers: the pattern ^[a-zA-Z_][a-zA-Z0-9_]*$

  predicate IsIdentStart(c: char) {
    ('a' <= c <= 'z') || ('A' <= c <= 'Z') || c == '_'
  }

  predicate IsIdentPart(c: char) {
    IsIdentStart(c) || ('0' <= c <= '9')
  }

  /** The starred class `[a-zA-Z0-9_]*` anchored at the end of the text. */
  predicate MatchesIdentTail(s: string) {
    s == [] || (IsIdentPart(s[0]) && MatchesIdentTail(s[1..]))
  }

  /** isValidVariableName: the whole name matches the pattern. */
  predicate IsValidVariableName(name: string) {
    |name| > 0 && IsIdentStart(name[0]) && MatchesIdentTail(name[1..])
  }

  lemma {:induction false} IdentTailAllParts(s: string)
    ensures MatchesIdentTail(s) <==> forall i :: 0 <= i < |s| ==> IsIdentPart(s[i])
    decreases |s|
  {
    if s != [] {
      IdentTailAllParts(s[1..]);
      assert forall i :: 1 <= i < |s| ==> s[i] == s[1..][i - 1];
    }
  }

  /** The pattern, character by character: a non-empty name whose first
      character is an ASCII letter or `_` and whose other characters are ASCII
      letters, digits or `_`. */
  lemma ValidVariableNameChars(name: string)
    ensures IsValidVariableName(name) <==>
      (|name| > 0 && IsIdentStart(name[0]) && forall i :: 1 <= i < |name| ==> IsIdentPart(name[i]))
  {
    if |name| > 0 {
      IdentTailAllParts(name[1..]);
      assert forall i :: 1 <= i < |name| ==> name[i] == name[1..][i - 1];
    }
  }

  lemma VariableNameExamples()
    ensures !IsValidVariableName("")
    ensures !IsValidVariableName("2bad")
    ensures !IsValidVariableName("a b")
    ensures !IsValidVariableName("x-y")
    ensures IsValidVariableName("_x1")
    ensures IsValidVariableName("orders")
  {
    assert "a b"[1..] == " b";
    assert "x-y"[1..] == "-y";
    assert "_x1"[1..] == "x1" && "x1"[1..] == "1" && "1"[1..] == "";
    assert "orders"[1..] == "rders";
    assert "rders"[1..] == "ders" && "ders"[1..] == "ers" && "ers"[1..] == "rs";
    assert "rs"[1..] == "s" && "s"[1..] == "";
  }

  /** Declare.UnmarshalYAML. The mapping is first placed in a Go map, then its
      keys are visited in Go's map order: an invalid name or a value that does
      not decode stops the walk. How a value is placed in a DeclareValue is the
      YAML library's struct-tag decoding, a parameter here. A null node leaves
      the table nil, here empty. */
  method UnmarshalDeclare(n: Node, decodeValue: Node -> Result<DeclareValue, DecodeError>)
    returns (r: Result<Declare, DecodeError>)
    ensures n.Null? ==> r == Ok(map[])
    ensures !n.Null? && !n.Map? ==> r == Err(TypeMismatch)
    ensures n.Map? ==> (r.Ok? <==> forall k :: k in ToMap(n.entries) ==>
      IsValidVariableName(k) && decodeValue(ToMap(n.entries)[k]).Ok?)
    ensures n.Map? && r.Ok? ==> (r.value.Keys == KeysOf(n.entries)
      && forall k :: k in r.value ==> decodeValue(ToMap(n.entries)[k]) == Ok(r.value[k]))
    ensures n.Map? && r.Err? ==>
      exists k :: k in ToMap(n.entries)
        && (if IsValidVariableName(k) then decodeValue(ToMap(n.entries)[k]) == Err(r.error)
            else r.error == InvalidVariableName(k))
  {
    var raw: map<string, Node>;
    match n {
      case Null => return Ok(map[]);
      case Map(entries) => raw := ToMap(entries);
      case _ => return Err(TypeMismatch);
    }
    var table: Declare := map[];
    var todo := raw.Keys;
    while todo != {}
      invariant todo <= raw.Keys
      invariant table.Keys == raw.Keys - todo
      invariant forall k :: k in table ==> IsValidVariableName(k) && decodeValue(raw[k]) == Ok(table[k])
      decreases todo
    {
      var key :| key in todo;
      if !IsValidVariableName(key) {
        return Err(InvalidVariableName(key));
      }
      var value := decodeValue(raw[key]);
      if value.Err? {
        return Err(value.error);
      }
      table := table[key := value.value];
      todo := todo - {key};
    }
    return Ok(table);
  }

  /** Exactly one of the four arms is present. */
  predicate ExactlyOneArm(dv: DeclareValue) {
    || (dv.pipeline.Some? && dv.expression.None? && dv.tuple.None? && dv.definition.None?)
    || (dv.pipeline.None? && dv.expression.Some? && dv.tuple.None? && dv.definition.None?)
    || (dv.pipeline.None? && dv.expression.None? && dv.tuple.Some? && dv.definition.None?)
    || (dv.pipeline.None? && dv.expression.None? && dv.tuple.None? && dv.definition.Some?)
  }

  /** The names of the arms that are present. */
  function Arms(dv: DeclareValue): set<string> {
    (if dv.pipeline.Some? then {"pipeline"} else {})
      + (if dv.expression.Some? then {"expression"} else {})
      + (if dv.tuple.Some? then {"tuple"} else {})
      + (if dv.definition.Some? then {"function"} else {})
  }

  /** "Exactly one" is "one arm present": none present and two or more present
      both fail. */
  lemma ExactlyOneArmCount(dv: DeclareValue)
    ensures ExactlyOneArm(dv) <==> |Arms(dv)| == 1
  {
    var p := if dv.pipeline.Some? then {"pipeline"} else {};
    var e := if dv.expression.Some? then {"expression"} else {};
    var t := if dv.tuple.Some? then {"tuple"} else {};
    var f := if dv.definition.Some? then {"function"} else {};
    assert p !! e && (p + e) !! t && (p + e + t) !! f;
    assert |p + e| == |p| + |e|;
    assert |p + e + t| == |p + e| + |t|;
    assert |p + e + t + f| == |p + e + t| + |f|;
  }

  /** DeclareValue.Validate, as a definition: the arm count first, then, for a
      function, its parameters and its body. */
  function DeclareValueCheck(dv: DeclareValue): (r: Outcome<ValidationError>)
    ensures r.Pass? <==> ExactlyOneArm(dv) && (dv.definition.Some? ==>
      |dv.definition.value.parameters| > 0 && ValidateExpression(dv.definition.value.expression).Pass?)
    ensures !ExactlyOneArm(dv) ==> r == Fail(NotExactlyOneArm)
    ensures ExactlyOneArm(dv) && dv.definition.None? ==> r.Pass?
    ensures ExactlyOneArm(dv) && dv.definition.Some? && |dv.definition.value.parameters| == 0 ==>
      r == Fail(FunctionWithoutParameters)
    ensures (ExactlyOneArm(dv) && dv.definition.Some? && |dv.definition.value.parameters| > 0
             && ValidateExpression(dv.definition.value.expression).Fail?) ==>
      r == Fail(InvalidFunctionExpression(ValidateExpression(dv.definition.value.expression).error))
  {
    if !ExactlyOneArm(dv) then Fail(NotExactlyOneArm)
    else
      match dv.definition
      case None => Pass
      case Some(f) =>
        if |f.parameters| == 0 then Fail(FunctionWithoutParameters)
        else
          match ValidateExpression(f.expression)
          case Pass => Pass
          case Fail(e) => Fail(InvalidFunctionExpression(e))
  }

  /** DeclareValue.Validate as the source runs it: count the arms present, then
      check a function's parameters and body. */
  method ValidateDeclareValue(dv: DeclareValue) returns (r: Outcome<ValidationError>)
    ensures r == DeclareValueCheck(dv)
  {
    var count := 0;
    if dv.pipeline.Some? {
      count := count + 1;
    }
    if dv.expression.Some? {
      count := count + 1;
    }
    if dv.tuple.Some? {
      count := count + 1;
    }
    if dv.definition.Some? {
      count := count + 1;
    }
    ExactlyOneArmCount(dv);
    assert count == |Arms(dv)|;
    if count != 1 {
      return Fail(NotExactlyOneArm);
    }
    if dv.definition.Some? {
      if |dv.definition.value.parameters| == 0 {
        return Fail(FunctionWithoutParameters);
      }
      var e := ValidateExpression(dv.definition.value.expression);
      if e.Fail? {
        return Fail(InvalidFunctionExpression(e.error));
      }
    }
    return Pass;
  }

  /** The check of one entry of the table, its error naming the entry. */
  function CheckDeclaration(name: string, value: DeclareValue): (r: Outcome<ValidationError>)
    ensures r.Pass? <==> IsValidVariableName(name) && DeclareValueCheck(value).Pass?
    ensures !IsValidVariableName(name) ==> r == Fail(BadVariableName(name))
    ensures IsValidVariableName(name) && r.Fail? ==> r == Fail(InvalidValueFor(name, DeclareValueCheck(value).error))
  {
    if !IsValidVariableName(name) then Fail(BadVariableName(name))
    else
      match DeclareValueCheck(value)
      case Pass => Pass
      case Fail(e) => Fail(InvalidValueFor(name, e))
  }

  /** Declare.Validate: every name is an identifier and every value is valid.
      The entries are visited in Go's map order, so which failing entry is
      reported is left open. */
  ghost function ValidateDeclare(d: Declare): (r: Outcome<ValidationError>)
    ensures r.Pass? <==> forall k :: k in d ==> IsValidVariableName(k) && DeclareValueCheck(d[k]).Pass?
    ensures r.Fail? ==> exists k :: k in d && r == CheckDeclaration(k, d[k])
  {
    var checks := map k | k in d :: CheckDeclaration(k, d[k]);
    assert forall k :: k in checks ==> checks[k] == CheckDeclaration(k, d[k]);
    SomeFailure(checks)
  }

  /** A table of one valid value validates exactly when its name is an
      identifier; otherwise the name is what is reported. */
  lemma IdentifierLaw(name: string, value: DeclareValue)
    requires DeclareValueCheck(value).Pass?
    ensures ValidateDeclare(map[name := value]).Pass? <==> IsValidVariableName(name)
    ensures !IsValidVariableName(name) ==> ValidateDeclare(map[name := value]) == Fail(BadVariableName(name))
  {
  }

  /** A one-entry table whose value has both an expression and a tuple arm
      fails as not exactly one arm, wrapped with the entry's name. */
  lemma TwoArmsFail(name: string, e: Expression, t: map<string, Node>)
    requires IsValidVariableName(name)
    ensures ValidateDeclare(map[name := DeclareValue(None, Some(e), Some(t), None)])
      == Fail(InvalidValueFor(name, NotExactlyOneArm))
  {
  }
}
