/** The generic YAML tree that the library hands every `UnmarshalYAML`, and the
    library's own rules for placing a node into a Go string, bool, int or map.

    The rules, as the YAML library applies them:
    - a null node leaves the target at its zero value and is never an error; it
      is never handed to a custom decoder either (see Steps.Unmarshal);
    - any non-null scalar can be placed in a string: the string is its text;
    - a mapping or a sequence cannot be placed in a scalar, and a scalar or a
      sequence cannot be placed in a struct: that is a type error;
    - a struct field whose key is absent keeps its zero value, as if the key
      were present with a null value. */
module Yaml {
  import opened Wrappers
  import opened Errors

  datatype Node =
    | Null
    /** a scalar the library resolves to a string: a quoted scalar, a plain
        one that is no null, boolean, number or timestamp, and also a plain
        timestamp (kept as its text when placed in an untyped value) and the
        YAML 1.1 words `yes`, `no`, `on`, `off` and their variants, which YAML
        1.2 reads as strings */
    | Str(s: string)
    /** a scalar the library resolves to an integer */
    | Int(i: int)
    /** a scalar the library resolves to a boolean: `true` or `false` */
    | Bool(b: bool)
    /** any other scalar (floating point, infinity, not-a-number), known only
        by its text */
    | OtherScalar(text: string)
    /** a mapping; its keys are distinct, since the library rejects a mapping
        with a repeated key before any decoder sees it */
    | Map(entries: seq<(string, Node)>)
    | Seq(items: seq<Node>)

  /** The range of a Go `int` on a 64-bit platform. */
  const MinInt64: int := -0x8000_0000_0000_0000
  const MaxInt64: int := 0x7FFF_FFFF_FFFF_FFFF

  predicate InInt64(i: int) {
    MinInt64 <= i <= MaxInt64
  }

  predicate IsScalar(n: Node) {
    !n.Map? && !n.Seq?
  }

  function KeysOf(entries: seq<(string, Node)>): set<string> {
    set i | 0 <= i < |entries| :: entries[i].0
  }

  /** The value stored under `key`, the first such entry if there were several. */
  function Lookup(entries: seq<(string, Node)>, key: string): (r: Option<Node>)
    ensures r.Some? <==> key in KeysOf(entries)
    ensures r.Some? ==> (key, r.value) in entries
  {
    if entries == [] then None
    else if entries[0].0 == key then Some(entries[0].1)
    else
      var r := Lookup(entries[1..], key);
      assert KeysOf(entries) == {entries[0].0} + KeysOf(entries[1..]);
      r
  }

  /** What a struct field is decoded from: the node under its key, or null when
      the key is absent (both leave the field at its zero value). */
  function Field(entries: seq<(string, Node)>, key: string): Node {
    Lookup(entries, key).GetOr(Null)
  }

  /** A mapping node placed in a Go `map[string]...`. */
  function ToMap(entries: seq<(string, Node)>): (m: map<string, Node>)
    ensures m.Keys == KeysOf(entries)
    ensures forall k :: k in m ==> Lookup(entries, k) == Some(m[k])
  {
    if entries == [] then map[]
    else
      assert KeysOf(entries) == {entries[0].0} + KeysOf(entries[1..]);
      ToMap(entries[1..])[entries[0].0 := entries[0].1]
  }

  /** The entries of a map, in an arbitrary order (Go's map order is unspecified,
      and so is the order in which the library writes a map out). */
  ghost function EntriesOf(m: map<string, Node>): (entries: seq<(string, Node)>)
    ensures ToMap(entries) == m
    decreases m.Keys
  {
    if m == map[] then []
    else
      var k :| k in m;
      var rest := EntriesOf(m - {k});
      assert ToMap([(k, m[k])] + rest) == ToMap(rest)[k := m[k]] by {
        assert ([(k, m[k])] + rest)[1..] == rest;
      }
      [(k, m[k])] + rest
  }

  function DigitsText(n: nat): (s: string)
    ensures |s| > 0
  {
    if n < 10 then ["0123456789"[n]] else DigitsText(n / 10) + ["0123456789"[n % 10]]
  }

  /** The text of an integer scalar as the library writes it out. */
  function IntText(i: int): (s: string)
    ensures |s| > 0
  {
    if i < 0 then "-" + DigitsText(-i) else DigitsText(i)
  }

  /** A node placed in a Go `string`. */
  function DecodeString(n: Node): (r: Result<string, DecodeError>)
    ensures r.Ok? <==> IsScalar(n)
    ensures n.Null? ==> r == Ok("")
    ensures n.Str? ==> r == Ok(n.s)
    ensures r.Ok? && (n.Int? || n.Bool?) ==> r.value != ""
  {
    match n
    case Null => Ok("")
    case Str(s) => Ok(s)
    case Int(i) => Ok(IntText(i))
    case Bool(b) => Ok(if b then "true" else "false")
    case OtherScalar(text) => Ok(text)
    case _ => Err(TypeMismatch)
  }

  /** The YAML 1.1 spellings the library still accepts for a Go `bool`. */
  const TrueWords: set<string> := {"y", "Y", "yes", "Yes", "YES", "on", "On", "ON"}
  const FalseWords: set<string> := {"n", "N", "no", "No", "NO", "off", "Off", "OFF"}

  /** A node placed in a Go `bool`: a boolean, or a string spelled as a
      YAML 1.1 boolean. */
  function DecodeBool(n: Node): (r: Result<bool, DecodeError>)
    ensures r.Ok? <==> n.Null? || n.Bool? || (n.Str? && n.s in TrueWords + FalseWords)
    ensures r.Ok? && n.Bool? ==> r.value == n.b
    ensures r.Ok? && n.Str? ==> (r.value <==> n.s in TrueWords)
    ensures n.Null? ==> r == Ok(false)
    ensures r.Err? ==> r.error == TypeMismatch
  {
    match n
    case Null => Ok(false)
    case Bool(b) => Ok(b)
    case Str(s) =>
      if s in TrueWords then Ok(true)
      else if s in FalseWords then Ok(false)
      else Err(TypeMismatch)
    case _ => Err(TypeMismatch)
  }

  /** A node placed in a Go `int`: an integer scalar that does not overflow it. */
  function DecodeInt(n: Node): (r: Result<int, DecodeError>)
    ensures r.Ok? <==> n.Null? || (n.Int? && InInt64(n.i))
    ensures r.Ok? ==> InInt64(r.value)
  {
    match n
    case Null => Ok(0)
    case Int(i) => if InInt64(i) then Ok(i) else Err(TypeMismatch)
    case _ => Err(TypeMismatch)
  }
}
