/** Failure-carrying values, and the three ways the decoders and validators
    combine the results of their parts: in order, stopping at the first failure
    (a Go `for i := range` loop that returns early), and over a Go map, whose
    `range` visits the keys in an order the language leaves unspecified. */
module Wrappers {

  datatype Option<+T> = None | Some(value: T) {
    function GetOr(default: T): T {
      match this
      case Some(v) => v
      case None => default
    }
  }

  /** The result of a decoder: a value, or the error the Go code returns. */
  datatype Result<+T, +E> = Ok(value: T) | Err(error: E) {
    predicate IsFailure() {
      Err?
    }

    function PropagateFailure<U>(): Result<U, E>
      requires Err?
    {
      Err(error)
    }

    function Extract(): T
      requires Ok?
    {
      value
    }
  }

  /** The result of a `Validate() error` method: nil, or an error. */
  datatype Outcome<+E> = Pass | Fail(error: E)

  /** The results of a loop over a sequence that stops at the first error:
      either that error, or every value, in order. */
  function Collect<T, E>(rs: seq<Result<T, E>>): (r: Result<seq<T>, E>)
    ensures r.Ok? <==> forall i :: 0 <= i < |rs| ==> rs[i].Ok?
    ensures r.Ok? ==> |r.value| == |rs| && forall i :: 0 <= i < |rs| ==> rs[i] == Ok(r.value[i])
    ensures r.Err? ==> exists i :: 0 <= i < |rs| && rs[i] == Err(r.error) && forall j :: 0 <= j < i ==> rs[j].Ok?
  {
    if rs == [] then Ok([])
    else
      match rs[0]
      case Err(e) => Err(e)
      case Ok(v) =>
        match Collect(rs[1..])
        case Ok(vs) => Ok([v] + vs)
        case Err(e) => assert forall j :: 1 <= j < |rs| ==> rs[j] == rs[1..][j - 1]; Err(e)
  }

  /** Checks run in order, stopping at the first failure. */
  function FirstFailure<E>(os: seq<Outcome<E>>): (r: Outcome<E>)
    ensures r.Pass? <==> forall i :: 0 <= i < |os| ==> os[i].Pass?
    ensures r.Fail? ==> exists i :: 0 <= i < |os| && os[i] == r && forall j :: 0 <= j < i ==> os[j].Pass?
  {
    if os == [] then Pass
    else if os[0].Fail? then os[0]
    else
      var rest := FirstFailure(os[1..]);
      assert forall j :: 1 <= j < |os| ==> os[j] == os[1..][j - 1];
      rest
  }

  /** Checks run over the entries of a Go map, stopping at the first failure.
      Go visits the keys in an unspecified order, so which failure is reported
      is left open: the choice below is arbitrary, and the contract only says
      that it is the failure of SOME entry. */
  ghost function SomeFailure<K, E>(checks: map<K, Outcome<E>>): (r: Outcome<E>)
    ensures r.Pass? <==> forall k :: k in checks ==> checks[k].Pass?
    ensures r.Fail? ==> exists k :: k in checks && checks[k] == r
    decreases checks.Keys
  {
    if checks == map[] then Pass
    else
      var k :| k in checks;
      if checks[k].Fail? then checks[k]
      else
        var rest := checks - {k};
        assert forall k' :: k' in checks ==> k' == k || k' in rest;
        SomeFailure(rest)
  }
}
