/** The exceptions the forecast code can raise, and a result type that carries
    either a value or the exception that was raised instead. */
module Results {

  /** The kinds of Python exception the modelled code raises or propagates.
      Only the kind (and, for a dictionary lookup, the missing key) is kept;
      the message text is not. */
  datatype Exception =
    | KeyError(key: string)   // a dictionary has no such key
    | TypeError               // a value of the wrong type was subscripted or iterated
    | ValueError              // a malformed string or an out-of-range value
    | ValidationError         // pydantic refused a field value
    | OverflowError           // a datetime conversion left years 1..9999

  /** Either the value a call returned or the exception it raised. */
  datatype Result<+T> = Success(value: T) | Failure(error: Exception) {

    predicate IsFailure() {
      Failure?
    }

    function PropagateFailure<U>(): Result<U>
      requires Failure?
    {
      Failure(error)
    }

    function Extract(): T
      requires Success?
    {
      value
    }
  }

  /** `[f(x) for x in xs]` where each call may raise: the list of results in
      order, or the exception of the first element whose call raises. */
  function MapResults<A, B>(f: A -> Result<B>, xs: seq<A>): (r: Result<seq<B>>)
    ensures r.Success? <==> forall i :: 0 <= i < |xs| ==> f(xs[i]).Success?
    ensures r.Success? ==> |r.value| == |xs| && forall i :: 0 <= i < |xs| ==> f(xs[i]) == Success(r.value[i])
    ensures r.Failure? ==>
      exists i :: 0 <= i < |xs| && f(xs[i]) == Failure(r.error) && forall j :: 0 <= j < i ==> f(xs[j]).Success?
  {
    if xs == [] then Success([])
    else
      var head := f(xs[0]);
      if head.Failure? then Failure(head.error)
      else
        var tail := MapResults(f, xs[1..]);
        if tail.Failure? then
          ShiftedFailure(f, xs, tail.error);
          Failure(tail.error)
        else
          ShiftedResults(f, xs, head.value, tail.value);
          Success([head.value] + tail.value)
  }

  /** A first element that maps to `h`, followed by elements that map one by
      one to `t`: the elements map one by one to `[h] + t`. */
  lemma ShiftedResults<A, B>(f: A -> Result<B>, xs: seq<A>, h: B, t: seq<B>)
    requires xs != [] && f(xs[0]) == Success(h) && |t| == |xs| - 1
    requires forall i :: 0 <= i < |t| ==> f(xs[1..][i]) == Success(t[i])
    ensures forall i :: 0 <= i < |xs| ==> f(xs[i]) == Success(([h] + t)[i])
  {
    forall i | 0 <= i < |xs|
      ensures f(xs[i]) == Success(([h] + t)[i])
    {
      if i > 0 {
        assert xs[i] == xs[1..][i - 1];
        assert ([h] + t)[i] == t[i - 1];
      }
    }
  }

  /** After a first element that maps successfully, the first failure among
      the rest is the first failure of the whole sequence. */
  lemma ShiftedFailure<A, B>(f: A -> Result<B>, xs: seq<A>, error: Exception)
    requires xs != [] && f(xs[0]).Success?
    requires exists i :: 0 <= i < |xs[1..]| && f(xs[1..][i]) == Failure(error)
                         && forall j :: 0 <= j < i ==> f(xs[1..][j]).Success?
    ensures exists i :: 0 <= i < |xs| && f(xs[i]) == Failure(error)
                        && forall j :: 0 <= j < i ==> f(xs[j]).Success?
  {
    var i :| 0 <= i < |xs[1..]| && f(xs[1..][i]) == Failure(error)
             && forall j :: 0 <= j < i ==> f(xs[1..][j]).Success?;
    assert xs[i + 1] == xs[1..][i];
    forall j | 0 <= j < i + 1
      ensures f(xs[j]).Success?
    {
      if j > 0 {
        assert xs[j] == xs[1..][j - 1];
      }
    }
  }
}
