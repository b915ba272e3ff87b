/** Shared vocabulary of the automaton engine: the errors the Python code
    raises, failure-carrying results, Python list indexing, and the
    "collect results in order, stop at the first failure" pattern that both
    the neighbour gathering and the generation sweep follow. */
module Common {

  /** The exceptions the engine raises, one constructor per distinct cause. */
  datatype Error =
    | AddressShapeMismatch   // Edgerule: address and board shape differ in length (ValueError)
    | NoZeroOffset           // Edgerule: no 0 among the relevant offsets (ValueError)
    | DivisionByZero         // Edgerule wrap arithmetic on a zero-length axis (ZeroDivisionError)
    | IndexOutOfRange        // list or NumPy index outside its bounds (IndexError)
    | MixedDimensions        // Neighbourhood: offsets of different lengths (ValueError)
    | InvalidDimension       // factory: dimension below 1 (ValueError)
    | InvalidLength          // factory: radius below 0 (ValueError)
    | NoTransition           // Rule called without a transition function (ValueError)
    | NoRule                 // nextstate/advance called without a rule (ValueError)

  datatype Option<T> = None | Some(value: T)

  datatype Result<T> = Success(value: T) | Failure(error: Error)

  datatype Outcome = Pass | Fail(error: Error)

  /** Python's `xs[i]` on a list of length n: negative indices count from the
      end; anything else outside the list raises IndexError (None here). */
  function PyIndex(i: int, n: nat): (r: Option<nat>)
    ensures r.Some? <==> -(n as int) <= i < n
    ensures r.Some? ==> r.value < n && (r.value == i || r.value == i + n)
  {
    if 0 <= i < n then Some(i)
    else if -(n as int) <= i < 0 then Some(i + n)
    else None
  }

  /** The values of `rs` in order, or the first failure among them. */
  function Collect<T>(rs: seq<Result<T>>): (r: Result<seq<T>>)
    ensures r.Success? ==> |r.value| == |rs|
  {
    if rs == [] then Success([])
    else
      match Collect(rs[..|rs| - 1])
      case Failure(e) => Failure(e)
      case Success(vs) =>
        match rs[|rs| - 1]
        case Failure(e) => Failure(e)
        case Success(v) => Success(vs + [v])
  }

  /** Collect succeeds exactly when every element does, and then returns
      their values position by position. */
  lemma {:induction false} CollectSuccess<T>(rs: seq<Result<T>>)
    ensures Collect(rs).Success? <==> forall i :: 0 <= i < |rs| ==> rs[i].Success?
    ensures Collect(rs).Success? ==>
              forall i :: 0 <= i < |rs| ==> Collect(rs).value[i] == rs[i].value
  {
    if rs != [] {
      var front := rs[..|rs| - 1];
      CollectSuccess(front);
      assert forall i :: 0 <= i < |front| ==> front[i] == rs[i];
    }
  }

  /** The failure Collect reports is the first one in order. */
  lemma {:induction false} CollectFirstFailure<T>(rs: seq<Result<T>>, k: nat)
    requires k < |rs| && rs[k].Failure?
    requires forall j :: 0 <= j < k ==> rs[j].Success?
    ensures Collect(rs) == Failure(rs[k].error)
  {
    var front := rs[..|rs| - 1];
    if k == |rs| - 1 {
      CollectSuccess(front);
      assert forall i :: 0 <= i < |front| ==> front[i] == rs[i];
    } else {
      assert front[k] == rs[k];
      CollectFirstFailure(front, k);
    }
  }

  /** A failing Collect reports the error of the first failing element. */
  lemma {:induction false} CollectFailure<T>(rs: seq<Result<T>>)
    requires Collect(rs).Failure?
    ensures exists k :: 0 <= k < |rs| && rs[k] == Failure(Collect(rs).error)
                        && forall j :: 0 <= j < k ==> rs[j].Success?
  {
    var front := rs[..|rs| - 1];
    assert forall j :: 0 <= j < |front| ==> rs[j] == front[j];
    if Collect(front).Failure? {
      CollectFailure(front);
      var k :| 0 <= k < |front| && front[k] == Failure(Collect(front).error)
               && forall j :: 0 <= j < k ==> front[j].Success?;
      assert rs[k] == front[k];
    } else {
      CollectSuccess(front);
    }
  }

  /** A loop that has collected a prefix and meets a failure stops with it. */
  lemma CollectStopsAt<T>(rs: seq<Result<T>>, k: nat)
    requires k < |rs| && Collect(rs[..k]).Success? && rs[k].Failure?
    ensures Collect(rs) == Failure(rs[k].error)
  {
    CollectSuccess(rs[..k]);
    assert forall j :: 0 <= j < k ==> rs[..k][j] == rs[j];
    CollectFirstFailure(rs, k);
  }

  /** One more element of a prefix: the step the loops of this model take. */
  lemma CollectSnoc<T>(rs: seq<Result<T>>, k: nat, vs: seq<T>)
    requires k < |rs| && Collect(rs[..k]) == Success(vs) && rs[k].Success?
    ensures Collect(rs[..k + 1]) == Success(vs + [rs[k].value])
  {
    assert rs[..k + 1][..k] == rs[..k];
  }
}
