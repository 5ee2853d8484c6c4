/**
 * src/utils/result.js: the success/failure record the services return,
 * its predicates and accessors, `combineResults`, and the conversions
 * to and from plain booleans. `null` data and a `null` result are `None`.
 */
module Results {
  import opened Wrappers

  /** `{success: true, data, message}` or `{success: false, error, data}`. */
  datatype Result<D> =
    | Success(data: Option<D>, message: string)
    | Failure(error: string, data: Option<D>)

  /** What `failure` is given: an `Error` object, or any other value with its `String(...)` text. */
  datatype ErrorArg = ErrorObject(message: string) | OtherValue(text: string)

  function SuccessOf<D>(data: Option<D>, message: string): (r: Result<D>)
    ensures IsSuccess(Some(r)) && !IsFailure(Some(r))
    ensures r.data == data
  {
    Success(data, message)
  }

  /** `Result.failure`: the error text is an `Error`'s message, else the value's string form. */
  function FailureOf<D>(error: ErrorArg, data: Option<D>): (r: Result<D>)
    ensures IsFailure(Some(r)) && !IsSuccess(Some(r))
    ensures r.error == (if error.ErrorObject? then error.message else error.text)
    ensures r.data == data
  {
    Failure(if error.ErrorObject? then error.message else error.text, data)
  }

  /** `Result.isSuccess`; a missing result is not a success. */
  predicate IsSuccess<D>(result: Option<Result<D>>)
  {
    result.Some? && result.value.Success?
  }

  /** `Result.isFailure`; a missing result is not a failure either. */
  predicate IsFailure<D>(result: Option<Result<D>>)
  {
    result.Some? && result.value.Failure?
  }

  /** No result is both a success and a failure, and every present result is one of the two. */
  lemma SuccessXorFailure<D>(result: Option<Result<D>>)
    ensures !(IsSuccess(result) && IsFailure(result))
    ensures result.Some? ==> (IsSuccess(result) || IsFailure(result))
    ensures result.None? ==> !IsSuccess(result) && !IsFailure(result)
  {
  }

  /** `Result.getData`: the data of a success, else the default. */
  function GetData<D>(result: Option<Result<D>>, defaultValue: Option<D>): (r: Option<D>)
    ensures IsSuccess(result) ==> r == result.value.data
    ensures !IsSuccess(result) ==> r == defaultValue
  {
    if IsSuccess(result) then result.value.data else defaultValue
  }

  /** `Result.getError`: the error of a failure, else `null`. */
  function GetError<D>(result: Option<Result<D>>): (r: Option<string>)
    ensures r.Some? <==> IsFailure(result)
    ensures r.Some? ==> r.value == result.value.error
  {
    if IsFailure(result) then Some(result.value.error) else None
  }

  // ------------------------------------------------------------ combineResults

  /** The errors of the failures, in order. */
  function Errors<D>(results: seq<Result<D>>): seq<string>
  {
    if results == [] then []
    else Errors(results[..|results| - 1]) + (if results[|results| - 1].Failure? then [results[|results| - 1].error] else [])
  }

  /** The present data of every result, failures included, in order. */
  function DataList<D>(results: seq<Result<D>>): seq<D>
  {
    if results == [] then []
    else DataList(results[..|results| - 1]) + (if results[|results| - 1].data.Some? then [results[|results| - 1].data.value] else [])
  }

  datatype Combined<D> = Combined(success: bool, data: seq<D>, errors: seq<string>)

  /** `combineResults`: the loop collects errors and data; it succeeds iff no error was collected. */
  method CombineResults<D>(results: seq<Result<D>>) returns (combined: Combined<D>)
    ensures combined.errors == Errors(results)
    ensures combined.data == DataList(results)
    ensures combined.success <==> forall i :: 0 <= i < |results| ==> results[i].Success?
  {
    var errors: seq<string> := [];
    var dataList: seq<D> := [];
    for i := 0 to |results|
      invariant errors == Errors(results[..i])
      invariant dataList == DataList(results[..i])
    {
      assert results[..i + 1][..i] == results[..i];
      var result := results[i];
      if result.Failure? {
        errors := errors + [result.error];
      }
      if result.data.Some? {
        dataList := dataList + [result.data.value];
      }
    }
    assert results[..|results|] == results;
    NoErrorsIffAllSucceed(results);
    combined := Combined(|errors| == 0, dataList, errors);
  }

  /** The error list is empty exactly when every result is a success. */
  lemma {:induction false} NoErrorsIffAllSucceed<D>(results: seq<Result<D>>)
    ensures Errors(results) == [] <==> forall i :: 0 <= i < |results| ==> results[i].Success?
  {
    if results != [] {
      var init := results[..|results| - 1];
      NoErrorsIffAllSucceed(init);
      assert forall i :: 0 <= i < |init| ==> init[i] == results[i];
    }
  }

  /** Errors of two batches are the first batch's errors followed by the second's. */
  lemma {:induction false} ErrorsAppend<D>(a: seq<Result<D>>, b: seq<Result<D>>)
    ensures Errors(a + b) == Errors(a) + Errors(b)
  {
    if b != [] {
      var init := b[..|b| - 1];
      assert (a + b)[..|a + b| - 1] == a + init;
      ErrorsAppend(a, init);
    } else {
      assert a + b == a;
    }
  }

  /** Data of two batches are the first batch's data followed by the second's. */
  lemma {:induction false} DataListAppend<D>(a: seq<Result<D>>, b: seq<Result<D>>)
    ensures DataList(a + b) == DataList(a) + DataList(b)
  {
    if b != [] {
      var init := b[..|b| - 1];
      assert (a + b)[..|a + b| - 1] == a + init;
      DataListAppend(a, init);
    } else {
      assert a + b == a;
    }
  }

  /** One error per failure, and at most one datum per result. */
  lemma {:induction false} CombinedSizes<D>(results: seq<Result<D>>)
    ensures |Errors(results)| == |set i | 0 <= i < |results| && results[i].Failure?|
    ensures |DataList(results)| <= |results|
  {
    if results != [] {
      var n := |results| - 1;
      var init := results[..n];
      CombinedSizes(init);
      var before := set i | 0 <= i < |init| && init[i].Failure?;
      var after := set i | 0 <= i < |results| && results[i].Failure?;
      assert after == before + (if results[n].Failure? then {n} else {});
    }
  }

  // ------------------------------------------------------------ boolean conversions

  const DEFAULT_FAILURE_MESSAGE: string := "処理に失敗しました"

  /** `booleanToResult`: `true` is a success carrying the data, `false` a failure with the message. */
  function BooleanToResult<D>(booleanResult: bool, successData: Option<D>, failureMessage: string): (r: Result<D>)
    ensures r.Success? <==> booleanResult
    ensures booleanResult ==> r.data == successData && r.message == ""
    ensures !booleanResult ==> r.error == failureMessage && r.data.None?
  {
    if booleanResult then SuccessOf(successData, "") else FailureOf(OtherValue(failureMessage), None)
  }

  /** `resultToBoolean`. */
  function ResultToBoolean<D>(result: Option<Result<D>>): (b: bool)
    ensures b <==> IsSuccess(result)
  {
    IsSuccess(result)
  }

  /** A boolean survives the trip through a result. */
  lemma BooleanRoundTrip<D>(b: bool, successData: Option<D>, failureMessage: string)
    ensures ResultToBoolean(Some(BooleanToResult(b, successData, failureMessage))) == b
  {
  }
}
