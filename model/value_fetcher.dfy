/** graphql.execution.nextgen.ValueFetcher: calls a field's data fetcher and
    turns what it returns, throws or completes with into a FetchedValue.

    Futures are modelled by their outcome: a CompletableFuture the fetcher
    completes in place, and a CompletionStage the fetcher returns already
    completed or still pending. The data fetcher is a parameter. */
module ValueFetcher {
  import opened Common

  /** A Java object as the fetcher sees it: null, the NULL_VALUE sentinel, a
      List, a CompletionStage (completed, or pending for good), a
      DataFetcherResult, a java.util.Optional, or any other object. */
  datatype Object =
    | Null
    | NullValue
    | Other(id: int)
    | ListObject(items: seq<Object>)
    | Stage(completion: Option<Completion>)
    | DataFetcherResult(data: Object, errors: seq<GraphQLError>)
    | OptionalObject(content: Option<Object>)

  /** How a future or stage completed: with a value or with a throwable. */
  datatype Completion = Completed(value: Object) | CompletedExceptionally(exception: Exception)

  /** The merged AST fields of one result key; `getSingleField` stands for
      the first of them, identified by its source location. */
  datatype MergedFields = MergedFields(singleFieldLocation: nat)

  /** The errors a fetch can carry: one a DataFetcherResult supplies
      (relative to the field), ExceptionWhileDataFetching, and
      AbsoluteGraphQLError, which places a relative error at the field. */
  datatype GraphQLError =
    | RelativeError(message: string)
    | ExceptionWhileDataFetching(path: seq<string>, exception: Exception, location: nat)
    | AbsoluteGraphQLError(sameField: MergedFields, path: seq<string>, relative: GraphQLError)

  /** The step info the fetch is made for: its result path. */
  datatype ExecutionStepInfo = ExecutionStepInfo(path: seq<string>)

  /** FetchedValue: the value after unboxing, the raw value, the errors. */
  datatype FetchedValue = FetchedValue(fetchedValue: Object, rawFetchedValue: Object, errors: seq<GraphQLError>)

  /** What `dataFetcher.get(environment)` does: return or throw. */
  datatype FetchOutcome = Returned(value: Object) | Threw(exception: Exception)

  /** A data fetcher, applied to the source and the step info of the
      environment it is given. */
  type DataFetcher = (Object, ExecutionStepInfo) -> FetchOutcome

  /** The state of a CompletableFuture the caller holds. */
  datatype Future<T> = Pending | Succeeded(value: T) | Failed(exception: Exception)

  /** java.util.concurrent.CompletableFuture: completed at most once. */
  class CompletableFuture {
    var state: Option<Completion>

    constructor ()
      ensures state == None
    {
      state := None;
    }

    /** `complete`: takes the value unless already completed. */
    method Complete(value: Object) returns (transitioned: bool)
      modifies this
      ensures transitioned <==> old(state).None?
      ensures state == if old(state).None? then Some(Completed(value)) else old(state)
    {
      transitioned := state.None?;
      if transitioned {
        state := Some(Completed(value));
      }
    }

    /** `completeExceptionally`: takes the throwable unless already
        completed. */
    method CompleteExceptionally(exception: Exception) returns (transitioned: bool)
      modifies this
      ensures transitioned <==> old(state).None?
      ensures state == if old(state).None? then Some(CompletedExceptionally(exception)) else old(state)
    {
      transitioned := state.None?;
      if transitioned {
        state := Some(CompletedExceptionally(exception));
      }
    }
  }

  // ---------------------------------------------------------------------
  // Calling the data fetcher.

  /** How `handleFetchedValue` completes a fresh future: null as the
      NULL_VALUE sentinel, a stage as that stage completes (never, if it is
      pending), anything else as itself. */
  function Handled(fetchedValue: Object): Option<Completion> {
    match fetchedValue
    case Null => Some(Completed(NullValue))
    case Stage(completion) => completion
    case _ => Some(Completed(fetchedValue))
  }

  /** What the future of `callDataFetcher` holds: a thrown exception
      completes it exceptionally instead of propagating. */
  function CalledDataFetcher(outcome: FetchOutcome): Option<Completion> {
    match outcome
    case Threw(e) => Some(CompletedExceptionally(e))
    case Returned(v) => Handled(v)
  }

  /** A null return never reaches the future as null: the future holds null
      only when a returned stage completed with null, and holds the
      sentinel only for a null return or a stage that completed with it. */
  lemma {:induction false} HandledNull(fetchedValue: Object)
    ensures Handled(fetchedValue) == Some(Completed(Null)) <==> fetchedValue == Stage(Some(Completed(Null)))
    ensures Handled(fetchedValue) == Some(Completed(NullValue))
      <==> fetchedValue in {Null, NullValue, Stage(Some(Completed(NullValue)))}
  {
  }

  /** `handleFetchedValue`. */
  method HandleFetchedValue(fetchedValue: Object, cf: CompletableFuture)
    modifies cf
    ensures cf.state == if old(cf.state).None? then Handled(fetchedValue) else old(cf.state)
  {
    if fetchedValue.Null? {
      var _ := cf.Complete(NullValue);
      return;
    }
    if fetchedValue.Stage? {
      match fetchedValue.completion {
        case Some(Completed(value)) =>
          var _ := cf.Complete(value);
        case Some(CompletedExceptionally(throwable)) =>
          var _ := cf.CompleteExceptionally(throwable);
        case None =>
      }
      return;
    }
    var _ := cf.Complete(fetchedValue);
  }

  /** `callDataFetcher`: a fresh future, completed from what the fetcher
      returns or throws. */
  method CallDataFetcher(dataFetcher: DataFetcher, source: Object, executionInfo: ExecutionStepInfo) returns (cf: CompletableFuture)
    ensures fresh(cf)
    ensures cf.state == CalledDataFetcher(dataFetcher(source, executionInfo))
  {
    cf := new CompletableFuture();
    var fetchedValueRaw := dataFetcher(source, executionInfo);
    match fetchedValueRaw {
      case Threw(e) =>
        var _ := cf.CompleteExceptionally(e);
      case Returned(v) =>
        HandleFetchedValue(v, cf);
    }
  }

  // ---------------------------------------------------------------------
  // Post-processing.

  /** `handleExceptionWhileFetching`: no value, no raw value, one error. */
  function HandleExceptionWhileFetching(sameFields: MergedFields, path: seq<string>, exception: Exception): FetchedValue {
    FetchedValue(Null, Null, [ExceptionWhileDataFetching(path, exception, sameFields.singleFieldLocation)])
  }

  /** Each relative error placed at the field. */
  function Absolute(sameFields: MergedFields, path: seq<string>, errors: seq<GraphQLError>): (r: seq<GraphQLError>)
    ensures |r| == |errors|
    ensures forall k :: 0 <= k < |errors| ==> r[k] == AbsoluteGraphQLError(sameFields, path, errors[k])
  {
    if errors == [] then []
    else [AbsoluteGraphQLError(sameFields, path, errors[0])] + Absolute(sameFields, path, errors[1..])
  }

  /** `unboxPossibleDataFetcherResult`: a DataFetcherResult gives way to
      its data, keeping the raw value, with its errors placed at the field
      after the errors already there; anything else is left alone. */
  function UnboxPossibleDataFetcherResult(sameFields: MergedFields, path: seq<string>, result: FetchedValue): (r: FetchedValue)
    ensures r.rawFetchedValue == result.rawFetchedValue
    ensures !result.fetchedValue.DataFetcherResult? ==> r == result
    ensures result.fetchedValue.DataFetcherResult? ==> (
      var added := result.fetchedValue.errors;
      r.fetchedValue == result.fetchedValue.data
      && |r.errors| == |result.errors| + |added|
      && r.errors[..|result.errors|] == result.errors
      && forall k :: 0 <= k < |added| ==> r.errors[|result.errors| + k] == AbsoluteGraphQLError(sameFields, path, added[k]))
  {
    match result.fetchedValue
    case DataFetcherResult(data, errors) =>
      FetchedValue(data, result.rawFetchedValue, result.errors + Absolute(sameFields, path, errors))
    case _ => result
  }

  /** UnboxPossibleOptional on a value: a present Optional gives its
      content, an empty one null; anything else is left alone. */
  function UnboxOptionalValue(value: Object): Object {
    match value
    case OptionalObject(content) => if content.Some? then content.value else Null
    case _ => value
  }

  /** `unboxPossibleOptional`: only the value changes. */
  function UnboxPossibleOptional(result: FetchedValue): (r: FetchedValue)
    ensures r.rawFetchedValue == result.rawFetchedValue && r.errors == result.errors
  {
    FetchedValue(UnboxOptionalValue(result.fetchedValue), result.rawFetchedValue, result.errors)
  }

  /** The chain `fetchValue` hangs on the data fetcher's future: wrap the
      raw value, recover from an exception, unbox a DataFetcherResult, then
      an Optional. A future that never completes yields nothing. */
  function FetchedFrom(completion: Option<Completion>, sameFields: MergedFields, path: seq<string>): Option<FetchedValue> {
    match completion
    case None => None
    case Some(c) =>
      var wrapped := match c
        case Completed(rawFetchedValue) => FetchedValue(rawFetchedValue, rawFetchedValue, [])
        case CompletedExceptionally(e) => HandleExceptionWhileFetching(sameFields, path, e);
      Some(UnboxPossibleOptional(UnboxPossibleDataFetcherResult(sameFields, path, wrapped)))
  }

  /** The FetchedValue one fetch yields, once its future completes. */
  function FetchedValueOf(outcome: FetchOutcome, sameFields: MergedFields, path: seq<string>): Option<FetchedValue> {
    FetchedFrom(CalledDataFetcher(outcome), sameFields, path)
  }

  /** A fetcher that throws, or returns a stage that fails, yields no value,
      no raw value and exactly one ExceptionWhileDataFetching. */
  lemma {:induction false} FailureGivesOneError(outcome: FetchOutcome, sameFields: MergedFields, path: seq<string>, e: Exception)
    requires outcome == Threw(e) || outcome == Returned(Stage(Some(CompletedExceptionally(e))))
    ensures FetchedValueOf(outcome, sameFields, path)
      == Some(FetchedValue(Null, Null, [ExceptionWhileDataFetching(path, e, sameFields.singleFieldLocation)]))
  {
  }

  /** A fetch never fails: once its future completes there is a value. */
  lemma {:induction false} FetchRecovers(outcome: FetchOutcome, sameFields: MergedFields, path: seq<string>)
    ensures FetchedValueOf(outcome, sameFields, path).None? <==> outcome.Returned? && outcome.value == Stage(None)
  {
  }

  /** The DataFetcherResult step runs before the Optional step: an Optional
      inside a DataFetcherResult is unboxed, a DataFetcherResult inside an
      Optional is not, and either way the raw value is what the fetcher
      returned. */
  lemma {:induction false} UnboxingOrder(x: Object, errors: seq<GraphQLError>, sameFields: MergedFields, path: seq<string>)
    ensures var raw := DataFetcherResult(OptionalObject(Some(x)), errors);
      FetchedValueOf(Returned(raw), sameFields, path) == Some(FetchedValue(x, raw, Absolute(sameFields, path, errors)))
    ensures var raw := OptionalObject(Some(DataFetcherResult(x, errors)));
      FetchedValueOf(Returned(raw), sameFields, path) == Some(FetchedValue(DataFetcherResult(x, errors), raw, []))
  {
    assert [] + Absolute(sameFields, path, errors) == Absolute(sameFields, path, errors);
  }

  /** `fetchValue` for one source, with its step info. */
  method FetchValue(dataFetcher: DataFetcher, source: Object, sameFields: MergedFields, executionInfo: ExecutionStepInfo) returns (r: Option<FetchedValue>)
    ensures r == FetchedValueOf(dataFetcher(source, executionInfo), sameFields, executionInfo.path)
  {
    var cf := CallDataFetcher(dataFetcher, source, executionInfo);
    r := FetchedFrom(cf.state, sameFields, executionInfo.path);
  }

  // ---------------------------------------------------------------------
  // Batches.

  /** What `extractBatchedValues` returns: the cast to List (null fails on
      `size()`), the size assertion, then one FetchedValue per element. */
  function BatchedValues(fetchedValueContainingList: FetchedValue, expectedSize: nat): Result<seq<FetchedValue>> {
    match fetchedValueContainingList.fetchedValue
    case Null => Throws(NullPointerException)
    case ListObject(list) =>
      if |list| != expectedSize then Throws(AssertException("Unexpected result size"))
      else Ok(seq(|list|, i requires 0 <= i < |list| =>
        FetchedValue(list[0], fetchedValueContainingList.rawFetchedValue, if i == 0 then fetchedValueContainingList.errors else [])))
    case _ => Throws(ClassCastException)
  }

  /** A batch result must be a list of the expected size; every element's
      value is the list's FIRST element, all share the raw value, and only
      the first carries the errors. */
  lemma {:induction false} BatchedValuesMeaning(fetchedValueContainingList: FetchedValue, expectedSize: nat)
    ensures var r := BatchedValues(fetchedValueContainingList, expectedSize);
      var v := fetchedValueContainingList.fetchedValue;
      (r.Ok? <==> v.ListObject? && |v.items| == expectedSize)
      && (v.ListObject? && |v.items| != expectedSize ==> r == Throws(AssertException("Unexpected result size")))
      && (r.Ok? ==> (|r.value| == expectedSize
        && (forall i :: 0 <= i < expectedSize ==> (r.value[i].fetchedValue == v.items[0]
          && r.value[i].rawFetchedValue == fetchedValueContainingList.rawFetchedValue))
        && (expectedSize > 0 ==> r.value[0].errors == fetchedValueContainingList.errors)
        && forall i :: 0 < i < expectedSize ==> r.value[i].errors == []))
  {
  }

  /** `extractBatchedValues`. */
  method ExtractBatchedValues(fetchedValueContainingList: FetchedValue, expectedSize: nat) returns (r: Result<seq<FetchedValue>>)
    ensures r == BatchedValues(fetchedValueContainingList, expectedSize)
  {
    match fetchedValueContainingList.fetchedValue {
      case Null =>
        return Throws(NullPointerException);
      case ListObject(list) =>
        if |list| != expectedSize {
          return Throws(AssertException("Unexpected result size"));
        }
        var result: seq<FetchedValue> := [];
        var i := 0;
        while i < |list|
          invariant 0 <= i <= |list|
          invariant |result| == i
          invariant forall k :: 0 <= k < i ==> result[k] == FetchedValue(list[0], fetchedValueContainingList.rawFetchedValue,
            if k == 0 then fetchedValueContainingList.errors else [])
        {
          var errors: seq<GraphQLError>;
          if i == 0 {
            errors := fetchedValueContainingList.errors;
          } else {
            errors := [];
          }
          result := result + [FetchedValue(list[0], fetchedValueContainingList.rawFetchedValue, errors)];
          i := i + 1;
        }
        assert result == seq(|list|, k requires 0 <= k < |list| =>
          FetchedValue(list[0], fetchedValueContainingList.rawFetchedValue, if k == 0 then fetchedValueContainingList.errors else []));
        return Ok(result);
      case _ =>
        return Throws(ClassCastException);
    }
  }

  /** `thenApply(extractBatchedValues)`: an exception fails the future. */
  function BatchedFuture(fetched: Option<FetchedValue>, expectedSize: nat): Future<seq<FetchedValue>> {
    match fetched
    case None => Pending
    case Some(fv) =>
      match BatchedValues(fv, expectedSize)
      case Ok(values) => Succeeded(values)
      case Throws(e) => Failed(e)
  }

  /** Async.each: the values in order once every future has completed. */
  function Each(values: seq<Option<FetchedValue>>): (r: Future<seq<FetchedValue>>)
    ensures !r.Failed?
    ensures r.Succeeded? <==> forall i :: 0 <= i < |values| ==> values[i].Some?
    ensures r.Succeeded? ==> |r.value| == |values| && forall i :: 0 <= i < |values| ==> values[i] == Some(r.value[i])
  {
    if values == [] then Succeeded([])
    else
      match Each(values[..|values| - 1])
      case Succeeded(init) =>
        if values[|values| - 1].Some? then Succeeded(init + [values[|values| - 1].value]) else Pending
      case _ => Pending
  }

  /** The fetches made without batching: one per source, with the step
      info of the same index. */
  function PerSourceFetches(dataFetcher: DataFetcher, sources: seq<Object>, sameFields: MergedFields, executionInfos: seq<ExecutionStepInfo>): (r: seq<Option<FetchedValue>>)
    requires |sources| <= |executionInfos|
    ensures |r| == |sources|
  {
    seq(|sources|, i requires 0 <= i < |sources| =>
      FetchedValueOf(dataFetcher(sources[i], executionInfos[i]), sameFields, executionInfos[i].path))
  }

  /** `fetchBatchedValues`: the step info of the first source decides, with
      `isDataFetcherBatched`, whether one fetch serves the whole list of
      sources or each source is fetched on its own. A synchronous
      exception is a `Throws`; the future's state is the `Future`. */
  method FetchBatchedValues(dataFetcher: DataFetcher, isDataFetcherBatched: ExecutionStepInfo -> bool, sources: seq<Object>,
                            sameFields: MergedFields, executionInfos: seq<ExecutionStepInfo>) returns (r: Result<Future<seq<FetchedValue>>>)
    ensures executionInfos == [] ==> r == Throws(IndexOutOfBoundsException)
    ensures executionInfos != [] && !isDataFetcherBatched(executionInfos[0]) ==>
      (if |sources| <= |executionInfos| then r == Ok(Each(PerSourceFetches(dataFetcher, sources, sameFields, executionInfos)))
       else r == Throws(IndexOutOfBoundsException))
    ensures executionInfos != [] && isDataFetcherBatched(executionInfos[0]) ==>
      r == Ok(BatchedFuture(FetchedValueOf(dataFetcher(ListObject(sources), executionInfos[0]), sameFields, executionInfos[0].path), |sources|))
  {
    if executionInfos == [] {
      return Throws(IndexOutOfBoundsException);
    }
    var executionStepInfo := executionInfos[0];
    if isDataFetcherBatched(executionStepInfo) {
      var fetchedValue := FetchValue(dataFetcher, ListObject(sources), sameFields, executionStepInfo);
      if fetchedValue.None? {
        return Ok(Pending);
      }
      var extracted := ExtractBatchedValues(fetchedValue.value, |sources|);
      match extracted {
        case Ok(values) => return Ok(Succeeded(values));
        case Throws(e) => return Ok(Failed(e));
      }
    } else {
      var fetchedValues: seq<Option<FetchedValue>> := [];
      var i := 0;
      while i < |sources|
        invariant 0 <= i <= |sources|
        invariant i <= |executionInfos|
        invariant fetchedValues == PerSourceFetches(dataFetcher, sources[..i], sameFields, executionInfos[..i])
      {
        if i >= |executionInfos| {
          return Throws(IndexOutOfBoundsException);
        }
        var fetched := FetchValue(dataFetcher, sources[i], sameFields, executionInfos[i]);
        assert sources[..i + 1] == sources[..i] + [sources[i]];
        assert executionInfos[..i + 1] == executionInfos[..i] + [executionInfos[i]];
        fetchedValues := fetchedValues + [fetched];
        i := i + 1;
      }
      assert sources[..i] == sources;
      assert PerSourceFetches(dataFetcher, sources, sameFields, executionInfos[..i])
        == PerSourceFetches(dataFetcher, sources, sameFields, executionInfos);
      return Ok(Each(fetchedValues));
    }
  }

  /** Without batching, once every fetch has completed the values come in
      source order, each the fetch of its source with the step info of the
      same index. */
  lemma {:induction false} PerSourceOrder(dataFetcher: DataFetcher, sources: seq<Object>, sameFields: MergedFields, executionInfos: seq<ExecutionStepInfo>)
    requires |sources| <= |executionInfos|
    requires Each(PerSourceFetches(dataFetcher, sources, sameFields, executionInfos)).Succeeded?
    ensures var values := Each(PerSourceFetches(dataFetcher, sources, sameFields, executionInfos)).value;
      |values| == |sources|
      && forall i :: 0 <= i < |sources| ==>
        Some(values[i]) == FetchedValueOf(dataFetcher(sources[i], executionInfos[i]), sameFields, executionInfos[i].path)
  {
  }
}
