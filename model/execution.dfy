/** graphql.execution.Execution: picks the root type of the operation,
    collects its top-level fields into a fresh map, runs the strategy that
    belongs to the operation kind, and turns a non-null violation that
    reaches the root into a result with null data. Strategies, the error
    list of the context and instrumentation are outside this model: a
    strategy run is a function parameter and the errors are a parameter. */
module Execution {
  import opened Common
  import opened Ast
  import opened SchemaTypes
  import opened LinkedMaps
  import opened RuntimeValues
  import opened ExecutionContext
  import opened FieldCollector

  /** An execution strategy, identified; `SimpleExecutionStrategy` is the default. */
  datatype ExecutionStrategy = SimpleExecutionStrategy | GivenStrategy(id: nat)

  /** `ExecutionResultImpl`: data (null when absent) and errors. */
  datatype ExecutionResult = ExecutionResult(data: Option<Object>, errors: seq<GraphQLError>)

  /** What running a strategy does: return a result, raise
      NonNullableFieldWasNullException, or raise anything else. */
  datatype StrategyOutcome =
    | Returns(result: ExecutionResult)
    | NonNullableFieldWasNull
    | Raises(exception: Exception)

  /** A strategy run, given the strategy, the root type, the source object
      and the collected top-level fields. */
  type StrategyRun = (ExecutionStrategy, Option<string>, Object, LinkedMap<string, seq<Field>>) -> StrategyOutcome

  class Execution {
    const queryStrategy: ExecutionStrategy
    const mutationStrategy: ExecutionStrategy

    /** A null strategy is replaced by a new SimpleExecutionStrategy. */
    constructor (queryStrategy: Option<ExecutionStrategy>, mutationStrategy: Option<ExecutionStrategy>)
      ensures this.queryStrategy == queryStrategy.GetOr(SimpleExecutionStrategy)
      ensures this.mutationStrategy == mutationStrategy.GetOr(SimpleExecutionStrategy)
    {
      this.queryStrategy := queryStrategy.GetOr(SimpleExecutionStrategy);
      this.mutationStrategy := mutationStrategy.GetOr(SimpleExecutionStrategy);
    }

    /** The strategy that runs an operation of the given kind. */
    function StrategyFor(kind: OperationKind): (s: ExecutionStrategy)
      ensures kind == Mutation ==> s == mutationStrategy
      ensures kind != Mutation ==> s == queryStrategy
    {
      if kind == Mutation then mutationStrategy else queryStrategy
    }

    /** What `executeOperation` produces, as a function of its inputs. */
    function OperationResult(schema: Option<Schema>, fragments: LinkedMap<string, FragmentDefinition>, root: Object,
                             operation: OperationDefinition, errors: seq<GraphQLError>, run: StrategyRun): Result<ExecutionResult>
      requires fragments.Valid()
    {
      match GetOperationRootType(schema, operation)
      case Throws(e) => Throws(e)
      case Ok(rootType) =>
        var collected := CollectAll(fragments, Collected(Empty(), [], false), operation.selectionSet.selections);
        if collected.failed then Throws(NullPointerException)
        else
          match run(StrategyFor(operation.operation), rootType, root, collected.fields)
          case Returns(result) => Ok(result)
          case NonNullableFieldWasNull => Ok(ExecutionResult(None, errors))
          case Raises(e) => Throws(e)
    }

    /** `executeOperation`. */
    method ExecuteOperation(executionContext: ExecutionContext, root: Object, operationDefinition: OperationDefinition,
                            errors: seq<GraphQLError>, run: StrategyRun) returns (r: Result<ExecutionResult>)
      requires executionContext.fragmentsByName.Valid()
      ensures r == OperationResult(executionContext.graphQLSchema, executionContext.fragmentsByName, root, operationDefinition, errors, run)
    {
      var operationRootType :- GetOperationRootType(executionContext.graphQLSchema, operationDefinition);
      var fields := new FieldMap();
      var visited := new VisitedList();
      var collected := CollectFields(executionContext, operationRootType, operationDefinition.selectionSet, visited, fields);
      if collected.Throws? {
        return Throws(collected.error);
      }
      var outcome: StrategyOutcome;
      if operationDefinition.operation == Mutation {
        outcome := run(mutationStrategy, operationRootType, root, fields.contents);
      } else {
        outcome := run(queryStrategy, operationRootType, root, fields.contents);
      }
      match outcome {
        case Returns(result) => r := Ok(result);
        case NonNullableFieldWasNull => r := Ok(ExecutionResult(None, errors));
        case Raises(e) => r := Throws(e);
      }
    }

    /** A non-null violation that reaches the root is not rethrown: the
        result has null data and the context's errors. */
    lemma {:induction false} NonNullViolationGivesNullData(schema: Option<Schema>, fragments: LinkedMap<string, FragmentDefinition>, root: Object,
                                        operation: OperationDefinition, errors: seq<GraphQLError>, run: StrategyRun)
      requires fragments.Valid()
      requires GetOperationRootType(schema, operation).Ok?
      requires !UnknownSpread(fragments, Collected(Empty(), [], false), operation.selectionSet.selections)
      requires forall t, fs :: run(StrategyFor(operation.operation), t, root, fs) == NonNullableFieldWasNull
      ensures OperationResult(schema, fragments, root, operation, errors, run) == Ok(ExecutionResult(None, errors))
    {
      CollectFailsOnUnknownFragment(fragments, Collected(Empty(), [], false), operation.selectionSet.selections);
    }

    /** The strategy sees exactly the fields grouped from the top-level
        selections, starting from an empty map and visited list. */
    lemma {:induction false} StrategySeesTopLevelFields(schema: Option<Schema>, fragments: LinkedMap<string, FragmentDefinition>, root: Object,
                                     operation: OperationDefinition, errors: seq<GraphQLError>, run: StrategyRun, key: string)
      requires fragments.Valid()
      requires GetOperationRootType(schema, operation).Ok?
      requires !UnknownSpread(fragments, Collected(Empty(), [], false), operation.selectionSet.selections)
      ensures var fields := CollectAll(fragments, Collected(Empty(), [], false), operation.selectionSet.selections).fields;
        KeyList(fields, key) == FieldsWithKey(operation.selectionSet.selections, key)
        && (OperationResult(schema, fragments, root, operation, errors, run).Ok?
            <==> !run(StrategyFor(operation.operation), GetOperationRootType(schema, operation).value, root, fields).Raises?)
    {
      var init := Collected(Empty(), [], false);
      CollectFailsOnUnknownFragment(fragments, init, operation.selectionSet.selections);
      CollectGroupsByKey(fragments, init, operation.selectionSet.selections, key);
    }
  }

  /** `getOperationRootType`: the mutation type for MUTATION, the query type
      for QUERY, GraphQLException for anything else; reading either type
      from a null schema is a NullPointerException. The mutation type may be
      null. */
  function GetOperationRootType(schema: Option<Schema>, operation: OperationDefinition): (r: Result<Option<string>>)
    ensures operation.operation == Subscription <==> r == Throws(GraphQLException(""))
    ensures operation.operation != Subscription && schema.None? <==> r == Throws(NullPointerException)
    ensures operation.operation == Mutation && schema.Some? ==> r == Ok(schema.value.mutationType)
    ensures operation.operation == Query && schema.Some? ==> r == Ok(Some(schema.value.queryType))
  {
    match operation.operation
    case Mutation => if schema.None? then Throws(NullPointerException) else Ok(schema.value.mutationType)
    case Query => if schema.None? then Throws(NullPointerException) else Ok(Some(schema.value.queryType))
    case Subscription => Throws(GraphQLException(""))
  }
}
