/** Java runtime values that flow through data fetchers, resolvers and
    literal conversion, distinguished by the `instanceof` tests the modelled
    code makes on them. */
module RuntimeValues {
  import opened Common

  datatype Throwable = Throwable(className: string, message: string)

  /** One step of an execution path: a field key or a list index. */
  datatype PathSegment = Key(key: string) | Index(index: int)

  datatype GraphQLError =
    | ExceptionWhileDataFetching(path: seq<PathSegment>, exception: Throwable)
    | AbsoluteGraphQLError(absolutePath: seq<PathSegment>, relative: GraphQLError)
    | ErrorWithMessage(message: string)

  /** How a CompletionStage completes. */
  datatype Completion = CompletesWith(value: Object) | CompletesExceptionally(exception: Throwable)

  datatype Object =
    | Null
    | JBoolean(boolValue: bool)
    | JInteger(intValue: int)
    | JNumber(numberText: string)
    | JString(stringValue: string)
    | JList(items: seq<Object>)
    | JMap(entries: seq<Entry>)
    | JBean(getters: seq<Entry>, publicFields: seq<Entry>)
    | JCompletionStage(completion: Completion)
    | JDataFetcherResult(data: Object, errors: seq<GraphQLError>)
    | JOptional(content: Option<Object>)
    | JOther(identity: nat)
  {
    /** `instanceof Number`: an Integer or any other Number. */
    predicate IsNumber() { JInteger? || JNumber? }
  }

  /** A map entry, a getter's name and result, or a field's name and value. */
  datatype Entry = Entry(name: string, value: Object)

  /** `Map.get`, or the member with that name: the first entry with the
      name, or None. */
  function Lookup(entries: seq<Entry>, name: string): (r: Option<Object>)
    ensures r.Some? <==> exists i :: 0 <= i < |entries| && entries[i].name == name
    ensures r.Some? ==> exists i :: 0 <= i < |entries| && entries[i] == Entry(name, r.value)
  {
    if entries == [] then None
    else if entries[0].name == name then Some(entries[0].value)
    else
      var r := Lookup(entries[1..], name);
      assert r.Some? ==> entries[1..][0] in entries;
      r
  }
}
