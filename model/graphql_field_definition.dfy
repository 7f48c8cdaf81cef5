/** `GraphQLFieldDefinition`: a field's name, output type and the resolver
    that computes its value from the source object and the arguments. */
module GraphQLFieldDefinitionModel {
  import opened Common
  import opened RuntimeValues
  import opened SchemaTypes

  /** The three kinds of `ResolveValue` the constructors install. */
  datatype ResolveValue =
    | MapEntryResolver(fieldName: string)
    | ConstantResolver(constant: Object)
    | CustomResolver(resolve: (Object, seq<Object>) -> Result<Object>)

  /** `resolve(source, arguments)`. The map-entry resolver casts the source
      to a Map, which fails for any other object, and calls `get` on it,
      which fails for null. */
  function Resolve(resolver: ResolveValue, source: Object, arguments: seq<Object>): (r: Result<Object>)
  {
    match resolver
    case MapEntryResolver(fieldName) =>
      if source == Null then Throws(NullPointerException)
      else if source.JMap? then Ok(Lookup(source.entries, fieldName).GetOr(Null))
      else Throws(ClassCastException)
    case ConstantResolver(constant) => Ok(constant)
    case CustomResolver(resolve) => resolve(source, arguments)
  }

  datatype GraphQLFieldDefinition = GraphQLFieldDefinition(name: string, fieldType: TypeRef, resolveValue: ResolveValue)

  /** `GraphQLFieldDefinition(name, type)`: the value is the source map's
      entry under the field's own name. */
  function WithMapResolver(name: string, fieldType: TypeRef): (d: GraphQLFieldDefinition)
    ensures d.name == name && d.fieldType == fieldType
    ensures forall entries, arguments :: Resolve(d.resolveValue, JMap(entries), arguments) == Ok(Lookup(entries, name).GetOr(Null))
  {
    GraphQLFieldDefinition(name, fieldType, MapEntryResolver(name))
  }

  /** `GraphQLFieldDefinition(name, type, resolveValue)`: the resolver is
      kept as given. */
  function WithResolver(name: string, fieldType: TypeRef, resolveValue: ResolveValue): (d: GraphQLFieldDefinition)
    ensures d.name == name && d.fieldType == fieldType
    ensures forall source, arguments :: Resolve(d.resolveValue, source, arguments) == Resolve(resolveValue, source, arguments)
  {
    GraphQLFieldDefinition(name, fieldType, resolveValue)
  }

  /** `GraphQLFieldDefinition(name, type, value)`: the value whatever the
      source and arguments. */
  function WithValue(name: string, fieldType: TypeRef, value: Object): (d: GraphQLFieldDefinition)
    ensures d.name == name && d.fieldType == fieldType
    ensures forall source, arguments :: Resolve(d.resolveValue, source, arguments) == Ok(value)
  {
    GraphQLFieldDefinition(name, fieldType, ConstantResolver(value))
  }

  /** The map resolver finds the value stored under the field's name, gives
      null when the map has no such key, and fails on a source that is null
      or not a map. */
  lemma {:induction false} MapResolverReadsOwnEntry(name: string, fieldType: TypeRef, source: Object, arguments: seq<Object>)
    ensures var r := Resolve(WithMapResolver(name, fieldType).resolveValue, source, arguments);
      && (source == Null ==> r == Throws(NullPointerException))
      && (source != Null && !source.JMap? ==> r == Throws(ClassCastException))
      && (source.JMap? && source.entries != [] && source.entries[0].name == name ==> r == Ok(source.entries[0].value))
      && (source.JMap? && (forall e :: e in source.entries ==> e.name != name) ==> r == Ok(Null))
  {
    if source.JMap? && (forall e :: e in source.entries ==> e.name != name) {
      assert forall i :: 0 <= i < |source.entries| ==> source.entries[i] in source.entries;
    }
  }

  /** Two fields built with the same constant agree on every input. */
  lemma {:induction false} ConstantResolversAgree(name: string, fieldType: TypeRef, value: Object, source1: Object, arguments1: seq<Object>, source2: Object, arguments2: seq<Object>)
    ensures Resolve(WithValue(name, fieldType, value).resolveValue, source1, arguments1)
         == Resolve(WithValue(name, fieldType, value).resolveValue, source2, arguments2)
  {
  }
}
