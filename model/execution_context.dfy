/** graphql.execution.ExecutionContext: the mutable bag of per-request state
    that the builder fills and the field collector reads. The getters are
    the fields themselves. */
module ExecutionContext {
  import opened Common
  import opened Ast
  import opened SchemaTypes
  import opened LinkedMaps
  import opened RuntimeValues

  class ExecutionContext {
    var graphQLSchema: Option<Schema>
    var fragmentsByName: LinkedMap<string, FragmentDefinition>
    var operationDefinition: Option<OperationDefinition>
    var variables: LinkedMap<string, Object>
    var root: Object

    /** A fresh context: no schema, operation or root, and empty fragment
        and variable maps. */
    constructor ()
      ensures graphQLSchema == None && operationDefinition == None && root == Null
      ensures fragmentsByName == Empty() && variables == Empty()
    {
      graphQLSchema := None;
      fragmentsByName := Empty();
      operationDefinition := None;
      variables := Empty();
      root := Null;
    }

    method SetGraphQLSchema(schema: Option<Schema>)
      modifies this`graphQLSchema
      ensures graphQLSchema == schema
    {
      graphQLSchema := schema;
    }

    method SetFragmentsByName(fragments: LinkedMap<string, FragmentDefinition>)
      modifies this`fragmentsByName
      ensures fragmentsByName == fragments
    {
      fragmentsByName := fragments;
    }

    method SetOperationDefinition(operation: Option<OperationDefinition>)
      modifies this`operationDefinition
      ensures operationDefinition == operation
    {
      operationDefinition := operation;
    }

    method SetVariables(values: LinkedMap<string, Object>)
      modifies this`variables
      ensures variables == values
    {
      variables := values;
    }

    method SetRoot(value: Object)
      modifies this`root
      ensures root == value
    {
      root := value;
    }

    /** `getFragment(name)`: the definition registered under the name, or
        null when there is none. */
    function GetFragment(name: string): (r: Option<FragmentDefinition>)
      reads this
      ensures r.Some? <==> name in fragmentsByName.entries
      ensures r.Some? ==> r.value == fragmentsByName.entries[name]
    {
      fragmentsByName.Get(name)
    }
  }
}
