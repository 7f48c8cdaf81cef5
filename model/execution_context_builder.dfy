/** graphql.execution.ExecutionContextBuilder: indexes the operations and
    fragments of a document by name, picks the operation to run, and fills a
    fresh ExecutionContext. The operation-name check is modelled as written:
    it rejects a GIVEN name when the document has several operations. */
module ExecutionContextBuilder {
  import opened Common
  import opened Ast
  import opened SchemaTypes
  import opened LinkedMaps
  import opened RuntimeValues
  import opened ExecutionContext

  /** `operationsByName`: keyed by the (possibly null) operation name;
      a later operation with the same name replaces an earlier one. */
  function IndexOperations(definitions: seq<Definition>): (r: LinkedMap<Option<string>, OperationDefinition>)
    ensures r.Valid()
  {
    if definitions == [] then Empty()
    else
      var m := IndexOperations(definitions[..|definitions| - 1]);
      var d := definitions[|definitions| - 1];
      if d.OperationDef? then m.Put(d.operationDefinition.name, d.operationDefinition) else m
  }

  /** `fragmentsByName`: a later fragment with the same name replaces an
      earlier one. */
  function IndexFragments(definitions: seq<Definition>): (r: LinkedMap<string, FragmentDefinition>)
    ensures r.Valid()
  {
    if definitions == [] then Empty()
    else
      var m := IndexFragments(definitions[..|definitions| - 1]);
      var d := definitions[|definitions| - 1];
      if d.FragmentDef? then m.Put(d.fragmentDefinition.name, d.fragmentDefinition) else m
  }

  /** The last fragment definition in the document with the given name. */
  function LastFragmentNamed(definitions: seq<Definition>, name: string): Option<FragmentDefinition> {
    if definitions == [] then None
    else
      var d := definitions[|definitions| - 1];
      if d.FragmentDef? && d.fragmentDefinition.name == name then Some(d.fragmentDefinition)
      else LastFragmentNamed(definitions[..|definitions| - 1], name)
  }

  /** The operation selection of `build`, as written: a given name with more
      than one operation throws "missing operation name"; no name takes the
      first operation (none at all throws NoSuchElementException); a name
      that matches nothing throws GraphQLException. */
  function SelectOperation(operations: LinkedMap<Option<string>, OperationDefinition>, operationName: Option<string>): (r: Result<OperationDefinition>)
    requires operations.Valid()
  {
    if operationName.Some? && operations.Size() > 1 then Throws(GraphQLException("missing operation name"))
    else if operationName.None? then
      if operations.Size() == 0 then Throws(NoSuchElementException)
      else Ok(operations.Values()[0])
    else
      match operations.Get(operationName)
      case Some(op) => Ok(op)
      case None => Throws(GraphQLException(""))
  }

  /** `build`. The variable coercion of the resolver is a parameter. */
  method Build(schema: Schema, root: Object, document: Document, operationName: Option<string>, args: LinkedMap<string, Object>,
               getVariableValues: (Schema, OperationDefinition, LinkedMap<string, Object>) -> LinkedMap<string, Object>)
    returns (r: Result<ExecutionContext>)
    ensures var op := SelectOperation(IndexOperations(document.definitions), operationName);
      r.Throws? <==> op.Throws?
    ensures r.Throws? ==> r.error == SelectOperation(IndexOperations(document.definitions), operationName).error
    ensures r.Ok? ==> fresh(r.value)
    ensures r.Ok? ==> var ctx := r.value; var op := SelectOperation(IndexOperations(document.definitions), operationName).value;
      ctx.graphQLSchema == Some(schema) && ctx.operationDefinition == Some(op) && ctx.root == root
      && ctx.fragmentsByName == IndexFragments(document.definitions)
      && ctx.variables == getVariableValues(schema, op, args)
  {
    var fragmentsByName: LinkedMap<string, FragmentDefinition> := Empty();
    var operationsByName: LinkedMap<Option<string>, OperationDefinition> := Empty();
    var definitions := document.definitions;
    var i := 0;
    while i < |definitions|
      invariant 0 <= i <= |definitions|
      invariant operationsByName == IndexOperations(definitions[..i])
      invariant fragmentsByName == IndexFragments(definitions[..i])
    {
      assert definitions[..i + 1][..i] == definitions[..i];
      var definition := definitions[i];
      if definition.OperationDef? {
        operationsByName := operationsByName.Put(definition.operationDefinition.name, definition.operationDefinition);
      }
      if definition.FragmentDef? {
        fragmentsByName := fragmentsByName.Put(definition.fragmentDefinition.name, definition.fragmentDefinition);
      }
      i := i + 1;
    }
    assert definitions[..i] == definitions;
    if operationName.Some? && operationsByName.Size() > 1 {
      return Throws(GraphQLException("missing operation name"));
    }
    var operation: OperationDefinition;
    if operationName.None? {
      if operationsByName.Size() == 0 {
        return Throws(NoSuchElementException);
      }
      operation := operationsByName.Values()[0];
    } else {
      var found := operationsByName.Get(operationName);
      if found.None? {
        return Throws(GraphQLException(""));
      }
      operation := found.value;
    }
    var ctx := new ExecutionContext();
    ctx.SetGraphQLSchema(Some(schema));
    ctx.SetOperationDefinition(Some(operation));
    ctx.SetRoot(root);
    ctx.SetFragmentsByName(fragmentsByName);
    var variableValues := getVariableValues(schema, operation, args);
    ctx.SetVariables(variableValues);
    r := Ok(ctx);
  }

  /** A fragment name maps to the last definition with that name. */
  lemma {:induction false} LaterFragmentWins(definitions: seq<Definition>, name: string)
    ensures IndexFragments(definitions).Get(name) == LastFragmentNamed(definitions, name)
  {
    if definitions != [] {
      LaterFragmentWins(definitions[..|definitions| - 1], name);
    }
  }

  /** With no operation name the operation chosen is the one stored under the
      name of the first operation of the document: since a later operation
      with the same name replaces it, that is the LAST operation sharing the
      first one's name. */
  lemma {:induction false} NoNameSelectsFirstOperation(definitions: seq<Definition>, i: nat)
    requires i < |definitions| && definitions[i].OperationDef?
    requires forall j :: 0 <= j < i ==> !definitions[j].OperationDef?
    ensures SelectOperation(IndexOperations(definitions), None)
      == Ok(LastOperationNamed(definitions, definitions[i].operationDefinition.name))
  {
    FirstOperationStaysFirst(definitions, i, |definitions|);
    assert definitions[..|definitions|] == definitions;
    LastOperationIndexed(definitions, definitions[i].operationDefinition.name);
  }

  /** The first key of the operation index is the first operation's name. */
  lemma {:induction false} FirstOperationStaysFirst(definitions: seq<Definition>, i: nat, n: nat)
    requires i < n <= |definitions| && definitions[i].OperationDef?
    requires forall j :: 0 <= j < i ==> !definitions[j].OperationDef?
    ensures var m := IndexOperations(definitions[..n]);
      m.Size() > 0 && m.keys[0] == definitions[i].operationDefinition.name
    decreases n
  {
    var prefix := definitions[..n - 1];
    assert definitions[..n][..n - 1] == prefix;
    if n - 1 == i {
      NoOperationsBefore(definitions, i);
    } else {
      FirstOperationStaysFirst(definitions, i, n - 1);
    }
  }

  /** Before the first operation nothing is indexed. */
  lemma {:induction false} NoOperationsBefore(definitions: seq<Definition>, i: nat)
    requires i <= |definitions|
    requires forall j :: 0 <= j < i ==> !definitions[j].OperationDef?
    ensures IndexOperations(definitions[..i]).Size() == 0
  {
    if i > 0 {
      assert definitions[..i][..i - 1] == definitions[..i - 1];
      NoOperationsBefore(definitions, i - 1);
    }
  }

  /** The last operation in the document with the given name. */
  function LastOperationNamed(definitions: seq<Definition>, name: Option<string>): OperationDefinition
    requires exists j :: 0 <= j < |definitions| && definitions[j].OperationDef? && definitions[j].operationDefinition.name == name
  {
    var d := definitions[|definitions| - 1];
    if d.OperationDef? && d.operationDefinition.name == name then d.operationDefinition
    else LastOperationNamed(definitions[..|definitions| - 1], name)
  }

  lemma {:induction false} LastOperationIndexed(definitions: seq<Definition>, name: Option<string>)
    requires exists j :: 0 <= j < |definitions| && definitions[j].OperationDef? && definitions[j].operationDefinition.name == name
    ensures IndexOperations(definitions).Get(name) == Some(LastOperationNamed(definitions, name))
  {
    var d := definitions[|definitions| - 1];
    if !(d.OperationDef? && d.operationDefinition.name == name) {
      var prefix := definitions[..|definitions| - 1];
      var j :| 0 <= j < |definitions| && definitions[j].OperationDef? && definitions[j].operationDefinition.name == name;
      assert j < |definitions| - 1 && prefix[j] == definitions[j];
      LastOperationIndexed(prefix, name);
    }
  }

  /** As written, naming the wanted operation in a document with two
      operations is rejected. */
  lemma {:induction false} NamedOperationAmongSeveralIsRejected(a: OperationDefinition, b: OperationDefinition)
    requires a.name == Some("A") && b.name == Some("B")
    ensures SelectOperation(IndexOperations([OperationDef(a), OperationDef(b)]), Some("A")) == Throws(GraphQLException("missing operation name"))
  {
    var defs := [OperationDef(a), OperationDef(b)];
    assert defs[..1][..0] == [];
    assert IndexOperations(defs[..1]).keys == [Some("A")];
    assert defs[..2] == defs;
  }

  /** A single operation is found by its own name. */
  lemma {:induction false} SingleOperationFoundByName(op: OperationDefinition)
    requires op.name.Some?
    ensures SelectOperation(IndexOperations([OperationDef(op)]), op.name) == Ok(op)
  {
    assert [OperationDef(op)][..0] == [];
  }
}
