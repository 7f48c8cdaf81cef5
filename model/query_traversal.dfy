/** graphql.analysis.QueryTraversal: walks a document (or part of one)
    depth first and calls a query visitor on each field, inline fragment
    and fragment spread it enters and leaves, tracking the schema type each
    field is selected on.

    The walk is the sequence of `Visit`s the query visitor is offered.
    Nodes without a query callback (operations, selection sets, arguments,
    directives, fragment definitions) produce no visit and contain no
    field outside their selection sets, so they are not listed. A fragment
    definition that the traversal has already visited is a back-reference:
    its selections are not walked again. */
module QueryTraversal {
  import opened Common
  import opened Ast
  import opened SchemaTypes
  import opened RuntimeValues

  const NotNullMessage := "Object required to be not null"

  /** A node the traversal can start from. */
  datatype Root =
    | OperationRoot(operation: OperationDefinition)
    | FragmentDefinitionRoot(definition: FragmentDefinition)
    | SelectionSetRoot(selectionSet: SelectionSet)
    | SelectionRoot(selection: Selection)

  /** A traversal: the schema, the single root, the fragments by name, the
      variables and the object type the root is selected on. */
  datatype Traversal = Traversal(
    schema: Schema,
    root: Root,
    fragmentsByName: map<string, FragmentDefinition>,
    variables: map<string, Object>,
    rootParentType: string)

  /** What NodeUtil.getOperation gives: the chosen operation and the
      fragments by name. */
  datatype OperationAndFragments = OperationAndFragments(
    operationDefinition: OperationDefinition,
    fragmentsByName: map<string, FragmentDefinition>)

  /** The collaborators the traversal only calls:
      ConditionalNodes.shouldInclude(variables, directives) and
      Introspection.getFieldDef(schema, parentRawType, fieldName). */
  datatype Collaborators = Collaborators(
    shouldInclude: (map<string, Object>, seq<Directive>) -> bool,
    getFieldDef: (Schema, Option<string>, string) -> Result<FieldDefinition>)

  /** `getRootTypeFromOperation`: the schema's root type for the
      operation's kind, which must exist. */
  function RootTypeFromOperation(schema: Schema, kind: OperationKind): (r: Result<string>)
    ensures kind == Query ==> r == Ok(schema.queryType)
    ensures kind == Mutation ==> (r.Ok? <==> schema.mutationType.Some?) && (r.Ok? ==> r.value == schema.mutationType.value)
    ensures kind == Subscription ==> (r.Ok? <==> schema.subscriptionType.Some?) && (r.Ok? ==> r.value == schema.subscriptionType.value)
    ensures r.Throws? ==> r.error == AssertException(NotNullMessage)
  {
    match kind
    case Mutation => if schema.mutationType.Some? then Ok(schema.mutationType.value) else Throws(AssertException(NotNullMessage))
    case Query => Ok(schema.queryType)
    case Subscription => if schema.subscriptionType.Some? then Ok(schema.subscriptionType.value) else Throws(AssertException(NotNullMessage))
  }

  /** The constructor from a document: checks the document, chooses the
      operation, checks schema and variables, and takes the root type from
      the operation. */
  function FromDocument(schema: Option<Schema>, document: Option<Document>, operation: Option<string>,
                        variables: Option<map<string, Object>>,
                        getOperation: (Document, Option<string>) -> Result<OperationAndFragments>): (r: Result<Traversal>)
  {
    if document.None? then Throws(AssertException("document  can't be null"))
    else
      var chosen :- getOperation(document.value, operation);
      if schema.None? then Throws(AssertException("schema can't be null"))
      else if variables.None? then Throws(AssertException("variables can't be null"))
      else
        var rootParentType :- RootTypeFromOperation(schema.value, chosen.operationDefinition.operation);
        Ok(Traversal(schema.value, OperationRoot(chosen.operationDefinition), chosen.fragmentsByName, variables.value, rootParentType))
  }

  /** The constructor from a root node, checking each argument in turn. */
  function FromRoot(schema: Option<Schema>, root: Option<Root>, rootParentType: Option<string>,
                    fragmentsByName: Option<map<string, FragmentDefinition>>,
                    variables: Option<map<string, Object>>): (r: Result<Traversal>)
  {
    if schema.None? then Throws(AssertException("schema can't be null"))
    else if variables.None? then Throws(AssertException("variables can't be null"))
    else if root.None? then Throws(AssertException("root can't be null"))
    else if rootParentType.None? then Throws(AssertException("rootParentType can't be null"))
    else if fragmentsByName.None? then Throws(AssertException("fragmentsByName can't be null"))
    else Ok(Traversal(schema.value, root.value, fragmentsByName.value, variables.value, rootParentType.value))
  }

  /** QueryTraversal.Builder: every setter records one argument. */
  class Builder {
    var schema: Option<Schema>
    var document: Option<Document>
    var operation: Option<string>
    var variables: Option<map<string, Object>>
    var root: Option<Root>
    var rootParentType: Option<string>
    var fragmentsByName: Option<map<string, FragmentDefinition>>

    constructor ()
      ensures schema.None? && document.None? && operation.None? && variables.None?
      ensures root.None? && rootParentType.None? && fragmentsByName.None?
    {
      schema := None;
      document := None;
      operation := None;
      variables := None;
      root := None;
      rootParentType := None;
      fragmentsByName := None;
    }

    method Schema(s: Option<Schema>) returns (r: Builder)
      modifies this
      ensures r == this && schema == s
      ensures document == old(document) && operation == old(operation) && variables == old(variables)
      ensures root == old(root) && rootParentType == old(rootParentType) && fragmentsByName == old(fragmentsByName)
    {
      schema := s;
      return this;
    }

    method OperationName(name: Option<string>) returns (r: Builder)
      modifies this
      ensures r == this && operation == name
      ensures schema == old(schema) && document == old(document) && variables == old(variables)
      ensures root == old(root) && rootParentType == old(rootParentType) && fragmentsByName == old(fragmentsByName)
    {
      operation := name;
      return this;
    }

    method Document(d: Option<Document>) returns (r: Builder)
      modifies this
      ensures r == this && document == d
      ensures schema == old(schema) && operation == old(operation) && variables == old(variables)
      ensures root == old(root) && rootParentType == old(rootParentType) && fragmentsByName == old(fragmentsByName)
    {
      document := d;
      return this;
    }

    method Variables(v: Option<map<string, Object>>) returns (r: Builder)
      modifies this
      ensures r == this && variables == v
      ensures schema == old(schema) && document == old(document) && operation == old(operation)
      ensures root == old(root) && rootParentType == old(rootParentType) && fragmentsByName == old(fragmentsByName)
    {
      variables := v;
      return this;
    }

    method Root(n: Option<Root>) returns (r: Builder)
      modifies this
      ensures r == this && root == n
      ensures schema == old(schema) && document == old(document) && operation == old(operation)
      ensures variables == old(variables) && rootParentType == old(rootParentType) && fragmentsByName == old(fragmentsByName)
    {
      root := n;
      return this;
    }

    method RootParentType(t: Option<string>) returns (r: Builder)
      modifies this
      ensures r == this && rootParentType == t
      ensures schema == old(schema) && document == old(document) && operation == old(operation)
      ensures variables == old(variables) && root == old(root) && fragmentsByName == old(fragmentsByName)
    {
      rootParentType := t;
      return this;
    }

    method FragmentsByName(m: Option<map<string, FragmentDefinition>>) returns (r: Builder)
      modifies this
      ensures r == this && fragmentsByName == m
      ensures schema == old(schema) && document == old(document) && operation == old(operation)
      ensures variables == old(variables) && root == old(root) && rootParentType == old(rootParentType)
    {
      fragmentsByName := m;
      return this;
    }

    /** `checkState`: a document or operation name may not be combined
        with a root, a root parent type or a fragment map. */
    function CheckState(): (r: Result<()>)
      reads this
    {
      if (document.Some? || operation.Some?) && (root.Some? || rootParentType.Some? || fragmentsByName.Some?)
      then Throws(IllegalStateException("ambiguous builder"))
      else Ok(())
    }

    /** `build`: the document constructor when a document is set, else the
        root constructor. */
    function Build(getOperation: (Document, Option<string>) -> Result<OperationAndFragments>): (r: Result<Traversal>)
      reads this
    {
      var _ :- CheckState();
      if document.Some? then FromDocument(schema, document, operation, variables, getOperation)
      else FromRoot(schema, root, rootParentType, fragmentsByName, variables)
    }

    /** `build` fails with "ambiguous builder" exactly when a document or
        operation name is set together with a root, a root parent type or
        a fragment map; otherwise it uses the document constructor when a
        document is set and the root constructor when not. */
    lemma {:induction false} BuildChoosesConstructor(getOperation: (Document, Option<string>) -> Result<OperationAndFragments>)
      ensures var ambiguous := (document.Some? || operation.Some?) && (root.Some? || rootParentType.Some? || fragmentsByName.Some?);
        (ambiguous ==> Build(getOperation) == Throws(IllegalStateException("ambiguous builder")))
        && (!ambiguous && document.Some? ==> Build(getOperation) == FromDocument(schema, document, operation, variables, getOperation))
        && (!ambiguous && document.None? ==> Build(getOperation) == FromRoot(schema, root, rootParentType, fragmentsByName, variables))
    {
    }
  }

  /** A traversal built from a document starts at the chosen operation and
      is rooted at the schema's type for that operation's kind; one built
      from a root keeps every argument it was given. */
  lemma {:induction false} ConstructorsMeaning(schema: Option<Schema>, document: Option<Document>, operation: Option<string>,
                            variables: Option<map<string, Object>>,
                            getOperation: (Document, Option<string>) -> Result<OperationAndFragments>,
                            root: Option<Root>, rootParentType: Option<string>,
                            fragmentsByName: Option<map<string, FragmentDefinition>>)
    ensures var r := FromDocument(schema, document, operation, variables, getOperation);
      r.Ok? ==> (document.Some? && getOperation(document.value, operation).Ok?
        && var chosen := getOperation(document.value, operation).value;
        r.value.root == OperationRoot(chosen.operationDefinition) && r.value.fragmentsByName == chosen.fragmentsByName
        && Some(r.value.schema) == schema && Some(r.value.variables) == variables
        && RootTypeFromOperation(r.value.schema, chosen.operationDefinition.operation) == Ok(r.value.rootParentType))
    ensures var r := FromRoot(schema, root, rootParentType, fragmentsByName, variables);
      (r.Ok? <==> schema.Some? && root.Some? && rootParentType.Some? && fragmentsByName.Some? && variables.Some?)
      && (r.Ok? ==> (Some(r.value.schema) == schema && Some(r.value.root) == root && Some(r.value.rootParentType) == rootParentType
        && Some(r.value.fragmentsByName) == fragmentsByName && Some(r.value.variables) == variables))
  {
  }

  /** The nodes of the walk as the traverser sees them. */
  datatype Node =
    | RootNode(root: Root)
    | FragmentDefinitionNode(definition: FragmentDefinition)
    | OtherNode(identity: nat)

  /** `childrenOf`: a fragment spread's one child is the fragment
      definition of that name, a null reference when there is none; any
      other node's children are its own. */
  function ChildrenOf(node: Node, getChildren: Node -> seq<Node>, fragmentsByName: map<string, FragmentDefinition>): (r: seq<Option<Node>>)
    ensures (node.RootNode? && node.root.SelectionRoot? && node.root.selection.SpreadSelection?) ==>
      (var name := node.root.selection.spread.name;
        |r| == 1 && (r[0].Some? <==> name in fragmentsByName)
        && (r[0].Some? ==> r[0].value == FragmentDefinitionNode(fragmentsByName[name])))
    ensures !(node.RootNode? && node.root.SelectionRoot? && node.root.selection.SpreadSelection?) ==>
      |r| == |getChildren(node)| && forall i :: 0 <= i < |r| ==> r[i] == Some(getChildren(node)[i])
  {
    if node.RootNode? && node.root.SelectionRoot? && node.root.selection.SpreadSelection? then
      var name := node.root.selection.spread.name;
      [if name in fragmentsByName then Some(FragmentDefinitionNode(fragmentsByName[name])) else None]
    else
      seq(|getChildren(node)|, i requires 0 <= i < |getChildren(node)| => Some(getChildren(node)[i]))
  }

  /** The query visitor environments. */
  datatype Environment =
    | FieldEnvironment(field: Field, fieldDefinition: FieldDefinition, parentType: Option<string>, shouldInclude: bool)
    | InlineFragmentEnvironment(inlineFragment: InlineFragment, shouldInclude: bool)
    | FragmentSpreadEnvironment(fragmentSpread: FragmentSpread, fragmentDefinition: FragmentDefinition, shouldInclude: bool)

  datatype Phase = Enter | Leave

  datatype Visit = Visit(phase: Phase, environment: Environment)

  /** `visitImpl`'s callback choice: with no order both phases call the
      visitor; pre-order calls it on entering only, post-order on leaving
      only, and the other phase gets a no-op visitor. */
  function CallsVisitor(preOrder: Option<bool>, phase: Phase): (r: bool)
  {
    if preOrder.None? then true
    else if phase == Enter then preOrder.value
    else !preOrder.value
  }

  /** The visits the query visitor receives, in order. */
  function Delivered(visits: seq<Visit>, preOrder: Option<bool>): (r: seq<Visit>)
  {
    if visits == [] then []
    else (if CallsVisitor(preOrder, visits[0].phase) then [visits[0]] else []) + Delivered(visits[1..], preOrder)
  }

  lemma {:induction false} DeliveredConcat(a: seq<Visit>, b: seq<Visit>, preOrder: Option<bool>)
    ensures Delivered(a + b, preOrder) == Delivered(a, preOrder) + Delivered(b, preOrder)
  {
    if a != [] {
      assert (a + b)[0] == a[0];
      assert (a + b)[1..] == a[1..] + b;
      DeliveredConcat(a[1..], b, preOrder);
      var head := if CallsVisitor(preOrder, a[0].phase) then [a[0]] else [];
      assert head + (Delivered(a[1..], preOrder) + Delivered(b, preOrder)) == (head + Delivered(a[1..], preOrder)) + Delivered(b, preOrder);
    } else {
      assert a + b == b;
    }
  }

  lemma {:induction false} DeliveredSingle(v: Visit, preOrder: Option<bool>)
    ensures Delivered([v], preOrder) == if CallsVisitor(preOrder, v.phase) then [v] else []
  {
    assert [v][1..] == [];
  }

  /** With no order the visitor sees every visit. */
  lemma {:induction false} DeliveredUnordered(visits: seq<Visit>)
    ensures Delivered(visits, None) == visits
  {
    if visits != [] {
      DeliveredUnordered(visits[1..]);
      assert visits == [visits[0]] + visits[1..];
    }
  }

  /** In pre-order the visitor sees only entering visits, in post-order
      only leaving ones. */
  lemma {:induction false} DeliveredPhases(visits: seq<Visit>, preOrder: bool)
    ensures forall k :: 0 <= k < |Delivered(visits, Some(preOrder))| ==>
      (Delivered(visits, Some(preOrder))[k].phase == Enter <==> preOrder)
  {
    if visits != [] {
      DeliveredPhases(visits[1..], preOrder);
    }
  }

  /** Between them pre-order and post-order see every visit exactly once. */
  lemma {:induction false} DeliveredPartition(visits: seq<Visit>)
    ensures multiset(Delivered(visits, Some(true))) + multiset(Delivered(visits, Some(false))) == multiset(visits)
  {
    if visits != [] {
      DeliveredPartition(visits[1..]);
      assert visits == [visits[0]] + visits[1..];
    }
  }

  /** The field environments among the visits, in order. */
  function FieldEnvironments(visits: seq<Visit>): (r: seq<Environment>)
  {
    if visits == [] then []
    else (if visits[0].environment.FieldEnvironment? then [visits[0].environment] else []) + FieldEnvironments(visits[1..])
  }

  lemma {:induction false} FieldEnvironmentsConcat(a: seq<Visit>, b: seq<Visit>)
    ensures FieldEnvironments(a + b) == FieldEnvironments(a) + FieldEnvironments(b)
  {
    if a != [] {
      assert (a + b)[0] == a[0];
      assert (a + b)[1..] == a[1..] + b;
      FieldEnvironmentsConcat(a[1..], b);
      var head := if a[0].environment.FieldEnvironment? then [a[0].environment] else [];
      assert head + (FieldEnvironments(a[1..]) + FieldEnvironments(b)) == (head + FieldEnvironments(a[1..])) + FieldEnvironments(b);
    } else {
      assert a + b == b;
    }
  }

  /** The environments of the visits, in order. */
  function Environments(visits: seq<Visit>): (r: seq<Environment>)
  {
    if visits == [] then [] else [visits[0].environment] + Environments(visits[1..])
  }

  lemma {:induction false} EnvironmentsConcat(a: seq<Visit>, b: seq<Visit>)
    ensures Environments(a + b) == Environments(a) + Environments(b)
  {
    if a != [] {
      assert (a + b)[0] == a[0];
      assert (a + b)[1..] == a[1..] + b;
      EnvironmentsConcat(a[1..], b);
    } else {
      assert a + b == b;
    }
  }

  /** The type a fragment condition names, cast to a composite type: null
      when the schema has no such type, a ClassCastException when the type
      is not composite. */
  function CompositeNamed(schema: Schema, typeName: string): (r: Result<Option<string>>)
    ensures r.Throws? <==> schema.GetType(typeName).Some? && !schema.GetType(typeName).value.IsComposite()
    ensures r.Throws? ==> r.error == ClassCastException
    ensures r.Ok? ==> (r.value.Some? <==> schema.GetType(typeName).Some?) && (r.value.Some? ==> r.value.value == typeName)
  {
    match schema.GetType(typeName)
    case None => Ok(None)
    case Some(t) => if t.IsComposite() then Ok(Some(typeName)) else Throws(ClassCastException)
  }

  /** The raw type a field's selections are selected on: its unwrapped
      type when that is composite, none for a leaf. */
  function FieldRawType(schema: Schema, definition: FieldDefinition): (r: Option<string>)
    ensures r.Some? ==> r.value == UnwrapAll(definition.fieldType) && schema.GetType(r.value).Some? && schema.GetType(r.value).value.IsComposite()
    ensures r.None? ==> schema.GetType(UnwrapAll(definition.fieldType)).None? || !schema.GetType(UnwrapAll(definition.fieldType)).value.IsComposite()
  {
    var unmodified := UnwrapAll(definition.fieldType);
    match schema.GetType(unmodified)
    case Some(t) => if t.IsComposite() then Some(unmodified) else None
    case None => None
  }

  /** The visits of a walk and the fragment names visited after it. */
  datatype Walked = Walked(visits: seq<Visit>, visited: set<string>)

  function Unvisited(t: Traversal, visited: set<string>): nat {
    |t.fragmentsByName.Keys - visited|
  }

  lemma {:induction false} UnvisitedShrinks(t: Traversal, before: set<string>, after: set<string>)
    requires before <= after
    ensures Unvisited(t, after) <= Unvisited(t, before)
  {
    SubsetCard(t.fragmentsByName.Keys - after, t.fragmentsByName.Keys - before);
  }

  lemma {:induction false} UnvisitedDrops(t: Traversal, visited: set<string>, name: string)
    requires name in t.fragmentsByName && name !in visited
    ensures Unvisited(t, visited + {name}) < Unvisited(t, visited)
  {
    var before := t.fragmentsByName.Keys - visited;
    assert t.fragmentsByName.Keys - (visited + {name}) == before - {name};
  }

  /** The walk of a selection list under the given parent raw type. */
  function WalkSelections(t: Traversal, c: Collaborators, selections: seq<Selection>, visited: set<string>,
                          parentType: Option<string>): (r: Result<Walked>)
    ensures r.Ok? ==> visited <= r.value.visited
    decreases Unvisited(t, visited), SelectionsSize(selections), 1
  {
    if selections == [] then Ok(Walked([], visited))
    else
      var first :- WalkSelection(t, c, selections[0], visited, parentType);
      UnvisitedShrinks(t, visited, first.visited);
      var rest :- WalkSelections(t, c, selections[1..], first.visited, parentType);
      Ok(Walked(first.visits + rest.visits, rest.visited))
  }

  /** The walk of one selection: enter it, walk what it selects, leave it.
      A field's selections are on its raw type; an inline fragment's on its
      condition, or the parent's type when it has none; a spread's on its
      definition's condition, and only the first time the definition is
      reached. The include flags are reported, not acted on. */
  function WalkSelection(t: Traversal, c: Collaborators, selection: Selection, visited: set<string>,
                         parentType: Option<string>): (r: Result<Walked>)
    ensures r.Ok? ==> visited <= r.value.visited
    decreases Unvisited(t, visited), SelectionSize(selection), 0
  {
    match selection
    case FieldSelection(f) =>
      var definition :- c.getFieldDef(t.schema, parentType, f.name);
      var e := FieldEnvironment(f, definition, parentType, c.shouldInclude(t.variables, f.directives));
      if f.selectionSet.None? then Ok(Walked([Visit(Enter, e), Visit(Leave, e)], visited))
      else
        var inner :- WalkSelections(t, c, f.selectionSet.value.selections, visited, FieldRawType(t.schema, definition));
        Ok(Walked([Visit(Enter, e)] + inner.visits + [Visit(Leave, e)], inner.visited))
    case InlineSelection(i) =>
      var e := InlineFragmentEnvironment(i, c.shouldInclude(t.variables, i.directives));
      var condition :- if i.typeCondition.Some? then CompositeNamed(t.schema, i.typeCondition.value) else Ok(parentType);
      var inner :- WalkSelections(t, c, i.selectionSet.selections, visited, condition);
      Ok(Walked([Visit(Enter, e)] + inner.visits + [Visit(Leave, e)], inner.visited))
    case SpreadSelection(s) =>
      if s.name !in t.fragmentsByName then Throws(NullPointerException)
      else
        var definition := t.fragmentsByName[s.name];
        var included := c.shouldInclude(t.variables, s.directives) && c.shouldInclude(t.variables, definition.directives);
        var e := FragmentSpreadEnvironment(s, definition, included);
        var condition :- CompositeNamed(t.schema, definition.typeCondition);
        if s.name in visited then Ok(Walked([Visit(Enter, e), Visit(Leave, e)], visited))
        else
          UnvisitedDrops(t, visited, s.name);
          var inner :- WalkSelections(t, c, definition.selectionSet.selections, visited + {s.name}, condition);
          Ok(Walked([Visit(Enter, e)] + inner.visits + [Visit(Leave, e)], inner.visited))
  }

  /** The whole walk from the traversal's root, on its root parent type. */
  function Walk(t: Traversal, c: Collaborators): (r: Result<Walked>)
  {
    var rootType := Some(t.rootParentType);
    match t.root
    case OperationRoot(operation) => WalkSelections(t, c, operation.selectionSet.selections, {}, rootType)
    case FragmentDefinitionRoot(definition) => WalkSelections(t, c, definition.selectionSet.selections, {}, rootType)
    case SelectionSetRoot(selectionSet) => WalkSelections(t, c, selectionSet.selections, {}, rootType)
    case SelectionRoot(selection) => WalkSelection(t, c, selection, {}, rootType)
  }

  /** Every environment leaves exactly as often as it enters: the visits
      are balanced, so pre-order and post-order see the same environments
      and the same field environments, each in its own order. */
  predicate Balanced(visits: seq<Visit>) {
    multiset(Environments(Delivered(visits, Some(true)))) == multiset(Environments(Delivered(visits, Some(false))))
    && multiset(FieldEnvironments(Delivered(visits, Some(true)))) == multiset(FieldEnvironments(Delivered(visits, Some(false))))
  }

  lemma {:induction false} BalancedConcat(a: seq<Visit>, b: seq<Visit>)
    requires Balanced(a) && Balanced(b)
    ensures Balanced(a + b)
  {
    DeliveredConcat(a, b, Some(true));
    DeliveredConcat(a, b, Some(false));
    FieldEnvironmentsConcat(Delivered(a, Some(true)), Delivered(b, Some(true)));
    FieldEnvironmentsConcat(Delivered(a, Some(false)), Delivered(b, Some(false)));
    EnvironmentsConcat(Delivered(a, Some(true)), Delivered(b, Some(true)));
    EnvironmentsConcat(Delivered(a, Some(false)), Delivered(b, Some(false)));
  }

  /** Entering and leaving one environment around balanced visits is
      balanced. */
  lemma {:induction false} Bracketed(e: Environment, inner: seq<Visit>)
    requires Balanced(inner)
    ensures Balanced([Visit(Enter, e)] + inner + [Visit(Leave, e)])
  {
    BracketDelivered(e, inner);
    BracketedEnvironments(e, Delivered(inner, Some(true)), Delivered(inner, Some(false)));
    BracketedFieldEnvironments(e, Delivered(inner, Some(true)), Delivered(inner, Some(false)));
  }

  lemma {:induction false} BracketedEnvironments(e: Environment, pre: seq<Visit>, post: seq<Visit>)
    requires multiset(Environments(pre)) == multiset(Environments(post))
    ensures multiset(Environments([Visit(Enter, e)] + pre)) == multiset(Environments(post + [Visit(Leave, e)]))
  {
    var enter := [Visit(Enter, e)];
    var leave := [Visit(Leave, e)];
    EnvironmentsConcat(enter, pre);
    EnvironmentsConcat(post, leave);
    assert enter[1..] == [] && leave[1..] == [];
    assert Environments(enter) == [e] == Environments(leave);
  }

  lemma {:induction false} BracketedFieldEnvironments(e: Environment, pre: seq<Visit>, post: seq<Visit>)
    requires multiset(FieldEnvironments(pre)) == multiset(FieldEnvironments(post))
    ensures multiset(FieldEnvironments([Visit(Enter, e)] + pre)) == multiset(FieldEnvironments(post + [Visit(Leave, e)]))
  {
    var enter := [Visit(Enter, e)];
    var leave := [Visit(Leave, e)];
    FieldEnvironmentsConcat(enter, pre);
    FieldEnvironmentsConcat(post, leave);
    assert enter[1..] == [] && leave[1..] == [];
    assert FieldEnvironments(enter) == FieldEnvironments(leave);
  }

  lemma {:induction false} BracketDelivered(e: Environment, inner: seq<Visit>)
    ensures Delivered([Visit(Enter, e)] + inner + [Visit(Leave, e)], Some(true)) == [Visit(Enter, e)] + Delivered(inner, Some(true))
    ensures Delivered([Visit(Enter, e)] + inner + [Visit(Leave, e)], Some(false)) == Delivered(inner, Some(false)) + [Visit(Leave, e)]
  {
    var enter := [Visit(Enter, e)];
    var leave := [Visit(Leave, e)];
    DeliveredSingle(Visit(Enter, e), Some(true));
    DeliveredSingle(Visit(Enter, e), Some(false));
    DeliveredSingle(Visit(Leave, e), Some(true));
    DeliveredSingle(Visit(Leave, e), Some(false));
    DeliveredConcat(enter, inner, Some(true));
    DeliveredConcat(enter, inner, Some(false));
    DeliveredConcat(enter + inner, leave, Some(true));
    DeliveredConcat(enter + inner, leave, Some(false));
  }

  lemma {:induction false} SelectionsBalanced(t: Traversal, c: Collaborators, selections: seq<Selection>, visited: set<string>,
                                              parentType: Option<string>)
    requires WalkSelections(t, c, selections, visited, parentType).Ok?
    ensures Balanced(WalkSelections(t, c, selections, visited, parentType).value.visits)
    decreases Unvisited(t, visited), SelectionsSize(selections), 1
  {
    if selections == [] {
      assert Delivered([], Some(true)) == [] && Delivered([], Some(false)) == [];
    } else {
      var first := WalkSelection(t, c, selections[0], visited, parentType).value;
      SelectionBalanced(t, c, selections[0], visited, parentType);
      UnvisitedShrinks(t, visited, first.visited);
      SelectionsBalanced(t, c, selections[1..], first.visited, parentType);
      BalancedConcat(first.visits, WalkSelections(t, c, selections[1..], first.visited, parentType).value.visits);
    }
  }

  lemma {:induction false} SelectionBalanced(t: Traversal, c: Collaborators, selection: Selection, visited: set<string>,
                                             parentType: Option<string>)
    requires WalkSelection(t, c, selection, visited, parentType).Ok?
    ensures Balanced(WalkSelection(t, c, selection, visited, parentType).value.visits)
    decreases Unvisited(t, visited), SelectionSize(selection), 0
  {
    match selection
    case FieldSelection(f) => FieldSelectionBalanced(t, c, f, visited, parentType);
    case InlineSelection(i) => InlineSelectionBalanced(t, c, i, visited, parentType);
    case SpreadSelection(s) => SpreadSelectionBalanced(t, c, s, visited, parentType);
  }

  lemma {:induction false} NoVisitsBracketed(e: Environment)
    ensures Balanced([Visit(Enter, e), Visit(Leave, e)])
  {
    var noVisits: seq<Visit> := [];
    assert Delivered(noVisits, Some(true)) == [] && Delivered(noVisits, Some(false)) == [];
    Bracketed(e, noVisits);
    assert [Visit(Enter, e)] + noVisits + [Visit(Leave, e)] == [Visit(Enter, e), Visit(Leave, e)];
  }

  lemma {:induction false} FieldSelectionBalanced(t: Traversal, c: Collaborators, f: Field, visited: set<string>, parentType: Option<string>)
    requires WalkSelection(t, c, FieldSelection(f), visited, parentType).Ok?
    ensures Balanced(WalkSelection(t, c, FieldSelection(f), visited, parentType).value.visits)
    decreases Unvisited(t, visited), if f.selectionSet.Some? then SelectionsSize(f.selectionSet.value.selections) else 0, 2
  {
    var definition := c.getFieldDef(t.schema, parentType, f.name).value;
    var e := FieldEnvironment(f, definition, parentType, c.shouldInclude(t.variables, f.directives));
    if f.selectionSet.None? {
      NoVisitsBracketed(e);
    } else {
      SelectionsBalanced(t, c, f.selectionSet.value.selections, visited, FieldRawType(t.schema, definition));
      Bracketed(e, WalkSelections(t, c, f.selectionSet.value.selections, visited, FieldRawType(t.schema, definition)).value.visits);
    }
  }

  lemma {:induction false} InlineSelectionBalanced(t: Traversal, c: Collaborators, i: InlineFragment, visited: set<string>, parentType: Option<string>)
    requires WalkSelection(t, c, InlineSelection(i), visited, parentType).Ok?
    ensures Balanced(WalkSelection(t, c, InlineSelection(i), visited, parentType).value.visits)
    decreases Unvisited(t, visited), SelectionsSize(i.selectionSet.selections), 2
  {
    var e := InlineFragmentEnvironment(i, c.shouldInclude(t.variables, i.directives));
    var condition := (if i.typeCondition.Some? then CompositeNamed(t.schema, i.typeCondition.value) else Ok(parentType)).value;
    SelectionsBalanced(t, c, i.selectionSet.selections, visited, condition);
    Bracketed(e, WalkSelections(t, c, i.selectionSet.selections, visited, condition).value.visits);
  }

  lemma {:induction false} SpreadSelectionBalanced(t: Traversal, c: Collaborators, s: FragmentSpread, visited: set<string>, parentType: Option<string>)
    requires WalkSelection(t, c, SpreadSelection(s), visited, parentType).Ok?
    ensures Balanced(WalkSelection(t, c, SpreadSelection(s), visited, parentType).value.visits)
    decreases Unvisited(t, visited), 0, 0
  {
    var definition := t.fragmentsByName[s.name];
    var included := c.shouldInclude(t.variables, s.directives) && c.shouldInclude(t.variables, definition.directives);
    var e := FragmentSpreadEnvironment(s, definition, included);
    var condition := CompositeNamed(t.schema, definition.typeCondition).value;
    if s.name in visited {
      NoVisitsBracketed(e);
    } else {
      UnvisitedDrops(t, visited, s.name);
      SelectionsBalanced(t, c, definition.selectionSet.selections, visited + {s.name}, condition);
      Bracketed(e, WalkSelections(t, c, definition.selectionSet.selections, visited + {s.name}, condition).value.visits);
    }
  }

  /** What every visit reports agrees with the document and the
      collaborators: a field's definition is the one looked up on the
      parent type and its include flag is its directives'; an inline
      fragment's flag is its directives'; a spread names a known fragment,
      reports that definition, and is included only when both the spread's
      and the definition's directives include it. */
  predicate Consistent(t: Traversal, c: Collaborators, v: Visit) {
    match v.environment
    case FieldEnvironment(f, definition, parentType, included) =>
      c.getFieldDef(t.schema, parentType, f.name) == Ok(definition) && included == c.shouldInclude(t.variables, f.directives)
    case InlineFragmentEnvironment(i, included) =>
      included == c.shouldInclude(t.variables, i.directives)
    case FragmentSpreadEnvironment(s, definition, included) =>
      s.name in t.fragmentsByName && definition == t.fragmentsByName[s.name]
      && included == (c.shouldInclude(t.variables, s.directives) && c.shouldInclude(t.variables, definition.directives))
  }

  predicate AllConsistent(t: Traversal, c: Collaborators, visits: seq<Visit>) {
    forall k :: 0 <= k < |visits| ==> Consistent(t, c, visits[k])
  }

  lemma {:induction false} AllConsistentConcat(t: Traversal, c: Collaborators, a: seq<Visit>, b: seq<Visit>)
    requires AllConsistent(t, c, a) && AllConsistent(t, c, b)
    ensures AllConsistent(t, c, a + b)
  {
    forall k | 0 <= k < |a + b|
      ensures Consistent(t, c, (a + b)[k])
    {
      if k >= |a| {
        assert (a + b)[k] == b[k - |a|];
      }
    }
  }

  lemma {:induction false} BracketConsistent(t: Traversal, c: Collaborators, e: Environment, inner: seq<Visit>)
    requires Consistent(t, c, Visit(Enter, e)) && AllConsistent(t, c, inner)
    ensures AllConsistent(t, c, [Visit(Enter, e)] + inner + [Visit(Leave, e)])
  {
    assert Consistent(t, c, Visit(Leave, e));
    AllConsistentConcat(t, c, [Visit(Enter, e)], inner);
    AllConsistentConcat(t, c, [Visit(Enter, e)] + inner, [Visit(Leave, e)]);
  }

  lemma {:induction false} SelectionsConsistent(t: Traversal, c: Collaborators, selections: seq<Selection>, visited: set<string>,
                                                parentType: Option<string>)
    requires WalkSelections(t, c, selections, visited, parentType).Ok?
    ensures AllConsistent(t, c, WalkSelections(t, c, selections, visited, parentType).value.visits)
    decreases Unvisited(t, visited), SelectionsSize(selections), 1, 0
  {
    if selections != [] {
      var first := WalkSelection(t, c, selections[0], visited, parentType).value;
      SelectionConsistent(t, c, selections[0], visited, parentType);
      UnvisitedShrinks(t, visited, first.visited);
      SelectionsConsistent(t, c, selections[1..], first.visited, parentType);
      AllConsistentConcat(t, c, first.visits, WalkSelections(t, c, selections[1..], first.visited, parentType).value.visits);
    }
  }

  lemma {:induction false} SelectionConsistent(t: Traversal, c: Collaborators, selection: Selection, visited: set<string>,
                                               parentType: Option<string>)
    requires WalkSelection(t, c, selection, visited, parentType).Ok?
    ensures AllConsistent(t, c, WalkSelection(t, c, selection, visited, parentType).value.visits)
    decreases Unvisited(t, visited), SelectionSize(selection), 0, 1
  {
    match selection
    case FieldSelection(_) => FieldSelectionConsistent(t, c, selection, visited, parentType);
    case InlineSelection(_) => InlineSelectionConsistent(t, c, selection, visited, parentType);
    case SpreadSelection(_) => SpreadSelectionConsistent(t, c, selection, visited, parentType);
  }

  lemma {:induction false} FieldSelectionConsistent(t: Traversal, c: Collaborators, selection: Selection, visited: set<string>,
                                                    parentType: Option<string>)
    requires selection.FieldSelection? && WalkSelection(t, c, selection, visited, parentType).Ok?
    ensures AllConsistent(t, c, WalkSelection(t, c, selection, visited, parentType).value.visits)
    decreases Unvisited(t, visited), SelectionSize(selection), 0, 0
  {
    var noVisits: seq<Visit> := [];
    var f := selection.field;
    var definition := c.getFieldDef(t.schema, parentType, f.name).value;
    var e := FieldEnvironment(f, definition, parentType, c.shouldInclude(t.variables, f.directives));
    if f.selectionSet.None? {
      BracketConsistent(t, c, e, noVisits);
      assert [Visit(Enter, e)] + noVisits + [Visit(Leave, e)] == [Visit(Enter, e), Visit(Leave, e)];
    } else {
      SelectionsConsistent(t, c, f.selectionSet.value.selections, visited, FieldRawType(t.schema, definition));
      BracketConsistent(t, c, e, WalkSelections(t, c, f.selectionSet.value.selections, visited, FieldRawType(t.schema, definition)).value.visits);
    }
  }

  lemma {:induction false} InlineSelectionConsistent(t: Traversal, c: Collaborators, selection: Selection, visited: set<string>,
                                                     parentType: Option<string>)
    requires selection.InlineSelection? && WalkSelection(t, c, selection, visited, parentType).Ok?
    ensures AllConsistent(t, c, WalkSelection(t, c, selection, visited, parentType).value.visits)
    decreases Unvisited(t, visited), SelectionSize(selection), 0, 0
  {
    var i := selection.inline;
    var e := InlineFragmentEnvironment(i, c.shouldInclude(t.variables, i.directives));
    var condition := (if i.typeCondition.Some? then CompositeNamed(t.schema, i.typeCondition.value) else Ok(parentType)).value;
    SelectionsConsistent(t, c, i.selectionSet.selections, visited, condition);
    BracketConsistent(t, c, e, WalkSelections(t, c, i.selectionSet.selections, visited, condition).value.visits);
  }

  lemma {:induction false} SpreadSelectionConsistent(t: Traversal, c: Collaborators, selection: Selection, visited: set<string>,
                                                     parentType: Option<string>)
    requires selection.SpreadSelection? && WalkSelection(t, c, selection, visited, parentType).Ok?
    ensures AllConsistent(t, c, WalkSelection(t, c, selection, visited, parentType).value.visits)
    decreases Unvisited(t, visited), SelectionSize(selection), 0, 0
  {
    var noVisits: seq<Visit> := [];
    var s := selection.spread;
    var definition := t.fragmentsByName[s.name];
    var included := c.shouldInclude(t.variables, s.directives) && c.shouldInclude(t.variables, definition.directives);
    var e := FragmentSpreadEnvironment(s, definition, included);
    var condition := CompositeNamed(t.schema, definition.typeCondition).value;
    if s.name in visited {
      BracketConsistent(t, c, e, noVisits);
      assert [Visit(Enter, e)] + noVisits + [Visit(Leave, e)] == [Visit(Enter, e), Visit(Leave, e)];
    } else {
      UnvisitedDrops(t, visited, s.name);
      SelectionsConsistent(t, c, definition.selectionSet.selections, visited + {s.name}, condition);
      BracketConsistent(t, c, e, WalkSelections(t, c, definition.selectionSet.selections, visited + {s.name}, condition).value.visits);
    }
  }

  /** A whole walk is balanced and reports consistent environments. */
  lemma {:induction false} WalkMeaning(t: Traversal, c: Collaborators)
    requires Walk(t, c).Ok?
    ensures Balanced(Walk(t, c).value.visits)
    ensures AllConsistent(t, c, Walk(t, c).value.visits)
  {
    var rootType := Some(t.rootParentType);
    match t.root
    case OperationRoot(operation) =>
      SelectionsBalanced(t, c, operation.selectionSet.selections, {}, rootType);
      SelectionsConsistent(t, c, operation.selectionSet.selections, {}, rootType);
    case FragmentDefinitionRoot(definition) =>
      SelectionsBalanced(t, c, definition.selectionSet.selections, {}, rootType);
      SelectionsConsistent(t, c, definition.selectionSet.selections, {}, rootType);
    case SelectionSetRoot(selectionSet) =>
      SelectionsBalanced(t, c, selectionSet.selections, {}, rootType);
      SelectionsConsistent(t, c, selectionSet.selections, {}, rootType);
    case SelectionRoot(selection) =>
      SelectionBalanced(t, c, selection, {}, rootType);
      SelectionConsistent(t, c, selection, {}, rootType);
  }

  /** An inline fragment without a type condition walks its selections on
      the parent's type, exactly as if they were written in its place,
      between its own entering and leaving visits. */
  lemma {:induction false} InlineWithoutConditionUsesParentType(t: Traversal, c: Collaborators, i: InlineFragment, visited: set<string>,
                                             parentType: Option<string>)
    requires i.typeCondition.None?
    ensures var r := WalkSelection(t, c, InlineSelection(i), visited, parentType);
      var inner := WalkSelections(t, c, i.selectionSet.selections, visited, parentType);
      var e := InlineFragmentEnvironment(i, c.shouldInclude(t.variables, i.directives));
      (r.Ok? <==> inner.Ok?)
      && (r.Ok? ==> r.value == Walked([Visit(Enter, e)] + inner.value.visits + [Visit(Leave, e)], inner.value.visited))
  {
  }

  /** A spread of a fragment already visited enters and leaves without
      walking the fragment again. */
  lemma {:induction false} VisitedFragmentNotWalkedAgain(t: Traversal, c: Collaborators, s: FragmentSpread, visited: set<string>,
                                      parentType: Option<string>)
    requires s.name in visited
    ensures var r := WalkSelection(t, c, SpreadSelection(s), visited, parentType);
      r.Ok? ==> |r.value.visits| == 2 && r.value.visited == visited
  {
  }

  /** Left-to-right fold of the reducer over the field environments. */
  function Fold<T>(reducer: (Environment, T) -> T, acc: T, environments: seq<Environment>): T
  {
    if environments == [] then acc else Fold(reducer, reducer(environments[0], acc), environments[1..])
  }

  /** The field environments a reduction sees: those of the visits the
      visitor receives in the given order. */
  function ReducedFields(t: Traversal, c: Collaborators, preOrder: bool): (r: Result<seq<Environment>>)
  {
    var walked :- Walk(t, c);
    Ok(FieldEnvironments(Delivered(walked.visits, Some(preOrder))))
  }

  /** Folds the reducer over the field environments, from the initial
      value, as the accumulating visitor does. */
  method Reduce<T>(t: Traversal, c: Collaborators, preOrder: bool, reducer: (Environment, T) -> T, initialValue: T)
    returns (r: Result<T>)
    ensures ReducedFields(t, c, preOrder).Throws? ==> r == Throws(ReducedFields(t, c, preOrder).error)
    ensures ReducedFields(t, c, preOrder).Ok? ==> r == Ok(Fold(reducer, initialValue, ReducedFields(t, c, preOrder).value))
  {
    var fields :- ReducedFields(t, c, preOrder);
    var acc := initialValue;
    var i := 0;
    while i < |fields|
      invariant 0 <= i <= |fields|
      invariant Fold(reducer, acc, fields[i..]) == Fold(reducer, initialValue, fields)
    {
      assert fields[i..][1..] == fields[i + 1..];
      acc := reducer(fields[i], acc);
      i := i + 1;
    }
    assert fields[i..] == [];
    return Ok(acc);
  }

  /** `reducePreOrder`: the fold over fields as they are entered. */
  method ReducePreOrder<T>(t: Traversal, c: Collaborators, reducer: (Environment, T) -> T, initialValue: T) returns (r: Result<T>)
    ensures ReducedFields(t, c, true).Throws? ==> r == Throws(ReducedFields(t, c, true).error)
    ensures ReducedFields(t, c, true).Ok? ==> r == Ok(Fold(reducer, initialValue, ReducedFields(t, c, true).value))
  {
    r := Reduce(t, c, true, reducer, initialValue);
  }

  /** `reducePostOrder`: the fold over fields as they are left. */
  method ReducePostOrder<T>(t: Traversal, c: Collaborators, reducer: (Environment, T) -> T, initialValue: T) returns (r: Result<T>)
    ensures ReducedFields(t, c, false).Throws? ==> r == Throws(ReducedFields(t, c, false).error)
    ensures ReducedFields(t, c, false).Ok? ==> r == Ok(Fold(reducer, initialValue, ReducedFields(t, c, false).value))
  {
    r := Reduce(t, c, false, reducer, initialValue);
  }

  /** Pre-order and post-order reductions see the same field environments,
      each the same number of times, and every one of them consistent. */
  lemma {:induction false} ReductionsSeeSameFields(t: Traversal, c: Collaborators)
    ensures ReducedFields(t, c, true).Ok? <==> ReducedFields(t, c, false).Ok?
    ensures ReducedFields(t, c, true).Ok? ==>
      multiset(ReducedFields(t, c, true).value) == multiset(ReducedFields(t, c, false).value)
  {
    if Walk(t, c).Ok? {
      WalkMeaning(t, c);
    }
  }
}
