/** graphql.normalized.NormalizedQueryTreeFactory: turns an operation into a
    tree of normalized fields, one node per (result key, field definition,
    type, literal arguments), each node carrying the object types it can be
    selected on.

    NormalizedField objects are mutable and compared by identity, so the
    model keeps them in an arena: a node is an index into `nodes`, and the
    in-place updates (`addObjectTypes`, `replaceParent`) replace the entry
    at that index. */
module NormalizedQueryTreeFactory {
  import opened Common
  import opened Ast
  import opened SchemaTypes
  import opened LinkedMaps
  import OverlappingFieldsCanBeMerged
  import opened HashMapOrder

  /** What the factory reads besides the document: the schema, the
      fragments by name, ConditionalNodes.shouldInclude over the coerced
      variables, the schema's three introspection field definitions
      (`__typename`, `__schema`, `__type`), AstComparator.isEqual on
      literals, and the bucket a HashMap holding `n` keys puts a key in:
      `(h ^ (h >>> 16)) & (capacity - 1)` for the key's hash `h` and the
      capacity the table has grown to, which this model does not compute. */
  datatype Params = Params(
    schema: Schema,
    fragments: map<string, FragmentDefinition>,
    shouldInclude: seq<Directive> -> bool,
    typenameField: FieldDefinition,
    schemaField: FieldDefinition,
    typeField: FieldDefinition,
    valueEquals: (Value, Value) -> bool,
    bucketOf: (nat, string) -> int)

  /** A NormalizedField: the alias, field name, object type names, AST
      arguments, level, parent and children, and the field definition it
      was created for. */
  datatype NormalizedField = NormalizedField(
    alias: Option<string>,
    fieldName: string,
    objectTypes: seq<string>,
    astArguments: seq<Argument>,
    level: int,
    parent: Option<nat>,
    children: seq<nat>,
    definition: FieldDefinition)

  /** Every index in `cs` names a node of an arena of `n` nodes. */
  predicate Below(cs: seq<nat>, n: int) {
    forall k :: 0 <= k < |cs| ==> cs[k] < n
  }

  /** Every child reference names a node of the arena. */
  predicate NodesValid(nodes: seq<NormalizedField>) {
    forall i, j :: 0 <= i < |nodes| && 0 <= j < |nodes[i].children| ==> nodes[i].children[j] < |nodes|
  }

  /** `after` extends `before`: old nodes keep everything but their object
      types, which only gain names at the end. */
  predicate Grows(before: seq<NormalizedField>, after: seq<NormalizedField>) {
    |before| <= |after|
    && forall i :: 0 <= i < |before| ==>
      after[i] == before[i].(objectTypes := after[i].objectTypes) && before[i].objectTypes <= after[i].objectTypes
  }

  /** The nodes created between `before` and `after` sit at `level` under
      `parent`. */
  predicate CreatedUnder(before: seq<NormalizedField>, after: seq<NormalizedField>, level: int, parent: Option<nat>) {
    forall i :: |before| <= i < |after| ==> after[i].level == level && after[i].parent == parent
  }

  lemma {:induction false} GrowsTransitive(a: seq<NormalizedField>, b: seq<NormalizedField>, c: seq<NormalizedField>)
    requires Grows(a, b) && Grows(b, c)
    ensures Grows(a, c)
  {
    forall i | 0 <= i < |a|
      ensures c[i] == a[i].(objectTypes := c[i].objectTypes) && a[i].objectTypes <= c[i].objectTypes
    {
      assert b[i] == a[i].(objectTypes := b[i].objectTypes);
    }
  }

  lemma {:induction false} CreatedUnderTransitive(a: seq<NormalizedField>, b: seq<NormalizedField>, c: seq<NormalizedField>, level: int, parent: Option<nat>)
    requires Grows(a, b) && Grows(b, c)
    requires CreatedUnder(a, b, level, parent) && CreatedUnder(b, c, level, parent)
    ensures CreatedUnder(a, c, level, parent)
  {
    forall i | |a| <= i < |c|
      ensures c[i].level == level && c[i].parent == parent
    {
      if i < |b| {
        assert c[i] == b[i].(objectTypes := c[i].objectTypes);
      }
    }
  }

  // ---------------------------------------------------------------------
  // Ordered sets (LinkedHashSet over a list).

  /** `LinkedHashSet.addAll`: the items not yet present, appended in order. */
  function AddAll<T(==,!new)>(acc: seq<T>, items: seq<T>): (r: seq<T>)
    ensures acc <= r
    ensures forall x :: x in r <==> x in acc || x in items
    ensures Distinct(acc) ==> Distinct(r)
    decreases |items|
  {
    if items == [] then acc
    else AddAll(if items[0] in acc then acc else acc + [items[0]], items[1..])
  }

  /** `new LinkedHashSet<>(items)`: the items without repeats, first
      occurrence first. */
  function Dedup<T(==,!new)>(items: seq<T>): (r: seq<T>)
    ensures Distinct(r)
    ensures forall x :: x in r <==> x in items
  {
    AddAll([], items)
  }

  /** `a` is `b` with some elements deleted. */
  predicate IsSubsequence<T(==,!new)>(a: seq<T>, b: seq<T>)
    decreases |b|
  {
    a == [] || (b != [] && ((a[0] == b[0] && IsSubsequence(a[1..], b[1..])) || IsSubsequence(a, b[1..])))
  }

  /** `retainAll`: the elements of `current` that `keep` holds, in the
      order of `current`. */
  function RetainAll<T(==,!new)>(current: seq<T>, keep: seq<T>): (r: seq<T>)
    ensures forall x :: x in r <==> x in current && x in keep
    ensures IsSubsequence(r, current)
    ensures Distinct(current) ==> Distinct(r)
  {
    if current == [] then []
    else
      var rest := RetainAll(current[1..], keep);
      if current[0] in keep then [current[0]] + rest else rest
  }

  // ---------------------------------------------------------------------
  // Possible object types.

  /** The cast `(GraphQLCompositeType) schema.getType(name)`: an unknown
      name gives null, which the cast lets through; a known type that is
      not composite fails the cast. */
  function CastToComposite(schema: Schema, typeName: string): (r: Result<Option<NamedType>>)
    ensures r.Ok? && r.value.Some? ==> r.value.value.IsComposite() && typeName in schema.types && r.value.value == schema.types[typeName]
    ensures r.Ok? && r.value.None? <==> typeName !in schema.types
    ensures r.Throws? ==> r.error == ClassCastException
  {
    match schema.GetType(typeName)
    case None => Ok(None)
    case Some(t) => if t.IsComposite() then Ok(Some(t)) else Throws(ClassCastException)
  }

  const ShouldNeverHappen := AssertException("Internal error: should never happen")

  /** `resolvePossibleObjects`: an object type stands for itself, an
      interface for its implementations, a union for its members; null
      reaches `assertShouldNeverHappen`. */
  function ResolvePossibleObjects(schema: Schema, condition: Option<NamedType>): (r: Result<seq<string>>)
    requires condition.Some? ==> condition.value.IsComposite()
    ensures r.Throws? <==> condition.None?
  {
    match condition
    case None => Throws(ShouldNeverHappen)
    case Some(t) =>
      match t
      case ObjectType(name, _, _) => Ok([name])
      case InterfaceType(name, _, _) => Ok(schema.Implementations(name))
      case UnionType(_, members) => Ok(members)
  }

  /** `narrowDownPossibleObjects`: with no current object types the
      condition's own, otherwise the current ones the condition allows. */
  function NarrowDownPossibleObjects(schema: Schema, current: seq<string>, condition: Option<NamedType>): (r: Result<seq<string>>)
    requires condition.Some? ==> condition.value.IsComposite()
    ensures r.Throws? <==> condition.None?
    ensures r.Ok? && current == [] ==> (Distinct(r.value)
      && forall x :: x in r.value <==> x in ResolvePossibleObjects(schema, condition).value)
    ensures r.Ok? && current != [] ==> (IsSubsequence(r.value, current)
      && forall x :: x in r.value <==> x in current && x in ResolvePossibleObjects(schema, condition).value)
    ensures r.Ok? && Distinct(current) ==> Distinct(r.value)
  {
    var resolved :- ResolvePossibleObjects(schema, condition);
    if current == [] then Ok(Dedup(resolved)) else Ok(RetainAll(current, resolved))
  }

  /** The possible object types inside a fragment whose condition names
      `typeName`. */
  function NarrowToCondition(schema: Schema, current: seq<string>, typeName: string): (r: Result<seq<string>>) {
    var condition :- CastToComposite(schema, typeName);
    NarrowDownPossibleObjects(schema, current, condition)
  }

  // ---------------------------------------------------------------------
  // Field definitions and matching.

  /** The fields of the object type with this name; a name that does not
      resolve to an object type has none. */
  function ObjectFields(schema: Schema, objectTypeName: string): seq<FieldDefinition> {
    match schema.GetType(objectTypeName)
    case Some(ObjectType(_, fields, _)) => fields
    case _ => []
  }

  /** `getFieldDefinition`: the introspection fields by name first, then the
      object type's own field, which must exist. */
  function GetFieldDefinition(p: Params, objectTypeName: string, fieldName: string): (r: Result<FieldDefinition>)
    ensures r.Ok? ==> r.value.name == fieldName
    ensures r.Throws? <==>
      fieldName != p.typenameField.name && fieldName != p.schemaField.name && fieldName != p.typeField.name
      && FindField(ObjectFields(p.schema, objectTypeName), fieldName).None?
  {
    if fieldName == p.typenameField.name then Ok(p.typenameField)
    else if fieldName == p.schemaField.name then Ok(p.schemaField)
    else if fieldName == p.typeField.name then Ok(p.typeField)
    else
      match FindField(ObjectFields(p.schema, objectTypeName), fieldName)
      case None => Throws(AssertException("no field " + fieldName + " found for type " + objectTypeName))
      case Some(d) => Ok(d)
  }

  /** A node a field can join: the same definition name, the same type and
      the same literal arguments. */
  predicate Matches(p: Params, nf: NormalizedField, definition: FieldDefinition, arguments: seq<Argument>) {
    nf.definition.name == definition.name
    && nf.definition.fieldType == definition.fieldType
    && OverlappingFieldsCanBeMerged.SameArguments(p.valueEquals, nf.astArguments, arguments)
  }

  /** `findMatchingNF`: the first candidate that matches, or null. */
  function FindMatchingNF(p: Params, nodes: seq<NormalizedField>, candidates: seq<nat>, definition: FieldDefinition, arguments: seq<Argument>): (r: Option<nat>)
    requires Below(candidates, |nodes|)
    ensures r.Some? ==> r.value in candidates && r.value < |nodes| && Matches(p, nodes[r.value], definition, arguments)
    ensures r.None? ==> forall k :: 0 <= k < |candidates| ==> !Matches(p, nodes[candidates[k]], definition, arguments)
  {
    if candidates == [] then None
    else if Matches(p, nodes[candidates[0]], definition, arguments) then Some(candidates[0])
    else
      assert forall k :: 1 <= k < |candidates| ==> candidates[1..][k - 1] == candidates[k];
      FindMatchingNF(p, nodes, candidates[1..], definition, arguments)
  }

  /** The candidate found is the first one that matches. */
  lemma {:induction false} FindMatchingNFIsFirst(p: Params, nodes: seq<NormalizedField>, candidates: seq<nat>, definition: FieldDefinition, arguments: seq<Argument>)
    requires Below(candidates, |nodes|)
    requires FindMatchingNF(p, nodes, candidates, definition, arguments).Some?
    ensures exists k :: (0 <= k < |candidates| && candidates[k] == FindMatchingNF(p, nodes, candidates, definition, arguments).value
      && forall j :: 0 <= j < k ==> !Matches(p, nodes[candidates[j]], definition, arguments))
  {
    if !Matches(p, nodes[candidates[0]], definition, arguments) {
      var rest := candidates[1..];
      FindMatchingNFIsFirst(p, nodes, rest, definition, arguments);
      var k :| 0 <= k < |rest| && rest[k] == FindMatchingNF(p, nodes, rest, definition, arguments).value
        && forall j :: 0 <= j < k ==> !Matches(p, nodes[rest[j]], definition, arguments);
      assert candidates[k + 1] == rest[k];
      assert forall j :: 1 <= j < k + 1 ==> candidates[j] == rest[j - 1];
    } else {
      assert candidates[0] == FindMatchingNF(p, nodes, candidates, definition, arguments).value;
    }
  }

  // ---------------------------------------------------------------------
  // Collection: one `collectFields` or `collectFromOperation` call.

  /** What a collection builds: the node arena, the result
      Multimap<String, NormalizedField> (its keys recorded in first-put
      order, which is not the order the multimap iterates them in; each
      key's nodes in put order), and the (node, AST field) entries put into
      the merged-field builder, in put order. */
  datatype Collection = Collection(nodes: seq<NormalizedField>, result: LinkedMap<string, seq<nat>>, astFields: seq<(nat, Field)>) {
    predicate Valid() {
      NodesValid(nodes) && result.Valid()
      && (forall k, j :: k in result.entries && 0 <= j < |result.entries[k]| ==> result.entries[k][j] < |nodes|)
      && (forall e :: e in astFields ==> e.0 < |nodes|)
    }
  }

  function EmptyCollection(nodes: seq<NormalizedField>): (r: Collection)
    requires NodesValid(nodes)
    ensures r.Valid()
  {
    Collection(nodes, Empty(), [])
  }

  /** The nodes recorded under `key`, or none. */
  function Recorded(result: LinkedMap<string, seq<nat>>, key: string): seq<nat> {
    if key in result.entries then result.entries[key] else []
  }

  /** `collectField`: an excluded field, or one with no possible object
      type, adds nothing; a field whose result key already has a matching
      node joins the first such node (its object types are added and the
      AST field is recorded for it); any other field becomes a new node at
      `level` under `parent`, appended under its result key. */
  function CollectedField(p: Params, st: Collection, field: Field, objectTypes: seq<string>, level: int, parent: Option<nat>): (r: Result<Collection>)
    requires st.Valid()
    ensures r.Ok? ==> r.value.Valid() && Grows(st.nodes, r.value.nodes) && CreatedUnder(st.nodes, r.value.nodes, level, parent)
  {
    if !p.shouldInclude(field.directives) || objectTypes == [] then Ok(st)
    else
      var resultKey := OverlappingFieldsCanBeMerged.ResponseName(field);
      var fieldDefinition :- GetFieldDefinition(p, objectTypes[0], field.name);
      var existing := Recorded(st.result, resultKey);
      var matching := FindMatchingNF(p, st.nodes, existing, fieldDefinition, field.arguments);
      if matching.Some? then Ok(Joined(st, matching.value, field, objectTypes))
      else Ok(Appended(st, resultKey, NormalizedField(field.alias, field.name, objectTypes, field.arguments, level, parent, [], fieldDefinition), field))
  }

  /** The field joins node `m`: its object types are added to the node's
      and the AST field is recorded for it. */
  function Joined(st: Collection, m: nat, field: Field, objectTypes: seq<string>): (r: Collection)
    requires st.Valid() && m < |st.nodes|
    ensures r.Valid() && Grows(st.nodes, r.nodes) && |r.nodes| == |st.nodes|
  {
    var nodes := st.nodes[m := st.nodes[m].(objectTypes := AddAll(st.nodes[m].objectTypes, objectTypes))];
    Collection(nodes, st.result, st.astFields + [(m, field)])
  }

  /** A new node `nf` is appended to the arena and under `resultKey`. */
  function Appended(st: Collection, resultKey: string, nf: NormalizedField, field: Field): (r: Collection)
    requires st.Valid() && NodesValid(st.nodes + [nf])
    ensures r.Valid() && Grows(st.nodes, r.nodes) && r.nodes == st.nodes + [nf]
  {
    var index := |st.nodes|;
    Collection(st.nodes + [nf], st.result.Put(resultKey, Recorded(st.result, resultKey) + [index]), st.astFields + [(index, field)])
  }

  /** `collectFromSelectionSet`: the selections in order; an exception ends
      the collection. Fragment spreads spend one unit of `fuel`, standing
      for the stack a cyclic fragment would exhaust. */
  function CollectedSelections(p: Params, st: Collection, selections: seq<Selection>, possibleObjects: seq<string>, level: int, parent: Option<nat>, fuel: nat): (r: Result<Collection>)
    requires st.Valid()
    ensures r.Ok? ==> r.value.Valid() && Grows(st.nodes, r.value.nodes) && CreatedUnder(st.nodes, r.value.nodes, level, parent)
    decreases fuel, SelectionsSize(selections), 1
  {
    if selections == [] then Ok(st)
    else
      var next :- CollectedSelection(p, st, selections[0], possibleObjects, level, parent, fuel);
      var r := CollectedSelections(p, next, selections[1..], possibleObjects, level, parent, fuel);
      if r.Ok? then
        GrowsTransitive(st.nodes, next.nodes, r.value.nodes);
        CreatedUnderTransitive(st.nodes, next.nodes, r.value.nodes, level, parent);
        r
      else r
  }

  /** One selection: a field is collected; an included inline fragment is
      collected with the possible objects narrowed to its condition, if it
      has one; an included spread of an included fragment is collected with
      the possible objects narrowed to the fragment's condition, and a
      spread of an unknown fragment fails `assertNotNull`. */
  function CollectedSelection(p: Params, st: Collection, selection: Selection, possibleObjects: seq<string>, level: int, parent: Option<nat>, fuel: nat): (r: Result<Collection>)
    requires st.Valid()
    ensures r.Ok? ==> r.value.Valid() && Grows(st.nodes, r.value.nodes) && CreatedUnder(st.nodes, r.value.nodes, level, parent)
    decreases fuel, SelectionSize(selection), 0
  {
    match selection
    case FieldSelection(field) => CollectedField(p, st, field, possibleObjects, level, parent)
    case InlineSelection(inline) =>
      if !p.shouldInclude(inline.directives) then Ok(st)
      else
        var newPossibleObjects :- if inline.typeCondition.None? then Ok(possibleObjects)
          else NarrowToCondition(p.schema, possibleObjects, inline.typeCondition.value);
        CollectedSelections(p, st, inline.selectionSet.selections, newPossibleObjects, level, parent, fuel)
    case SpreadSelection(spread) =>
      if !p.shouldInclude(spread.directives) then Ok(st)
      else if spread.name !in p.fragments then Throws(AssertException("Object required to be not null"))
      else
        var fragment := p.fragments[spread.name];
        if !p.shouldInclude(fragment.directives) then Ok(st)
        else
          var newConditions :- NarrowToCondition(p.schema, possibleObjects, fragment.typeCondition);
          if fuel == 0 then Throws(StackOverflowError)
          else CollectedSelections(p, st, fragment.selectionSet.selections, newConditions, level, parent, fuel - 1)
  }

  /** The loop of `collectFields` over the merged AST fields: each one with a
      selection set is collected under `parent`. */
  function CollectedFromFields(p: Params, st: Collection, mergedField: seq<Field>, possibleObjects: seq<string>, level: int, parent: Option<nat>, fuel: nat): (r: Result<Collection>)
    requires st.Valid()
    ensures r.Ok? ==> r.value.Valid() && Grows(st.nodes, r.value.nodes) && CreatedUnder(st.nodes, r.value.nodes, level, parent)
    decreases |mergedField|
  {
    if mergedField == [] then Ok(st)
    else
      var next :- if mergedField[0].selectionSet.None? then Ok(st)
        else CollectedSelections(p, st, mergedField[0].selectionSet.value.selections, possibleObjects, level, parent, fuel);
      var r := CollectedFromFields(p, next, mergedField[1..], possibleObjects, level, parent, fuel);
      if r.Ok? then
        GrowsTransitive(st.nodes, next.nodes, r.value.nodes);
        CreatedUnderTransitive(st.nodes, next.nodes, r.value.nodes, level, parent);
        r
      else r
  }

  /** The composite type a node's field definition returns, if any. */
  function CompositeFieldType(p: Params, nf: NormalizedField): Option<NamedType> {
    match p.schema.GetType(UnwrapAll(nf.definition.fieldType))
    case Some(t) => if t.IsComposite() then Some(t) else None
    case None => None
  }

  /** `collectFields`: the children of node `field` at `level`, collected
      from the selection sets of its merged AST fields with the possible
      objects of its (unwrapped) type; a type that is not composite has
      none. */
  function CollectedFields(p: Params, nodes: seq<NormalizedField>, field: nat, mergedField: seq<Field>, level: int, fuel: nat): (r: Result<Collection>)
    requires NodesValid(nodes) && field < |nodes|
    ensures r.Ok? ==> r.value.Valid() && Grows(nodes, r.value.nodes) && CreatedUnder(nodes, r.value.nodes, level, Some(field))
  {
    var fieldType := CompositeFieldType(p, nodes[field]);
    if fieldType.None? then Ok(EmptyCollection(nodes))
    else
      var possibleObjects := Dedup(ResolvePossibleObjects(p.schema, fieldType).value);
      CollectedFromFields(p, EmptyCollection(nodes), mergedField, possibleObjects, level, Some(field), fuel)
  }

  /** `collectFromOperation`: the top-level fields at level 1 without a
      parent, with the root type as the only possible object. */
  function CollectedFromOperation(p: Params, nodes: seq<NormalizedField>, operation: OperationDefinition, rootType: string, fuel: nat): (r: Result<Collection>)
    requires NodesValid(nodes)
    ensures r.Ok? ==> r.value.Valid() && Grows(nodes, r.value.nodes) && CreatedUnder(nodes, r.value.nodes, 1, None)
  {
    CollectedSelections(p, EmptyCollection(nodes), operation.selectionSet.selections, [rootType], 1, None, fuel)
  }

  /** The nodes a collection produced, key by key in the order the
      multimap's HashMap iterates its keys: `subFields.values()`. Whatever
      that order, they are the nodes of every key, each as often as it was
      put. */
  function Roots(p: Params, c: Collection): (r: seq<nat>)
    requires c.Valid()
    ensures Below(r, |c.nodes|)
    ensures multiset(r) == multiset(Flatten(c.result.Values()))
  {
    var n := |c.result.keys|;
    var r: seq<nat> := IteratedValues<nat>(k => p.bucketOf(n, k), c.result);
    var firstPut: seq<nat> := Flatten<nat>(c.result.Values());
    assert multiset(r) == multiset(firstPut);
    forall i | i in firstPut
      ensures i < |c.nodes|
    {
      var values := c.result.Values();
      var k :| 0 <= k < |values| && i in values[k];
      assert values[k] == c.result.entries[c.result.keys[k]];
    }
    forall k | 0 <= k < |r| ensures r[k] < |c.nodes| {
      assert r[k] in multiset(firstPut);
      assert r[k] in firstPut;
    }
    r
  }

  /** The same nodes, each once: `new LinkedHashSet<>(subFields.values())`. */
  function Children(p: Params, c: Collection): (r: seq<nat>)
    requires c.Valid()
    ensures Distinct(r)
    ensures Below(r, |c.nodes|)
    ensures forall i :: i in r <==> i in Flatten(c.result.Values())
  {
    var roots := Roots(p, c);
    var r := Dedup(roots);
    assert forall i :: i in roots <==> i in multiset(roots);
    assert forall k :: 0 <= k < |r| ==> r[k] in roots;
    r
  }

  /** `ImmutableListMultimap.get`: the AST fields recorded for a node, in
      put order. */
  function MergedFieldFor(astFields: seq<(nat, Field)>, nf: nat): (r: seq<Field>)
    ensures forall f :: f in r <==> (nf, f) in astFields
  {
    if astFields == [] then []
    else
      var rest := MergedFieldFor(astFields[1..], nf);
      if astFields[0].0 == nf then [astFields[0].1] + rest else rest
  }

  // ---------------------------------------------------------------------
  // Building the tree.

  /** The coordinates (object type, field name) a node is registered under. */
  datatype FieldCoordinates = FieldCoordinates(typeName: string, fieldName: string)

  /** The arena and the entries put into the three builders of the
      resulting NormalizedQueryTree, in put order. */
  datatype Tree = Tree(
    nodes: seq<NormalizedField>,
    fieldToNormalizedField: seq<(Field, nat)>,
    normalizedFieldToMergedField: seq<(nat, seq<Field>)>,
    coordinatesToNormalizedFields: seq<(FieldCoordinates, nat)>)

  /** The parents of the nodes in `cs` set to `root`, one after another. */
  function SetParents(nodes: seq<NormalizedField>, cs: seq<nat>, root: nat): (r: seq<NormalizedField>)
    requires Below(cs, |nodes|)
    ensures |r| == |nodes|
    ensures forall k :: 0 <= k < |cs| ==> r[cs[k]].parent == Some(root)
    ensures forall i :: 0 <= i < |nodes| && i !in cs ==> r[i] == nodes[i]
    ensures forall i :: 0 <= i < |nodes| ==> r[i] == nodes[i].(parent := r[i].parent)
    decreases |cs|
  {
    if cs == [] then nodes
    else
      var init := cs[..|cs| - 1];
      var prev := SetParents(nodes, init, root);
      var c := cs[|cs| - 1];
      assert forall x :: x in cs ==> x in init || x == c;
      prev[c := prev[c].(parent := Some(root))]
  }

  /** `fixUpParentReference`: each child of `root` gets `root` as its
      parent; nothing else changes. */
  function FixedUpParents(nodes: seq<NormalizedField>, root: nat): (r: seq<NormalizedField>)
    requires NodesValid(nodes) && root < |nodes|
    ensures |r| == |nodes| && NodesValid(r)
  {
    SetParents(nodes, nodes[root].children, root)
  }

  /** The coordinates of a node, one per object type. */
  function CoordinatesOf(nf: NormalizedField, index: nat): (r: seq<(FieldCoordinates, nat)>)
    ensures |r| == |nf.objectTypes|
  {
    seq(|nf.objectTypes|, k requires 0 <= k < |nf.objectTypes| => (FieldCoordinates(nf.objectTypes[k], nf.fieldName), index))
  }

  /** `updateByAstFieldMap`: each AST field maps to the node. */
  function AstEntries(mergedField: seq<Field>, index: nat): (r: seq<(Field, nat)>)
    ensures |r| == |mergedField|
  {
    seq(|mergedField|, k requires 0 <= k < |mergedField| => (mergedField[k], index))
  }

  /** What happens to a freshly built node before it joins its parent's
      children or the roots: its children's parents are fixed up, its
      merged field is recorded, it is registered under its coordinates and
      its AST fields map to it. */
  function Registered(t: Tree, realField: nat, mergedField: seq<Field>): (r: Tree)
    requires NodesValid(t.nodes) && realField < |t.nodes|
    ensures NodesValid(r.nodes) && |r.nodes| == |t.nodes|
  {
    var nodes := FixedUpParents(t.nodes, realField);
    Tree(nodes,
      t.fieldToNormalizedField + AstEntries(mergedField, realField),
      t.normalizedFieldToMergedField + [(realField, mergedField)],
      t.coordinatesToNormalizedFields + CoordinatesOf(nodes[realField], realField))
  }

  /** `buildFieldWithChildren`: the children of `field` are collected one
      level down and each is built in turn; the result is a copy of `field`
      (`transform`) whose children are the built ones, appended to the
      arena. */
  function BuiltField(p: Params, t: Tree, field: nat, mergedField: seq<Field>, curLevel: int, fuel: nat): (r: Result<(Tree, nat)>)
    requires NodesValid(t.nodes) && field < |t.nodes|
    ensures r.Ok? ==> NodesValid(r.value.0.nodes) && |t.nodes| < |r.value.0.nodes| && r.value.1 == |r.value.0.nodes| - 1
    decreases fuel, 1
  {
    var collected :- CollectedFields(p, t.nodes, field, mergedField, curLevel + 1, fuel);
    var built :- BuiltChildren(p, t.(nodes := collected.nodes), Children(p, collected), collected.astFields, curLevel, fuel);
    var t' := built.0;
    var node := t'.nodes[field].(children := built.1);
    Ok((t'.(nodes := t'.nodes + [node]), |t'.nodes|))
  }

  /** The loop of `buildFieldWithChildren` over the collected children, in
      order: each is built one level down and registered. Running out of
      `fuel` stands for the stack a cyclic fragment would exhaust. */
  function BuiltChildren(p: Params, t: Tree, children: seq<nat>, astFields: seq<(nat, Field)>, curLevel: int, fuel: nat): (r: Result<(Tree, seq<nat>)>)
    requires NodesValid(t.nodes) && Below(children, |t.nodes|)
    ensures r.Ok? ==> (NodesValid(r.value.0.nodes) && |t.nodes| <= |r.value.0.nodes|
      && |r.value.1| == |children| && Below(r.value.1, |r.value.0.nodes|))
    decreases fuel, 0, |children|
  {
    if children == [] then Ok((t, []))
    else
      var init := children[..|children| - 1];
      var built :- BuiltChildren(p, t, init, astFields, curLevel, fuel);
      var child := children[|children| - 1];
      if fuel == 0 then Throws(StackOverflowError)
      else
        var mergedField := MergedFieldFor(astFields, child);
        var rebuilt :- BuiltField(p, built.0, child, mergedField, curLevel + 1, fuel - 1);
        Ok((Registered(rebuilt.0, rebuilt.1, mergedField), built.1 + [rebuilt.1]))
  }

  /** The result: the built top-level fields and the tree. */
  datatype NormalizedQueryTree = NormalizedQueryTree(topLevelFields: seq<nat>, tree: Tree)

  /** `createNormalizedQueryImpl` for the operation on an object root type:
      the top-level fields are collected, then each is built at level 1
      and registered. The top-level loop is BuildChildren one level up,
      with one more unit of fuel, so that its fuel check never fires. */
  function NormalizedQuery(p: Params, operation: OperationDefinition, rootType: string, fuel: nat): (r: Result<NormalizedQueryTree>)
    ensures r.Ok? ==> (NodesValid(r.value.tree.nodes)
      && Below(r.value.topLevelFields, |r.value.tree.nodes|))
  {
    var top :- CollectedFromOperation(p, [], operation, rootType, fuel);
    var roots := Roots(p, top);
    var built :- BuiltChildren(p, Tree(top.nodes, [], [], []), roots, top.astFields, 0, fuel + 1);
    Ok(NormalizedQueryTree(built.1, built.0))
  }

  /** Once a child fails to build, the loop stops with that exception. */
  lemma {:induction false} BuildChildrenFailureSticks(p: Params, t: Tree, children: seq<nat>, k: nat, astFields: seq<(nat, Field)>, curLevel: int, fuel: nat)
    requires NodesValid(t.nodes) && Below(children, |t.nodes|)
    requires k <= |children|
    requires BuiltChildren(p, t, children[..k], astFields, curLevel, fuel).Throws?
    ensures BuiltChildren(p, t, children, astFields, curLevel, fuel) == BuiltChildren(p, t, children[..k], astFields, curLevel, fuel)
    decreases |children| - k
  {
    if k < |children| {
      assert children[..k + 1][..k] == children[..k];
      BuildChildrenFailureSticks(p, t, children, k + 1, astFields, curLevel, fuel);
    } else {
      assert children[..k] == children;
    }
  }

  /** One more child built and registered extends the loop's result. */
  lemma {:induction false} BuiltChildrenStep(p: Params, t: Tree, children: seq<nat>, i: nat, astFields: seq<(nat, Field)>, curLevel: int, fuel: nat,
                          before: Tree, realChildren: seq<nat>, after: Tree, realChild: nat)
    requires NodesValid(t.nodes) && Below(children, |t.nodes|)
    requires i < |children| && fuel > 0
    requires BuiltChildren(p, t, children[..i], astFields, curLevel, fuel) == Ok((before, realChildren))
    requires NodesValid(before.nodes) && children[i] < |before.nodes|
    requires BuiltField(p, before, children[i], MergedFieldFor(astFields, children[i]), curLevel + 1, fuel - 1) == Ok((after, realChild))
    ensures NodesValid(after.nodes) && realChild < |after.nodes|
    ensures BuiltChildren(p, t, children[..i + 1], astFields, curLevel, fuel)
      == Ok((Registered(after, realChild, MergedFieldFor(astFields, children[i])), realChildren + [realChild]))
  {
    var prefix := children[..i + 1];
    assert prefix[..|prefix| - 1] == children[..i];
    assert prefix[|prefix| - 1] == children[i];
    assert prefix != [];
  }

  /** The state of `buildFieldWithChildren`'s loop after `i` children:
      the specification of the first `i` gives the tree `current`. */
  predicate LoopAt(p: Params, t: Tree, children: seq<nat>, i: nat, astFields: seq<(nat, Field)>, curLevel: int, fuel: nat,
                   current: Tree, realChildren: seq<nat>) {
    NodesValid(t.nodes) && Below(children, |t.nodes|) && i <= |children|
    && BuiltChildren(p, t, children[..i], astFields, curLevel, fuel) == Ok((current, realChildren))
    && NodesValid(current.nodes) && |t.nodes| <= |current.nodes|
  }

  /** Before the loop of `buildFieldWithChildren`, no child is built. */
  lemma {:induction false} LoopStarts(p: Params, t: Tree, children: seq<nat>, astFields: seq<(nat, Field)>, curLevel: int, fuel: nat)
    requires NodesValid(t.nodes) && Below(children, |t.nodes|)
    ensures LoopAt(p, t, children, 0, astFields, curLevel, fuel, t, [])
  {
    assert children[..0] == [];
  }

  /** Out of fuel, the loop fails at its next child with a stack overflow. */
  lemma {:induction false} LoopOutOfFuel(p: Params, t: Tree, children: seq<nat>, i: nat, astFields: seq<(nat, Field)>, curLevel: int,
                                         current: Tree, realChildren: seq<nat>)
    requires i < |children|
    requires LoopAt(p, t, children, i, astFields, curLevel, 0, current, realChildren)
    ensures BuiltChildren(p, t, children, astFields, curLevel, 0) == Throws(StackOverflowError)
  {
    var prefix := children[..i + 1];
    assert prefix[..|prefix| - 1] == children[..i];
    BuildChildrenFailureSticks(p, t, children, i + 1, astFields, curLevel, 0);
  }

  /** After the last child, the loop's state is the specification's result. */
  lemma {:induction false} LoopEnds(p: Params, t: Tree, children: seq<nat>, i: nat, astFields: seq<(nat, Field)>, curLevel: int, fuel: nat,
                                    current: Tree, realChildren: seq<nat>)
    requires i == |children|
    requires LoopAt(p, t, children, i, astFields, curLevel, fuel, current, realChildren)
    ensures BuiltChildren(p, t, children, astFields, curLevel, fuel) == Ok((current, realChildren))
  {
    assert children[..i] == children;
  }

  /** Within the loop, the next child is a node of the current tree. */
  lemma {:induction false} LoopNodesValid(p: Params, t: Tree, children: seq<nat>, i: nat, astFields: seq<(nat, Field)>,
                                          curLevel: int, fuel: nat, before: Tree, realChildren: seq<nat>)
    requires i < |children|
    requires LoopAt(p, t, children, i, astFields, curLevel, fuel, before, realChildren)
    ensures NodesValid(before.nodes) && children[i] < |before.nodes|
  {
  }

  /** The loop's specification, one child further: a child built is
      registered and appended. */
  lemma {:induction false} LoopChildBuilt(p: Params, t: Tree, children: seq<nat>, i: nat, astFields: seq<(nat, Field)>,
                                          curLevel: int, fuel: nat, before: Tree, realChildren: seq<nat>, after: Tree, realChild: nat)
    requires i < |children| && fuel > 0
    requires LoopAt(p, t, children, i, astFields, curLevel, fuel, before, realChildren)
    requires children[i] < |before.nodes|
    requires BuiltField(p, before, children[i], MergedFieldFor(astFields, children[i]), curLevel + 1, fuel - 1) == Ok((after, realChild))
    ensures LoopAt(p, t, children, i + 1, astFields, curLevel, fuel,
                   Registered(after, realChild, MergedFieldFor(astFields, children[i])), realChildren + [realChild])
  {
    BuiltChildrenStep(p, t, children, i, astFields, curLevel, fuel, before, realChildren, after, realChild);
  }

  /** A child that fails to build fails the whole loop with its exception. */
  lemma {:induction false} LoopChildFails(p: Params, t: Tree, children: seq<nat>, i: nat, astFields: seq<(nat, Field)>,
                                          curLevel: int, fuel: nat, before: Tree, realChildren: seq<nat>)
    requires i < |children| && fuel > 0
    requires LoopAt(p, t, children, i, astFields, curLevel, fuel, before, realChildren)
    requires children[i] < |before.nodes|
    requires BuiltField(p, before, children[i], MergedFieldFor(astFields, children[i]), curLevel + 1, fuel - 1).Throws?
    ensures BuiltChildren(p, t, children, astFields, curLevel, fuel)
      == Throws(BuiltField(p, before, children[i], MergedFieldFor(astFields, children[i]), curLevel + 1, fuel - 1).error)
  {
    BuiltChildrenStepFails(p, t, children, i, astFields, curLevel, fuel, before, realChildren);
    BuildChildrenFailureSticks(p, t, children, i + 1, astFields, curLevel, fuel);
  }

  /** A child that fails to build fails the loop. */
  lemma {:induction false} BuiltChildrenStepFails(p: Params, t: Tree, children: seq<nat>, i: nat, astFields: seq<(nat, Field)>,
                                                  curLevel: int, fuel: nat, before: Tree, realChildren: seq<nat>)
    requires NodesValid(t.nodes) && Below(children, |t.nodes|)
    requires i < |children| && fuel > 0
    requires BuiltChildren(p, t, children[..i], astFields, curLevel, fuel) == Ok((before, realChildren))
    requires NodesValid(before.nodes) && children[i] < |before.nodes|
    requires BuiltField(p, before, children[i], MergedFieldFor(astFields, children[i]), curLevel + 1, fuel - 1).Throws?
    ensures BuiltChildren(p, t, children[..i + 1], astFields, curLevel, fuel)
      == Throws(BuiltField(p, before, children[i], MergedFieldFor(astFields, children[i]), curLevel + 1, fuel - 1).error)
  {
    var prefix := children[..i + 1];
    assert prefix[..|prefix| - 1] == children[..i];
    assert prefix[|prefix| - 1] == children[i];
  }

  /** A child that fails to build fails the node. */
  lemma {:induction false} BuiltFieldChildFails(p: Params, t: Tree, field: nat, mergedField: seq<Field>, curLevel: int, fuel: nat, collected: Collection, e: Exception)
    requires NodesValid(t.nodes) && field < |t.nodes|
    requires CollectedFields(p, t.nodes, field, mergedField, curLevel + 1, fuel) == Ok(collected)
    requires BuiltChildren(p, t.(nodes := collected.nodes), Children(p, collected), collected.astFields, curLevel, fuel) == Throws(e)
    ensures BuiltField(p, t, field, mergedField, curLevel, fuel) == Throws(e)
  {
  }

  /** Once the children are built, the node is copied with them. */
  lemma {:induction false} BuiltFieldFromChildren(p: Params, t: Tree, field: nat, mergedField: seq<Field>, curLevel: int, fuel: nat, collected: Collection,
                               after: Tree, realChildren: seq<nat>)
    requires NodesValid(t.nodes) && field < |t.nodes|
    requires CollectedFields(p, t.nodes, field, mergedField, curLevel + 1, fuel) == Ok(collected)
    requires BuiltChildren(p, t.(nodes := collected.nodes), Children(p, collected), collected.astFields, curLevel, fuel) == Ok((after, realChildren))
    ensures field < |after.nodes|
    ensures BuiltField(p, t, field, mergedField, curLevel, fuel) == Ok((after.(nodes := after.nodes + [after.nodes[field].(children := realChildren)]), |after.nodes|))
  {
  }

  // ---------------------------------------------------------------------
  // The factory.

  /** The result Multimap<String, NormalizedField> of one collection and the
      merged-field builder filled beside it. */
  class SubFields {
    var result: LinkedMap<string, seq<nat>>
    var astFields: seq<(nat, Field)>

    constructor ()
      ensures result == Empty() && astFields == []
    {
      result := Empty();
      astFields := [];
    }
  }

  /** The three builders the NormalizedQueryTree is built from. */
  class TreeBuilders {
    var fieldToNormalizedField: seq<(Field, nat)>
    var normalizedFieldToMergedField: seq<(nat, seq<Field>)>
    var coordinatesToNormalizedFields: seq<(FieldCoordinates, nat)>

    constructor ()
      ensures fieldToNormalizedField == [] && normalizedFieldToMergedField == [] && coordinatesToNormalizedFields == []
    {
      fieldToNormalizedField := [];
      normalizedFieldToMergedField := [];
      coordinatesToNormalizedFields := [];
    }

    /** `updateByAstFieldMap`. */
    method UpdateByAstFieldMap(normalizedField: nat, mergedField: seq<Field>)
      modifies this
      ensures fieldToNormalizedField == old(fieldToNormalizedField) + AstEntries(mergedField, normalizedField)
      ensures normalizedFieldToMergedField == old(normalizedFieldToMergedField)
      ensures coordinatesToNormalizedFields == old(coordinatesToNormalizedFields)
    {
      var i := 0;
      while i < |mergedField|
        invariant 0 <= i <= |mergedField|
        invariant fieldToNormalizedField == old(fieldToNormalizedField) + AstEntries(mergedField[..i], normalizedField)
        invariant normalizedFieldToMergedField == old(normalizedFieldToMergedField)
        invariant coordinatesToNormalizedFields == old(coordinatesToNormalizedFields)
      {
        assert AstEntries(mergedField[..i + 1], normalizedField) == AstEntries(mergedField[..i], normalizedField) + [(mergedField[i], normalizedField)];
        fieldToNormalizedField := fieldToNormalizedField + [(mergedField[i], normalizedField)];
        i := i + 1;
      }
      assert mergedField[..i] == mergedField;
    }
  }

  /** What `collectFields` and `collectFromOperation` return: the collected
      nodes and the AST fields of each. */
  datatype CollectFieldResult = CollectFieldResult(children: seq<nat>, normalizedFieldToAstFields: seq<(nat, Field)>)

  class NormalizedQueryTreeFactory {
    /** Every NormalizedField this factory has created, by identity. */
    var nodes: seq<NormalizedField>

    constructor ()
      ensures nodes == []
    {
      nodes := [];
    }

    function Collected(sub: SubFields): Collection
      reads this, sub
    {
      Collection(nodes, sub.result, sub.astFields)
    }

    function Built(b: TreeBuilders): Tree
      reads this, b
    {
      Tree(nodes, b.fieldToNormalizedField, b.normalizedFieldToMergedField, b.coordinatesToNormalizedFields)
    }

    method CollectField(p: Params, sub: SubFields, field: Field, objectTypes: seq<string>, level: int, parent: Option<nat>) returns (r: Result<()>)
      requires Collected(sub).Valid()
      modifies this, sub
      ensures match CollectedField(p, old(Collected(sub)), field, objectTypes, level, parent)
        case Ok(st) => r == Ok(()) && Collected(sub) == st
        case Throws(e) => r == Throws(e)
    {
      if !p.shouldInclude(field.directives) {
        return Ok(());
      }
      if |objectTypes| == 0 {
        return Ok(());
      }
      var resultKey := OverlappingFieldsCanBeMerged.ResponseName(field);
      var fieldName := field.name;
      var fieldDefinition :- GetFieldDefinition(p, objectTypes[0], fieldName);
      if resultKey in sub.result.entries {
        var existingNFs := sub.result.entries[resultKey];
        var matchingNF := FindMatchingNF(p, nodes, existingNFs, fieldDefinition, field.arguments);
        if matchingNF.Some? {
          var m := matchingNF.value;
          nodes := nodes[m := nodes[m].(objectTypes := AddAll(nodes[m].objectTypes, objectTypes))];
          sub.astFields := sub.astFields + [(m, field)];
          return Ok(());
        }
      }
      var normalizedField := NormalizedField(field.alias, fieldName, objectTypes, field.arguments, level, parent, [], fieldDefinition);
      var index := |nodes|;
      nodes := nodes + [normalizedField];
      sub.result := sub.result.Put(resultKey, Recorded(sub.result, resultKey) + [index]);
      sub.astFields := sub.astFields + [(index, field)];
      return Ok(());
    }

    method CollectFromSelectionSet(p: Params, sub: SubFields, selections: seq<Selection>, possibleObjects: seq<string>, level: int, parent: Option<nat>, fuel: nat) returns (r: Result<()>)
      requires Collected(sub).Valid()
      modifies this, sub
      ensures match CollectedSelections(p, old(Collected(sub)), selections, possibleObjects, level, parent, fuel)
        case Ok(st) => r == Ok(()) && Collected(sub) == st
        case Throws(e) => r == Throws(e)
      decreases fuel, SelectionsSize(selections), 2
    {
      var i := 0;
      while i < |selections|
        invariant 0 <= i <= |selections|
        invariant Collected(sub).Valid()
        invariant CollectedSelections(p, Collected(sub), selections[i..], possibleObjects, level, parent, fuel)
          == CollectedSelections(p, old(Collected(sub)), selections, possibleObjects, level, parent, fuel)
      {
        SelectionSizeBound(selections, i);
        assert selections[i..][1..] == selections[i + 1..];
        ghost var before := Collected(sub);
        var step := CollectSelection(p, sub, selections[i], possibleObjects, level, parent, fuel);
        if step.Throws? {
          return Throws(step.error);
        }
        assert CollectedSelections(p, before, selections[i..], possibleObjects, level, parent, fuel)
          == CollectedSelections(p, Collected(sub), selections[i + 1..], possibleObjects, level, parent, fuel);
        i := i + 1;
      }
      assert selections[i..] == [];
      return Ok(());
    }

    /** The body of the loop over the selections, for one selection. */
    method CollectSelection(p: Params, sub: SubFields, selection: Selection, possibleObjects: seq<string>, level: int, parent: Option<nat>, fuel: nat) returns (r: Result<()>)
      requires Collected(sub).Valid()
      modifies this, sub
      ensures match CollectedSelection(p, old(Collected(sub)), selection, possibleObjects, level, parent, fuel)
        case Ok(st) => r == Ok(()) && Collected(sub) == st
        case Throws(e) => r == Throws(e)
      decreases fuel, SelectionSize(selection), 1
    {
      match selection {
        case FieldSelection(field) =>
          r := CollectField(p, sub, field, possibleObjects, level, parent);
        case InlineSelection(inline) =>
          r := CollectInlineFragment(p, sub, inline, possibleObjects, level, parent, fuel);
        case SpreadSelection(spread) =>
          r := CollectFragmentSpread(p, sub, spread, possibleObjects, level, parent, fuel);
      }
    }

    method CollectInlineFragment(p: Params, sub: SubFields, inline: InlineFragment, possibleObjects: seq<string>, level: int, parent: Option<nat>, fuel: nat) returns (r: Result<()>)
      requires Collected(sub).Valid()
      modifies this, sub
      ensures match CollectedSelection(p, old(Collected(sub)), InlineSelection(inline), possibleObjects, level, parent, fuel)
        case Ok(st) => r == Ok(()) && Collected(sub) == st
        case Throws(e) => r == Throws(e)
      decreases fuel, SelectionSize(InlineSelection(inline)), 0
    {
      if !p.shouldInclude(inline.directives) {
        return Ok(());
      }
      var newPossibleObjects := possibleObjects;
      if inline.typeCondition.Some? {
        var newCondition :- CastToComposite(p.schema, inline.typeCondition.value);
        newPossibleObjects :- NarrowDownPossibleObjects(p.schema, possibleObjects, newCondition);
      }
      r := CollectFromSelectionSet(p, sub, inline.selectionSet.selections, newPossibleObjects, level, parent, fuel);
    }

    method CollectFragmentSpread(p: Params, sub: SubFields, spread: FragmentSpread, possibleObjects: seq<string>, level: int, parent: Option<nat>, fuel: nat) returns (r: Result<()>)
      requires Collected(sub).Valid()
      modifies this, sub
      ensures match CollectedSelection(p, old(Collected(sub)), SpreadSelection(spread), possibleObjects, level, parent, fuel)
        case Ok(st) => r == Ok(()) && Collected(sub) == st
        case Throws(e) => r == Throws(e)
      decreases fuel, SelectionSize(SpreadSelection(spread)), 0
    {
      if !p.shouldInclude(spread.directives) {
        return Ok(());
      }
      if spread.name !in p.fragments {
        return Throws(AssertException("Object required to be not null"));
      }
      var fragmentDefinition := p.fragments[spread.name];
      if !p.shouldInclude(fragmentDefinition.directives) {
        return Ok(());
      }
      var newCondition :- CastToComposite(p.schema, fragmentDefinition.typeCondition);
      var newConditions :- NarrowDownPossibleObjects(p.schema, possibleObjects, newCondition);
      if fuel == 0 {
        return Throws(StackOverflowError);
      }
      r := CollectFromSelectionSet(p, sub, fragmentDefinition.selectionSet.selections, newConditions, level, parent, fuel - 1);
    }

    method CollectFields(p: Params, field: nat, mergedField: seq<Field>, level: int, fuel: nat) returns (r: Result<CollectFieldResult>)
      requires NodesValid(nodes) && field < |nodes|
      modifies this
      ensures match CollectedFields(p, old(nodes), field, mergedField, level, fuel)
        case Ok(c) => r == Ok(CollectFieldResult(Children(p, c), c.astFields)) && nodes == c.nodes
        case Throws(e) => r == Throws(e)
    {
      var fieldType := CompositeFieldType(p, nodes[field]);
      if fieldType.None? {
        assert Children(p, EmptyCollection(nodes)) == [];
        return Ok(CollectFieldResult([], []));
      }
      var sub := new SubFields();
      var possibleObjects := Dedup(ResolvePossibleObjects(p.schema, fieldType).value);
      assert Collected(sub) == EmptyCollection(old(nodes));
      var step := CollectFromFields(p, sub, mergedField, possibleObjects, level, Some(field), fuel);
      if step.Throws? {
        return Throws(step.error);
      }
      return Ok(CollectFieldResult(Children(p, Collected(sub)), sub.astFields));
    }

    /** `collectFields`' loop over the merged fields: each field's
        selection set, when it has one, is collected into `sub`. */
    method CollectFromFields(p: Params, sub: SubFields, mergedField: seq<Field>, possibleObjects: seq<string>, level: int, parent: Option<nat>, fuel: nat) returns (r: Result<()>)
      requires Collected(sub).Valid()
      modifies this, sub
      ensures match CollectedFromFields(p, old(Collected(sub)), mergedField, possibleObjects, level, parent, fuel)
        case Ok(st) => r == Ok(()) && Collected(sub) == st
        case Throws(e) => r == Throws(e)
    {
      var i := 0;
      while i < |mergedField|
        invariant 0 <= i <= |mergedField|
        invariant Collected(sub).Valid()
        invariant CollectedFromFields(p, Collected(sub), mergedField[i..], possibleObjects, level, parent, fuel)
          == CollectedFromFields(p, old(Collected(sub)), mergedField, possibleObjects, level, parent, fuel)
      {
        assert mergedField[i..][1..] == mergedField[i + 1..];
        if mergedField[i].selectionSet.Some? {
          var step := CollectFromSelectionSet(p, sub, mergedField[i].selectionSet.value.selections, possibleObjects, level, parent, fuel);
          if step.Throws? {
            return Throws(step.error);
          }
        }
        i := i + 1;
      }
      assert mergedField[i..] == [];
      return Ok(());
    }

    method CollectFromOperation(p: Params, operation: OperationDefinition, rootType: string, fuel: nat) returns (r: Result<CollectFieldResult>)
      requires NodesValid(nodes)
      modifies this
      ensures match CollectedFromOperation(p, old(nodes), operation, rootType, fuel)
        case Ok(c) => r == Ok(CollectFieldResult(Roots(p, c), c.astFields)) && nodes == c.nodes
        case Throws(e) => r == Throws(e)
    {
      var sub := new SubFields();
      var possibleObjects := [rootType];
      var step := CollectFromSelectionSet(p, sub, operation.selectionSet.selections, possibleObjects, 1, None, fuel);
      if step.Throws? {
        return Throws(step.error);
      }
      return Ok(CollectFieldResult(Roots(p, Collected(sub)), sub.astFields));
    }

    method FixUpParentReference(root: nat)
      requires NodesValid(nodes) && root < |nodes|
      modifies this
      ensures nodes == FixedUpParents(old(nodes), root)
    {
      var children := nodes[root].children;
      assert Below(children, |nodes|);
      var i := 0;
      while i < |children|
        invariant 0 <= i <= |children|
        invariant nodes == SetParents(old(nodes), children[..i], root)
        invariant |nodes| == |old(nodes)|
      {
        assert children[..i + 1][..i] == children[..i];
        var child := children[i];
        nodes := nodes[child := nodes[child].(parent := Some(root))];
        i := i + 1;
      }
      assert children[..i] == children;
    }

    /** What follows the building of a node, at the top level and for each
        child alike: its children's parents are fixed up, its merged field
        and coordinates are recorded, and its AST fields map to it. */
    method Register(b: TreeBuilders, realField: nat, mergedField: seq<Field>)
      requires NodesValid(nodes) && realField < |nodes|
      modifies this, b
      ensures Built(b) == Registered(old(Built(b)), realField, mergedField)
    {
      FixUpParentReference(realField);
      b.normalizedFieldToMergedField := b.normalizedFieldToMergedField + [(realField, mergedField)];
      var realNode := nodes[realField];
      var objectTypes := realNode.objectTypes;
      ghost var coordinates := CoordinatesOf(realNode, realField);
      ghost var merged := b.normalizedFieldToMergedField;
      var i := 0;
      while i < |objectTypes|
        modifies b
        invariant 0 <= i <= |objectTypes|
        invariant b.coordinatesToNormalizedFields == old(b.coordinatesToNormalizedFields) + coordinates[..i]
        invariant b.normalizedFieldToMergedField == merged
        invariant b.fieldToNormalizedField == old(b.fieldToNormalizedField)
      {
        assert coordinates[..i + 1] == coordinates[..i] + [(FieldCoordinates(objectTypes[i], realNode.fieldName), realField)];
        b.coordinatesToNormalizedFields := b.coordinatesToNormalizedFields + [(FieldCoordinates(objectTypes[i], realNode.fieldName), realField)];
        i := i + 1;
      }
      assert coordinates[..i] == coordinates;
      b.UpdateByAstFieldMap(realField, mergedField);
    }

    method BuildFieldWithChildren(p: Params, b: TreeBuilders, field: nat, mergedField: seq<Field>, curLevel: int, fuel: nat) returns (r: Result<nat>)
      requires NodesValid(nodes) && field < |nodes|
      modifies this, b
      ensures var built := BuiltField(p, old(Built(b)), field, mergedField, curLevel, fuel);
        (r.Ok? <==> built.Ok?)
        && (r.Ok? ==> r.value == built.value.1 && Built(b) == built.value.0)
        && (r.Throws? ==> r.error == built.error)
      decreases fuel, 3
    {
      ghost var t0 := Built(b);
      var fieldsWithoutChildren :- CollectFields(p, field, mergedField, curLevel + 1, fuel);
      ghost var collected := CollectedFields(p, t0.nodes, field, mergedField, curLevel + 1, fuel).value;
      assert fieldsWithoutChildren == CollectFieldResult(Children(p, collected), collected.astFields);
      var realChildren := BuildChildren(p, b, fieldsWithoutChildren.children, fieldsWithoutChildren.normalizedFieldToAstFields, curLevel, fuel);
      if realChildren.Throws? {
        BuiltFieldChildFails(p, t0, field, mergedField, curLevel, fuel, collected, realChildren.error);
        return Throws(realChildren.error);
      }
      ghost var tEnd := Built(b);
      BuiltFieldFromChildren(p, t0, field, mergedField, curLevel, fuel, collected, tEnd, realChildren.value);
      nodes := nodes + [nodes[field].(children := realChildren.value)];
      return Ok(|nodes| - 1);
    }

    /** The loop of `buildFieldWithChildren` over the collected children:
        each is built one level down and registered. */
    method BuildChildren(p: Params, b: TreeBuilders, children: seq<nat>, astFields: seq<(nat, Field)>, curLevel: int, fuel: nat) returns (r: Result<seq<nat>>)
      requires NodesValid(nodes) && Below(children, |nodes|)
      modifies this, b
      ensures var built := BuiltChildren(p, old(Built(b)), children, astFields, curLevel, fuel);
        (r.Ok? <==> built.Ok?)
        && (r.Ok? ==> r.value == built.value.1 && Built(b) == built.value.0)
        && (r.Throws? ==> r.error == built.error)
      decreases fuel, 2
    {
      ghost var tStart := Built(b);
      LoopStarts(p, tStart, children, astFields, curLevel, fuel);
      var realChildren: seq<nat> := [];
      var i := 0;
      while i < |children|
        invariant 0 <= i <= |children|
        invariant LoopAt(p, tStart, children, i, astFields, curLevel, fuel, Built(b), realChildren)
      {
        if fuel == 0 {
          LoopOutOfFuel(p, tStart, children, i, astFields, curLevel, Built(b), realChildren);
          return Throws(StackOverflowError);
        }
        ghost var before := Built(b);
        LoopNodesValid(p, tStart, children, i, astFields, curLevel, fuel, before, realChildren);
        var realChild := BuildChild(p, b, children[i], MergedFieldFor(astFields, children[i]), curLevel + 1, fuel - 1);
        if realChild.Throws? {
          LoopChildFails(p, tStart, children, i, astFields, curLevel, fuel, before, realChildren);
          return Throws(realChild.error);
        }
        ghost var built := BuiltField(p, before, children[i], MergedFieldFor(astFields, children[i]), curLevel + 1, fuel - 1);
        LoopChildBuilt(p, tStart, children, i, astFields, curLevel, fuel, before, realChildren, built.value.0, realChild.value);
        realChildren := realChildren + [realChild.value];
        i := i + 1;
      }
      LoopEnds(p, tStart, children, i, astFields, curLevel, fuel, Built(b), realChildren);
      return Ok(realChildren);
    }

    /** One pass of that loop: the child is built and registered. */
    method BuildChild(p: Params, b: TreeBuilders, child: nat, mergedField: seq<Field>, level: int, fuel: nat) returns (r: Result<nat>)
      requires NodesValid(nodes) && child < |nodes|
      modifies this, b
      ensures var built := BuiltField(p, old(Built(b)), child, mergedField, level, fuel);
        (r.Ok? <==> built.Ok?)
        && (r.Ok? ==> r.value == built.value.1 && Built(b) == Registered(built.value.0, built.value.1, mergedField))
        && (r.Throws? ==> r.error == built.error)
      decreases fuel, 4
    {
      var realChild :- BuildFieldWithChildren(p, b, child, mergedField, level, fuel);
      Register(b, realChild, mergedField);
      return Ok(realChild);
    }
  }

  /** `createNormalizedQuery`: a fresh factory collects the top-level fields
      of the operation and builds each at level 1. */
  method CreateNormalizedQuery(p: Params, operation: OperationDefinition, rootType: string, fuel: nat) returns (r: Result<NormalizedQueryTree>)
    ensures r == NormalizedQuery(p, operation, rootType, fuel)
  {
    var factory := new NormalizedQueryTreeFactory();
    var topLevelFields :- factory.CollectFromOperation(p, operation, rootType, fuel);
    var b := new TreeBuilders();
    var realRoots :- factory.BuildChildren(p, b, topLevelFields.children, topLevelFields.normalizedFieldToAstFields, 0, fuel + 1);
    return Ok(NormalizedQueryTree(realRoots, factory.Built(b)));
  }

  // ---------------------------------------------------------------------
  // Properties of collection.

  /** Node `a` could absorb a field like node `b`. */
  predicate Mergeable(p: Params, a: NormalizedField, b: NormalizedField) {
    Matches(p, a, b.definition, b.astArguments)
  }

  /** No node under a result key could have absorbed a later one under the
      same key: each was recorded only because no earlier one matched it. */
  predicate NoMergeableDuplicates(p: Params, c: Collection)
    requires c.Valid()
  {
    forall key, j, k :: key in c.result.entries && 0 <= j < k < |c.result.entries[key]| ==>
      !Mergeable(p, c.nodes[c.result.entries[key][j]], c.nodes[c.result.entries[key][k]])
  }

  lemma {:induction false} FieldKeepsNoMergeableDuplicates(p: Params, st: Collection, field: Field, objectTypes: seq<string>, level: int, parent: Option<nat>)
    requires st.Valid() && NoMergeableDuplicates(p, st)
    requires CollectedField(p, st, field, objectTypes, level, parent).Ok?
    ensures NoMergeableDuplicates(p, CollectedField(p, st, field, objectTypes, level, parent).value)
  {
    if p.shouldInclude(field.directives) && objectTypes != [] {
      var r := CollectedField(p, st, field, objectTypes, level, parent).value;
      var resultKey := OverlappingFieldsCanBeMerged.ResponseName(field);
      var fieldDefinition := GetFieldDefinition(p, objectTypes[0], field.name).value;
      var existing := Recorded(st.result, resultKey);
      var matching := FindMatchingNF(p, st.nodes, existing, fieldDefinition, field.arguments);
      if matching.Some? {
        assert r.result == st.result;
        forall key, j, k | key in r.result.entries && 0 <= j < k < |r.result.entries[key]|
          ensures !Mergeable(p, r.nodes[r.result.entries[key][j]], r.nodes[r.result.entries[key][k]])
        {
          var a, b := st.result.entries[key][j], st.result.entries[key][k];
          assert r.nodes[a] == st.nodes[a].(objectTypes := r.nodes[a].objectTypes);
          assert r.nodes[b] == st.nodes[b].(objectTypes := r.nodes[b].objectTypes);
        }
      } else {
        var index := |st.nodes|;
        assert r.result == st.result.Put(resultKey, existing + [index]);
        assert r.nodes == st.nodes + [r.nodes[index]];
        forall key, j, k | key in r.result.entries && 0 <= j < k < |r.result.entries[key]|
          ensures !Mergeable(p, r.nodes[r.result.entries[key][j]], r.nodes[r.result.entries[key][k]])
        {
          assert r.result.Get(key) == Some(r.result.entries[key]);
          if key == resultKey {
            assert r.result.entries[key] == existing + [index];
            if k == |existing| {
              assert r.nodes[index].definition == fieldDefinition && r.nodes[index].astArguments == field.arguments;
            } else {
              assert key in st.result.entries;
            }
          } else {
            assert st.result.Get(key) == r.result.Get(key);
          }
        }
      }
    }
  }

  lemma {:induction false} SelectionsKeepNoMergeableDuplicates(p: Params, st: Collection, selections: seq<Selection>, possibleObjects: seq<string>, level: int, parent: Option<nat>, fuel: nat)
    requires st.Valid() && NoMergeableDuplicates(p, st)
    requires CollectedSelections(p, st, selections, possibleObjects, level, parent, fuel).Ok?
    ensures NoMergeableDuplicates(p, CollectedSelections(p, st, selections, possibleObjects, level, parent, fuel).value)
    decreases fuel, SelectionsSize(selections), 1
  {
    if selections != [] {
      SelectionSizeBound(selections, 0);
      var next := CollectedSelection(p, st, selections[0], possibleObjects, level, parent, fuel).value;
      SelectionKeepsNoMergeableDuplicates(p, st, selections[0], possibleObjects, level, parent, fuel);
      SelectionsKeepNoMergeableDuplicates(p, next, selections[1..], possibleObjects, level, parent, fuel);
    }
  }

  lemma {:induction false} SelectionKeepsNoMergeableDuplicates(p: Params, st: Collection, selection: Selection, possibleObjects: seq<string>, level: int, parent: Option<nat>, fuel: nat)
    requires st.Valid() && NoMergeableDuplicates(p, st)
    requires CollectedSelection(p, st, selection, possibleObjects, level, parent, fuel).Ok?
    ensures NoMergeableDuplicates(p, CollectedSelection(p, st, selection, possibleObjects, level, parent, fuel).value)
    decreases fuel, SelectionSize(selection), 0
  {
    match selection
    case FieldSelection(field) =>
      FieldKeepsNoMergeableDuplicates(p, st, field, possibleObjects, level, parent);
    case InlineSelection(inline) =>
      if p.shouldInclude(inline.directives) {
        var newPossibleObjects := if inline.typeCondition.None? then possibleObjects
          else NarrowToCondition(p.schema, possibleObjects, inline.typeCondition.value).value;
        SelectionsKeepNoMergeableDuplicates(p, st, inline.selectionSet.selections, newPossibleObjects, level, parent, fuel);
      }
    case SpreadSelection(spread) =>
      if p.shouldInclude(spread.directives) && p.shouldInclude(p.fragments[spread.name].directives) {
        var fragment := p.fragments[spread.name];
        var newConditions := NarrowToCondition(p.schema, possibleObjects, fragment.typeCondition).value;
        SelectionsKeepNoMergeableDuplicates(p, st, fragment.selectionSet.selections, newConditions, level, parent, fuel - 1);
      }
  }

  lemma {:induction false} FromFieldsKeepNoMergeableDuplicates(p: Params, st: Collection, mergedField: seq<Field>, possibleObjects: seq<string>, level: int, parent: Option<nat>, fuel: nat)
    requires st.Valid() && NoMergeableDuplicates(p, st)
    requires CollectedFromFields(p, st, mergedField, possibleObjects, level, parent, fuel).Ok?
    ensures NoMergeableDuplicates(p, CollectedFromFields(p, st, mergedField, possibleObjects, level, parent, fuel).value)
    decreases |mergedField|
  {
    if mergedField != [] {
      var next := st;
      if mergedField[0].selectionSet.Some? {
        next := CollectedSelections(p, st, mergedField[0].selectionSet.value.selections, possibleObjects, level, parent, fuel).value;
        SelectionsKeepNoMergeableDuplicates(p, st, mergedField[0].selectionSet.value.selections, possibleObjects, level, parent, fuel);
      }
      FromFieldsKeepNoMergeableDuplicates(p, next, mergedField[1..], possibleObjects, level, parent, fuel);
    }
  }

  /** The children collected for a field hold no two nodes under one result
      key that `findMatchingNF` would have merged. */
  lemma {:induction false} CollectedFieldsHaveNoMergeableDuplicates(p: Params, nodes: seq<NormalizedField>, field: nat, mergedField: seq<Field>, level: int, fuel: nat)
    requires NodesValid(nodes) && field < |nodes|
    requires CollectedFields(p, nodes, field, mergedField, level, fuel).Ok?
    ensures NoMergeableDuplicates(p, CollectedFields(p, nodes, field, mergedField, level, fuel).value)
  {
    var fieldType := CompositeFieldType(p, nodes[field]);
    if fieldType.Some? {
      var possibleObjects := Dedup(ResolvePossibleObjects(p.schema, fieldType).value);
      FromFieldsKeepNoMergeableDuplicates(p, EmptyCollection(nodes), mergedField, possibleObjects, level, Some(field), fuel);
    }
  }

  /** The same for the top-level fields of an operation. */
  lemma {:induction false} CollectedFromOperationHasNoMergeableDuplicates(p: Params, nodes: seq<NormalizedField>, operation: OperationDefinition, rootType: string, fuel: nat)
    requires NodesValid(nodes)
    requires CollectedFromOperation(p, nodes, operation, rootType, fuel).Ok?
    ensures NoMergeableDuplicates(p, CollectedFromOperation(p, nodes, operation, rootType, fuel).value)
  {
    SelectionsKeepNoMergeableDuplicates(p, EmptyCollection(nodes), operation.selectionSet.selections, [rootType], 1, None, fuel);
  }

  /** A field whose unwrapped type is not composite has no children. */
  lemma {:induction false} NonCompositeHasNoChildren(p: Params, nodes: seq<NormalizedField>, field: nat, mergedField: seq<Field>, level: int, fuel: nat)
    requires NodesValid(nodes) && field < |nodes|
    requires p.schema.GetType(UnwrapAll(nodes[field].definition.fieldType)).Some? ==> !p.schema.GetType(UnwrapAll(nodes[field].definition.fieldType)).value.IsComposite()
    ensures CollectedFields(p, nodes, field, mergedField, level, fuel).Ok?
    ensures Children(p, CollectedFields(p, nodes, field, mergedField, level, fuel).value) == []
    ensures CollectedFields(p, nodes, field, mergedField, level, fuel).value.nodes == nodes
  {
    assert Children(p, EmptyCollection(nodes)) == [];
  }

  /** The directives a selection carries. */
  function SelectionDirectives(selection: Selection): seq<Directive> {
    match selection
    case FieldSelection(f) => f.directives
    case InlineSelection(i) => i.directives
    case SpreadSelection(s) => s.directives
  }

  /** A field, inline fragment or spread whose directives exclude it
      contributes nothing. */
  lemma {:induction false} ExcludedSelectionAddsNothing(p: Params, st: Collection, selection: Selection, possibleObjects: seq<string>, level: int, parent: Option<nat>, fuel: nat)
    requires st.Valid() && !p.shouldInclude(SelectionDirectives(selection))
    ensures CollectedSelection(p, st, selection, possibleObjects, level, parent, fuel) == Ok(st)
  {
  }

  /** A spread of a fragment whose definition's directives exclude it
      contributes nothing either. */
  lemma {:induction false} ExcludedFragmentAddsNothing(p: Params, st: Collection, spread: FragmentSpread, possibleObjects: seq<string>, level: int, parent: Option<nat>, fuel: nat)
    requires st.Valid() && spread.name in p.fragments && !p.shouldInclude(p.fragments[spread.name].directives)
    ensures CollectedSelection(p, st, SpreadSelection(spread), possibleObjects, level, parent, fuel) == Ok(st)
  {
  }

  /** A field reached with no possible object type is not recorded. */
  lemma {:induction false} NoPossibleObjectAddsNothing(p: Params, st: Collection, field: Field, level: int, parent: Option<nat>)
    requires st.Valid()
    ensures CollectedField(p, st, field, [], level, parent) == Ok(st)
  {
  }

  /** A field whose result key already holds a matching node joins that
      node: no node is created, the node gains the field's object types
      and the field is recorded for it. Otherwise a new node is recorded
      last under the key, at `level` under `parent`, for the field's
      definition and arguments. */
  lemma {:induction false} CollectedFieldJoinsOrCreates(p: Params, st: Collection, field: Field, objectTypes: seq<string>, level: int, parent: Option<nat>)
    requires st.Valid() && p.shouldInclude(field.directives) && objectTypes != []
    requires GetFieldDefinition(p, objectTypes[0], field.name).Ok?
    ensures var key := OverlappingFieldsCanBeMerged.ResponseName(field);
      var definition := GetFieldDefinition(p, objectTypes[0], field.name).value;
      var matching := FindMatchingNF(p, st.nodes, Recorded(st.result, key), definition, field.arguments);
      var r := CollectedField(p, st, field, objectTypes, level, parent);
      r.Ok?
      && (matching.Some? ==> (
        var m := matching.value;
        |r.value.nodes| == |st.nodes| && r.value.result == st.result
        && (forall i :: 0 <= i < |st.nodes| && i != m ==> r.value.nodes[i] == st.nodes[i])
        && (forall x :: x in r.value.nodes[m].objectTypes <==> x in st.nodes[m].objectTypes || x in objectTypes)
        && r.value.astFields == st.astFields + [(m, field)]))
      && (matching.None? ==> (
        var index := |st.nodes|;
        |r.value.nodes| == index + 1 && r.value.nodes[..index] == st.nodes
        && r.value.result.Get(key) == Some(Recorded(st.result, key) + [index])
        && r.value.nodes[index] == NormalizedField(field.alias, field.name, objectTypes, field.arguments, level, parent, [], definition)
        && r.value.astFields == st.astFields + [(index, field)]))
  {
    var key := OverlappingFieldsCanBeMerged.ResponseName(field);
    var definition := GetFieldDefinition(p, objectTypes[0], field.name).value;
    var matching := FindMatchingNF(p, st.nodes, Recorded(st.result, key), definition, field.arguments);
    var r := CollectedField(p, st, field, objectTypes, level, parent);
    if matching.None? {
      assert r.value.nodes == st.nodes + [r.value.nodes[|st.nodes|]];
    }
  }

  /** Narrowing to an object type leaves just that type: when there are no
      current types, and when it is among them; otherwise none is left. */
  lemma {:induction false} NarrowToObjectType(schema: Schema, current: seq<string>, typeName: string)
    requires typeName in schema.types && schema.types[typeName].ObjectType?
    requires Distinct(current)
    ensures var name := schema.types[typeName].name;
      NarrowToCondition(schema, current, typeName) == Ok(if current == [] || name in current then [name] else [])
  {
    var name := schema.types[typeName].name;
    assert ResolvePossibleObjects(schema, Some(schema.types[typeName])) == Ok([name]);
    if current == [] {
      var single: seq<string> := [name];
      assert single[1..] == [] && [] + single == single;
      assert AddAll([], single) == AddAll([] + single, single[1..]);
      assert Dedup(single) == single;
    } else {
      RetainSingle(current, name);
    }
  }

  lemma {:induction false} RetainSingle(current: seq<string>, name: string)
    requires Distinct(current)
    ensures RetainAll(current, [name]) == if name in current then [name] else []
  {
    if current != [] {
      assert Distinct(current[1..]) by {
        forall i, j | 0 <= i < j < |current[1..]| ensures current[1..][i] != current[1..][j] {
          assert current[1..][i] == current[i + 1] && current[1..][j] == current[j + 1];
        }
      }
      RetainSingle(current[1..], name);
      if current[0] == name {
        assert name !in current[1..] by {
          forall j | 0 <= j < |current[1..]| ensures current[1..][j] != name {
            assert current[1..][j] == current[j + 1];
          }
        }
      } else {
        assert name in current <==> name in current[1..] by {
          assert current == [current[0]] + current[1..];
        }
      }
    }
  }

  // ---------------------------------------------------------------------
  // Properties of building.

  /** Registering a built node sets the parent of each of its children to
      it and leaves every other node as it was; it records the node's
      merged field, registers the node once under (object type, field name)
      for each of its object types, and maps each of its AST fields to it. */
  lemma {:induction false} RegisteredMeaning(t: Tree, realField: nat, mergedField: seq<Field>)
    requires NodesValid(t.nodes) && realField < |t.nodes|
    ensures var r := Registered(t, realField, mergedField);
      var node := t.nodes[realField];
      (forall k :: 0 <= k < |node.children| ==> r.nodes[node.children[k]].parent == Some(realField))
      && (forall i :: 0 <= i < |t.nodes| && i !in node.children ==> r.nodes[i] == t.nodes[i])
      && (forall i :: 0 <= i < |t.nodes| ==> r.nodes[i] == t.nodes[i].(parent := r.nodes[i].parent))
      && r.normalizedFieldToMergedField == t.normalizedFieldToMergedField + [(realField, mergedField)]
      && t.coordinatesToNormalizedFields <= r.coordinatesToNormalizedFields
      && |r.coordinatesToNormalizedFields| == |t.coordinatesToNormalizedFields| + |node.objectTypes|
      && (forall ot :: ot in node.objectTypes ==> (FieldCoordinates(ot, node.fieldName), realField) in r.coordinatesToNormalizedFields)
      && t.fieldToNormalizedField <= r.fieldToNormalizedField
      && (forall f :: f in mergedField ==> (f, realField) in r.fieldToNormalizedField)
  {
    var r := Registered(t, realField, mergedField);
    var node := t.nodes[realField];
    var nodes := FixedUpParents(t.nodes, realField);
    assert Below(node.children, |t.nodes|);
    assert nodes[realField].objectTypes == node.objectTypes && nodes[realField].fieldName == node.fieldName;
    var coordinates := CoordinatesOf(nodes[realField], realField);
    forall ot | ot in node.objectTypes
      ensures (FieldCoordinates(ot, node.fieldName), realField) in r.coordinatesToNormalizedFields
    {
      var k :| 0 <= k < |node.objectTypes| && node.objectTypes[k] == ot;
      assert coordinates[k] == (FieldCoordinates(ot, node.fieldName), realField);
      assert r.coordinatesToNormalizedFields[|t.coordinatesToNormalizedFields| + k] == coordinates[k];
    }
    var entries := AstEntries(mergedField, realField);
    forall f | f in mergedField
      ensures (f, realField) in r.fieldToNormalizedField
    {
      var k :| 0 <= k < |mergedField| && mergedField[k] == f;
      assert r.fieldToNormalizedField[|t.fieldToNormalizedField| + k] == entries[k];
    }
  }
}
