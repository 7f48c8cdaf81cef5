/** graphql.validation.rules.OverlappingFieldsCanBeMerged: groups the fields
    of a selection set by response name (expanding inline fragments and each
    fragment at most once), then compares fields of the same response name
    pairwise and reports the first difference of each compared pair.

    Modelled as written: the inner loop starts at `j = i + i`, so a field is
    compared with itself at (0, 0) and the pairs with i < j < 2i are never
    compared; the conflicts found in sub-selections are computed and dropped.
    The recursion into sub-selections has no bound of its own; it is given a
    stack-depth budget `fuel`, and running out of it is the
    StackOverflowError the Java recursion would end in. */
module OverlappingFieldsCanBeMerged {
  import opened Common
  import opened Ast
  import opened SchemaTypes
  import opened LinkedMaps
  import opened Validation
  import opened TypeFromAST

  /** A collected field with the type its parent declares for it (or null). */
  datatype FieldAndType = FieldAndType(field: Field, graphQLType: Option<TypeRef>)

  /** A conflict: the response name, the reason and the two fields. */
  datatype Conflict = Conflict(responseName: string, reason: string, fields: seq<Field>)

  /** What the rule reads from its validation context: the schema, the
      document's fragments by name, the output type of the selection set
      being checked, and `Value.equals` on argument literals. */
  datatype RuleContext = RuleContext(
    schema: Schema,
    fragments: map<string, FragmentDefinition>,
    outputType: Option<TypeRef>,
    valueEquals: (Value, Value) -> bool)
  {
    /** The fragment map is keyed by each fragment's own name. */
    predicate Valid() {
      forall k :: k in fragments ==> fragments[k].name == k
    }
  }

  type FieldMap = LinkedMap<string, seq<FieldAndType>>

  // ---------------------------------------------------------------------
  // Field collection.

  /** The response name: the alias when there is one, else the name. */
  function ResponseName(field: Field): (name: string)
    ensures field.alias.Some? ==> name == field.alias.value
    ensures field.alias.None? ==> name == field.name
  {
    if field.alias.Some? then field.alias.value else field.name
  }

  /** Whether a (possibly null) type is a GraphQLFieldsContainer. */
  predicate IsFieldsContainer(schema: Schema, t: Option<TypeRef>) {
    t.Some? && t.value.Named? && t.value.name in schema.types && schema.types[t.value.name].IsFieldsContainer()
  }

  /** The type recorded for a field: its declared type when the parent is a
      fields container that defines the field, otherwise null. */
  function FieldTypeIn(schema: Schema, parentType: Option<TypeRef>, field: Field): (r: Option<TypeRef>)
    ensures r.Some? <==> (IsFieldsContainer(schema, parentType)
      && schema.types[parentType.value.name].FieldDefinitionNamed(field.name).Some?)
    ensures r.Some? ==> r.value == schema.types[parentType.value.name].FieldDefinitionNamed(field.name).value.fieldType
  {
    if IsFieldsContainer(schema, parentType) then
      match schema.types[parentType.value.name].FieldDefinitionNamed(field.name)
      case Some(d) => Some(d.fieldType)
      case None => None
    else None
  }

  /** The type of a fragment's condition, cast to GraphQLOutputType: the
      cast fails on an input object type. */
  function ConditionType(schema: Schema, condition: Type): (r: Result<Option<TypeRef>>)
  {
    var t :- GetTypeFromAST(schema, condition);
    if t.Some? && t.value.Named? && t.value.name in schema.types && schema.types[t.value.name].InputObjectType? then
      Throws(ClassCastException)
    else Ok(t)
  }

  /** The type of an inline fragment's condition; a missing condition is
      dereferenced by the type conversion. */
  function InlineConditionType(schema: Schema, typeCondition: Option<string>): (r: Result<Option<TypeRef>>)
    ensures typeCondition.None? ==> r == Throws(NullPointerException)
  {
    if typeCondition.None? then Throws(NullPointerException) else ConditionType(schema, TypeName(typeCondition.value))
  }

  /** The list collected under a response name so far. */
  function Entries(m: FieldMap, key: string): seq<FieldAndType> {
    if key in m.entries then m.entries[key] else []
  }

  /** The state of a collection: the field map, the visited fragment
      names, and the exception that ended it, if any. */
  datatype Collect = Collect(fieldMap: FieldMap, visited: seq<string>, error: Option<Exception>)

  function VisitedSet(visited: seq<string>): set<string> {
    set n | n in visited
  }

  /** The fragments not yet expanded: the measure that fragment expansion
      shrinks. */
  function Unvisited(ctx: RuleContext, visited: seq<string>): nat {
    |ctx.fragments.Keys - VisitedSet(visited)|
  }

  lemma {:induction false} UnvisitedShrinks(ctx: RuleContext, before: seq<string>, after: seq<string>)
    requires VisitedSet(before) <= VisitedSet(after)
    ensures Unvisited(ctx, after) <= Unvisited(ctx, before)
  {
    SubsetCard(ctx.fragments.Keys - VisitedSet(after), ctx.fragments.Keys - VisitedSet(before));
  }

  lemma {:induction false} UnvisitedDrops(ctx: RuleContext, visited: seq<string>, name: string)
    requires name in ctx.fragments && name !in visited
    ensures Unvisited(ctx, visited + [name]) < Unvisited(ctx, visited)
  {
    var before := ctx.fragments.Keys - VisitedSet(visited);
    assert ctx.fragments.Keys - VisitedSet(visited + [name]) == before - {name};
  }

  /** `collectFields` over a list of selections, in order; an exception ends
      the collection with the state it was thrown in. */
  function CollectSelections(ctx: RuleContext, st: Collect, selections: seq<Selection>, parentType: Option<TypeRef>): (r: Collect)
    requires ctx.Valid() && st.fieldMap.Valid()
    ensures r.fieldMap.Valid()
    ensures VisitedSet(st.visited) <= VisitedSet(r.visited)
    ensures st.error.Some? ==> r == st
    decreases Unvisited(ctx, st.visited), SelectionsSize(selections), 1
  {
    if st.error.Some? || selections == [] then st
    else
      var next := CollectSelection(ctx, st, selections[0], parentType);
      UnvisitedShrinks(ctx, st.visited, next.visited);
      CollectSelections(ctx, next, selections[1..], parentType)
  }

  /** Collecting from selection i on is collecting selection i, then the
      rest. */
  lemma {:induction false} CollectSelectionsStep(ctx: RuleContext, st: Collect, selections: seq<Selection>, i: nat, parentType: Option<TypeRef>)
    requires ctx.Valid() && st.fieldMap.Valid() && st.error.None? && i < |selections|
    ensures CollectSelections(ctx, st, selections[i..], parentType)
      == CollectSelections(ctx, CollectSelection(ctx, st, selections[i], parentType), selections[i + 1..], parentType)
  {
    assert selections[i..][0] == selections[i];
    assert selections[i..][1..] == selections[i + 1..];
  }

  /** One step of the loop in `collectFields`: when collecting selection i
      from `st` left `fieldMap`, `visited` and `r`, either it failed and
      that is what the whole loop leaves, or the rest of the loop goes on
      from there to the same end. */
  lemma {:induction false} CollectSelectionsAfterStep(ctx: RuleContext, st: Collect, selections: seq<Selection>, i: nat, parentType: Option<TypeRef>,
                                                      fieldMap: FieldMap, visited: seq<string>, r: Result<()>)
    requires ctx.Valid() && st.fieldMap.Valid() && st.error.None? && i < |selections|
    requires Leaves(CollectSelection(ctx, st, selections[i], parentType), fieldMap, visited, r)
    ensures fieldMap.Valid() && VisitedSet(st.visited) <= VisitedSet(visited)
    ensures r.Throws? ==> Leaves(CollectSelections(ctx, st, selections[i..], parentType), fieldMap, visited, r)
    ensures r.Ok? ==> CollectSelections(ctx, Collect(fieldMap, visited, None), selections[i + 1..], parentType)
                      == CollectSelections(ctx, st, selections[i..], parentType)
  {
    CollectSelectionsStep(ctx, st, selections, i, parentType);
    var s := CollectSelection(ctx, st, selections[i], parentType);
    if r.Ok? {
      assert s == Collect(fieldMap, visited, None);
    }
  }

  /** One selection: a field is appended under its response name; an inline
      fragment is collected against its condition's type; a spread of a
      known fragment not yet visited marks it visited and is collected
      against its condition's type; any other spread is skipped. */
  function CollectSelection(ctx: RuleContext, st: Collect, selection: Selection, parentType: Option<TypeRef>): (r: Collect)
    requires ctx.Valid() && st.fieldMap.Valid() && st.error.None?
    ensures r.fieldMap.Valid()
    ensures VisitedSet(st.visited) <= VisitedSet(r.visited)
    decreases Unvisited(ctx, st.visited), SelectionSize(selection), 0
  {
    match selection
    case FieldSelection(field) =>
      var name := ResponseName(field);
      st.(fieldMap := st.fieldMap.Put(name, Entries(st.fieldMap, name) + [FieldAndType(field, FieldTypeIn(ctx.schema, parentType, field))]))
    case InlineSelection(inline) =>
      (match InlineConditionType(ctx.schema, inline.typeCondition)
       case Throws(e) => st.(error := Some(e))
       case Ok(t) => CollectSelections(ctx, st, inline.selectionSet.selections, t))
    case SpreadSelection(spread) =>
      if spread.name !in ctx.fragments then st
      else
        var fragment := ctx.fragments[spread.name];
        if fragment.name in st.visited then st
        else
          var marked := st.(visited := st.visited + [fragment.name]);
          UnvisitedDrops(ctx, st.visited, fragment.name);
          match ConditionType(ctx.schema, TypeName(fragment.typeCondition))
          case Throws(e) => marked.(error := Some(e))
          case Ok(t) => CollectSelections(ctx, marked, fragment.selectionSet.selections, t)
  }

  /** What a collecting call leaves behind for the collected state `s`: its
      field map and visited list, and an exception exactly when the
      collection stopped at one. */
  predicate Leaves(s: Collect, fieldMap: FieldMap, visited: seq<string>, r: Result<()>) {
    fieldMap == s.fieldMap && visited == s.visited
    && (r.Throws? <==> s.error.Some?) && (r.Throws? ==> r.error == s.error.value)
  }

  class FieldAndTypeMap {
    var contents: FieldMap

    constructor ()
      ensures contents == Empty()
    {
      contents := Empty();
    }
  }

  class VisitedSpreads {
    var names: seq<string>

    constructor ()
      ensures names == []
    {
      names := [];
    }
  }

  /** `collectFields`. */
  method CollectFields(ctx: RuleContext, fieldMap: FieldAndTypeMap, selectionSet: SelectionSet, parentType: Option<TypeRef>,
                       visitedFragmentSpreads: VisitedSpreads) returns (r: Result<()>)
    requires ctx.Valid() && fieldMap.contents.Valid()
    modifies fieldMap, visitedFragmentSpreads
    ensures Leaves(CollectSelections(ctx, Collect(old(fieldMap.contents), old(visitedFragmentSpreads.names), None), selectionSet.selections, parentType),
                   fieldMap.contents, visitedFragmentSpreads.names, r)
    decreases Unvisited(ctx, visitedFragmentSpreads.names), SelectionsSize(selectionSet.selections), 1
  {
    var selections := selectionSet.selections;
    ghost var goal := CollectSelections(ctx, Collect(fieldMap.contents, visitedFragmentSpreads.names, None), selections, parentType);
    ghost var entryVisited := visitedFragmentSpreads.names;
    var i := 0;
    while i < |selections|
      invariant 0 <= i <= |selections|
      invariant fieldMap.contents.Valid()
      invariant CollectSelections(ctx, Collect(fieldMap.contents, visitedFragmentSpreads.names, None), selections[i..], parentType) == goal
      invariant VisitedSet(entryVisited) <= VisitedSet(visitedFragmentSpreads.names)
    {
      SelectionSizeBound(selections, i);
      UnvisitedShrinks(ctx, entryVisited, visitedFragmentSpreads.names);
      ghost var st := Collect(fieldMap.contents, visitedFragmentSpreads.names, None);
      var sub := CollectSelectionInto(ctx, fieldMap, selections[i], parentType, visitedFragmentSpreads);
      CollectSelectionsAfterStep(ctx, st, selections, i, parentType, fieldMap.contents, visitedFragmentSpreads.names, sub);
      if sub.Throws? {
        return sub;
      }
      i := i + 1;
    }
    return Ok(());
  }

  /** The body of the loop in `collectFields`, for one selection. */
  method CollectSelectionInto(ctx: RuleContext, fieldMap: FieldAndTypeMap, selection: Selection, parentType: Option<TypeRef>,
                              visitedFragmentSpreads: VisitedSpreads) returns (r: Result<()>)
    requires ctx.Valid() && fieldMap.contents.Valid()
    modifies fieldMap, visitedFragmentSpreads
    ensures Leaves(CollectSelection(ctx, Collect(old(fieldMap.contents), old(visitedFragmentSpreads.names), None), selection, parentType),
                   fieldMap.contents, visitedFragmentSpreads.names, r)
    decreases Unvisited(ctx, visitedFragmentSpreads.names), SelectionSize(selection), 0
  {
    match selection {
      case FieldSelection(field) =>
        var responseName := ResponseName(field);
        var fieldType := FieldTypeIn(ctx.schema, parentType, field);
        fieldMap.contents := fieldMap.contents.Put(responseName, Entries(fieldMap.contents, responseName) + [FieldAndType(field, fieldType)]);
        r := Ok(());
      case InlineSelection(inline) =>
        var graphQLType := InlineConditionType(ctx.schema, inline.typeCondition);
        if graphQLType.Throws? {
          return Throws(graphQLType.error);
        }
        r := CollectFields(ctx, fieldMap, inline.selectionSet, graphQLType.value, visitedFragmentSpreads);
      case SpreadSelection(spread) =>
        r := Ok(());
        if spread.name in ctx.fragments {
          var fragment := ctx.fragments[spread.name];
          if fragment.name !in visitedFragmentSpreads.names {
            UnvisitedDrops(ctx, visitedFragmentSpreads.names, fragment.name);
            visitedFragmentSpreads.names := visitedFragmentSpreads.names + [fragment.name];
            var graphQLType := ConditionType(ctx.schema, TypeName(fragment.typeCondition));
            if graphQLType.Throws? {
              return Throws(graphQLType.error);
            }
            r := CollectFields(ctx, fieldMap, fragment.selectionSet, graphQLType.value, visitedFragmentSpreads);
          }
        }
    }
  }

  // ---------------------------------------------------------------------
  // Comparison.

  /** `sameType`: two nulls are the same, one null is not, otherwise
      equality of the types. */
  function SameType(type1: Option<TypeRef>, type2: Option<TypeRef>): (r: bool)
    ensures type1.None? && type2.None? ==> r
    ensures type1.None? != type2.None? ==> !r
    ensures type1.Some? && type2.Some? ==> (r <==> type1.value == type2.value)
  {
    if type1.None? && type2.None? then true
    else if type1.None? || type2.None? then false
    else type1.value == type2.value
  }

  /** `sameValue`: two nulls are the same, one null is not, otherwise
      `equals` of the literals. */
  function SameValue(valueEquals: (Value, Value) -> bool, value1: Option<Value>, value2: Option<Value>): (r: bool)
    ensures value1.None? && value2.None? ==> r
    ensures value1.None? != value2.None? ==> !r
    ensures value1.Some? && value2.Some? ==> (r <==> valueEquals(value1.value, value2.value))
  {
    if value1.None? && value2.None? then true
    else if value1.None? || value2.None? then false
    else valueEquals(value1.value, value2.value)
  }

  /** `findArgumentByName`: the first argument with the name, or null. */
  function FindArgumentByName(name: string, arguments: seq<Argument>): (r: Option<Argument>)
    ensures r.Some? ==> r.value in arguments && r.value.name == name
    ensures r.None? ==> forall a :: a in arguments ==> a.name != name
  {
    if arguments == [] then None
    else if arguments[0].name == name then Some(arguments[0])
    else FindArgumentByName(name, arguments[1..])
  }

  /** `findDirectiveByName`: the first directive with the name, or null. */
  function FindDirectiveByName(name: string, directives: seq<Directive>): (r: Option<Directive>)
    ensures r.Some? ==> r.value in directives && r.value.name == name
    ensures r.None? ==> forall d :: d in directives ==> d.name != name
  {
    if directives == [] then None
    else if directives[0].name == name then Some(directives[0])
    else FindDirectiveByName(name, directives[1..])
  }

  /** Whether an argument has a same-valued match by name in `arguments2`. */
  predicate ArgumentMatched(valueEquals: (Value, Value) -> bool, argument: Argument, arguments2: seq<Argument>) {
    var matched := FindArgumentByName(argument.name, arguments2);
    matched.Some? && SameValue(valueEquals, argument.value, matched.value.value)
  }

  /** The loop of `sameArguments` over the first list. */
  function AllArgumentsMatched(valueEquals: (Value, Value) -> bool, arguments1: seq<Argument>, arguments2: seq<Argument>): (r: bool)
    ensures r <==> forall k :: 0 <= k < |arguments1| ==> ArgumentMatched(valueEquals, arguments1[k], arguments2)
  {
    if arguments1 == [] then true
    else if !ArgumentMatched(valueEquals, arguments1[0], arguments2) then false
    else
      var rest := AllArgumentsMatched(valueEquals, arguments1[1..], arguments2);
      assert forall k :: 1 <= k < |arguments1| ==> arguments1[k] == arguments1[1..][k - 1];
      rest
  }

  /** `sameArguments`: equal sizes, and every argument of the first list
      is found by name in the second with the same value. */
  function SameArguments(valueEquals: (Value, Value) -> bool, arguments1: seq<Argument>, arguments2: seq<Argument>): (r: bool)
    ensures r <==> (|arguments1| == |arguments2|
      && forall k :: 0 <= k < |arguments1| ==> ArgumentMatched(valueEquals, arguments1[k], arguments2))
  {
    if |arguments1| != |arguments2| then false else AllArgumentsMatched(valueEquals, arguments1, arguments2)
  }

  /** Whether a directive has a match by name with the same arguments. */
  predicate DirectiveMatched(valueEquals: (Value, Value) -> bool, directive: Directive, directives2: seq<Directive>) {
    var matched := FindDirectiveByName(directive.name, directives2);
    matched.Some? && SameArguments(valueEquals, directive.arguments, matched.value.arguments)
  }

  function AllDirectivesMatched(valueEquals: (Value, Value) -> bool, directives1: seq<Directive>, directives2: seq<Directive>): (r: bool)
    ensures r <==> forall k :: 0 <= k < |directives1| ==> DirectiveMatched(valueEquals, directives1[k], directives2)
  {
    if directives1 == [] then true
    else if !DirectiveMatched(valueEquals, directives1[0], directives2) then false
    else
      var rest := AllDirectivesMatched(valueEquals, directives1[1..], directives2);
      assert forall k :: 1 <= k < |directives1| ==> directives1[k] == directives1[1..][k - 1];
      rest
  }

  /** `sameDirectives`: equal sizes, and every directive of the first list
      is found by name in the second with the same arguments. */
  function SameDirectives(valueEquals: (Value, Value) -> bool, directives1: seq<Directive>, directives2: seq<Directive>): (r: bool)
    ensures r <==> (|directives1| == |directives2|
      && forall k :: 0 <= k < |directives1| ==> DirectiveMatched(valueEquals, directives1[k], directives2))
  {
    if |directives1| != |directives2| then false else AllDirectivesMatched(valueEquals, directives1, directives2)
  }

  /** `GraphQLType.getName()` as `String.format` prints it: wrappers have
      no name. */
  function TypeNameText(t: TypeRef): string {
    if t.Named? then t.name else "null"
  }

  function DifferentFieldsReason(responseName: string, fieldName1: string, fieldName2: string): string {
    responseName + ": " + fieldName1 + " and " + fieldName2 + " are different fields"
  }

  function DifferingTypesReason(responseName: string, type1: TypeRef, type2: TypeRef): string {
    responseName + ": they return differing types " + TypeNameText(type1) + " and " + TypeNameText(type2)
  }

  function DifferingArgumentsReason(responseName: string): string {
    responseName + ": they have differing arguments"
  }

  function DifferingDirectivesReason(responseName: string): string {
    responseName + ": they have differing directives"
  }

  // ---------------------------------------------------------------------
  // Which index pairs findConflicts compares.

  /** The pairs (i, j), (i, j+1), ..., (i, n-1). */
  function RowFrom(i: nat, j: nat, n: nat): seq<(nat, nat)>
    decreases n - j
  {
    if j >= n then [] else [(i, j)] + RowFrom(i, j + 1, n)
  }

  /** The rows i, i+1, ..., n-1, each starting at j = i + i. */
  function RowsFrom(i: nat, n: nat): seq<(nat, nat)>
    decreases n - i
  {
    if i >= n then [] else RowFrom(i, i + i, n) + RowsFrom(i + 1, n)
  }

  /** The pairs findConflicts compares for a list of n entries, in order. */
  function ComparedPairs(n: nat): seq<(nat, nat)> {
    RowsFrom(0, n)
  }

  lemma {:induction false} InRowFrom(i: nat, j: nat, n: nat, p: (nat, nat))
    ensures p in RowFrom(i, j, n) <==> p.0 == i && j <= p.1 < n
    decreases n - j
  {
    if j < n {
      InRowFrom(i, j + 1, n, p);
    }
  }

  lemma {:induction false} InRowsFrom(i: nat, n: nat, p: (nat, nat))
    ensures p in RowsFrom(i, n) <==> i <= p.0 < n && p.0 + p.0 <= p.1 < n
    decreases n - i
  {
    if i < n {
      InRowFrom(i, i + i, n, p);
      InRowsFrom(i + 1, n, p);
    }
  }

  /** The pair (i, j) is compared exactly when j >= i + i: the first entry
      is compared with itself, and pairs with i < j < 2i are skipped. */
  lemma {:induction false} ComparedPairsExactly(n: nat, i: nat, j: nat)
    ensures (i, j) in ComparedPairs(n) <==> i < n && i + i <= j < n
  {
    InRowsFrom(0, n, (i, j));
  }

  /** With four fields under one response name, the first is compared with
      itself and the third and fourth are never compared with each other. */
  lemma {:induction false} FourFieldsExample()
    ensures (0, 0) in ComparedPairs(4)
    ensures (2, 3) !in ComparedPairs(4) && (1, 2) in ComparedPairs(4)
  {
    ComparedPairsExactly(4, 0, 0);
    ComparedPairsExactly(4, 2, 3);
    ComparedPairsExactly(4, 1, 2);
  }

  // ---------------------------------------------------------------------
  // findConflict and findConflicts as functions.

  predicate PairsInRange(pairs: seq<(nat, nat)>, n: nat) {
    forall p :: p in pairs ==> p.0 < n && p.1 < n
  }

  lemma {:induction false} RemainingPairsInRange(i: nat, j: nat, n: nat)
    ensures PairsInRange(RowsFrom(i, n), n)
    ensures i < n ==> PairsInRange(RowFrom(i, j, n) + RowsFrom(i + 1, n), n)
  {
    forall p | p in RowsFrom(i, n)
      ensures p.0 < n && p.1 < n
    {
      InRowsFrom(i, n, p);
    }
    if i < n {
      forall p | p in RowFrom(i, j, n) + RowsFrom(i + 1, n)
        ensures p.0 < n && p.1 < n
      {
        InRowFrom(i, j, n, p);
        InRowsFrom(i + 1, n, p);
      }
    }
  }

  /** `findConflict`: the first difference among name, type, arguments and
      directives, else null once the sub-selections have been collected
      and compared (their conflicts are dropped). */
  function FindConflict(ctx: RuleContext, responseName: string, fieldAndType1: FieldAndType, fieldAndType2: FieldAndType, fuel: nat)
    : (r: Result<Option<Conflict>>)
    requires ctx.Valid()
    ensures var field1 := fieldAndType1.field; var field2 := fieldAndType2.field;
      r.Ok? && r.value.Some? ==> r.value.value.responseName == responseName && r.value.value.fields == [field1, field2]
    decreases fuel, 0, 0
  {
    var field1 := fieldAndType1.field;
    var field2 := fieldAndType2.field;
    var type1 := fieldAndType1.graphQLType;
    var type2 := fieldAndType2.graphQLType;
    if field1.name != field2.name then
      Ok(Some(Conflict(responseName, DifferentFieldsReason(responseName, field1.name, field2.name), [field1, field2])))
    else if !SameType(type1, type2) then
      if type1.None? || type2.None? then Throws(NullPointerException)
      else Ok(Some(Conflict(responseName, DifferingTypesReason(responseName, type1.value, type2.value), [field1, field2])))
    else if !SameArguments(ctx.valueEquals, field1.arguments, field2.arguments) then
      Ok(Some(Conflict(responseName, DifferingArgumentsReason(responseName), [field1, field2])))
    else if !SameDirectives(ctx.valueEquals, field1.directives, field2.directives) then
      Ok(Some(Conflict(responseName, DifferingDirectivesReason(responseName), [field1, field2])))
    else if field1.selectionSet.Some? && field2.selectionSet.Some? then
      if fuel == 0 then Throws(StackOverflowError)
      else SubselectionConflicts(ctx, field1.selectionSet.value, type1, field2.selectionSet.value, type2, fuel - 1)
    else Ok(None)
  }

  /** Both sub-selections are collected into one map and searched one
      level down; only an exception there is reported. */
  function SubselectionConflicts(ctx: RuleContext, selectionSet1: SelectionSet, type1: Option<TypeRef>,
                                 selectionSet2: SelectionSet, type2: Option<TypeRef>, fuel: nat): Result<Option<Conflict>>
    requires ctx.Valid()
    decreases fuel, 3, 0
  {
    var first := CollectSelections(ctx, Collect(Empty(), [], None), selectionSet1.selections, type1);
    var both := CollectSelections(ctx, first, selectionSet2.selections, type2);
    if both.error.Some? then Throws(both.error.value)
    else
      match KeysFrom(ctx, both.fieldMap, both.fieldMap.keys, fuel, [])
      case Throws(e) => Throws(e)
      case Ok(_) => Ok(None)
  }

  /** The conflicts of the given pairs of one response name's list,
      appended to `acc`; an exception ends the search. */
  function PairsFrom(ctx: RuleContext, name: string, fieldAndTypes: seq<FieldAndType>, pairs: seq<(nat, nat)>, fuel: nat,
                     acc: seq<Conflict>): Result<seq<Conflict>>
    requires ctx.Valid() && PairsInRange(pairs, |fieldAndTypes|)
    decreases fuel, 1, |pairs|
  {
    if pairs == [] then Ok(acc)
    else
      assert pairs[0] in pairs;
      match FindConflict(ctx, name, fieldAndTypes[pairs[0].0], fieldAndTypes[pairs[0].1], fuel)
      case Throws(e) => Throws(e)
      case Ok(conflict) =>
        assert forall p :: p in pairs[1..] ==> p in pairs;
        PairsFrom(ctx, name, fieldAndTypes, pairs[1..], fuel, if conflict.Some? then acc + [conflict.value] else acc)
  }

  /** The conflicts of the given response names, appended to `acc`. */
  function KeysFrom(ctx: RuleContext, fieldMap: FieldMap, keys: seq<string>, fuel: nat, acc: seq<Conflict>): Result<seq<Conflict>>
    requires ctx.Valid() && fieldMap.Valid() && forall k :: k in keys ==> k in fieldMap.entries
    decreases fuel, 2, |keys|
  {
    if keys == [] then Ok(acc)
    else
      var fieldAndTypes := fieldMap.entries[keys[0]];
      RemainingPairsInRange(0, 0, |fieldAndTypes|);
      match PairsFrom(ctx, keys[0], fieldAndTypes, ComparedPairs(|fieldAndTypes|), fuel, acc)
      case Throws(e) => Throws(e)
      case Ok(acc') =>
        assert forall k :: k in keys[1..] ==> k in keys;
        KeysFrom(ctx, fieldMap, keys[1..], fuel, acc')
  }

  /** `findConflicts`: every response name in order, every compared pair. */
  function Conflicts(ctx: RuleContext, fieldMap: FieldMap, fuel: nat): Result<seq<Conflict>>
    requires ctx.Valid() && fieldMap.Valid()
  {
    KeysFrom(ctx, fieldMap, fieldMap.keys, fuel, [])
  }

  // ---------------------------------------------------------------------
  // The methods.

  /** `findConflict`. */
  method FindConflictOf(ctx: RuleContext, responseName: string, fieldAndType1: FieldAndType, fieldAndType2: FieldAndType, fuel: nat)
    returns (r: Result<Option<Conflict>>)
    requires ctx.Valid()
    ensures r == FindConflict(ctx, responseName, fieldAndType1, fieldAndType2, fuel)
    decreases fuel, 0
  {
    var field1 := fieldAndType1.field;
    var field2 := fieldAndType2.field;
    var type1 := fieldAndType1.graphQLType;
    var type2 := fieldAndType2.graphQLType;
    if field1.name != field2.name {
      return Ok(Some(Conflict(responseName, DifferentFieldsReason(responseName, field1.name, field2.name), [field1, field2])));
    }
    if !SameType(type1, type2) {
      if type1.None? || type2.None? {
        return Throws(NullPointerException);
      }
      return Ok(Some(Conflict(responseName, DifferingTypesReason(responseName, type1.value, type2.value), [field1, field2])));
    }
    if !SameArguments(ctx.valueEquals, field1.arguments, field2.arguments) {
      return Ok(Some(Conflict(responseName, DifferingArgumentsReason(responseName), [field1, field2])));
    }
    if !SameDirectives(ctx.valueEquals, field1.directives, field2.directives) {
      return Ok(Some(Conflict(responseName, DifferingDirectivesReason(responseName), [field1, field2])));
    }
    if field1.selectionSet.Some? && field2.selectionSet.Some? {
      if fuel == 0 {
        return Throws(StackOverflowError);
      }
      r := FindSubselectionConflicts(ctx, field1.selectionSet.value, type1, field2.selectionSet.value, type2, fuel - 1);
      return;
    }
    return Ok(None);
  }

  /** The tail of `findConflict`: both sub-selections into one fresh map,
      then `findConflicts` on it. */
  method FindSubselectionConflicts(ctx: RuleContext, selectionSet1: SelectionSet, type1: Option<TypeRef>,
                                   selectionSet2: SelectionSet, type2: Option<TypeRef>, fuel: nat)
    returns (r: Result<Option<Conflict>>)
    requires ctx.Valid()
    ensures r == SubselectionConflicts(ctx, selectionSet1, type1, selectionSet2, type2, fuel)
    decreases fuel, 4
  {
    var visitedFragmentSpreads := new VisitedSpreads();
    var subfieldMap := new FieldAndTypeMap();
    var collected1 := CollectFields(ctx, subfieldMap, selectionSet1, type1, visitedFragmentSpreads);
    if collected1.Throws? {
      return Throws(collected1.error);
    }
    var collected2 := CollectFields(ctx, subfieldMap, selectionSet2, type2, visitedFragmentSpreads);
    if collected2.Throws? {
      return Throws(collected2.error);
    }
    var subConflicts := FindConflicts(ctx, subfieldMap.contents, fuel);
    if subConflicts.Throws? {
      return Throws(subConflicts.error);
    }
    return Ok(None);
  }

  /** Comparing two runs of pairs is comparing their concatenation. */
  lemma {:induction false} PairsFromConcat(ctx: RuleContext, name: string, fieldAndTypes: seq<FieldAndType>,
                                           a: seq<(nat, nat)>, b: seq<(nat, nat)>, fuel: nat, acc: seq<Conflict>)
    requires ctx.Valid() && PairsInRange(a, |fieldAndTypes|) && PairsInRange(b, |fieldAndTypes|)
    ensures PairsInRange(a + b, |fieldAndTypes|)
    ensures PairsFrom(ctx, name, fieldAndTypes, a + b, fuel, acc)
      == match PairsFrom(ctx, name, fieldAndTypes, a, fuel, acc)
         case Throws(e) => Throws(e)
         case Ok(acc') => PairsFrom(ctx, name, fieldAndTypes, b, fuel, acc')
  {
    if a != [] {
      assert (a + b)[0] == a[0];
      assert (a + b)[1..] == a[1..] + b;
      assert forall p :: p in a[1..] ==> p in a;
      match FindConflict(ctx, name, fieldAndTypes[a[0].0], fieldAndTypes[a[0].1], fuel)
      case Throws(_) =>
      case Ok(conflict) =>
        PairsFromConcat(ctx, name, fieldAndTypes, a[1..], b, fuel, if conflict.Some? then acc + [conflict.value] else acc);
    } else {
      assert a + b == b;
    }
  }

  /** The inner loop of `findConflicts`: j from i + i. */
  method RowConflicts(ctx: RuleContext, name: string, fieldAndTypes: seq<FieldAndType>, i: nat, fuel: nat, acc: seq<Conflict>)
    returns (r: Result<seq<Conflict>>)
    requires ctx.Valid() && i < |fieldAndTypes|
    ensures PairsInRange(RowFrom(i, i + i, |fieldAndTypes|), |fieldAndTypes|)
    ensures r == PairsFrom(ctx, name, fieldAndTypes, RowFrom(i, i + i, |fieldAndTypes|), fuel, acc)
    decreases fuel, 1
  {
    var n := |fieldAndTypes|;
    RowInRange(i, i + i, n);
    var result := acc;
    var j := i + i;
    while j < n
      invariant PairsInRange(RowFrom(i, j, n), n)
      invariant PairsFrom(ctx, name, fieldAndTypes, RowFrom(i, j, n), fuel, result)
        == PairsFrom(ctx, name, fieldAndTypes, RowFrom(i, i + i, n), fuel, acc)
      decreases n - j
    {
      RowInRange(i, j + 1, n);
      var conflict := FindConflictOf(ctx, name, fieldAndTypes[i], fieldAndTypes[j], fuel);
      if conflict.Throws? {
        return Throws(conflict.error);
      }
      if conflict.value.Some? {
        result := result + [conflict.value.value];
      }
      j := j + 1;
    }
    return Ok(result);
  }

  lemma {:induction false} RowInRange(i: nat, j: nat, n: nat)
    requires i < n
    ensures PairsInRange(RowFrom(i, j, n), n)
  {
    forall p | p in RowFrom(i, j, n)
      ensures p.0 < n && p.1 < n
    {
      InRowFrom(i, j, n, p);
    }
  }

  /** The outer index loop of `findConflicts` for one response name. */
  method KeyConflicts(ctx: RuleContext, name: string, fieldAndTypes: seq<FieldAndType>, fuel: nat, acc: seq<Conflict>)
    returns (r: Result<seq<Conflict>>)
    requires ctx.Valid()
    ensures PairsInRange(ComparedPairs(|fieldAndTypes|), |fieldAndTypes|)
    ensures r == PairsFrom(ctx, name, fieldAndTypes, ComparedPairs(|fieldAndTypes|), fuel, acc)
    decreases fuel, 2
  {
    var n := |fieldAndTypes|;
    RemainingPairsInRange(0, 0, n);
    var result := acc;
    var i := 0;
    while i < n
      invariant 0 <= i <= n
      invariant PairsInRange(RowsFrom(i, n), n)
      invariant PairsFrom(ctx, name, fieldAndTypes, RowsFrom(i, n), fuel, result)
        == PairsFrom(ctx, name, fieldAndTypes, ComparedPairs(n), fuel, acc)
    {
      RemainingPairsInRange(i + 1, 0, n);
      RowInRange(i, i + i, n);
      PairsFromConcat(ctx, name, fieldAndTypes, RowFrom(i, i + i, n), RowsFrom(i + 1, n), fuel, result);
      var row := RowConflicts(ctx, name, fieldAndTypes, i, fuel, result);
      if row.Throws? {
        return row;
      }
      result := row.value;
      i := i + 1;
    }
    return Ok(result);
  }

  /** `findConflicts`: every response name in order. */
  method FindConflicts(ctx: RuleContext, fieldMap: FieldMap, fuel: nat) returns (r: Result<seq<Conflict>>)
    requires ctx.Valid() && fieldMap.Valid()
    ensures r == Conflicts(ctx, fieldMap, fuel)
    decreases fuel, 3
  {
    var result: seq<Conflict> := [];
    var keys := fieldMap.keys;
    var k := 0;
    while k < |keys|
      invariant 0 <= k <= |keys|
      invariant KeysFrom(ctx, fieldMap, keys[k..], fuel, result) == Conflicts(ctx, fieldMap, fuel)
    {
      assert keys[k..][1..] == keys[k + 1..];
      var fromKey := KeyConflicts(ctx, keys[k], fieldMap.entries[keys[k]], fuel, result);
      if fromKey.Throws? {
        return fromKey;
      }
      result := fromKey.value;
      k := k + 1;
    }
    return Ok(result);
  }

  /** `checkSelectionSet`: collect from the context's output type, then add
      one FieldsConflict error per conflict, in order. */
  method CheckSelectionSet(ctx: RuleContext, selectionSet: SelectionSet, collector: ValidationErrorCollector, fuel: nat)
    returns (r: Result<()>)
    requires ctx.Valid()
    modifies collector
    ensures var collected := CollectSelections(ctx, Collect(Empty(), [], None), selectionSet.selections, ctx.outputType);
      var conflicts := if collected.error.Some? then Throws(collected.error.value) else Conflicts(ctx, collected.fieldMap, fuel);
      (r.Throws? <==> conflicts.Throws?)
      && (r.Ok? ==> collector.errors == old(collector.errors) + ConflictErrors(conflicts.value))
      && (r.Throws? ==> r.error == conflicts.error && collector.errors == old(collector.errors))
  {
    var fieldMap := new FieldAndTypeMap();
    var visitedFragmentSpreads := new VisitedSpreads();
    var collected := CollectFields(ctx, fieldMap, selectionSet, ctx.outputType, visitedFragmentSpreads);
    if collected.Throws? {
      return Throws(collected.error);
    }
    var conflicts := FindConflicts(ctx, fieldMap.contents, fuel);
    if conflicts.Throws? {
      return Throws(conflicts.error);
    }
    var i := 0;
    while i < |conflicts.value|
      invariant 0 <= i <= |conflicts.value|
      invariant collector.errors == old(collector.errors) + ConflictErrors(conflicts.value[..i])
    {
      var conflict := conflicts.value[i];
      assert conflicts.value[..i + 1][..i] == conflicts.value[..i];
      collector.AddError(ValidationError(FieldsConflict, conflict.reason, [], conflict.fields));
      i := i + 1;
    }
    assert conflicts.value[..i] == conflicts.value;
    return Ok(());
  }

  /** One FieldsConflict error per conflict, carrying its reason and fields. */
  function ConflictErrors(conflicts: seq<Conflict>): (errors: seq<ValidationError>)
    ensures |errors| == |conflicts|
    ensures forall k :: 0 <= k < |conflicts| ==>
      errors[k] == ValidationError(FieldsConflict, conflicts[k].reason, [], conflicts[k].fields)
  {
    if conflicts == [] then [] else ConflictErrors(conflicts[..|conflicts| - 1]) + [ValidationError(FieldsConflict, conflicts[|conflicts| - 1].reason, [], conflicts[|conflicts| - 1].fields)]
  }

  // ---------------------------------------------------------------------
  // Properties.

  /** `after` extends `before`: response names keep their order, each list
      only gains entries at its end, the visited names only gain names at
      the end, and a fragment name is never recorded twice. */
  ghost predicate Grows(before: Collect, after: Collect) {
    before.fieldMap.keys <= after.fieldMap.keys && before.visited <= after.visited
    && (forall key :: Entries(before.fieldMap, key) <= Entries(after.fieldMap, key))
    && (Distinct(before.visited) ==> Distinct(after.visited))
  }

  lemma {:induction false} GrowsTransitive(a: Collect, b: Collect, c: Collect)
    requires Grows(a, b) && Grows(b, c)
    ensures Grows(a, c)
  {
    forall key
      ensures Entries(a.fieldMap, key) <= Entries(c.fieldMap, key)
    {
      assert Entries(a.fieldMap, key) <= Entries(b.fieldMap, key);
    }
  }

  /** Collection only grows the state, so each fragment is expanded at most
      once per visited set. */
  lemma {:induction false} CollectSelectionsGrows(ctx: RuleContext, st: Collect, selections: seq<Selection>, parentType: Option<TypeRef>)
    requires ctx.Valid() && st.fieldMap.Valid()
    ensures Grows(st, CollectSelections(ctx, st, selections, parentType))
    decreases Unvisited(ctx, st.visited), SelectionsSize(selections), 1
  {
    if st.error.None? && selections != [] {
      var next := CollectSelection(ctx, st, selections[0], parentType);
      CollectSelectionGrows(ctx, st, selections[0], parentType);
      UnvisitedShrinks(ctx, st.visited, next.visited);
      CollectSelectionsGrows(ctx, next, selections[1..], parentType);
      GrowsTransitive(st, next, CollectSelections(ctx, next, selections[1..], parentType));
    }
  }

  lemma {:induction false} CollectSelectionGrows(ctx: RuleContext, st: Collect, selection: Selection, parentType: Option<TypeRef>)
    requires ctx.Valid() && st.fieldMap.Valid() && st.error.None?
    ensures Grows(st, CollectSelection(ctx, st, selection, parentType))
    decreases Unvisited(ctx, st.visited), SelectionSize(selection), 0
  {
    match selection
    case FieldSelection(field) => FieldSelectionGrows(ctx, st, field, parentType);
    case InlineSelection(inline) => InlineSelectionGrows(ctx, st, inline, parentType);
    case SpreadSelection(spread) => SpreadSelectionGrows(ctx, st, spread, parentType);
  }

  lemma {:induction false} InlineSelectionGrows(ctx: RuleContext, st: Collect, inline: InlineFragment, parentType: Option<TypeRef>)
    requires ctx.Valid() && st.fieldMap.Valid() && st.error.None?
    ensures Grows(st, CollectSelection(ctx, st, InlineSelection(inline), parentType))
    decreases Unvisited(ctx, st.visited), SelectionsSize(inline.selectionSet.selections), 2
  {
    match InlineConditionType(ctx.schema, inline.typeCondition) {
      case Throws(_) =>
      case Ok(t) => CollectSelectionsGrows(ctx, st, inline.selectionSet.selections, t);
    }
  }

  lemma {:induction false} SpreadSelectionGrows(ctx: RuleContext, st: Collect, spread: FragmentSpread, parentType: Option<TypeRef>)
    requires ctx.Valid() && st.fieldMap.Valid() && st.error.None?
    ensures Grows(st, CollectSelection(ctx, st, SpreadSelection(spread), parentType))
    decreases Unvisited(ctx, st.visited), 0, 0
  {
    if spread.name in ctx.fragments && ctx.fragments[spread.name].name !in st.visited {
      var fragment := ctx.fragments[spread.name];
      var marked := st.(visited := st.visited + [fragment.name]);
      UnvisitedDrops(ctx, st.visited, fragment.name);
      assert Grows(st, marked);
      match ConditionType(ctx.schema, TypeName(fragment.typeCondition)) {
        case Throws(_) =>
        case Ok(t) =>
          CollectSelectionsGrows(ctx, marked, fragment.selectionSet.selections, t);
          GrowsTransitive(st, marked, CollectSelections(ctx, marked, fragment.selectionSet.selections, t));
      }
    }
  }

  /** A field is added under its response name, after the fields already
      there; nothing else changes. */
  lemma {:induction false} FieldSelectionGrows(ctx: RuleContext, st: Collect, field: Field, parentType: Option<TypeRef>)
    requires ctx.Valid() && st.fieldMap.Valid() && st.error.None?
    ensures var r := CollectSelection(ctx, st, FieldSelection(field), parentType);
      st.fieldMap.keys <= r.fieldMap.keys && st.visited == r.visited
      && (forall key :: Entries(st.fieldMap, key) <= Entries(r.fieldMap, key))
  {
    var name := ResponseName(field);
    var r := CollectSelection(ctx, st, FieldSelection(field), parentType);
    forall key
      ensures Entries(st.fieldMap, key) <= Entries(r.fieldMap, key)
    {
      if key != name {
        assert r.fieldMap.Get(key) == st.fieldMap.Get(key);
      } else {
        assert r.fieldMap.Get(key).Some?;
      }
    }
  }

  /** A spread of an unknown fragment, or of one already visited, leaves
      the collection unchanged. */
  lemma {:induction false} SkippedSpreadChangesNothing(ctx: RuleContext, st: Collect, spread: FragmentSpread, parentType: Option<TypeRef>)
    requires ctx.Valid() && st.fieldMap.Valid() && st.error.None?
    requires spread.name !in ctx.fragments || spread.name in st.visited
    ensures CollectSelection(ctx, st, SpreadSelection(spread), parentType) == st
  {
  }

  /** The field-and-type entries of plain field selections under one
      response name, in selection order. */
  function FieldsWithResponseName(schema: Schema, parentType: Option<TypeRef>, selections: seq<Selection>, key: string): seq<FieldAndType> {
    if selections == [] then []
    else
      var rest := FieldsWithResponseName(schema, parentType, selections[1..], key);
      match selections[0]
      case FieldSelection(f) =>
        if ResponseName(f) == key then [FieldAndType(f, FieldTypeIn(schema, parentType, f))] + rest else rest
      case _ => rest
  }

  /** Plain fields are grouped by response name in encounter order, each
      carrying the type its parent declares for it. */
  lemma {:induction false} FieldsGroupByResponseName(ctx: RuleContext, st: Collect, selections: seq<Selection>, parentType: Option<TypeRef>, key: string)
    requires ctx.Valid() && st.fieldMap.Valid() && st.error.None?
    requires forall k :: 0 <= k < |selections| ==> selections[k].FieldSelection?
    ensures var r := CollectSelections(ctx, st, selections, parentType);
      r.error.None? && Entries(r.fieldMap, key) == Entries(st.fieldMap, key) + FieldsWithResponseName(ctx.schema, parentType, selections, key)
    decreases |selections|
  {
    if selections != [] {
      var f := selections[0].field;
      var next := CollectSelection(ctx, st, FieldSelection(f), parentType);
      FieldEntryAppended(ctx, st, f, parentType, key);
      assert forall k :: 0 <= k < |selections[1..]| ==> selections[1..][k] == selections[k + 1];
      FieldsGroupByResponseName(ctx, next, selections[1..], parentType, key);
      FieldStepUnfolds(ctx, st, selections, parentType, key);
      Regroup(Entries(CollectSelections(ctx, next, selections[1..], parentType).fieldMap, key), Entries(next.fieldMap, key),
              Entries(st.fieldMap, key), if ResponseName(f) == key then [FieldAndType(f, FieldTypeIn(ctx.schema, parentType, f))] else [],
              FieldsWithResponseName(ctx.schema, parentType, selections[1..], key),
              FieldsWithResponseName(ctx.schema, parentType, selections, key));
    }
  }

  lemma {:induction false} Regroup<T>(whole: seq<T>, middle: seq<T>, start: seq<T>, added: seq<T>, rest: seq<T>, tail: seq<T>)
    requires whole == middle + rest && middle == start + added && tail == added + rest
    ensures whole == start + tail
  {
  }

  lemma {:induction false} FieldStepUnfolds(ctx: RuleContext, st: Collect, selections: seq<Selection>, parentType: Option<TypeRef>, key: string)
    requires ctx.Valid() && st.fieldMap.Valid() && st.error.None?
    requires selections != [] && selections[0].FieldSelection?
    ensures var f := selections[0].field;
      CollectSelections(ctx, st, selections, parentType)
        == CollectSelections(ctx, CollectSelection(ctx, st, FieldSelection(f), parentType), selections[1..], parentType)
      && FieldsWithResponseName(ctx.schema, parentType, selections, key)
        == (if ResponseName(f) == key then [FieldAndType(f, FieldTypeIn(ctx.schema, parentType, f))] else [])
           + FieldsWithResponseName(ctx.schema, parentType, selections[1..], key)
  {
    assert selections[0] == FieldSelection(selections[0].field);
  }

  /** Collecting one plain field adds it under its own response name only. */
  lemma {:induction false} FieldEntryAppended(ctx: RuleContext, st: Collect, f: Field, parentType: Option<TypeRef>, key: string)
    requires ctx.Valid() && st.fieldMap.Valid() && st.error.None?
    ensures var next := CollectSelection(ctx, st, FieldSelection(f), parentType);
      next.error.None? &&
      Entries(next.fieldMap, key) == Entries(st.fieldMap, key)
        + (if ResponseName(f) == key then [FieldAndType(f, FieldTypeIn(ctx.schema, parentType, f))] else [])
  {
    var next := CollectSelection(ctx, st, FieldSelection(f), parentType);
    if ResponseName(f) == key {
      assert next.fieldMap.Get(key).Some?;
    } else {
      assert next.fieldMap.Get(key) == st.fieldMap.Get(key);
    }
  }

  /** `findConflict` reports the first difference only: a name difference
      before a type difference, before an argument difference, before a
      directive difference; when none is found it reports nothing, whatever
      the sub-selections hold. */
  lemma {:induction false} FindConflictReportsFirstDifference(ctx: RuleContext, responseName: string, fieldAndType1: FieldAndType, fieldAndType2: FieldAndType, fuel: nat)
    requires ctx.Valid()
    ensures var f1 := fieldAndType1.field; var f2 := fieldAndType2.field;
      var t1 := fieldAndType1.graphQLType; var t2 := fieldAndType2.graphQLType;
      var r := FindConflict(ctx, responseName, fieldAndType1, fieldAndType2, fuel);
      (f1.name != f2.name ==> r == Ok(Some(Conflict(responseName, DifferentFieldsReason(responseName, f1.name, f2.name), [f1, f2]))))
      && ((f1.name == f2.name && t1.Some? && t2.Some? && t1 != t2) ==>
            r == Ok(Some(Conflict(responseName, DifferingTypesReason(responseName, t1.value, t2.value), [f1, f2]))))
      && ((f1.name == f2.name && t1 == t2 && !SameArguments(ctx.valueEquals, f1.arguments, f2.arguments)) ==>
            r == Ok(Some(Conflict(responseName, DifferingArgumentsReason(responseName), [f1, f2]))))
      && ((f1.name == f2.name && t1 == t2 && SameArguments(ctx.valueEquals, f1.arguments, f2.arguments)
            && !SameDirectives(ctx.valueEquals, f1.directives, f2.directives)) ==>
            r == Ok(Some(Conflict(responseName, DifferingDirectivesReason(responseName), [f1, f2]))))
      && ((f1.name == f2.name && t1 == t2 && SameArguments(ctx.valueEquals, f1.arguments, f2.arguments)
            && SameDirectives(ctx.valueEquals, f1.directives, f2.directives)) ==> (r.Throws? || r == Ok(None)))
  {
  }

  /** Exactly one null type makes the type check dereference the null type
      when it formats its message. */
  lemma {:induction false} OneNullTypeThrows(ctx: RuleContext, responseName: string, field: Field, t: TypeRef, fuel: nat)
    requires ctx.Valid()
    ensures FindConflict(ctx, responseName, FieldAndType(field, None), FieldAndType(field, Some(t)), fuel) == Throws(NullPointerException)
  {
  }

  predicate DistinctArgumentNames(arguments: seq<Argument>) {
    forall a, b :: 0 <= a < b < |arguments| ==> arguments[a].name != arguments[b].name
  }

  lemma {:induction false} FindArgumentOfDistinct(arguments: seq<Argument>, k: nat)
    requires k < |arguments| && DistinctArgumentNames(arguments)
    ensures FindArgumentByName(arguments[k].name, arguments) == Some(arguments[k])
  {
    if k > 0 {
      assert DistinctArgumentNames(arguments[1..]) by {
        forall a, b | 0 <= a < b < |arguments[1..]|
          ensures arguments[1..][a].name != arguments[1..][b].name
        {
          assert arguments[1..][a] == arguments[a + 1] && arguments[1..][b] == arguments[b + 1];
        }
      }
      assert arguments[0].name != arguments[k].name;
      assert arguments[1..][k - 1] == arguments[k];
      FindArgumentOfDistinct(arguments[1..], k - 1);
    }
  }

  lemma {:induction false} SameArgumentsReflexive(valueEquals: (Value, Value) -> bool, arguments: seq<Argument>)
    requires forall v :: valueEquals(v, v)
    requires DistinctArgumentNames(arguments)
    ensures SameArguments(valueEquals, arguments, arguments)
  {
    forall k | 0 <= k < |arguments|
      ensures ArgumentMatched(valueEquals, arguments[k], arguments)
    {
      FindArgumentOfDistinct(arguments, k);
    }
  }

  lemma {:induction false} FindDirectiveOfDistinct(directives: seq<Directive>, k: nat)
    requires k < |directives|
    requires forall a, b :: 0 <= a < b < |directives| ==> directives[a].name != directives[b].name
    ensures FindDirectiveByName(directives[k].name, directives) == Some(directives[k])
  {
    if k > 0 {
      assert directives[1..][k - 1] == directives[k];
      assert forall a, b :: 0 <= a < b < |directives[1..]| ==> directives[1..][a] == directives[a + 1] && directives[1..][b] == directives[b + 1];
      FindDirectiveOfDistinct(directives[1..], k - 1);
    }
  }

  /** The self-comparison at (0, 0) finds no conflict when the field's
      argument and directive names are distinct and literal equality is
      reflexive. */
  lemma {:induction false} SelfComparisonReportsNothing(ctx: RuleContext, responseName: string, fieldAndType: FieldAndType, fuel: nat)
    requires ctx.Valid()
    requires forall v :: ctx.valueEquals(v, v)
    requires DistinctArgumentNames(fieldAndType.field.arguments)
    requires forall a, b :: 0 <= a < b < |fieldAndType.field.directives| ==>
      fieldAndType.field.directives[a].name != fieldAndType.field.directives[b].name
    requires forall d :: d in fieldAndType.field.directives ==> DistinctArgumentNames(d.arguments)
    ensures FindConflict(ctx, responseName, fieldAndType, fieldAndType, fuel).Ok? ==>
      FindConflict(ctx, responseName, fieldAndType, fieldAndType, fuel).value.None?
  {
    var field := fieldAndType.field;
    SameArgumentsReflexive(ctx.valueEquals, field.arguments);
    forall k | 0 <= k < |field.directives|
      ensures DirectiveMatched(ctx.valueEquals, field.directives[k], field.directives)
    {
      FindDirectiveOfDistinct(field.directives, k);
      SameArgumentsReflexive(ctx.valueEquals, field.directives[k].arguments);
    }
  }

  /** As written, a field whose two arguments share a name and differ in
      value conflicts with itself, since the second argument is matched
      against the first. */
  lemma {:induction false} DuplicateArgumentConflictsWithItself(ctx: RuleContext, responseName: string, field: Field, t: Option<TypeRef>,
                                             v1: Value, v2: Value, fuel: nat)
    requires ctx.Valid()
    requires field.arguments == [Argument("x", Some(v1)), Argument("x", Some(v2))]
    requires ctx.valueEquals(v1, v1) && !ctx.valueEquals(v2, v1)
    ensures FindConflict(ctx, responseName, FieldAndType(field, t), FieldAndType(field, t), fuel)
      == Ok(Some(Conflict(responseName, DifferingArgumentsReason(responseName), [field, field])))
  {
    assert !ArgumentMatched(ctx.valueEquals, field.arguments[1], field.arguments);
  }
}
