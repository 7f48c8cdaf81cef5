/** graphql.schema.DataFetchingFieldSelectionSetImpl: the sub-fields selected
    under a field, computed on first use and flattened into qualified names
    such as "author/address/city". The field collector, the argument
    resolver, the field-definition lookup and the glob matcher are
    collaborators passed in. */
module DataFetchingFieldSelectionSet {
  import opened Common
  import opened Ast
  import opened SchemaTypes
  import opened LinkedMaps
  import opened RuntimeValues

  /** The code the selection set calls but does not own. */
  datatype Collaborators = Collaborators(
    schema: Schema,
    /** FieldCollector.collectFields for a parent object type (or null) and
        a merged field: the entries of the resulting map, in order. */
    collect: (Option<string>, seq<Field>) -> seq<(string, seq<Field>)>,
    /** Introspection.getFieldDef for a parent type and a field name. */
    fieldDef: (NamedType, string) -> Result<FieldDefinition>,
    /** ValuesResolver.getArgumentValues, the variables fixed. */
    argumentValues: (seq<ArgumentDefinition>, seq<Argument>) -> LinkedMap<string, Object>,
    /** The "glob:" path matcher: pattern, then qualified name. */
    globMatches: (string, string) -> bool)

  /** `mkFieldName`: the prefix and the name joined by "/", or the name
      alone under an empty prefix. */
  function MkFieldName(fieldPrefix: string, fieldName: string): string {
    (if fieldPrefix != [] then fieldPrefix + "/" else "") + fieldName
  }

  /** `asObjectTypeOrNull`. */
  function ObjectTypeOrNull(t: NamedType): Option<string> {
    if t.ObjectType? then Some(t.name) else None
  }

  /** `unwrapBaseType` of a field's type, when that is a fields container. */
  function ContainerOf(schema: Schema, t: TypeRef): Option<NamedType> {
    match schema.GetType(UnwrapAll(t))
    case Some(n) => if n.IsFieldsContainer() then Some(n) else None
    case None => None
  }

  /** The four lazily filled collections. */
  datatype Maps = Maps(
    fields: LinkedMap<string, seq<Field>>,
    definitions: LinkedMap<string, FieldDefinition>,
    arguments: LinkedMap<string, LinkedMap<string, Object>>,
    flattened: seq<string>)
  {
    predicate Valid() {
      fields.Valid() && definitions.Valid() && arguments.Valid() && Distinct(flattened)
    }

    /** The same qualified names, in the same order, everywhere. */
    predicate Aligned() {
      fields.keys == definitions.keys && definitions.keys == arguments.keys && arguments.keys == flattened
    }
  }

  function EmptyMaps(): (m: Maps)
    ensures m.Valid() && m.Aligned()
  {
    Maps(Empty(), Empty(), Empty(), [])
  }

  /** LinkedHashSet.add. */
  function AddName(names: seq<string>, name: string): (r: seq<string>)
    requires Distinct(names)
    ensures Distinct(r)
  {
    if name in names then names else names + [name]
  }

  /** How a traversal ended: the collections as they stand, and the
      exception that stopped it, if any. */
  datatype Traversal = Traversal(maps: Maps, failure: Option<Exception>)

  /** `traverseFields`: collect the sub-fields of the merged field, then
      record each entry; `fuel` bounds the nesting depth. */
  function Traverse(c: Collaborators, fuel: nat, fieldList: seq<Field>, parentType: NamedType, fieldPrefix: string, st: Maps): (r: Traversal)
    requires st.Valid()
    ensures r.maps.Valid()
    decreases fuel, 2, 0
  {
    TraverseEntries(c, fuel, c.collect(ObjectTypeOrNull(parentType), fieldList), parentType, fieldPrefix, st)
  }

  /** The loop of `traverseFields` over the collected entries. The field
      list is stored before the definition is looked up, so an exception
      from the lookup leaves it stored. */
  function TraverseEntries(c: Collaborators, fuel: nat, entries: seq<(string, seq<Field>)>, parentType: NamedType, fieldPrefix: string, st: Maps): (r: Traversal)
    requires st.Valid()
    ensures r.maps.Valid()
    decreases fuel, 1, |entries|
  {
    if entries == [] then Traversal(st, None)
    else
      var r := RecordEntry(c, fuel, entries[0], parentType, fieldPrefix, st);
      if r.failure.Some? then r
      else TraverseEntries(c, fuel, entries[1..], parentType, fieldPrefix, r.maps)
  }

  /** One entry: store the field list under its qualified name, then the
      rest of the entry. */
  function RecordEntry(c: Collaborators, fuel: nat, entry: (string, seq<Field>), parentType: NamedType, fieldPrefix: string, st: Maps): (r: Traversal)
    requires st.Valid()
    ensures r.maps.Valid()
    decreases fuel, 0, 1
  {
    var fieldName := MkFieldName(fieldPrefix, entry.0);
    var st1 := st.(fields := st.fields.Put(fieldName, entry.1));
    if entry.1 == [] then Traversal(st1, Some(IndexOutOfBoundsException))
    else RecordFirstField(c, fuel, fieldName, entry.1, parentType, st1)
  }

  /** The rest of one entry, once its field list is stored: look up the
      first field's definition, store the arguments and the definition and
      add the name to the flattened list, then descend when the field's
      type is a fields container. */
  function RecordFirstField(c: Collaborators, fuel: nat, fieldName: string, collectedFieldList: seq<Field>, parentType: NamedType, st1: Maps): (r: Traversal)
    requires st1.Valid() && collectedFieldList != []
    ensures r.maps.Valid()
    decreases fuel, 0, 0
  {
    var field := collectedFieldList[0];
    match c.fieldDef(parentType, field.name)
    case Throws(e) => Traversal(st1, Some(e))
    case Ok(fieldDef) =>
      var argumentValues := c.argumentValues(fieldDef.arguments, field.arguments);
      var st2 := st1.(arguments := st1.arguments.Put(fieldName, argumentValues),
                      definitions := st1.definitions.Put(fieldName, fieldDef),
                      flattened := AddName(st1.flattened, fieldName));
      match ContainerOf(c.schema, fieldDef.fieldType)
      case None => Traversal(st2, None)
      case Some(unwrappedType) =>
        if fuel == 0 then Traversal(st2, Some(StackOverflowError))
        else Traverse(c, fuel - 1, collectedFieldList, unwrappedType, fieldName, st2)
  }

  /** What `getField` builds. */
  datatype SelectedField = SelectedField(
    qualifiedName: string,
    name: string,
    fieldDefinition: FieldDefinition,
    arguments: LinkedMap<string, Object>,
    /** The parent type of the nested selection set, or None for NOOP. */
    selectionSetType: Option<NamedType>,
    fields: seq<Field>)

  /** `getField` over computed collections: null for an unknown name, an
      empty argument map when none was recorded; building the result reads
      the first field's name and the definition's type. */
  function SelectedFieldFor(c: Collaborators, st: Maps, fqFieldName: string): Result<Option<SelectedField>> {
    match st.fields.Get(fqFieldName)
    case None => Ok(None)
    case Some(fields) =>
      if fields == [] then Throws(IndexOutOfBoundsException)
      else match st.definitions.Get(fqFieldName)
        case None => Throws(NullPointerException)
        case Some(fieldDefinition) =>
          var arguments := st.arguments.Get(fqFieldName).GetOr(Empty());
          Ok(Some(SelectedField(fqFieldName, fields[0].name, fieldDefinition, arguments,
            ContainerOf(c.schema, fieldDefinition.fieldType), fields)))
  }

  /** `getField` for each name in turn, stopping at an exception. */
  function SelectedFieldsFor(c: Collaborators, st: Maps, names: seq<string>): Result<seq<Option<SelectedField>>> {
    if names == [] then Ok([])
    else
      match SelectedFieldFor(c, st, names[0])
      case Throws(e) => Throws(e)
      case Ok(first) =>
        match SelectedFieldsFor(c, st, names[1..])
        case Throws(e) => Throws(e)
        case Ok(rest) => Ok([first] + rest)
  }

  /** The flattened names the pattern matches, in order. */
  function MatchingNames(c: Collaborators, pattern: string, names: seq<string>): (r: seq<string>)
    ensures forall n :: n in r <==> n in names && c.globMatches(pattern, n)
  {
    if names == [] then []
    else (if c.globMatches(pattern, names[0]) then [names[0]] else []) + MatchingNames(c, pattern, names[1..])
  }

  class DataFetchingFieldSelectionSetImpl {
    const c: Collaborators
    const fuel: nat
    const parentFields: seq<Field>
    const parentFieldType: NamedType
    var computed: bool
    var selectionSetFields: LinkedMap<string, seq<Field>>
    var selectionSetFieldDefinitions: LinkedMap<string, FieldDefinition>
    var selectionSetFieldArgs: LinkedMap<string, LinkedMap<string, Object>>
    var flattenedFields: seq<string>

    function CurrentMaps(): Maps
      reads this
    {
      Maps(selectionSetFields, selectionSetFieldDefinitions, selectionSetFieldArgs, flattenedFields)
    }

    predicate Valid()
      reads this
    {
      CurrentMaps().Valid()
    }

    /** The traversal `computeValuesLazily` performs on first use. */
    function Computation(): Traversal {
      Traverse(c, fuel, parentFields, parentFieldType, "", EmptyMaps())
    }

    constructor (c: Collaborators, fuel: nat, parentFields: seq<Field>, parentFieldType: NamedType)
      ensures Valid() && !computed
      ensures this.c == c && this.fuel == fuel && this.parentFields == parentFields && this.parentFieldType == parentFieldType
    {
      this.c := c;
      this.fuel := fuel;
      this.parentFields := parentFields;
      this.parentFieldType := parentFieldType;
      computed := false;
      selectionSetFields := Empty();
      selectionSetFieldDefinitions := Empty();
      selectionSetFieldArgs := Empty();
      flattenedFields := [];
    }

    /** `computeValuesLazily`: the first call starts from empty collections
        and traverses; any later call changes nothing, even when the first
        one threw. */
    method ComputeValuesLazily() returns (r: Result<()>)
      requires Valid()
      modifies this
      ensures Valid() && computed
      ensures old(computed) ==> r == Ok(()) && CurrentMaps() == old(CurrentMaps())
      ensures !old(computed) ==> (CurrentMaps() == Computation().maps
        && (r.Throws? <==> Computation().failure.Some?)
        && (r.Throws? ==> r.error == Computation().failure.value))
    {
      if computed {
        return Ok(());
      }
      computed := true;
      selectionSetFields := Empty();
      selectionSetFieldDefinitions := Empty();
      selectionSetFieldArgs := Empty();
      flattenedFields := [];
      var failure := TraverseFields(parentFields, parentFieldType, "", fuel);
      if failure.Some? {
        return Throws(failure.value);
      }
      return Ok(());
    }

    method TraverseFields(fieldList: seq<Field>, parentType: NamedType, fieldPrefix: string, depth: nat) returns (failure: Option<Exception>)
      requires Valid()
      modifies this`selectionSetFields, this`selectionSetFieldDefinitions, this`selectionSetFieldArgs, this`flattenedFields
      ensures Valid()
      ensures Traversal(CurrentMaps(), failure) == Traverse(c, depth, fieldList, parentType, fieldPrefix, old(CurrentMaps()))
      decreases depth, 2
    {
      var collectedFields := c.collect(ObjectTypeOrNull(parentType), fieldList);
      ghost var goal := TraverseEntries(c, depth, collectedFields, parentType, fieldPrefix, CurrentMaps());
      var i := 0;
      while i < |collectedFields|
        invariant 0 <= i <= |collectedFields|
        invariant Valid()
        invariant TraverseEntries(c, depth, collectedFields[i..], parentType, fieldPrefix, CurrentMaps()) == goal
      {
        assert collectedFields[i..][1..] == collectedFields[i + 1..];
        failure := RecordCollectedEntry(collectedFields[i], parentType, fieldPrefix, depth);
        if failure.Some? {
          return;
        }
        i := i + 1;
      }
      return None;
    }

    /** The body of the loop in `traverseFields`. */
    method RecordCollectedEntry(entry: (string, seq<Field>), parentType: NamedType, fieldPrefix: string, depth: nat) returns (failure: Option<Exception>)
      requires Valid()
      modifies this`selectionSetFields, this`selectionSetFieldDefinitions, this`selectionSetFieldArgs, this`flattenedFields
      ensures Valid()
      ensures Traversal(CurrentMaps(), failure) == RecordEntry(c, depth, entry, parentType, fieldPrefix, old(CurrentMaps()))
      decreases depth, 1
    {
      var fieldName := MkFieldName(fieldPrefix, entry.0);
      var collectedFieldList := entry.1;
      selectionSetFields := selectionSetFields.Put(fieldName, collectedFieldList);
      if collectedFieldList == [] {
        return Some(IndexOutOfBoundsException);
      }
      failure := RecordFirstFieldOf(fieldName, collectedFieldList, parentType, depth);
    }

    /** The rest of the loop body, once the field list is stored. */
    method RecordFirstFieldOf(fieldName: string, collectedFieldList: seq<Field>, parentType: NamedType, depth: nat) returns (failure: Option<Exception>)
      requires Valid() && collectedFieldList != []
      modifies this`selectionSetFields, this`selectionSetFieldDefinitions, this`selectionSetFieldArgs, this`flattenedFields
      ensures Valid()
      ensures Traversal(CurrentMaps(), failure) == RecordFirstField(c, depth, fieldName, collectedFieldList, parentType, old(CurrentMaps()))
      decreases depth, 0
    {
      ghost var st1 := CurrentMaps();
      var field := collectedFieldList[0];
      var fieldDef := c.fieldDef(parentType, field.name);
      if fieldDef.Throws? {
        return Some(fieldDef.error);
      }
      var argumentValues := c.argumentValues(fieldDef.value.arguments, field.arguments);
      selectionSetFieldArgs := selectionSetFieldArgs.Put(fieldName, argumentValues);
      selectionSetFieldDefinitions := selectionSetFieldDefinitions.Put(fieldName, fieldDef.value);
      flattenedFields := AddName(flattenedFields, fieldName);
      assert CurrentMaps() == st1.(arguments := st1.arguments.Put(fieldName, argumentValues),
                                   definitions := st1.definitions.Put(fieldName, fieldDef.value),
                                   flattened := AddName(st1.flattened, fieldName));
      var unwrappedType := ContainerOf(c.schema, fieldDef.value.fieldType);
      if unwrappedType.None? {
        return None;
      }
      if depth == 0 {
        return Some(StackOverflowError);
      }
      failure := TraverseFields(collectedFieldList, unwrappedType.value, fieldName, depth - 1);
    }

    /** `get()`. */
    method Get() returns (r: Result<LinkedMap<string, seq<Field>>>)
      requires Valid()
      modifies this
      ensures Valid() && computed
      ensures old(computed) ==> r == Ok(selectionSetFields) && CurrentMaps() == old(CurrentMaps())
      ensures !old(computed) ==> (CurrentMaps() == Computation().maps
        && (Computation().failure.None? ==> r == Ok(Computation().maps.fields))
        && (Computation().failure.Some? ==> r == Throws(Computation().failure.value)))
    {
      var done := ComputeValuesLazily();
      if done.Throws? {
        return Throws(done.error);
      }
      return Ok(selectionSetFields);
    }

    /** `getField(fqFieldName)`. */
    method GetField(fqFieldName: string) returns (r: Result<Option<SelectedField>>)
      requires Valid()
      modifies this
      ensures Valid() && computed
      ensures old(computed) ==> CurrentMaps() == old(CurrentMaps())
      ensures !old(computed) ==> CurrentMaps() == Computation().maps
      ensures !old(computed) && Computation().failure.Some? ==> r == Throws(Computation().failure.value)
      ensures old(computed) || Computation().failure.None? ==> r == SelectedFieldFor(c, CurrentMaps(), fqFieldName)
    {
      var done := ComputeValuesLazily();
      if done.Throws? {
        return Throws(done.error);
      }
      r := SelectedFieldFor(c, CurrentMaps(), fqFieldName);
    }

    /** `contains(pattern)`: a null or empty pattern answers false without
        computing anything. */
    method Contains(fieldGlobPattern: Option<string>) returns (r: Result<bool>)
      requires Valid()
      modifies this
      ensures Valid()
      ensures fieldGlobPattern.None? || fieldGlobPattern.value == [] ==>
        r == Ok(false) && computed == old(computed) && CurrentMaps() == old(CurrentMaps())
      ensures fieldGlobPattern.Some? && fieldGlobPattern.value != [] ==> computed
      ensures fieldGlobPattern.Some? && fieldGlobPattern.value != [] && old(computed) ==> CurrentMaps() == old(CurrentMaps())
      ensures fieldGlobPattern.Some? && fieldGlobPattern.value != [] && !old(computed) ==> CurrentMaps() == Computation().maps
      ensures fieldGlobPattern.Some? && fieldGlobPattern.value != [] && !old(computed) && Computation().failure.Some? ==>
        r == Throws(Computation().failure.value)
      ensures fieldGlobPattern.Some? && fieldGlobPattern.value != [] && (old(computed) || Computation().failure.None?) ==>
        r.Ok? && (r.value <==> exists n :: n in flattenedFields && c.globMatches(fieldGlobPattern.value, n))
    {
      if fieldGlobPattern.None? || fieldGlobPattern.value == [] {
        return Ok(false);
      }
      var done := ComputeValuesLazily();
      if done.Throws? {
        return Throws(done.error);
      }
      var pattern := fieldGlobPattern.value;
      var i := 0;
      while i < |flattenedFields|
        invariant 0 <= i <= |flattenedFields|
        invariant forall k :: 0 <= k < i ==> !c.globMatches(pattern, flattenedFields[k])
      {
        if c.globMatches(pattern, flattenedFields[i]) {
          return Ok(true);
        }
        i := i + 1;
      }
      return Ok(false);
    }

    /** `getFields()`: every flattened name, in insertion order. */
    method GetFields() returns (r: Result<seq<Option<SelectedField>>>)
      requires Valid()
      modifies this
      ensures Valid() && computed
      ensures old(computed) ==> CurrentMaps() == old(CurrentMaps())
      ensures !old(computed) ==> CurrentMaps() == Computation().maps
      ensures !old(computed) && Computation().failure.Some? ==> r == Throws(Computation().failure.value)
      ensures old(computed) || Computation().failure.None? ==> r == SelectedFieldsFor(c, CurrentMaps(), flattenedFields)
    {
      var done := ComputeValuesLazily();
      if done.Throws? {
        return Throws(done.error);
      }
      r := SelectedFieldsFor(c, CurrentMaps(), flattenedFields);
    }

    /** `getFields(pattern)`: the matching flattened names, in order; a null
        or empty pattern gives the empty list without computing anything. */
    method GetFieldsMatching(fieldGlobPattern: Option<string>) returns (r: Result<seq<Option<SelectedField>>>)
      requires Valid()
      modifies this
      ensures Valid()
      ensures fieldGlobPattern.None? || fieldGlobPattern.value == [] ==>
        r == Ok([]) && computed == old(computed) && CurrentMaps() == old(CurrentMaps())
      ensures fieldGlobPattern.Some? && fieldGlobPattern.value != [] ==> computed
      ensures fieldGlobPattern.Some? && fieldGlobPattern.value != [] && old(computed) ==> CurrentMaps() == old(CurrentMaps())
      ensures fieldGlobPattern.Some? && fieldGlobPattern.value != [] && !old(computed) ==> CurrentMaps() == Computation().maps
      ensures fieldGlobPattern.Some? && fieldGlobPattern.value != [] && !old(computed) && Computation().failure.Some? ==>
        r == Throws(Computation().failure.value)
      ensures fieldGlobPattern.Some? && fieldGlobPattern.value != [] && (old(computed) || Computation().failure.None?) ==>
        r == SelectedFieldsFor(c, CurrentMaps(), MatchingNames(c, fieldGlobPattern.value, flattenedFields))
    {
      if fieldGlobPattern.None? || fieldGlobPattern.value == [] {
        return Ok([]);
      }
      var done := ComputeValuesLazily();
      if done.Throws? {
        return Throws(done.error);
      }
      r := SelectedFieldsFor(c, CurrentMaps(), MatchingNames(c, fieldGlobPattern.value, flattenedFields));
    }
  }

  /** What `newCollector` returns: the shared NOOP selection set, whose
      maps and lists are empty, `contains` false and `getField` null, or a
      lazy one over the fields. */
  datatype FieldSelectionSet = Noop | Lazy(impl: DataFetchingFieldSelectionSetImpl)

  /** `newCollector`: NOOP unless the unwrapped field type is an object or
      interface type. */
  method NewCollector(c: Collaborators, fuel: nat, fieldType: TypeRef, fields: seq<Field>) returns (r: FieldSelectionSet)
    ensures r.Lazy? <==> ContainerOf(c.schema, fieldType).Some?
    ensures r.Lazy? ==> (fresh(r.impl) && r.impl.Valid() && !r.impl.computed
      && r.impl.parentFields == fields && r.impl.parentFieldType == ContainerOf(c.schema, fieldType).value)
  {
    var unwrappedType := ContainerOf(c.schema, fieldType);
    if unwrappedType.None? {
      return Noop;
    }
    var impl := new DataFetchingFieldSelectionSetImpl(c, fuel, fields, unwrappedType.value);
    return Lazy(impl);
  }

  // ---------------------------------------------------------------------
  // Properties.

  /** A qualified name under a non-empty prefix is the prefix, "/", and the
      key; under the empty prefix it is the key. */
  lemma {:induction false} MkFieldNameJoins(fieldPrefix: string, fieldName: string)
    ensures fieldPrefix == [] ==> MkFieldName(fieldPrefix, fieldName) == fieldName
    ensures fieldPrefix != [] ==> MkFieldName(fieldPrefix, fieldName) == fieldPrefix + "/" + fieldName
    ensures |MkFieldName(fieldPrefix, fieldName)| >= |fieldPrefix| + |fieldName|
  {
  }

  /** Without an exception, every qualified name is stored in the fields,
      arguments and definitions maps and in the flattened set, and all four
      keep the same order. */
  lemma {:induction false} TraverseKeepsAligned(c: Collaborators, fuel: nat, fieldList: seq<Field>, parentType: NamedType, fieldPrefix: string, st: Maps)
    requires st.Valid() && st.Aligned()
    ensures var r := Traverse(c, fuel, fieldList, parentType, fieldPrefix, st);
      r.failure.None? ==> r.maps.Aligned()
    decreases fuel, 2, 0
  {
    TraverseEntriesKeepAligned(c, fuel, c.collect(ObjectTypeOrNull(parentType), fieldList), parentType, fieldPrefix, st);
  }

  lemma {:induction false} TraverseEntriesKeepAligned(c: Collaborators, fuel: nat, entries: seq<(string, seq<Field>)>, parentType: NamedType, fieldPrefix: string, st: Maps)
    requires st.Valid() && st.Aligned()
    ensures var r := TraverseEntries(c, fuel, entries, parentType, fieldPrefix, st);
      r.failure.None? ==> r.maps.Aligned()
    decreases fuel, 1, |entries|
  {
    if entries != [] {
      RecordEntryKeepsAligned(c, fuel, entries[0], parentType, fieldPrefix, st);
      var r := RecordEntry(c, fuel, entries[0], parentType, fieldPrefix, st);
      if r.failure.None? {
        TraverseEntriesKeepAligned(c, fuel, entries[1..], parentType, fieldPrefix, r.maps);
      }
    }
  }

  lemma {:induction false} RecordEntryKeepsAligned(c: Collaborators, fuel: nat, entry: (string, seq<Field>), parentType: NamedType, fieldPrefix: string, st: Maps)
    requires st.Valid() && st.Aligned()
    ensures var r := RecordEntry(c, fuel, entry, parentType, fieldPrefix, st);
      r.failure.None? ==> r.maps.Aligned()
    decreases fuel, 0, 1
  {
    if entry.1 != [] {
      RecordFirstFieldKeepsAligned(c, fuel, MkFieldName(fieldPrefix, entry.0), entry.1, parentType, st);
    }
  }

  lemma {:induction false} RecordFirstFieldKeepsAligned(c: Collaborators, fuel: nat, fieldName: string, collectedFieldList: seq<Field>, parentType: NamedType, st: Maps)
    requires st.Valid() && st.Aligned() && collectedFieldList != []
    ensures var r := RecordFirstField(c, fuel, fieldName, collectedFieldList, parentType, st.(fields := st.fields.Put(fieldName, collectedFieldList)));
      r.failure.None? ==> r.maps.Aligned()
    decreases fuel, 0, 0
  {
    var field := collectedFieldList[0];
    if c.fieldDef(parentType, field.name).Ok? {
      var fieldDef := c.fieldDef(parentType, field.name).value;
      var st1 := st.(fields := st.fields.Put(fieldName, collectedFieldList));
      var st2 := st1.(arguments := st1.arguments.Put(fieldName, c.argumentValues(fieldDef.arguments, field.arguments)),
                      definitions := st1.definitions.Put(fieldName, fieldDef),
                      flattened := AddName(st1.flattened, fieldName));
      assert fieldName in st.flattened <==> fieldName in st.fields.entries;
      assert st2.Aligned();
      var unwrappedType := ContainerOf(c.schema, fieldDef.fieldType);
      if unwrappedType.Some? && fuel > 0 {
        TraverseKeepsAligned(c, fuel - 1, collectedFieldList, unwrappedType.value, fieldName, st2);
      }
    }
  }

  /** A name added under a non-empty prefix starts with the prefix and "/":
      a nested field's name is its parent's qualified name, "/", and the
      rest. Nothing recorded before is lost. */
  lemma {:induction false} TraverseNamesUnderPrefix(c: Collaborators, fuel: nat, fieldList: seq<Field>, parentType: NamedType, fieldPrefix: string, st: Maps)
    requires st.Valid()
    ensures var r := Traverse(c, fuel, fieldList, parentType, fieldPrefix, st);
      (forall n :: n in st.fields.entries ==> n in r.maps.fields.entries)
      && forall n :: n in r.maps.fields.entries && n !in st.fields.entries && fieldPrefix != [] ==> fieldPrefix + "/" <= n
    decreases fuel, 2, 0
  {
    TraverseEntriesNamesUnderPrefix(c, fuel, c.collect(ObjectTypeOrNull(parentType), fieldList), parentType, fieldPrefix, st);
  }

  lemma {:induction false} TraverseEntriesNamesUnderPrefix(c: Collaborators, fuel: nat, entries: seq<(string, seq<Field>)>, parentType: NamedType, fieldPrefix: string, st: Maps)
    requires st.Valid()
    ensures var r := TraverseEntries(c, fuel, entries, parentType, fieldPrefix, st);
      (forall n :: n in st.fields.entries ==> n in r.maps.fields.entries)
      && forall n :: n in r.maps.fields.entries && n !in st.fields.entries && fieldPrefix != [] ==> fieldPrefix + "/" <= n
    decreases fuel, 1, |entries|
  {
    if entries != [] {
      RecordEntryNamesUnderPrefix(c, fuel, entries[0], parentType, fieldPrefix, st);
      var r := RecordEntry(c, fuel, entries[0], parentType, fieldPrefix, st);
      if r.failure.None? {
        TraverseEntriesNamesUnderPrefix(c, fuel, entries[1..], parentType, fieldPrefix, r.maps);
      }
    }
  }

  lemma {:induction false} MkFieldNameUnderPrefix(fieldPrefix: string, fieldName: string)
    ensures fieldPrefix != [] ==> fieldPrefix + "/" <= MkFieldName(fieldPrefix, fieldName)
  {
    if fieldPrefix != [] {
      assert MkFieldName(fieldPrefix, fieldName) == (fieldPrefix + "/") + fieldName;
    }
  }

  lemma {:induction false} RecordEntryNamesUnderPrefix(c: Collaborators, fuel: nat, entry: (string, seq<Field>), parentType: NamedType, fieldPrefix: string, st: Maps)
    requires st.Valid()
    ensures var r := RecordEntry(c, fuel, entry, parentType, fieldPrefix, st);
      (forall n :: n in st.fields.entries ==> n in r.maps.fields.entries)
      && forall n :: n in r.maps.fields.entries && n !in st.fields.entries && fieldPrefix != [] ==> fieldPrefix + "/" <= n
    decreases fuel, 0, 1
  {
    var fieldName := MkFieldName(fieldPrefix, entry.0);
    MkFieldNameUnderPrefix(fieldPrefix, entry.0);
    var st1 := st.(fields := st.fields.Put(fieldName, entry.1));
    if entry.1 != [] {
      RecordFirstFieldNamesUnderPrefix(c, fuel, fieldName, entry.1, parentType, st1);
      var r := RecordFirstField(c, fuel, fieldName, entry.1, parentType, st1);
      forall n | n in r.maps.fields.entries && n !in st.fields.entries && fieldPrefix != []
        ensures fieldPrefix + "/" <= n
      {
        if n != fieldName {
          assert n !in st1.fields.entries;
          assert fieldName + "/" <= n;
          assert fieldPrefix + "/" <= fieldName;
        }
      }
    }
  }

  lemma {:induction false} RecordFirstFieldNamesUnderPrefix(c: Collaborators, fuel: nat, fieldName: string, collectedFieldList: seq<Field>, parentType: NamedType, st1: Maps)
    requires st1.Valid() && collectedFieldList != []
    ensures var r := RecordFirstField(c, fuel, fieldName, collectedFieldList, parentType, st1);
      (forall n :: n in st1.fields.entries ==> n in r.maps.fields.entries)
      && forall n :: n in r.maps.fields.entries && n !in st1.fields.entries && fieldName != [] ==> fieldName + "/" <= n
    decreases fuel, 0, 0
  {
    var field := collectedFieldList[0];
    if c.fieldDef(parentType, field.name).Ok? {
      var fieldDef := c.fieldDef(parentType, field.name).value;
      var st2 := st1.(arguments := st1.arguments.Put(fieldName, c.argumentValues(fieldDef.arguments, field.arguments)),
                      definitions := st1.definitions.Put(fieldName, fieldDef),
                      flattened := AddName(st1.flattened, fieldName));
      var unwrappedType := ContainerOf(c.schema, fieldDef.fieldType);
      if unwrappedType.Some? && fuel > 0 {
        TraverseNamesUnderPrefix(c, fuel - 1, collectedFieldList, unwrappedType.value, fieldName, st2);
      }
    }
  }

  /** Every recorded name can be looked up: `getField` of an aligned,
      exception-free state gives the stored fields, definition and
      arguments under that name, and null for any name not recorded. */
  lemma {:induction false} SelectedFieldOfRecordedName(c: Collaborators, st: Maps, fqFieldName: string)
    requires st.Valid() && st.Aligned()
    requires forall n :: n in st.fields.entries ==> st.fields.entries[n] != []
    ensures fqFieldName !in st.flattened ==> SelectedFieldFor(c, st, fqFieldName) == Ok(None)
    ensures fqFieldName in st.flattened ==>
      var r := SelectedFieldFor(c, st, fqFieldName);
      r.Ok? && r.value.Some? && r.value.value.qualifiedName == fqFieldName
      && r.value.value.fields == st.fields.entries[fqFieldName]
      && r.value.value.fieldDefinition == st.definitions.entries[fqFieldName]
      && r.value.value.arguments == st.arguments.entries[fqFieldName]
  {
  }

  /** With a null or empty result from the collector nothing is recorded. */
  lemma {:induction false} NothingCollectedNothingRecorded(c: Collaborators, fuel: nat, fieldList: seq<Field>, parentType: NamedType, st: Maps)
    requires st.Valid()
    requires c.collect(ObjectTypeOrNull(parentType), fieldList) == []
    ensures Traverse(c, fuel, fieldList, parentType, "", st) == Traversal(st, None)
  {
  }
}
