/** `GraphQLObjectType`: an object type's fields keyed by name in
    declaration order, rejecting a name declared twice, and its interfaces,
    given as types or as references that schema building resolves later. */
module GraphQLObjectTypeModel {
  import opened Common
  import opened LinkedMaps
  import opened InputValues
  import opened GraphQLFieldDefinitionModel

  /** `TypeOrReference<GraphQLInterfaceType>`: an interface type, or a
      reference to one by name. */
  datatype InterfaceOrReference = InterfaceTypeOf(interfaceName: string) | TypeReference(referenceName: string)

  type FieldMap = LinkedMap<string, GraphQLFieldDefinition>

  /** The names of the definitions, in order. */
  function Names(definitions: seq<GraphQLFieldDefinition>): (r: seq<string>)
    ensures |r| == |definitions|
    ensures forall i :: 0 <= i < |definitions| ==> r[i] == definitions[i].name
  {
    seq(|definitions|, i requires 0 <= i < |definitions| => definitions[i].name)
  }

  /** `buildDefinitionMap` as a left fold: each definition is put under its
      name, and a name already present throws. */
  function DefinitionMap(definitions: seq<GraphQLFieldDefinition>): (r: Result<FieldMap>)
    ensures r.Ok? ==> r.value.Valid()
  {
    if definitions == [] then Ok(Empty())
    else
      var previous :- DefinitionMap(definitions[..|definitions| - 1]);
      var last := definitions[|definitions| - 1];
      if last.name in previous.entries then Throws(AssertException("field " + last.name + " redefined"))
      else Ok(previous.Put(last.name, last))
  }

  /** Appending keeps a sequence distinct exactly when the new element is
      not already in it. */
  lemma DistinctAppend(s: seq<string>, x: string)
    ensures Distinct(s + [x]) <==> Distinct(s) && x !in s
  {
    if Distinct(s + [x]) {
      assert forall i :: 0 <= i < |s| ==> (s + [x])[i] == s[i];
      forall j | 0 <= j < |s| ensures s[j] != x {
        assert (s + [x])[j] != (s + [x])[|s|];
      }
    }
  }

  /** A built map holds the names in declaration order. */
  lemma {:induction false} DefinitionMapKeys(definitions: seq<GraphQLFieldDefinition>)
    requires DefinitionMap(definitions).Ok?
    ensures DefinitionMap(definitions).value.keys == Names(definitions)
  {
    if definitions != [] {
      var front := definitions[..|definitions| - 1];
      var last := definitions[|definitions| - 1];
      var previous := DefinitionMap(front).value;
      assert last.name !in previous.entries && DefinitionMap(definitions).value == previous.Put(last.name, last);
      DefinitionMapKeys(front);
      assert Names(definitions) == Names(front) + [last.name];
    }
  }

  /** The map is built exactly when no name repeats; it then holds the
      names in declaration order. */
  lemma {:induction false} DefinitionMapIndexesByName(definitions: seq<GraphQLFieldDefinition>)
    ensures DefinitionMap(definitions).Ok? <==> Distinct(Names(definitions))
    ensures DefinitionMap(definitions).Ok? ==> DefinitionMap(definitions).value.keys == Names(definitions)
  {
    if definitions != [] {
      var n := |definitions| - 1;
      var front := definitions[..n];
      var last := definitions[n];
      DefinitionMapIndexesByName(front);
      assert Names(definitions) == Names(front) + [last.name];
      DistinctAppend(Names(front), last.name);
    }
    if DefinitionMap(definitions).Ok? {
      DefinitionMapKeys(definitions);
    }
  }

  /** Each definition of a built map sits under its own name. */
  lemma {:induction false} DefinitionMapKeepsDefinitions(definitions: seq<GraphQLFieldDefinition>)
    requires DefinitionMap(definitions).Ok?
    ensures forall i :: 0 <= i < |definitions| ==> DefinitionMap(definitions).value.Get(definitions[i].name) == Some(definitions[i])
  {
    if definitions != [] {
      var n := |definitions| - 1;
      var front := definitions[..n];
      var last := definitions[n];
      DefinitionMapKeepsDefinitions(front);
      DefinitionMapKeys(front);
      assert definitions == front + [last];
      PutKeepsOthers(DefinitionMap(front).value, front, last);
    }
  }

  /** Putting a new name keeps every earlier definition under its name. */
  lemma PutKeepsOthers(m: FieldMap, front: seq<GraphQLFieldDefinition>, last: GraphQLFieldDefinition)
    requires m.Valid() && m.keys == Names(front) && last.name !in Names(front)
    requires forall i :: 0 <= i < |front| ==> m.Get(front[i].name) == Some(front[i])
    ensures forall i :: 0 <= i < |front| + 1 ==> m.Put(last.name, last).Get((front + [last])[i].name) == Some((front + [last])[i])
  {
    var m' := m.Put(last.name, last);
    forall i | 0 <= i < |front| + 1
      ensures m'.Get((front + [last])[i].name) == Some((front + [last])[i])
    {
      if i < |front| {
        assert Names(front)[i] == front[i].name;
        assert m'.Get(front[i].name) == m.Get(front[i].name);
      } else {
        assert m'.Get(last.name) == Some(last);
      }
    }
  }

  /** When the map cannot be built, the exception names the first
      definition whose name was already declared. */
  lemma {:induction false} DefinitionMapReportsFirstRedefinition(definitions: seq<GraphQLFieldDefinition>)
    requires DefinitionMap(definitions).Throws?
    ensures exists j :: (0 <= j < |definitions| && Distinct(Names(definitions[..j]))
      && definitions[j].name in Names(definitions[..j])
      && DefinitionMap(definitions).error == AssertException("field " + definitions[j].name + " redefined"))
  {
    var n := |definitions| - 1;
    var front := definitions[..n];
    assert definitions[..n] == front;
    if DefinitionMap(front).Throws? {
      DefinitionMapReportsFirstRedefinition(front);
      var j :| 0 <= j < |front| && Distinct(Names(front[..j])) && front[j].name in Names(front[..j])
        && DefinitionMap(front).error == AssertException("field " + front[j].name + " redefined");
      assert front[..j] == definitions[..j];
    } else {
      DefinitionMapIndexesByName(front);
      var last := definitions[n];
      assert last.name in Names(front) by {
        assert last.name in DefinitionMap(front).value.entries;
      }
    }
  }

  /** Once a prefix has thrown, every longer prefix throws the same. */
  lemma {:induction false} DefinitionMapThrowsOn(definitions: seq<GraphQLFieldDefinition>, k: nat)
    requires k <= |definitions| && DefinitionMap(definitions[..k]).Throws?
    ensures DefinitionMap(definitions) == DefinitionMap(definitions[..k])
    decreases |definitions|
  {
    if k < |definitions| {
      var front := definitions[..|definitions| - 1];
      assert front[..k] == definitions[..k];
      DefinitionMapThrowsOn(front, k);
    } else {
      assert definitions[..k] == definitions;
    }
  }

  lemma {:induction false} DefinitionMapStep(definitions: seq<GraphQLFieldDefinition>, i: nat, m: FieldMap)
    requires i < |definitions| && DefinitionMap(definitions[..i]) == Ok(m)
    ensures var d := definitions[i];
      DefinitionMap(definitions[..i + 1])
        == if d.name in m.entries then Throws(AssertException("field " + d.name + " redefined")) else Ok(m.Put(d.name, d))
  {
    assert definitions[..i + 1][..i] == definitions[..i];
  }

  /** The interface types among the entries, leaving out the references. */
  function TypesOnly(entries: seq<InterfaceOrReference>): (r: seq<string>)
    ensures |r| <= |entries|
    ensures forall x :: x in r <==> InterfaceTypeOf(x) in entries
  {
    if entries == [] then []
    else
      var rest := TypesOnly(entries[1..]);
      assert forall e :: e in entries <==> e == entries[0] || e in entries[1..];
      if entries[0].InterfaceTypeOf? then [entries[0].interfaceName] + rest else rest
  }

  /** How many of the entries are interface types. */
  function TypeCount(entries: seq<InterfaceOrReference>): nat
  {
    if entries == [] then 0 else (if entries[0].InterfaceTypeOf? then 1 else 0) + TypeCount(entries[1..])
  }

  /** `r` is the filter of the entries to their interface types, in order
      and with repeats: it has one name per interface entry, and the entry
      with `k` interface entries before it is named at position `k`. */
  predicate InOrderFilter(entries: seq<InterfaceOrReference>, r: seq<string>)
  {
    |r| == TypeCount(entries)
    && forall i :: 0 <= i < |entries| && entries[i].InterfaceTypeOf? ==>
         TypeCount(entries[..i]) < |r| && r[TypeCount(entries[..i])] == entries[i].interfaceName
  }

  /** The stream filter keeps the interface types in their order, repeats
      included. */
  lemma {:induction false} TypesOnlyInOrder(entries: seq<InterfaceOrReference>)
    ensures InOrderFilter(entries, TypesOnly(entries))
    decreases |entries|
  {
    if entries != [] {
      var rest := entries[1..];
      TypesOnlyInOrder(rest);
      var r := TypesOnly(entries);
      var head := if entries[0].InterfaceTypeOf? then 1 else 0;
      forall i | 0 <= i < |entries| && entries[i].InterfaceTypeOf?
        ensures TypeCount(entries[..i]) < |r| && r[TypeCount(entries[..i])] == entries[i].interfaceName
      {
        if i > 0 {
          assert entries[..i][0] == entries[0] && entries[..i][1..] == rest[..i - 1];
          assert TypeCount(entries[..i]) == head + TypeCount(rest[..i - 1]);
          assert rest[i - 1] == entries[i];
        }
      }
    }
  }

  class GraphQLObjectType {
    const name: string
    const description: Option<string>
    var fieldDefinitionsByName: FieldMap
    const tmpInterfaces: seq<InterfaceOrReference>
    var interfaces: Option<seq<string>>

    /** A valid name, and the fields keyed by their own names. */
    predicate Valid()
      reads this
    {
      && ValidName(name) && fieldDefinitionsByName.Valid()
      && forall k :: k in fieldDefinitionsByName.entries ==> fieldDefinitionsByName.entries[k].name == k
    }

    constructor Init(name: string, description: Option<string>, tmpInterfaces: seq<InterfaceOrReference>)
      ensures this.name == name && this.description == description && this.tmpInterfaces == tmpInterfaces
      ensures fieldDefinitionsByName == Empty() && interfaces.None?
    {
      this.name := name;
      this.description := description;
      this.tmpInterfaces := tmpInterfaces;
      this.fieldDefinitionsByName := Empty();
      this.interfaces := None;
    }

    /** `buildDefinitionMap`: each definition in turn, throwing on a name
        already in the map. */
    method BuildDefinitionMap(definitions: seq<GraphQLFieldDefinition>) returns (thrown: Option<Exception>)
      requires fieldDefinitionsByName == Empty()
      modifies this
      ensures thrown.None? <==> DefinitionMap(definitions).Ok?
      ensures thrown.None? ==> fieldDefinitionsByName == DefinitionMap(definitions).value
      ensures thrown.Some? ==> thrown.value == DefinitionMap(definitions).error
      ensures interfaces == old(interfaces)
    {
      var i := 0;
      assert definitions[..0] == [];
      while i < |definitions|
        invariant 0 <= i <= |definitions|
        invariant DefinitionMap(definitions[..i]) == Ok(fieldDefinitionsByName)
        invariant interfaces == old(interfaces)
      {
        var definition := definitions[i];
        DefinitionMapStep(definitions, i, fieldDefinitionsByName);
        if definition.name in fieldDefinitionsByName.entries {
          DefinitionMapThrowsOn(definitions, i + 1);
          return Some(AssertException("field " + definition.name + " redefined"));
        }
        fieldDefinitionsByName := fieldDefinitionsByName.Put(definition.name, definition);
        i := i + 1;
      }
      assert definitions[..i] == definitions;
      return None;
    }

    /** `getFieldDefinition`: the definition with that name, or null. */
    function GetFieldDefinition(fieldName: string): (r: Option<GraphQLFieldDefinition>)
      reads this
      requires Valid()
      ensures r.Some? <==> fieldName in fieldDefinitionsByName.keys
      ensures r.Some? ==> r.value.name == fieldName
    {
      fieldDefinitionsByName.Get(fieldName)
    }

    /** `getFieldDefinitions`: a new list of the definitions, in the order
        their names were first put. */
    function GetFieldDefinitions(): (r: seq<GraphQLFieldDefinition>)
      reads this
      requires Valid()
      ensures |r| == |fieldDefinitionsByName.keys|
      ensures forall i :: 0 <= i < |r| ==> r[i].name == fieldDefinitionsByName.keys[i]
    {
      fieldDefinitionsByName.Values()
    }

    /** `getInterfaces`: before resolution the interface types given
        directly, in order; afterwards the resolved list. */
    function GetInterfaces(): (r: seq<string>)
      reads this
      ensures interfaces.Some? ==> r == interfaces.value
      ensures interfaces.None? ==> InOrderFilter(tmpInterfaces, r)
    {
      if interfaces.None? then TypesOnlyInOrder(tmpInterfaces); TypesOnly(tmpInterfaces) else interfaces.value
    }

    /** `replaceTypeReferences`: every entry, type or reference, is resolved
        in order. */
    method ReplaceTypeReferences(resolve: InterfaceOrReference -> string)
      modifies this
      ensures fieldDefinitionsByName == old(fieldDefinitionsByName)
      ensures interfaces.Some? && |interfaces.value| == |tmpInterfaces|
      ensures forall i :: 0 <= i < |tmpInterfaces| ==> interfaces.value[i] == resolve(tmpInterfaces[i])
    {
      interfaces := Some(seq(|tmpInterfaces|, i requires 0 <= i < |tmpInterfaces| => resolve(tmpInterfaces[i])));
    }
  }

  /** The constructor: the name is checked, then the field definitions are
      keyed by name. */
  method Create(name: Option<string>, description: Option<string>, definitions: seq<GraphQLFieldDefinition>, tmpInterfaces: seq<InterfaceOrReference>)
    returns (r: Result<GraphQLObjectType>)
    ensures r.Ok? <==> AssertValidName(name).Ok? && DefinitionMap(definitions).Ok?
    ensures AssertValidName(name).Throws? ==> r == Throws(AssertValidName(name).error)
    ensures AssertValidName(name).Ok? && DefinitionMap(definitions).Throws? ==> r == Throws(DefinitionMap(definitions).error)
    ensures r.Ok? ==> r.value.Valid() && r.value.name == name.value && r.value.tmpInterfaces == tmpInterfaces
    ensures r.Ok? ==> r.value.fieldDefinitionsByName == DefinitionMap(definitions).value && r.value.interfaces.None?
  {
    var validName := AssertValidName(name);
    if validName.Throws? {
      return Throws(validName.error);
    }
    var objectType := new GraphQLObjectType.Init(validName.value, description, tmpInterfaces);
    var thrown := objectType.BuildDefinitionMap(definitions);
    if thrown.Some? {
      return Throws(thrown.value);
    }
    DefinitionMapIndexesByName(definitions);
    NamesKeyTheirDefinitions(definitions);
    return Ok(objectType);
  }

  lemma {:induction false} NamesKeyTheirDefinitions(definitions: seq<GraphQLFieldDefinition>)
    requires DefinitionMap(definitions).Ok?
    ensures var m := DefinitionMap(definitions).value;
      forall k :: k in m.entries ==> m.entries[k].name == k
  {
    DefinitionMapIndexesByName(definitions);
    DefinitionMapKeepsDefinitions(definitions);
    var m := DefinitionMap(definitions).value;
    forall k | k in m.entries ensures m.entries[k].name == k {
      assert k in m.keys;
      var i :| 0 <= i < |m.keys| && m.keys[i] == k;
      assert definitions[i].name == k;
      assert m.Get(k) == Some(definitions[i]);
    }
  }

  /** A type built from definitions with distinct names lists them back in
      declaration order. */
  lemma {:induction false} FieldDefinitionsInDeclarationOrder(definitions: seq<GraphQLFieldDefinition>)
    requires Distinct(Names(definitions))
    ensures DefinitionMap(definitions).Ok?
    ensures DefinitionMap(definitions).value.Values() == definitions
  {
    DefinitionMapIndexesByName(definitions);
    DefinitionMapKeepsDefinitions(definitions);
    var m := DefinitionMap(definitions).value;
    forall i | 0 <= i < |definitions| ensures m.Values()[i] == definitions[i] {
      assert m.Get(Names(definitions)[i]) == Some(definitions[i]);
    }
  }

  /** `GraphQLObjectType.Builder`: fields and interfaces are appended in
      call order. */
  class Builder {
    var name: Option<string>
    var description: Option<string>
    var fieldDefinitions: seq<GraphQLFieldDefinition>
    var interfaces: seq<InterfaceOrReference>

    constructor ()
      ensures name.None? && description.None? && fieldDefinitions == [] && interfaces == []
    {
      name := None;
      description := None;
      fieldDefinitions := [];
      interfaces := [];
    }

    method Name(n: string)
      modifies this
      ensures name == Some(n) && description == old(description)
      ensures fieldDefinitions == old(fieldDefinitions) && interfaces == old(interfaces)
    {
      name := Some(n);
    }

    method Field(definition: GraphQLFieldDefinition)
      modifies this
      ensures fieldDefinitions == old(fieldDefinitions) + [definition]
      ensures name == old(name) && description == old(description) && interfaces == old(interfaces)
    {
      fieldDefinitions := fieldDefinitions + [definition];
    }

    method Fields(definitions: seq<GraphQLFieldDefinition>)
      modifies this
      ensures fieldDefinitions == old(fieldDefinitions) + definitions
      ensures name == old(name) && description == old(description) && interfaces == old(interfaces)
    {
      fieldDefinitions := fieldDefinitions + definitions;
    }

    method WithInterface(interfaceName: string)
      modifies this
      ensures interfaces == old(interfaces) + [InterfaceTypeOf(interfaceName)]
      ensures name == old(name) && description == old(description) && fieldDefinitions == old(fieldDefinitions)
    {
      interfaces := interfaces + [InterfaceTypeOf(interfaceName)];
    }

    method WithInterfaceReference(referenceName: string)
      modifies this
      ensures interfaces == old(interfaces) + [TypeReference(referenceName)]
      ensures name == old(name) && description == old(description) && fieldDefinitions == old(fieldDefinitions)
    {
      interfaces := interfaces + [TypeReference(referenceName)];
    }

    /** `withInterfaces(GraphQLInterfaceType...)`: one `withInterface` per
        argument, in order. */
    method WithInterfaces(interfaceNames: seq<string>)
      modifies this
      ensures |interfaces| == |old(interfaces)| + |interfaceNames|
      ensures interfaces[..|old(interfaces)|] == old(interfaces)
      ensures forall i :: 0 <= i < |interfaceNames| ==> interfaces[|old(interfaces)| + i] == InterfaceTypeOf(interfaceNames[i])
      ensures name == old(name) && description == old(description) && fieldDefinitions == old(fieldDefinitions)
    {
      var i := 0;
      while i < |interfaceNames|
        invariant 0 <= i <= |interfaceNames|
        invariant |interfaces| == |old(interfaces)| + i
        invariant interfaces[..|old(interfaces)|] == old(interfaces)
        invariant forall k :: 0 <= k < i ==> interfaces[|old(interfaces)| + k] == InterfaceTypeOf(interfaceNames[k])
        invariant name == old(name) && description == old(description) && fieldDefinitions == old(fieldDefinitions)
      {
        WithInterface(interfaceNames[i]);
        i := i + 1;
      }
    }

    method Build() returns (r: Result<GraphQLObjectType>)
      ensures r.Ok? <==> AssertValidName(name).Ok? && DefinitionMap(fieldDefinitions).Ok?
      ensures AssertValidName(name).Ok? && DefinitionMap(fieldDefinitions).Throws? ==> r == Throws(DefinitionMap(fieldDefinitions).error)
      ensures r.Ok? ==> r.value.Valid() && r.value.tmpInterfaces == interfaces
      ensures r.Ok? ==> r.value.fieldDefinitionsByName == DefinitionMap(fieldDefinitions).value
    {
      r := Create(name, description, fieldDefinitions, interfaces);
    }
  }
}
