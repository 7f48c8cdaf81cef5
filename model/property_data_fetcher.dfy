/** The default data fetcher: it reads a property of the source object by
    name, from a Map, through a JavaBean getter, or from a public field. */
module PropertyDataFetcher {
  import opened Common
  import opened RuntimeValues
  import opened SchemaTypes

  /** `Character.toUpperCase` on the ASCII letters; other characters are
      left as they are. */
  function ToUpper(c: char): (u: char)
    ensures 'a' <= c <= 'z' ==> u as int == c as int - 32
    ensures !('a' <= c <= 'z') ==> u == c
  {
    if 'a' <= c <= 'z' then (c as int - 32) as char else c
  }

  /** The getter name for a property: the prefix, the property's first
      character upper-cased, then the rest of the property name. An empty
      property name makes `substring(0, 1)` throw. */
  function GetterName(prefix: string, propertyName: string): (r: Result<string>)
    ensures r.Ok? <==> |propertyName| > 0
    ensures r.Throws? ==> r.error == IndexOutOfBoundsException
    ensures r.Ok? ==> |r.value| == |prefix| + |propertyName|
    ensures r.Ok? ==> r.value[..|prefix|] == prefix && r.value[|prefix| + 1..] == propertyName[1..]
    ensures r.Ok? ==> r.value[|prefix|] == ToUpper(propertyName[0])
  {
    if |propertyName| == 0 then Throws(IndexOutOfBoundsException)
    else Ok(prefix + [ToUpper(propertyName[0])] + propertyName[1..])
  }

  /** A property and the same property with its first letter upper-cased
      are read through the same getter. */
  lemma {:induction false} GetterNameIgnoresFirstCase(prefix: string, propertyName: string)
    requires |propertyName| > 0
    ensures GetterName(prefix, [ToUpper(propertyName[0])] + propertyName[1..]) == GetterName(prefix, propertyName)
  {
    var capitalised := [ToUpper(propertyName[0])] + propertyName[1..];
    assert capitalised[1..] == propertyName[1..];
  }

  /** `isBooleanProperty`: the output type is Boolean, or Boolean under
      exactly one non-null wrapper. */
  predicate IsBooleanProperty(outputType: TypeRef)
    ensures IsBooleanProperty(outputType) <==>
      outputType == Named("Boolean") || outputType == NonNullOf(Named("Boolean"))
  {
    match outputType
    case Named(name) => name == "Boolean"
    case NonNullOf(wrapped) => wrapped.Named? && wrapped.name == "Boolean"
    case ListOf(_) => false
  }

  /** The getters a source object offers; a value other than a bean
      offers none in this model. */
  function GettersOf(source: Object): seq<Entry>
  {
    if source.JBean? then source.getters else []
  }

  function PublicFieldsOf(source: Object): seq<Entry>
  {
    if source.JBean? then source.publicFields else []
  }

  /** `getPropertyViaGetterUsingPrefix`: the result of the getter with that
      prefix, or None where the reflective lookup would throw
      NoSuchMethodException. */
  function ViaGetterUsingPrefix(propertyName: string, source: Object, prefix: string): Result<Option<Object>>
  {
    var getterName :- GetterName(prefix, propertyName);
    Ok(Lookup(GettersOf(source), getterName))
  }

  /** `getPropertyViaFieldAccess`: the public field's value, or null when
      there is no such field. */
  function ViaFieldAccess(propertyName: string, source: Object): Object
  {
    Lookup(PublicFieldsOf(source), propertyName).GetOr(Null)
  }

  /** `getPropertyViaGetter`: for a Boolean property the "is" getter, then
      the "get" getter; for any other type only the "get" getter; then the
      public field. */
  function ViaGetter(propertyName: string, source: Object, outputType: TypeRef): Result<Object>
  {
    if IsBooleanProperty(outputType) then
      var viaIs :- ViaGetterUsingPrefix(propertyName, source, "is");
      if viaIs.Some? then Ok(viaIs.value)
      else
        var viaGet :- ViaGetterUsingPrefix(propertyName, source, "get");
        if viaGet.Some? then Ok(viaGet.value) else Ok(ViaFieldAccess(propertyName, source))
    else
      var viaGet :- ViaGetterUsingPrefix(propertyName, source, "get");
      if viaGet.Some? then Ok(viaGet.value) else Ok(ViaFieldAccess(propertyName, source))
  }

  /** `get`: null for a null source, the map's entry for a Map source, and
      otherwise the property read through a getter or field. */
  function Get(propertyName: string, source: Object, outputType: TypeRef): (r: Result<Object>)
    ensures source == Null ==> r == Ok(Null)
    ensures source.JMap? ==> r == Ok(Lookup(source.entries, propertyName).GetOr(Null))
  {
    match source
    case Null => Ok(Null)
    case JMap(entries) => Ok(Lookup(entries, propertyName).GetOr(Null))
    case _ => ViaGetter(propertyName, source, outputType)
  }

  /** The prefixes tried, in order. */
  function Prefixes(outputType: TypeRef): (r: seq<string>)
    ensures IsBooleanProperty(outputType) ==> r == ["is", "get"]
    ensures !IsBooleanProperty(outputType) ==> r == ["get"]
  {
    if IsBooleanProperty(outputType) then ["is", "get"] else ["get"]
  }

  /** Reference reading: the first prefix whose getter exists wins. */
  function FirstGetter(getters: seq<Entry>, propertyName: string, prefixes: seq<string>): Option<Object>
    requires |propertyName| > 0
  {
    if prefixes == [] then None
    else
      var found := Lookup(getters, GetterName(prefixes[0], propertyName).value);
      if found.Some? then found else FirstGetter(getters, propertyName, prefixes[1..])
  }

  /** A value found by the reference reading is some getter's value. */
  lemma {:induction false} FirstGetterIsGetter(getters: seq<Entry>, propertyName: string, prefixes: seq<string>)
    requires |propertyName| > 0
    requires FirstGetter(getters, propertyName, prefixes).Some?
    ensures exists i :: 0 <= i < |getters| && getters[i].value == FirstGetter(getters, propertyName, prefixes).value
  {
    var found := Lookup(getters, GetterName(prefixes[0], propertyName).value);
    if found.None? {
      FirstGetterIsGetter(getters, propertyName, prefixes[1..]);
    }
  }

  /** For a source that is neither null nor a map, `get` returns the value
      of the first getter found in prefix order, else the public field, else
      null; an empty property name throws before any lookup. */
  lemma {:induction false} GetLookupOrder(propertyName: string, source: Object, outputType: TypeRef)
    requires source != Null && !source.JMap?
    ensures |propertyName| == 0 ==> Get(propertyName, source, outputType) == Throws(IndexOutOfBoundsException)
    ensures |propertyName| > 0 ==>
      var viaGetter := FirstGetter(GettersOf(source), propertyName, Prefixes(outputType));
      && (viaGetter.Some? ==> Get(propertyName, source, outputType) == Ok(viaGetter.value))
      && (viaGetter.None? ==> Get(propertyName, source, outputType) == Ok(ViaFieldAccess(propertyName, source)))
  {
    if |propertyName| > 0 {
      var getters := GettersOf(source);
      var viaGet := Lookup(getters, GetterName("get", propertyName).value);
      assert FirstGetter(getters, propertyName, ["get"]) == viaGet by {
        assert ["get"][1..] == [];
      }
      if IsBooleanProperty(outputType) {
        assert ["is", "get"][1..] == ["get"];
      }
    }
  }

  /** A Boolean property reads `isX` even when `getX` also exists, while
      any other property never reads `isX`. */
  lemma {:induction false} GetPrefersIsForBoolean(propertyName: string, getters: seq<Entry>, fields: seq<Entry>, outputType: TypeRef, isValue: Object, getValue: Object)
    requires |propertyName| > 0
    requires Lookup(getters, GetterName("is", propertyName).value) == Some(isValue)
    requires Lookup(getters, GetterName("get", propertyName).value) == Some(getValue)
    ensures IsBooleanProperty(outputType) ==> Get(propertyName, JBean(getters, fields), outputType) == Ok(isValue)
    ensures !IsBooleanProperty(outputType) ==> Get(propertyName, JBean(getters, fields), outputType) == Ok(getValue)
  {
    GetLookupOrder(propertyName, JBean(getters, fields), outputType);
  }

  /** A value that `get` returns, other than null, is part of the source
      object: a map entry's, a getter's or a field's value. */
  lemma {:induction false} GetReturnsPart(propertyName: string, source: Object, outputType: TypeRef)
    requires Get(propertyName, source, outputType).Ok?
    requires Get(propertyName, source, outputType).value != Null
    ensures Get(propertyName, source, outputType).value < source
  {
    var v := Get(propertyName, source, outputType).value;
    match source
    case JMap(entries) =>
      var i :| 0 <= i < |entries| && entries[i] == Entry(propertyName, v);
      assert entries[i] in entries;
    case JBean(getters, fields) =>
      GetLookupOrder(propertyName, source, outputType);
      var viaGetter := FirstGetter(getters, propertyName, Prefixes(outputType));
      if viaGetter.Some? {
        FirstGetterIsGetter(getters, propertyName, Prefixes(outputType));
        var i :| 0 <= i < |getters| && getters[i].value == v;
        assert getters[i] in getters;
      } else {
        var i :| 0 <= i < |fields| && fields[i] == Entry(propertyName, v);
        assert fields[i] in fields;
      }
    case _ =>
  }
}
