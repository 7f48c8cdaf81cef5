/** graphql.util.Anonymizer: renames every element of a schema and of the
    queries against it to a counter-based name ("Object1", "field3",
    "var2", ...), keeping fields that are related through interfaces under
    one shared name so the queries stay valid. */
module Anonymizer {
  import opened Common
  import opened Ast
  import opened SchemaTypes
  import opened JavaLang
  import opened LinkedMaps

  // ---------------------------------------------------------------------
  // Counters and numbered names.

  /** java.util.concurrent.atomic.AtomicInteger, as used here: a value and
      `getAndIncrement`. */
  class Counter {
    var value: int

    constructor (initial: int)
      ensures value == initial
    {
      value := initial;
    }

    /** `getAndIncrement`: the value before, then one more, in `int`. */
    method GetAndIncrement() returns (r: int)
      modifies this
      ensures r == old(value) && value == Wrap(old(value) + 1)
    {
      r := value;
      value := Wrap(value + 1);
    }
  }

  predicate NoDigits(s: string) {
    forall i :: 0 <= i < |s| ==> !IsDigit(s[i])
  }

  /** `prefix + counter.getAndIncrement()`: Java's string concatenation
      prints the `int` in decimal. */
  function Numbered(prefix: string, n: int): string {
    prefix + IntToString(n)
  }

  /** A digit-free prefix followed by a counter value that has not wrapped
      determines both: numbered names from different prefixes or different
      counter values never collide. */
  lemma {:induction false} NumberedInjective(p1: string, n1: int, p2: string, n2: int)
    requires NoDigits(p1) && NoDigits(p2) && n1 >= 0 && n2 >= 0
    ensures Numbered(p1, n1) == Numbered(p2, n2) <==> p1 == p2 && n1 == n2
  {
    if Numbered(p1, n1) == Numbered(p2, n2) {
      var s := Numbered(p1, n1);
      var d1, d2 := NatToDigits(n1), NatToDigits(n2);
      assert s == p1 + d1 && s == p2 + d2;
      DigitsStartAfterPrefix(p1, d1);
      DigitsStartAfterPrefix(p2, d2);
      assert p1 == s[..|p1|] == p2;
      assert d1 == s[|p1|..] == d2;
      DigitsRoundTrip(n1);
      DigitsRoundTrip(n2);
    }
  }

  /** The index of the first digit of `s`, or `|s|` when there is none. */
  function FirstDigit(s: string): (i: nat)
    ensures i <= |s|
  {
    if s == [] then 0 else if IsDigit(s[0]) then 0 else 1 + FirstDigit(s[1..])
  }

  /** In a digit-free prefix followed by digits, the digits start right
      after the prefix. */
  lemma {:induction false} DigitsStartAfterPrefix(p: string, d: string)
    requires NoDigits(p) && |d| > 0 && IsDigit(d[0])
    ensures FirstDigit(p + d) == |p|
  {
    if p == [] {
      assert p + d == d;
    } else {
      assert (p + d)[0] == p[0];
      assert (p + d)[1..] == p[1..] + d;
      DigitsStartAfterPrefix(p[1..], d);
    }
  }

  // ---------------------------------------------------------------------
  // replaceDefaultValue.

  /** What `replaceDefaultValue` returns and the two counters after it. */
  datatype Replaced = Replaced(value: Value, stringCounter: int, intCounter: int)

  function ReplacedDefault(defaultValueLiteral: Value, stringCounter: int, intCounter: int): Replaced {
    match defaultValueLiteral
    case StringValue(_) => Replaced(StringValue(Numbered("defaultValue", stringCounter)), Wrap(stringCounter + 1), intCounter)
    case IntValue(_) => Replaced(IntValue(intCounter), stringCounter, Wrap(intCounter + 1))
    case _ => Replaced(defaultValueLiteral, stringCounter, intCounter)
  }

  /** `replaceDefaultValue`: a string default becomes "defaultValue<n>", an
      int default becomes <n>, each from its own counter; any other literal
      is kept. */
  method ReplaceDefaultValue(defaultValueLiteral: Value, defaultStringValueCounter: Counter, defaultIntValueCounter: Counter)
    returns (r: Value)
    requires defaultStringValueCounter != defaultIntValueCounter
    modifies defaultStringValueCounter, defaultIntValueCounter
    ensures Replaced(r, defaultStringValueCounter.value, defaultIntValueCounter.value)
      == ReplacedDefault(defaultValueLiteral, old(defaultStringValueCounter.value), old(defaultIntValueCounter.value))
  {
    if defaultValueLiteral.StringValue? {
      var n := defaultStringValueCounter.GetAndIncrement();
      return StringValue(Numbered("defaultValue", n));
    } else if defaultValueLiteral.IntValue? {
      var n := defaultIntValueCounter.GetAndIncrement();
      return IntValue(n);
    }
    return defaultValueLiteral;
  }

  /** The successive calls of `replaceDefaultValue` over the default values
      of one schema, in visit order, both counters starting at 1. */
  function ReplacedDefaults(values: seq<Value>): Defaults {
    if values == [] then Defaults([], 1, 1)
    else
      var before := ReplacedDefaults(values[..|values| - 1]);
      var last := ReplacedDefault(values[|values| - 1], before.stringCounter, before.intCounter);
      Defaults(before.values + [last.value], last.stringCounter, last.intCounter)
  }

  datatype Defaults = Defaults(values: seq<Value>, stringCounter: int, intCounter: int)

  function CountStrings(values: seq<Value>): nat {
    if values == [] then 0 else CountStrings(values[..|values| - 1]) + (if values[|values| - 1].StringValue? then 1 else 0)
  }

  function CountInts(values: seq<Value>): nat {
    if values == [] then 0 else CountInts(values[..|values| - 1]) + (if values[|values| - 1].IntValue? then 1 else 0)
  }

  /** Each call sees the defaults before it: replacing a prefix of the
      defaults gives the same first values. */
  lemma {:induction false} DefaultsPrefix(values: seq<Value>, k: nat)
    requires k <= |values|
    ensures |ReplacedDefaults(values).values| == |values|
    ensures ReplacedDefaults(values[..k]).values == ReplacedDefaults(values).values[..k]
    decreases |values|
  {
    if values != [] {
      var init := values[..|values| - 1];
      DefaultsPrefix(init, |init|);
      if k < |values| {
        DefaultsPrefix(init, k);
        assert values[..k] == init[..k];
      } else {
        assert values[..k] == values;
      }
    }
  }

  /** After the calls over the defaults, each counter is one more than the
      number of defaults of its kind, as long as neither has wrapped. */
  lemma {:induction false} DefaultsCounters(values: seq<Value>)
    requires |values| < INT_MAX
    ensures ReplacedDefaults(values).stringCounter == 1 + CountStrings(values)
    ensures ReplacedDefaults(values).intCounter == 1 + CountInts(values)
  {
    if values != [] {
      DefaultsCounters(values[..|values| - 1]);
      CountBounds(values[..|values| - 1]);
    }
  }

  /** The n-th string default (from 1, in visit order) becomes
      "defaultValue<n>", the n-th int default becomes n, and the other
      literals are kept — as long as fewer than 2^31 - 1 defaults are
      replaced, so no counter wraps. */
  lemma {:induction false} DefaultsNumberedInOrder(values: seq<Value>, j: nat)
    requires |values| < INT_MAX && j < |values|
    ensures |ReplacedDefaults(values).values| == |values|
    ensures ReplacedDefaults(values).values[j]
      == (if values[j].StringValue? then StringValue(Numbered("defaultValue", 1 + CountStrings(values[..j])))
          else if values[j].IntValue? then IntValue(1 + CountInts(values[..j]))
          else values[j])
  {
    DefaultsPrefix(values, j + 1);
    DefaultsCounters(values[..j]);
    assert values[..j + 1][..j] == values[..j];
  }

  lemma {:induction false} CountBounds(values: seq<Value>)
    ensures CountStrings(values) <= |values| && CountInts(values) <= |values|
  {
    if values != [] {
      CountBounds(values[..|values| - 1]);
    }
  }

  // ---------------------------------------------------------------------
  // getSameFields: the fields of the same name in the types related to a
  // type through interfaces, up and down, transitively.

  /** A field definition and the object or interface type it belongs to. */
  datatype FieldRef = FieldRef(ownerName: string, definition: FieldDefinition)

  /** The state of one `getSameFields` search: the `alreadyChecked` type
      names and the `result` fields, both in insertion order. */
  datatype Search = Search(checked: seq<string>, found: seq<FieldRef>)

  /** `LinkedHashSet.add`: a new element goes to the end. */
  function Add<T(==)>(s: seq<T>, x: T): (r: seq<T>)
    ensures x in r && s <= r
    ensures x in s ==> r == s
  {
    if x in s then s else s + [x]
  }

  function CheckedSet(checked: seq<string>): set<string> {
    set n | n in checked
  }

  /** The named types not yet checked: the measure the search shrinks. */
  function Unchecked(schema: Schema, checked: seq<string>): nat {
    |schema.types.Keys - CheckedSet(checked)|
  }

  lemma {:induction false} UncheckedShrinks(schema: Schema, before: seq<string>, after: seq<string>)
    requires before <= after
    ensures Unchecked(schema, after) <= Unchecked(schema, before)
  {
    SubsetCard(schema.types.Keys - CheckedSet(after), schema.types.Keys - CheckedSet(before));
  }

  lemma {:induction false} UncheckedDrops(schema: Schema, checked: seq<string>, name: string)
    requires name in schema.types && name !in checked
    ensures Unchecked(schema, checked + [name]) < Unchecked(schema, checked)
  {
    var before := schema.types.Keys - CheckedSet(checked);
    assert schema.types.Keys - CheckedSet(checked + [name]) == before - {name};
  }

  /** The cast `(GraphQLImplementingType)` of the named type; a name that
      does not resolve to an object or interface type fails the cast. */
  function Implementing(schema: Schema, typeName: string): (r: Result<NamedType>)
    ensures r.Ok? ==> typeName in schema.types && r.value == schema.types[typeName] && r.value.IsFieldsContainer()
  {
    if typeName in schema.types && schema.types[typeName].IsFieldsContainer() then Ok(schema.types[typeName])
    else Throws(ClassCastException)
  }

  /** `getMatchingFieldDefinitions` from the `i`-th type on: each type's
      field of that name, when it has one, joins `found`. */
  function MatchingFields(schema: Schema, fieldName: string, typeNames: seq<string>, found: seq<FieldRef>): (r: Result<seq<FieldRef>>)
    ensures r.Ok? ==> found <= r.value
    decreases |typeNames|
  {
    if typeNames == [] then Ok(found)
    else
      var t :- Implementing(schema, typeNames[0]);
      var definition := t.FieldDefinitionNamed(fieldName);
      var next := if definition.Some? then Add(found, FieldRef(typeNames[0], definition.value)) else found;
      MatchingFields(schema, fieldName, typeNames[1..], next)
  }

  /** The types `getSameFieldsImpl` moves to from a type: its interfaces,
      then the implementations the interface-to-implementations map lists. */
  function Neighbours(schema: Schema, interfaceToImplementations: map<string, seq<string>>, typeName: string): seq<string>
    requires typeName in schema.types && schema.types[typeName].IsFieldsContainer()
  {
    schema.types[typeName].interfaces
      + (if typeName in interfaceToImplementations then interfaceToImplementations[typeName] else [])
  }

  /** `getSameFieldsImpl` for one type name. */
  function SameFieldsFrom(schema: Schema, interfaceToImplementations: map<string, seq<string>>, fieldName: string,
                          cur: string, s: Search): (r: Result<Search>)
    ensures r.Ok? ==> s.checked <= r.value.checked && s.found <= r.value.found
    decreases Unchecked(schema, s.checked), 0
  {
    if cur in s.checked then Ok(s)
    else
      var checked := s.checked + [cur];
      match schema.GetType(cur)
      case None => Throws(NullPointerException)
      case Some(t) =>
        if !t.IsFieldsContainer() then Throws(ClassCastException)
        else
          UncheckedDrops(schema, s.checked, cur);
          var found :- MatchingFields(schema, fieldName, t.interfaces, s.found);
          var up :- SameFieldsEach(schema, interfaceToImplementations, fieldName, t.interfaces, Search(checked, found));
          if cur !in interfaceToImplementations then Ok(up)
          else
            var implementations := interfaceToImplementations[cur];
            var found' :- MatchingFields(schema, fieldName, implementations, up.found);
            UncheckedShrinks(schema, checked, up.checked);
            SameFieldsEach(schema, interfaceToImplementations, fieldName, implementations, Search(up.checked, found'))
  }

  /** The recursive calls of `getSameFieldsImpl` over a list of types, in
      order. */
  function SameFieldsEach(schema: Schema, interfaceToImplementations: map<string, seq<string>>, fieldName: string,
                          names: seq<string>, s: Search): (r: Result<Search>)
    ensures r.Ok? ==> s.checked <= r.value.checked && s.found <= r.value.found
    decreases Unchecked(schema, s.checked), |names|
  {
    if names == [] then Ok(s)
    else
      var first :- SameFieldsFrom(schema, interfaceToImplementations, fieldName, names[0], s);
      UncheckedShrinks(schema, s.checked, first.checked);
      SameFieldsEach(schema, interfaceToImplementations, fieldName, names[1..], first)
  }

  /** `getSameFields`: the search from a type with nothing checked yet. */
  function SameFields(schema: Schema, interfaceToImplementations: map<string, seq<string>>, fieldName: string,
                         objectOrInterfaceName: string): Result<seq<FieldRef>>
  {
    var s :- SameFieldsFrom(schema, interfaceToImplementations, fieldName, objectOrInterfaceName, Search([], []));
    Ok(s.found)
  }

  /** The field of that name the type declares, as `getMatchingFieldDefinitions`
      would add it, if the type is an object or interface type that has one. */
  function MatchOf(schema: Schema, fieldName: string, typeName: string): Option<FieldRef> {
    if typeName in schema.types && schema.types[typeName].IsFieldsContainer()
       && schema.types[typeName].FieldDefinitionNamed(fieldName).Some?
    then Some(FieldRef(typeName, schema.types[typeName].FieldDefinitionNamed(fieldName).value))
    else None
  }

  /** Every found field is the field of that name of the type it names. */
  predicate AllMatch(schema: Schema, fieldName: string, found: seq<FieldRef>) {
    forall f :: f in found ==> MatchOf(schema, fieldName, f.ownerName) == Some(f)
  }

  /** `getMatchingFieldDefinitions` adds exactly the matching fields of the
      types, each once, and nothing else. */
  lemma {:induction false} MatchingFieldsMeaning(schema: Schema, fieldName: string, typeNames: seq<string>, found: seq<FieldRef>)
    requires MatchingFields(schema, fieldName, typeNames, found).Ok?
    ensures var r := MatchingFields(schema, fieldName, typeNames, found).value;
      (Distinct(found) ==> Distinct(r))
      && (AllMatch(schema, fieldName, found) ==> AllMatch(schema, fieldName, r))
      && (forall n :: n in typeNames && MatchOf(schema, fieldName, n).Some? ==> MatchOf(schema, fieldName, n).value in r)
      && (forall f :: f in r ==> f in found || f.ownerName in typeNames)
    decreases |typeNames|
  {
    if typeNames != [] {
      var t := Implementing(schema, typeNames[0]).value;
      var definition := t.FieldDefinitionNamed(fieldName);
      var next := if definition.Some? then Add(found, FieldRef(typeNames[0], definition.value)) else found;
      MatchingFieldsMeaning(schema, fieldName, typeNames[1..], next);
      if definition.Some? && FieldRef(typeNames[0], definition.value) !in found {
        assert next == found + [FieldRef(typeNames[0], definition.value)];
      }
    }
  }

  /** A search state that keeps the `alreadyChecked` and `result` sets
      sets (no element twice) and holds only matching fields. */
  predicate SoundSearch(schema: Schema, fieldName: string, s: Search) {
    Distinct(s.checked) && Distinct(s.found) && AllMatch(schema, fieldName, s.found)
  }

  /** The search keeps both collections free of duplicates and finds only
      fields of that name, each under the type that declares it. */
  lemma {:induction false} SameFieldsFromSound(schema: Schema, interfaceToImplementations: map<string, seq<string>>,
                                               fieldName: string, cur: string, s: Search)
    requires SoundSearch(schema, fieldName, s)
    requires SameFieldsFrom(schema, interfaceToImplementations, fieldName, cur, s).Ok?
    ensures SoundSearch(schema, fieldName, SameFieldsFrom(schema, interfaceToImplementations, fieldName, cur, s).value)
    decreases Unchecked(schema, s.checked), 0
  {
    if cur !in s.checked {
      var t := schema.types[cur];
      var checked := s.checked + [cur];
      UncheckedDrops(schema, s.checked, cur);
      MatchingFieldsMeaning(schema, fieldName, t.interfaces, s.found);
      var found := MatchingFields(schema, fieldName, t.interfaces, s.found).value;
      SameFieldsEachSound(schema, interfaceToImplementations, fieldName, t.interfaces, Search(checked, found));
      var up := SameFieldsEach(schema, interfaceToImplementations, fieldName, t.interfaces, Search(checked, found)).value;
      if cur in interfaceToImplementations {
        var implementations := interfaceToImplementations[cur];
        MatchingFieldsMeaning(schema, fieldName, implementations, up.found);
        var found' := MatchingFields(schema, fieldName, implementations, up.found).value;
        UncheckedShrinks(schema, checked, up.checked);
        SameFieldsEachSound(schema, interfaceToImplementations, fieldName, implementations, Search(up.checked, found'));
      }
    }
  }

  lemma {:induction false} SameFieldsEachSound(schema: Schema, interfaceToImplementations: map<string, seq<string>>,
                                               fieldName: string, names: seq<string>, s: Search)
    requires SoundSearch(schema, fieldName, s)
    requires SameFieldsEach(schema, interfaceToImplementations, fieldName, names, s).Ok?
    ensures SoundSearch(schema, fieldName, SameFieldsEach(schema, interfaceToImplementations, fieldName, names, s).value)
    decreases Unchecked(schema, s.checked), |names|
  {
    if names != [] {
      SameFieldsFromSound(schema, interfaceToImplementations, fieldName, names[0], s);
      var first := SameFieldsFrom(schema, interfaceToImplementations, fieldName, names[0], s).value;
      UncheckedShrinks(schema, s.checked, first.checked);
      SameFieldsEachSound(schema, interfaceToImplementations, fieldName, names[1..], first);
    }
  }

  /** A checked type whose neighbours are all checked and whose neighbours'
      matching fields are all found. */
  predicate Expanded(schema: Schema, interfaceToImplementations: map<string, seq<string>>, fieldName: string,
                     s: Search, typeName: string) {
    typeName in schema.types && schema.types[typeName].IsFieldsContainer()
    && forall n :: n in Neighbours(schema, interfaceToImplementations, typeName) ==>
         n in s.checked && (MatchOf(schema, fieldName, n).Some? ==> MatchOf(schema, fieldName, n).value in s.found)
  }

  lemma {:induction false} ExpandedGrows(schema: Schema, interfaceToImplementations: map<string, seq<string>>, fieldName: string,
                      s: Search, s': Search, typeName: string)
    requires Expanded(schema, interfaceToImplementations, fieldName, s, typeName)
    requires s.checked <= s'.checked && s.found <= s'.found
    ensures Expanded(schema, interfaceToImplementations, fieldName, s', typeName)
  {
    forall n | n in Neighbours(schema, interfaceToImplementations, typeName)
      ensures n in s'.checked && (MatchOf(schema, fieldName, n).Some? ==> MatchOf(schema, fieldName, n).value in s'.found)
    {
    }
  }

  /** Every type the search from `cur` checks for the first time is fully
      expanded by the time the search returns. */
  lemma {:induction false} SameFieldsFromExpands(schema: Schema, interfaceToImplementations: map<string, seq<string>>,
                                                 fieldName: string, cur: string, s: Search)
    requires SameFieldsFrom(schema, interfaceToImplementations, fieldName, cur, s).Ok?
    ensures var r := SameFieldsFrom(schema, interfaceToImplementations, fieldName, cur, s).value;
      cur in r.checked
      && forall c :: c in r.checked && c !in s.checked ==> Expanded(schema, interfaceToImplementations, fieldName, r, c)
    decreases Unchecked(schema, s.checked), 0
  {
    if cur !in s.checked {
      var r := SameFieldsFrom(schema, interfaceToImplementations, fieldName, cur, s).value;
      var t := schema.types[cur];
      var checked := s.checked + [cur];
      UncheckedDrops(schema, s.checked, cur);
      MatchingFieldsMeaning(schema, fieldName, t.interfaces, s.found);
      var found := MatchingFields(schema, fieldName, t.interfaces, s.found).value;
      SameFieldsEachExpands(schema, interfaceToImplementations, fieldName, t.interfaces, Search(checked, found));
      var up := SameFieldsEach(schema, interfaceToImplementations, fieldName, t.interfaces, Search(checked, found)).value;
      var implementations := if cur in interfaceToImplementations then interfaceToImplementations[cur] else [];
      var found' := up.found;
      if cur in interfaceToImplementations {
        MatchingFieldsMeaning(schema, fieldName, implementations, up.found);
        found' := MatchingFields(schema, fieldName, implementations, up.found).value;
        UncheckedShrinks(schema, checked, up.checked);
        SameFieldsEachExpands(schema, interfaceToImplementations, fieldName, implementations, Search(up.checked, found'));
        assert r == SameFieldsEach(schema, interfaceToImplementations, fieldName, implementations, Search(up.checked, found')).value;
      } else {
        assert r == up;
      }
      InPrefix(cur, checked, up.checked);
      InPrefix(cur, up.checked, r.checked);
      ExpandedFromParts(schema, interfaceToImplementations, fieldName, r, cur, t.interfaces, implementations, up, found');
      ExpandedCarry(schema, interfaceToImplementations, fieldName, checked, up, r);
    }
  }

  lemma {:induction false} InPrefix<T>(x: T, a: seq<T>, b: seq<T>)
    requires x in a && a <= b
    ensures x in b
  {
    var i :| 0 <= i < |a| && a[i] == x;
    assert b[i] == x;
  }

  /** Types expanded in an earlier state stay expanded in a later one, and
      the types checked in between are expanded too. */
  lemma {:induction false} ExpandedCarry(schema: Schema, interfaceToImplementations: map<string, seq<string>>, fieldName: string,
                      base: seq<string>, up: Search, r: Search)
    requires base <= up.checked && up.checked <= r.checked && up.found <= r.found
    requires forall c :: c in up.checked && c !in base ==> Expanded(schema, interfaceToImplementations, fieldName, up, c)
    requires forall c :: c in r.checked && c !in up.checked ==> Expanded(schema, interfaceToImplementations, fieldName, r, c)
    ensures forall c :: c in r.checked && c !in base ==> Expanded(schema, interfaceToImplementations, fieldName, r, c)
  {
    forall c | c in r.checked && c !in base
      ensures Expanded(schema, interfaceToImplementations, fieldName, r, c)
    {
      if c in up.checked {
        ExpandedGrows(schema, interfaceToImplementations, fieldName, up, r, c);
      }
    }
  }

  lemma {:induction false} SameFieldsEachExpands(schema: Schema, interfaceToImplementations: map<string, seq<string>>,
                                                 fieldName: string, names: seq<string>, s: Search)
    requires SameFieldsEach(schema, interfaceToImplementations, fieldName, names, s).Ok?
    ensures var r := SameFieldsEach(schema, interfaceToImplementations, fieldName, names, s).value;
      (forall n :: n in names ==> n in r.checked)
      && forall c :: c in r.checked && c !in s.checked ==> Expanded(schema, interfaceToImplementations, fieldName, r, c)
    decreases Unchecked(schema, s.checked), |names|
  {
    if names != [] {
      var r := SameFieldsEach(schema, interfaceToImplementations, fieldName, names, s).value;
      SameFieldsFromExpands(schema, interfaceToImplementations, fieldName, names[0], s);
      var first := SameFieldsFrom(schema, interfaceToImplementations, fieldName, names[0], s).value;
      UncheckedShrinks(schema, s.checked, first.checked);
      SameFieldsEachExpands(schema, interfaceToImplementations, fieldName, names[1..], first);
      forall c | c in r.checked && c !in s.checked
        ensures Expanded(schema, interfaceToImplementations, fieldName, r, c)
      {
        if c in first.checked {
          ExpandedGrows(schema, interfaceToImplementations, fieldName, first, r, c);
        }
      }
      forall n | n in names
        ensures n in r.checked
      {
        if n != names[0] {
          assert n in names[1..];
        }
      }
    }
  }

  /** The expansion of one type: its interfaces were searched into `up`,
      then its implementations' matches joined `found'` and were searched
      into `r`. */
  lemma {:induction false} ExpandedFromParts(schema: Schema, interfaceToImplementations: map<string, seq<string>>, fieldName: string,
                          r: Search, cur: string, interfaces: seq<string>, implementations: seq<string>,
                          up: Search, found': seq<FieldRef>)
    requires cur in schema.types && schema.types[cur].IsFieldsContainer()
    requires Neighbours(schema, interfaceToImplementations, cur) == interfaces + implementations
    requires forall n :: n in interfaces ==> n in up.checked
    requires forall n :: n in interfaces && MatchOf(schema, fieldName, n).Some? ==> MatchOf(schema, fieldName, n).value in up.found
    requires up.found <= found' && up.checked <= r.checked && found' <= r.found
    requires forall n :: n in implementations ==> n in r.checked
    requires forall n :: n in implementations && MatchOf(schema, fieldName, n).Some? ==> MatchOf(schema, fieldName, n).value in found'
    ensures Expanded(schema, interfaceToImplementations, fieldName, r, cur)
  {
    forall n | n in Neighbours(schema, interfaceToImplementations, cur)
      ensures n in r.checked && (MatchOf(schema, fieldName, n).Some? ==> MatchOf(schema, fieldName, n).value in r.found)
    {
      if n in interfaces {
        assert n in up.checked;
      }
    }
  }

  /** A chain of types, each an interface or a listed implementation of
      the one before. */
  predicate IsPath(schema: Schema, interfaceToImplementations: map<string, seq<string>>, path: seq<string>) {
    forall i :: 0 <= i < |path| - 1 ==>
      path[i] in schema.types && schema.types[path[i]].IsFieldsContainer()
      && path[i + 1] in Neighbours(schema, interfaceToImplementations, path[i])
  }

  /** `getSameFields` is closed over the hierarchy: every type reachable
      from the starting type by going up to interfaces and down to
      implementations, any number of times, is checked, and the field of
      that name of every such type after the first is in the result. The
      result holds nothing else than fields of that name, each once. */
  lemma {:induction false} SameFieldsReachAll(schema: Schema, interfaceToImplementations: map<string, seq<string>>, fieldName: string,
                           path: seq<string>)
    requires |path| > 0 && IsPath(schema, interfaceToImplementations, path)
    requires SameFieldsFrom(schema, interfaceToImplementations, fieldName, path[0], Search([], [])).Ok?
    ensures var r := SameFieldsFrom(schema, interfaceToImplementations, fieldName, path[0], Search([], [])).value;
      SoundSearch(schema, fieldName, r)
      && (forall i :: 0 <= i < |path| ==> path[i] in r.checked)
      && (forall i :: 0 < i < |path| && MatchOf(schema, fieldName, path[i]).Some? ==> MatchOf(schema, fieldName, path[i]).value in r.found)
  {
    var r := SameFieldsFrom(schema, interfaceToImplementations, fieldName, path[0], Search([], [])).value;
    SameFieldsFromSound(schema, interfaceToImplementations, fieldName, path[0], Search([], []));
    SameFieldsFromExpands(schema, interfaceToImplementations, fieldName, path[0], Search([], []));
    var i := 0;
    while i < |path| - 1
      invariant 0 <= i < |path|
      invariant forall k :: 0 <= k <= i ==> path[k] in r.checked
      invariant forall k :: 0 < k <= i && MatchOf(schema, fieldName, path[k]).Some? ==> MatchOf(schema, fieldName, path[k]).value in r.found
    {
      assert Expanded(schema, interfaceToImplementations, fieldName, r, path[i]);
      i := i + 1;
    }
  }

  /** The two sets one `getSameFields` call threads through its recursion. */
  class SameFieldsSearch {
    var alreadyChecked: seq<string>
    var result: seq<FieldRef>

    constructor ()
      ensures alreadyChecked == [] && result == []
    {
      alreadyChecked := [];
      result := [];
    }

    function State(): Search
      reads this
    {
      Search(alreadyChecked, result)
    }

    /** `getMatchingFieldDefinitions`. A failed cast ends the search with
        the exception, which leaves `recordNewNames` as well, so the fields
        added before it are not stated. */
    method GetMatchingFieldDefinitions(schema: Schema, fieldName: string, interfaces: seq<string>) returns (r: Result<()>)
      modifies this
      ensures alreadyChecked == old(alreadyChecked)
      ensures var m := MatchingFields(schema, fieldName, interfaces, old(result));
        (r.Ok? <==> m.Ok?) && (m.Ok? ==> result == m.value) && (m.Throws? ==> r.error == m.error)
    {
      ghost var goal := MatchingFields(schema, fieldName, interfaces, result);
      var i := 0;
      while i < |interfaces|
        invariant 0 <= i <= |interfaces|
        invariant alreadyChecked == old(alreadyChecked)
        invariant MatchingFields(schema, fieldName, interfaces[i..], result) == goal
      {
        assert interfaces[i..][1..] == interfaces[i + 1..];
        var implementingType := Implementing(schema, interfaces[i]);
        if implementingType.Throws? {
          return Throws(implementingType.error);
        }
        var definition := implementingType.value.FieldDefinitionNamed(fieldName);
        if definition.Some? {
          result := Add(result, FieldRef(interfaces[i], definition.value));
        }
        i := i + 1;
      }
      return Ok(());
    }

    /** `getSameFieldsImpl`. */
    method GetSameFieldsImpl(schema: Schema, interfaceToImplementations: map<string, seq<string>>, fieldName: string,
                             curObjectOrInterface: string) returns (r: Result<()>)
      modifies this
      ensures var s := SameFieldsFrom(schema, interfaceToImplementations, fieldName, curObjectOrInterface, old(State()));
        (r.Ok? <==> s.Ok?) && (s.Ok? ==> State() == s.value) && (s.Throws? ==> r.error == s.error)
      decreases Unchecked(schema, alreadyChecked), 0
    {
      if curObjectOrInterface in alreadyChecked {
        return Ok(());
      }
      ghost var entry := alreadyChecked;
      alreadyChecked := alreadyChecked + [curObjectOrInterface];
      var t := schema.GetType(curObjectOrInterface);
      if t.None? {
        return Throws(NullPointerException);
      }
      if !t.value.IsFieldsContainer() {
        return Throws(ClassCastException);
      }
      UncheckedDrops(schema, entry, curObjectOrInterface);
      // "up": the interfaces
      var interfaces := t.value.interfaces;
      r := GetMatchingFieldDefinitions(schema, fieldName, interfaces);
      if r.Throws? {
        return r;
      }
      r := GetSameFieldsEach(schema, interfaceToImplementations, fieldName, interfaces);
      if r.Throws? || curObjectOrInterface !in interfaceToImplementations {
        return r;
      }
      // "down": the implementations
      var implementations := interfaceToImplementations[curObjectOrInterface];
      UncheckedShrinks(schema, entry + [curObjectOrInterface], alreadyChecked);
      r := GetMatchingFieldDefinitions(schema, fieldName, implementations);
      if r.Throws? {
        return r;
      }
      r := GetSameFieldsEach(schema, interfaceToImplementations, fieldName, implementations);
    }

    /** The loops of `getSameFieldsImpl` over the interfaces and over the
        implementations: the search from each type in turn. */
    method GetSameFieldsEach(schema: Schema, interfaceToImplementations: map<string, seq<string>>, fieldName: string,
                             names: seq<string>) returns (r: Result<()>)
      modifies this
      ensures var s := SameFieldsEach(schema, interfaceToImplementations, fieldName, names, old(State()));
        (r.Ok? <==> s.Ok?) && (s.Ok? ==> State() == s.value) && (s.Throws? ==> r.error == s.error)
      decreases Unchecked(schema, alreadyChecked), |names|
    {
      ghost var entry := alreadyChecked;
      ghost var goal := SameFieldsEach(schema, interfaceToImplementations, fieldName, names, State());
      var i := 0;
      while i < |names|
        invariant 0 <= i <= |names|
        invariant entry <= alreadyChecked
        invariant SameFieldsEach(schema, interfaceToImplementations, fieldName, names[i..], State()) == goal
      {
        assert names[i..][1..] == names[i + 1..];
        UncheckedShrinks(schema, entry, alreadyChecked);
        r := GetSameFieldsImpl(schema, interfaceToImplementations, fieldName, names[i]);
        if r.Throws? {
          return r;
        }
        i := i + 1;
      }
      return Ok(());
    }
  }

  /** `getSameFields`: a fresh search from the type. */
  method GetSameFields(schema: Schema, interfaceToImplementations: map<string, seq<string>>, fieldName: string,
                       objectOrInterfaceName: string) returns (r: Result<seq<FieldRef>>)
    ensures r == SameFields(schema, interfaceToImplementations, fieldName, objectOrInterfaceName)
  {
    var search := new SameFieldsSearch();
    var done := search.GetSameFieldsImpl(schema, interfaceToImplementations, fieldName, objectOrInterfaceName);
    if done.Throws? {
      return Throws(done.error);
    }
    return Ok(search.result);
  }

  // ---------------------------------------------------------------------
  // recordNewNames.

  /** The schema elements that get a new name. Named types are unique by
      name in a schema; fields, arguments, enum values and input fields are
      told apart by the element they belong to. */
  datatype ElementKey =
    | TypeElement(typeName: string)
    | FieldElement(ownerName: string, fieldName: string)
    | FieldArgumentElement(ownerName: string, fieldName: string, argumentName: string)
    | DirectiveElement(directiveName: string)
    | DirectiveArgumentElement(directiveName: string, argumentName: string)
    | EnumValueElement(enumName: string, valueName: string)
    | InputFieldElement(inputTypeName: string, fieldName: string)

  function FieldKey(f: FieldRef): ElementKey {
    FieldElement(f.ownerName, f.definition.name)
  }

  function FieldKeys(fields: seq<FieldRef>): (r: seq<ElementKey>)
    ensures |r| == |fields| && forall i :: 0 <= i < |fields| ==> r[i] == FieldKey(fields[i])
  {
    seq(|fields|, i requires 0 <= i < |fields| => FieldKey(fields[i]))
  }

  /** `getMatchingArgumentDefinitions` over the first fields: the argument
      of that name of each field that has one, in field order. */
  function MatchingArguments(name: string, fieldDefinitions: seq<FieldRef>): (r: seq<ElementKey>)
    ensures |r| <= |fieldDefinitions|
    ensures forall k :: k in r <==> exists f :: f in fieldDefinitions && f.definition.ArgumentNamed(name).Some?
                                          && k == FieldArgumentElement(f.ownerName, f.definition.name, name)
  {
    if fieldDefinitions == [] then []
    else
      var init := fieldDefinitions[..|fieldDefinitions| - 1];
      var last := fieldDefinitions[|fieldDefinitions| - 1];
      assert forall f :: f in fieldDefinitions <==> f in init || f == last;
      MatchingArguments(name, init)
        + (if last.definition.ArgumentNamed(name).Some? then [FieldArgumentElement(last.ownerName, last.definition.name, name)] else [])
  }

  /** `getMatchingArgumentDefinitions`. */
  method GetMatchingArgumentDefinitions(name: string, fieldDefinitions: seq<FieldRef>) returns (result: seq<ElementKey>)
    ensures result == MatchingArguments(name, fieldDefinitions)
  {
    result := [];
    var i := 0;
    while i < |fieldDefinitions|
      invariant 0 <= i <= |fieldDefinitions|
      invariant result == MatchingArguments(name, fieldDefinitions[..i])
    {
      assert fieldDefinitions[..i + 1][..i] == fieldDefinitions[..i];
      var fieldDefinition := fieldDefinitions[i];
      if fieldDefinition.definition.ArgumentNamed(name).Some? {
        result := result + [FieldArgumentElement(fieldDefinition.ownerName, fieldDefinition.definition.name, name)];
      }
      i := i + 1;
    }
    assert fieldDefinitions[..i] == fieldDefinitions;
  }

  /** The element kinds, each with a counter of its own. */
  datatype Kind =
    | ObjectKind | InputObjectKind | InputFieldKind | FieldKind | ScalarKind | DirectiveKind
    | ArgumentKind | InterfaceKind | UnionKind | EnumKind | EnumValueKind

  function Prefix(k: Kind): string {
    match k
    case ObjectKind => "Object"
    case InputObjectKind => "InputObject"
    case InputFieldKind => "inputField"
    case FieldKind => "field"
    case ScalarKind => "Scalar"
    case DirectiveKind => "Directive"
    case ArgumentKind => "argument"
    case InterfaceKind => "Interface"
    case UnionKind => "Union"
    case EnumKind => "Enum"
    case EnumValueKind => "EnumValue"
  }

  lemma {:induction false} PrefixNoDigits(k: Kind)
    ensures NoDigits(Prefix(k))
  {
    match k
    case ObjectKind =>
    case InputObjectKind =>
    case InputFieldKind =>
    case FieldKind =>
    case ScalarKind =>
    case DirectiveKind =>
    case ArgumentKind =>
    case InterfaceKind =>
    case UnionKind =>
    case EnumKind =>
    case EnumValueKind =>
  }

  /** New names of different kinds, or from different counter values of one
      kind, never collide while the counters have not wrapped. */
  lemma {:induction false} NewNamesDistinct(k1: Kind, n1: int, k2: Kind, n2: int)
    requires n1 >= 0 && n2 >= 0
    ensures Numbered(Prefix(k1), n1) == Numbered(Prefix(k2), n2) <==> k1 == k2 && n1 == n2
  {
    PrefixNoDigits(k1);
    PrefixNoDigits(k2);
    NumberedInjective(Prefix(k1), n1, Prefix(k2), n2);
  }

  /** The visits `SchemaTransformer` makes, one per schema element, in its
      own order. */
  datatype SchemaVisit =
    | VisitObjectType(name: string)
    | VisitInterfaceType(name: string)
    | VisitUnionType(name: string)
    | VisitEnumType(name: string)
    | VisitInputObjectType(name: string)
    | VisitScalarType(name: string)
    | VisitDirective(name: string)
    | VisitEnumValue(enumName: string, valueName: string)
    | VisitInputObjectField(inputTypeName: string, fieldName: string)
    | VisitFieldDefinition(ownerName: string, fieldName: string)
    | VisitFieldArgument(ownerName: string, fieldName: string, argumentName: string)
    | VisitDirectiveArgument(directiveName: string, argumentName: string)

  /** `Introspection.isIntrospectionTypes`, `ScalarInfo.isGraphqlSpecifiedScalar`
      and `DirectiveInfo.isGraphqlSpecifiedDirective`, by name. */
  datatype BuiltIns = BuiltIns(
    isIntrospectionType: string -> bool,
    isSpecifiedScalar: string -> bool,
    isSpecifiedDirective: string -> bool)

  /** The visits whose element always gets the next name of its kind, with
      that kind and the element; built-in elements are skipped (ABORT). */
  function Unconditional(builtIns: BuiltIns, v: SchemaVisit): Option<(Kind, ElementKey)> {
    match v
    case VisitObjectType(n) => if builtIns.isIntrospectionType(n) then None else Some((ObjectKind, TypeElement(n)))
    case VisitInterfaceType(n) => if builtIns.isIntrospectionType(n) then None else Some((InterfaceKind, TypeElement(n)))
    case VisitUnionType(n) => if builtIns.isIntrospectionType(n) then None else Some((UnionKind, TypeElement(n)))
    case VisitEnumType(n) => if builtIns.isIntrospectionType(n) then None else Some((EnumKind, TypeElement(n)))
    case VisitInputObjectType(n) => if builtIns.isIntrospectionType(n) then None else Some((InputObjectKind, TypeElement(n)))
    case VisitScalarType(n) => if builtIns.isSpecifiedScalar(n) then None else Some((ScalarKind, TypeElement(n)))
    case VisitDirective(n) => if builtIns.isSpecifiedDirective(n) then None else Some((DirectiveKind, DirectiveElement(n)))
    case VisitEnumValue(e, n) => Some((EnumValueKind, EnumValueElement(e, n)))
    case VisitInputObjectField(i, n) => Some((InputFieldKind, InputFieldElement(i, n)))
    case VisitDirectiveArgument(d, a) => Some((ArgumentKind, DirectiveArgumentElement(d, a)))
    case _ => None
  }

  /** The counters and the `newNameMap` of one `recordNewNames` run. */
  datatype Names = Names(counters: map<Kind, int>, newNameMap: LinkedMap<ElementKey, string>) {
    predicate Valid() {
      (forall k: Kind :: k in counters) && newNameMap.Valid()
    }
  }

  function InitialNames(): (r: Names)
    ensures r.Valid() && r.newNameMap.keys == []
    ensures forall k: Kind :: r.counters[k] == 1
  {
    var counters := map[ObjectKind := 1, InputObjectKind := 1, InputFieldKind := 1, FieldKind := 1, ScalarKind := 1, DirectiveKind := 1,
                        ArgumentKind := 1, InterfaceKind := 1, UnionKind := 1, EnumKind := 1, EnumValueKind := 1];
    EveryKindCounted(counters);
    Names(counters, Empty())
  }

  lemma {:induction false} EveryKindCounted(counters: map<Kind, int>)
    requires ObjectKind in counters && InputObjectKind in counters && InputFieldKind in counters && FieldKind in counters
    requires ScalarKind in counters && DirectiveKind in counters && ArgumentKind in counters && InterfaceKind in counters
    requires UnionKind in counters && EnumKind in counters && EnumValueKind in counters
    ensures forall k: Kind :: k in counters
  {
    forall k: Kind
      ensures k in counters
    {
      match k {
        case ObjectKind =>
        case InputObjectKind =>
        case InputFieldKind =>
        case FieldKind =>
        case ScalarKind =>
        case DirectiveKind =>
        case ArgumentKind =>
        case InterfaceKind =>
        case UnionKind =>
        case EnumKind =>
        case EnumValueKind =>
      }
    }
  }

  /** `"<Prefix>" + counter.getAndIncrement()` for the kind. */
  datatype Fresh = Fresh(name: string, names: Names)

  function NewName(st: Names, k: Kind): (r: Fresh)
    requires st.Valid()
    ensures r.names.Valid() && r.names.newNameMap == st.newNameMap
    ensures r.name == Numbered(Prefix(k), st.counters[k])
    ensures r.names.counters == st.counters[k := Wrap(st.counters[k] + 1)]
  {
    Fresh(Numbered(Prefix(k), st.counters[k]), Names(st.counters[k := Wrap(st.counters[k] + 1)], st.newNameMap))
  }

  /** `newNameMap.put` for each key in turn, all with one name. */
  function PutAll(m: LinkedMap<ElementKey, string>, keys: seq<ElementKey>, name: string): (r: LinkedMap<ElementKey, string>)
    requires m.Valid()
    ensures r.Valid()
    ensures forall k :: k in keys ==> r.Get(k) == Some(name)
    ensures forall k :: k !in keys ==> r.Get(k) == m.Get(k)
  {
    if keys == [] then m
    else
      var before := PutAll(m, keys[..|keys| - 1], name);
      assert forall k :: k in keys <==> k in keys[..|keys| - 1] || k == keys[|keys| - 1];
      before.Put(keys[|keys| - 1], name)
  }

  /** A group of same elements gets one name: the name of its first member
      when that one is named already, else the next name of the kind for
      every member. */
  function NameGroup(st: Names, k: Kind, group: seq<ElementKey>, key: ElementKey): (r: Names)
    requires st.Valid()
    ensures r.Valid()
    ensures r.counters == st.counters || r.counters == st.counters[k := Wrap(st.counters[k] + 1)]
  {
    if group == [] then
      var next := NewName(st, k);
      Names(next.names.counters, next.names.newNameMap.Put(key, next.name))
    else if group[0] in st.newNameMap.entries then
      Names(st.counters, st.newNameMap.Put(key, st.newNameMap.entries[group[0]]))
    else
      var next := NewName(st, k);
      Names(next.names.counters, PutAll(next.names.newNameMap, group, next.name).Put(key, next.name))
  }

  /** One visit of the `recordNewNames` visitor. */
  function RecordVisit(schema: Schema, interfaceToImplementations: map<string, seq<string>>, builtIns: BuiltIns,
                       st: Names, v: SchemaVisit): (r: Result<Names>)
    requires st.Valid()
    ensures r.Ok? ==> r.value.Valid()
  {
    match v
    case VisitFieldDefinition(owner, fieldName) => RecordFieldVisit(schema, interfaceToImplementations, st, owner, fieldName)
    case VisitFieldArgument(owner, fieldName, argumentName) =>
      RecordArgumentVisit(schema, interfaceToImplementations, st, owner, fieldName, argumentName)
    case _ => Ok(RecordUnconditional(builtIns, st, v))
  }

  /** A field definition: the group of same fields shares one name. */
  function RecordFieldVisit(schema: Schema, interfaceToImplementations: map<string, seq<string>>,
                            st: Names, owner: string, fieldName: string): (r: Result<Names>)
    requires st.Valid()
    ensures r.Ok? ==> r.value.Valid()
    ensures r.Ok? ==> r.value.counters == st.counters || r.value.counters == st.counters[FieldKind := Wrap(st.counters[FieldKind] + 1)]
  {
    var sameFields :- SameFields(schema, interfaceToImplementations, fieldName, owner);
    Ok(NameGroup(st, FieldKind, FieldKeys(sameFields), FieldElement(owner, fieldName)))
  }

  /** A field argument: the matching arguments of the same fields share
      one name. */
  function RecordArgumentVisit(schema: Schema, interfaceToImplementations: map<string, seq<string>>,
                               st: Names, owner: string, fieldName: string, argumentName: string): (r: Result<Names>)
    requires st.Valid()
    ensures r.Ok? ==> r.value.Valid()
    ensures r.Ok? ==> r.value.counters == st.counters || r.value.counters == st.counters[ArgumentKind := Wrap(st.counters[ArgumentKind] + 1)]
  {
    var sameFields :- SameFields(schema, interfaceToImplementations, fieldName, owner);
    var matching := if sameFields == [] then [] else MatchingArguments(argumentName, sameFields);
    Ok(NameGroup(st, ArgumentKind, matching, FieldArgumentElement(owner, fieldName, argumentName)))
  }

  /** Any other visit: the element, unless built in, gets the next name of
      its kind. */
  function RecordUnconditional(builtIns: BuiltIns, st: Names, v: SchemaVisit): (r: Names)
    requires st.Valid()
    ensures r.Valid()
    ensures var u := Unconditional(builtIns, v);
      r.counters == if u.Some? then st.counters[u.value.0 := Wrap(st.counters[u.value.0] + 1)] else st.counters
  {
    match Unconditional(builtIns, v)
    case None => st
    case Some(element) =>
      var next := NewName(st, element.0);
      Names(next.names.counters, next.names.newNameMap.Put(element.1, next.name))
  }

  /** The visits in order, from the initial counters and an empty map. */
  function RecordAll(schema: Schema, interfaceToImplementations: map<string, seq<string>>, builtIns: BuiltIns,
                     visits: seq<SchemaVisit>): (r: Result<Names>)
    ensures r.Ok? ==> r.value.Valid()
  {
    if visits == [] then Ok(InitialNames())
    else
      var before :- RecordAll(schema, interfaceToImplementations, builtIns, visits[..|visits| - 1]);
      RecordVisit(schema, interfaceToImplementations, builtIns, before, visits[|visits| - 1])
  }

  /** A visited field gets the one name its whole group of same fields
      shares: the name the first of them already has, or else the next
      "field<n>", which every field of the group is then given. Nothing else
      is renamed. */
  lemma {:induction false} FieldGroupSharesName(schema: Schema, interfaceToImplementations: map<string, seq<string>>, builtIns: BuiltIns,
                             st: Names, owner: string, fieldName: string)
    requires st.Valid()
    requires RecordVisit(schema, interfaceToImplementations, builtIns, st, VisitFieldDefinition(owner, fieldName)).Ok?
    ensures var same := FieldKeys(SameFields(schema, interfaceToImplementations, fieldName, owner).value);
      var key := FieldElement(owner, fieldName);
      var r := RecordVisit(schema, interfaceToImplementations, builtIns, st, VisitFieldDefinition(owner, fieldName)).value;
      (same != [] && same[0] in st.newNameMap.entries ==>
        r.newNameMap.Get(key) == st.newNameMap.Get(same[0]) && r.counters == st.counters)
      && (same == [] || same[0] !in st.newNameMap.entries ==>
        r.newNameMap.Get(key) == Some(Numbered("field", st.counters[FieldKind]))
        && r.counters == st.counters[FieldKind := Wrap(st.counters[FieldKind] + 1)]
        && forall g :: g in same ==> r.newNameMap.Get(g) == r.newNameMap.Get(key))
      && forall e :: e !in same && e != key ==> r.newNameMap.Get(e) == st.newNameMap.Get(e)
  {
  }

  /** The visits with an unconditional name of the kind. */
  function CountKind(builtIns: BuiltIns, visits: seq<SchemaVisit>, k: Kind): (n: nat)
    ensures n <= |visits|
  {
    if visits == [] then 0
    else
      var last := Unconditional(builtIns, visits[|visits| - 1]);
      CountKind(builtIns, visits[..|visits| - 1], k) + (if last.Some? && last.value.0 == k then 1 else 0)
  }

  /** Apart from fields and arguments, whose counters move only for a
      group's first member, each kind's counter is one more than the
      number of elements of that kind visited so far (built-ins are
      skipped), as long as it has not wrapped. */
  lemma {:induction false} CountersCountVisits(schema: Schema, interfaceToImplementations: map<string, seq<string>>,
                                               builtIns: BuiltIns, visits: seq<SchemaVisit>, k: Kind)
    requires k != FieldKind && k != ArgumentKind && |visits| < INT_MAX
    requires RecordAll(schema, interfaceToImplementations, builtIns, visits).Ok?
    ensures RecordAll(schema, interfaceToImplementations, builtIns, visits).value.counters[k] == 1 + CountKind(builtIns, visits, k)
  {
    if visits != [] {
      var init := visits[..|visits| - 1];
      CountersCountVisits(schema, interfaceToImplementations, builtIns, init, k);
      var before := RecordAll(schema, interfaceToImplementations, builtIns, init).value;
      VisitMovesOwnCounter(schema, interfaceToImplementations, builtIns, before, visits[|visits| - 1], k);
    }
  }

  /** A visit moves the counter of a kind other than field and argument
      only when it names an element of that kind. */
  lemma {:induction false} VisitMovesOwnCounter(schema: Schema, interfaceToImplementations: map<string, seq<string>>, builtIns: BuiltIns,
                             st: Names, v: SchemaVisit, k: Kind)
    requires st.Valid() && k != FieldKind && k != ArgumentKind
    requires RecordVisit(schema, interfaceToImplementations, builtIns, st, v).Ok?
    ensures var u := Unconditional(builtIns, v);
      RecordVisit(schema, interfaceToImplementations, builtIns, st, v).value.counters[k]
        == if u.Some? && u.value.0 == k then Wrap(st.counters[k] + 1) else st.counters[k]
  {
    match v
    case VisitFieldDefinition(owner, fieldName) =>
      FieldVisitKeepsCounter(schema, interfaceToImplementations, st, owner, fieldName, k);
    case VisitFieldArgument(owner, fieldName, argumentName) =>
      ArgumentVisitKeepsCounter(schema, interfaceToImplementations, st, owner, fieldName, argumentName, k);
    case _ =>
      UnconditionalCounter(builtIns, st, v, k);
  }

  lemma {:induction false} FieldVisitKeepsCounter(schema: Schema, interfaceToImplementations: map<string, seq<string>>,
                                                  st: Names, owner: string, fieldName: string, k: Kind)
    requires st.Valid() && k != FieldKind
    requires RecordFieldVisit(schema, interfaceToImplementations, st, owner, fieldName).Ok?
    ensures RecordFieldVisit(schema, interfaceToImplementations, st, owner, fieldName).value.counters[k] == st.counters[k]
  {
    OtherCounterKept(st, RecordFieldVisit(schema, interfaceToImplementations, st, owner, fieldName).value, FieldKind, k);
  }

  lemma {:induction false} ArgumentVisitKeepsCounter(schema: Schema, interfaceToImplementations: map<string, seq<string>>,
                                                     st: Names, owner: string, fieldName: string, argumentName: string, k: Kind)
    requires st.Valid() && k != ArgumentKind
    requires RecordArgumentVisit(schema, interfaceToImplementations, st, owner, fieldName, argumentName).Ok?
    ensures RecordArgumentVisit(schema, interfaceToImplementations, st, owner, fieldName, argumentName).value.counters[k] == st.counters[k]
  {
    OtherCounterKept(st, RecordArgumentVisit(schema, interfaceToImplementations, st, owner, fieldName, argumentName).value, ArgumentKind, k);
  }

  lemma {:induction false} UnconditionalCounter(builtIns: BuiltIns, st: Names, v: SchemaVisit, k: Kind)
    requires st.Valid()
    ensures var u := Unconditional(builtIns, v);
      RecordUnconditional(builtIns, st, v).counters[k]
        == if u.Some? && u.value.0 == k then Wrap(st.counters[k] + 1) else st.counters[k]
  {
  }

  lemma {:induction false} OtherCounterKept(st: Names, r: Names, moved: Kind, k: Kind)
    requires st.Valid() && r.Valid() && k != moved
    requires r.counters == st.counters || r.counters == st.counters[moved := Wrap(st.counters[moved] + 1)]
    ensures r.counters[k] == st.counters[k]
  {
  }

  /** Element kinds are numbered independently from 1 in visit order: the
      n-th object type visited is named "Object<n>", the n-th enum
      "Enum<n>", and so on. */
  lemma {:induction false} UnconditionalNameInVisitOrder(schema: Schema, interfaceToImplementations: map<string, seq<string>>,
                                      builtIns: BuiltIns, visits: seq<SchemaVisit>, j: nat)
    requires j < |visits| < INT_MAX
    requires RecordAll(schema, interfaceToImplementations, builtIns, visits[..j + 1]).Ok?
    requires var u := Unconditional(builtIns, visits[j]); u.Some? && u.value.0 != ArgumentKind
    ensures var u := Unconditional(builtIns, visits[j]).value;
      RecordAll(schema, interfaceToImplementations, builtIns, visits[..j + 1]).value.newNameMap.Get(u.1)
        == Some(Numbered(Prefix(u.0), 1 + CountKind(builtIns, visits[..j], u.0)))
  {
    var prefix := visits[..j + 1];
    assert prefix[..|prefix| - 1] == visits[..j] && prefix[|prefix| - 1] == visits[j];
    var before := RecordAll(schema, interfaceToImplementations, builtIns, visits[..j]).value;
    var u := Unconditional(builtIns, visits[j]).value;
    CountersCountVisits(schema, interfaceToImplementations, builtIns, visits[..j], u.0);
    assert RecordAll(schema, interfaceToImplementations, builtIns, prefix)
      == RecordVisit(schema, interfaceToImplementations, builtIns, before, visits[j])
      == Ok(RecordUnconditional(builtIns, before, visits[j]));
    UnconditionalPutsNextName(builtIns, before, visits[j]);
  }

  /** An element named unconditionally gets the current value of its
      kind's counter. */
  lemma {:induction false} UnconditionalPutsNextName(builtIns: BuiltIns, st: Names, v: SchemaVisit)
    requires st.Valid() && Unconditional(builtIns, v).Some?
    ensures var u := Unconditional(builtIns, v).value;
      RecordUnconditional(builtIns, st, v).newNameMap.Get(u.1) == Some(Numbered(Prefix(u.0), st.counters[u.0]))
  {
  }

  /** The visitor of `recordNewNames` with its counters and `newNameMap`. */
  class NameRecorder {
    var counters: map<Kind, int>
    var newNameMap: LinkedMap<ElementKey, string>
    const schema: Schema
    const interfaceToImplementations: map<string, seq<string>>
    const builtIns: BuiltIns

    function State(): Names
      reads this
    {
      Names(counters, newNameMap)
    }

    predicate Valid()
      reads this
    {
      State().Valid()
    }

    /** The counters, all at 1, and an empty map. */
    constructor (schema: Schema, interfaceToImplementations: map<string, seq<string>>, builtIns: BuiltIns)
      ensures State() == InitialNames() && Valid()
      ensures this.schema == schema && this.interfaceToImplementations == interfaceToImplementations && this.builtIns == builtIns
    {
      var initial := InitialNames();
      counters := initial.counters;
      newNameMap := initial.newNameMap;
      this.schema := schema;
      this.interfaceToImplementations := interfaceToImplementations;
      this.builtIns := builtIns;
    }

    /** `"<Prefix>" + counter.getAndIncrement()`. */
    method NextName(k: Kind) returns (name: string)
      requires Valid()
      modifies this
      ensures Valid() && Fresh(name, State()) == NewName(old(State()), k)
    {
      name := Numbered(Prefix(k), counters[k]);
      counters := counters[k := Wrap(counters[k] + 1)];
    }

    /** The naming of a field or argument and its group of same elements,
        shared by `visitGraphQLFieldDefinition` and `visitGraphQLArgument`. */
    method NameWithGroup(k: Kind, group: seq<ElementKey>, key: ElementKey)
      requires Valid()
      modifies this
      ensures Valid() && State() == NameGroup(old(State()), k, group, key)
    {
      var newName;
      if group == [] {
        newName := NextName(k);
      } else if group[0] in newNameMap.entries {
        newName := newNameMap.entries[group[0]];
      } else {
        newName := NextName(k);
        PutEach(group, newName);
      }
      newNameMap := newNameMap.Put(key, newName);
    }

    /** `for (e : group) newNameMap.put(e, newName)`. */
    method PutEach(group: seq<ElementKey>, newName: string)
      requires Valid()
      modifies this
      ensures Valid() && counters == old(counters) && newNameMap == PutAll(old(newNameMap), group, newName)
    {
      var i := 0;
      while i < |group|
        invariant 0 <= i <= |group|
        invariant counters == old(counters)
        invariant newNameMap.Valid() && newNameMap == PutAll(old(newNameMap), group[..i], newName)
      {
        assert group[..i + 1][..i] == group[..i];
        newNameMap := newNameMap.Put(group[i], newName);
        i := i + 1;
      }
      assert group[..i] == group;
    }

    /** The visitor's callback for one schema element. */
    method Visit(v: SchemaVisit) returns (r: Result<()>)
      requires Valid()
      modifies this
      ensures Valid()
      ensures var expected := RecordVisit(schema, interfaceToImplementations, builtIns, old(State()), v);
        (expected.Ok? ==> r.Ok? && State() == expected.value)
        && (expected.Throws? ==> r == Throws(expected.error) && State() == old(State()))
    {
      match v {
        case VisitFieldDefinition(owner, fieldName) =>
          r := VisitField(owner, fieldName);
        case VisitFieldArgument(owner, fieldName, argumentName) =>
          r := VisitArgument(owner, fieldName, argumentName);
        case _ =>
          VisitUnconditional(v);
          r := Ok(());
      }
    }

    /** A field definition is named together with the fields related to it
        through interfaces. */
    method VisitField(owner: string, fieldName: string) returns (r: Result<()>)
      requires Valid()
      modifies this
      ensures Valid()
      ensures var expected := RecordFieldVisit(schema, interfaceToImplementations, old(State()), owner, fieldName);
        (expected.Ok? ==> r.Ok? && State() == expected.value)
        && (expected.Throws? ==> r == Throws(expected.error) && State() == old(State()))
    {
      var sameFields := GetSameFields(schema, interfaceToImplementations, fieldName, owner);
      if sameFields.Throws? {
        return Throws(sameFields.error);
      }
      NameWithGroup(FieldKind, FieldKeys(sameFields.value), FieldElement(owner, fieldName));
      r := Ok(());
    }

    /** A field argument is named together with the arguments of that name
        on the related fields. */
    method VisitArgument(owner: string, fieldName: string, argumentName: string) returns (r: Result<()>)
      requires Valid()
      modifies this
      ensures Valid()
      ensures var expected := RecordArgumentVisit(schema, interfaceToImplementations, old(State()), owner, fieldName, argumentName);
        (expected.Ok? ==> r.Ok? && State() == expected.value)
        && (expected.Throws? ==> r == Throws(expected.error) && State() == old(State()))
    {
      var sameFields := GetSameFields(schema, interfaceToImplementations, fieldName, owner);
      if sameFields.Throws? {
        return Throws(sameFields.error);
      }
      var matching := [];
      if sameFields.value != [] {
        matching := GetMatchingArgumentDefinitions(argumentName, sameFields.value);
      }
      NameWithGroup(ArgumentKind, matching, FieldArgumentElement(owner, fieldName, argumentName));
      r := Ok(());
    }

    /** Any other element gets the next name of its kind, unless it is
        built in. */
    method VisitUnconditional(v: SchemaVisit)
      requires Valid()
      modifies this
      ensures Valid() && State() == RecordUnconditional(builtIns, old(State()), v)
    {
      var element := Unconditional(builtIns, v);
      if element.Some? {
        var newName := NextName(element.value.0);
        newNameMap := newNameMap.Put(element.value.1, newName);
      }
    }
  }

  /** `recordNewNames`: the visitor applied to the elements in the order
      `SchemaTransformer` visits them. */
  method RecordNewNames(schema: Schema, interfaceToImplementations: map<string, seq<string>>, builtIns: BuiltIns,
                        visits: seq<SchemaVisit>) returns (r: Result<LinkedMap<ElementKey, string>>)
    ensures var expected := RecordAll(schema, interfaceToImplementations, builtIns, visits);
      (expected.Ok? ==> r == Ok(expected.value.newNameMap)) && (expected.Throws? ==> r == Throws(expected.error))
  {
    var recorder := new NameRecorder(schema, interfaceToImplementations, builtIns);
    var i := 0;
    while i < |visits|
      invariant 0 <= i <= |visits|
      invariant recorder.Valid() && recorder.schema == schema && recorder.builtIns == builtIns
      invariant recorder.interfaceToImplementations == interfaceToImplementations
      invariant RecordAll(schema, interfaceToImplementations, builtIns, visits[..i]) == Ok(recorder.State())
    {
      ghost var before := recorder.State();
      var visited := recorder.Visit(visits[i]);
      RecordAllAfterVisit(schema, interfaceToImplementations, builtIns, visits, i, before, recorder.State(), visited);
      if visited.Throws? {
        return Throws(visited.error);
      }
      i := i + 1;
    }
    assert visits[..i] == visits;
    return Ok(recorder.newNameMap);
  }

  /** One more visit continues the run from the state its prefix left. */
  lemma {:induction false} RecordAllStep(schema: Schema, interfaceToImplementations: map<string, seq<string>>,
                                         builtIns: BuiltIns, visits: seq<SchemaVisit>, i: nat, st: Names)
    requires i < |visits| && RecordAll(schema, interfaceToImplementations, builtIns, visits[..i]) == Ok(st)
    ensures RecordAll(schema, interfaceToImplementations, builtIns, visits[..i + 1])
      == RecordVisit(schema, interfaceToImplementations, builtIns, st, visits[i])
  {
    var prefix := visits[..i + 1];
    assert prefix[..|prefix| - 1] == visits[..i];
    assert prefix[|prefix| - 1] == visits[i];
  }

  /** One turn of the loop in `recordNewNames`: a visit that left `after`
      and `r` from the state the prefix left either ends the whole run with
      its exception or extends the run by one visit. */
  lemma {:induction false} RecordAllAfterVisit(schema: Schema, interfaceToImplementations: map<string, seq<string>>, builtIns: BuiltIns,
                                               visits: seq<SchemaVisit>, i: nat, before: Names, after: Names, r: Result<()>)
    requires i < |visits| && RecordAll(schema, interfaceToImplementations, builtIns, visits[..i]) == Ok(before)
    requires var expected := RecordVisit(schema, interfaceToImplementations, builtIns, before, visits[i]);
      (expected.Ok? ==> r.Ok? && after == expected.value)
      && (expected.Throws? ==> r == Throws(expected.error) && after == before)
    ensures r.Throws? ==> RecordAll(schema, interfaceToImplementations, builtIns, visits) == Throws(r.error)
    ensures r.Ok? ==> RecordAll(schema, interfaceToImplementations, builtIns, visits[..i + 1]) == Ok(after)
  {
    RecordAllStep(schema, interfaceToImplementations, builtIns, visits, i, before);
    if r.Throws? {
      RecordAllStopsAtThrow(schema, interfaceToImplementations, builtIns, visits, i + 1);
    }
  }

  /** An exception in one visit is the outcome of the whole run. */
  lemma {:induction false} RecordAllStopsAtThrow(schema: Schema, interfaceToImplementations: map<string, seq<string>>,
                                                 builtIns: BuiltIns, visits: seq<SchemaVisit>, i: nat)
    requires i <= |visits| && RecordAll(schema, interfaceToImplementations, builtIns, visits[..i]).Throws?
    ensures RecordAll(schema, interfaceToImplementations, builtIns, visits)
      == RecordAll(schema, interfaceToImplementations, builtIns, visits[..i])
    decreases |visits|
  {
    if i < |visits| {
      assert visits[..|visits| - 1][..i] == visits[..i];
      RecordAllStopsAtThrow(schema, interfaceToImplementations, builtIns, visits[..|visits| - 1], i);
    } else {
      assert visits[..i] == visits;
    }
  }

  // ---------------------------------------------------------------------
  // rewriteQuery.

  const NotNullMessage := "Object required to be not null"
  const TypeNameField := "__typename"

  /** Stepping a wrapped counter equals wrapping the stepped value. */
  lemma {:induction false} WrapStep(x: int)
    ensures Wrap(Wrap(x) + 1) == Wrap(x + 1)
  {
    var a, b := Wrap(Wrap(x) + 1), Wrap(x + 1);
    assert (a - b) % TWO_32 == 0;
  }

  /** The map gives its i-th key the name `prefix` + (i + 1), in `int`,
      and the counter stands at the next number. */
  predicate NumberedInOrder<K(!new)>(m: LinkedMap<K, string>, counter: int, prefix: string) {
    m.Valid() && counter == Wrap(|m.keys| + 1)
    && forall i :: 0 <= i < |m.keys| ==> m.entries[m.keys[i]] == Numbered(prefix, Wrap(i + 1))
  }

  /** A new key takes the counter's name and the counter steps on. */
  lemma {:induction false} NumberedInOrderPut<K(!new)>(m: LinkedMap<K, string>, counter: int, prefix: string, k: K)
    requires NumberedInOrder(m, counter, prefix) && k !in m.entries
    ensures var m' := m.Put(k, Numbered(prefix, counter));
      NumberedInOrder(m', Wrap(counter + 1), prefix)
      && m'.keys == m.keys + [k] && m'.entries == m.entries[k := Numbered(prefix, counter)]
  {
    var v := Numbered(prefix, counter);
    var m' := m.Put(k, v);
    assert m' == LinkedMap(m.keys + [k], m.entries[k := v]);
    WrapStep(|m.keys| + 1);
    forall i | 0 <= i < |m'.keys|
      ensures m'.entries[m'.keys[i]] == Numbered(prefix, Wrap(i + 1))
    {
      if i < |m.keys| {
        assert m'.keys[i] == m.keys[i] && m.keys[i] in m.entries;
      } else {
        assert m'.keys[i] == k;
      }
    }
  }

  /** While fewer than 2^31 - 1 keys are numbered, different keys have
      different names. */
  lemma {:induction false} NumberedInOrderDistinct<K(!new)>(m: LinkedMap<K, string>, counter: int, prefix: string, k1: K, k2: K)
    requires NumberedInOrder(m, counter, prefix) && NoDigits(prefix) && |m.keys| < INT_MAX
    requires k1 in m.entries && k2 in m.entries && k1 != k2
    ensures m.entries[k1] != m.entries[k2]
  {
    var i :| 0 <= i < |m.keys| && m.keys[i] == k1;
    var j :| 0 <= j < |m.keys| && m.keys[j] == k2;
    NumberedInjective(prefix, i + 1, prefix, j + 1);
    var name1, name2 := Numbered(prefix, i + 1), Numbered(prefix, j + 1);
    assert name1 != name2;
    assert m.entries[k1] == name1 && m.entries[k2] == name2;
  }

  /** The state `rewriteQuery`'s visitors share: the variable and fragment
      names given so far with their counters, and the alias counter. */
  class QueryRenaming {
    var variableCounter: int
    var variableNames: LinkedMap<string, string>
    var fragmentCounter: int
    var fragmentNames: LinkedMap<FragmentDefinition, string>
    var aliasCounter: int

    predicate Valid()
      reads this
    {
      NumberedInOrder(variableNames, variableCounter, "var") && NumberedInOrder(fragmentNames, fragmentCounter, "Fragment")
    }

    constructor ()
      ensures Valid() && variableNames.keys == [] && fragmentNames.keys == [] && aliasCounter == 1
    {
      variableCounter := 1;
      variableNames := Empty();
      fragmentCounter := 1;
      fragmentNames := Empty();
      aliasCounter := 1;
    }

    /** `visitArgumentValue`: a variable gets "var<n>" the first time it is
        referenced and keeps it afterwards. */
    method VisitArgumentValue(value: Value)
      requires Valid()
      modifies this
      ensures Valid() && fragmentNames == old(fragmentNames) && aliasCounter == old(aliasCounter)
      ensures value.VariableReference? && value.variableName !in old(variableNames.entries) ==>
        variableNames.keys == old(variableNames.keys) + [value.variableName]
        && variableNames.entries == old(variableNames.entries)[value.variableName := Numbered("var", old(variableCounter))]
      ensures !(value.VariableReference? && value.variableName !in old(variableNames.entries)) ==>
        variableNames == old(variableNames) && variableCounter == old(variableCounter)
    {
      if value.VariableReference? {
        var name := value.variableName;
        if name !in variableNames.entries {
          var newName := Numbered("var", variableCounter);
          NumberedInOrderPut(variableNames, variableCounter, "var", name);
          variableNames := variableNames.Put(name, newName);
          variableCounter := Wrap(variableCounter + 1);
        }
      }
    }

    /** `visitFragmentSpread`: a fragment definition gets "Fragment<n>" the
        first time one of its spreads is visited; every spread of it is
        renamed to that name, which is returned. */
    method VisitFragmentSpread(fragmentDefinition: FragmentDefinition) returns (newName: string)
      requires Valid()
      modifies this
      ensures Valid() && variableNames == old(variableNames) && aliasCounter == old(aliasCounter)
      ensures fragmentDefinition in old(fragmentNames.entries) ==>
        newName == old(fragmentNames.entries[fragmentDefinition]) && fragmentNames == old(fragmentNames)
        && fragmentCounter == old(fragmentCounter)
      ensures fragmentDefinition !in old(fragmentNames.entries) ==>
        newName == Numbered("Fragment", old(fragmentCounter))
        && fragmentNames.keys == old(fragmentNames.keys) + [fragmentDefinition]
        && fragmentNames.entries == old(fragmentNames.entries)[fragmentDefinition := newName]
      ensures fragmentNames.Get(fragmentDefinition) == Some(newName)
    {
      if fragmentDefinition in fragmentNames.entries {
        return fragmentNames.entries[fragmentDefinition];
      }
      newName := Numbered("Fragment", fragmentCounter);
      NumberedInOrderPut(fragmentNames, fragmentCounter, "Fragment", fragmentDefinition);
      fragmentNames := fragmentNames.Put(fragmentDefinition, newName);
      fragmentCounter := Wrap(fragmentCounter + 1);
    }

    /** `visitField` of the transform: an alias becomes "alias<n>", the
        name becomes the new name of the field's definition, except that
        `__typename` keeps its name. */
    method RenameField(field: Field, newFieldName: Option<string>) returns (r: Result<Field>)
      modifies this
      ensures variableNames == old(variableNames) && fragmentNames == old(fragmentNames)
      ensures variableCounter == old(variableCounter) && fragmentCounter == old(fragmentCounter)
      ensures RenamedField(field, newFieldName, old(aliasCounter)) == Renamed(r, aliasCounter)
    {
      var newAlias: Option<string> := None;
      if field.alias.Some? {
        newAlias := Some(Numbered("alias", aliasCounter));
        aliasCounter := Wrap(aliasCounter + 1);
      }
      var newName;
      if field.name == TypeNameField {
        newName := TypeNameField;
      } else {
        if newFieldName.None? {
          return Throws(AssertException(NotNullMessage));
        }
        newName := newFieldName.value;
      }
      return Ok(field.(name := newName, alias := newAlias));
    }
  }

  /** The renamed field and the alias counter after it. */
  datatype RenamedFieldResult = Renamed(field: Result<Field>, aliasCounter: int)

  function RenamedField(field: Field, newFieldName: Option<string>, aliasCounter: int): (r: RenamedFieldResult)
    ensures r.aliasCounter == if field.alias.Some? then Wrap(aliasCounter + 1) else aliasCounter
    ensures field.name == TypeNameField ==> r.field.Ok? && r.field.value.name == TypeNameField
    ensures field.name != TypeNameField ==> (r.field.Ok? <==> newFieldName.Some?)
    ensures field.name != TypeNameField && newFieldName.Some? ==> r.field.value.name == newFieldName.value
    ensures field.name != TypeNameField && newFieldName.None? ==> r.field == Throws(AssertException(NotNullMessage))
    ensures r.field.Ok? ==> r.field.value.alias == (if field.alias.Some? then Some(Numbered("alias", aliasCounter)) else None)
    ensures r.field.Ok? ==>
      (r.field.value.arguments == field.arguments && r.field.value.directives == field.directives
       && r.field.value.selectionSet == field.selectionSet)
  {
    var newAlias := if field.alias.Some? then Some(Numbered("alias", aliasCounter)) else None;
    var counter := if field.alias.Some? then Wrap(aliasCounter + 1) else aliasCounter;
    if field.name == TypeNameField then Renamed(Ok(field.(name := TypeNameField, alias := newAlias)), counter)
    else if newFieldName.None? then Renamed(Throws(AssertException(NotNullMessage)), counter)
    else Renamed(Ok(field.(name := newFieldName.value, alias := newAlias)), counter)
  }

  /** `visitOperationDefinition` of the transform: a named operation is
      renamed "operation"; an anonymous one stays anonymous. */
  function RenamedOperation(operation: OperationDefinition): (r: OperationDefinition)
    ensures r.name.Some? <==> operation.name.Some?
    ensures r.name.Some? ==> r.name.value == "operation"
    ensures r.operation == operation.operation && r.directives == operation.directives && r.selectionSet == operation.selectionSet
  {
    if operation.name.Some? then operation.(name := Some("operation")) else operation
  }

  // ---------------------------------------------------------------------
  // assertUniqueOperation.

  const UniqueOperationMessage := "Query must have exactly one operation"

  function OperationCount(definitions: seq<Definition>): nat {
    if definitions == [] then 0
    else OperationCount(definitions[..|definitions| - 1]) + (if definitions[|definitions| - 1].OperationDef? then 1 else 0)
  }

  /** The loop of `assertUniqueOperation` as written, from a given
      `operationName`: it throws at an operation only when the operation
      before it had a name. */
  function UniqueOperationAsWrittenFrom(definitions: seq<Definition>, operationName: Option<string>): Result<()> {
    if definitions == [] then Ok(())
    else if definitions[0].OperationDef? then
      if operationName.Some? then Throws(AssertException(UniqueOperationMessage))
      else UniqueOperationAsWrittenFrom(definitions[1..], definitions[0].operationDefinition.name)
    else UniqueOperationAsWrittenFrom(definitions[1..], operationName)
  }

  /** `assertUniqueOperation` as written. */
  method AssertUniqueOperationAsWritten(document: Document) returns (r: Result<()>)
    ensures r == UniqueOperationAsWrittenFrom(document.definitions, None)
  {
    var definitions := document.definitions;
    var operationName: Option<string> := None;
    var i := 0;
    while i < |definitions|
      invariant 0 <= i <= |definitions|
      invariant UniqueOperationAsWrittenFrom(definitions[i..], operationName) == UniqueOperationAsWrittenFrom(definitions, None)
    {
      assert definitions[i..][1..] == definitions[i + 1..];
      if definitions[i].OperationDef? {
        if operationName.Some? {
          return Throws(AssertException(UniqueOperationMessage));
        }
        operationName := definitions[i].operationDefinition.name;
      }
      i := i + 1;
    }
    return Ok(());
  }

  /** A named operation followed by any other operation is caught. */
  lemma {:induction false} NamedThenOperationThrows(definitions: seq<Definition>, name: string, operation: OperationDefinition,
                                 kind: OperationKind, directives: seq<Directive>, selectionSet: SelectionSet)
    ensures UniqueOperationAsWrittenFrom([OperationDef(OperationDefinition(Some(name), kind, directives, selectionSet)),
                                          OperationDef(operation)] + definitions, None)
      == Throws(AssertException(UniqueOperationMessage))
  {
    var d := [OperationDef(OperationDefinition(Some(name), kind, directives, selectionSet)), OperationDef(operation)] + definitions;
    assert d[1..][0] == OperationDef(operation);
  }

  /** Two operations whose first is anonymous pass the check as written,
      though the document does not have exactly one operation. */
  lemma {:induction false} AnonymousFirstOperationPasses(operation: OperationDefinition, kind: OperationKind, selectionSet: SelectionSet)
    ensures var d := [OperationDef(OperationDefinition(None, kind, [], selectionSet)), OperationDef(operation)];
      OperationCount(d) == 2 && UniqueOperationAsWrittenFrom(d, None) == Ok(())
  {
    var d := [OperationDef(OperationDefinition(None, kind, [], selectionSet)), OperationDef(operation)];
    assert d[..|d| - 1] == [d[0]];
    assert [d[0]][..0] == [];
    assert OperationCount([d[0]]) == 1;
    assert d[1..] == [OperationDef(operation)];
    assert d[1..][1..] == [];
    assert UniqueOperationAsWrittenFrom(d[1..], None) == UniqueOperationAsWrittenFrom([], operation.name);
  }

  /** `assertUniqueOperation` as intended: it throws exactly when the
      document has more than one operation. */
  method AssertUniqueOperation(document: Document) returns (r: Result<()>)
    ensures r.Throws? <==> OperationCount(document.definitions) > 1
    ensures r.Throws? ==> r.error == AssertException(UniqueOperationMessage)
  {
    var definitions := document.definitions;
    var seenOperation := false;
    var i := 0;
    while i < |definitions|
      invariant 0 <= i <= |definitions|
      invariant OperationCount(definitions[..i]) <= 1
      invariant seenOperation <==> OperationCount(definitions[..i]) == 1
    {
      assert definitions[..i + 1][..i] == definitions[..i];
      if definitions[i].OperationDef? {
        if seenOperation {
          OperationCountGrows(definitions, i + 1);
          return Throws(AssertException(UniqueOperationMessage));
        }
        seenOperation := true;
      }
      i := i + 1;
    }
    assert definitions[..i] == definitions;
    return Ok(());
  }

  /** A prefix has no more operations than the whole. */
  lemma {:induction false} OperationCountGrows(definitions: seq<Definition>, i: nat)
    requires i <= |definitions|
    ensures OperationCount(definitions[..i]) <= OperationCount(definitions)
    decreases |definitions|
  {
    if i < |definitions| {
      assert definitions[..|definitions| - 1][..i] == definitions[..i];
      OperationCountGrows(definitions[..|definitions| - 1], i);
    } else {
      assert definitions[..i] == definitions;
    }
  }
}
