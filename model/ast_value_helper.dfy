/** `AstValueHelper.astFromValue`: turning a runtime value into a query
    literal of a given input type, through non-null and list wrappers and
    input objects, down to the scalar and enum leaves. */
module AstValueHelper {
  import opened Common
  import opened JavaLang
  import opened Ast
  import opened RuntimeValues
  import opened SchemaTypes
  import PropertyDataFetcher
  import Scalars

  /** The collaborators the conversion calls: the schema that names resolve
      in, each scalar's or enum's `serialize`, and `toString` of a value
      that cannot be converted (used only in the exception message). */
  datatype Conversions = Conversions(
    schema: Schema,
    serialize: (string, Object) -> Object,
    show: Object -> string)

  // ---------------------------------------------------------------------
  // handleNumber

  /** The first index of `a` or `b` in `s`, or `|s|` when neither occurs. */
  function IndexOfEither(s: string, a: char, b: char): (k: nat)
    ensures k <= |s|
    ensures k < |s| ==> s[k] == a || s[k] == b
    ensures forall j :: 0 <= j < k ==> s[j] != a && s[j] != b
  {
    if s == [] then 0
    else if s[0] == a || s[0] == b then 0
    else 1 + IndexOfEither(s[1..], a, b)
  }

  /** `new BigDecimal(text)`: an optional sign, digits with at most one
      decimal point and at least one digit, then an optional exponent; the
      unscaled value takes every digit and the scale is the number of
      fraction digits minus the exponent. Anything else throws. */
  function ParseDecimal(text: string): (r: Result<Decimal>)
    ensures r.Throws? ==> r.error == NumberFormatException
  {
    var negative := |text| > 0 && text[0] == '-';
    var unsigned := if |text| > 0 && (text[0] == '-' || text[0] == '+') then text[1..] else text;
    var e := IndexOfEither(unsigned, 'e', 'E');
    var exponent := if e == |unsigned| then Ok(0) else ParseInt(unsigned[e + 1..]);
    if exponent.Throws? then Throws(NumberFormatException)
    else
      var mantissa := unsigned[..e];
      var point := IndexOfEither(mantissa, '.', '.');
      var integerPart := mantissa[..point];
      var fractionPart := if point == |mantissa| then "" else mantissa[point + 1..];
      if !AllDigits(integerPart) || !AllDigits(fractionPart) || |integerPart| + |fractionPart| == 0 then
        Throws(NumberFormatException)
      else
        assert AllDigits(integerPart + fractionPart) by {
          var all := integerPart + fractionPart;
          forall k | 0 <= k < |all| ensures IsDigit(all[k]) {
            if k >= |integerPart| { assert all[k] == fractionPart[k - |integerPart|]; }
          }
        }
        var magnitude: int := DigitsValue(integerPart + fractionPart);
        var scale := |fractionPart| - exponent.value;
        if !IsInt(scale) then Throws(NumberFormatException)
        else Ok(Decimal(if negative then -magnitude else magnitude, scale))
  }

  /** `handleNumber`: text matching `^[0-9]+$` becomes an IntValue and any
      other text a FloatValue, so a leading minus sign always gives a
      FloatValue. */
  function HandleNumber(text: string): (r: Result<Value>)
    ensures r.Ok? ==> r.value.IntValue? || r.value.FloatValue?
    ensures r.Ok? && r.value.IntValue? <==> |text| > 0 && AllDigits(text)
  {
    if |text| > 0 && AllDigits(text) then Ok(IntValue(DigitsValue(text)))
    else
      var d :- ParseDecimal(text);
      Ok(FloatValue(d))
  }

  lemma {:induction false} DigitsHaveNoMarks(s: string, a: char, b: char)
    requires AllDigits(s) && !IsDigit(a) && !IsDigit(b)
    ensures IndexOfEither(s, a, b) == |s|
  {
    if s != [] {
      assert IsDigit(s[0]);
      assert AllDigits(s[1..]) by {
        forall j | 0 <= j < |s[1..]| ensures IsDigit(s[1..][j]) {
          assert s[1..][j] == s[j + 1];
        }
      }
      DigitsHaveNoMarks(s[1..], a, b);
    }
  }

  /** A non-negative `int` printed by `toString` becomes the IntValue of
      that number. */
  lemma {:induction false} NonNegativeIntBecomesInt(i: int)
    requires 0 <= i
    ensures HandleNumber(IntToString(i)) == Ok(IntValue(i))
  {
    DigitsRoundTrip(i);
  }

  /** A minus sign followed by decimal digits is read as that negative
      number with scale zero. */
  lemma {:induction false} NegativeDigitsParse(digits: string)
    requires |digits| > 0 && AllDigits(digits)
    ensures ParseDecimal("-" + digits) == Ok(Decimal(-(DigitsValue(digits) as int), 0))
  {
    var text := "-" + digits;
    assert text[0] == '-' && text[1..] == digits;
    DigitsHaveNoMarks(digits, 'e', 'E');
    DigitsHaveNoMarks(digits, '.', '.');
    assert digits[..|digits|] == digits;
    assert digits + "" == digits;
  }

  /** A negative `int` printed by `toString` becomes a FloatValue of the
      same number with scale zero, never an IntValue. */
  lemma {:induction false} NegativeIntBecomesFloat(i: int)
    requires i < 0
    ensures HandleNumber(IntToString(i)) == Ok(FloatValue(Decimal(i, 0)))
  {
    var digits := NatToDigits(-i);
    assert IntToString(i) == "-" + digits;
    assert !IsDigit(("-" + digits)[0]);
    NegativeDigitsParse(digits);
    DigitsRoundTrip(-i);
  }

  // ---------------------------------------------------------------------
  // Scalars and enums

  /** `getClass()` of a named type that is not an input type, as it
      appears in the exception message. */
  function ClassName(t: NamedType): string
  {
    match t
    case ObjectType(_, _, _) => "class graphql.schema.GraphQLObjectType"
    case InterfaceType(_, _, _) => "class graphql.schema.GraphQLInterfaceType"
    case UnionType(_, _) => "class graphql.schema.GraphQLUnionType"
    case ScalarType(_) => "class graphql.schema.GraphQLScalarType"
    case EnumType(_, _) => "class graphql.schema.GraphQLEnumType"
    case InputObjectType(_, _) => "class graphql.schema.GraphQLInputObjectType"
  }

  /** `isNullish`: null, or a Number whose double value is NaN. */
  predicate IsNullish(serialized: Object)
  {
    serialized == Null || serialized == JNumber("NaN")
  }

  /** `toString` of a Number. */
  function NumberText(serialized: Object): string
    requires serialized.IsNumber()
  {
    if serialized.JInteger? then IntToString(serialized.intValue) else serialized.numberText
  }

  /** The literal for a serialized scalar or enum value. */
  function SerializedAst(t: NamedType, serialized: Object, show: Object -> string): (r: Result<Option<Value>>)
    requires t.ScalarType? || t.EnumType?
    ensures IsNullish(serialized) ==> r == Ok(None)
    ensures serialized.JBoolean? ==> r == Ok(Some(BooleanValue(serialized.boolValue)))
    ensures serialized.JString? && t.EnumType? ==> r == Ok(Some(EnumValue(serialized.stringValue)))
    ensures serialized.JString? && t == ScalarType("ID") && |serialized.stringValue| > 0 && AllDigits(serialized.stringValue) ==>
      r == Ok(Some(IntValue(DigitsValue(serialized.stringValue))))
    ensures serialized.JString? && t.ScalarType? && t.name != "ID" ==> r == Ok(Some(StringValue(serialized.stringValue)))
    ensures !IsNullish(serialized) && !serialized.JBoolean? && !serialized.IsNumber() && !serialized.JString? ==>
      r == Throws(AssertException("'Cannot convert value to AST: " + show(serialized)))
  {
    if IsNullish(serialized) then Ok(None)
    else if serialized.JBoolean? then Ok(Some(BooleanValue(serialized.boolValue)))
    else if serialized.IsNumber() then
      var node :- HandleNumber(NumberText(serialized));
      Ok(Some(node))
    else if serialized.JString? then
      var text := serialized.stringValue;
      if t.EnumType? then Ok(Some(EnumValue(text)))
      else if t == ScalarType("ID") && |text| > 0 && AllDigits(text) then Ok(Some(IntValue(DigitsValue(text))))
      else Ok(Some(StringValue(text)))
    else Throws(AssertException("'Cannot convert value to AST: " + show(serialized)))
  }

  // ---------------------------------------------------------------------
  // astFromValue as a specification

  /** `Value<?>` returned by `astFromValue`: null is None. */
  function ValueAst(ctx: Conversions, value: Object, inputType: TypeRef): (r: Result<Option<Value>>)
    ensures value == Null ==> r == Ok(None)
    decreases value, inputType, 1, 0
  {
    if value == Null then Ok(None)
    else match inputType
      case NonNullOf(wrapped) => ValueAst(ctx, value, wrapped)
      case ListOf(itemType) =>
        if value.JList? then
          var nodes :- ItemsAst(ctx, value, itemType, 0);
          Ok(Some(ArrayValue(nodes)))
        else ValueAst(ctx, value, itemType)
      case Named(name) =>
        var named := ctx.schema.GetType(name);
        if named.None? then Throws(NullPointerException)
        else if named.value.InputObjectType? then
          var fields :- FieldsAst(ctx, value, inputType, named.value.inputFields, 0);
          Ok(Some(ObjectValue(fields)))
        else if named.value.ScalarType? || named.value.EnumType? then
          SerializedAst(named.value, ctx.serialize(name, value), ctx.show)
        else Throws(AssertException("Must provide Input Type, cannot use: " + ClassName(named.value)))
  }

  /** The literals of the list's items from index `i` on, in order, leaving
      out the items that convert to null; the first failing item's exception
      is thrown. */
  function ItemsAst(ctx: Conversions, list: Object, itemType: TypeRef, i: nat): Result<seq<Value>>
    requires list.JList? && i <= |list.items|
    decreases list, itemType, 0, |list.items| - i
  {
    if i == |list.items| then Ok([])
    else
      var node :- ValueAst(ctx, list.items[i], itemType);
      var rest :- ItemsAst(ctx, list, itemType, i + 1);
      Ok((if node.Some? then [node.value] else []) + rest)
  }

  /** The object fields of the input object's fields from index `i` on, in
      the inputType's field order, leaving out the fields that convert to null. */
  function FieldsAst(ctx: Conversions, value: Object, inputType: TypeRef, fields: seq<InputFieldDefinition>, i: nat): Result<seq<ObjectField>>
    requires value != Null && i <= |fields|
    decreases value, inputType, 0, |fields| - i
  {
    if i == |fields| then Ok([])
    else
      var node :- FieldAst(ctx, value, inputType, fields[i]);
      var rest :- FieldsAst(ctx, value, inputType, fields, i + 1);
      Ok((if node.Some? then [ObjectField(fields[i].name, node.value)] else []) + rest)
  }

  /** One input field: its property read from the value, then converted. */
  function FieldAst(ctx: Conversions, value: Object, inputType: TypeRef, field: InputFieldDefinition): Result<Option<Value>>
    requires value != Null
    decreases value, inputType, 0, 0
  {
    var fieldValue :- PropertyDataFetcher.Get(field.name, value, field.fieldType);
    if fieldValue == Null then Ok(None)
    else
      PropertyDataFetcher.GetReturnsPart(field.name, value, field.fieldType);
      ValueAst(ctx, fieldValue, field.fieldType)
  }

  // ---------------------------------------------------------------------
  // The conversion, as the source computes it

  function Prepended<T>(done: seq<T>, rest: Result<seq<T>>): Result<seq<T>>
  {
    if rest.Ok? then Ok(done + rest.value) else rest
  }

  lemma {:induction false} PrependedNothing<T>(rest: Result<seq<T>>)
    ensures Prepended([], rest) == rest
  {
    if rest.Ok? {
      assert [] + rest.value == rest.value;
    }
  }

  /** `astFromValue`. */
  method AstFromValue(ctx: Conversions, value: Object, inputType: TypeRef) returns (r: Result<Option<Value>>)
    ensures r == ValueAst(ctx, value, inputType)
    decreases value, inputType, 1
  {
    if value == Null {
      return Ok(None);
    }
    match inputType {
      case NonNullOf(wrapped) =>
        r := AstFromValue(ctx, value, wrapped);
      case ListOf(itemType) =>
        r := HandleList(ctx, value, itemType);
      case Named(name) =>
        var named := ctx.schema.GetType(name);
        if named.None? {
          return Throws(NullPointerException);
        }
        if named.value.InputObjectType? {
          r := HandleInputObject(ctx, value, inputType, named.value.inputFields);
        } else if named.value.ScalarType? || named.value.EnumType? {
          r := SerializedAst(named.value, ctx.serialize(name, value), ctx.show);
        } else {
          r := Throws(AssertException("Must provide Input Type, cannot use: " + ClassName(named.value)));
        }
    }
  }

  /** `handleList`: the items of a list one by one, or a single value
      converted with the item inputType. */
  method HandleList(ctx: Conversions, value: Object, itemType: TypeRef) returns (r: Result<Option<Value>>)
    requires value != Null
    ensures r == ValueAst(ctx, value, ListOf(itemType))
    decreases value, ListOf(itemType), 0
  {
    if !value.JList? {
      r := AstFromValue(ctx, value, itemType);
      return;
    }
    var nodes: seq<Value> := [];
    var i := 0;
    PrependedNothing(ItemsAst(ctx, value, itemType, 0));
    while i < |value.items|
      invariant 0 <= i <= |value.items|
      invariant ItemsAst(ctx, value, itemType, 0) == Prepended(nodes, ItemsAst(ctx, value, itemType, i))
    {
      var node := AstFromValue(ctx, value.items[i], itemType);
      if node.Throws? {
        return Throws(node.error);
      }
      ItemStep(ctx, value, itemType, i, nodes);
      nodes := nodes + (if node.value.Some? then [node.value.value] else []);
      i := i + 1;
    }
    assert nodes + [] == nodes;
    return Ok(Some(ArrayValue(nodes)));
  }

  lemma {:induction false} ItemStep(ctx: Conversions, list: Object, itemType: TypeRef, i: nat, done: seq<Value>)
    requires list.JList? && i < |list.items|
    requires ValueAst(ctx, list.items[i], itemType).Ok?
    ensures var node := ValueAst(ctx, list.items[i], itemType).value;
      Prepended(done, ItemsAst(ctx, list, itemType, i))
        == Prepended(done + (if node.Some? then [node.value] else []), ItemsAst(ctx, list, itemType, i + 1))
  {
    var node := ValueAst(ctx, list.items[i], itemType).value;
    var rest := ItemsAst(ctx, list, itemType, i + 1);
    if rest.Ok? {
      assert done + ((if node.Some? then [node.value] else []) + rest.value)
        == (done + (if node.Some? then [node.value] else [])) + rest.value;
    }
  }

  /** `handleInputObject`: each field of the inputType in order, read from the
      value and converted, keeping the fields that are not null. */
  method HandleInputObject(ctx: Conversions, value: Object, inputType: TypeRef, fields: seq<InputFieldDefinition>) returns (r: Result<Option<Value>>)
    requires value != Null
    ensures FieldsAst(ctx, value, inputType, fields, 0).Ok? ==> r == Ok(Some(ObjectValue(FieldsAst(ctx, value, inputType, fields, 0).value)))
    ensures FieldsAst(ctx, value, inputType, fields, 0).Throws? ==> r == Throws(FieldsAst(ctx, value, inputType, fields, 0).error)
    decreases value, inputType, 0
  {
    var fieldNodes: seq<ObjectField> := [];
    var i := 0;
    PrependedNothing(FieldsAst(ctx, value, inputType, fields, 0));
    while i < |fields|
      invariant 0 <= i <= |fields|
      invariant FieldsAst(ctx, value, inputType, fields, 0) == Prepended(fieldNodes, FieldsAst(ctx, value, inputType, fields, i))
    {
      var field := fields[i];
      var fieldValue := PropertyDataFetcher.Get(field.name, value, field.fieldType);
      if fieldValue.Throws? {
        return Throws(fieldValue.error);
      }
      var node: Result<Option<Value>> := Ok(None);
      if fieldValue.value != Null {
        PropertyDataFetcher.GetReturnsPart(field.name, value, field.fieldType);
        node := AstFromValue(ctx, fieldValue.value, field.fieldType);
      }
      assert node == FieldAst(ctx, value, inputType, field);
      if node.Throws? {
        return Throws(node.error);
      }
      FieldStep(ctx, value, inputType, fields, i, fieldNodes);
      fieldNodes := fieldNodes + (if node.value.Some? then [ObjectField(field.name, node.value.value)] else []);
      i := i + 1;
    }
    assert fieldNodes + [] == fieldNodes;
    return Ok(Some(ObjectValue(fieldNodes)));
  }

  lemma {:induction false} FieldStep(ctx: Conversions, value: Object, inputType: TypeRef, fields: seq<InputFieldDefinition>, i: nat, done: seq<ObjectField>)
    requires value != Null && i < |fields|
    requires FieldAst(ctx, value, inputType, fields[i]).Ok?
    ensures var node := FieldAst(ctx, value, inputType, fields[i]).value;
      Prepended(done, FieldsAst(ctx, value, inputType, fields, i))
        == Prepended(done + (if node.Some? then [ObjectField(fields[i].name, node.value)] else []), FieldsAst(ctx, value, inputType, fields, i + 1))
  {
    var node := FieldAst(ctx, value, inputType, fields[i]).value;
    var here: seq<ObjectField> := if node.Some? then [ObjectField(fields[i].name, node.value)] else [];
    var rest := FieldsAst(ctx, value, inputType, fields, i + 1);
    if rest.Ok? {
      assert done + (here + rest.value) == (done + here) + rest.value;
    }
  }

  // ---------------------------------------------------------------------
  // Properties

  /** A non-null wrapper does not change the literal. */
  lemma {:induction false} NonNullIsTransparent(ctx: Conversions, value: Object, inputType: TypeRef)
    ensures ValueAst(ctx, value, NonNullOf(inputType)) == ValueAst(ctx, value, inputType)
  {
  }

  /** When every item converts to a literal, the list literal holds each
      item's literal at the item's own position. */
  lemma {:induction false} ItemsInOrder(ctx: Conversions, list: Object, itemType: TypeRef, i: nat)
    requires list.JList? && i <= |list.items|
    requires forall k :: i <= k < |list.items| ==> ValueAst(ctx, list.items[k], itemType).Ok? && ValueAst(ctx, list.items[k], itemType).value.Some?
    ensures ItemsAst(ctx, list, itemType, i).Ok?
    ensures |ItemsAst(ctx, list, itemType, i).value| == |list.items| - i
    ensures forall k :: i <= k < |list.items| ==>
      ItemsAst(ctx, list, itemType, i).value[k - i] == ValueAst(ctx, list.items[k], itemType).value.value
    decreases |list.items| - i
  {
    if i < |list.items| {
      ItemsInOrder(ctx, list, itemType, i + 1);
      var node := ValueAst(ctx, list.items[i], itemType).value.value;
      var rest := ItemsAst(ctx, list, itemType, i + 1).value;
      assert ItemsAst(ctx, list, itemType, i).value == [node] + rest;
    }
  }

  /** Items that convert to null are dropped, so the list literal is never
      longer than the list. */
  lemma {:induction false} ItemsNoLonger(ctx: Conversions, list: Object, itemType: TypeRef, i: nat)
    requires list.JList? && i <= |list.items|
    requires ItemsAst(ctx, list, itemType, i).Ok?
    ensures |ItemsAst(ctx, list, itemType, i).value| <= |list.items| - i
    decreases |list.items| - i
  {
    if i < |list.items| {
      ItemsNoLonger(ctx, list, itemType, i + 1);
    }
  }

  /** Every field of the object literal is named after a field of the
      input inputType at or after index `i`, and there are no more of them than
      such fields. */
  lemma {:induction false} FieldsFromType(ctx: Conversions, value: Object, inputType: TypeRef, fields: seq<InputFieldDefinition>, i: nat)
    requires value != Null && i <= |fields|
    requires FieldsAst(ctx, value, inputType, fields, i).Ok?
    ensures |FieldsAst(ctx, value, inputType, fields, i).value| <= |fields| - i
    ensures forall f :: f in FieldsAst(ctx, value, inputType, fields, i).value ==>
      exists j :: i <= j < |fields| && fields[j].name == f.name
    decreases |fields| - i
  {
    if i < |fields| {
      FieldsFromType(ctx, value, inputType, fields, i + 1);
      var node := FieldAst(ctx, value, inputType, fields[i]).value;
      var rest := FieldsAst(ctx, value, inputType, fields, i + 1).value;
      var all := FieldsAst(ctx, value, inputType, fields, i).value;
      assert all == (if node.Some? then [ObjectField(fields[i].name, node.value)] else []) + rest;
      forall f | f in all
        ensures exists j :: i <= j < |fields| && fields[j].name == f.name
      {
        if f !in rest {
          assert fields[i].name == f.name;
        }
      }
    }
  }

  /** An `int` of inputType Int whose `serialize` returns it unchanged becomes a
      literal that Int `coerceLiteral` turns back into the same number when
      it is not negative, and that it rejects when it is negative. */
  lemma {:induction false} IntLiteralRoundTrip(ctx: Conversions, i: int)
    requires ctx.schema.GetType("Int") == Some(ScalarType("Int"))
    requires ctx.serialize("Int", JInteger(i)) == JInteger(i)
    ensures 0 <= i ==> ValueAst(ctx, JInteger(i), Named("Int")) == Ok(Some(IntValue(i)))
    ensures 0 <= i ==> Scalars.IntCoerceLiteral(IntValue(i)) == Ok(Scalars.LiteralInt(i))
    ensures i < 0 ==> ValueAst(ctx, JInteger(i), Named("Int")) == Ok(Some(FloatValue(Decimal(i, 0))))
    ensures i < 0 ==> Scalars.IntCoerceLiteral(FloatValue(Decimal(i, 0))) == Throws(ClassCastException)
  {
    if 0 <= i {
      NonNegativeIntBecomesInt(i);
    } else {
      NegativeIntBecomesFloat(i);
    }
  }

  /** A string of inputType String whose `serialize` returns it unchanged
      becomes a StringValue that String `coerceLiteral` turns back into the
      same text. */
  lemma {:induction false} StringLiteralRoundTrip(ctx: Conversions, s: string)
    requires ctx.schema.GetType("String") == Some(ScalarType("String"))
    requires ctx.serialize("String", JString(s)) == JString(s)
    ensures ValueAst(ctx, JString(s), Named("String")) == Ok(Some(StringValue(s)))
    ensures Scalars.StringCoerceLiteral(ValueAst(ctx, JString(s), Named("String")).value.value) == Ok(Scalars.LiteralText(s))
  {
  }
}
