/** `GraphQLArgument`: an argument of a field or directive, with a default
    value that may be unset (a private sentinel), a value used when it is
    the argument of an applied directive, and a builder that tags each value
    slot with how it was set. */
module GraphQLArgumentModel {
  import opened Common
  import Ast
  import opened RuntimeValues
  import opened SchemaTypes
  import opened InputValues

  class GraphQLArgument {
    const name: string
    const description: Option<string>
    const deprecationReason: Option<string>
    const originalType: TypeRef
    const defaultValue: InputValue
    const value: InputValue
    var replacedType: Option<TypeRef>

    /** Every argument has a valid name: the constructor checks it. */
    predicate Valid()
    {
      ValidName(name)
    }

    /** The private constructor, once its checks have passed. */
    constructor Init(name: string, description: Option<string>, originalType: TypeRef, defaultValue: InputValue, value: InputValue, deprecationReason: Option<string>)
      requires ValidName(name)
      ensures Valid()
      ensures this.name == name && this.description == description && this.originalType == originalType
      ensures this.defaultValue == defaultValue && this.value == value && this.deprecationReason == deprecationReason
      ensures replacedType == None
    {
      this.name := name;
      this.description := description;
      this.originalType := originalType;
      this.defaultValue := defaultValue;
      this.value := value;
      this.deprecationReason := deprecationReason;
      this.replacedType := None;
    }

    /** `getType`: the replaced type once `replaceType` was called, else the
        type given on construction. */
    function GetType(): (t: TypeRef)
      reads this
      ensures replacedType.None? ==> t == originalType
      ensures replacedType.Some? ==> t == replacedType.value
    {
      if replacedType.Some? then replacedType.value else originalType
    }

    /** `replaceType`: only the type that `getType` reports changes. */
    method ReplaceType(t: TypeRef)
      modifies this
      ensures GetType() == t
      ensures replacedType == Some(t)
    {
      replacedType := Some(t);
    }

    /** `hasSetDefaultValue`: the default value is not the sentinel. */
    predicate HasSetDefaultValue()
    {
      defaultValue != ValueSentinel
    }

    /** `getDefaultValue`: null in place of the sentinel. */
    function GetDefaultValue(): (r: InputValue)
      ensures r != ValueSentinel
      ensures HasSetDefaultValue() ==> r == defaultValue
      ensures !HasSetDefaultValue() ==> r == NULL_VALUE
    {
      if defaultValue == ValueSentinel then NULL_VALUE else defaultValue
    }

    /** `copy`: `newArgument(this).build()`. Copying never converts, since
        the copied states are LITERAL or INTERNAL_VALUE, so the copy has the
        same name, type and slots. */
    method Copy(convert: (InputValue, TypeRef) -> InputValue) returns (r: Result<GraphQLArgument>)
      requires Valid()
      ensures r.Ok?
      ensures r.value.name == name && r.value.originalType == originalType && r.value.description == description
      ensures r.value.defaultValue == defaultValue && r.value.value == value
      ensures r.value.HasSetDefaultValue() == HasSetDefaultValue()
    {
      var builder := new Builder.FromExisting(this);
      r := builder.Build(convert);
    }
  }

  /** The checks of the private constructor: a valid name and a type. */
  method Create(name: Option<string>, description: Option<string>, originalType: Option<TypeRef>, defaultValue: InputValue, value: InputValue, deprecationReason: Option<string>)
    returns (r: Result<GraphQLArgument>)
    ensures r.Ok? <==> name.Some? && ValidName(name.value) && originalType.Some?
    ensures r.Throws? && AssertValidName(name).Throws? ==> r.error == AssertValidName(name).error
    ensures r.Throws? && AssertValidName(name).Ok? ==> r.error == AssertException("type can't be null")
    ensures r.Ok? ==> r.value.Valid() && r.value.name == name.value && r.value.originalType == originalType.value
    ensures r.Ok? ==> r.value.defaultValue == defaultValue && r.value.value == value && r.value.replacedType.None?
    ensures r.Ok? ==> r.value.description == description && r.value.deprecationReason == deprecationReason
  {
    var validName := AssertValidName(name);
    if validName.Throws? {
      return Throws(validName.error);
    }
    if originalType.None? {
      return Throws(AssertException("type can't be null"));
    }
    var argument := new GraphQLArgument.Init(validName.value, description, originalType.value, defaultValue, value, deprecationReason);
    return Ok(argument);
  }

  /** The deprecated four-argument constructor: any default value given,
      null included, counts as set; the value is null. */
  method NewArgumentWithDefault(name: string, description: Option<string>, originalType: Option<TypeRef>, defaultValue: InputValue)
    returns (r: Result<GraphQLArgument>)
    requires defaultValue != ValueSentinel
    ensures r.Ok? <==> ValidName(name) && originalType.Some?
    ensures r.Ok? ==> r.value.HasSetDefaultValue() && r.value.GetDefaultValue() == defaultValue
    ensures r.Ok? ==> r.value.value == NULL_VALUE
  {
    r := Create(Some(name), description, originalType, defaultValue, NULL_VALUE, None);
  }

  /** The deprecated two-argument constructor: the default value is left
      unset. */
  method NewArgument(name: string, originalType: Option<TypeRef>) returns (r: Result<GraphQLArgument>)
    ensures r.Ok? <==> ValidName(name) && originalType.Some?
    ensures r.Ok? ==> !r.value.HasSetDefaultValue() && r.value.GetDefaultValue() == NULL_VALUE
    ensures r.Ok? ==> r.value.description.None?
  {
    r := Create(Some(name), None, originalType, ValueSentinel, NULL_VALUE, None);
  }

  /** How `Builder(existing)` tags a copied slot: LITERAL for an AST
      literal, INTERNAL_VALUE for anything else, the sentinel included. */
  function CopiedState(v: InputValue): (s: ValueState)
    ensures s == LITERAL <==> v.AstLiteral?
    ensures s != LITERAL ==> s == INTERNAL_VALUE
  {
    if v.AstLiteral? then LITERAL else INTERNAL_VALUE
  }

  /** `GraphQLArgument.Builder`. */
  class Builder {
    var name: Option<string>
    var description: Option<string>
    var inputType: Option<TypeRef>
    var defaultValue: InputValue
    var value: InputValue
    var defaultValueState: ValueState
    var valueState: ValueState
    var deprecationReason: Option<string>

    /** A new builder: both slots hold the sentinel and are NOT_SET. */
    constructor ()
      ensures name.None? && description.None? && inputType.None? && deprecationReason.None?
      ensures defaultValue == ValueSentinel && defaultValueState == NOT_SET
      ensures value == ValueSentinel && valueState == NOT_SET
    {
      name := None;
      description := None;
      inputType := None;
      defaultValue := ValueSentinel;
      value := ValueSentinel;
      defaultValueState := NOT_SET;
      valueState := NOT_SET;
      deprecationReason := None;
    }

    /** `Builder(existing)`: the name, original type, description and both
        slots are copied, and each slot is tagged by `CopiedState`. */
    constructor FromExisting(existing: GraphQLArgument)
      ensures name == Some(existing.name) && inputType == Some(existing.originalType)
      ensures description == existing.description && deprecationReason == existing.deprecationReason
      ensures value == existing.value && valueState == CopiedState(existing.value)
      ensures defaultValue == existing.defaultValue && defaultValueState == CopiedState(existing.defaultValue)
    {
      name := Some(existing.name);
      inputType := Some(existing.originalType);
      value := existing.value;
      valueState := if existing.value.AstLiteral? then LITERAL else INTERNAL_VALUE;
      defaultValue := existing.defaultValue;
      defaultValueState := if existing.defaultValue.AstLiteral? then LITERAL else INTERNAL_VALUE;
      description := existing.description;
      deprecationReason := existing.deprecationReason;
    }

    method Name(n: string)
      modifies this
      ensures name == Some(n)
      ensures description == old(description) && inputType == old(inputType) && deprecationReason == old(deprecationReason)
      ensures defaultValue == old(defaultValue) && defaultValueState == old(defaultValueState)
      ensures value == old(value) && valueState == old(valueState)
    {
      name := Some(n);
    }

    method Type(t: TypeRef)
      modifies this
      ensures inputType == Some(t)
      ensures name == old(name) && description == old(description) && deprecationReason == old(deprecationReason)
      ensures defaultValue == old(defaultValue) && defaultValueState == old(defaultValueState)
      ensures value == old(value) && valueState == old(valueState)
    {
      inputType := Some(t);
    }

    /** `defaultValue` (deprecated): the slot is set and tagged
        INTERNAL_VALUE. */
    method DefaultValue(v: InputValue)
      modifies this
      ensures defaultValue == v && defaultValueState == INTERNAL_VALUE
      ensures name == old(name) && inputType == old(inputType) && description == old(description)
      ensures deprecationReason == old(deprecationReason) && value == old(value) && valueState == old(valueState)
    {
      defaultValue := v;
      defaultValueState := INTERNAL_VALUE;
    }

    /** `defaultValueLiteral`: a null literal is rejected before anything
        changes; otherwise the slot is set and tagged LITERAL. */
    method DefaultValueLiteral(v: Option<Ast.Value>) returns (r: Option<Exception>)
      modifies this
      ensures r.Some? <==> v.None?
      ensures r.Some? ==> r.value == AssertException("defaultValue can't be null")
      ensures v.None? ==> defaultValue == old(defaultValue) && defaultValueState == old(defaultValueState)
      ensures v.Some? ==> defaultValue == AstLiteral(v.value) && defaultValueState == LITERAL
      ensures name == old(name) && inputType == old(inputType) && description == old(description)
      ensures deprecationReason == old(deprecationReason) && value == old(value) && valueState == old(valueState)
    {
      if v.None? {
        return Some(AssertException("defaultValue can't be null"));
      }
      defaultValue := AstLiteral(v.value);
      defaultValueState := LITERAL;
      return None;
    }

    /** `defaultValueProgrammatic`: the slot is set and tagged
        EXTERNAL_VALUE, so `build` converts it. */
    method DefaultValueProgrammatic(v: InputValue)
      modifies this
      ensures defaultValue == v && defaultValueState == EXTERNAL_VALUE
      ensures name == old(name) && inputType == old(inputType) && description == old(description)
      ensures deprecationReason == old(deprecationReason) && value == old(value) && valueState == old(valueState)
    {
      defaultValue := v;
      defaultValueState := EXTERNAL_VALUE;
    }

    /** `clearDefaultValue`: back to the sentinel and NOT_SET. */
    method ClearDefaultValue()
      modifies this
      ensures defaultValue == ValueSentinel && defaultValueState == NOT_SET
      ensures name == old(name) && inputType == old(inputType) && description == old(description)
      ensures deprecationReason == old(deprecationReason) && value == old(value) && valueState == old(valueState)
    {
      defaultValue := ValueSentinel;
      defaultValueState := NOT_SET;
    }

    /** `value` (deprecated): the slot is set and tagged INTERNAL_VALUE. */
    method Value(v: InputValue)
      modifies this
      ensures value == v && valueState == INTERNAL_VALUE
      ensures name == old(name) && inputType == old(inputType) && description == old(description)
      ensures deprecationReason == old(deprecationReason)
      ensures defaultValue == old(defaultValue) && defaultValueState == old(defaultValueState)
    {
      value := v;
      valueState := INTERNAL_VALUE;
    }

    /** `valueLiteral`, as written: the literal is stored and then
        overwritten by the LITERAL constant, and the tag is left alone. */
    method ValueLiteral(v: Ast.Value)
      modifies this
      ensures value == StateConstant(LITERAL) && valueState == old(valueState)
      ensures name == old(name) && inputType == old(inputType) && description == old(description)
      ensures deprecationReason == old(deprecationReason)
      ensures defaultValue == old(defaultValue) && defaultValueState == old(defaultValueState)
    {
      value := AstLiteral(v);
      value := StateConstant(LITERAL);
    }

    /** `valueProgrammatic`, as written: the value is stored and then
        overwritten by the EXTERNAL_VALUE constant, and the tag is left
        alone. */
    method ValueProgrammatic(v: InputValue)
      modifies this
      ensures value == StateConstant(EXTERNAL_VALUE) && valueState == old(valueState)
      ensures name == old(name) && inputType == old(inputType) && description == old(description)
      ensures deprecationReason == old(deprecationReason)
      ensures defaultValue == old(defaultValue) && defaultValueState == old(defaultValueState)
    {
      value := v;
      value := StateConstant(EXTERNAL_VALUE);
    }

    /** `valueLiteral` as evidently intended: the literal and the LITERAL
        tag are both stored. */
    method ValueLiteralIntended(v: Ast.Value)
      modifies this
      ensures value == AstLiteral(v) && valueState == LITERAL
      ensures name == old(name) && inputType == old(inputType) && description == old(description)
      ensures deprecationReason == old(deprecationReason)
      ensures defaultValue == old(defaultValue) && defaultValueState == old(defaultValueState)
    {
      value := AstLiteral(v);
      valueState := LITERAL;
    }

    /** `clearValue`: null and NOT_SET (not the sentinel). */
    method ClearValue()
      modifies this
      ensures value == NULL_VALUE && valueState == NOT_SET
      ensures name == old(name) && inputType == old(inputType) && description == old(description)
      ensures deprecationReason == old(deprecationReason)
      ensures defaultValue == old(defaultValue) && defaultValueState == old(defaultValueState)
    {
      value := NULL_VALUE;
      valueState := NOT_SET;
    }

    /** `build`: a type is required; slots tagged EXTERNAL_VALUE are
        converted to literals in the builder itself; then the argument is
        constructed, which checks the name. */
    method Build(convert: (InputValue, TypeRef) -> InputValue) returns (r: Result<GraphQLArgument>)
      modifies this
      ensures old(inputType).None? ==> r == Throws(AssertException("type can't be null")) && unchanged(this)
      ensures Settings() == old(Settings())
      ensures old(inputType).Some? ==> Settled(convert, old(defaultValueState), old(defaultValue), old(valueState), old(value))
      ensures r.Ok? <==> old(inputType).Some? && name.Some? && ValidName(name.value)
      ensures r.Ok? ==> Produces(r.value)
    {
      if inputType.None? {
        return Throws(AssertException("type can't be null"));
      }
      ConvertExternal(convert);
      r := Create(name, description, inputType, defaultValue, value, deprecationReason);
    }

    /** The builder's settings other than the two value slots. */
    function Settings(): (Option<string>, Option<string>, Option<TypeRef>, Option<string>, ValueState, ValueState)
      reads this
    {
      (name, description, inputType, deprecationReason, defaultValueState, valueState)
    }

    /** The value slots hold the given ones, converted where tagged
        EXTERNAL_VALUE. */
    predicate Settled(convert: (InputValue, TypeRef) -> InputValue, oldDefaultState: ValueState, oldDefault: InputValue, oldState: ValueState, oldValue: InputValue)
      reads this
      requires inputType.Some?
    {
      && defaultValue == Converted(convert, oldDefaultState, oldDefault, inputType.value)
      && value == Converted(convert, oldState, oldValue, inputType.value)
    }

    /** The argument carries exactly what this builder holds. */
    predicate Produces(a: GraphQLArgument)
      reads this, a
    {
      && a.Valid() && name == Some(a.name) && inputType == Some(a.originalType)
      && a.description == description && a.deprecationReason == deprecationReason
      && a.defaultValue == defaultValue && a.value == value && a.replacedType.None?
    }

    /** The first step of `build`: the slots tagged EXTERNAL_VALUE are
        converted to literals. */
    method ConvertExternal(convert: (InputValue, TypeRef) -> InputValue)
      requires inputType.Some?
      modifies this
      ensures Settings() == old(Settings())
      ensures Settled(convert, old(defaultValueState), old(defaultValue), old(valueState), old(value))
    {
      var t := inputType.value;
      defaultValue, value := Converted(convert, defaultValueState, defaultValue, t), Converted(convert, valueState, value, t);
    }
  }

  /** A slot as `build` passes it on: converted from an external value to
      a literal when tagged EXTERNAL_VALUE, untouched otherwise. */
  function Converted(convert: (InputValue, TypeRef) -> InputValue, state: ValueState, v: InputValue, t: TypeRef): (r: InputValue)
    ensures state != EXTERNAL_VALUE ==> r == v
  {
    if state == EXTERNAL_VALUE then convert(v, t) else v
  }

  /** A literal given to `valueLiteral` on a new builder never reaches the
      argument: the built argument holds the LITERAL constant instead. */
  method ValueLiteralIsLost(v: Ast.Value, convert: (InputValue, TypeRef) -> InputValue) returns (r: Result<GraphQLArgument>)
    ensures r.Ok? && r.value.value == StateConstant(LITERAL)
    ensures r.value.value != AstLiteral(v)
  {
    var builder := new Builder();
    builder.Name("arg");
    builder.Type(Named("String"));
    builder.ValueLiteral(v);
    r := builder.Build(convert);
  }

  /** With the evidently intended setter, the built argument holds the
      literal, tagged LITERAL so that `build` leaves it unconverted. */
  method ValueLiteralIntendedIsKept(v: Ast.Value, convert: (InputValue, TypeRef) -> InputValue) returns (r: Result<GraphQLArgument>)
    ensures r.Ok? && r.value.value == AstLiteral(v)
  {
    var builder := new Builder();
    builder.Name("arg");
    builder.Type(Named("String"));
    builder.ValueLiteralIntended(v);
    r := builder.Build(convert);
  }

  /** A default value that is set is reported as it was given; the
      sentinel is reported as null and as not set. */
  lemma {:induction false} DefaultValueReported(a: GraphQLArgument)
    ensures a.HasSetDefaultValue() <==> a.defaultValue != ValueSentinel
    ensures a.GetDefaultValue() == NULL_VALUE <==> (a.defaultValue == ValueSentinel || a.defaultValue == NULL_VALUE)
  {
  }
}
