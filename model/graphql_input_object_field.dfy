/** `GraphQLInputObjectField`: a field of an input object type, whose
    default value travels together with a state saying how it was set. */
module GraphQLInputObjectFieldModel {
  import opened Common
  import Ast
  import opened RuntimeValues
  import opened SchemaTypes
  import opened InputValues

  class GraphQLInputObjectField {
    const name: string
    const description: Option<string>
    const originalType: TypeRef
    const defaultValue: InputValue
    const defaultValueState: ValueState
    const deprecationReason: Option<string>
    var replacedType: Option<TypeRef>

    predicate Valid()
    {
      ValidName(name)
    }

    /** The private constructor, once its checks have passed. */
    constructor Init(name: string, description: Option<string>, originalType: TypeRef, defaultValue: InputValue, defaultValueState: ValueState, deprecationReason: Option<string>)
      requires ValidName(name)
      ensures Valid()
      ensures this.name == name && this.description == description && this.originalType == originalType
      ensures this.defaultValue == defaultValue && this.defaultValueState == defaultValueState
      ensures this.deprecationReason == deprecationReason && replacedType.None?
    {
      this.name := name;
      this.description := description;
      this.originalType := originalType;
      this.defaultValue := defaultValue;
      this.defaultValueState := defaultValueState;
      this.deprecationReason := deprecationReason;
      this.replacedType := None;
    }

    /** `getType`: the replaced type once `replaceType` was called, else the
        type given on construction. */
    function GetType(): (t: TypeRef)
      reads this
      ensures replacedType.None? ==> t == originalType
      ensures replacedType.Some? ==> t == replacedType.value
    {
      if replacedType.Some? then replacedType.value else originalType
    }

    /** `replaceType`: only the type that `getType` reports changes. */
    method ReplaceType(t: TypeRef)
      modifies this
      ensures GetType() == t && replacedType == Some(t)
    {
      replacedType := Some(t);
    }

    /** `hasSetDefaultValue`: decided by the state alone, so a default of
        null that was set counts as set. */
    predicate HasSetDefaultValue()
    {
      defaultValueState != NOT_SET
    }

    /** `isDeprecated`: a deprecation reason was given. */
    predicate IsDeprecated()
    {
      deprecationReason.Some?
    }

    /** `transform(builder -> {})`: a copy through `Builder(existing)` and
        `build` keeps the default value and its state as they are. */
    method Copy() returns (r: Result<GraphQLInputObjectField>)
      requires Valid()
      ensures r.Ok?
      ensures r.value.name == name && r.value.originalType == originalType && r.value.description == description
      ensures r.value.defaultValue == defaultValue && r.value.defaultValueState == defaultValueState
      ensures r.value.HasSetDefaultValue() == HasSetDefaultValue()
    {
      var builder := new Builder.FromExisting(this);
      r := builder.Build();
    }
  }

  /** The checks of the private constructor: a valid name, then a type. */
  method Create(name: Option<string>, description: Option<string>, originalType: Option<TypeRef>, defaultValue: InputValue, defaultValueState: ValueState, deprecationReason: Option<string>)
    returns (r: Result<GraphQLInputObjectField>)
    ensures r.Ok? <==> name.Some? && ValidName(name.value) && originalType.Some?
    ensures r.Throws? && AssertValidName(name).Throws? ==> r.error == AssertValidName(name).error
    ensures r.Throws? && AssertValidName(name).Ok? ==> r.error == AssertException("type can't be null")
    ensures r.Ok? ==> r.value.Valid() && r.value.name == name.value && r.value.originalType == originalType.value
    ensures r.Ok? ==> r.value.defaultValue == defaultValue && r.value.defaultValueState == defaultValueState
    ensures r.Ok? ==> r.value.description == description && r.value.deprecationReason == deprecationReason
    ensures r.Ok? ==> r.value.replacedType.None?
  {
    var validName := AssertValidName(name);
    if validName.Throws? {
      return Throws(validName.error);
    }
    if originalType.None? {
      return Throws(AssertException("type can't be null"));
    }
    var field := new GraphQLInputObjectField.Init(validName.value, description, originalType.value, defaultValue, defaultValueState, deprecationReason);
    return Ok(field);
  }

  /** `GraphQLInputObjectField.Builder`. */
  class Builder {
    var name: Option<string>
    var description: Option<string>
    var inputType: Option<TypeRef>
    var defaultValue: InputValue
    var defaultValueState: ValueState
    var deprecationReason: Option<string>

    /** Everything but the default value and its state. */
    function Settings(): (Option<string>, Option<string>, Option<TypeRef>, Option<string>)
      reads this
    {
      (name, description, inputType, deprecationReason)
    }

    /** A new builder: no default value, NOT_SET. */
    constructor ()
      ensures Settings() == (None, None, None, None)
      ensures defaultValue == NULL_VALUE && defaultValueState == NOT_SET
    {
      name := None;
      description := None;
      inputType := None;
      defaultValue := NULL_VALUE;
      defaultValueState := NOT_SET;
      deprecationReason := None;
    }

    /** `Builder(existing)`: the default value and its state are copied
        unchanged, as are the name, original type and description. */
    constructor FromExisting(existing: GraphQLInputObjectField)
      ensures Settings() == (Some(existing.name), existing.description, Some(existing.originalType), existing.deprecationReason)
      ensures defaultValue == existing.defaultValue && defaultValueState == existing.defaultValueState
    {
      name := Some(existing.name);
      description := existing.description;
      defaultValue := existing.defaultValue;
      defaultValueState := existing.defaultValueState;
      inputType := Some(existing.originalType);
      deprecationReason := existing.deprecationReason;
    }

    method Name(n: string)
      modifies this
      ensures Settings() == (Some(n), old(description), old(inputType), old(deprecationReason))
      ensures defaultValue == old(defaultValue) && defaultValueState == old(defaultValueState)
    {
      name := Some(n);
    }

    method Type(t: TypeRef)
      modifies this
      ensures Settings() == (old(name), old(description), Some(t), old(deprecationReason))
      ensures defaultValue == old(defaultValue) && defaultValueState == old(defaultValueState)
    {
      inputType := Some(t);
    }

    method Deprecate(reason: Option<string>)
      modifies this
      ensures Settings() == (old(name), old(description), old(inputType), reason)
      ensures defaultValue == old(defaultValue) && defaultValueState == old(defaultValueState)
    {
      deprecationReason := reason;
    }

    /** `defaultValue` (deprecated): INTERNAL_VALUE. */
    method DefaultValue(v: InputValue)
      modifies this
      ensures Settings() == old(Settings())
      ensures defaultValue == v && defaultValueState == INTERNAL_VALUE
    {
      defaultValue := v;
      defaultValueState := INTERNAL_VALUE;
    }

    /** `defaultValueLiteral`: LITERAL. */
    method DefaultValueLiteral(v: Ast.Value)
      modifies this
      ensures Settings() == old(Settings())
      ensures defaultValue == AstLiteral(v) && defaultValueState == LITERAL
    {
      defaultValue := AstLiteral(v);
      defaultValueState := LITERAL;
    }

    /** `defaultValueProgrammatic`: EXTERNAL_VALUE. */
    method DefaultValueProgrammatic(v: InputValue)
      modifies this
      ensures Settings() == old(Settings())
      ensures defaultValue == v && defaultValueState == EXTERNAL_VALUE
    {
      defaultValue := v;
      defaultValueState := EXTERNAL_VALUE;
    }

    /** `clearDefaultValue`: null and NOT_SET. */
    method ClearDefaultValue()
      modifies this
      ensures Settings() == old(Settings())
      ensures defaultValue == NULL_VALUE && defaultValueState == NOT_SET
    {
      defaultValue := NULL_VALUE;
      defaultValueState := NOT_SET;
    }

    /** The field carries exactly what this builder holds. */
    predicate Produces(f: GraphQLInputObjectField)
      reads this, f
    {
      && f.Valid() && name == Some(f.name) && inputType == Some(f.originalType)
      && f.description == description && f.deprecationReason == deprecationReason
      && f.defaultValue == defaultValue && f.defaultValueState == defaultValueState && f.replacedType.None?
    }

    /** `build`: a type is required and the default value is stored as it
        is, whatever its state; the constructor then checks the name. */
    method Build() returns (r: Result<GraphQLInputObjectField>)
      ensures inputType.None? ==> r == Throws(AssertException("type can't be null"))
      ensures r.Ok? <==> inputType.Some? && name.Some? && ValidName(name.value)
      ensures r.Ok? ==> Produces(r.value)
    {
      if inputType.None? {
        return Throws(AssertException("type can't be null"));
      }
      r := Create(name, description, inputType, defaultValue, defaultValueState, deprecationReason);
    }
  }

  /** Whatever the setters did last decides the state that the built field
      reports: every setter but `clearDefaultValue` makes the default count
      as set, even a null one. */
  method SetThenBuild(v: InputValue, literal: Ast.Value, which: nat) returns (r: Result<GraphQLInputObjectField>)
    requires which < 4
    ensures r.Ok?
    ensures which == 0 ==> r.value.HasSetDefaultValue() && r.value.defaultValueState == INTERNAL_VALUE && r.value.defaultValue == v
    ensures which == 1 ==> r.value.HasSetDefaultValue() && r.value.defaultValueState == LITERAL && r.value.defaultValue == AstLiteral(literal)
    ensures which == 2 ==> r.value.HasSetDefaultValue() && r.value.defaultValueState == EXTERNAL_VALUE && r.value.defaultValue == v
    ensures which == 3 ==> !r.value.HasSetDefaultValue() && r.value.defaultValue == NULL_VALUE
  {
    var builder := new Builder();
    builder.Name("field");
    builder.Type(Named("String"));
    if which == 0 {
      builder.DefaultValue(v);
    } else if which == 1 {
      builder.DefaultValueLiteral(literal);
    } else if which == 2 {
      builder.DefaultValueProgrammatic(v);
    } else {
      builder.DefaultValueProgrammatic(v);
      builder.ClearDefaultValue();
    }
    r := builder.Build();
  }
}
