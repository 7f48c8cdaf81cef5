/** graphql.validation.rules.ProvidedNonNullArguments: a required argument
    (non-null type, no default) of a field must be given and must not be
    null; a required argument of a directive must be given. */
module ProvidedNonNullArguments {
  import opened Common
  import opened Ast
  import opened SchemaTypes
  import opened LinkedMaps
  import opened Validation

  /** GraphQLDirective: a directive definition and its declared arguments. */
  datatype DirectiveDefinition = DirectiveDefinition(name: string, arguments: seq<ArgumentDefinition>)

  /** Non-null type and no default value: the only arguments this rule checks. */
  predicate Required(definition: ArgumentDefinition) {
    definition.argumentType.NonNullOf? && definition.defaultValue.None?
  }

  /** A null reference or a NullValue literal. */
  predicate IsNullValue(value: Option<Value>) {
    value.None? || value.value.NullValue?
  }

  /** The errors carry the argument's name in place of the localised message. */
  function MissingFieldArgumentError(name: string): ValidationError {
    ValidationError(MissingFieldArgument, name, [], [])
  }

  function NullValueError(name: string): ValidationError {
    ValidationError(NullValueForNonNullArgument, name, [], [])
  }

  function MissingDirectiveArgumentError(name: string): ValidationError {
    ValidationError(MissingDirectiveArgument, name, [], [])
  }

  /** `argumentMap`: the arguments by name; a later argument with the same
      name replaces an earlier one. */
  function ArgumentMap(arguments: seq<Argument>): (r: LinkedMap<string, Argument>)
    ensures r.Valid()
  {
    if arguments == [] then Empty()
    else
      var last := arguments[|arguments| - 1];
      ArgumentMap(arguments[..|arguments| - 1]).Put(last.name, last)
  }

  /** The last argument with the given name, searched from the end. */
  function LastArgumentNamed(arguments: seq<Argument>, name: string): (r: Option<Argument>)
    ensures r.Some? ==> r.value in arguments && r.value.name == name
    ensures r.None? <==> forall a :: a in arguments ==> a.name != name
  {
    if arguments == [] then None
    else if arguments[|arguments| - 1].name == name then Some(arguments[|arguments| - 1])
    else
      var r := LastArgumentNamed(arguments[..|arguments| - 1], name);
      assert forall a :: a in arguments[..|arguments| - 1] ==> a in arguments;
      assert forall a :: a in arguments ==> a in arguments[..|arguments| - 1] || a == arguments[|arguments| - 1];
      r
  }

  /** The map holds the last occurrence of each name, and nothing for a
      name the list does not have. */
  lemma {:induction false} ArgumentMapKeepsLast(arguments: seq<Argument>, name: string)
    ensures ArgumentMap(arguments).Get(name) == LastArgumentNamed(arguments, name)
  {
    if arguments != [] {
      ArgumentMapKeepsLast(arguments[..|arguments| - 1], name);
    }
  }

  /** The errors one declared field argument produces. */
  function FieldArgumentErrors(argumentMap: LinkedMap<string, Argument>, definition: ArgumentDefinition): seq<ValidationError>
    requires argumentMap.Valid()
  {
    var argument := argumentMap.Get(definition.name);
    (if argument.None? && Required(definition) then [MissingFieldArgumentError(definition.name)] else [])
    + (if argument.Some? && IsNullValue(argument.value.value) && Required(definition) then [NullValueError(definition.name)] else [])
  }

  function FieldErrors(argumentMap: LinkedMap<string, Argument>, definitions: seq<ArgumentDefinition>): seq<ValidationError>
    requires argumentMap.Valid()
  {
    if definitions == [] then []
    else FieldErrors(argumentMap, definitions[..|definitions| - 1]) + FieldArgumentErrors(argumentMap, definitions[|definitions| - 1])
  }

  /** The errors one declared directive argument produces: missing only. */
  function DirectiveArgumentErrors(argumentMap: LinkedMap<string, Argument>, definition: ArgumentDefinition): seq<ValidationError>
    requires argumentMap.Valid()
  {
    if argumentMap.Get(definition.name).None? && Required(definition) then [MissingDirectiveArgumentError(definition.name)] else []
  }

  function DirectiveErrors(argumentMap: LinkedMap<string, Argument>, definitions: seq<ArgumentDefinition>): seq<ValidationError>
    requires argumentMap.Valid()
  {
    if definitions == [] then []
    else DirectiveErrors(argumentMap, definitions[..|definitions| - 1]) + DirectiveArgumentErrors(argumentMap, definitions[|definitions| - 1])
  }

  /** What `checkField` adds: nothing without a field definition. */
  function CheckFieldErrors(field: Field, fieldDef: Option<FieldDefinition>): seq<ValidationError> {
    if fieldDef.None? then [] else FieldErrors(ArgumentMap(field.arguments), fieldDef.value.arguments)
  }

  /** What `checkDirective` adds: nothing without a directive definition. */
  function CheckDirectiveErrors(directive: Directive, directiveDef: Option<DirectiveDefinition>): seq<ValidationError> {
    if directiveDef.None? then [] else DirectiveErrors(ArgumentMap(directive.arguments), directiveDef.value.arguments)
  }

  class ProvidedNonNullArguments {
    const collector: ValidationErrorCollector

    constructor (collector: ValidationErrorCollector)
      ensures this.collector == collector
    {
      this.collector := collector;
    }

    /** `checkField`; the field definition the validation context holds for
        the current field is a parameter. */
    method CheckField(field: Field, fieldDef: Option<FieldDefinition>)
      modifies collector
      ensures collector.errors == old(collector.errors) + CheckFieldErrors(field, fieldDef)
    {
      if fieldDef.None? {
        return;
      }
      var argumentMap := BuildArgumentMap(field.arguments);
      var definitions := fieldDef.value.arguments;
      var i := 0;
      while i < |definitions|
        invariant 0 <= i <= |definitions|
        invariant collector.errors == old(collector.errors) + FieldErrors(argumentMap, definitions[..i])
      {
        assert definitions[..i + 1][..i] == definitions[..i];
        CheckFieldArgument(argumentMap, definitions[i]);
        i := i + 1;
      }
      assert definitions[..i] == definitions;
    }

    /** The body of `checkField`'s loop for one declared argument. */
    method CheckFieldArgument(argumentMap: LinkedMap<string, Argument>, graphQLArgument: ArgumentDefinition)
      requires argumentMap.Valid()
      modifies collector
      ensures collector.errors == old(collector.errors) + FieldArgumentErrors(argumentMap, graphQLArgument)
    {
      var argument := argumentMap.Get(graphQLArgument.name);
      var nonNullType := graphQLArgument.argumentType.NonNullOf?;
      var noDefaultValue := graphQLArgument.defaultValue.None?;
      if argument.None? && nonNullType && noDefaultValue {
        collector.AddError(MissingFieldArgumentError(graphQLArgument.name));
      }
      if argument.Some? {
        var value := argument.value.value;
        if (value.None? || value.value.NullValue?) && nonNullType && noDefaultValue {
          collector.AddError(NullValueError(graphQLArgument.name));
        }
      }
    }

    /** `checkDirective`; the directive definition is a parameter. */
    method CheckDirective(directive: Directive, directiveDef: Option<DirectiveDefinition>)
      modifies collector
      ensures collector.errors == old(collector.errors) + CheckDirectiveErrors(directive, directiveDef)
    {
      if directiveDef.None? {
        return;
      }
      var argumentMap := BuildArgumentMap(directive.arguments);
      var definitions := directiveDef.value.arguments;
      var i := 0;
      while i < |definitions|
        invariant 0 <= i <= |definitions|
        invariant collector.errors == old(collector.errors) + DirectiveErrors(argumentMap, definitions[..i])
      {
        assert definitions[..i + 1][..i] == definitions[..i];
        var graphQLArgument := definitions[i];
        var argument := argumentMap.Get(graphQLArgument.name);
        if argument.None? && graphQLArgument.argumentType.NonNullOf? && graphQLArgument.defaultValue.None? {
          collector.AddError(MissingDirectiveArgumentError(graphQLArgument.name));
        }
        i := i + 1;
      }
      assert definitions[..i] == definitions;
    }

    /** `argumentMap`. */
    method BuildArgumentMap(arguments: seq<Argument>) returns (result: LinkedMap<string, Argument>)
      ensures result == ArgumentMap(arguments)
      ensures forall name :: result.Get(name) == LastArgumentNamed(arguments, name)
    {
      result := Empty();
      var i := 0;
      while i < |arguments|
        invariant 0 <= i <= |arguments|
        invariant result == ArgumentMap(arguments[..i])
      {
        assert arguments[..i + 1][..i] == arguments[..i];
        result := result.Put(arguments[i].name, arguments[i]);
        i := i + 1;
      }
      assert arguments[..i] == arguments;
      forall name
        ensures result.Get(name) == LastArgumentNamed(arguments, name)
      {
        ArgumentMapKeepsLast(arguments, name);
      }
    }
  }

  // ---------------------------------------------------------------------
  // Properties.

  /** A field error is about a declared, required argument: a missing one
      when no argument of that name was given, a null one when the last
      argument of that name holds a null; and every such argument is
      reported. Nullable arguments and arguments with a default never are. */
  lemma {:induction false} FieldErrorsExactly(argumentMap: LinkedMap<string, Argument>, definitions: seq<ArgumentDefinition>, e: ValidationError)
    requires argumentMap.Valid()
    ensures e in FieldErrors(argumentMap, definitions) <==>
      exists d :: d in definitions && Required(d) &&
        ((e == MissingFieldArgumentError(d.name) && argumentMap.Get(d.name).None?)
        || (e == NullValueError(d.name) && argumentMap.Get(d.name).Some? && IsNullValue(argumentMap.Get(d.name).value.value)))
  {
    if definitions != [] {
      var init := definitions[..|definitions| - 1];
      FieldErrorsExactly(argumentMap, init, e);
      assert definitions == init + [definitions[|definitions| - 1]];
    }
  }

  /** A directive error is a missing required argument, exactly; explicit
      nulls are not reported. */
  lemma {:induction false} DirectiveErrorsExactly(argumentMap: LinkedMap<string, Argument>, definitions: seq<ArgumentDefinition>, e: ValidationError)
    requires argumentMap.Valid()
    ensures e in DirectiveErrors(argumentMap, definitions) <==>
      exists d :: d in definitions && Required(d) && e == MissingDirectiveArgumentError(d.name) && argumentMap.Get(d.name).None?
  {
    if definitions != [] {
      var init := definitions[..|definitions| - 1];
      DirectiveErrorsExactly(argumentMap, init, e);
      assert definitions == init + [definitions[|definitions| - 1]];
    }
  }

  /** `checkField` in terms of the AST arguments: each declared required
      argument is missing exactly when no argument of its name was written,
      and null exactly when the last one written holds a null. */
  lemma {:induction false} CheckFieldReportsRequiredArguments(field: Field, fieldDef: FieldDefinition, e: ValidationError)
    ensures e in CheckFieldErrors(field, Some(fieldDef)) <==>
      exists d :: d in fieldDef.arguments && Required(d) &&
        ((e == MissingFieldArgumentError(d.name) && LastArgumentNamed(field.arguments, d.name).None?)
        || (e == NullValueError(d.name) && LastArgumentNamed(field.arguments, d.name).Some? && IsNullValue(LastArgumentNamed(field.arguments, d.name).value.value)))
  {
    var m := ArgumentMap(field.arguments);
    FieldErrorsExactly(m, fieldDef.arguments, e);
    forall name {
      ArgumentMapKeepsLast(field.arguments, name);
    }
  }

  /** An explicit null for a required directive argument is not an error. */
  lemma {:induction false} DirectiveNullIsAccepted(directive: Directive, definition: ArgumentDefinition)
    requires Required(definition)
    requires directive.arguments == [Argument(definition.name, Some(NullValue))]
    ensures CheckDirectiveErrors(directive, Some(DirectiveDefinition(directive.name, [definition]))) == []
  {
    ArgumentMapKeepsLast(directive.arguments, definition.name);
    assert DirectiveErrors(ArgumentMap(directive.arguments), [definition])
      == DirectiveErrors(ArgumentMap(directive.arguments), []) + DirectiveArgumentErrors(ArgumentMap(directive.arguments), definition);
  }

  /** Arguments written but not declared change nothing. */
  lemma {:induction false} UndeclaredArgumentIgnored(field: Field, fieldDef: FieldDefinition, extra: Argument)
    requires forall d :: d in fieldDef.arguments ==> d.name != extra.name
    ensures CheckFieldErrors(field.(arguments := field.arguments + [extra]), Some(fieldDef)) == CheckFieldErrors(field, Some(fieldDef))
  {
    var before := ArgumentMap(field.arguments);
    var after := ArgumentMap(field.arguments + [extra]);
    assert (field.arguments + [extra])[..|field.arguments|] == field.arguments;
    FieldErrorsAgree(before, after, fieldDef.arguments);
  }

  lemma {:induction false} FieldErrorsAgree(a: LinkedMap<string, Argument>, b: LinkedMap<string, Argument>, definitions: seq<ArgumentDefinition>)
    requires a.Valid() && b.Valid()
    requires forall d :: d in definitions ==> a.Get(d.name) == b.Get(d.name)
    ensures FieldErrors(a, definitions) == FieldErrors(b, definitions)
  {
    if definitions != [] {
      var init := definitions[..|definitions| - 1];
      assert forall d :: d in init ==> d in definitions;
      FieldErrorsAgree(a, b, init);
      assert definitions[|definitions| - 1] in definitions;
    }
  }
}
