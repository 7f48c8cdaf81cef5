/** graphql.schema.validation.ObjectsImplementInterfaces: an object type must
    have every field of every interface it declares, with the same type
    name once list and non-null wrappers are removed. */
module ObjectsImplementInterfaces {
  import opened Common
  import opened SchemaTypes

  datatype SchemaValidationErrorType = ObjectDoesNotImplementItsInterfaces

  datatype SchemaValidationError = SchemaValidationError(errorType: SchemaValidationErrorType, description: string)

  class SchemaValidationErrorCollector {
    var errors: seq<SchemaValidationError>

    constructor ()
      ensures errors == []
    {
      errors := [];
    }

    method AddError(error: SchemaValidationError)
      modifies this
      ensures errors == old(errors) + [error]
    {
      errors := errors + [error];
    }
  }

  function MissingFieldError(objectName: string, interfaceName: string, fieldName: string): SchemaValidationError {
    SchemaValidationError(ObjectDoesNotImplementItsInterfaces,
      "object type '" + objectName + "' does not implement interface '" + interfaceName
      + "' because field '" + fieldName + "' is missing")
  }

  function FieldTypeError(objectName: string, interfaceName: string, fieldName: string, objectTypeName: string, interfaceTypeName: string): SchemaValidationError {
    SchemaValidationError(ObjectDoesNotImplementItsInterfaces,
      "object type '" + objectName + "' does not implement interface '" + interfaceName
      + "' because field '" + fieldName + "' is defined as '" + objectTypeName
      + "' type and not as '" + interfaceTypeName + "' type")
  }

  /** The error, if any, for one interface field. */
  function FieldError(objectName: string, objectFields: seq<FieldDefinition>, interfaceName: string, interfaceField: FieldDefinition): Option<SchemaValidationError> {
    match FindField(objectFields, interfaceField.name)
    case None => Some(MissingFieldError(objectName, interfaceName, interfaceField.name))
    case Some(objectField) =>
      var interfaceTypeName := UnwrapAll(interfaceField.fieldType);
      var objectTypeName := UnwrapAll(objectField.fieldType);
      if interfaceTypeName != objectTypeName
      then Some(FieldTypeError(objectName, interfaceName, interfaceField.name, objectTypeName, interfaceTypeName))
      else None
  }

  /** `checkObjectImplementsInterface`: the errors over the interface's
      fields, in order. */
  function InterfaceErrors(objectName: string, objectFields: seq<FieldDefinition>, interfaceName: string, interfaceFields: seq<FieldDefinition>): seq<SchemaValidationError> {
    if interfaceFields == [] then []
    else
      var last := interfaceFields[|interfaceFields| - 1];
      var e := FieldError(objectName, objectFields, interfaceName, last);
      InterfaceErrors(objectName, objectFields, interfaceName, interfaceFields[..|interfaceFields| - 1])
      + (if e.Some? then [e.value] else [])
  }

  /** What checking an object adds, and the exception that stopped it, if
      any: the errors of the interfaces before it stay added. */
  datatype Outcome = Outcome(errors: seq<SchemaValidationError>, failure: Option<Exception>)

  /** The declared interfaces, in order; a name that does not resolve to an
      interface type fails the cast. */
  function ObjectErrors(schema: Schema, objectName: string, objectFields: seq<FieldDefinition>, interfaces: seq<string>): Outcome {
    if interfaces == [] then Outcome([], None)
    else
      var before := ObjectErrors(schema, objectName, objectFields, interfaces[..|interfaces| - 1]);
      var name := interfaces[|interfaces| - 1];
      if before.failure.Some? then before
      else match schema.GetType(name)
        case Some(InterfaceType(interfaceName, interfaceFields, _)) =>
          Outcome(before.errors + InterfaceErrors(objectName, objectFields, interfaceName, interfaceFields), None)
        case _ => Outcome(before.errors, Some(ClassCastException))
  }

  /** `check(GraphQLType)`: only object types are checked. */
  function TypeErrors(schema: Schema, t: NamedType): Outcome {
    if t.ObjectType? then ObjectErrors(schema, t.name, t.fields, t.interfaces) else Outcome([], None)
  }

  class ObjectsImplementInterfaces {
    constructor ()
    {
    }

    /** `check(GraphQLFieldDefinition)` does nothing. */
    method CheckFieldDefinition(fieldDef: FieldDefinition, collector: SchemaValidationErrorCollector)
      ensures collector.errors == old(collector.errors)
    {
    }

    /** `check(GraphQLType)`; the schema resolves interface names. */
    method CheckType(schema: Schema, t: NamedType, collector: SchemaValidationErrorCollector) returns (r: Result<()>)
      modifies collector
      ensures collector.errors == old(collector.errors) + TypeErrors(schema, t).errors
      ensures r.Throws? <==> TypeErrors(schema, t).failure.Some?
      ensures r.Throws? ==> r.error == TypeErrors(schema, t).failure.value
    {
      if !t.ObjectType? {
        return Ok(());
      }
      var interfaces := t.interfaces;
      var i := 0;
      while i < |interfaces|
        invariant 0 <= i <= |interfaces|
        invariant ObjectErrors(schema, t.name, t.fields, interfaces[..i]).failure.None?
        invariant collector.errors == old(collector.errors) + ObjectErrors(schema, t.name, t.fields, interfaces[..i]).errors
      {
        var interfaceType := schema.GetType(interfaces[i]);
        if !(interfaceType.Some? && interfaceType.value.InterfaceType?) {
          CastFails(schema, t.name, t.fields, interfaces, i);
          return Throws(ClassCastException);
        }
        InterfaceChecked(schema, t.name, t.fields, interfaces, i);
        CheckObjectImplementsInterface(t.name, t.fields, interfaceType.value.name, interfaceType.value.fields, collector);
        i := i + 1;
      }
      assert interfaces[..i] == interfaces;
      return Ok(());
    }

    method CheckObjectImplementsInterface(objectName: string, objectFields: seq<FieldDefinition>, interfaceName: string, interfaceFields: seq<FieldDefinition>, collector: SchemaValidationErrorCollector)
      modifies collector
      ensures collector.errors == old(collector.errors) + InterfaceErrors(objectName, objectFields, interfaceName, interfaceFields)
    {
      var i := 0;
      while i < |interfaceFields|
        invariant 0 <= i <= |interfaceFields|
        invariant collector.errors == old(collector.errors) + InterfaceErrors(objectName, objectFields, interfaceName, interfaceFields[..i])
      {
        assert interfaceFields[..i + 1][..i] == interfaceFields[..i];
        var interfaceFieldDef := interfaceFields[i];
        var objectFieldDef := FindField(objectFields, interfaceFieldDef.name);
        if objectFieldDef.None? {
          collector.AddError(MissingFieldError(objectName, interfaceName, interfaceFieldDef.name));
        } else {
          var interfaceFieldDefStr := UnwrapAll(interfaceFieldDef.fieldType);
          var objectFieldDefStr := UnwrapAll(objectFieldDef.value.fieldType);
          if interfaceFieldDefStr != objectFieldDefStr {
            collector.AddError(FieldTypeError(objectName, interfaceName, interfaceFieldDef.name, objectFieldDefStr, interfaceFieldDefStr));
          }
        }
        i := i + 1;
      }
      assert interfaceFields[..i] == interfaceFields;
    }
  }

  // ---------------------------------------------------------------------
  // Properties.

  /** An interface that resolves adds its errors to those before it. */
  lemma {:induction false} InterfaceChecked(schema: Schema, objectName: string, objectFields: seq<FieldDefinition>, interfaces: seq<string>, i: nat)
    requires i < |interfaces|
    requires ObjectErrors(schema, objectName, objectFields, interfaces[..i]).failure.None?
    requires schema.GetType(interfaces[i]).Some? && schema.GetType(interfaces[i]).value.InterfaceType?
    ensures var it := schema.GetType(interfaces[i]).value;
      ObjectErrors(schema, objectName, objectFields, interfaces[..i + 1])
        == Outcome(ObjectErrors(schema, objectName, objectFields, interfaces[..i]).errors
                   + InterfaceErrors(objectName, objectFields, it.name, it.fields), None)
  {
    assert interfaces[..i + 1][..i] == interfaces[..i];
  }

  /** A name that is not an interface type ends the check with a failed
      cast, keeping the errors added before it. */
  lemma {:induction false} CastFails(schema: Schema, objectName: string, objectFields: seq<FieldDefinition>, interfaces: seq<string>, i: nat)
    requires i < |interfaces|
    requires ObjectErrors(schema, objectName, objectFields, interfaces[..i]).failure.None?
    requires !(schema.GetType(interfaces[i]).Some? && schema.GetType(interfaces[i]).value.InterfaceType?)
    ensures ObjectErrors(schema, objectName, objectFields, interfaces)
      == Outcome(ObjectErrors(schema, objectName, objectFields, interfaces[..i]).errors, Some(ClassCastException))
  {
    assert interfaces[..i + 1][..i] == interfaces[..i];
    FailureSticks(schema, objectName, objectFields, interfaces, i + 1);
  }

  /** Once a cast has failed, later interfaces add nothing. */
  lemma {:induction false} FailureSticks(schema: Schema, objectName: string, objectFields: seq<FieldDefinition>, interfaces: seq<string>, k: nat)
    requires k <= |interfaces|
    requires ObjectErrors(schema, objectName, objectFields, interfaces[..k]).failure.Some?
    ensures ObjectErrors(schema, objectName, objectFields, interfaces) == ObjectErrors(schema, objectName, objectFields, interfaces[..k])
    decreases |interfaces| - k
  {
    if k < |interfaces| {
      assert interfaces[..k + 1][..k] == interfaces[..k];
      FailureSticks(schema, objectName, objectFields, interfaces, k + 1);
    } else {
      assert interfaces[..k] == interfaces;
    }
  }

  /** At most one error per interface field, and none exactly when every
      interface field is present in the object with the same unwrapped
      type name, whatever list or non-null wrappers either side has. */
  lemma {:induction false} InterfaceErrorsExactly(objectName: string, objectFields: seq<FieldDefinition>, interfaceName: string, interfaceFields: seq<FieldDefinition>)
    ensures |InterfaceErrors(objectName, objectFields, interfaceName, interfaceFields)| <= |interfaceFields|
    ensures InterfaceErrors(objectName, objectFields, interfaceName, interfaceFields) == [] <==>
      forall f :: f in interfaceFields ==>
        FindField(objectFields, f.name).Some? && UnwrapAll(FindField(objectFields, f.name).value.fieldType) == UnwrapAll(f.fieldType)
  {
    if interfaceFields != [] {
      var init := interfaceFields[..|interfaceFields| - 1];
      InterfaceErrorsExactly(objectName, objectFields, interfaceName, init);
      assert interfaceFields == init + [interfaceFields[|interfaceFields| - 1]];
    }
  }

  /** A missing field is reported as missing, and a present one whose
      unwrapped type name differs as a type mismatch naming both types. */
  lemma {:induction false} FieldErrorCases(objectName: string, objectFields: seq<FieldDefinition>, interfaceName: string, interfaceField: FieldDefinition)
    ensures (forall d :: d in objectFields ==> d.name != interfaceField.name) ==>
      FieldError(objectName, objectFields, interfaceName, interfaceField) == Some(MissingFieldError(objectName, interfaceName, interfaceField.name))
    ensures forall d :: d in objectFields && d.name == interfaceField.name && UnwrapAll(d.fieldType) != UnwrapAll(interfaceField.fieldType) && FindField(objectFields, interfaceField.name) == Some(d) ==>
      FieldError(objectName, objectFields, interfaceName, interfaceField)
        == Some(FieldTypeError(objectName, interfaceName, interfaceField.name, UnwrapAll(d.fieldType), UnwrapAll(interfaceField.fieldType)))
  {
  }

  /** Types other than objects are never reported. */
  lemma {:induction false} OnlyObjectsChecked(schema: Schema, t: NamedType)
    requires !t.ObjectType?
    ensures TypeErrors(schema, t) == Outcome([], None)
  {
  }

  /** Every declared interface is checked, in order: without a failed cast
      the errors are those of each interface one after the other. */
  lemma {:induction false} ObjectErrorsAreInterfaceErrors(schema: Schema, objectName: string, objectFields: seq<FieldDefinition>, interfaces: seq<string>)
    requires forall n :: n in interfaces ==> n in schema.types && schema.types[n].InterfaceType?
    ensures ObjectErrors(schema, objectName, objectFields, interfaces).failure.None?
    ensures ObjectErrors(schema, objectName, objectFields, interfaces).errors == [] <==>
      forall n :: n in interfaces ==> InterfaceErrors(objectName, objectFields, schema.types[n].name, schema.types[n].fields) == []
  {
    if interfaces != [] {
      var init := interfaces[..|interfaces| - 1];
      assert forall n :: n in init ==> n in interfaces;
      ObjectErrorsAreInterfaceErrors(schema, objectName, objectFields, init);
      assert interfaces == init + [interfaces[|interfaces| - 1]];
    }
  }
}
