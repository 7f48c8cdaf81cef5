/** The schema side (package graphql.schema) as values. Named types refer to
    one another by name, because the schema graph is cyclic; a name is unique
    within a schema, so name equality stands for the identity equality the
    named type classes inherit from Object. */
module SchemaTypes {
  import opened Common
  import opened Ast

  /** An output or input type reference: a named type under any number of
      list and non-null wrappers. */
  datatype TypeRef = Named(name: string) | ListOf(inner: TypeRef) | NonNullOf(inner: TypeRef)

  /** GraphQLTypeUtil.unwrapAll: the named type under all wrappers. */
  function UnwrapAll(t: TypeRef): (n: string)
    ensures t.Named? ==> n == t.name
  {
    match t
    case Named(n) => n
    case ListOf(i) => UnwrapAll(i)
    case NonNullOf(i) => UnwrapAll(i)
  }

  datatype ArgumentDefinition = ArgumentDefinition(name: string, argumentType: TypeRef, defaultValue: Option<Value>)

  datatype FieldDefinition = FieldDefinition(name: string, fieldType: TypeRef, arguments: seq<ArgumentDefinition>) {
    /** `getArgument(name)`: the argument with that name, or null. */
    function ArgumentNamed(argumentName: string): (r: Option<ArgumentDefinition>)
      ensures r.Some? ==> r.value in arguments && r.value.name == argumentName
      ensures r.None? ==> forall a :: a in arguments ==> a.name != argumentName
    {
      FindArgumentDefinition(arguments, argumentName)
    }
  }

  /** The first argument definition in `arguments` with the given name. */
  function FindArgumentDefinition(arguments: seq<ArgumentDefinition>, argumentName: string): (r: Option<ArgumentDefinition>)
    ensures r.Some? ==> r.value in arguments && r.value.name == argumentName
    ensures r.None? ==> forall a :: a in arguments ==> a.name != argumentName
  {
    if arguments == [] then None
    else if arguments[0].name == argumentName then Some(arguments[0])
    else FindArgumentDefinition(arguments[1..], argumentName)
  }

  datatype InputFieldDefinition = InputFieldDefinition(name: string, fieldType: TypeRef)

  datatype NamedType =
    | ObjectType(name: string, fields: seq<FieldDefinition>, interfaces: seq<string>)
    | InterfaceType(name: string, fields: seq<FieldDefinition>, interfaces: seq<string>)
    | UnionType(name: string, members: seq<string>)
    | ScalarType(name: string)
    | EnumType(name: string, enumValues: seq<string>)
    | InputObjectType(name: string, inputFields: seq<InputFieldDefinition>)
  {
    /** GraphQLCompositeType: object, interface or union. */
    predicate IsComposite() { ObjectType? || InterfaceType? || UnionType? }

    /** GraphQLFieldsContainer: object or interface. */
    predicate IsFieldsContainer() { ObjectType? || InterfaceType? }

    /** `getFieldDefinition(name)` of a fields container: the definition
        with that name, or null. */
    function FieldDefinitionNamed(fieldName: string): (r: Option<FieldDefinition>)
      requires IsFieldsContainer()
      ensures r.Some? ==> r.value in fields && r.value.name == fieldName
      ensures r.None? ==> forall d :: d in fields ==> d.name != fieldName
    {
      FindField(fields, fieldName)
    }
  }

  /** The first definition in `fields` with the given name. */
  function FindField(fields: seq<FieldDefinition>, fieldName: string): (r: Option<FieldDefinition>)
    ensures r.Some? ==> r.value in fields && r.value.name == fieldName
    ensures r.None? ==> forall d :: d in fields ==> d.name != fieldName
  {
    if fields == [] then None
    else if fields[0].name == fieldName then Some(fields[0])
    else FindField(fields[1..], fieldName)
  }

  /** GraphQLSchema: the named types, the root operation types, and the
      implementations of each interface. */
  datatype Schema = Schema(
    types: map<string, NamedType>,
    queryType: string,
    mutationType: Option<string>,
    subscriptionType: Option<string>,
    implementations: map<string, seq<string>>)
  {
    /** `getType(name)`: the named type, or null. */
    function GetType(typeName: string): Option<NamedType> {
      if typeName in types then Some(types[typeName]) else None
    }

    /** `getImplementations(interface)`; an interface without any has none. */
    function Implementations(interfaceName: string): seq<string> {
      if interfaceName in implementations then implementations[interfaceName] else []
    }
  }
}
