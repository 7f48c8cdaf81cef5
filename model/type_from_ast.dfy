/** graphql.execution.TypeFromAST: a type as written in a document becomes
    a schema type, wrapper by wrapper. A type name is looked up with
    SchemaUtil.findType, modelled as a lookup in the schema's type map: an
    unknown name gives null. Wrapping that null in GraphQLNonNull fails its
    not-null assertion; GraphQLList is taken to assert the same way. */
module TypeFromAST {
  import opened Common
  import opened Ast
  import opened SchemaTypes

  /** `SchemaUtil.findType`: the named type, or null. */
  function FindType(schema: Schema, typeName: string): (r: Option<TypeRef>)
    ensures r.Some? <==> typeName in schema.types
    ensures r.Some? ==> r.value == Named(typeName)
  {
    if typeName in schema.types then Some(Named(typeName)) else None
  }

  /** `getTypeFromAST`. */
  function GetTypeFromAST(schema: Schema, t: Type): (r: Result<Option<TypeRef>>)
    ensures t.TypeName? ==> r == Ok(FindType(schema, t.name))
    ensures r.Throws? ==> r.error == AssertException("wrappedType can't be null")
  {
    match t
    case ListType(inner) =>
      var wrapped :- GetTypeFromAST(schema, inner);
      if wrapped.None? then Throws(AssertException("wrappedType can't be null")) else Ok(Some(ListOf(wrapped.value)))
    case NonNullType(inner) =>
      var wrapped :- GetTypeFromAST(schema, inner);
      if wrapped.None? then Throws(AssertException("wrappedType can't be null")) else Ok(Some(NonNullOf(wrapped.value)))
    case TypeName(n) => Ok(FindType(schema, n))
  }

  /** The document form of a schema type reference: the partner of
      `GetTypeFromAST`. */
  function TypeToAst(t: TypeRef): Type {
    match t
    case Named(n) => TypeName(n)
    case ListOf(i) => ListType(TypeToAst(i))
    case NonNullOf(i) => NonNullType(TypeToAst(i))
  }

  /** Every name under the wrappers is a type of the schema. */
  predicate AllNamesKnown(schema: Schema, t: Type) {
    match t
    case TypeName(n) => n in schema.types
    case ListType(i) => AllNamesKnown(schema, i)
    case NonNullType(i) => AllNamesKnown(schema, i)
  }

  /** A converted type keeps the wrappers, their nesting and order, and the
      name: turned back into a document type it is the type converted. */
  lemma {:induction false} TypeFromAstKeepsShape(schema: Schema, t: Type)
    requires GetTypeFromAST(schema, t).Ok? && GetTypeFromAST(schema, t).value.Some?
    ensures TypeToAst(GetTypeFromAST(schema, t).value.value) == t
  {
    match t
    case TypeName(_) =>
    case ListType(i) => TypeFromAstKeepsShape(schema, i);
    case NonNullType(i) => TypeFromAstKeepsShape(schema, i);
  }

  /** The conversion yields a type exactly when every name is known, and it
      throws exactly when an unknown name sits under a wrapper. */
  lemma {:induction false} TypeFromAstDefinedOnKnownNames(schema: Schema, t: Type)
    ensures GetTypeFromAST(schema, t).Ok? && GetTypeFromAST(schema, t).value.Some? <==> AllNamesKnown(schema, t)
    ensures GetTypeFromAST(schema, t) == Ok(None) <==> t.TypeName? && t.name !in schema.types
  {
    match t
    case TypeName(_) =>
    case ListType(i) => TypeFromAstDefinedOnKnownNames(schema, i);
    case NonNullType(i) => TypeFromAstDefinedOnKnownNames(schema, i);
  }

  /** Conversely, every schema type reference over known names is the
      conversion of its document form. */
  lemma {:induction false} TypeToAstRoundTrip(schema: Schema, t: TypeRef)
    requires AllNamesKnown(schema, TypeToAst(t))
    ensures GetTypeFromAST(schema, TypeToAst(t)) == Ok(Some(t))
  {
    match t
    case Named(_) =>
    case ListOf(i) => TypeToAstRoundTrip(schema, i);
    case NonNullOf(i) => TypeToAstRoundTrip(schema, i);
  }
}
