/** graphql.validation.rules.FragmentsOnCompositeType: the type condition of
    an inline fragment or fragment definition, when it names a known type,
    must name an object, interface or union. */
module FragmentsOnCompositeType {
  import opened Common
  import opened Ast
  import opened SchemaTypes
  import opened Validation

  function InvalidConditionError(): ValidationError {
    ValidationError(InlineFragmentTypeConditionInvalid, "", [], [])
  }

  /** The errors a type condition naming `typeName` produces: none for an
      unknown name (another rule reports that), one for a known type that
      is not composite. */
  function ConditionErrors(schema: Schema, typeName: string): seq<ValidationError> {
    match schema.GetType(typeName)
    case None => []
    case Some(t) => if t.IsComposite() then [] else [InvalidConditionError()]
  }

  /** `checkInlineFragment`, which reads the type condition's name without
      a null check, so an inline fragment without one throws. */
  function InlineFragmentErrors(schema: Schema, inlineFragment: InlineFragment): (r: Result<seq<ValidationError>>)
    ensures r.Throws? <==> inlineFragment.typeCondition.None?
    ensures r.Throws? ==> r.error == NullPointerException
    ensures r.Ok? ==> r.value == ConditionErrors(schema, inlineFragment.typeCondition.value)
  {
    match inlineFragment.typeCondition
    case None => Throws(NullPointerException)
    case Some(name) => Ok(ConditionErrors(schema, name))
  }

  class FragmentsOnCompositeType {
    const collector: ValidationErrorCollector

    constructor (collector: ValidationErrorCollector)
      ensures this.collector == collector
    {
      this.collector := collector;
    }

    method CheckInlineFragment(schema: Schema, inlineFragment: InlineFragment) returns (r: Result<()>)
      modifies collector
      ensures match InlineFragmentErrors(schema, inlineFragment)
        case Throws(e) => r == Throws(e) && collector.errors == old(collector.errors)
        case Ok(errors) => r == Ok(()) && collector.errors == old(collector.errors) + errors
    {
      if inlineFragment.typeCondition.None? {
        return Throws(NullPointerException);
      }
      var t := schema.GetType(inlineFragment.typeCondition.value);
      if t.None? {
        return Ok(());
      }
      if !t.value.IsComposite() {
        collector.AddError(InvalidConditionError());
      }
      return Ok(());
    }

    method CheckFragmentDefinition(schema: Schema, fragmentDefinition: FragmentDefinition)
      modifies collector
      ensures collector.errors == old(collector.errors) + ConditionErrors(schema, fragmentDefinition.typeCondition)
    {
      var t := schema.GetType(fragmentDefinition.typeCondition);
      if t.None? {
        return;
      }
      if !t.value.IsComposite() {
        collector.AddError(InvalidConditionError());
      }
    }
  }

  /** At most one error, of type InlineFragmentTypeConditionInvalid, and
      one exactly when the condition names a known type that is not an
      object, interface or union. */
  lemma {:induction false} ConditionErrorsExactly(schema: Schema, typeName: string)
    ensures |ConditionErrors(schema, typeName)| <= 1
    ensures forall e :: e in ConditionErrors(schema, typeName) ==> e.errorType == InlineFragmentTypeConditionInvalid
    ensures ConditionErrors(schema, typeName) != [] <==>
      typeName in schema.types && !(schema.types[typeName].ObjectType? || schema.types[typeName].InterfaceType? || schema.types[typeName].UnionType?)
  {
  }

  /** A fragment definition and an inline fragment with the same condition
      are judged alike. */
  lemma {:induction false} DefinitionAndInlineAgree(schema: Schema, fragmentDefinition: FragmentDefinition, inlineFragment: InlineFragment)
    requires inlineFragment.typeCondition == Some(fragmentDefinition.typeCondition)
    ensures InlineFragmentErrors(schema, inlineFragment) == Ok(ConditionErrors(schema, fragmentDefinition.typeCondition))
  {
  }
}
