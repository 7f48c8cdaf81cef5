/** The query-language syntax tree (package graphql.language) as values:
    the shapes the collectors and validation rules walk over. Node classes
    whose own behaviour is modelled (Field, InlineFragment, Directive, ...)
    have a module of their own beside this one. */
module Ast {
  import opened Common

  /** java.math.BigDecimal: unscaledValue * 10^(-scale). */
  datatype Decimal = Decimal(unscaled: int, scale: int)

  /** Literal values (the implementations of graphql.language.Value). */
  datatype Value =
    | IntValue(intValue: int)
    | FloatValue(floatValue: Decimal)
    | StringValue(text: string)
    | BooleanValue(boolValue: bool)
    | EnumValue(enumName: string)
    | NullValue
    | VariableReference(variableName: string)
    | ArrayValue(values: seq<Value>)
    | ObjectValue(objectFields: seq<ObjectField>)

  datatype ObjectField = ObjectField(name: string, value: Value)

  /** A type as written in a document: `T`, `[T]`, `T!`. */
  datatype Type = TypeName(name: string) | ListType(inner: Type) | NonNullType(inner: Type)

  /** An argument; its value may be a null reference. */
  datatype Argument = Argument(name: string, value: Option<Value>)

  datatype Directive = Directive(name: string, arguments: seq<Argument>)

  datatype Field = Field(
    name: string,
    alias: Option<string>,
    arguments: seq<Argument>,
    directives: seq<Directive>,
    selectionSet: Option<SelectionSet>)

  datatype InlineFragment = InlineFragment(
    typeCondition: Option<string>,
    directives: seq<Directive>,
    selectionSet: SelectionSet)

  datatype FragmentSpread = FragmentSpread(name: string, directives: seq<Directive>)

  datatype Selection =
    | FieldSelection(field: Field)
    | InlineSelection(inline: InlineFragment)
    | SpreadSelection(spread: FragmentSpread)

  datatype SelectionSet = SelectionSet(selections: seq<Selection>)

  datatype FragmentDefinition = FragmentDefinition(
    name: string,
    typeCondition: string,
    directives: seq<Directive>,
    selectionSet: SelectionSet)

  datatype OperationKind = Query | Mutation | Subscription

  datatype OperationDefinition = OperationDefinition(
    name: Option<string>,
    operation: OperationKind,
    directives: seq<Directive>,
    selectionSet: SelectionSet)

  datatype Definition =
    | OperationDef(operationDefinition: OperationDefinition)
    | FragmentDef(fragmentDefinition: FragmentDefinition)
    | OtherDefinition

  datatype Document = Document(definitions: seq<Definition>)

  /** The number of selection nodes in a selection list, counting nested
      ones; the measure that recursive descent into selection sets shrinks. */
  function SelectionsSize(selections: seq<Selection>): (n: nat)
    ensures n >= |selections|
  {
    if selections == [] then 0 else SelectionSize(selections[0]) + SelectionsSize(selections[1..])
  }

  function SelectionSize(selection: Selection): (n: nat)
    ensures n >= 1
  {
    match selection
    case FieldSelection(f) => 1 + (if f.selectionSet.Some? then SelectionsSize(f.selectionSet.value.selections) else 0)
    case InlineSelection(i) => 1 + SelectionsSize(i.selectionSet.selections)
    case SpreadSelection(_) => 1
  }

  /** A selection is no larger than the list holding it. */
  lemma {:induction false} SelectionSizeBound(selections: seq<Selection>, i: nat)
    requires i < |selections|
    ensures SelectionSize(selections[i]) <= SelectionsSize(selections)
  {
    if i > 0 {
      assert selections[1..][i - 1] == selections[i];
      SelectionSizeBound(selections[1..], i - 1);
    }
  }
}
