/** What the `Object` slots of arguments and input fields can hold, the
    state tags their builders keep beside them, and the name check that
    schema elements run on construction. */
module InputValues {
  import opened Common
  import Ast
  import opened RuntimeValues

  /** How a builder's value slot was last set. */
  datatype ValueState = NOT_SET | LITERAL | EXTERNAL_VALUE | INTERNAL_VALUE

  /** A value slot: the private "not set" sentinel, an AST literal (`instanceof
      Value`), a ValueState constant stored by mistake, or any other runtime
      object (null included). */
  datatype InputValue =
    | ValueSentinel
    | AstLiteral(literal: Ast.Value)
    | StateConstant(state: ValueState)
    | Plain(obj: Object)

  /** The null reference in a value slot. */
  const NULL_VALUE: InputValue := Plain(Null)

  predicate IsNameStart(c: char) { c == '_' || 'A' <= c <= 'Z' || 'a' <= c <= 'z' }

  predicate IsNameContinue(c: char) { IsNameStart(c) || '0' <= c <= '9' }

  /** A GraphQL name, `[_A-Za-z][_0-9A-Za-z]*`, as in section 2.1.9 of the
      GraphQL specification. */
  predicate ValidName(name: string)
  {
    |name| > 0 && IsNameStart(name[0]) && forall i :: 1 <= i < |name| ==> IsNameContinue(name[i])
  }

  /** `assertValidName`: the name is returned when valid, otherwise an
      AssertException is thrown. */
  function AssertValidName(name: Option<string>): (r: Result<string>)
    ensures r.Ok? <==> name.Some? && ValidName(name.value)
    ensures r.Ok? ==> r.value == name.value
    ensures r.Throws? ==> r.error.AssertException?
  {
    if name.Some? && ValidName(name.value) then Ok(name.value)
    else Throws(AssertException(InvalidNameMessage(name)))
  }

  function InvalidNameMessage(name: Option<string>): string
  {
    "Name must be non-null, non-empty and match [_A-Za-z][_0-9A-Za-z]* - was '"
      + (if name.Some? then name.value else "null") + "'"
  }
}
