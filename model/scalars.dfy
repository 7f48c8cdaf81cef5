/** The built-in Int, String, Boolean and ID scalars: `coerce` turns a runtime
    input into the scalar's runtime value and `coerceLiteral` turns a query
    literal into it. Float is not part of this model. */
module Scalars {
  import opened Common
  import opened JavaLang
  import opened Ast
  import opened RuntimeValues

  datatype BuiltInScalar = GraphQLInt | GraphQLString | GraphQLBoolean | GraphQLID
  {
    function Name(): string {
      match this
      case GraphQLInt => "Int"
      case GraphQLString => "String"
      case GraphQLBoolean => "Boolean"
      case GraphQLID => "ID"
    }
  }

  /** What `coerceLiteral` returns: the Int literal's number, the String
      literal's text, or (Boolean and ID) the literal node itself. */
  datatype LiteralResult = LiteralInt(intValue: int) | LiteralText(text: string) | SameLiteral(literal: Value)

  /** Int `coerce`: a String goes through `Integer.parseInt`, an Integer is
      returned as is, and any other input throws a GraphQLException with an
      empty message. */
  function IntCoerce(input: Object): (r: Result<Object>)
    ensures r.Ok? ==> r.value.JInteger?
    ensures input.JInteger? ==> r == Ok(input)
    ensures input.JString? ==> (r.Ok? <==> ParseInt(input.stringValue).Ok?)
    ensures input.JString? && r.Ok? ==> r.value.intValue == ParseInt(input.stringValue).value
    ensures !input.JString? && !input.JInteger? ==> r == Throws(GraphQLException(""))
  {
    match input
    case JString(s) =>
      var parsed := ParseInt(s);
      if parsed.Ok? then Ok(JInteger(parsed.value)) else Throws(parsed.error)
    case JInteger(_) => Ok(input)
    case _ => Throws(GraphQLException(""))
  }

  /** Int `coerceLiteral`: the cast to IntValue fails on any other literal,
      and the value is returned without an `int` range check. */
  function IntCoerceLiteral(input: Value): (r: Result<LiteralResult>)
    ensures r.Ok? <==> input.IntValue?
    ensures r.Ok? ==> r.value.LiteralInt? && input == IntValue(r.value.intValue)
    ensures r.Throws? ==> r.error == ClassCastException
  {
    if input.IntValue? then Ok(LiteralInt(input.intValue)) else Throws(ClassCastException)
  }

  /** String `coerce` returns its input unchanged. */
  function StringCoerce(input: Object): (r: Result<Object>)
    ensures r == Ok(input)
  {
    Ok(input)
  }

  /** String `coerceLiteral`: the text of a StringValue; the cast fails on
      any other literal. */
  function StringCoerceLiteral(input: Value): (r: Result<LiteralResult>)
    ensures r.Ok? <==> input.StringValue?
    ensures r.Ok? ==> r.value.LiteralText? && input == StringValue(r.value.text)
    ensures r.Throws? ==> r.error == ClassCastException
  {
    if input.StringValue? then Ok(LiteralText(input.text)) else Throws(ClassCastException)
  }

  /** `coerce` of the given built-in scalar. */
  function Coerce(scalar: BuiltInScalar, input: Object): (r: Result<Object>)
    ensures scalar != GraphQLInt ==> r == Ok(input)
    ensures scalar == GraphQLInt ==> r == IntCoerce(input)
  {
    match scalar
    case GraphQLInt => IntCoerce(input)
    case GraphQLString => StringCoerce(input)
    case _ => Ok(input)
  }

  /** `coerceLiteral` of the given built-in scalar. */
  function CoerceLiteral(scalar: BuiltInScalar, input: Value): (r: Result<LiteralResult>)
    ensures scalar == GraphQLBoolean || scalar == GraphQLID ==> r == Ok(SameLiteral(input))
    ensures scalar == GraphQLInt ==> r == IntCoerceLiteral(input)
    ensures scalar == GraphQLString ==> r == StringCoerceLiteral(input)
  {
    match scalar
    case GraphQLInt => IntCoerceLiteral(input)
    case GraphQLString => StringCoerceLiteral(input)
    case _ => Ok(SameLiteral(input))
  }

  /** Coercing an `int` printed as a decimal string gives back that `int`. */
  lemma {:induction false} IntCoerceOfPrinted(i: int)
    requires IsInt(i)
    ensures IntCoerce(JString(IntToString(i))) == Ok(JInteger(i))
  {
    ParseIntToString(i);
  }

  /** Int `coerce` is idempotent: coercing a coerced value changes nothing. */
  lemma {:induction false} IntCoerceIdempotent(input: Object)
    requires IntCoerce(input).Ok?
    ensures IntCoerce(IntCoerce(input).value) == IntCoerce(input)
  {
  }

  /** A string that is not a decimal `int` fails to coerce, as `parseInt`
      fails on it: the empty string, a lone sign, and the decimal text of any
      number above the `int` range. */
  lemma {:induction false} IntCoerceRejects(n: nat)
    requires n > INT_MAX
    ensures IntCoerce(JString("")).Throws?
    ensures IntCoerce(JString("-")).Throws?
    ensures IntCoerce(JString(NatToDigits(n))) == Throws(NumberFormatException)
  {
    DigitsRoundTrip(n);
    assert IsDigit(NatToDigits(n)[0]);
  }

  /** An Int literal outside the `int` range is accepted unchanged. */
  lemma {:induction false} IntLiteralUnchecked(v: int)
    ensures CoerceLiteral(GraphQLInt, IntValue(v)) == Ok(LiteralInt(v))
  {
  }

  /** Printing a string literal and coercing it back gives the text. */
  lemma {:induction false} StringLiteralRoundTrip(text: string)
    ensures CoerceLiteral(GraphQLString, StringValue(text)) == Ok(LiteralText(text))
  {
  }
}
