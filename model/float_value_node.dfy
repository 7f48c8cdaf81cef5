/** The `FloatValue` literal node: an immutable decimal, made through its
    Builder. */
module FloatValueNode {
  import opened Common
  import Ast
  import opened LanguageNode

  /** The value is a `BigDecimal`, unscaled value and scale, or null. */
  datatype FloatValue = FloatValue(value: Option<Ast.Decimal>, sourceLocation: Option<SourceLocation>, comments: seq<Comment>)

  /** `getChildren`: none. */
  function GetChildren(f: FloatValue): (r: seq<Node>)
    ensures r == []
  {
    []
  }

  /** `isEqualTo`: both values null, or `BigDecimal.equals`, which holds
      only when unscaled value and scale both agree. */
  predicate IsEqualTo(f: FloatValue, o: FloatValue)
  {
    f.value == o.value
  }

  /** The same number written with another scale is not equal: 2.0 and
      2.00 are different nodes. */
  lemma {:induction false} IsEqualToComparesScale(u: int, s: int)
    requires s >= 0
    ensures !IsEqualTo(FloatValue(Some(Ast.Decimal(u, s)), None, []), FloatValue(Some(Ast.Decimal(u * 10, s + 1)), None, []))
  {
  }

  /** `deepCopy`: the value, location and comments carried over. */
  function DeepCopy(f: FloatValue): (r: FloatValue)
    ensures r == f && IsEqualTo(r, f)
  {
    FloatValue(f.value, f.sourceLocation, f.comments)
  }

  /** `FloatValue.newFloatValue()`. */
  class Builder {
    var sourceLocation: Option<SourceLocation>
    var value: Option<Ast.Decimal>
    var comments: seq<Comment>

    constructor ()
      ensures sourceLocation.None? && value.None? && comments == []
    {
      sourceLocation := None;
      value := None;
      comments := [];
    }

    method SetSourceLocation(l: Option<SourceLocation>)
      modifies this
      ensures sourceLocation == l && value == old(value) && comments == old(comments)
    {
      sourceLocation := l;
    }

    method Value(v: Option<Ast.Decimal>)
      modifies this
      ensures value == v && sourceLocation == old(sourceLocation) && comments == old(comments)
    {
      value := v;
    }

    method SetComments(c: seq<Comment>)
      modifies this
      ensures comments == c && sourceLocation == old(sourceLocation) && value == old(value)
    {
      comments := c;
    }

    /** `build`: the value, location and comments that were set. */
    method Build() returns (f: FloatValue)
      ensures f.value == value && f.sourceLocation == sourceLocation && f.comments == comments
    {
      f := FloatValue(value, sourceLocation, comments);
    }
  }

  /** Building after setting a value gives a node holding that value, equal
      to any other node built with it. */
  method BuildWithValue(v: Ast.Decimal, other: FloatValue) returns (f: FloatValue)
    ensures f.value == Some(v)
    ensures IsEqualTo(f, other) <==> other.value == Some(v)
  {
    var builder := new Builder();
    builder.Value(Some(v));
    f := builder.Build();
  }
}
