/** `GraphQLNonNull`: the modifier that wraps another type, compared and
    hashed by what it wraps. */
module GraphQLNonNullModel {
  import opened Common
  import opened SchemaTypes

  class GraphQLNonNull {
    /** The constructor refuses null, but `replaceType` does not. */
    var wrappedType: Option<TypeRef>

    constructor Init(wrappedType: TypeRef)
      ensures this.wrappedType == Some(wrappedType)
    {
      this.wrappedType := Some(wrappedType);
    }

    /** `replaceType`: swaps the wrapped type in place. */
    method ReplaceType(t: Option<TypeRef>)
      modifies this
      ensures wrappedType == t
    {
      wrappedType := t;
    }

    /** `equals` against another `GraphQLNonNull` (or null): the same object,
        or wrapped types that are equal, both null counting as equal. */
    predicate Equals(o: GraphQLNonNull?)
      reads this, o
      ensures Equals(o) ==> o != null
      ensures o == this ==> Equals(o)
    {
      this == o || (o != null && wrappedType == o.wrappedType)
    }

    /** `hashCode`: the wrapped type's hash, or 0 for null. */
    function HashCode(hash: TypeRef -> int): (h: int)
      reads this
      ensures wrappedType.None? ==> h == 0
      ensures wrappedType.Some? ==> h == hash(wrappedType.value)
    {
      if wrappedType.Some? then hash(wrappedType.value) else 0
    }

    /** `getName`: a modifier has no name of its own. */
    function GetName(): (r: Option<string>)
      ensures r.None?
    {
      None
    }

    /** `getChildren`: a single child, the wrapped type (null included). */
    function GetChildren(): (r: seq<Option<TypeRef>>)
      reads this
      ensures |r| == 1 && r[0] == wrappedType
    {
      [wrappedType]
    }

    /** `toString`, with `show` standing for the wrapped type's own
        `toString` and null printed as "null". */
    function ToString(show: TypeRef -> string): (s: string)
      reads this
      ensures |s| >= |"GraphQLNonNull{wrappedType=}"|
      ensures s[..|"GraphQLNonNull{wrappedType="|] == "GraphQLNonNull{wrappedType="
      ensures s[|s| - 1] == '}'
    {
      "GraphQLNonNull{wrappedType=" + (if wrappedType.Some? then show(wrappedType.value) else "null") + "}"
    }
  }

  /** `new GraphQLNonNull(wrappedType)` and `nonNull`: null is refused. */
  method Create(wrappedType: Option<TypeRef>) returns (r: Result<GraphQLNonNull>)
    ensures wrappedType.None? <==> r == Throws(AssertException("wrappedType can't be null"))
    ensures r.Ok? ==> fresh(r.value) && r.value.wrappedType == wrappedType
  {
    if wrappedType.None? {
      return Throws(AssertException("wrappedType can't be null"));
    }
    var nonNull := new GraphQLNonNull.Init(wrappedType.value);
    return Ok(nonNull);
  }

  /** `equals` is an equivalence on non-null types. */
  lemma {:induction false} EqualsIsEquivalence(a: GraphQLNonNull, b: GraphQLNonNull, c: GraphQLNonNull)
    ensures a.Equals(a)
    ensures a.Equals(b) <==> b.Equals(a)
    ensures a.Equals(b) && b.Equals(c) ==> a.Equals(c)
    ensures !a.Equals(null)
  {
  }

  /** Equal types hash alike, whatever the wrapped types' hash function. */
  lemma {:induction false} EqualsAgreesWithHashCode(a: GraphQLNonNull, b: GraphQLNonNull, hash: TypeRef -> int)
    requires a.Equals(b)
    ensures a.HashCode(hash) == b.HashCode(hash)
  {
  }

  /** Two distinct wrappers of the same type are equal; wrapping different
      types makes them unequal. */
  method EqualsByWrappedType(t: TypeRef, u: TypeRef) returns (same: bool, different: bool)
    ensures same
    ensures different <==> t != u
  {
    var a := new GraphQLNonNull.Init(t);
    var b := new GraphQLNonNull.Init(t);
    var c := new GraphQLNonNull.Init(u);
    same := a.Equals(b);
    different := !a.Equals(c);
  }

  /** After `replaceType(null)` two wrappers compare equal, since both
      wrapped types are null, and hash to 0. */
  method ReplacedByNullStillEqual(t: TypeRef, u: TypeRef, hash: TypeRef -> int) returns (equal: bool, h: int)
    ensures equal && h == 0
  {
    var a := new GraphQLNonNull.Init(t);
    var b := new GraphQLNonNull.Init(u);
    a.ReplaceType(None);
    b.ReplaceType(None);
    equal := a.Equals(b);
    h := a.HashCode(hash);
  }
}
