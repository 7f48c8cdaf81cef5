/** The `VariableReference` value node: `$name`, with a settable name. */
module VariableReferenceNode {
  import opened Common
  import opened JavaLang
  import opened LanguageNode

  class VariableReference {
    var name: Option<string>

    constructor (name: Option<string>)
      ensures this.name == name
    {
      this.name := name;
    }

    method SetName(n: Option<string>)
      modifies this
      ensures name == n
    {
      name := n;
    }

    /** `getChildren`: a variable reference has none. */
    function GetChildren(): (r: seq<Node>)
      ensures r == []
    {
      []
    }

    /** `equals` against another VariableReference or null: same name, both
        null counting as equal. */
    predicate Equals(o: VariableReference?)
      reads this, o
      ensures Equals(o) ==> o != null
    {
      this == o || (o != null && name == o.name)
    }

    /** `hashCode`: the name's `String.hashCode`, or 0 for a null name. */
    function HashCode(): (h: int)
      reads this
      ensures IsInt(h)
      ensures name.None? ==> h == 0
      ensures name.Some? ==> h == StringHash(name.value)
    {
      HashOrZero(name, StringHash)
    }
  }

  /** Equal references hash alike; `equals` is symmetric. */
  lemma {:induction false} EqualsAgreesWithHashCode(a: VariableReference, b: VariableReference)
    ensures a.Equals(b) <==> b.Equals(a)
    ensures a.Equals(b) ==> a.HashCode() == b.HashCode()
  {
  }

  /** Renaming one reference to another's name makes them equal; the other
      is untouched. */
  method RenameToMatch(a: VariableReference, b: VariableReference)
    requires a != b
    modifies a
    ensures a.Equals(b) && b.name == old(b.name)
  {
    a.SetName(b.name);
  }
}
