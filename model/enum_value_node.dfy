/** The `EnumValue` value node: an enum literal with a settable name. */
module EnumValueNode {
  import opened Common
  import opened LanguageNode

  class EnumValue {
    var name: Option<string>

    constructor (name: Option<string>)
      ensures this.name == name
    {
      this.name := name;
    }

    method SetName(n: Option<string>)
      modifies this
      ensures name == n
    {
      name := n;
    }

    /** `getChildren`: an enum value has none. */
    function GetChildren(): (r: seq<Node>)
      ensures r == []
    {
      []
    }

    /** `isEqualTo` against another EnumValue or null: same name, both null
        counting as equal. */
    predicate IsEqualTo(o: EnumValue?)
      reads this, o
      ensures IsEqualTo(o) ==> o != null
    {
      this == o || (o != null && name == o.name)
    }

    /** `deepCopy`: a new node with the same name. */
    method DeepCopy() returns (r: EnumValue)
      ensures fresh(r) && r.name == name
      ensures IsEqualTo(r) && r.IsEqualTo(this)
    {
      r := new EnumValue(name);
    }
  }

  /** A copy is a node of its own: renaming it leaves the original as it
      was, and the two then differ exactly when the names differ. */
  method CopyThenRename(original: EnumValue, n: Option<string>) returns (copy: EnumValue)
    ensures fresh(copy) && original.name == old(original.name) && copy.name == n
    ensures copy.IsEqualTo(original) <==> n == original.name
  {
    copy := original.DeepCopy();
    copy.SetName(n);
  }
}
