/** The `ObjectTypeDefinition` node of a schema document:
    `type Name implements ... @directives { fields }`, with a settable
    name. */
module ObjectTypeDefinitionNode {
  import opened Common
  import Ast
  import opened LanguageNode

  class ObjectTypeDefinition {
    var name: Option<string>
    const implementz: seq<Ast.Type>
    const directives: seq<Ast.Directive>
    const fieldDefinitions: seq<FieldDefinition>

    /** `new ObjectTypeDefinition(name)`: three empty lists. */
    constructor (name: Option<string>)
      ensures this.name == name && implementz == [] && directives == [] && fieldDefinitions == []
    {
      this.name := name;
      implementz := [];
      directives := [];
      fieldDefinitions := [];
    }

    constructor Init(name: Option<string>, implementz: seq<Ast.Type>, directives: seq<Ast.Directive>, fieldDefinitions: seq<FieldDefinition>)
      ensures this.name == name && this.implementz == implementz
      ensures this.directives == directives && this.fieldDefinitions == fieldDefinitions
    {
      this.name := name;
      this.implementz := implementz;
      this.directives := directives;
      this.fieldDefinitions := fieldDefinitions;
    }

    /** `getDirective`: a directive of that name, or null. */
    function GetDirective(directiveName: string): (r: Option<Ast.Directive>)
      ensures r.Some? <==> exists i :: 0 <= i < |directives| && directives[i].name == directiveName
      ensures r.Some? ==> r.value in directives && r.value.name == directiveName
    {
      DirectiveNamed(directives, directiveName)
    }

    method SetName(n: Option<string>)
      modifies this
      ensures name == n
    {
      name := n;
    }

    /** `getChildren`: the implemented interfaces, the directives, then the
        field definitions. */
    function GetChildren(): (r: seq<Node>)
      ensures |r| == |implementz| + |directives| + |fieldDefinitions|
      ensures r[..|implementz|] == TypeNodes(implementz)
      ensures r[|implementz|..|implementz| + |directives|] == DirectiveNodes(directives)
      ensures r[|implementz| + |directives|..] == FieldDefinitionNodes(fieldDefinitions)
    {
      TypeNodes(implementz) + DirectiveNodes(directives) + FieldDefinitionNodes(fieldDefinitions)
    }

    /** `isEqualTo` against another ObjectTypeDefinition or null: the same
        name. */
    predicate IsEqualTo(o: ObjectTypeDefinition?)
      reads this, o
      ensures IsEqualTo(o) ==> o != null
    {
      this == o || (o != null && name == o.name)
    }

    /** `deepCopy`: a new node with the same name and lists. */
    method DeepCopy() returns (r: ObjectTypeDefinition)
      ensures fresh(r) && r.name == name && r.IsEqualTo(this)
      ensures r.GetChildren() == GetChildren()
    {
      r := new ObjectTypeDefinition.Init(name, implementz, directives, fieldDefinitions);
    }
  }

  /** Renaming a definition changes only its name, so a copy taken before
      keeps the same children and stays equal to it exactly when the new
      name is the old one. */
  method RenameAfterCopy(d: ObjectTypeDefinition, n: Option<string>) returns (copy: ObjectTypeDefinition)
    modifies d
    ensures d.name == n && d.GetChildren() == copy.GetChildren()
    ensures copy.name == old(d.name)
    ensures d.IsEqualTo(copy) <==> n == old(d.name)
  {
    copy := d.DeepCopy();
    d.SetName(n);
  }
}
