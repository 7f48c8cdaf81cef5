/** The `ScalarTypeDefinition` node of a schema document: `scalar Name`,
    an immutable value made by its constructor or Builder. */
module ScalarTypeDefinitionNode {
  import opened Common
  import Ast
  import opened LanguageNode

  datatype ScalarTypeDefinition = ScalarTypeDefinition(
    name: Option<string>,
    directives: seq<Ast.Directive>,
    description: Option<Description>,
    sourceLocation: Option<SourceLocation>,
    comments: seq<Comment>)

  /** `new ScalarTypeDefinition(name)`: no directives, no description, no
      location, no comments. */
  function NewScalarTypeDefinition(name: Option<string>): (s: ScalarTypeDefinition)
    ensures s.name == name && s.directives == [] && s.description.None? && s.sourceLocation.None? && s.comments == []
  {
    ScalarTypeDefinition(name, [], None, None, [])
  }

  /** `getChildren`: the directives, in order. */
  function GetChildren(s: ScalarTypeDefinition): (r: seq<Node>)
    ensures |r| == |s.directives|
    ensures forall i :: 0 <= i < |r| ==> r[i] == DirectiveNode(s.directives[i])
  {
    DirectiveNodes(s.directives)
  }

  /** The children are the directives, and nothing else. */
  lemma {:induction false} ChildrenAreDirectives(s: ScalarTypeDefinition, t: ScalarTypeDefinition)
    ensures GetChildren(s) == GetChildren(t) <==> s.directives == t.directives
  {
    if GetChildren(s) == GetChildren(t) {
      DirectiveNodesInjective(s.directives, t.directives);
    }
  }

  /** `isEqualTo`: another ScalarTypeDefinition of the same name. */
  predicate IsEqualTo(s: ScalarTypeDefinition, o: ScalarTypeDefinition)
  {
    s.name == o.name
  }

  /** `deepCopy`: name, directives, description, location and comments. */
  function DeepCopy(s: ScalarTypeDefinition): (r: ScalarTypeDefinition)
    ensures r == s && IsEqualTo(r, s)
  {
    ScalarTypeDefinition(s.name, s.directives, s.description, s.sourceLocation, s.comments)
  }

  /** `ScalarTypeDefinition.newScalarTypeDefinition()`. */
  class Builder {
    var sourceLocation: Option<SourceLocation>
    var comments: seq<Comment>
    var name: Option<string>
    var description: Option<Description>
    var directives: seq<Ast.Directive>

    function Current(): ScalarTypeDefinition
      reads this
    {
      ScalarTypeDefinition(name, directives, description, sourceLocation, comments)
    }

    constructor ()
      ensures Current() == ScalarTypeDefinition(None, [], None, None, [])
    {
      sourceLocation := None;
      comments := [];
      name := None;
      description := None;
      directives := [];
    }

    method SetSourceLocation(l: Option<SourceLocation>)
      modifies this
      ensures Current() == old(Current()).(sourceLocation := l)
    {
      sourceLocation := l;
    }

    method SetComments(c: seq<Comment>)
      modifies this
      ensures Current() == old(Current()).(comments := c)
    {
      comments := c;
    }

    method Name(n: Option<string>)
      modifies this
      ensures Current() == old(Current()).(name := n)
    {
      name := n;
    }

    method SetDescription(d: Option<Description>)
      modifies this
      ensures Current() == old(Current()).(description := d)
    {
      description := d;
    }

    method Directives(d: seq<Ast.Directive>)
      modifies this
      ensures Current() == old(Current()).(directives := d)
    {
      directives := d;
    }

    method Build() returns (s: ScalarTypeDefinition)
      ensures s.name == name && s.directives == directives && s.description == description
      ensures s.sourceLocation == sourceLocation && s.comments == comments
    {
      s := ScalarTypeDefinition(name, directives, description, sourceLocation, comments);
    }
  }

  /** A scalar built from a name alone is equal to the one the convenience
      constructor makes. */
  method BuildNamed(n: string) returns (s: ScalarTypeDefinition)
    ensures s == NewScalarTypeDefinition(Some(n))
  {
    var builder := new Builder();
    builder.Name(Some(n));
    s := builder.Build();
  }
}
