/** The `InputValueDefinition` node of a schema document: an argument or
    input field declaration, an immutable value made through its Builder. */
module InputValueDefinitionNode {
  import opened Common
  import Ast
  import opened LanguageNode

  datatype InputValueDefinition = InputValueDefinition(
    name: Option<string>,
    valueType: Option<Ast.Type>,
    defaultValue: Option<Ast.Value>,
    directives: seq<Ast.Directive>,
    description: Option<Description>,
    sourceLocation: Option<SourceLocation>,
    comments: seq<Comment>)

  /** `getChildren`: the type, the default value, then the directives; the
      default value is listed even when it is null. */
  function GetChildren(v: InputValueDefinition): (r: seq<Node>)
    ensures |r| == 2 + |v.directives|
    ensures r[0] == TypeOrNull(v.valueType) && r[1] == ValueOrNull(v.defaultValue)
    ensures r[2..] == DirectiveNodes(v.directives)
    ensures v.defaultValue.None? ==> NullReference in r
  {
    [TypeOrNull(v.valueType), ValueOrNull(v.defaultValue)] + DirectiveNodes(v.directives)
  }

  /** The type, default value and directives can be read back from the
      children. */
  lemma {:induction false} ChildrenDetermineSubtrees(v: InputValueDefinition, w: InputValueDefinition)
    requires GetChildren(v) == GetChildren(w)
    ensures v.valueType == w.valueType && v.defaultValue == w.defaultValue && v.directives == w.directives
  {
    var c := GetChildren(v);
    assert TypeOrNull(v.valueType) == c[0] == TypeOrNull(w.valueType);
    assert ValueOrNull(v.defaultValue) == c[1] == ValueOrNull(w.defaultValue);
    DirectiveNodesInjective(v.directives, w.directives);
  }

  /** `isEqualTo`: another InputValueDefinition of the same name. */
  predicate IsEqualTo(v: InputValueDefinition, o: InputValueDefinition)
  {
    v.name == o.name
  }

  /** `deepCopy`: name, subtrees, description, location and comments all
      carried over. */
  function DeepCopy(v: InputValueDefinition): (r: InputValueDefinition)
    ensures r == v && IsEqualTo(r, v)
  {
    InputValueDefinition(v.name, v.valueType, v.defaultValue, v.directives, v.description, v.sourceLocation, v.comments)
  }

  /** `InputValueDefinition.newInputValueDefinition()`. */
  class Builder {
    var sourceLocation: Option<SourceLocation>
    var comments: seq<Comment>
    var name: Option<string>
    var valueType: Option<Ast.Type>
    var defaultValue: Option<Ast.Value>
    var description: Option<Description>
    var directives: seq<Ast.Directive>

    function Current(): InputValueDefinition
      reads this
    {
      InputValueDefinition(name, valueType, defaultValue, directives, description, sourceLocation, comments)
    }

    constructor ()
      ensures Current() == InputValueDefinition(None, None, None, [], None, None, [])
    {
      sourceLocation := None;
      comments := [];
      name := None;
      valueType := None;
      defaultValue := None;
      description := None;
      directives := [];
    }

    method SetSourceLocation(l: Option<SourceLocation>)
      modifies this
      ensures Current() == old(Current()).(sourceLocation := l)
    {
      sourceLocation := l;
    }

    method SetComments(c: seq<Comment>)
      modifies this
      ensures Current() == old(Current()).(comments := c)
    {
      comments := c;
    }

    method Name(n: Option<string>)
      modifies this
      ensures Current() == old(Current()).(name := n)
    {
      name := n;
    }

    method Type(t: Option<Ast.Type>)
      modifies this
      ensures Current() == old(Current()).(valueType := t)
    {
      valueType := t;
    }

    method DefaultValue(d: Option<Ast.Value>)
      modifies this
      ensures Current() == old(Current()).(defaultValue := d)
    {
      defaultValue := d;
    }

    method SetDescription(d: Option<Description>)
      modifies this
      ensures Current() == old(Current()).(description := d)
    {
      description := d;
    }

    method Directives(d: seq<Ast.Directive>)
      modifies this
      ensures Current() == old(Current()).(directives := d)
    {
      directives := d;
    }

    /** `build`: every field that was set. */
    method Build() returns (v: InputValueDefinition)
      ensures v.name == name && v.valueType == valueType && v.defaultValue == defaultValue
      ensures v.directives == directives && v.description == description
      ensures v.sourceLocation == sourceLocation && v.comments == comments
    {
      v := InputValueDefinition(name, valueType, defaultValue, directives, description, sourceLocation, comments);
    }
  }

  /** Built without a default value, the definition still lists a null
      child in second place. */
  method BuildWithoutDefault(n: string, t: Ast.Type) returns (v: InputValueDefinition)
    ensures v.name == Some(n) && GetChildren(v) == [TypeNode(t), NullReference]
  {
    var builder := new Builder();
    builder.Name(Some(n));
    builder.Type(Some(t));
    v := builder.Build();
  }
}
