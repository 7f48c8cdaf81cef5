/** The `VariableDefinition` node of an operation: `$name: Type = default`,
    an immutable value made through its Builder. */
module VariableDefinitionNode {
  import opened Common
  import Ast
  import opened LanguageNode

  datatype VariableDefinition = VariableDefinition(
    name: Option<string>,
    variableType: Option<Ast.Type>,
    defaultValue: Option<Ast.Value>,
    sourceLocation: Option<SourceLocation>,
    comments: seq<Comment>)

  /** `getChildren`: the type (even a null one), then the default value
      only when there is one. */
  function GetChildren(v: VariableDefinition): (r: seq<Node>)
    ensures |r| == if v.defaultValue.Some? then 2 else 1
    ensures r[0] == TypeOrNull(v.variableType)
    ensures v.defaultValue.Some? ==> r[1] == ValueNode(v.defaultValue.value)
  {
    [TypeOrNull(v.variableType)] + (if v.defaultValue.Some? then [ValueNode(v.defaultValue.value)] else [])
  }

  /** The type and the default value can be read back from the children. */
  lemma {:induction false} ChildrenDetermineTypeAndDefault(v: VariableDefinition, w: VariableDefinition)
    requires GetChildren(v) == GetChildren(w)
    ensures v.variableType == w.variableType && v.defaultValue == w.defaultValue
  {
    assert TypeOrNull(v.variableType) == GetChildren(v)[0] == TypeOrNull(w.variableType);
  }

  /** `isEqualTo`: another VariableDefinition of the same name; type and
      default value are not compared. */
  predicate IsEqualTo(v: VariableDefinition, o: VariableDefinition)
  {
    v.name == o.name
  }

  /** `deepCopy`: every field carried over. */
  function DeepCopy(v: VariableDefinition): (r: VariableDefinition)
    ensures r == v && IsEqualTo(r, v)
  {
    VariableDefinition(v.name, v.variableType, v.defaultValue, v.sourceLocation, v.comments)
  }

  /** `VariableDefinition.newVariableDefinition()`. */
  class Builder {
    var sourceLocation: Option<SourceLocation>
    var name: Option<string>
    var comments: seq<Comment>
    var variableType: Option<Ast.Type>
    var defaultValue: Option<Ast.Value>

    function Current(): VariableDefinition
      reads this
    {
      VariableDefinition(name, variableType, defaultValue, sourceLocation, comments)
    }

    constructor ()
      ensures Current() == VariableDefinition(None, None, None, None, [])
    {
      sourceLocation := None;
      name := None;
      comments := [];
      variableType := None;
      defaultValue := None;
    }

    method SetSourceLocation(l: Option<SourceLocation>)
      modifies this
      ensures Current() == old(Current()).(sourceLocation := l)
    {
      sourceLocation := l;
    }

    method Name(n: Option<string>)
      modifies this
      ensures Current() == old(Current()).(name := n)
    {
      name := n;
    }

    method SetComments(c: seq<Comment>)
      modifies this
      ensures Current() == old(Current()).(comments := c)
    {
      comments := c;
    }

    method Type(t: Option<Ast.Type>)
      modifies this
      ensures Current() == old(Current()).(variableType := t)
    {
      variableType := t;
    }

    method DefaultValue(d: Option<Ast.Value>)
      modifies this
      ensures Current() == old(Current()).(defaultValue := d)
    {
      defaultValue := d;
    }

    /** `build`: name, type, default value, location and comments. */
    method Build() returns (v: VariableDefinition)
      ensures v.name == name && v.variableType == variableType && v.defaultValue == defaultValue
      ensures v.sourceLocation == sourceLocation && v.comments == comments
    {
      v := VariableDefinition(name, variableType, defaultValue, sourceLocation, comments);
    }
  }

  /** A variable built without a default value has its type as its only
      child. */
  method BuildWithoutDefault(n: string, t: Ast.Type) returns (v: VariableDefinition)
    ensures v.name == Some(n) && GetChildren(v) == [TypeNode(t)]
  {
    var builder := new Builder();
    builder.Name(Some(n));
    builder.Type(Some(t));
    v := builder.Build();
  }
}
