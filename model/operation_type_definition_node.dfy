/** The `OperationTypeDefinition` node of a schema definition:
    `query: Query` and the like, an immutable value rebuilt through its
    Builder by `transform` and `withNewChildren`. */
module OperationTypeDefinitionNode {
  import opened Common
  import Ast
  import opened LanguageNode

  const CHILD_TYPE: string := "type"

  datatype OperationTypeDefinition = OperationTypeDefinition(
    name: Option<string>,
    operationType: Option<Ast.Type>,
    sourceLocation: Option<SourceLocation>,
    comments: seq<Comment>,
    ignoredChars: IgnoredChars)

  /** `new OperationTypeDefinition(name, type)`. */
  function NewOperationTypeDefinition(name: Option<string>, operationType: Option<Ast.Type>): (o: OperationTypeDefinition)
    ensures o.name == name && o.operationType == operationType
    ensures o.sourceLocation.None? && o.comments == [] && o.ignoredChars == EMPTY_IGNORED_CHARS
  {
    OperationTypeDefinition(name, operationType, None, [], EMPTY_IGNORED_CHARS)
  }

  /** `getChildren`: the type alone. */
  function GetChildren(o: OperationTypeDefinition): (r: seq<Node>)
    ensures r == [TypeOrNull(o.operationType)]
  {
    [TypeOrNull(o.operationType)]
  }

  /** `getNamedChildren`: the type under the key "type". */
  function GetNamedChildren(o: OperationTypeDefinition): (r: map<string, seq<Node>>)
    ensures r.Keys == {CHILD_TYPE} && r[CHILD_TYPE] == GetChildren(o)
  {
    map[CHILD_TYPE := [TypeOrNull(o.operationType)]]
  }

  /** `isEqualTo`: another OperationTypeDefinition of the same name. */
  predicate IsEqualTo(o: OperationTypeDefinition, other: OperationTypeDefinition)
  {
    o.name == other.name
  }

  /** `deepCopy`: every field carried over. */
  function DeepCopy(o: OperationTypeDefinition): (r: OperationTypeDefinition)
    ensures r == o && IsEqualTo(r, o)
  {
    OperationTypeDefinition(o.name, o.operationType, o.sourceLocation, o.comments, o.ignoredChars)
  }

  /** One setter call on the Builder, as `transform`'s consumer makes it. */
  datatype BuilderCall =
    | SetSourceLocation(sourceLocation: Option<SourceLocation>)
    | SetComments(comments: seq<Comment>)
    | SetName(name: Option<string>)
    | SetType(operationType: Option<Ast.Type>)
    | SetIgnoredChars(ignoredChars: IgnoredChars)

  function Step(o: OperationTypeDefinition, call: BuilderCall): OperationTypeDefinition
  {
    match call
    case SetSourceLocation(l) => o.(sourceLocation := l)
    case SetComments(c) => o.(comments := c)
    case SetName(n) => o.(name := n)
    case SetType(t) => o.(operationType := t)
    case SetIgnoredChars(i) => o.(ignoredChars := i)
  }

  /** The calls, in order. */
  function Applied(o: OperationTypeDefinition, calls: seq<BuilderCall>): OperationTypeDefinition
  {
    if calls == [] then o else Step(Applied(o, calls[..|calls| - 1]), calls[|calls| - 1])
  }

  class Builder {
    var sourceLocation: Option<SourceLocation>
    var comments: seq<Comment>
    var name: Option<string>
    var operationType: Option<Ast.Type>
    var ignoredChars: IgnoredChars

    function Current(): OperationTypeDefinition
      reads this
    {
      OperationTypeDefinition(name, operationType, sourceLocation, comments, ignoredChars)
    }

    constructor ()
      ensures Current() == OperationTypeDefinition(None, None, None, [], EMPTY_IGNORED_CHARS)
    {
      sourceLocation := None;
      comments := [];
      name := None;
      operationType := None;
      ignoredChars := EMPTY_IGNORED_CHARS;
    }

    /** `Builder(existing)`: every field of the node. */
    constructor FromExisting(existing: OperationTypeDefinition)
      ensures Current() == existing
    {
      sourceLocation := existing.sourceLocation;
      comments := existing.comments;
      name := existing.name;
      operationType := existing.operationType;
      ignoredChars := existing.ignoredChars;
    }

    method Apply(call: BuilderCall)
      modifies this
      ensures Current() == Step(old(Current()), call)
    {
      match call
      case SetSourceLocation(l) => sourceLocation := l;
      case SetComments(c) => comments := c;
      case SetName(n) => name := n;
      case SetType(t) => operationType := t;
      case SetIgnoredChars(i) => ignoredChars := i;
    }

    method Build() returns (o: OperationTypeDefinition)
      ensures o.name == name && o.operationType == operationType && o.sourceLocation == sourceLocation
      ensures o.comments == comments && o.ignoredChars == ignoredChars
    {
      o := OperationTypeDefinition(name, operationType, sourceLocation, comments, ignoredChars);
    }
  }

  /** `transform`: a Builder copying the node, the consumer's setter calls,
      then `build`. */
  method Transform(node: OperationTypeDefinition, calls: seq<BuilderCall>) returns (r: OperationTypeDefinition)
    ensures r == Applied(node, calls)
  {
    var builder := new Builder.FromExisting(node);
    var i := 0;
    while i < |calls|
      invariant 0 <= i <= |calls|
      invariant builder.Current() == Applied(node, calls[..i])
    {
      assert calls[..i + 1][..i] == calls[..i];
      builder.Apply(calls[i]);
      i := i + 1;
    }
    assert calls[..i] == calls;
    r := builder.Build();
  }

  /** `withNewChildren`: a transform setting the type to the container's
      single value under "type" (null when there is none). */
  method WithNewChildren(node: OperationTypeDefinition, newType: Option<Ast.Type>) returns (r: OperationTypeDefinition)
    ensures r == node.(operationType := newType)
    ensures IsEqualTo(r, node) && GetChildren(r) == [TypeOrNull(newType)]
  {
    r := Transform(node, [SetType(newType)]);
    assert [SetType(newType)][..0] == [];
  }

  /** A transform that never sets the name keeps the node equal to the
      original; one that sets nothing rebuilds the same node. */
  lemma {:induction false} TransformKeepsName(node: OperationTypeDefinition, calls: seq<BuilderCall>)
    requires forall i :: 0 <= i < |calls| ==> !calls[i].SetName?
    ensures IsEqualTo(Applied(node, calls), node)
    ensures calls == [] ==> Applied(node, calls) == node
  {
    if calls != [] {
      TransformKeepsName(node, calls[..|calls| - 1]);
    }
  }
}
