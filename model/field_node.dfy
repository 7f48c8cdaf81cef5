/** The `Field` node of a query: an immutable value, made by its
    constructors or its Builder. */
module FieldNode {
  import opened Common
  import Ast
  import opened LanguageNode

  /** A node made by a constructor has no source location and no comments;
      only the Builder sets them. */
  datatype Field = Field(
    name: Option<string>,
    alias: Option<string>,
    arguments: seq<Ast.Argument>,
    directives: seq<Ast.Directive>,
    selectionSet: Option<Ast.SelectionSet>,
    sourceLocation: Option<SourceLocation>,
    comments: seq<Comment>)

  /** `new Field(name, alias, arguments, directives, selectionSet)`. */
  function NewField(name: Option<string>, alias: Option<string>, arguments: seq<Ast.Argument>, directives: seq<Ast.Directive>, selectionSet: Option<Ast.SelectionSet>): (f: Field)
    ensures f.name == name && f.alias == alias && f.arguments == arguments
    ensures f.directives == directives && f.selectionSet == selectionSet
    ensures f.sourceLocation.None? && f.comments == []
  {
    Field(name, alias, arguments, directives, selectionSet, None, [])
  }

  /** `new Field()`. */
  function NewEmptyField(): (f: Field)
    ensures f.name.None? && f.alias.None? && f.arguments == [] && f.directives == [] && f.selectionSet.None?
  {
    NewField(None, None, [], [], None)
  }

  /** `new Field(name)`. */
  function NewNamedField(name: Option<string>): (f: Field)
    ensures f.name == name && f.alias.None? && f.arguments == [] && f.directives == [] && f.selectionSet.None?
  {
    NewField(name, None, [], [], None)
  }

  /** `new Field(name, selectionSet)`. */
  function NewFieldWithSelectionSet(name: Option<string>, selectionSet: Ast.SelectionSet): (f: Field)
    ensures f.name == name && f.alias.None? && f.arguments == [] && f.directives == [] && f.selectionSet == Some(selectionSet)
  {
    NewField(name, None, [], [], Some(selectionSet))
  }

  /** `new Field(name, arguments)`. */
  function NewFieldWithArguments(name: Option<string>, arguments: seq<Ast.Argument>): (f: Field)
    ensures f.name == name && f.alias.None? && f.arguments == arguments && f.directives == [] && f.selectionSet.None?
  {
    NewField(name, None, arguments, [], None)
  }

  /** `new Field(name, arguments, directives)`. */
  function NewFieldWithDirectives(name: Option<string>, arguments: seq<Ast.Argument>, directives: seq<Ast.Directive>): (f: Field)
    ensures f.name == name && f.alias.None? && f.arguments == arguments && f.directives == directives && f.selectionSet.None?
  {
    NewField(name, None, arguments, directives, None)
  }

  /** `new Field(name, arguments, selectionSet)`. */
  function NewFieldWithArgumentsAndSelectionSet(name: Option<string>, arguments: seq<Ast.Argument>, selectionSet: Ast.SelectionSet): (f: Field)
    ensures f.name == name && f.alias.None? && f.arguments == arguments && f.directives == [] && f.selectionSet == Some(selectionSet)
  {
    NewField(name, None, arguments, [], Some(selectionSet))
  }

  /** `getChildren`: the arguments, then the directives, then the selection
      set when there is one. */
  function GetChildren(f: Field): (r: seq<Node>)
    ensures |r| == |f.arguments| + |f.directives| + (if f.selectionSet.Some? then 1 else 0)
    ensures r[..|f.arguments|] == ArgumentNodes(f.arguments)
    ensures r[|f.arguments|..|f.arguments| + |f.directives|] == DirectiveNodes(f.directives)
    ensures f.selectionSet.Some? ==> r[|r| - 1] == SelectionSetNode(f.selectionSet.value)
    ensures NullReference !in r
  {
    ArgumentNodes(f.arguments) + DirectiveNodes(f.directives) + SelectionSetPart(f.selectionSet)
  }

  /** How many nodes at the front of `c` are arguments. */
  function LeadingArguments(c: seq<Node>): (n: nat)
    ensures n <= |c|
  {
    if c != [] && c[0].ArgumentNode? then 1 + LeadingArguments(c[1..]) else 0
  }

  /** How many nodes at the front of `c` are directives. */
  function LeadingDirectives(c: seq<Node>): (n: nat)
    ensures n <= |c|
  {
    if c != [] && c[0].DirectiveNode? then 1 + LeadingDirectives(c[1..]) else 0
  }

  lemma {:induction false} LeadingArgumentsOf(arguments: seq<Ast.Argument>, rest: seq<Node>)
    requires rest == [] || !rest[0].ArgumentNode?
    ensures LeadingArguments(ArgumentNodes(arguments) + rest) == |arguments|
  {
    if arguments != [] {
      assert (ArgumentNodes(arguments) + rest)[1..] == ArgumentNodes(arguments[1..]) + rest;
      LeadingArgumentsOf(arguments[1..], rest);
    } else {
      assert ArgumentNodes(arguments) + rest == rest;
    }
  }

  lemma {:induction false} LeadingDirectivesOf(directives: seq<Ast.Directive>, rest: seq<Node>)
    requires rest == [] || !rest[0].DirectiveNode?
    ensures LeadingDirectives(DirectiveNodes(directives) + rest) == |directives|
  {
    if directives != [] {
      assert (DirectiveNodes(directives) + rest)[1..] == DirectiveNodes(directives[1..]) + rest;
      LeadingDirectivesOf(directives[1..], rest);
    } else {
      assert DirectiveNodes(directives) + rest == rest;
    }
  }

  /** The tail of the children after the arguments and directives. */
  function SelectionSetPart(s: Option<Ast.SelectionSet>): seq<Node>
  {
    if s.Some? then [SelectionSetNode(s.value)] else []
  }

  /** The children list loses nothing: the arguments, directives and
      selection set can be read back from it. */
  lemma {:induction false} ChildrenDetermineSubtrees(f: Field, g: Field)
    requires GetChildren(f) == GetChildren(g)
    ensures f.arguments == g.arguments && f.directives == g.directives && f.selectionSet == g.selectionSet
  {
    var c := GetChildren(f);
    var tf, tg := SelectionSetPart(f.selectionSet), SelectionSetPart(g.selectionSet);
    assert c == ArgumentNodes(f.arguments) + (DirectiveNodes(f.directives) + tf);
    assert c == ArgumentNodes(g.arguments) + (DirectiveNodes(g.directives) + tg);
    LeadingArgumentsOf(f.arguments, DirectiveNodes(f.directives) + tf);
    LeadingArgumentsOf(g.arguments, DirectiveNodes(g.directives) + tg);
    var n := |f.arguments|;
    assert ArgumentNodes(f.arguments) == c[..n] == ArgumentNodes(g.arguments);
    ArgumentNodesInjective(f.arguments, g.arguments);
    var rest := c[n..];
    assert rest == DirectiveNodes(f.directives) + tf == DirectiveNodes(g.directives) + tg;
    LeadingDirectivesOf(f.directives, tf);
    LeadingDirectivesOf(g.directives, tg);
    var m := |f.directives|;
    assert DirectiveNodes(f.directives) == rest[..m] == DirectiveNodes(g.directives);
    DirectiveNodesInjective(f.directives, g.directives);
    assert tf == rest[m..] == tg;
  }

  /** `isEqualTo`: another Field with the same name and alias; arguments,
      directives and selection set are not compared. */
  predicate IsEqualTo(f: Field, o: Field)
  {
    f.name == o.name && f.alias == o.alias
  }

  /** `isEqualTo` is an equivalence that only name and alias affect. */
  lemma {:induction false} IsEqualToIgnoresChildren(f: Field, arguments: seq<Ast.Argument>, directives: seq<Ast.Directive>, selectionSet: Option<Ast.SelectionSet>)
    ensures IsEqualTo(f, f.(arguments := arguments, directives := directives, selectionSet := selectionSet))
    ensures IsEqualTo(f, f)
  {
  }

  /** `deepCopy`: equal in name and alias, with the same subtrees, but made
      by the constructor, so the source location and comments are not
      copied. */
  function DeepCopy(f: Field): (r: Field)
    ensures IsEqualTo(f, r) && IsEqualTo(r, f)
    ensures r.arguments == f.arguments && r.directives == f.directives && r.selectionSet == f.selectionSet
    ensures r.sourceLocation.None? && r.comments == []
  {
    NewField(f.name, f.alias, f.arguments, f.directives, f.selectionSet)
  }

  /** `Field.newField()`: every setter replaces its own field. */
  class Builder {
    var sourceLocation: Option<SourceLocation>
    var comments: seq<Comment>
    var name: Option<string>
    var alias: Option<string>
    var arguments: seq<Ast.Argument>
    var directives: seq<Ast.Directive>
    var selectionSet: Option<Ast.SelectionSet>

    /** What `build` would produce now. */
    function Current(): Field
      reads this
    {
      Field(name, alias, arguments, directives, selectionSet, sourceLocation, comments)
    }

    constructor ()
      ensures Current() == Field(None, None, [], [], None, None, [])
    {
      sourceLocation := None;
      comments := [];
      name := None;
      alias := None;
      arguments := [];
      directives := [];
      selectionSet := None;
    }

    method SetSourceLocation(l: Option<SourceLocation>)
      modifies this
      ensures Current() == old(Current()).(sourceLocation := l)
    {
      sourceLocation := l;
    }

    method SetComments(c: seq<Comment>)
      modifies this
      ensures Current() == old(Current()).(comments := c)
    {
      comments := c;
    }

    method Name(n: Option<string>)
      modifies this
      ensures Current() == old(Current()).(name := n)
    {
      name := n;
    }

    method Alias(a: Option<string>)
      modifies this
      ensures Current() == old(Current()).(alias := a)
    {
      alias := a;
    }

    method Arguments(a: seq<Ast.Argument>)
      modifies this
      ensures Current() == old(Current()).(arguments := a)
    {
      arguments := a;
    }

    method Directives(d: seq<Ast.Directive>)
      modifies this
      ensures Current() == old(Current()).(directives := d)
    {
      directives := d;
    }

    method SelectionSet(s: Option<Ast.SelectionSet>)
      modifies this
      ensures Current() == old(Current()).(selectionSet := s)
    {
      selectionSet := s;
    }

    /** `build`: the constructor, then the source location and comments. */
    method Build() returns (f: Field)
      ensures f.name == name && f.alias == alias && f.arguments == arguments
      ensures f.directives == directives && f.selectionSet == selectionSet
      ensures f.sourceLocation == sourceLocation && f.comments == comments
    {
      f := NewField(name, alias, arguments, directives, selectionSet);
      f := f.(sourceLocation := sourceLocation);
      f := f.(comments := comments);
    }
  }

  /** A built field and its deep copy are equal nodes, but the copy has
      lost the source location the builder gave. */
  method BuildThenCopy(n: string, l: SourceLocation) returns (built: Field, copy: Field)
    ensures IsEqualTo(built, copy)
    ensures built.sourceLocation == Some(l) && copy.sourceLocation.None?
  {
    var builder := new Builder();
    builder.Name(Some(n));
    builder.SetSourceLocation(Some(l));
    built := builder.Build();
    copy := DeepCopy(built);
  }
}
