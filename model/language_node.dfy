/** What the syntax-tree node classes have in common: the children they
    report from `getChildren`, the source positions and comments a node
    carries, Java's `31 * result + h` hash mixing, and the lookup of a
    directive by name. */
module LanguageNode {
  import opened Common
  import opened JavaLang
  import Ast

  datatype SourceLocation = SourceLocation(line: int, column: int, sourceName: Option<string>)

  datatype Comment = Comment(content: string, sourceLocation: Option<SourceLocation>)

  /** The whitespace and comments around a node, kept for printing. */
  datatype IgnoredChars = IgnoredChars(left: seq<string>, right: seq<string>)

  const EMPTY_IGNORED_CHARS: IgnoredChars := IgnoredChars([], [])

  datatype Description = Description(content: string, sourceLocation: Option<SourceLocation>, multiLine: bool)

  /** A field of an object type definition, reduced to its name and type. */
  datatype FieldDefinition = FieldDefinition(name: string, fieldType: Ast.Type)

  datatype DirectiveLocation = DirectiveLocation(name: string)

  /** An element of a `getChildren` list; a null reference can be one. */
  datatype Node =
    | NullReference
    | ArgumentNode(argument: Ast.Argument)
    | DirectiveNode(directive: Ast.Directive)
    | SelectionSetNode(selectionSet: Ast.SelectionSet)
    | TypeNode(nodeType: Ast.Type)
    | ValueNode(value: Ast.Value)
    | FieldDefinitionNode(fieldDefinition: FieldDefinition)

  function ArgumentNodes(arguments: seq<Ast.Argument>): (r: seq<Node>)
    ensures |r| == |arguments|
    ensures forall i :: 0 <= i < |r| ==> r[i] == ArgumentNode(arguments[i])
  {
    seq(|arguments|, i requires 0 <= i < |arguments| => ArgumentNode(arguments[i]))
  }

  function DirectiveNodes(directives: seq<Ast.Directive>): (r: seq<Node>)
    ensures |r| == |directives|
    ensures forall i :: 0 <= i < |r| ==> r[i] == DirectiveNode(directives[i])
  {
    seq(|directives|, i requires 0 <= i < |directives| => DirectiveNode(directives[i]))
  }

  function TypeNodes(types: seq<Ast.Type>): (r: seq<Node>)
    ensures |r| == |types|
    ensures forall i :: 0 <= i < |r| ==> r[i] == TypeNode(types[i])
  {
    seq(|types|, i requires 0 <= i < |types| => TypeNode(types[i]))
  }

  function FieldDefinitionNodes(definitions: seq<FieldDefinition>): (r: seq<Node>)
    ensures |r| == |definitions|
    ensures forall i :: 0 <= i < |r| ==> r[i] == FieldDefinitionNode(definitions[i])
  {
    seq(|definitions|, i requires 0 <= i < |definitions| => FieldDefinitionNode(definitions[i]))
  }

  /** Distinct argument lists give distinct child lists. */
  lemma ArgumentNodesInjective(a: seq<Ast.Argument>, b: seq<Ast.Argument>)
    requires ArgumentNodes(a) == ArgumentNodes(b)
    ensures a == b
  {
    assert forall i :: 0 <= i < |a| ==> ArgumentNodes(a)[i] == ArgumentNode(a[i]);
  }

  /** Distinct directive lists give distinct child lists. */
  lemma DirectiveNodesInjective(a: seq<Ast.Directive>, b: seq<Ast.Directive>)
    requires DirectiveNodes(a) == DirectiveNodes(b)
    ensures a == b
  {
    assert forall i :: 0 <= i < |a| ==> DirectiveNodes(a)[i] == DirectiveNode(a[i]);
  }

  /** A child that may be a null reference. */
  function TypeOrNull(t: Option<Ast.Type>): (n: Node)
    ensures t.None? <==> n == NullReference
    ensures t.Some? ==> n == TypeNode(t.value)
  {
    if t.Some? then TypeNode(t.value) else NullReference
  }

  function ValueOrNull(v: Option<Ast.Value>): (n: Node)
    ensures v.None? <==> n == NullReference
    ensures v.Some? ==> n == ValueNode(v.value)
  {
    if v.Some? then ValueNode(v.value) else NullReference
  }

  /** `x != null ? hash(x) : 0`. */
  function HashOrZero<T>(x: Option<T>, hash: T -> int): (h: int)
    ensures x.None? ==> h == 0
    ensures x.Some? ==> h == hash(x.value)
  {
    if x.Some? then hash(x.value) else 0
  }

  /** `x != null ? x.equals(y) : y == null`, with `equals` answering false
      against null as its contract demands. */
  predicate NullableEquals<T>(x: Option<T>, y: Option<T>, equals: (T, T) -> bool)
  {
    if x.Some? then y.Some? && equals(x.value, y.value) else y.None?
  }

  /** The contract of `Object.equals` and `hashCode` for one class: an
      equivalence under which equal objects hash alike. A class that does
      not override `equals` meets it with object identity. */
  ghost predicate EqualsContract<T(!new)>(equals: (T, T) -> bool, hash: T -> int)
  {
    (forall x :: equals(x, x))
    && (forall x, y :: equals(x, y) ==> equals(y, x))
    && (forall x, y, z :: equals(x, y) && equals(y, z) ==> equals(x, z))
    && (forall x, y :: equals(x, y) ==> hash(x) == hash(y))
  }

  /** `31 * result + h` in `int` arithmetic. */
  function Mix(result: int, h: int): (r: int)
    ensures IsInt(r)
    ensures (r - (31 * result + h)) % TWO_32 == 0
  {
    Wrap(31 * result + h)
  }

  /** `getDirective(name)` through `directivesByName`: a directive of that
      name, or null when there is none. */
  function DirectiveNamed(directives: seq<Ast.Directive>, name: string): (r: Option<Ast.Directive>)
    ensures r.Some? <==> exists i :: 0 <= i < |directives| && directives[i].name == name
    ensures r.Some? ==> r.value in directives && r.value.name == name
  {
    if directives == [] then None
    else if directives[0].name == name then Some(directives[0])
    else
      var rest := DirectiveNamed(directives[1..], name);
      assert forall i :: 1 <= i < |directives| ==> directives[i] == directives[1..][i - 1];
      rest
  }

  /** A `java.util.List` object that several owners can share, so that an
      `add` through one owner is seen by the others. */
  class SharedList<T> {
    var items: seq<T>

    constructor (items: seq<T>)
      ensures this.items == items
    {
      this.items := items;
    }

    method Add(x: T)
      modifies this
      ensures items == old(items) + [x]
    {
      items := items + [x];
    }
  }
}
