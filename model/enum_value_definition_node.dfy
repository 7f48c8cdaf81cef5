/** The `EnumValueDefinition` node of a schema document: one value of an
    enum type with its directives, an immutable value. */
module EnumValueDefinitionNode {
  import opened Common
  import Ast
  import opened LanguageNode

  datatype EnumValueDefinition = EnumValueDefinition(name: Option<string>, directives: seq<Ast.Directive>)

  /** `new EnumValueDefinition(name, directives)`: a null list of
      directives becomes an empty one. */
  function NewEnumValueDefinition(name: Option<string>, directives: Option<seq<Ast.Directive>>): (e: EnumValueDefinition)
    ensures e.name == name
    ensures directives.None? ==> e.directives == []
    ensures directives.Some? ==> e.directives == directives.value
  {
    EnumValueDefinition(name, if directives.Some? then directives.value else [])
  }

  /** `new EnumValueDefinition(name)`: the two-argument constructor with a
      null list. */
  function NewNamedEnumValueDefinition(name: Option<string>): (e: EnumValueDefinition)
    ensures e == NewEnumValueDefinition(name, Some([]))
  {
    NewEnumValueDefinition(name, None)
  }

  /** `getDirective`: a directive of that name, or null. */
  function GetDirective(e: EnumValueDefinition, directiveName: string): (r: Option<Ast.Directive>)
    ensures r.Some? <==> exists i :: 0 <= i < |e.directives| && e.directives[i].name == directiveName
    ensures r.Some? ==> r.value in e.directives && r.value.name == directiveName
  {
    DirectiveNamed(e.directives, directiveName)
  }

  /** `getChildren`: the directives, in order. */
  function GetChildren(e: EnumValueDefinition): (r: seq<Node>)
    ensures |r| == |e.directives|
    ensures forall i :: 0 <= i < |r| ==> r[i] == DirectiveNode(e.directives[i])
  {
    DirectiveNodes(e.directives)
  }

  /** The children are the directives, and nothing else. */
  lemma {:induction false} ChildrenAreDirectives(e: EnumValueDefinition, f: EnumValueDefinition)
    ensures GetChildren(e) == GetChildren(f) <==> e.directives == f.directives
  {
    if GetChildren(e) == GetChildren(f) {
      DirectiveNodesInjective(e.directives, f.directives);
    }
  }

  /** `isEqualTo`: another EnumValueDefinition whose name is equal, or
      null like this one's. */
  predicate IsEqualTo(e: EnumValueDefinition, o: EnumValueDefinition)
  {
    if e.name.None? then o.name.None? else o.name.Some? && e.name.value == o.name.value
  }

  /** The null-safe comparison is plain equality of names: an equivalence
      that ignores the directives. */
  lemma {:induction false} IsEqualToComparesNames(e: EnumValueDefinition, o: EnumValueDefinition)
    ensures IsEqualTo(e, o) <==> e.name == o.name
    ensures IsEqualTo(e, o) <==> IsEqualTo(o, e)
    ensures IsEqualTo(e, e.(directives := o.directives))
  {
  }
}
