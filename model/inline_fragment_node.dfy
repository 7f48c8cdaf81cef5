/** The `InlineFragment` selection: a type condition, directives and a
    selection set, each settable and each possibly null. */
module InlineFragmentNode {
  import opened Common
  import opened JavaLang
  import Ast
  import opened LanguageNode
  import opened DirectiveNode

  class InlineFragment {
    var typeCondition: Option<string>
    /** The directives, by the state each holds when the list is read. */
    var directives: Option<seq<DirectiveState>>
    var selectionSet: Option<Ast.SelectionSet>

    /** `new InlineFragment()`: everything null. */
    constructor ()
      ensures typeCondition.None? && directives.None? && selectionSet.None?
    {
      typeCondition := None;
      directives := None;
      selectionSet := None;
    }

    /** `new InlineFragment(typeCondition)`: only the type condition set. */
    constructor WithTypeCondition(typeCondition: Option<string>)
      ensures this.typeCondition == typeCondition && directives.None? && selectionSet.None?
    {
      this.typeCondition := typeCondition;
      directives := None;
      selectionSet := None;
    }

    constructor Init(typeCondition: Option<string>, directives: Option<seq<DirectiveState>>, selectionSet: Option<Ast.SelectionSet>)
      ensures this.typeCondition == typeCondition && this.directives == directives && this.selectionSet == selectionSet
    {
      this.typeCondition := typeCondition;
      this.directives := directives;
      this.selectionSet := selectionSet;
    }

    /** `new InlineFragment(typeCondition, selectionSet)`: the directives
        stay null. */
    constructor WithSelectionSet(typeCondition: Option<string>, selectionSet: Option<Ast.SelectionSet>)
      ensures this.typeCondition == typeCondition && directives.None? && this.selectionSet == selectionSet
    {
      this.typeCondition := typeCondition;
      directives := None;
      this.selectionSet := selectionSet;
    }

    method SetTypeCondition(t: Option<string>)
      modifies this
      ensures typeCondition == t && directives == old(directives) && selectionSet == old(selectionSet)
    {
      typeCondition := t;
    }

    method SetDirectives(d: Option<seq<DirectiveState>>)
      modifies this
      ensures directives == d && typeCondition == old(typeCondition) && selectionSet == old(selectionSet)
    {
      directives := d;
    }

    method SetSelectionSet(s: Option<Ast.SelectionSet>)
      modifies this
      ensures selectionSet == s && typeCondition == old(typeCondition) && directives == old(directives)
    {
      selectionSet := s;
    }

    /** `equals` against another InlineFragment or null: the type
        conditions compared as strings, the directive lists with
        `List.equals` and the selection sets with their own `equals`, a null
        equal only to a null. */
    predicate Equals(o: InlineFragment?, valueEquals: (Ast.Value, Ast.Value) -> bool,
                     selectionSetEquals: (Ast.SelectionSet, Ast.SelectionSet) -> bool)
      reads this, o
      ensures Equals(o, valueEquals, selectionSetEquals) ==> o != null
    {
      this == o
      || (o != null && typeCondition == o.typeCondition
          && (if directives.Some? then o.directives.Some? && ListEquals(directives.value, o.directives.value, valueEquals)
              else o.directives.None?)
          && NullableEquals(selectionSet, o.selectionSet, selectionSetEquals))
    }

    /** `hashCode`: the three hashes mixed with 31, a null counting as 0;
        the list is hashed as `List.hashCode` does. */
    function HashCode(valueHash: Ast.Value -> int, selectionSetHash: Ast.SelectionSet -> int): (h: int)
      reads this
      ensures IsInt(h)
      ensures typeCondition.None? && directives.None? && selectionSet.None? ==> h == 0
    {
      var listHash := (d: seq<DirectiveState>) => ListHash(d, valueHash);
      Mix(Mix(HashOrZero(typeCondition, StringHash), HashOrZero(directives, listHash)), HashOrZero(selectionSet, selectionSetHash))
    }
  }

  /** When the values and the selection sets keep the `equals`/`hashCode`
      contract, `equals` is an equivalence and equal fragments hash alike. */
  lemma {:induction false} EqualsAgreesWithHashCode(a: InlineFragment, b: InlineFragment, c: InlineFragment,
                                                    valueEquals: (Ast.Value, Ast.Value) -> bool, valueHash: Ast.Value -> int,
                                                    selectionSetEquals: (Ast.SelectionSet, Ast.SelectionSet) -> bool,
                                                    selectionSetHash: Ast.SelectionSet -> int)
    requires EqualsContract(valueEquals, valueHash) && EqualsContract(selectionSetEquals, selectionSetHash)
    ensures a.Equals(a, valueEquals, selectionSetEquals)
    ensures a.Equals(b, valueEquals, selectionSetEquals) <==> b.Equals(a, valueEquals, selectionSetEquals)
    ensures a.Equals(b, valueEquals, selectionSetEquals) && b.Equals(c, valueEquals, selectionSetEquals) ==>
      a.Equals(c, valueEquals, selectionSetEquals)
    ensures a.Equals(b, valueEquals, selectionSetEquals) ==>
      a.HashCode(valueHash, selectionSetHash) == b.HashCode(valueHash, selectionSetHash)
  {
    if a.directives.Some? {
      ListEqualsEquivalence(a.directives.value, a.directives.value, a.directives.value, valueEquals, valueHash);
      if b.directives.Some? {
        ListEqualsEquivalence(a.directives.value, b.directives.value, a.directives.value, valueEquals, valueHash);
        if c.directives.Some? {
          ListEqualsEquivalence(a.directives.value, b.directives.value, c.directives.value, valueEquals, valueHash);
        }
        if ListEquals(a.directives.value, b.directives.value, valueEquals) {
          ListHashAgrees(a.directives.value, b.directives.value, valueEquals, valueHash);
        }
      }
    }
  }

  /** The same selection set held by two fragments is equal to itself, but
      two selection sets that `equals` tells apart make the fragments
      unequal, whatever they hold. */
  lemma {:induction false} SelectionSetsDecide(a: InlineFragment, b: InlineFragment,
                                               valueEquals: (Ast.Value, Ast.Value) -> bool,
                                               selectionSetEquals: (Ast.SelectionSet, Ast.SelectionSet) -> bool)
    requires a != b && a.selectionSet.Some? && b.selectionSet.Some?
    requires !selectionSetEquals(a.selectionSet.value, b.selectionSet.value)
    ensures !a.Equals(b, valueEquals, selectionSetEquals)
  {
  }

  /** A fragment with an empty directive list is not equal to one whose
      directives are null, even if all else agrees. */
  method NullAndEmptyDirectivesDiffer(t: string, valueEquals: (Ast.Value, Ast.Value) -> bool,
                                      selectionSetEquals: (Ast.SelectionSet, Ast.SelectionSet) -> bool) returns (equal: bool)
    ensures !equal
  {
    var a := new InlineFragment.Init(Some(t), Some([]), None);
    var b := new InlineFragment.WithTypeCondition(Some(t));
    equal := a.Equals(b, valueEquals, selectionSetEquals);
  }
}
