/** The `Directive` node: a name and a value, both settable, compared and
    hashed field by field with nulls allowed. */
module DirectiveNode {
  import opened Common
  import opened JavaLang
  import Ast
  import opened LanguageNode

  /** What a Directive holds at a given moment. */
  datatype DirectiveState = DirectiveState(name: Option<string>, value: Option<Ast.Value>)

  /** `hashCode` of a directive in that state: the name's `String.hashCode`
      mixed with the value's hash, a null counting as 0. */
  function StateHash(s: DirectiveState, valueHash: Ast.Value -> int): (h: int)
    ensures IsInt(h)
    ensures s == DirectiveState(None, None) ==> h == 0
  {
    Mix(HashOrZero(s.name, StringHash), HashOrZero(s.value, valueHash))
  }

  /** `List.hashCode` over directives: 1, then `31 * h + e.hashCode()` for
      each element in order. */
  function ListHash(states: seq<DirectiveState>, valueHash: Ast.Value -> int): (h: int)
    ensures states == [] ==> h == 1
  {
    if states == [] then 1
    else Mix(ListHash(states[..|states| - 1], valueHash), StateHash(states[|states| - 1], valueHash))
  }

  class Directive {
    var name: Option<string>
    var value: Option<Ast.Value>

    /** `new Directive()`: both fields null. */
    constructor ()
      ensures name.None? && value.None?
    {
      name := None;
      value := None;
    }

    constructor Init(name: Option<string>, value: Option<Ast.Value>)
      ensures this.name == name && this.value == value
    {
      this.name := name;
      this.value := value;
    }

    function State(): DirectiveState
      reads this
    {
      DirectiveState(name, value)
    }

    method SetName(n: Option<string>)
      modifies this
      ensures name == n && value == old(value)
    {
      name := n;
    }

    method SetValue(v: Option<Ast.Value>)
      modifies this
      ensures value == v && name == old(name)
    {
      value := v;
    }

    /** `equals` against another Directive or null: the names compared as
        strings and the values with their own `equals`, which the AST value
        classes that do not override it answer by identity. */
    predicate Equals(o: Directive?, valueEquals: (Ast.Value, Ast.Value) -> bool)
      reads this, o
      ensures Equals(o, valueEquals) ==> o != null
    {
      this == o || (o != null && StateEquals(State(), o.State(), valueEquals))
    }

    /** `hashCode`. */
    function HashCode(valueHash: Ast.Value -> int): (h: int)
      reads this
      ensures h == StateHash(State(), valueHash)
    {
      Mix(HashOrZero(name, StringHash), HashOrZero(value, valueHash))
    }
  }

  /** `Directive.equals` on the states two directives hold. */
  predicate StateEquals(s: DirectiveState, t: DirectiveState, valueEquals: (Ast.Value, Ast.Value) -> bool)
  {
    s.name == t.name && NullableEquals(s.value, t.value, valueEquals)
  }

  /** `List.equals` over directives: the same length and equal elements
      position by position. */
  predicate ListEquals(a: seq<DirectiveState>, b: seq<DirectiveState>, valueEquals: (Ast.Value, Ast.Value) -> bool)
  {
    |a| == |b| && forall i :: 0 <= i < |a| ==> StateEquals(a[i], b[i], valueEquals)
  }

  /** When the values keep the `equals`/`hashCode` contract, so do
      directives: equality is an equivalence, the same state is always
      equal, and equal directives hash alike. */
  lemma {:induction false} EqualsMeaning(a: Directive, b: Directive, valueEquals: (Ast.Value, Ast.Value) -> bool,
                                         valueHash: Ast.Value -> int)
    requires EqualsContract(valueEquals, valueHash)
    ensures a.Equals(a, valueEquals)
    ensures a.State() == b.State() ==> a.Equals(b, valueEquals)
    ensures a.Equals(b, valueEquals) <==> b.Equals(a, valueEquals)
    ensures a.Equals(b, valueEquals) ==> a.HashCode(valueHash) == b.HashCode(valueHash)
  {
    if a.Equals(b, valueEquals) && a != b {
      StateHashAgrees(a.State(), b.State(), valueEquals, valueHash);
    }
  }

  /** With values compared by content, two directives are equal exactly
      when they hold the same name and value. */
  lemma {:induction false} ContentEqualsIsSameState(a: Directive, b: Directive)
    ensures a.Equals(b, (x, y) => x == y) <==> a.State() == b.State()
  {
  }

  /** Two directives holding values their `equals` tells apart are
      different, however alike the values look: an `EnumValue` compared by
      identity, for one. */
  lemma {:induction false} DistinctValuesDiffer(a: Directive, b: Directive, valueEquals: (Ast.Value, Ast.Value) -> bool)
    requires a != b && a.value.Some? && b.value.Some? && !valueEquals(a.value.value, b.value.value)
    ensures !a.Equals(b, valueEquals)
  {
  }

  lemma {:induction false} StateHashAgrees(s: DirectiveState, t: DirectiveState, valueEquals: (Ast.Value, Ast.Value) -> bool,
                                           valueHash: Ast.Value -> int)
    requires EqualsContract(valueEquals, valueHash) && StateEquals(s, t, valueEquals)
    ensures StateHash(s, valueHash) == StateHash(t, valueHash)
  {
    if s.value.Some? {
      assert valueHash(s.value.value) == valueHash(t.value.value);
    }
  }

  /** Lists of directives that `List.equals` equates have the same
      `List.hashCode`. */
  lemma {:induction false} ListHashAgrees(a: seq<DirectiveState>, b: seq<DirectiveState>,
                                          valueEquals: (Ast.Value, Ast.Value) -> bool, valueHash: Ast.Value -> int)
    requires EqualsContract(valueEquals, valueHash) && ListEquals(a, b, valueEquals)
    ensures ListHash(a, valueHash) == ListHash(b, valueHash)
    decreases |a|
  {
    if a != [] {
      var n := |a| - 1;
      assert ListEquals(a[..n], b[..n], valueEquals) by {
        forall i | 0 <= i < n ensures StateEquals(a[..n][i], b[..n][i], valueEquals) {
          assert a[..n][i] == a[i] && b[..n][i] == b[i];
        }
      }
      ListHashAgrees(a[..n], b[..n], valueEquals, valueHash);
      StateHashAgrees(a[n], b[n], valueEquals, valueHash);
    }
  }

  /** `List.equals` over directives is an equivalence when the values'
      `equals` is one. */
  lemma {:induction false} ListEqualsEquivalence(a: seq<DirectiveState>, b: seq<DirectiveState>, c: seq<DirectiveState>,
                                                 valueEquals: (Ast.Value, Ast.Value) -> bool, valueHash: Ast.Value -> int)
    requires EqualsContract(valueEquals, valueHash)
    ensures ListEquals(a, a, valueEquals)
    ensures ListEquals(a, b, valueEquals) ==> ListEquals(b, a, valueEquals)
    ensures ListEquals(a, b, valueEquals) && ListEquals(b, c, valueEquals) ==> ListEquals(a, c, valueEquals)
  {
  }

  /** Setting the name leaves the value as it was, and the other way round;
      a directive set to another's fields then equals it. */
  method SettersCopyState(a: Directive, b: Directive, valueEquals: (Ast.Value, Ast.Value) -> bool)
    requires a != b && forall v :: valueEquals(v, v)
    modifies a
    ensures a.Equals(b, valueEquals) && b.State() == old(b.State())
  {
    a.SetName(b.name);
    a.SetValue(b.value);
  }
}
