/** graphql.execution.FieldCollector (the older, stub-hooked version):
    groups the fields of a selection set by result key into the caller's
    insertion-ordered map, and records fragment spreads in the caller's
    visited list. Its directive hook always includes and its type-condition
    hook never applies, so fragments never contribute fields. */
module FieldCollector {
  import opened Common
  import opened Ast
  import opened LinkedMaps
  import opened ExecutionContext

  /** The caller's `Map<String, List<Field>> fields` (a LinkedHashMap). */
  class FieldMap {
    var contents: LinkedMap<string, seq<Field>>

    constructor ()
      ensures contents == Empty()
    {
      contents := Empty();
    }
  }

  /** The caller's `List<String> visitedFragments`. */
  class VisitedList {
    var names: seq<string>

    constructor ()
      ensures names == []
    {
      names := [];
    }
  }

  /** `getFieldEntryKey`: the alias when there is one, else the name. */
  function GetFieldEntryKey(field: Field): (key: string)
    ensures field.alias.Some? ==> key == field.alias.value
    ensures field.alias.None? ==> key == field.name
  {
    if field.alias.Some? then field.alias.value else field.name
  }

  /** `shouldIncludeNode`: a stub that includes every node. */
  function ShouldIncludeNode(ctx: ExecutionContext, directives: seq<Directive>): bool {
    true
  }

  /** `doesFragmentTypeApply`: a stub that never applies. */
  function DoesFragmentTypeApply(ctx: ExecutionContext, selection: Selection, objectType: Option<string>): bool {
    false
  }

  // ---------------------------------------------------------------------
  // Specification: the state after collecting a sequence of selections.

  /** The caller-visible state: the field map, the visited list, and
      whether a NullPointerException ended the collection. */
  datatype Collected = Collected(fields: LinkedMap<string, seq<Field>>, visited: seq<string>, failed: bool)

  /** `fields.get(key)`, with an absent key read as the empty list. */
  function KeyList(m: LinkedMap<string, seq<Field>>, key: string): seq<Field> {
    if key in m.entries then m.entries[key] else []
  }

  /** Appending a field to the list of its key, creating the list first. */
  function AddField(m: LinkedMap<string, seq<Field>>, field: Field): (r: LinkedMap<string, seq<Field>>)
    requires m.Valid()
    ensures r.Valid()
  {
    var key := GetFieldEntryKey(field);
    m.Put(key, KeyList(m, key) + [field])
  }

  /** One selection of the loop in `collectFields`. */
  function Step(fragments: LinkedMap<string, FragmentDefinition>, c: Collected, selection: Selection): (r: Collected)
    requires c.fields.Valid()
    ensures r.fields.Valid()
  {
    if c.failed then c
    else match selection
      case FieldSelection(f) => c.(fields := AddField(c.fields, f))
      case InlineSelection(_) => c
      case SpreadSelection(s) =>
        if s.name in c.visited then c
        else if s.name !in fragments.entries then c.(visited := c.visited + [s.name], failed := true)
        else c.(visited := c.visited + [s.name])
  }

  /** The selections processed in order, stopping at the first failure. */
  function CollectAll(fragments: LinkedMap<string, FragmentDefinition>, init: Collected, selections: seq<Selection>): (r: Collected)
    requires init.fields.Valid()
    ensures r.fields.Valid()
  {
    if selections == [] then init
    else Step(fragments, CollectAll(fragments, init, selections[..|selections| - 1]), selections[|selections| - 1])
  }

  /** The fields of the selections whose result key is `key`, in order. */
  function FieldsWithKey(selections: seq<Selection>, key: string): seq<Field> {
    if selections == [] then []
    else
      var rest := FieldsWithKey(selections[..|selections| - 1], key);
      var last := selections[|selections| - 1];
      if last.FieldSelection? && GetFieldEntryKey(last.field) == key then rest + [last.field] else rest
  }

  /** The names of the fragment spreads among the selections. */
  function SpreadNames(selections: seq<Selection>): set<string> {
    set i | 0 <= i < |selections| && selections[i].SpreadSelection? :: selections[i].spread.name
  }

  // ---------------------------------------------------------------------
  // The collector.

  /** `collectFields`: every selection in order; stops at the exception. */
  method CollectFields(ctx: ExecutionContext, objectType: Option<string>, selectionSet: SelectionSet,
                       visitedFragments: VisitedList, fields: FieldMap) returns (r: Result<()>)
    requires fields.contents.Valid()
    modifies visitedFragments, fields
    ensures var s := CollectAll(ctx.fragmentsByName, Collected(old(fields.contents), old(visitedFragments.names), false), selectionSet.selections);
      fields.contents == s.fields && visitedFragments.names == s.visited && (r.Throws? <==> s.failed)
    ensures r.Throws? ==> r.error == NullPointerException
  {
    var selections := selectionSet.selections;
    ghost var init := Collected(fields.contents, visitedFragments.names, false);
    var i := 0;
    while i < |selections|
      invariant 0 <= i <= |selections|
      invariant fields.contents.Valid()
      invariant CollectAll(ctx.fragmentsByName, init, selections[..i]) == Collected(fields.contents, visitedFragments.names, false)
    {
      assert selections[..i + 1][..i] == selections[..i];
      var outcome := CollectSelection(ctx, objectType, visitedFragments, fields, selections[i]);
      if outcome.Throws? {
        FailureSticks(ctx.fragmentsByName, init, selections, i + 1);
        return outcome;
      }
      i := i + 1;
    }
    assert selections[..i] == selections;
    r := Ok(());
  }

  /** The body of `collectFields`' loop for one selection. */
  method CollectSelection(ctx: ExecutionContext, objectType: Option<string>, visitedFragments: VisitedList,
                          fields: FieldMap, selection: Selection) returns (r: Result<()>)
    requires fields.contents.Valid()
    modifies visitedFragments, fields
    ensures var s := Step(ctx.fragmentsByName, Collected(old(fields.contents), old(visitedFragments.names), false), selection);
      fields.contents == s.fields && visitedFragments.names == s.visited && (r.Throws? <==> s.failed)
    ensures r.Throws? ==> r.error == NullPointerException
  {
    r := Ok(());
    match selection {
      case FieldSelection(f) =>
        CollectField(ctx, fields, f);
      case InlineSelection(inline) =>
        CollectInlineFragment(ctx, objectType, visitedFragments, fields, inline);
      case SpreadSelection(spread) =>
        r := CollectFragmentSpread(ctx, objectType, visitedFragments, fields, spread);
    }
  }

  /** `collectFragmentSpread`: a spread seen before is skipped; otherwise its
      name is recorded first, then the definition is read (null throws), and
      since the type condition never applies nothing is collected. */
  method CollectFragmentSpread(ctx: ExecutionContext, objectType: Option<string>, visitedFragments: VisitedList,
                               fields: FieldMap, spread: FragmentSpread) returns (r: Result<()>)
    requires fields.contents.Valid()
    modifies visitedFragments
    ensures var s := Step(ctx.fragmentsByName, Collected(fields.contents, old(visitedFragments.names), false), SpreadSelection(spread));
      visitedFragments.names == s.visited && (r.Throws? <==> s.failed)
    ensures r.Throws? ==> r.error == NullPointerException
  {
    if spread.name in visitedFragments.names || !ShouldIncludeNode(ctx, spread.directives) {
      return Ok(());
    }
    visitedFragments.names := visitedFragments.names + [spread.name];
    var fragment := ctx.GetFragment(spread.name);
    if fragment.None? {
      return Throws(NullPointerException);
    }
    if !ShouldIncludeNode(ctx, fragment.value.directives) || !DoesFragmentTypeApply(ctx, SpreadSelection(spread), objectType) {
      return Ok(());
    }
    r := Ok(());
  }

  /** `collectInlineFragment`: the type condition never applies, so nothing
      is collected. */
  method CollectInlineFragment(ctx: ExecutionContext, objectType: Option<string>, visitedFragments: VisitedList,
                               fields: FieldMap, inline: InlineFragment)
  {
    if !ShouldIncludeNode(ctx, inline.directives) || !DoesFragmentTypeApply(ctx, InlineSelection(inline), objectType) {
      return;
    }
  }

  /** `collectField`: appends the field to its key's list, creating the list
      when the key is new. */
  method CollectField(ctx: ExecutionContext, fields: FieldMap, field: Field)
    requires fields.contents.Valid()
    modifies fields
    ensures fields.contents == AddField(old(fields.contents), field)
  {
    if !ShouldIncludeNode(ctx, field.directives) {
      return;
    }
    var name := GetFieldEntryKey(field);
    if name !in fields.contents.entries {
      fields.contents := fields.contents.Put(name, []);
    }
    fields.contents := fields.contents.Put(name, fields.contents.entries[name] + [field]);
  }

  // ---------------------------------------------------------------------
  // Properties of the specification.

  /** Once collection has failed, later selections change nothing. */
  lemma {:induction false} FailureSticks(fragments: LinkedMap<string, FragmentDefinition>, init: Collected,
                                         selections: seq<Selection>, k: nat)
    requires init.fields.Valid() && k <= |selections|
    requires CollectAll(fragments, init, selections[..k]).failed
    ensures CollectAll(fragments, init, selections) == CollectAll(fragments, init, selections[..k])
    decreases |selections| - k
  {
    if k < |selections| {
      assert selections[..|selections| - 1][..k] == selections[..k];
      FailureSticks(fragments, init, selections[..|selections| - 1], k);
    } else {
      assert selections[..k] == selections;
    }
  }

  /** Each key's list grows by exactly the selected fields with that key, in
      selection order (unless an unknown fragment stopped the collection). */
  lemma {:induction false} CollectGroupsByKey(fragments: LinkedMap<string, FragmentDefinition>, init: Collected,
                                              selections: seq<Selection>, key: string)
    requires init.fields.Valid() && !init.failed
    requires !CollectAll(fragments, init, selections).failed
    ensures KeyList(CollectAll(fragments, init, selections).fields, key) == KeyList(init.fields, key) + FieldsWithKey(selections, key)
    ensures key in CollectAll(fragments, init, selections).fields.entries <==> key in init.fields.entries || FieldsWithKey(selections, key) != []
  {
    if selections != [] {
      var prefix := selections[..|selections| - 1];
      assert !CollectAll(fragments, init, prefix).failed;
      CollectGroupsByKey(fragments, init, prefix, key);
      StepGroupsByKey(fragments, CollectAll(fragments, init, prefix), selections[|selections| - 1], key);
    }
  }

  /** A successful step appends a field to its own key's list only. */
  lemma {:induction false} StepGroupsByKey(fragments: LinkedMap<string, FragmentDefinition>, c: Collected, selection: Selection, key: string)
    requires c.fields.Valid() && !c.failed && !Step(fragments, c, selection).failed
    ensures var added := selection.FieldSelection? && GetFieldEntryKey(selection.field) == key;
      KeyList(Step(fragments, c, selection).fields, key) == KeyList(c.fields, key) + (if added then [selection.field] else [])
      && (key in Step(fragments, c, selection).fields.entries <==> key in c.fields.entries || added)
  {
  }

  /** Keys already present keep their positions; new keys are appended. */
  lemma {:induction false} CollectKeepsKeyOrder(fragments: LinkedMap<string, FragmentDefinition>, init: Collected,
                                                selections: seq<Selection>)
    requires init.fields.Valid()
    ensures init.fields.keys <= CollectAll(fragments, init, selections).fields.keys
    ensures init.visited <= CollectAll(fragments, init, selections).visited
  {
    if selections != [] {
      CollectKeepsKeyOrder(fragments, init, selections[..|selections| - 1]);
    }
  }

  /** Without a failure, the visited names are the earlier ones plus every
      fragment spread of the selections, applicable or not. */
  lemma {:induction false} CollectVisitsSpreads(fragments: LinkedMap<string, FragmentDefinition>, init: Collected,
                                                selections: seq<Selection>)
    requires init.fields.Valid() && !init.failed
    requires !CollectAll(fragments, init, selections).failed
    ensures (set n | n in CollectAll(fragments, init, selections).visited) == (set n | n in init.visited) + SpreadNames(selections)
  {
    if selections != [] {
      var prefix := selections[..|selections| - 1];
      assert !CollectAll(fragments, init, prefix).failed;
      CollectVisitsSpreads(fragments, init, prefix);
      SpreadNamesSnoc(selections);
      StepVisitsSpread(fragments, CollectAll(fragments, init, prefix), selections[|selections| - 1]);
    }
  }

  /** The spreads of a non-empty sequence: those before the last selection,
      plus the last one's name when it is a spread. */
  lemma {:induction false} SpreadNamesSnoc(selections: seq<Selection>)
    requires selections != []
    ensures var last := selections[|selections| - 1];
      SpreadNames(selections) == SpreadNames(selections[..|selections| - 1]) + (if last.SpreadSelection? then {last.spread.name} else {})
  {
    var prefix := selections[..|selections| - 1];
    var last := selections[|selections| - 1];
    forall n | n in SpreadNames(selections)
      ensures n in SpreadNames(prefix) + (if last.SpreadSelection? then {last.spread.name} else {})
    {
      var i :| 0 <= i < |selections| && selections[i].SpreadSelection? && selections[i].spread.name == n;
      if i < |prefix| {
        assert prefix[i] == selections[i];
      }
    }
    forall n | n in SpreadNames(prefix)
      ensures n in SpreadNames(selections)
    {
      var i :| 0 <= i < |prefix| && prefix[i].SpreadSelection? && prefix[i].spread.name == n;
      assert selections[i] == prefix[i];
    }
  }

  /** A successful step adds at most the spread's name to the visited names. */
  lemma {:induction false} StepVisitsSpread(fragments: LinkedMap<string, FragmentDefinition>, c: Collected, selection: Selection)
    requires c.fields.Valid() && !c.failed && !Step(fragments, c, selection).failed
    ensures (set n | n in Step(fragments, c, selection).visited)
      == (set n | n in c.visited) + (if selection.SpreadSelection? then {selection.spread.name} else {})
  {
  }

  /** Collection fails exactly when some spread names a fragment that is
      neither defined nor already visited. */
  lemma {:induction false} CollectFailsOnUnknownFragment(fragments: LinkedMap<string, FragmentDefinition>, init: Collected,
                                                         selections: seq<Selection>)
    requires init.fields.Valid() && !init.failed
    ensures CollectAll(fragments, init, selections).failed <==> UnknownSpread(fragments, init, selections)
  {
    if selections != [] {
      var prefix := selections[..|selections| - 1];
      var last := selections[|selections| - 1];
      CollectFailsOnUnknownFragment(fragments, init, prefix);
      assert SpreadNames(selections) == SpreadNames(prefix) + (if last.SpreadSelection? then {last.spread.name} else {});
      if !CollectAll(fragments, init, prefix).failed && last.SpreadSelection? {
        CollectVisitsSpreads(fragments, init, prefix);
        var visited := CollectAll(fragments, init, prefix).visited;
        var n := last.spread.name;
        var before := set m | m in init.visited;
        assert (set m | m in visited) == before + SpreadNames(prefix);
        assert n in visited <==> n in (set m | m in visited);
        assert n in init.visited <==> n in before;
        if n !in fragments.entries && n !in init.visited {
          assert n in SpreadNames(prefix) ==> UnknownSpread(fragments, init, prefix);
          assert !UnknownSpread(fragments, init, prefix);
          assert n !in SpreadNames(prefix);
          assert n !in before + SpreadNames(prefix);
          assert n !in visited;
          assert CollectAll(fragments, init, selections) == Step(fragments, CollectAll(fragments, init, prefix), last);
          assert UnknownSpread(fragments, init, selections);
        }
      }
    }
  }

  /** Some spread names a fragment that is neither defined nor visited before. */
  predicate UnknownSpread(fragments: LinkedMap<string, FragmentDefinition>, init: Collected, selections: seq<Selection>) {
    exists n :: n in SpreadNames(selections) && n !in fragments.entries && n !in init.visited
  }

  /** Inline fragments and spreads never add fields: the type-condition hook
      never applies. */
  lemma {:induction false} FragmentsContributeNothing(fragments: LinkedMap<string, FragmentDefinition>, init: Collected,
                                                      selections: seq<Selection>)
    requires init.fields.Valid()
    requires forall i :: 0 <= i < |selections| ==> !selections[i].FieldSelection?
    ensures CollectAll(fragments, init, selections).fields == init.fields
  {
    if selections != [] {
      FragmentsContributeNothing(fragments, init, selections[..|selections| - 1]);
    }
  }
}
