/** graphql.validation.rules.NoFragmentCycles: maps each fragment to the
    spreads written inside it, then searches depth first from each fragment
    definition for a spread path that leads back to it. The `checked` set
    lives as long as the rule, so a fragment expanded from one definition is
    not expanded again from a later one. */
module NoFragmentCycles {
  import opened Common
  import opened Ast
  import opened LinkedMaps
  import opened Validation

  type SpreadMap = LinkedMap<string, seq<FragmentSpread>>

  /** `gatherSpreads`: the fragment spreads of a selection list in the
      order a pre-order traversal meets them, nested ones included. */
  function SpreadsIn(selections: seq<Selection>): seq<FragmentSpread>
    decreases SelectionsSize(selections), 1
  {
    if selections == [] then [] else SpreadsOf(selections[0]) + SpreadsIn(selections[1..])
  }

  function SpreadsOf(selection: Selection): seq<FragmentSpread>
    decreases SelectionSize(selection), 0
  {
    match selection
    case FieldSelection(f) => if f.selectionSet.Some? then SpreadsIn(f.selectionSet.value.selections) else []
    case InlineSelection(i) => SpreadsIn(i.selectionSet.selections)
    case SpreadSelection(s) => [s]
  }

  /** `prepareFragmentMap`: every fragment definition's name to its spreads;
      a later definition of the same name replaces an earlier one. */
  function FragmentSpreadMap(definitions: seq<Definition>): (r: SpreadMap)
    ensures r.Valid()
  {
    if definitions == [] then Empty()
    else
      var m := FragmentSpreadMap(definitions[..|definitions| - 1]);
      var d := definitions[|definitions| - 1];
      if d.FragmentDef? then m.Put(d.fragmentDefinition.name, SpreadsIn(d.fragmentDefinition.selectionSet.selections)) else m
  }

  /** The spreads recorded for a fragment, none when it has no entry. */
  function Spreads(m: SpreadMap, name: string): seq<FragmentSpread> {
    if name in m.entries then m.entries[name] else []
  }

  /** Every spread recorded anywhere in the map. */
  function AllSpreads(m: SpreadMap): set<FragmentSpread> {
    set k, s | k in m.entries && s in m.entries[k] :: s
  }

  function PathSet(path: seq<FragmentSpread>): set<FragmentSpread> {
    set s | s in path
  }

  /** The spreads not yet on the path: the measure the search shrinks. */
  function Remaining(m: SpreadMap, path: seq<FragmentSpread>): nat {
    |AllSpreads(m) - PathSet(path)|
  }

  lemma {:induction false} RemainingDrops(m: SpreadMap, path: seq<FragmentSpread>, s: FragmentSpread)
    requires s in AllSpreads(m) && s !in path
    ensures Remaining(m, path + [s]) < Remaining(m, path)
  {
    assert AllSpreads(m) - PathSet(path + [s]) == (AllSpreads(m) - PathSet(path)) - {s};
  }

  lemma {:induction false} SpreadsAreRecorded(m: SpreadMap, name: string)
    ensures forall s :: s in Spreads(m, name) ==> s in AllSpreads(m)
  {
  }

  /** What the search changes: the checked names and the errors. */
  datatype SearchState = SearchState(checked: set<string>, errors: seq<ValidationError>)

  function CycleError(spreadPath: seq<FragmentSpread>): ValidationError {
    ValidationError(FragmentCycle, "Fragment cycles not allowed", spreadPath, [])
  }

  /** `detectCycleRecursive` as a function of the state it starts in. */
  function Detect(m: SpreadMap, fragmentName: string, initialName: string, path: seq<FragmentSpread>, st: SearchState): SearchState
    decreases Remaining(m, path), 1, 0
  {
    if fragmentName in st.checked || fragmentName !in m.entries then st
    else
      SpreadsAreRecorded(m, fragmentName);
      var after := DetectEach(m, m.entries[fragmentName], initialName, path, st);
      after.(checked := after.checked + {fragmentName})
  }

  /** The loop of `detectCycleRecursive` over a fragment's spreads: a spread
      back to the start is reported with the current path and not followed,
      a spread already on the path is skipped, any other is followed with
      the path one longer. */
  function DetectEach(m: SpreadMap, spreads: seq<FragmentSpread>, initialName: string, path: seq<FragmentSpread>, st: SearchState): SearchState
    requires forall s :: s in spreads ==> s in AllSpreads(m)
    decreases Remaining(m, path), 0, |spreads|
  {
    if spreads == [] then st
    else
      var s := spreads[0];
      var next := (
        if s.name == initialName then st.(errors := st.errors + [CycleError(path)])
        else if s in path then st
        else (RemainingDrops(m, path, s); Detect(m, s.name, initialName, path + [s], st)));
      DetectEach(m, spreads[1..], initialName, path, next)
  }

  /** The spread path, a list the search pushes to and pops from. */
  class SpreadPath {
    var spreads: seq<FragmentSpread>

    constructor ()
      ensures spreads == []
    {
      spreads := [];
    }
  }

  class NoFragmentCycles {
    var fragmentSpreads: SpreadMap
    var checked: set<string>
    const collector: ValidationErrorCollector

    /** The constructor's `prepareFragmentMap`. */
    constructor (document: Document, collector: ValidationErrorCollector)
      ensures fragmentSpreads == FragmentSpreadMap(document.definitions)
      ensures checked == {} && this.collector == collector
    {
      this.collector := collector;
      checked := {};
      var definitions := document.definitions;
      var m: SpreadMap := Empty();
      var i := 0;
      while i < |definitions|
        invariant 0 <= i <= |definitions|
        invariant m == FragmentSpreadMap(definitions[..i])
      {
        assert definitions[..i + 1][..i] == definitions[..i];
        if definitions[i].FragmentDef? {
          var fragmentDefinition := definitions[i].fragmentDefinition;
          m := m.Put(fragmentDefinition.name, SpreadsIn(fragmentDefinition.selectionSet.selections));
        }
        i := i + 1;
      }
      assert definitions[..i] == definitions;
      fragmentSpreads := m;
    }

    /** `checkFragmentDefinition`: search from the definition with an empty path. */
    method CheckFragmentDefinition(fragmentDefinition: FragmentDefinition)
      modifies this`checked, collector
      ensures SearchState(checked, collector.errors)
        == Detect(fragmentSpreads, fragmentDefinition.name, fragmentDefinition.name, [], old(SearchState(checked, collector.errors)))
    {
      var spreadPath := new SpreadPath();
      DetectCycleRecursive(fragmentDefinition.name, fragmentDefinition.name, spreadPath);
    }

    /** `detectCycleRecursive`. */
    method DetectCycleRecursive(fragmentName: string, initialName: string, spreadPath: SpreadPath)
      modifies this`checked, collector, spreadPath
      ensures spreadPath.spreads == old(spreadPath.spreads)
      ensures SearchState(checked, collector.errors)
        == Detect(fragmentSpreads, fragmentName, initialName, old(spreadPath.spreads), old(SearchState(checked, collector.errors)))
      decreases Remaining(fragmentSpreads, spreadPath.spreads), 1
    {
      if fragmentName in checked {
        return;
      }
      if fragmentName !in fragmentSpreads.entries {
        return;
      }
      var spreads := fragmentSpreads.entries[fragmentName];
      SpreadsAreRecorded(fragmentSpreads, fragmentName);
      ghost var path := spreadPath.spreads;
      ghost var goal := DetectEach(fragmentSpreads, spreads, initialName, path, SearchState(checked, collector.errors));
      var i := 0;
      while i < |spreads|
        invariant 0 <= i <= |spreads|
        invariant spreadPath.spreads == path
        invariant DetectEach(fragmentSpreads, spreads[i..], initialName, path, SearchState(checked, collector.errors)) == goal
      {
        assert spreads[i..][1..] == spreads[i + 1..];
        var fragmentSpread := spreads[i];
        if fragmentSpread.name == initialName {
          collector.AddError(CycleError(spreadPath.spreads));
        } else if fragmentSpread !in spreadPath.spreads {
          RemainingDrops(fragmentSpreads, path, fragmentSpread);
          spreadPath.spreads := spreadPath.spreads + [fragmentSpread];
          DetectCycleRecursive(fragmentSpread.name, initialName, spreadPath);
          spreadPath.spreads := spreadPath.spreads[..|spreadPath.spreads| - 1];
          assert spreadPath.spreads == path;
        }
        i := i + 1;
      }
      checked := checked + {fragmentName};
    }
  }

  // ---------------------------------------------------------------------
  // Properties.

  /** The fragment the path ends at: the start for an empty path. */
  function PathEnd(initialName: string, path: seq<FragmentSpread>): string {
    if path == [] then initialName else path[|path| - 1].name
  }

  /** A spread path from `initialName`: each spread is written inside the
      fragment the previous one names. */
  predicate Chain(m: SpreadMap, initialName: string, path: seq<FragmentSpread>) {
    (path != [] ==> path[0] in Spreads(m, initialName))
    && forall k :: 0 <= k < |path| - 1 ==> path[k + 1] in Spreads(m, path[k].name)
  }

  /** A path from `initialName` whose last fragment spreads `initialName`. */
  predicate IsCycle(m: SpreadMap, initialName: string, path: seq<FragmentSpread>) {
    Chain(m, initialName, path) && exists s :: s in Spreads(m, PathEnd(initialName, path)) && s.name == initialName
  }

  /** The search only adds names to `checked` and only appends errors, and
      every error it appends is a FragmentCycle error whose spread path is a
      real cycle through the starting fragment. */
  lemma {:induction false} DetectReportsOnlyCycles(m: SpreadMap, fragmentName: string, initialName: string, path: seq<FragmentSpread>, st: SearchState)
    requires Chain(m, initialName, path) && PathEnd(initialName, path) == fragmentName
    ensures var r := Detect(m, fragmentName, initialName, path, st);
      st.checked <= r.checked && st.errors <= r.errors
      && forall k :: |st.errors| <= k < |r.errors| ==> r.errors[k].errorType == FragmentCycle && IsCycle(m, initialName, r.errors[k].spreadPath)
    decreases Remaining(m, path), 1, 0
  {
    if !(fragmentName in st.checked || fragmentName !in m.entries) {
      SpreadsAreRecorded(m, fragmentName);
      DetectEachReportsOnlyCycles(m, m.entries[fragmentName], initialName, path, st);
    }
  }

  lemma {:induction false} DetectEachReportsOnlyCycles(m: SpreadMap, spreads: seq<FragmentSpread>, initialName: string, path: seq<FragmentSpread>, st: SearchState)
    requires forall s :: s in spreads ==> s in AllSpreads(m)
    requires Chain(m, initialName, path)
    requires forall s :: s in spreads ==> s in Spreads(m, PathEnd(initialName, path))
    ensures var r := DetectEach(m, spreads, initialName, path, st);
      st.checked <= r.checked && st.errors <= r.errors
      && forall k :: |st.errors| <= k < |r.errors| ==> r.errors[k].errorType == FragmentCycle && IsCycle(m, initialName, r.errors[k].spreadPath)
    decreases Remaining(m, path), 0, |spreads|
  {
    if spreads != [] {
      var s := spreads[0];
      assert s in spreads;
      var next :=
        if s.name == initialName then st.(errors := st.errors + [CycleError(path)])
        else if s in path then st
        else Detect(m, s.name, initialName, path + [s], st);
      if s.name == initialName {
        assert IsCycle(m, initialName, path);
      } else if s !in path {
        RemainingDrops(m, path, s);
        var longer := path + [s];
        ChainExtends(m, initialName, path, s);
        DetectReportsOnlyCycles(m, s.name, initialName, longer, st);
      }
      assert forall t :: t in spreads[1..] ==> t in spreads;
      DetectEachReportsOnlyCycles(m, spreads[1..], initialName, path, next);
    }
  }

  /** A spread written in the fragment a chain ends at extends the chain. */
  lemma {:induction false} ChainExtends(m: SpreadMap, initialName: string, path: seq<FragmentSpread>, s: FragmentSpread)
    requires Chain(m, initialName, path)
    requires s in Spreads(m, PathEnd(initialName, path))
    ensures Chain(m, initialName, path + [s])
  {
    var longer := path + [s];
    forall k | 0 <= k < |longer| - 1
      ensures longer[k + 1] in Spreads(m, longer[k].name)
    {
      if k + 1 < |path| {
        assert longer[k + 1] == path[k + 1] && longer[k] == path[k];
      } else {
        assert longer[k + 1] == s && longer[k] == path[|path| - 1];
      }
    }
  }

  /** Once a fragment has been searched it is in `checked`, and a search
      that starts at a checked fragment changes nothing. */
  lemma {:induction false} DetectMarksChecked(m: SpreadMap, fragmentName: string, initialName: string, path: seq<FragmentSpread>, st: SearchState)
    ensures fragmentName in m.entries ==> fragmentName in Detect(m, fragmentName, initialName, path, st).checked
    ensures fragmentName in st.checked ==> Detect(m, fragmentName, initialName, path, st) == st
  {
  }

  /** A fragment that spreads itself is reported once, with an empty path. */
  lemma {:induction false} SelfSpreadIsReported(m: SpreadMap, name: string, spread: FragmentSpread, st: SearchState)
    requires name !in st.checked && name in m.entries && m.entries[name] == [spread] && spread.name == name
    ensures Detect(m, name, name, [], st) == SearchState(st.checked + {name}, st.errors + [CycleError([])])
  {
    SpreadsAreRecorded(m, name);
    assert DetectEach(m, [spread], name, [], st) == st.(errors := st.errors + [CycleError([])]);
  }
}
