/** graphql.validation.rules.NoUnusedFragments: while the document is
    walked, records the spreads written directly in each operation and in
    each fragment definition; when the document ends, every fragment not
    reachable from some operation is reported once. */
module NoUnusedFragments {
  import opened Common
  import opened Ast
  import opened LinkedMaps
  import opened Validation

  type SpreadNames = LinkedMap<string, seq<string>>

  /** The list the next spread name is appended to: the rule's `usedFragments`
      reference. Before the first operation or fragment definition it is a
      list nobody else holds, so names appended to it are never read. */
  datatype Target = Detached | InOperation(index: nat) | InDefinition(name: string)

  function UnusedFragmentError(): ValidationError {
    ValidationError(UnusedFragment, "", [], [])
  }

  // ---------------------------------------------------------------------
  // Reachability, as `collectUsedFragmentsInDefinition` computes it.

  function Spreads(m: SpreadNames, name: string): seq<string> {
    if name in m.entries then m.entries[name] else []
  }

  function NameSet(names: seq<string>): set<string> {
    set n | n in names
  }

  /** Declared fragments not yet collected: the measure the walk shrinks. */
  function Remaining(m: SpreadNames, collected: seq<string>): nat {
    |m.entries.Keys - NameSet(collected)|
  }

  lemma {:induction false} RemainingShrinks(m: SpreadNames, before: seq<string>, after: seq<string>)
    requires before <= after
    ensures Remaining(m, after) <= Remaining(m, before)
  {
    SubsetCard(m.entries.Keys - NameSet(after), m.entries.Keys - NameSet(before));
  }

  lemma {:induction false} RemainingDrops(m: SpreadNames, collected: seq<string>, name: string)
    requires name in m.entries && name !in collected
    ensures Remaining(m, collected + [name]) < Remaining(m, collected)
  {
    assert m.entries.Keys - NameSet(collected + [name]) == (m.entries.Keys - NameSet(collected)) - {name};
  }

  /** One call of `collectUsedFragmentsInDefinition`: a name already
      collected stops the walk; otherwise it is appended, and then its spread
      list is walked, which throws when the name was never declared. */
  function Collect(m: SpreadNames, collected: seq<string>, name: string): (r: Result<seq<string>>)
    ensures r.Ok? ==> collected <= r.value
    decreases Remaining(m, collected), 0
  {
    if name in collected then Ok(collected)
    else if name !in m.entries then Throws(NullPointerException)
    else
      RemainingDrops(m, collected, name);
      CollectEach(m, collected + [name], m.entries[name])
  }

  /** The walk over a list of names, in order, stopping at the first exception. */
  function CollectEach(m: SpreadNames, collected: seq<string>, names: seq<string>): (r: Result<seq<string>>)
    ensures r.Ok? ==> collected <= r.value
    decreases Remaining(m, collected), 1, |names|
  {
    if names == [] then Ok(collected)
    else
      match Collect(m, collected, names[0])
      case Throws(e) => Throws(e)
      case Ok(next) =>
        RemainingShrinks(m, collected, next);
        CollectEach(m, next, names[1..])
  }

  function Flatten(lists: seq<seq<string>>): seq<string> {
    if lists == [] then [] else lists[0] + Flatten(lists[1..])
  }

  /** The errors `documentFinished` adds: one per declared fragment whose
      name is not among the used ones, in declaration order. */
  function UnusedErrors(declared: seq<FragmentDefinition>, used: seq<string>): seq<ValidationError> {
    if declared == [] then []
    else
      var last := declared[|declared| - 1];
      UnusedErrors(declared[..|declared| - 1], used) + (if last.name in used then [] else [UnusedFragmentError()])
  }

  /** The list `collectUsedFragmentsInDefinition` appends to. */
  class NameList {
    var names: seq<string>

    constructor ()
      ensures names == []
    {
      names := [];
    }
  }

  class NoUnusedFragments {
    var allDeclaredFragments: seq<FragmentDefinition>
    var usedFragments: Target
    var spreadsInDefinition: SpreadNames
    var fragmentsUsedDirectlyInOperation: seq<seq<string>>
    const collector: ValidationErrorCollector

    /** The target list exists. */
    predicate Valid()
      reads this
    {
      spreadsInDefinition.Valid()
      && (usedFragments.InOperation? ==> usedFragments.index < |fragmentsUsedDirectlyInOperation|)
      && (usedFragments.InDefinition? ==> usedFragments.name in spreadsInDefinition.entries)
    }

    constructor (collector: ValidationErrorCollector)
      ensures Valid() && this.collector == collector
      ensures allDeclaredFragments == [] && usedFragments == Detached
      ensures spreadsInDefinition == Empty() && fragmentsUsedDirectlyInOperation == []
    {
      this.collector := collector;
      allDeclaredFragments := [];
      usedFragments := Detached;
      spreadsInDefinition := Empty();
      fragmentsUsedDirectlyInOperation := [];
    }

    /** `checkOperationDefinition`: a new, empty list of directly used
        names, which later spreads append to. */
    method CheckOperationDefinition(operationDefinition: OperationDefinition)
      requires Valid()
      modifies this
      ensures Valid()
      ensures fragmentsUsedDirectlyInOperation == old(fragmentsUsedDirectlyInOperation) + [[]]
      ensures usedFragments == InOperation(|old(fragmentsUsedDirectlyInOperation)|)
      ensures allDeclaredFragments == old(allDeclaredFragments) && spreadsInDefinition == old(spreadsInDefinition)
    {
      usedFragments := InOperation(|fragmentsUsedDirectlyInOperation|);
      fragmentsUsedDirectlyInOperation := fragmentsUsedDirectlyInOperation + [[]];
    }

    /** `checkFragmentSpread`: the name goes to the current list. */
    method CheckFragmentSpread(fragmentSpread: FragmentSpread)
      requires Valid()
      modifies this
      ensures Valid()
      ensures usedFragments == old(usedFragments) && allDeclaredFragments == old(allDeclaredFragments)
      ensures match usedFragments
        case Detached =>
          fragmentsUsedDirectlyInOperation == old(fragmentsUsedDirectlyInOperation)
          && spreadsInDefinition == old(spreadsInDefinition)
        case InOperation(i) =>
          fragmentsUsedDirectlyInOperation == old(fragmentsUsedDirectlyInOperation)[i := old(fragmentsUsedDirectlyInOperation)[i] + [fragmentSpread.name]]
          && spreadsInDefinition == old(spreadsInDefinition)
        case InDefinition(n) =>
          fragmentsUsedDirectlyInOperation == old(fragmentsUsedDirectlyInOperation)
          && spreadsInDefinition == old(spreadsInDefinition).Put(n, old(spreadsInDefinition).entries[n] + [fragmentSpread.name])
    {
      match usedFragments
      case Detached =>
      case InOperation(i) =>
        fragmentsUsedDirectlyInOperation := fragmentsUsedDirectlyInOperation[i := fragmentsUsedDirectlyInOperation[i] + [fragmentSpread.name]];
      case InDefinition(n) =>
        spreadsInDefinition := spreadsInDefinition.Put(n, spreadsInDefinition.entries[n] + [fragmentSpread.name]);
    }

    /** `checkFragmentDefinition`: the definition is recorded and gets a new,
        empty spread list, replacing any list of an earlier one with the same name. */
    method CheckFragmentDefinition(fragmentDefinition: FragmentDefinition)
      requires Valid()
      modifies this
      ensures Valid()
      ensures allDeclaredFragments == old(allDeclaredFragments) + [fragmentDefinition]
      ensures usedFragments == InDefinition(fragmentDefinition.name)
      ensures spreadsInDefinition == old(spreadsInDefinition).Put(fragmentDefinition.name, [])
      ensures fragmentsUsedDirectlyInOperation == old(fragmentsUsedDirectlyInOperation)
    {
      allDeclaredFragments := allDeclaredFragments + [fragmentDefinition];
      usedFragments := InDefinition(fragmentDefinition.name);
      spreadsInDefinition := spreadsInDefinition.Put(fragmentDefinition.name, []);
    }

    /** `documentFinished`: walk from every directly used name, then report
        each declared fragment the walk did not reach. */
    method DocumentFinished(document: Document) returns (r: Result<()>)
      requires Valid()
      modifies collector
      ensures var used := CollectEach(spreadsInDefinition, [], Flatten(fragmentsUsedDirectlyInOperation));
        match used
        case Throws(e) => r == Throws(e) && collector.errors == old(collector.errors)
        case Ok(names) => r == Ok(()) && collector.errors == old(collector.errors) + UnusedErrors(allDeclaredFragments, names)
    {
      var allUsedFragments := new NameList();
      var operations := fragmentsUsedDirectlyInOperation;
      ghost var goal := CollectEach(spreadsInDefinition, [], Flatten(operations));
      var i := 0;
      while i < |operations|
        invariant 0 <= i <= |operations|
        invariant CollectEach(spreadsInDefinition, allUsedFragments.names, Flatten(operations[i..])) == goal
        invariant collector.errors == old(collector.errors)
      {
        assert operations[i..][1..] == operations[i + 1..];
        var fragmentsInOneOperation := operations[i];
        var j := 0;
        while j < |fragmentsInOneOperation|
          invariant 0 <= j <= |fragmentsInOneOperation|
          invariant CollectEach(spreadsInDefinition, allUsedFragments.names, fragmentsInOneOperation[j..] + Flatten(operations[i + 1..])) == goal
          invariant collector.errors == old(collector.errors)
        {
          ghost var rest := fragmentsInOneOperation[j..] + Flatten(operations[i + 1..]);
          assert rest[0] == fragmentsInOneOperation[j];
          assert rest[1..] == fragmentsInOneOperation[j + 1..] + Flatten(operations[i + 1..]);
          var collected := CollectUsedFragmentsInDefinition(allUsedFragments, fragmentsInOneOperation[j]);
          if collected.Throws? {
            return collected;
          }
          j := j + 1;
        }
        assert fragmentsInOneOperation[j..] + Flatten(operations[i + 1..]) == Flatten(operations[i + 1..]);
        i := i + 1;
      }
      ReportUnused(allUsedFragments.names);
      return Ok(());
    }

    /** The second loop of `documentFinished`: an error for each declared
        fragment whose name is not among the used ones. */
    method ReportUnused(used: seq<string>)
      modifies collector
      ensures collector.errors == old(collector.errors) + UnusedErrors(allDeclaredFragments, used)
    {
      var declared := allDeclaredFragments;
      var k := 0;
      while k < |declared|
        invariant 0 <= k <= |declared|
        invariant collector.errors == old(collector.errors) + UnusedErrors(declared[..k], used)
      {
        assert declared[..k + 1][..k] == declared[..k];
        if declared[k].name !in used {
          collector.AddError(UnusedFragmentError());
        }
        k := k + 1;
      }
      assert declared[..k] == declared;
    }

    /** `collectUsedFragmentsInDefinition`. */
    method CollectUsedFragmentsInDefinition(result: NameList, fragmentName: string) returns (r: Result<()>)
      requires spreadsInDefinition.Valid()
      modifies result
      ensures match Collect(spreadsInDefinition, old(result.names), fragmentName)
        case Throws(e) => r == Throws(e)
        case Ok(names) => r == Ok(()) && result.names == names
      decreases Remaining(spreadsInDefinition, result.names), 0
    {
      if fragmentName in result.names {
        return Ok(());
      }
      ghost var before := result.names;
      result.names := result.names + [fragmentName];
      if fragmentName !in spreadsInDefinition.entries {
        return Throws(NullPointerException);
      }
      var spreadList := spreadsInDefinition.entries[fragmentName];
      RemainingDrops(spreadsInDefinition, before, fragmentName);
      ghost var start := result.names;
      var i := 0;
      while i < |spreadList|
        invariant 0 <= i <= |spreadList|
        invariant start <= result.names
        invariant CollectEach(spreadsInDefinition, result.names, spreadList[i..]) == CollectEach(spreadsInDefinition, start, spreadList)
      {
        assert spreadList[i..][1..] == spreadList[i + 1..];
        RemainingShrinks(spreadsInDefinition, start, result.names);
        var collected := CollectUsedFragmentsInDefinition(result, spreadList[i]);
        if collected.Throws? {
          return collected;
        }
        i := i + 1;
      }
      return Ok(());
    }
  }

  // ---------------------------------------------------------------------
  // Properties.

  /** Every name was reached from a root or from the spreads of a name
      collected before it. */
  predicate Justified(m: SpreadNames, roots: seq<string>, collected: seq<string>) {
    forall k :: 0 <= k < |collected| ==>
      collected[k] in roots || exists j :: 0 <= j < k && collected[k] in Spreads(m, collected[j])
  }

  /** Every name collected after `collected` was declared, and its spreads
      were all collected too. */
  predicate ClosedBeyond(m: SpreadNames, collected: seq<string>, r: seq<string>) {
    forall n :: n in r && n !in collected ==> n in m.entries && forall s :: s in m.entries[n] ==> s in r
  }

  predicate Reachable(m: SpreadNames, roots: seq<string>, collected: seq<string>, name: string) {
    name in roots || exists j :: 0 <= j < |collected| && name in Spreads(m, collected[j])
  }

  lemma {:induction false} JustifiedAppend(m: SpreadNames, roots: seq<string>, collected: seq<string>, name: string)
    requires Justified(m, roots, collected) && Reachable(m, roots, collected, name)
    ensures Justified(m, roots, collected + [name])
  {
    var next := collected + [name];
    forall k | 0 <= k < |next|
      ensures next[k] in roots || exists j :: 0 <= j < k && next[k] in Spreads(m, next[j])
    {
      if k < |collected| {
        assert next[k] == collected[k];
        if next[k] !in roots {
          var j :| 0 <= j < k && collected[k] in Spreads(m, collected[j]);
          assert next[j] == collected[j];
        }
      } else if name !in roots {
        var j :| 0 <= j < |collected| && name in Spreads(m, collected[j]);
        assert next[j] == collected[j];
      }
    }
  }

  lemma {:induction false} CollectSound(m: SpreadNames, roots: seq<string>, collected: seq<string>, name: string)
    requires Distinct(collected) && Justified(m, roots, collected)
    requires Reachable(m, roots, collected, name)
    ensures var r := Collect(m, collected, name);
      r.Ok? ==> name in r.value && Distinct(r.value) && Justified(m, roots, r.value) && ClosedBeyond(m, collected, r.value)
    decreases Remaining(m, collected), 0
  {
    if name !in collected && name in m.entries {
      RemainingDrops(m, collected, name);
      var next := collected + [name];
      JustifiedAppend(m, roots, collected, name);
      assert Distinct(next);
      var spreads := m.entries[name];
      assert forall s :: s in spreads ==> Reachable(m, roots, next, s) by {
        assert next[|collected|] == name;
      }
      CollectEachSound(m, roots, next, spreads);
      var r := CollectEach(m, next, spreads);
      if r.Ok? {
        assert name in r.value by { assert next[|collected|] == name; }
        forall n | n in r.value && n !in collected
          ensures n in m.entries && forall s :: s in m.entries[n] ==> s in r.value
        {
          if n != name {
            assert n !in next;
          }
        }
      }
    }
  }

  lemma {:induction false} CollectEachSound(m: SpreadNames, roots: seq<string>, collected: seq<string>, names: seq<string>)
    requires Distinct(collected) && Justified(m, roots, collected)
    requires forall n :: n in names ==> Reachable(m, roots, collected, n)
    ensures var r := CollectEach(m, collected, names);
      r.Ok? ==> (forall n :: n in names ==> n in r.value) && Distinct(r.value) && Justified(m, roots, r.value) && ClosedBeyond(m, collected, r.value)
    decreases Remaining(m, collected), 1, |names|
  {
    if names != [] {
      assert names[0] in names;
      CollectSound(m, roots, collected, names[0]);
      var first := Collect(m, collected, names[0]);
      if first.Ok? {
        var next := first.value;
        RemainingShrinks(m, collected, next);
        forall n | n in names[1..]
          ensures Reachable(m, roots, next, n)
        {
          assert n in names;
          if n !in roots {
            var j :| 0 <= j < |collected| && n in Spreads(m, collected[j]);
            assert next[j] == collected[j];
          }
        }
        CollectEachSound(m, roots, next, names[1..]);
      }
    }
  }

  /** What `documentFinished` walks to, when it does not throw, is exactly
      the set of fragments reachable from the operations: every root is in
      it, it is closed under spreads, every name in it was reached from a
      root or from an earlier name, and no name occurs twice. */
  lemma {:induction false} UsedFragmentsAreReachable(m: SpreadNames, roots: seq<string>)
    ensures var r := CollectEach(m, [], roots);
      r.Ok? ==>
        (forall n :: n in roots ==> n in r.value)
        && (forall n :: n in r.value ==> n in m.entries && forall s :: s in m.entries[n] ==> s in r.value)
        && Justified(m, roots, r.value)
        && Distinct(r.value)
  {
    CollectEachSound(m, roots, [], roots);
  }

  /** A name the walk reaches that was never declared makes it throw. */
  lemma {:induction false} UndeclaredRootThrows(m: SpreadNames, name: string)
    requires name !in m.entries
    ensures CollectEach(m, [], [name]) == Throws(NullPointerException)
  {
  }

  /** Every error added is an UnusedFragment error, and none is added
      exactly when every declared fragment is used. */
  lemma {:induction false} UnusedErrorsExactly(declared: seq<FragmentDefinition>, used: seq<string>)
    ensures forall e :: e in UnusedErrors(declared, used) ==> e.errorType == UnusedFragment
    ensures UnusedErrors(declared, used) == [] <==> forall d :: d in declared ==> d.name in used
    ensures |UnusedErrors(declared, used)| <= |declared|
  {
    if declared != [] {
      var init := declared[..|declared| - 1];
      UnusedErrorsExactly(init, used);
      assert declared == init + [declared[|declared| - 1]];
    }
  }
}
