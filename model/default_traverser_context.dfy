/** graphql.util.DefaultTraverserContext: the context a Traverser hands to
    a visitor for one node — the node (possibly replaced once), the parent
    context, the shared visited set and variables, and the accumulated
    value. Nodes are of type `T`; variables and accumulated values are of
    type `A`. */
module DefaultTraverserContext {
  import opened Common

  const NotNullMessage := "Object required to be not null"

  /** The variables map `Map<Class<?>, Object>`, keyed by class name. The
      contexts of one traversal share it, so it is an object of its own. */
  class Vars<A> {
    var entries: map<string, A>

    constructor ()
      ensures entries == map[]
    {
      entries := map[];
    }
  }

  class DefaultTraverserContext<T(==), A> {
    const curNode: Option<T>
    var newNode: Option<T>
    const parent: DefaultTraverserContext?<T, A>
    const visited: Option<set<T>>
    const vars: Vars?<A>
    const sharedContextData: Option<A>
    var newAccValue: Option<A>
    var hasNewAccValue: bool
    var curAccValue: Option<A>
    const isRootContext: bool

    /** The parent contexts, nearest first, down to the one with no parent. */
    ghost const chain: seq<DefaultTraverserContext<T, A>>

    /** `chain` lists the parent chain, which ends (parents are created
        before their children). */
    ghost predicate WellFormed()
      decreases |chain|
    {
      if parent == null then chain == []
      else chain == [parent] + parent.chain && parent.WellFormed()
    }

    constructor (curNode: Option<T>, parent: DefaultTraverserContext?<T, A>, visited: Option<set<T>>, vars: Vars?<A>,
                 sharedContextData: Option<A>, isRootContext: bool)
      requires parent != null ==> parent.WellFormed()
      ensures WellFormed()
      ensures this.curNode == curNode && this.parent == parent && this.visited == visited && this.vars == vars
      ensures this.sharedContextData == sharedContextData && this.isRootContext == isRootContext
      ensures newNode.None? && !hasNewAccValue && newAccValue.None? && curAccValue.None?
    {
      this.curNode := curNode;
      this.parent := parent;
      this.visited := visited;
      this.vars := vars;
      this.sharedContextData := sharedContextData;
      this.isRootContext := isRootContext;
      this.chain := if parent == null then [] else [parent] + parent.chain;
      newNode := None;
      newAccValue := None;
      hasNewAccValue := false;
      curAccValue := None;
    }

    /** `dummy()`: a root context with nothing in it. */
    constructor Dummy()
      ensures WellFormed() && isRootContext && parent == null && curNode.None? && newNode.None?
      ensures visited.None? && vars == null
    {
      curNode := None;
      parent := null;
      visited := None;
      vars := null;
      sharedContextData := None;
      isRootContext := true;
      chain := [];
      newNode := None;
      newAccValue := None;
      hasNewAccValue := false;
      curAccValue := None;
    }

    /** `simple(node)`: a root context for `node`. */
    constructor Simple(node: Option<T>)
      ensures WellFormed() && isRootContext && parent == null && curNode == node && newNode.None?
      ensures visited.None? && vars == null
    {
      curNode := node;
      parent := null;
      visited := None;
      vars := null;
      sharedContextData := None;
      isRootContext := true;
      chain := [];
      newNode := None;
      newAccValue := None;
      hasNewAccValue := false;
      curAccValue := None;
    }

    /** `thisNode`: the replacement node once there is one, else the
        original. */
    function ThisNode(): (r: Option<T>)
      reads this
      ensures newNode.Some? ==> r == newNode
      ensures newNode.None? ==> r == curNode
    {
      if newNode.Some? then newNode else curNode
    }

    /** `changeNode`: a non-null node, once. */
    method ChangeNode(node: Option<T>) returns (r: Result<()>)
      modifies this
      ensures node.None? ==> r == Throws(AssertException(NotNullMessage)) && newNode == old(newNode)
      ensures node.Some? && old(newNode).Some? ==> r == Throws(AssertException("node can only be changed once")) && newNode == old(newNode)
      ensures node.Some? && old(newNode).None? ==> r == Ok(()) && newNode == node && ThisNode() == node
      ensures curAccValue == old(curAccValue) && newAccValue == old(newAccValue) && hasNewAccValue == old(hasNewAccValue)
    {
      if node.None? {
        return Throws(AssertException(NotNullMessage));
      }
      if newNode.Some? {
        return Throws(AssertException("node can only be changed once"));
      }
      newNode := node;
      return Ok(());
    }

    /** `isVisited`: whether the ORIGINAL node is in the visited set. */
    function IsVisited(): (r: Result<bool>)
      ensures visited.None? ==> r == Throws(NullPointerException)
      ensures visited.Some? ==> r == Ok(curNode.Some? && curNode.value in visited.value)
    {
      match visited
      case None => Throws(NullPointerException)
      case Some(v) => Ok(curNode.Some? && curNode.value in v)
    }

    /** `getVar`: the variable stored under the key, or null. */
    function GetVar(key: string): (r: Result<Option<A>>)
      reads vars
      ensures vars == null ==> r == Throws(NullPointerException)
      ensures vars != null ==> r.Ok? && (r.value.Some? <==> key in vars.entries)
      ensures vars != null && key in vars.entries ==> r.value == Some(vars.entries[key])
    {
      if vars == null then Throws(NullPointerException)
      else if key in vars.entries then Ok(Some(vars.entries[key])) else Ok(None)
    }

    /** `setVar`: stores the value in the shared map and returns this
        context. */
    method SetVar(key: string, value: A) returns (r: Result<DefaultTraverserContext<T, A>>)
      modifies vars
      ensures vars == null ==> r == Throws(NullPointerException)
      ensures vars != null ==> r == Ok(this) && vars.entries == old(vars.entries)[key := value]
      ensures vars != null ==> GetVar(key) == Ok(Some(value))
    {
      if vars == null {
        return Throws(NullPointerException);
      }
      vars.entries := vars.entries[key := value];
      return Ok(this);
    }

    /** `setAccumulate`. */
    method SetAccumulate(accumulate: Option<A>)
      modifies this
      ensures hasNewAccValue && newAccValue == accumulate && curAccValue == old(curAccValue) && newNode == old(newNode)
      ensures NewAccumulate() == accumulate
    {
      hasNewAccValue := true;
      newAccValue := accumulate;
    }

    /** `getNewAccumulate`: the value set by `setAccumulate` since the last
        `setCurAccValue`, else the current one. */
    function NewAccumulate(): (r: Option<A>)
      reads this
      ensures hasNewAccValue ==> r == newAccValue
      ensures !hasNewAccValue ==> r == curAccValue
    {
      if hasNewAccValue then newAccValue else curAccValue
    }

    /** `getCurrentAccumulate`. */
    function CurrentAccumulate(): Option<A>
      reads this
    {
      curAccValue
    }

    /** `setCurAccValue`: the current value, with no new value pending. */
    method SetCurAccValue(value: Option<A>)
      modifies this
      ensures curAccValue == value && !hasNewAccValue && newAccValue == old(newAccValue) && newNode == old(newNode)
      ensures NewAccumulate() == value && CurrentAccumulate() == value
    {
      hasNewAccValue := false;
      curAccValue := value;
    }

    /** `getParentNodes`. */
    method GetParentNodes() returns (r: Result<seq<Option<T>>>)
      requires WellFormed()
      ensures r == ParentNodes(chain)
    {
      var result: seq<Option<T>> := [];
      var curContext := parent;
      ghost var i := 0;
      assert chain[0..] == chain;
      assert ParentNodes(chain).Ok? ==> result + ParentNodes(chain).value == ParentNodes(chain).value;
      while curContext == null || !curContext.isRootContext
        invariant 0 <= i <= |chain|
        invariant curContext == (if i < |chain| then chain[i] else null)
        invariant ParentNodes(chain[i..]).Throws? ==> ParentNodes(chain) == ParentNodes(chain[i..])
        invariant ParentNodes(chain[i..]).Ok? ==> ParentNodes(chain) == Ok(result + ParentNodes(chain[i..]).value)
        decreases |chain| - i
      {
        if curContext == null {
          assert chain[i..] == [];
          return Throws(NullPointerException);
        }
        ghost var here := chain[i..];
        assert here[0] == chain[i] && here[1..] == chain[i + 1..];
        ghost var rest := ParentNodes(chain[i + 1..]);
        assert rest.Throws? ==> ParentNodes(here) == rest;
        assert rest.Ok? ==> ParentNodes(here) == Ok([curContext.ThisNode()] + rest.value);
        assert rest.Ok? ==> result + ([curContext.ThisNode()] + rest.value) == (result + [curContext.ThisNode()]) + rest.value;
        result := result + [curContext.ThisNode()];
        curContext := curContext.parent;
        ChainLinks(i);
        i := i + 1;
      }
      assert chain[i..] != [] && chain[i..][0] == chain[i];
      assert ParentNodes(chain[i..]) == Ok([]);
      assert result + [] == result;
      return Ok(result);
    }

    /** The context after `chain[i]` in the chain is its parent. */
    lemma {:induction false} ChainLinks(i: nat)
      requires WellFormed() && i < |chain|
      ensures chain[i].parent == (if i + 1 < |chain| then chain[i + 1] else null)
      decreases |chain|
    {
      if i > 0 {
        parent.ChainLinks(i - 1);
      } else if parent.parent != null {
        assert parent.chain != [];
      }
    }
  }

  /** The nodes of the contexts up to the first root context, nearest
      first; running off the end of the chain dereferences null. */
  function ParentNodes<T(==), A>(contexts: seq<DefaultTraverserContext<T, A>>): (r: Result<seq<Option<T>>>)
    reads set c | c in contexts
  {
    if contexts == [] then Throws(NullPointerException)
    else if contexts[0].isRootContext then Ok([])
    else
      var rest :- ParentNodes(contexts[1..]);
      Ok([contexts[0].ThisNode()] + rest)
  }

  /** `getParentNodes` lists, nearest first, the (possibly replaced) nodes
      of the parent contexts that come before the first root context, and
      fails when no parent context is a root. */
  lemma {:induction false} ParentNodesMeaning<T, A>(contexts: seq<DefaultTraverserContext<T, A>>)
    ensures var r := ParentNodes(contexts);
      (r.Ok? <==> exists k :: 0 <= k < |contexts| && contexts[k].isRootContext)
      && (r.Throws? ==> r.error == NullPointerException)
      && (r.Ok? ==> (|r.value| < |contexts| && contexts[|r.value|].isRootContext
        && forall k :: 0 <= k < |r.value| ==> !contexts[k].isRootContext && r.value[k] == contexts[k].ThisNode()))
  {
    if contexts != [] && !contexts[0].isRootContext {
      ParentNodesMeaning(contexts[1..]);
      var rest := ParentNodes(contexts[1..]);
      if rest.Ok? {
        var r := ParentNodes(contexts);
        forall k | 0 <= k < |r.value|
          ensures !contexts[k].isRootContext && r.value[k] == contexts[k].ThisNode()
        {
          if k > 0 {
            assert contexts[1..][k - 1] == contexts[k];
          }
        }
        var k :| 0 <= k < |contexts[1..]| && contexts[1..][k].isRootContext;
        assert contexts[k + 1].isRootContext;
      }
    }
  }
}
