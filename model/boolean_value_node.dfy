/** The `BooleanValue` literal node: an immutable value with no children,
    rebuilt through its Builder by `transform`. */
module BooleanValueNode {
  import opened Common
  import opened LanguageNode

  datatype BooleanValue = BooleanValue(
    value: bool,
    sourceLocation: Option<SourceLocation>,
    comments: seq<Comment>,
    ignoredChars: IgnoredChars)

  /** The named-children container, a list of nodes per key. */
  type ChildrenContainer = map<string, seq<Node>>

  /** `new BooleanValue(value)`: no location, no comments, no ignored
      characters. */
  function NewBooleanValue(value: bool): (b: BooleanValue)
    ensures b.value == value && b.sourceLocation.None? && b.comments == [] && b.ignoredChars == EMPTY_IGNORED_CHARS
  {
    BooleanValue(value, None, [], EMPTY_IGNORED_CHARS)
  }

  /** `getChildren`: none. */
  function GetChildren(b: BooleanValue): (r: seq<Node>)
    ensures r == []
  {
    []
  }

  /** `getNamedChildren`: an empty container. */
  function GetNamedChildren(b: BooleanValue): (r: ChildrenContainer)
    ensures |r| == 0
  {
    map[]
  }

  /** `withNewChildren`: the node itself for an empty container; any
      children at all are refused. */
  function WithNewChildren(b: BooleanValue, newChildren: ChildrenContainer): (r: Result<BooleanValue>)
    ensures |newChildren| == 0 <==> r == Ok(b)
    ensures |newChildren| != 0 ==> r == Throws(IllegalArgumentException("Cannot pass non-empty newChildren to Node that doesn't hold children"))
  {
    if |newChildren| != 0 then Throws(IllegalArgumentException("Cannot pass non-empty newChildren to Node that doesn't hold children"))
    else Ok(b)
  }

  /** `isEqualTo`: another BooleanValue holding the same boolean. */
  predicate IsEqualTo(b: BooleanValue, o: BooleanValue)
  {
    b.value == o.value
  }

  /** `deepCopy`: value, location, comments and ignored characters all
      carried over. */
  function DeepCopy(b: BooleanValue): (r: BooleanValue)
    ensures r == b && IsEqualTo(r, b)
  {
    BooleanValue(b.value, b.sourceLocation, b.comments, b.ignoredChars)
  }

  /** One setter call on the Builder, as `transform`'s consumer makes it. */
  datatype BuilderCall =
    | SetSourceLocation(sourceLocation: Option<SourceLocation>)
    | SetValue(value: bool)
    | SetComments(comments: seq<Comment>)
    | SetIgnoredChars(ignoredChars: IgnoredChars)

  /** What one setter call does to the node the Builder would build. */
  function Step(b: BooleanValue, call: BuilderCall): BooleanValue
  {
    match call
    case SetSourceLocation(l) => b.(sourceLocation := l)
    case SetValue(v) => b.(value := v)
    case SetComments(c) => b.(comments := c)
    case SetIgnoredChars(i) => b.(ignoredChars := i)
  }

  /** The calls, in order. */
  function Applied(b: BooleanValue, calls: seq<BuilderCall>): BooleanValue
  {
    if calls == [] then b else Step(Applied(b, calls[..|calls| - 1]), calls[|calls| - 1])
  }

  class Builder {
    var sourceLocation: Option<SourceLocation>
    var value: bool
    var comments: seq<Comment>
    var ignoredChars: IgnoredChars

    /** What `build` would produce now. */
    function Current(): BooleanValue
      reads this
    {
      BooleanValue(value, sourceLocation, comments, ignoredChars)
    }

    /** `newBooleanValue()`: false, no location, no comments. */
    constructor ()
      ensures Current() == BooleanValue(false, None, [], EMPTY_IGNORED_CHARS)
    {
      sourceLocation := None;
      value := false;
      comments := [];
      ignoredChars := EMPTY_IGNORED_CHARS;
    }

    /** `Builder(existing)`: every field of the node. */
    constructor FromExisting(existing: BooleanValue)
      ensures Current() == existing
    {
      sourceLocation := existing.sourceLocation;
      comments := existing.comments;
      value := existing.value;
      ignoredChars := existing.ignoredChars;
    }

    method Apply(call: BuilderCall)
      modifies this
      ensures Current() == Step(old(Current()), call)
    {
      match call
      case SetSourceLocation(l) => sourceLocation := l;
      case SetValue(v) => value := v;
      case SetComments(c) => comments := c;
      case SetIgnoredChars(i) => ignoredChars := i;
    }

    method Build() returns (b: BooleanValue)
      ensures b.value == value && b.sourceLocation == sourceLocation
      ensures b.comments == comments && b.ignoredChars == ignoredChars
    {
      b := BooleanValue(value, sourceLocation, comments, ignoredChars);
    }
  }

  /** `newBooleanValue(value).build()`. */
  method NewBooleanValueBuilt(value: bool) returns (b: BooleanValue)
    ensures b.value == value && b.sourceLocation.None? && b.comments == []
  {
    var builder := new Builder();
    builder.Apply(SetValue(value));
    b := builder.Build();
  }

  /** `transform`: a Builder copying the node, the consumer's setter calls,
      then `build`. */
  method Transform(node: BooleanValue, calls: seq<BuilderCall>) returns (r: BooleanValue)
    ensures r == Applied(node, calls)
  {
    var builder := new Builder.FromExisting(node);
    var i := 0;
    while i < |calls|
      invariant 0 <= i <= |calls|
      invariant builder.Current() == Applied(node, calls[..i])
    {
      assert calls[..i + 1][..i] == calls[..i];
      builder.Apply(calls[i]);
      i := i + 1;
    }
    assert calls[..i] == calls;
    r := builder.Build();
  }

  /** A transform that never sets the value keeps it, and one that sets
      nothing returns an equal node. */
  lemma {:induction false} TransformKeepsValue(node: BooleanValue, calls: seq<BuilderCall>)
    requires forall i :: 0 <= i < |calls| ==> !calls[i].SetValue?
    ensures Applied(node, calls).value == node.value
    ensures calls == [] ==> Applied(node, calls) == node
  {
    if calls != [] {
      TransformKeepsValue(node, calls[..|calls| - 1]);
    }
  }

  /** The last value set is the one the transformed node holds. */
  lemma {:induction false} TransformLastValueWins(node: BooleanValue, calls: seq<BuilderCall>, v: bool)
    ensures Applied(node, calls + [SetValue(v)]).value == v
    ensures IsEqualTo(Applied(node, calls + [SetValue(v)]), NewBooleanValue(v))
  {
    assert (calls + [SetValue(v)])[..|calls|] == calls;
  }
}
