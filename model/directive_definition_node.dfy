/** The `DirectiveDefinition` node of a schema document:
    `directive @name(args) on LOCATIONS`. The node keeps the very list
    objects it was given, hands out copies of them, and takes its
    description by a setter after construction. */
module DirectiveDefinitionNode {
  import opened Common
  import opened LanguageNode
  import opened InputValueDefinitionNode

  /** An element of the definition's `getChildren`. */
  datatype Child = InputValueChild(inputValue: InputValueDefinition) | LocationChild(location: DirectiveLocation)

  class DirectiveDefinition {
    const name: Option<string>
    var description: Option<Description>
    const inputValueDefinitions: SharedList<InputValueDefinition>
    const directiveLocations: SharedList<DirectiveLocation>
    const sourceLocation: Option<SourceLocation>
    const comments: seq<Comment>

    /** The private constructor: no description. */
    constructor Init(name: Option<string>, inputValueDefinitions: SharedList<InputValueDefinition>, directiveLocations: SharedList<DirectiveLocation>,
                     sourceLocation: Option<SourceLocation>, comments: seq<Comment>)
      ensures this.name == name && description.None?
      ensures this.inputValueDefinitions == inputValueDefinitions && this.directiveLocations == directiveLocations
      ensures this.sourceLocation == sourceLocation && this.comments == comments
    {
      this.name := name;
      this.description := None;
      this.inputValueDefinitions := inputValueDefinitions;
      this.directiveLocations := directiveLocations;
      this.sourceLocation := sourceLocation;
      this.comments := comments;
    }

    method SetDescription(d: Option<Description>)
      modifies this
      ensures description == d
    {
      description := d;
    }

    /** `getInputValueDefinitions`: a new list with the same elements. */
    method GetInputValueDefinitions() returns (r: SharedList<InputValueDefinition>)
      ensures fresh(r) && r.items == inputValueDefinitions.items
    {
      r := new SharedList(inputValueDefinitions.items);
    }

    /** `getDirectiveLocations`: a new list with the same elements. */
    method GetDirectiveLocations() returns (r: SharedList<DirectiveLocation>)
      ensures fresh(r) && r.items == directiveLocations.items
    {
      r := new SharedList(directiveLocations.items);
    }

    /** `getChildren`: the input values, then the locations. */
    function GetChildren(): (r: seq<Child>)
      reads this, inputValueDefinitions, directiveLocations
      ensures |r| == |inputValueDefinitions.items| + |directiveLocations.items|
      ensures forall i :: 0 <= i < |inputValueDefinitions.items| ==> r[i] == InputValueChild(inputValueDefinitions.items[i])
      ensures forall i :: 0 <= i < |directiveLocations.items| ==>
        r[|inputValueDefinitions.items| + i] == LocationChild(directiveLocations.items[i])
    {
      var values := inputValueDefinitions.items;
      var locations := directiveLocations.items;
      seq(|values|, i requires 0 <= i < |values| => InputValueChild(values[i]))
        + seq(|locations|, i requires 0 <= i < |locations| => LocationChild(locations[i]))
    }

    /** `isEqualTo` against another DirectiveDefinition or null: the same
        name. */
    predicate IsEqualTo(o: DirectiveDefinition?)
      reads this, o
      ensures IsEqualTo(o) ==> o != null
    {
      this == o || (o != null && name == o.name)
    }

    /** `deepCopy` as written: new lists with the same elements, location
        and comments, through the constructor, which takes no description,
        so the copy has none. */
    method DeepCopy() returns (r: DirectiveDefinition)
      ensures fresh(r) && fresh(r.inputValueDefinitions) && fresh(r.directiveLocations)
      ensures r.name == name && r.inputValueDefinitions.items == inputValueDefinitions.items
      ensures r.directiveLocations.items == directiveLocations.items
      ensures r.sourceLocation == sourceLocation && r.comments == comments
      ensures r.description.None? && r.IsEqualTo(this)
    {
      var values := new SharedList(inputValueDefinitions.items);
      var locations := new SharedList(directiveLocations.items);
      r := new DirectiveDefinition.Init(name, values, locations, sourceLocation, comments);
    }

    /** `deepCopy` as evidently intended, like the other definitions' copies:
        the description is carried over too. */
    method DeepCopyIntended() returns (r: DirectiveDefinition)
      ensures fresh(r) && fresh(r.inputValueDefinitions) && fresh(r.directiveLocations)
      ensures r.name == name && r.inputValueDefinitions.items == inputValueDefinitions.items
      ensures r.directiveLocations.items == directiveLocations.items
      ensures r.sourceLocation == sourceLocation && r.comments == comments
      ensures r.description == description && r.IsEqualTo(this)
    {
      r := DeepCopy();
      r.SetDescription(description);
    }
  }

  /** A definition with a description loses it in `deepCopy`. */
  method DeepCopyLosesDescription(d: Description) returns (original: DirectiveDefinition, copy: DirectiveDefinition)
    ensures original.description == Some(d) && copy.description.None?
    ensures copy.IsEqualTo(original)
  {
    var values := new SharedList([]);
    var locations := new SharedList([]);
    original := new DirectiveDefinition.Init(Some("deprecated"), values, locations, None, []);
    original.SetDescription(Some(d));
    copy := original.DeepCopy();
  }

  /** The corrected copy keeps it. */
  method DeepCopyIntendedKeepsDescription(d: Description) returns (original: DirectiveDefinition, copy: DirectiveDefinition)
    ensures original.description == Some(d) && copy.description == Some(d)
    ensures copy.IsEqualTo(original)
  {
    var values := new SharedList([]);
    var locations := new SharedList([]);
    original := new DirectiveDefinition.Init(Some("deprecated"), values, locations, None, []);
    original.SetDescription(Some(d));
    copy := original.DeepCopyIntended();
  }

  /** `DirectiveDefinition.newDirectiveDefinition()`. */
  class Builder {
    var sourceLocation: Option<SourceLocation>
    var comments: seq<Comment>
    var name: Option<string>
    var description: Option<Description>
    var inputValueDefinitions: SharedList<InputValueDefinition>
    var directiveLocations: SharedList<DirectiveLocation>

    /** A new builder with two new empty lists. */
    constructor ()
      ensures sourceLocation.None? && comments == [] && name.None? && description.None?
      ensures fresh(inputValueDefinitions) && fresh(directiveLocations)
      ensures inputValueDefinitions.items == [] && directiveLocations.items == []
    {
      sourceLocation := None;
      comments := [];
      name := None;
      description := None;
      inputValueDefinitions := new SharedList([]);
      directiveLocations := new SharedList([]);
    }

    method SetSourceLocation(l: Option<SourceLocation>)
      modifies this
      ensures sourceLocation == l && comments == old(comments) && name == old(name) && description == old(description)
      ensures inputValueDefinitions == old(inputValueDefinitions) && directiveLocations == old(directiveLocations)
    {
      sourceLocation := l;
    }

    method SetComments(c: seq<Comment>)
      modifies this
      ensures comments == c && sourceLocation == old(sourceLocation) && name == old(name) && description == old(description)
      ensures inputValueDefinitions == old(inputValueDefinitions) && directiveLocations == old(directiveLocations)
    {
      comments := c;
    }

    method Name(n: Option<string>)
      modifies this
      ensures name == n && description == old(description)
      ensures inputValueDefinitions == old(inputValueDefinitions) && directiveLocations == old(directiveLocations)
      ensures sourceLocation == old(sourceLocation) && comments == old(comments)
    {
      name := n;
    }

    method SetDescription(d: Option<Description>)
      modifies this
      ensures description == d && name == old(name)
      ensures inputValueDefinitions == old(inputValueDefinitions) && directiveLocations == old(directiveLocations)
      ensures sourceLocation == old(sourceLocation) && comments == old(comments)
    {
      description := d;
    }

    /** `inputValueDefinitions(list)`: the builder keeps the caller's list
        object itself. */
    method InputValueDefinitions(list: SharedList<InputValueDefinition>)
      modifies this
      ensures inputValueDefinitions == list && directiveLocations == old(directiveLocations)
      ensures name == old(name) && description == old(description)
      ensures sourceLocation == old(sourceLocation) && comments == old(comments)
    {
      inputValueDefinitions := list;
    }

    /** `inputValueDefinition(x)`: an `add` on whatever list the builder
        holds. */
    method InputValueDefinition(x: InputValueDefinitionNode.InputValueDefinition)
      modifies inputValueDefinitions
      ensures inputValueDefinitions.items == old(inputValueDefinitions.items) + [x]
    {
      inputValueDefinitions.Add(x);
    }

    method DirectiveLocations(list: SharedList<DirectiveLocation>)
      modifies this
      ensures directiveLocations == list && inputValueDefinitions == old(inputValueDefinitions)
      ensures name == old(name) && description == old(description)
      ensures sourceLocation == old(sourceLocation) && comments == old(comments)
    {
      directiveLocations := list;
    }

    method DirectiveLocation(x: LanguageNode.DirectiveLocation)
      modifies directiveLocations
      ensures directiveLocations.items == old(directiveLocations.items) + [x]
    {
      directiveLocations.Add(x);
    }

    /** `build`: the constructor over the builder's own lists, then
        `setDescription`. */
    method Build() returns (d: DirectiveDefinition)
      ensures fresh(d) && d.name == name && d.description == description
      ensures d.inputValueDefinitions == inputValueDefinitions && d.directiveLocations == directiveLocations
      ensures d.sourceLocation == sourceLocation && d.comments == comments
    {
      d := new DirectiveDefinition.Init(name, inputValueDefinitions, directiveLocations, sourceLocation, comments);
      d.SetDescription(description);
    }
  }

  /** The built definition shares the builder's list: an input value added
      through the builder afterwards shows up among its children. */
  method AddAfterBuild(n: string, x: InputValueDefinition) returns (d: DirectiveDefinition)
    ensures d.inputValueDefinitions.items == [x]
    ensures d.GetChildren() == [InputValueChild(x)]
  {
    var builder := new Builder();
    builder.Name(Some(n));
    d := builder.Build();
    builder.InputValueDefinition(x);
  }
}
