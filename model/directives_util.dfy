/** Looking up schema directives by name, and the `@fetch(from:)` rename
    that lets a field read a differently named property. */
module DirectivesUtil {
  import opened Common
  import opened JavaLang
  import opened RuntimeValues

  /** A schema directive argument: its name and its value. */
  datatype DirectiveArgument = DirectiveArgument(name: string, value: Object)

  /** A schema directive applied to an element. */
  datatype GraphQLDirective = GraphQLDirective(name: string, arguments: seq<DirectiveArgument>)
  {
    /** `getArgument`: the first argument with that name, or null. */
    function GetArgument(argumentName: string): (r: Option<DirectiveArgument>)
      ensures r.Some? ==> r.value in arguments && r.value.name == argumentName
      ensures r.None? ==> forall a :: a in arguments ==> a.name != argumentName
    {
      FirstArgument(arguments, argumentName)
    }
  }

  function FirstArgument(arguments: seq<DirectiveArgument>, argumentName: string): (r: Option<DirectiveArgument>)
    ensures r.Some? ==> r.value in arguments && r.value.name == argumentName
    ensures r.None? ==> forall a :: a in arguments ==> a.name != argumentName
  {
    if arguments == [] then None
    else if arguments[0].name == argumentName then Some(arguments[0])
    else FirstArgument(arguments[1..], argumentName)
  }

  /** The name `Directives.FetchDirective` is declared under. */
  const FETCH_DIRECTIVE: string := "fetch"

  /** The first directive of the list with the given name: the one a
      merge-first keying keeps. */
  function FirstNamed(directives: seq<GraphQLDirective>, name: string): (r: Option<nat>)
    ensures r.Some? ==> r.value < |directives| && directives[r.value].name == name
    ensures r.Some? ==> forall j :: 0 <= j < r.value ==> directives[j].name != name
    ensures r.None? ==> forall j :: 0 <= j < |directives| ==> directives[j].name != name
  {
    if directives == [] then None
    else if directives[0].name == name then Some(0)
    else
      var rest := FirstNamed(directives[1..], name);
      if rest.Some? then Some(rest.value + 1) else None
  }

  /** `directivesByName`: directives keyed by name; for duplicate names
      the first one is kept. */
  function DirectivesByName(directives: seq<GraphQLDirective>): (r: map<string, GraphQLDirective>)
  {
    if directives == [] then map[]
    else DirectivesByName(directives[1..])[directives[0].name := directives[0]]
  }

  /** Every name of the list is a key, only those, and each key maps to the
      first directive carrying it. */
  lemma {:induction false} DirectivesByNameKeepsFirst(directives: seq<GraphQLDirective>, name: string)
    ensures name in DirectivesByName(directives) <==> FirstNamed(directives, name).Some?
    ensures name in DirectivesByName(directives) ==>
      DirectivesByName(directives)[name] == directives[FirstNamed(directives, name).value]
  {
    if directives != [] && directives[0].name != name {
      DirectivesByNameKeepsFirst(directives[1..], name);
    }
  }

  /** `directiveWithArg`: the named argument of the named directive, empty
      when the directive is absent or does not have that argument. */
  function DirectiveWithArg(directives: seq<GraphQLDirective>, directiveName: string, argumentName: string): (r: Option<DirectiveArgument>)
  {
    var byName := DirectivesByName(directives);
    if directiveName in byName then byName[directiveName].GetArgument(argumentName) else None
  }

  /** The argument found belongs to the first directive of that name, and
      nothing is found when no directive has the name or the first one lacks
      the argument. */
  lemma {:induction false} DirectiveWithArgFound(directives: seq<GraphQLDirective>, directiveName: string, argumentName: string)
    ensures var r := DirectiveWithArg(directives, directiveName, argumentName);
      var first := FirstNamed(directives, directiveName);
      && (first.None? ==> r.None?)
      && (first.Some? ==> r == directives[first.value].GetArgument(argumentName))
      && (r.Some? ==> first.Some? && r.value in directives[first.value].arguments && r.value.name == argumentName)
  {
    DirectivesByNameKeepsFirst(directives, directiveName);
  }

  /** `String.valueOf` of a runtime value, where the text is fixed by the
      JDK; any other value's `toString` is a parameter. */
  function StringValueOf(value: Object, toString: Object -> string): string
  {
    match value
    case Null => "null"
    case JString(s) => s
    case JInteger(i) => IntToString(i)
    case JBoolean(b) => if b then "true" else "false"
    case _ => toString(value)
  }

  /** `atFetchFromSupport`: the text of `@fetch(from:)` when the directive
      carries that argument, otherwise the field's own name. */
  function AtFetchFromSupport(fieldName: string, directives: seq<GraphQLDirective>, toString: Object -> string): (r: string)
  {
    var from := DirectiveWithArg(directives, FETCH_DIRECTIVE, "from");
    if from.Some? then StringValueOf(from.value.value, toString) else fieldName
  }

  /** Without a `@fetch` directive the field name is used; with one whose
      `from` is a string, that string is used. */
  lemma {:induction false} AtFetchFromRenames(fieldName: string, directives: seq<GraphQLDirective>, toString: Object -> string)
    ensures FirstNamed(directives, FETCH_DIRECTIVE).None? ==> AtFetchFromSupport(fieldName, directives, toString) == fieldName
    ensures var first := FirstNamed(directives, FETCH_DIRECTIVE);
      first.Some? ==>
        var from := directives[first.value].GetArgument("from");
        && (from.None? ==> AtFetchFromSupport(fieldName, directives, toString) == fieldName)
        && (from.Some? && from.value.value.JString? ==>
              AtFetchFromSupport(fieldName, directives, toString) == from.value.value.stringValue)
  {
    DirectiveWithArgFound(directives, FETCH_DIRECTIVE, "from");
  }
}
