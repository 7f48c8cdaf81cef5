# graphql-java core, modelled in Dafny

This project models the core of graphql-java, a Java implementation of GraphQL. It covers these parts:

- **Field collection and execution.** `FieldCollector` groups the fields of a selection set by result key. `ExecutionContextBuilder` indexes a document's operations and fragments and picks the operation to run. `Execution` chooses the root type and the strategy. `ValueFetcher` turns what a data fetcher returns, throws or completes with into a fetched value. `PropertyDataFetcher` and `DirectivesUtil` read properties and the `@fetch` rename.
- **The normalized query tree.** `NormalizedQueryTreeFactory` merges fields of the same result key, definition and arguments. It narrows the object types each one can be selected on.
- **Validation rules.** These are OverlappingFieldsCanBeMerged, NoFragmentCycles, NoUnusedFragments, ProvidedNonNullArguments and FragmentsOnCompositeType, plus the schema check ObjectsImplementInterfaces.
- **Query analysis.** `QueryTraversal` visits fields, inline fragments and fragment spreads depth first, with the reduce operations. `DefaultTraverserContext` is the context it hands out. `DataFetchingFieldSelectionSetImpl` flattens a field's sub-selection into qualified names.
- **Anonymizer.** It renames a schema and its queries with counters, keeping related fields under one name.
- **Schema and literal types.** These are `GraphQLArgument`, `GraphQLInputObjectField`, `GraphQLObjectType`, `GraphQLNonNull` and `GraphQLFieldDefinition`. They come with the built-in Int, String, Boolean and ID scalars, `TypeFromAST` and `AstValueHelper.astFromValue`.
- **Syntax-tree nodes.** Fourteen node classes, each with its children, `isEqualTo`, `deepCopy`, setters and builders.

Where the Java code changes objects in place, the model uses classes with `modifies` clauses. Examples are the caller's `LinkedHashMap` in the field collector, the execution context and the node setters. `SharedList` captures a list that two objects share. Pure code is modelled as datatypes, functions and lemmas. Java's 32-bit `int` arithmetic is written out where hash codes and counters depend on it (`JavaLang.Wrap`). Collaborators whose code is not part of this model are passed in as function-typed parameters. These include the AST comparator, variable coercion, `Coercing.serialize`, the glob matcher, the execution strategies and reflection.

## Model

| member | source | states |
|---|---|---|
| FieldCollector.GetFieldEntryKey | src/main/java/graphql/execution/FieldCollector.java:71-74 | the result key is the alias when there is one, otherwise the field name |
| FieldCollector.AddField | src/main/java/graphql/execution/FieldCollector.java:64-68 | appending to a key's list keeps the insertion-ordered map well formed (its effect per key is StepGroupsByKey) |
| FieldCollector.CollectField | src/main/java/graphql/execution/FieldCollector.java:60-69 | the caller's map becomes the map with the field appended under its key, a new key getting a new list |
| FieldCollector.CollectFragmentSpread | src/main/java/graphql/execution/FieldCollector.java:31-50 | the visited list gains the spread's name unless it was already there; an undefined fragment throws a NullPointerException; no field is added, since the type-condition hook is false |
| FieldCollector.CollectSelection | src/main/java/graphql/execution/FieldCollector.java:16-27 | one pass of the loop dispatches on the selection kind and changes the map and visited list as the specification step does |
| FieldCollector.CollectFields | src/main/java/graphql/execution/FieldCollector.java:14-29 | the caller's map and visited list end as the fold of the selections, in order; the method throws exactly when the fold fails |
| FieldCollector.FailureSticks | src/main/java/graphql/execution/FieldCollector.java:14-29 | after an exception, the remaining selections change nothing |
| FieldCollector.CollectGroupsByKey | src/main/java/graphql/execution/FieldCollector.java:60-69 | every key's list is its old list followed by the selected fields with that key, in selection order; a key is present exactly when it was before or some field has it |
| FieldCollector.StepGroupsByKey | src/main/java/graphql/execution/FieldCollector.java:60-69 | a field step appends to its own key's list and to no other |
| FieldCollector.CollectKeepsKeyOrder | src/main/java/graphql/execution/FieldCollector.java:14-29 | existing keys keep their order, with new keys appended after them; the old visited list is a prefix of the new one |
| FieldCollector.CollectVisitsSpreads | src/main/java/graphql/execution/FieldCollector.java:33-42 | the visited names become the old ones plus every fragment spread of the selections, even though none of them contributes fields |
| FieldCollector.SpreadNamesSnoc | src/main/java/graphql/execution/FieldCollector.java:33-42 | the spread names of a selection list are those before its last selection plus the last one's name when it is a spread |
| FieldCollector.StepVisitsSpread | src/main/java/graphql/execution/FieldCollector.java:33-42 | one step adds at most the spread's own name to the visited names |
| FieldCollector.CollectFailsOnUnknownFragment | src/main/java/graphql/execution/FieldCollector.java:37-38 | collection fails exactly when some spread names a fragment that is neither defined nor already visited |
| FieldCollector.FragmentsContributeNothing | src/main/java/graphql/execution/FieldCollector.java:52-57 | inline fragments and spreads never add fields, because doesFragmentTypeApply is false |
| OverlappingFieldsCanBeMerged.ResponseName | src/main/java/graphql/validation/rules/OverlappingFieldsCanBeMerged.java:159 | the response name is the alias when there is one, otherwise the field name |
| OverlappingFieldsCanBeMerged.FieldTypeIn | src/main/java/graphql/validation/rules/OverlappingFieldsCanBeMerged.java:163-168 | the recorded type is present exactly when the parent is a fields container that defines the field, and it is then that definition's type |
| OverlappingFieldsCanBeMerged.InlineConditionType | src/main/java/graphql/validation/rules/OverlappingFieldsCanBeMerged.java:172-174 | a missing type condition makes the type conversion throw a NullPointerException |
| OverlappingFieldsCanBeMerged.CollectSelections | src/main/java/graphql/validation/rules/OverlappingFieldsCanBeMerged.java:154-191 | collection keeps the map well formed and only adds visited names; once an exception is recorded, nothing more changes |
| OverlappingFieldsCanBeMerged.CollectSelectionsStep | src/main/java/graphql/validation/rules/OverlappingFieldsCanBeMerged.java:156 | collecting from selection i on is collecting selection i, then the rest |
| OverlappingFieldsCanBeMerged.CollectSelection | src/main/java/graphql/validation/rules/OverlappingFieldsCanBeMerged.java:157-188 | one selection keeps the map well formed and only adds visited names |
| OverlappingFieldsCanBeMerged.CollectFields | src/main/java/graphql/validation/rules/OverlappingFieldsCanBeMerged.java:154-191 | the caller's map and visited set end as the specification fold over the selections; the method throws exactly when the fold records an exception, and with the same exception |
| OverlappingFieldsCanBeMerged.CollectSelectionInto | src/main/java/graphql/validation/rules/OverlappingFieldsCanBeMerged.java:157-188 | one pass of the loop changes the map and visited set as the specification step does |
| OverlappingFieldsCanBeMerged.SameType | src/main/java/graphql/validation/rules/OverlappingFieldsCanBeMerged.java:103-108 | two nulls are the same, exactly one null is not, and otherwise type equality decides |
| OverlappingFieldsCanBeMerged.SameValue | src/main/java/graphql/validation/rules/OverlappingFieldsCanBeMerged.java:110-115 | two nulls are the same, exactly one null is not, and otherwise the literals' equals decides |
| OverlappingFieldsCanBeMerged.FindArgumentByName | src/main/java/graphql/validation/rules/OverlappingFieldsCanBeMerged.java:127-132 | a found argument is in the list and has the name; null means no argument has it |
| OverlappingFieldsCanBeMerged.FindDirectiveByName | src/main/java/graphql/validation/rules/OverlappingFieldsCanBeMerged.java:144-151 | a found directive is in the list and has the name; null means no directive has it |
| OverlappingFieldsCanBeMerged.AllArgumentsMatched | src/main/java/graphql/validation/rules/OverlappingFieldsCanBeMerged.java:119-123 | the loop succeeds exactly when every argument of the first list has a same-named match in the second with the same value |
| OverlappingFieldsCanBeMerged.SameArguments | src/main/java/graphql/validation/rules/OverlappingFieldsCanBeMerged.java:117-125 | the argument lists are the same exactly when they have equal sizes and every argument of the first list is matched by name, with the same value, in the second |
| OverlappingFieldsCanBeMerged.SameDirectives | src/main/java/graphql/validation/rules/OverlappingFieldsCanBeMerged.java:134-142 | the directive lists are the same exactly when they have equal sizes and every directive of the first list is matched by name, with the same arguments, in the second |
| OverlappingFieldsCanBeMerged.InRowsFrom | src/main/java/graphql/validation/rules/OverlappingFieldsCanBeMerged.java:43-44 | the pairs the loops visit from row i on are exactly those with i <= p.0 < n and p.0 + p.0 <= p.1 < n |
| OverlappingFieldsCanBeMerged.ComparedPairsExactly | src/main/java/graphql/validation/rules/OverlappingFieldsCanBeMerged.java:43-44 | the pair (i, j) is compared exactly when i < n and i + i <= j < n, so (0, 0) is a self-comparison and pairs with i < j < 2i are never compared |
| OverlappingFieldsCanBeMerged.FourFieldsExample | src/main/java/graphql/validation/rules/OverlappingFieldsCanBeMerged.java:43-44 | with four fields, (0, 0) is compared, (1, 2) is compared and (2, 3) is not |
| OverlappingFieldsCanBeMerged.FindConflict | src/main/java/graphql/validation/rules/OverlappingFieldsCanBeMerged.java:55-100 | a reported conflict carries the response name and the two fields |
| OverlappingFieldsCanBeMerged.FindConflictOf | src/main/java/graphql/validation/rules/OverlappingFieldsCanBeMerged.java:55-100 | the method returns exactly the specification's conflict, or its exception |
| OverlappingFieldsCanBeMerged.FindSubselectionConflicts | src/main/java/graphql/validation/rules/OverlappingFieldsCanBeMerged.java:84-97 | both sub-selections are collected into one fresh map and compared; the result is the specification's |
| OverlappingFieldsCanBeMerged.PairsFromConcat | src/main/java/graphql/validation/rules/OverlappingFieldsCanBeMerged.java:41-51 | comparing two runs of pairs is comparing their concatenation, and an exception in the first run ends the comparison |
| OverlappingFieldsCanBeMerged.RowConflicts | src/main/java/graphql/validation/rules/OverlappingFieldsCanBeMerged.java:44-49 | the inner loop, starting at j = i + i, gives the specification's conflicts for that row, in order |
| OverlappingFieldsCanBeMerged.RowInRange | src/main/java/graphql/validation/rules/OverlappingFieldsCanBeMerged.java:44 | every pair of a row lies within the list |
| OverlappingFieldsCanBeMerged.KeyConflicts | src/main/java/graphql/validation/rules/OverlappingFieldsCanBeMerged.java:43-50 | the outer loop for one response name compares exactly the pairs of ComparedPairsExactly, in order |
| OverlappingFieldsCanBeMerged.FindConflicts | src/main/java/graphql/validation/rules/OverlappingFieldsCanBeMerged.java:39-53 | the method's conflicts are the specification's, taken over the response names in order |
| OverlappingFieldsCanBeMerged.CheckSelectionSet | src/main/java/graphql/validation/rules/OverlappingFieldsCanBeMerged.java:28-37 | the collector gains exactly one FieldsConflict error per conflict found, in order, after collecting from the context's output type; on an exception the collector is unchanged |
| OverlappingFieldsCanBeMerged.ConflictErrors | src/main/java/graphql/validation/rules/OverlappingFieldsCanBeMerged.java:33-35 | each conflict gives one FieldsConflict error with its reason and fields |
| OverlappingFieldsCanBeMerged.CollectSelectionsGrows | src/main/java/graphql/validation/rules/OverlappingFieldsCanBeMerged.java:154-191 | collection only grows the state: response names keep their order, each list only gains entries at its end, and visited names only gain names at the end |
| OverlappingFieldsCanBeMerged.CollectSelectionGrows | src/main/java/graphql/validation/rules/OverlappingFieldsCanBeMerged.java:157-188 | the same, for one selection |
| OverlappingFieldsCanBeMerged.FieldSelectionGrows | src/main/java/graphql/validation/rules/OverlappingFieldsCanBeMerged.java:157-168 | a field is added after the fields already under its name, and the visited names do not change |
| OverlappingFieldsCanBeMerged.SkippedSpreadChangesNothing | src/main/java/graphql/validation/rules/OverlappingFieldsCanBeMerged.java:177-182 | a spread of an unknown fragment, or of one already visited, leaves the collection unchanged |
| OverlappingFieldsCanBeMerged.FieldsGroupByResponseName | src/main/java/graphql/validation/rules/OverlappingFieldsCanBeMerged.java:157-168 | plain fields are grouped by response name in encounter order, each with the type its parent declares for it |
| OverlappingFieldsCanBeMerged.FieldStepUnfolds | src/main/java/graphql/validation/rules/OverlappingFieldsCanBeMerged.java:156-168 | collecting a leading field is collecting it and then the rest |
| OverlappingFieldsCanBeMerged.FieldEntryAppended | src/main/java/graphql/validation/rules/OverlappingFieldsCanBeMerged.java:160-168 | one plain field is added under its own response name only |
| OverlappingFieldsCanBeMerged.FindConflictReportsFirstDifference | src/main/java/graphql/validation/rules/OverlappingFieldsCanBeMerged.java:63-99 | only the first difference is reported: name, then type, then arguments, then directives; when all four agree, no conflict is reported, because sub-selection conflicts are discarded |
| OverlappingFieldsCanBeMerged.OneNullTypeThrows | src/main/java/graphql/validation/rules/OverlappingFieldsCanBeMerged.java:70-71 | exactly one null type throws a NullPointerException, because the message reads the null type's name |
| OverlappingFieldsCanBeMerged.SameArgumentsReflexive | src/main/java/graphql/validation/rules/OverlappingFieldsCanBeMerged.java:117-125 | a list with distinct argument names is the same as itself when value equality is reflexive |
| OverlappingFieldsCanBeMerged.FindDirectiveOfDistinct | src/main/java/graphql/validation/rules/OverlappingFieldsCanBeMerged.java:144-151 | with distinct names, looking up a directive's own name finds that directive |
| OverlappingFieldsCanBeMerged.SelfComparisonReportsNothing | src/main/java/graphql/validation/rules/OverlappingFieldsCanBeMerged.java:43-45 | the self-comparison at (0, 0) reports nothing when argument and directive names are distinct and value equality is reflexive |
| OverlappingFieldsCanBeMerged.DuplicateArgumentConflictsWithItself | src/main/java/graphql/validation/rules/OverlappingFieldsCanBeMerged.java:117-125 | a field whose two arguments share a name and differ in value conflicts with itself, because the second argument is matched against the first |
| NormalizedQueryTreeFactory.AddAll | src/main/java/graphql/normalized/NormalizedQueryTreeFactory.java:320 | adding to an insertion-ordered set keeps the old elements first, gives exactly the union, and adds no duplicates |
| NormalizedQueryTreeFactory.Dedup | src/main/java/graphql/normalized/NormalizedQueryTreeFactory.java:220 | a LinkedHashSet of a list holds exactly the list's elements, each once |
| NormalizedQueryTreeFactory.RetainAll | src/main/java/graphql/normalized/NormalizedQueryTreeFactory.java:433-434 | retainAll keeps exactly the current elements that are also in the condition, in their current order |
| NormalizedQueryTreeFactory.CastToComposite | src/main/java/graphql/normalized/NormalizedQueryTreeFactory.java:270 | the cast to a composite type succeeds with the schema's type when it is composite, gives null for an unknown name, and otherwise throws ClassCastException |
| NormalizedQueryTreeFactory.ResolvePossibleObjects | src/main/java/graphql/normalized/NormalizedQueryTreeFactory.java:438-450 | an object type, interface or union resolves to its possible objects; only a null condition throws |
| NormalizedQueryTreeFactory.NarrowDownPossibleObjects | src/main/java/graphql/normalized/NormalizedQueryTreeFactory.java:424-436 | an empty current set becomes the condition's possible objects; otherwise the result is current ∩ condition, in current order and without duplicates |
| NormalizedQueryTreeFactory.GetFieldDefinition | src/main/java/graphql/normalized/NormalizedQueryTreeFactory.java:407-421 | the three introspection names give their own definitions; any other name is looked up on the object type and throws when the type lacks it |
| NormalizedQueryTreeFactory.FindMatchingNF | src/main/java/graphql/normalized/NormalizedQueryTreeFactory.java:347-365 | a found normalized field is a candidate with the same definition name, the same type and literally equal AST arguments; null means no candidate matches |
| NormalizedQueryTreeFactory.FindMatchingNFIsFirst | src/main/java/graphql/normalized/NormalizedQueryTreeFactory.java:348-363 | the match found is the first matching candidate in order |
| NormalizedQueryTreeFactory.CollectedField | src/main/java/graphql/normalized/NormalizedQueryTreeFactory.java:294-345 | collecting a field keeps the arena well formed; nodes only grow, and new nodes sit at the given level under the given parent |
| NormalizedQueryTreeFactory.Joined | src/main/java/graphql/normalized/NormalizedQueryTreeFactory.java:319-322 | joining an existing normalized field creates no node |
| NormalizedQueryTreeFactory.Appended | src/main/java/graphql/normalized/NormalizedQueryTreeFactory.java:332-344 | a new normalized field is appended after the existing ones |
| NormalizedQueryTreeFactory.CollectedSelections | src/main/java/graphql/normalized/NormalizedQueryTreeFactory.java:244-252 | the selections in order keep the arena well formed and create nodes only at the given level under the given parent |
| NormalizedQueryTreeFactory.CollectedSelection | src/main/java/graphql/normalized/NormalizedQueryTreeFactory.java:245-291 | the same, for one field, inline fragment or spread |
| NormalizedQueryTreeFactory.CollectedFromFields | src/main/java/graphql/normalized/NormalizedQueryTreeFactory.java:208-219 | each merged AST field with a selection set is collected in turn, under the same guarantees |
| NormalizedQueryTreeFactory.CollectedFields | src/main/java/graphql/normalized/NormalizedQueryTreeFactory.java:194-221 | a field's sub-fields are created one level down, under that field |
| NormalizedQueryTreeFactory.CollectedFromOperation | src/main/java/graphql/normalized/NormalizedQueryTreeFactory.java:223-233 | the operation's top-level fields are created at level 1 with no parent |
| NormalizedQueryTreeFactory.Roots | src/main/java/graphql/normalized/NormalizedQueryTreeFactory.java:227-232 | `subFields.values()` of the hash-backed multimap names nodes of the arena, and holds the nodes put under every key, each as often as it was put, whatever the key order |
| NormalizedQueryTreeFactory.Children | src/main/java/graphql/normalized/NormalizedQueryTreeFactory.java:204-220 | the children are distinct nodes of the arena, and a node is a child exactly when it was put under some key |
| HashMapOrder.HashOrder | src/main/java/graphql/normalized/NormalizedQueryTreeFactory.java:204 | a HashMap iterates the keys it was given, each once, with bucket indexes never decreasing |
| HashMapOrder.HashOrderKeepsBucketOrder | src/main/java/graphql/normalized/NormalizedQueryTreeFactory.java:204 | the keys of one bucket come in the order they were put |
| HashMapOrder.InsertByBucket | src/main/java/graphql/normalized/NormalizedQueryTreeFactory.java:204 | a key added to the map joins the keys already there: the result holds them and it, each as often |
| HashMapOrder.InsertKeepsSorted | src/main/java/graphql/normalized/NormalizedQueryTreeFactory.java:204 | adding a key keeps the keys in bucket order |
| HashMapOrder.HashOrderKeepsValues | src/main/java/graphql/normalized/NormalizedQueryTreeFactory.java:220 | taking the keys in hash order yields the same values as taking them in put order, each as often |
| HashMapOrder.IteratedValues | src/main/java/graphql/normalized/NormalizedQueryTreeFactory.java:232 | `values()` of a multimap over a HashMap holds the same values as the lists in put order, each as often |
| NormalizedQueryTreeFactory.MergedFieldFor | src/main/java/graphql/normalized/NormalizedQueryTreeFactory.java:155 | a normalized field's merged field is exactly the AST fields recorded for it |
| NormalizedQueryTreeFactory.SetParents | src/main/java/graphql/normalized/NormalizedQueryTreeFactory.java:137-139 | every listed child gets the root as its parent; nothing else changes |
| NormalizedQueryTreeFactory.FixedUpParents | src/main/java/graphql/normalized/NormalizedQueryTreeFactory.java:136-140 | fixing the parent references keeps the arena well formed |
| NormalizedQueryTreeFactory.CoordinatesOf | src/main/java/graphql/normalized/NormalizedQueryTreeFactory.java:160-163 | one (object type, field name) coordinate per object type |
| NormalizedQueryTreeFactory.AstEntries | src/main/java/graphql/normalized/NormalizedQueryTreeFactory.java:175-180 | one entry per AST field of the merged field |
| NormalizedQueryTreeFactory.Registered | src/main/java/graphql/normalized/NormalizedQueryTreeFactory.java:157-167 | registering a built child keeps the arena well formed and its size unchanged |
| NormalizedQueryTreeFactory.BuiltField | src/main/java/graphql/normalized/NormalizedQueryTreeFactory.java:143-170 | building a field appends its rebuilt copy as the arena's last node |
| NormalizedQueryTreeFactory.BuiltChildren | src/main/java/graphql/normalized/NormalizedQueryTreeFactory.java:152-168 | the loop yields one rebuilt child per collected child, in order |
| NormalizedQueryTreeFactory.NormalizedQuery | src/main/java/graphql/normalized/NormalizedQueryTreeFactory.java:94-134 | the tree's top-level fields are nodes of a well-formed arena |
| NormalizedQueryTreeFactory.BuildChildrenFailureSticks | src/main/java/graphql/normalized/NormalizedQueryTreeFactory.java:153-168 | once building a child has thrown, the rest of the loop is skipped |
| NormalizedQueryTreeFactory.BuiltChildrenStep | src/main/java/graphql/normalized/NormalizedQueryTreeFactory.java:153-168 | a successful step registers the rebuilt child and appends it to realChildren |
| NormalizedQueryTreeFactory.BuiltChildrenStepFails | src/main/java/graphql/normalized/NormalizedQueryTreeFactory.java:156 | a child that fails to build ends the loop with its exception |
| NormalizedQueryTreeFactory.BuiltFieldChildFails | src/main/java/graphql/normalized/NormalizedQueryTreeFactory.java:151-169 | a field whose child fails to build fails with that exception |
| NormalizedQueryTreeFactory.BuiltFieldFromChildren | src/main/java/graphql/normalized/NormalizedQueryTreeFactory.java:151-169 | a field is rebuilt with exactly the rebuilt children as its children |
| NormalizedQueryTreeFactory.TreeBuilders.UpdateByAstFieldMap | src/main/java/graphql/normalized/NormalizedQueryTreeFactory.java:172-181 | every AST field of the merged field is mapped to the normalized field, in order; the other two multimaps are unchanged |
| NormalizedQueryTreeFactory.NormalizedQueryTreeFactory.CollectField | src/main/java/graphql/normalized/NormalizedQueryTreeFactory.java:294-345 | the method's result and its new state are the specification's CollectedField |
| NormalizedQueryTreeFactory.NormalizedQueryTreeFactory.CollectFromSelectionSet | src/main/java/graphql/normalized/NormalizedQueryTreeFactory.java:236-253 | the method's result and its new state are the specification's CollectedSelections |
| NormalizedQueryTreeFactory.NormalizedQueryTreeFactory.CollectSelection | src/main/java/graphql/normalized/NormalizedQueryTreeFactory.java:245-252 | one selection's result and new state are the specification's CollectedSelection |
| NormalizedQueryTreeFactory.NormalizedQueryTreeFactory.CollectFromFields | src/main/java/graphql/normalized/NormalizedQueryTreeFactory.java:208-219 | the loop's result and its new state are the specification's CollectedFromFields |
| NormalizedQueryTreeFactory.NormalizedQueryTreeFactory.CollectInlineFragment | src/main/java/graphql/normalized/NormalizedQueryTreeFactory.java:275-292 | the method's result and its new state are the specification's step for an inline fragment |
| NormalizedQueryTreeFactory.NormalizedQueryTreeFactory.CollectFragmentSpread | src/main/java/graphql/normalized/NormalizedQueryTreeFactory.java:255-273 | the method's result and its new state are the specification's step for a spread |
| NormalizedQueryTreeFactory.NormalizedQueryTreeFactory.CollectFields | src/main/java/graphql/normalized/NormalizedQueryTreeFactory.java:194-221 | the method returns the specification's children and AST-field map, and leaves the specification's arena |
| NormalizedQueryTreeFactory.NormalizedQueryTreeFactory.CollectFromOperation | src/main/java/graphql/normalized/NormalizedQueryTreeFactory.java:223-233 | the method returns the specification's top-level fields and AST-field map |
| NormalizedQueryTreeFactory.NormalizedQueryTreeFactory.FixUpParentReference | src/main/java/graphql/normalized/NormalizedQueryTreeFactory.java:136-140 | the arena becomes the specification's fixed-up arena |
| NormalizedQueryTreeFactory.NormalizedQueryTreeFactory.Register | src/main/java/graphql/normalized/NormalizedQueryTreeFactory.java:157-167 | the builders become the specification's registration of the child |
| NormalizedQueryTreeFactory.NormalizedQueryTreeFactory.BuildFieldWithChildren | src/main/java/graphql/normalized/NormalizedQueryTreeFactory.java:143-170 | the method's result and its new state are the specification's BuiltField |
| NormalizedQueryTreeFactory.NormalizedQueryTreeFactory.BuildChildren | src/main/java/graphql/normalized/NormalizedQueryTreeFactory.java:152-168 | the loop's result and its new state are the specification's BuiltChildren |
| NormalizedQueryTreeFactory.NormalizedQueryTreeFactory.BuildChild | src/main/java/graphql/normalized/NormalizedQueryTreeFactory.java:156-167 | one child is built, then registered |
| NormalizedQueryTreeFactory.CreateNormalizedQuery | src/main/java/graphql/normalized/NormalizedQueryTreeFactory.java:94-134 | the method returns the specification's normalized query tree |
| NormalizedQueryTreeFactory.FieldKeepsNoMergeableDuplicates | src/main/java/graphql/normalized/NormalizedQueryTreeFactory.java:314-323 | after collecting a field, no result key holds two normalized fields that would merge |
| NormalizedQueryTreeFactory.SelectionsKeepNoMergeableDuplicates | src/main/java/graphql/normalized/NormalizedQueryTreeFactory.java:244-252 | the same, for a list of selections |
| NormalizedQueryTreeFactory.SelectionKeepsNoMergeableDuplicates | src/main/java/graphql/normalized/NormalizedQueryTreeFactory.java:245-291 | the same, for one selection |
| NormalizedQueryTreeFactory.FromFieldsKeepNoMergeableDuplicates | src/main/java/graphql/normalized/NormalizedQueryTreeFactory.java:208-219 | the same, for the merged fields of one normalized field |
| NormalizedQueryTreeFactory.CollectedFieldsHaveNoMergeableDuplicates | src/main/java/graphql/normalized/NormalizedQueryTreeFactory.java:194-221 | collected sub-fields never hold two mergeable normalized fields under one key |
| NormalizedQueryTreeFactory.CollectedFromOperationHasNoMergeableDuplicates | src/main/java/graphql/normalized/NormalizedQueryTreeFactory.java:223-233 | the same, for the operation's top-level fields |
| NormalizedQueryTreeFactory.NonCompositeHasNoChildren | src/main/java/graphql/normalized/NormalizedQueryTreeFactory.java:198-202 | a field whose unwrapped type is not composite yields no children and leaves the arena unchanged |
| NormalizedQueryTreeFactory.ExcludedSelectionAddsNothing | src/main/java/graphql/normalized/NormalizedQueryTreeFactory.java:262-264 | a field, inline fragment or spread whose own directives exclude it contributes nothing |
| NormalizedQueryTreeFactory.ExcludedFragmentAddsNothing | src/main/java/graphql/normalized/NormalizedQueryTreeFactory.java:267-269 | a spread whose fragment definition's directives exclude it contributes nothing |
| NormalizedQueryTreeFactory.NoPossibleObjectAddsNothing | src/main/java/graphql/normalized/NormalizedQueryTreeFactory.java:307-309 | a field reached with no possible object types is not recorded |
| NormalizedQueryTreeFactory.CollectedFieldJoinsOrCreates | src/main/java/graphql/normalized/NormalizedQueryTreeFactory.java:310-344 | a field joins the first matching normalized field under its result key, which gains its object types, and creates no node; otherwise a new normalized field is appended and recorded under the key |
| NormalizedQueryTreeFactory.NarrowToObjectType | src/main/java/graphql/normalized/NormalizedQueryTreeFactory.java:424-440 | narrowing to an object type gives that type alone, when the current set is empty or contains it, and otherwise nothing |
| NormalizedQueryTreeFactory.RetainSingle | src/main/java/graphql/normalized/NormalizedQueryTreeFactory.java:433-434 | retaining a single name keeps it when it is present |
| NormalizedQueryTreeFactory.RegisteredMeaning | src/main/java/graphql/normalized/NormalizedQueryTreeFactory.java:157-167 | registering sets the children's parent, records the merged field, one coordinate per object type and one AST-field entry per field, and changes nothing else |
| DataFetchingFieldSelectionSet.AddName | src/main/java/graphql/schema/DataFetchingFieldSelectionSetImpl.java:275 | adding to the flattened LinkedHashSet adds no duplicate |
| DataFetchingFieldSelectionSet.Traverse | src/main/java/graphql/schema/DataFetchingFieldSelectionSetImpl.java:251-281 | the traversal keeps the four maps well formed |
| DataFetchingFieldSelectionSet.TraverseEntries | src/main/java/graphql/schema/DataFetchingFieldSelectionSetImpl.java:263-280 | the loop over collected entries keeps the maps well formed |
| DataFetchingFieldSelectionSet.RecordEntry | src/main/java/graphql/schema/DataFetchingFieldSelectionSetImpl.java:264-279 | one entry keeps the maps well formed |
| DataFetchingFieldSelectionSet.RecordFirstField | src/main/java/graphql/schema/DataFetchingFieldSelectionSetImpl.java:268-279 | recording the first field of a non-empty list keeps the maps well formed |
| DataFetchingFieldSelectionSet.MatchingNames | src/main/java/graphql/schema/DataFetchingFieldSelectionSetImpl.java:163-168 | the names kept are exactly the flattened names the glob matches |
| DataFetchingFieldSelectionSet.DataFetchingFieldSelectionSetImpl.ComputeValuesLazily | src/main/java/graphql/schema/DataFetchingFieldSelectionSetImpl.java:233-246 | the first call sets the maps to the specification's traversal from the parent fields; later calls change nothing |
| DataFetchingFieldSelectionSet.DataFetchingFieldSelectionSetImpl.TraverseFields | src/main/java/graphql/schema/DataFetchingFieldSelectionSetImpl.java:251-281 | the maps become the specification's traversal of the fields under the prefix |
| DataFetchingFieldSelectionSet.DataFetchingFieldSelectionSetImpl.RecordCollectedEntry | src/main/java/graphql/schema/DataFetchingFieldSelectionSetImpl.java:264-279 | one collected key is recorded, then recursed into, as in the specification |
| DataFetchingFieldSelectionSet.DataFetchingFieldSelectionSetImpl.RecordFirstFieldOf | src/main/java/graphql/schema/DataFetchingFieldSelectionSetImpl.java:268-279 | the arguments, definition and flattened name of the first field are recorded and its sub-selection traversed, leaving the state the specification gives or its exception |
| DataFetchingFieldSelectionSet.DataFetchingFieldSelectionSetImpl.Get | src/main/java/graphql/schema/DataFetchingFieldSelectionSetImpl.java:106-110 | get computes the maps if needed and returns the fields map |
| DataFetchingFieldSelectionSet.DataFetchingFieldSelectionSetImpl.GetField | src/main/java/graphql/schema/DataFetchingFieldSelectionSetImpl.java:141-152 | getField computes the maps if needed and returns the selected field for the qualified name |
| DataFetchingFieldSelectionSet.DataFetchingFieldSelectionSetImpl.Contains | src/main/java/graphql/schema/DataFetchingFieldSelectionSetImpl.java:125-138 | a null or empty pattern gives false without computing; otherwise the fields are computed once (kept when already computed), an exception from computing them is thrown, and else the result is true exactly when some flattened name matches the glob |
| DataFetchingFieldSelectionSet.DataFetchingFieldSelectionSetImpl.GetFields | src/main/java/graphql/schema/DataFetchingFieldSelectionSetImpl.java:175-181 | getFields gives one selected field per flattened name, in insertion (pre-)order |
| DataFetchingFieldSelectionSet.DataFetchingFieldSelectionSetImpl.GetFieldsMatching | src/main/java/graphql/schema/DataFetchingFieldSelectionSetImpl.java:155-172 | a null or empty pattern gives an empty list without computing; otherwise the fields are computed once (kept when already computed), an exception from computing them is thrown, and else one selected field per matching flattened name, in order |
| DataFetchingFieldSelectionSet.NewCollector | src/main/java/graphql/schema/DataFetchingFieldSelectionSetImpl.java:68-76 | a fields-container type gives a new lazy, not yet computed selection set over the fields; any other type gives NOOP |
| DataFetchingFieldSelectionSet.MkFieldNameJoins | src/main/java/graphql/schema/DataFetchingFieldSelectionSetImpl.java:283-285 | an empty prefix gives the name itself; otherwise prefix + "/" + name |
| DataFetchingFieldSelectionSet.TraverseKeepsAligned | src/main/java/graphql/schema/DataFetchingFieldSelectionSetImpl.java:263-280 | every recorded key is stored under the same qualified name in the fields, arguments and definitions maps and in the flattened set |
| DataFetchingFieldSelectionSet.TraverseEntriesKeepAligned | src/main/java/graphql/schema/DataFetchingFieldSelectionSetImpl.java:263-280 | the same, for the loop over entries |
| DataFetchingFieldSelectionSet.RecordEntryKeepsAligned | src/main/java/graphql/schema/DataFetchingFieldSelectionSetImpl.java:264-279 | the same, for one entry |
| DataFetchingFieldSelectionSet.RecordFirstFieldKeepsAligned | src/main/java/graphql/schema/DataFetchingFieldSelectionSetImpl.java:268-279 | after the field list is stored, the rest of the entry keeps every flattened name keyed in all the maps |
| DataFetchingFieldSelectionSet.TraverseNamesUnderPrefix | src/main/java/graphql/schema/DataFetchingFieldSelectionSetImpl.java:277-279 | traversal keeps every recorded name, and every name it adds under a non-empty prefix starts with prefix + "/" |
| DataFetchingFieldSelectionSet.TraverseEntriesNamesUnderPrefix | src/main/java/graphql/schema/DataFetchingFieldSelectionSetImpl.java:263-280 | the same, for the loop over entries |
| DataFetchingFieldSelectionSet.MkFieldNameUnderPrefix | src/main/java/graphql/schema/DataFetchingFieldSelectionSetImpl.java:283-285 | a qualified name under a non-empty prefix starts with prefix + "/" |
| DataFetchingFieldSelectionSet.RecordEntryNamesUnderPrefix | src/main/java/graphql/schema/DataFetchingFieldSelectionSetImpl.java:264-279 | the same, for one entry and its sub-selection |
| DataFetchingFieldSelectionSet.RecordFirstFieldNamesUnderPrefix | src/main/java/graphql/schema/DataFetchingFieldSelectionSetImpl.java:268-279 | every name the first field adds lies under the entry's own name followed by "/" |
| DataFetchingFieldSelectionSet.SelectedFieldOfRecordedName | src/main/java/graphql/schema/DataFetchingFieldSelectionSetImpl.java:141-152 | an unknown qualified name gives null; a recorded one gives a selected field with that name and its recorded fields, definition and arguments |
| DataFetchingFieldSelectionSet.NothingCollectedNothingRecorded | src/main/java/graphql/schema/DataFetchingFieldSelectionSetImpl.java:251-263 | a selection that collects no fields records nothing |
| NoFragmentCycles.FragmentSpreadMap | src/main/java/graphql/validation/rules/NoFragmentCycles.java:34-42 | the map built from the document's definitions is a well-formed linked map: each fragment definition's name is bound to its spreads, a later definition of a name replacing the earlier one |
| NoFragmentCycles.RemainingDrops | src/main/java/graphql/validation/rules/NoFragmentCycles.java:104-110 | pushing a spread that is not yet on the path strictly shrinks the set of recorded spreads left off the path, so the search ends |
| NoFragmentCycles.SpreadsAreRecorded | src/main/java/graphql/validation/rules/NoFragmentCycles.java:73 | every spread the search iterates over is among the spreads recorded in the map |
| NoFragmentCycles.NoFragmentCycles.constructor | src/main/java/graphql/validation/rules/NoFragmentCycles.java:29-42 | the rule starts with the spread map of the document's definitions and an empty checked set |
| NoFragmentCycles.NoFragmentCycles.CheckFragmentDefinition | src/main/java/graphql/validation/rules/NoFragmentCycles.java:66-70 | checking a definition leaves the checked set and the errors as the search from that definition with an empty path defines them |
| NoFragmentCycles.NoFragmentCycles.DetectCycleRecursive | src/main/java/graphql/validation/rules/NoFragmentCycles.java:72-114 | the loop over the fragment's spreads reports a spread back to the start with the current path, skips a spread already on the path, follows any other one with the path pushed and popped; it returns the path as it found it, and the new state is the search function's |
| NoFragmentCycles.DetectReportsOnlyCycles | src/main/java/graphql/validation/rules/NoFragmentCycles.java:99-103 | from a path of spreads each written in the fragment before, the search only adds checked names and appends errors, and every error it appends is a FragmentCycle error whose path is a real chain of spreads ending in a spread back to the start |
| NoFragmentCycles.DetectEachReportsOnlyCycles | src/main/java/graphql/validation/rules/NoFragmentCycles.java:97-112 | the same for the loop over one fragment's spreads |
| NoFragmentCycles.ChainExtends | src/main/java/graphql/validation/rules/NoFragmentCycles.java:109-110 | a spread written in the fragment a chain ends at extends the chain |
| NoFragmentCycles.DetectMarksChecked | src/main/java/graphql/validation/rules/NoFragmentCycles.java:74-76 | after the search a fragment with an entry is checked, and searching a checked fragment again changes nothing |
| NoFragmentCycles.SelfSpreadIsReported | src/main/java/graphql/validation/rules/NoFragmentCycles.java:99-103 | a fragment whose only spread is itself yields exactly one cycle error with an empty path and becomes checked |
| NoUnusedFragments.RemainingDrops | src/main/java/graphql/validation/rules/NoUnusedFragments.java:65-71 | collecting a declared name that was not collected yet strictly shrinks the count of declared names left to collect, so the walk ends |
| NoUnusedFragments.RemainingShrinks | src/main/java/graphql/validation/rules/NoUnusedFragments.java:65-71 | collecting more names never increases that count |
| NoUnusedFragments.Collect | src/main/java/graphql/validation/rules/NoUnusedFragments.java:65-73 | one walk only ever extends the list of collected names |
| NoUnusedFragments.CollectEach | src/main/java/graphql/validation/rules/NoUnusedFragments.java:69-71 | the walk over a list of names only ever extends the collected names |
| NoUnusedFragments.NoUnusedFragments.constructor | src/main/java/graphql/validation/rules/NoUnusedFragments.java:18-26 | the rule starts with no declared fragments, no spread lists, no operations and a current list nobody reads |
| NoUnusedFragments.NoUnusedFragments.CheckOperationDefinition | src/main/java/graphql/validation/rules/NoUnusedFragments.java:28-32 | an operation adds a new empty list of directly used names and makes it the current list; nothing else changes |
| NoUnusedFragments.NoUnusedFragments.CheckFragmentSpread | src/main/java/graphql/validation/rules/NoUnusedFragments.java:35-38 | the spread's name is appended to the current list, which is the last operation's list, the last fragment definition's spread list, or a list nobody reads; nothing else changes |
| NoUnusedFragments.NoUnusedFragments.CheckFragmentDefinition | src/main/java/graphql/validation/rules/NoUnusedFragments.java:40-45 | the definition is recorded as declared and its name gets a new empty spread list, which becomes the current list, replacing the list of an earlier definition of the same name |
| NoUnusedFragments.NoUnusedFragments.DocumentFinished | src/main/java/graphql/validation/rules/NoUnusedFragments.java:47-63 | the walk from every directly used name, operation by operation, throws exactly when the reachability function throws, and then no error is added; otherwise one UnusedFragment error is added per declared fragment the walk did not reach |
| NoUnusedFragments.NoUnusedFragments.ReportUnused | src/main/java/graphql/validation/rules/NoUnusedFragments.java:57-61 | the errors added are those of the declared fragments missing from the used names, in declaration order |
| NoUnusedFragments.NoUnusedFragments.CollectUsedFragmentsInDefinition | src/main/java/graphql/validation/rules/NoUnusedFragments.java:65-73 | the recursive walk leaves the result list equal to the reachability function's, and throws when the function does (a reached name that was never declared) |
| NoUnusedFragments.JustifiedAppend | src/main/java/graphql/validation/rules/NoUnusedFragments.java:66-67 | appending a name reached from a root or from an already collected name keeps every collected name justified |
| NoUnusedFragments.CollectSound | src/main/java/graphql/validation/rules/NoUnusedFragments.java:65-73 | a successful walk from a reachable name contains it, has no duplicates, collects only reachable names and is closed under spreads for every name it added |
| NoUnusedFragments.CollectEachSound | src/main/java/graphql/validation/rules/NoUnusedFragments.java:69-71 | the same for the walk over a list of names: each of them is collected |
| NoUnusedFragments.UsedFragmentsAreReachable | src/main/java/graphql/validation/rules/NoUnusedFragments.java:50-55 | the used names, when the walk does not throw, are exactly the fragments reachable from the operations: every root, closed under spreads, every name reached from a root or an earlier name, none twice |
| NoUnusedFragments.UndeclaredRootThrows | src/main/java/graphql/validation/rules/NoUnusedFragments.java:68-69 | a used name that was never declared makes the walk throw a NullPointerException |
| NoUnusedFragments.UnusedErrorsExactly | src/main/java/graphql/validation/rules/NoUnusedFragments.java:57-61 | every error added is an UnusedFragment error, none is added exactly when every declared fragment is used, and at most one per declared fragment |
| ProvidedNonNullArguments.ArgumentMap | src/main/java/graphql/validation/rules/ProvidedNonNullArguments.java:81-87 | the map built from the arguments is a well-formed linked map |
| ProvidedNonNullArguments.LastArgumentNamed | src/main/java/graphql/validation/rules/ProvidedNonNullArguments.java:81-87 | the argument found for a name is one of the arguments with that name, and there is none exactly when no argument has it |
| ProvidedNonNullArguments.ArgumentMapKeepsLast | src/main/java/graphql/validation/rules/ProvidedNonNullArguments.java:83-85 | looking a name up in the argument map gives the last argument of that name |
| ProvidedNonNullArguments.ProvidedNonNullArguments.constructor | src/main/java/graphql/validation/rules/ProvidedNonNullArguments.java:30-32 | the rule reports to the collector it is given |
| ProvidedNonNullArguments.ProvidedNonNullArguments.CheckField | src/main/java/graphql/validation/rules/ProvidedNonNullArguments.java:34-59 | no field definition adds nothing; otherwise the errors added are the field's errors, definition argument by definition argument |
| ProvidedNonNullArguments.ProvidedNonNullArguments.CheckFieldArgument | src/main/java/graphql/validation/rules/ProvidedNonNullArguments.java:43-57 | one definition argument adds MissingFieldArgument when no argument has its name, NullValueForNonNullArgument when the argument's value is null or a NullValue, and either only for a non-null type without a default value |
| ProvidedNonNullArguments.ProvidedNonNullArguments.CheckDirective | src/main/java/graphql/validation/rules/ProvidedNonNullArguments.java:62-79 | no directive definition adds nothing; otherwise one MissingDirectiveArgument per required argument that is absent, and no error for a null value |
| ProvidedNonNullArguments.ProvidedNonNullArguments.BuildArgumentMap | src/main/java/graphql/validation/rules/ProvidedNonNullArguments.java:81-87 | the loop builds the argument map, whose lookup of each name gives the last argument of that name |
| ProvidedNonNullArguments.FieldErrorsExactly | src/main/java/graphql/validation/rules/ProvidedNonNullArguments.java:42-58 | an error is among a field's errors exactly when some required definition argument is missing (MissingFieldArgument) or given a null value (NullValueForNonNullArgument) |
| ProvidedNonNullArguments.DirectiveErrorsExactly | src/main/java/graphql/validation/rules/ProvidedNonNullArguments.java:70-78 | an error is among a directive's errors exactly when some required definition argument is missing |
| ProvidedNonNullArguments.CheckFieldReportsRequiredArguments | src/main/java/graphql/validation/rules/ProvidedNonNullArguments.java:34-59 | the same, stated over the field's own argument list: the last argument of each name decides |
| ProvidedNonNullArguments.DirectiveNullIsAccepted | src/main/java/graphql/validation/rules/ProvidedNonNullArguments.java:70-78 | a directive giving a required argument the null value gets no error |
| ProvidedNonNullArguments.UndeclaredArgumentIgnored | src/main/java/graphql/validation/rules/ProvidedNonNullArguments.java:42-58 | an extra argument the definition does not declare changes no error |
| ProvidedNonNullArguments.FieldErrorsAgree | src/main/java/graphql/validation/rules/ProvidedNonNullArguments.java:42-58 | two argument maps that agree on the declared names give the same errors |
| FragmentsOnCompositeType.InlineFragmentErrors | src/main/java/graphql/validation/rules/FragmentsOnCompositeType.java:19-26 | an inline fragment without a type condition throws a NullPointerException; otherwise its errors are those of its type condition |
| FragmentsOnCompositeType.FragmentsOnCompositeType.constructor | src/main/java/graphql/validation/rules/FragmentsOnCompositeType.java:15-17 | the rule reports to the collector it is given |
| FragmentsOnCompositeType.FragmentsOnCompositeType.CheckInlineFragment | src/main/java/graphql/validation/rules/FragmentsOnCompositeType.java:19-26 | the check throws exactly when the errors function throws and then adds nothing; otherwise it adds the type condition's errors |
| FragmentsOnCompositeType.FragmentsOnCompositeType.CheckFragmentDefinition | src/main/java/graphql/validation/rules/FragmentsOnCompositeType.java:28-35 | the check adds the type condition's errors |
| FragmentsOnCompositeType.ConditionErrorsExactly | src/main/java/graphql/validation/rules/FragmentsOnCompositeType.java:21-25 | at most one error, an InlineFragmentTypeConditionInvalid, and one exactly when the named type exists and is not an object, interface or union type |
| FragmentsOnCompositeType.DefinitionAndInlineAgree | src/main/java/graphql/validation/rules/FragmentsOnCompositeType.java:19-35 | an inline fragment and a fragment definition with the same type condition get the same errors |
| ObjectsImplementInterfaces.SchemaValidationErrorCollector.constructor | src/main/java/graphql/schema/validation/ObjectsImplementInterfaces.java:19-73 | a new collector holds no errors |
| ObjectsImplementInterfaces.SchemaValidationErrorCollector.AddError | src/main/java/graphql/schema/validation/ObjectsImplementInterfaces.java:47-49 | adding an error appends it |
| ObjectsImplementInterfaces.ObjectsImplementInterfaces.CheckFieldDefinition | src/main/java/graphql/schema/validation/ObjectsImplementInterfaces.java:21-23 | checking a field definition adds nothing |
| ObjectsImplementInterfaces.ObjectsImplementInterfaces.CheckType | src/main/java/graphql/schema/validation/ObjectsImplementInterfaces.java:25-40 | a type adds the errors of the type's outcome and throws exactly when the outcome records a failure (a non-interface among the object's interfaces) |
| ObjectsImplementInterfaces.ObjectsImplementInterfaces.CheckObjectImplementsInterface | src/main/java/graphql/schema/validation/ObjectsImplementInterfaces.java:42-67 | the errors added are the interface's errors for the object, field by interface field |
| ObjectsImplementInterfaces.InterfaceChecked | src/main/java/graphql/schema/validation/ObjectsImplementInterfaces.java:35-38 | an interface reached with no failure so far adds its errors to the outcome |
| ObjectsImplementInterfaces.CastFails | src/main/java/graphql/schema/validation/ObjectsImplementInterfaces.java:36-37 | a name that is not an interface type ends the check with a ClassCastException, keeping the errors added before it |
| ObjectsImplementInterfaces.FailureSticks | src/main/java/graphql/schema/validation/ObjectsImplementInterfaces.java:35-38 | once the check has failed, later interfaces change nothing |
| ObjectsImplementInterfaces.InterfaceErrorsExactly | src/main/java/graphql/schema/validation/ObjectsImplementInterfaces.java:42-67 | at most one error per interface field, and none exactly when every interface field has an object field of that name with the same unwrapped type name |
| ObjectsImplementInterfaces.FieldErrorCases | src/main/java/graphql/schema/validation/ObjectsImplementInterfaces.java:44-66 | a missing object field gives the missing-field error; a field of another unwrapped type gives the type error naming both types |
| ObjectsImplementInterfaces.OnlyObjectsChecked | src/main/java/graphql/schema/validation/ObjectsImplementInterfaces.java:25-30 | a type that is not an object type adds nothing and does not throw |
| ObjectsImplementInterfaces.ObjectErrorsAreInterfaceErrors | src/main/java/graphql/schema/validation/ObjectsImplementInterfaces.java:33-40 | when every implemented name is an interface type, the check does not throw and adds no error exactly when no interface has an error |
| ValueFetcher.CompletableFuture.constructor | src/main/java/graphql/execution/nextgen/ValueFetcher.java:149 | a new future is not completed |
| ValueFetcher.CompletableFuture.Complete | src/main/java/graphql/execution/nextgen/ValueFetcher.java:165-178 | completing succeeds only on a future not yet completed, which then holds the value; a completed future keeps its state |
| ValueFetcher.CompletableFuture.CompleteExceptionally | src/main/java/graphql/execution/nextgen/ValueFetcher.java:156-159 | the same for completing with an exception |
| ValueFetcher.HandledNull | src/main/java/graphql/execution/nextgen/ValueFetcher.java:163-167 | the future holds null only when a returned stage completed with null, and holds the NULL_VALUE sentinel exactly for a null return, a sentinel return, or a stage that completed with the sentinel |
| ValueFetcher.HandleFetchedValue | src/main/java/graphql/execution/nextgen/ValueFetcher.java:163-180 | a future not yet completed ends as the handled value decides: the sentinel for null, the stage's outcome for a stage, the value itself otherwise; a completed one is unchanged |
| ValueFetcher.CallDataFetcher | src/main/java/graphql/execution/nextgen/ValueFetcher.java:148-161 | the new future holds what the data fetcher's outcome gives: an exception completes it exceptionally instead of propagating |
| ValueFetcher.Absolute | src/main/java/graphql/execution/nextgen/ValueFetcher.java:185-187 | each relative error is turned into an absolute one, in order |
| ValueFetcher.UnboxPossibleDataFetcherResult | src/main/java/graphql/execution/nextgen/ValueFetcher.java:182-194 | a DataFetcherResult is replaced by its data, its errors made absolute and appended after the existing ones, the raw value kept; anything else is returned unchanged |
| ValueFetcher.UnboxPossibleOptional | src/main/java/graphql/execution/nextgen/ValueFetcher.java:143-146 | unboxing an Optional keeps the raw value and the errors |
| ValueFetcher.FailureGivesOneError | src/main/java/graphql/execution/nextgen/ValueFetcher.java:127-141 | a fetcher that throws or returns a failing stage yields a null value, a null raw value and exactly one ExceptionWhileDataFetching error at the path |
| ValueFetcher.FetchRecovers | src/main/java/graphql/execution/nextgen/ValueFetcher.java:127-131 | a fetch yields no value only when the fetcher returned a stage that never completes; exceptions are recovered from |
| ValueFetcher.UnboxingOrder | src/main/java/graphql/execution/nextgen/ValueFetcher.java:128-131 | a DataFetcherResult inside an Optional is not unboxed, while an Optional inside a DataFetcherResult is: the DataFetcherResult is unboxed first |
| ValueFetcher.FetchValue | src/main/java/graphql/execution/nextgen/ValueFetcher.java:102-132 | the fetch yields the fetched value the chain defines for the data fetcher's outcome at the step's path |
| ValueFetcher.BatchedValuesMeaning | src/main/java/graphql/execution/nextgen/ValueFetcher.java:73-88 | a list of the expected size yields that many values, each the list's first element with the raw value, the errors on the first only; a list of another size fails "Unexpected result size" |
| ValueFetcher.ExtractBatchedValues | src/main/java/graphql/execution/nextgen/ValueFetcher.java:73-88 | the loop yields the batched-values function's result |
| ValueFetcher.Each | src/main/java/graphql/execution/nextgen/ValueFetcher.java:69 | the combined future succeeds exactly when every future completes, with their values in order, and never fails |
| ValueFetcher.PerSourceFetches | src/main/java/graphql/execution/nextgen/ValueFetcher.java:65-68 | one fetch per source |
| ValueFetcher.FetchBatchedValues | src/main/java/graphql/execution/nextgen/ValueFetcher.java:57-71 | no step infos throws IndexOutOfBounds; a batched fetcher is called once with the list of sources and its result split; otherwise each source is fetched with its own step info, and more sources than step infos throws IndexOutOfBounds |
| ValueFetcher.PerSourceOrder | src/main/java/graphql/execution/nextgen/ValueFetcher.java:65-69 | the i-th value combined is the fetch of the i-th source with the i-th step info |
| Execution.Execution.constructor | src/main/java/graphql/execution/Execution.java:31-35 | a null strategy defaults to the simple execution strategy |
| Execution.Execution.StrategyFor | src/main/java/graphql/execution/Execution.java:78-82 | mutations run on the mutation strategy, everything else on the query strategy |
| Execution.Execution.ExecuteOperation | src/main/java/graphql/execution/Execution.java:57-96 | the result is the operation-result function: the root type's exception, or the chosen strategy's result over the collected top-level fields |
| Execution.Execution.NonNullViolationGivesNullData | src/main/java/graphql/execution/Execution.java:83-92 | a NonNullableFieldWasNullException from the strategy becomes a result with null data and the context's errors |
| Execution.Execution.StrategySeesTopLevelFields | src/main/java/graphql/execution/Execution.java:64-82 | the strategy gets every top-level field under its response key, and the operation succeeds exactly when the strategy does not raise |
| Execution.GetOperationRootType | src/main/java/graphql/execution/Execution.java:45-55 | a subscription throws GraphQLException; otherwise a null schema throws NullPointerException, a mutation gets the mutation type and a query the query type |
| ExecutionContextBuilder.IndexOperations | src/main/java/graphql/execution/ExecutionContextBuilder.java:25-29 | the operations indexed by name form a well-formed linked map |
| ExecutionContextBuilder.IndexFragments | src/main/java/graphql/execution/ExecutionContextBuilder.java:30-33 | the fragments indexed by name form a well-formed linked map |
| ExecutionContextBuilder.Build | src/main/java/graphql/execution/ExecutionContextBuilder.java:21-57 | building throws exactly when operation selection does, with its exception; otherwise a new context holds the schema, the selected operation, the root, the fragments by name and the resolved variables |
| ExecutionContextBuilder.LaterFragmentWins | src/main/java/graphql/execution/ExecutionContextBuilder.java:30-33 | the fragment found for a name is the last definition of that name |
| ExecutionContextBuilder.NoNameSelectsFirstOperation | src/main/java/graphql/execution/ExecutionContextBuilder.java:40-41 | without an operation name the first operation in document order is selected (its name's last definition) |
| ExecutionContextBuilder.FirstOperationStaysFirst | src/main/java/graphql/execution/ExecutionContextBuilder.java:25-29 | the first operation's name stays the first key of the index as more definitions are added |
| ExecutionContextBuilder.NoOperationsBefore | src/main/java/graphql/execution/ExecutionContextBuilder.java:25-29 | no operation definitions, no index entries |
| ExecutionContextBuilder.LastOperationIndexed | src/main/java/graphql/execution/ExecutionContextBuilder.java:28 | the operation indexed under a name is the last one with that name |
| ExecutionContextBuilder.NamedOperationAmongSeveralIsRejected | src/main/java/graphql/execution/ExecutionContextBuilder.java:35-37 | a named operation in a document with two operations is rejected with "missing operation name" |
| ExecutionContextBuilder.SingleOperationFoundByName | src/main/java/graphql/execution/ExecutionContextBuilder.java:42-44 | the only operation is found by its name |
| ExecutionContext.ExecutionContext.constructor | src/main/java/graphql/execution/ExecutionContext.java:13-17 | a new context has no schema, no operation, a null root and empty fragment and variable maps |
| ExecutionContext.ExecutionContext.SetGraphQLSchema | src/main/java/graphql/execution/ExecutionContext.java:24-26 | sets the schema and nothing else |
| ExecutionContext.ExecutionContext.SetFragmentsByName | src/main/java/graphql/execution/ExecutionContext.java:32-34 | sets the fragments and nothing else |
| ExecutionContext.ExecutionContext.SetOperationDefinition | src/main/java/graphql/execution/ExecutionContext.java:40-42 | sets the operation and nothing else |
| ExecutionContext.ExecutionContext.SetVariables | src/main/java/graphql/execution/ExecutionContext.java:48-50 | sets the variables and nothing else |
| ExecutionContext.ExecutionContext.SetRoot | src/main/java/graphql/execution/ExecutionContext.java:56-58 | sets the root and nothing else |
| ExecutionContext.ExecutionContext.GetFragment | src/main/java/graphql/execution/ExecutionContext.java:60-62 | a fragment is found exactly when its name is a key, and it is the one stored there |
| ExecutionResultNodePosition.FromIndex | src/main/java/graphql/execution/nextgen/result/ExecutionResultNodePosition.java:12-15 | an index position has that index and no key |
| ExecutionResultNodePosition.FromKey | src/main/java/graphql/execution/nextgen/result/ExecutionResultNodePosition.java:17-20 | a key position has that key and no index |
| ExecutionResultNodePosition.GetIndex | src/main/java/graphql/execution/nextgen/result/ExecutionResultNodePosition.java:30-32 | the index when there is one; otherwise the not-null assertion fails |
| ExecutionResultNodePosition.GetKey | src/main/java/graphql/execution/nextgen/result/ExecutionResultNodePosition.java:34-36 | the key when there is one; otherwise the not-null assertion fails |
| ExecutionResultNodePosition.IndexPositionRoundTrip | src/main/java/graphql/execution/nextgen/result/ExecutionResultNodePosition.java:22-41 | an index position gives its index back, has no key, and its string parses back to the index |
| ExecutionResultNodePosition.KeyPositionRoundTrip | src/main/java/graphql/execution/nextgen/result/ExecutionResultNodePosition.java:26-41 | a key position gives its key back, has no index, and prints as the key |
| ExecutionResultNodePosition.ToStringOfIndexes | src/main/java/graphql/execution/nextgen/result/ExecutionResultNodePosition.java:38-41 | two index positions print alike exactly when their indexes are equal, and an index prints like the key spelling that number |
| DefaultTraverserContext.Vars.constructor | src/main/java/graphql/util/DefaultTraverserContext.java:20 | a new variable map is empty |
| DefaultTraverserContext.DefaultTraverserContext.constructor | src/main/java/graphql/util/DefaultTraverserContext.java:29-43 | a context holds the node, parent, visited set, variables, shared data and root flag it is given, has no new node and no accumulated value, and its parent chain is well formed |
| DefaultTraverserContext.DefaultTraverserContext.Dummy | src/main/java/graphql/util/DefaultTraverserContext.java:45-47 | the dummy context is a root context with nothing set |
| DefaultTraverserContext.DefaultTraverserContext.Simple | src/main/java/graphql/util/DefaultTraverserContext.java:49-51 | the simple context is a root context holding only the node |
| DefaultTraverserContext.DefaultTraverserContext.ThisNode | src/main/java/graphql/util/DefaultTraverserContext.java:53-59 | the changed node when there is one, otherwise the current node |
| DefaultTraverserContext.DefaultTraverserContext.ChangeNode | src/main/java/graphql/util/DefaultTraverserContext.java:62-67 | a null node fails the not-null assertion and a second change fails "node can only be changed once", both leaving the node as it was; otherwise the new node becomes this node; the accumulated values are untouched |
| DefaultTraverserContext.DefaultTraverserContext.IsVisited | src/main/java/graphql/util/DefaultTraverserContext.java:91-94 | a null visited set throws NullPointerException; otherwise whether the current node is in it |
| DefaultTraverserContext.DefaultTraverserContext.GetVar | src/main/java/graphql/util/DefaultTraverserContext.java:96-99 | null variables throw NullPointerException; otherwise the value stored under the key, if any |
| DefaultTraverserContext.DefaultTraverserContext.SetVar | src/main/java/graphql/util/DefaultTraverserContext.java:101-105 | null variables throw NullPointerException; otherwise the key is bound to the value, the context itself is returned, and getVar gives the value back |
| DefaultTraverserContext.DefaultTraverserContext.SetAccumulate | src/main/java/graphql/util/DefaultTraverserContext.java:107-111 | after setting a new accumulated value it is the new accumulate; the current one is untouched |
| DefaultTraverserContext.DefaultTraverserContext.NewAccumulate | src/main/java/graphql/util/DefaultTraverserContext.java:113-120 | the new accumulated value when one was set, otherwise the current one |
| DefaultTraverserContext.DefaultTraverserContext.SetCurAccValue | src/main/java/graphql/util/DefaultTraverserContext.java:133-139 | setting the current accumulated value clears the new one, so both accumulates give it |
| DefaultTraverserContext.DefaultTraverserContext.GetParentNodes | src/main/java/graphql/util/DefaultTraverserContext.java:75-84 | the loop up the parent chain gives the parent-nodes function of the chain |
| DefaultTraverserContext.DefaultTraverserContext.ChainLinks | src/main/java/graphql/util/DefaultTraverserContext.java:78-81 | the i-th context of the chain has the next one as its parent, and the last has none |
| DefaultTraverserContext.ParentNodesMeaning | src/main/java/graphql/util/DefaultTraverserContext.java:75-84 | the walk succeeds exactly when some context of the chain is a root context, and otherwise throws NullPointerException; it lists the nodes of the contexts before the first root context, in order |
| QueryTraversal.RootTypeFromOperation | src/main/java/graphql/analysis/QueryTraversal.java:167-178 | a query gets the query type, a mutation and a subscription their types when the schema has them, and a missing one fails the not-null assertion |
| QueryTraversal.Builder.constructor | src/main/java/graphql/analysis/QueryTraversal.java:324-333 | a new builder has nothing set |
| QueryTraversal.Builder.Schema | src/main/java/graphql/analysis/QueryTraversal.java:342-345 | sets the schema only and returns the builder |
| QueryTraversal.Builder.OperationName | src/main/java/graphql/analysis/QueryTraversal.java:355-358 | sets the operation name only and returns the builder |
| QueryTraversal.Builder.Document | src/main/java/graphql/analysis/QueryTraversal.java:368-371 | sets the document only and returns the builder |
| QueryTraversal.Builder.Variables | src/main/java/graphql/analysis/QueryTraversal.java:380-383 | sets the variables only and returns the builder |
| QueryTraversal.Builder.Root | src/main/java/graphql/analysis/QueryTraversal.java:393-396 | sets the root only and returns the builder |
| QueryTraversal.Builder.RootParentType | src/main/java/graphql/analysis/QueryTraversal.java:405-408 | sets the root parent type only and returns the builder |
| QueryTraversal.Builder.FragmentsByName | src/main/java/graphql/analysis/QueryTraversal.java:417-420 | sets the fragments only and returns the builder |
| QueryTraversal.Builder.BuildChoosesConstructor | src/main/java/graphql/analysis/QueryTraversal.java:425-440 | a document or operation name together with a root, root parent type or fragments throws "ambiguous builder"; otherwise a document selects the document constructor and its absence the root constructor |
| QueryTraversal.ConstructorsMeaning | src/main/java/graphql/analysis/QueryTraversal.java:66-90 | the document constructor succeeds only with a document whose operation is found, and takes its root, fragments, schema, variables and root type from that operation; the root constructor succeeds exactly when all five arguments are non-null, and keeps them |
| QueryTraversal.ChildrenOf | src/main/java/graphql/analysis/QueryTraversal.java:180-186 | a fragment spread's only child is its fragment definition, null when unknown; any other node's children are its own |
| QueryTraversal.DeliveredConcat | src/main/java/graphql/analysis/QueryTraversal.java:188-206 | the visits delivered from two walks one after the other are those of each, in order |
| QueryTraversal.DeliveredSingle | src/main/java/graphql/analysis/QueryTraversal.java:194-201 | one visit is delivered exactly when the visitor is called on its phase |
| QueryTraversal.DeliveredUnordered | src/main/java/graphql/analysis/QueryTraversal.java:194-196 | a depth-first visit with no order delivers every enter and leave visit |
| QueryTraversal.DeliveredPhases | src/main/java/graphql/analysis/QueryTraversal.java:197-201 | pre-order delivers only entering visits and post-order only leaving ones |
| QueryTraversal.DeliveredPartition | src/main/java/graphql/analysis/QueryTraversal.java:197-201 | pre-order and post-order together deliver every visit exactly once |
| QueryTraversal.FieldEnvironmentsConcat | src/main/java/graphql/analysis/QueryTraversal.java:133-165 | the field environments of two visit sequences one after the other are those of each, in order |
| QueryTraversal.EnvironmentsConcat | src/main/java/graphql/analysis/QueryTraversal.java:188-206 | the same for all environments |
| QueryTraversal.CompositeNamed | src/main/java/graphql/analysis/QueryTraversal.java:239 | a named type that exists and is not composite throws ClassCastException; an unknown name gives null; a composite type gives its name |
| QueryTraversal.FieldRawType | src/main/java/graphql/analysis/QueryTraversal.java:307-310 | a field's selections are walked on its unwrapped type when that type is known and composite, and on no type otherwise |
| QueryTraversal.UnvisitedShrinks | src/main/java/graphql/analysis/QueryTraversal.java:180-205 | visiting more fragments never increases the count of fragments not yet visited |
| QueryTraversal.UnvisitedDrops | src/main/java/graphql/analysis/QueryTraversal.java:180-205 | visiting a known fragment not yet visited strictly lowers that count, so the walk ends |
| QueryTraversal.WalkSelections | src/main/java/graphql/analysis/QueryTraversal.java:188-206 | walking a selection list only adds visited fragments |
| QueryTraversal.WalkSelection | src/main/java/graphql/analysis/QueryTraversal.java:218-315 | walking one selection only adds visited fragments |
| QueryTraversal.BalancedConcat | src/main/java/graphql/analysis/QueryTraversal.java:188-206 | two balanced visit sequences one after the other are balanced |
| QueryTraversal.Bracketed | src/main/java/graphql/analysis/QueryTraversal.java:225-231 | entering and leaving one environment around balanced visits is balanced |
| QueryTraversal.BracketedEnvironments | src/main/java/graphql/analysis/QueryTraversal.java:225-231 | adding one enter before and one leave after keeps the pre-order and post-order environments equal as multisets |
| QueryTraversal.BracketedFieldEnvironments | src/main/java/graphql/analysis/QueryTraversal.java:225-231 | the same for the field environments |
| QueryTraversal.BracketDelivered | src/main/java/graphql/analysis/QueryTraversal.java:225-231 | pre-order delivers the entering visit before the inner ones, post-order the leaving visit after them |
| QueryTraversal.SelectionsBalanced | src/main/java/graphql/analysis/QueryTraversal.java:188-206 | a successful walk of a selection list is balanced: pre-order and post-order see the same environments and the same fields |
| QueryTraversal.SelectionBalanced | src/main/java/graphql/analysis/QueryTraversal.java:218-315 | the same for one selection |
| QueryTraversal.FieldSelectionBalanced | src/main/java/graphql/analysis/QueryTraversal.java:276-310 | a field's enter and leave bracket a balanced walk of its sub-selection |
| QueryTraversal.InlineSelectionBalanced | src/main/java/graphql/analysis/QueryTraversal.java:219-247 | an inline fragment's enter and leave bracket a balanced walk of its selections |
| QueryTraversal.SpreadSelectionBalanced | src/main/java/graphql/analysis/QueryTraversal.java:249-274 | a fragment spread's enter and leave bracket a balanced walk of the fragment, or nothing when it was already visited |
| QueryTraversal.NoVisitsBracketed | src/main/java/graphql/analysis/QueryTraversal.java:225-231 | an enter directly followed by its leave is balanced |
| QueryTraversal.AllConsistentConcat | src/main/java/graphql/analysis/QueryTraversal.java:218-315 | consistent visit sequences one after the other are consistent |
| QueryTraversal.BracketConsistent | src/main/java/graphql/analysis/QueryTraversal.java:218-315 | a consistent environment around consistent visits is consistent |
| QueryTraversal.SelectionsConsistent | src/main/java/graphql/analysis/QueryTraversal.java:218-315 | every environment a successful walk of a selection list reports agrees with the document and the collaborators |
| QueryTraversal.SelectionConsistent | src/main/java/graphql/analysis/QueryTraversal.java:218-315 | the same for one selection |
| QueryTraversal.FieldSelectionConsistent | src/main/java/graphql/analysis/QueryTraversal.java:276-315 | a field reports the definition looked up on the parent type and the include flag of its directives |
| QueryTraversal.InlineSelectionConsistent | src/main/java/graphql/analysis/QueryTraversal.java:219-246 | an inline fragment reports the include flag of its directives |
| QueryTraversal.SpreadSelectionConsistent | src/main/java/graphql/analysis/QueryTraversal.java:249-273 | a spread reports its known definition and is included only when both its directives and the definition's include it |
| QueryTraversal.WalkMeaning | src/main/java/graphql/analysis/QueryTraversal.java:188-206 | a whole successful walk from the root is balanced and consistent |
| QueryTraversal.InlineWithoutConditionUsesParentType | src/main/java/graphql/analysis/QueryTraversal.java:233-242 | an inline fragment without a type condition walks its selections on the parent's type, between its own enter and leave visits |
| QueryTraversal.VisitedFragmentNotWalkedAgain | src/main/java/graphql/analysis/QueryTraversal.java:180-205 | a spread of a fragment already visited enters and leaves without walking the fragment again |
| QueryTraversal.Reduce | src/main/java/graphql/analysis/QueryTraversal.java:133-165 | the accumulator ends as the reducer folded over the field environments the visitor receives, or the walk's exception |
| QueryTraversal.ReducePreOrder | src/main/java/graphql/analysis/QueryTraversal.java:155-165 | the same over the fields in pre-order |
| QueryTraversal.ReducePostOrder | src/main/java/graphql/analysis/QueryTraversal.java:133-143 | the same over the fields in post-order |
| QueryTraversal.ReductionsSeeSameFields | src/main/java/graphql/analysis/QueryTraversal.java:133-165 | pre-order and post-order reductions succeed together and see the same field environments, each in its own order |
| Anonymizer.Counter.constructor | src/main/java/graphql/util/Anonymizer.java:128-129 | a counter starts at the value it is given |
| Anonymizer.Counter.GetAndIncrement | src/main/java/graphql/util/Anonymizer.java:310-312 | returns the value before and steps it by one with 32-bit wrap-around |
| Anonymizer.NumberedInjective | src/main/java/graphql/util/Anonymizer.java:341-476 | a digit-free prefix followed by a non-negative counter value determines both, so numbered names from different prefixes or values never collide |
| Anonymizer.DigitsStartAfterPrefix | src/main/java/graphql/util/Anonymizer.java:341-476 | in a digit-free prefix followed by digits, the digits start right after the prefix |
| Anonymizer.ReplaceDefaultValue | src/main/java/graphql/util/Anonymizer.java:308-315 | a string default becomes "defaultValue" numbered by its counter, an int default becomes its counter's value, each counter stepped once; any other literal is kept with both counters unchanged |
| Anonymizer.DefaultsPrefix | src/main/java/graphql/util/Anonymizer.java:145-155 | replacing the defaults visited so far gives the first values of replacing all of them |
| Anonymizer.DefaultsCounters | src/main/java/graphql/util/Anonymizer.java:128-129 | after the defaults each counter is one more than the number of defaults of its kind, while neither has wrapped |
| Anonymizer.DefaultsNumberedInOrder | src/main/java/graphql/util/Anonymizer.java:308-315 | the n-th string default in visit order becomes "defaultValue<n>", the n-th int default becomes n, other literals are kept |
| Anonymizer.Add | src/main/java/graphql/util/Anonymizer.java:533 | adding to a linked hash set puts a new element at the end and leaves a set that has it unchanged |
| Anonymizer.UncheckedDrops | src/main/java/graphql/util/Anonymizer.java:502-505 | checking a type not yet checked lowers the count of unchecked types, so the search ends |
| Anonymizer.Implementing | src/main/java/graphql/util/Anonymizer.java:508 | the cast to an implementing type succeeds only for a known object or interface type, giving that type |
| Anonymizer.MatchingFields | src/main/java/graphql/util/Anonymizer.java:526-536 | matching only adds to the fields found |
| Anonymizer.SameFieldsFrom | src/main/java/graphql/util/Anonymizer.java:496-524 | one search only adds checked types and found fields |
| Anonymizer.SameFieldsEach | src/main/java/graphql/util/Anonymizer.java:511-513 | the searches over a list of types only add checked types and found fields |
| Anonymizer.MatchingFieldsMeaning | src/main/java/graphql/util/Anonymizer.java:526-536 | matching adds exactly the same-named fields of the types, each once, keeping the found fields distinct and of that name |
| Anonymizer.SameFieldsFromSound | src/main/java/graphql/util/Anonymizer.java:496-524 | the search keeps both collections free of duplicates and finds only fields of that name, each under the type that declares it |
| Anonymizer.SameFieldsEachSound | src/main/java/graphql/util/Anonymizer.java:511-523 | the same over a list of types |
| Anonymizer.SameFieldsFromExpands | src/main/java/graphql/util/Anonymizer.java:496-524 | every type the search checks for the first time has all its interfaces and implementations checked, and their matching fields found, when the search returns |
| Anonymizer.SameFieldsEachExpands | src/main/java/graphql/util/Anonymizer.java:511-523 | the same over a list of types, each of which ends checked |
| Anonymizer.ExpandedCarry | src/main/java/graphql/util/Anonymizer.java:496-524 | types expanded earlier stay expanded, and those checked in between are expanded too |
| Anonymizer.ExpandedFromParts | src/main/java/graphql/util/Anonymizer.java:507-523 | a type whose interfaces and implementations were searched and matched is expanded |
| Anonymizer.SameFieldsReachAll | src/main/java/graphql/util/Anonymizer.java:485-524 | the search from a type reaches every type connected to it by going up to interfaces and down to implementations, any number of times, and finds the same-named field of each |
| Anonymizer.SameFieldsSearch.constructor | src/main/java/graphql/util/Anonymizer.java:490-491 | a search starts with nothing checked and nothing found |
| Anonymizer.SameFieldsSearch.GetMatchingFieldDefinitions | src/main/java/graphql/util/Anonymizer.java:526-536 | the loop adds the matching fields as the matching function does, and fails with its cast exception |
| Anonymizer.SameFieldsSearch.GetSameFieldsImpl | src/main/java/graphql/util/Anonymizer.java:496-524 | the recursive search leaves the checked types and found fields as the search function defines them, or its exception |
| Anonymizer.SameFieldsSearch.GetSameFieldsEach | src/main/java/graphql/util/Anonymizer.java:511-523 | the loops over interfaces and implementations do the same for each type in turn |
| Anonymizer.GetSameFields | src/main/java/graphql/util/Anonymizer.java:485-494 | the same fields are those of a fresh search from the type |
| Anonymizer.MatchingArguments | src/main/java/graphql/util/Anonymizer.java:538-546 | the matching arguments are exactly the arguments of that name of the fields that have one, at most one per field |
| Anonymizer.GetMatchingArgumentDefinitions | src/main/java/graphql/util/Anonymizer.java:538-546 | the loop gives the matching arguments |
| Anonymizer.NewNamesDistinct | src/main/java/graphql/util/Anonymizer.java:318-328 | new names of different kinds, or from different counter values of one kind, never collide while the counters have not wrapped |
| Anonymizer.NewName | src/main/java/graphql/util/Anonymizer.java:341-476 | a new name is the kind's prefix numbered by its counter, which steps by one; the map is untouched |
| Anonymizer.PutAll | src/main/java/graphql/util/Anonymizer.java:361-363 | every key of the group maps to the name and the others keep their names |
| Anonymizer.NameGroup | src/main/java/graphql/util/Anonymizer.java:349-367 | a group takes the name its first member already has without moving a counter, or the kind's next name |
| Anonymizer.RecordVisit | src/main/java/graphql/util/Anonymizer.java:335-479 | one visit keeps the name map well formed |
| Anonymizer.RecordFieldVisit | src/main/java/graphql/util/Anonymizer.java:400-419 | a field visit moves at most the field counter, by one |
| Anonymizer.RecordArgumentVisit | src/main/java/graphql/util/Anonymizer.java:337-370 | an argument visit moves at most the argument counter, by one |
| Anonymizer.RecordUnconditional | src/main/java/graphql/util/Anonymizer.java:373-478 | any other element, unless built in, moves exactly its kind's counter |
| Anonymizer.RecordAll | src/main/java/graphql/util/Anonymizer.java:317-483 | the whole run keeps the name map well formed |
| Anonymizer.FieldGroupSharesName | src/main/java/graphql/util/Anonymizer.java:400-419 | a field gets the name its first same field already has with no counter moved, or else the next "field<n>", which every field of its group gets too; no other element is renamed |
| Anonymizer.CountKind | src/main/java/graphql/util/Anonymizer.java:373-478 | at most one named element per visit |
| Anonymizer.CountersCountVisits | src/main/java/graphql/util/Anonymizer.java:318-328 | apart from fields and arguments, each kind's counter is one more than the number of elements of that kind named so far |
| Anonymizer.VisitMovesOwnCounter | src/main/java/graphql/util/Anonymizer.java:373-478 | a visit moves the counter of a kind other than field and argument only when it names an element of that kind |
| Anonymizer.UnconditionalCounter | src/main/java/graphql/util/Anonymizer.java:373-478 | the same for one unconditional naming |
| Anonymizer.UnconditionalNameInVisitOrder | src/main/java/graphql/util/Anonymizer.java:373-478 | kinds are numbered independently from 1 in visit order: the n-th object type is "Object<n>", the n-th enum "Enum<n>", and so on |
| Anonymizer.UnconditionalPutsNextName | src/main/java/graphql/util/Anonymizer.java:373-478 | an element named unconditionally gets its kind's current counter value |
| Anonymizer.NameRecorder.constructor | src/main/java/graphql/util/Anonymizer.java:318-330 | every counter at 1 and an empty name map |
| Anonymizer.NameRecorder.NextName | src/main/java/graphql/util/Anonymizer.java:341 | the next name is the function's new name and the state steps as it says |
| Anonymizer.NameRecorder.NameWithGroup | src/main/java/graphql/util/Anonymizer.java:349-367 | the group naming leaves the state the group-naming function defines |
| Anonymizer.NameRecorder.PutEach | src/main/java/graphql/util/Anonymizer.java:361-363 | the loop puts the name under every key of the group, counters untouched |
| Anonymizer.NameRecorder.Visit | src/main/java/graphql/util/Anonymizer.java:335-479 | one callback leaves the state one visit defines, or its exception with the state unchanged |
| Anonymizer.NameRecorder.VisitField | src/main/java/graphql/util/Anonymizer.java:400-419 | a field-definition callback leaves the state the field visit defines, or its exception with the state unchanged |
| Anonymizer.NameRecorder.VisitArgument | src/main/java/graphql/util/Anonymizer.java:337-370 | an argument callback leaves the state the argument visit defines, or its exception with the state unchanged |
| Anonymizer.NameRecorder.VisitUnconditional | src/main/java/graphql/util/Anonymizer.java:373-478 | any other callback leaves the state the unconditional visit defines |
| Anonymizer.RecordNewNames | src/main/java/graphql/util/Anonymizer.java:317-483 | the visitor over the elements in visit order gives the name map of the whole run, or the first exception |
| Anonymizer.RecordAllStep | src/main/java/graphql/util/Anonymizer.java:317-483 | one more visit continues the run from the state its prefix left |
| Anonymizer.RecordAllStopsAtThrow | src/main/java/graphql/util/Anonymizer.java:317-483 | an exception in one visit is the outcome of the whole run |
| Anonymizer.NumberedInOrderPut | src/main/java/graphql/util/Anonymizer.java:341-476 | a new key takes the counter's name and the counter steps on |
| Anonymizer.NumberedInOrderDistinct | src/main/java/graphql/util/Anonymizer.java:341-476 | while fewer than 2^31 - 1 keys are numbered, different keys get different names |
| Anonymizer.QueryRenaming.constructor | src/main/java/graphql/util/Anonymizer.java:549-608 | no variable or fragment names yet and the alias counter at 1 |
| Anonymizer.QueryRenaming.VisitArgumentValue | src/main/java/graphql/util/Anonymizer.java:572-583 | a variable gets "var<n>" the first time it is referenced and keeps it afterwards |
| Anonymizer.QueryRenaming.VisitFragmentSpread | src/main/java/graphql/util/Anonymizer.java:585-595 | a fragment definition gets "Fragment<n>" the first time one of its spreads is visited, and every spread of it gets that name |
| Anonymizer.QueryRenaming.RenameField | src/main/java/graphql/util/Anonymizer.java:632-646 | the renaming of a field is the renamed-field function, and only the alias counter moves |
| Anonymizer.RenamedField | src/main/java/graphql/util/Anonymizer.java:632-646 | an alias becomes "alias<n>" and steps the counter; __typename keeps its name; any other field takes its new name or fails the not-null assertion; arguments, directives and selections are kept |
| Anonymizer.RenamedOperation | src/main/java/graphql/util/Anonymizer.java:623-630 | a named operation is renamed "operation" and an anonymous one stays anonymous; everything else is kept |
| Anonymizer.AssertUniqueOperationAsWritten | src/main/java/graphql/util/Anonymizer.java:711-723 | the loop gives the as-written check over the definitions |
| Anonymizer.NamedThenOperationThrows | src/main/java/graphql/util/Anonymizer.java:711-723 | a named operation followed by any operation throws "Query must have exactly one operation" |
| Anonymizer.AnonymousFirstOperationPasses | src/main/java/graphql/util/Anonymizer.java:711-723 | two operations of which the first is anonymous pass the check as written |
| Anonymizer.AssertUniqueOperation | src/main/java/graphql/util/Anonymizer.java:711-723 | the corrected check throws exactly when the document has more than one operation |
| Anonymizer.OperationCountGrows | src/main/java/graphql/util/Anonymizer.java:713-721 | a prefix of the definitions has no more operations than the whole |
| AstValueHelper.HandleNumber | src/main/java/graphql/language/AstValueHelper.java:129-135 | a number's text becomes an IntValue exactly when it is a non-empty run of digits, and a FloatValue otherwise |
| AstValueHelper.ParseDecimal | src/main/java/graphql/language/AstValueHelper.java:133 | the BigDecimal constructor fails only with a NumberFormatException |
| AstValueHelper.IndexOfEither | src/main/java/graphql/language/AstValueHelper.java:133 | the position of the first decimal point or exponent mark in a number's text, or its length when there is none |
| AstValueHelper.DigitsHaveNoMarks | src/main/java/graphql/language/AstValueHelper.java:130-131 | a run of digits contains neither a decimal point nor an exponent mark |
| AstValueHelper.NonNegativeIntBecomesInt | src/main/java/graphql/language/AstValueHelper.java:129-131 | the printed form of a non-negative integer becomes an IntValue holding that integer |
| AstValueHelper.NegativeIntBecomesFloat | src/main/java/graphql/language/AstValueHelper.java:129-134 | the printed form of a negative integer fails the digits pattern and becomes a FloatValue with scale 0 |
| AstValueHelper.SerializedAst | src/main/java/graphql/language/AstValueHelper.java:77-110 | a nullish serialized value gives no node; a Boolean a BooleanValue; a String an EnumValue for an enum, an IntValue for an all-digit ID and a StringValue for any other scalar; anything else throws "'Cannot convert value to AST: " |
| AstValueHelper.ValueAst | src/main/java/graphql/language/AstValueHelper.java:52-111 | a null value gives no node, whatever the type |
| AstValueHelper.AstFromValue | src/main/java/graphql/language/AstValueHelper.java:52-111 | the recursive conversion returns what the value-level definition of astFromValue gives |
| AstValueHelper.HandleList | src/main/java/graphql/language/AstValueHelper.java:138-153 | the loop over a list's items gives what the definition gives for the list type: an ArrayValue of the non-null item nodes, or the item-type conversion of a value that is not a list |
| AstValueHelper.ItemStep | src/main/java/graphql/language/AstValueHelper.java:144-148 | one loop step appends the item's node when it is not null and keeps the rest of the result unchanged |
| AstValueHelper.HandleInputObject | src/main/java/graphql/language/AstValueHelper.java:113-127 | the loop over the type's fields gives an ObjectValue of exactly the field nodes the definition gives, or the first error met |
| AstValueHelper.FieldStep | src/main/java/graphql/language/AstValueHelper.java:116-125 | one field step appends an ObjectField named after the field when its node is not null |
| AstValueHelper.NonNullIsTransparent | src/main/java/graphql/language/AstValueHelper.java:57-58 | converting under a non-null type is the same as converting under the wrapped type |
| AstValueHelper.ItemsInOrder | src/main/java/graphql/language/AstValueHelper.java:143-150 | when every item converts to a node, the array holds one node per item, in the list's order |
| AstValueHelper.ItemsNoLonger | src/main/java/graphql/language/AstValueHelper.java:143-150 | the array never holds more nodes than the list has items |
| AstValueHelper.FieldsFromType | src/main/java/graphql/language/AstValueHelper.java:114-126 | the object has at most one field per declared field, and every field it holds is named after a declared field |
| AstValueHelper.IntLiteralRoundTrip | src/main/java/graphql/language/AstValueHelper.java:91-92 | a non-negative Int becomes an IntValue that the Int scalar's coerceLiteral reads back; a negative one becomes a FloatValue that coerceLiteral rejects with a ClassCastException |
| AstValueHelper.StringLiteralRoundTrip | src/main/java/graphql/language/AstValueHelper.java:95-107 | a String becomes a StringValue that the String scalar's coerceLiteral reads back unchanged |
| Scalars.IntCoerce | src/main/java/graphql/Scalars.java:15-23 | a String is parsed by Integer.parseInt and succeeds exactly when that parse does; an Integer is returned as is; anything else throws a GraphQLException |
| Scalars.IntCoerceLiteral | src/main/java/graphql/Scalars.java:26-29 | succeeds exactly on an IntValue and returns its value; any other literal fails the cast |
| Scalars.StringCoerce | src/main/java/graphql/Scalars.java:52-54 | the input is returned unchanged |
| Scalars.StringCoerceLiteral | src/main/java/graphql/Scalars.java:57-59 | succeeds exactly on a StringValue and returns its text; any other literal fails the cast |
| Scalars.Coerce | src/main/java/graphql/Scalars.java:13-86 | only Int changes its input; String, Boolean and ID return it unchanged |
| Scalars.CoerceLiteral | src/main/java/graphql/Scalars.java:13-86 | Boolean and ID return the literal itself; Int and String read the literal's value |
| Scalars.IntCoerceOfPrinted | src/main/java/graphql/Scalars.java:16-17 | coercing the printed form of a 32-bit integer gives that integer back |
| Scalars.IntCoerceIdempotent | src/main/java/graphql/Scalars.java:15-23 | coercing an already coerced value changes nothing |
| Scalars.IntCoerceRejects | src/main/java/graphql/Scalars.java:16-17 | the empty string, a lone minus and a number above the 32-bit range are rejected |
| Scalars.IntLiteralUnchecked | src/main/java/graphql/Scalars.java:26-29 | an IntValue literal is read back whatever its size, with no range check |
| Scalars.StringLiteralRoundTrip | src/main/java/graphql/Scalars.java:57-59 | a StringValue literal is read back as its text |
| JavaLang.ParseInt | src/main/java/graphql/Scalars.java:16-17 | Integer.parseInt succeeds only on non-empty text and only with a value in the 32-bit range |
| JavaLang.ParseIntToString | src/main/java/graphql/Scalars.java:16-17 | parsing the printed form of a 32-bit integer gives that integer back |
| TypeFromAST.FindType | src/main/java/graphql/execution/TypeFromAST.java:18 | a type name is found exactly when the schema declares it, and then names that type |
| TypeFromAST.GetTypeFromAST | src/main/java/graphql/execution/TypeFromAST.java:12-19 | a bare name is looked up in the schema; the only error is the assertion that a wrapper cannot wrap a missing type |
| TypeFromAST.TypeFromAstKeepsShape | src/main/java/graphql/execution/TypeFromAST.java:12-19 | a resolved type has the same list and non-null wrapping as the AST type it came from |
| TypeFromAST.TypeFromAstDefinedOnKnownNames | src/main/java/graphql/execution/TypeFromAST.java:12-19 | a type resolves exactly when every name in it is declared; it resolves to null exactly when it is a bare undeclared name |
| TypeFromAST.TypeToAstRoundTrip | src/main/java/graphql/execution/TypeFromAST.java:12-19 | resolving the AST form of a type whose names are declared gives that type back |
| PropertyDataFetcher.ToUpper | src/main/java/graphql/schema/PropertyDataFetcher.java:84 | upper-casing maps a lower-case ASCII letter to its capital and leaves every other character alone |
| PropertyDataFetcher.GetterName | src/main/java/graphql/schema/PropertyDataFetcher.java:84 | the getter name is the prefix, the capitalised first letter and the rest of the property name; an empty property name throws IndexOutOfBoundsException |
| PropertyDataFetcher.GetterNameIgnoresFirstCase | src/main/java/graphql/schema/PropertyDataFetcher.java:84 | a property name and its capitalised form give the same getter name |
| PropertyDataFetcher.IsBooleanProperty | src/main/java/graphql/schema/PropertyDataFetcher.java:95-101 | a property is Boolean exactly when its type is Boolean or non-null Boolean |
| PropertyDataFetcher.Get | src/main/java/graphql/schema/PropertyDataFetcher.java:34-41 | a null source gives null; a map source gives the entry under the property name, or null |
| PropertyDataFetcher.Prefixes | src/main/java/graphql/schema/PropertyDataFetcher.java:67-81 | a Boolean property tries "is" and then "get"; any other tries only "get" |
| PropertyDataFetcher.FirstGetterIsGetter | src/main/java/graphql/schema/PropertyDataFetcher.java:83-92 | a value found through a getter is the value of one of the source's getters |
| PropertyDataFetcher.GetLookupOrder | src/main/java/graphql/schema/PropertyDataFetcher.java:34-112 | on a bean, an empty name throws; otherwise the first getter found by the prefixes wins, and only when none exists is the public field read |
| PropertyDataFetcher.GetPrefersIsForBoolean | src/main/java/graphql/schema/PropertyDataFetcher.java:67-81 | when both getters exist, a Boolean property reads the "is" getter and any other property the "get" getter |
| PropertyDataFetcher.GetReturnsPart | src/main/java/graphql/schema/PropertyDataFetcher.java:34-112 | a non-null fetched value is part of the source |
| DirectivesUtil.GraphQLDirective.GetArgument | src/main/java/graphql/DirectivesUtil.java:22 | the argument found has the requested name and belongs to the directive; none is found only when no argument has that name |
| DirectivesUtil.FirstNamed | src/main/java/graphql/DirectivesUtil.java:14-16 | the position of the first directive with that name, or none when no directive has it |
| DirectivesUtil.DirectivesByNameKeepsFirst | src/main/java/graphql/DirectivesUtil.java:14-16 | the map holds a name exactly when some directive has it, and then holds the first such directive |
| DirectivesUtil.DirectiveWithArgFound | src/main/java/graphql/DirectivesUtil.java:18-25 | the result is empty when no directive has the name, and otherwise is that directive's argument of the requested name |
| DirectivesUtil.AtFetchFromRenames | src/main/java/graphql/DirectivesUtil.java:27-31 | without a @fetch directive or without its "from" argument the field name is kept; with a string "from" argument the field reads that name instead |
| GraphQLArgumentModel.GraphQLArgument.Init | src/main/java/graphql/schema/GraphQLArgument.java:116-127 | the private constructor stores every given part and starts with no replaced type |
| GraphQLArgumentModel.GraphQLArgument.GetType | src/main/java/graphql/schema/GraphQLArgument.java:139-141 | the type is the replaced type when one was set, and the original type otherwise |
| GraphQLArgumentModel.GraphQLArgument.ReplaceType | src/main/java/graphql/schema/GraphQLArgument.java:130-132 | after replaceType the argument reports the new type |
| GraphQLArgumentModel.GraphQLArgument.GetDefaultValue | src/main/java/graphql/schema/GraphQLArgument.java:150-156 | the default value is never the sentinel: it is the stored default when one was set, and null otherwise |
| GraphQLArgumentModel.DefaultValueReported | src/main/java/graphql/schema/GraphQLArgument.java:150-156 | hasSetDefaultValue holds exactly when the stored default is not the sentinel; getDefaultValue is null exactly when the default is unset or null |
| GraphQLArgumentModel.GraphQLArgument.Copy | src/main/java/graphql/schema/GraphQLArgument.java:229-231 | copy through a builder keeps name, original type, description, default value, value and whether a default was set |
| GraphQLArgumentModel.Create | src/main/java/graphql/schema/GraphQLArgument.java:116-127 | the constructor succeeds exactly on a valid name and a present type; it fails with the name assertion's error first and "type can't be null" second, and on success holds exactly the given parts |
| GraphQLArgumentModel.NewArgumentWithDefault | src/main/java/graphql/schema/GraphQLArgument.java:87-89 | the deprecated four-argument constructor gives an argument whose default is set to the given value and whose value is null |
| GraphQLArgumentModel.NewArgument | src/main/java/graphql/schema/GraphQLArgument.java:99-101 | the deprecated two-argument constructor gives an argument with no default set, so getDefaultValue is null |
| GraphQLArgumentModel.CopiedState | src/main/java/graphql/schema/GraphQLArgument.java:313-323 | a copied value is in the LITERAL state exactly when it is an AST literal, and in the INTERNAL_VALUE state otherwise |
| GraphQLArgumentModel.Builder.constructor | src/main/java/graphql/schema/GraphQLArgument.java:290-308 | a new builder has nothing set: no name, type, description or deprecation, and the sentinel for both value and default with state NOT_SET |
| GraphQLArgumentModel.Builder.FromExisting | src/main/java/graphql/schema/GraphQLArgument.java:310-329 | a builder from an existing argument takes its name, original type, description, deprecation, value and default, each state set by whether the value is a literal |
| GraphQLArgumentModel.Builder.Name | src/main/java/graphql/schema/GraphQLArgument.java:332-335 | sets the name and nothing else |
| GraphQLArgumentModel.Builder.Type | src/main/java/graphql/schema/GraphQLArgument.java:359-362 | sets the type and nothing else |
| GraphQLArgumentModel.Builder.DefaultValue | src/main/java/graphql/schema/GraphQLArgument.java:372-376 | sets the default with state INTERNAL_VALUE and nothing else |
| GraphQLArgumentModel.Builder.DefaultValueLiteral | src/main/java/graphql/schema/GraphQLArgument.java:383-387 | a null literal fails with "defaultValue can't be null" and changes nothing; otherwise sets the default with state LITERAL |
| GraphQLArgumentModel.Builder.DefaultValueProgrammatic | src/main/java/graphql/schema/GraphQLArgument.java:394-398 | sets the default with state EXTERNAL_VALUE and nothing else |
| GraphQLArgumentModel.Builder.ClearDefaultValue | src/main/java/graphql/schema/GraphQLArgument.java:405-409 | puts back the sentinel with state NOT_SET |
| GraphQLArgumentModel.Builder.Value | src/main/java/graphql/schema/GraphQLArgument.java:419-423 | sets the value with state INTERNAL_VALUE and nothing else |
| GraphQLArgumentModel.Builder.ValueLiteral | src/main/java/graphql/schema/GraphQLArgument.java:430-434 | as written, the value field ends up holding the LITERAL state constant and the value state is left as it was |
| GraphQLArgumentModel.Builder.ValueProgrammatic | src/main/java/graphql/schema/GraphQLArgument.java:441-445 | as written, the value field ends up holding the EXTERNAL_VALUE state constant and the value state is left as it was |
| GraphQLArgumentModel.Builder.ValueLiteralIntended | src/main/java/graphql/schema/GraphQLArgument.java:430-434 | the evidently intended valueLiteral: stores the literal with state LITERAL |
| GraphQLArgumentModel.Builder.ClearValue | src/main/java/graphql/schema/GraphQLArgument.java:452-456 | sets the value to null with state NOT_SET |
| GraphQLArgumentModel.Builder.Build | src/main/java/graphql/schema/GraphQLArgument.java:495-514 | a missing type fails with "type can't be null" and changes nothing; otherwise externally given values are converted to literals, and the build succeeds exactly on a valid name, giving an argument of the builder's settings |
| GraphQLArgumentModel.Builder.ConvertExternal | src/main/java/graphql/schema/GraphQLArgument.java:497-502 | only a value or default in the EXTERNAL_VALUE state is converted; the other settings stay |
| GraphQLArgumentModel.Converted | src/main/java/graphql/schema/GraphQLArgument.java:497-502 | a value in any state but EXTERNAL_VALUE is kept as it is |
| GraphQLArgumentModel.ValueLiteralIsLost | src/main/java/graphql/schema/GraphQLArgument.java:430-434 | building after valueLiteral gives an argument whose value is the state constant, not the literal passed in |
| GraphQLArgumentModel.ValueLiteralIntendedIsKept | src/main/java/graphql/schema/GraphQLArgument.java:430-434 | with the intended valueLiteral, the built argument's value is the literal passed in |
| GraphQLInputObjectFieldModel.GraphQLInputObjectField.Init | src/main/java/graphql/schema/GraphQLInputObjectField.java:52-73 | the private constructor stores every given part and starts with no replaced type |
| GraphQLInputObjectFieldModel.GraphQLInputObjectField.GetType | src/main/java/graphql/schema/GraphQLInputObjectField.java:84-86 | the type is the replaced type when one was set, and the original type otherwise |
| GraphQLInputObjectFieldModel.GraphQLInputObjectField.ReplaceType | src/main/java/graphql/schema/GraphQLInputObjectField.java:75-77 | after replaceType the field reports the new type |
| GraphQLInputObjectFieldModel.GraphQLInputObjectField.Copy | src/main/java/graphql/schema/GraphQLInputObjectField.java:165-167 | copy through a builder keeps name, original type, description, default value, its state and whether a default was set |
| GraphQLInputObjectFieldModel.Create | src/main/java/graphql/schema/GraphQLInputObjectField.java:52-73 | the constructor succeeds exactly on a valid name and a present type; it fails with the name assertion's error first and "type can't be null" second, and on success holds exactly the given parts |
| GraphQLInputObjectFieldModel.Builder.constructor | src/main/java/graphql/schema/GraphQLInputObjectField.java:245-255 | a new builder has nothing set and a null default in state NOT_SET |
| GraphQLInputObjectFieldModel.Builder.FromExisting | src/main/java/graphql/schema/GraphQLInputObjectField.java:257-266 | a builder from an existing field takes its name, description, original type, deprecation, default value and default state |
| GraphQLInputObjectFieldModel.Builder.Name | src/main/java/graphql/schema/GraphQLInputObjectField.java:269-272 | sets the name and nothing else |
| GraphQLInputObjectFieldModel.Builder.Type | src/main/java/graphql/schema/GraphQLInputObjectField.java:300-303 | sets the type and nothing else |
| GraphQLInputObjectFieldModel.Builder.Deprecate | src/main/java/graphql/schema/GraphQLInputObjectField.java:291-294 | sets the deprecation reason and nothing else |
| GraphQLInputObjectFieldModel.Builder.DefaultValue | src/main/java/graphql/schema/GraphQLInputObjectField.java:313-317 | sets the default with state INTERNAL_VALUE and nothing else |
| GraphQLInputObjectFieldModel.Builder.DefaultValueLiteral | src/main/java/graphql/schema/GraphQLInputObjectField.java:319-323 | sets the default with state LITERAL and nothing else |
| GraphQLInputObjectFieldModel.Builder.DefaultValueProgrammatic | src/main/java/graphql/schema/GraphQLInputObjectField.java:325-329 | sets the default with state EXTERNAL_VALUE and nothing else |
| GraphQLInputObjectFieldModel.Builder.ClearDefaultValue | src/main/java/graphql/schema/GraphQLInputObjectField.java:331-335 | sets the default to null with state NOT_SET |
| GraphQLInputObjectFieldModel.Builder.Build | src/main/java/graphql/schema/GraphQLInputObjectField.java:374-385 | a missing type fails with "type can't be null"; the build succeeds exactly on a present type and a valid name, giving a field of the builder's settings |
| GraphQLInputObjectFieldModel.SetThenBuild | src/main/java/graphql/schema/GraphQLInputObjectField.java:313-335 | after each of the four default setters a build holds that default and its state, and hasSetDefaultValue is false only after clearDefaultValue |
| GraphQLNonNullModel.GraphQLNonNull.Init | src/main/java/graphql/schema/GraphQLNonNull.java:38-41 | a new non-null type wraps the given type |
| GraphQLNonNullModel.Create | src/main/java/graphql/schema/GraphQLNonNull.java:32-41 | wrapping fails with "wrappedType can't be null" exactly when no type is given, and otherwise gives a fresh wrapper of that type |
| GraphQLNonNullModel.GraphQLNonNull.ReplaceType | src/main/java/graphql/schema/GraphQLNonNull.java:49-51 | replaceType sets the wrapped type, null included |
| GraphQLNonNullModel.GraphQLNonNull.Equals | src/main/java/graphql/schema/GraphQLNonNull.java:53-62 | equals holds of the object itself and never of null |
| GraphQLNonNullModel.GraphQLNonNull.HashCode | src/main/java/graphql/schema/GraphQLNonNull.java:64-67 | the hash is the wrapped type's hash, or 0 when the wrapped type is null |
| GraphQLNonNullModel.GraphQLNonNull.GetName | src/main/java/graphql/schema/GraphQLNonNull.java:76-79 | a non-null type has no name |
| GraphQLNonNullModel.GraphQLNonNull.GetChildren | src/main/java/graphql/schema/GraphQLNonNull.java:86-89 | the only child is the wrapped type |
| GraphQLNonNullModel.GraphQLNonNull.ToString | src/main/java/graphql/schema/GraphQLNonNull.java:69-74 | the text starts with "GraphQLNonNull{wrappedType=" and ends with a closing brace |
| GraphQLNonNullModel.EqualsIsEquivalence | src/main/java/graphql/schema/GraphQLNonNull.java:53-62 | equals is reflexive, symmetric and transitive, and false against null |
| GraphQLNonNullModel.EqualsAgreesWithHashCode | src/main/java/graphql/schema/GraphQLNonNull.java:53-67 | equal non-null types have equal hashes |
| GraphQLNonNullModel.EqualsByWrappedType | src/main/java/graphql/schema/GraphQLNonNull.java:53-62 | two wrappers of the same type are equal, and wrappers of different types are not |
| GraphQLNonNullModel.ReplacedByNullStillEqual | src/main/java/graphql/schema/GraphQLNonNull.java:49-67 | after replaceType(null) two wrappers are equal and hash to 0 |
| GraphQLObjectTypeModel.DefinitionMap | src/main/java/graphql/schema/GraphQLObjectType.java:52-59 | the map built from the field definitions is well formed, or the error of the first repeated name |
| GraphQLObjectTypeModel.DefinitionMapIndexesByName | src/main/java/graphql/schema/GraphQLObjectType.java:52-59 | building succeeds exactly when the field names are distinct, and then the map's keys are the names in declaration order |
| GraphQLObjectTypeModel.DefinitionMapKeys | src/main/java/graphql/schema/GraphQLObjectType.java:52-59 | a built map's keys are the field names in declaration order |
| GraphQLObjectTypeModel.DefinitionMapKeepsDefinitions | src/main/java/graphql/schema/GraphQLObjectType.java:52-59 | a built map gives every field definition under its own name |
| GraphQLObjectTypeModel.DefinitionMapReportsFirstRedefinition | src/main/java/graphql/schema/GraphQLObjectType.java:52-59 | a failed build reports "field <name> redefined" for the first definition whose name was already seen |
| GraphQLObjectTypeModel.DefinitionMapStep | src/main/java/graphql/schema/GraphQLObjectType.java:53-58 | one loop step throws on a name already in the map and otherwise adds the definition under its name |
| GraphQLObjectTypeModel.NamesKeyTheirDefinitions | src/main/java/graphql/schema/GraphQLObjectType.java:52-59 | every definition in a built map is stored under its own name |
| GraphQLObjectTypeModel.FieldDefinitionsInDeclarationOrder | src/main/java/graphql/schema/GraphQLObjectType.java:66-68 | with distinct names, the map's values are the field definitions in declaration order |
| GraphQLObjectTypeModel.TypesOnly | src/main/java/graphql/schema/GraphQLObjectType.java:71-78 | the unresolved interfaces list holds exactly the entries that are interface types, not references, and no more than there are entries |
| GraphQLObjectTypeModel.TypesOnlyInOrder | src/main/java/graphql/schema/GraphQLObjectType.java:71-78 | the list keeps the interface-type entries in their order, duplicates included, and nothing else |
| GraphQLObjectTypeModel.GraphQLObjectType.Init | src/main/java/graphql/schema/GraphQLObjectType.java:32-43 | a new object type holds its name, description and unresolved interfaces, with an empty field map and no resolved interfaces |
| GraphQLObjectTypeModel.GraphQLObjectType.BuildDefinitionMap | src/main/java/graphql/schema/GraphQLObjectType.java:52-59 | the loop fills the field map exactly as the definition map gives, or throws its error |
| GraphQLObjectTypeModel.GraphQLObjectType.GetFieldDefinition | src/main/java/graphql/schema/GraphQLObjectType.java:61-63 | a field definition is found exactly when its name is a key, and it carries that name |
| GraphQLObjectTypeModel.GraphQLObjectType.GetFieldDefinitions | src/main/java/graphql/schema/GraphQLObjectType.java:66-68 | the definitions come back one per key, in key order |
| GraphQLObjectTypeModel.GraphQLObjectType.GetInterfaces | src/main/java/graphql/schema/GraphQLObjectType.java:71-80 | resolved interfaces are returned once resolved; before that, the unresolved entries that are interface types, in their order, duplicates included |
| GraphQLObjectTypeModel.GraphQLObjectType.ReplaceTypeReferences | src/main/java/graphql/schema/GraphQLObjectType.java:45-50 | every unresolved interface is resolved, in order, and the field map is unchanged |
| GraphQLObjectTypeModel.Create | src/main/java/graphql/schema/GraphQLObjectType.java:32-43 | construction succeeds exactly on a valid name and distinct field names, reporting the name error first and the redefinition second |
| GraphQLObjectTypeModel.Builder.constructor | src/main/java/graphql/schema/GraphQLObjectType.java:105-114 | a new builder has no name or description and empty field and interface lists |
| GraphQLObjectTypeModel.Builder.Name | src/main/java/graphql/schema/GraphQLObjectType.java:116-119 | sets the name and nothing else |
| GraphQLObjectTypeModel.Builder.Field | src/main/java/graphql/schema/GraphQLObjectType.java:131-135 | appends one field definition and changes nothing else |
| GraphQLObjectTypeModel.Builder.Fields | src/main/java/graphql/schema/GraphQLObjectType.java:168-172 | appends the field definitions in order and changes nothing else |
| GraphQLObjectTypeModel.Builder.WithInterface | src/main/java/graphql/schema/GraphQLObjectType.java:174-178 | appends one interface type and changes nothing else |
| GraphQLObjectTypeModel.Builder.WithInterfaceReference | src/main/java/graphql/schema/GraphQLObjectType.java:180-184 | appends one type reference and changes nothing else |
| GraphQLObjectTypeModel.Builder.WithInterfaces | src/main/java/graphql/schema/GraphQLObjectType.java:186-191 | appends the interface types in order, keeping the earlier ones |
| GraphQLObjectTypeModel.Builder.Build | src/main/java/graphql/schema/GraphQLObjectType.java:200-202 | builds exactly when the name is valid and the field names distinct, with the builder's interfaces and the definition map of its fields |
| GraphQLFieldDefinitionModel.WithMapResolver | src/main/java/graphql/schema/GraphQLFieldDefinition.java:14-23 | the two-argument constructor keeps name and type, and its resolver returns the source map's entry under the field's name, or null |
| GraphQLFieldDefinitionModel.WithResolver | src/main/java/graphql/schema/GraphQLFieldDefinition.java:25-29 | the three-argument constructor keeps name and type and resolves exactly as the given resolver does |
| GraphQLFieldDefinitionModel.WithValue | src/main/java/graphql/schema/GraphQLFieldDefinition.java:31-40 | the value constructor keeps name and type and resolves to the value whatever the source and arguments |
| GraphQLFieldDefinitionModel.MapResolverReadsOwnEntry | src/main/java/graphql/schema/GraphQLFieldDefinition.java:17-22 | the map resolver fails on a null source and on a source that is not a map, finds the entry under the field's name, and gives null when no entry has it |
| GraphQLFieldDefinitionModel.ConstantResolversAgree | src/main/java/graphql/schema/GraphQLFieldDefinition.java:34-39 | the value resolver gives the same result for any two sources and argument lists |
| FieldNode.NewField | src/main/java/graphql/language/Field.java:50-56 | the full constructor stores name, alias, arguments, directives and selection set, with no source location and no comments |
| FieldNode.NewEmptyField | src/main/java/graphql/language/Field.java:25-27 | the no-argument constructor gives a field with nothing set and empty argument and directive lists |
| FieldNode.NewNamedField | src/main/java/graphql/language/Field.java:29-31 | only the name is set; the lists are empty |
| FieldNode.NewFieldWithSelectionSet | src/main/java/graphql/language/Field.java:33-35 | only the name and selection set are set |
| FieldNode.NewFieldWithArguments | src/main/java/graphql/language/Field.java:38-40 | only the name and arguments are set |
| FieldNode.NewFieldWithDirectives | src/main/java/graphql/language/Field.java:42-44 | only the name, arguments and directives are set |
| FieldNode.NewFieldWithArgumentsAndSelectionSet | src/main/java/graphql/language/Field.java:46-48 | only the name, arguments and selection set are set |
| FieldNode.GetChildren | src/main/java/graphql/language/Field.java:58-65 | the children are the arguments, then the directives, then the selection set when present, and never a null |
| FieldNode.ChildrenDetermineSubtrees | src/main/java/graphql/language/Field.java:58-65 | two fields with the same children have the same arguments, directives and selection set |
| FieldNode.LeadingArgumentsOf | src/main/java/graphql/language/Field.java:61 | the arguments can be counted back from the front of the children |
| FieldNode.LeadingDirectivesOf | src/main/java/graphql/language/Field.java:62 | the directives can be counted back from the front of what follows the arguments |
| FieldNode.IsEqualToIgnoresChildren | src/main/java/graphql/language/Field.java:91-99 | isEqualTo compares only name and alias: a field equals itself and any field that differs only in arguments, directives or selection set |
| FieldNode.DeepCopy | src/main/java/graphql/language/Field.java:101-109 | the copy is isEqualTo the original both ways and has the same subtrees, but no source location or comments |
| FieldNode.Builder.constructor | src/main/java/graphql/language/Field.java:131-141 | a new builder holds a field with nothing set and empty lists |
| FieldNode.Builder.SetSourceLocation | src/main/java/graphql/language/Field.java:144-147 | sets the source location and nothing else |
| FieldNode.Builder.SetComments | src/main/java/graphql/language/Field.java:149-152 | sets the comments and nothing else |
| FieldNode.Builder.Name | src/main/java/graphql/language/Field.java:154-157 | sets the name and nothing else |
| FieldNode.Builder.Alias | src/main/java/graphql/language/Field.java:159-162 | sets the alias and nothing else |
| FieldNode.Builder.Arguments | src/main/java/graphql/language/Field.java:164-167 | sets the arguments and nothing else |
| FieldNode.Builder.Directives | src/main/java/graphql/language/Field.java:169-172 | sets the directives and nothing else |
| FieldNode.Builder.SelectionSet | src/main/java/graphql/language/Field.java:174-177 | sets the selection set and nothing else |
| FieldNode.Builder.Build | src/main/java/graphql/language/Field.java:179-184 | the built field holds every builder setting, source location and comments included |
| FieldNode.BuildThenCopy | src/main/java/graphql/language/Field.java:101-109 | a built field and its deep copy are isEqualTo, but only the built one keeps the source location |
| InlineFragmentNode.InlineFragment.constructor | src/main/java/graphql/language/InlineFragment.java:11-13 | a new inline fragment has no type condition, no directive list and no selection set |
| InlineFragmentNode.InlineFragment.WithTypeCondition | src/main/java/graphql/language/InlineFragment.java:15-17 | only the type condition is set |
| InlineFragmentNode.InlineFragment.Init | src/main/java/graphql/language/InlineFragment.java:19-23 | the type condition, directives and selection set are set as given |
| InlineFragmentNode.InlineFragment.WithSelectionSet | src/main/java/graphql/language/InlineFragment.java:25-28 | the type condition and selection set are set and the directive list stays null |
| InlineFragmentNode.InlineFragment.SetTypeCondition | src/main/java/graphql/language/InlineFragment.java:35-37 | sets the type condition and nothing else |
| InlineFragmentNode.InlineFragment.SetDirectives | src/main/java/graphql/language/InlineFragment.java:43-45 | sets the directive list and nothing else |
| InlineFragmentNode.InlineFragment.SetSelectionSet | src/main/java/graphql/language/InlineFragment.java:51-53 | sets the selection set and nothing else |
| InlineFragmentNode.InlineFragment.Equals | src/main/java/graphql/language/InlineFragment.java:55-67 | equals never holds against null; the values' and the selection set's own equals are parameters |
| InlineFragmentNode.InlineFragment.HashCode | src/main/java/graphql/language/InlineFragment.java:69-75 | the hash is a 32-bit value, and 0 for a fragment with all three fields null |
| InlineFragmentNode.EqualsAgreesWithHashCode | src/main/java/graphql/language/InlineFragment.java:55-75 | given values and selection sets whose equals is an equivalence agreeing with their hashCode, equals is reflexive, symmetric and transitive, and equal fragments have equal hashes |
| InlineFragmentNode.SelectionSetsDecide | src/main/java/graphql/language/InlineFragment.java:55-67 | two fragment objects whose selection sets the selection set's equals tells apart are not equal, as for two distinct `SelectionSet` objects under identity |
| InlineFragmentNode.NullAndEmptyDirectivesDiffer | src/main/java/graphql/language/InlineFragment.java:64 | a fragment with an empty directive list is not equal to one whose directive list is null |
| DirectiveNode.StateHash | src/main/java/graphql/language/Directive.java:46-50 | a directive's hash is a 32-bit value, and 0 when name and value are both null |
| DirectiveNode.ListHash | src/main/java/graphql/language/InlineFragment.java:72 | the hash of an empty directive list is 1, as List.hashCode gives |
| DirectiveNode.Directive.constructor | src/main/java/graphql/language/Directive.java:8-10 | a new directive has no name and no value |
| DirectiveNode.Directive.Init | src/main/java/graphql/language/Directive.java:12-15 | the name and value are set as given |
| DirectiveNode.Directive.SetName | src/main/java/graphql/language/Directive.java:21-23 | sets the name and leaves the value |
| DirectiveNode.Directive.SetValue | src/main/java/graphql/language/Directive.java:29-31 | sets the value and leaves the name |
| DirectiveNode.Directive.Equals | src/main/java/graphql/language/Directive.java:33-43 | equals never holds against null; the value's own equals is a parameter |
| DirectiveNode.Directive.HashCode | src/main/java/graphql/language/Directive.java:45-50 | the hash depends only on the directive's name and value |
| DirectiveNode.EqualsMeaning | src/main/java/graphql/language/Directive.java:33-50 | given a value equals that is an equivalence agreeing with the value hash, equals is reflexive and symmetric, directives with the same name and value are equal, and equal directives hash alike |
| DirectiveNode.ContentEqualsIsSameState | src/main/java/graphql/language/Directive.java:33-43 | when the values compare by content, two directives are equal exactly when their names and values are the same |
| DirectiveNode.DistinctValuesDiffer | src/main/java/graphql/language/Directive.java:33-43 | two directive objects whose values the value's equals tells apart are not equal, as for the identity-equal enum, Boolean and float values |
| DirectiveNode.ListHashAgrees | src/main/java/graphql/language/Directive.java:33-50 | directive lists that are equal element by element have the same list hash |
| DirectiveNode.SettersCopyState | src/main/java/graphql/language/Directive.java:21-43 | setting one directive's name and value to another's makes them equal and leaves the other as it was |
| VariableReferenceNode.VariableReference.constructor | src/main/java/graphql/language/VariableReference.java:11-13 | a new variable reference holds the given name |
| VariableReferenceNode.VariableReference.SetName | src/main/java/graphql/language/VariableReference.java:19-21 | sets the name |
| VariableReferenceNode.VariableReference.GetChildren | src/main/java/graphql/language/VariableReference.java:23-26 | a variable reference has no children |
| VariableReferenceNode.VariableReference.Equals | src/main/java/graphql/language/VariableReference.java:28-37 | equals never holds against null |
| VariableReferenceNode.VariableReference.HashCode | src/main/java/graphql/language/VariableReference.java:41-44 | the hash is the name's String.hashCode, or 0 for a null name |
| VariableReferenceNode.EqualsAgreesWithHashCode | src/main/java/graphql/language/VariableReference.java:28-44 | equals is symmetric and equal references have equal hashes |
| VariableReferenceNode.RenameToMatch | src/main/java/graphql/language/VariableReference.java:19-37 | renaming one reference to another's name makes them equal and leaves the other unchanged |
| EnumValueNode.EnumValue.constructor | src/main/java/graphql/language/EnumValue.java:11-13 | a new enum value holds the given name |
| EnumValueNode.EnumValue.SetName | src/main/java/graphql/language/EnumValue.java:19-21 | sets the name |
| EnumValueNode.EnumValue.GetChildren | src/main/java/graphql/language/EnumValue.java:24-27 | an enum value has no children |
| EnumValueNode.EnumValue.IsEqualTo | src/main/java/graphql/language/EnumValue.java:29-37 | isEqualTo never holds against null |
| EnumValueNode.EnumValue.DeepCopy | src/main/java/graphql/language/EnumValue.java:39-42 | the copy is a fresh node with the same name, isEqualTo the original both ways |
| EnumValueNode.CopyThenRename | src/main/java/graphql/language/EnumValue.java:19-42 | renaming a deep copy leaves the original alone, and the copy stays isEqualTo the original exactly when the new name is the old one |
| BooleanValueNode.NewBooleanValue | src/main/java/graphql/language/BooleanValue.java:29-31 | the convenience constructor holds the value, with no source location, no comments and no ignored characters |
| BooleanValueNode.GetChildren | src/main/java/graphql/language/BooleanValue.java:37-40 | a Boolean value has no children |
| BooleanValueNode.GetNamedChildren | src/main/java/graphql/language/BooleanValue.java:42-45 | its named children container is empty |
| BooleanValueNode.WithNewChildren | src/main/java/graphql/language/BooleanValue.java:47-54 | with no new children the node itself is returned; any new child throws IllegalArgumentException with the source's message |
| BooleanValueNode.DeepCopy | src/main/java/graphql/language/BooleanValue.java:71-74 | the copy keeps value, source location, comments and ignored characters, and is isEqualTo the original |
| BooleanValueNode.Builder.constructor | src/main/java/graphql/language/BooleanValue.java:103-110 | a new builder holds false with no location, no comments and no ignored characters |
| BooleanValueNode.Builder.FromExisting | src/main/java/graphql/language/BooleanValue.java:112-117 | a builder from an existing node holds exactly that node |
| BooleanValueNode.Builder.Apply | src/main/java/graphql/language/BooleanValue.java:120-138 | each setter changes only its own part of the node being built |
| BooleanValueNode.Builder.Build | src/main/java/graphql/language/BooleanValue.java:140-143 | the built node holds exactly the builder's settings |
| BooleanValueNode.NewBooleanValueBuilt | src/main/java/graphql/language/BooleanValue.java:93-95 | a builder started with a value builds a node of that value with no location and no comments |
| BooleanValueNode.Transform | src/main/java/graphql/language/BooleanValue.java:97-101 | transform gives the node with the setter calls applied in order |
| BooleanValueNode.TransformKeepsValue | src/main/java/graphql/language/BooleanValue.java:97-101 | a transform that never sets the value keeps it, and an empty transform gives the node back |
| BooleanValueNode.TransformLastValueWins | src/main/java/graphql/language/BooleanValue.java:97-128 | after a final value setter the node holds that value and is isEqualTo a fresh node of it |
| FloatValueNode.GetChildren | src/main/java/graphql/language/FloatValue.java:27-30 | a Float value has no children |
| FloatValueNode.IsEqualToComparesScale | src/main/java/graphql/language/FloatValue.java:39-48 | values equal in number but of different scale are not isEqualTo, as BigDecimal.equals compares scale |
| FloatValueNode.DeepCopy | src/main/java/graphql/language/FloatValue.java:50-53 | the copy keeps value, source location and comments, and is isEqualTo the original |
| FloatValueNode.Builder.constructor | src/main/java/graphql/language/FloatValue.java:64-70 | a new builder has no value, no location and no comments |
| FloatValueNode.Builder.SetSourceLocation | src/main/java/graphql/language/FloatValue.java:73-76 | sets the source location and nothing else |
| FloatValueNode.Builder.Value | src/main/java/graphql/language/FloatValue.java:78-81 | sets the value and nothing else |
| FloatValueNode.Builder.SetComments | src/main/java/graphql/language/FloatValue.java:83-86 | sets the comments and nothing else |
| FloatValueNode.Builder.Build | src/main/java/graphql/language/FloatValue.java:88-91 | the built node holds exactly the builder's settings |
| FloatValueNode.BuildWithValue | src/main/java/graphql/language/FloatValue.java:39-91 | a node built with a value is isEqualTo another exactly when the other holds that same value |
| VariableDefinitionNode.GetChildren | src/main/java/graphql/language/VariableDefinition.java:42-48 | the children are the type, followed by the default value only when there is one |
| VariableDefinitionNode.ChildrenDetermineTypeAndDefault | src/main/java/graphql/language/VariableDefinition.java:42-48 | two variable definitions with the same children have the same type and default value |
| VariableDefinitionNode.DeepCopy | src/main/java/graphql/language/VariableDefinition.java:61-69 | the copy keeps every part, source location and comments included, and is isEqualTo the original |
| VariableDefinitionNode.Builder.constructor | src/main/java/graphql/language/VariableDefinition.java:90-98 | a new builder has nothing set and no comments |
| VariableDefinitionNode.Builder.SetSourceLocation | src/main/java/graphql/language/VariableDefinition.java:101-104 | sets the source location and nothing else |
| VariableDefinitionNode.Builder.Name | src/main/java/graphql/language/VariableDefinition.java:106-109 | sets the name and nothing else |
| VariableDefinitionNode.Builder.SetComments | src/main/java/graphql/language/VariableDefinition.java:111-114 | sets the comments and nothing else |
| VariableDefinitionNode.Builder.Type | src/main/java/graphql/language/VariableDefinition.java:116-119 | sets the type and nothing else |
| VariableDefinitionNode.Builder.DefaultValue | src/main/java/graphql/language/VariableDefinition.java:121-124 | sets the default value and nothing else |
| VariableDefinitionNode.Builder.Build | src/main/java/graphql/language/VariableDefinition.java:126-135 | the built node holds exactly the builder's settings |
| VariableDefinitionNode.BuildWithoutDefault | src/main/java/graphql/language/VariableDefinition.java:42-48 | a variable definition built without a default has its type as its only child |
| InputValueDefinitionNode.GetChildren | src/main/java/graphql/language/InputValueDefinition.java:58-65 | the children are the type, the default value and then the directives; a missing default value still takes its place as a null |
| InputValueDefinitionNode.ChildrenDetermineSubtrees | src/main/java/graphql/language/InputValueDefinition.java:58-65 | two input value definitions with the same children have the same type, default value and directives |
| InputValueDefinitionNode.DeepCopy | src/main/java/graphql/language/InputValueDefinition.java:77-86 | the copy keeps every part, description, source location and comments included, and is isEqualTo the original |
| InputValueDefinitionNode.Builder.constructor | src/main/java/graphql/language/InputValueDefinition.java:107-117 | a new builder has nothing set and empty comment and directive lists |
| InputValueDefinitionNode.Builder.SetSourceLocation | src/main/java/graphql/language/InputValueDefinition.java:120-123 | sets the source location and nothing else |
| InputValueDefinitionNode.Builder.SetComments | src/main/java/graphql/language/InputValueDefinition.java:125-128 | sets the comments and nothing else |
| InputValueDefinitionNode.Builder.Name | src/main/java/graphql/language/InputValueDefinition.java:130-133 | sets the name and nothing else |
| InputValueDefinitionNode.Builder.Type | src/main/java/graphql/language/InputValueDefinition.java:135-138 | sets the type and nothing else |
| InputValueDefinitionNode.Builder.DefaultValue | src/main/java/graphql/language/InputValueDefinition.java:140-143 | sets the default value and nothing else |
| InputValueDefinitionNode.Builder.SetDescription | src/main/java/graphql/language/InputValueDefinition.java:145-148 | sets the description and nothing else |
| InputValueDefinitionNode.Builder.Directives | src/main/java/graphql/language/InputValueDefinition.java:150-153 | sets the directives and nothing else |
| InputValueDefinitionNode.Builder.Build | src/main/java/graphql/language/InputValueDefinition.java:155-164 | the built node holds exactly the builder's settings |
| InputValueDefinitionNode.BuildWithoutDefault | src/main/java/graphql/language/InputValueDefinition.java:58-65 | an input value definition built without a default or directives has its type and a null as children |
| ScalarTypeDefinitionNode.NewScalarTypeDefinition | src/main/java/graphql/language/ScalarTypeDefinition.java:29-31 | the convenience constructor holds the name, with no directives, description, location or comments |
| ScalarTypeDefinitionNode.GetChildren | src/main/java/graphql/language/ScalarTypeDefinition.java:48-53 | the children are the directives, one node each, in order |
| ScalarTypeDefinitionNode.ChildrenAreDirectives | src/main/java/graphql/language/ScalarTypeDefinition.java:48-53 | two scalar definitions have the same children exactly when they have the same directives |
| ScalarTypeDefinitionNode.DeepCopy | src/main/java/graphql/language/ScalarTypeDefinition.java:65-68 | the copy keeps every part, description, source location and comments included, and is isEqualTo the original |
| ScalarTypeDefinitionNode.Builder.constructor | src/main/java/graphql/language/ScalarTypeDefinition.java:87-95 | a new builder has nothing set and empty comment and directive lists |
| ScalarTypeDefinitionNode.Builder.SetSourceLocation | src/main/java/graphql/language/ScalarTypeDefinition.java:98-101 | sets the source location and nothing else |
| ScalarTypeDefinitionNode.Builder.SetComments | src/main/java/graphql/language/ScalarTypeDefinition.java:103-106 | sets the comments and nothing else |
| ScalarTypeDefinitionNode.Builder.Name | src/main/java/graphql/language/ScalarTypeDefinition.java:108-111 | sets the name and nothing else |
| ScalarTypeDefinitionNode.Builder.SetDescription | src/main/java/graphql/language/ScalarTypeDefinition.java:113-116 | sets the description and nothing else |
| ScalarTypeDefinitionNode.Builder.Directives | src/main/java/graphql/language/ScalarTypeDefinition.java:118-121 | sets the directives and nothing else |
| ScalarTypeDefinitionNode.Builder.Build | src/main/java/graphql/language/ScalarTypeDefinition.java:123-130 | the built node holds exactly the builder's settings |
| ScalarTypeDefinitionNode.BuildNamed | src/main/java/graphql/language/ScalarTypeDefinition.java:29-31 | a scalar built from a name alone equals the one the convenience constructor makes |
| DirectiveDefinitionNode.DirectiveDefinition.Init | src/main/java/graphql/language/DirectiveDefinition.java:20-30 | the private constructor keeps the very list objects it is given and starts with no description |
| DirectiveDefinitionNode.DirectiveDefinition.SetDescription | src/main/java/graphql/language/DirectiveDefinition.java:41-43 | sets the description |
| DirectiveDefinitionNode.DirectiveDefinition.GetInputValueDefinitions | src/main/java/graphql/language/DirectiveDefinition.java:45-47 | returns a new list with the same input value definitions |
| DirectiveDefinitionNode.DirectiveDefinition.GetDirectiveLocations | src/main/java/graphql/language/DirectiveDefinition.java:49-51 | returns a new list with the same directive locations |
| DirectiveDefinitionNode.DirectiveDefinition.GetChildren | src/main/java/graphql/language/DirectiveDefinition.java:53-59 | the children are the input value definitions, then the directive locations, each in order |
| DirectiveDefinitionNode.DirectiveDefinition.IsEqualTo | src/main/java/graphql/language/DirectiveDefinition.java:61-69 | isEqualTo never holds against null |
| DirectiveDefinitionNode.DirectiveDefinition.DeepCopy | src/main/java/graphql/language/DirectiveDefinition.java:71-78 | as written, the copy has new lists with the same elements, the same location and comments, is isEqualTo the original, and has no description |
| DirectiveDefinitionNode.DirectiveDefinition.DeepCopyIntended | src/main/java/graphql/language/DirectiveDefinition.java:71-78 | the evidently intended copy also carries the description over |
| DirectiveDefinitionNode.DeepCopyLosesDescription | src/main/java/graphql/language/DirectiveDefinition.java:71-78 | a definition with a description gives a deep copy without one |
| DirectiveDefinitionNode.DeepCopyIntendedKeepsDescription | src/main/java/graphql/language/DirectiveDefinition.java:71-78 | with the intended copy the description survives |
| DirectiveDefinitionNode.Builder.constructor | src/main/java/graphql/language/DirectiveDefinition.java:99-108 | a new builder has nothing set and two new empty lists |
| DirectiveDefinitionNode.Builder.SetSourceLocation | src/main/java/graphql/language/DirectiveDefinition.java:110-113 | sets the source location and nothing else |
| DirectiveDefinitionNode.Builder.SetComments | src/main/java/graphql/language/DirectiveDefinition.java:115-118 | sets the comments and nothing else |
| DirectiveDefinitionNode.Builder.Name | src/main/java/graphql/language/DirectiveDefinition.java:120-123 | sets the name and nothing else |
| DirectiveDefinitionNode.Builder.SetDescription | src/main/java/graphql/language/DirectiveDefinition.java:125-128 | sets the description and nothing else |
| DirectiveDefinitionNode.Builder.InputValueDefinitions | src/main/java/graphql/language/DirectiveDefinition.java:130-133 | the builder takes the caller's list object itself and changes nothing else |
| DirectiveDefinitionNode.Builder.InputValueDefinition | src/main/java/graphql/language/DirectiveDefinition.java:135-138 | appends to whatever input value list the builder holds |
| DirectiveDefinitionNode.Builder.DirectiveLocations | src/main/java/graphql/language/DirectiveDefinition.java:140-143 | the builder takes the caller's list object itself and changes nothing else |
| DirectiveDefinitionNode.Builder.DirectiveLocation | src/main/java/graphql/language/DirectiveDefinition.java:145-148 | appends to whatever location list the builder holds |
| DirectiveDefinitionNode.Builder.Build | src/main/java/graphql/language/DirectiveDefinition.java:150-154 | the built definition shares the builder's lists and holds its name, description, location and comments |
| DirectiveDefinitionNode.AddAfterBuild | src/main/java/graphql/language/DirectiveDefinition.java:135-154 | an input value added through the builder after build shows up among the built definition's children |
| OperationTypeDefinitionNode.NewOperationTypeDefinition | src/main/java/graphql/language/OperationTypeDefinition.java:34-36 | the convenience constructor holds name and type with no location, no comments and no ignored characters |
| OperationTypeDefinitionNode.GetChildren | src/main/java/graphql/language/OperationTypeDefinition.java:47-52 | the only child is the type, a null included |
| OperationTypeDefinitionNode.GetNamedChildren | src/main/java/graphql/language/OperationTypeDefinition.java:54-59 | the named children hold exactly one key, "type", mapped to the children |
| OperationTypeDefinitionNode.DeepCopy | src/main/java/graphql/language/OperationTypeDefinition.java:82-85 | the copy keeps every part and is isEqualTo the original |
| OperationTypeDefinitionNode.Builder.constructor | src/main/java/graphql/language/OperationTypeDefinition.java:110-118 | a new builder has nothing set, no comments and no ignored characters |
| OperationTypeDefinitionNode.Builder.FromExisting | src/main/java/graphql/language/OperationTypeDefinition.java:121-127 | a builder from an existing node holds exactly that node |
| OperationTypeDefinitionNode.Builder.Apply | src/main/java/graphql/language/OperationTypeDefinition.java:130-153 | each setter changes only its own part of the node being built |
| OperationTypeDefinitionNode.Builder.Build | src/main/java/graphql/language/OperationTypeDefinition.java:155-158 | the built node holds exactly the builder's settings |
| OperationTypeDefinitionNode.Transform | src/main/java/graphql/language/OperationTypeDefinition.java:104-108 | transform gives the node with the setter calls applied in order |
| OperationTypeDefinitionNode.WithNewChildren | src/main/java/graphql/language/OperationTypeDefinition.java:61-66 | replacing the children changes only the type, keeps the node isEqualTo the original, and makes the new type its only child |
| OperationTypeDefinitionNode.TransformKeepsName | src/main/java/graphql/language/OperationTypeDefinition.java:68-80 | a transform that never sets the name gives a node isEqualTo the original, and an empty transform gives it back |
| EnumValueDefinitionNode.NewEnumValueDefinition | src/main/java/graphql/language/EnumValueDefinition.java:16-19 | the constructor keeps the name and the directive list, putting an empty list in place of a null one |
| EnumValueDefinitionNode.NewNamedEnumValueDefinition | src/main/java/graphql/language/EnumValueDefinition.java:12-14 | the name-only constructor is the two-argument one with no directives |
| EnumValueDefinitionNode.GetDirective | src/main/java/graphql/language/EnumValueDefinition.java:29-35 | a directive is found exactly when one of that name is declared, and the one found has that name |
| EnumValueDefinitionNode.GetChildren | src/main/java/graphql/language/EnumValueDefinition.java:37-42 | the children are the directives, one node each, in order |
| EnumValueDefinitionNode.ChildrenAreDirectives | src/main/java/graphql/language/EnumValueDefinition.java:37-42 | two enum value definitions have the same children exactly when they have the same directives |
| EnumValueDefinitionNode.IsEqualToComparesNames | src/main/java/graphql/language/EnumValueDefinition.java:44-59 | isEqualTo holds exactly when the names are equal, null included; it is symmetric and ignores the directives |
| ObjectTypeDefinitionNode.ObjectTypeDefinition.constructor | src/main/java/graphql/language/ObjectTypeDefinition.java:16-18 | the name-only constructor gives empty implements, directive and field lists |
| ObjectTypeDefinitionNode.ObjectTypeDefinition.Init | src/main/java/graphql/language/ObjectTypeDefinition.java:20-25 | the full constructor keeps the name and the three lists |
| ObjectTypeDefinitionNode.ObjectTypeDefinition.GetDirective | src/main/java/graphql/language/ObjectTypeDefinition.java:35-41 | a directive is found exactly when one of that name is declared, and the one found has that name |
| ObjectTypeDefinitionNode.ObjectTypeDefinition.SetName | src/main/java/graphql/language/ObjectTypeDefinition.java:52-54 | sets the name |
| ObjectTypeDefinitionNode.ObjectTypeDefinition.GetChildren | src/main/java/graphql/language/ObjectTypeDefinition.java:56-63 | the children are the implemented types, then the directives, then the field definitions |
| ObjectTypeDefinitionNode.ObjectTypeDefinition.IsEqualTo | src/main/java/graphql/language/ObjectTypeDefinition.java:65-72 | isEqualTo never holds against null |
| ObjectTypeDefinitionNode.ObjectTypeDefinition.DeepCopy | src/main/java/graphql/language/ObjectTypeDefinition.java:74-81 | the copy is a fresh node with the same name and the same children, isEqualTo the original |
| ObjectTypeDefinitionNode.RenameAfterCopy | src/main/java/graphql/language/ObjectTypeDefinition.java:52-81 | renaming the original after a deep copy leaves the copy's name alone, and the two stay isEqualTo exactly when the name is unchanged |

## Left out

- Concurrency and futures are not modelled. The asynchronous execution strategies, the reactive publisher and the `CompletableFuture` plumbing in `ValueFetcher` are replaced by their outcomes: a future is completed, completed with an exception, or pending.
- `log.debug` and `System.out.println` in `ValueFetcher` are not modelled, because they are output only.
- The parser and the generated ANTLR lexer are not part of this model. Documents are given as syntax-tree values, and `AstValueHelper.valueFromAst` is left out because it calls the parser.
- `Traverser`, `NodeTraverser` and `TreeTransformerUtil` are not part of this model. `QueryTraversal` keeps its own visited set of fragment definitions in place of the Traverser's visit-once bookkeeping.
- `GraphQL`, `KnownTypeNames`, `GraphQLTypeResolvingVisitor` and `FieldSubSelection` are not part of this model. They are orchestration, or single calls into code that is not shown.
- The interfaces and records with no behaviour, and the Relay test schema, are not part of this model.
- The `Float` scalar is left out, because it works on floating point.
- AstValueHelper.IsNullish: a number counts as NaN only when its decimal text is "NaN", because `doubleValue` is floating point.
- Reflection is not modelled. `PropertyDataFetcher` looks a getter or field up by name in a map given as a parameter, in place of `findAccessibleMethod` and the accessibility search.
- Character case mapping covers ASCII only, in `PropertyDataFetcher.ToUpper` and the Anonymizer's naming rules.
- The glob `PathMatcher` of `DataFetchingFieldSelectionSetImpl.contains` is a function parameter, because it calls java.nio.
- The schema and query transformers, `AstPrinter` and the parser are not modelled. The Anonymizer is modelled through its naming rules, its default-value replacement, its field matching and its query renaming.
- `ConditionalNodes.shouldInclude`, the variable coercion in `ExecutionContextBuilder.build`, `Coercing.serialize`, the AST comparator and the execution strategies are function-typed parameters. Their code is not part of this model.
- `ValuesResolver.getArgumentValues`, the coercion of field arguments, is not modelled, and no parameter stands in for it. A NormalizedField keeps its AST arguments but has no `arguments` or `normalizedArguments` (src/main/java/graphql/normalized/NormalizedQueryTreeFactory.java:326-335).
- QueryTraversal.FieldEnvironment holds neither the coerced argument values (src/main/java/graphql/analysis/QueryTraversal.java:283) nor `isTypeNameIntrospectionField` and `fieldsContainer` (QueryTraversal.java:280-281).
- ValueFetcher.FetchValue: the data-fetching environment built at src/main/java/graphql/execution/nextgen/ValueFetcher.java:102-112 is not modelled. That covers its argument values, its fields container and its `newCollector` selection set; the data fetcher's outcome is a parameter.
- Execution.Execution.ExecuteOperation: `instrumentation.beginDataFetch` (src/main/java/graphql/execution/Execution.java:62) is not called. Neither its instrumentation context nor the NullPointerException a null instrumentation raises is modelled.
- JavaLang.ParseInt accepts the ASCII digits `0` to `9` only. `Integer.parseInt` reads each char with `Character.digit`, which also takes the other Unicode decimal digits, so `Scalars` coerces "١٢" to 12 where the model throws NumberFormatException. The Unicode digit table is not modelled.
- ProvidedNonNullArguments: the errors carry no source location. The Java rule passes the field's or the directive's source location (src/main/java/graphql/validation/rules/ProvidedNonNullArguments.java:48, 55 and 76), but the model's AST `Field` and `Directive` values have none.
- NormalizedQueryTreeFactory.Roots and NormalizedQueryTreeFactory.Children: the bucket of a key is the parameter `bucketOf`, given the key count, because `String.hashCode` and the table's resizing are not computed. HashMap's treeified bins (eight or more keys in one bucket of a large table) are not modelled: such a bucket is still taken in put order.
- The `equals` of AST values and of selection sets is a parameter of `Directive.equals` and `InlineFragment.equals`. `EnumValue`, `BooleanValue`, `FloatValue` and `SelectionSet` do not override `equals`, so the Java comparison is identity for them, which the model cannot express on values.
- `Execution.execute` (src/main/java/graphql/execution/Execution.java:37-43) is not modelled. It only assembles the context builder and instrumentation around `executeOperation`, which is modelled.
- `GraphQLObjectType.Builder.field(UnaryOperator)` and `field(GraphQLFieldDefinition.Builder)` (src/main/java/graphql/schema/GraphQLObjectType.java:149-166) are not modelled, because they only call the field builder, which is not part of this model.
- The `description`, `comparatorRegistry` and `definition` setters of the `GraphQLArgument` and `GraphQLInputObjectField` builders are not modelled. The same goes for their directive setters and for the `type(GraphQLInputObjectType.Builder)` overload. None of these touches the default-value and value states that the model is about.
- `graphql.Assert` checks on null builder arguments and null constructor lists are not modelled. Where a null is possible, it is an `Option`.
- `toString` is modelled only for `GraphQLNonNull` and `ExecutionResultNodePosition`. The nodes' `toString` is left out, because it is debugging output.
- Hash functions of values that are not modelled (AST `Value`s, `List.hashCode`) are parameters or uninterpreted.
- ObjectTypeDefinitionNode.ObjectTypeDefinition.GetDirective: when several directives share the name, the model states only that the result is one of that name. It does not pin down which one `getDirective` returns.
- EnumValueDefinitionNode.GetDirective: when several directives share the name, the model states only that the result is one of that name. It does not pin down which one is returned.
- NormalizedQueryTreeFactory.NormalizedQuery: a `fuel` bound stands for the Java stack. A cyclic fragment, which the Java code recurses into until the stack overflows, ends in `StackOverflowError` once the fuel is spent. Deeper queries than the fuel allows are not modelled.
- DataFetchingFieldSelectionSet.DataFetchingFieldSelectionSetImpl: the nesting depth is bounded by `fuel` in the same way.
- `deepCopy` of a child node gives an equal value, because the model's nodes are immutable values. Fresh list objects are modelled only where the node holds a shared list (`DirectiveDefinition`).
- The GraphQL named types are compared by name. The Java classes use identity, and names are unique within a schema.
- Nodes made by a node's public constructor carry no source location and no comments, as in the Java code. The location and comment setters of builders are modelled only where the node keeps them.

## Findings

| source | as written | input that shows it | evidently intended | confidence | as-written member | corrected member |
|---|---|---|---|---|---|---|
| src/main/java/graphql/util/Anonymizer.java:711-723 | the uniqueness check on operation names skips an anonymous operation that comes first, so a document with an anonymous operation followed by a named one passes | an anonymous query followed by `query A {...}` | a document with more than one operation is rejected, since exactly one operation is allowed | not executed | Anonymizer.AnonymousFirstOperationPasses | Anonymizer.AssertUniqueOperation |
| src/main/java/graphql/schema/GraphQLArgument.java:430-434 | `valueLiteral` assigns the state tag `ValueState.LITERAL` to the value slot and never sets `valueState`, and `valueProgrammatic` (441-445) does the same | `valueLiteral(StringValue("x"))` then `build()` | the value slot holds the literal and the state says LITERAL | not executed | GraphQLArgumentModel.ValueLiteralIsLost | GraphQLArgumentModel.ValueLiteralIntendedIsKept |
| src/main/java/graphql/language/DirectiveDefinition.java:71-78 | `deepCopy` goes through the constructor that takes no description, so the copy loses it | a directive definition whose description is set | the copy keeps the description, like the other definitions' copies | not executed | DirectiveDefinitionNode.DeepCopyLosesDescription | DirectiveDefinitionNode.DeepCopyIntendedKeepsDescription |
