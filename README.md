# ignition-lint, modelled in Dafny

ignition-lint checks Ignition Perspective views. A view is a `view.json` document. The linter flattens the document into path/value pairs, builds a model of the view's nodes from those pairs, and runs a configurable set of rules over the nodes. Nodes are components, bindings, scripts, event handlers and properties. Each rule reports errors and warnings as text, keyed by the rule's class name.

This project models that pipeline and proves properties of it. It has one Dafny module per source file of the core:

- **JSON and Python text** (`JsonValue`, `Dicts`, `PyStr`, `Wrappers`):
  - the decoded JSON values, whose objects are kept as ordered key/value lists;
  - the lookups the source performs on them;
  - the Python string operations the rules use: `startswith`, `in`, `split`, `rsplit`, `replace`, `lower`/`upper`, `splitlines`, `int`/`str` on digits;
  - `Result`/`Option` for the source's exceptions and missing values.
- **Flattening** (`FlatMaps`, `FlatMapClass`, `Flatten`, `FlattenLeaves`, `FlattenProps`, `FlattenExamples`):
  - `flatten_json` and its `_temp` variant;
  - the flattened map is an insertion-ordered dictionary. It is a class whose `Put` keeps the position of an existing key;
  - the recursive flatteners are methods, proved equal to result-valued specification functions;
  - the lemmas state which keys exist and where named list items are rooted;
  - `FlattenExamples` works through the repository's flattening fixtures.
- **The view model** (`Nodes`, `Builder`, `BuilderProps`):
  - the node types and their `accept` dispatch to `visit_<kind>` or `visit_generic`;
  - `ViewModelBuilder`, whose six passes collect components, bindings, scripts, message handlers, custom methods and properties. Each pass is a method proved equal to a function of the flattened pairs;
  - per-key lemmas state what each pass finds.
- **Rule framework** (`RuleBase`, `RuleCommon`, `Registry`):
  - `NodeVisitor` and `LintingRule`, with `process_nodes`: reset the errors, visit the applicable nodes in order, post-process once;
  - `ScriptRule`, which collects scripts by path;
  - the registry's name-to-rule table.
- **The rules**: `BindingRules`, `Polling`, `ExpressionPolling`, `PerformancePolling`, `BadComponentReference`, `NameConvention`, `NamePattern`, `UnusedProperties`, `ComponentName`, `ParameterName`, `ExampleRule`, `MixedSeverity` and `MixedSeverityExample`.
  - Each rule is a class with the source's fields and visit methods.
  - Each is specified by the messages it reports, as functions of the nodes.
  - For each, the lemmas say exactly when a report is made, and what the repository's unit tests expect for their fixtures.
- **Script checks** (`ScriptBatch`, `ScriptIssues`, `LintScript`, `LintScriptLegacy`, `ScriptRules`):
  - the combined file handed to pylint: a preamble, then one function per script;
  - mapping pylint's line numbers back to the script each line came from;
  - the resulting messages.
  - In all three pylint rules the analyzer itself is a parameter, `analyze`, from file text to output text.
- **The engine and entry point** (`Linter`, `LinterMain`):
  - `LintEngine.process`: build the model from an already flattened view, run every rule over all its nodes, and keep each rule's non-empty errors under its error key; a rule that raises ends the run with its exception;
  - the configuration-driven `JsonLinter` of `main.py`, with its argument checks and its `check_*` methods.

Some modelling choices:

- Python exceptions the core raises or meets become `Err` outcomes.
- File, clock and process I/O become parameters.
- Where the repository has two variants of a file, both are modelled in separate modules and related by lemmas:
  - `rules/examples/` beside `rules/`;
  - `rules/scripts/lint_script.py` beside `rules/lint_script.py`;
  - `_temp/flatten_json.py` beside `common/flatten_json.py`.
- One flattening fixture disagrees with the code. At tests/unit/test_flatten_json.py:85-93, the test for a named list item expects keys rooted at `MyButton.`, as the `_temp` variant produces (`FlattenExamples.TempNamedRoot`). The main flattener roots them at `.MyButton.` (`FlattenExamples.CommonNamedRoot`). The model follows the code of each variant.
- Four rule classes run the evidently intended behaviour rather than the code as written. Each such class row says "corrected variant", and the as-written behaviour is modelled and exhibited beside it (see "## Findings").

## Model

| member | source | states |
|---|---|---|
| `Escapes.Preserve` | src/ignition_lint/common/flatten_json.py:25-29 | yields the text after the five escape-to-placeholder replacements, applied one after the other in dictionary order |
| `Escapes.Restore` | src/ignition_lint/common/flatten_json.py:32-37 | yields the text after the five placeholder-to-escape replacements, in the inverted dictionary's order |
| `Escapes.ReplaceAbsent` | src/ignition_lint/common/flatten_json.py:28 | a substitution whose pattern does not occur leaves the text unchanged |
| `Escapes.EscapesDiffer` | src/ignition_lint/common/flatten_json.py:12-18 | the five escapes are pairwise different at some common position, so none is a prefix of another |
| `Escapes.PlaceholdersDiffer` | src/ignition_lint/common/flatten_json.py:12-19 | the five placeholder words are pairwise different at some common position |
| `Escapes.StagesAreWords` | src/ignition_lint/common/flatten_json.py:12-19 | each escape starts with a backslash and each placeholder with `U`, no later character is either; escapes and placeholders never coincide |
| `Escapes.PreserveEscape` | src/ignition_lint/common/flatten_json.py:25-29 | a text that starts with escape k becomes placeholder k followed by the preserved rest |
| `Escapes.RestorePlaceholder` | src/ignition_lint/common/flatten_json.py:32-37 | a text that starts with placeholder k becomes escape k followed by the restored rest |
| `Escapes.PreserveChar` | src/ignition_lint/common/flatten_json.py:25-29 | a first character that starts no escape passes through preservation unchanged |
| `Escapes.RoundTripEscape` | src/ignition_lint/common/flatten_json.py:25-37 | preserving then restoring gives a leading escape back and goes on with the rest |
| `Escapes.RoundTripChar` | src/ignition_lint/common/flatten_json.py:25-37 | preserving then restoring keeps a first character that starts no escape and no placeholder |
| `Escapes.RestorePreserve` | src/ignition_lint/common/flatten_json.py:25-37 | restoring after preserving is the identity on every text that contains no placeholder word |
| `Escapes.RoundTrip` | src/ignition_lint/common/flatten_json.py:25-37 | the ten substitutions run in order leave a placeholder-free text unchanged |
| `FlatMaps.PutShape` | src/ignition_lint/common/flatten_json.py:133 | `results[path] = value` keeps keys distinct; an existing key keeps its place, a new key goes last, other entries stay put |
| `FlatMaps.PutLookup` | src/ignition_lint/common/flatten_json.py:133 | after the assignment the key looks up as the new value and every other key as before |
| `FlatMaps.SortByKeySpec` | src/ignition_lint/common/flatten_json.py:141 | `sorted(items())` has strictly ascending keys and is a permutation of the entries, with the same key set |
| `FlatMapClass.FlatMap.constructor` | src/ignition_lint/common/flatten_json.py:116-117 | a new `OrderedDict` is empty |
| `FlatMapClass.FlatMap.Set` | src/ignition_lint/common/flatten_json.py:133 | the entries become the ordered-dict assignment of the old entries |
| `Flatten.MetaName` | src/ignition_lint/common/flatten_json.py:119 | fails exactly when `meta` is present and not a dict; a found name is the `name` member of `meta` |
| `Flatten.FlattenInto` | src/ignition_lint/common/flatten_json.py:102-134 | succeeds exactly when the reference recursion does, and then leaves the shared results equal to it |
| `Flatten.FlattenItemsInto` | _temp/flatten_json.py:131-139 | the list loop succeeds exactly when the reference does and leaves the results equal to it (both versions) |
| `Flatten.FlattenJsonMethod` | _temp/flatten_json.py:102-154 | `flatten_json(data)` with a fresh map returns exactly the reference result, failing when it fails |
| `FlattenLeaves.Cat` | src/ignition_lint/common/flatten_json.py:123-133 | two runs of leaves concatenate, the first failure wins |
| `FlattenLeaves.FlattenIsLeaves` | src/ignition_lint/common/flatten_json.py:102-134 | the flattener's map is the depth-first leaves assigned one by one into the accumulator |
| `FlattenLeaves.MembersAreLeaves` | src/ignition_lint/common/flatten_json.py:123-133 | the member loop is the members' leaves assigned in order |
| `FlattenLeaves.ItemsAreLeaves` | _temp/flatten_json.py:131-139 | the list loop is the items' leaves assigned in order |
| `FlattenProps.LeavesUnder` | src/ignition_lint/common/flatten_json.py:119-127 | below a non-empty path every leaf key starts with `path.` |
| `FlattenProps.MemberLeavesUnder` | src/ignition_lint/common/flatten_json.py:123-133 | every key a member loop produces starts with `path.` |
| `FlattenProps.ItemLeavesUnder` | _temp/flatten_json.py:131-139 | every key a list loop produces starts with the list's own path |
| `FlattenProps.FlattenJsonLeaves` | src/ignition_lint/common/flatten_json.py:102-134 | `flatten_json(data)` fails exactly when the leaves fail, and otherwise assigns them into an empty map |
| `FlattenProps.FlattenJsonEntries` | src/ignition_lint/common/flatten_json.py:102-134 | the map's keys are exactly the leaf paths, no key repeats, and distinct leaf paths give the leaves themselves in source order |
| `FlattenProps.NamedRootUnder` | _temp/flatten_json.py:117-121 | when the root's own path is non-empty, every key starts with it followed by a dot |
| `FlattenProps.NamedRootKeys` | _temp/flatten_json.py:117-121 | a truthy root name puts every key under `.Name.` in the common flattener and under `Name.` in the variant |
| `FlattenProps.FlattenFromUnder` | src/ignition_lint/common/flatten_json.py:124-127 | flattening from a non-empty path puts every key under `path.` |
| `FlattenProps.NamedLeavesUnder` | src/ignition_lint/common/flatten_json.py:119-121 | below a non-empty path a truthy `meta.name` puts every leaf under `path.name.` |
| `FlattenProps.NamedItemKeys` | _temp/flatten_json.py:117-139 | a named object in a list puts every key it contributes under `path[j].name.` |
| `FlattenProps.MemberLeafIn` | src/ignition_lint/common/flatten_json.py:132-133 | a scalar member is a leaf at its child path, with its value unchanged |
| `FlattenProps.RootScalarMember` | src/ignition_lint/common/flatten_json.py:124-133 | a scalar member of an unnamed root is keyed by its own key, and the key is in the map |
| `FlattenProps.CommonSkipsNonObjects` | src/ignition_lint/common/flatten_json.py:129-131 | the common flattener drops every list item that is not a dict |
| `FlattenProps.TempScalarItem` | _temp/flatten_json.py:137-139 | the variant stores a scalar list item at `path[i]`, unchanged |
| `FlattenProps.TempNestedListFails` | _temp/flatten_json.py:134-136 | the variant fails on a list nested directly in a list, since `data.get` meets a list |
| `FlattenProps.NonObjectFails` | _temp/flatten_json.py:117-121 | any non-dict argument fails at `data.get` before the list branch is reached |
| `FlattenProps.BadMetaFails` | src/ignition_lint/common/flatten_json.py:119 | a `meta` that is not a dict makes the flattener fail |
| `FlattenProps.EmptyContainers` | tests/unit/test_flatten_json.py:142-150 | empty lists and empty dicts contribute no entries |
| `FlattenProps.FlattenFileSorted` | src/ignition_lint/common/flatten_json.py:137-141 | `flatten_file` has ascending keys and the same entries as `flatten_json` |
| `FlattenExamples.RootMembers` | tests/unit/test_flatten_json.py:85-93 | the fixture root is named by its `meta.name` and flattened from its members |
| `FlattenExamples.CommonNamedRoot` | tests/unit/test_flatten_json.py:85-93 | the common flattener gives `.MyButton.meta.name` and `.MyButton.type` |
| `FlattenExamples.TempNamedRoot` | tests/unit/test_flatten_json.py:85-93 | the variant gives `MyButton.meta.name` and `MyButton.type`, as the test expects |
| `Nodes.ParseNodeType` | src/ignition_lint/model/node_types.py:12-24 | a value maps back only to a member with that value |
| `Nodes.ParseTypeValue` | src/ignition_lint/model/node_types.py:12-24 | every member is found again from its value, so the eleven values are distinct |
| `Nodes.AllTypesComplete` | src/ignition_lint/model/node_types.py:12-24 | iterating the enum meets every node type |
| `Nodes.GroupsDisjoint` | src/ignition_lint/model/node_types.py:28-32 | the binding and script groups are disjoint and hold neither components nor properties |
| `Nodes.ScriptKinds` | src/ignition_lint/model/node_types.py:195-275 | exactly the four script kinds are `ScriptNode`s, and exactly the five binding kinds are in `ALL_BINDINGS` |
| `Nodes.VisitMethodNameInjective` | src/ignition_lint/model/node_types.py:50 | two node types share a visit-method name only when they are the same type |
| `Nodes.Accept` | src/ignition_lint/model/node_types.py:48-56 | dispatches to `visit_<value>` exactly when the visitor defines it, otherwise to `visit_generic` |
| `Nodes.FunctionDef` | src/ignition_lint/model/node_types.py:223-268 | the header of each script kind: fixed for message handlers and transforms, built from the event type or from the name and `self` plus the parameters |
| `Nodes.FormatScript` | src/ignition_lint/model/node_types.py:203-207 | a blank script is first overwritten with a tab and `pass`; the text is the header, a newline and the (new) script; a non-blank node is unchanged |
| `Nodes.FormatScriptIdempotent` | src/ignition_lint/model/node_types.py:203-207 | formatting an already formatted node changes nothing more |
| `Nodes.Truncate` | src/ignition_lint/model/node_types.py:212 | a text within the limit is kept; a longer one becomes its first n characters and `...` |
| `Nodes.TagExpressions` | src/ignition_lint/model/node_types.py:143-155 | expression mode gives the tag path, indirect mode the reference values, any other mode nothing |
| `Nodes.TagReferenceExpressions` | src/ignition_lint/model/node_types.py:157-159 | a copy of the references in indirect mode, empty otherwise |
| `Nodes.IndirectExpressions` | src/ignition_lint/model/node_types.py:143-159 | in indirect mode the expressions are the reference values in order, one per reference |
| `Nodes.FilterByTypes` | src/ignition_lint/model/node_types.py:303-305 | the filter never adds nodes |
| `Nodes.FilterByTypesMembers` | src/ignition_lint/model/node_types.py:42-46 | a node survives the filter exactly when it is in the input and the rule applies to it |
| `Nodes.FilterAppend` | src/ignition_lint/model/node_types.py:303-305 | the filter keeps order: it distributes over concatenation |
| `Nodes.FilterAll` | src/ignition_lint/model/node_types.py:44-45 | an empty target set keeps every node |
| `Nodes.ScriptNodesAreScriptTypes` | src/ignition_lint/model/node_types.py:308-310 | `get_script_nodes` is the filter by the four script types |
| `Nodes.GroupByType` | src/ignition_lint/model/node_types.py:318-326 | one group per type present, holding exactly that type's nodes in encounter order |
| `Builder.GetOr` | src/ignition_lint/model/builder.py:42-45 | an absent key gives the fallback, a present one the stored value |
| `Builder.BracketIndexFrom` | src/ignition_lint/model/builder.py:208 | a captured index is a non-empty run of digits |
| `Builder.BracketIndexLeftmost` | src/ignition_lint/model/builder.py:208 | a found index is the digit run of the leftmost match at or after the start |
| `Builder.BracketIndexNone` | src/ignition_lint/model/builder.py:209 | no index means no occurrence of the literal followed by digits and `]` |
| `Builder.SetParam` | src/ignition_lint/model/builder.py:232-237 | parameter k becomes the value, the list grows to k+1 when short, gaps are `''`, and other parameters are unchanged |
| `Builder.PadAndSet` | src/ignition_lint/model/builder.py:234-237 | the padding loop followed by the assignment gives exactly that list |
| `Builder.EventTypeOf` | src/ignition_lint/model/builder.py:262-264 | a captured event type is non-empty and the path ends with `.events.` and that type |
| `Builder.OwnerOf` | src/ignition_lint/model/builder.py:298-303 | no owner exactly when no component path prefixes the key; otherwise a prefixing component path of greatest length |
| `Builder.ComponentsStep` | src/ignition_lint/model/builder.py:138-144 | reading one more entry appends that entry's component, if any |
| `Builder.SitesSkip` | src/ignition_lint/model/builder.py:150-153 | a key without `.binding.type`, or naming an already visited path, leaves `visited_paths` alone |
| `Builder.SitesAdd` | src/ignition_lint/model/builder.py:152-154 | a key naming a new binding path appends that path with the key's value |
| `Builder.SitesSnoc` | src/ignition_lint/model/builder.py:154-180 | a new site appends its binding node and its transforms |
| `Builder.TransformPathsStep` | src/ignition_lint/model/builder.py:69-73 | an entry adds its base path when it is a script `.type` key under the binding's transforms |
| `Builder.TransformScriptsStep` | src/ignition_lint/model/builder.py:76-79 | a base path adds its script when `<base>.script` is a key |
| `Builder.TransformNodes` | src/ignition_lint/model/builder.py:177-180 | one transform node per (path, script), carrying the binding path |
| `Builder.MessageHandlersStep` | src/ignition_lint/model/builder.py:184-198 | reading one more entry appends that entry's message handler, if any |
| `Builder.MethodTableStep` | src/ignition_lint/model/builder.py:204-237 | reading one more entry updates `custom_method_data` by that entry |
| `Builder.MethodNodes` | src/ignition_lint/model/builder.py:240-243 | one custom-method node per row, in row order |
| `Builder.EventHandlersStep` | src/ignition_lint/model/builder.py:247-275 | reading one more entry appends that entry's event handler, if any |
| `Builder.PropertiesStep` | src/ignition_lint/model/builder.py:278-314 | reading one more entry appends that entry's property, if any |
| `Builder.ViewModelBuilder.constructor` | src/ignition_lint/model/builder.py:26-40 | a new builder holds an empty flattened view and the empty model |
| `Builder.ViewModelBuilder.ComponentLoop` | src/ignition_lint/model/builder.py:138-144 | the loop gives the component of every `.meta.name` key, in key order |
| `Builder.ViewModelBuilder.CollectComponents` | src/ignition_lint/model/builder.py:136-144 | the model becomes the component pass of the old model |
| `Builder.ViewModelBuilder.GetScriptTransforms` | src/ignition_lint/model/builder.py:63-81 | the (path, script) pairs of the two loops |
| `Builder.ViewModelBuilder.BindingStep` | src/ignition_lint/model/builder.py:150-180 | one entry: the visited sites, bindings and transforms move on to the next prefix of the view |
| `Builder.ViewModelBuilder.BindingLoop` | src/ignition_lint/model/builder.py:149-180 | the binding and transform nodes of all visited sites, in order |
| `Builder.ViewModelBuilder.CollectBindings` | src/ignition_lint/model/builder.py:146-180 | the model becomes the binding pass of the old model |
| `Builder.ViewModelBuilder.MessageHandlerLoop` | src/ignition_lint/model/builder.py:184-198 | the loop gives one handler per `.messageType` key, in order |
| `Builder.ViewModelBuilder.CollectMessageHandlers` | src/ignition_lint/model/builder.py:182-198 | the model becomes the message-handler pass of the old model |
| `Builder.ViewModelBuilder.MethodTableLoop` | src/ignition_lint/model/builder.py:204-237 | the first loop builds `custom_method_data` |
| `Builder.ViewModelBuilder.CollectCustomMethods` | src/ignition_lint/model/builder.py:200-243 | the model becomes the custom-method pass of the old model |
| `Builder.ViewModelBuilder.EventHandlerLoop` | src/ignition_lint/model/builder.py:247-275 | the loop gives one handler per event script key, in order |
| `Builder.ViewModelBuilder.CollectEventHandlers` | src/ignition_lint/model/builder.py:245-275 | the model becomes the event-handler pass of the old model |
| `Builder.ViewModelBuilder.FindOwner` | src/ignition_lint/model/builder.py:298-303 | the owner loop returns the longest prefixing component path |
| `Builder.ViewModelBuilder.PropertyFor` | src/ignition_lint/model/builder.py:279-314 | the property one entry adds, if any |
| `Builder.ViewModelBuilder.PropertyLoop` | src/ignition_lint/model/builder.py:278-314 | the properties of every entry, in key order |
| `Builder.ViewModelBuilder.CollectProperties` | src/ignition_lint/model/builder.py:277-316 | the model becomes the property pass of the old model |
| `Builder.ViewModelBuilder.BuildModel` | src/ignition_lint/model/builder.py:322-365 | the model is reset, the six passes run in order, and the result is the model of the given view |
| `BuilderProps.MetaEntriesMembers` | src/ignition_lint/model/builder.py:139-140 | an entry is scanned as a component key exactly when its key ends with `.meta.name` |
| `BuilderProps.ComponentAtEntry` | src/ignition_lint/model/builder.py:139-144 | a `.meta.name` entry gives one component at its prefix, any other entry none |
| `BuilderProps.ComponentPerMetaName` | src/ignition_lint/model/builder.py:136-144 | one component per `.meta.name` key, in key order, named by its value and typed by `<prefix>.type` or `unknown` |
| `BuilderProps.SitesDistinct` | src/ignition_lint/model/builder.py:153-154 | `visited_paths` never holds a path twice |
| `BuilderProps.SitesComplete` | src/ignition_lint/model/builder.py:149-154 | every `.binding.type` key's prefix is visited |
| `BuilderProps.SitesSound` | src/ignition_lint/model/builder.py:149-154 | every visited path comes from the first key that names it, with that key's value as its type |
| `BuilderProps.BindingsFromSites` | src/ignition_lint/model/builder.py:156-172 | every binding node comes from one site, at that site's path |
| `BuilderProps.BindingPerSite` | src/ignition_lint/model/builder.py:156-172 | an `expression`/`expr`, `property` or `tag` site has its binding node, reading its config field or `unknown` |
| `BuilderProps.UnknownTypeNoBinding` | src/ignition_lint/model/builder.py:156-172 | a site of any other type gives no binding node at its path |
| `BuilderProps.KindsPartition` | src/ignition_lint/model/builder.py:156-172 | the three kind lists together are exactly as long as the bindings list |
| `BuilderProps.TransformPathsExact` | src/ignition_lint/model/builder.py:69-73 | a base path is collected exactly when its `.type` key is a script transform key under the binding |
| `BuilderProps.TransformScriptsExact` | src/ignition_lint/model/builder.py:76-79 | a (path, script) pair is collected exactly when the path was found and its `.script` key exists, with that value |
| `BuilderProps.TransformsAtExact` | src/ignition_lint/model/builder.py:174-180 | the transforms of a binding path are exactly its script-transform keys that have a sibling script, with that script and the binding path |
| `BuilderProps.TransformsOfSites` | src/ignition_lint/model/builder.py:174-180 | every visited path contributes its transforms whatever the binding's type, and nothing else contributes |
| `BuilderProps.HandlerAtEntry` | src/ignition_lint/model/builder.py:185-198 | a `.messageType` key under `.scripts.messageHandlers` gives one handler, any other entry none |
| `BuilderProps.HandlerPerMessageType` | src/ignition_lint/model/builder.py:182-198 | one handler per such key, in order, with the script and the three scopes read beside it (`""` and False when absent) |
| `BuilderProps.EventTypeExact` | src/ignition_lint/model/builder.py:262-264 | the dot-free segment after a final `.events.` is the event type |
| `BuilderProps.EventTypeIsSegment` | src/ignition_lint/model/builder.py:262 | a captured event type holds no dot |
| `BuilderProps.DomainEventIgnored` | src/ignition_lint/model/builder.py:262-263 | a domain-qualified event such as `events.dom.onClick` gives no handler |
| `BuilderProps.EventAtKey` | src/ignition_lint/model/builder.py:250-275 | an event script key with a single-segment event gives one handler, any other entry none |
| `BuilderProps.HandlerPerEventScript` | src/ignition_lint/model/builder.py:245-275 | one handler per event script key, in order, in domain `component` with scope `L` when absent |
| `BuilderProps.UpdateMethodParams` | src/ignition_lint/model/builder.py:224-237 | an update keeps the method's path, never shortens `params`, and sets the indexed parameter |
| `BuilderProps.TableStepShape` | src/ignition_lint/model/builder.py:205-222 | a key outside custom methods leaves the table alone, a new id appends a row, a known id updates its row in place |
| `BuilderProps.StepIds` | src/ignition_lint/model/builder.py:215-222 | a step keeps the ids distinct and adds at most the entry's own method id |
| `BuilderProps.TableIdsDistinct` | src/ignition_lint/model/builder.py:215-216 | `custom_method_data` holds each method id once |
| `BuilderProps.TableComplete` | src/ignition_lint/model/builder.py:208-222 | every key under `.scripts.customMethods[i]` has its method's row |
| `BuilderProps.ParamsPadded` | src/ignition_lint/model/builder.py:230-237 | every method's `params` is longer than the largest index any of its keys named |
| `BuilderProps.OwnerNamed` | src/ignition_lint/model/builder.py:298-305 | the owner is non-empty exactly when some named component prefixes the key |
| `BuilderProps.PropertyAtKept` | src/ignition_lint/model/builder.py:279-312 | an entry gives one property exactly when it is kept, named by its dot-free last segment |
| `BuilderProps.PropertyStep` | src/ignition_lint/model/builder.py:278-314 | a kept entry appends its property, any other entry nothing |
| `BuilderProps.PropertyPerKeptEntry` | src/ignition_lint/model/builder.py:277-314 | the property list is the kept entries' properties, in key order |
| `BuilderProps.ModelLayout` | src/ignition_lint/model/builder.py:322-365 | `scripts` is transforms, message handlers, custom methods and event handlers in pass order; the three kinds split `bindings`; all nodes hold every binding and script twice |
| `RuleCommon.GenericOnlyForStructAndQuery` | src/ignition_lint/rules/common.py:10-43 | a rule's `accept` falls back to `visit_generic` exactly for expression-struct and query bindings |
| `RuleCommon.NodeVisitorNames` | src/ignition_lint/rules/common.py:18-43 | which visit methods `NodeVisitor` defines and which two it lacks |
| `RuleCommon.RunSnoc` | src/ignition_lint/rules/common.py:72-73 | visiting one more node applies its visit to the state so far |
| `RuleCommon.RunAppend` | src/ignition_lint/rules/common.py:72-73 | visiting `a + b` is visiting `a`, then `b` from where `a` left off |
| `RuleCommon.RunIdle` | src/ignition_lint/rules/common.py:13-43 | a visit that does nothing leaves the state alone over any list |
| `RuleCommon.RunFilter` | src/ignition_lint/rules/common.py:68-73 | dropping nodes whose visit changes nothing changes no result |
| `RuleCommon.NoTargetsVisitsAll` | src/ignition_lint/rules/common.py:57-76 | with no target types every node is visited, then `post_process` runs once |
| `RuleCommon.ProcessForgetsErrors` | src/ignition_lint/rules/common.py:66 | errors left by an earlier run are discarded: the result depends only on the data and the nodes |
| `RuleCommon.IdleRuleReportsNothing` | src/ignition_lint/rules/common.py:10-43 | a rule overriding nothing reports nothing |
| `RuleCommon.LintingRule.constructor` | src/ignition_lint/rules/common.py:49-58 | no target set means the empty set; the errors start empty |
| `RuleCommon.LintingRule.Accept` | src/ignition_lint/model/node_types.py:48-56 | the rule state becomes the visit of the old state |
| `RuleCommon.LintingRule.PostProcess` | src/ignition_lint/rules/common.py:78-80 | the rule state becomes the post-processing of the old state |
| `RuleCommon.LintingRule.ProcessNodes` | src/ignition_lint/rules/common.py:64-76 | reset the errors, visit the applicable nodes in order, post-process once |
| `RuleCommon.AppendedSnoc` | src/ignition_lint/rules/common.py:72-73 | one more node appends that node's errors |
| `RuleCommon.AppendedAppend` | src/ignition_lint/rules/common.py:72-73 | the errors of `a + b` are those of `a` followed by those of `b` |
| `RuleCommon.AppendedNothing` | src/ignition_lint/rules/common.py:72-73 | visits that append nothing leave no errors |
| `RuleCommon.AppendedMembers` | src/ignition_lint/rules/common.py:72-73 | an error is reported exactly when some node's visit appends it |
| `RuleCommon.AppendedSpec` | src/ignition_lint/rules/common.py:72-73 | with at most one error per visit, at most one per node, each some node's only error |
| `RuleCommon.AppendedFilter` | src/ignition_lint/rules/common.py:68-73 | dropping nodes whose visit appends nothing drops no error |
| `RuleCommon.CollectScriptsOnly` | src/ignition_lint/rules/common.py:124-127 | the collection only ever holds script nodes |
| `RuleCommon.LastScriptSpec` | src/ignition_lint/rules/common.py:127 | the script found at a path is one at that path with no later script there |
| `RuleCommon.CollectLast` | src/ignition_lint/rules/common.py:112-127 | one script per path: keys stay distinct, each path maps to the last script visited there, untouched paths keep their old value |
| `RuleCommon.CollectEmpty` | src/ignition_lint/rules/common.py:124-127 | the collection is empty exactly when it started empty and no script was visited |
| `RuleCommon.PostScriptsEmpties` | src/ignition_lint/rules/common.py:129-133 | after `post_process` the collection is empty; `process_scripts` runs only on a non-empty collection |
| `RuleCommon.NoScriptsNoErrors` | src/ignition_lint/rules/common.py:129-133 | a run that meets no script never calls `process_scripts` and reports nothing |
| `RuleCommon.ScriptRule.constructor` | src/ignition_lint/rules/common.py:106-110 | no target set means the four script types; errors and collection start empty |
| `RuleCommon.ScriptRule.CollectScript` | src/ignition_lint/rules/common.py:124-127 | a script node is stored under its path, errors unchanged |
| `RuleCommon.ScriptRule.Accept` | src/ignition_lint/rules/common.py:112-122 | the four script visits collect; every other visit does nothing |
| `RuleCommon.ScriptRule.PostProcess` | src/ignition_lint/rules/common.py:129-133 | a non-empty collection is handed to `process_scripts` and emptied |
| `RuleCommon.ScriptRule.ProcessNodes` | src/ignition_lint/rules/common.py:64-76 | the errors of `process_scripts` on the collection of the applicable nodes; the collection is empty afterwards |
| `RuleBase.Reached` | src/ignition_lint/rules/base.py:22-60 | a call is defined exactly for the visitor's twelve methods and the overrides |
| `RuleBase.ReachedOnlyOverrides` | src/ignition_lint/rules/base.py:25-60 | only overriding bodies run, at most two, none when nothing is overridden |
| `RuleBase.BindingVisitsDelegate` | src/ignition_lint/rules/base.py:40-47 | the three binding visits reach `visit_binding` unless overridden themselves |
| `RuleBase.ScriptVisitsDelegate` | src/ignition_lint/rules/base.py:49-56 | message handlers, custom methods and script transforms reach `visit_script` |
| `RuleBase.ScriptEventHandlerOrder` | src/ignition_lint/rules/base.py:58-60 | a script event handler runs the event-handler visit, then the script visit |
| `RuleBase.AcceptMissingKinds` | src/ignition_lint/rules/base.py:22-60 | `accept` misses a method exactly for expression-struct bindings, query bindings and transforms, and there is no `visit_generic` |
| `RuleBase.LintingRule.constructor` | src/ignition_lint/rules/base.py:66-74 | no type set means the empty set; errors start empty |
| `RuleBase.LintingRule.ErrorMessage` | src/ignition_lint/rules/base.py:81-84 | the message is `Error detected by ` and the class name |
| `RuleBase.LintingRule.AppliesTo` | src/ignition_lint/rules/base.py:86-90 | every node when no type is set, otherwise the `AttributeError` of the enum's missing `applies_to` |
| `Registry.RuleName` | src/ignition_lint/rules/registry.py:46-47 | a non-empty given name wins, otherwise the class name |
| `Registry.ValidationError` | src/ignition_lint/rules/registry.py:125-161 | no error exactly when the class passes all six checks and the name is free |
| `Registry.MetadataOf` | src/ignition_lint/rules/registry.py:163-184 | class and module names are recorded; a failed instantiation leaves the error message unknown |
| `Registry.RegisterOutcome` | src/ignition_lint/rules/registry.py:32-60 | a rejected registration leaves every table unchanged; an accepted one returns the name used, exactly when validation passes |
| `Registry.DuplicateRejected` | src/ignition_lint/rules/registry.py:159-161 | a registered name is rejected and nothing changes |
| `Registry.NotAClassFirst` | src/ignition_lint/rules/registry.py:136-138 | a non-class is reported before any other check |
| `Registry.RegisterFinds` | src/ignition_lint/rules/registry.py:55-60 | after success the tables stay consistent, the name maps to the class and metadata, is listed last, and no other name changes |
| `Registry.EmptyConsistent` | src/ignition_lint/rules/registry.py:26-30 | the empty tables agree |
| `Registry.RuleRegistry.constructor` | src/ignition_lint/rules/registry.py:26-30 | a new registry holds empty tables |
| `Registry.RuleRegistry.ValidateRule` | src/ignition_lint/rules/registry.py:125-161 | the checks in source order give the validation error |
| `Registry.RuleRegistry.RegisterRule` | src/ignition_lint/rules/registry.py:32-60 | the registry's tables and the result are those of the registration |
| `Registry.RuleRegistry.GetRule` | src/ignition_lint/rules/registry.py:62-64 | absent exactly when the name is not registered |
| `Registry.RuleRegistry.ListRules` | src/ignition_lint/rules/registry.py:70-72 | one name per registered rule |
| `Registry.RuleRegistry.GetRuleMetadata` | src/ignition_lint/rules/registry.py:74-76 | absent exactly when no metadata is stored under the name |
| `Registry.RegisterTwice` | src/ignition_lint/rules/registry.py:32-60 | the first registration of a valid class succeeds with its name, the second fails with the duplicate message |
| `Polling.CallAtComplete` | src/ignition_lint/rules/polling_interval.py:28-29 | wherever `now\s*\(\s*(\d*)\s*\)` matches, the scanner finds that match and its digit group |
| `Polling.CallAtCompleteStrict` | src/ignition_lint/rules/expression_polling.py:57-58 | wherever `now\((\d*)\)` matches, the strict scanner finds it |
| `Polling.CallAtSound` | src/ignition_lint/rules/polling_interval.py:28-29 | whatever the scanner finds is a match of the pattern, and of the strict pattern when spacing is off |
| `Polling.MatchesDoNotOverlap` | src/ignition_lint/rules/polling_interval.py:29 | no match can start inside another, so `findall` reports a group at every matching index |
| `Polling.MatchesSpec` | src/ignition_lint/rules/polling_interval.py:29 | the `findall` list holds exactly the groups found at the indices scanned |
| `Polling.MatchesEmpty` | src/ignition_lint/rules/polling_interval.py:31 | `findall` is empty exactly when no call matches anywhere |
| `Polling.FindAll` | src/ignition_lint/rules/polling_interval.py:28-29 | the loop returns the `findall` list |
| `Polling.SearchOpen` | src/ignition_lint/rules/polling_interval.py:32-33 | true exactly when `now\s*\(` occurs |
| `Polling.ValidByMatches` | src/ignition_lint/rules/polling_interval.py:31-48 | over the `findall` list: empty means valid exactly when no `now(` occurs; otherwise valid exactly when no group is empty or an interval strictly between 0 and the minimum |
| `Polling.IsValidPolling` | src/ignition_lint/rules/polling_interval.py:23-48 | the early-return loop decides the validity of the expression |
| `Polling.StrictByMatches` | src/ignition_lint/rules/expression_polling.py:57-76 | the strict test is valid exactly when some strict call occurs and no captured interval is rejected |
| `Polling.IsStrictValidPolling` | src/ignition_lint/rules/expression_polling.py:52-76 | the strict early-return loop decides the strict validity |
| `Polling.StrictCallIsCall` | src/ignition_lint/rules/expression_polling.py:57 | a strict match is also a spaced match with the same group |
| `Polling.OneBadCallFails` | src/ignition_lint/rules/polling_interval.py:38-46 | one rejected call makes the whole text invalid |
| `Polling.ShortIntervalFails` | src/ignition_lint/rules/polling_interval.py:42-44 | `now(5)` is invalid at the default minimum of 10000 |
| `Polling.EmptyIntervalFails` | src/ignition_lint/rules/polling_interval.py:39-40 | `now()` is invalid |
| `Polling.CheckExpression` | src/ignition_lint/rules/polling_interval.py:19-20 | fails exactly when the text mentions `now` and is not valid |
| `Polling.Violations` | src/ignition_lint/rules/polling_interval.py:17-21 | at most one error per node |
| `Polling.ViolationsAppend` | src/ignition_lint/rules/polling_interval.py:17-21 | the errors of `a + b` are those of `a` then those of `b` |
| `Polling.ViolationsSnoc` | src/ignition_lint/rules/polling_interval.py:17-21 | one more node appends its report when flagged, nothing otherwise |
| `Polling.ViolationsSpec` | src/ignition_lint/rules/polling_interval.py:17-21 | every error names a flagged expression binding and every flagged binding is reported |
| `Polling.ViolationsFilter` | src/ignition_lint/rules/polling_interval.py:10 | a target set holding expression bindings loses no error |
| `Polling.NoPollingNoErrors` | tests/unit/test_polling_interval.py:48-55 | expressions that never mention `now` give no errors |
| `Polling.PollingIntervalRule.constructor` | src/ignition_lint/rules/polling_interval.py:9-11 | the minimum is kept and the errors start empty |
| `Polling.PollingIntervalRule.VisitExpressionBinding` | src/ignition_lint/rules/polling_interval.py:17-21 | a failing expression appends `<path>: '<expression>'`, otherwise nothing |
| `Polling.PollingIntervalRule.Accept` | src/ignition_lint/model/node_types.py:48-56 | only the expression-binding visit appends |
| `Polling.PollingIntervalRule.ProcessNodes` | src/ignition_lint/rules/common.py:64-76 | the errors are the violations of the run |
| `PerformancePolling.EntryFindings` | src/ignition_lint/rules/performance/polling_interval.py:33-37 | at most one message per entry |
| `PerformancePolling.EntryFindingsSpec` | src/ignition_lint/rules/performance/polling_interval.py:33-45 | every failing entry gives `<path>.<key>: '<expression>'`, and every message comes from one |
| `PerformancePolling.NodeFindings` | src/ignition_lint/rules/performance/polling_interval.py:24-64 | per binding kind: the expression, each struct entry, each query parameter, a tag path in expression mode, each reference in indirect mode, nothing in direct mode and for non-bindings |
| `PerformancePolling.FindingsSnoc` | src/ignition_lint/rules/performance/polling_interval.py:24-64 | one more node appends its own findings |
| `PerformancePolling.FindingsFilter` | src/ignition_lint/rules/performance/polling_interval.py:17 | every binding kind is a target, so filtering loses nothing |
| `PerformancePolling.PollingIntervalRule.constructor` | src/ignition_lint/rules/performance/polling_interval.py:16-18 | minimum and severity kept, both lists empty |
| `PerformancePolling.PollingIntervalRule.AddViolations` | src/ignition_lint/rules/performance/polling_interval.py:29 | under severity `error` to the errors, otherwise to the warnings, the other list unchanged |
| `PerformancePolling.PollingIntervalRule.VisitExpressionBinding` | src/ignition_lint/rules/performance/polling_interval.py:24-29 | the node's findings go to the list the severity selects |
| `PerformancePolling.PollingIntervalRule.CheckEntries` | src/ignition_lint/rules/performance/polling_interval.py:33-37 | the loop's messages are the entry findings |
| `PerformancePolling.PollingIntervalRule.VisitExpressionStructBinding` | src/ignition_lint/rules/performance/polling_interval.py:31-37 | each failing struct entry, under the severity |
| `PerformancePolling.PollingIntervalRule.VisitQueryBinding` | src/ignition_lint/rules/performance/polling_interval.py:39-45 | each failing query parameter, under the severity |
| `PerformancePolling.PollingIntervalRule.VisitTagBinding` | src/ignition_lint/rules/performance/polling_interval.py:47-64 | the tag path in expression mode, each reference in indirect mode, nothing otherwise |
| `PerformancePolling.PollingIntervalRule.Accept` | src/ignition_lint/model/node_types.py:48-56 | the four binding visits report; every other node adds nothing |
| `PerformancePolling.PollingIntervalRule.ProcessNodes` | src/ignition_lint/rules/common.py:64-76 | every finding of the run in the list the severity selects, the other list empty |
| `ExpressionPolling.BuildKeyPath` | src/ignition_lint/rules/expression_polling.py:27-30 | `children` and `propConfig` add no segment; otherwise the key is appended after a dot, or stands alone under an empty parent |
| `ExpressionPolling.AddError` | src/ignition_lint/rules/expression_polling.py:35-38 | at most one message is appended, and none exactly when the bare key path is already listed |
| `ExpressionPolling.DetailNotDeduplicated` | src/ignition_lint/rules/expression_polling.py:36-38 | a message with a detail never blocks a second identical one |
| `ExpressionPolling.BareKeyDeduplicated` | src/ignition_lint/rules/expression_polling.py:36-38 | a bare key path is recorded once |
| `ExpressionPolling.CheckAllAppend` | src/ignition_lint/rules/expression_polling.py:41-44 | checking `a + b` is checking `a`, then `b` |
| `ExpressionPolling.ParseConfigSpec` | src/ignition_lint/rules/expression_polling.py:40-50 | `_parse_binding` raises exactly on a non-dict where `.items()` is called, and otherwise checks every nested string in visiting order |
| `ExpressionPolling.ParseMembersSpec` | src/ignition_lint/rules/expression_polling.py:41-50 | the same for the members from index `i` on |
| `ExpressionPolling.ParseElementsSpec` | src/ignition_lint/rules/expression_polling.py:48-50 | the same for the list elements from index `j` on |
| `ExpressionPolling.ItemName` | src/ignition_lint/rules/expression_polling.py:89 | `item.get('meta', {}).get('name')` raises exactly for a non-dict item or a non-dict `meta` |
| `ExpressionPolling.ScanBinding` | src/ignition_lint/rules/expression_polling.py:93-95 | scanning a binding keeps the key path |
| `ExpressionPolling.CheckKeepsEarlier` | src/ignition_lint/rules/expression_polling.py:78-96 | the traversal only appends to the error list |
| `ExpressionPolling.CheckMembersKeepsEarlier` | src/ignition_lint/rules/expression_polling.py:81-96 | the member loop only appends |
| `ExpressionPolling.CheckValueKeepsEarlier` | src/ignition_lint/rules/expression_polling.py:87-96 | a list or dict member only appends |
| `ExpressionPolling.CheckItemsKeepsEarlier` | src/ignition_lint/rules/expression_polling.py:88-91 | the list-item loop only appends |
| `ExpressionPolling.CheckAllExtends` | src/ignition_lint/rules/expression_polling.py:41-44 | checking strings only appends |
| `ExpressionPolling.BindingNotDescended` | src/ignition_lint/rules/expression_polling.py:93-95 | a dict holding `binding` is scanned there and not entered |
| `ExpressionPolling.ExpressionPollingRule.constructor` | src/ignition_lint/rules/expression_polling.py:12-14 | the minimum is kept and no key is skipped; the key path, which the source leaves unset, starts at `""` (weaker, see "## Left out") |
| `ExpressionPolling.ExpressionPollingRule.ParseBinding` | src/ignition_lint/rules/expression_polling.py:40-50 | the recursive method gives `_parse_binding`'s list or its exception |
| `ExpressionPolling.ExpressionPollingRule.CheckInto` | src/ignition_lint/rules/expression_polling.py:81-96 | the traversal's list and final key path, or its exception |
| `ExpressionPolling.ExpressionPollingRule.Check` | src/ignition_lint/rules/expression_polling.py:78-96 | `errors["polling"]` is created when absent and replaced by the traversal's list |
| `BindingRules.ListedKinds` | src/ignition_lint/rules/binding_rules.py:15-20 | the names stand only for expression, property and tag bindings |
| `BindingRules.AppliesTo` | src/ignition_lint/rules/binding_rules.py:22-36 | bindings only; all of them with no names, otherwise the named kinds |
| `BindingRules.PollingIntervalRule.constructor` | src/ignition_lint/rules/binding_rules.py:42-44 | the minimum is kept and the errors start empty |
| `BindingRules.PollingIntervalRule.Applies` | src/ignition_lint/rules/binding_rules.py:43 | exactly expression and property bindings |
| `BindingRules.PollingIntervalRule.VisitExpressionBinding` | src/ignition_lint/rules/binding_rules.py:50-54 | a failing expression appends `<path>: '<expression>'`, otherwise nothing |
| `BadComponentReference.PatternsOf` | src/ignition_lint/rules/bad_component_reference.py:33-50 | a non-empty configured list replaces the fourteen defaults |
| `BadComponentReference.Filter` | src/ignition_lint/rules/bad_component_reference.py:98-103 | never longer than the patterns tried |
| `BadComponentReference.FilterMembers` | src/ignition_lint/rules/bad_component_reference.py:98-103 | exactly the patterns that hit |
| `BadComponentReference.FilterCount` | src/ignition_lint/rules/bad_component_reference.py:98-103 | one entry per hitting index |
| `BadComponentReference.FilterFirst` | src/ignition_lint/rules/bad_component_reference.py:108 | the list starts with the first hitting pattern |
| `BadComponentReference.FilterPrefix` | src/ignition_lint/rules/bad_component_reference.py:99-103 | trying more patterns only appends |
| `BadComponentReference.LowerOccurs` | src/ignition_lint/rules/bad_component_reference.py:91-93 | lower-casing keeps an occurrence in place |
| `BadComponentReference.InsensitiveWider` | src/ignition_lint/rules/bad_component_reference.py:91-95 | case-insensitive matching finds whatever case-sensitive matching finds |
| `BadComponentReference.PatternMessage` | src/ignition_lint/rules/bad_component_reference.py:108-112 | the message opens with the first pattern, quoted |
| `BadComponentReference.ContentErrors` | src/ignition_lint/rules/bad_component_reference.py:84-118 | at most one message per content item |
| `BadComponentReference.ContentErrorsIff` | src/ignition_lint/rules/bad_component_reference.py:86-106 | a message exactly when the content is non-empty and some pattern hits |
| `BadComponentReference.ContentErrorsSpec` | src/ignition_lint/rules/bad_component_reference.py:98-118 | the report names the first hitting pattern as configured and counts the other hits |
| `BadComponentReference.InsensitiveReportsMore` | src/ignition_lint/rules/bad_component_reference.py:91-95 | whatever is reported case-sensitively is also reported without case |
| `BadComponentReference.MessagePrefix` | src/ignition_lint/rules/bad_component_reference.py:114-117 | the message starts with the path, the titled content type and the first pattern |
| `BadComponentReference.SiblingReported` | tests/unit/test_bad_component_reference.py:20-31 | a script using `.getSibling(` gives one report naming it |
| `BadComponentReference.SiblingAnywhereReported` | tests/unit/test_bad_component_reference.py:170-205 | matching is by substring: a `.getSibling(` anywhere in the text is reported |
| `BadComponentReference.SiblingAnyCase` | tests/unit/test_bad_component_reference.py:103-119 | without case, any spelling is reported under the configured name |
| `BadComponentReference.CustomPatternsReplaceDefaults` | tests/unit/test_bad_component_reference.py:121-139 | a configured list replaces the defaults |
| `BadComponentReference.CollectFound` | src/ignition_lint/rules/bad_component_reference.py:89-103 | the loop gives the found patterns in order |
| `BadComponentReference.NodeErrors` | src/ignition_lint/rules/bad_component_reference.py:63-82 | at most one error per node, none for other kinds |
| `BadComponentReference.TargetKinds` | src/ignition_lint/rules/bad_component_reference.py:30 | the rule applies to the four script kinds and expression bindings only |
| `BadComponentReference.ViolationsSpec` | src/ignition_lint/rules/bad_component_reference.py:105-118 | at most one error per node, each the report of one node |
| `BadComponentReference.ViolationsFilter` | src/ignition_lint/rules/bad_component_reference.py:30-31 | dropping non-targets drops no error |
| `BadComponentReference.BadComponentReferenceRule.constructor` | src/ignition_lint/rules/bad_component_reference.py:27-52 | the targets, the patterns, the case flag; errors empty |
| `BadComponentReference.BadComponentReferenceRule.CheckContent` | src/ignition_lint/rules/bad_component_reference.py:84-118 | appends the content's errors |
| `BadComponentReference.BadComponentReferenceRule.Accept` | src/ignition_lint/rules/bad_component_reference.py:63-82 | appends the node's errors |
| `BadComponentReference.BadComponentReferenceRule.ProcessNodes` | src/ignition_lint/rules/common.py:64-76 | the errors are the violations of the run |
| `NameConvention.ParseConvention` | src/ignition_lint/rules/name_pattern.py:97-140 | the convention, if any, whose key is the given text, and only that one |
| `NameConvention.BodyNoNumbers` | src/ignition_lint/rules/name_pattern.py:264-266 | deleting `0-9` from a pattern body accepts exactly the accepted names without digits |
| `NameConvention.NoNumbersRejectsDigits` | src/ignition_lint/rules/name_pattern.py:264-266 | with `re.match` and its newline-tolerant `$`, removing `0-9` rejects exactly the names holding a digit |
| `NameConvention.PascalExamples` | src/ignition_lint/rules/name_pattern.py:99-101 | the PascalCase examples match |
| `NameConvention.PascalInvalidExamples` | src/ignition_lint/rules/name_pattern.py:99-102 | the PascalCase invalid examples do not match |
| `NameConvention.CamelExamples` | src/ignition_lint/rules/name_pattern.py:105-107 | the camelCase examples match |
| `NameConvention.CamelInvalidExamples` | src/ignition_lint/rules/name_pattern.py:105-108 | the camelCase invalid examples do not match |
| `NameConvention.SnakeExamples` | src/ignition_lint/rules/name_pattern.py:111-113 | the snake_case examples match |
| `NameConvention.SnakeInvalidExamples` | src/ignition_lint/rules/name_pattern.py:111-114 | the snake_case invalid examples do not match |
| `NameConvention.KebabExamples` | src/ignition_lint/rules/name_pattern.py:117-119 | the kebab-case examples match |
| `NameConvention.KebabInvalidExamples` | src/ignition_lint/rules/name_pattern.py:117-120 | the kebab-case invalid examples do not match |
| `NameConvention.ScreamingExamples` | src/ignition_lint/rules/name_pattern.py:123-125 | the SCREAMING_SNAKE_CASE examples match |
| `NameConvention.ScreamingInvalidExamples` | src/ignition_lint/rules/name_pattern.py:123-126 | the SCREAMING_SNAKE_CASE invalid examples do not match |
| `NameConvention.TitleExamples` | src/ignition_lint/rules/name_pattern.py:129-131 | two Title Case examples match |
| `NameConvention.TitleExampleThreeWords` | src/ignition_lint/rules/name_pattern.py:131 | `My Custom Component` matches Title Case |
| `NameConvention.TitleInvalidExamples` | src/ignition_lint/rules/name_pattern.py:129-132 | the Title Case invalid examples do not match |
| `NameConvention.LowerCaseExamples` | src/ignition_lint/rules/name_pattern.py:135-137 | the lower case examples match |
| `NameConvention.LowerCaseInvalidExamples` | src/ignition_lint/rules/name_pattern.py:135-138 | the lower case invalid examples do not match |
| `NameConvention.RunEnd` | src/ignition_lint/rules/name_pattern.py:484 | the run of non-separators ends at a separator or the end of the text |
| `NameConvention.TokensFromSpec` | src/ignition_lint/rules/name_pattern.py:484 | the pieces of `re.split(r'[-_\s]+')` with empty ones dropped are non-empty and free of separators |
| `NameConvention.LowerEnd` | src/ignition_lint/rules/name_pattern.py:489 | the lower-case run ends at a non-lower-case character or the end |
| `NameConvention.CamelFromPieces` | src/ignition_lint/rules/name_pattern.py:489 | every piece of the camel split is one letter and a lower-case tail, so capitals are split one at a time |
| `NameConvention.CamelFromLetters` | src/ignition_lint/rules/name_pattern.py:489 | the camel split keeps exactly the letters, in order; digits are dropped |
| `NameConvention.SplitPartsSpec` | src/ignition_lint/rules/name_pattern.py:481-494 | every word of the split is non-empty and holds no delimiter |
| `NameConvention.SplitAcronym` | src/ignition_lint/rules/name_pattern.py:488-491 | `XMLParser` splits into `X`, `M`, `L`, `Parser` |
| `NameConvention.SplitKeepsDigits` | src/ignition_lint/rules/name_pattern.py:487-491 | a single word whose camel split has one piece is kept whole, digits included |
| `NameConvention.TitleWords` | src/ignition_lint/rules/name_pattern.py:470-479 | one word per input word, each either kept or the upper-cased abbreviation |
| `NameConvention.LowercaseAbbrevInert` | src/ignition_lint/rules/name_pattern.py:416-417 | an abbreviation with a lower-case letter never occurs in the upper-cased name, so it changes nothing |
| `NameConvention.ReplaceCaseOnly` | src/ignition_lint/rules/name_pattern.py:423-424 | replacing a text by one differing only in case changes only case |
| `NameConvention.PyReplaceCaseOnly` | src/ignition_lint/rules/name_pattern.py:423-424 | the same for `str.replace`, the empty pattern included |
| `NameConvention.ReplaceEachCaseOnly` | src/ignition_lint/rules/name_pattern.py:464-468 | the variation loop changes only case |
| `NameConvention.SnakeStepCaseOnly` | src/ignition_lint/rules/name_pattern.py:422-424 | the snake and kebab branch changes only case |
| `NameConvention.AdjustCamelCaseOnly` | src/ignition_lint/rules/name_pattern.py:462-468 | the camel adjustment changes only case |
| `NameConvention.AbbrevStepCaseOnly` | src/ignition_lint/rules/name_pattern.py:416-433 | one abbreviation step changes only case, except the Title Case branch, which re-joins the words |
| `NameConvention.ProcessedCaseOnly` | src/ignition_lint/rules/name_pattern.py:401-435 | outside Title Case, abbreviation processing changes only letter case, never length or other characters |
| `NameConvention.ProcessedIdle` | src/ignition_lint/rules/name_pattern.py:416-417 | with no abbreviation in the upper-cased name, processing returns the name |
| `NameConvention.CapitalWords` | src/ignition_lint/rules/name_pattern.py:501-505 | one word per part |
| `NameConvention.LowerWords` | src/ignition_lint/rules/name_pattern.py:538-542 | one word per part |
| `NameConvention.CapitalWordsSpec` | src/ignition_lint/rules/name_pattern.py:501-505 | each part becomes its upper-cased form when an abbreviation, its capitalized form otherwise |
| `NameConvention.LowerWordsSpec` | src/ignition_lint/rules/name_pattern.py:538-542 | each part becomes its lower-cased form, abbreviations included |
| `NameConvention.PascalSuggestionConforms` | src/ignition_lint/rules/name_pattern.py:496-507 | for a name of letters the Pascal suggestion matches PascalCase |
| `NameConvention.SnakeSuggestionConforms` | src/ignition_lint/rules/name_pattern.py:533-544 | for a name of letters the snake suggestion matches snake_case and its upper-casing matches SCREAMING_SNAKE_CASE |
| `NameConvention.KebabSuggestionConforms` | src/ignition_lint/rules/name_pattern.py:546-557 | for a name of letters the kebab suggestion matches kebab-case |
| `NameConvention.LowerCaseSuggestionConforms` | src/ignition_lint/rules/name_pattern.py:572-581 | for a name of letters the lower case suggestion matches lower case |
| `NameConvention.CamelSuggestionConforms` | src/ignition_lint/rules/name_pattern.py:509-531 | the camel suggestion matches camelCase when its first word is no abbreviation |
| `NameConvention.CamelSuggestionAbbrevFirst` | src/ignition_lint/rules/name_pattern.py:519-520 | a first word that is an abbreviation makes the camel suggestion start with a capital, which breaks camelCase |
| `NameConvention.TitleJoin` | src/ignition_lint/rules/name_pattern.py:129 | words of a capital and lower-case letters joined by spaces match Title Case |
| `NameConvention.TitleSuggestionConforms` | src/ignition_lint/rules/name_pattern.py:559-570 | the Title suggestion matches Title Case when no word is an abbreviation |
| `NamePattern.NewConfig` | src/ignition_lint/rules/name_pattern.py:11-37 | construction fails with the `ValueError` text exactly for a severity other than `warning` or `error`, and otherwise keeps the settings |
| `NamePattern.DefaultConfigValid` | src/ignition_lint/rules/name_pattern.py:15-24 | the field defaults build a valid configuration |
| `NamePattern.SkipNames` | src/ignition_lint/rules/name_pattern.py:229-231 | an absent or empty skip set means `{'root'}` |
| `NamePattern.ForbiddenNames` | src/ignition_lint/rules/name_pattern.py:225-227 | nothing is forbidden unless configured |
| `NamePattern.AllowedAbbreviations` | src/ignition_lint/rules/name_pattern.py:233-235 | no abbreviation is allowed unless configured |
| `NamePattern.AllAbbreviations` | src/ignition_lint/rules/name_pattern.py:200-204 | the allowed abbreviations always belong; without detection they are all |
| `NamePattern.AllAbbreviationsSpec` | src/ignition_lint/rules/name_pattern.py:190-204 | an abbreviation is in use exactly when allowed, or common with detection on |
| `NamePattern.ConventionOf` | src/ignition_lint/rules/name_pattern.py:260 | a setting names a predefined convention only by its exact key |
| `NamePattern.SetupPattern` | src/ignition_lint/rules/name_pattern.py:255-275 | a custom pattern wins; then a known convention, its `0-9` removed when numbers are off; otherwise PascalCase with numbers whatever the setting |
| `NamePattern.CompletedSpec` | src/ignition_lint/rules/name_pattern.py:277-294 | completion only fills in a missing pattern (and a missing description), honours the entry's own `allow_numbers`, keeps a given pattern, and is idempotent |
| `NamePattern.CompletedRules` | src/ignition_lint/rules/name_pattern.py:279 | completion keeps the set of node types with entries |
| `NamePattern.EntryFor` | src/ignition_lint/rules/name_pattern.py:296-300 | a type without an entry overrides nothing |
| `NamePattern.Suggestion` | src/ignition_lint/rules/name_pattern.py:437-460 | a suggestion exists exactly when the node's convention is predefined |
| `NamePattern.NameErrorsOrder` | src/ignition_lint/rules/name_pattern.py:312-366 | at most one message; skipped names give none, forbidden names the forbidden message, short names one message; for the corrected variant |
| `NamePattern.NameErrorsNamed` | src/ignition_lint/rules/name_pattern.py:328-355 | every message begins with `Name '<name>' ` |
| `NamePattern.RootSkippedByDefault` | src/ignition_lint/rules/name_pattern.py:229-231 | with the default skip set `root` is never reported, in either variant |
| `NamePattern.FallbackWithoutEntry` | src/ignition_lint/rules/name_pattern.py:296-300 | a type without an entry uses the rule's own settings for every key |
| `NamePattern.EntriesAreLocal` | src/ignition_lint/rules/name_pattern.py:296-300 | an entry for one type changes nothing for another |
| `NamePattern.ConformingAccepted` | src/ignition_lint/rules/name_pattern.py:347-354 | in the corrected variant, a screened name that follows the pattern is never reported |
| `NamePattern.CorrectionOnlyDrops` | src/ignition_lint/rules/name_pattern.py:353-354 | the correction only drops reports, exactly those of names that follow the pattern while their processed form does not |
| `NamePattern.NoSuggestionWithoutConvention` | src/ignition_lint/rules/name_pattern.py:355-362 | without a predefined convention the message carries no suggestion |
| `NamePattern.SuggestionOfConvention` | src/ignition_lint/rules/name_pattern.py:355-362 | under a predefined convention the message carries the conversion of the name |
| `NamePattern.LowerKeepsDigits` | src/ignition_lint/rules/name_pattern.py:401-435 | a case-only change keeps the digits |
| `NamePattern.DigitsRejected` | src/ignition_lint/rules/name_pattern.py:264-266 | with numbers off, a screened name holding a digit gets the pattern message unless the step is the Title Case one |
| `NamePattern.CommonAbbreviationsLong` | src/ignition_lint/rules/name_pattern.py:191-198 | every common abbreviation has at least two characters, and `ID` is one |
| `NamePattern.AdjustLowerId` | src/ignition_lint/rules/name_pattern.py:462-468 | the camel adjustment for `ID` turns `id` into `ID` |
| `NamePattern.AdjustUpperId` | src/ignition_lint/rules/name_pattern.py:462-468 | the camel adjustment for `ID` leaves `ID` alone |
| `NamePattern.ProcessedId` | src/ignition_lint/rules/name_pattern.py:416-421 | under camelCase, `id` is processed to `ID` exactly when `ID` is among the abbreviations |
| `NamePattern.CamelSuggestionOfId` | src/ignition_lint/rules/name_pattern.py:509-531 | the camelCase suggestion for `id` is `ID` |
| `NamePattern.CamelIdReported` | src/ignition_lint/rules/name_pattern.py:353-362 | as written, a default camelCase rule reports `id`, which follows camelCase, and suggests `ID`, which does not; the corrected check accepts `id` |
| `NamePattern.CamelIdSetup` | src/ignition_lint/rules/name_pattern.py:166-210 | a default camelCase rule has `ID` as an abbreviation and processes `id` to `ID` |
| `NamePattern.ReachesGenericKinds` | src/ignition_lint/rules/name_pattern.py:373-399 | `visit_generic` is reached by the five overridden kinds and the kinds with no visitor method; it is not reached by the other bindings or by transforms |
| `NamePattern.InheritedVisit` | src/ignition_lint/rules/name_pattern.py:386-399 | the other binding kinds and transforms hit a visit this rule does not override |
| `NamePattern.OverriddenVisit` | src/ignition_lint/rules/name_pattern.py:386-399 | the five named kinds hit an overriding visit |
| `NamePattern.NodeName` | src/ignition_lint/rules/name_pattern.py:302-310 | a type without an extractor has no name |
| `NamePattern.DefaultNames` | src/ignition_lint/rules/name_pattern.py:245-253 | components, custom methods and properties are named by `name`, message handlers by their message type, event handlers by their event type, others not at all |
| `NamePattern.Prefixed` | src/ignition_lint/rules/name_pattern.py:378-383 | one entry per message |
| `NamePattern.PrefixedSpec` | src/ignition_lint/rules/name_pattern.py:381-383 | each entry is `<path>: <message>` |
| `NamePattern.NodeMessagesAtMostOne` | src/ignition_lint/rules/name_pattern.py:373-383 | at most one message per node; a missing or empty name reports nothing |
| `NamePattern.NodeMessagesNamed` | src/ignition_lint/rules/name_pattern.py:373-383 | each message is a `_validate_name` message for the node's name, prefixed with its path |
| `NamePattern.BindingsNeverReported` | src/ignition_lint/rules/name_pattern.py:386-399 | expression, property and tag bindings and transforms are never reported |
| `NamePattern.FindingsSnoc` | src/ignition_lint/rules/common.py:72-73 | one more node appends its messages |
| `NamePattern.FindingsFrom` | src/ignition_lint/rules/common.py:72-73 | every finding comes from one node |
| `NamePattern.BindingTargetsSilent` | src/ignition_lint/rules/name_pattern.py:386-399 | a rule that targets only those kinds reports nothing |
| `NamePattern.FindingsEmpty` | src/ignition_lint/rules/name_pattern.py:373-383 | nodes that report nothing give no findings |
| `NamePattern.LongestExists` | src/ignition_lint/rules/name_pattern.py:416 | a non-empty set has a longest element |
| `NamePattern.SortByLength` | src/ignition_lint/rules/name_pattern.py:416 | every abbreviation once, longest first |
| `NamePattern.ListTypes` | src/ignition_lint/rules/name_pattern.py:370 | each target type once |
| `NamePattern.TypeValues` | src/ignition_lint/rules/name_pattern.py:370 | one value per type |
| `NamePattern.ParsedTypes` | src/ignition_lint/rules/name_pattern.py:58-74 | a type is parsed exactly when its value is among the strings |
| `NamePattern.ParseTypeValueInverse` | src/ignition_lint/model/node_types.py:12-24 | `NodeType(value)` recovers every type from its value |
| `NamePattern.PreprocessTargets` | src/ignition_lint/rules/name_pattern.py:54-77 | the setting is left as it was exactly when no string names a type |
| `NamePattern.RulesOfKeys` | src/ignition_lint/rules/name_pattern.py:80-93 | a type has an entry exactly when some key names it |
| `NamePattern.RulesOfLast` | src/ignition_lint/rules/name_pattern.py:84-87 | a type keeps the last entry under its name |
| `NamePattern.PreprocessRules` | src/ignition_lint/rules/name_pattern.py:80-93 | the loop gives the converted entries |
| `NamePattern.SetupAbbreviations` | src/ignition_lint/rules/name_pattern.py:200-204 | the abbreviations in use |
| `NamePattern.NamePatternRule.constructor` | src/ignition_lint/rules/name_pattern.py:142-210 | targets default to components; pattern, abbreviations, order and completed entries come from the settings |
| `NamePattern.NamePatternRule.ErrorMessage` | src/ignition_lint/rules/name_pattern.py:368-371 | the target type values in some order, joined by commas |
| `NamePattern.NamePatternRule.AdjustCamelCase` | src/ignition_lint/rules/name_pattern.py:462-468 | the three variations replaced in turn by the upper-cased abbreviation |
| `NamePattern.NamePatternRule.AdjustTitleCase` | src/ignition_lint/rules/name_pattern.py:470-479 | words equal to the abbreviation up to case become upper case, joined by single spaces |
| `NamePattern.NamePatternRule.ProcessStep` | src/ignition_lint/rules/name_pattern.py:417-433 | one abbreviation's step for the convention |
| `NamePattern.NamePatternRule.ProcessAbbreviations` | src/ignition_lint/rules/name_pattern.py:401-435 | the processed name, unchanged without abbreviations or with a custom pattern |
| `NamePattern.NamePatternRule.CapitalizeParts` | src/ignition_lint/rules/name_pattern.py:501-505 | abbreviations upper-cased, other parts capitalized |
| `NamePattern.NamePatternRule.LowerParts` | src/ignition_lint/rules/name_pattern.py:538-542 | every part lower-cased |
| `NamePattern.NamePatternRule.ToPascalCase` | src/ignition_lint/rules/name_pattern.py:496-507 | the Pascal conversion, which conforms for names of letters |
| `NamePattern.NamePatternRule.ToCamelCase` | src/ignition_lint/rules/name_pattern.py:509-531 | the camel conversion, empty for a name without parts |
| `NamePattern.NamePatternRule.ToSnakeCase` | src/ignition_lint/rules/name_pattern.py:533-544 | the snake conversion |
| `NamePattern.NamePatternRule.ToKebabCase` | src/ignition_lint/rules/name_pattern.py:546-557 | the kebab conversion |
| `NamePattern.NamePatternRule.ToTitleCase` | src/ignition_lint/rules/name_pattern.py:559-570 | the Title conversion |
| `NamePattern.NamePatternRule.ToLowerCaseName` | src/ignition_lint/rules/name_pattern.py:572-581 | the lower case conversion |
| `NamePattern.NamePatternRule.SuggestName` | src/ignition_lint/rules/name_pattern.py:437-460 | the suggestion, absent without a predefined convention |
| `NamePattern.NamePatternRule.ValidateName` | src/ignition_lint/rules/name_pattern.py:312-366 | the corrected variant: the messages of `NameErrors`, which never reports a name that already follows its pattern |
| `NamePattern.NamePatternRule.VisitGeneric` | src/ignition_lint/rules/name_pattern.py:373-383 | each message of the named node, with its path, under the configured severity; corrected variant |
| `NamePattern.NamePatternRule.Accept` | src/ignition_lint/rules/name_pattern.py:385-399 | the overridden visits and the fallback report via `visit_generic`; the others report nothing; corrected variant |
| `NamePattern.NamePatternRule.ProcessNodes` | src/ignition_lint/rules/common.py:64-76 | every finding over the targeted nodes under the severity, the other list empty; corrected variant |
| `NamePattern.CompleteRules` | src/ignition_lint/rules/name_pattern.py:277-294 | the loop completes every entry |
| `UnusedProperties.IdentCapturesShape` | src/ignition_lint/rules/properties/unused_custom_properties.py:172-178 | every capture of an identifier pattern is an identifier |
| `UnusedProperties.BraceCapturesShape` | src/ignition_lint/rules/properties/unused_custom_properties.py:150-160 | every `([^}]+)` capture is non-empty and holds no `}` |
| `UnusedProperties.BraceCaptureOf` | src/ignition_lint/rules/properties/unused_custom_properties.py:150-160 | a pattern wrapped around a capture finds that capture |
| `UnusedProperties.IdentSearchAtStart` | src/ignition_lint/rules/properties/unused_custom_properties.py:267-268 | `re.search` finds an identifier right after the literal |
| `UnusedProperties.SegmentSearchAtStart` | src/ignition_lint/rules/properties/unused_custom_properties.py:287-288 | `([^.]+)\.custom\.(ident)` finds the segment and the identifier |
| `UnusedProperties.CustomTail` | src/ignition_lint/rules/properties/unused_custom_properties.py:96 | a match of `\.custom\.([^.]+)$` is a non-empty dot-free final segment after `.custom.` |
| `UnusedProperties.CustomTailOf` | src/ignition_lint/rules/properties/unused_custom_properties.py:96-98 | every path ending in `.custom.` and a dot-free segment matches, with that segment |
| `UnusedProperties.DefinitionKeyName` | src/ignition_lint/rules/properties/unused_custom_properties.py:77-106 | a definition key ends in the same segment as the property path |
| `UnusedProperties.DefinitionKeyCases` | src/ignition_lint/rules/properties/unused_custom_properties.py:81-106 | `custom.X` defines `view.custom.X`, `params.X` defines `view.params.X`; any other definition is a component property outside `propConfig.`; without `.custom.` there is no other |
| `UnusedProperties.ComponentBranch` | src/ignition_lint/rules/properties/unused_custom_properties.py:94-106 | the third branch keys by the last segment before the first `.custom.` and the final segment |
| `UnusedProperties.ComponentDefinition` | src/ignition_lint/rules/properties/unused_custom_properties.py:94-106 | a nested component property is keyed by the component's own name |
| `UnusedProperties.DefinitionKindOf` | src/ignition_lint/rules/properties/unused_custom_properties.py:210 | a definition is reported as a view parameter exactly when it comes from `params.X` |
| `UnusedProperties.WithPrefixMembers` | src/ignition_lint/rules/properties/unused_custom_properties.py:161-163 | a capture is recorded under the prefix, and nothing else is |
| `UnusedProperties.PatternUsesMembers` | src/ignition_lint/rules/properties/unused_custom_properties.py:159-163 | a use is recorded exactly when some pattern captures it under its handler's prefix |
| `UnusedProperties.ExpressionUsesShape` | src/ignition_lint/rules/properties/unused_custom_properties.py:149-157 | every use an expression records names a view custom property, a view parameter or a wildcard |
| `UnusedProperties.ExpressionReference` | src/ignition_lint/rules/properties/unused_custom_properties.py:149-163 | each of the five `{...}` forms records its use |
| `UnusedProperties.BranchUsesMembers` | src/ignition_lint/rules/properties/unused_custom_properties.py:179-185 | the branch chain records the use of each match it accepts and nothing when it accepts none |
| `UnusedProperties.ScriptUsesAsWrittenEmpty` | src/ignition_lint/rules/properties/unused_custom_properties.py:171-185 | as written, the branch tests look for unescaped dots in escaped regex sources, so a script records nothing |
| `UnusedProperties.NoScriptUses` | src/ignition_lint/rules/properties/unused_custom_properties.py:177-185 | the as-written loop over any escaped patterns records nothing |
| `UnusedProperties.ScriptBranches` | src/ignition_lint/rules/properties/unused_custom_properties.py:180-185 | applied to the matched text, the three branches record `view.custom.`, `view.params.` and `*.custom.` uses |
| `UnusedProperties.ScriptReference` | src/ignition_lint/rules/properties/unused_custom_properties.py:171-185 | in the corrected variant, each script reference form records its use |
| `UnusedProperties.ShortFormNeverMarks` | src/ignition_lint/rules/properties/unused_custom_properties.py:262-291 | a short-form `{X}` pattern never marks anything |
| `UnusedProperties.MarkedCustomBranch` | src/ignition_lint/rules/properties/unused_custom_properties.py:265-270 | a pattern holding `view.custom.` marks the identifier after it |
| `UnusedProperties.MarkedParamsBranch` | src/ignition_lint/rules/properties/unused_custom_properties.py:271-276 | a pattern holding `view.params.` marks the identifier after it |
| `UnusedProperties.MarkedGenericBranch` | src/ignition_lint/rules/properties/unused_custom_properties.py:277-284 | a `this.custom.` or `self.custom.` pattern marks the wildcard |
| `UnusedProperties.MarkedSegmentBranch` | src/ignition_lint/rules/properties/unused_custom_properties.py:285-291 | any other `.custom.` pattern marks the segment and identifier found |
| `UnusedProperties.MarkedViewCustomAfter` | src/ignition_lint/rules/properties/unused_custom_properties.py:228-229 | both view custom search patterns mark the property |
| `UnusedProperties.MarkedViewParamsAfter` | src/ignition_lint/rules/properties/unused_custom_properties.py:236-237 | both view parameter search patterns mark the parameter |
| `UnusedProperties.MarkedWildcardAfter` | src/ignition_lint/rules/properties/unused_custom_properties.py:247-248 | both generic component search patterns mark the wildcard |
| `UnusedProperties.MarkedComponent` | src/ignition_lint/rules/properties/unused_custom_properties.py:246 | the exact component search pattern marks that property when the name does not end in `view` |
| `UnusedProperties.ViewSuffixMisread` | src/ignition_lint/rules/properties/unused_custom_properties.py:265-270 | a component named `subview` has its exact reference read as that of a view property |
| `UnusedProperties.ConcatMapMembers` | src/ignition_lint/rules/properties/unused_custom_properties.py:223-249 | a pattern is collected exactly when some key contributes it |
| `UnusedProperties.ValueMarksMembers` | src/ignition_lint/rules/properties/unused_custom_properties.py:257-260 | a value marks a name exactly when some pattern found in it marks that name |
| `UnusedProperties.FlatMarksMembers` | src/ignition_lint/rules/properties/unused_custom_properties.py:252-260 | only string values mark, and each marks what its found patterns mark |
| `UnusedProperties.SearchUsesMembers` | src/ignition_lint/rules/properties/unused_custom_properties.py:215-260 | the search marks exactly the names some defined key's pattern marks when found in some string value |
| `UnusedProperties.SplitComponentKey` | src/ignition_lint/rules/properties/unused_custom_properties.py:242-244 | a component key splits into its component and property names |
| `UnusedProperties.ComponentKeyNotView` | src/ignition_lint/rules/properties/unused_custom_properties.py:224-240 | a component key lies outside the `view.` namespace |
| `UnusedProperties.ComponentPatterns` | src/ignition_lint/rules/properties/unused_custom_properties.py:240-249 | a component key contributes its exact path and the `this.` and `self.` forms |
| `UnusedProperties.ViewCustomPatterns` | src/ignition_lint/rules/properties/unused_custom_properties.py:224-231 | a view custom key contributes its path, its `self.` form and `{X}` |
| `UnusedProperties.ViewParamsPatterns` | src/ignition_lint/rules/properties/unused_custom_properties.py:232-239 | a view parameter key contributes its path, its `self.` form and `{X}` |
| `UnusedProperties.SearchFindsViewCustom` | src/ignition_lint/rules/properties/unused_custom_properties.py:215-270 | a defined view custom property whose path occurs in a string value is marked |
| `UnusedProperties.SearchFindsViewParams` | src/ignition_lint/rules/properties/unused_custom_properties.py:215-276 | a defined view parameter whose path occurs in a string value is marked |
| `UnusedProperties.SearchFindsComponent` | src/ignition_lint/rules/properties/unused_custom_properties.py:240-291 | a defined component property whose exact path occurs is marked |
| `UnusedProperties.SearchFindsWildcard` | src/ignition_lint/rules/properties/unused_custom_properties.py:247-284 | `this.custom.X` or `self.custom.X` in a value marks the wildcard of a defined component property |
| `UnusedProperties.ViewKeyUsed` | src/ignition_lint/rules/properties/unused_custom_properties.py:196-199 | a view key counts as used only when marked itself |
| `UnusedProperties.ComponentKeyUsed` | src/ignition_lint/rules/properties/unused_custom_properties.py:196-203 | a component key counts as used when it or its wildcard was marked |
| `UnusedProperties.UnusedDefinitionsMembers` | src/ignition_lint/rules/properties/unused_custom_properties.py:192-206 | exactly the definitions failing the test are collected, in definition order |
| `UnusedProperties.ReportsSnoc` | src/ignition_lint/rules/properties/unused_custom_properties.py:209-213 | one report per collected definition, in order |
| `UnusedProperties.ReportOfDefinition` | src/ignition_lint/rules/properties/unused_custom_properties.py:210-213 | the message reads `<path>: view parameter '<last segment>' is defined but never referenced` when the property's path contains `.params.` and says custom property otherwise |
| `UnusedProperties.StepDistinct` | src/ignition_lint/rules/properties/unused_custom_properties.py:85-106 | the definition table keeps distinct keys |
| `UnusedProperties.StepKeepsKey` | src/ignition_lint/rules/properties/unused_custom_properties.py:85-106 | a key once defined stays defined |
| `UnusedProperties.StepRecords` | src/ignition_lint/rules/properties/unused_custom_properties.py:85-106 | a definition maps its key to the node's path |
| `UnusedProperties.StepKeepsPath` | src/ignition_lint/rules/properties/unused_custom_properties.py:85-106 | other keys keep their paths |
| `UnusedProperties.StepsDistinct` | src/ignition_lint/rules/properties/unused_custom_properties.py:66-69 | a run keeps the keys distinct |
| `UnusedProperties.StepsUses` | src/ignition_lint/rules/properties/unused_custom_properties.py:108-141 | the used set is exactly the old one plus what the non-property nodes reference |
| `UnusedProperties.StepsRecord` | src/ignition_lint/rules/properties/unused_custom_properties.py:77-106 | a defining property node leaves its key defined |
| `UnusedProperties.StepsLocation` | src/ignition_lint/rules/properties/unused_custom_properties.py:85-106 | a key's path is that of the last property node defining it |
| `UnusedProperties.ViewReferenceNotReported` | tests/unit/test_unused_custom_properties.py:71-110 | a view custom property referenced by `{view.custom.X}` in an expression is defined and not reported |
| `UnusedProperties.WildcardReferenceNotReported` | tests/unit/test_unused_custom_properties.py:71-110 | a component property referenced by `{this.custom.X}` is defined and not reported |
| `UnusedProperties.UnusedCustomPropertiesRule.constructor` | src/ignition_lint/rules/properties/unused_custom_properties.py:39-50 | the nine target kinds; empty tables and errors |
| `UnusedProperties.UnusedCustomPropertiesRule.Reset` | src/ignition_lint/rules/properties/unused_custom_properties.py:56-60 | the tables are emptied, the errors are kept |
| `UnusedProperties.UnusedCustomPropertiesRule.SetFlattenedJson` | src/ignition_lint/rules/properties/unused_custom_properties.py:62-64 | only the flattened view changes |
| `UnusedProperties.UnusedCustomPropertiesRule.VisitProperty` | src/ignition_lint/rules/properties/unused_custom_properties.py:77-106 | a defining path is stored under its key; nothing else changes |
| `UnusedProperties.UnusedCustomPropertiesRule.RecordCaptures` | src/ignition_lint/rules/properties/unused_custom_properties.py:161-163 | the captures are added under the prefix |
| `UnusedProperties.UnusedCustomPropertiesRule.CheckExpressionForReferences` | src/ignition_lint/rules/properties/unused_custom_properties.py:143-163 | the expression's uses are added |
| `UnusedProperties.UnusedCustomPropertiesRule.RecordMatches` | src/ignition_lint/rules/properties/unused_custom_properties.py:179-185 | the branch chain's uses for the matches are added |
| `UnusedProperties.UnusedCustomPropertiesRule.CheckScriptForReferences` | src/ignition_lint/rules/properties/unused_custom_properties.py:165-185 | the corrected variant: the script's uses, with the branch tests on the matched text |
| `UnusedProperties.UnusedCustomPropertiesRule.Accept` | src/ignition_lint/rules/properties/unused_custom_properties.py:77-141 | the tracking state becomes the visit of the node (corrected variant: script references come from `ScriptUses`) |
| `UnusedProperties.UnusedCustomPropertiesRule.MarkPropertyUsedFromPattern` | src/ignition_lint/rules/properties/unused_custom_properties.py:262-291 | the pattern's mark is added |
| `UnusedProperties.UnusedCustomPropertiesRule.CollectPatterns` | src/ignition_lint/rules/properties/unused_custom_properties.py:221-249 | the search patterns of the keys, key by key |
| `UnusedProperties.UnusedCustomPropertiesRule.MarkValue` | src/ignition_lint/rules/properties/unused_custom_properties.py:257-260 | the marks of one value are added |
| `UnusedProperties.UnusedCustomPropertiesRule.SearchFlattenedJson` | src/ignition_lint/rules/properties/unused_custom_properties.py:215-260 | the search's marks are added; nothing when either table is empty |
| `UnusedProperties.UnusedCustomPropertiesRule.CollectUnused` | src/ignition_lint/rules/properties/unused_custom_properties.py:192-206 | the unused definitions, in order |
| `UnusedProperties.UnusedCustomPropertiesRule.ReportUnused` | src/ignition_lint/rules/properties/unused_custom_properties.py:208-213 | one report per unused definition is appended |
| `UnusedProperties.UnusedCustomPropertiesRule.Finalize` | src/ignition_lint/rules/properties/unused_custom_properties.py:187-213 | search first, then report every definition still unused |
| `UnusedProperties.UnusedCustomPropertiesRule.ProcessNodes` | src/ignition_lint/rules/properties/unused_custom_properties.py:66-72 | errors cleared, tables carried over and extended by the run, then one report per unused definition; the corrected script variant |
| `ScriptBatch.Lines` | src/ignition_lint/rules/scripts/lint_script.py:94 | a text has one line more than it has newlines, as `count('\n') + 1` counts them |
| `ScriptBatch.LinesOfLine` | src/ignition_lint/rules/scripts/lint_script.py:94 | a text without a newline is exactly one line |
| `ScriptBatch.LinesJoin` | src/ignition_lint/rules/scripts/lint_script.py:106 | joining two texts with a newline concatenates their line lists |
| `ScriptBatch.JoinSnoc` | src/ignition_lint/rules/scripts/lint_script.py:106 | joining one more part appends a newline and that part to the joined text |
| `ScriptBatch.LinesOfJoin` | src/ignition_lint/rules/scripts/lint_script.py:106 | the lines of `"\n".join(parts)` are the lines of each part, one part after the other |
| `ScriptBatch.PartsLinesAppend` | src/ignition_lint/rules/scripts/lint_script.py:106 | the lines of two runs of parts are the lines of the first run followed by those of the second |
| `ScriptBatch.PartsLinesOfLines` | src/ignition_lint/rules/scripts/lint_script.py:78-85 | parts that hold no newline are their own lines |
| `ScriptBatch.PreambleOnOneLine` | src/ignition_lint/rules/scripts/lint_script.py:78-86 | the stub preamble is six newline-free lines, so the counter reaches 7 before the first header |
| `ScriptBatch.OffsetMono` | src/ignition_lint/rules/scripts/lint_script.py:88-104 | the line counter never goes back, and script `k` advances it by its lines plus its header and blank line |
| `ScriptBatch.FillSpec` | src/ignition_lint/rules/scripts/lint_script.py:97-98 | the loop maps exactly the lines of its range to the path and leaves every other line as it was |
| `ScriptBatch.HeaderOnOneLine` | src/ignition_lint/rules/scripts/lint_script.py:89 | the separator comment of a path without a newline is a single line |
| `ScriptBatch.BlockLinesLength` | src/ignition_lint/rules/scripts/lint_script.py:88-104 | the lines the first `k` scripts add number exactly what the counter advanced by |
| `ScriptBatch.BlockParts` | src/ignition_lint/rules/scripts/lint_script.py:89-103 | one script adds its header, its own lines and one blank line |
| `ScriptBatch.BlockSnoc` | src/ignition_lint/rules/scripts/lint_script.py:88-104 | adding a script's three parts appends its header, lines and blank line to the lines so far |
| `ScriptBatch.BlocksLines` | src/ignition_lint/rules/scripts/lint_script.py:88-104 | the parts the first `k` scripts append give exactly their blocks of lines |
| `ScriptBatch.CombinedLines` | src/ignition_lint/rules/scripts/lint_script.py:78-106 | the combined file's lines are the preamble followed by every script's block |
| `ScriptBatch.BlockLinesPrefix` | src/ignition_lint/rules/scripts/lint_script.py:88-104 | the blocks of fewer scripts are a prefix of the blocks of more scripts |
| `ScriptBatch.BlockOfScript` | src/ignition_lint/rules/scripts/lint_script.py:88-104 | script `k`'s block starts where the counter stood, with its header, then holds its lines in order |
| `ScriptBatch.BlockLinesAt` | src/ignition_lint/rules/scripts/lint_script.py:88-106 | later scripts do not move script `k`'s header or lines |
| `ScriptBatch.LineMapKeyBlock` | src/ignition_lint/rules/scripts/lint_script.py:96-98 | every mapped line lies in the line range of one of the scripts |
| `ScriptBatch.LineMapBounds` | src/ignition_lint/rules/scripts/lint_script.py:96-98 | every mapped line lies after the counter's start and before the end of the last block |
| `ScriptBatch.LineMapAt` | src/ignition_lint/rules/scripts/lint_script.py:96-98 | line `j` of script `k` is mapped to that script's path, whatever scripts follow |
| `ScriptBatch.LineMapShift` | src/ignition_lint/rules/scripts/lint_script.py:76-98 | starting the counter `d` lines later shifts every mapped line by `d` and keeps its path |
| `ScriptBatch.OwnerIs` | src/ignition_lint/rules/scripts/lint_script.py:160-165 | the owner of a line is the path of the greatest mapped line at or below it |
| `ScriptBatch.OwnerNone` | src/ignition_lint/rules/scripts/lint_script.py:160-165 | a line with no mapped line at or below it has no owner |
| `ScriptBatch.StartLineExists` | src/ignition_lint/rules/scripts/lint_script.py:169 | a path that has a mapped line has a least one |
| `ScriptBatch.StartLineIs` | src/ignition_lint/rules/scripts/lint_script.py:169 | the `min` over a path's lines is the mapped line no other line of that path precedes |
| `ScriptBatch.StartLineLeast` | src/ignition_lint/rules/scripts/lint_script.py:169 | no mapped line of a path lies before its start line |
| `ScriptBatch.OwnerMapped` | src/ignition_lint/rules/scripts/lint_script.py:151-154 | a line's owner is a mapped path whose first line is at or before it, so its relative line is at least 1 |
| `ScriptBatch.OwnerOfLine` | src/ignition_lint/rules/scripts/lint_script.py:151-153 | with distinct paths, every line of script `k`'s block after its header is owned by script `k` |
| `ScriptBatch.FirstLineOfOnlyScript` | src/ignition_lint/rules/scripts/lint_script.py:88-91 | a single script starts on the line after its header |
| `ScriptBatch.OwnerOfOnlyScript` | src/ignition_lint/rules/scripts/lint_script.py:160-165 | with a single script, every line after its header belongs to it |
| `ScriptBatch.OwnerBeforeFirst` | src/ignition_lint/rules/scripts/lint_script.py:160-165 | a line at or before the counter's start (the preamble) has no owner |
| `ScriptBatch.KeyOfScript` | src/ignition_lint/rules/scripts/lint_script.py:169 | with distinct paths, a line mapped to script `k`'s path is not before its first line |
| `ScriptBatch.KeysOfScript` | src/ignition_lint/rules/scripts/lint_script.py:169 | with distinct paths, every line mapped to script `k`'s path is at or after its first line |
| `ScriptBatch.StartOfScript` | src/ignition_lint/rules/scripts/lint_script.py:169-170 | with distinct paths, each script's start line is the line right after its header |
| `ScriptBatch.FindScriptForLine` | src/ignition_lint/rules/scripts/lint_script.py:160-165 | scanning the keys from the greatest down returns the owner of the line, or nothing |
| `ScriptBatch.CalculateRelativeLine` | src/ignition_lint/rules/scripts/lint_script.py:167-170 | the relative line is one plus the distance from the path's least mapped line |
| `ScriptBatch.CombineScripts` | src/ignition_lint/rules/scripts/lint_script.py:73-106 | the method returns the newline-joined preamble and blocks and the line map the counter builds |
| `ScriptBatch.ScriptLineOwned` | src/ignition_lint/rules/scripts/lint_script.py:151-155 | with distinct paths, line `j` of script `k` is owned by `k` and numbered `j + 1` relative to it |
| `ScriptBatch.ScriptLineText` | src/ignition_lint/rules/scripts/lint_script.py:78-106 | the line of the combined file the counter assigns to line `j` of script `k` holds that line of the script |
| `ScriptBatch.ColumnEnd` | src/ignition_lint/rules/scripts/lint_script.py:142 | it finds a colon, a line digit run, a colon, a column digit run and `": "` at the given place |
| `ScriptBatch.ColumnEndOfMatch` | src/ignition_lint/rules/scripts/lint_script.py:142 | the digit runs of any match at a place are the ones `ColumnEnd` finds there |
| `ScriptBatch.SepDown` | src/ignition_lint/rules/scripts/lint_script.py:142 | it finds the last `": "` in range that leaves a non-empty message, or shows there is none |
| `ScriptBatch.MatchDown` | src/ignition_lint/rules/scripts/lint_script.py:142 | it finds the greatest start where the rest of the pattern matches, which is where `.*` stops when it backtracks from the longest |
| `ScriptBatch.ParseDiagnosticNone` | src/ignition_lint/rules/scripts/lint_script.py:142-146 | a line is skipped exactly when the pattern matches it nowhere |
| `ScriptBatch.ParseDiagnosticFound` | src/ignition_lint/rules/scripts/lint_script.py:142-150 | a parsed diagnostic reads a real match, and among all matches it takes the last start and the last message separator, as greedy `.*` and `.+` do |
| `ScriptBatch.ParseDiagnosticGreedy` | src/ignition_lint/rules/scripts/lint_script.py:142-144 | every match starts at or before the one the parse reads |
| `ScriptBatch.ReportLineParsed` | src/ignition_lint/rules/scripts/lint_script.py:142-150 | a text-reporter line `file:line:column: id: message` with colon-free id and message parses to that line and that message |
| `ScriptIssues.Entries` | src/ignition_lint/rules/scripts/lint_script.py:88-93 | the batch holds each collected script's path and formatted script, in collection order, and distinct collections give distinct paths |
| `ScriptIssues.Paths` | src/ignition_lint/rules/scripts/lint_script.py:50 | the paths of the entries, in order |
| `ScriptIssues.FreshIssues` | src/ignition_lint/rules/scripts/lint_script.py:50 | there is one issue list per script |
| `ScriptIssues.FreshIssuesGet` | src/ignition_lint/rules/scripts/lint_script.py:50 | every script starts with an empty issue list and no other path has one |
| `ScriptIssues.IssueTextInjective` | src/ignition_lint/rules/scripts/lint_script.py:155 | issues about different relative lines have different texts |
| `ScriptIssues.Target` | src/ignition_lint/rules/scripts/lint_script.py:144-155 | a diagnostic line is only ever recorded against a script that has an issue list |
| `ScriptIssues.RecordLine` | src/ignition_lint/rules/scripts/lint_script.py:143-158 | one report line appends its issue to its owner's list, and any other line changes nothing |
| `ScriptIssues.ParseOutput` | src/ignition_lint/rules/scripts/lint_script.py:138-158 | the loop records every line of the report, in order |
| `ScriptIssues.RecordKeeps` | src/ignition_lint/rules/scripts/lint_script.py:153-155 | recording a line keeps every script in its place and only extends lists |
| `ScriptIssues.PutKeeps` | src/ignition_lint/rules/scripts/lint_script.py:155 | appending to one script's list keeps every script in its place and shortens no list |
| `ScriptIssues.RecordAllKeeps` | src/ignition_lint/rules/scripts/lint_script.py:143-158 | the whole report keeps every script in its place and only extends lists |
| `ScriptIssues.RecordAllAppend` | src/ignition_lint/rules/scripts/lint_script.py:143 | recording two runs of lines is recording the first run and then the second |
| `ScriptIssues.RecordDiagnostic` | src/ignition_lint/rules/scripts/lint_script.py:149-155 | a diagnostic about line `j` of script `k` appends `Line <j+1>: <message>` to script `k`'s list |
| `ScriptIssues.RecordReport` | src/ignition_lint/rules/scripts/lint_script.py:142-155 | the report line pylint prints about line `j` of script `k` appends `Line <j+1>: <message>` to script `k`'s list |
| `ScriptIssues.RecordOwned` | src/ignition_lint/rules/scripts/lint_script.py:151-155 | a diagnostic with an owner is recorded against that owner at its relative line |
| `ScriptIssues.RecordBeforeScripts` | src/ignition_lint/rules/scripts/lint_script.py:151-153 | a diagnostic about a line at or before the counter's start is dropped |
| `ScriptIssues.ReportedIssue` | src/ignition_lint/rules/scripts/lint_script.py:143-155 | a report line about line `j` of script `k` leaves `Line <j+1>: <message>` in that script's final list |
| `ScriptIssues.BatchDiagnostic` | src/ignition_lint/rules/scripts/lint_script.py:41-44 | that issue ends up among the batch's errors as `<path>: Line <j+1>: <message>` |
| `ScriptIssues.BatchReported` | src/ignition_lint/rules/scripts/lint_script.py:41-44 | the same, for a line of the text reporter's output |
| `ScriptIssues.RecordedStays` | src/ignition_lint/rules/scripts/lint_script.py:143-155 | an issue recorded by one report line is still there at the end of the report |
| `ScriptIssues.StaysAfter` | src/ignition_lint/rules/scripts/lint_script.py:143 | an issue present after one run of lines survives any further run |
| `ScriptIssues.RecordedAt` | src/ignition_lint/rules/scripts/lint_script.py:143-155 | right after its report line, the issue is in its script's list |
| `ScriptIssues.KeepsKey` | src/ignition_lint/rules/scripts/lint_script.py:143-155 | a script keeps its list over any run of lines, and the list only grows |
| `ScriptIssues.StaysRecorded` | src/ignition_lint/rules/scripts/lint_script.py:143-155 | an issue once recorded is there after any further lines |
| `ScriptIssues.HandleError` | src/ignition_lint/rules/scripts/lint_script.py:177-182 | the loop appends the failure message to every script's list |
| `ScriptIssues.AppendAllGet` | src/ignition_lint/rules/scripts/lint_script.py:181-182 | after a failure every script keeps its place and gets the message last, and no script is added |
| `ScriptIssues.PathLines` | src/ignition_lint/rules/scripts/lint_script.py:42-44 | one error per issue of a script |
| `ScriptIssues.IssueLinesMembers` | src/ignition_lint/rules/scripts/lint_script.py:41-44 | an error is exactly some script's path, `": "` and one of that script's issues |
| `ScriptIssues.IssueLinesCount` | src/ignition_lint/rules/scripts/lint_script.py:41-44 | there are exactly as many errors as issues |
| `ScriptIssues.EmptyIssueLines` | src/ignition_lint/rules/scripts/lint_script.py:41-44 | scripts without issues add no errors |
| `ScriptIssues.IssueError` | src/ignition_lint/rules/scripts/lint_script.py:41-44 | every issue of every script becomes the error `<path>: <issue>` |
| `ScriptIssues.FailedIssues` | src/ignition_lint/rules/scripts/lint_script.py:177-182 | a failed run leaves every script in order with the failure's message alone |
| `ScriptIssues.AppendAllFresh` | src/ignition_lint/rules/scripts/lint_script.py:50-61 | a failure before any report line leaves each script with the one failure message |
| `ScriptIssues.FailedLines` | src/ignition_lint/rules/scripts/lint_script.py:41-61 | the errors of a failed run are one `<path>: <message>` per script, in order |
| `ScriptIssues.AppendIssueLines` | src/ignition_lint/rules/scripts/lint_script.py:41-44 | the nested loops append one `<path>: <issue>` per issue, script by script, after the earlier errors |
| `LintScript.RunPylintBatch` | src/ignition_lint/rules/scripts/lint_script.py:46-65 | a report is parsed over the preamble-offset line map; a file or import failure gives each script one issue; any other exception leaves the method |
| `LintScript.DiagnosticReported` | src/ignition_lint/rules/scripts/lint_script.py:32-65 | a diagnostic about line `j` of script `k` names the combined-file line that holds it and becomes the error `<path>: Line <j+1>: <message>` |
| `LintScript.BatchFailed` | src/ignition_lint/rules/scripts/lint_script.py:56-61 | a file or import failure gives every script, in order, the one issue with that failure's prefix and text |
| `LintScript.FailureReported` | src/ignition_lint/rules/scripts/lint_script.py:32-61 | a file or import failure adds exactly one error per script, in order, after the earlier errors |
| `LintScript.PreambleSilent` | src/ignition_lint/rules/scripts/lint_script.py:142-155 | a report whose diagnostics only name preamble lines adds no error |
| `LintScript.SilentAll` | src/ignition_lint/rules/scripts/lint_script.py:143-155 | report lines about no script's line change no issue list |
| `LintScript.PylintScriptRule.constructor` | src/ignition_lint/rules/scripts/lint_script.py:24-26 | the rule targets every script kind, starts with debugging on, no errors and no scripts |
| `LintScript.PylintScriptRule.ErrorMessage` | src/ignition_lint/rules/scripts/lint_script.py:28-30 | the rule has a non-empty error message |
| `LintScript.PylintScriptRule.Accept` | src/ignition_lint/rules/common.py:111-127 | a script node is collected under its path, and nothing else changes |
| `LintScript.PylintScriptRule.ProcessScripts` | src/ignition_lint/rules/scripts/lint_script.py:32-44 | the errors grow by the batch's errors, or stay as they were when an exception escapes |
| `LintScript.PylintScriptRule.PostProcess` | src/ignition_lint/rules/common.py:129-133 | an empty collection adds nothing; otherwise the batch's errors are added and the collection emptied unless an exception escapes |
| `LintScript.PylintScriptRule.ProcessNodes` | src/ignition_lint/rules/common.py:64-76 | the errors are forgotten, the target nodes collected, and the errors become that collection's batch errors |
| `LintScriptLegacy.RunPylintBatch` | src/ignition_lint/rules/lint_script.py:40-167 | the report is parsed over the line map the counter builds from its start; any exception gives every script one issue |
| `LintScriptLegacy.AsWrittenMisnumbers` | src/ignition_lint/rules/lint_script.py:49 | as written, a diagnostic about line `j` of the only script is reported as `Line <j+7>`, not `Line <j+1>` |
| `LintScriptLegacy.SingleReport` | src/ignition_lint/rules/lint_script.py:122-143 | one report line about line `j` of the only script gives `Line <j+7>` as written and `Line <j+1>` as intended |
| `LintScriptLegacy.SingleReportAsWritten` | src/ignition_lint/rules/lint_script.py:49-81 | with the counter starting at 1, that report line is numbered six too high |
| `LintScriptLegacy.SingleReportCorrected` | src/ignition_lint/rules/lint_script.py:49-81 | with the counter starting after the preamble, that report line gets its own number |
| `LintScriptLegacy.SingleRecorded` | src/ignition_lint/rules/lint_script.py:143 | a single report line adds its issue to the only, empty, list |
| `LintScriptLegacy.CorrectedDiagnosticReported` | src/ignition_lint/rules/lint_script.py:27-38 | with the intended numbering, a diagnostic about line `j` of script `k` becomes the error `<path>: Line <j+1>: <message>` |
| `LintScriptLegacy.FailureReported` | src/ignition_lint/rules/lint_script.py:152-157 | any exception gives every script, in order, the one error `<path>: Error running pylint: <text>` |
| `LintScriptLegacy.PylintScriptRule.constructor` | src/ignition_lint/rules/lint_script.py:19-21 | the rule targets every script kind, starts with debugging on, no errors and no scripts |
| `LintScriptLegacy.PylintScriptRule.Accept` | src/ignition_lint/rules/common.py:111-127 | a script node is collected under its path, and nothing else changes |
| `LintScriptLegacy.PylintScriptRule.ProcessScripts` | src/ignition_lint/rules/lint_script.py:27-38 | the errors grow by the batch's errors under the intended numbering (corrected variant) |
| `LintScriptLegacy.PylintScriptRule.PostProcess` | src/ignition_lint/rules/common.py:129-133 | the collection's batch errors are added and the collection is emptied (corrected variant) |
| `LintScriptLegacy.PylintScriptRule.ProcessNodes` | src/ignition_lint/rules/common.py:64-76 | the errors become the batch errors of the collected target nodes, and the collection ends empty (corrected variant) |
| `ScriptRules.Indented` | src/ignition_lint/rules/script_rules.py:149 | the four-space margin is put before every line, one output line per input line |
| `ScriptRules.IndentedCons` | src/ignition_lint/rules/script_rules.py:149 | indenting a run of lines is indenting its first line, then the rest |
| `ScriptRules.GenericHeaderOnOneLine` | src/ignition_lint/rules/script_rules.py:149 | the `generic_script` header holds no line break |
| `ScriptRules.ReplaceLines` | src/ignition_lint/rules/script_rules.py:149 | replacing each newline by a newline and the margin keeps the first line and indents every later line |
| `ScriptRules.ReplaceNewline` | src/ignition_lint/rules/script_rules.py:149 | a leading newline ends the first line, and the rest follows on indented lines |
| `ScriptRules.ReplaceChar` | src/ignition_lint/rules/script_rules.py:149 | any other leading character stays on the first line |
| `ScriptRules.WrapLines` | src/ignition_lint/rules/script_rules.py:149-156 | the wrapped code is the header line followed by every line of the code indented, one line more than the code |
| `ScriptRules.ObjectTextOnOneLine` | src/ignition_lint/rules/script_rules.py:152 | the `str()` text of a script node is one line |
| `ScriptRules.AsWrittenLintsObjectText` | src/ignition_lint/rules/script_rules.py:145-153 | as written a collected node is rendered as the header and its one-line object text, and the rendering does not depend on the node's script |
| `ScriptRules.CorrectedKeepsScript` | src/ignition_lint/model/node_types.py:203-207 | the corrected rendering is the function definition line followed by the script's lines, and a non-blank script is kept as it is |
| `ScriptRules.AsWrittenEntries` | src/ignition_lint/rules/script_rules.py:110-153 | as written the batch holds each collected path with the rendering of the node's `str()` text, in order |
| `ScriptRules.Visited` | src/ignition_lint/rules/script_rules.py:87-102 | the bodies a visit runs are all visits the rule overrides |
| `ScriptRules.StoresAny` | src/ignition_lint/rules/script_rules.py:87-102 | a node is stored exactly when one of the bodies that run is a storing visit |
| `ScriptRules.VisitKinds` | src/ignition_lint/rules/script_rules.py:87-102 | only message handlers and custom methods are collected; transforms, query bindings and structured expression bindings raise; `visit_script` is never reached |
| `ScriptRules.DispatchOfNames` | src/ignition_lint/rules/script_rules.py:87-102 | which visit names the rule overrides, stores with, and lacks |
| `ScriptRules.EmptyReportSilent` | src/ignition_lint/rules/script_rules.py:204 | an empty report adds no issue and no error |
| `ScriptRules.RunPylintBatch` | src/ignition_lint/rules/script_rules.py:123-253 | the batch's issues are those of the analyzer's outcome on the combined file, with no preamble |
| `ScriptRules.HeaderFirst` | src/ignition_lint/rules/script_rules.py:131-142 | without a preamble the first header is line 1 and the first script starts on line 2 |
| `ScriptRules.DiagnosticReported` | src/ignition_lint/rules/script_rules.py:104-227 | a diagnostic about line `j` of script `k` names the line that holds it and becomes the error `<path>: Line <j+1>: <message>` |
| `ScriptRules.ReportInErrors` | src/ignition_lint/rules/script_rules.py:116-118 | the issue of that diagnostic is among the errors the rule adds |
| `ScriptRules.FailureReported` | src/ignition_lint/rules/script_rules.py:234-241 | any exception gives every script, in order, the one error `<path>: Error running pylint: <text>` |
| `ScriptRules.PylintScriptRule.constructor` | src/ignition_lint/rules/script_rules.py:82-85 | the rule starts with debugging off, no errors and no scripts |
| `ScriptRules.PylintScriptRule.Accept` | src/ignition_lint/rules/script_rules.py:87-102 | a message handler or custom method is stored under its path; a node the rule has no visit for raises; the errors do not change |
| `ScriptRules.PylintScriptRule.ProcessCollectedScripts` | src/ignition_lint/rules/script_rules.py:104-121 | corrected variant: the batch errors of the collection, rendered as `get_formatted_script` renders them, are added and the collection is emptied |
| `Linter.ModelLists` | src/ignition_lint/linter.py:34 | the model's values are its eleven node lists |
| `Linter.ConcatModel` | src/ignition_lint/linter.py:33-35 | extending by every list of the model, in key order, gives all of the model's nodes |
| `Linter.GatherNodes` | src/ignition_lint/linter.py:33-35 | the loop collects exactly the model's nodes, list by list |
| `Linter.ErrorsOfSnoc` | src/ignition_lint/linter.py:40-46 | after one more rule: an earlier exception stays; the rule's own exception ends the run; otherwise its errors are stored under its error key when it reported any, and nothing changes otherwise |
| `Linter.ErrorsOfStopsAt` | src/ignition_lint/linter.py:40-42 | once a rule has raised, the later rules change nothing: the exception leaves `process` |
| `Linter.ErrorsOfRaises` | src/ignition_lint/linter.py:40-42 | the run fails exactly when some rule's `process_nodes` raises, and then with the exception of the first rule that does |
| `Linter.ErrorsOfSpec` | src/ignition_lint/linter.py:37-48 | when no rule raises, the run succeeds; a key is present exactly when some rule under it reported errors, with the errors of the last such rule; no key holds an empty list and none appears twice |
| `Linter.SilentRulesNoErrors` | src/ignition_lint/linter.py:45-46 | rules that all report nothing give an empty result |
| `Linter.TypeCountsSnoc` | src/ignition_lint/linter.py:62-65 | looking at one more type adds its count when positive and nothing otherwise |
| `Linter.TypeValueInjective` | src/ignition_lint/linter.py:65 | different node types have different values, so the counts never collide |
| `Linter.TypeCountsEntries` | src/ignition_lint/linter.py:61-65 | every entry is the positive count of one of the types looked at |
| `Linter.TypeCountsSpec` | src/ignition_lint/linter.py:61-65 | a type looked at is listed exactly when it has nodes, with their number; keys are distinct |
| `Linter.NodeTypeCounts` | src/ignition_lint/linter.py:61-65 | over every node type, a type is listed exactly when it has nodes, with their number |
| `Linter.BumpGet` | src/ignition_lint/linter.py:72 | bumping a component type adds one to its count, from 0 when absent, and changes no other type |
| `Linter.TallySnoc` | src/ignition_lint/linter.py:70-72 | tallying one more component bumps its type |
| `Linter.TallySpec` | src/ignition_lint/linter.py:68-72 | each component type seen maps to the number of components of that type; unseen types are absent |
| `Linter.CoverageOf` | src/ignition_lint/linter.py:93-102 | a rule with targets covers their values and the nodes of those types; a rule without targets covers `all` and every node |
| `Linter.CoverageCountsApplicable` | src/ignition_lint/linter.py:93-102 | in both cases the count is the number of nodes the rule is handed, at most all nodes |
| `Linter.CoverageTableSnoc` | src/ignition_lint/linter.py:90-102 | each rule's coverage is stored under its class name, a later rule of the same class replacing it |
| `Linter.NodeSummary` | src/ignition_lint/linter.py:172-187 | an expression binding is summarised by its expression cut at 50 characters, a script by its script cut at 30 |
| `Linter.Paths` | src/ignition_lint/linter.py:152 | the paths of the nodes, in order |
| `Linter.Details` | src/ignition_lint/linter.py:154-160 | one path, type value and summary per node, in order |
| `Linter.Prefix` | src/ignition_lint/linter.py:152 | the first `n` nodes, or all of them when there are fewer |
| `Linter.ImpactOf` | src/ignition_lint/linter.py:146-168 | a rule with targets gets their values, its node count, its first five paths and three details; one without gets `all`, every node and no details |
| `Linter.SamplesApply` | src/ignition_lint/linter.py:152 | every sample path is the path of a node the rule applies to |
| `Linter.ImpactTableSnoc` | src/ignition_lint/linter.py:143-168 | each rule's impact is stored under its class name, a later rule of the same class replacing it |
| `Linter.ParsedTypesSnoc` | src/ignition_lint/linter.py:119-125 | one more name adds its type when it names one and nothing otherwise |
| `Linter.ParsedTypesSpec` | src/ignition_lint/linter.py:117-125 | a type is kept exactly when one of the names is its value |
| `Linter.DebugSelectionSpec` | src/ignition_lint/linter.py:116-128 | without a single valid type name every node is kept; otherwise exactly the nodes of a named type |
| `Linter.LintEngine.constructor` | src/ignition_lint/linter.py:16-20 | the engine keeps its rules and a fresh builder and starts with no flattened view and an empty model |
| `Linter.LintEngine.Rebuild` | src/ignition_lint/linter.py:29-30 | the flattened view is stored and the model is rebuilt from it |
| `Linter.LintEngine.Build` | src/ignition_lint/linter.py:22-24 | the model is the builder's model of the flattened view |
| `Linter.LintEngine.Process` | src/ignition_lint/linter.py:26-48 | the model is rebuilt, and the result is the error lists of all rules over all its nodes, or the exception of the first rule that raises |
| `Linter.LintEngine.CollectErrors` | src/ignition_lint/linter.py:37-48 | the loop over the rules builds exactly the specified error lists, returning at the first rule that raises |
| `Linter.LintEngine.CountTypes` | src/ignition_lint/linter.py:61-65 | the loop over every node type builds exactly the specified counts |
| `Linter.LintEngine.TallyComponents` | src/ignition_lint/linter.py:68-72 | the loop over the components builds exactly the specified tally |
| `Linter.LintEngine.RuleCoverage` | src/ignition_lint/linter.py:87-104 | the loop over the rules builds exactly the specified coverage table |
| `Linter.LintEngine.GetModelStatistics` | src/ignition_lint/linter.py:50-85 | the node total, type counts, component tally, rule coverage and the model's keys |
| `Linter.LintEngine.DebugNodes` | src/ignition_lint/linter.py:106-131 | the nodes that would be serialized are the specified selection of the rebuilt model |
| `Linter.LintEngine.ParseNames` | src/ignition_lint/linter.py:117-125 | the loop keeps exactly the types some name gives |
| `Linter.LintEngine.AnalyzeRuleImpact` | src/ignition_lint/linter.py:133-170 | the model is rebuilt and each rule's impact is reported under its class name |
| `Linter.LintEngine.ImpactLoop` | src/ignition_lint/linter.py:142-170 | the loop over the rules builds exactly the specified impact table |
| `LinterMain.ValidateSpec` | src/ignition_lint/main.py:15-32 | the linter accepts exactly the settings both rules accept and builds each checker from the style the rule would choose; component settings are judged before parameter ones, a conflict before a missing style |
| `LinterMain.ExtendsTrans` | src/ignition_lint/main.py:148-173 | extending errors twice is extending them once |
| `LinterMain.LintValueExtends` | src/ignition_lint/main.py:148-173 | the traversal only appends, never records a parameter path twice, and fails only on a component value that is not a dict |
| `LinterMain.LintMembersExtends` | src/ignition_lint/main.py:158-173 | the same for the loop over a dict's keys |
| `LinterMain.LintMemberExtends` | src/ignition_lint/main.py:159-173 | the same for one turn of that loop |
| `LinterMain.LintItemsExtends` | src/ignition_lint/main.py:169-173 | the same for the loop over a list's items |
| `LinterMain.RootResetsLinterPath` | src/ignition_lint/main.py:150-152 | below a component named `root` the path starts again at `root`, whatever the parent path was |
| `LinterMain.ViewAreaPath` | src/ignition_lint/main.py:163-166 | parameters under `custom` or `params` of a dict with an empty parent path are reported below `view` |
| `LinterMain.ViewPersists` | src/ignition_lint/main.py:164-166 | once `view` has replaced an empty parent path, the later keys of that dict see it |
| `LinterMain.LintDataSpec` | src/ignition_lint/main.py:109-118 | a linted view never reports a parameter path twice, and its own `propConfig` keys are checked one level deep below `view` |
| `LinterMain.ChildAReported` | src/ignition_lint/main.py:150-156 | a child named `A` whose name fails is reported once at `<parent>/A` |
| `LinterMain.EmptyCustom` | src/ignition_lint/main.py:162-166 | an empty `custom` dict reports nothing but turns an empty parent path into `view` |
| `LinterMain.ChildrenA` | src/ignition_lint/main.py:169-173 | a `children` list holding `A` reports `<parent>/A` and restores the parent path |
| `LinterMain.ChildAfterCustom` | src/ignition_lint/main.py:158-173 | a failing child listed after an empty `custom` dict is reported as `view/A` |
| `LinterMain.ChildBeforeCustom` | src/ignition_lint/main.py:158-173 | the same child listed before it is reported as `/A` |
| `LinterMain.JsonLinter.constructor` | src/ignition_lint/main.py:34-53 | the linter keeps its settings, builds both checkers from the chosen style, and starts with no errors and no files linted |
| `LinterMain.JsonLinter.Create` | src/ignition_lint/main.py:15-53 | the first failing check gives its `ValueError`; otherwise a fresh linter with empty errors and checkers from the chosen styles |
| `LinterMain.JsonLinter.CheckParameterNames` | src/ignition_lint/main.py:129-146 | the parameter paths the traversal adds are those of the parameter-name rule's traversal, and the component list is untouched |
| `LinterMain.JsonLinter.CheckParameter` | src/ignition_lint/main.py:131-146 | one key: cleaning the key gives what the rule's cleaning of the key path gives |
| `LinterMain.JsonLinter.CheckComponentNames` | src/ignition_lint/main.py:148-173 | the method computes the specified traversal |
| `LinterMain.JsonLinter.CheckComponentMember` | src/ignition_lint/main.py:158-173 | one turn of the loop computes the specified parent path and errors |
| `LinterMain.JsonLinter.LintDecoded` | src/ignition_lint/main.py:109-127 | the errors start afresh; on success they are the specified ones and the file is counted and the number of errors returned; a failure counts nothing |
| `ComponentName.ChooseStyleSpec` | src/ignition_lint/rules/component_name.py:10-16 | the constructor fails exactly when both styles are given or neither is passed; a given regex wins over the named style; the style ends up unset exactly when the only argument is an empty regex |
| `ComponentName.Failing` | src/ignition_lint/rules/component_name.py:36-37 | no more failures than visited components |
| `ComponentName.FailingAppend` | src/ignition_lint/rules/component_name.py:36-37 | the failures of two runs of components are those of the first run followed by those of the second |
| `ComponentName.FailingMembers` | src/ignition_lint/rules/component_name.py:36-37 | a path is recorded exactly for each visited component whose name fails |
| `ComponentName.CheckValueSpec` | src/ignition_lint/rules/component_name.py:27-48 | the style only filters: the traversal fails exactly where the reference list of visited components does, and otherwise appends the paths of the failing names in visiting order |
| `ComponentName.RecordedThen` | src/ignition_lint/rules/component_name.py:39-48 | recording one part of the traversal and then the rest is recording the two combined |
| `ComponentName.CheckMembersSpec` | src/ignition_lint/rules/component_name.py:39-48 | the same for the loop over a dict's members |
| `ComponentName.CheckItemsSpec` | src/ignition_lint/rules/component_name.py:44-48 | the same for the loop over a list's items |
| `ComponentName.BelowAppend` | src/ignition_lint/rules/component_name.py:39-48 | components below the parent path in two runs are below it together |
| `ComponentName.BelowChild` | src/ignition_lint/rules/component_name.py:32-35 | what lies below a child's path lies below its parent's |
| `ComponentName.OwnBelow` | src/ignition_lint/rules/component_name.py:32-35 | a component's own path lies below its parent path, or below `root` |
| `ComponentName.NamedBelow` | src/ignition_lint/rules/component_name.py:27-48 | every visited component's path lies below the parent path or below `root`, and ends with `/` and its own name |
| `ComponentName.NamedMembersBelow` | src/ignition_lint/rules/component_name.py:39-48 | the same for the loop over a dict's members |
| `ComponentName.NamedItemsBelow` | src/ignition_lint/rules/component_name.py:44-48 | the same for the loop over a list's items, whose parent path is restored after each item |
| `ComponentName.RecordedPaths` | src/ignition_lint/rules/component_name.py:27-48 | the earlier paths are kept in front, and every new path lies below the parent path or below `root` and ends with `/` and a name the style rejects |
| `ComponentName.RootResetsPath` | src/ignition_lint/rules/component_name.py:32-33 | below a component named `root` the path starts again at `root`, whatever the parent path was |
| `ComponentName.NamedComponentFirst` | src/ignition_lint/rules/component_name.py:34-35 | a named component other than `root` is visited first, at `<parent>/<name>` |
| `LinterMain.RuleIgnoresCustom` | src/ignition_lint/rules/component_name.py:39-48 | the rule searches an empty `custom` dict for components and reports the later failing child as `/A` |
| `ComponentName.ComponentNameRule.constructor` | src/ignition_lint/rules/component_name.py:16-17 | the rule keeps the chosen style and builds its checker from it |
| `ComponentName.ComponentNameRule.Create` | src/ignition_lint/rules/component_name.py:10-17 | a failing check gives its `ValueError`; otherwise a fresh rule with the chosen style and its checker |
| `ComponentName.ComponentNameRule.ErrorMessage` | src/ignition_lint/rules/component_name.py:23-25 | the message names the style the components should follow |
| `ComponentName.ComponentNameRule.CheckInto` | src/ignition_lint/rules/component_name.py:31-48 | the method computes the specified traversal |
| `ComponentName.ComponentNameRule.Check` | src/ignition_lint/rules/component_name.py:27-48 | the `components` list (created empty when absent) grows by the traversal's paths, and no other key changes |
| `ParameterName.ChooseParameterStyleSpec` | src/ignition_lint/rules/parameter_name.py:10-18 | the constructor fails for both styles, for neither, and for a named `Title Case` (reported as a conflict when a regex is given too); otherwise it picks its style as the component-name rule does |
| `ParameterName.BuildKeyPath` | src/ignition_lint/rules/parameter_name.py:34-35 | the key path starts with the parent path and ends with the key |
| `ParameterName.CleanKey` | src/ignition_lint/rules/parameter_name.py:37-38 | the cleaned key is a dot-free end of the key |
| `ParameterName.CleanKeyOfPath` | src/ignition_lint/rules/parameter_name.py:51-52 | cleaning a key path gives what cleaning its last key gives |
| `ParameterName.AddError` | src/ignition_lint/rules/parameter_name.py:40-42 | the path is appended only when it is new and the parent does not contain `props.params`; otherwise nothing changes |
| `ParameterName.RecordAppend` | src/ignition_lint/rules/parameter_name.py:48-58 | recording two runs of keys is recording the first and then the second |
| `ParameterName.RecordExtends` | src/ignition_lint/rules/parameter_name.py:40-42 | recording only ever appends |
| `ParameterName.RecordNoDuplicates` | src/ignition_lint/rules/parameter_name.py:41 | no path is recorded twice |
| `ParameterName.RecordMembers` | src/ignition_lint/rules/parameter_name.py:48-55 | a path ends up recorded exactly when it was already there or it is a visited key path whose cleaned form fails the style, under a parent without `props.params` |
| `ParameterName.RecordSuppressed` | src/ignition_lint/rules/parameter_name.py:41 | under parents that all contain `props.params` nothing is recorded |
| `ParameterName.RecordedKeysThen` | src/ignition_lint/rules/parameter_name.py:48-58 | recording one part of the traversal and then the rest is recording the two combined |
| `ParameterName.CheckParamsSpec` | src/ignition_lint/rules/parameter_name.py:44-58 | the traversal fails exactly where the reference list of visited keys does, and otherwise records those keys in turn |
| `ParameterName.CheckKeysSpec` | src/ignition_lint/rules/parameter_name.py:48-58 | the same for the loop over a dict's keys |
| `ParameterName.UnderAppend` | src/ignition_lint/rules/parameter_name.py:48-58 | keys below the starting parent in two runs are below it together |
| `ParameterName.UnderChild` | src/ignition_lint/rules/parameter_name.py:57-58 | what lies below a key path lies below its parent |
| `ParameterName.VisitedUnder` | src/ignition_lint/rules/parameter_name.py:44-58 | every visited key lies below the starting parent, and without recursion every one is a key of the dict itself |
| `ParameterName.VisitedKeysUnder` | src/ignition_lint/rules/parameter_name.py:48-58 | the same for the loop over a dict's keys |
| `ParameterName.DictNeverFails` | src/ignition_lint/rules/parameter_name.py:57-58 | only dicts are descended, so a dict is always traversed to the end |
| `ParameterName.DictKeysNeverFail` | src/ignition_lint/rules/parameter_name.py:48-58 | the same for the loop over a dict's keys |
| `ParameterName.CheckParamsRecords` | src/ignition_lint/rules/parameter_name.py:44-58 | on a dict `check` succeeds, keeps the paths already there in front, records none twice, adds exactly the failing visited keys outside `props.params`, and without recursion only keys of the dict itself |
| `ParameterName.PropsParamsSuppressed` | src/ignition_lint/rules/parameter_name.py:40-58 | below a parent containing `props.params` nothing is ever recorded, at any depth |
| `ParameterName.ParameterNameRule.constructor` | src/ignition_lint/rules/parameter_name.py:18-21 | the rule keeps the chosen style and the areas and builds its checker from the style |
| `ParameterName.ParameterNameRule.Create` | src/ignition_lint/rules/parameter_name.py:10-21 | a failing check gives its `ValueError`; otherwise a fresh rule with the chosen style, the areas and its checker |
| `ParameterName.ParameterNameRule.ErrorMessage` | src/ignition_lint/rules/parameter_name.py:27-29 | the message names the style the parameters should follow |
| `ParameterName.ParameterNameRule.CheckInto` | src/ignition_lint/rules/parameter_name.py:48-58 | the method computes the specified traversal |
| `ParameterName.ParameterNameRule.CheckMember` | src/ignition_lint/rules/parameter_name.py:49-58 | one turn of the loop computes the specified step |
| `ParameterName.ParameterNameRule.Check` | src/ignition_lint/rules/parameter_name.py:44-58 | the `parameters` list (created empty when absent) grows by the traversal's paths, and no other key changes |
| `ExampleRule.NameTargets` | src/ignition_lint/rules/example_rule.py:25 | the name-length rule always has targets: no set, or an empty one, means components |
| `ExampleRule.LastSegmentSpec` | src/ignition_lint/rules/example_rule.py:35 | the name is the last piece of the split on dots, holds no dot and ends the path |
| `ExampleRule.LastSegmentOfChild` | src/ignition_lint/rules/example_rule.py:35 | a component placed under a parent path is named by its own segment |
| `ExampleRule.NameLengthErrors` | src/ignition_lint/rules/example_rule.py:33-41 | a visit appends at most one error, and one exactly for a component whose name is shorter than the minimum |
| `ExampleRule.NameLengthAppendedSnoc` | src/ignition_lint/rules/example_rule.py:33-41 | visiting one more node appends that node's errors |
| `ExampleRule.NameLengthReportSpec` | src/ignition_lint/rules/common.py:64-76 | with components among the targets, an error is reported exactly for each component whose name is too short, at most one per node |
| `ExampleRule.NameLengthWithoutComponents` | src/ignition_lint/rules/common.py:64-76 | targets that leave components out give no error at all |
| `ExampleRule.ExampleNameLengthRule.constructor` | src/ignition_lint/rules/example_rule.py:23-26 | the rule keeps its minimum and its targets and starts with no errors |
| `ExampleRule.ExampleNameLengthRule.VisitComponent` | src/ignition_lint/rules/example_rule.py:33-41 | the component's error, if its name is too short, is appended |
| `ExampleRule.ExampleNameLengthRule.Accept` | src/ignition_lint/rules/example_rule.py:33-41 | only a component's visit appends anything |
| `ExampleRule.ExampleNameLengthRule.ProcessNodes` | src/ignition_lint/rules/common.py:64-76 | the errors become the specified report over the nodes |
| `ExampleRule.PyInt` | src/ignition_lint/rules/example_rule.py:60 | text that is not a base-10 integer gives the `ValueError` that quotes it |
| `ExampleRule.PyIntOfIntToString` | src/ignition_lint/rules/example_rule.py:60 | `int(str(n))` is `n` |
| `ExampleRule.PyIntRefuses` | src/ignition_lint/rules/example_rule.py:60 | text that is not a number after stripping is refused |
| `ExampleRule.StripInside` | src/ignition_lint/rules/example_rule.py:60 | stripping only keeps characters of its argument |
| `ExampleRule.ConvertThresholdSpec` | src/ignition_lint/rules/example_rule.py:59-63 | a threshold given as text is replaced by its integer and every other entry and key is kept; the conversion fails exactly when that text is not a number |
| `ExampleRule.PreprocessConfigSpec` | src/ignition_lint/rules/example_rule.py:54-65 | the class method fails exactly when a threshold given as text is not a number; otherwise no threshold is left as text and every other entry and the key order is kept |
| `ExampleRule.PreprocessConfigIdempotent` | src/ignition_lint/rules/example_rule.py:54-65 | preprocessing an already preprocessed configuration changes nothing |
| `ExampleRule.OwnerSearch` | src/ignition_lint/rules/example_rule.py:103-107 | a component found by the search is one whose count exists |
| `ExampleRule.OwnerSearchSpec` | src/ignition_lint/rules/example_rule.py:103-107 | the search finds the longest counted dotted prefix, and finds none only when there is none |
| `ExampleRule.IncrementSpec` | src/ignition_lint/rules/example_rule.py:110 | incrementing keeps the keys in place and adds one to that count only |
| `ExampleRule.CountBindingSpec` | src/ignition_lint/rules/example_rule.py:96-110 | a counted binding adds one to its owner and leaves every other count and every key alone |
| `ExampleRule.CountVisitDistinct` | src/ignition_lint/rules/example_rule.py:80-94 | a visit keeps the keys of the counts distinct |
| `ExampleRule.OwnerSearchAt` | src/ignition_lint/rules/example_rule.py:103-107 | when only the shortest candidate is counted, it is the owner found |
| `ExampleRule.ChildBindingOwner` | src/ignition_lint/rules/example_rule.py:99-107 | a binding below a counted component belongs to it when no longer prefix names another counted component |
| `ExampleRule.ChildBindingCounted` | src/ignition_lint/rules/example_rule.py:96-110 | so such a binding adds one to that component's count |
| `ExampleRule.CountReport` | src/ignition_lint/rules/example_rule.py:114-128 | at most one line per component |
| `ExampleRule.CountReportsSnoc` | src/ignition_lint/rules/example_rule.py:114-128 | one more entry appends its line |
| `ExampleRule.CountReportsSpec` | src/ignition_lint/rules/example_rule.py:112-128 | one line per component at or over a threshold: an error from the error threshold up, a warning below it from the warning threshold up |
| `ExampleRule.CountedDistinct` | src/ignition_lint/rules/example_rule.py:80-110 | visiting keeps the keys of the counts distinct |
| `ExampleRule.CountedFilter` | src/ignition_lint/rules/common.py:64-76 | the filter of `process_nodes` only drops nodes whose visit changes nothing |
| `ExampleRule.ExampleBindingCountRule.constructor` | src/ignition_lint/rules/example_rule.py:67-74 | the rule targets components and bindings, keeps its thresholds, and starts with no errors and no counts |
| `ExampleRule.ExampleBindingCountRule.VisitComponent` | src/ignition_lint/rules/example_rule.py:80-82 | the component's count is set to 0, and nothing else changes |
| `ExampleRule.ExampleBindingCountRule.CountBindingAt` | src/ignition_lint/rules/example_rule.py:96-110 | the counts become the specified counted binding |
| `ExampleRule.ExampleBindingCountRule.Accept` | src/ignition_lint/rules/example_rule.py:80-94 | components and the three binding kinds change the counts as specified; no error is added |
| `ExampleRule.ExampleBindingCountRule.PostProcess` | src/ignition_lint/rules/example_rule.py:112-128 | the counts' report lines are appended to the errors |
| `ExampleRule.ExampleBindingCountRule.ProcessNodes` | src/ignition_lint/rules/common.py:64-76 | the errors are reset but the counts carry on from an earlier run, and the errors are the report of the new counts |
| `MixedSeverity.FirstConflictFromSpec` | src/ignition_lint/rules/example_mixed_severity.py:70-76 | from pair index i on, a pair is found exactly when some later pair's two words both occur, and the one found is the first such pair |
| `MixedSeverity.FirstConflictSpec` | src/ignition_lint/rules/example_mixed_severity.py:65-76 | the loop over the conflicting pairs stops at the first pair whose two words both occur in the lower-cased name, and finds none exactly when no pair conflicts |
| `MixedSeverity.WarningsSpec` | src/ignition_lint/rules/example_mixed_severity.py:43-86 | a component gets at most two warnings (a very short name never wants a suffix), a name of three to five characters can only be warned as temporary, and there is no warning exactly when the name is not temporary, not very short and not in want of a suffix |
| `MixedSeverity.UnsafeComponentDoesNotConflict` | src/ignition_lint/rules/example_mixed_severity.py:65-68 | the unsafe name 'unsafecomponent' holds none of the conflicting pairs |
| `MixedSeverity.DebugComponentDoesNotConflict` | src/ignition_lint/rules/example_mixed_severity.py:65-68 | the unsafe name 'debugcomponent' holds none of the conflicting pairs |
| `MixedSeverity.AdminPanelDoesNotConflict` | src/ignition_lint/rules/example_mixed_severity.py:65-68 | the unsafe name 'adminpanel' holds none of the conflicting pairs |
| `MixedSeverity.UnsafeNamesDoNotConflict` | src/ignition_lint/rules/example_mixed_severity.py:50-76 | no name on the unsafe list can also be reported for conflicting indicators |
| `MixedSeverity.ErrorsSpec` | src/ignition_lint/rules/example_mixed_severity.py:50-76 | a component gets at most one error: the unsafe-name error for a listed name, the conflict error naming the first conflicting pair otherwise, and none exactly when the name is not listed and holds no pair |
| `MixedSeverity.ReportedErrorsSpec` | src/ignition_lint/rules/common.py:64-76 | over a view only components are visited, there are at most as many errors as nodes, and a message is an error exactly when it is the one error of some component |
| `MixedSeverity.ReportedWarningsSpec` | src/ignition_lint/rules/common.py:64-76 | a message is a reported warning exactly when it is one of some component's warnings |
| `MixedSeverity.ErrorsSnoc` | src/ignition_lint/rules/common.py:74-75 | visiting one more node appends exactly that node's errors to those of the nodes before it |
| `MixedSeverity.WarningsSnoc` | src/ignition_lint/rules/common.py:74-75 | visiting one more node appends exactly that node's warnings to those of the nodes before it |
| `MixedSeverity.RootReports` | tests/fixtures/test_helpers.py:22 | the mock view's root container, named 'root', draws neither warning nor error |
| `MixedSeverity.TempButtonReports` | tests/unit/test_example_mixed_severity.py:17-20 | 'tempButton' gets only the temporary-naming warning (it names a button, so no suffix warning) |
| `MixedSeverity.XReports` | tests/unit/test_example_mixed_severity.py:21-24 | 'x' gets only the very-short warning |
| `MixedSeverity.MyComponentReports` | tests/unit/test_example_mixed_severity.py:25-28 | 'MyComponent' gets only the missing-suffix warning |
| `MixedSeverity.UnsafeComponentReports` | tests/unit/test_example_mixed_severity.py:45-48 | 'UnsafeComponent' gets the unsafe error and, as the test's comment says, a suffix warning |
| `MixedSeverity.DebugProdPanelReports` | tests/unit/test_example_mixed_severity.py:49-52 | 'DebugProdPanel' gets the conflict error for ('debug', 'prod') and no warning |
| `MixedSeverity.AdminPanelReports` | tests/unit/test_example_mixed_severity.py:73-76 | 'AdminPanel' gets the unsafe error and no warning |
| `MixedSeverity.TestLiveComponentReports` | tests/unit/test_example_mixed_severity.py:81-84 | 'TestLiveComponent' gets the temporary and suffix warnings and the conflict error for ('test', 'live') |
| `MixedSeverity.TempLoginReports` | tests/unit/test_example_mixed_severity.py:125 | 'tempLogin' gets the temporary and the suffix warning and no error |
| `MixedSeverity.DebugComponentReports` | tests/unit/test_example_mixed_severity.py:141 | 'DebugComponent' gets exactly the unsafe error |
| `MixedSeverity.SubmitButtonReports` | tests/unit/test_example_mixed_severity.py:101-104 | 'SubmitButton' passes completely |
| `MixedSeverity.UserNameLabelReports` | tests/unit/test_example_mixed_severity.py:104-107 | 'UserNameLabel' passes completely |
| `MixedSeverity.DataPanelReports` | tests/unit/test_example_mixed_severity.py:107-110 | 'DataPanel' passes completely |
| `MixedSeverity.MainContainerReports` | tests/unit/test_example_mixed_severity.py:110-113 | 'MainContainer' passes completely |
| `MixedSeverity.OkReports` | tests/unit/test_example_mixed_severity.py:158-161 | the accepted short name 'ok' is not warned |
| `MixedSeverity.IdReports` | tests/unit/test_example_mixed_severity.py:162-165 | the accepted short name 'id' is not warned |
| `MixedSeverity.GoReports` | tests/unit/test_example_mixed_severity.py:166-169 | the accepted short name 'go' is not warned |
| `MixedSeverity.ExampleMixedSeverityRule.constructor` | src/ignition_lint/rules/example_mixed_severity.py:22-23 | a new rule targets components only and holds no errors and no warnings |
| `MixedSeverity.ExampleMixedSeverityRule.FindConflict` | src/ignition_lint/rules/example_mixed_severity.py:65-76 | the loop with its break returns the first conflicting pair |
| `MixedSeverity.ExampleMixedSeverityRule.VisitComponent` | src/ignition_lint/rules/example_mixed_severity.py:29-86 | one visit appends exactly the component's errors and warnings after those already held |
| `MixedSeverity.ExampleMixedSeverityRule.Accept` | src/ignition_lint/model/node_types.py:48-56 | a component is visited; every other node adds nothing |
| `MixedSeverity.ExampleMixedSeverityRule.ProcessNodes` | src/ignition_lint/rules/common.py:64-76 | the errors afterwards are the view's reported errors; the warnings are those held before followed by the view's reported warnings |
| `MixedSeverityExample.ExampleErrorsSpec` | src/ignition_lint/rules/examples/example_mixed_severity.py:52-74 | at most one error: the conflict error naming the first conflicting pair when one exists, the unsafe-word error only when no pair conflicts, and none exactly when no pair conflicts and no unsafe word occurs |
| `MixedSeverityExample.UnsafeNamesLookUnsafe` | src/ignition_lint/rules/examples/example_mixed_severity.py:67-69 | each name the other variant lists as unsafe contains one of this variant's unsafe words |
| `MixedSeverityExample.AgreesWithRulesVariant` | src/ignition_lint/rules/examples/example_mixed_severity.py:52-74 | whenever the variant under rules/ reports an error for a component, this variant reports the same error |
| `MixedSeverityExample.DebugPanelSeparatesVariants` | src/ignition_lint/rules/examples/example_mixed_severity.py:65-74 | a name such as 'DebugPanel' that only contains an unsafe word is an error here and not in the variant under rules/ |
| `MixedSeverityExample.ExampleReportedErrorsSpec` | src/ignition_lint/rules/common.py:64-76 | only components are looked at, at most one error each, and a message is an error exactly when it is the one error of some component |
| `MixedSeverityExample.ExampleErrorsSnoc` | src/ignition_lint/rules/common.py:74-75 | visiting one more node appends exactly that node's errors to those of the nodes before it |
| `MixedSeverityExample.RootReportsHere` | tests/fixtures/test_helpers.py:22 | the mock view's root container 'root' draws no error in this variant |
| `MixedSeverityExample.TempButtonReportsHere` | tests/unit/test_example_mixed_severity.py:17-20 | 'tempButton' draws no error in this variant |
| `MixedSeverityExample.XReportsHere` | tests/unit/test_example_mixed_severity.py:21-24 | 'x' draws no error in this variant |
| `MixedSeverityExample.MyComponentReportsHere` | tests/unit/test_example_mixed_severity.py:25-28 | 'MyComponent' draws no error in this variant |
| `MixedSeverityExample.UnsafeComponentReportsHere` | tests/unit/test_example_mixed_severity.py:45-48 | 'UnsafeComponent' gets exactly the unsafe error in this variant |
| `MixedSeverityExample.DebugProdPanelReportsHere` | tests/unit/test_example_mixed_severity.py:49-52 | 'DebugProdPanel' gets only the conflict error for ('debug', 'prod'), not also the unsafe error, in this variant |
| `MixedSeverityExample.AdminPanelReportsHere` | tests/unit/test_example_mixed_severity.py:73-76 | 'AdminPanel' gets exactly the unsafe error in this variant |
| `MixedSeverityExample.TestLiveComponentReportsHere` | tests/unit/test_example_mixed_severity.py:81-84 | 'TestLiveComponent' gets exactly the conflict error for ('test', 'live') in this variant |
| `MixedSeverityExample.TempLoginReportsHere` | tests/unit/test_example_mixed_severity.py:125 | 'tempLogin' draws no error in this variant |
| `MixedSeverityExample.DebugComponentReportsHere` | tests/unit/test_example_mixed_severity.py:141 | 'DebugComponent' gets exactly the unsafe error in this variant |
| `MixedSeverityExample.SubmitButtonReportsHere` | tests/unit/test_example_mixed_severity.py:101-104 | 'SubmitButton' draws no error in this variant |
| `MixedSeverityExample.UserNameLabelReportsHere` | tests/unit/test_example_mixed_severity.py:104-107 | 'UserNameLabel' draws no error in this variant |
| `MixedSeverityExample.DataPanelReportsHere` | tests/unit/test_example_mixed_severity.py:107-110 | 'DataPanel' draws no error in this variant |
| `MixedSeverityExample.MainContainerReportsHere` | tests/unit/test_example_mixed_severity.py:110-113 | 'MainContainer' draws no error in this variant |
| `MixedSeverityExample.OkReportsHere` | tests/unit/test_example_mixed_severity.py:158-161 | 'ok' draws no error in this variant |
| `MixedSeverityExample.IdReportsHere` | tests/unit/test_example_mixed_severity.py:162-165 | 'id' draws no error in this variant |
| `MixedSeverityExample.GoReportsHere` | tests/unit/test_example_mixed_severity.py:166-169 | 'go' draws no error in this variant |
| `MixedSeverityExample.ExampleMixedSeverityRule.constructor` | src/ignition_lint/rules/examples/example_mixed_severity.py:22-23 | a new rule targets components only and holds no errors and no warnings |
| `MixedSeverityExample.ExampleMixedSeverityRule.VisitComponent` | src/ignition_lint/rules/examples/example_mixed_severity.py:29-93 | one visit appends exactly this variant's error and the shared warnings after those already held |
| `MixedSeverityExample.ExampleMixedSeverityRule.Accept` | src/ignition_lint/model/node_types.py:48-56 | a component is visited; every other node adds nothing |
| `MixedSeverityExample.ExampleMixedSeverityRule.ProcessNodes` | src/ignition_lint/rules/common.py:64-76 | the errors afterwards are this variant's reported errors; the warnings are those held before followed by the view's reported warnings |

## Left out

- **Effects outside the core:**
  - File and directory I/O is not modelled: `lint_file`, `lint_single_file`, glob expansion, `print_errors` and `main()` of main.py and cli.py.
  - The debug directory, `_save_debug_file`, the temporary files and their cleanup in the pylint rules are not modelled.
  - The `print` calls at src/ignition_lint/rules/binding_rules.py:77-98 and the other debug prints produce nothing in the model.
  - Pylint itself is not modelled. It is the parameter `analyze` of each pylint rule: the text of the combined file in, the analyzer's output out.
  - The Python `repr` addresses that `str(node)` prints (`<… object at 0x…>`) are a parameter `address`.
- **Registry discovery:** `discover_and_register_rules` (importlib, glob) and `inspect` are left out. What the registry learns about a class by reflection (its base classes, `error_message`, the outcome of `create_from_config({})`, the source file) is given as data.
- **Code that cannot run as written:**
  - src/ignition_lint/model/__init__.py:2-16 imports `Binding`, `Script`, `MessageHandler` and `EventHandler` from model/node_types.py, which defines none of them. So importing `ignition_lint.model`, or anything under it such as `model.node_types`, raises ImportError. rules/__init__.py:1 imports rules/base.py, whose own import at :4-18 names the same missing classes. rules/script_rules.py:11-21 and rules/binding_rules.py:3 do too. As written, linter.py (:8-10), every rule module and the engine therefore fail at import; common/flatten_json.py does not depend on these names. The model treats the names as the node classes node_types.py does define (`ViewNode` and its subclasses, with `ScriptNode` for `Script`, `MessageHandlerScript` for `MessageHandler` and `EventHandlerScript` for `EventHandler`), and the binding names as the binding node kinds.
  - src/ignition_lint/rules/script_rules.py:50 passes `node_types=`/`subtypes=` to the constructor of rules/base.py:66, which accepts neither, so constructing the rule raises TypeError. The model constructs it from its target set.
  - src/ignition_lint/rules/performance/polling_interval.py:17 passes two arguments to `common.BindingRule`, which takes one, so it raises TypeError. The model constructs it from the intended targets.
  - src/ignition_lint/rules/binding_rules.py:11 calls `register_node_type` inside `BindingLintingRule.__init__`, and no shown class defines it, so constructing the rule raises AttributeError. The model leaves the registration out.
  - src/ignition_lint/rules/script_rules.py:149 and :153 put a backslash inside f-string braces, a SyntaxError before Python 3.12. The model treats the file as Python 3.12 does.
- `RuleCommon.ScriptRule.constructor`: uses the module-level `ALL_SCRIPTS` set as the default targets. src/ignition_lint/rules/common.py:108 calls `NodeType.ALL_SCRIPTS()`, which is not an enum member, so the default path raises AttributeError. The same holds for `BindingRule` and `NodeType.ALL_BINDINGS()` at common.py:99, where the model uses `ALL_BINDINGS`.
- **`@register_rule`:** the decorator returns the rule's name (a `str`), and the class statement binds that to the class name. This happens at rules/example_mixed_severity.py:18, rules/examples/example_mixed_severity.py:18, rules/example_rule.py:15 and rules/properties/unused_custom_properties.py:35. Afterwards the module-level name no longer refers to the class, and `LintingRule` has no `create_from_config`. The model keeps the classes under their names.
- **Two classes named `ExampleMixedSeverityRule`:** the registry rejects the second registration of a name (modelled in `Registry`). Which of the two classes is registered first depends on import order and is not modelled, so both variants are modelled.
- **`warnings` is never created:** `LintingRule` (src/ignition_lint/rules/common.py:49-58) never creates a `warnings` list. So the appends to `self.warnings` in both mixed-severity rules and at src/ignition_lint/rules/name_pattern.py:383 raise AttributeError. The model gives every rule an empty warnings list on construction.
- `PerformancePolling.PollingIntervalRule.AddViolations`: `add_violation` is not defined in any file of the core. It is modelled as routing each message by its severity.
- **`set_flattened_json` is never called** in the core (linter.py does not call it). So the flattened-JSON search of the unused-properties rule only runs when a caller sets the table. The model takes the table as the rule's state.
- **`ExpressionPollingRule.__init__` does not call `super().__init__`:** the model gives it no `errors` and no `rule_type`, as the source does not. It does give it a key path, which the source first assigns inside `check`; see the next line.
- `ExpressionPolling.ExpressionPollingRule.constructor`: starts the key path at `""`, while expression_polling.py:12-14 leaves `key_path` unset until `check` assigns it at :85. So a direct `_parse_binding` call before any `check` raises AttributeError in the source as soon as it meets a failing string, and the model instead records that string under the empty key path. The engine only reaches `_parse_binding` through `check`, which always sets the path first.
- **`RuleInfo.errorsFor` is pure:** a rule's state carried from one `process` run to the next (the never-reset counters of `ExampleBindingCountRule`, the warnings lists) is stated per run, not across runs of the engine.
- **`get_formatted_script` overwrites `node.script`** with the default body when the script is blank. The model returns the updated node beside the text and does not propagate the change to other holders of the node.
- **`Linter`:** the serialization of `debug_nodes` and the order of the `target_types` list (a Python set's iteration order) are not modelled.
- `Linter.NodeSummary`: its contract states only the expression and script summaries; the other node kinds' summaries are stated by its body alone.
- **Dead code:**
  - the membership test at src/ignition_lint/model/builder.py:315-316 compares a string to a list of components and is never true;
  - `_extract_event_type` (src/ignition_lint/model/builder.py:83-90) is never called.
  - Neither is modelled.
- **Dead `except` branches** around code that cannot raise are not modelled. Imports that are present but unused have no counterpart; the imports that fail are listed under "Code that cannot run as written".
- **Text semantics:**
  - `PyStr`: case mapping (`lower`, `upper`, `capitalize`) and `\d` are ASCII only. `IsSpace`, which stands for `\s`, `str.isspace`, `strip()` and `split()`, is exactly `[ \t\n\r\f\v]`, the set `re.ASCII` gives `\s`. Python counts `\x1c`-`\x1f`, `\x85`, `\xa0` and the other Unicode spaces as whitespace too, and the model does not. For example, a script `"\x1c"` is blank to node_types.py:205 but not to `Nodes.FormatScript`. Python's Unicode tables are not modelled, although `IsLineBreak` does follow `splitlines` exactly.
  - `int()` of digit strings: underscores and non-ASCII digits are not accepted.
  - The `repr` quoting inside a `ValueError` text is written for plain names only.
  - `JsonValue.Text`: renders a list as `[...]` and a dict as `{...}` instead of Python's full `str()` of them.
  - Non-string values placed where the source expects a name are checked by their `str()` text.
- **JSON duplicate keys:** `Dicts.Get` and `JsonValue.Get` take the first occurrence of a key, whereas Python's `json` keeps the last. The model assumes distinct keys.
- **A non-object document:** it gives `Err(NoGet)` where Python raises on the first `.get`.
- `LinterMain.JsonLinter.LintDecoded`: after an exception in `check_*` it states that the error is reported. It does not state which partial errors were already appended.
- `ComponentName.ChooseStyle`: with an empty `component_style_rgx` and no `component_style`, the source's `style_rgx or style` gives `None`. The model keeps that, and the style checker is then called with no style.
- **The `props.params` skip** in parameter_name.py:41 is a substring test, so it also skips keys under any deeper path that contains `props.params`. The model keeps the substring test, and this is not treated as a separate case.
- **`parent_of_list`:** main.py:170-173 and component_name.py:45-48 restore `parent_key` after each list item, but the loop never changes `parent_key`, so the restore has no effect and is not modelled.
- **Names:** the model assumes one component per `meta.name` path, as the builder's path keys do.
- **Fixtures:**
  - the repository's fixtures (`create_mock_view`, the rule tests) are stated per component name, not over whole views;
  - `create_mock_view` puts children as a dict, which the flattener walks by key.
- **Name patterns:** `sorted(all_abbreviations, key=len, reverse=True)` leaves abbreviations of equal length in the set's iteration order. The model takes that order as the rule's field, constrained only to be longest first, so results that depend on the order of ties hold for the order given.
- `UnusedProperties.ViewSuffixMisread`: a component whose name ends in `view` has its exact reference read as a view property's, as the source's pattern does. It is modelled as written and not reported as a finding, since the pattern's intent for such names is unclear.
- **StyleChecker** is not part of this model. component_name.py and parameter_name.py import it from `.common`, which does not define it. It is a parameter of type `(Option<string>, bool) -> string -> bool` (style, `allow_acronyms`, name).
- **Lines of scripts and of the combined file** (`ScriptLines`, `Combined`) are counted with `split('\n')`, matching how the source writes them. The analyzer's output is split with `splitlines`.

## Findings

| source | as written | input that shows it | evidently intended | confidence | as-written member | corrected member |
|---|---|---|---|---|---|---|
| src/ignition_lint/rules/name_pattern.py:353-354 | the name is matched against the pattern after abbreviation processing, so a conforming name can fail | camelCase with the default configuration and a component named `id`: it matches camelCase, yet it is reported with the suggestion `ID` | match the name itself, so a name that follows the convention is accepted | high, not executed | `NamePattern.NameErrorsAsWritten`, shown by `NamePattern.CamelIdReported` | `NamePattern.NameErrors`, with `NamePattern.ConformingAccepted` and `NamePattern.CorrectionOnlyDrops` |
| src/ignition_lint/rules/properties/unused_custom_properties.py:179-185 | the branch tests look for `.view.custom.` and the like in the escaped regex sources of lines 172-174, which never contain them, so a script reference records nothing | `self.view.custom.scriptProp` used only in a script: tests/unit/test_unused_custom_properties.py:112-139 expects 0 errors, while as written the property is reported unused | record the use the matched pattern stands for | high, not executed | `UnusedProperties.ScriptUsesAsWrittenEmpty` | `UnusedProperties.ScriptUses`, shown by `UnusedProperties.ScriptReference` |
| src/ignition_lint/rules/script_rules.py:145-153 | the nodes have neither `get_formatted_code` nor `code`, so `str(node)` is linted instead of the script | any message handler or custom method: the analyzer sees the `generic_script` header and the object's `repr`, whatever the script holds | lint the script, formatted as `get_formatted_script` does | high, not executed | `ScriptRules.AsWrittenLintsObjectText` | `ScriptRules.CorrectedKeepsScript` |
| src/ignition_lint/rules/lint_script.py:49 | `line_count` starts at 1 and skips the six preamble lines, so every `line_map` key is six too small and every reported script line is six too high | one script with a diagnostic on its line `j` (from 0): reported as `Line j+7` instead of `Line j+1` | count the preamble, as src/ignition_lint/rules/scripts/lint_script.py:86 does | high, not executed | `LintScriptLegacy.AsWrittenMisnumbers` | `LintScriptLegacy.CorrectedDiagnosticReported` |
