# go-jsonforms binding engine, modelled in Dafny

go-jsonforms renders JSON-Forms: a JSON schema describes the data, and a
ui-schema is a tree of layouts and Controls, each Control naming a piece
of the data by its `scope` (`"#/properties/comments/0/properties/message"`).
Before rendering, the library enriches the ui-schema tree in place:

- `setup` copies the schema keywords a Control's scope names onto the
  Control, and stamps a column width onto the elements of every layout.
- `BindData` expands array Controls into one detail copy per data
  element, re-parses the tree, groups array-select data by label,
  rewrites the scopes of the array-select detail, and attaches the
  scope's data to every other Control.

Both passes go through `iterateObj`, a pre-order walk that runs a closure
on every node whose value at a key matches, and only then walks the
children of the node as the closure left it. `gabsPath` turns a scope
into the dot path the gabs library searches with. `ReadForm` turns a
submitted HTML form back into JSON. The repository has this engine twice:
`internal/form/form.go` (here "Current") and the older root package
`gojsonforms.go` ("Legacy"). Two small helpers come with it: the scope
searches of the typed ui-schema (`UISchema.go`) and the nested-map builder
of `formbuilder.go`.

Modules, in dependency order:

- `Wrappers`: `Option`.
- `Strings`: the Go string functions used here: `strings.Trim`,
  `TrimPrefix`, `ReplaceAll`, `Split`, `Join`, `SplitN(.., 2)[1]`,
  `strconv.Atoi` and `%d`.
- `JsonTree`: the JSON value and the gabs operations: `Search`, `Set`/`SetP`,
  `DeleteP`, `ArrayAppendP`, `ArrayRemoveP`, `ArrayCountP`, and the
  re-parse. gabs stores a `*gabs.Container` it is handed as an opaque
  leaf, and the model keeps it as `Boxed`.
- `Paths`: `gabsPath`.
- `Engine`: the walk `iterateObj` and each closure, as functions on the
  tree. A panic is the outcome `Panicked`.
- `Walker`: the same closures and the walk as methods with loops. Each
  method is proved to end in the state the `Engine` function describes.
- `PassFacts` and `WalkFacts`: what each closure and the walk promise.
- `SetupFacts`: when setup reports an error, and the keyword walk over a
  whole tree.
- `WidthFacts`, `ExpandFacts`, `StripFacts` and `DataFacts`: the width
  walk, the array walk, the array-select scope rewrite and the data walk
  over a whole tree. Each walk is proved equal to a reference function that
  does every node's children first and the node last; `iterateObj`
  works the other way round, top-down.
- `Submission` (the form-value coercion) and `Runs` (how a method that
  runs walks ends).
- `InternalForm` and `LegacyForm`: the `Form` class of each package, with
  `schema`, `uiSchema` and `data` fields and the `setup` and `BindData`
  methods. `InternalForm.ReadForm` covers the `ReadForm` of both packages.
- `UISchema`: `FindWithScope` and `FindParentWithScope`.
- `FormBuilder`: `setNestedKey`, `findElement` and its `ReadForm`.

How the model reads the source:

- **The array predicate.** The array pass tests `schema.type` against
  `arrayObj`, the container `gabs.New().Set("array")` returns. `setup`
  stored the schema's `type` value on each Control as the container
  `ChildrenMap` handed out. `reflect.DeepEqual` of two such containers
  compares what they point to, so the two match for an array Control.
  The walk's test is a parameter (`Equals(Boxed(Str("array")))`).
  `WalkFacts.ArrayPassAfterReparse` states what the same test finds on a
  re-parsed tree: nothing.
- **Where `internal/form` puts the copies.** It appends them to
  `options.details` and deletes `options.detail`
  (internal/form/form.go:139-141). Its own test expects `options.detail`
  to hold the list. The model follows the code.
- **Running out of depth.** The walk descends into the children of a
  node as the closure left them, and a closure can add children. So the
  walk is defined with a fuel bound on its depth, which makes it
  terminate. `OutOfFuel` (in a method, `Exhausted`) stands for a tree
  deeper than the fuel; the source has no such outcome.

## Model

| member | source | states |
|---|---|---|
| Strings.TrimFacts | internal/form/form.go:290 | strings.Trim keeps one contiguous piece of the scope; everything cut before and after it is '#' or '/', and the piece neither starts nor ends with one |
| Strings.ReplaceAllAbsent | internal/form/form.go:292 | ReplaceAll changes nothing when the pattern does not occur |
| Strings.ReplaceAllSkip | internal/form/form.go:292 | a prefix in which no occurrence starts is kept as it is |
| Strings.ReplaceCharFacts | internal/form/form.go:294 | replacing '/' by '.' keeps the length, changes exactly the '/' characters, and leaves none |
| Strings.SplitAfterReplace | internal/form/form.go:294 | splitting the dotted path at '.' gives the '/'-separated tokens of the trimmed scope, when no token holds a '.' |
| Strings.SplitJoin | internal/form/form.go:161 | splitting a joined label again gives its parts back, when no part holds the separator |
| Strings.JoinSplit | formbuilder.go:72-73 | the pieces strings.Split gives hold no separator, and joining them with it gives the string back |
| Strings.AfterFirst | internal/form/form.go:171 | SplitN(s, sep, 2)[1] exists exactly when sep occurs, and is the text after its first occurrence |
| Strings.AfterFirstAt | internal/form/form.go:171 | the text after the first separator is found when the separator's first character does not occur before it |
| Strings.AtoiNatToString | internal/form/form.go:263 | strconv.Atoi reads back every decimal it formats within the int range |
| Strings.TrimPrefix | formbuilder.go:72 | the prefix is dropped once exactly when the key starts with it |
| Paths.GabsPathKeepsProperties | internal/form/form.go:289-296 | with withProperties, the path is the trimmed scope with every '/' turned into '.', character for character |
| Paths.GabsPathNoSlash | internal/form/form.go:294 | no '/' survives in a gabs path |
| Paths.GabsPathSegments | internal/form/form.go:289-296 | with withProperties = true, and when the scope trimmed of '#' and '/' holds no '.', the gabs segments of the path are exactly the '/'-separated steps of that trimmed scope |
| Paths.GabsPathOfArrayScope | internal/form/form.go:289-296 | "#/properties/comments/0/properties/message" becomes "comments.0.message" |
| Paths.GabsPathOfItemScope | internal/form/form.go:289-296 | the scope of a field in an element of an array property becomes "array.index.field": both "properties/" steps go and every '/' becomes '.' |
| Paths.GabsPathOfLegacyArrayScope | gojsonforms.go:200-207 | the Legacy gabsPath, the same function, turns "#/properties/comments/1/properties/name" into "comments.1.name" |
| Paths.GabsPathWithProperties | internal/form/form.go:289-296 | with withProperties, "#/properties/name" becomes "properties.name" |
| Paths.TrimHashSlash | internal/form/form.go:290 | a scope starting with "#/" and ending in neither character loses exactly those two characters |
| JsonTree.Flatten | internal/form/form.go:145 | the re-parse leaves no stored container in the tree |
| JsonTree.FlattenPlain | internal/form/form.go:145 | re-parsing a tree without stored containers gives it back unchanged |
| JsonTree.FlattenIdempotent | internal/form/form.go:145 | re-parsing twice is re-parsing once |
| JsonTree.SetThenSearch | internal/form/form.go:264-266 | along a path with no '-' (append) step, a successful SetP is read back by Search along the same path |
| JsonTree.SetPTwice | internal/form/form.go:264-266 | along a path with no '-' (append) step, a second SetP on the same path overwrites the first completely |
| JsonTree.StepSuccessIgnoresValue | internal/form/form.go:264-266 | whether SetP succeeds depends on the tree and the path, never on the value |
| JsonTree.SetObjFrame | internal/form/form.go:189 | SetP on an object adds or replaces the first path step's member and keeps every other member |
| Engine.Rewrite | internal/form/form.go:137-138 | the text rewrite of a copy keeps its shape: arrays stay arrays, objects stay objects, and a plain tree stays plain |
| Engine.LabelParts | internal/form/form.go:156-160 | the label parts exist exactly when every label property is a string naming a string in the element, and are those strings in property order |
| Engine.WalkElements | internal/form/form.go:284-286 | walking the elements of an array keeps it an array of the same length |
| Engine.Gather | internal/form/form.go:284-286 | walking the members of an object keeps exactly its keys |
| Walker.AttachSchemaM | internal/form/form.go:67-83 | the first setup closure ends in the keyword-copied node, and records an error exactly when the Control has no string scope |
| Walker.CopyableTests | internal/form/form.go:75-81 | the two tests of the keyword loop pick exactly the copyable values: no children, or an array |
| Walker.CopyKeywords | internal/form/form.go:73-82 | the keyword loop, over the fragment's keys in any order, sets every copyable keyword under `schema` |
| Walker.StampM | internal/form/form.go:86-110 | the width closure ends in the outcome StampNode describes, the division by zero as a panic |
| Walker.StampElements | internal/form/form.go:106-109 | the index loop leaves every element stamped with the tag |
| Walker.ExpandM | internal/form/form.go:122-142 | the expansion closure and its append loop end in the outcome ExpandNode describes, for the Legacy closure (gojsonforms.go:98-118) as well |
| Walker.LabelM | internal/form/form.go:156-160 | the inner iterateArray builds the label parts, or panics on a failed type assertion |
| Walker.GroupM | internal/form/form.go:155-162 | the outer iterateArray stores each data element at `data.<label>` in index order, or panics |
| Walker.OperateM | internal/form/form.go:148-173 | each closure run on one node ends as the Engine function describes, the array-select closure with its own nested walk |
| Walker.IterateObj | internal/form/form.go:278-287 | the recursive walk ends as Engine.Walk describes: operate on a matching node, then walk the children of the node it left; the Legacy iterateObj (gojsonforms.go:189-198) is the same walk |
| Walker.IterateElements | internal/form/form.go:284-286 | the array children are walked in index order, each put in its place |
| Walker.IterateMembers | internal/form/form.go:284-286 | the object children are walked in the order the map gives, with a result that does not depend on it |
| WalkFacts.WalkUnmatched | internal/form/form.go:278-287 | a walk that finds no matching node leaves the tree unchanged and reports no error |
| WalkFacts.PlainNeverBoxed | internal/form/form.go:121-122 | in a tree without stored containers, no node matches the container-valued test |
| WalkFacts.ArrayPassAfterReparse | internal/form/form.go:121-145 | on a re-parsed tree the array pass changes nothing: the expansion has to run before the re-parse |
| PassFacts.AttachSchemaCopiesKeywords | internal/form/form.go:67-83 | every copyable keyword of the fragment ends up at `schema.k`, and other `schema` entries stay; the Legacy closure (gojsonforms.go:55-71) is the same |
| PassFacts.AttachSchemaFrame | internal/form/form.go:73-82 | only the `schema` member of a Control changes |
| PassFacts.AttachSchemaAfterReparse | internal/form/form.go:145 | after the re-parse, a copied keyword is the fragment's own value |
| PassFacts.StampLayoutWidths | internal/form/form.go:86-110 | a HorizontalLayout of n > 0 elements gives each `col-(12/n)`, a VerticalLayout `col-12`; every other member of the layout stays, and of each element only `schema.col` is set (its other members and other `schema` entries stay, and an element that is not an object with an object or missing `schema` stays as it is); an empty HorizontalLayout panics |
| PassFacts.StampChildSetsCol | internal/form/form.go:108 | `SetP(tag, "elements.<i>.schema.col")` on an object element whose `schema` is missing, null or an object sets that entry, creating the `schema` object when needed, and changes nothing else of the element; any other element stays as it is |
| PassFacts.StampLegacyWidths | gojsonforms.go:74-85 | Legacy: every HorizontalLayout divides 12 by its element count, and an empty one panics |
| PassFacts.StampChildAt | internal/form/form.go:108 | element i of a stamped array holds the tag at `schema.col` |
| PassFacts.TagExamples | internal/form/form.go:106 | two side-by-side elements get " column col-6", a vertical one " column col-12" |
| PassFacts.ExpandCurrent | internal/form/form.go:122-142 | with n data elements and an object `options`, the n copies in data order are appended to `options.details` (none for n = 0) and `options.detail` is deleted; with `options` missing or null, n = 0 changes nothing and n > 0 creates `options` holding only `details`, n stored nulls; an `options` that is neither an object nor null is left alone; with no array at the scope nothing changes; a missing scope is reported in every case |
| PassFacts.ExpandLegacy | gojsonforms.go:111-117 | Legacy, with an object `options`: with n >= 1 data elements, `options.detail` becomes its old elements followed by the n copies, without the first, and for an object template that is exactly the n copies in data order; with n = 0 a non-empty array `detail` loses its first element and anything else stays. With `options` missing or null, n >= 1 creates `options` holding only `detail`, n - 1 stored nulls, and n = 0 changes nothing; an `options` that is neither an object nor null is left alone; with no array at the scope nothing changes; a missing scope is reported in every case |
| PassFacts.ExpandByOptions | internal/form/form.go:122-142 | the expansion of either package changes at most the `options` member of the control: to the closed form `ExpandedOptions` gives for the count at its scope, or not at all; the Legacy closure is gojsonforms.go:98-118 |
| PassFacts.CopyAfterReparse | internal/form/form.go:138 | after the re-parse every stored copy is the rewritten template itself |
| PassFacts.CopyRewritesScope | internal/form/form.go:137 | a scope holding exactly one "items/" step, such as "#/properties/comments/items/properties/message", gets the index in its place and keeps the text before and after it |
| PassFacts.StripScope | internal/form/form.go:165-172 | a detail Control's new scope is its data path after the first "items.", and the rewrite panics when there is none |
| PassFacts.StripExample | internal/form/form.go:171 | "comments.items.message" becomes "message" |
| PassFacts.AttachDataCurrent | internal/form/form.go:176-191 | a Control whose schema type is neither "array" nor "array-select" gets the value at its scope as `data` when that is not null, and any other Control is left as it was; a missing scope is reported only for a Control that is not skipped |
| PassFacts.AttachDataLegacy | gojsonforms.go:124-137 | Legacy: every Control not of schema type "array" gets the value at its scope as `data`, even a null one; an "array" Control is left as it was |
| PassFacts.GroupedPanics | internal/form/form.go:155-162 | the grouping panics exactly when some data element lacks a label part |
| PassFacts.AssignLookup | internal/form/form.go:155-162 | a label holds the element given with its last occurrence: a later element overwrites an earlier one with the same label |
| PassFacts.GroupedForm | internal/form/form.go:155-162 | for a non-empty data array whose elements all have their label parts, with labels free of '.' and `data` missing, null or an object, `data` gains the map from each label to the last element carrying it, on top of what it held; nothing else changes |
| PassFacts.SingleLabelProp | internal/form/form.go:157-159 | with one label property, the label is that property's value in the element |
| SetupFacts.KeywordWalkFlags | internal/form/form.go:67-83 | on a ui-schema in which no Control holds a non-null `schema` member yet, the keyword walk that completes records an error exactly when some Control lacks a string scope; an error on one node does not stop the walk of the rest |
| SetupFacts.AttachKeepsChildren | internal/form/form.go:73-82 | copying keywords onto a Control without a schema adds only stored containers: the Controls below it, and whether they lack a scope, stay the same |
| SetupFacts.StampWalkQuiet | internal/form/form.go:86-110 | the width walk never records an error, whatever node it tests for |
| SetupFacts.KeywordTree | internal/form/form.go:63-83 | the keyword walk over a whole ui-schema no setup has run on completes, given the fuel, with every Control at any depth holding the keywords of its own schema fragment (the bottom-up reference `Keyworded`), and reports an error exactly when some Control lacks a string scope; the Legacy walk (gojsonforms.go:51-71) is the same |
| WidthFacts.WidthTree | internal/form/form.go:86-110 | the width walk of either package over a whole ui-schema in which no tested layout has an empty row completes, given the fuel, with every tested layout's elements stamped (the bottom-up reference `Stamped`) and no error; the Legacy walk (gojsonforms.go:74-85) tests HorizontalLayout only |
| WidthFacts.WidthsOnlyForLayouts | internal/form/form.go:86-94 | the current width walk tests every node that has a type, but over a tree in which no type is exactly "HorizontalLayout" or "VerticalLayout" (a "verticalLayout", say) it changes nothing and reports no error |
| WidthFacts.StampedChild | internal/form/form.go:106-110 | stamping an element's column and stamping the layouts inside it commute, which is why the top-down walk and the bottom-up reference agree |
| WidthFacts.RestampThenBelow | internal/form/form.go:106-110 | a layout stamping its elements and the walk then stamping inside them equals stamping inside first and the layout last |
| WidthFacts.CalmKeyworded | internal/form/form.go:63-110 | the keyword walk creates no layout with an empty row: the keywords go into a `schema` object of stored containers, which no layout reads |
| DataFacts.DataTree | internal/form/form.go:176-191 | the data walk of either package over a whole ui-schema, for data holding no Control, completes, given the fuel, with every Control that binds holding the value its scope names as `data` (the bottom-up reference `Bound`), and reports an error exactly when a Control it reaches and does not skip lacks a string scope; the Legacy walk is gojsonforms.go:124-137 |
| ExpandFacts.ExpandTree | internal/form/form.go:119-143 | the array walk of either package over a whole ui-schema in which no array control holds another in its `options` completes, given the fuel, with every array control expanded bottom-up (the reference `Expanded`), and reports an error exactly when some array control lacks a string scope; the Legacy walk is gojsonforms.go:96-119 |
| ExpandFacts.ExpandThenBelow | internal/form/form.go:122-142 | expanding an array control and then its children equals expanding its children first: the expansion reads only the scope and `options`, and changes only `options`, which holds no array control before or after |
| ExpandFacts.OptionsStayFree | internal/form/form.go:132-141 | the expansion adds only stored copies to an `options` that holds no array control, so it still holds none |
| ExpandFacts.ExpandInert | internal/form/form.go:119-143 | a tree without array controls is left as it is by the reference and reports nothing |
| StripFacts.StripTree | internal/form/form.go:164-172 | the scope rewrite walk over a whole detail template panics exactly when some Control at any depth has no "items." in its data path; otherwise it completes, given the fuel, with every Control holding the data path after its first "items." as its scope (the reference `Stripped`) and no error |
| StripFacts.StripStep | internal/form/form.go:165-172 | one Control: a panic without "items.", else its rewritten scope and no error, and rewriting its children afterwards equals rewriting them first |
| StripFacts.GroupSelectNode | internal/form/form.go:148-173 | an array-select control panics exactly when a data element lacks a string label part or a Control of its detail template has no "items."; otherwise the error is the control's own missing scope, the template at `options.detail.elements` is the rewritten one, nothing else of the control changes but `data`, and an empty data array leaves `data` alone |
| StripFacts.GroupSelectData | internal/form/form.go:150-162 | when the array-select operation completes on a control with a non-empty data array and labels free of '.', `data` maps each label to the last element carrying it, on top of what it held |
| StripFacts.GroupedKeeps | internal/form/form.go:155-162 | the grouping changes no member of the control but `data`, whatever the labels are |
| DataFacts.Inert | internal/form/form.go:176-191 | a value holding no Control is left as it is by the data walk and reports nothing, so a stored value is never bound again |
| Submission.FormValue | internal/form/form.go:262-267 | the first value is stored as a number or as the text itself |
| Submission.FormValueOfNumber | internal/form/form.go:263-264 | a decimal within the int range, negative ones written with a leading '-', is stored as that number |
| Submission.FormValueOfText | internal/form/form.go:265-266 | a value with a character that is neither a digit nor a sign is stored as text |
| InternalForm.Form.constructor | internal/form/form.go:45-46 | the form holds the two trees and no data |
| InternalForm.NewForm | internal/form/form.go:45-49 | a new form holds the schema, no data, and the ui-schema setup leaves, with setup's status |
| InternalForm.Form.Setup | internal/form/form.go:63-113 | the ui-schema and the status are the keyword walk then the width walk, settled: the new tree when both complete, the old one after a panic or an exhausted walk; the schema and the data stay |
| InternalForm.Form.BindData | internal/form/form.go:115-193 | the data is stored; the ui-schema and the status are the array walk, the re-parse, the array-select walk and the data walk, settled as in Setup |
| InternalForm.SetupTree | internal/form/form.go:63-113 | on a ui-schema no setup has run on and without an empty HorizontalLayout, setup completes, given the fuel, with every Control keyworded and then every Horizontal and Vertical layout stamped, and reports an error exactly when some Control lacks a string scope |
| InternalForm.BindTree | internal/form/form.go:115-193 | on a ui-schema in which no array control holds another in its `options`, whose re-parsed expansion has no array-select control, and for data holding no Control, BindData completes, given the fuel, with every array control expanded and then every Control of the re-parsed tree, copies included, that is not skipped and whose scope names a non-null value holding it as `data`; it reports an error exactly when an array control, or a Control the data walk reaches and does not skip, lacks a string scope |
| InternalForm.SetupErrorIff | internal/form/form.go:63-113 | on a ui-schema no setup has run on, setup that returns reports an error exactly when some Control at any depth lacks a string scope |
| InternalForm.SetupFlagsScopelessRoot | internal/form/form.go:68-71 | a scopeless Control at the root makes a setup that completes report an error |
| InternalForm.ReadForm | internal/form/form.go:256-271 | over an order that lists every submitted key exactly once, the loop's object is the keys' first values set at their paths, one after another; a key without values panics; the Legacy ReadForm (gojsonforms.go:167-182) runs the same loop |
| InternalForm.ReadFormStep | internal/form/form.go:259-268 | one more key: one more SetP onto the object so far |
| InternalForm.StoreAllLast | internal/form/form.go:264-266 | the path stored last holds its value afterwards, when that path has no '-' step and its SetP succeeds |
| InternalForm.MembersKeys | internal/form/form.go:259-268 | one-segment paths become exactly the members |
| InternalForm.StoreAllMembers | internal/form/form.go:259-268 | with one-segment paths every store is a member update, the later one winning |
| InternalForm.MembersOfDistinct | internal/form/form.go:259-268 | distinct paths each keep their own value |
| InternalForm.ReadFlatForm | internal/form/form.go:256-271 | a form of distinct flat keys, each with a value, reads, whatever the map order, into an object whose members are exactly the paths of the submitted keys, each holding its key's first value |
| InternalForm.ReadFormLastKey | internal/form/form.go:259-268 | the key handled last holds its first value at its path, when that path has no '-' step and its SetP succeeds |
| LegacyForm.Form.constructor | gojsonforms.go:44-45 | the form holds the two parsed trees and no data |
| LegacyForm.New | gojsonforms.go:32-49 | a new form holds the schema, no data, and the ui-schema setup leaves, with setup's status |
| LegacyForm.Form.Setup | gojsonforms.go:51-88 | the ui-schema and the status are the keyword walk then the HorizontalLayout width walk, settled: the new tree when both complete, the old one otherwise |
| LegacyForm.Form.BindData | gojsonforms.go:90-139 | the data is stored; the ui-schema and the status are the array walk, the re-parse and the data walk, settled |
| LegacyForm.SetupTree | gojsonforms.go:51-88 | on a ui-schema no setup has run on and without an empty HorizontalLayout, setup completes, given the fuel, with every Control keyworded and then every HorizontalLayout stamped, and reports an error exactly when some Control lacks a string scope |
| LegacyForm.BindTree | gojsonforms.go:90-139 | on a ui-schema in which no array control holds another in its `options`, and for data holding no Control, BindData completes, given the fuel, with every array control expanded and then every Control of the re-parsed tree, copies included, that is not an array control holding the value its scope names as `data`, null included; it reports an error exactly when an array control or one of those Controls lacks a string scope |
| LegacyForm.WidthsOnlyForHorizontal | gojsonforms.go:74 | a tree without a HorizontalLayout is not changed by the width walk: a VerticalLayout gets no width |
| LegacyForm.SetupErrorIff | gojsonforms.go:51-88 | on a ui-schema no setup has run on, setup that returns reports an error exactly when some Control at any depth lacks a string scope |
| LegacyForm.SetupFlagsScopelessRoot | gojsonforms.go:56-59 | a scopeless Control at the root makes a setup that completes report an error |
| UISchema.Nodes | UISchema.go:47-65 | the visiting order starts with the node itself |
| UISchema.FindWithScope | UISchema.go:47-65 | a found element has the query as its scope |
| UISchema.FindIsFirstInOrder | UISchema.go:47-65 | the result is the first node in visiting order with the scope: the receiver, then its elements, then its detail elements |
| UISchema.FindInElementsIsFirst | UISchema.go:52-56 | the loop over the elements returns the first match in their order |
| UISchema.FindInDetailIsFirst | UISchema.go:58-62 | the loop over the detail elements returns the first match in their order |
| UISchema.FindNothing | UISchema.go:47-65 | the result is nil exactly when no reachable node has the scope |
| UISchema.FindParentWithScope | UISchema.go:23-45 | the result is ("", empty) or a slice holding an element with the scope |
| UISchema.ParentOfNothing | UISchema.go:44 | with no match below the node, the result is ("", empty) |
| UISchema.ParentImpliesFound | UISchema.go:23-45 | a parent is reported only for a scope that FindWithScope finds |
| UISchema.DirectHitInElements | UISchema.go:24-27 | a direct hit among the elements reports the node's own type and elements |
| UISchema.DirectHitInDetail | UISchema.go:34-37 | a direct hit among the detail elements reports the detail's type and elements |
| UISchema.DetailAfterElements | UISchema.go:34-42 | the detail elements are searched only when nothing is found under the elements |
| UISchema.EmptyTypeDiscarded | UISchema.go:29 | a match whose parent has an empty type is dropped by the caller: the search reports ("", empty) though FindWithScope finds the element |
| FormBuilder.SetNestedKey | formbuilder.go:95-110 | the head key of the stripped path is added or replaced and every other key keeps its value; an empty path or a non-map step panics |
| FormBuilder.SetThenLookup | formbuilder.go:95-110 | afterwards the stripped key path leads to the value |
| FormBuilder.SetLeavesOthers | formbuilder.go:95-110 | a key path that leaves the stripped path finds what it found before |
| FormBuilder.FindElementIsLookup | formbuilder.go:87-93 | the descent succeeds exactly when the keys lead to a map, and gives that map |
| FormBuilder.FindElementSplits | formbuilder.go:87-93 | descending along a + b is descending along a, then along b |
| FormBuilder.KeysOf | formbuilder.go:72-73 | a submitted key gives at least one key, none holding '/', and joined with '/' they give back the key with one leading "#/" trimmed |
| FormBuilder.ReadForm | formbuilder.go:68-85 | over an order that lists every submitted key exactly once, the loop's map is the keys' first values set at their keys, one after another; a key without values or a failed setNestedKey panics |
| FormBuilder.BuildStops | formbuilder.go:75-81 | once a key panics, the whole call panics |
| FormBuilder.ReadFormLastKey | formbuilder.go:68-85 | the key handled last holds its first value at its stripped keys |
| FormBuilder.ReadFormAllKeys | formbuilder.go:68-85 | when no key's stripped keys are a prefix of another's and the call does not panic, every submitted key finds its first value at its stripped keys, whatever the map order |

## Left out

- HTML templating and the embedded assets are left out: `build`, `BuildContent`, `BuildIndex`, `Build` and the template functions. They produce markup through foreign library calls.
- Plain field setters and the custom-template constructor are left out: `SetMenu`, `SetCSS`, `SetLogo`, `SetPostLink`, `SetConfirmation`, `NewFormWithCustomTemplates` and `UISchema()`. They only store or return a field.
- JSON parsing and serialisation are left out. Inputs are parsed `Json` values. The parse errors of the Legacy `New` and `BindData` are not modelled, and the Legacy `ReadForm` returns the object rather than its text.
- Numbers are integers. The float64 numbers a re-parse produces are not modelled.
- The logging of `iterateArray` and of the Legacy width closure is left out.
- JsonTree.Search: gabs's `~0`/`~1` path escapes are left out, and so is gabs v2's wildcard: at an array, a `*` segment searches every element and collects what each yields. Here a scope is cut into segments only at '.', and `*` is an ordinary key, which finds nothing in an array.
- Go's map iteration order is a parameter of both `ReadForm` models (`order`). The walk over object members is proved not to depend on it.
- Sharing between gabs containers is left out. Every value is a copy.
- A walk that panics part-way in the source leaves the nodes it already changed. In the model, a crashed method leaves its field as it was.
- Engine.Walk: the walk is bounded by a fuel. A tree deeper than the fuel gives `OutOfFuel`, and the source has no such outcome.
- Engine.Gather: an exhausted walk of one member outranks a panic in another. Go stops at whichever it reaches first, and both end the call.
- Engine.WithKeywords: a keyword name containing '.' is stored as one member. gabs would nest it one level deeper.
- Engine.WithKeywords: a Control whose `schema` member is neither missing, null nor an object is left alone.
- Engine.Rewrite: "items/" inside the object keys of a detail template is not rewritten. Only string values are.
- The error `setup` and `BindData` return is modelled as whether one occurred. Its message and which one came last are left out.
- SetupFacts.KeywordWalkFlags: proved for a ui-schema in which no Control has a non-null `schema` member. On one that has, a copied keyword can replace a nested object holding a Control, and the walk never visits that Control.
- SetupFacts.KeywordTree: likewise, and only with the fuel to reach every node of the result.
- InternalForm.SetupTree: likewise; a ui-schema with an empty HorizontalLayout is left out because its division by zero panics, which `PassFacts.StampLayoutWidths` states for the node.
- LegacyForm.SetupTree: likewise, for the Legacy setup.
- InternalForm.BindTree: proved for a ui-schema in which no array control holds another array control in its `options`. The source walks top-down, so it copies or deletes such a nested template before it visits the array control inside it, and that inner control is never expanded; the bottom-up reference `Expanded` would expand it. The condition also covers `options` members other than the template. Whether the top-down walk can reach a nested array control at all depends on the order of those edits; `Engine.Walk` follows that order, but no theorem states its result on such a tree.
- InternalForm.BindTree: proved for a re-parsed expansion without array-select controls. The array-select operation is stated for one control (`StripFacts.GroupSelectNode`, `StripFacts.GroupSelectData`), and its rewrite walk over a whole template (`StripFacts.StripTree`), but the array-select walk over a whole ui-schema is not.
- InternalForm.BindTree: data holding a Control of its own is left out: the walk would go on into the stored value.
- LegacyForm.BindTree: likewise, for the Legacy BindData: nested array controls and data holding a Control are left out.
- InternalForm.SetupErrorIff: proved for a ui-schema in which no Control has a non-null `schema` member. On one that has, a copied keyword can replace a nested object holding a Control, and the walk never visits that Control.
- LegacyForm.SetupErrorIff: likewise, for the Legacy setup.
- Paths.GabsPathOfItemScope: proved for names without the letter 'p', '#' or '/'. Such a name cannot hide a "properties/" step.
- UISchema.FindWithScope: returns the element found, not a reference into the tree. Node identity is left out.
- The JSON field tags of the typed ui-schema are left out.
- The root package's `FindParentWithScope` and `FindWithScope` take the tree by reference (`*UIElement`) but never write to it. The model works on values, so nothing can change.
- A submitted key whose path conflicts with another key's path gives a result that depends on Go's map order. No property is stated about that case.
