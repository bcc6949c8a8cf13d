# Reference-model generator for JavaScript documentation, in Dafny

This project models the JSDoc plugin `jsdocs/plugins/yamlGenerator.js`. The plugin turns the
documentation extractor's doclets into a reference model of classes, constructors, functions
and members. It then writes one YAML document per class group and a `toc.yml` table of contents.

The model follows the plugin's phases:

- **parseBegin**. It reads the package name and the repository url and builds the initial
  state: the uid prefix, the global uid, and the global container item.
- **newDoclet**. An ordered chain of early returns filters the doclets. An included doclet is
  shaped into an item (uid, parent, full name, summary, source). The item is linked into its
  owner's `children` and passed to the handler for its kind (`handleClass`, `handleFunction`
  with `handleParameterType`, or `handleMember`). Finally it is registered by `addItem`.
- **serializeToc**. The registered items are partitioned into class groups, and `fileMap` and
  the namespace map are built. Each group gets its `references`. The global group is dropped
  when it has no children. Each remaining group gets a document name and a ToC entry. The ToC
  is sorted with `sortFn` at both levels.

The modules, one `.dfy` file each:

| module | file | what it holds |
|---|---|---|
| `Optional` | optional.dfy | `Option`, JavaScript truthiness of an optional string |
| `JsText` | jstext.dfy | the string built-ins the plugin uses: `indexOf`, `lastIndexOf`, `replace` with a string pattern, `split`/`join`, `toUpperCase`/`toLowerCase`, `<` on strings, the blank-to-dash regex |
| `Doclets` | doclets.dfy | doclets (input), items of the reference model (output), run configuration |
| `Registry` | registry.dfy | `items`/`itemsMap` and `addItem` |
| `Handlers` | handlers.dfy | `handleClass`, `handleFunction`, `handleParameterType`, `handleMember`, `builtInTypes` |
| `Ingest` | ingest.dfy | `parseBegin`, `setSourceInfo`, the `newDoclet` filter, shaping and dispatch |
| `Grouping` | grouping.dfy | the first pass of `serializeToc` (groups, `fileMap`, namespaces, `referenceMap`) and `references` |
| `Toc` | toc.dfy | document names, the emission loop, the ToC and `sortFn`, and the whole run (`Generate`) |
| `GlobalGroup` | global_group.dfy | the global container over a whole run, and when its group is written |

In the plugin an item is one JavaScript object, held by reference in both `items` and
`itemsMap`. When a later doclet pushes onto its owner's `children`, it does so through the
map, and the sequence sees the change. `Registry.State` therefore keeps the objects in a
`heap`; `items` and `itemsMap` hold addresses into it. `Snapshot` and `View` give the value
views of the sequence and the map.

Behaviour modelled as written:

- `parseBegin` pushes the global container onto `items` but not into `itemsMap`.
- A reference's `isExternal` is always false. References are only built for types that
  `fileMap` knows.
- A reference's `name` is the text after the first dot.
- `replace(env.pwd + '\\', '')` removes only the first occurrence.
- A class whose namespace key equals the global uid makes the ToC loop throw:
  `classToNamespaceMap[id].toc` is undefined because the namespace loop skipped that key.
  The model returns the documents written so far and no `toc.yml` (`Output.toc == None`).
  `Toc.Serialize` states exactly when this happens.
- `fileMap[item.uid] = parentId` (line 173) overwrites the entry a class set for itself when a
  later non-class item carries the class's uid. That class's group can then list a reference to
  its own uid (line 209 compares the group id with `fileMap`, not with the uid).
  `Grouping.NoSelfReference` states the absence of self-references only while
  `fileMap[id] == id`.
- A member registered before its class is skipped (line 165), and a second class item with the
  same uid starts the group afresh (line 145). `Grouping.CollectGroup` states both: a group holds
  the last class item with its uid and the members after it.
- A doclet claims the global uid when, prefix aside, its uid is `global`: a class, or a doclet
  with a `memberof`, whose longname is `global`. Its item is registered in `itemsMap` under the
  global uid. A class item is unshifted in front of the container and then heads the global
  group. Once the uid is in the map, a later item with it replaces the last item if that one
  has the uid, and that can be the container itself (line 21). Either way the global group can
  be written with no function or member under it. `Ingest.ClaimsGlobalUid` names such doclets,
  and the lemmas about the global group over a whole run assume there are none.

## Model

All source paths are in `jsdocs/plugins/yamlGenerator.js`.

| member | source | states |
|---|---|---|
| `Registry.Register` | jsdocs/plugins/yamlGenerator.js:15-32 | An existing record with a non-empty summary, or a new item whose summary is `''`, leaves the state unchanged. Otherwise the map sends the uid to the new item and every other uid to its old record. The key set gains exactly the uid, and no stored object is lost. |
| `Registry.RegisterPlaces` | jsdocs/plugins/yamlGenerator.js:20-30 | A stored item lands in one of three places. It replaces the last entry when that entry carries the uid. Otherwise a class is prepended and any other item is appended. Nothing else in the sequence changes. |
| `Registry.KeepsExistingOther` | jsdocs/plugins/yamlGenerator.js:15-17 | Registering one uid does not change whether the record of another uid is kept. |
| `Registry.RegisterFreshPair` | jsdocs/plugins/yamlGenerator.js:20-30 | A fresh non-class record and then a fresh class: the class is in front, the other record at the back, and the rest of the sequence is unchanged between them. |
| `Registry.AddChild` | jsdocs/plugins/yamlGenerator.js:341-344 | Pushing onto the owner's `children` changes only the owner's object. Every slot of the sequence holding that object sees the new child; no other slot, key or address changes. |
| `Handlers.Position` | jsdocs/plugins/yamlGenerator.js:111 | `indexOf` answers -1 exactly when the value is absent; otherwise it gives a position holding the value. |
| `Handlers.ResolveNames` | jsdocs/plugins/yamlGenerator.js:110-115 | Resolution keeps length and order. A name whose lower-cased form is built in is returned unchanged; every other name gets the uid prefix. |
| `Handlers.ResolveTypes` | jsdocs/plugins/yamlGenerator.js:108-116 | An absent type stays absent; a present one is resolved name by name. |
| `Handlers.ResolveNamesEmptyPrefix` | jsdocs/plugins/yamlGenerator.js:108-116 | Without a package name, type resolution is the identity. |
| `Handlers.TopLevelNames` | jsdocs/plugins/yamlGenerator.js:87-90 | The parameter-list ids are exactly the dotless parameter names: every kept id is a parameter name without a dot, and every dotless name is kept. |
| `Handlers.TopLevelNamesAppend` | jsdocs/plugins/yamlGenerator.js:87-90 | The id filter distributes over concatenation, so the declared order is preserved. |
| `Handlers.HandleFunction` | jsdocs/plugins/yamlGenerator.js:72-107 | The kind is Function for a `function` doclet and Constructor otherwise. `name` and `fullName` each gain exactly the suffix `'(' + ids.join(', ') + ')'`. `syntax.content` is `'function '` or `'new '` followed by the new name. The parameters correspond one to one with the doclet's: same id, resolved types, converted description, same `optional`. The return entry is present exactly when `returns` is. It has the resolved type, converted description and `optional` of the first `returns` entry. Everything else is untouched. |
| `Handlers.HandleMember` | jsdocs/plugins/yamlGenerator.js:119-130 | The kind is Member and the content is the name. The return entry holds only the first declared type name, not prefixed, with no description and no optional flag, and is absent when there is no type. Names and links are untouched. |
| `Handlers.HandleClass` | jsdocs/plugins/yamlGenerator.js:53-70 | The constructor has uid and id suffixed `.#ctor`, parent set to the class uid, and kind Constructor. Its full name is the class's full name, `.`, the name, then the parameter suffix. Its summary is the converted description. The class's `children` is exactly `[ctor uid]`, and its summary is the converted `classdesc` when that is non-empty. |
| `Ingest.WithGitSuffix` | jsdocs/plugins/yamlGenerator.js:365-367 | A non-empty url ends in `.git` afterwards. One that already did, and the empty url, are unchanged. The url is always kept as a prefix. |
| `Ingest.WithGitSuffixIdempotent` | jsdocs/plugins/yamlGenerator.js:365-367 | Suffixing twice is the same as suffixing once. |
| `Ingest.NormalizeRepo` | jsdocs/plugins/yamlGenerator.js:365-367 | An absent repository stays absent. A present one keeps its branch and gets `WithGitSuffix` of its url, so a non-empty url ends in `.git`. |
| `Ingest.NormalizeRepoIdempotent` | jsdocs/plugins/yamlGenerator.js:365-367 | Normalising the repository twice is the same as once. |
| `Ingest.Begin` | jsdocs/plugins/yamlGenerator.js:369-386 | With a package name the prefix is `name + '.'`; without one it is empty. The global uid is always the prefix plus `global`. The sequence holds exactly the global container, and the map is empty. |
| `Ingest.SourcePath` | jsdocs/plugins/yamlGenerator.js:36-39 | With at most two backslash-separated pieces the path is kept. Otherwise the path is the first two pieces, each followed by a backslash, then the result. |
| `Ingest.RelativePathUnderPwd` | jsdocs/plugins/yamlGenerator.js:36 | When the directory starts with `pwd + '\'`, exactly that prefix is removed. |
| `Ingest.SourceInfo` | jsdocs/plugins/yamlGenerator.js:34-51 | `source` is set exactly when a repository is configured. It carries the item id, the trimmed path, the doclet line, and a remote with the repository branch, that same path and the repository url. |
| `Ingest.Filter` | jsdocs/plugins/yamlGenerator.js:290-327 | A doclet is kept if and only if none of the eight drop conditions holds. A returned reason holds, and no condition the plugin checks before it does. |
| `Ingest.BaseItem` | jsdocs/plugins/yamlGenerator.js:328-356 | The uid is the prefix, then `_global.` for a free non-class, then the longname. The id equals the uid, and the name is the doclet's. The parent is the prefixed `memberof` for a non-class. The full name is `parent + '.'` (or the prefix) plus the name. The summary is the converted `description` when that is non-empty, else the converted `summary`. `source` is `setSourceInfo`'s record for a class and absent otherwise, and `tags` are the doclet's. |
| `Ingest.Shaped` | jsdocs/plugins/yamlGenerator.js:328-358 | Dispatch by kind: a member keeps its name and gets content equal to it; a function gets the parameter suffix and `function ` content; a class gets kind Class, the constructor as its only child, no parent, and full name equal to the prefix plus the name. The summary is the base summary, replaced by the converted `classdesc` for a class that has one. `source` is present exactly for a class when a repository is configured. `tags` are the doclet's. |
| `Ingest.ShapedCtor` | jsdocs/plugins/yamlGenerator.js:59-69 | A class doclet's constructor has uid `classUid + '.#ctor'`, parent the class uid, kind Constructor, the parameter suffix, `new ` content and the converted `description` as summary. |
| `Ingest.WithChildLink` | jsdocs/plugins/yamlGenerator.js:341-344 | A doclet with no owner leaves the state unchanged. Otherwise the owner is registered, and exactly its `children` gain the doclet uid at the end; every other record stays the same. The sequence, the map and every summary are kept, so `addItem` decides as before. |
| `Ingest.NewDoclet` | jsdocs/plugins/yamlGenerator.js:290-360 | A dropped doclet leaves the state unchanged. Every run keeps the state well formed and the prefix and global uid unchanged. |
| `Ingest.NewDocletKeys` | jsdocs/plugins/yamlGenerator.js:328-359 | An included doclet adds exactly its own uid to the map, and for a class also the constructor's uid. |
| `Ingest.NewDocletRegisters` | jsdocs/plugins/yamlGenerator.js:328-359 | The shaped item becomes the uid's record unless the existing record is more informative. For a non-class doclet, a kept record changes only through the child link. A class's constructor is registered under the same rule. |
| `Ingest.ShapedKept` | jsdocs/plugins/yamlGenerator.js:16-17 | `addItem` keeps the existing record exactly when the uid is registered and either that record has a non-empty summary or the doclet's converted summary is empty. For a class with a `classdesc`, that summary is the converted `classdesc`. |
| `Ingest.NewDocletLinksChild` | jsdocs/plugins/yamlGenerator.js:341-359 | After `newDoclet`, the owner's `children` end with the new uid. This holds whether `addItem` keeps the owner's record or not, unless the doclet is its own owner and its item replaces that record. |
| `Ingest.ShapedParent` | jsdocs/plugins/yamlGenerator.js:334-336 | The group an included item joins is its prefixed `memberof` for an owned non-class, and the global uid otherwise. |
| `Ingest.ClassBeforeCtor` | jsdocs/plugins/yamlGenerator.js:20-30 | A class doclet with fresh uids: `items` becomes the class, then the earlier items, then the constructor, because the constructor is added first and the class is prepended. |
| `Ingest.WellFormedIngestible` | jsdocs/plugins/yamlGenerator.js:290-360 | A stream of well-formed doclets meets `IngestAll`'s precondition. |
| `Ingest.IngestAll` | jsdocs/plugins/yamlGenerator.js:290-360 | Over a doclet stream the state stays well formed, the prefix and global uid stay fixed, and no registered uid is lost. |
| `Grouping.NamespaceKey` | jsdocs/plugins/yamlGenerator.js:151-156 | There is no namespace when no dot follows the first character. Otherwise the namespace is the non-empty text before the last dot. |
| `Grouping.AddRefs` | jsdocs/plugins/yamlGenerator.js:174-183 | Marking types in `referenceMap` gives exactly the old keys plus the new types, and keeps the old key order as a prefix. |
| `Grouping.Step` | jsdocs/plugins/yamlGenerator.js:142-185 | A class starts a fresh group holding only itself and maps to its own document. A member whose owner group exists is appended to that group and mapped to it; other groups are unchanged. A member whose owner group does not exist changes nothing. |
| `Grouping.ClassStepCoherent` | jsdocs/plugins/yamlGenerator.js:144-159 | The class arm keeps the pass's invariant. |
| `Grouping.MemberStepGroup` | jsdocs/plugins/yamlGenerator.js:163-173 | The owner group grows by exactly the item. Its head stays the class item. The global container's `children` grows by exactly the item's uid when the owner is global. |
| `Grouping.MemberStepRefs` | jsdocs/plugins/yamlGenerator.js:174-183 | After a member is added, its group's `referenceMap` keys are still exactly the type names its members mention. |
| `Grouping.MemberStepGlobal` | jsdocs/plugins/yamlGenerator.js:169-172 | The global container's `children` ends with its members' uids, in order. |
| `Grouping.MemberStepCoherent` | jsdocs/plugins/yamlGenerator.js:160-184 | The member arm keeps the pass's invariant. |
| `Grouping.StepCoherent` | jsdocs/plugins/yamlGenerator.js:142-185 | Each iteration keeps the invariant. |
| `Grouping.Collect` | jsdocs/plugins/yamlGenerator.js:142-185 | The groups are keyed by exactly the uids of class items. The pass keeps its invariant: refs are exactly the mentioned types, `fileMap` points only at groups, and namespace keys are distinct. |
| `Grouping.CollectGroup` | jsdocs/plugins/yamlGenerator.js:142-185 | A group exists for uid `k` if and only if some class item has uid `k`. Its items are the last class item with that uid, then every later non-class item owned by `k`, in order. For the global group the head's `children` also gain those members' uids. |
| `Grouping.LastClassAtIsLast` | jsdocs/plugins/yamlGenerator.js:144-158 | No class item with uid `k` comes after the position `LastClassAt` finds. |
| `Grouping.LastClassAtFound` | jsdocs/plugins/yamlGenerator.js:144-158 | `LastClassAt` finds a position if and only if some class item has uid `k`. |
| `Grouping.CollectLastMember` | jsdocs/plugins/yamlGenerator.js:160-173 | A group opened by a class and closed by a member it owns ends with that member. |
| `Grouping.OrphanExcluded` | jsdocs/plugins/yamlGenerator.js:164-168 | A non-class item whose owner is not the uid of any class item is in no group. |
| `Grouping.LocalName` | jsdocs/plugins/yamlGenerator.js:212 | The reference name is the whole uid when it has no dot. Otherwise it is the suffix after the first dot. |
| `Grouping.References` | jsdocs/plugins/yamlGenerator.js:206-217 | A type is referenced if and only if it is a `referenceMap` key, `fileMap` knows it, and it maps to another group. Every reference has `fullName == uid`, `isExternal == false`, and the name after the first dot. |
| `Grouping.FinishGroup` | jsdocs/plugins/yamlGenerator.js:205-221 | An empty reference list becomes absent. A present list is non-empty. An absent list means every mentioned type that `fileMap` knows maps to the group itself. |
| `Grouping.GlobalRetainedWithMembers` | jsdocs/plugins/yamlGenerator.js:226-229 | The global group is written whenever some free function or member was grouped under it. The converse is `Toc.GlobalWrittenIff`. |
| `Grouping.NoSelfReference` | jsdocs/plugins/yamlGenerator.js:205-215 | While `fileMap` maps the group id to itself, no reference of the group names its own uid or a type mapped to its document. |
| `Toc.FileNameShape` | jsdocs/plugins/yamlGenerator.js:231-234 | A dotless id gives the dashified id plus `.yml`. Otherwise the name is the dashified text after the id's first dot, plus `.yml`. |
| `Toc.FileNameClean` | jsdocs/plugins/yamlGenerator.js:231-234 | Every document name ends in `.yml` and has no blank. |
| `Toc.CmpNames` | jsdocs/plugins/yamlGenerator.js:251-269 | Between non-global entries, `sortFn` answers `<= 0` exactly when the upper-cased names are in order. |
| `Toc.CmpTransitive` | jsdocs/plugins/yamlGenerator.js:251-269 | `sortFn`'s `<= 0` is transitive. |
| `Toc.SortedMeaning` | jsdocs/plugins/yamlGenerator.js:251-269 | In a list sorted by `sortFn`, the global entry is last and the others ascend by upper-cased name. |
| `Toc.InsertSorted` | jsdocs/plugins/yamlGenerator.js:272 | Inserting into a sorted list keeps it sorted, unless that would place a second global entry. |
| `Toc.SortToc` | jsdocs/plugins/yamlGenerator.js:272 | The sort is a permutation of its input. |
| `Toc.SortChildren` | jsdocs/plugins/yamlGenerator.js:273-277 | Each root entry keeps its uid and name and whether it has a list. A present list is replaced by its sort. |
| `Toc.SortTocSorted` | jsdocs/plugins/yamlGenerator.js:272-276 | With at most one global entry, the sort's result is sorted by `sortFn`. |
| `Toc.EmitStep` | jsdocs/plugins/yamlGenerator.js:225-248 | The loop body on one group. Before a throw, a written group appends exactly its own document, named by `FileName`, and an unwritten group appends none; after a throw nothing changes. A written group's entry joins its namespace node's list, or the root list when it has no namespace; no other list changes. The step throws exactly when the group is written and its namespace has no node. The set of namespace nodes never changes. |
| `Toc.EmitAll` | jsdocs/plugins/yamlGenerator.js:203-249 | The loop throws exactly when some written group's namespace key is the global uid. Root entries carry no children list. Every document written belongs to a written group and is named by `FileName`. |
| `Toc.DocumentsHas` | jsdocs/plugins/yamlGenerator.js:225-235 | A document is in the list for the first `m` groups exactly when it is the document of a written group among them. |
| `Toc.VisitedFirstThrow` | jsdocs/plugins/yamlGenerator.js:225-248 | Without a throw the loop visits every group. With one it stops right after the first group that throws, and no group before that throws. |
| `Toc.EmitAllFiles` | jsdocs/plugins/yamlGenerator.js:203-249 | After `n` groups, the documents written are exactly those of the written groups the loop visited, in key order, the throwing group included. |
| `Toc.EmitAllRoot` | jsdocs/plugins/yamlGenerator.js:238-248 | Root entries come from distinct groups. Without a throw they are exactly the written groups that have no namespace. |
| `Toc.EmitAllNs` | jsdocs/plugins/yamlGenerator.js:243-246 | Entries under each namespace node come from distinct groups. Without a throw they are exactly the written groups assigned to that namespace. |
| `Toc.NsNodesCover` | jsdocs/plugins/yamlGenerator.js:190-201 | Every namespace key except the global uid gets a node. |
| `Toc.Serialize` | jsdocs/plugins/yamlGenerator.js:188-249 | `toc.yml` is missing exactly when the loop throws. Every document is named by `FileName` and belongs to a written group. |
| `Toc.SerializeDocuments` | jsdocs/plugins/yamlGenerator.js:188-249 | The documents are exactly those of the written groups up to and including the first that throws. When `toc.yml` is produced, they are the documents of all written groups. |
| `Toc.SerializeSorted` | jsdocs/plugins/yamlGenerator.js:271-277 | The root list of `toc.yml` is sorted by `sortFn`, and so is each namespace node's list. |
| `Toc.NamespaceNodeInToc` | jsdocs/plugins/yamlGenerator.js:190-201 | Each namespace key except the global uid has a root node carrying its collected entries, sorted. |
| `Toc.CollectedUnderNamespace` | jsdocs/plugins/yamlGenerator.js:243-246 | Without a throw, a written group with a namespace is among that namespace's entries, and its namespace key is not the global uid. |
| `Toc.SerializeListsRoot` | jsdocs/plugins/yamlGenerator.js:247 | Every written group without a namespace has a root ToC entry. |
| `Toc.SerializeListsNs` | jsdocs/plugins/yamlGenerator.js:245 | Every written group with a namespace is listed under that namespace's node. |
| `Toc.Complete` | jsdocs/plugins/yamlGenerator.js:132-281 | On the registered items, `toc.yml` is missing exactly when some written group's namespace key is the global uid. Every document belongs to a written group and is named by `FileName`. |
| `Toc.CompleteDocuments` | jsdocs/plugins/yamlGenerator.js:132-281 | On the registered items, the documents are exactly those of the collected groups that are written, up to the first throw, and all of them when `toc.yml` is produced. |
| `Toc.CtorJoinsClass` | jsdocs/plugins/yamlGenerator.js:53-69 | A class doclet with fresh uids: its group exists after `newDoclet`, and the constructor is that group's last member. |
| `Toc.BeginGroups` | jsdocs/plugins/yamlGenerator.js:369-386 | Before any doclet only the global group exists, holding just the global container. |
| `Toc.NothingWritten` | jsdocs/plugins/yamlGenerator.js:225-249 | When no group is written, `toc.yml` is produced and no document is. |
| `Toc.BeginWritesNothing` | jsdocs/plugins/yamlGenerator.js:226-229 | A run with no doclets writes no document and does produce `toc.yml`: the global group has no children and is dropped. |
| `Toc.Generate` | jsdocs/plugins/yamlGenerator.js:361-389 | Over a whole run, every document name ends in `.yml` and contains no blank. |
| `Toc.GlobalWrittenIff` | jsdocs/plugins/yamlGenerator.js:226-229 | When the global container is the only item with the global uid, the global group exists. It is written exactly when some item is owned by the global uid. |
| `Toc.GenerateDocuments` | jsdocs/plugins/yamlGenerator.js:361-389 | The run's documents are those of the groups collected from the ingested registry, in key order, up to the first throw, and all of them when `toc.yml` is produced. |
| `Registry.RegisterKeepsSole` | jsdocs/plugins/yamlGenerator.js:15-32 | Adding an item with another uid keeps uid `u` out of `itemsMap`. The one item with uid `u` stays in `items`, unchanged, and no other item takes that uid. |
| `Registry.AddChildKeepsSole` | jsdocs/plugins/yamlGenerator.js:341-344 | Pushing a child uid onto a registered owner leaves the one item with an unregistered uid `u` unchanged and alone. |
| `Ingest.BeginIntact` | jsdocs/plugins/yamlGenerator.js:369-386 | After `parseBegin` the global uid is the prefix plus `global`. The container is the only item with it, and `itemsMap` does not hold it. |
| `Ingest.UidNotGlobal` | jsdocs/plugins/yamlGenerator.js:328-335 | A doclet that does not claim the global uid gets another uid. |
| `Ingest.NewDocletIntact` | jsdocs/plugins/yamlGenerator.js:290-360 | `newDoclet` for a doclet that does not claim the global uid keeps the container the only item with that uid, and keeps the uid out of `itemsMap`. |
| `Ingest.IngestAllIntact` | jsdocs/plugins/yamlGenerator.js:290-360 | The same over a stream in which no doclet claims the global uid. |
| `Ingest.BeginRunIntact` | jsdocs/plugins/yamlGenerator.js:290-386 | The same over a run from `parseBegin`. |
| `GlobalGroup.IntactGlobalIff` | jsdocs/plugins/yamlGenerator.js:225-235 | With the container intact, the global group exists and is written exactly when some item is owned by the global uid. When none is, no document belongs to the global group. |
| `GlobalGroup.IngestedGlobalIff` | jsdocs/plugins/yamlGenerator.js:226-229 | After a run in which no doclet claims the global uid, the global group is written exactly when some function or member is grouped under the global container. |
| `GlobalGroup.IngestedSkipsGlobal` | jsdocs/plugins/yamlGenerator.js:225-235 | After such a run with nothing under the global container, `serializeToc` writes no document for the global group. |
| `JsText.ReplaceFirstLeading` | jsdocs/plugins/yamlGenerator.js:36 | `replace` with a string pattern that starts the text removes exactly that prefix. |
| `JsText.SplitPiecesFree` | jsdocs/plugins/yamlGenerator.js:37-38 | No piece of `split(c)` contains `c`. |
| `JsText.SplitHead` | jsdocs/plugins/yamlGenerator.js:37-38 | A string with more than one piece is its first piece, the separator, and a rest whose pieces are the remaining ones. |
| `JsText.JoinSplit` | jsdocs/plugins/yamlGenerator.js:37-38 | `split(c)` followed by `join(c)` gives back the string. |
| `JsText.DropPieces` | jsdocs/plugins/yamlGenerator.js:233 | The string is its first `n` pieces, each followed by the separator, then the join of the rest; so `split(c).splice(n).join(c)` drops exactly those pieces and separators. |
| `JsText.LexLessTotal` | jsdocs/plugins/yamlGenerator.js:261-266 | Two strings are equal or ordered one way or the other, so `sortFn` never mistakes different names for a tie. |
| `JsText.LexLessTransitive` | jsdocs/plugins/yamlGenerator.js:261-266 | String `<` is transitive. |

## Left out

- File-system and process I/O: `fs.existsSync`, `mkdirSync` and `writeFileSync`, `fse.readJsonSync`, and `process.exit`. The configuration, `env.pwd` and the package name are inputs; a written document is an `OutFile` record.
- The YAML dump (`js-yaml`), the `### YamlMime` header, `console.log` output, and the `langs: ['js']` field that `addItem` sets on every item. These are serialization or logging and decide nothing the model states.
- The `JSON.parse(JSON.stringify(...))` round-trip before a document is written is taken as the identity on groups.
- `dfm.convertLinkToGfm` is not part of this model. It is an uninterpreted function `(text, prefix) -> text` in `Config.convert`.
- Ingest.NewDoclet: a doclet the filter keeps must be `WellFormed`. For a `function` or `class` doclet, a present `returns` list must have an entry; for a `member`, a present type must have a name. Dropped doclets and other kinds are not constrained. On an empty `returns` the plugin throws at line 96. On an empty type-name list it stores `[undefined]` at line 125. Neither case is modelled. `IngestAll` and `Generate` ask the same of every doclet, in the state in which it arrives (`Ingestible`).
- Doclets.Doclet: `name` is a string, so an absent name (which line 315 guards with `doclet.name &&`) is the empty string.
- Doclets.Tag: a parameter name is always a string. A nameless parameter (`@param {T}`) makes `p.id.indexOf('.')` at line 89 throw, and that is not modelled.
- Doclets.Repo: `url` and `branch` are strings, with `""` standing for an absent value. The plugin only copies them (lines 45, 47) and tests the url's truthiness and ending (line 365).
- Doclets.Doclet: `longname`, `scope` and `access` are strings with `""` for absent, because the plugin only tests them for truthiness or compares them with constants. `meta` is always present. Its `code.name` is an optional string, and a non-string name is treated as absent.
- Doclets.Item: an empty `children` list also stands for an absent one. The plugin tests `!children || children.length === 0` at line 227, so the two agree there.
- Grouping.TypeNames: an item without `syntax` mentions no type. Every non-class item the plugin registers has `syntax`, so this changes nothing reachable.
- JavaScript objects enumerate integer-like keys (such as `"12"`) before other keys. The model keeps plain insertion order for `classes`, `namespaceMap` and `referenceMap`.
- Keys that plain objects inherit (`constructor`, `toString`, ...) are not modelled as present in `itemsMap`, `classes`, `fileMap`, `namespaceMap`, `classToNamespaceMap` or `typeMap`.
- `toUpperCase` and `toLowerCase` are modelled on ASCII letters only. String `<` compares characters, not UTF-16 code units, so strings outside the Basic Multilingual Plane may order differently.
- Toc.SortToc: `Array.prototype.sort` is modelled as a stable insertion sort. The contracts state that the result is a permutation and is sorted; they do not state stability.
