# LEAPP bridge and column bookkeeping, modelled in Dafny

This project models two parts of IPED, the digital-forensics processing and analysis tool.

**The LEAPP bridge** (`LeappBridgeTask`) runs ALEAPP/iLEAPP artifact plugins over the files of an extracted mobile dump.

- When the processing worker meets an item named `Dump` or `backup`, the task creates a `LEAPP_Reports` child under it. Under that child it creates one item per plugin, tagged with the plugin's module name, and a `DeviceDetails.html` item.
- A plugin item waits until the worker drains queue 3. Then it searches the case index for the plugin's file patterns.
  - It skips decoded items. A test meant to skip items inside containers runs on the escaped path and never fires (see "Findings").
  - It escapes the characters a Windows file name cannot hold, and records each escaping in a process-wide table.
  - It stages every accepted hit. A file already inside the case source tree is used where it lies. A temporary copy is moved into a staging directory under its path relative to the dump, and only when nothing is there yet.
- Without any staged file the item is ignored. Otherwise:
  - every staged file adds one `LINKED_ITEMS` query to the item;
  - the sorted file list is handed to the plugin as a Python list literal.
- Plugins log device information into a buffer per `LEAPP_Reports` item. The `DeviceDetails.html` item waits for queue 4, then exports that buffer as an HTML document, or is ignored when the buffer is empty.

**The column manager** (`ColumnsManager`) keeps the columns of the results table.

- It prunes a saved column layout of the fields the case does not have, and keeps the saved widths aligned with the fields.
- It falls back to the 16 default columns when nothing usable was saved.
- It rebuilds the 18 field groups of the column chooser. Fields are grouped by name prefix, and every group is sorted by the collator.
- It shows and hides columns by name, and resets the visible columns to a layout.

The model has one module per concern:

- `Text`, `Ordering`: string operations and sorting with their Java meaning.
- `Escaping`: the escape table.
- `PluginQuery`: the index query for a pattern.
- `Staging`: the staging planner.
- `Linking`: `LINKED_ITEMS`, the list literal and `media_to_html`.
- `LiteralPaths`, `DeviceInfo`, `Items`: path literals, device-info buffers, and the items and worker.
- `LeappBridge`: the task.
- `ColumnGroups`, `Columns`: the column manager.

Code that changes state is modelled imperatively, and each such method is proved against a specification function. Examples are the escape table, the staging loop, the `LINKED_ITEMS` loop, `process` and every method of `ColumnsManager`. Lemmas about those functions state what the source promises.

Where the code and the bridge's documented intent differ, the model follows the code:

- The `LINKED_ITEMS` queries carry the **escaped** relative path. Nothing reverts the escaping before the query is built.
- `revertSpecialChars(replaceSpecialChars(x)) == x` holds only for a path that escaping changed, and only while no later path escaped to the same key. `Escaping.LaterOriginalWins` and `Escaping.PlainPathCanCollide` show the two exceptions.
- The bridge's own code never sets the dump item's `hasChildren` flag. Only `LEAPP_Reports` gets `hasChildren` from it. `createChildItem` is not part of this model and is taken to leave the parent as it was (see "Left out").
- The plugin and `DeviceDetails.html` items take their path from the dump item (`parentInfo`), not from `LEAPP_Reports`.
- The container test looks for `>>` in the escaped relative path, so items inside containers are staged like any other hit. `Staging.IntendedStageHit` is the step with the test on the unescaped path, and the two steps agree on every hit outside a container.

The operating system (`SystemUtils.IS_OS_WINDOWS`) is a boolean parameter. The index search, the plugins manager's pattern matcher, the temporary files and the collator are parameters too (see "Left out").

## Model

| member | source | states |
|---|---|---|
| `Text.LastIndexOf` | iped-engine/src/main/java/iped/engine/task/leappbridge/LeappBridgeTask.java:499 | `lastIndexOf`: -1 exactly when the character is absent; otherwise the position holds it and no later position does |
| `Ordering.LexIsTotalPreorder` | iped-engine/src/main/java/iped/engine/task/leappbridge/LeappBridgeTask.java:185 | the natural order of `String` is total and transitive, so `Collections.sort` may use it |
| `Ordering.Sort` | iped-engine/src/main/java/iped/engine/task/leappbridge/LeappBridgeTask.java:185 | sorting returns a permutation of the list: same length and same multiset |
| `Ordering.SortSorted` | iped-app/src/main/java/iped/app/ui/ColumnsManager.java:543-544 | under any total preorder (the collator, `String` order) the sorted list is in order |
| `Escaping.EscapeCharsAt` | iped-engine/src/main/java/iped/engine/task/leappbridge/LeappBridgeTask.java:521 | each colon, star, question mark, double quote, less-than, greater-than and vertical bar becomes `_`, and every other character stays at its position |
| `Escaping.EscapeCharsLength` | iped-engine/src/main/java/iped/engine/task/leappbridge/LeappBridgeTask.java:521 | escaping keeps the length of the path |
| `Escaping.NoSpecialAfterEscape` | iped-engine/src/main/java/iped/engine/task/leappbridge/LeappBridgeTask.java:521 | the escaped path holds none of the special characters |
| `Escaping.UnchangedIffNoSpecial` | iped-engine/src/main/java/iped/engine/task/leappbridge/LeappBridgeTask.java:521-522 | a path is returned unchanged if and only if it has no special character |
| `Escaping.EscapeIdempotent` | iped-engine/src/main/java/iped/engine/task/leappbridge/LeappBridgeTask.java:521 | escaping twice equals escaping once |
| `Escaping.EscapedHasNoDoubleAngle` | iped-engine/src/main/java/iped/engine/task/leappbridge/LeappBridgeTask.java:521 | no escaped path contains `>` at all |
| `Escaping.RecordKeepsConsistent` | iped-engine/src/main/java/iped/engine/task/leappbridge/LeappBridgeTask.java:522-523 | `escapedFiles` keeps mapping each key to an original that escapes to the key and differs from it |
| `Escaping.RoundTrip` | iped-engine/src/main/java/iped/engine/task/leappbridge/LeappBridgeTask.java:520-534 | reverting the escaped form of a path that had a special character gives the path back |
| `Escaping.PlainPathLeavesTable` | iped-engine/src/main/java/iped/engine/task/leappbridge/LeappBridgeTask.java:522-526 | a path without special characters is returned as it is and leaves the table untouched |
| `Escaping.LaterOriginalWins` | iped-engine/src/main/java/iped/engine/task/leappbridge/LeappBridgeTask.java:523 | of two originals with the same escaped form, reverting gives the later one |
| `Escaping.PlainPathCanCollide` | iped-engine/src/main/java/iped/engine/task/leappbridge/LeappBridgeTask.java:529-534 | after escaping `a:b`, the plain path `a_b` reverts to `a:b`, not to itself |
| `Escaping.RevertThenEscape` | iped-engine/src/main/java/iped/engine/task/leappbridge/LeappBridgeTask.java:529-535 | for any key escaping can produce, escaping what it reverts to gives the key back |
| `Escaping.EscapeTable.ReplaceSpecialChars` | iped-engine/src/main/java/iped/engine/task/leappbridge/LeappBridgeTask.java:520-527 | returns the escaped path; records escaped to original only when they differ; keeps the table consistent |
| `Escaping.EscapeTable.RevertSpecialChars` | iped-engine/src/main/java/iped/engine/task/leappbridge/LeappBridgeTask.java:529-535 | a key in the table reverts to a different path that escapes to the key; any other string reverts to itself |
| `PluginQuery.FirstDelimiterSpec` | iped-engine/src/main/java/iped/engine/task/leappbridge/LeappBridgeTask.java:419 | no `*` or `/` occurs before the first delimiter position, and a delimiter sits there |
| `PluginQuery.TokensAreTokens` | iped-engine/src/main/java/iped/engine/task/leappbridge/LeappBridgeTask.java:419-421 | every token of `StringTokenizer(pattern, "*/")` is non-empty and free of delimiters |
| `PluginQuery.TokensConcat` | iped-engine/src/main/java/iped/engine/task/leappbridge/LeappBridgeTask.java:419-421 | the tokens, concatenated in order, spell the pattern with its delimiters taken out |
| `PluginQuery.TokensAt` | iped-engine/src/main/java/iped/engine/task/leappbridge/LeappBridgeTask.java:419-421 | the first token is the run before the first delimiter (none when the run is empty), then the tokens of the rest |
| `PluginQuery.TokensSplit` | iped-engine/src/main/java/iped/engine/task/leappbridge/LeappBridgeTask.java:419-421 | tokens never span a delimiter: splitting the pattern at any delimiter splits its tokens |
| `PluginQuery.BuildQuery` | iped-engine/src/main/java/iped/engine/task/leappbridge/LeappBridgeTask.java:417-423 | the `+=` loop builds `path:"<dumpPath>"` followed by `&& path:"<token>"` for every token, in order |
| `PluginQuery.ClausesMention` | iped-engine/src/main/java/iped/engine/task/leappbridge/LeappBridgeTask.java:422 | every token's conjunct occurs in the conjunction |
| `PluginQuery.QueryShape` | iped-engine/src/main/java/iped/engine/task/leappbridge/LeappBridgeTask.java:417-423 | the query starts with the dump path conjunct and contains a conjunct for every token of the pattern |
| `LiteralPaths.PythonThenIPED` | iped-engine/src/main/java/iped/engine/task/leappbridge/LeappBridgeTask.java:510-516 | on Windows `prepareIPEDLiteralPath(preparePythonLiteralPath(p))` turns every backslash into `/`; elsewhere both leave `p` unchanged |
| `LiteralPaths.NoBackslashUnchanged` | iped-engine/src/main/java/iped/engine/task/leappbridge/LeappBridgeTask.java:395-404 | a path without backslashes is its own Python literal on every system |
| `LiteralPaths.AncestorsMember` | iped-engine/src/main/java/iped/engine/task/leappbridge/LeappBridgeTask.java:464 | `mkdirs` makes exactly the folder and its `/`-bounded prefixes |
| `LiteralPaths.ParentIsAncestor` | iped-engine/src/main/java/iped/engine/task/leappbridge/LeappBridgeTask.java:464 | making `d/x` makes `d` as well, so a later hit whose target is `d` finds it existing |
| `LiteralPaths.ResolveSplit` | iped-engine/src/main/java/iped/engine/task/leappbridge/LeappBridgeTask.java:461-467 | joining the parent part of the relative path and then its `/name` gives the same file as joining the whole relative path |
| `DeviceInfo.LogEffect` | iped-engine/src/main/java/iped/engine/task/leappbridge/LeappBridgeTask.java:103-118 | `logdevinfo` appends `message + "<br/>"` to the buffer of the parent id, creating it empty first; every other buffer is unchanged |
| `DeviceInfo.LogAllAppends` | iped-engine/src/main/java/iped/engine/task/leappbridge/LeappBridgeTask.java:103-118 | after any number of calls the buffer holds exactly their fragments in call order; other keys are untouched |
| `DeviceInfo.LogDifferentKeysCommute` | iped-engine/src/main/java/iped/engine/task/leappbridge/LeappBridgeTask.java:108-117 | logging under two different parents gives the same buffers in either order |
| `DeviceInfo.DetailsAfterLogging` | iped-engine/src/main/java/iped/engine/task/leappbridge/LeappBridgeTask.java:352-374 | with messages logged, the details document is `<html><body>` + the fragments + `</body></html>`; with none there is no document |
| `DeviceInfo.DeviceInfoBuffers.LogDevInfo` | iped-engine/src/main/java/iped/engine/task/leappbridge/LeappBridgeTask.java:103-118 | the buffers after the call are the logged update for the evidence's parent id |
| `Items.Worker.CreateChild` | iped-engine/src/main/java/iped/engine/task/leappbridge/LeappBridgeTask.java:279 | `createChildItem`: a fresh item with the next id whose parent is the given item |
| `Items.Worker.ProcessNewItem` | iped-engine/src/main/java/iped/engine/task/leappbridge/LeappBridgeTask.java:289 | the worker receives the new item, after the earlier ones |
| `Items.Worker.ReEnqueue` | iped-engine/src/main/java/iped/engine/task/leappbridge/LeappBridgeTask.java:322 | the item is re-enqueued at the given priority, after the earlier re-enqueued ones |
| `Staging.AsWrittenSkipNeverFires` | iped-engine/src/main/java/iped/engine/task/leappbridge/LeappBridgeTask.java:435-437 | the container test as written, on the escaped path, never skips anything |
| `Staging.AsWrittenLetsContainerItemThrough` | iped-engine/src/main/java/iped/engine/task/leappbridge/LeappBridgeTask.java:433-440 | `/a.zip>>b.db` is inside a container, yet the test as written lets it through |
| `Staging.StageHitsStop` | iped-engine/src/main/java/iped/engine/task/leappbridge/LeappBridgeTask.java:427-488 | after an exception no later hit of the pattern changes anything |
| `Staging.StagePatternsStop` | iped-engine/src/main/java/iped/engine/task/leappbridge/LeappBridgeTask.java:415-489 | after an exception no later pattern is searched |
| `Staging.StageHitEffect` | iped-engine/src/main/java/iped/engine/task/leappbridge/LeappBridgeTask.java:430-484 | one hit adds at most one path to `filesFound`, and only when it is raw, lies under the dump, passes the container test as written (which every hit passes) and is accepted by the patterns; files and folders only grow; the table learns only this hit's escaping |
| `Staging.SkippedHitStagesNothing` | iped-engine/src/main/java/iped/engine/task/leappbridge/LeappBridgeTask.java:430-442 | a decoded hit or one the patterns reject lists nothing, moves nothing and keeps `reportDumpPath` |
| `Staging.InSourceHitRedirects` | iped-engine/src/main/java/iped/engine/task/leappbridge/LeappBridgeTask.java:450-455 | a temp file inside the source tree is listed in place, nothing moves, and the source tree becomes `reportDumpPath` |
| `Staging.CopiedHitStaging` | iped-engine/src/main/java/iped/engine/task/leappbridge/LeappBridgeTask.java:456-483 | a temp copy targets `reportDumpPath` joined with the escaped relative path. It is moved only when nothing exists there. It is listed unless the move fails |
| `Staging.RepeatedTargetNotMovedTwice` | iped-engine/src/main/java/iped/engine/task/leappbridge/LeappBridgeTask.java:466-480 | staging the same copied hit again moves nothing and lists the same path a second time |
| `Staging.StageHitKeepsMovesFresh` | iped-engine/src/main/java/iped/engine/task/leappbridge/LeappBridgeTask.java:461-480 | one hit keeps the invariant: moved targets are distinct, did not exist at the start, and exist now |
| `Staging.StageHitsKeepMovesFresh` | iped-engine/src/main/java/iped/engine/task/leappbridge/LeappBridgeTask.java:427-488 | the same invariant over all hits of a pattern |
| `Staging.StagePatternsKeepMovesFresh` | iped-engine/src/main/java/iped/engine/task/leappbridge/LeappBridgeTask.java:415-489 | the same invariant over all patterns |
| `Staging.NeverMovesTwice` | iped-engine/src/main/java/iped/engine/task/leappbridge/LeappBridgeTask.java:415-489 | over a whole plugin, no target is moved twice and no existing file or folder is overwritten |
| `Staging.StageHitsKeepTable` | iped-engine/src/main/java/iped/engine/task/leappbridge/LeappBridgeTask.java:433-435 | the escape table stays consistent through the staging of any hits |
| `Staging.StageHitsExtend` | iped-engine/src/main/java/iped/engine/task/leappbridge/LeappBridgeTask.java:427-488 | `filesFound` only grows: the earlier entries stay at the front |
| `Staging.NoEligibleHitNothingFound` | iped-engine/src/main/java/iped/engine/task/leappbridge/LeappBridgeTask.java:427-493 | when no hit is raw, under the dump and accepted by the patterns, nothing is listed (so the item is then ignored) |
| `Staging.ListedHitIsEligible` | iped-engine/src/main/java/iped/engine/task/leappbridge/LeappBridgeTask.java:430-442 | a listed hit is raw, lies under the dump, and is accepted by the patterns on its escaped path |
| `Staging.IntendedListsNoContainerItem` | iped-engine/src/main/java/iped/engine/task/leappbridge/LeappBridgeTask.java:435-440 | with the container test on the unescaped path, a listed hit is also outside every container; on every hit outside a container this step and the step as written give the same state |
| `Staging.AsWrittenStagesContainerHit` | iped-engine/src/main/java/iped/engine/task/leappbridge/LeappBridgeTask.java:433-455 | a raw hit inside a container (such as `/a.zip>>b.db`) that the patterns accept and that lies in the source tree is listed by the step as written and not by the intended step |
| `Staging.Disk.Mkdirs` | iped-engine/src/main/java/iped/engine/task/leappbridge/LeappBridgeTask.java:464 | the folder and every ancestor of it (each prefix ending before a `/`) exist afterwards; files are unchanged |
| `Staging.Disk.Move` | iped-engine/src/main/java/iped/engine/task/leappbridge/LeappBridgeTask.java:473-477 | a successful move creates the target; a failed one changes nothing |
| `Staging.StageOne` | iped-engine/src/main/java/iped/engine/task/leappbridge/LeappBridgeTask.java:430-484 | the loop body against the real table and disk, with the container test on the escaped path, does what the staging step specifies |
| `Linking.BaseName` | iped-engine/src/main/java/iped/engine/task/leappbridge/LeappBridgeTask.java:499 | the file name after the last `/` contains no `/` |
| `Linking.BaseNameIsLastSegment` | iped-engine/src/main/java/iped/engine/task/leappbridge/LeappBridgeTask.java:499 | the file name is a suffix of the path that is either the whole path or follows a `/` |
| `Linking.LinkedEntries` | iped-engine/src/main/java/iped/engine/task/leappbridge/LeappBridgeTask.java:496-501 | at most one query per listed file; one for each when none of the substrings throws |
| `Linking.LinkedEntriesComplete` | iped-engine/src/main/java/iped/engine/task/leappbridge/LeappBridgeTask.java:495-501 | when every file is at least as long as the prefix, each file gets exactly its own query, in order and duplicates included |
| `Linking.LinkOfStagedFile` | iped-engine/src/main/java/iped/engine/task/leappbridge/LeappBridgeTask.java:497-500 | a file staged at `reportDumpPath + rel` gets the query `path:"*<rel>" && name:"<base name>"`, with `/` separators on Windows |
| `Linking.LinkedEntriesStop` | iped-engine/src/main/java/iped/engine/task/leappbridge/LeappBridgeTask.java:497 | once a substring throws, the later files add no query |
| `Linking.LinkedQuery` | iped-engine/src/main/java/iped/engine/task/leappbridge/LeappBridgeTask.java:497-500 | the query names the file's path after the prefix, in IPED form, and a last segment of it: a suffix with no `/` that starts the path or follows a `/`. It is the file's `LINKED_ITEMS` entry |
| `Linking.AddLinkedItems` | iped-engine/src/main/java/iped/engine/task/leappbridge/LeappBridgeTask.java:495-501 | the item's `LINKED_ITEMS` grow by exactly the queries of the listed files, in order; no other attribute changes |
| `Linking.AppendedIsElementsWithComma` | iped-engine/src/main/java/iped/engine/task/leappbridge/LeappBridgeTask.java:187-190 | the buffer after the loop is `[`, the comma-separated elements, and a trailing comma |
| `Linking.ListLiteral` | iped-engine/src/main/java/iped/engine/task/leappbridge/LeappBridgeTask.java:187-191 | a non-empty list gives `[ 'f1', 'f2', …]`; an empty one gives `]` |
| `Linking.ExecutePluginArgument` | iped-engine/src/main/java/iped/engine/task/leappbridge/LeappBridgeTask.java:184-191 | the files are sorted into a permutation in `String` order, and the literal lists them in that order |
| `Linking.MediaToHtml` | iped-engine/src/main/java/iped/engine/task/leappbridge/LeappBridgeTask.java:124-132 | empty exactly when no file contains the media path; otherwise a link to the first file that does |
| `LeappBridge.DeferredItemRunsNext` | iped-engine/src/main/java/iped/engine/task/leappbridge/LeappBridgeTask.java:318-341 | an item runs exactly when the queue has reached its threshold; a deferred item moves to a strictly later queue where it runs |
| `LeappBridge.DeviceDetailsRunsLast` | iped-engine/src/main/java/iped/engine/task/leappbridge/LeappBridgeTask.java:318-341 | wherever DeviceDetails runs, plugins run too. At queue 3 plugins run while DeviceDetails is re-enqueued at 4. Plugins are only re-enqueued at 3 |
| `LeappBridge.FindPlugin` | iped-engine/src/main/java/iped/engine/task/leappbridge/LeappBridgeTask.java:325 | a found plugin is loaded and has the name; none is found exactly when no loaded plugin has it |
| `LeappBridge.LeappBridgeTask.NewSubItem` | iped-engine/src/main/java/iped/engine/task/leappbridge/LeappBridgeTask.java:279-289 | a fresh child with the next id, the name, path, tag and media type given. It is a sub-item with id 1 and `DECODED_DATA` set, handed to the worker |
| `LeappBridge.LeappBridgeTask.ExpandDump` | iped-engine/src/main/java/iped/engine/task/leappbridge/LeappBridgeTask.java:278-316 | `LEAPP_Reports` (with children), one tagged item per plugin, and `DeviceDetails.html` are handed to the worker in that order, with consecutive ids and the right parents and paths |
| `LeappBridge.LeappBridgeTask.ExecutePlugin` | iped-engine/src/main/java/iped/engine/task/leappbridge/LeappBridgeTask.java:181-243 | the plugin runs once, on the list literal of the sorted files; the item has children afterwards exactly when it had them or the plugin creates items |
| `LeappBridge.LeappBridgeTask.StageHitsOf` | iped-engine/src/main/java/iped/engine/task/leappbridge/LeappBridgeTask.java:427-488 | the loop over one pattern's hits leaves the state the staging of those hits specifies |
| `LeappBridge.LeappBridgeTask.StagePlugin` | iped-engine/src/main/java/iped/engine/task/leappbridge/LeappBridgeTask.java:414-489 | the search and staging loops leave `filesFound`, `reportDumpPath`, the table, the files and the folders as the staging of all patterns specifies |
| `LeappBridge.LeappBridgeTask.ProcessPlugin` | iped-engine/src/main/java/iped/engine/task/leappbridge/LeappBridgeTask.java:406-508 | the staging result, then one of three outcomes. With no file the item is ignored and no plugin runs. Otherwise the queries are added and the plugin runs on the sorted list. After an exception nothing more happens |
| `LeappBridge.LeappBridgeTask.ProcessEvidence` | iped-engine/src/main/java/iped/engine/task/leappbridge/LeappBridgeTask.java:541-571 | the report and `Dump` folders are created, with their ancestors. With no plugin nothing else changes. With a plugin, the table, files and folders are those of its staging, the `LINKED_ITEMS` queries are added when files were listed, and the plugin runs (and may give the item children) exactly when all of them were added. The item ends ignored exactly when it already was, when nothing was staged, or when the plugin ran and produced no children. Its export is untouched |
| `LeappBridge.LeappBridgeTask.ProcessDeviceDetails` | iped-engine/src/main/java/iped/engine/task/leappbridge/LeappBridgeTask.java:344-375 | with a buffer for the parent, its HTML document is exported; without one the item is ignored and nothing is exported |
| `LeappBridge.LeappBridgeTask.Process` | iped-engine/src/main/java/iped/engine/task/leappbridge/LeappBridgeTask.java:277-342 | a dump root gets, after the items handed out before, exactly the fresh items `Expanded` describes: `LEAPP_Reports` under it, one item per plugin tagged with the plugin's name and `DeviceDetails.html` under that, with consecutive ids and paths under the dump item. Any other item adds no item. Then `Handled`: a plugin item before queue 3 is re-enqueued at exactly 3 and nothing else changes; from queue 3 on, unless it is the DeviceDetails item, its folders, staging, `LINKED_ITEMS`, plugin run and ignore flag are exactly those of `processEvidence` with the plugin of that name. A DeviceDetails item before queue 4 is re-enqueued at exactly 4, and when it carries no plugin nothing else changes. From queue 4 on it is processed: the parent's buffer is exported as a document, or the item is ignored when there is none; with no plugin, the table, files, folders, runs and links are untouched. An item with neither a plugin nor the DeviceDetails type is processed, and the table, files, folders, runs and its ignore flag, export, `LINKED_ITEMS` and `hasChildren` stay as they were |
| `LeappBridge.LeappBridgeTask.ExpandIfDumpRoot` | iped-engine/src/main/java/iped/engine/task/leappbridge/LeappBridgeTask.java:277-315 | a Dump or backup item gets exactly the `Expanded` items after the earlier ones; any other item gets none |
| `LeappBridge.LeappBridgeTask.RunOrDefer` | iped-engine/src/main/java/iped/engine/task/leappbridge/LeappBridgeTask.java:317-340 | the two gates and what follows them, as `Handled` states; no item is created |
| `ColumnGroups.OfKindMember` | iped-app/src/main/java/iped/app/ui/ColumnsManager.java:477-487 | an extra attribute is in the list of its own kind (regex, language, hash DB, advanced) and in no other |
| `ColumnGroups.ExtraCount` | iped-app/src/main/java/iped/app/ui/ColumnsManager.java:477-487 | every occurrence of an attribute is counted in exactly one of the four lists |
| `ColumnGroups.ExtraPartition` | iped-app/src/main/java/iped/app/ui/ColumnsManager.java:477-487 | the four lists together are a permutation of the attributes |
| `ColumnGroups.InGroupMember` | iped-app/src/main/java/iped/app/ui/ColumnsManager.java:489-512 | an index field is in a metadata group's list exactly when the first matching prefix chooses that group |
| `ColumnGroups.AtMostOneMetaGroup` | iped-app/src/main/java/iped/app/ui/ColumnsManager.java:489-512 | no index field is in two metadata groups |
| `ColumnGroups.OthersMember` | iped-app/src/main/java/iped/app/ui/ColumnsManager.java:524-535 | a field is in "Other" exactly when it is an index field that no custom group holds |
| `ColumnGroups.OthersAppend` | iped-app/src/main/java/iped/app/ui/ColumnsManager.java:524-535 | "Other" keeps the order of the index fields |
| `ColumnGroups.DedupMember` | iped-app/src/main/java/iped/app/ui/ColumnsManager.java:456-459 | dropping repetitions keeps exactly the same elements |
| `ColumnGroups.DedupDistinct` | iped-app/src/main/java/iped/app/ui/ColumnsManager.java:456-459 | after dropping repetitions, no element appears twice |
| `ColumnGroups.DedupSorted` | iped-app/src/main/java/iped/app/ui/ColumnsManager.java:456-459 | dropping repetitions keeps a sorted list sorted |
| `ColumnGroups.SortedSetProperties` | iped-app/src/main/java/iped/app/ui/ColumnsManager.java:456-459 | the `TreeSet` array holds exactly the attributes, each once, in `String` order |
| `ColumnGroups.CustomExtraGroups` | iped-app/src/main/java/iped/app/ui/ColumnsManager.java:514-522 | of the 16 custom groups in title order, Basic is the defaults, and HashDB, Advanced, Regex and Language hold exactly the extra attributes of their kind |
| `ColumnGroups.CustomMetaGroups` | iped-app/src/main/java/iped/app/ui/ColumnsManager.java:514-522 | the other eleven custom groups hold exactly the index fields of their metadata group, each at its title's position |
| `ColumnGroups.SortAll` | iped-app/src/main/java/iped/app/ui/ColumnsManager.java:543-544 | every group is sorted in place, so the number of groups is kept; what each group holds is stated by `SortAllAt` |
| `ColumnGroups.SortAllAt` | iped-app/src/main/java/iped/app/ui/ColumnsManager.java:543-544 | group k of the sorted groups is group k put through the stable sort, so it holds the same names with the same multiplicities |
| `ColumnGroups.SortAllSorted` | iped-app/src/main/java/iped/app/ui/ColumnsManager.java:543-544 | under the collator every group comes out sorted |
| `ColumnGroups.FieldGroupsShape` | iped-app/src/main/java/iped/app/ui/ColumnsManager.java:537-544 | `fieldGroups` has 18 = `groupNames.length` sorted groups. "Other" holds exactly the index fields in no custom group. "All" is a permutation of the index fields. "Basic" is a permutation of the defaults |
| `ColumnGroups.SortedGroupsShape` | iped-app/src/main/java/iped/app/ui/ColumnsManager.java:537-544 | the same shape for any 16 custom groups followed by "Other" and "All" |
| `Columns.KeptWidths` | iped-app/src/main/java/iped/app/ui/ColumnsManager.java:225-226 | as many widths survive as fields |
| `Columns.KeptFieldsMember` | iped-app/src/main/java/iped/app/ui/ColumnsManager.java:221-229 | a field survives exactly when it was saved and is an index field or the score or bookmark column |
| `Columns.KeptFieldsAppend` | iped-app/src/main/java/iped/app/ui/ColumnsManager.java:221-229 | survivors keep their relative order: pruning distributes over concatenation |
| `Columns.KeptNothingRemoved` | iped-app/src/main/java/iped/app/ui/ColumnsManager.java:220-231 | pruning never lengthens the list. It removes nothing exactly when every field is kept, and then both lists stay as they were |
| `Columns.KeptAligned` | iped-app/src/main/java/iped/app/ui/ColumnsManager.java:221-229 | pairing the pruned fields with the pruned widths gives exactly the surviving saved (field, width) columns |
| `Columns.PruneMember` | iped-app/src/main/java/iped/app/ui/ColumnsManager.java:221-229 | a saved column survives exactly when its field is kept |
| `Columns.PruneSaved` | iped-app/src/main/java/iped/app/ui/ColumnsManager.java:217-231 | the index-shifting removal loop leaves the surviving fields and their widths, and counts the removed ones |
| `Columns.IndexOf` | iped-app/src/main/java/iped/app/ui/ColumnsManager.java:553 | `indexOf`: -1 exactly when absent; otherwise the first position holding the field |
| `Columns.RemoveFirstCount` | iped-app/src/main/java/iped/app/ui/ColumnsManager.java:563 | `remove(Object)` takes away one occurrence of a present field, and leaves the list alone otherwise |
| `Columns.WantedMember` | iped-app/src/main/java/iped/app/ui/ColumnsManager.java:418-421 | a field stays visible exactly when it is in the new layout or is the score or bookmark column |
| `Columns.ClassifyExtraAttributes` | iped-app/src/main/java/iped/app/ui/ColumnsManager.java:477-487 | the prefix loop fills the regex, language, hash DB and advanced lists with the attributes of each kind, in order |
| `Columns.MetaFieldsStep` | iped-app/src/main/java/iped/app/ui/ColumnsManager.java:489-512 | one more index field joins only the list of its own metadata group |
| `Columns.ClassifyIndexFields` | iped-app/src/main/java/iped/app/ui/ColumnsManager.java:489-512 | the prefix loop fills the eleven metadata lists with the fields of each group, in order |
| `Columns.OtherFields` | iped-app/src/main/java/iped/app/ui/ColumnsManager.java:524-535 | the nested loop with `break` builds exactly "Other" |
| `Columns.BuildGroups` | iped-app/src/main/java/iped/app/ui/ColumnsManager.java:456-541 | the 16 custom groups in title order, then "Other" and "All" |
| `Columns.SortGroups` | iped-app/src/main/java/iped/app/ui/ColumnsManager.java:543-544 | the in-place sorting loop sorts every group with the collator |
| `Columns.FieldGroups` | iped-app/src/main/java/iped/app/ui/ColumnsManager.java:456-544 | the groups are built and then sorted |
| `Columns.HideKeepStep` | iped-app/src/main/java/iped/app/ui/ColumnsManager.java:418-421 | a wanted field of the snapshot stays where it is |
| `Columns.HideDropStep` | iped-app/src/main/java/iped/app/ui/ColumnsManager.java:418-421 | for an unwanted field of the snapshot, the first occurrence `updateCol` removes is that field's own, so the kept fields stay in order |
| `Columns.HideDone` | iped-app/src/main/java/iped/app/ui/ColumnsManager.java:418-421 | after the first loop the visible fields are exactly the wanted fields of the snapshot, in order |
| `Columns.ShowAllMember` | iped-app/src/main/java/iped/app/ui/ColumnsManager.java:423-426 | after the second loop a field is visible exactly when it was visible before or is in the layout |
| `Columns.ShowAllSplit` | iped-app/src/main/java/iped/app/ui/ColumnsManager.java:423-426 | the second loop keeps the visible fields and appends exactly the `Appended` fields |
| `Columns.AppendedMember` | iped-app/src/main/java/iped/app/ui/ColumnsManager.java:423-426 | a field is appended exactly when it is in the layout and was not visible |
| `Columns.HiddenIdxNoneHidden` | iped-app/src/main/java/iped/app/ui/ColumnsManager.java:418-421 | when the first loop hides nothing, `lastModelIdx` stays as it was |
| `Columns.ShowKeepStep` | iped-app/src/main/java/iped/app/ui/ColumnsManager.java:423-426 | a layout field already visible changes nothing in the second loop |
| `Columns.ShowAddStep` | iped-app/src/main/java/iped/app/ui/ColumnsManager.java:423-426 | a layout field not visible is appended to the visible fields, to the loaded ones when new, and `lastModelIdx` points at it |
| `Columns.HiddenWidthsKeys` | iped-app/src/main/java/iped/app/ui/ColumnsManager.java:418-421 | the first loop records a width exactly for each hidden field the view shows, with the view's width, and leaves every other width as it was |
| `Columns.ShowAllExtends` | iped-app/src/main/java/iped/app/ui/ColumnsManager.java:423-426 | the fields visible before keep their places at the front, and each appended field occurs nowhere before it |
| `Columns.IndexOfAppendAbsent` | iped-app/src/main/java/iped/app/ui/ColumnsManager.java:556-559 | a new column appended to `loadedFields` is found at its end |
| `Columns.ColumnsManager.constructor` | iped-app/src/main/java/iped/app/ui/ColumnsManager.java:99-105 | no index fields loaded; empty groups, field lists and widths. The real constructor (ColumnsManager.java:189-198) is this one followed by `UpdateDinamicFields` and `LoadSavedCols`; the configuration and file lookups it starts with are not modelled |
| `Columns.ColumnsManager.LoadSavedCols` | iped-app/src/main/java/iped/app/ui/ColumnsManager.java:208-245 | a non-empty saved state is pruned with its widths aligned, and becomes `loadedFields`. An empty or missing one falls back to the 16 default fields and widths |
| `Columns.ColumnsManager.UpdateDinamicFields` | iped-app/src/main/java/iped/app/ui/ColumnsManager.java:449-546 | the index fields are reloaded exactly when none are loaded or the case changed. `fieldGroups` is then the sorted groups of the `TreeSet` of extra attributes and the index fields |
| `Columns.ColumnsManager.UpdateCol` | iped-app/src/main/java/iped/app/ui/ColumnsManager.java:551-572 | insert appends the column to `visibleFields`, and to `loadedFields` only when absent, and sets `lastModelIdx` to `fixedCols` plus its index in `loadedFields`. Remove takes the first occurrence out of `visibleFields`, never shrinks `loadedFields`, and remembers the width when the view shows the column. Nothing else changes |
| `Columns.ColumnsManager.ResetColumns` | iped-app/src/main/java/iped/app/ui/ColumnsManager.java:417-426 | the visible fields become the kept fields in their old order followed by the missing layout fields. A field is visible exactly when it is in the layout, or was visible and is the score or bookmark column. The loaded fields are kept in order and the appended fields not yet loaded follow them. The widths of the hidden fields the view shows are recorded (`HiddenWidths`), and `lastModelIdx` is that of the last field shown, else of the last field hidden, else as it was |
| `Columns.ColumnsManager.HideUnwanted` | iped-app/src/main/java/iped/app/ui/ColumnsManager.java:418-421 | the visible fields become exactly the wanted ones, in their old order, and `loadedFields` is unchanged. The remembered widths are those of `HiddenWidths`: each hidden field the view shows has its width recorded. `lastModelIdx` is that of the last hidden field, or as it was (`HiddenIdx`) |
| `Columns.ColumnsManager.HideIfUnwanted` | iped-app/src/main/java/iped/app/ui/ColumnsManager.java:419-421 | a field neither in the layout nor the score or bookmark column is removed once from the visible fields, its width recorded when the view shows it, and `lastModelIdx` set to it; any other field changes nothing |
| `Columns.ColumnsManager.ShowMissing` | iped-app/src/main/java/iped/app/ui/ColumnsManager.java:423-426 | each layout field not yet visible is appended, in layout order, after the fields already visible. The loaded fields are kept in order and each appended field not loaded yet follows them, so a field is loaded afterwards exactly when it was loaded or is a layout field that was not visible. The widths are unchanged and `lastModelIdx` is that of the last field shown, or as it was |
| `Columns.ColumnsManager.ShowIfMissing` | iped-app/src/main/java/iped/app/ui/ColumnsManager.java:424-425 | a field not visible is appended to the visible fields, to the loaded ones when new, and `lastModelIdx` points at it; a visible one changes nothing; the widths are unchanged |
| `Columns.ColumnsManager.ResetToDefaultLayout` | iped-app/src/main/java/iped/app/ui/ColumnsManager.java:410-415 | `resetColumns` with the default fields: the kept fields in order, then the missing defaults. A field is visible exactly when it is a default field, or was visible and is the score or bookmark column. The loaded fields are kept in order and the appended defaults not yet loaded follow them. The widths and `lastModelIdx` are as for `resetColumns`. The index fields, groups and initial widths are unchanged |

## Left out

- The Python runtime (Jep) is not part of this model: `init`, the `jep.eval`/`jep.set` calls of `executePlugin`, `loadScript`, `open`, `timeline`, `logfunc`, the scripts directory lookup and the configurables. The call into the plugin is recorded as a `PluginRun` (module name and list literal). Whether the plugin creates items under its item is a parameter (`createsItems`).
- Lucene and the index (`IPEDSearcher`, `getLuceneId`, `document`, `getItemByLuceneID`) are a function from query to hits. `ALeappPluginsManager.hasPatternMatch` is a parameter.
- Temporary files, canonical paths and the file system are modelled as follows:
  - `getTempFile` and `getCanonicalPath` are the hit's given paths;
  - `new File(dir, child)` is string joining without `..` or link resolution;
  - the disk is a set of files and a set of folders;
  - `mkdirs` makes the folder and its ancestors at each `/`.
  - `Files.move` succeeds or fails by a flag of the hit.
- `moveDir` of a temporary directory is treated like a move of the target path. The recursive per-child move is not modelled.
- `processEvidence` takes the temporary report folder as a parameter. `TemporaryResources`, `deleteOnExit` and the `IPEDSource` opening are not modelled.
- `synchronized` blocks, the `AtomicInteger` init counter and thread interleavings are not modelled. The static `escapedFiles` and `devInfoBuffers` are objects shared by reference.
- `SystemUtils.IS_OS_WINDOWS` is a boolean parameter.
- Exceptions are modelled as follows:
  - a throwing `substring` ends the staging, or the `LINKED_ITEMS` loop, with an `aborted` result;
  - a failed move is caught and the file is not listed;
  - `ItemReEnqueuedException` is the `ReEnqueued` outcome.
- An unknown plugin name makes `processPlugin` fail on the missing plugin. The model ends with no effect beyond the created folders (`p.None?`).
- `ExportFileTask.extractFile` is modelled as storing the document in `exported`. Byte encoding and the item's length are not modelled.
- `ParentInfo.getPath()` is taken to be the parent item's path.
- `String.compareTo` compares UTF-16 code units. The model compares Dafny characters, which agree on the Basic Multilingual Plane.
- `Collections.sort` and `Arrays.sort` are modelled by a stable insertion sort on sequences. For a given order both produce the same result. The `Collator` is an abstract total preorder.
- The Swing and file parts of ColumnsManager are not part of this model: `saveColumnsState`, `updateDinamicCols`, `getUsedCols`, `moveTimelineColumns`, the column moves and width setting in `resetColumns` (lines 428-446), reading the serialized state (modelled by the `SavedColumns` value), `resultsModel.updateCols`, and the report columns.
- `convertColumnIndexToView` and the column's width are the `ViewColumn` parameter.
- The localisation lookups (`getNonLocalizedField`, `getLocalizedField`, `Messages.getString`) are taken as the identity.
- `LoadIndexFields.getFields`, `Item.getAllExtraAttributes()` and `App.get().appCase` are parameters.
- The advanced-attribute `TreeSet` is modelled as the filtered, already sorted and de-duplicated `TreeSet` array. It has the same elements in the same order.
- Columns.ColumnsManager.LoadSavedCols: requires the saved widths list to be as long as the saved fields list. With fewer widths, `initialWidths.remove` throws `IndexOutOfBoundsException` out of `loadSavedCols`, and that path is not modelled.
- Columns.ColumnsManager.constructor: requires the 16 default fields to match the 16 default widths, as the two constant arrays of the class do.
- Staging.Disk.Mkdirs: ancestors are cut at `/` only. On Windows, the ancestors of the report folder separated by `\` are not added. A path component that exists as a file, which makes `mkdirs` fail, is not modelled.
- LeappBridge.LeappBridgeTask.Process: for a DeviceDetails item that also carries a plugin tag, the staging effects of its plugin are stated on `ProcessEvidence` and not repeated in its contract. This holds whether the item is then deferred or exported.
- Items.Worker.CreateChild: `createChildItem` is not part of this model. The child's initial fields (a fresh item with the next id and the parent's id, everything else at its default) and the untouched parent are assumed of it, not derived from its code.
- ReferencingTableModel.java, ReportInfoDialog.java, MapCanvasOpenStreet.java, CertificateParser.java and LatColumnExtractor.java are not part of this model.

## Findings

| source | as written | input that shows it | evidently intended | confidence | as-written member | corrected member |
|---|---|---|---|---|---|---|
| iped-engine/src/main/java/iped/engine/task/leappbridge/LeappBridgeTask.java:435-440 | the relative path is escaped (every `>` becomes `_`) before the test `artpath.contains(">>")`, so the test can never be true and items inside containers are not skipped | relative path `/a.zip>>b.db` (a raw hit whose path goes through a container) | skip the hit when the unescaped relative path contains `>>` (`Staging.IntendedStageHit` tests the path before escaping) | not executed | `Staging.AsWrittenStagesContainerHit` | `Staging.IntendedListsNoContainerItem` |
