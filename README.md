# Compiler Explorer client options, modelled in Dafny

This project models the part of Compiler Explorer that builds the **client options bundle**. That is the JSON object every browser downloads: compilers, libraries, tools and per-language flags. It also models the **conformance pane's library intersection**, which shows the libraries that all selected compilers support.

The bundle is built by `ClientOptionsHandler` (`lib/options-handler.ts`):

- The constructor reads the per-language property store. It derives the `supportsBinary`, `supportsBinaryObject`, `supportsExecute` and `supportsLibraryCodeFilter` flags. It builds the library catalogue (`parseLibraries`) and the tool catalogue (`parseTools`). Then it stores the JSON text and hash of the bundle.
- `parseLibraries` turns each language's `:`-separated library list into a map from library id to library.
  - Each version inherits the library's link lists, dependencies, options and packaged-headers flag, unless the version sets its own.
  - Afterwards, each library's versions are sorted by their `version` property and numbered `$order = 0, 1, …`.
- `parseTools` keeps, for each listed tool, the whole tool, and only when its executable exists.
- `libArrayToObject` re-keys a remote instance's array of libraries by library id. It re-keys each library's `versions` array by version id.
- `getRemoteLibraries` / `fetchRemoteLibrariesIfNeeded` fill a cache of remote catalogues. Each slot is fetched at most once. A response body that `JSON.parse` or `libArrayToObject` rejects leaves `{}`.
- `getFullRemoteUrl` (`GetFullRemoteUrl`) builds the peer's base URL. `getRemoteUrlForLibraries` is the `urlJoin` of that URL, `/api/libraries` and the language. It is written out where `getRemoteLibraries` requests it, because `urlJoin` is a parameter of the model.
- `setCompilers` publishes a new compiler list:
  - Nine internal keys are removed from a deep copy.
  - Each `isSemVer` group is sorted by `semver` and numbered `$order = 0, -1, -2, …`.
  - The languages' `supportsExecute` flags are recomputed from the list.
  - Each remote compiler's peer catalogue is fetched.
  - The cache becomes shared with the bundle, and the hash is recomputed.
- `get` returns the bundle. `getJSON` and `getHash` return the JSON text and hash stored at the last rehash (the constructor or `setCompilers`). A later `getRemoteLibraries` that fills a slot of the shared cache changes the bundle without rehashing, so from then on they describe the bundle as it was.

The conformance pane (`static/panes/conformance-view.ts`):

- `getOverlappingLibraries` skips the compilers that are not found. It copies the first found compiler's supported libraries. Each later compiler then narrows them to the libraries and versions that compiler also supports.
- `getCurrentCompilersIds` returns the selected compiler ids, each once, with the empty id left out.

Layout, one module per file:

- `wrappers.dfy` (`Option`)
- `js_values.dfy` (JSON values, truthiness, `String(x)`, `split`/`join`)
- `sorting.dfy` (the stable sort that `Array.prototype.sort` performs, and de-duplication)
- `properties.dfy` (the property store and `splitIntoArray`)
- `libraries.dfy`, `library_order.dfy` and `library_catalogue.dfy` (`parseLibraries`)
- `tools.dfy` (`parseTools`)
- `remote_libraries.dfy` (`libArrayToObject` and the cache slot)
- `compilers.dfy` (what `setCompilers` publishes for each compiler)
- `options_handler.dfy` (the class `ClientOptionsHandler`)
- `conformance.dfy` (the conformance pane)

The handler is a `class` whose methods update its fields in place. The catalogue builders are methods with loops, each proved equal to a specification function. Properties of those functions are proved as lemmas.

Where the code and its design description differ, the model follows the code:

- A library without a `versions` property gets one version labelled `"undefined"`. The template literal renders the missing value as that text, and the text is not empty (`LibraryCatalogue.MissingVersionList`).
- A semver group is sorted ascending, then numbered downwards. So the **oldest** compiler gets `$order` 0 and the newest gets `-(N-1)` (`Compilers.OlderRanksFirst`).

## Model

| member | source | states |
|---|---|---|
| OptionsHandler.ClientOptionsHandler.constructor | lib/options-handler.ts:149-229 | The four per-language flag maps are read with their defaults. Only `supportsExecute` and `supportsLibraryCodeFilter` are summarised by `some(Boolean)`. `libs` and `tools` are the two catalogues. Compilers and remote libraries start empty. The JSON text and hash are those of the bundle. |
| OptionsHandler.ClientOptionsHandler.GetRemoteLibraries | lib/options-handler.ts:394-421 | The peer is fetched only when its slot is empty, at the `urlJoin` of the peer URL, `/api/libraries` and the language (`getRemoteUrlForLibraries`, lines 431-433). The slot is always set afterwards and is returned. While the cache is shared, the bundle sees the new slot. The stored JSON text and hash are not touched. They stay current unless the cache is shared and the slot was empty; then the bundle has changed and they are stale. Nothing else changes. |
| OptionsHandler.ClientOptionsHandler.FetchRemoteLibrariesIfNeeded | lib/options-handler.ts:423-425 | The cache and bundle after one `getRemoteLibraries` call. The stored text and hash stay current unless a shared, empty slot is filled, which changes the bundle. |
| OptionsHandler.GetFullRemoteUrl | lib/options-handler.ts:427-429 | The URL is the target followed by the base path. |
| OptionsHandler.RemoteOf | lib/options-handler.ts:469 | A string `target` or `basePath` of an object `remote` is used as it is. A missing `basePath` renders as `undefined`. |
| OptionsHandler.CacheStep | lib/options-handler.ts:394-421 | The cache only grows. Every old slot is kept unchanged, and the slot of `remoteId(url, language)` is set. |
| OptionsHandler.CacheAfterSlots | lib/options-handler.ts:465-470 | After the fetch loop of `setCompilers`, every old slot is kept and every remote compiler's slot is set. A new slot holds what fetching one of those compilers' peers gave. |
| OptionsHandler.CacheAfterIdempotent | lib/options-handler.ts:396 | Fetching is memoised: a second round over the same compilers changes nothing. |
| OptionsHandler.ClientOptionsHandler.SetCompilers | lib/options-handler.ts:435-491 | The new bundle has the stripped and numbered compilers, the recomputed execute flags, and the cache after every remote is fetched. The cache is now shared with the bundle. The JSON text and hash are current. The top-level `supportsExecute` and everything else stay as they were. |
| OptionsHandler.ClientOptionsHandler.ScanCompilers | lib/options-handler.ts:455-477 | The loop over the copy strips every compiler, pushes every semver compiler onto its group in list order, marks the languages that execute, and fetches every remote. |
| OptionsHandler.ClientOptionsHandler.MarkAndFetch | lib/options-handler.ts:456-470 | For one compiler: its language is marked when it supports execution, and its peer is fetched when it is remote. |
| OptionsHandler.ClientOptionsHandler.UpdateOptionsHash | lib/options-handler.ts:493-497 | The JSON text and the hash are those of the current bundle, tagged `Options Hash V1`. |
| OptionsHandler.ClientOptionsHandler.Get | lib/options-handler.ts:499-501 | The bundle. Once shared, its `remoteLibs` is the handler's cache. |
| OptionsHandler.ClientOptionsHandler.GetJSON | lib/options-handler.ts:503-505 | The stored JSON text. It is the serialisation of the current bundle whenever the stored text and hash are current. |
| OptionsHandler.ClientOptionsHandler.GetHash | lib/options-handler.ts:507-509 | The stored hash. It is the hash of the current bundle whenever the stored text and hash are current. |
| OptionsHandler.MarkOne | lib/options-handler.ts:456-458 | Marking one compiler's language keeps the set of languages. |
| OptionsHandler.MarkExecutes | lib/options-handler.ts:455-458 | Marking in list order keeps the set of languages. |
| OptionsHandler.MarkExecutesFlags | lib/options-handler.ts:455-458 | A language's flag is set exactly when some compiler of it supports execution. Nothing else changes. |
| OptionsHandler.ExecuteFlagsIff | lib/options-handler.ts:451-458 | After the reset and the marking, every language keeps its keys. Its `supportsExecute` is true if and only if some new compiler of that language supports execution. |
| OptionsHandler.Published | lib/options-handler.ts:445-491 | One published compiler per compiler given. |
| OptionsHandler.PublishGroups | lib/options-handler.ts:478-491 | Numbering the pushed groups of the stripped copy gives the published compilers. |
| OptionsHandler.SetCompilersIdempotent | lib/options-handler.ts:435-491 | Publishing the same list twice gives the same bundle. |
| OptionsHandler.StripAll | lib/options-handler.ts:472-476 | One stripped compiler per compiler. |
| OptionsHandler.StripAllAt | lib/options-handler.ts:472-476 | Position `j` of the stripped list is compiler `j` stripped. |
| OptionsHandler.PushedGroupsMembers | lib/options-handler.ts:459-463 | Every semver compiler's group exists. Each group holds exactly its semver compilers, in list order. No other group is created. |
| OptionsHandler.PushSemver | lib/options-handler.ts:459-463 | Pushing compiler `i` extends the groups of the first `i` compilers to the first `i+1`. |
| Compilers.StripForbidden | lib/options-handler.ts:472-476 | The compiler with every forbidden key deleted and every other key kept. |
| Compilers.PublishedKeys | lib/options-handler.ts:436-491 | A published compiler holds every non-forbidden key unchanged, plus `$order` exactly when it is semver. `$order` is minus its rank. |
| Compilers.GroupMembersAt | lib/options-handler.ts:459-463 | A group's members are exactly its semver compilers, each once, in list order, each with its own `semver`. |
| Compilers.SortedGroupDistinct | lib/options-handler.ts:480 | The sorted group lists each member once. |
| Compilers.Rank | lib/options-handler.ts:480-485 | A semver compiler's rank is its position in its sorted group. |
| Compilers.SortedGroupAt | lib/options-handler.ts:480-485 | The member at position `k` of a sorted group has rank `k`. |
| Compilers.GroupRanks | lib/options-handler.ts:480-485 | In a group of N, the ranks are 0..N-1, each taken by exactly one member. So the `$order`s are 0, -1, …, -(N-1). |
| Compilers.RankSorted | lib/options-handler.ts:480 | For a total-preorder comparison, a smaller rank never has a greater `semver`. |
| Compilers.RankStable | lib/options-handler.ts:480 | Of two members that compare in order, the one listed first gets the smaller rank. |
| Compilers.OlderRanksFirst | lib/options-handler.ts:480-485 | Of two members with different versions, the older gets the smaller rank and so the larger `$order`. |
| Compilers.ResetSupportsExecute | lib/options-handler.ts:451-453 | Every language keeps its keys and has `supportsExecute` set to false. |
| Compilers.NumberGroup | lib/options-handler.ts:480-485 | Numbering one group publishes exactly its members and leaves the others as they were. |
| Compilers.NumberGroups | lib/options-handler.ts:479-486 | After every group is numbered, each position holds its published compiler. |
| Libraries.ParseLibraries | lib/options-handler.ts:277-377 | The result is the catalogue specification. |
| Libraries.ParseVersion | lib/options-handler.ts:301-355 | The version object, field by field, as the store describes it. |
| Libraries.ReadVersions | lib/options-handler.ts:297-358 | The `versions` object after reading each label in turn. Its key order is the labels without repeats. |
| Libraries.ReadLibrary | lib/options-handler.ts:284-360 | The library's own fields, then each listed version. |
| Libraries.ParseLanguage | lib/options-handler.ts:283-362 | Every listed library id of one language, with its versions, not yet numbered. |
| Libraries.ReadLanguages | lib/options-handler.ts:279-364 | Exactly the listed languages, each with its libraries read. |
| Libraries.NumberVersions | lib/options-handler.ts:366-373 | One library's versions, sorted and numbered by position. |
| Libraries.NumberLanguage | lib/options-handler.ts:366-374 | Every library of one language numbered. |
| Libraries.NumberLanguages | lib/options-handler.ts:365-375 | Every language numbered, and no language added or removed. |
| Libraries.CatalogueComplete | lib/options-handler.ts:277-377 | The reading pass followed by the numbering pass gives the catalogue. |
| Libraries.KeyedVersions | lib/options-handler.ts:367 | `Object.values(versions)` has one entry per key. |
| Libraries.VersionsReadEntries | lib/options-handler.ts:299-355 | A version is in the object if and only if it is listed. Each one is the version the store describes. |
| Libraries.UnorderedLanguageEntries | lib/options-handler.ts:281-360 | A library is in the language if and only if it is listed. Each one is read from the store. |
| Libraries.LanguageLibrariesEntries | lib/options-handler.ts:281-374 | A library is in the finished language if and only if it is listed. Each one is the finished library. |
| Libraries.NumberedLanguage | lib/options-handler.ts:365-374 | Numbering every library read gives the finished language. |
| LibraryCatalogue.CatalogueEntries | lib/options-handler.ts:279-283 | A language is in the catalogue if and only if its id and list are non-empty. Its libraries are exactly the listed ids. |
| LibraryCatalogue.LibraryVersions | lib/options-handler.ts:297-358 | One version per distinct listed label, in first-listed order. Each version is as the store describes it, with `$order` added. |
| LibraryCatalogue.LibraryOrders | lib/options-handler.ts:366-373 | `$order` numbers the versions 0..n-1 without gaps or repeats. Numbering changes nothing else. |
| LibraryCatalogue.LibraryOrdersSorted | lib/options-handler.ts:368 | For a total-preorder comparison, a smaller `$order` never has a greater `version`. |
| LibraryCatalogue.LibraryOrdersStable | lib/options-handler.ts:368 | Versions that compare in order keep their listed order. |
| LibraryCatalogue.MissingVersionList | lib/options-handler.ts:297-299 | A missing `versions` property gives the single version `"undefined"`. |
| LibraryCatalogue.EmptyVersionList | lib/options-handler.ts:297-298 | An empty `versions` property gives no versions. |
| LibraryCatalogue.VersionInheritance | lib/options-handler.ts:301-355 | The link lists and dependencies are inherited unless the version sets its own. The options are inherited unless the version's property is defined (even as empty text). `packagedheaders` defaults to the library's. `path` is empty unless set. |
| LibraryOrder.KeyedVersionsAt | lib/options-handler.ts:367 | Entry `k` is version `k` with its `version` value. |
| LibraryOrder.NumberAllEntries | lib/options-handler.ts:369-372 | The version at sorted position `k` gets `$order` `k`. The others are untouched, and the keys are kept. |
| LibraryOrder.SortedVersionsShape | lib/options-handler.ts:367-368 | The sorted list holds each version exactly once, with its own sort value. |
| LibraryOrder.SortedPosition | lib/options-handler.ts:367-368 | Every version has a position in the sorted list. |
| LibraryOrder.NumberedOrders | lib/options-handler.ts:366-373 | Numbering keeps the versions and changes only `$order`. The orders are distinct and below the number of versions. |
| LibraryOrder.NumberedSorted | lib/options-handler.ts:368-372 | For a total-preorder comparison, `$order` follows the versions. |
| LibraryOrder.NumberedStable | lib/options-handler.ts:368-372 | The sort is stable with respect to the key order. |
| Tools.ParseTools | lib/options-handler.ts:231-275 | The result is the tool catalogue specification. |
| Tools.ParseLanguageTools | lib/options-handler.ts:234-272 | One language's listed tools whose executable exists. |
| Tools.LanguageToolsEntries | lib/options-handler.ts:236-268 | A tool is present if and only if it is listed and its executable exists. It is then the whole tool. |
| Tools.ToolPresence | lib/options-handler.ts:231-275 | A language is present if and only if its id and tool list are non-empty. A tool is present if and only if it is listed and exists. Its id, language and executable are the ones read from the store. |
| RemoteLibraries.LibArrayToObject | lib/options-handler.ts:379-392 | The object the loop builds, or failure exactly when it throws. |
| RemoteLibraries.StoreLibrary | lib/options-handler.ts:381-389 | One library stored and its versions re-keyed, or failure. |
| RemoteLibraries.RekeyVersions | lib/options-handler.ts:385-388 | The versions re-keyed, failing exactly when one of them throws. |
| RemoteLibraries.Elements | lib/options-handler.ts:381-387 | `for … of` iterates exactly arrays and strings. |
| RemoteLibraries.CacheValue | lib/options-handler.ts:406-413 | A body that `JSON.parse` or `libArrayToObject` rejects leaves `{}`. A body both accept is stored as the object `libArrayToObject` returns. |
| RemoteLibraries.AllEntriesPrefix | lib/options-handler.ts:381-389 | Once an element throws, the loop fails. |
| RemoteLibraries.AllEntriesSucceed | lib/options-handler.ts:381-389 | The loop finishes if and only if every element stores. It then has one entry per element, in order. |
| RemoteLibraries.VersionEntriesSucceed | lib/options-handler.ts:387-388 | Re-keying versions fails if and only if one of them is `null`. |
| RemoteLibraries.LibEntrySucceeds | lib/options-handler.ts:381-389 | A library re-keys if and only if it is an object whose `versions` is a string or an array without `null`. |
| RemoteLibraries.RekeyLastWins | lib/options-handler.ts:382-388 | The keys are exactly the entries' keys. The last entry with a key wins. |
| RemoteLibraries.RekeyHas | lib/options-handler.ts:382-388 | A key is stored if and only if some entry has it. |
| RemoteLibraries.RekeyLast | lib/options-handler.ts:382-388 | An entry that no later entry overwrites is what its key holds. |
| RemoteLibraries.LibsObjectLastWins | lib/options-handler.ts:379-392 | The library under an id is the last with that id, with its versions re-keyed. |
| RemoteLibraries.LibsObjectKeys | lib/options-handler.ts:379-392 | The stored ids are exactly the libraries' ids. |
| RemoteLibraries.LibsObjectNotIterable | lib/options-handler.ts:381 | A non-iterable input throws. `""` gives `{}`. A non-empty string throws. |
| RemoteLibraries.LibraryVersionsRekeyed | lib/options-handler.ts:385-388 | A library's versions are keyed by version id, and the later of two equal ids is kept. |
| Conformance.GetOverlappingLibraries | static/panes/conformance-view.ts:483-526 | The intersection of the found compilers' maps. It is `{}` when none is found and a copy of the map when exactly one is found. |
| Conformance.IntersectWith | static/panes/conformance-view.ts:500-520 | One later compiler narrows the working map. |
| Conformance.MarkMissing | static/panes/conformance-view.ts:500-516 | Every key is kept. A library the compiler lacks becomes `false`; the others are narrowed to the shared versions. |
| Conformance.OmitMarked | static/panes/conformance-view.ts:518-520 | Dropping the `false` and version-less entries gives the narrowed map. |
| Conformance.OverlapInAll | static/panes/conformance-view.ts:483-526 | A library in the result is supported by every found compiler. |
| Conformance.OverlapClosedForm | static/panes/conformance-view.ts:483-526 | With two or more found compilers, a library remains if and only if all of them support it and share a version. It keeps the first compiler's fields and version objects, restricted to the shared versions, so it is never version-less. |
| Conformance.Restrict | static/panes/conformance-view.ts:509-511 | `_.pick` keeps exactly the listed labels, with their values. |
| Conformance.SharedStep | static/panes/conformance-view.ts:505-511 | The versions shared after one more compiler are the earlier ones cut down to that compiler's. |
| Conformance.GetCompilerId | static/panes/conformance-view.ts:387-392 | The picker's value, or `''` without a picker. The id is empty exactly when there is no picker or its value is empty. |
| Conformance.SelectedIds | static/panes/conformance-view.ts:528-538 | Exactly the non-empty ids of the pickers. |
| Conformance.GetCurrentCompilersIds | static/panes/conformance-view.ts:528-538 | No id repeats and `''` is never present. An id is present if and only if some picker selects it. |
| Properties.SplitIntoArray | lib/options-handler.ts:286-294 | As assumed for the helper these lines call: the default when the input is unset or empty. Otherwise the `:`-separated parts, which join back to the input. |
| JsValues.Split | lib/options-handler.ts:299 | At least one part, none containing the separator. |
| JsValues.JoinSplit | lib/options-handler.ts:299 | Joining the parts of a split gives back the text. |
| JsValues.SplitJoin | lib/options-handler.ts:299 | Splitting a join of separator-free parts gives back the parts. |
| Sorting.SortByPermutes | lib/options-handler.ts:368 | The sort permutes its input. |
| Sorting.SortByIsSorted | lib/options-handler.ts:368 | For a total-preorder comparison, the result is sorted. |
| Sorting.SortByStable | lib/options-handler.ts:368 | Elements that compare in order keep their input order. |
| Sorting.DedupListsOnce | static/panes/conformance-view.ts:529 | `unique` lists each element once and keeps exactly the elements. |

## Left out

- Input and output are parameters of the model. This covers the HTTPS fetch with `JSON.parse` (`HandlerEnv.fetch`), `fs.existsSync`, the logger, `getRemoteId`, `urlJoin`, `JSON.stringify`, `getHash`, `splitArguments`, and the semver comparison with `asSafeVer`. Their results are taken as given.
- `splitIntoArray` lives in a helper module that is not part of this model. It is assumed to return the default for unset or empty text, and otherwise the text's `:`-separated parts (`Properties.SplitIntoArray`). `LibraryCatalogue.VersionInheritance` relies on this behaviour.
- OptionsHandler.ClientOptionsHandler.GetRemoteLibraries: request errors are not modelled. `https.get` at line 401 has no `'error'` listener, so a refused or unresolvable request leaves the slot unset and the call never completes. `HandlerEnv.fetch` stands only for a response body, parsed or rejected by `JSON.parse`.
- OptionsHandler.ClientOptionsHandler.GetJSON, OptionsHandler.ClientOptionsHandler.GetHash: the stored text and hash are modelled as the source keeps them, and no rehash happens after a fetch into the shared cache. Their contracts promise the current bundle's text and hash only while `HashCurrent()` holds.
- Compilers.GroupMembers, OptionsHandler.PushedGroups, OptionsHandler.ClientOptionsHandler.SetCompilers, Libraries.ParseLibraries, RemoteLibraries.LibArrayToObject: keys that plain JavaScript objects inherit from `Object.prototype`, and the key `__proto__`, are not modelled. Every key is treated as an own entry, which differs from the source in these cases:
  - A semver compiler whose `group` is `toString` or `constructor` finds an inherited function at line 461, so the `push` at line 462 throws. The model groups and numbers it.
  - A library id or version label `__proto__` (lines 285 and 352), or a remote library or version id `__proto__` (lines 382 and 388), sets the object's prototype instead of adding an entry. The model stores it as an entry.
  - A compiler with `lang` `constructor` that supports execution does not throw at line 457. `ExecLangsKnown` excludes it anyway.
- The compiler-service lookup and `LibUtils.getSupportedLibraries` of the conformance pane are one `Lookup` parameter.
- Concurrency: `getRemoteLibraries` is asynchronous. Two overlapping calls for an uncached peer can both fetch. The model runs each call to completion.
- The static settings of the constructor (sharing, sponsors, policies, sources, release names, …) are one `settings` map. Nothing in the model reads them.
- The tool object built by the tool's class (`getToolTypeByKey` and `new Tool`) is modelled as the description it is constructed from.
- The property store's conversion of configuration text to booleans is not part of this model. Flag-valued keys are read through a separate flag view of the store.
- JSON key order is not modelled. A version's key order is the order in which labels are first listed. JavaScript's reordering of integer-like keys is not modelled.
- `deep copy` in `setCompilers` (`JSON.parse(JSON.stringify(…))`) is the identity. Compilers are JSON values, and numbers are restricted to integers.
- OptionsHandler.ClientOptionsHandler.SetCompilers: a compiler that supports execution but names an unknown language makes line 457 throw. This is stated as a precondition (`ExecLangsKnown`) instead of an error result.
- OptionsHandler.ClientOptionsHandler.SetCompilers: `options.languages` is the property store's own languages object. Writes to it are visible to the store, and that aliasing is not modelled.
- OptionsHandler.RemoteOf: `remote.target + remote.basePath` is modelled for string-rendered fields. Numeric addition of non-string operands is not modelled.
- Conformance.GetOverlappingLibraries: `_.extend` makes a shallow copy, so the first compiler's library objects are narrowed in place. The model returns the narrowed values and does not model that aliasing.
- Conformance.GetCompilerId: `unwrapString` throws when a picker's value is not a string. A picker's value is modelled as a string, or no picker at all.
- The user interface of the conformance pane (rendering, status icons, saving state) is not part of this model.
- Compilers.RankSorted, LibraryCatalogue.LibraryOrdersSorted, LibraryOrder.NumberedSorted: sortedness is proved only for a comparison that is a total preorder. The sort's result for an inconsistent comparison is not constrained.
