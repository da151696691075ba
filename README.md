# PsychoSite upload quotas, in Dafny

PsychoSite relays uploads from study participants to Box folders. A
**relay** is a study's configuration. It names write endpoints, each with
a Box path, a file-type whitelist, a byte-size limit, a maximum file count
(`maxFiles`) and a maximum number of re-uploads per file
(`maxFileUpdates`). It also counts how many subject keys have been pulled
(`currentRelayPulls`) against `maxRelayPulls`. A **subject key** is a
seven-digit credential issued under a relay. Its `uploadState` is a
**ledger**: per endpoint, the endpoint's scope and the files uploaded so
far, each with an update count and, once stored, a Box file id. An upload
request authenticates with `relayName:R;subjectKey:K`. The service then
loads the ledger and lets each file through if its name, extension, count
and size fit. It stores each new file in Box or adds a new version of an
existing one, and writes the ledger back.

This project models that core:

- `ByteSize` is `To_Byte_Size`: a size string with an optional TB/GB/MB/KB unit.
- `Strings` holds the splitting, joining and substitution the source does on strings.
- `BoxFiles` is the Box folder tree. `BoxClient` holds the remote store: a map from folder id to its listing, plus a fresh-id allocator and file versions. `Walk`, `Resolve` and `DataFolders` specify `Folder_Recursive_Build` and `Make_Data_Folders`.
- `RelayBase` is relay registration: defaults, endpoint grouping, folder binding, links, and the pull counter.
- `SubjectKeyBase` is subject-key issuance: the pull quota, collision retries, custom paths, and the fresh ledger.
- `RequestFilters` is admission. It covers the per-file filter, the multipart parser's limits and the size filter.
- `Authentication` is the header check and the loading of the ledger into the request.
- `UploadFiles` is the transfer to Box and the write-back of the ledger.

Persistence is a `Database` object with a `relays` table and one key table
per relay. The request-wide `app.locals` is an `UploadRequest` object.
Box is the `BoxClient` object. `Math.random` is a sequence of draws
passed in as a parameter.

## Model

| member | source | states |
|---|---|---|
| ByteSize.MatchUnit | src/File_Upload/Request_Filters.js:123-128 | a unit is found exactly when one of the table's patterns matches the unit text, and its power is that of the first pattern in table order that matches |
| ByteSize.OccursInPair | src/File_Upload/Request_Filters.js:123 | a two-letter unit matches a `[..][..]` pattern iff its first letter is in the first class and its second letter in the second |
| ByteSize.UnitPower | src/File_Upload/Request_Filters.js:123-128 | with the corrected table a two-letter unit ending in B or b has power 4, 3, 2 or 1 when it starts with T, G, M or K in either case, and matches nothing otherwise |
| ByteSize.UnitPowerAsWritten | src/File_Upload/Request_Filters.js:123-128 | with the table as written the gigabyte power 3 goes to units starting with G or b, and a unit starting with g matches nothing |
| ByteSize.ParseInt | src/File_Upload/Request_Filters.js:129 | `parseInt` of an all-digit string is its decimal value |
| ByteSize.LeadingDigits | src/File_Upload/Request_Filters.js:129 | the digits `parseInt` reads are the longest all-digit prefix |
| ByteSize.NumberThenUnit | src/File_Upload/Request_Filters.js:122 | splitting "<digits><unit>" before the first unit letter gives the number and the unit back |
| ByteSize.NumberAndUnit | src/File_Upload/Request_Filters.js:122 | the first two pieces of the split at a digit followed by a unit letter; stated by `NumberThenUnit` |
| ByteSize.SizeWithUnit | src/File_Upload/Request_Filters.js:121-130 | "<n><unit>" with a matched unit k is n·1024^k bytes |
| ByteSize.SizeWithoutUnit | src/File_Upload/Request_Filters.js:121-130 | a bare number is that many bytes |
| ByteSize.ToByteSizeWith | src/File_Upload/Request_Filters.js:121-130 | the size is NaN exactly when `parseInt` finds no number in the whole input |
| ByteSize.ParseIntPrefix | src/File_Upload/Request_Filters.js:126-129 | `parseInt` finds a number in a prefix that ends with a digit iff it finds one in the whole string |
| ByteSize.NumberParses | src/File_Upload/Request_Filters.js:122-126 | the number before the unit is NaN iff the whole input is |
| ByteSize.ToByteSize | src/File_Upload/Request_Filters.js:121-130 | `To_Byte_Size` with the corrected gigabyte pattern `[Gg][Bb]`, which the rest of the model uses; its sizes are stated by `UnitSizes`, `SizeWithUnit` and `SizeWithoutUnit` |
| ByteSize.ToByteSizeAsWritten | src/File_Upload/Request_Filters.js:121-130 | `To_Byte_Size` with the table as written, `[Gb][Bb]`; stated by `UnitPowerAsWritten`, `GigabyteLowercaseAsWritten` and `DoubleBAsWritten` |
| ByteSize.UnitSizes | src/File_Upload/Request_Filters.js:121-130 | for every number, "<n>TB", "<n>GB", "<n>MB" and "<n>KB" in either case are n·1024⁴, n·1024³, n·1024² and n·1024 bytes (corrected table) |
| ByteSize.DoubleBAsWritten | src/File_Upload/Request_Filters.js:123 | as written, "1bb" is 1073741824 bytes |
| ByteSize.UnmatchedUnitFallsBack | src/File_Upload/Request_Filters.js:129 | a unit that no pattern matches falls back to `parseInt` of the whole input |
| ByteSize.OneDigitThenLetter | src/File_Upload/Request_Filters.js:129 | `parseInt` stops at the first non-digit |
| ByteSize.ParseIntUnsigned | src/File_Upload/Request_Filters.js:129 | `parseInt` of text that starts with a digit is the value of its leading digits |
| ByteSize.OneMegabyte | src/File_Upload/Request_Filters.js:121-130 | "1mb" is 1048576 bytes |
| ByteSize.TwoKilobytes | src/File_Upload/Request_Filters.js:121-130 | "2KB" is 2048 bytes |
| ByteSize.FiveHundredBytes | src/File_Upload/Request_Filters.js:121-130 | "500" is 500 bytes |
| ByteSize.LowercaseGigabyteUnmatched | src/File_Upload/Request_Filters.js:123 | the table as written has no pattern for "gb" |
| ByteSize.GigabyteLowercaseAsWritten | src/File_Upload/Request_Filters.js:123 | as written, "1gb" is 1 byte |
| ByteSize.GigabyteLowercase | src/File_Upload/Request_Filters.js:123 | with the corrected table, "1gb" is 1073741824 bytes |
| Strings.NatToString | src/Subject_Key/Subject_Key_Base.js:136 | a number prints as a non-empty run of digits |
| Strings.DecimalRoundTrip | src/Subject_Key/Subject_Key_Base.js:136 | reading a printed number back gives the number |
| Strings.Split | src/File_Upload/Authenticate.js:56-59 | `split` on a character gives at least one piece, and no piece contains the separator |
| Strings.JoinSplit | src/Box/Box_File_Management.js:105-114 | joining the pieces of a split with the separator gives the original string |
| Strings.Join | src/Box/Box_File_Management.js:105-114 | `parts.join(sep)`; stated by `JoinSplit` and `SplitJoin`, which make it the inverse of `Split` |
| Strings.SplitJoin | src/Box/Box_File_Management.js:105-114 | splitting a join of separator-free pieces gives the pieces back |
| Strings.SplitWithoutSeparator | src/File_Upload/Authenticate.js:56 | a string without the separator splits into itself alone |
| Strings.SplitAtFirst | src/File_Upload/Authenticate.js:56-59 | the first piece of a split runs up to the first separator |
| Strings.SplitFirstPiece | src/File_Upload/Authenticate.js:59 | the first piece is a prefix that ends at the end of the string or at a separator |
| Strings.SplitOn | src/Subject_Key/Subject_Key_Base.js:133-136 | a split on a token gives at least one piece, the first of which is a prefix of the input |
| Strings.JoinSplitOn | src/Subject_Key/Subject_Key_Base.js:133-136 | joining a token split with the token gives the input back |
| Strings.SplitOnPiecesFree | src/Subject_Key/Subject_Key_Base.js:133-136 | no piece of a token split contains the token |
| Strings.SplitOnAbsent | src/Subject_Key/Subject_Key_Base.js:133-136 | a string without the token splits into itself alone |
| Strings.SplitOnFirst | src/Subject_Key/Subject_Key_Base.js:133-136 | a token split cuts at the first occurrence of the token |
| Strings.SubstituteAbsent | src/Subject_Key/Subject_Key_Base.js:137 | a substitution with no token present leaves the string as it was |
| Strings.SubstituteFirst | src/Subject_Key/Subject_Key_Base.js:133-136 | a substitution replaces the first occurrence, then works on the rest |
| Strings.Substitute | src/Subject_Key/Subject_Key_Base.js:133-136 | `s.split(token).join(r)`; stated by `SubstituteFirst` (the first occurrence is replaced, then the rest) and `SubstituteAbsent` (a token-free string is unchanged) |
| Strings.NoMatchBefore | src/Subject_Key/Subject_Key_Base.js:133-136 | no token occurrence starts in a token-free piece when the joint with what follows cannot be straddled |
| Strings.NoMatchConcat | src/Subject_Key/Subject_Key_Base.js:133-136 | two token-free pieces with an unstraddlable joint make a token-free string |
| BoxFiles.ExtendsTransitive | src/Box/Box_File_Management.js:79-104 | store growth composes: listings are only ever appended to |
| BoxFiles.Filter | src/Box/Box_File_Management.js:51-60 | a type filter never lengthens a listing, and no type keeps the whole listing |
| BoxFiles.FilterMembers | src/Box/Box_File_Management.js:51-60 | an item survives the filter iff it is in the listing and of the requested type |
| BoxFiles.FilterAppend | src/Box/Box_File_Management.js:51-60 | filtering distributes over concatenation of listings |
| BoxFiles.FilterPrefix | src/Box/Box_File_Management.js:51-60 | filtering a longer listing extends the filtered shorter one |
| BoxFiles.FindNamed | src/Box/Box_File_Management.js:62-77 | the result is the id of the first item with the name, or none iff no item has it |
| BoxFiles.FirstNamedUnique | src/Box/Box_File_Management.js:62-77 | the first-match result is unique |
| BoxFiles.FindNamedPrefix | src/Box/Box_File_Management.js:62-77 | a name found in a listing is found with the same id after more items are appended |
| BoxFiles.SubFolderPrefix | src/Box/Box_File_Management.js:90-92 | an existing subfolder keeps its id as the folder grows |
| BoxFiles.Create | src/Box/Box_File_Management.js:115-124 | a create succeeds iff the parent exists, the name is non-empty and unused; the new id is fresh, the store only grows, the name then finds the new id, and a new folder is empty |
| BoxFiles.AppendFindsLast | src/Box/Box_File_Management.js:115-124 | an appended item with an unused name is what a lookup of that name finds |
| BoxFiles.Step | src/Box/Box_File_Management.js:90-98 | one level of the build: an existing subfolder is descended into with no change; otherwise the result is a subfolder created under the current folder |
| BoxFiles.Walk | src/Box/Box_File_Management.js:79-104 | the build only grows the store, by at most one folder per remaining segment |
| BoxFiles.LookupExtends | src/Box/Box_File_Management.js:79-104 | a path found in a store is found with the same leaf after the store grows |
| BoxFiles.Lookup | src/Box/Box_File_Management.js:79-104 | following path segments by name from a folder; stated by `LookupExtends`, `WalkFollowsLookup` and `WalkEstablishes` |
| BoxFiles.WalkFollowsLookup | src/Box/Box_File_Management.js:89-103 | a build over an existing path returns its leaf and creates nothing |
| BoxFiles.WalkEstablishes | src/Box/Box_File_Management.js:79-104 | after a successful build, the path leads to the returned leaf |
| BoxFiles.WalkIdempotent | src/Box/Box_File_Management.js:79-104 | building the same path twice returns the same leaf, and the second run creates no folder |
| BoxFiles.Tree | src/Box/Box_File_Management.js:105-114 | no segment of a path tree contains "/" |
| BoxFiles.TreeOfAbsolute | src/Box/Box_File_Management.js:105-114 | the tree of "/" followed by joined segments is those segments (round trip) |
| BoxFiles.TreeOfRelative | src/Box/Box_File_Management.js:105-114 | a path without "/" has the empty tree |
| BoxFiles.TreeExamples | src/Box/Box_File_Management.js:105-114 | "/a/b" gives ["a","b"], "/" gives [""], and "a" gives [] |
| BoxFiles.Resolve | src/Box/Box_File_Management.js:140-157 | resolving one location only grows the store |
| BoxFiles.ResolveStart | src/Box/Box_File_Management.js:140-143 | a location whose first segment is empty resolves to the starting id and creates nothing |
| BoxFiles.ResolveEstablishes | src/Box/Box_File_Management.js:140-157 | after a successful resolution, the location leads to the returned id |
| BoxFiles.LocateExtends | src/Box/Box_File_Management.js:140-157 | a located folder stays located as the store grows |
| BoxFiles.Locate | src/Box/Box_File_Management.js:140-157 | the folder a location leads to; stated by `LocateExtends`, `ResolveFollowsLocate` and `ResolveEstablishes` |
| BoxFiles.ResolveFollowsLocate | src/Box/Box_File_Management.js:140-157 | an existing location resolves to its folder and creates nothing |
| BoxFiles.SubtreesFrom | src/Box/Box_File_Management.js:148-157 | building subtrees only grows the store |
| BoxFiles.DataFolders | src/Box/Box_File_Management.js:125-164 | the whole data-folder build only grows the store |
| BoxFiles.SubtreesFromLocated | src/Box/Box_File_Management.js:148-157 | every subtree path maps to the folder it leads to from the base |
| BoxFiles.DataFoldersLocated | src/Box/Box_File_Management.js:125-164 | on success, the base path maps to its folder under the root, and every subtree path maps to its folder under the base, not under the root |
| BoxFiles.SubtreesFromExisting | src/Box/Box_File_Management.js:148-157 | subtrees that all exist are found without a change to the store |
| BoxFiles.DataFoldersIdempotent | src/Box/Box_File_Management.js:125-164 | a second `Make_Data_Folders` with the same arguments gives the same ids and creates nothing |
| BoxFiles.SharedLink | src/Box/Box_File_Management.js:33-42 | a shared link is never the "unavailable" marker |
| BoxFiles.BoxClient.GetIdsInFolder | src/Box/Box_File_Management.js:51-60 | the listing of an existing folder filtered by type; an error for a missing folder |
| BoxFiles.BoxClient.GetIdOfItemInFolder | src/Box/Box_File_Management.js:62-77 | the id of the first item of the type with exactly that name, or null if there is none; an error for a missing folder |
| BoxFiles.BoxClient.CreateNewFolder | src/Box/Box_File_Management.js:115-124 | the store becomes the one `Create` gives, or is unchanged when the create fails |
| BoxFiles.BoxClient.FolderRecursiveBuild | src/Box/Box_File_Management.js:79-104 | the returned leaf and the new store are those of `Walk` from the old store |
| BoxFiles.BoxClient.ResolveLocation | src/Box/Box_File_Management.js:140-157 | the returned id and the new store are those of `Resolve` |
| BoxFiles.BoxClient.MakeDataFolders | src/Box/Box_File_Management.js:125-164 | the result and the new store are those of `DataFolders` |
| BoxFiles.BoxClient.UploadFile | src/Box/Write_File_To_Box.js:16-24 | a new file is placed as `Create` says, with version 1; on failure nothing changes |
| BoxFiles.BoxClient.UpdateFile | src/Box/Write_File_To_Box.js:32-41 | succeeds iff the file exists, and then its version grows by one; nothing else changes |
| BoxFiles.BoxClient.MakeDownloadLink | src/Box/Box_File_Management.js:33-42 | an existing folder gets its shared link; a missing one is an error |
| RelayBase.StringOr | src/Relay/Relay_Base.js:26-33 | a falsy string gives the default |
| RelayBase.IntOr | src/Relay/Relay_Base.js:26-33 | a falsy number (absent or 0) gives the default |
| RelayBase.WithDefaults | src/Relay/Relay_Base.js:26-33 | each truthy field is kept and each falsy one defaulted, so no field of the result is falsy; no folder id or link is set yet |
| RelayBase.EmptyEndpointIsDefault | src/Relay/Relay_Base.js:22-33 | an endpoint with every field absent or falsy (`maxFiles:0` included) is the default endpoint |
| RelayBase.WithDefaultsIdempotent | src/Relay/Relay_Base.js:26-33 | defaulting an already-defaulted endpoint changes nothing |
| RelayBase.SetWriteEndpoints | src/Relay/Relay_Base.js:21-37 | no endpoints gives the single "data" endpoint with the defaults; otherwise every endpoint name is kept and each is defaulted field by field |
| RelayBase.SetBaseFolder | src/Relay/Relay_Base.js:44-57 | `path` defaults to "/" and `rootId` to 0, each on its own |
| RelayBase.NoDuplicatesAppend | src/Relay/Relay_Base.js:192-210 | appending a new name keeps a group free of duplicates |
| RelayBase.GetPathsFromEndpoints | src/Relay/Relay_Base.js:192-210 | one group per distinct Box path; an endpoint is in a group iff the group is its path; no group repeats a name |
| RelayBase.KeysOf | src/Relay/Relay_Base.js:192-210 | lists every key of a map exactly once |
| RelayBase.SharedPathSameFolder | src/Relay/Relay_Base.js:217-224 | once folders are bound, endpoints that share a Box path share a folder id |
| RelayBase.FoldersBoundExtends | src/Relay/Relay_Base.js:211-225 | bound folders stay bound as Box grows |
| RelayBase.BindGroup | src/Relay/Relay_Base.js:217-222 | the group's endpoints get the folder id; the others are unchanged |
| RelayBase.BindEndpoints | src/Relay/Relay_Base.js:217-224 | every endpoint gets the folder of its path, and nothing else changes |
| RelayBase.BuildBoxFolders | src/Relay/Relay_Base.js:211-225 | on success, the base folder and every endpoint are bound to the folder their path leads to, and only the folder ids change; on failure the one folder error; Box only grows |
| RelayBase.BindFolders | src/Relay/Relay_Base.js:217-224 | binding the `Make_Data_Folders` result binds every folder, and only the folder ids change |
| RelayBase.BindingBindsFolders | src/Relay/Relay_Base.js:217-224 | ids that are where the paths lead make the relay's folders bound |
| RelayBase.MakesLinkIff | src/Relay/Relay_Base.js:101-107 | a link is made exactly for folders other than the root |
| RelayBase.LinkFor | src/Relay/Relay_Base.js:93-107 | the link is "unavailable" iff the folder is the root |
| RelayBase.UnavailableIffRoot | src/Relay/Relay_Base.js:101-107 | in a stored relay, an endpoint's link is "unavailable" iff its folder id is 0 |
| RelayBase.LinkFolder | src/Relay/Relay_Base.js:93-107 | an existing folder gets its link, and the root gets "unavailable" |
| RelayBase.AssignLinks | src/Relay/Relay_Base.js:93-107 | on success every folder has the link `LinkFor` gives and only links change; it succeeds whenever every bound folder exists |
| RelayBase.BaseLinkNeverMadeAsWritten | src/Relay/Relay_Base.js:95 | the base-folder test as written is never true |
| RelayBase.BaseLinkMissedAsWritten | src/Relay/Relay_Base.js:95 | folder 7 should get a link but does not as written |
| RelayBase.BaseLinkAsWritten | src/Relay/Relay_Base.js:95-99 | as written, the base folder's link is always "unavailable" |
| RelayBase.BaseLinkAsWrittenWrong | src/Relay/Relay_Base.js:95-99 | as written, every non-root base folder gets the wrong link |
| RelayBase.RelayRejection | src/Relay/Relay_Base.js:69-77 | a relay is accepted iff it has a name and a repository and is new; a missing name is reported before a missing repository |
| RelayBase.PrepareRelay | src/Relay/Relay_Base.js:78-107 | the relay row has its defaults, zero pulls, bound folders and links; any failure is the one registration error |
| RelayBase.AddRelay | src/Relay/Relay_Base.js:67-115 | rejections come in the source's order and change nothing; on success exactly the new row is inserted, its key table exists, and pulls stay within quota |
| RelayBase.Merge | src/Relay/Relay_Base.js:122-135 | an update never changes the stored relay name |
| RelayBase.UpdateStatementFails | src/SQL/SQL_Functions.js:18-28 | the UPDATE is rejected when its SET list is empty or holds an object field written as "[object Object]"; stated by `UpdateRelayParams`, which fails with "Issue in updating key" exactly then |
| RelayBase.UpdateRelayParams | src/Relay/Relay_Base.js:122-135 | no name is an error; a failing statement is an error and changes nothing; otherwise only the named row is updated, by `Merge` |
| RelayBase.IterateRelayParams | src/Relay/Relay_Base.js:153-155 | the named relay's pull count grows by exactly one, and nothing else changes |
| SubjectKeyBase.DrawDigit | src/Subject_Key/Subject_Key_Base.js:112-118 | each draw gives one decimal digit |
| SubjectKeyBase.DigitString | src/Subject_Key/Subject_Key_Base.js:112-118 | one digit character per draw, in draw order |
| SubjectKeyBase.RandomNumberNDigits | src/Subject_Key/Subject_Key_Base.js:112-118 | exactly n characters, all digits, one per draw |
| SubjectKeyBase.Candidate | src/Subject_Key/Subject_Key_Base.js:39-47 | each candidate key is seven digits |
| SubjectKeyBase.FirstFree | src/Subject_Key/Subject_Key_Base.js:39-47 | a key is found iff one of the five candidates is free; the key found is free and is one of them |
| SubjectKeyBase.FirstFreeSkipsCollisions | src/Subject_Key/Subject_Key_Base.js:39-47 | colliding candidates are skipped: the first free candidate is the one chosen |
| SubjectKeyBase.ChooseKey | src/Subject_Key/Subject_Key_Base.js:39-47 | the retry loop picks the first of at most five candidates that is not already a key |
| SubjectKeyBase.ResolveKeyThenPull | src/Subject_Key/Subject_Key_Base.js:133-136 | in any template "a subjectKey b pullCount c" whose pieces a, b, c hold neither token, the key token becomes the (non-empty, all-digit) key and the pull token the pull number, wherever they stand |
| SubjectKeyBase.KeyPass | src/Subject_Key/Subject_Key_Base.js:133-134 | the key pass replaces the one key token and leaves the rest, pull token included, as it was |
| SubjectKeyBase.RestWithoutKey | src/Subject_Key/Subject_Key_Base.js:133-134 | the pull token between two pieces without the key token creates no key token |
| SubjectKeyBase.HeadWithoutPull | src/Subject_Key/Subject_Key_Base.js:135-136 | splicing a digit key between two pieces without the pull token creates no pull token |
| SubjectKeyBase.PullPass | src/Subject_Key/Subject_Key_Base.js:135-136 | the pull pass replaces the one pull token and leaves the rest as it was |
| SubjectKeyBase.ResolvePath | src/Subject_Key/Subject_Key_Base.js:133-136 | the custom path with both tokens substituted, key first; stated by `ResolveKeyThenPull` and `ResolveWithoutTokens` |
| SubjectKeyBase.ResolveWithoutTokens | src/Subject_Key/Subject_Key_Base.js:133-137 | a template without either token resolves to itself |
| SubjectKeyBase.CustomizedScopeExtends | src/Subject_Key/Subject_Key_Base.js:137-142 | a customised scope stays correct as Box grows |
| SubjectKeyBase.CreateCustomPath | src/Subject_Key/Subject_Key_Base.js:128-147 | `customPath` is removed and the resolved path appended to `boxRelativePath`; an unchanged path succeeds and touches nothing; a changed path succeeds iff the endpoint has a folder id and `Make_Data_Folders` builds the path from it, the store then being that build's, and binds the endpoint to the built folder |
| SubjectKeyBase.BuildLedger | src/Subject_Key/Subject_Key_Base.js:48-57 | one ledger entry per endpoint, each with no files and a customised scope; any failure is the one error "Error while building endpoints"; when every custom path resolves to itself the ledger is always made and Box is untouched |
| SubjectKeyBase.PlainPathsFixed | src/Subject_Key/Subject_Key_Base.js:133-137 | custom paths free of both tokens resolve to themselves for every key and pull |
| SubjectKeyBase.KeyRejection | src/Subject_Key/Subject_Key_Base.js:29-47 | issuance may go ahead iff the key table and the relay row exist, one more pull fits `maxRelayPulls` and one of the five candidates is free; otherwise the error is the first failing check's: "relay table does not exist", "relay entry does not exist in Relays", "Access key out of uses", "Collision retry limit exceeded" |
| SubjectKeyBase.AddSubjectKey | src/Subject_Key/Subject_Key_Base.js:28-74 | a rejection, in the source's order, changes nothing; past the four checks the only failure is "Error while building endpoints", and with every custom path free of both tokens the issue succeeds; a success inserts the first free candidate with a fresh ledger and the pull number read before, then raises the pull count once; pulls stay within quota |
| SubjectKeyBase.UpdateSubjectKey | src/Subject_Key/Subject_Key_Base.js:101-107 | fails iff the relay has no key table; otherwise the key's row is replaced if it exists |
| RequestFilters.LastDot | src/File_Upload/Request_Filters.js:36 | the last dot is a position in the name |
| RequestFilters.BaseNameHasNoSlash | src/File_Upload/Request_Filters.js:36 | a base name has no "/" |
| RequestFilters.BaseNameWithoutSlash | src/File_Upload/Request_Filters.js:36 | a name without "/" is its own base name |
| RequestFilters.LastDotIsLast | src/File_Upload/Request_Filters.js:36 | the dot found is a dot, and no dot follows it |
| RequestFilters.LastDotAppend | src/File_Upload/Request_Filters.js:36 | text without a dot appended after a name leaves the last dot where it was |
| RequestFilters.ExtNameShape | src/File_Upload/Request_Filters.js:36 | an extension is empty, or a dot followed by text without a dot or "/" |
| RequestFilters.ExtNameOfName | src/File_Upload/Request_Filters.js:36 | "stem.ext" has the extension ".ext" |
| RequestFilters.ExtNameOfDotFile | src/File_Upload/Request_Filters.js:36 | a dot file such as ".csv" has no extension |
| RequestFilters.ExtName | src/File_Upload/Request_Filters.js:36 | `path.extname`; stated by `ExtNameShape`, `ExtNameOfName` and `ExtNameOfDotFile` |
| RequestFilters.Counted | src/File_Upload/Request_Filters.js:18-35 | the counting half of `File_Filter`; stated by `CountedMeaning` and `CountedKeepsQuota` |
| RequestFilters.Filtered | src/File_Upload/Request_Filters.js:15-47 | `File_Filter` on the request state; stated by `FilterVerdict` and `FilteredKeepsQuota` |
| RequestFilters.SizeLimit | src/File_Upload/Request_Filters.js:105 | an endpoint's byte limit, `To_Byte_Size` of its `maxFileSize` with the corrected gigabyte pattern (see Left out) |
| RequestFilters.CountedMeaning | src/File_Upload/Request_Filters.js:18-35 | a new name is refused with nothing changed when the count is full, or added with zero updates and the count one higher; a known name is refused unchanged at its update limit, or its update count grows by one; other names are untouched |
| RequestFilters.CountedKeepsQuota | src/File_Upload/Request_Filters.js:18-35 | `fileCount ≤ maxFiles` holds after a file if it held before, and so does `updateCount ≤ maxFileUpdates` for every name updated at least once (a new name starts at 0); the count stays equal to the number of names |
| RequestFilters.FilterVerdict | src/File_Upload/Request_Filters.js:15-47 | a file is accepted iff its name was not already refused, it fits the counts and its extension is allowed; a refusal records one message for the name, chosen by extension first, then update limit, then slots; earlier refusals are kept |
| RequestFilters.FilteredKeepsQuota | src/File_Upload/Request_Filters.js:18-35 | the filter keeps the ledger within quota (file slots, and the update limit for names updated at least once) and its counts exact |
| RequestFilters.FreshNameAboveNegativeUpdateLimit | src/File_Upload/Request_Filters.js:18-25 | under a negative `maxFileUpdates` a new name is still recorded, at update count 0, above the limit |
| RequestFilters.FileFilter | src/File_Upload/Request_Filters.js:15-47 | the new ledger, the refusals and the verdict are those of `Filtered` on the old ones |
| RequestFilters.GlobalLimitUnique | src/File_Upload/Request_Filters.js:60 | the request-wide limit is determined by the ledger |
| RequestFilters.GlobalLimit | src/File_Upload/Request_Filters.js:60 | the limit is NaN when an endpoint's size is not a number, -Infinity with no endpoints, and otherwise the largest endpoint size |
| RequestFilters.BuildArrayOfFieldObjs | src/File_Upload/Request_Filters.js:86-90 | one field per endpoint, each named once, each with the endpoint's `maxFiles` as its count |
| RequestFilters.FilesLeft | src/File_Upload/Request_Filters.js:61-64 | each field's allowance starts at its endpoint's `maxFiles` |
| RequestFilters.Take | src/File_Upload/Request_Filters.js:60-65 | taking a file keeps the set of endpoints and fields |
| RequestFilters.IntakeAll | src/File_Upload/Request_Filters.js:60-72 | parsing a request keeps the set of endpoints and fields |
| RequestFilters.IntakeAllStep | src/File_Upload/Request_Filters.js:60-72 | unfolding step of `IntakeAll`, a proof helper: a file the parser rejects ends the request; otherwise parsing goes on from the new state |
| RequestFilters.TakeShape | src/File_Upload/Request_Filters.js:15-65 | a file is taken only from a field with allowance left, which drops by one; the ledger is the filter's; the file is kept only if the filter accepts it and it is within the limit |
| RequestFilters.TakeStep | src/File_Upload/Request_Filters.js:15-65 | unfolding step of `Take`, a proof helper: a file the filter refuses is skipped, and an accepted file within the limit is appended to its field |
| RequestFilters.TakeWithinCounts | src/File_Upload/Request_Filters.js:61-64 | no field keeps more files than its count allows |
| RequestFilters.TakeKeptAdmitted | src/File_Upload/Request_Filters.js:60 | every kept file is within the request-wide limit |
| RequestFilters.TakeKeptRecorded | src/File_Upload/Request_Filters.js:15-65 | every kept file is under its own field and has a ledger entry |
| RequestFilters.TakeSound | src/File_Upload/Request_Filters.js:15-65 | one file keeps the ledger within quota, the counts exact, the fields within their counts and the kept files within the limit |
| RequestFilters.IntakeSound | src/File_Upload/Request_Filters.js:57-79 | a parsed request keeps all of those |
| RequestFilters.IntakeRecorded | src/File_Upload/Request_Filters.js:57-79 | after a parsed request every kept file has a ledger entry under its field |
| RequestFilters.ParserKeepsToMaxFiles | src/File_Upload/Request_Filters.js:57-79 | from a ledger within quota, a parsed request keeps it within quota, and no field keeps more than its `maxFiles` files |
| RequestFilters.TakeFile | src/File_Upload/Request_Filters.js:60-65 | the request state becomes the one `Take` gives |
| RequestFilters.VerifyUploadedFiles | src/File_Upload/Request_Filters.js:57-79 | with the limit of the old ledger, the request goes on iff the parser accepts every file, and the request state is then the parser's |
| RequestFilters.TakeAll | src/File_Upload/Request_Filters.js:61-72 | the request state becomes the one `IntakeAll` gives |
| RequestFilters.KeepWithin | src/File_Upload/Request_Filters.js:104-110 | keeps exactly the files within the limit, never more files than given |
| RequestFilters.KeepWithinAppend | src/File_Upload/Request_Filters.js:104-110 | the filter keeps order: the kept files of `a + b` are those of `a` followed by those of `b` |
| RequestFilters.MarkOversized | src/File_Upload/Request_Filters.js:104-110 | exactly the oversized names are added, each with the size message of an oversized file of that name; other entries are kept |
| RequestFilters.FilterFieldStep | src/File_Upload/Request_Filters.js:104-110 | unfolding step of `KeepWithin` and `MarkOversized`, a proof helper: one more file is kept, or its name is marked with its size message |
| RequestFilters.FilterField | src/File_Upload/Request_Filters.js:104-110 | the field's kept files and the refusals are `KeepWithin` and `MarkOversized` |
| RequestFilters.FilterBySize | src/File_Upload/Request_Filters.js:101-115 | every field keeps exactly its files within its endpoint's byte size; exactly the removed names are added to the refusals with the size message, and other refusals are kept |
| RequestFilters.KeepWithinRecorded | src/File_Upload/Request_Filters.js:101-115 | the size filter keeps every kept file recorded in the ledger |
| Authentication.LabelledPiece | src/File_Upload/Authenticate.js:59 | a piece's label is the tag iff the piece is the tag, or the tag and ":" and more |
| Authentication.BasicAuthentication | src/File_Upload/Authenticate.js:54-67 | `Basic_Authentication`; stated by `BasicAuthenticationForm`, `FormOfAccepted` and `AcceptedOfForm` |
| Authentication.ExtractKeys | src/File_Upload/Authenticate.js:23-24 | the relay name and key after the first ":" of the two pieces; stated by `HeaderRoundTrip` |
| Authentication.FindSubjectKey | src/File_Upload/Authenticate.js:25 | `Get_Subject_Key` as a lookup; stated by `AdmittedHeader` |
| Authentication.AdmittedAsWritten | src/File_Upload/Authenticate.js:19-34 | admission as written, with no stop after a failed format check; stated by `MalformedHeaderAdmittedAsWritten` |
| Authentication.Admitted | src/File_Upload/Authenticate.js:19-34 | admission with the format check stopping the request; stated by `AdmittedHeader` and `AdmittedIsWellFormed` |
| Authentication.WithLiveCounts | src/File_Upload/Authenticate.js:36-40 | the ledger with live file counts; stated by `LiveCounts` and `LiveCountsIdempotent` |
| Authentication.FormOfAccepted | src/File_Upload/Authenticate.js:54-67 | an accepted header has the form "relayName…;subjectKey…" |
| Authentication.AcceptedOfForm | src/File_Upload/Authenticate.js:54-67 | a header of that form is accepted |
| Authentication.BasicAuthenticationForm | src/File_Upload/Authenticate.js:54-67 | a header is accepted iff it has that form |
| Authentication.TaggedPiece | src/File_Upload/Authenticate.js:23-24 | "tag:value" splits into the tag and the value |
| Authentication.HeaderPieces | src/File_Upload/Authenticate.js:23-24 | a header splits at ";" after the relay piece |
| Authentication.HeaderRoundTrip | src/File_Upload/Authenticate.js:19-24 | a header built from two keys passes the check, and the keys extracted from it are those keys |
| Authentication.AdmittedHeader | src/File_Upload/Authenticate.js:19-34 | a well-formed header is admitted iff the relay and key exist, and then with that key's record |
| Authentication.AdmittedIsWellFormed | src/File_Upload/Authenticate.js:19-21 | the corrected check admits only well-formed headers, and with the same result as the code as written |
| Authentication.MalformedHeaderAdmittedAsWritten | src/File_Upload/Authenticate.js:19-21 | a header with a third piece fails the check but is admitted as written; the corrected check refuses it |
| Authentication.LiveCounts | src/File_Upload/Authenticate.js:36-40 | every endpoint's `fileCount` becomes its number of files; nothing else changes |
| Authentication.LiveCountsIdempotent | src/File_Upload/Authenticate.js:36-40 | a ledger whose counts are exact is unchanged |
| Authentication.LoadFileCounts | src/File_Upload/Authenticate.js:36-40 | the loop sets every count to its number of files |
| Authentication.Authenticate | src/File_Upload/Authenticate.js:15-47 | proceeds iff the header is admitted; it then sets the keys and the record, clears the refusals and loads the ledger with exact counts; otherwise the request state is unchanged |
| UploadFiles.GainsIdsTransitive | src/File_Upload/Upload_Files.js:24-26 | successive transfers compose: the ledger only gains file ids |
| UploadFiles.GainsIdsKeepsQuota | src/File_Upload/Upload_Files.js:24-27 | storing files in Box keeps the ledger within quota and its counts exact |
| UploadFiles.GainsIdsKeepsRecords | src/File_Upload/Upload_Files.js:24-26 | recorded and stored files stay so as the ledger gains ids |
| UploadFiles.WithFileIdGains | src/File_Upload/Upload_Files.js:47-49 | recording a new file id only gains an id, and the file is then stored |
| UploadFiles.FileToBox | src/File_Upload/Upload_Files.js:43-59 | an entry with a file id gets a new version of that file and keeps its id; an entry without one is uploaded into the endpoint's folder and the new id is recorded; the ledger only gains ids |
| UploadFiles.FieldStep | src/File_Upload/Upload_Files.js:25 | one more file stored leaves every earlier file stored |
| UploadFiles.FieldToBox | src/File_Upload/Upload_Files.js:25 | on success every file of the field is stored; the ledger only gains ids |
| UploadFiles.FilesToBox | src/File_Upload/Upload_Files.js:24-26 | on success every kept file is stored; the ledger only gains ids |
| UploadFiles.UploadHandler | src/File_Upload/Upload_Files.js:19-37 | after the files are stored, the record's ledger is the request's; the response is internal iff the relay has no key table, and otherwise carries the refusals, with the record written back |
| UploadFiles.WrittenBackWithinQuota | src/File_Upload/Upload_Files.js:27-29 | writing back a ledger within quota keeps every stored ledger within quota |
| UploadFiles.WrittenBack | src/File_Upload/Upload_Files.js:27-29 | the write-back replaces only the record's own stored row, when it exists; no table or row is added or removed, and every other row is unchanged |
| UploadFiles.AdmittedRecord | src/File_Upload/Authenticate.js:25-34 | an admitted record is the stored row of its keys |
| UploadFiles.ParseAndFilter | src/File_Upload/Request_Filters.js:57-115 | the parser and the size filter leave every kept file recorded, and the ledger within quota |
| UploadFiles.FilterAndStore | src/File_Upload/Upload_Files.js:19-37 | an upload answered with the refusals has every kept file stored and the ledger written back within quota; any other outcome writes nothing |
| UploadFiles.PostUpload | src/File_Upload/Upload_Files.js:19-37 | the whole POST: stored ledgers stay within quota; only a successful upload writes, and it writes back the request's ledger with every kept file stored |

## Left out

- SQL: statements, string interpolation and quoting are not modelled. Tables are maps and rows are records. The JSON round trip of stored fields is the identity.
- `Get_By_Key` (src/SQL/SQL_Functions.js:204-214) is a map lookup.
- Key order: `Object.entries`/`Object.keys` iterate in insertion order. The loops over maps choose keys in any order, and every postcondition holds for all orders.
- Box pagination and network errors are not modelled. A Box call fails only as its contract says: a missing folder or file, or a name in use.
- Concurrency is not modelled:
  - `Promise.all` over a field's files is run one file at a time;
  - `app.locals` is shared by concurrent requests in the source, but the model has one request at a time;
  - a name sent twice in one request is uploaded concurrently in the source, but in sequence here.
- UploadFiles.FileToBox: `Upload_File` and `Update_File` throw on failure. The request then fails unanswered (`NoResponse`). So the branch that records "failed to upload to box" (src/File_Upload/Upload_Files.js:51-54) cannot be reached and is not modelled.
- The file contents (buffers, streams) are not modelled; a file is its field, name and size. Box file versions stand for the uploaded contents.
- The multipart parser is modelled by its limits only. These are the per-field `maxCount`, the `fileSize` limit and the filter callback:
  - a file over the size limit or beyond its field's count rejects the whole request;
  - the parser's -Infinity limit (no endpoints) rejects every file;
  - non-file fields and the empty-file edge of streaming are not modelled.
- `parseInt` is modelled with an optional leading sign, the longest run of decimal digits after it, and "no number". Leading whitespace and radix prefixes are not modelled. A size string that is not a number gives "no limit" (NaN comparisons are false).
- RequestFilters.SizeLimit uses the corrected gigabyte pattern `[Gg][Bb]` (see Findings), not the `[Gb][Bb]` of src/File_Upload/Request_Filters.js:123. As written, "1gb" is 1 byte and "1bb" is 1073741824 bytes (`GigabyteLowercaseAsWritten`, `DoubleBAsWritten`); the model reads them as 1073741824 and 1.
- RequestFilters.GlobalLimit takes the request-wide limit through the same corrected table. As written, an endpoint with "1gb" counts 1 byte toward `Math.max`, so the parser's limit can be far below what the relay asked for, and a file above it rejects the whole request.
- RequestFilters.VerifyUploadedFiles parses with that corrected limit, so it does not model the rejections the uncorrected gigabyte pattern causes.
- RequestFilters.FilterBySize compares each file with the corrected endpoint size. As written, a file over 1 byte under a "1gb" endpoint is refused with the size message.
- UploadFiles.ParseAndFilter, UploadFiles.FilterAndStore and UploadFiles.PostUpload go through the parser and the size filter above, so they state the upload with the corrected gigabyte pattern.
- RelayBase.AssignLinks gives the base folder the link `LinkFor` gives, the corrected behaviour (see Findings). As written, src/Relay/Relay_Base.js:95-99 always stores "unavailable" for the base folder (`BaseLinkAsWrittenWrong`).
- RelayBase.PrepareRelay and RelayBase.AddRelay build the relay row through `AssignLinks`, so their base-folder link is the corrected one too.
- RequestFilters.CountedKeepsQuota and RequestFilters.FilteredKeepsQuota state the update limit only for names updated at least once. A new name is recorded at count 0 (src/File_Upload/Request_Filters.js:22-25), and a negative `maxFileUpdates` is kept because it is truthy (src/Relay/Relay_Base.js:31), so the fresh entry can already be above the limit (`FreshNameAboveNegativeUpdateLimit`).
- Authentication.Authenticate models the corrected check (see Findings). As written, the code also sets `keys` before it fails on an unknown key. The model leaves the request state unchanged on every failure.
- Authentication.ExtractKeys: a missing piece (`undefined` in the source) makes the lookup fail, which is how the source's exception path ends.
- `fileInformation` and `subjectKeyData.uploadState` are the same object in the source. The model keeps two fields and assigns the one to the other where the handler does (src/File_Upload/Upload_Files.js:27).
- `relayForDb` aliasing in `Add_Relay` is not modelled; the row is built as a value.
- SubjectKeyBase.AddSubjectKey: when building a ledger fails partway, the folders already created stay in Box. The model keeps them too, but states only that Box grows.
- `Math.random` is a sequence of draws in [0,1) passed in. Seven draws make one candidate, and five candidates are supplied.
- A missing or non-numeric `boxFolderId` is treated as a failed Box call.
- `Delete_Subject_Key`, `Get_All_Subject_Keys`, `Get_Relay_Params`, `Delete_Relay`, `Make_Relay_Table` and the routers are not modelled. They are lookups and deletions outside the quota logic.
- The GitHub, Permissions and system-operation modules are not part of this model.

## Findings

| source | as written | input that shows it | evidently intended | confidence | as-written member | corrected member |
|---|---|---|---|---|---|---|
| src/File_Upload/Request_Filters.js:123 | the gigabyte pattern is `/[Gb][Bb]/`, so "gb" matches no unit | `To_Byte_Size("1gb")` gives 1 | `/[Gg][Bb]/`: 1073741824 bytes | high; not executed | ByteSize.GigabyteLowercaseAsWritten | ByteSize.GigabyteLowercase |
| src/Relay/Relay_Base.js:95 | `! relayForDb.baseFolder.boxFolderId === "0"` compares a boolean with a string, so it is always false | a base folder with id 7 gets the link "unavailable" | a link for every base folder other than the root | high; not executed | RelayBase.BaseLinkAsWrittenWrong | RelayBase.LinkFor |
| src/File_Upload/Authenticate.js:19-21 | no `return` after `Terminate_Connection`, so a malformed header goes on to the lookup | "relayName:r;subjectKey:k;x" for an existing key is admitted | stop after a failed format check | high; not executed | Authentication.MalformedHeaderAdmittedAsWritten | Authentication.AdmittedIsWellFormed |
