# akua-core, modelled and proved

A Dafny model of the parts of `akua-core` that carry a promise over every input or every run:
source passes over KCL text, the lockfile, the directory digest, DSSE envelopes, repository URLs and
credential lookup, the translation of KCL types to JSON Schema, the render stack, plugin paths, the git
checkout, the OCI cache, and publishing to and pulling from a registry.

Operations that change state in the program are methods here, on classes where the program has objects, and
each is proved against a specification function. What the program promises is then proved of those functions.
Protocols with several processes, crashes or interleavings are state machines whose runs are sequences of steps;
the theorems speak of `Run(steps)` for every sequence. Hashes, parsers, encoders and signature schemes are function
parameters, and each law assumed of them is named in the lemma that needs it (`Lawful`, `CollisionFree`, `KeyPair`).

| file | subject |
|---|---|
| `Text.dfy`, `Numbers.dfy`, `Lexer.dfy`, `LexerProperties.dfy` | strings, lines, saturating counters, and a reference lexer for KCL strings and comments |
| `Regions.dfy`, `Decorators.dfy`, `DecoratorForms.dfy`, `DecoratorText.dfy` | blanking `@ui(...)` decorators, line by line and against the whole text |
| `ModuleReference.dfy`, `ReferenceForms.dfy`, `Stub.dfy`, `StubProperties.dfy`, `StubForms.dfy` | the schema stub of a package |
| `Urls.dfy`, `UrlProperties.dfy`, `HostAuth.dfy` | canonical URLs, credential lookup |
| `Sorting.dfy`, `LockFile.dfy`, `LockSources.dfy`, `LockProperties.dfy`, `LockOrders.dfy`, `LockHistory.dfy` | the lockfile, merging, what validation accepts, what metadata vouches for |
| `DirHash.dfy`, `DirHashProperties.dfy`, `DirHashCollisions.dfy` | the directory digest, and which trees share its stream |
| `Dsse.dfy` | pre-authentication encoding, signing, verification |
| `JsonSchema.dfy`, `JsonSchemaProperties.dfy`, `JsonSchemaKinds.dfy`, `JsonSchemaOverlap.dfy`, `JsonSchemaMeaning.dfy`, `JsonSchemaFits.dfy` | KCL types to JSON Schema 2020-12 |
| `RenderStack.dfy`, `Paths.dfy`, `Links.dfy` | nested rendering, plugin path resolution by names and over a file system with links |
| `PackageKinds.dfy`, `OciCache.dfy`, `Registry.dfy` | package detection, the cache, the registry |
| `GitCheckout.dfy`, `GitTrees.dfy`, `GitCrashes.dfy` | checkout with a completion sentinel |

## Where the code and its documentation disagree

Each point is a lemma with the exact condition or a general counterexample.

- `canonicalize_url` is documented as idempotent; it is exactly when the body does not end in `.git` twice and no default
  port is left at the end of the host (`CanonicalIdempotentExactly`).
- `extract_schemas` reproduces its own output exactly when the stub keeps no import or two blank lines stand before the first
  schema header; three extractions always reach a fixed point (`ExtractIdempotentExactly`, `ThirdExtractionIsFinal`).
- `extract_schemas` says that imports of `charts.*` are dropped. They are with one space behind `import` (`ChartsNeverSurvive`); with two
  they are kept like any other (`WideChartsImportSurvives`).
- `hash_dir` says its NUL separator rules out a collision between files. Every tree with two or more files has a twin with other
  files and the same stream (`UncleanContentCollides`); the stream belongs to one tree alone exactly when that tree has at most one
  file and a search through its content finds no record in it (`StreamIsUniqueExactly`, `CanSplitExactly`). Among trees whose contents have no NUL
  behind a newline the stream does determine the files (`StreamDeterminesFiles`).
- `validate` checks neighbours only: `a@1, a@2, a@1` is accepted (`ValidateMissesDistantDuplicates`); on sorted locks it decides
  uniqueness (`ValidateDecidesSortedLocks`). Entries with a repeated key have an order it accepts exactly when no version makes up
  more than half of the entries of its name, rounded up (`AcceptedOrderExactly`).
- The git sentinel means a finished checkout, unless the tree itself has a file or directory named `.git-checkout-done` at its root
  with files written after it; then a crash leaves a partial tree that is served as complete (`CacheIsNeverPartialExactly`). A subtree
  of that name whose object cannot be read does the same without a crash: its directory is made before the object is looked up, so
  the failed checkout is served by the next fetch (`LostSentinelTreeFoolsTheCache`).
- The cycle check of `pkg.render` compares the path a dependency was resolved to with the canonical paths of the frames. Over all
  runs no package is on the stack twice exactly when no path that is not canonical lies on a dependency cycle
  (`GuardStopsReentryExactly`, `AliasedPathReenters`). Strict mode is not passed on to nested renders (`EveryRunInherits`), and the
  outermost entry is not guarded, so with `max_depth` zero the stack still holds one frame.
- `resolve_in_package` says a crafted link fails its check. A link whose target does not exist yet passes it, and a file written at the
  accepted path ends up where the link points (`DanglingLinkIsAccepted`, `WritesEscapeExactly`). An allowed root named through a link
  grants nothing, so with a cache behind a link every resolved chart is refused (`LinkedRootsGrantNothing`).
- `strip_akua_decorators` counts line by line. A region's decorator is code, and its lines count for themselves, exactly when no
  literal is open in front of it and none runs past one of its lines (`RegionsAgreeWithText`); a region whose own lines leave no
  literal open is the shortest run whose text balances (`RegionIsShortestBalancedText`). A decorator with a triple-quoted string
  across two lines is blanked together with what follows it (`MultilineStringBlanksOn`), and a line inside a string that looks like
  a decorator is blanked, which changes the value of the string (`LiteralLineIsBlanked`, `DocstringLineIsBlanked`).
- A union becomes `oneOf`, so `int | float` rejects every integer (`IntOrFloatRejectsIntegers`); a union loses values exactly when a
  value of one branch fits the schema of another (`UnionLosesExactlyWhatFitsTwice`). Records are emitted open (`RecordsAreOpen`).
- A KCL package marked by `package.k` alone is never found in the cache again, and one with a Helm chart one level down comes back
  as that chart (`BarePackageIsNeverCached`, `VendoredChartChangesKind`).

## Model

| member | source | states |
|---|---|---|
| Decorators.ParenBalance | crates/akua-core/src/package_k.rs:594-658 | the byte automaton over one line computes the parentheses at positions the reference lexer calls code |
| Decorators.BalanceIsTokenBalance | crates/akua-core/src/package_k.rs:590-658 | counting code positions and recursing over tokens (strings, triple-quoted strings, comments) give the same balance |
| LexerProperties.PlainIsCode | crates/akua-core/src/package_k.rs:594-658 | text without quotes and comment signs is code, and what follows it is lexed as if it stood alone |
| LexerProperties.CommentIsNoCode | crates/akua-core/src/pkg_stub.rs:124-128 | a comment is no code up to the end of its line |
| LexerProperties.StringIsNoCode | crates/akua-core/src/pkg_stub.rs:150-176 | a string is no code up to its closing quote, which an escaped one is not |
| LexerProperties.OpenStringIsNoCode | crates/akua-core/src/pkg_stub.rs:150-176 | a string that is never closed covers the rest of the text |
| LexerProperties.TripleIsNoCode | crates/akua-core/src/pkg_stub.rs:150-160 | in triple quotes nothing escapes: the string ends at the first three quotes in a row |
| DecoratorForms.LineWeight | crates/akua-core/src/package_k.rs:590-658 | a line of plain text and a comment weighs the opening minus the closing parens of the text |
| DecoratorForms.StringWeight | crates/akua-core/src/package_k.rs:590-658 | a string on the line weighs nothing, whatever parens and escaped quotes are in it |
| DecoratorForms.TripleWeight | crates/akua-core/src/package_k.rs:590-658 | nor does one in triple quotes |
| Regions.FromIsPartition | crates/akua-core/src/package_k.rs:561-587 | the blanked regions start at opening lines, are the shortest runs that balance or run to the end, and cover every opening line outside them |
| Regions.PartitionIsUnique | crates/akua-core/src/package_k.rs:561-587 | no other set of regions fits that description |
| Decorators.BlankDecorator | crates/akua-core/src/package_k.rs:570-585 | the inner loop writes one newline for each line of the shortest balanced run and stops behind it |
| Decorators.StripAkuaDecorators | crates/akua-core/src/package_k.rs:553-588 | the pass writes the source with exactly those regions blanked, and returns it unchanged when it has no decorator text |
| Decorators.StripPreservesLines | crates/akua-core/src/package_k.rs:553-588 | as many lines out as in, each the input line or empty, empty exactly inside a region, and no decorator line left |
| Decorators.LinesOfStripText | crates/akua-core/src/package_k.rs:553-588 | on text: line numbers are kept on both the fast and the slow path |
| Decorators.StripTextIdempotent | crates/akua-core/src/package_k.rs:553-588 | stripping twice is stripping once, byte for byte |
| DecoratorForms.NoDecoratorIsLeft | crates/akua-core/src/package_k.rs:553-588 | no line of the result is whitespace followed by `@ui(`, however far it is indented |
| DecoratorForms.RegionsStartAtDecorators | crates/akua-core/src/package_k.rs:561-569 | every region starts at a line of exactly that form, and every such line starts one or lies inside one that started before it |
| DecoratorForms.BalancedDecoratorStandsAlone | crates/akua-core/src/package_k.rs:575-585 | a region is one line if and only if the parens of that line balance or no line follows |
| DecoratorText.LineCountsForItselfExactly | crates/akua-core/src/package_k.rs:575-585 | a line's balance is what it adds to every text that goes on behind it if and only if no string literal runs past its end |
| DecoratorText.RegionsAgreeWithText | crates/akua-core/src/package_k.rs:561-587 | for every file and region: its decorator is code in the whole text if and only if no literal is open in front of it, there the lexer starts afresh, and a line of it counts for itself if and only if no literal runs past its end |
| DecoratorText.RegionIsShortestBalancedText | crates/akua-core/src/package_k.rs:575-585 | a region whose own lines leave no literal open is the shortest run of lines whose text balances, or runs to the end, whatever stands elsewhere in the file |
| DecoratorText.AfreshExactly | crates/akua-core/src/package_k.rs:590-658 | behind a text and a newline the lexer reads everything as if it stood alone if and only if the text leaves no literal open |
| DecoratorText.DecoratorIsCodeExactly | crates/akua-core/src/package_k.rs:561-569 | a line the pass takes for a decorator is code in the whole text if and only if no literal is open in front of it |
| DecoratorText.LiteralLineIsBlanked | crates/akua-core/src/package_k.rs:561-569 | every such line inside a literal is blanked |
| DecoratorText.DocstringLineIsBlanked | crates/akua-core/src/package_k.rs:561-569 | behind a line that opens a triple-quoted string, a line of it that looks like a decorator is lost |
| DecoratorText.MultilineStringBlanksOn | crates/akua-core/src/package_k.rs:575-585 | a decorator with a triple-quoted string across two lines blanks the line behind it as well |
| ModuleReference.SkipStringLiteral | crates/akua-core/src/pkg_stub.rs:150-176 | advances past exactly one string token of the reference lexer, always forward and within bounds |
| ModuleReference.ContainsModuleReference | crates/akua-core/src/pkg_stub.rs:122-144 | true if and only if the identifier followed by a dot occurs at a code position not preceded by an identifier character |
| ReferenceForms.PlainTextRefersExactly | crates/akua-core/src/pkg_stub.rs:122-148 | in text without strings and comments: true if and only if the identifier stands there followed by a dot, with no letter, digit or underscore in front |
| ReferenceForms.CommentsDoNotRefer | crates/akua-core/src/pkg_stub.rs:125-128 | what a comment mentions is no reference |
| ReferenceForms.StringsDoNotRefer | crates/akua-core/src/pkg_stub.rs:129-132 | nor is anything in a string, closed or not |
| ModuleReference.ReferencesAfterNewline | crates/akua-core/src/pkg_stub.rs:122-144 | a blank line in front neither adds nor removes a reference |
| Stub.ScanLines | crates/akua-core/src/pkg_stub.rs:36-91 | the loop over stripped lines collects the imports and schema text of the line-by-line specification |
| Stub.WriteImports | crates/akua-core/src/pkg_stub.rs:93-99 | writes exactly the referred imports, in order |
| Stub.ExtractSchemas | crates/akua-core/src/pkg_stub.rs:36-108 | the whole extraction computes the specified stub |
| StubProperties.ExtractIsNormal | crates/akua-core/src/pkg_stub.rs:36-108 | every stub is referred imports, then at most a few blank lines, then the schema text from its first header on |
| StubProperties.SecondExtraction | crates/akua-core/src/pkg_stub.rs:36-108 | extracting again keeps the same imports in the same order and every schema line verbatim; only blank lines in front may change |
| StubProperties.ExtractIdempotentExactly | crates/akua-core/src/pkg_stub.rs:36-108 | the exact condition under which a second extraction changes no byte |
| StubProperties.ThirdExtractionIsFinal | crates/akua-core/src/pkg_stub.rs:36-108 | three extractions reach a fixed point for every source |
| StubProperties.StubKeepsSchemaBlocks | crates/akua-core/src/pkg_stub.rs:43-90 | the schema text is, blank lines apart, exactly the lines of schema and protocol blocks, in order |
| StubProperties.ImportSurvivesIffReferred | crates/akua-core/src/pkg_stub.rs:66-99 | a named import that is not `charts.*` is a line of the stub if and only if its bound name is referred to in the schema text; `StubForms` says which name that is |
| StubForms.AliasedImportSurvivesExactly | crates/akua-core/src/pkg_stub.rs:110-120 | a line `import path as alias`, with spaces and a comment behind it, survives if and only if the schema text refers to the alias |
| StubForms.PlainImportSurvivesExactly | crates/akua-core/src/pkg_stub.rs:110-120 | a line `import path` survives if and only if the schema text refers to the last segment of the path, or to the path where that is one segment |
| StubForms.ChartsNeverSurvive | crates/akua-core/src/pkg_stub.rs:66-76 | no line that starts with `import charts.` is ever in a stub |
| StubForms.WideChartsImportSurvives | crates/akua-core/src/pkg_stub.rs:66-79 | an import of charts with two spaces behind `import` is not recognised and survives like any other |
| StubForms.BlockLinesSurviveExactly | crates/akua-core/src/pkg_stub.rs:43-90 | any other line with something on it survives if and only if a line in front opens a `schema` or `protocol` block and all since are blank, indented or comments |
| Urls.CanonicalizeUrl | crates/akua-core/src/host_auth.rs:170-193 | the in-place trimming computes the specified canonical form |
| Urls.TidyBehindScheme | crates/akua-core/src/host_auth.rs:182-192 | trimming slashes and one `.git` from the assembled URL is trimming them from the part behind the scheme, unless nothing is left there |
| UrlProperties.CanonicalNeverLengthens | crates/akua-core/src/host_auth.rs:160-193 | never longer, and unchanged when of equal length, so iterating always settles |
| UrlProperties.IteratingSettles | crates/akua-core/src/host_auth.rs:160-193 | repeating the function reaches a fixed point within as many calls as the URL has characters |
| UrlProperties.CanonicalIdempotentExactly | crates/akua-core/src/host_auth.rs:160-193 | the exact condition under which a second call changes nothing |
| UrlProperties.DoubleGitNeedsTwoCalls | crates/akua-core/src/host_auth.rs:160-193 | every URL whose path ends in `.git.git` needs a second call |
| UrlProperties.CanonicalHasUserinfoExactly | crates/akua-core/src/host_auth.rs:126-193 | the canonical form has userinfo only for strings without a scheme separator and for URLs with nothing behind it |
| UrlProperties.OneStringPerRepository | crates/akua-core/src/host_auth.rs:160-193 | userinfo, default port, `.git` and any number of trailing slashes all collapse to one string |
| UrlProperties.OtherPortsAreKept | crates/akua-core/src/host_auth.rs:182-200 | a port that is not the scheme's own is kept, while userinfo, `.git` and slashes go |
| HostAuth.PrefixMatchesIsSegmentPrefix | crates/akua-core/src/host_auth.rs:97-112 | the byte test decides prefixes that end at a segment boundary |
| HostAuth.Lookup | crates/akua-core/src/host_auth.rs:75-95 | returns the credential of the longest key that is a segment prefix of the match key, and none if and only if no key is |
| HostAuth.AnswerIsUnique | crates/akua-core/src/host_auth.rs:75-95 | that description has one answer, whatever order the map or the sort produced |
| HostAuth.EqualLengthPrefixes | crates/akua-core/src/host_auth.rs:84-94 | two matching keys of one length are the same key |
| HostAuth.UserinfoDoesNotMatter | crates/akua-core/src/host_auth.rs:114-124 | userinfo in the URL, behind a scheme or without one, does not change its match key |
| HostAuth.MatchKeyIsHostAndPath | crates/akua-core/src/host_auth.rs:114-124 | the match key is the host with its port and the path, without scheme and trailing slashes |
| HostAuth.NothingLeftNoKey | crates/akua-core/src/host_auth.rs:114-121 | with nothing behind scheme and userinfo there is no match key |
| HostAuth.NoMatchInsideLabel | crates/akua-core/src/host_auth.rs:97-112 | a key never matches in the middle of a host label or path segment |
| LockFile.AkuaLock.FindSlot | crates/akua-core/src/lock_file.rs:310-314 | the first slot with the name and version, or none if no entry has them |
| LockFile.AkuaLock.UpsertAt | crates/akua-core/src/lock_file.rs:319-324 | replaces the slot or appends, and changes nothing else |
| LockFile.AkuaLock.Sort | crates/akua-core/src/lock_file.rs:265-270 | the entries sorted by (name, version), a permutation of what was there |
| Sorting.SortIsStable | crates/akua-core/src/lock_file.rs:268-269 | sorting moves no entry across one it ties with |
| Sorting.BeforeExactly | crates/akua-core/src/lock_file.rs:268-269 | strings are compared by their first differing character, a prefix coming first |
| LockFile.AkuaLock.Validate | crates/akua-core/src/lock_file.rs:231-263 | reports the error of the first check that fails: version, then neighbours, then digests |
| LockFile.UpsertLockedFromSource | crates/akua-core/src/chart_resolver.rs:1069-1099 | the entry built from the source and the prior entry lands in its slot |
| LockFile.MergeIntoLock | crates/akua-core/src/chart_resolver.rs:1055-1060 | every resolved chart is upserted and the result sorted |
| LockSources.EntryNamesItsSource | crates/akua-core/src/chart_resolver.rs:169-222 | for each kind of source which name, version, source, digest and replacement the entry carries |
| LockSources.GitEntryIsCanonical | crates/akua-core/src/chart_resolver.rs:187-196 | every way to write a git repository gives the entry `git+scheme://host/path@` and what was asked for |
| LockSources.GitEntryHasNoUserinfo | crates/akua-core/src/chart_resolver.rs:187-196 | no credentials are written for a git URL with something behind its scheme |
| LockProperties.MergeOverrides | crates/akua-core/src/chart_resolver.rs:1055-1099 | on unique keys the merged lock, as a map, is the old map overridden by the resolved charts; it is sorted and keys stay unique |
| LockProperties.SortedLockIsItsMap | crates/akua-core/src/lock_file.rs:265-270 | two sorted locks with the same map are the same file |
| LockProperties.MergeOrderDoesNotMatter | crates/akua-core/src/chart_resolver.rs:1055-1060 | charts merged in any order give the same lock |
| LockProperties.MergedIsOrdered | crates/akua-core/src/lock_file.rs:265-270 | a merged lock is in the order of names, and within a name of versions |
| LockProperties.MergeIdempotent | crates/akua-core/src/chart_resolver.rs:1055-1060 | merging the same resolution again changes nothing |
| LockProperties.ChartLands | crates/akua-core/src/chart_resolver.rs:1069-1099 | each resolved chart's entry is found in the merged lock |
| LockProperties.ValidateDecidesSortedLocks | crates/akua-core/src/lock_file.rs:231-263 | on sorted locks `validate` accepts if and only if version, key uniqueness and digest schemes are right |
| LockProperties.VerdictIs | crates/akua-core/src/lock_file.rs:231-263 | what `validate` reports: another version, else the first neighbours out of order or of one key by their names, else the first entry whose digest is neither `sha256:` nor `git:` |
| LockProperties.ValidateMissesDistantDuplicates | crates/akua-core/src/lock_file.rs:238-252 | out of order it accepts one key twice |
| LockOrders.AcceptedOrderExactly | crates/akua-core/src/lock_file.rs:231-263 | a collection of entries has an order `validate` accepts if and only if version and digests are right and no version makes up more than half of the entries of its name, rounded up; a key repeats in that order if and only if it does in the collection |
| LockProperties.MergedLockIsAccepted | crates/akua-core/src/chart_resolver.rs:1055-1060 | a merged lock is accepted exactly when the version is current and resolved and untouched digests are well formed |
| LockHistory.FieldsOfEntry | crates/akua-core/src/chart_resolver.rs:1069-1099 | an upsert carries metadata over if and only if the digest is unchanged |
| LockHistory.MergeKeepsFields | crates/akua-core/src/chart_resolver.rs:1055-1099 | after any history a merge keeps every field of every entry it leaves alone or finds at the digest it had |
| LockHistory.EveryHistoryIsHonest | crates/akua-core/src/chart_resolver.rs:1055-1099 | over every history of merges, upserts, recordings and removals each field stands beside the digest it was recorded against |
| LockHistory.NothingSurvivesADigestChange | crates/akua-core/src/chart_resolver.rs:1069-1099 | behind every field of every entry is an event that recorded it for that package at its present digest, and the package has not been removed since |
| LockHistory.RecordHonest | crates/akua-core/src/vendor.rs:350-376 | recording a field, as vendoring does for its tree digest, keeps that invariant |
| LockHistory.RemoveHonest | crates/akuapkg-cli/src/verbs/remove.rs:116-124 | removing a package from the lock drops its entries and what was recorded for them, and keeps that invariant |
| DirHash.CollectFiles | crates/akua-core/src/chart_resolver.rs:1370-1391 | the recursive walk appends the regular files with their relative paths, and no symlinks |
| DirHash.Feed | crates/akua-core/src/chart_resolver.rs:1344-1363 | the hasher absorbs path, NUL, content and newline of each file, and the size is the saturated sum of contents |
| DirHash.HashDir | crates/akua-core/src/chart_resolver.rs:1339-1368 | the digest is the hash of that stream over the sorted listing |
| DirHashProperties.CollectFinds | crates/akua-core/src/chart_resolver.rs:1370-1391 | a file is collected, once, if and only if the tree has it at that path |
| DirHashProperties.SameFilesSameStream | crates/akua-core/src/chart_resolver.rs:1339-1368 | trees with the same files hash the same stream |
| DirHashProperties.ReaddirOrderDoesNotMatter | crates/akua-core/src/chart_resolver.rs:1325-1341 | reordering directories at any depth changes nothing |
| DirHashProperties.ListingIsOrdered | crates/akua-core/src/chart_resolver.rs:1342 | files are hashed in the order of their paths |
| Sorting.PathBeforeExactly | crates/akua-core/src/chart_resolver.rs:1342 | which compare by their first differing component, a path before those below it |
| DirHashProperties.SizeIsStreamLength | crates/akua-core/src/chart_resolver.rs:1344-1363 | the size is what is left of the stream's length without paths and separators |
| DirHashProperties.DecodeExactly | crates/akua-core/src/chart_resolver.rs:1325-1331 | the stream decodes to its files if and only if no content has a NUL behind a newline |
| DirHashProperties.NulFreeIsClean | crates/akua-core/src/chart_resolver.rs:1325-1331 | contents without NUL meet that condition |
| DirHashCollisions.UncleanContentCollides | crates/akua-core/src/chart_resolver.rs:1325-1368 | every tree with two files or more has a twin, given explicitly, with other files and the same stream |
| DirHashCollisions.SplitFilePassesForTwo | crates/akua-core/src/chart_resolver.rs:1325-1368 | a single file whose content splits at a record has the stream of a tree of two files |
| DirHashCollisions.CanSplitExactly | crates/akua-core/src/chart_resolver.rs:1344-1355 | a newline and a later NUL with the path of a file that can stand behind this one between them decide whether the content is that of two files |
| DirHashCollisions.StreamIsUniqueExactly | crates/akua-core/src/chart_resolver.rs:1325-1368 | no tree with other files has the stream of this one if and only if it has at most one file and a search through that file's content finds no place to split it |
| DirHashProperties.StreamDeterminesFiles | crates/akua-core/src/chart_resolver.rs:1325-1368 | for decodable trees with ordinary names the streams are equal if and only if the files are |
| Dsse.DssePae | crates/akua-core/src/cosign.rs:282-293 | the buffer holds the pre-authentication encoding of DSSE v1 |
| Dsse.PaeRoundTrip | crates/akua-core/src/cosign.rs:282-293 | a decoder that reads the decimal lengths gives type and payload back |
| Dsse.PaeInjective | crates/akua-core/src/cosign.rs:282-293 | what is signed for one type and payload is signed for no other |
| Dsse.DecimalIsShortest | crates/akua-core/src/cosign.rs:282-293 | lengths are decimal digits without leading zeros, and no other such digits have that value |
| Dsse.SignDsse | crates/akua-core/src/cosign.rs:218-237 | the envelope holds the encoded payload and one signature over the encoding |
| Dsse.SignedHasOneSignature | crates/akua-core/src/cosign.rs:218-237 | what is signed reads back as an envelope of that type and payload with one signature, made of the encoding of both |
| Dsse.VerifyDsse | crates/akua-core/src/cosign.rs:243-278 | returns the payload if and only if some entry decodes, parses and verifies over the encoding; otherwise the first error in order |
| Dsse.VerifiesExactly | crates/akua-core/src/cosign.rs:243-278 | a payload is returned if and only if it is the envelope's, the key can be read, and some signature decodes, parses and covers the encoding of type and payload |
| Dsse.VerifyFailsWith | crates/akua-core/src/cosign.rs:247-277 | the error says what failed first: the envelope, its payload, the key, the signatures |
| Dsse.VerifyOfSign | crates/akua-core/src/cosign.rs:218-278 | verifying what was signed returns the payload |
| Dsse.OnlyVerifyingEntriesCount | crates/akua-core/src/cosign.rs:261-277 | added, reordered or malformed entries that do not verify never change the answer |
| Dsse.NoCrossTypeReuse | crates/akua-core/src/cosign.rs:243-293 | under an unforgeable scheme whatever verifies was signed as that very type and payload |
| JsonSchema.KclTypeToJsonSchema | crates/akua-core/src/export.rs:392-525 | the recursion that fills a map in place computes the specified schema, default last |
| JsonSchema.ApplyMetadata | crates/akua-core/src/export.rs:410-430 | descriptions fill in only where the property has none, `x-ui` always, other properties untouched |
| JsonSchema.PropertiesToJson | crates/akua-core/src/export.rs:402-409 | every property is translated under its own name |
| JsonSchema.VariantsToJson | crates/akua-core/src/export.rs:470-479 | the branches of a union, in order |
| JsonSchemaProperties.AnnotationsDoNotMatter | crates/akua-core/src/export.rs:400-431 | `description`, `x-ui`, `default` and `x-akua-kcl-type` change nothing a schema accepts |
| JsonSchemaProperties.SchemaAcceptsExactly | crates/akua-core/src/export.rs:392-525 | the values the emitted schema accepts, said in terms of the type alone: records open, exactly one branch of a union |
| JsonSchemaKinds.ScalarKinds | crates/akua-core/src/export.rs:440-451 | `str` is exported as a schema that accepts exactly texts, `int` integers, the three number names numbers, `bool` truth values, `any` everything |
| JsonSchemaKinds.ContainerKinds | crates/akua-core/src/export.rs:452-469 | `list` and `dict` accept exactly arrays and objects whose parts the schema of the item type accepts |
| JsonSchemaKinds.RecordKind | crates/akua-core/src/export.rs:396-439 | `schema` accepts exactly objects with the required members, each declared one accepted by its own type's schema |
| JsonSchemaKinds.UnionKind | crates/akua-core/src/export.rs:470-481 | `union` accepts exactly what the schema of one branch and no other accepts |
| JsonSchemaKinds.TextLiteralKind | crates/akua-core/src/export.rs:508-511 | `str(..)` accepts exactly its literal |
| JsonSchemaKinds.IntegerLiteralKind | crates/akua-core/src/export.rs:489-494 | `int(..)` accepts exactly its literal, any integer if that cannot be parsed |
| JsonSchemaKinds.NumberLiteralKind | crates/akua-core/src/export.rs:495-500 | `float(..)` and `number(..)` accept exactly their literal, any number if that cannot be parsed, nothing if it is not finite |
| JsonSchemaKinds.BoolLiteralKind | crates/akua-core/src/export.rs:501-504 | `bool(..)` accepts true alone if its literal is `true` in any case, else false alone |
| JsonSchemaKinds.ForeignKind | crates/akua-core/src/export.rs:512-519 | any other type accepts everything and keeps its name |
| JsonSchemaKinds.DefaultIs | crates/akua-core/src/export.rs:380-386 | a default is emitted if and only if the type has one: KCL's truth values, else the JSON it reads as, else its text |
| JsonSchemaKinds.RecordDescription | crates/akua-core/src/export.rs:396-401 | a record is described by the documentation of its schema, else of the attribute's |
| JsonSchemaKinds.PropertyIs | crates/akua-core/src/export.rs:402-431 | a property is what its type is exported as, with the attribute's `x-ui`, and its description where the type has none |
| JsonSchemaOverlap.OverlapsExactly | crates/akua-core/src/export.rs:392-525 | a decision on two types (scalars and literals, lists, dictionaries, records by their required names, unions) tells whether their schemas accept a common value |
| JsonSchemaMeaning.SeparateIsExclusive | crates/akua-core/src/export.rs:470-479 | looking at the types decides whether the branches of every union below are exclusive as schemas |
| JsonSchemaMeaning.TranslationPreserves | crates/akua-core/src/export.rs:387-525 | every value of the type validates when no two branches of a union below it overlap |
| JsonSchemaMeaning.PlainTypesAreExact | crates/akua-core/src/export.rs:387-525 | without records, unknown types and unreadable literals, and with separate unions, type and schema have the same values |
| JsonSchemaMeaning.UnionCompleteExactlyWhenApart | crates/akua-core/src/export.rs:470-479 | `oneOf` over such branches loses no value if and only if no two of them overlap |
| JsonSchemaFits.UnionLosesExactlyWhatFitsTwice | crates/akua-core/src/export.rs:396-479 | with records among the branches it loses no value if and only if no value of one branch fits the schema of another, decided on the types |
| JsonSchemaMeaning.IntOrFloatRejectsIntegers | crates/akua-core/src/export.rs:443-479 | the schema of `int \| float` rejects every integer |
| JsonSchemaMeaning.EnumerationsAreExclusive | crates/akua-core/src/export.rs:470-525 | unions of different string literals have no overlap |
| JsonSchemaMeaning.RecordsAreOpen | crates/akua-core/src/export.rs:396-439 | a member the record does not declare never makes a value rejected, though the type has no such value |
| JsonSchemaMeaning.MetadataDoesNotMatter | crates/akua-core/src/export.rs:392-525 | metadata, attribute names and defaults at any depth never change which values validate |
| RenderStack.RenderStack.EnterFull | crates/akua-core/src/kcl_plugin.rs:389-408 | pushes one frame and leaves those below alone |
| RenderStack.RenderStack.EnterWith | crates/akua-core/src/kcl_plugin.rs:297-306 | inherits budget and resolver from the top frame, or the defaults |
| RenderStack.RenderStack.EnterForRender | crates/akua-core/src/kcl_plugin.rs:314-340 | the same, with roots and aliases from the resolved charts |
| RenderStack.RenderStack.EnterWithBudget | crates/akua-core/src/kcl_plugin.rs:346-355 | an explicit budget with the inherited resolver |
| RenderStack.RenderStack.EnterForRenderWithBudget | crates/akua-core/src/kcl_plugin.rs:361-387 | an explicit budget and resolver |
| RenderStack.RenderStack.Drop | crates/akua-core/src/kcl_plugin.rs:411-417 | pops one frame, if there is one |
| RenderStack.RenderStack.PreCheck | crates/akua-core/src/kcl_plugin.rs:483-492 | cycle if and only if the target is on the stack, the depth, and the inherited budget |
| RenderStack.PkgRender | crates/akua-core/src/pkg_render.rs:47-126 | terminates and hands the stack back as it was whatever the inner package does, as a run of the state machine; ends as the first check that fails says, and else as the calls of the package do |
| RenderStack.Evaluate | crates/akua-core/src/package_k.rs:159-200 | the nested calls of a package run one after another up to the first that fails, which decides how it ends, and leave the stack as it was |
| RenderStack.RenderInWorker | crates/akuapkg-cli/src/verbs/render.rs:594-610 | the outermost entry evaluates the package on a stack of its frame alone, and leaves the stack empty |
| RenderStack.RendersExactly | crates/akua-core/src/pkg_render.rs:62-126 | a call renders if and only if its alias is on the top frame, its target not on the stack, the depth below the cap, the clock before the deadline, the child resolves, and the same holds of every call its program makes |
| RenderStack.OneOutcome | crates/akua-core/src/pkg_render.rs:62-126 | what the clock shows determines how a call ends, with which error included |
| RenderStack.CallEntersExactly | crates/akua-core/src/pkg_render.rs:62-126 | a step of the state machine goes in if and only if those checks pass, with the child's own charts and the caller's budget and posture |
| RenderStack.GraphsWithinDepthRender | crates/akua-core/src/pkg_render.rs:62-126 | without a deadline, packages that call only what they declare, without cycles and no deeper than the cap, always render |
| RenderStack.RootsAndAliases | crates/akua-core/src/kcl_plugin.rs:314-340 | the allowed roots are the directories of all dependencies, the aliases those that hold a package |
| RenderStack.TopDecides | crates/akua-core/src/kcl_plugin.rs:494-500 | budget and posture come from the frame on top, or are the defaults on an empty stack |
| RenderStack.EveryRunInherits | crates/akua-core/src/kcl_plugin.rs:170-195 | in every reachable state each frame has the root's budget and posture, its charts were resolved under that posture, depth is within the root's cap, and only the root is strict |
| RenderStack.ReturnUndoesCall | crates/akua-core/src/kcl_plugin.rs:389-417 | leaving a scope restores the exact stack before it was entered |
| RenderStack.GuardStopsReentryExactly | crates/akua-core/src/pkg_render.rs:84-113 | over all runs from all roots under every budget, no package is on the stack twice if and only if no path that is not canonical lies on a dependency cycle |
| RenderStack.StacksStayDistinct | crates/akua-core/src/kcl_plugin.rs:458-492 | the sufficient half, for packages whose dependencies differ by the path they are reached through as well |
| RenderStack.CanonicalPathsSuffice | crates/akua-core/src/chart_resolver.rs:1213-1320 | graphs resolved to canonical paths throughout, as path dependencies are, meet the condition |
| RenderStack.AcyclicGraphsSuffice | crates/akua-core/src/pkg_render.rs:84-90 | so do graphs without cycles, whatever their paths |
| RenderStack.PackagesStayDistinct | crates/akua-core/src/kcl_plugin.rs:458-492 | over a finite graph that meets it the depth is at most the number of packages |
| RenderStack.AliasedPathReenters | crates/akua-core/src/pkg_render.rs:84-90 | a package depending on itself through another path is on the stack twice |
| Paths.CanonicalizeBestEffort | crates/akua-core/src/kcl_plugin.rs:637-662 | terminates and finds the longest existing prefix, with the ordinary names behind it |
| Paths.BestEffortIsCanonicalAncestor | crates/akua-core/src/kcl_plugin.rs:633-662 | the result is the longest existing prefix in canonical form followed by the ordinary names behind it, each once and in their order |
| Paths.BestEffortFailsExactly | crates/akua-core/src/kcl_plugin.rs:637-662 | it fails if and only if no prefix exists |
| Paths.MissingNamesAreKept | crates/akua-core/src/kcl_plugin.rs:643-656 | names behind a path that exists are all kept as they stand |
| Paths.NewFilesKeepTheirNames | crates/akua-core/src/kcl_plugin.rs:604-631 | a relative path to files that do not exist yet resolves to its existing part and all further names, accepted if and only if that lies in the package's directory |
| Paths.RelativeIsJoined | crates/akua-core/src/kcl_plugin.rs:609 | a relative path is taken from the package's directory, without a leading dot |
| Paths.ResolveInPackage | crates/akua-core/src/kcl_plugin.rs:582-631 | the outcome, error by error and in the order they are checked |
| Paths.RefusedBecause | crates/akua-core/src/kcl_plugin.rs:582-631 | each reason to refuse a path, and that the first of them is reported |
| Paths.AcceptedRelativeIsInsideByName | crates/akua-core/src/kcl_plugin.rs:572-631 | an accepted relative path has no `..` and its names never leave the package's canonical directory |
| Paths.PrefixMeansContainment | crates/akua-core/src/kcl_plugin.rs:623-629 | on canonical paths the prefix test decides containment, both ways |
| Paths.PrefixAloneIsNotContainment | crates/akua-core/src/kcl_plugin.rs:623-629 | on a path with `..` the same test would accept an escape |
| Paths.AbsoluteIsUnderARootByName | crates/akua-core/src/kcl_plugin.rs:587-598 | an absolute path is accepted if and only if the names it resolves to lie below those of an allowed root |
| Links.CanonicalizeIsLawful | crates/akua-core/src/kcl_plugin.rs:637-662 | over nodes that are files, directories and links, following a path gives canonical results that stay put |
| Links.BestEffortEnds | crates/akua-core/src/kcl_plugin.rs:641-662 | the walk's result goes through what exists up to a component that is missing, a link, or behind a file |
| Links.WritesEscapeExactly | crates/akua-core/src/kcl_plugin.rs:614-630 | a file written at an accepted result ends up outside the directory if and only if the component behind the existing part is a link that leads out: to a place opened for writing when it is the last, through an existing directory when names follow |
| Links.TargetDecides | crates/akua-core/src/kcl_plugin.rs:614-630 | a link to something that does not exist leads out only as the last component, and then where opening its target does |
| Links.AcceptedRelativeIsContained | crates/akua-core/src/kcl_plugin.rs:572-631 | for an accepted relative path the existing part lies in the package's directory, and writing there leaves it exactly in that case |
| Links.DanglingLinkIsAccepted | crates/akua-core/src/kcl_plugin.rs:614-630 | a link in the package whose target does not exist is accepted, and writing through it ends up where opening the target does |
| Links.EscapingLinkIsRefused | crates/akua-core/src/kcl_plugin.rs:611-630 | an existing target is accepted if and only if it lies inside, links or not |
| Links.AbsoluteNeedsAnAllowedRoot | crates/akua-core/src/kcl_plugin.rs:587-598 | with existing roots an absolute path is accepted if and only if it resolves below a root that is its own canonical form |
| Links.LinkedRootsGrantNothing | crates/akua-core/src/kcl_plugin.rs:587-598 | when every root is named through a link, every absolute path is refused |
| PackageKinds.FindPackageRoot | crates/akua-core/src/oci_fetcher.rs:549-574 | the slot if it is marked, else the first marked entry, else the right error |
| PackageKinds.DetectedHasRoot | crates/akua-core/src/oci_fetcher.rs:299-322 | a tree of detected kind always has a root of that kind |
| PackageKinds.FastPathNeverFails | crates/akua-core/src/oci_fetcher.rs:407-420 | the pinned fast path and the offline lookup agree and never return an error |
| PackageKinds.DetectionIgnoresOrder | crates/akua-core/src/oci_fetcher.rs:299-322 | the detected kind does not depend on the order of listing |
| PackageKinds.RootIgnoresOrderExactly | crates/akua-core/src/oci_fetcher.rs:549-574 | the root does not depend on it if and only if there is one candidate |
| PackageKinds.CacheReturnsFetchedExactly | crates/akua-core/src/oci_fetcher.rs:333-342 | a fetched chart is returned identically from the cache if and only if its `Chart.yaml` is not only behind a link, a KCL package if and only if there is no `Chart.yaml` and there is `kcl.mod` or `akua.toml` beside `package.k` |
| PackageKinds.LinkedChartIsLost | crates/akua-core/src/oci_fetcher.rs:313-342 | a chart that landed is lost to the cache if and only if its root is a linked directory |
| PackageKinds.BarePackageIsNeverCached | crates/akua-core/src/oci_fetcher.rs:299-342 | a tree marked by `package.k` alone always misses |
| PackageKinds.VendoredChartChangesKind | crates/akua-core/src/oci_fetcher.rs:299-342 | a package with a chart one level down comes back as the chart |
| OciCache.CappedReader.Read | crates/akua-core/src/oci_fetcher.rs:764-776 | hands over the next bytes or fails, by the saturating count of bytes read |
| OciCache.CapTripsExactly | crates/akua-core/src/oci_fetcher.rs:741-776 | however the stream is cut, the cap trips if and only if the whole is longer than it |
| OciCache.Cache.ExtractBlobCapped | crates/akua-core/src/oci_fetcher.rs:811-882 | one extraction beside others: slots stay complete and permanent, success means the slot is complete, failure leaves it alone |
| OciCache.Cache.ExtractBlob | crates/akua-core/src/oci_fetcher.rs:804-806 | the same under the 2 GiB ceiling |
| OciCache.UnpackedHasPaths | crates/akua-core/src/oci_fetcher.rs:837-848 | an unpacked tree has exactly the paths of the archive's members |
| OciCache.UnpackedHoldsLast | crates/akua-core/src/oci_fetcher.rs:837-848 | each with what the last member under it holds |
| OciCache.ReadIsSum | crates/akua-core/src/oci_fetcher.rs:764-776 | unpacking counts the sum of what its members take, up to the largest 64-bit number |
| OciCache.EverySlotIsWhole | crates/akua-core/src/oci_fetcher.rs:798-882 | in every interleaving each slot is a complete unpacking of a blob with its digest |
| OciCache.SlotsArePermanent | crates/akua-core/src/oci_fetcher.rs:825-828 | a filled slot never changes again |
| OciCache.SuccessYieldsOwnTree | crates/akua-core/src/oci_fetcher.rs:862-875 | winner or loser of the race, a process that succeeds has its own blob's tree in the slot |
| OciCache.OnlyCappedBlobsLand | crates/akua-core/src/oci_fetcher.rs:837-848 | a blob that unpacks beyond the cap never gets a slot |
| OciCache.UndisturbedExtraction | crates/akua-core/src/oci_fetcher.rs:811-882 | after any run of the others a process that nothing disturbs ends as the method does, with the same slots |
| Registry.Repository.Push | crates/akua-core/src/oci_pusher.rs:71-134 | layer and config are stored under their digests, then the tag names the manifest |
| Registry.ManifestDescribesBlobs | crates/akua-core/src/oci_pusher.rs:158-194 | the manifest describes both blobs by type, digest and size, and every digest is the hash of the bytes it goes with |
| Registry.Repository.Pull | crates/akua-core/src/oci_puller.rs:69-126 | the outcome of fetching the manifest, choosing the layer, fetching and hashing it again |
| Registry.PullSucceedsExactly | crates/akua-core/src/oci_puller.rs:76-126 | a pull returns a blob if and only if the tag names a manifest whose first layer of the package type is that blob, hashing to its declared digest |
| Registry.PullFailsWith | crates/akua-core/src/oci_puller.rs:76-119 | the error says what was missing or wrong first |
| Registry.ManifestNamesLayer | crates/akua-core/src/oci_pusher.rs:158-194 | what the puller reads of a pushed manifest is the digest of the pushed layer |
| Registry.VisibleTagsArePullable | crates/akua-core/src/oci_pusher.rs:77-134 | in every interleaving of pushes each visible tag names a stored layer that hashes to its declared digest |
| Registry.PullsOnlyMissTags | crates/akua-core/src/oci_puller.rs:91-126 | a pull never reports a bad manifest, a missing blob or a digest mismatch |
| Registry.PullReadsLastPut | crates/akua-core/src/oci_puller.rs:76-90 | every pull past its manifest read it at some step, from the pusher whose PUT was then the last under the tag |
| Registry.PullReturnsWhatWasPushed | crates/akua-core/src/oci_puller.rs:91-126 | with a collision-free hash a finished pull returns that pusher's exact bytes and the manifest digest computed offline |
| Registry.PullAfterPush | crates/akua-core/src/oci_pusher.rs:85-94 | a pull right after a push gives layer and digests back |
| Registry.UndisturbedPush | crates/akua-core/src/oci_pusher.rs:77-134 | the interleaved push, undisturbed, does what the method does |
| Registry.UndisturbedPushPublishes | crates/akua-core/src/oci_pusher.rs:77-134 | after any run of the others a push that nothing disturbs is published |
| Registry.PushThenPull | crates/akua-core/src/oci_puller.rs:76-126 | and a pull that nothing disturbs gives back its layer and digests |
| GitCheckout.Directory.WriteTree | crates/akua-core/src/git_fetcher.rs:551-596 | performs the tree's operations in order up to the first that fails, an unreadable subtree failing behind its directory, and succeeds if and only if it reached the end of a whole tree |
| GitCheckout.Directory.MaterializeCheckout | crates/akua-core/src/git_fetcher.rs:472-530 | the tree's operations, then the sentinel, which is written only after a full success |
| GitCheckout.SelectCommit | crates/akua-core/src/git_fetcher.rs:151-183 | which commit is chosen: the cache's unless it lacks the reference or misses the pin, then the remote's |
| GitCheckout.CacheComesFirst | crates/akua-core/src/git_fetcher.rs:151-183 | a commit the cache has under the reference, and that meets the pin, is taken without the remote; otherwise the remote decides |
| GitCheckout.RefusedBecause | crates/akua-core/src/git_fetcher.rs:151-183 | otherwise the fetch fails for want of a clone, a refresh, the reference or the pin |
| GitCheckout.PinIsHonoured | crates/akua-core/src/git_fetcher.rs:132-183 | a pinned commit is returned if and only if cache or remote has it under the reference, and no other ever is |
| GitTrees.PlanPathsDistinct | crates/akua-core/src/git_fetcher.rs:551-596 | no two operations touch the same path |
| GitTrees.PlanStaysUnder | crates/akua-core/src/git_fetcher.rs:532-572 | every operation lies below the destination, under a name of the tree |
| GitTrees.PlanIsWhole | crates/akua-core/src/git_fetcher.rs:554-596 | writing out reaches the end if and only if every name is safe and every object present |
| GitTrees.PathsStayOrdinary | crates/akua-core/src/git_fetcher.rs:532-572 | no operation's path climbs, names its own directory, or has a separator in a component |
| GitTrees.SafeNamesAreOrdinary | crates/akua-core/src/git_fetcher.rs:532-549 | a name is safe if and only if it is a single component other than the empty one, `.` and `..` |
| GitTrees.WritesAreBlobs | crates/akua-core/src/git_fetcher.rs:554-596 | the files written are exactly the blobs the tree has, at their paths |
| GitCrashes.SentinelMeansComplete | crates/akua-core/src/git_fetcher.rs:515-528 | over any crashes, torn writes and restarts, under whatever references, a sentinel means the directory holds exactly the commit's files |
| GitCrashes.CacheIsNeverPartialExactly | crates/akua-core/src/git_fetcher.rs:196-211 | the cache lookup never returns a partial tree if and only if the tree keeps off the sentinel's path until its last file, and altogether when it cannot be written out whole |
| GitCrashes.EarlySentinelFoolsTheCache | crates/akua-core/src/git_fetcher.rs:196-211 | otherwise some crash makes a partial tree count as complete |
| GitCrashes.LostSentinelTreeFoolsTheCache | crates/akua-core/src/git_fetcher.rs:551-576 | a subtree of the sentinel's name whose object cannot be read leaves its directory behind, and the cache takes the checkout for complete |
| GitCrashes.OrdinaryTreesAreSafe | crates/akua-core/src/git_fetcher.rs:472-530 | trees without an entry of the sentinel's name at the root meet the condition |
| GitCrashes.RestartCompletes | crates/akua-core/src/git_fetcher.rs:185-188 | after any interrupted runs, one uninterrupted run completes the checkout |
| GitCrashes.UndisturbedIsRunOps | crates/akua-core/src/git_fetcher.rs:472-530 | the state machine without crashes does what the methods are proved to do |

## Left out

- HTTP, TLS, authentication, the blob upload's redirect and status handling: a registry request succeeds and stores or returns what it is asked.
- KCL, Helm, Kustomize and wasmtime evaluation: an evaluated package is the list of `pkg.render` calls it makes.
- TOML, JSON, YAML, tar, gzip, base64, P-256 and SHA-256: parameters with the law each theorem names.
- Carriage returns: sources are lines ended by a newline alone; text is characters, not UTF-8 bytes, so DSSE lengths count characters of byte strings.
- Integer widths, except where they decide something (the saturating byte counts): parenthesis depth is unbounded, and literals out of 64-bit range are ones the integer parser refuses.
- `copy_tree` after a rename that failed for another reason than a filled slot: that branch is not atomic and is not modelled.
- Two processes checking out one commit at once, and reordering of writes by a power failure: one writer at a time, and what was written before a crash is there after it.
- OciCache.Cache.ExtractBlobCapped: what other processes do between the existence check and the rename arrives at once, as a parameter; the step-by-step interleaving is the state machine beside it.
- RenderStack.PkgRender: the clock reading is arbitrary; loading or resolving a child either gives its charts or fails.
- RenderStack.GuardStopsReentryExactly: packages with one canonical path are taken to have the same dependencies, which fails only when `package.k` is itself a link into another workspace.
- JsonSchemaMeaning.TranslationPreserves: `None` counts as a value of `any` only, and an integer is a number without fraction, as JSON Schema has it.
- GitCheckout.SelectCommit: the remote gives the same answer on each refresh within one fetch.
- Links.AcceptedRelativeIsContained: speaks of the file system at the moment of the check, not of later changes to it; missing directories on the way are taken to be made, a link on the way must lead to a directory that exists, and a path that climbs out of a missing directory writes nothing.
- Links.TargetDecides: covers links that do not resolve by themselves; when more than 40 links on the way make the kernel give up, `WritesEscapeExactly` still decides.
- Links.AbsoluteNeedsAnAllowedRoot: the same holds of its paths, and its roots exist, as directories the resolver produced do.
- DirHashCollisions.StreamIsUniqueExactly: names are taken to be UTF-8; the lossy conversion of other names maps different ones to the same text, so trees that differ in such names alone share a stream as well.
- GitCheckout.Directory.WriteTree: a commit whose own root tree cannot be read fails before anything is written and is not a tree here.
- JsonSchemaFits.UnionLosesExactlyWhatFitsTwice: unions with unknown types among their branches are left to `TranslationPreserves`.
- Nested loops of `strip_akua_decorators`, `extract_schemas` and `hash_dir` are separate methods here (`BlankDecorator`, `ScanLines`, `WriteImports`, `Feed`); `sort_by` is a stable insertion sort on sequences.
- Reading `@ui` decorators and docstrings from the KCL syntax tree, the OpenAPI wrapper and `$schema`/`title` of the root.
- The fetcher's choice of a layer by media type and annotations, its declared-size, digest and lock checks, and sidecar signatures: a blob enters the cache model already verified.
- Other verbs and modules (directory diff, duration parsing, SLSA statements, inventory, name validators, Helm repositories): true but easy.
