# solc-go, modelled in Dafny

A model of the Go bookkeeping in solc-go. The package drives the Solidity
compiler (soljson.js), which runs inside a JavaScript engine. The engine
and the compiler are foreign and appear only as parameters. The model
covers four parts of the package:

- **The import resolver** (`import_resolver.go`). It walks the imports of
  every file in a compiler input, depth first. It asks the caller's
  callback for each file the input's table lacks and stores the answer in
  the table in place. A visited set keeps the walk from repeating a file,
  a depth bound of 50 ends it, and a context stack is pushed and popped
  around each file.
  - The import scanner (`extractImports`) is modelled on the text: the
    pattern is matched position by position, as Go's regexp does.
  - The path normaliser (`resolveAbsolutePath`, with `filepath.Dir`,
    `Join` and `Clean`) works on `/`-separated segments.
- **The compiler session** (`solc.go`). It picks the version and license
  entry points by what the script text contains, binds them, and
  compiles. A compilation resolves imports first when a callback is
  given. `Close` releases the engine handles once, and a closed session
  answers empty strings and refuses to compile. Ghost counters record
  engine calls and handle releases.
- **The embedded builds** (`embedded.go`): a constant table from version
  to script, a lookup, and the list of its versions.
- **Getting a build for a version** (`download.go`).
  - The lookup goes through the embedded table first, then the release
    catalog, then the cache at `<home>/solc/<version>/soljson.js`, then a
    download. A download is written back to the cache on a best-effort
    basis.
  - The home directory, the files and the web are the state of a `Host`
    class. A ghost log records every URL requested.

## Files

| file | module | what it holds |
|---|---|---|
| wrappers.dfy | Wrappers | `Option` and `Result` |
| text.dfy | Text | prefix and substring tests (`strings.HasPrefix`, `strings.Contains`) |
| paths.dfy | Paths | `filepath.Clean`, `Dir` and `Join` on `/` paths; `resolveAbsolutePath` |
| import_scan.dfy | ImportScan | the import pattern and `extractImports` |
| solc_types.dfy | SolcTypes | `ImportResult`, `ImportCallback`, `CompileOptions`, the `Sources` table of `Input` |
| import_resolver.dfy | ImportResolver | the resolver class and the invariants of its walk |
| solc.dfy | Solc | the session class, the entry-point choice, `newBaseSolc` |
| embedded.dfy | Embedded | the embedded table and its lookups |
| download.dfy | Download | cache paths and the `Host` class: cache, catalog, download, `NewWithVersion` |
| import_example.dfy | ImportExample | the import walk of the repository's `TestImport` (solc_test.go:578-651) |

## Behaviour of the code worth knowing

- **Cache directory.** The cache directory is `solc` under the home
  directory (download.go:21), although the comment at download.go:15
  says `~/.solc`.
- **Empty cache file.** A cache file that exists counts as a hit even
  when it is empty (download.go:44-55); only a failed read is a miss.
- **Catalog before cache.** For a version that is not embedded, the
  catalog is fetched before the cache is consulted (download.go:165-170).
  A cached build therefore still costs a catalog request, and it fails
  when the catalog cannot be had.
- **Asking past the depth bound.** A missing file imported by a file at depth 50 is still asked of the callback, and a good answer is stored in the table. Only then does the walk of that file, at depth 51, fail with `DepthExceeded` (import_resolver.go:90-99 with line 45). The table therefore ends up holding that answer.
- **Status code.** Only status 200 is accepted (download.go:93, 138);
  any other status, 2xx included, is an error.

## Model

| member | source | states |
|---|---|---|
| Text.ContainsIffOccurs | solc.go:113-115 | a substring test holds exactly when the substring occurs at some position |
| Text.ContainsSuffix | solc.go:127-136 | a text that contains `a + b` contains `b`; this is why `_solidity_license` implies `_license` |
| Paths.Split | import_resolver.go:139-142 | the pieces between separators: at least one piece, and none contains `/` |
| Paths.DirPrefixLength | import_resolver.go:136 | the prefix up to the last separator: it ends in `/` or is empty, and no separator follows it |
| Paths.NonEmpty | import_resolver.go:139 | `filepath.Join` drops empty elements: an element is kept exactly when it is in the input and not empty, and a list without empty elements is kept whole |
| Paths.NonEmptySingle | import_resolver.go:139 | a single element is kept exactly when it is not empty |
| Paths.NonEmptyAppend | import_resolver.go:139 | dropping empty elements distributes over concatenation, so with `NonEmptySingle` it works element by element and keeps the order |
| Paths.RenderSegments | import_resolver.go:142 | a clean path written out reads back as the same segments and the same rootedness |
| Paths.CleanFixesRender | import_resolver.go:142 | cleaning a path that is already canonical leaves it unchanged |
| Paths.CleanIsCanonical | import_resolver.go:142 | a cleaned path has no empty or `.` segments, has `..` only as leading segments (none when rooted), and is its segments written out |
| Paths.CleanIdempotent | import_resolver.go:142 | cleaning twice is cleaning once |
| Paths.PlainPathIsClean | import_resolver.go:142 | a rooted path of plain segments is already clean |
| Paths.NormalizeAppend | import_resolver.go:139-142 | cleaning a concatenation of segment lists is cleaning the first, then continuing over the second |
| Paths.DirOfChild | import_resolver.go:136 | the directory of a clean path's child is that path, both rooted and relative, including `/` and `.` |
| Paths.JoinTwo | import_resolver.go:139 | joining two non-empty elements puts one separator between them and cleans |
| Paths.JoinThree | download.go:30 | joining three non-empty elements separates each two and cleans |
| Paths.CleanAppendCanonical | download.go:30 | appending segments that keep a clean path clean needs no further cleaning |
| Paths.ResolveRelative | import_resolver.go:129-143 | a relative import from a file in directory `segs` continues the cleaning pass from `segs` over the import's own segments |
| Paths.ResolveDotSlash | import_resolver.go:129-143 | `./a/b` imported from `d/f` resolves to `d/a/b` |
| Paths.ResolveFromParent | import_resolver.go:129-143 | an import from a file two levels down continues cleaning from its parent directory |
| Paths.ResolveDotDot | import_resolver.go:129-143 | `../a/b` imported from `d/p/f` resolves to `d/a/b` |
| Paths.ResolvedPathShape | import_resolver.go:129-143 | an import not starting with `.` is kept verbatim; any other resolves to a clean path, with no `.` segments and `..` only as leading segments |
| ImportScan.RunMaximal | import_resolver.go:111 | a repetition takes the longest run: every character of it is in the class, and the character after it is not |
| ImportScan.RunExact | import_resolver.go:111 | a run of the class that is not followed by another character of the class is the run the repetition takes |
| ImportScan.MatchAt | import_resolver.go:111-118 | a match at a position starts with `import` and ends after it, inside the text |
| ImportScan.ExtractImports | import_resolver.go:108-126 | the loop collects the captured path of every match, left to right and without overlap, as the position-by-position scan defines them |
| ImportScan.MatchIsPath | import_resolver.go:111 | every match captures a non-empty path free of quotes |
| ImportScan.ScannedPaths | import_resolver.go:118-123 | every reported path is non-empty and free of quotes |
| ImportScan.NoKeywordNoImports | import_resolver.go:108-126 | a text without `import` has no imports |
| ImportScan.StatementScansTo | import_resolver.go:110-111 | each of the four statement forms (plain, `{..} from`, `* as x from`, `name from`), in either quote, scans to its path wherever it is written |
| ImportScan.ScanLines | import_resolver.go:118-123 | a text made of lines that each scan to one path yields those paths in order |
| ImportScan.ExtractProgram | import_resolver.go:108-126 | a program of import statements yields exactly their paths, in source order; the program is the statements written one per line with single spaces, and nothing else |
| ImportResolver.AllResolvedIff | import_resolver.go:77-102 | the recursive "all imports resolved" test is the same as "each import, resolved against the file, is marked" |
| ImportResolver.AllResolvedGrow | import_resolver.go:60 | marking more files never unresolves an import |
| ImportResolver.AllResolvedStep | import_resolver.go:77-102 | one more import handled extends the resolved prefix of the import list by one |
| ImportResolver.PendingPush | import_resolver.go:59-63 | marking a file and pushing it keeps the walk invariant: a marked file with unmarked imports is on the stack |
| ImportResolver.PendingPop | import_resolver.go:64-68 | popping a file whose imports are all marked keeps the walk invariant |
| ImportResolver.PendingInsert | import_resolver.go:95-96 | storing a file the table lacks leaves every finished file finished |
| ImportResolver.PendingClosed | import_resolver.go:29-42 | with the stack empty, every marked file is in the table and all its imports are marked |
| ImportResolver.ClosedHoldsChains | import_resolver.go:29-42 | a closed set holds every file reachable from one of its files by a chain of imports, and those files are in the table |
| ImportResolver.ConsistentIsTable | import_resolver.go:81-96 | the key-by-key invariant is exactly: the table is the initial table plus the callback's answers for the requested paths, which are disjoint from the initial keys and answered without error |
| ImportResolver.ConsistentStart | import_resolver.go:30-32 | before any request the table is the initial one |
| ImportResolver.ConsistentInsert | import_resolver.go:89-96 | storing an answer for a missing path keeps the invariant, and that path had not been requested before |
| ImportResolver.ConsistentExtends | import_resolver.go:81-96 | no initial entry is dropped or overwritten, and the keys are the initial keys plus the requested paths |
| ImportResolver.ExtendsTrans | import_resolver.go:81-96 | a table that only grew twice only grew |
| ImportResolver.RouteExtend | import_resolver.go:77-83 | a route of imports from an initial file, followed by one more import of its last file, is a route, so that import is reachable |
| ImportResolver.ConsistentContent | import_resolver.go:54-96 | every file of a consistent table holds what the import graph gives it: the initial contents, or the callback's answer |
| ImportResolver.ClosedHoldsRoutes | import_resolver.go:29-42 | a closed set that holds the initial files holds the end of every route of imports from them |
| ImportResolver.NothingJustified | import_resolver.go:45-93 | when the callback answers every reachable missing path and no route of distinct files is longer than 51, no failure has a cause in the graph |
| ImportResolver.WalkingStart | import_resolver.go:19-32 | the walk state holds before the walk: the initial table, nothing marked, nothing asked |
| ImportResolver.WalkingEnter | import_resolver.go:59-63 | marking a file of the table and pushing it keeps the walk state: the stack stays free of repeats and marked |
| ImportResolver.WalkingLeave | import_resolver.go:64-68 | popping the stack keeps the walk state |
| ImportResolver.WalkingMark | import_resolver.go:60 | marking more files of the table keeps the walk state |
| ImportResolver.WalkingAsk | import_resolver.go:89-90 | invoking the callback for a path the table lacks counts one call for a path not invoked before and not initial |
| ImportResolver.WalkingStore | import_resolver.go:95-96 | storing a good answer for a reachable missing path keeps the walk state and only adds to the table |
| ImportResolver.WalkingDone | import_resolver.go:34-41 | a walk that ended with an empty stack, the initial files marked and nothing pending has a closed table whose keys are the initial files plus the reachable paths, and the callback was invoked exactly once for each added path |
| ImportResolver.Resolver.constructor | import_resolver.go:19-26 | nothing marked, an empty stack, depth bound 50 |
| ImportResolver.Resolver.ResolveFileImports | import_resolver.go:45-105 | see below |
| ImportResolver.Resolver.WalkFile | import_resolver.go:59-104 | a file of the table not yet marked ends marked; the stack is restored; a failure has a cause in the graph; on success nothing is pending and every path stored is marked |
| ImportResolver.Resolver.WalkImports | import_resolver.go:76-102 | the imports of the file on top of the stack are handled in order until one fails; any failure has a cause in the graph; on success every import is marked and nothing is pending |
| ImportResolver.Resolver.ResolveImport | import_resolver.go:77-102 | see below |
| ImportResolver.Resolver.FetchImport | import_resolver.go:89-101 | the callback is invoked for the missing path, once; an error answer gives `CallbackFailed` with that path and message and changes nothing else; a good answer is stored under the path, and at the depth bound the walk then fails with `DepthExceeded` for it |
| ImportResolver.Resolver.StoreImport | import_resolver.go:95-100 | a good answer just fetched is stored under its path, which is then walked one level deeper; at the depth bound that walk fails with `DepthExceeded` for the path |
| ImportResolver.Resolver.ResolveImports | import_resolver.go:29-42 | see below |
| ImportResolver.Resolver.ResolveAll | import_resolver.go:34-39 | each initial file is walked from depth 0 until a walk fails; a failure has a cause in the graph; on success every initial file is marked and nothing is pending |
| Solc.VersionEntryPoint | solc.go:112-115 | `solidity_version` exactly when the script contains `_solidity_version`, otherwise `version` |
| Solc.LicenseEntryPoint | solc.go:127-145 | `solidity_license` exactly when the script contains `_solidity_license`; `license` when it contains only `_license`; otherwise none |
| Solc.LicenseBoundIff | solc.go:127-145 | a license entry point is bound exactly when the script contains `_license` |
| Solc.Session.constructor | solc.go:69-76 | both handles held, nothing bound, open |
| Solc.Session.Init | solc.go:89-181 | see below |
| Solc.Session.Cleanup | solc.go:198-207 | both handles end up released; only a handle still held counts as a release |
| Solc.Session.Close | solc.go:184-195 | never fails; afterwards the session is closed, and valid if it was; the bindings never change; the first call releases exactly the handles it holds (both, for a valid session); a later call changes nothing |
| Solc.Session.Answer | solc.go:210-247 | empty, with no engine call, when nothing is bound or the session is closed; otherwise one engine call, whose answer is returned, or empty if the call throws |
| Solc.Session.License | solc.go:210-227 | `Answer` on the license binding |
| Solc.Session.Version | solc.go:230-247 | `Answer` on the version binding |
| Solc.Compiled | solc.go:286-314 | the result of the compile step: a success exactly when the entry point is bound, the call returns and its answer decodes, with the decoded output; otherwise exactly the first of those steps that failed |
| Solc.Session.CompileWithOptions | solc.go:250-315 | see below |
| Solc.NewBaseSolc | solc.go:64-85 | see below |
| Embedded.GetEmbeddedBinary | embedded.go:23-26 | reports a version present exactly when it is a key of the table, with its script; otherwise the empty string |
| Embedded.EmbeddedTable | embedded.go:17-20 | the table holds exactly `0.8.30` and `0.8.21`, and `0.7.6` is not embedded |
| Embedded.GetEmbeddedVersions | embedded.go:29-35 | lists each key once, as many as the table has; a version is listed exactly when the lookup reports it embedded |
| Download.CacheDir | download.go:16-22 | fails, with the home-directory error, exactly when the home directory is unknown |
| Download.CachedBinaryPath | download.go:25-31 | fails exactly when the home directory is unknown |
| Download.VersionDir | download.go:34-41 | fails exactly when the home directory is unknown; `VersionDirShape` gives its value |
| Download.JoinOneSegment | download.go:21 | joining a clean rooted directory with one plain segment appends exactly that segment |
| Download.CacheDirShape | download.go:16-22 | for a clean rooted home the cache directory is `<home>/solc` |
| Download.VersionDirShape | download.go:34-41 | for a clean rooted home and a plain version, the directory created for the version is `<home>/solc/<version>` |
| Download.JoinTwoSegments | download.go:30 | joining a clean rooted directory with two plain segments appends exactly those segments |
| Download.CachePathShape | download.go:25-31 | for a clean rooted home and a plain version, the cached build is `<home>/solc/<version>/soljson.js` |
| Download.CachePathsDistinct | download.go:25-31 | different versions are cached at different paths |
| Download.Host.LoadCachedBinary | download.go:44-56 | found exactly when the home directory is known and the cache file exists, even an empty one; then its contents, otherwise the empty string |
| Download.Host.SaveBinaryToCache | download.go:59-70 | see below |
| Download.Host.Get | download.go:131-132 | each request is logged; it is answered exactly when the web holds the URL |
| Download.Host.Releases | download.go:86-108 | the catalog is had exactly from a 200 response whose body reads and parses, and is the parsed table; a missing response, another status, an unreadable body and a body that does not parse each give their own error, exactly in those cases |
| Download.Host.FetchVersionList | download.go:86-108 | makes one request, for the catalog, touches no file, and yields `Releases` |
| Download.Host.ResolveVersion | download.go:110-122 | one catalog request; succeeds exactly when the catalog lists the version, with its build file; an unlisted version is an error naming it; a catalog failure is passed on |
| Download.Host.Fetched | download.go:130-147 | a download yields the body exactly when the URL answers 200 with a readable body; a missing response, another status and an unreadable body each give their own error |
| Download.Host.Obtained | download.go:124-156 | the build is the cached one when the cache has it, and the download otherwise |
| Download.Host.DownloadSolcBinary | download.go:124-156 | see below |
| Download.Host.NewWithVersion | download.go:158-176 | see below |
| Download.Host.NewSession | solc.go:59-61 | a session is returned exactly when the script is not empty and init succeeds on it, and then there is no error; it is fresh, open and valid, and runs the given script; an empty script and a failed init each give their error |
| ImportExample.NoLetterNoImports | import_resolver.go:108-126 | a text without the letter `i` has no import |
| ImportExample.AnswersImportNothing | solc_test.go:590-604 | the ERC20 file of the test, and the empty contents of an error answer, import nothing |
| ImportExample.ErcPathIsLiteral | solc_test.go:584 | the imported path has no quote character, so the scanner captures it whole |
| ImportExample.MyTokenImportsErc20 | solc_test.go:584 | `MyToken.sol` imports exactly the ERC20 path, which is kept verbatim by path resolution |
| ImportExample.LeadsExactly | solc_test.go:584-630 | the only import step of the test is from `MyToken.sol` to the ERC20 path |
| ImportExample.RoutesShort | solc_test.go:584-630 | every route of the test is `MyToken.sol`, possibly followed by the ERC20 path |
| ImportExample.ReachableExactly | solc_test.go:584-630 | the reachable paths of the test are exactly `MyToken.sol` and the ERC20 path |
| ImportExample.ErcReachable | solc_test.go:584 | the ERC20 path is reachable from `MyToken.sol` |
| ImportExample.AllAnswered | solc_test.go:625-630 | the test's callback answers every reachable missing path without error |
| ImportExample.AllShallow | solc_test.go:584-630 | no route of the test is longer than the depth bound allows |
| ImportExample.TableKeys | solc_test.go:609-633 | a table completed from the test's input has exactly `MyToken.sol` and the ERC20 path as keys |
| ImportExample.OneCall | solc_test.go:625-630 | the test's walk adds one path, so the callback is invoked once |
| ImportExample.Table | solc_test.go:609-633 | a table completed from the test's input holds `MyToken.sol` unchanged and the callback's ERC20 file, and nothing else |
| ImportExample.ResolveTestImport | solc_test.go:578-635 | the walk of the test succeeds, leaves exactly those two files in the table, and invokes the callback once |

Several methods need more than one line. "Marked" means in the resolver's
visited set; a failure "with a cause in the graph" means one of these:
`DepthExceeded(f)` when some route of imports from an initial file, with no
repeat before its last file `f`, is longer than 51 files;
`CallbackFailed(p, m)` when `p` is reachable, is not an initial file, and
the callback answers it with the non-empty error `m`.

**`ImportResolver.Resolver.ResolveFileImports`:**
- Beyond depth 50 it fails with `DepthExceeded(file)`, even for a file already marked, and changes nothing.
- A marked file returns at once with no change.
- An unmarked file missing from the table fails with `NotFound(file)` and changes nothing.
- An unmarked file of the table ends marked.
- For an unmarked file of the table that the walk reached along a route, any failure has a cause in the graph. On success, every import of the file is marked, and every path stored during the call is marked.
- The table only grows, the marks only grow, and the context stack is restored on every path.

**`ImportResolver.Resolver.ResolveImport`:**
- The callback is invoked for the resolved path itself only when that path is missing from the table, and then it is invoked for it.
- Any path the callback is invoked for during the step, including those the deeper walk asks for, was missing from the table before the step.
- An error answer gives `CallbackFailed(path, message)`, with exactly one more call and the table unchanged.
- A good answer is stored under the path.
- At the depth bound, a path that the table has or that the callback answers fails with `DepthExceeded(path)`.
- Any failure has a cause in the graph.
- On success the path is marked.

**`ImportResolver.Resolver.ResolveImports`:**
- A nil table becomes empty, and every initial entry is kept.
- The context stack ends empty.
- The walk never fails with `NotFound`. It fails only for a cause in the graph of the initial table and the callback.
- It succeeds whenever the callback answers every reachable missing path and no route is too deep.
- On success the same input comes back. The table's keys are then exactly the initial files plus the reachable paths, all are marked, and the table is closed under imports.
- Whatever the outcome, the callback was invoked at most once per path and never for an initial file. On success, the paths it was invoked for are exactly the added keys.

**`Solc.Session.Init`:**
- Succeeds exactly when the script runs, `debugLog` is set, the chosen version entry point binds, the chosen license entry point (if any) binds, and the compile wrapper is ready.
- Reports exactly the first step that failed, for each of the five steps.
- On success the chosen entry points are bound.

**`Solc.Session.CompileWithOptions`:**
- The checks run in the source's order: nil input, then an input that does not encode, then a closed session.
- None of these calls the engine or changes the table.
- Without a callback the table is untouched, and the result is `Compiled` of the encoded input. The engine is called once exactly when the compile entry point is bound.
- With a callback the imports are resolved first. A resolution failure has a cause in the graph and makes no engine call, and there is none when every reachable missing path is answered and no route is too deep.
- After a successful resolution, the table is closed under imports, and its keys are the original keys plus the reachable paths. Every added entry holds the callback's good answer for its path, so those are the contents that get compiled.
- After a successful resolution, if the table does not encode the result is `RemarshalFailed`. Otherwise it is `Compiled` of the new encoding, with one engine call exactly when the entry point is bound.

**`Solc.NewBaseSolc`:**
- An empty script is refused before any session exists.
- If init fails, the session that was built has both handles released and none is returned. The error names the first failing step of init, under the same conditions as `Init`.
- Otherwise the returned session is open, valid and has its entry points bound.

**`Download.Host.SaveBinaryToCache`:**
- Succeeds exactly when the home directory is known and neither the version directory nor the file fails.
- On success only that file changes, and loading the version gives back exactly what was written.
- On failure nothing changes.
- No request is made.

**`Download.Host.DownloadSolcBinary`:**
- The result is `Obtained`: the cached contents on a cache hit, otherwise `Fetched`.
- A cache hit makes no request and no write.
- Otherwise there is exactly one request, for the build file.
- A good download that can be cached changes exactly the version's cache file, and loading the version afterwards gives that body.
- In every other case the files are unchanged.

**`Download.Host.NewWithVersion`:**
- An embedded version makes no request and no write. A session is returned exactly when the embedded script is not empty and init succeeds on it, and it runs that script.
- Any other version requests the catalog first.
- An unavailable catalog, or one that does not list the version, fails after that single request. The error names the version and carries the cause.
- For a listed version the build is `Obtained` from the cache or the web. A failure there is a download error naming the version.
- Otherwise a session is returned exactly when the build is not empty and init succeeds on it, and it runs the build. When no session is returned there, the error is a session error.
- A cached version costs exactly the catalog request.
- An uncached listed version costs exactly the catalog request and one build request. A good download that can be cached changes exactly the version's cache file; in every other case the files are unchanged.

`Paths.ResolveAbsolutePath`, `Paths.Clean`, `Paths.Dir`, `Paths.Join`,
`Text.HasPrefix`, `Text.Contains`, `ImportScan.ImportPaths` and
`ImportScan.ScanFrom` define the behaviour of the Go functions they model
(`resolveAbsolutePath`, `filepath.Clean`, `Dir` and `Join`,
`strings.HasPrefix`, `strings.Contains`, `FindAllStringSubmatch`). The
lemmas in the table above state their properties. The `Host` constructor
and the `Input` class only set up the model's state.

## Left out

- **The JavaScript engine and the compiler.** Running soljson.js, `Module.cwrap`, the `debugLog` function and the compiler's own behaviour are foreign. They are parameters: the `Engine` datatype says which init steps succeed and what each entry point answers. The `SOLC_DEBUG` logging is not modelled.
- **JSON encoding and decoding.** Encoding `Input` and decoding `Output` (and `list.json`) are parameters that may fail; the documents themselves are not modelled.
- **The other fields of `Input` and `Output`.** The `Input` and `Output` types are not part of this model. Of `Input` only the `Sources` table of path to contents is modelled. `Output` is the document it decodes from.
- **`v8go.NewValue` failure** (solc.go:298-301) is not modelled: creating a string value is taken to succeed.
- **Concurrency.** The mutex (solc.go:50, 185, 215, 235, 262) and all concurrency are left out; the model is sequential. Racing downloads of the same version are out of scope.
- **Error messages.** They are datatype values carrying the same context (file, path, message, status, version), not formatted strings.
- **The unreachable regex error.** The error result of `extractImports` and its wrapping at import_resolver.go:71-74 are not modelled. The pattern is a constant that compiles.
- **Go map iteration order.** The top-level loop of `resolveImports` iterates over the keys the table held when the loop began, in an unspecified order. The files added during the loop are already marked, so walking them from the top would return at once.
- **The callback** is a deterministic function of the path; a callback with side effects or state is not modelled.
- **Operating-system failures.** `os.UserHomeDir`, `os.ReadFile`, `os.MkdirAll`, `os.WriteFile` and `http.Get` are modelled by the `Host` state. An unreadable file is modelled as a missing one. The directories that `MkdirAll` creates are not recorded. A failed write leaves the files unchanged. The warning printed on a failed cache write is not modelled.
- **Build contents.** The embedded builds are stood in for by the names of the embedded files; their contents are not modelled.
- **Go's `filepath` on Windows** (the `\` separator and volume names) is not modelled; paths use `/`.
- **Bytes and characters.** Strings are sequences of characters, while Go's `strings` and `regexp` packages work on UTF-8 bytes. For the ASCII text that the pattern and the paths consist of, the two agree. A multi-byte character is one element here and several bytes in Go.
- **The texts of `TestImport`.** `ImportExample` keeps only the import statement of `MyToken.sol` and a one-line ERC20 contract. The comments, pragma and contract bodies of the test's texts hold no import statement, so they change nothing for the walk. Compiling the result is the engine's part and is left out.
