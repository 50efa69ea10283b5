/**
 * The import resolver (import_resolver.go): a depth-first walk that completes
 * the `Sources` table of a compiler input with every file its files import,
 * asking the caller's callback for the files the table does not hold yet.
 *
 * A file is marked resolved before its imports are walked, so a cycle of
 * imports ends at the first file seen again; a depth bound of 50 ends any
 * chain of fresh files the callback keeps inventing.
 */
module ImportResolver {
  import opened Wrappers
  import opened SolcTypes
  import ImportScan
  import Paths

  /** The depth bound set by newImportResolver (import_resolver.go:24). */
  const MaxDepth: nat := 50

  /** Why a resolution stopped. */
  datatype ResolveError =
    | DepthExceeded(file: string)
    | NotFound(file: string)
    | CallbackFailed(path: string, message: string)

  // ---------------------------------------------------------------------------
  // The import graph of a table of sources

  /** Every import in `imports`, resolved against `file`, is in `resolved`. */
  ghost predicate AllResolved(imports: seq<string>, file: string, resolved: set<string>)
    decreases |imports|
  {
    imports == [] ||
    (AllResolved(imports[..|imports| - 1], file, resolved) &&
     Paths.ResolveAbsolutePath(imports[|imports| - 1], file) in resolved)
  }

  /** Every path the file imports is in `resolved`. */
  ghost predicate Done(sources: map<string, string>, resolved: set<string>, file: string) {
    file in sources && AllResolved(ImportScan.ImportPaths(sources[file]), file, resolved)
  }

  /** Every file of `resolved` is in the table and has all its imports in `resolved`. */
  ghost predicate Closed(sources: map<string, string>, resolved: set<string>) {
    forall f {:trigger Done(sources, resolved, f)} :: f in resolved ==> Done(sources, resolved, f)
  }

  /**
   * Between the steps of a walk: a resolved file whose imports are not all
   * resolved yet is still being walked, so it is on the context stack.
   */
  ghost predicate PendingIn(sources: map<string, string>, resolved: set<string>, stack: seq<string>) {
    forall f {:trigger Done(sources, resolved, f)} :: f in resolved ==> f in stack || Done(sources, resolved, f)
  }

  /** `file` imports `target`: some import of `file` resolves to `target`. */
  ghost predicate Imports(sources: map<string, string>, file: string, target: string) {
    file in sources &&
    exists i :: 0 <= i < |ImportScan.ImportPaths(sources[file])| &&
      Paths.ResolveAbsolutePath(ImportScan.ImportPaths(sources[file])[i], file) == target
  }

  /** A chain of imports: each file imports the next. */
  ghost predicate Chain(sources: map<string, string>, files: seq<string>) {
    forall i :: 0 <= i < |files| - 1 ==> Imports(sources, files[i], files[i + 1])
  }

  /** AllResolved says what its name says. */
  lemma {:induction false} AllResolvedIff(imports: seq<string>, file: string, resolved: set<string>)
    ensures AllResolved(imports, file, resolved) <==>
      forall i :: 0 <= i < |imports| ==> Paths.ResolveAbsolutePath(imports[i], file) in resolved
    decreases |imports|
  {
    if imports != [] {
      var front := imports[..|imports| - 1];
      AllResolvedIff(front, file, resolved);
      assert forall i :: 0 <= i < |front| ==> front[i] == imports[i];
    }
  }

  /** Resolving more files keeps the imports resolved. */
  lemma {:induction false} AllResolvedGrow(imports: seq<string>, file: string, resolved: set<string>, more: set<string>)
    requires AllResolved(imports, file, resolved) && resolved <= more
    ensures AllResolved(imports, file, more)
    decreases |imports|
  {
    if imports != [] {
      AllResolvedGrow(imports[..|imports| - 1], file, resolved, more);
    }
  }

  /** One more import of the list resolved. */
  lemma AllResolvedStep(imports: seq<string>, n: nat, file: string, resolved: set<string>, more: set<string>)
    requires n < |imports| && AllResolved(imports[..n], file, resolved) && resolved <= more
    requires Paths.ResolveAbsolutePath(imports[n], file) in more
    ensures AllResolved(imports[..n + 1], file, more)
  {
    AllResolvedGrow(imports[..n], file, resolved, more);
    assert imports[..n + 1][..n] == imports[..n];
  }

  /** Marking a file and pushing it on the stack keeps the walk invariant. */
  lemma PendingPush(sources: map<string, string>, resolved: set<string>, stack: seq<string>, file: string)
    requires PendingIn(sources, resolved, stack)
    ensures PendingIn(sources, resolved + {file}, stack + [file])
  {
    forall f | f in resolved + {file} && f !in stack + [file]
      ensures Done(sources, resolved + {file}, f)
    {
      assert Done(sources, resolved, f);
      AllResolvedGrow(ImportScan.ImportPaths(sources[f]), f, resolved, resolved + {file});
    }
  }

  /** Popping a file whose imports are all resolved keeps the walk invariant. */
  lemma PendingPop(sources: map<string, string>, resolved: set<string>, stack: seq<string>, file: string)
    requires PendingIn(sources, resolved, stack + [file]) && Done(sources, resolved, file)
    ensures PendingIn(sources, resolved, stack)
  {
    forall f | f in resolved && f !in stack
      ensures Done(sources, resolved, f)
    {
      if f != file {
        assert f !in stack + [file];
        assert Done(sources, resolved, f);
      }
    }
  }

  /** Storing a file the table lacks leaves every walked file walked. */
  lemma PendingInsert(sources: map<string, string>, resolved: set<string>, stack: seq<string>, p: string, content: string)
    requires PendingIn(sources, resolved, stack) && resolved <= sources.Keys && p !in sources
    ensures PendingIn(sources[p := content], resolved, stack)
  {
    forall f | f in resolved && f !in stack
      ensures Done(sources[p := content], resolved, f)
    {
      assert Done(sources, resolved, f);
    }
  }

  /** With nothing left on the stack, the resolved files are closed under imports. */
  lemma PendingClosed(sources: map<string, string>, resolved: set<string>)
    requires PendingIn(sources, resolved, [])
    ensures Closed(sources, resolved)
  {
    forall f | f in resolved
      ensures Done(sources, resolved, f)
    {
      assert f !in [];
    }
  }

  /**
   * A closed set of files holds every file reachable from one of them by a
   * chain of imports, and all those files are in the table.
   */
  lemma {:induction false} ClosedHoldsChains(sources: map<string, string>, resolved: set<string>, files: seq<string>)
    requires Closed(sources, resolved) && resolved <= sources.Keys
    requires |files| > 0 && files[0] in resolved && Chain(sources, files)
    ensures files[|files| - 1] in resolved && files[|files| - 1] in sources
    decreases |files|
  {
    if |files| > 1 {
      var front := files[..|files| - 1];
      assert Chain(sources, front) by {
        forall i | 0 <= i < |front| - 1
          ensures Imports(sources, front[i], front[i + 1])
        {
          assert front[i] == files[i] && front[i + 1] == files[i + 1];
        }
      }
      ClosedHoldsChains(sources, resolved, front);
      var f := files[|files| - 2];
      assert Imports(sources, f, files[|files| - 1]);
      assert Done(sources, resolved, f);
      AllResolvedIff(ImportScan.ImportPaths(sources[f]), f, resolved);
    }
  }

  // ---------------------------------------------------------------------------
  // The table a walk builds

  /** The table `a` is kept in `b`: no key is dropped and no entry is overwritten. */
  ghost predicate Extends(a: map<string, string>, b: map<string, string>) {
    forall k :: k in a ==> k in b && b[k] == a[k]
  }

  /** The table a walk builds: `initial`, plus the contents the callback answered for each requested path. */
  ghost function Table(initial: map<string, string>, requested: set<string>, callback: ImportCallback): map<string, string> {
    map k | k in initial.Keys + requested :: if k in initial then initial[k] else callback(k).contents
  }

  /**
   * The table `sources` is the table `initial` the walk started from plus
   * the answers to `requested`: the callback was asked only for paths
   * `initial` does not hold, and only answers without an error were stored.
   * Stated key by key; ConsistentIsTable shows it is `sources == Table(..)`.
   */
  ghost predicate Consistent(sources: map<string, string>, initial: map<string, string>,
                             requested: set<string>, callback: ImportCallback)
  {
    && Extends(initial, sources)
    && (forall p :: p in requested ==>
          && p !in initial && callback(p).error == ""
          && p in sources && sources[p] == callback(p).contents)
    && (forall k :: k in sources ==> k in initial || k in requested)
  }

  /** The key-by-key statement is the same as equality with the table the walk builds. */
  lemma ConsistentIsTable(sources: map<string, string>, initial: map<string, string>,
                          requested: set<string>, callback: ImportCallback)
    ensures Consistent(sources, initial, requested, callback) <==>
      && sources == Table(initial, requested, callback)
      && requested !! initial.Keys
      && forall p :: p in requested ==> callback(p).error == ""
  {
    if Consistent(sources, initial, requested, callback) {
      assert sources == Table(initial, requested, callback);
    }
  }

  /** Before any request, the table is the initial one. */
  lemma ConsistentStart(initial: map<string, string>, callback: ImportCallback)
    ensures Consistent(initial, initial, {}, callback)
  {
  }

  /**
   * Storing the answer for a path the table lacks keeps the table
   * consistent with one more request, and that path had not been requested.
   */
  lemma ConsistentInsert(sources: map<string, string>, initial: map<string, string>,
                         requested: set<string>, callback: ImportCallback, p: string)
    requires Consistent(sources, initial, requested, callback)
    requires p !in sources && callback(p).error == ""
    ensures p !in requested && p !in initial
    ensures Consistent(sources[p := callback(p).contents], initial, requested + {p}, callback)
  {
  }

  /** A consistent table keeps every entry of the initial one, and holds exactly its keys and the requested paths. */
  lemma ConsistentExtends(sources: map<string, string>, initial: map<string, string>,
                          requested: set<string>, callback: ImportCallback)
    requires Consistent(sources, initial, requested, callback)
    ensures Extends(initial, sources)
    ensures sources.Keys == initial.Keys + requested
  {
  }
  /** A table extends itself, and extension is transitive. */
  lemma ExtendsTrans(a: map<string, string>, b: map<string, string>, c: map<string, string>)
    requires Extends(a, b) && Extends(b, c)
    ensures Extends(a, c)
  {
  }

  // ---------------------------------------------------------------------------
  // The import graph a walk explores

  /**
   * The contents of a path as a walk that starts from `initial` finds them:
   * the initial table's entry, or else the callback's answer.
   */
  ghost function Content(initial: map<string, string>, callback: ImportCallback, p: string): string {
    if p in initial then initial[p] else callback(p).contents
  }

  /** In that graph, `file` imports `target`: some import of `file` resolves to `target`. */
  ghost predicate Leads(initial: map<string, string>, callback: ImportCallback, file: string, target: string) {
    exists i :: 0 <= i < |ImportScan.ImportPaths(Content(initial, callback, file))| &&
      Paths.ResolveAbsolutePath(ImportScan.ImportPaths(Content(initial, callback, file))[i], file) == target
  }

  /** A route of the walk: it starts at an initial file, and each file imports the next. */
  ghost predicate Route(initial: map<string, string>, callback: ImportCallback, files: seq<string>) {
    && |files| > 0 && files[0] in initial
    && forall i :: 0 <= i < |files| - 1 ==> Leads(initial, callback, files[i], files[i + 1])
  }

  /** `p` is at the end of some route. */
  ghost predicate Reachable(initial: map<string, string>, callback: ImportCallback, p: string) {
    exists files :: Route(initial, callback, files) && files[|files| - 1] == p
  }

  /** No file occurs twice. */
  ghost predicate Distinct(files: seq<string>) {
    forall i, j :: 0 <= i < j < |files| ==> files[i] != files[j]
  }

  /**
   * Why a walk from `initial` may fail, in terms of the graph alone: a route
   * of more than MaxDepth + 1 files, none repeated before the last, ends at
   * the file that is too deep; a reachable path the table lacks was refused
   * by the callback with the message reported. A missing file never ends a
   * walk: the walk only enters files that are in the table.
   */
  ghost predicate Justified(initial: map<string, string>, callback: ImportCallback, e: ResolveError) {
    match e
    case DepthExceeded(f) =>
      exists files :: Route(initial, callback, files) && Distinct(files[..|files| - 1]) &&
        |files| > MaxDepth + 1 && files[|files| - 1] == f
    case CallbackFailed(p, message) =>
      p !in initial && message == callback(p).error && message != "" && Reachable(initial, callback, p)
    case NotFound(_) => false
  }

  /** Every reachable path the initial table lacks is answered by the callback without an error. */
  ghost predicate Answered(initial: map<string, string>, callback: ImportCallback) {
    forall p :: Reachable(initial, callback, p) && p !in initial ==> callback(p).error == ""
  }

  /** No route whose files before the last are all different is longer than MaxDepth + 1 files. */
  ghost predicate Shallow(initial: map<string, string>, callback: ImportCallback) {
    forall files :: Route(initial, callback, files) && Distinct(files[..|files| - 1]) ==> |files| <= MaxDepth + 1
  }

  /** When every reachable path is answered and no route is too deep, no failure is justified. */
  lemma NothingJustified(initial: map<string, string>, callback: ImportCallback, e: ResolveError)
    requires Answered(initial, callback) && Shallow(initial, callback)
    ensures !Justified(initial, callback, e)
  {
  }

  /** A route extends by a file its last file imports. */
  lemma RouteExtend(initial: map<string, string>, callback: ImportCallback, files: seq<string>, p: string)
    requires Route(initial, callback, files) && Leads(initial, callback, files[|files| - 1], p)
    ensures Route(initial, callback, files + [p]) && Reachable(initial, callback, p)
  {
    var longer := files + [p];
    assert longer[|longer| - 1] == p;
  }

  /** In a consistent table every entry is what the walk finds for its path. */
  lemma ConsistentContent(sources: map<string, string>, initial: map<string, string>,
                          requested: set<string>, callback: ImportCallback, k: string)
    requires Consistent(sources, initial, requested, callback) && k in sources
    ensures sources[k] == Content(initial, callback, k)
  {
  }

  /**
   * A consistent table whose marked files are closed under imports and
   * include every initial file holds every reachable path, marked.
   */
  lemma {:induction false} ClosedHoldsRoutes(sources: map<string, string>, initial: map<string, string>,
                                             requested: set<string>, callback: ImportCallback,
                                             resolved: set<string>, files: seq<string>)
    requires Consistent(sources, initial, requested, callback)
    requires Closed(sources, resolved) && initial.Keys <= resolved
    requires Route(initial, callback, files)
    ensures files[|files| - 1] in resolved
    decreases |files|
  {
    if |files| > 1 {
      var front := files[..|files| - 1];
      assert Route(initial, callback, front) by {
        forall i | 0 <= i < |front| - 1
          ensures Leads(initial, callback, front[i], front[i + 1])
        {
          assert front[i] == files[i] && front[i + 1] == files[i + 1];
        }
      }
      ClosedHoldsRoutes(sources, initial, requested, callback, resolved, front);
      var f := files[|files| - 2];
      assert Leads(initial, callback, f, files[|files| - 1]);
      assert Done(sources, resolved, f);
      ConsistentContent(sources, initial, requested, callback, f);
      AllResolvedIff(ImportScan.ImportPaths(sources[f]), f, resolved);
    }
  }

  // ---------------------------------------------------------------------------
  // The state of a walk

  /**
   * The state of a walk from the table `initial`, between its steps:
   * - the table is consistent with the stored answers, each of them for a
   *   reachable path, and every resolved file is in the table;
   * - the context stack holds resolved files, none twice;
   * - the callback was invoked `calls` times, once for each path of
   *   `asked`, none of them an initial file; every stored answer was asked.
   */
  ghost predicate Walking(sources: map<string, string>, initial: map<string, string>, callback: ImportCallback,
                          requested: set<string>, resolved: set<string>, stack: seq<string>,
                          asked: set<string>, calls: nat)
  {
    && Consistent(sources, initial, requested, callback)
    && resolved <= sources.Keys
    && (forall p :: p in requested ==> Reachable(initial, callback, p))
    && Distinct(stack) && (forall i :: 0 <= i < |stack| ==> stack[i] in resolved)
    && requested <= asked && asked !! initial.Keys && calls == |asked|
  }

  /** A walk starts with the initial table, nothing resolved and nothing asked. */
  lemma WalkingStart(initial: map<string, string>, callback: ImportCallback)
    ensures Walking(initial, initial, callback, {}, {}, [], {}, 0)
  {
    ConsistentStart(initial, callback);
  }

  /** Marking a file of the table and pushing it keeps the walk state. */
  lemma WalkingEnter(sources: map<string, string>, initial: map<string, string>, callback: ImportCallback,
                     requested: set<string>, resolved: set<string>, stack: seq<string>,
                     asked: set<string>, calls: nat, f: string)
    requires Walking(sources, initial, callback, requested, resolved, stack, asked, calls)
    requires f in sources && f !in resolved
    ensures Walking(sources, initial, callback, requested, resolved + {f}, stack + [f], asked, calls)
  {
    var pushed := stack + [f];
    forall i, j | 0 <= i < j < |pushed| ensures pushed[i] != pushed[j] {
      if j < |stack| {
        assert pushed[i] == stack[i] && pushed[j] == stack[j];
      } else {
        assert pushed[i] == stack[i] && stack[i] in resolved;
      }
    }
  }

  /** Popping the top of the stack keeps the walk state. */
  lemma WalkingLeave(sources: map<string, string>, initial: map<string, string>, callback: ImportCallback,
                     requested: set<string>, resolved: set<string>, stack: seq<string>,
                     asked: set<string>, calls: nat, f: string)
    requires Walking(sources, initial, callback, requested, resolved, stack + [f], asked, calls)
    ensures Walking(sources, initial, callback, requested, resolved, stack, asked, calls)
  {
    var pushed := stack + [f];
    assert forall i :: 0 <= i < |stack| ==> stack[i] == pushed[i];
  }

  /** Marking one more file keeps the walk state. */
  lemma WalkingMark(sources: map<string, string>, initial: map<string, string>, callback: ImportCallback,
                    requested: set<string>, resolved: set<string>, more: set<string>, stack: seq<string>,
                    asked: set<string>, calls: nat)
    requires Walking(sources, initial, callback, requested, resolved, stack, asked, calls)
    requires resolved <= more <= sources.Keys
    ensures Walking(sources, initial, callback, requested, more, stack, asked, calls)
  {
  }

  /**
   * Invoking the callback for a path the table lacks, between steps of a
   * walk that has not failed, asks a path not asked before.
   */
  lemma WalkingAsk(sources: map<string, string>, initial: map<string, string>, callback: ImportCallback,
                   requested: set<string>, resolved: set<string>, stack: seq<string>,
                   asked: set<string>, calls: nat, p: string)
    requires Walking(sources, initial, callback, requested, resolved, stack, asked, calls)
    requires asked == requested && p !in sources
    ensures p !in asked && p !in initial
    ensures Walking(sources, initial, callback, requested, resolved, stack, asked + {p}, calls + 1)
  {
  }

  /** Storing the answer for a reachable path the table lacks keeps the walk state. */
  lemma WalkingStore(sources: map<string, string>, initial: map<string, string>, callback: ImportCallback,
                     requested: set<string>, resolved: set<string>, stack: seq<string>,
                     asked: set<string>, calls: nat, p: string)
    requires Walking(sources, initial, callback, requested, resolved, stack, asked + {p}, calls + 1)
    requires asked == requested && p !in sources && callback(p).error == "" && Reachable(initial, callback, p)
    ensures Walking(sources[p := callback(p).contents], initial, callback, requested + {p}, resolved, stack,
                    asked + {p}, calls + 1)
    ensures Extends(sources, sources[p := callback(p).contents])
  {
    ConsistentInsert(sources, initial, requested, callback, p);
  }

  /**
   * With its stack empty, a walk that has not failed has resolved exactly
   * the table's keys, and stored exactly the reachable paths not in the
   * initial table, each after one invocation of the callback.
   */
  lemma WalkingDone(sources: map<string, string>, initial: map<string, string>, callback: ImportCallback,
                    requested: set<string>, resolved: set<string>, asked: set<string>, calls: nat)
    requires Walking(sources, initial, callback, requested, resolved, [], asked, calls)
    requires asked == requested && PendingIn(sources, resolved, []) && initial.Keys <= resolved
    requires requested <= resolved
    ensures Closed(sources, resolved) && resolved == sources.Keys
    ensures forall k :: k in sources <==> k in initial || Reachable(initial, callback, k)
    ensures asked == sources.Keys - initial.Keys && calls == |asked|
  {
    ConsistentExtends(sources, initial, requested, callback);
    PendingClosed(sources, resolved);
    forall k | Reachable(initial, callback, k)
      ensures k in sources
    {
      var files :| Route(initial, callback, files) && files[|files| - 1] == k;
      ClosedHoldsRoutes(sources, initial, requested, callback, resolved, files);
    }
  }

  // ---------------------------------------------------------------------------
  // The resolver

  class Resolver {
    const importCallback: ImportCallback
    /** The keys of the source's `resolvedSources` map; it only ever stores `true`. */
    var resolvedSources: set<string>
    var contextStack: seq<string>
    const maxDepth: nat
    /** The paths whose callback answer was stored. */
    ghost var requested: set<string>
    /** The paths the callback was invoked for, and how many invocations there were. */
    ghost var asked: set<string>
    ghost var calls: nat

    /** newImportResolver (import_resolver.go:19-26). */
    constructor(callback: ImportCallback)
      ensures importCallback == callback && maxDepth == MaxDepth
      ensures resolvedSources == {} && contextStack == [] && requested == {} && asked == {} && calls == 0
    {
      importCallback := callback;
      resolvedSources := {};
      contextStack := [];
      maxDepth := MaxDepth;
      requested := {};
      asked := {};
      calls := 0;
    }

    /** The walk state Walking, on the resolver and the input, whose table was `initial` when the walk began. */
    ghost predicate Valid(input: Input, initial: map<string, string>)
      reads this, input
    {
      && maxDepth == MaxDepth
      && Walking(input.Sources(), initial, importCallback, requested, resolvedSources, contextStack, asked, calls)
    }

    /** The walk invariant PendingIn, on the resolver's own state. */
    ghost predicate Pending(input: Input)
      reads this, input
    {
      PendingIn(input.Sources(), resolvedSources, contextStack)
    }

    /** Nothing was marked, stored or asked of the callback. */
    twostate predicate Unchanged(input: Input)
      reads this, input
    {
      && resolvedSources == old(resolvedSources) && input.sources == old(input.sources)
      && requested == old(requested) && asked == old(asked) && calls == old(calls)
    }

    /**
     * The walk only adds: marks, stored answers and invoked paths grow, no
     * entry of the table is dropped or overwritten, and the callback was
     * invoked only for paths the table lacked before.
     */
    twostate predicate Grew(input: Input)
      reads this, input
    {
      && old(resolvedSources) <= resolvedSources && old(requested) <= requested
      && Extends(old(input.Sources()), input.Sources())
      && old(asked) <= asked && (asked - old(asked)) !! old(input.Sources()).Keys
    }

    /** Between steps of a walk that has not failed: every path the callback was invoked for had its answer stored. */
    ghost predicate AskedOnce()
      reads this
    {
      asked == requested
    }

    /**
     * resolveFileImports (import_resolver.go:45-105). The bound is checked
     * before the resolved mark, so even a resolved file errs beyond it; a
     * file not yet resolved must be in the table. The stack with `fileName`
     * on top is a route of the walk, as long as `depth`.
     */
    method ResolveFileImports(input: Input, fileName: string, depth: nat, ghost initial: map<string, string>)
      returns (err: Option<ResolveError>)
      requires Valid(input, initial) && Pending(input) && AskedOnce()
      requires |contextStack| == depth && Route(initial, importCallback, contextStack + [fileName])
      modifies this, input
      decreases maxDepth + 1 - depth, 5
      ensures Valid(input, initial) && Grew(input)
      ensures contextStack == old(contextStack)
      ensures depth > maxDepth ==> err == Some(DepthExceeded(fileName)) && Unchanged(input)
      ensures depth <= maxDepth && fileName in old(resolvedSources) ==> err.None? && Unchanged(input)
      ensures depth <= maxDepth && fileName !in old(resolvedSources) && fileName !in old(input.Sources()) ==>
        err == Some(NotFound(fileName)) && Unchanged(input)
      ensures depth <= maxDepth && fileName !in old(resolvedSources) && fileName in old(input.Sources()) ==>
        fileName in resolvedSources
      ensures err.Some? ==>
        Justified(initial, importCallback, err.value) || (err.value == NotFound(fileName) && fileName !in old(input.Sources()))
      ensures err.None? ==> fileName in resolvedSources && Pending(input) && AskedOnce()
      ensures err.None? ==> requested - old(requested) <= resolvedSources
    {
      if depth > maxDepth {
        ghost var files := contextStack + [fileName];
        assert files[..|files| - 1] == contextStack;
        return Some(DepthExceeded(fileName));
      }
      if fileName in resolvedSources {
        return None;
      }
      if fileName !in input.Sources() {
        return Some(NotFound(fileName));
      }
      err := WalkFile(input, fileName, depth, initial);
    }

    /**
     * The rest of resolveFileImports (import_resolver.go:59-104), for a file
     * of the table not yet resolved: it is marked and pushed on the context
     * stack before its imports are walked, in source order, until one
     * fails; the deferred pop restores the stack on every path.
     */
    method WalkFile(input: Input, fileName: string, depth: nat, ghost initial: map<string, string>)
      returns (err: Option<ResolveError>)
      requires Valid(input, initial) && Pending(input) && AskedOnce() && depth <= maxDepth
      requires fileName !in resolvedSources && fileName in input.Sources()
      requires |contextStack| == depth && Route(initial, importCallback, contextStack + [fileName])
      modifies this, input
      decreases maxDepth + 1 - depth, 4
      ensures Valid(input, initial) && Grew(input)
      ensures contextStack == old(contextStack)
      ensures fileName in resolvedSources
      ensures err.Some? ==> Justified(initial, importCallback, err.value)
      ensures err.None? ==> Pending(input) && AskedOnce()
      ensures err.None? ==> requested - old(requested) <= resolvedSources
    {
      var source := input.Sources()[fileName];
      ConsistentContent(input.Sources(), initial, requested, importCallback, fileName);
      WalkingEnter(input.Sources(), initial, importCallback, requested, resolvedSources, contextStack, asked, calls, fileName);
      PendingPush(input.Sources(), resolvedSources, contextStack, fileName);
      resolvedSources := resolvedSources + {fileName};
      contextStack := contextStack + [fileName];

      var imports := ImportScan.ExtractImports(source);
      err := WalkImports(input, fileName, imports, depth, initial);
      if err.None? {
        assert input.Sources()[fileName] == source;
        PendingPop(input.Sources(), resolvedSources, old(contextStack), fileName);
      }
      WalkingLeave(input.Sources(), initial, importCallback, requested, resolvedSources, old(contextStack), asked, calls, fileName);
      contextStack := contextStack[..|contextStack| - 1];
      assert contextStack == old(contextStack);
    }

    /**
     * The loop of resolveFileImports (import_resolver.go:76-102): the
     * imports of `fileName`, which tops the context stack, are handled in
     * source order until one fails.
     */
    method WalkImports(input: Input, fileName: string, imports: seq<string>, depth: nat, ghost initial: map<string, string>)
      returns (err: Option<ResolveError>)
      requires Valid(input, initial) && Pending(input) && AskedOnce() && depth <= maxDepth
      requires |contextStack| == depth + 1 && contextStack[depth] == fileName && Route(initial, importCallback, contextStack)
      requires fileName in resolvedSources
      requires imports == ImportScan.ImportPaths(Content(initial, importCallback, fileName))
      modifies this, input
      decreases maxDepth + 1 - depth, 3
      ensures Valid(input, initial) && Grew(input)
      ensures contextStack == old(contextStack)
      ensures err.Some? ==> Justified(initial, importCallback, err.value)
      ensures err.None? ==> AllResolved(imports, fileName, resolvedSources) && Pending(input) && AskedOnce()
      ensures err.None? ==> requested - old(requested) <= resolvedSources
    {
      err := None;
      var n := 0;
      while n < |imports| && err.None?
        invariant 0 <= n <= |imports|
        invariant Valid(input, initial) && Grew(input)
        invariant contextStack == old(contextStack)
        invariant err.Some? ==> Justified(initial, importCallback, err.value)
        invariant err.None? ==> AllResolved(imports[..n], fileName, resolvedSources) && Pending(input) && AskedOnce()
        invariant err.None? ==> requested - old(requested) <= resolvedSources
        decreases |imports| - n
      {
        ghost var before := resolvedSources;
        ghost var sources := input.Sources();
        assert Leads(initial, importCallback, fileName, Paths.ResolveAbsolutePath(imports[n], fileName)) by {
          assert imports[n] == ImportScan.ImportPaths(Content(initial, importCallback, fileName))[n];
        }
        err := ResolveImport(input, fileName, imports[n], depth, initial);
        ExtendsTrans(old(input.Sources()), sources, input.Sources());
        if err.None? {
          AllResolvedStep(imports, n, fileName, before, resolvedSources);
        }
        n := n + 1;
      }
      if err.None? {
        assert imports[..n] == imports;
      }
    }

    /**
     * One step of the loop of resolveFileImports (import_resolver.go:77-102),
     * for the import `importPath` of `fileName`, which tops the context
     * stack. Its resolved path `p` is walked one level deeper at once if the
     * table has it; otherwise the callback is invoked for `p` first, an
     * error answer ends the walk, and any other answer is stored under `p`
     * and then walked.
     */
    method ResolveImport(input: Input, fileName: string, importPath: string, depth: nat, ghost initial: map<string, string>)
      returns (err: Option<ResolveError>)
      requires Valid(input, initial) && Pending(input) && AskedOnce() && depth <= maxDepth
      requires |contextStack| == depth + 1 && contextStack[depth] == fileName && Route(initial, importCallback, contextStack)
      requires Leads(initial, importCallback, fileName, Paths.ResolveAbsolutePath(importPath, fileName))
      modifies this, input
      decreases maxDepth + 1 - depth, 2
      ensures Valid(input, initial) && Grew(input)
      ensures contextStack == old(contextStack)
      ensures var p := Paths.ResolveAbsolutePath(importPath, fileName);
        p !in old(input.Sources()) ==> p in asked - old(asked)
      ensures var p := Paths.ResolveAbsolutePath(importPath, fileName);
        p !in old(input.Sources()) && importCallback(p).error != "" ==>
          && err == Some(CallbackFailed(p, importCallback(p).error))
          && asked == old(asked) + {p} && calls == old(calls) + 1
          && input.sources == old(input.sources) && requested == old(requested)
      ensures var p := Paths.ResolveAbsolutePath(importPath, fileName);
        p !in old(input.Sources()) && importCallback(p).error == "" ==>
          p in input.Sources() && input.Sources()[p] == importCallback(p).contents
      ensures var p := Paths.ResolveAbsolutePath(importPath, fileName);
        depth == maxDepth && (p in old(input.Sources()) || importCallback(p).error == "") ==>
          err == Some(DepthExceeded(p))
      ensures err.Some? ==> Justified(initial, importCallback, err.value)
      ensures err.None? ==>
        Paths.ResolveAbsolutePath(importPath, fileName) in resolvedSources && Pending(input) && AskedOnce()
      ensures err.None? ==> requested - old(requested) <= resolvedSources
    {
      var resolvedPath := Paths.ResolveAbsolutePath(importPath, fileName);
      RouteExtend(initial, importCallback, contextStack, resolvedPath);
      assert contextStack + [resolvedPath] == contextStack[..depth] + [fileName, resolvedPath];
      if resolvedPath in input.Sources() {
        err := ResolveFileImports(input, resolvedPath, depth + 1, initial);
      } else {
        err := FetchImport(input, resolvedPath, depth, initial);
      }
    }

    /**
     * The callback branch of that step (import_resolver.go:89-101), for a
     * path `p` the table lacks, imported by the file on top of the stack:
     * the callback is invoked once for `p`; an error answer ends the walk
     * and changes nothing else; any other answer is stored under `p`, which
     * is then walked one level deeper.
     */
    method FetchImport(input: Input, p: string, depth: nat, ghost initial: map<string, string>)
      returns (err: Option<ResolveError>)
      requires Valid(input, initial) && Pending(input) && AskedOnce() && depth <= maxDepth
      requires |contextStack| == depth + 1 && Route(initial, importCallback, contextStack + [p])
      requires p !in input.Sources()
      modifies this, input
      decreases maxDepth + 1 - depth, 1
      ensures Valid(input, initial) && Grew(input)
      ensures contextStack == old(contextStack)
      ensures p in asked - old(asked)
      ensures importCallback(p).error != "" ==>
        && err == Some(CallbackFailed(p, importCallback(p).error))
        && asked == old(asked) + {p} && calls == old(calls) + 1
        && input.sources == old(input.sources) && requested == old(requested)
      ensures importCallback(p).error == "" ==> p in input.Sources() && input.Sources()[p] == importCallback(p).contents
      ensures depth == maxDepth && importCallback(p).error == "" ==> err == Some(DepthExceeded(p))
      ensures err.Some? ==> Justified(initial, importCallback, err.value)
      ensures err.None? ==> p in resolvedSources && Pending(input) && AskedOnce()
      ensures err.None? ==> requested - old(requested) <= resolvedSources
    {
      var result := importCallback(p);
      ghost var routed := contextStack + [p];
      assert Reachable(initial, importCallback, p) by {
        assert routed[|routed| - 1] == p;
      }
      WalkingAsk(input.Sources(), initial, importCallback, requested, resolvedSources, contextStack, asked, calls, p);
      asked := asked + {p};
      calls := calls + 1;
      if result.error != "" {
        return Some(CallbackFailed(p, result.error));
      }
      err := StoreImport(input, p, result.contents, depth, initial);
    }

    /**
     * The end of the callback branch (import_resolver.go:95-100): the good
     * answer `contents` for `p`, just asked of the callback, is stored under
     * `p`, which is then walked one level deeper.
     */
    method StoreImport(input: Input, p: string, contents: string, depth: nat, ghost initial: map<string, string>)
      returns (err: Option<ResolveError>)
      requires Valid(input, initial) && Pending(input) && asked == requested + {p} && depth <= maxDepth
      requires |contextStack| == depth + 1 && Route(initial, importCallback, contextStack + [p])
      requires p !in input.Sources() && p !in requested && Reachable(initial, importCallback, p)
      requires importCallback(p) == ImportResult(contents, "")
      modifies this, input
      decreases maxDepth + 1 - depth, 0
      ensures Valid(input, initial) && Grew(input)
      ensures contextStack == old(contextStack)
      ensures p in input.Sources() && input.Sources()[p] == contents
      ensures depth == maxDepth ==> err == Some(DepthExceeded(p))
      ensures err.Some? ==> Justified(initial, importCallback, err.value)
      ensures err.None? ==> p in resolvedSources && Pending(input) && AskedOnce()
      ensures err.None? ==> requested - old(requested) <= resolvedSources
    {
      WalkingStore(input.Sources(), initial, importCallback, requested, resolvedSources, contextStack, requested, calls - 1, p);
      PendingInsert(input.Sources(), resolvedSources, contextStack, p, contents);
      input.sources := Some(input.Sources()[p := contents]);
      requested := requested + {p};
      ghost var stored := input.Sources();
      err := ResolveFileImports(input, p, depth + 1, initial);
      ExtendsTrans(old(input.Sources()), stored, input.Sources());
    }

    /**
     * resolveImports (import_resolver.go:29-42): a nil table becomes an
     * empty one, then every file the table held when the walk began is
     * walked from depth 0, in any order; the first error ends the walk.
     * Files the walk adds are marked resolved as they are added, so walking
     * them again from the top level would return at once.
     *
     * The walk fails only for a reason the import graph justifies, so it
     * succeeds when every reachable path is answered and no route is too
     * deep; it then has stored exactly the reachable paths. In every outcome
     * the callback was invoked at most once per path, never for an initial file.
     */
    method ResolveImports(input: Input) returns (r: Result<Input, ResolveError>)
      requires resolvedSources == {} && contextStack == [] && requested == {} && asked == {} && calls == 0
      requires maxDepth == MaxDepth
      modifies this, input
      ensures input.sources.Some? && contextStack == []
      ensures Valid(input, old(input.Sources()))
      ensures Extends(old(input.Sources()), input.Sources())
      ensures calls == |asked| && asked !! old(input.Sources()).Keys
      ensures r.Failure? ==> Justified(old(input.Sources()), importCallback, r.error)
      ensures Answered(old(input.Sources()), importCallback) && Shallow(old(input.Sources()), importCallback) ==> r.Success?
      ensures r.Success? ==> r.value == input
      ensures r.Success? ==> old(input.Sources()).Keys <= resolvedSources && Closed(input.Sources(), resolvedSources)
      ensures r.Success? ==> resolvedSources == input.Sources().Keys
      ensures r.Success? ==> forall k ::
        k in input.Sources() <==> k in old(input.Sources()) || Reachable(old(input.Sources()), importCallback, k)
      ensures r.Success? ==> asked == input.Sources().Keys - old(input.Sources()).Keys
    {
      if input.sources.None? {
        input.sources := Some(map[]);
      }
      ghost var initial := input.Sources();
      assert initial == old(input.Sources());
      WalkingStart(initial, importCallback);
      var err := ResolveAll(input, initial);
      ConsistentExtends(input.Sources(), initial, requested, importCallback);
      if err.Some? {
        if Answered(initial, importCallback) && Shallow(initial, importCallback) {
          NothingJustified(initial, importCallback, err.value);
        }
        return Failure(err.value);
      }
      WalkingDone(input.Sources(), initial, importCallback, requested, resolvedSources, asked, calls);
      return Success(input);
    }

    /**
     * The loop of resolveImports (import_resolver.go:34-39): each file of
     * the initial table is walked from depth 0 until one walk fails.
     */
    method ResolveAll(input: Input, ghost initial: map<string, string>) returns (err: Option<ResolveError>)
      requires input.sources.Some? && contextStack == [] && input.Sources() == initial
      requires Valid(input, initial) && Pending(input) && AskedOnce() && requested <= resolvedSources
      modifies this, input
      ensures input.sources.Some? && contextStack == []
      ensures Valid(input, initial)
      ensures err.Some? ==> Justified(initial, importCallback, err.value)
      ensures err.None? ==> Pending(input) && AskedOnce()
      ensures err.None? ==> initial.Keys <= resolvedSources && requested <= resolvedSources
    {
      var names := input.Sources().Keys;
      while names != {}
        invariant input.sources.Some? && contextStack == []
        invariant Valid(input, initial) && Pending(input) && AskedOnce()
        invariant names <= initial.Keys && initial.Keys - names <= resolvedSources
        invariant requested <= resolvedSources
        decreases names
      {
        var name :| name in names;
        assert contextStack + [name] == [name];
        err := ResolveFileImports(input, name, 0, initial);
        if err.Some? {
          return;
        }
        names := names - {name};
      }
      return None;
    }
  }
}
