/**
 * The lexical path arithmetic the import resolver and the cache rely on:
 * Go's `filepath.Clean`, `filepath.Dir` and `filepath.Join` on a system whose
 * separator is `/`, and the resolver's `resolveAbsolutePath`
 * (import_resolver.go:129-143).
 *
 * A path is a rooted flag plus a list of segments. Cleaning drops empty and
 * `.` segments, lets each `..` cancel the segment before it, and drops a `..`
 * that would climb above the root; what remains is rendered back with `/`.
 */
module Paths {
  import Text

  /** The path starts at the root. */
  predicate Rooted(p: string) {
    |p| > 0 && p[0] == '/'
  }

  /** strings.Split(p, "/"): the text between separators, empty pieces included. */
  function Split(p: string): (segs: seq<string>)
    ensures |segs| >= 1
    ensures forall i :: 0 <= i < |segs| ==> '/' !in segs[i]
  {
    if p == [] then [""]
    else if p[0] == '/' then [""] + Split(p[1..])
    else
      var rest := Split(p[1..]);
      [[p[0]] + rest[0]] + rest[1..]
  }

  /** strings.Join(segs, "/") */
  function JoinSlash(segs: seq<string>): string {
    if segs == [] then ""
    else if |segs| == 1 then segs[0]
    else segs[0] + "/" + JoinSlash(segs[1..])
  }

  /** A segment that names a directory entry: not empty, not `.` or `..`, no separator. */
  predicate PlainSegment(seg: string) {
    seg != "" && seg != "." && seg != ".." && '/' !in seg
  }

  /**
   * The shape of a cleaned path: no empty or `.` segments, `..` only as a
   * run of leading segments, and none at all when the path is rooted.
   */
  ghost predicate Canonical(segs: seq<string>, rooted: bool) {
    && (forall i :: 0 <= i < |segs| ==> segs[i] != "" && segs[i] != "." && '/' !in segs[i])
    && (forall i, j :: 0 <= i < j < |segs| && segs[j] == ".." ==> segs[i] == "..")
    && (rooted ==> forall i :: 0 <= i < |segs| ==> segs[i] != "..")
  }

  /** One segment of the cleaning pass over the segments kept so far. */
  function Step(kept: seq<string>, seg: string, rooted: bool): seq<string> {
    if seg == "" || seg == "." then kept
    else if seg == ".." then
      if |kept| > 0 && kept[|kept| - 1] != ".." then kept[..|kept| - 1]
      else if rooted then kept
      else kept + [".."]
    else kept + [seg]
  }

  /** The cleaning pass over the remaining segments. */
  function Normalize(kept: seq<string>, segs: seq<string>, rooted: bool): seq<string>
    decreases |segs|
  {
    if segs == [] then kept else Normalize(Step(kept, segs[0], rooted), segs[1..], rooted)
  }

  /** Writes segments back as a path; an empty unrooted path is `.`. */
  function Render(rooted: bool, segs: seq<string>): string {
    if rooted then "/" + JoinSlash(segs)
    else if segs == [] then "."
    else JoinSlash(segs)
  }

  /** filepath.Clean */
  function Clean(p: string): string {
    Render(Rooted(p), Normalize([], Split(p), Rooted(p)))
  }

  /** The length of the prefix of `p` up to and including its last separator. */
  function DirPrefixLength(p: string): (n: nat)
    ensures n <= |p|
    ensures n == 0 || p[n - 1] == '/'
    ensures forall k :: n <= k < |p| ==> p[k] != '/'
  {
    if p == [] then 0
    else if p[|p| - 1] == '/' then |p|
    else DirPrefixLength(p[..|p| - 1])
  }

  /** filepath.Dir: everything up to the last separator, cleaned. */
  function Dir(p: string): string {
    Clean(p[..DirPrefixLength(p)])
  }

  /** The non-empty elements, in order (filepath.Join skips empty elements). */
  function NonEmpty(elems: seq<string>): (parts: seq<string>)
    ensures forall e :: e in parts <==> e in elems && e != ""
    ensures |parts| <= |elems|
    ensures (forall i :: 0 <= i < |elems| ==> elems[i] != "") ==> parts == elems
  {
    if elems == [] then []
    else if elems[0] == "" then NonEmpty(elems[1..])
    else [elems[0]] + NonEmpty(elems[1..])
  }

  /** NonEmpty keeps a single element exactly when it is not empty. */
  lemma NonEmptySingle(e: string)
    ensures NonEmpty([e]) == (if e == "" then [] else [e])
  {
    assert [e][1..] == [];
  }

  /**
   * NonEmpty filters element by element: it distributes over concatenation,
   * so with NonEmptySingle it keeps the order of the elements it keeps.
   */
  lemma {:induction false} NonEmptyAppend(a: seq<string>, b: seq<string>)
    ensures NonEmpty(a + b) == NonEmpty(a) + NonEmpty(b)
  {
    if a != [] {
      assert (a + b)[1..] == a[1..] + b;
      NonEmptyAppend(a[1..], b);
    } else {
      assert a + b == b;
    }
  }

  /** filepath.Join: the non-empty elements joined by `/` and cleaned; "" if there are none. */
  function Join(elems: seq<string>): string {
    var parts := NonEmpty(elems);
    if parts == [] then "" else Clean(JoinSlash(parts))
  }

  /**
   * resolveAbsolutePath (import_resolver.go:129-143): an import that does not
   * start with `.` is a package-style name and is kept verbatim; any other is
   * resolved against the directory of the importing file.
   */
  function ResolveAbsolutePath(importPath: string, currentFile: string): string {
    if !Text.HasPrefix(importPath, ".") then importPath
    else Clean(Join([Dir(currentFile), importPath]))
  }

  /** The segments a cleaned path is made of (`.` and `/` have none). */
  function Segments(p: string): seq<string> {
    if p == "." || p == "/" then []
    else if Rooted(p) then Split(p)[1..]
    else Split(p)
  }

  // ---------------------------------------------------------------------------
  // Splitting and joining

  lemma {:induction false} SplitNoSlash(a: string)
    requires '/' !in a
    ensures Split(a) == [a]
    decreases |a|
  {
    if a != [] {
      SplitNoSlash(a[1..]);
      assert [a[0]] + a[1..] == a;
    }
  }

  lemma {:induction false} SplitAfterSegment(a: string, t: string)
    requires '/' !in a
    ensures Split(a + "/" + t) == [a] + Split(t)
    decreases |a|
  {
    if a == [] {
      assert a + "/" + t == "/" + t;
      assert ("/" + t)[1..] == t;
    } else {
      assert (a + "/" + t)[1..] == a[1..] + "/" + t;
      SplitAfterSegment(a[1..], t);
      assert [a[0]] + a[1..] == a;
    }
  }

  /** Splitting undoes joining, for segments without separators. */
  lemma {:induction false} SplitJoin(segs: seq<string>)
    requires |segs| >= 1
    requires forall i :: 0 <= i < |segs| ==> '/' !in segs[i]
    ensures Split(JoinSlash(segs)) == segs
    decreases |segs|
  {
    if |segs| == 1 {
      SplitNoSlash(segs[0]);
    } else {
      SplitJoin(segs[1..]);
      SplitAfterSegment(segs[0], JoinSlash(segs[1..]));
      assert [segs[0]] + segs[1..] == segs;
    }
  }

  /** A joined list of segments begins with its first segment. */
  lemma {:induction false} JoinSlashStart(segs: seq<string>)
    requires |segs| >= 1
    ensures |JoinSlash(segs)| >= |segs[0]|
    ensures JoinSlash(segs)[..|segs[0]|] == segs[0]
    ensures |segs| > 1 ==> |JoinSlash(segs)| > |segs[0]|
  {
    if |segs| > 1 {
      assert JoinSlash(segs) == segs[0] + ("/" + JoinSlash(segs[1..]));
    }
  }

  /** Joining a concatenation puts one separator between the two halves. */
  lemma {:induction false} JoinSlashAppend(a: seq<string>, b: seq<string>)
    requires |a| >= 1 && |b| >= 1
    ensures JoinSlash(a + b) == JoinSlash(a) + "/" + JoinSlash(b)
    decreases |a|
  {
    if |a| == 1 {
      assert (a + b)[1..] == b;
    } else {
      assert (a + b)[1..] == a[1..] + b;
      JoinSlashAppend(a[1..], b);
    }
  }

  // ---------------------------------------------------------------------------
  // The cleaning pass

  lemma StepCanonical(kept: seq<string>, seg: string, rooted: bool)
    requires Canonical(kept, rooted) && '/' !in seg
    ensures Canonical(Step(kept, seg, rooted), rooted)
  {
    var r := Step(kept, seg, rooted);
    if seg == ".." && !(|kept| > 0 && kept[|kept| - 1] != "..") && !rooted {
      forall i, j | 0 <= i < j < |r| && r[j] == ".." ensures r[i] == ".." {
        if j < |kept| {
        } else if |kept| > 0 {
          assert kept[|kept| - 1] == "..";
        }
      }
    } else if seg != "" && seg != "." && seg != ".." {
      forall i, j | 0 <= i < j < |r| && r[j] == ".." ensures r[i] == ".." {
        assert j < |kept|;
      }
    }
  }

  /** Cleaning always yields canonical segments. */
  lemma {:induction false} NormalizeCanonical(kept: seq<string>, segs: seq<string>, rooted: bool)
    requires Canonical(kept, rooted)
    requires forall i :: 0 <= i < |segs| ==> '/' !in segs[i]
    ensures Canonical(Normalize(kept, segs, rooted), rooted)
    decreases |segs|
  {
    if segs != [] {
      StepCanonical(kept, segs[0], rooted);
      NormalizeCanonical(Step(kept, segs[0], rooted), segs[1..], rooted);
    }
  }

  /** Cleaning leaves canonical segments as they are. */
  lemma {:induction false} NormalizeKeepsCanonical(kept: seq<string>, segs: seq<string>, rooted: bool)
    requires Canonical(kept + segs, rooted)
    ensures Normalize(kept, segs, rooted) == kept + segs
    decreases |segs|
  {
    if segs != [] {
      var all := kept + segs;
      assert all[|kept|] == segs[0];
      if segs[0] == ".." {
        assert forall i :: 0 <= i < |kept| ==> all[i] == kept[i];
        assert |kept| > 0 ==> kept[|kept| - 1] == "..";
      }
      assert Step(kept, segs[0], rooted) == kept + [segs[0]];
      assert (kept + [segs[0]]) + segs[1..] == all;
      NormalizeKeepsCanonical(kept + [segs[0]], segs[1..], rooted);
    }
  }

  /** Rendering canonical segments is undone by Rooted and Segments. */
  lemma RenderSegments(rooted: bool, segs: seq<string>)
    requires Canonical(segs, rooted)
    ensures Rooted(Render(rooted, segs)) == rooted
    ensures Segments(Render(rooted, segs)) == segs
  {
    var q := Render(rooted, segs);
    if segs != [] {
      JoinSlashStart(segs);
      SplitJoin(segs);
      var body := JoinSlash(segs);
      assert body[0] == segs[0][0];
      assert |body| >= 2 || body == segs[0];
      if rooted {
        assert q == "/" + body;
        assert q[1..] == body;
        assert Split(q) == [""] + Split(body);
      }
    }
  }

  /** Cleaning a rendering of canonical segments changes nothing. */
  lemma CleanFixesRender(rooted: bool, segs: seq<string>)
    requires Canonical(segs, rooted)
    ensures Clean(Render(rooted, segs)) == Render(rooted, segs)
  {
    var q := Render(rooted, segs);
    RenderSegments(rooted, segs);
    if segs == [] {
      if rooted {
        assert q == "/";
        assert Split(q) == [""] + Split("");
      } else {
        assert q == ".";
        SplitNoSlash(".");
      }
    } else {
      SplitJoin(segs);
      if rooted {
        assert q[1..] == JoinSlash(segs);
        assert Split(q) == [""] + segs;
        assert Normalize([], Split(q), true) == Normalize([], segs, true);
      }
      assert [] + segs == segs;
      NormalizeKeepsCanonical([], segs, rooted);
    }
  }

  /** Splitting at a separator splits the two sides independently. */
  lemma {:induction false} SplitConcat(x: string, y: string)
    ensures Split(x + "/" + y) == Split(x) + Split(y)
    decreases |x|
  {
    if x == [] {
      assert x + "/" + y == "/" + y;
      assert ("/" + y)[1..] == y;
    } else {
      assert (x + "/" + y)[1..] == x[1..] + "/" + y;
      SplitConcat(x[1..], y);
    }
  }

  /** The cleaning pass over two lists is the pass over the first, continued over the second. */
  lemma {:induction false} NormalizeAppend(kept: seq<string>, a: seq<string>, b: seq<string>, rooted: bool)
    ensures Normalize(kept, a + b, rooted) == Normalize(Normalize(kept, a, rooted), b, rooted)
    decreases |a|
  {
    if a == [] {
      assert a + b == b;
    } else {
      assert (a + b)[0] == a[0];
      assert (a + b)[1..] == a[1..] + b;
      NormalizeAppend(Step(kept, a[0], rooted), a[1..], b, rooted);
    }
  }

  /** The cleaning pass recovers the segments of a rendering of canonical segments. */
  lemma NormalizeRender(rooted: bool, segs: seq<string>)
    requires Canonical(segs, rooted)
    ensures Normalize([], Split(Render(rooted, segs)), rooted) == segs
  {
    var q := Render(rooted, segs);
    if segs == [] {
      if rooted {
        assert q == "/";
        assert Split(q) == [""] + Split("");
      } else {
        assert q == ".";
        SplitNoSlash(".");
      }
    } else {
      SplitJoin(segs);
      if rooted {
        assert q[1..] == JoinSlash(segs);
        assert Split(q) == [""] + segs;
        assert Normalize([], Split(q), true) == Normalize([], segs, true);
      }
      assert [] + segs == segs;
      NormalizeKeepsCanonical([], segs, rooted);
    }
  }

  /** Cleaning a clean path with more text appended continues the pass from its segments. */
  lemma CleanAppend(rooted: bool, segs: seq<string>, y: string)
    requires Canonical(segs, rooted)
    ensures Clean(Render(rooted, segs) + "/" + y) == Render(rooted, Normalize(segs, Split(y), rooted))
  {
    var x := Render(rooted, segs);
    RenderSegments(rooted, segs);
    assert |x| > 0;
    assert Rooted(x + "/" + y) == rooted;
    SplitConcat(x, y);
    NormalizeAppend([], Split(x), Split(y), rooted);
    NormalizeRender(rooted, segs);
  }

  lemma {:induction false} DirPrefixOfChild(x: string, f: string)
    requires '/' !in f
    ensures DirPrefixLength(x + "/" + f) == |x| + 1
    decreases |f|
  {
    if f != [] {
      var p := x + "/" + f;
      assert p[..|p| - 1] == x + "/" + f[..|f| - 1];
      DirPrefixOfChild(x, f[..|f| - 1]);
    }
  }

  /** The directory of a file directly under the root is the root. */
  lemma DirOfRootChild(name: string)
    requires PlainSegment(name)
    ensures Dir("/" + name) == "/"
  {
    var q := "/" + name;
    assert q == "" + "/" + name;
    DirPrefixOfChild("", name);
    assert q[..1] == "/" == Render(true, []);
    CleanFixesRender(true, []);
  }

  /** The directory of a bare file name is `.`. */
  lemma DirOfBareName(name: string)
    requires PlainSegment(name)
    ensures Dir(name) == "."
  {
    assert DirPrefixLength(name) == 0;
    assert name[..0] == "";
    assert Split("") == [""];
  }

  /** The directory of a file under a non-empty directory is that directory. */
  lemma DirOfNestedChild(rooted: bool, segs: seq<string>, name: string)
    requires Canonical(segs, rooted) && PlainSegment(name) && segs != []
    ensures Dir(Render(rooted, segs + [name])) == Render(rooted, segs)
  {
    var q := Render(rooted, segs + [name]);
    JoinSlashAppend(segs, [name]);
    var x := Render(rooted, segs);
    assert q == x + "/" + name;
    DirPrefixOfChild(x, name);
    assert q[..|x| + 1] == x + "/" + "";
    CleanAppend(rooted, segs, "");
    assert Split("") == [""];
  }

  /** The directory of a file is the path of its parent. */
  lemma DirOfChild(rooted: bool, segs: seq<string>, name: string)
    requires Canonical(segs, rooted) && PlainSegment(name)
    ensures Dir(Render(rooted, segs + [name])) == Render(rooted, segs)
  {
    if segs == [] {
      assert segs + [name] == [name];
      if rooted {
        DirOfRootChild(name);
      } else {
        DirOfBareName(name);
      }
    } else {
      DirOfNestedChild(rooted, segs, name);
    }
  }

  lemma CanonicalExtend(segs: seq<string>, rest: seq<string>, rooted: bool)
    requires Canonical(segs, rooted)
    requires forall i :: 0 <= i < |rest| ==> PlainSegment(rest[i])
    ensures Canonical(segs + rest, rooted)
  {
    var all := segs + rest;
    forall i, j | 0 <= i < j < |all| && all[j] == ".." ensures all[i] == ".." {
      assert j < |segs|;
    }
  }

  /** The separator-free, joined form of relative import `prefix/rest...` splits into `prefix` then `rest`. */
  lemma SplitRelative(prefix: string, rest: seq<string>)
    requires '/' !in prefix && |rest| >= 1
    requires forall i :: 0 <= i < |rest| ==> PlainSegment(rest[i])
    ensures Split(prefix + "/" + JoinSlash(rest)) == [prefix] + rest
  {
    SplitAfterSegment(prefix, JoinSlash(rest));
    SplitJoin(rest);
  }

  lemma NormalizeSkip(kept: seq<string>, seg: string, rest: seq<string>, rooted: bool)
    ensures Normalize(kept, [seg] + rest, rooted) == Normalize(Step(kept, seg, rooted), rest, rooted)
  {
    assert ([seg] + rest)[1..] == rest;
  }

  /** Joining two non-empty elements puts one separator between them and cleans. */
  lemma JoinTwo(a: string, b: string)
    requires a != "" && b != ""
    ensures Join([a, b]) == Clean(a + "/" + b)
  {
    assert NonEmpty([a, b]) == [a] + NonEmpty([b]) == [a, b];
    assert JoinSlash([a, b]) == a + "/" + b;
  }

  /** Appending segments that keep a clean path clean needs no cleaning beyond writing them out. */
  lemma CleanAppendCanonical(rooted: bool, segs: seq<string>, y: string)
    requires Canonical(segs, rooted) && Canonical(segs + Split(y), rooted)
    ensures Clean(Render(rooted, segs) + "/" + y) == Render(rooted, segs + Split(y))
  {
    CleanAppend(rooted, segs, y);
    NormalizeKeepsCanonical(segs, Split(y), rooted);
  }

  /** Joining three non-empty elements puts a separator between each two and cleans. */
  lemma JoinThree(a: string, b: string, c: string)
    requires a != "" && b != "" && c != ""
    ensures Join([a, b, c]) == Clean(a + "/" + (b + "/" + c))
  {
    assert [a, b, c][1..] == [b, c];
    assert NonEmpty([b, c]) == [b] + NonEmpty([c]) == [b, c];
    assert NonEmpty([a, b, c]) == [a, b, c];
    assert JoinSlash([b, c]) == b + "/" + c;
    assert JoinSlash([a, b, c]) == a + "/" + JoinSlash([b, c]);
  }

  /**
   * A relative import from a file in directory `segs` continues the cleaning
   * pass from `segs` over the import's own segments.
   */
  lemma ResolveRelative(rooted: bool, segs: seq<string>, name: string, importPath: string)
    requires Canonical(segs, rooted) && PlainSegment(name) && Text.HasPrefix(importPath, ".")
    ensures ResolveAbsolutePath(importPath, Render(rooted, segs + [name]))
         == Clean(Render(rooted, Normalize(segs, Split(importPath), rooted)))
  {
    DirOfChild(rooted, segs, name);
    var d := Render(rooted, segs);
    RenderSegments(rooted, segs);
    JoinTwo(d, importPath);
    CleanAppend(rooted, segs, importPath);
  }

  /** Cleaning `./rest` after canonical segments appends `rest`. */
  lemma NormalizeDotSlash(segs: seq<string>, rest: seq<string>, rooted: bool)
    requires Canonical(segs, rooted)
    requires |rest| >= 1 && forall i :: 0 <= i < |rest| ==> PlainSegment(rest[i])
    ensures Normalize(segs, Split("./" + JoinSlash(rest)), rooted) == segs + rest
  {
    assert "./" + JoinSlash(rest) == "." + "/" + JoinSlash(rest);
    SplitRelative(".", rest);
    NormalizeSkip(segs, ".", rest, rooted);
    CanonicalExtend(segs, rest, rooted);
    NormalizeKeepsCanonical(segs, rest, rooted);
  }

  /** Cleaning `../rest` after canonical segments ending in `parent` replaces `parent` by `rest`. */
  lemma NormalizeDotDot(segs: seq<string>, parent: string, rest: seq<string>, rooted: bool)
    requires Canonical(segs, rooted) && PlainSegment(parent)
    requires |rest| >= 1 && forall i :: 0 <= i < |rest| ==> PlainSegment(rest[i])
    ensures Normalize(segs + [parent], Split("../" + JoinSlash(rest)), rooted) == segs + rest
  {
    var up := segs + [parent];
    assert "../" + JoinSlash(rest) == ".." + "/" + JoinSlash(rest);
    SplitRelative("..", rest);
    assert up[..|up| - 1] == segs;
    assert Step(up, "..", rooted) == segs;
    NormalizeSkip(up, "..", rest, rooted);
    CanonicalExtend(segs, rest, rooted);
    NormalizeKeepsCanonical(segs, rest, rooted);
  }

  /**
   * `./rest` imported from file `name` in directory `segs` resolves to
   * `segs/rest`.
   */
  lemma ResolveDotSlash(rooted: bool, segs: seq<string>, name: string, rest: seq<string>)
    requires Canonical(segs, rooted) && PlainSegment(name)
    requires |rest| >= 1 && forall i :: 0 <= i < |rest| ==> PlainSegment(rest[i])
    ensures ResolveAbsolutePath("./" + JoinSlash(rest), Render(rooted, segs + [name])) == Render(rooted, segs + rest)
  {
    var imp := "./" + JoinSlash(rest);
    assert imp[0] == '.';
    ResolveRelative(rooted, segs, name, imp);
    NormalizeDotSlash(segs, rest, rooted);
    CanonicalExtend(segs, rest, rooted);
    CleanFixesRender(rooted, segs + rest);
  }

  /** ResolveRelative for a file `name` in directory `segs/parent`. */
  lemma ResolveFromParent(rooted: bool, segs: seq<string>, parent: string, name: string, importPath: string)
    requires Canonical(segs, rooted) && PlainSegment(parent) && PlainSegment(name)
    requires Text.HasPrefix(importPath, ".")
    ensures ResolveAbsolutePath(importPath, Render(rooted, segs + [parent, name]))
         == Clean(Render(rooted, Normalize(segs + [parent], Split(importPath), rooted)))
  {
    var up := segs + [parent];
    CanonicalExtend(segs, [parent], rooted);
    assert segs + [parent, name] == up + [name];
    ResolveRelative(rooted, up, name, importPath);
  }

  /**
   * `../rest` imported from file `name` in directory `segs/parent` resolves
   * to `segs/rest`.
   */
  lemma ResolveDotDot(rooted: bool, segs: seq<string>, parent: string, name: string, rest: seq<string>)
    requires Canonical(segs, rooted) && PlainSegment(parent) && PlainSegment(name)
    requires |rest| >= 1 && forall i :: 0 <= i < |rest| ==> PlainSegment(rest[i])
    ensures ResolveAbsolutePath("../" + JoinSlash(rest), Render(rooted, segs + [parent, name])) == Render(rooted, segs + rest)
  {
    var imp := "../" + JoinSlash(rest);
    assert imp[0] == '.';
    ResolveFromParent(rooted, segs, parent, name, imp);
    NormalizeDotDot(segs, parent, rest, rooted);
    CanonicalExtend(segs, rest, rooted);
    CleanFixesRender(rooted, segs + rest);
  }

  // ---------------------------------------------------------------------------
  // What the resolver and the cache rely on

  /**
   * A cleaned path is canonical: its segments contain no `.` and no empty
   * segment, and `..` occurs only as leading segments of an unrooted path.
   */
  lemma CleanIsCanonical(p: string)
    ensures Canonical(Segments(Clean(p)), Rooted(Clean(p)))
    ensures Render(Rooted(Clean(p)), Segments(Clean(p))) == Clean(p)
  {
    var rooted := Rooted(p);
    var segs := Normalize([], Split(p), rooted);
    NormalizeCanonical([], Split(p), rooted);
    RenderSegments(rooted, segs);
  }

  /** Cleaning is idempotent. */
  lemma CleanIdempotent(p: string)
    ensures Clean(Clean(p)) == Clean(p)
  {
    var rooted := Rooted(p);
    NormalizeCanonical([], Split(p), rooted);
    CleanFixesRender(rooted, Normalize([], Split(p), rooted));
  }

  /** A rooted path of plain segments is already clean. */
  lemma PlainPathIsClean(segs: seq<string>)
    requires forall i :: 0 <= i < |segs| ==> PlainSegment(segs[i])
    ensures Clean("/" + JoinSlash(segs)) == "/" + JoinSlash(segs)
  {
    CleanFixesRender(true, segs);
  }

  /**
   * resolveAbsolutePath keeps a package-style import verbatim and turns a
   * relative one into a clean path.
   */
  lemma ResolvedPathShape(importPath: string, currentFile: string)
    ensures !Text.HasPrefix(importPath, ".") ==> ResolveAbsolutePath(importPath, currentFile) == importPath
    ensures Text.HasPrefix(importPath, ".") ==>
      var r := ResolveAbsolutePath(importPath, currentFile);
      Clean(r) == r && Canonical(Segments(r), Rooted(r))
  {
    if Text.HasPrefix(importPath, ".") {
      var j := Join([Dir(currentFile), importPath]);
      CleanIdempotent(j);
      CleanIsCanonical(j);
    }
  }
}
