/**
 * Getting a compiler build for a version (download.go): the embedded table
 * first, then the release catalog of the binaries site, then the on-disk
 * cache, then a download whose result is written back to the cache on a
 * best-effort basis.
 *
 * The home directory, the file system and the web are the state of a Host:
 * the files as a map from path to contents, the web as a map from URL to
 * response (a URL it lacks is a request that fails), and the directories
 * and files that cannot be created. A ghost log records every URL requested.
 */
module Download {
  import opened Wrappers
  import Paths
  import Embedded
  import Solc

  /** SOLC_BINARIES_BASE_URL (download.go:13). */
  const BaseUrl: string := "https://binaries.soliditylang.org/bin"

  /** The release catalog (download.go:87). */
  const ListUrl: string := BaseUrl + "/list.json"

  /** Where a build file is downloaded from (download.go:131). */
  function BinaryUrl(filename: string): string {
    BaseUrl + "/" + filename
  }

  datatype DownloadError =
    | NoHome
    | MkdirFailed(dir: string)
    | WriteFailed(path: string)
    | RequestFailed(url: string)
    | HttpStatus(status: int)
    | ReadFailed
    | ParseFailed
    | VersionNotFound(version: string)

  /** What NewWithVersion reports: a failure of its own steps wraps the cause with the version. */
  datatype NewError =
    | SessionFailed(failure: Solc.SolcError)
    | ResolveFailed(version: string, cause: DownloadError)
    | DownloadFailed(version: string, cause: DownloadError)

  /** A response: its status code and its body, None when reading the body fails. */
  datatype Response = Response(status: int, body: Option<string>)

  // ---------------------------------------------------------------------------
  // Cache paths

  /** getCacheDir (download.go:16-22): `<home>/solc`, when the home directory is known. */
  function CacheDir(home: Option<string>): (r: Result<string, DownloadError>)
    ensures r.Failure? <==> home.None?
    ensures r.Failure? ==> r.error == NoHome
  {
    if home.None? then Failure(NoHome) else Success(Paths.Join([home.value, "solc"]))
  }

  /** getCachedBinaryPath (download.go:25-31): `<home>/solc/<version>/soljson.js`. */
  function CachedBinaryPath(home: Option<string>, version: string): (r: Result<string, DownloadError>)
    ensures r.Failure? <==> home.None?
  {
    var dir := CacheDir(home);
    if dir.Failure? then Failure(dir.error) else Success(Paths.Join([dir.value, version, "soljson.js"]))
  }

  /** The directory ensureCacheDir creates for a version (download.go:34-41). */
  function VersionDir(home: Option<string>, version: string): (r: Result<string, DownloadError>)
    ensures r.Failure? <==> home.None?
  {
    var dir := CacheDir(home);
    if dir.Failure? then Failure(dir.error) else Success(Paths.Join([dir.value, version]))
  }

  /** Joining a clean rooted directory and one plain segment adds exactly that segment. */
  lemma JoinOneSegment(dirSegs: seq<string>, a: string)
    requires forall i :: 0 <= i < |dirSegs| ==> Paths.PlainSegment(dirSegs[i])
    requires Paths.PlainSegment(a)
    ensures Paths.Join([Paths.Render(true, dirSegs), a]) == Paths.Render(true, dirSegs + [a])
  {
    var dir := Paths.Render(true, dirSegs);
    Paths.CanonicalExtend(dirSegs, [], true);
    assert dirSegs + [] == dirSegs;
    Paths.CanonicalExtend(dirSegs, [a], true);
    Paths.JoinTwo(dir, a);
    Paths.CleanAppend(true, dirSegs, a);
    Paths.SplitNoSlash(a);
    Paths.NormalizeKeepsCanonical(dirSegs, [a], true);
  }

  /** For a clean rooted home directory, the cache directory is `solc` under it. */
  lemma CacheDirShape(segs: seq<string>)
    requires forall i :: 0 <= i < |segs| ==> Paths.PlainSegment(segs[i])
    ensures CacheDir(Some(Paths.Render(true, segs))) == Success(Paths.Render(true, segs + ["solc"]))
  {
    JoinOneSegment(segs, "solc");
  }

  /**
   * For a clean rooted home directory and a version that is a plain path
   * segment, the directory created for the version is `solc/<version>` under home.
   */
  lemma VersionDirShape(segs: seq<string>, version: string)
    requires forall i :: 0 <= i < |segs| ==> Paths.PlainSegment(segs[i])
    requires Paths.PlainSegment(version)
    ensures VersionDir(Some(Paths.Render(true, segs)), version) == Success(Paths.Render(true, segs + ["solc", version]))
  {
    CacheDirShape(segs);
    var dirSegs := segs + ["solc"];
    assert forall i :: 0 <= i < |dirSegs| ==> Paths.PlainSegment(dirSegs[i]);
    JoinOneSegment(dirSegs, version);
    assert dirSegs + [version] == segs + ["solc", version];
  }

  /** Joining a clean rooted directory and two plain segments adds exactly those two segments. */
  lemma JoinTwoSegments(dirSegs: seq<string>, a: string, b: string)
    requires forall i :: 0 <= i < |dirSegs| ==> Paths.PlainSegment(dirSegs[i])
    requires Paths.PlainSegment(a) && Paths.PlainSegment(b)
    ensures Paths.Join([Paths.Render(true, dirSegs), a, b]) == Paths.Render(true, dirSegs + [a, b])
  {
    var tail := a + "/" + b;
    Paths.JoinThree(Paths.Render(true, dirSegs), a, b);
    assert Paths.Split(tail) == [a, b] by {
      Paths.SplitAfterSegment(a, b);
      Paths.SplitNoSlash(b);
    }
    assert Paths.Canonical(dirSegs, true) by {
      Paths.CanonicalExtend(dirSegs, [], true);
      assert dirSegs + [] == dirSegs;
    }
    assert Paths.Canonical(dirSegs + [a, b], true) by {
      Paths.CanonicalExtend(dirSegs, [a, b], true);
    }
    Paths.CleanAppendCanonical(true, dirSegs, tail);
  }

  /**
   * For a clean rooted home directory and a version that is a plain path
   * segment, the cached build sits at `solc/<version>/soljson.js` under home.
   */
  lemma CachePathShape(segs: seq<string>, version: string)
    requires forall i :: 0 <= i < |segs| ==> Paths.PlainSegment(segs[i])
    requires Paths.PlainSegment(version)
    ensures CachedBinaryPath(Some(Paths.Render(true, segs)), version)
         == Success(Paths.Render(true, segs + ["solc", version, "soljson.js"]))
  {
    CacheDirShape(segs);
    var dirSegs := segs + ["solc"];
    assert forall i :: 0 <= i < |dirSegs| ==> Paths.PlainSegment(dirSegs[i]);
    assert Paths.PlainSegment("soljson.js");
    JoinTwoSegments(dirSegs, version, "soljson.js");
    assert dirSegs + [version, "soljson.js"] == segs + ["solc", version, "soljson.js"];
  }

  /** Different versions are cached at different paths. */
  lemma CachePathsDistinct(segs: seq<string>, v: string, w: string)
    requires forall i :: 0 <= i < |segs| ==> Paths.PlainSegment(segs[i])
    requires Paths.PlainSegment(v) && Paths.PlainSegment(w) && v != w
    ensures CachedBinaryPath(Some(Paths.Render(true, segs)), v) != CachedBinaryPath(Some(Paths.Render(true, segs)), w)
  {
    CachePathShape(segs, v);
    CachePathShape(segs, w);
    var sv := segs + ["solc", v, "soljson.js"];
    var sw := segs + ["solc", w, "soljson.js"];
    Paths.CanonicalExtend(segs, ["solc", v, "soljson.js"], true);
    Paths.CanonicalExtend(segs, ["solc", w, "soljson.js"], true);
    Paths.RenderSegments(true, sv);
    Paths.RenderSegments(true, sw);
    assert sv[|segs| + 1] == v && sw[|segs| + 1] == w;
  }

  // ---------------------------------------------------------------------------
  // The host: file system and web

  class Host {
    /** The user's home directory; None when it cannot be determined. */
    const home: Option<string>
    /** The readable files, by path. */
    var files: map<string, string>
    /** Directories MkdirAll cannot create, and files WriteFile cannot write. */
    const failingDirs: set<string>
    const failingWrites: set<string>
    /** What each URL answers; a request for any other URL fails. */
    const web: map<string, Response>
    /** Decoding list.json to its `releases` table, None when the JSON is malformed. */
    const parseReleases: string -> Option<map<string, string>>
    /** Every URL requested, in order. */
    ghost var requests: seq<string>

    constructor(home: Option<string>, files: map<string, string>, failingDirs: set<string>, failingWrites: set<string>,
                web: map<string, Response>, parseReleases: string -> Option<map<string, string>>)
      ensures this.home == home && this.files == files && this.failingDirs == failingDirs
      ensures this.failingWrites == failingWrites && this.web == web && this.parseReleases == parseReleases
      ensures requests == []
    {
      this.home := home;
      this.files := files;
      this.failingDirs := failingDirs;
      this.failingWrites := failingWrites;
      this.web := web;
      this.parseReleases := parseReleases;
      requests := [];
    }

    /**
     * loadCachedBinary (download.go:44-56): the cached build and whether
     * there is one. A file that exists counts, even an empty one; a missing
     * home directory or file gives the empty string and false.
     */
    function LoadCachedBinary(version: string): (r: (string, bool))
      reads this
      ensures r.1 <==> CachedBinaryPath(home, version).Success? && CachedBinaryPath(home, version).value in files
      ensures r.1 ==> r.0 == files[CachedBinaryPath(home, version).value]
      ensures !r.1 ==> r.0 == ""
    {
      var path := CachedBinaryPath(home, version);
      if path.Success? && path.value in files then (files[path.value], true) else ("", false)
    }

    /** Writing a build to the cache succeeds: the home directory is known and neither the directory nor the file fails. */
    predicate CanCache(version: string) {
      && home.Some?
      && VersionDir(home, version).value !in failingDirs
      && CachedBinaryPath(home, version).value !in failingWrites
    }

    /**
     * saveBinaryToCache (download.go:59-70): create the version's directory,
     * then write the file. After a write, loading the version gives back
     * exactly what was written; a failure leaves the files as they were.
     */
    method SaveBinaryToCache(version: string, content: string) returns (err: Option<DownloadError>)
      modifies this
      ensures requests == old(requests)
      ensures err.None? <==> CanCache(version)
      ensures err.None? ==> LoadCachedBinary(version) == (content, true)
      ensures err.None? ==> files == old(files)[CachedBinaryPath(home, version).value := content]
      ensures err.Some? ==> files == old(files)
      ensures home.None? ==> err == Some(NoHome)
    {
      var dir := VersionDir(home, version);
      if dir.Failure? {
        return Some(dir.error);
      }
      if dir.value in failingDirs {
        return Some(MkdirFailed(dir.value));
      }
      var path := CachedBinaryPath(home, version);
      if path.value in failingWrites {
        return Some(WriteFailed(path.value));
      }
      files := files[path.value := content];
      return None;
    }

    /** http.Get: the request is logged, and answered if the web has the URL. */
    method Get(url: string) returns (response: Option<Response>)
      modifies this
      ensures requests == old(requests) + [url] && files == old(files)
      ensures response.Some? <==> url in web
      ensures response.Some? ==> response.value == web[url]
    {
      requests := requests + [url];
      if url in web {
        return Some(web[url]);
      }
      return None;
    }

    /** The `releases` table list.json yields, or why it cannot be had (download.go:86-108). */
    function Releases(): (r: Result<map<string, string>, DownloadError>)
      ensures r.Success? <==>
        ListUrl in web && web[ListUrl].status == 200 && web[ListUrl].body.Some? &&
        parseReleases(web[ListUrl].body.value).Some?
      ensures r.Success? ==> Some(r.value) == parseReleases(web[ListUrl].body.value)
      ensures r == Failure(RequestFailed(ListUrl)) <==> ListUrl !in web
      ensures ListUrl in web && web[ListUrl].status != 200 ==> r == Failure(HttpStatus(web[ListUrl].status))
      ensures r == Failure(ReadFailed) <==> ListUrl in web && web[ListUrl].status == 200 && web[ListUrl].body.None?
      ensures r == Failure(ParseFailed) <==>
        ListUrl in web && web[ListUrl].status == 200 && web[ListUrl].body.Some? &&
        parseReleases(web[ListUrl].body.value).None?
    {
      if ListUrl !in web then Failure(RequestFailed(ListUrl))
      else if web[ListUrl].status != 200 then Failure(HttpStatus(web[ListUrl].status))
      else if web[ListUrl].body.None? then Failure(ReadFailed)
      else if parseReleases(web[ListUrl].body.value).None? then Failure(ParseFailed)
      else Success(parseReleases(web[ListUrl].body.value).value)
    }

    /** fetchVersionList (download.go:86-108): one request, for the catalog. */
    method FetchVersionList() returns (r: Result<map<string, string>, DownloadError>)
      modifies this
      ensures requests == old(requests) + [ListUrl] && files == old(files)
      ensures r == Releases()
    {
      var response := Get(ListUrl);
      if response.None? {
        return Failure(RequestFailed(ListUrl));
      }
      if response.value.status != 200 {
        return Failure(HttpStatus(response.value.status));
      }
      if response.value.body.None? {
        return Failure(ReadFailed);
      }
      var releases := parseReleases(response.value.body.value);
      if releases.None? {
        return Failure(ParseFailed);
      }
      return Success(releases.value);
    }

    /**
     * resolveVersion (download.go:110-122): the build file the catalog
     * names for the version; a version the catalog lacks is an error that
     * names it.
     */
    method ResolveVersion(version: string) returns (r: Result<string, DownloadError>)
      modifies this
      ensures requests == old(requests) + [ListUrl] && files == old(files)
      ensures r.Success? <==> Releases().Success? && version in Releases().value
      ensures r.Success? ==> r.value == Releases().value[version]
      ensures Releases().Success? && version !in Releases().value ==> r == Failure(VersionNotFound(version))
      ensures Releases().Failure? ==> r == Failure(Releases().error)
    {
      var releases := FetchVersionList();
      if releases.Failure? {
        return Failure(releases.error);
      }
      if version !in releases.value {
        return Failure(VersionNotFound(version));
      }
      return Success(releases.value[version]);
    }

    /** What the download of a build file yields (download.go:130-147): its body, or why there is none. */
    function Fetched(filename: string): (r: Result<string, DownloadError>)
      ensures r.Success? <==>
        BinaryUrl(filename) in web && web[BinaryUrl(filename)].status == 200 && web[BinaryUrl(filename)].body.Some?
      ensures r.Success? ==> Some(r.value) == web[BinaryUrl(filename)].body
      ensures r == Failure(RequestFailed(BinaryUrl(filename))) <==> BinaryUrl(filename) !in web
      ensures BinaryUrl(filename) in web && web[BinaryUrl(filename)].status != 200 ==>
        r == Failure(HttpStatus(web[BinaryUrl(filename)].status))
      ensures r == Failure(ReadFailed) <==>
        BinaryUrl(filename) in web && web[BinaryUrl(filename)].status == 200 && web[BinaryUrl(filename)].body.None?
    {
      var url := BinaryUrl(filename);
      if url !in web then Failure(RequestFailed(url))
      else if web[url].status != 200 then Failure(HttpStatus(web[url].status))
      else if web[url].body.None? then Failure(ReadFailed)
      else Success(web[url].body.value)
    }

    /** The build downloadSolcBinary returns (download.go:124-156): the cached one if any, else the download. */
    function Obtained(version: string, filename: string): (r: Result<string, DownloadError>)
      reads this
      ensures LoadCachedBinary(version).1 ==> r == Success(LoadCachedBinary(version).0)
      ensures !LoadCachedBinary(version).1 ==> r == Fetched(filename)
    {
      if LoadCachedBinary(version).1 then Success(LoadCachedBinary(version).0) else Fetched(filename)
    }

    /**
     * downloadSolcBinary (download.go:124-156): a cached build is returned
     * without any request; otherwise the build file is downloaded, and a
     * good download is returned whether or not it could be cached.
     */
    method DownloadSolcBinary(version: string, filename: string) returns (r: Result<string, DownloadError>)
      modifies this
      ensures r == old(Obtained(version, filename))
      ensures old(LoadCachedBinary(version)).1 ==> requests == old(requests)
      ensures !old(LoadCachedBinary(version)).1 ==> requests == old(requests) + [BinaryUrl(filename)]
      ensures r.Success? && !old(LoadCachedBinary(version)).1 && CanCache(version) ==>
        files == old(files)[CachedBinaryPath(home, version).value := r.value] && LoadCachedBinary(version) == (r.value, true)
      ensures r.Failure? || old(LoadCachedBinary(version)).1 || !CanCache(version) ==> files == old(files)
    {
      var cached := LoadCachedBinary(version);
      if cached.1 {
        return Success(cached.0);
      }
      var url := BinaryUrl(filename);
      var response := Get(url);
      if response.None? {
        return Failure(RequestFailed(url));
      }
      if response.value.status != 200 {
        return Failure(HttpStatus(response.value.status));
      }
      if response.value.body.None? {
        return Failure(ReadFailed);
      }
      var content := response.value.body.value;
      // A failed write is only reported on standard error.
      var _ := SaveBinaryToCache(version, content);
      return Success(content);
    }

    /**
     * NewWithVersion (download.go:158-176): an embedded version makes a
     * session from the embedded script without touching the web or the
     * cache; any other version is looked up in the catalog before the cache
     * is consulted, then fetched, and a failure of either step names the
     * version. `engineFor` is how the engine behaves on a given script.
     */
    method NewWithVersion(version: string, engineFor: string -> Solc.Engine) returns (s: Solc.Session?, err: Option<NewError>)
      modifies this
      ensures s != null <==> err.None?
      ensures s != null ==> fresh(s) && s.Valid() && !s.closed && s.engineCalls == 0
      ensures Embedded.GetEmbeddedBinary(version).1 ==>
        var script := Embedded.GetEmbeddedBinary(version).0;
        && requests == old(requests) && files == old(files)
        && (s != null <==> script != "" && Solc.InitSucceeds(script, engineFor(script)))
        && (s != null ==> s.script == script)
        && (err.Some? ==> err.value.SessionFailed?)
      ensures !Embedded.GetEmbeddedBinary(version).1 ==>
        |requests| > |old(requests)| && requests[|old(requests)|] == ListUrl
      ensures !Embedded.GetEmbeddedBinary(version).1 && Releases().Failure? ==>
        requests == old(requests) + [ListUrl] && files == old(files) && err == Some(ResolveFailed(version, Releases().error))
      ensures !Embedded.GetEmbeddedBinary(version).1 && Releases().Success? && version !in Releases().value ==>
        requests == old(requests) + [ListUrl] && files == old(files) && err == Some(ResolveFailed(version, VersionNotFound(version)))
      ensures !Embedded.GetEmbeddedBinary(version).1 && Releases().Success? && version in Releases().value ==>
        var got := old(Obtained(version, Releases().value[version]));
        && (got.Failure? ==> err == Some(DownloadFailed(version, got.error)))
        && (got.Success? ==> (s != null <==> got.value != "" && Solc.InitSucceeds(got.value, engineFor(got.value))))
        && (got.Success? && s == null ==> err.Some? && err.value.SessionFailed?)
        && (s != null ==> s.script == got.value)
      ensures !Embedded.GetEmbeddedBinary(version).1 && Releases().Success? && version in Releases().value &&
              !old(LoadCachedBinary(version)).1 ==>
        requests == old(requests) + [ListUrl, BinaryUrl(Releases().value[version])]
      ensures !Embedded.GetEmbeddedBinary(version).1 && Releases().Success? && version in Releases().value ==>
        var got := old(Obtained(version, Releases().value[version]));
        && (got.Success? && !old(LoadCachedBinary(version)).1 && CanCache(version) ==>
              files == old(files)[CachedBinaryPath(home, version).value := got.value])
        && (got.Failure? || old(LoadCachedBinary(version)).1 || !CanCache(version) ==> files == old(files))
      ensures !Embedded.GetEmbeddedBinary(version).1 && old(LoadCachedBinary(version)).1 ==>
        requests == old(requests) + [ListUrl] && files == old(files)
      ensures err.Some? && err.value.DownloadFailed? ==> err.value.version == version && !Embedded.GetEmbeddedBinary(version).1
    {
      var embedded := Embedded.GetEmbeddedBinary(version);
      if embedded.1 {
        s, err := NewSession(embedded.0, engineFor);
        return;
      }
      var filename := ResolveVersion(version);
      if filename.Failure? {
        return null, Some(ResolveFailed(version, filename.error));
      }
      var content := DownloadSolcBinary(version, filename.value);
      if content.Failure? {
        return null, Some(DownloadFailed(version, content.error));
      }
      s, err := NewSession(content.value, engineFor);
    }

    /** New (solc.go:59-61) on a script, with the engine that script brings up. */
    static method NewSession(script: string, engineFor: string -> Solc.Engine) returns (s: Solc.Session?, err: Option<NewError>)
      ensures s != null <==> err.None?
      ensures s != null <==> script != "" && Solc.InitSucceeds(script, engineFor(script))
      ensures s != null ==> fresh(s) && s.Valid() && !s.closed && s.engineCalls == 0 && s.script == script
      ensures script == "" ==> err == Some(SessionFailed(Solc.EmptyScript))
      ensures script != "" && !Solc.InitSucceeds(script, engineFor(script)) ==>
        err.Some? && err.value.SessionFailed? && err.value.failure.InitFailed?
    {
      var failure: Option<Solc.SolcError>;
      ghost var attempt: Solc.Session?;
      s, failure, attempt := Solc.NewBaseSolc(script, engineFor(script));
      if failure.Some? {
        return null, Some(SessionFailed(failure.value));
      }
      return s, None;
    }
  }
}
