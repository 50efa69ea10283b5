/**
 * The compiler session (solc.go): a binding to the soljson.js compiler
 * running in a JavaScript engine. A session binds the version, license and
 * compile entry points of the script when it is created, answers queries
 * until it is closed, and releases its engine handles exactly once.
 *
 * The engine is foreign: what it does with a script is a parameter of the
 * model (the Engine datatype), and the JSON codec likewise (Codec). Ghost
 * counters record how often the session calls into the engine and how many
 * engine handles it released.
 */
module Solc {
  import opened Wrappers
  import opened SolcTypes
  import Text
  import ImportResolver

  // ---------------------------------------------------------------------------
  // Choosing the entry points

  /**
   * The name of the version entry point (solc.go:112-115): newer builds
   * export `solidity_version`, older ones only `version`.
   */
  function VersionEntryPoint(script: string): (name: string)
    ensures name == "solidity_version" <==> Text.Contains(script, "_solidity_version")
    ensures name == "version" <==> !Text.Contains(script, "_solidity_version")
  {
    if Text.Contains(script, "_solidity_version") then "solidity_version" else "version"
  }

  /**
   * The name of the license entry point, if the script has one
   * (solc.go:127-145): `solidity_license` first, then `license`.
   */
  function LicenseEntryPoint(script: string): (name: Option<string>)
    ensures name == Some("solidity_license") <==> Text.Contains(script, "_solidity_license")
    ensures name == Some("license") <==>
      !Text.Contains(script, "_solidity_license") && Text.Contains(script, "_license")
  {
    if Text.Contains(script, "_solidity_license") then Some("solidity_license")
    else if Text.Contains(script, "_license") then Some("license")
    else None
  }

  /** A script has a license entry point exactly when it mentions `_license`. */
  lemma LicenseBoundIff(script: string)
    ensures LicenseEntryPoint(script).Some? <==> Text.Contains(script, "_license")
  {
    if Text.Contains(script, "_solidity_license") {
      assert "_solidity_license" == "_solidity" + "_license";
      Text.ContainsSuffix(script, "_solidity", "_license");
    }
  }

  // ---------------------------------------------------------------------------
  // The foreign parts

  /**
   * How the engine behaves once it has run a given soljson.js script: which
   * of the steps of solc.go:89-181 succeed, what each bound entry point
   * answers (None when the call throws), and what the compile entry point
   * answers for a JSON input.
   */
  datatype Engine = Engine(
    scriptRuns: bool,
    debugLogSet: bool,
    wraps: string -> bool,
    wrapperReady: bool,
    answer: string -> Option<string>,
    compileBound: bool,
    compile: string -> Option<string>)

  /** The JSON codec: encoding the input's table of sources and decoding the compiler's output. */
  datatype Codec = Codec(
    marshal: Option<map<string, string>> -> Option<string>,
    unmarshal: string -> Option<Output>)

  /** The compiler's output, kept as the document it decodes from. */
  datatype Output = Output(document: string)

  /** The step of init (solc.go:89-181) that failed. */
  datatype InitStage =
    | ScriptFailed
    | DebugLogFailed
    | VersionBindFailed
    | LicenseBindFailed
    | WrapperFailed

  datatype SolcError =
    | EmptyScript
    | InitFailed(stage: InitStage)
    | NilInput
    | MarshalFailed
    | SessionClosed
    | ImportFailed(cause: ImportResolver.ResolveError)
    | RemarshalFailed
    | CompileUnavailable
    | CompilationFailed
    | UnmarshalFailed

  /** Everything init needs from the engine succeeds for this script. */
  predicate InitSucceeds(script: string, engine: Engine) {
    && engine.scriptRuns
    && engine.debugLogSet
    && engine.wraps(VersionEntryPoint(script))
    && (LicenseEntryPoint(script).Some? ==> engine.wraps(LicenseEntryPoint(script).value))
    && engine.wrapperReady
  }

  /** The options ask for import resolution: both the options and their callback are present (solc.go:270). */
  predicate ResolvesImports(options: Option<CompileOptions>) {
    options.Some? && options.value.importCallback.Some?
  }

  /**
   * The last steps of CompileWithOptions (solc.go:286-314) for the encoded
   * input `json`: the compile entry point must be bound, its call must not
   * throw, and its answer must decode.
   */
  function Compiled(engine: Engine, codec: Codec, json: string): (r: Result<Output, SolcError>)
    ensures r.Success? <==>
      engine.compileBound && engine.compile(json).Some? && codec.unmarshal(engine.compile(json).value).Some?
    ensures r.Success? ==> r.value == codec.unmarshal(engine.compile(json).value).value
    ensures r == Failure(CompileUnavailable) <==> !engine.compileBound
    ensures r == Failure(CompilationFailed) <==> engine.compileBound && engine.compile(json).None?
    ensures r == Failure(UnmarshalFailed) <==>
      engine.compileBound && engine.compile(json).Some? && codec.unmarshal(engine.compile(json).value).None?
  {
    if !engine.compileBound then Failure(CompileUnavailable)
    else if engine.compile(json).None? then Failure(CompilationFailed)
    else if codec.unmarshal(engine.compile(json).value).None? then Failure(UnmarshalFailed)
    else Success(codec.unmarshal(engine.compile(json).value).value)
  }

  // ---------------------------------------------------------------------------
  // The session

  class Session {
    const script: string
    const engine: Engine
    /** The engine handles: the isolate and its context are present until released. */
    var hasIsolate: bool
    var hasCtx: bool
    /** The bound entry points, by name; None when nothing is bound. */
    var version: Option<string>
    var license: Option<string>
    var closed: bool
    /** How many times an entry point of the compiler was called. */
    ghost var engineCalls: nat
    /** How many engine handles were released. */
    ghost var releases: nat

    /** The session newBaseSolc builds before init (solc.go:69-76): both handles, nothing bound. */
    constructor(script: string, engine: Engine)
      ensures this.script == script && this.engine == engine
      ensures hasIsolate && hasCtx && version.None? && license.None? && !closed
      ensures engineCalls == 0 && releases == 0
    {
      this.script := script;
      this.engine := engine;
      hasIsolate := true;
      hasCtx := true;
      version := None;
      license := None;
      closed := false;
      engineCalls := 0;
      releases := 0;
    }

    /**
     * A session as newBaseSolc returns it and Close leaves it: the handles
     * are held exactly while it is open, and the entry points the script
     * calls for are bound.
     */
    ghost predicate Valid()
      reads this
    {
      && (closed ==> !hasIsolate && !hasCtx)
      && (!closed ==> hasIsolate && hasCtx)
      && version == Some(VersionEntryPoint(script))
      && license == LicenseEntryPoint(script)
    }

    /** Only the ghost call counter may have changed. */
    twostate predicate Same()
      reads this
    {
      && hasIsolate == old(hasIsolate) && hasCtx == old(hasCtx)
      && version == old(version) && license == old(license)
      && closed == old(closed) && releases == old(releases)
    }

    /**
     * init (solc.go:89-181): run the script, then bind the entry points,
     * stopping at the first step that fails. Bindings made before a
     * failure stay in place, as in the source.
     */
    method Init() returns (failed: Option<InitStage>)
      requires version.None? && license.None?
      modifies this
      ensures failed.None? <==> InitSucceeds(script, engine)
      ensures failed == Some(ScriptFailed) <==> !engine.scriptRuns
      ensures failed == Some(DebugLogFailed) <==> engine.scriptRuns && !engine.debugLogSet
      ensures failed == Some(VersionBindFailed) <==>
        engine.scriptRuns && engine.debugLogSet && !engine.wraps(VersionEntryPoint(script))
      ensures failed == Some(LicenseBindFailed) <==>
        && engine.scriptRuns && engine.debugLogSet && engine.wraps(VersionEntryPoint(script))
        && LicenseEntryPoint(script).Some? && !engine.wraps(LicenseEntryPoint(script).value)
      ensures failed == Some(WrapperFailed) <==>
        && engine.scriptRuns && engine.debugLogSet && engine.wraps(VersionEntryPoint(script))
        && (LicenseEntryPoint(script).Some? ==> engine.wraps(LicenseEntryPoint(script).value))
        && !engine.wrapperReady
      ensures failed.None? ==> version == Some(VersionEntryPoint(script)) && license == LicenseEntryPoint(script)
      ensures hasIsolate == old(hasIsolate) && hasCtx == old(hasCtx) && closed == old(closed)
      ensures engineCalls == old(engineCalls) && releases == old(releases)
    {
      if !engine.scriptRuns {
        return Some(ScriptFailed);
      }
      if !engine.debugLogSet {
        return Some(DebugLogFailed);
      }
      var versionName := VersionEntryPoint(script);
      if !engine.wraps(versionName) {
        return Some(VersionBindFailed);
      }
      version := Some(versionName);
      var licenseName := LicenseEntryPoint(script);
      if licenseName.Some? {
        if !engine.wraps(licenseName.value) {
          return Some(LicenseBindFailed);
        }
        license := licenseName;
      }
      if !engine.wrapperReady {
        return Some(WrapperFailed);
      }
      return None;
    }

    /** cleanup (solc.go:198-207): release each handle still held, once. */
    method Cleanup()
      modifies this
      ensures !hasIsolate && !hasCtx
      ensures releases == old(releases) + (if old(hasCtx) then 1 else 0) + (if old(hasIsolate) then 1 else 0)
      ensures version == old(version) && license == old(license) && closed == old(closed)
      ensures engineCalls == old(engineCalls)
    {
      if hasCtx {
        releases := releases + 1;
        hasCtx := false;
      }
      if hasIsolate {
        releases := releases + 1;
        hasIsolate := false;
      }
    }

    /**
     * Close (solc.go:184-195): always succeeds; the first call releases the
     * handles and marks the session closed, any later call changes nothing.
     */
    method Close() returns (err: Option<SolcError>)
      modifies this
      ensures err.None? && closed
      ensures old(Valid()) ==> Valid()
      ensures old(closed) ==> Same() && engineCalls == old(engineCalls)
      ensures version == old(version) && license == old(license)
      ensures !old(closed) ==> releases == old(releases) + (if old(hasCtx) then 1 else 0) + (if old(hasIsolate) then 1 else 0)
      ensures !old(closed) ==> !hasCtx && !hasIsolate
      ensures !old(closed) && old(Valid()) ==> releases == old(releases) + 2
      ensures engineCalls == old(engineCalls)
    {
      if closed {
        return None;
      }
      Cleanup();
      closed := true;
      return None;
    }

    /**
     * The shared body of License and Version (solc.go:210-247): the empty
     * string when nothing is bound or the session is closed, without
     * calling the engine; otherwise the entry point's answer, or the empty
     * string if the call throws.
     */
    method Answer(binding: Option<string>) returns (text: string)
      modifies this
      ensures Same()
      ensures binding.None? || closed ==> text == "" && engineCalls == old(engineCalls)
      ensures binding.Some? && !closed ==>
        text == engine.answer(binding.value).GetOr("") && engineCalls == old(engineCalls) + 1
    {
      if binding.None? {
        return "";
      }
      if closed {
        return "";
      }
      var answered := engine.answer(binding.value);
      engineCalls := engineCalls + 1;
      if answered.None? {
        return "";
      }
      return answered.value;
    }

    /** License (solc.go:210-227). */
    method License() returns (text: string)
      modifies this
      ensures Same()
      ensures license.None? || closed ==> text == "" && engineCalls == old(engineCalls)
      ensures license.Some? && !closed ==>
        text == engine.answer(license.value).GetOr("") && engineCalls == old(engineCalls) + 1
    {
      text := Answer(license);
    }

    /** Version (solc.go:230-247). */
    method Version() returns (text: string)
      modifies this
      ensures Same()
      ensures version.None? || closed ==> text == "" && engineCalls == old(engineCalls)
      ensures version.Some? && !closed ==>
        text == engine.answer(version.value).GetOr("") && engineCalls == old(engineCalls) + 1
    {
      text := Answer(version);
    }

    /**
     * CompileWithOptions (solc.go:250-315). The checks come in the order of
     * the source: a nil input and an input that does not encode are
     * refused before the closed flag is looked at; imports are resolved
     * only when a callback is given, and before the compiler is called; a
     * resolution error ends the compilation without calling the engine.
     * Past those gates the result is Compiled of the final encoding, and
     * the engine is called exactly when the compile entry point is bound.
     */
    method CompileWithOptions(input: Input?, options: Option<CompileOptions>, codec: Codec)
      returns (r: Result<Output, SolcError>)
      modifies this, input
      ensures Same()
      ensures input == null ==> r == Failure(NilInput) && engineCalls == old(engineCalls)
      ensures input != null && codec.marshal(old(input.sources)).None? ==>
        r == Failure(MarshalFailed) && input.sources == old(input.sources) && engineCalls == old(engineCalls)
      ensures input != null && codec.marshal(old(input.sources)).Some? && closed ==>
        r == Failure(SessionClosed) && input.sources == old(input.sources) && engineCalls == old(engineCalls)
      ensures input != null && codec.marshal(old(input.sources)).Some? && !closed && !ResolvesImports(options) ==>
        && input.sources == old(input.sources)
        && r == Compiled(engine, codec, codec.marshal(old(input.sources)).value)
        && engineCalls == old(engineCalls) + (if engine.compileBound then 1 else 0)
      ensures input != null && codec.marshal(old(input.sources)).Some? && !closed && ResolvesImports(options) ==>
        var callback := options.value.importCallback.value;
        && input.sources.Some?
        && ImportResolver.Extends(old(input.Sources()), input.Sources())
        && (r.Failure? && r.error.ImportFailed? ==>
              ImportResolver.Justified(old(input.Sources()), callback, r.error.cause) && engineCalls == old(engineCalls))
        && (ImportResolver.Answered(old(input.Sources()), callback) && ImportResolver.Shallow(old(input.Sources()), callback) ==>
              !(r.Failure? && r.error.ImportFailed?))
        && (!(r.Failure? && r.error.ImportFailed?) ==>
              && ImportResolver.Closed(input.Sources(), input.Sources().Keys)
              && (forall k :: k in input.Sources() <==>
                    k in old(input.Sources()) || ImportResolver.Reachable(old(input.Sources()), callback, k))
              && (forall k :: k in input.Sources() && k !in old(input.Sources()) ==>
                    callback(k).error == "" && input.Sources()[k] == callback(k).contents)
              && (codec.marshal(input.sources).None? ==> r == Failure(RemarshalFailed) && engineCalls == old(engineCalls))
              && (codec.marshal(input.sources).Some? ==>
                    && r == Compiled(engine, codec, codec.marshal(input.sources).value)
                    && engineCalls == old(engineCalls) + (if engine.compileBound then 1 else 0)))
      ensures r.Failure? && r.error.ImportFailed? ==> ResolvesImports(options) && engineCalls == old(engineCalls)
    {
      if input == null {
        return Failure(NilInput);
      }
      var encoded := codec.marshal(input.sources);
      if encoded.None? {
        return Failure(MarshalFailed);
      }
      if closed {
        return Failure(SessionClosed);
      }
      var json := encoded.value;
      if options.Some? && options.value.importCallback.Some? {
        var resolver := new ImportResolver.Resolver(options.value.importCallback.value);
        var resolved := resolver.ResolveImports(input);
        if resolved.Failure? {
          return Failure(ImportFailed(resolved.error));
        }
        var reencoded := codec.marshal(resolved.value.sources);
        if reencoded.None? {
          return Failure(RemarshalFailed);
        }
        json := reencoded.value;
      }
      if !engine.compileBound {
        return Failure(CompileUnavailable);
      }
      var compiled := engine.compile(json);
      engineCalls := engineCalls + 1;
      if compiled.None? {
        return Failure(CompilationFailed);
      }
      var output := codec.unmarshal(compiled.value);
      if output.None? {
        return Failure(UnmarshalFailed);
      }
      return Success(output.value);
    }
  }

  /**
   * newBaseSolc (solc.go:64-85): an empty script is refused before any
   * engine exists; otherwise a session is built and initialised, and if
   * init fails its handles are released and no session is returned. The
   * ghost `attempt` is the session that was built, if any.
   */
  method NewBaseSolc(script: string, engine: Engine) returns (s: Session?, err: Option<SolcError>, ghost attempt: Session?)
    ensures script == "" ==> s == null && err == Some(EmptyScript) && attempt == null
    ensures script != "" ==> attempt != null && fresh(attempt) && attempt.engineCalls == 0
    ensures script != "" && !InitSucceeds(script, engine) ==>
      s == null && err.Some? && err.value.InitFailed? && !attempt.hasCtx && !attempt.hasIsolate && attempt.releases == 2
    ensures script != "" && !engine.scriptRuns ==> err == Some(InitFailed(ScriptFailed))
    ensures script != "" && engine.scriptRuns && !engine.debugLogSet ==> err == Some(InitFailed(DebugLogFailed))
    ensures script != "" && engine.scriptRuns && engine.debugLogSet && !engine.wraps(VersionEntryPoint(script)) ==>
      err == Some(InitFailed(VersionBindFailed))
    ensures script != "" && engine.scriptRuns && engine.debugLogSet && engine.wraps(VersionEntryPoint(script)) &&
            LicenseEntryPoint(script).Some? && !engine.wraps(LicenseEntryPoint(script).value) ==>
      err == Some(InitFailed(LicenseBindFailed))
    ensures script != "" && engine.scriptRuns && engine.debugLogSet && engine.wraps(VersionEntryPoint(script)) &&
            (LicenseEntryPoint(script).Some? ==> engine.wraps(LicenseEntryPoint(script).value)) && !engine.wrapperReady ==>
      err == Some(InitFailed(WrapperFailed))
    ensures script != "" && InitSucceeds(script, engine) ==>
      s == attempt && err.None? && s.Valid() && !s.closed && s.script == script && s.engine == engine
  {
    if script == "" {
      return null, Some(EmptyScript), null;
    }
    var session := new Session(script, engine);
    attempt := session;
    var failed := session.Init();
    if failed.Some? {
      session.Cleanup();
      return null, Some(InitFailed(failed.value)), attempt;
    }
    return session, None, attempt;
  }
}
