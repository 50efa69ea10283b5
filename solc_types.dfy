/**
 * The values exchanged between a caller and the compiler binding: the
 * compiler input whose sources the import resolver completes, the import
 * callback and its result, and the compile options (solc.go:13-29).
 */
module SolcTypes {
  import opened Wrappers

  /**
   * ImportResult (solc.go:13-19): the contents of a file, or an error
   * message. A non-empty message means the import failed.
   */
  datatype ImportResult = ImportResult(contents: string, error: string)

  /**
   * ImportCallback (solc.go:21-23): resolves an import path to a result.
   * The callback is modelled as a deterministic function of the path.
   */
  type ImportCallback = string -> ImportResult

  /** CompileOptions (solc.go:25-29); a nil callback is `None`. */
  datatype CompileOptions = CompileOptions(importCallback: Option<ImportCallback>)

  /**
   * The compiler input. Only its `Sources` table is modelled: the path of
   * each source file and its content. A nil table is `None`.
   */
  class Input {
    var sources: Option<map<string, string>>

    constructor(sources: Option<map<string, string>>)
      ensures this.sources == sources
    {
      this.sources := sources;
    }

    /** The table as read by a lookup: a nil table reads as empty. */
    function Sources(): map<string, string>
      reads this
    {
      sources.GetOr(map[])
    }
  }
}
