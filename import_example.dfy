/**
 * The import walk of TestImport (solc_test.go:578-651), reduced to what the
 * resolver sees: MyToken.sol imports the ERC20 contract by a package path,
 * the callback answers that path with a file that imports nothing, and
 * every other path with an error.
 */
module ImportExample {
  import opened Wrappers
  import opened SolcTypes
  import Text
  import Paths
  import ImportScan
  import ImportResolver

  /** `@openzeppelin/contracts/token/ERC20/ERC20.sol`, written in pieces the verifier checks one by one. */
  const ErcPath: string := "@openzeppelin" + "/contracts" + "/token" + "/ERC20" + "/ERC20.sol"

  /** The import statement of MyToken.sol, the only text of it the scanner looks at here. */
  const MyToken: string := ImportScan.Program([ImportScan.Symbols("ERC20", ErcPath)], '"')

  /** The answered file; it has no `i`, so no import statement. */
  const Erc20: string := "contract" + " ERC20 {}"

  const Initial: map<string, string> := map["MyToken.sol" := MyToken]

  /** The test's callback: the ERC20 file for any path it prefixes, an error for the rest. */
  function Callback(url: string): ImportResult {
    if Text.HasPrefix(url, ErcPath) then ImportResult(Erc20, "")
    else ImportResult("", "File not found: " + url)
  }

  /** No character of `s` is `c`. */
  predicate Avoids(s: string, c: char) {
    forall j :: 0 <= j < |s| ==> s[j] != c
  }

  lemma AvoidsAppend(a: string, b: string, c: char)
    requires Avoids(a, c) && Avoids(b, c)
    ensures Avoids(a + b, c)
  {
    forall j | 0 <= j < |a + b|
      ensures (a + b)[j] != c
    {
      if j >= |a| {
        assert (a + b)[j] == b[j - |a|];
      }
    }
  }

  /** A string without the letter `i` has no import statement. */
  lemma {:induction false} NoLetterNoImports(s: string)
    requires Avoids(s, 'i')
    ensures ImportScan.ImportPaths(s) == []
  {
    Text.ContainsIffOccurs(s, "import");
    forall i: nat | i + 6 <= |s|
      ensures !Text.OccursAt(s, "import", i)
    {
      assert s[i..i + 6][0] == s[i] != 'i';
    }
    ImportScan.NoKeywordNoImports(s);
  }

  /** The ERC20 file, and the empty contents of an error answer, import nothing. */
  lemma AnswersImportNothing()
    ensures ImportScan.ImportPaths(Erc20) == [] && ImportScan.ImportPaths("") == []
  {
    assert Avoids("contract", 'i');
    assert Avoids(" ERC20 {}", 'i');
    AvoidsAppend("contract", " ERC20 {}", 'i');
    NoLetterNoImports(Erc20);
    NoLetterNoImports("");
  }

  /** ErcPath is a literal the scanner can capture: it has no quote character. */
  lemma ErcPathIsLiteral()
    ensures ImportScan.PathLiteral(ErcPath)
  {
    forall c | ImportScan.IsQuote(c)
      ensures Avoids(ErcPath, c)
    {
      assert Avoids("@openzeppelin", c);
      assert Avoids("/contracts", c);
      assert Avoids("/token", c);
      assert Avoids("/ERC20", c);
      assert Avoids("/ERC20.sol", c);
      AvoidsAppend("@openzeppelin", "/contracts", c);
      AvoidsAppend("@openzeppelin" + "/contracts", "/token", c);
      AvoidsAppend("@openzeppelin" + "/contracts" + "/token", "/ERC20", c);
      AvoidsAppend("@openzeppelin" + "/contracts" + "/token" + "/ERC20", "/ERC20.sol", c);
    }
  }

  /** MyToken.sol imports exactly ErcPath, which resolves to itself and is not MyToken.sol. */
  lemma MyTokenImportsErc20()
    ensures ImportScan.ImportPaths(MyToken) == [ErcPath]
    ensures Paths.ResolveAbsolutePath(ErcPath, "MyToken.sol") == ErcPath
    ensures ErcPath != "MyToken.sol"
  {
    ErcPathIsLiteral();
    var st := ImportScan.Symbols("ERC20", ErcPath);
    ImportScan.ExtractProgram([st], '"');
    assert ErcPath[0] == '@';
    assert !Text.HasPrefix(ErcPath, ".") by {
      assert ErcPath[..1][0] == '@';
    }
  }

  /** The only step of the import graph is MyToken.sol to ErcPath. */
  lemma {:induction false} LeadsExactly(file: string, target: string)
    requires ImportResolver.Leads(Initial, Callback, file, target)
    ensures file == "MyToken.sol" && target == ErcPath
  {
    AnswersImportNothing();
    MyTokenImportsErc20();
  }

  /** Every route is MyToken.sol, possibly followed by ErcPath. */
  lemma {:induction false} RoutesShort(files: seq<string>)
    requires ImportResolver.Route(Initial, Callback, files)
    ensures files == ["MyToken.sol"] || files == ["MyToken.sol", ErcPath]
  {
    if |files| > 1 {
      LeadsExactly(files[0], files[1]);
      if |files| > 2 {
        LeadsExactly(files[1], files[2]);
      }
    }
  }

  /** The reachable paths are MyToken.sol and ErcPath. */
  lemma ReachableExactly(k: string)
    ensures ImportResolver.Reachable(Initial, Callback, k) <==> k == "MyToken.sol" || k == ErcPath
  {
    if ImportResolver.Reachable(Initial, Callback, k) {
      var files :| ImportResolver.Route(Initial, Callback, files) && files[|files| - 1] == k;
      RoutesShort(files);
    }
    if k == "MyToken.sol" {
      assert ImportResolver.Route(Initial, Callback, [k]);
    }
    if k == ErcPath {
      ErcReachable();
    }
  }

  lemma ErcReachable()
    ensures ImportResolver.Reachable(Initial, Callback, ErcPath)
  {
    assert ImportResolver.Route(Initial, Callback, ["MyToken.sol"]);
    MyTokenImportsErc20();
    assert ImportResolver.Leads(Initial, Callback, "MyToken.sol", ErcPath) by {
      assert ImportScan.ImportPaths(ImportResolver.Content(Initial, Callback, "MyToken.sol"))[0] == ErcPath;
    }
    ImportResolver.RouteExtend(Initial, Callback, ["MyToken.sol"], ErcPath);
  }

  /** The callback answers every reachable path the table lacks. */
  lemma AllAnswered()
    ensures ImportResolver.Answered(Initial, Callback)
  {
    forall k | ImportResolver.Reachable(Initial, Callback, k) && k !in Initial
      ensures Callback(k).error == ""
    {
      ReachableExactly(k);
      assert Text.HasPrefix(ErcPath, ErcPath);
    }
  }

  /** No route is longer than two files. */
  lemma AllShallow()
    ensures ImportResolver.Shallow(Initial, Callback)
  {
    forall files | ImportResolver.Route(Initial, Callback, files)
      ensures |files| <= ImportResolver.MaxDepth + 1
    {
      RoutesShort(files);
    }
  }

  /** A table the walk completed from Initial has exactly MyToken.sol and ErcPath as keys. */
  lemma TableKeys(sources: map<string, string>)
    requires forall k :: k in sources <==> k in Initial || ImportResolver.Reachable(Initial, Callback, k)
    ensures sources.Keys == {"MyToken.sol", ErcPath}
  {
    forall k
      ensures k in sources <==> k == "MyToken.sol" || k == ErcPath
    {
      ReachableExactly(k);
    }
  }

  /** A table the walk completed from Initial holds MyToken.sol unchanged and the ERC20 answer. */
  lemma Table(sources: map<string, string>, requested: set<string>)
    requires ImportResolver.Consistent(sources, Initial, requested, Callback)
    requires forall k :: k in sources <==> k in Initial || ImportResolver.Reachable(Initial, Callback, k)
    ensures sources == map["MyToken.sol" := MyToken, ErcPath := Erc20]
  {
    TableKeys(sources);
    ImportResolver.ConsistentContent(sources, Initial, requested, Callback, ErcPath);
    ImportResolver.ConsistentContent(sources, Initial, requested, Callback, "MyToken.sol");
    assert Text.HasPrefix(ErcPath, ErcPath);
  }

  /** The walk of the test adds one path, so it invokes the callback once. */
  lemma OneCall(sources: map<string, string>, asked: set<string>)
    requires sources == map["MyToken.sol" := MyToken, ErcPath := Erc20]
    requires asked == sources.Keys - Initial.Keys
    ensures |asked| == 1
  {
    MyTokenImportsErc20();
    assert asked == {ErcPath};
  }

  /**
   * The resolution of TestImport: starting from MyToken.sol alone, the walk
   * succeeds and leaves exactly MyToken.sol and the ERC20 file in the
   * table, the latter with the callback's answer, after one callback call.
   */
  method ResolveTestImport() returns (ok: bool, sources: map<string, string>, ghost calls: nat)
    ensures ok
    ensures sources == map["MyToken.sol" := MyToken, ErcPath := Erc20]
    ensures calls == 1
  {
    var input := new Input(Some(Initial));
    var resolver := new ImportResolver.Resolver(Callback);
    AllAnswered();
    AllShallow();
    var r := resolver.ResolveImports(input);
    ok := r.Success?;
    sources := input.Sources();
    calls := resolver.calls;
    Table(sources, resolver.requested);
    OneCall(sources, resolver.asked);
  }
}
