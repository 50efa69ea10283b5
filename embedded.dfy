/**
 * The compiler builds shipped inside the package (embedded.go): a fixed
 * table from version to soljson.js script, a lookup, and the list of its
 * versions.
 */
module Embedded {
  /**
   * The embedded scripts. Their contents do not matter to the model; each
   * stands for the file embedded under that version (embedded.go:10-14).
   */
  const Solc0830Binary: string := "soljson-v0.8.30+commit.73712a01.js"
  const Solc0821Binary: string := "soljson-v0.8.21+commit.d9974bed.js"

  /** embeddedVersions (embedded.go:17-20); a constant, so no operation can change it. */
  const EmbeddedVersions: map<string, string> := map["0.8.30" := Solc0830Binary, "0.8.21" := Solc0821Binary]

  /**
   * getEmbeddedBinary (embedded.go:23-26): the script for a version and
   * whether the version is embedded; the empty string when it is not.
   */
  function GetEmbeddedBinary(version: string): (r: (string, bool))
    ensures r.1 <==> version in EmbeddedVersions
    ensures r.1 ==> r.0 == EmbeddedVersions[version]
    ensures !r.1 ==> r.0 == ""
  {
    if version in EmbeddedVersions then (EmbeddedVersions[version], true) else ("", false)
  }

  /** The table holds exactly the two versions 0.8.30 and 0.8.21. */
  lemma EmbeddedTable()
    ensures EmbeddedVersions.Keys == {"0.8.30", "0.8.21"}
    ensures |EmbeddedVersions| == 2
    ensures !GetEmbeddedBinary("0.7.6").1
  {
    assert "0.8.30" != "0.8.21" by {
      assert "0.8.30"[4] != "0.8.21"[4];
    }
    assert EmbeddedVersions.Keys == {"0.8.30", "0.8.21"};
  }

  /**
   * GetEmbeddedVersions (embedded.go:29-35): every version of the table,
   * each once, in the table's iteration order (left open here). A version
   * is listed exactly when the lookup reports it embedded.
   */
  method GetEmbeddedVersions() returns (versions: seq<string>)
    ensures |versions| == |EmbeddedVersions|
    ensures forall v :: v in versions <==> GetEmbeddedBinary(v).1
    ensures forall i, j :: 0 <= i < j < |versions| ==> versions[i] != versions[j]
  {
    versions := [];
    var remaining := EmbeddedVersions.Keys;
    while remaining != {}
      invariant remaining <= EmbeddedVersions.Keys
      invariant forall v :: v in versions <==> v in EmbeddedVersions && v !in remaining
      invariant forall i, j :: 0 <= i < j < |versions| ==> versions[i] != versions[j]
      invariant |versions| + |remaining| == |EmbeddedVersions|
      decreases remaining
    {
      var version :| version in remaining;
      versions := versions + [version];
      remaining := remaining - {version};
    }
  }
}
