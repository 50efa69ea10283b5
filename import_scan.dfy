/**
 * The import scanner of the resolver, `extractImports`
 * (import_resolver.go:108-126): every match of
 *
 *     import\s+(?:(?:\{[^}]*\}|\*\s+as\s+\w+|\w+)\s+from\s+)?["']([^"']+)["']
 *
 * in the source text, left to right and without overlap, contributes its
 * quoted path.
 *
 * Go's regexp engine matches with leftmost-first semantics. At a fixed start
 * position this pattern has at most one way to match: the three binding forms
 * begin with different characters (`{`, `*`, a word character), none of them
 * begins with a quote, and every repetition is followed by a character its
 * own class excludes, so a shorter repetition never lets the rest match.
 * Each repetition below therefore takes the longest run, and finding all
 * matches is a scan that takes the match at the current position and resumes
 * after it, or moves on by one character.
 *
 * Every function works on the whole text `s` and a position in it; results
 * are positions in `s`.
 */
module ImportScan {
  import opened Wrappers
  import Text

  /** The character classes of the pattern (RE2's `\s` and `\w` are ASCII-only). */
  datatype CharClass = Space | Word | NotQuote | NotCloseBrace

  predicate IsQuote(c: char) {
    c == '"' || c == '\''
  }

  predicate IsWordChar(c: char) {
    ('0' <= c <= '9') || ('A' <= c <= 'Z') || ('a' <= c <= 'z') || c == '_'
  }

  predicate InClass(c: char, k: CharClass) {
    match k
    case Space => c == ' ' || c == '\t' || c == '\n' || c == '\r' || c == 12 as char
    case Word => IsWordChar(c)
    case NotQuote => !IsQuote(c)
    case NotCloseBrace => c != '}'
  }

  /** Character `k` of `w` is written at position `p + k` of `s`. */
  predicate CharAt(s: string, w: string, p: nat, k: nat)
    requires p + |w| <= |s| && k < |w|
  {
    s[p + k] == w[k]
  }

  /**
   * The text `w` is written in `s` from position `p` on, character by
   * character. (Text.OccursAt says the same with a slice; this form lets the
   * verifier look at a character of `w` only where a proof names it.)
   */
  predicate TextAt(s: string, w: string, p: nat) {
    p + |w| <= |s| && forall k {:trigger CharAt(s, w, p, k)} :: 0 <= k < |w| ==> CharAt(s, w, p, k)
  }

  lemma TextAtOccurs(s: string, w: string, p: nat)
    ensures TextAt(s, w, p) <==> Text.OccursAt(s, w, p)
  {
    if TextAt(s, w, p) {
      forall k | 0 <= k < |w| ensures s[p..p + |w|][k] == w[k] {
        assert CharAt(s, w, p, k);
      }
      assert s[p..p + |w|] == w;
    }
    if Text.OccursAt(s, w, p) {
      forall k | 0 <= k < |w| ensures CharAt(s, w, p, k) {
        assert s[p..p + |w|][k] == s[p + k];
      }
    }
  }

  /** One character of a text in place. */
  lemma TextChar(s: string, w: string, p: nat, k: nat)
    requires TextAt(s, w, p) && k < |w|
    ensures s[p + k] == w[k]
  {
    assert CharAt(s, w, p, k);
  }

  /** The two halves of a text in place are in place one after the other. */
  lemma TextSplit(s: string, a: string, b: string, p: nat)
    requires TextAt(s, a + b, p)
    ensures TextAt(s, a, p) && TextAt(s, b, p + |a|)
  {
    forall k | 0 <= k < |a| ensures CharAt(s, a, p, k) {
      assert CharAt(s, a + b, p, k) && (a + b)[k] == a[k];
    }
    var pb := p + |a|;
    forall k | 0 <= k < |b| ensures CharAt(s, b, pb, k) {
      assert CharAt(s, a + b, p, |a| + k) && (a + b)[|a| + k] == b[k];
    }
  }

  /** The end of the longest run of class `k` that starts at `i`. */
  function RunEnd(s: string, i: nat, k: CharClass): (j: nat)
    requires i <= |s|
    ensures i <= j <= |s|
    decreases |s| - i
  {
    if i == |s| || !InClass(s[i], k) then i else RunEnd(s, i + 1, k)
  }

  /** RunEnd is the end of the longest run: every character before it is in the class, the one at it is not. */
  lemma {:induction false} RunMaximal(s: string, i: nat, k: CharClass)
    requires i <= |s|
    ensures forall x :: i <= x < RunEnd(s, i, k) ==> InClass(s[x], k)
    ensures RunEnd(s, i, k) < |s| ==> !InClass(s[RunEnd(s, i, k)], k)
    decreases |s| - i
  {
    if i < |s| && InClass(s[i], k) {
      RunMaximal(s, i + 1, k);
    }
  }

  /** A run of class `k` from `i` to `j`, not followed by another such character, ends at `j`. */
  lemma {:induction false} RunExact(s: string, i: nat, j: nat, k: CharClass)
    requires i <= j <= |s|
    requires forall x :: i <= x < j ==> InClass(s[x], k)
    requires j == |s| || !InClass(s[j], k)
    ensures RunEnd(s, i, k) == j
    decreases j - i
  {
    if i < j {
      RunExact(s, i + 1, j, k);
    }
  }

  /** `\s+` at `i`: where it ends. */
  function Spaces(s: string, i: nat): (r: Option<nat>)
    requires i <= |s|
    ensures r.Some? ==> i < r.value <= |s|
  {
    var j := RunEnd(s, i, Space);
    if j == i then None else Some(j)
  }

  /** `\{[^}]*\}|\*\s+as\s+\w+|\w+` at `i`: where it ends. */
  function Binding(s: string, i: nat): (r: Option<nat>)
    requires i <= |s|
    ensures r.Some? ==> i < r.value <= |s|
  {
    if i == |s| then None
    else if s[i] == '{' then
      var j := RunEnd(s, i + 1, NotCloseBrace);
      if j < |s| && s[j] == '}' then Some(j + 1) else None
    else if s[i] == '*' then
      match Spaces(s, i + 1)
      case None => None
      case Some(p) =>
        if !TextAt(s, "as", p) then None
        else
          match Spaces(s, p + 2)
          case None => None
          case Some(q) =>
            var w := RunEnd(s, q, Word);
            if w == q then None else Some(w)
    else if IsWordChar(s[i]) then Some(RunEnd(s, i, Word))
    else None
  }

  /** A path the scanner can capture: not empty and free of quotes. */
  predicate PathLiteral(p: string) {
    p != [] && forall j :: 0 <= j < |p| ==> !IsQuote(p[j])
  }

  /** `["']([^"']+)["']` at `i`: the captured path and where the literal ends. */
  function Literal(s: string, i: nat): (r: Option<(string, nat)>)
    requires i <= |s|
    ensures r.Some? ==> i + 2 < r.value.1 <= |s|
  {
    if i == |s| || !IsQuote(s[i]) then None
    else
      var j := RunEnd(s, i + 1, NotQuote);
      if j > i + 1 && j < |s| && IsQuote(s[j]) then Some((s[i + 1..j], j + 1)) else None
  }

  /** The parts of the pattern that capture nothing: a literal word, `\s+`, and the binding alternation. */
  datatype Atom = Keyword(w: string) | Blanks | BindingForm

  /** Atoms matched one after the other: the inside of a non-capturing group. */
  datatype Group = Empty | Cons(atom: Atom, rest: Group)

  /**
   * The pattern, read left to right: atoms, optional groups, and at the end
   * the quoted literal whose inside is capture group 1.
   */
  datatype Pattern = Captured | Then(atom: Atom, next: Pattern) | Optional(group: Group, next: Pattern)

  /** An atom at `i`: where it ends. */
  function AtomEnd(a: Atom, s: string, i: nat): (r: Option<nat>)
    requires i <= |s|
    ensures r.Some? ==> i <= r.value <= |s|
  {
    match a
    case Keyword(w) => if TextAt(s, w, i) then Some(i + |w|) else None
    case Blanks => Spaces(s, i)
    case BindingForm => Binding(s, i)
  }

  /** A group at `i`: where it ends. */
  function GroupEnd(g: Group, s: string, i: nat): (r: Option<nat>)
    requires i <= |s|
    ensures r.Some? ==> i <= r.value <= |s|
  {
    match g
    case Empty => Some(i)
    case Cons(a, rest) =>
      match AtomEnd(a, s, i)
      case None => None
      case Some(j) => GroupEnd(rest, s, j)
  }

  /**
   * A pattern at `i`: the captured path and where the match ends. An optional
   * group is taken when the rest of the pattern then matches, and skipped
   * otherwise (leftmost-first: the greedy `?` tries the group first).
   */
  function MatchPattern(pat: Pattern, s: string, i: nat): (r: Option<(string, nat)>)
    requires i <= |s|
    ensures r.Some? ==> i < r.value.1 <= |s|
  {
    match pat
    case Captured => Literal(s, i)
    case Then(a, next) =>
      (match AtomEnd(a, s, i)
       case None => None
       case Some(j) => MatchPattern(next, s, j))
    case Optional(g, next) =>
      var taken := (match GroupEnd(g, s, i) case None => None case Some(j) => MatchPattern(next, s, j));
      if taken.Some? then taken else MatchPattern(next, s, i)
  }

  /** `(?:binding\s+from\s+)` */
  const FromGroup: Group := Cons(BindingForm, Cons(Blanks, Cons(Keyword("from"), Cons(Blanks, Empty))))

  /** What follows `import\s+`: the optional group, then the quoted path. */
  const Tail: Pattern := Optional(FromGroup, Captured)

  /** The pattern of import_resolver.go:110. */
  const ImportPattern: Pattern := Then(Keyword("import"), Then(Blanks, Tail))

  /** The whole pattern at `i`: the captured path and where the match ends. */
  function MatchAt(s: string, i: nat): (r: Option<(string, nat)>)
    requires i <= |s|
    ensures r.Some? ==> i < r.value.1 <= |s|
    ensures r.Some? ==> TextAt(s, "import", i)
  {
    MatchPattern(ImportPattern, s, i)
  }

  /** The captured paths of all non-overlapping matches at or after `i`, in order. */
  function ScanFrom(s: string, i: nat): seq<string>
    requires i <= |s|
    decreases |s| - i
  {
    if i == |s| then []
    else
      match MatchAt(s, i)
      case Some(m) => [m.0] + ScanFrom(s, m.1)
      case None => ScanFrom(s, i + 1)
  }

  /** regexp.FindAllStringSubmatch followed by the collection of group 1. */
  function ImportPaths(s: string): seq<string> {
    ScanFrom(s, 0)
  }

  /**
   * extractImports (import_resolver.go:108-126). The pattern is a constant
   * that compiles, so the error result is never produced.
   */
  method ExtractImports(source: string) returns (imports: seq<string>)
    ensures imports == ImportPaths(source)
  {
    imports := [];
    var i := 0;
    while i < |source|
      invariant 0 <= i <= |source|
      invariant imports + ScanFrom(source, i) == ImportPaths(source)
      decreases |source| - i
    {
      match MatchAt(source, i)
      case Some(m) =>
        imports := imports + [m.0];
        i := m.1;
      case None =>
        i := i + 1;
    }
  }


  /** A literal captures a non-empty path without quotes. */
  lemma LiteralIsPath(s: string, i: nat)
    requires i <= |s| && Literal(s, i).Some?
    ensures PathLiteral(Literal(s, i).value.0)
  {
    RunMaximal(s, i + 1, NotQuote);
  }

  /** Whatever a pattern captures is a non-empty path without quotes. */
  lemma {:induction false} PatternIsPath(pat: Pattern, s: string, i: nat)
    requires i <= |s| && MatchPattern(pat, s, i).Some?
    ensures PathLiteral(MatchPattern(pat, s, i).value.0)
    decreases pat
  {
    match pat
    case Captured =>
      LiteralIsPath(s, i);
    case Then(a, next) =>
      PatternIsPath(next, s, AtomEnd(a, s, i).value);
    case Optional(g, next) =>
      if GroupEnd(g, s, i).Some? && MatchPattern(next, s, GroupEnd(g, s, i).value).Some? {
        PatternIsPath(next, s, GroupEnd(g, s, i).value);
      } else {
        PatternIsPath(next, s, i);
      }
  }

  /** Every match captures a non-empty path without quotes. */
  lemma MatchIsPath(s: string, i: nat)
    requires i <= |s| && MatchAt(s, i).Some?
    ensures PathLiteral(MatchAt(s, i).value.0)
  {
    PatternIsPath(ImportPattern, s, i);
  }

  /** Every path the scanner reports is non-empty and free of quotes. */
  lemma {:induction false} ScannedPaths(s: string, i: nat)
    requires i <= |s|
    ensures forall n :: 0 <= n < |ScanFrom(s, i)| ==> PathLiteral(ScanFrom(s, i)[n])
    decreases |s| - i
  {
    if i < |s| {
      match MatchAt(s, i)
      case Some(m) =>
        MatchIsPath(s, i);
        ScannedPaths(s, m.1);
      case None =>
        ScannedPaths(s, i + 1);
    }
  }

  /** No match starts where the text does not start with `i`. */
  lemma NoMatchAt(s: string, x: nat)
    requires x < |s| && s[x] != 'i'
    ensures MatchAt(s, x) == None
  {
    if MatchAt(s, x).Some? {
      TextChar(s, "import", x, 0);
    }
  }

  /** Scanning from a position where no match starts continues at the next position. */
  lemma SkipChar(s: string, x: nat)
    requires x < |s| && s[x] != 'i'
    ensures ScanFrom(s, x) == ScanFrom(s, x + 1)
  {
    NoMatchAt(s, x);
  }

  /** No match starts at or after a position from which `import` never occurs. */
  lemma {:induction false} NoKeywordFrom(s: string, i: nat)
    requires i <= |s|
    requires forall x: nat :: i <= x ==> !Text.OccursAt(s, "import", x)
    ensures ScanFrom(s, i) == []
    decreases |s| - i
  {
    if i < |s| {
      TextAtOccurs(s, "import", i);
      NoKeywordFrom(s, i + 1);
    }
  }

  /** A text in which the keyword `import` never occurs has no imports. */
  lemma NoKeywordNoImports(s: string)
    requires !Text.Contains(s, "import")
    ensures ImportPaths(s) == []
  {
    Text.ContainsIffOccurs(s, "import");
    NoKeywordFrom(s, 0);
  }

  // The four statement forms the pattern recognises, and their rendering.

  /** An import statement of Solidity, in one of the forms the scanner recognises. */
  datatype ImportStatement =
    | Plain(path: string)                     // import "path"
    | Symbols(symbols: string, path: string)  // import {symbols} from "path"
    | Namespace(alias: string, path: string)  // import * as alias from "path"
    | Default(name: string, path: string)     // import name from "path"

  predicate Identifier(w: string) {
    w != [] && forall j :: 0 <= j < |w| ==> IsWordChar(w[j])
  }

  predicate WellFormed(st: ImportStatement) {
    && PathLiteral(st.path)
    && (st.Symbols? ==> forall j :: 0 <= j < |st.symbols| ==> st.symbols[j] != '}')
    && (st.Namespace? ==> Identifier(st.alias))
    && (st.Default? ==> Identifier(st.name))
  }

  /** The binding text of a statement that has a `from` clause. */
  function BindingText(st: ImportStatement): string
    requires !st.Plain?
  {
    match st
    case Symbols(symbols, _) => "{" + symbols + "}"
    case Namespace(alias, _) => "* as " + alias
    case Default(name, _) => name
  }

  /** The quoted path. */
  function Quoted(path: string, q: char): string {
    [q] + path + [q]
  }

  /** The statement written with single spaces and quote character `q`. */
  function Render(st: ImportStatement, q: char): string {
    if st.Plain? then "import " + Quoted(st.path, q)
    else "import " + BindingText(st) + " from " + Quoted(st.path, q)
  }

  // Recognising the pieces of a rendered statement in place.

  /** A text of class-`k` characters in place, followed by a character outside the class, is one run. */
  lemma RunOfText(s: string, w: string, p: nat, k: CharClass)
    requires TextAt(s, w, p)
    requires forall x :: 0 <= x < |w| ==> InClass(w[x], k)
    requires p + |w| < |s| && !InClass(s[p + |w|], k)
    ensures RunEnd(s, p, k) == p + |w|
  {
    forall x | p <= x < p + |w| ensures InClass(s[x], k) {
      TextChar(s, w, p, x - p);
    }
    RunExact(s, p, p + |w|, k);
  }

  lemma OneSpaceAt(s: string, x: nat)
    requires x + 1 < |s| && s[x] == ' ' && !InClass(s[x + 1], Space)
    ensures Spaces(s, x) == Some(x + 1)
  {
    RunExact(s, x, x + 1, Space);
  }

  /** A single space at `p`, followed by the text `w` that starts with something else. */
  lemma SpaceBefore(s: string, p: nat, w: string)
    requires TextAt(s, " " + w, p) && w != [] && !InClass(w[0], Space)
    ensures Spaces(s, p) == Some(p + 1) && TextAt(s, w, p + 1)
  {
    TextSplit(s, " ", w, p);
    TextChar(s, " ", p, 0);
    TextChar(s, w, p + 1, 0);
    OneSpaceAt(s, p);
  }

  lemma LiteralAt(s: string, p: nat, path: string, q: char)
    requires PathLiteral(path) && IsQuote(q) && TextAt(s, Quoted(path, q), p)
    ensures Literal(s, p) == Some((path, p + |path| + 2))
  {
    assert Quoted(path, q) == [q] + (path + [q]);
    TextSplit(s, [q], path + [q], p);
    TextSplit(s, path, [q], p + 1);
    TextChar(s, [q], p, 0);
    TextChar(s, [q], p + 1 + |path|, 0);
    RunOfText(s, path, p + 1, NotQuote);
    TextAtOccurs(s, path, p + 1);
  }

  lemma BraceAt(s: string, p: nat, symbols: string)
    requires forall j :: 0 <= j < |symbols| ==> symbols[j] != '}'
    requires TextAt(s, "{" + symbols + "}", p)
    ensures Binding(s, p) == Some(p + |symbols| + 2)
  {
    assert "{" + symbols + "}" == "{" + (symbols + "}");
    TextSplit(s, "{", symbols + "}", p);
    TextSplit(s, symbols, "}", p + 1);
    TextChar(s, "{", p, 0);
    TextChar(s, "}", p + 1 + |symbols|, 0);
    RunOfText(s, symbols, p + 1, NotCloseBrace);
  }

  lemma WordAt(s: string, p: nat, w: string)
    requires Identifier(w) && TextAt(s, w + " ", p)
    ensures RunEnd(s, p, Word) == p + |w| && s[p] == w[0]
  {
    TextSplit(s, w, " ", p);
    TextChar(s, w, p, 0);
    TextChar(s, " ", p + |w|, 0);
    RunOfText(s, w, p, Word);
  }

  lemma StarAt(s: string, p: nat, alias: string)
    requires Identifier(alias) && TextAt(s, "* as " + alias + " ", p)
    ensures Binding(s, p) == Some(p + |alias| + 5)
  {
    assert "* as " + alias + " " == "*" + (" " + ("as" + (" " + (alias + " "))));
    TextSplit(s, "*", " " + ("as" + (" " + (alias + " "))), p);
    TextChar(s, "*", p, 0);
    SpaceBefore(s, p + 1, "as" + (" " + (alias + " ")));
    TextSplit(s, "as", " " + (alias + " "), p + 2);
    SpaceBefore(s, p + 4, alias + " ");
    WordAt(s, p + 5, alias);
  }

  lemma BindingAt(s: string, p: nat, st: ImportStatement)
    requires WellFormed(st) && !st.Plain?
    requires TextAt(s, BindingText(st) + " ", p)
    ensures Binding(s, p) == Some(p + |BindingText(st)|)
  {
    var b := BindingText(st);
    match st
    case Symbols(symbols, _) =>
      TextSplit(s, b, " ", p);
      BraceAt(s, p, symbols);
    case Namespace(alias, _) =>
      StarAt(s, p, alias);
    case Default(name, _) =>
      WordAt(s, p, name);
  }

  /** The binding text of a statement starts with a character that cannot be a space. */
  lemma BindingStart(st: ImportStatement)
    requires WellFormed(st) && !st.Plain?
    ensures BindingText(st) != [] && !InClass(BindingText(st)[0], Space)
  {
  }

  // Matching the pattern one part at a time.

  lemma StepAtom(a: Atom, next: Pattern, s: string, i: nat, j: nat)
    requires i <= |s| && AtomEnd(a, s, i) == Some(j)
    ensures MatchPattern(Then(a, next), s, i) == MatchPattern(next, s, j)
  {
  }

  lemma StepGroup(a: Atom, rest: Group, s: string, i: nat, j: nat)
    requires i <= |s| && AtomEnd(a, s, i) == Some(j)
    ensures GroupEnd(Cons(a, rest), s, i) == GroupEnd(rest, s, j)
  {
  }

  /** An optional group that matches, followed by a rest that matches after it, is taken. */
  lemma TakeGroup(g: Group, next: Pattern, s: string, i: nat, j: nat)
    requires i <= |s| && GroupEnd(g, s, i) == Some(j) && MatchPattern(next, s, j).Some?
    ensures MatchPattern(Optional(g, next), s, i) == MatchPattern(next, s, j)
  {
  }

  /** An optional group that does not match is skipped. */
  lemma SkipGroup(g: Group, next: Pattern, s: string, i: nat)
    requires i <= |s| && GroupEnd(g, s, i) == None
    ensures MatchPattern(Optional(g, next), s, i) == MatchPattern(next, s, i)
  {
  }

  /** The group `(?:binding\s+from\s+)`, assembled from its parts. */
  lemma GroupOfParts(s: string, p: nat, g: nat)
    requires p <= |s| && Binding(s, p) == Some(g) && g + 6 <= |s|
    requires Spaces(s, g) == Some(g + 1) && TextAt(s, "from", g + 1) && Spaces(s, g + 5) == Some(g + 6)
    ensures GroupEnd(FromGroup, s, p) == Some(g + 6)
  {
    var afterFrom := Cons(Blanks, Empty);
    var afterSpace := Cons(Keyword("from"), afterFrom);
    StepGroup(BindingForm, Cons(Blanks, afterSpace), s, p, g);
    StepGroup(Blanks, afterSpace, s, g, g + 1);
    StepGroup(Keyword("from"), afterFrom, s, g + 1, g + 5);
    StepGroup(Blanks, Empty, s, g + 5, g + 6);
  }

  /** The text `binding from q` split at its spaces. */
  lemma FromClauseText(s: string, p: nat, b: string, q: char)
    requires b != [] && !InClass(b[0], Space) && IsQuote(q)
    requires TextAt(s, b + " from " + [q], p)
    ensures TextAt(s, b + " ", p)
    ensures p + |b| + 6 < |s|
    ensures Spaces(s, p + |b|) == Some(p + |b| + 1) && TextAt(s, "from", p + |b| + 1)
    ensures Spaces(s, p + |b| + 5) == Some(p + |b| + 6)
  {
    assert b + " from " + [q] == (b + " ") + ("from" + (" " + [q]));
    TextSplit(s, b + " ", "from" + (" " + [q]), p);
    assert b + " " + ("from" + (" " + [q])) == b + (" " + ("from" + (" " + [q])));
    TextSplit(s, b, " " + ("from" + (" " + [q])), p);
    SpaceBefore(s, p + |b|, "from" + (" " + [q]));
    TextSplit(s, "from", " " + [q], p + |b| + 1);
    SpaceBefore(s, p + |b| + 5, [q]);
  }

  /** The group in place before a quote, once the binding is recognised. */
  lemma GroupOfText(s: string, x: nat, b: string, q: char)
    requires x <= |s| && Binding(s, x) == Some(x + |b|)
    requires b != [] && !InClass(b[0], Space) && IsQuote(q)
    requires TextAt(s, b + " from " + [q], x)
    ensures GroupEnd(FromGroup, s, x) == Some(x + |b| + 6)
  {
    FromClauseText(s, x, b, q);
    GroupOfParts(s, x, x + |b|);
  }

  /** The rest of the pattern when the group matches and is followed by the literal. */
  lemma TailOfParts(s: string, x: nat, g: nat, lit: (string, nat))
    requires x <= |s| && GroupEnd(FromGroup, s, x) == Some(g) && g <= |s| && Literal(s, g) == Some(lit)
    ensures MatchPattern(Tail, s, x) == Some(lit)
  {
    TakeGroup(FromGroup, Captured, s, x, g);
  }

  /** The keyword `import` and one space, recognised in place: the rest of the pattern starts after them. */
  lemma KeywordParts(s: string, p: nat, body: string)
    requires body != [] && !InClass(body[0], Space)
    requires TextAt(s, "import" + (" " + body), p)
    ensures p + 7 <= |s| && MatchAt(s, p) == MatchPattern(Tail, s, p + 7)
    ensures TextAt(s, body, p + 7)
  {
    TextSplit(s, "import", " " + body, p);
    SpaceBefore(s, p + 6, body);
    StepAtom(Keyword("import"), Then(Blanks, Tail), s, p, p + 6);
    StepAtom(Blanks, Tail, s, p + 6, p + 7);
  }

  /** A plain statement is `import`, a space, then its quoted path. */
  lemma RenderPlain(st: ImportStatement, q: char)
    requires st.Plain?
    ensures Render(st, q) == "import" + (" " + Quoted(st.path, q))
    ensures |Render(st, q)| == 7 + |st.path| + 2
  {
  }

  /** A quoted path right after `import\s+`: no binding starts at a quote, so the group is skipped. */
  lemma TailPlain(s: string, x: nat, path: string, q: char)
    requires PathLiteral(path) && IsQuote(q) && TextAt(s, Quoted(path, q), x)
    ensures MatchPattern(Tail, s, x) == Some((path, x + |path| + 2))
  {
    LiteralAt(s, x, path, q);
    TextChar(s, Quoted(path, q), x, 0);
    assert Binding(s, x) == None;
    SkipGroup(FromGroup, Captured, s, x);
  }

  lemma MatchPlain(s: string, p: nat, st: ImportStatement, q: char)
    requires WellFormed(st) && IsQuote(q) && st.Plain? && TextAt(s, Render(st, q), p)
    ensures MatchAt(s, p) == Some((st.path, p + |Render(st, q)|))
  {
    RenderPlain(st, q);
    KeywordParts(s, p, Quoted(st.path, q));
    TailPlain(s, p + 7, st.path, q);
  }

  /** How the text of a `from` statement splits, before and after the opening quote. */
  lemma ClauseText(b: string, path: string, q: char)
    ensures b + " from " + Quoted(path, q) == (b + " from " + [q]) + (path + [q])
    ensures b + " from " + Quoted(path, q) == (b + " from ") + Quoted(path, q)
  {
  }

  /** The clause `binding from`, recognised in place once the binding is. */
  lemma ClauseGroup(s: string, x: nat, b: string, path: string, q: char)
    requires x <= |s| && Binding(s, x) == Some(x + |b|)
    requires b != [] && !InClass(b[0], Space) && IsQuote(q)
    requires TextAt(s, b + " from " + Quoted(path, q), x)
    ensures GroupEnd(FromGroup, s, x) == Some(x + |b| + 6)
  {
    ClauseText(b, path, q);
    TextSplit(s, b + " from " + [q], path + [q], x);
    GroupOfText(s, x, b, q);
  }

  /** The quoted path after the clause `binding from`, recognised in place. */
  lemma ClauseLiteral(s: string, x: nat, b: string, path: string, q: char)
    requires PathLiteral(path) && IsQuote(q)
    requires TextAt(s, b + " from " + Quoted(path, q), x)
    ensures x + |b| + 6 <= |s| && Literal(s, x + |b| + 6) == Some((path, x + |b| + 6 + |path| + 2))
  {
    ClauseText(b, path, q);
    TextSplit(s, b + " from ", Quoted(path, q), x);
    LiteralAt(s, x + |b| + 6, path, q);
  }

  /** The clause and the quoted path after `import\s+`, once the binding is recognised: the group is taken. */
  lemma TailOfText(s: string, x: nat, b: string, path: string, q: char)
    requires x <= |s| && Binding(s, x) == Some(x + |b|)
    requires b != [] && !InClass(b[0], Space) && PathLiteral(path) && IsQuote(q)
    requires TextAt(s, b + " from " + Quoted(path, q), x)
    ensures MatchPattern(Tail, s, x) == Some((path, x + |b| + 6 + |path| + 2))
  {
    ClauseGroup(s, x, b, path, q);
    ClauseLiteral(s, x, b, path, q);
    TailOfParts(s, x, x + |b| + 6, (path, x + |b| + 6 + |path| + 2));
  }

  /** A statement with a `from` clause is `import`, a space, then its clause. */
  lemma RenderFrom(st: ImportStatement, q: char)
    requires !st.Plain?
    ensures Render(st, q) == "import" + (" " + (BindingText(st) + " from " + Quoted(st.path, q)))
    ensures |Render(st, q)| == 7 + |BindingText(st)| + 6 + |st.path| + 2
  {
  }

  /** Where a `from` statement is written, its binding is recognised after `import `. */
  lemma BindingOfRender(s: string, p: nat, st: ImportStatement, q: char)
    requires WellFormed(st) && !st.Plain? && TextAt(s, Render(st, q), p)
    ensures p + 7 <= |s| && Binding(s, p + 7) == Some(p + 7 + |BindingText(st)|)
  {
    var b := BindingText(st);
    RenderFrom(st, q);
    assert Render(st, q) == ("import " + (b + " ")) + ("from " + Quoted(st.path, q));
    TextSplit(s, "import " + (b + " "), "from " + Quoted(st.path, q), p);
    TextSplit(s, "import ", b + " ", p);
    BindingAt(s, p + 7, st);
  }

  /** `import`, a space, a recognised binding, ` from ` and a quoted path: one match that captures the path. */
  lemma MatchOfText(s: string, p: nat, b: string, path: string, q: char)
    requires p + 7 <= |s| && Binding(s, p + 7) == Some(p + 7 + |b|)
    requires b != [] && !InClass(b[0], Space) && PathLiteral(path) && IsQuote(q)
    requires TextAt(s, "import" + (" " + (b + " from " + Quoted(path, q))), p)
    ensures MatchAt(s, p) == Some((path, p + 7 + |b| + 6 + |path| + 2))
  {
    KeywordParts(s, p, b + " from " + Quoted(path, q));
    TailOfText(s, p + 7, b, path, q);
  }

  lemma MatchFrom(s: string, p: nat, st: ImportStatement, q: char)
    requires WellFormed(st) && IsQuote(q) && !st.Plain? && TextAt(s, Render(st, q), p)
    ensures MatchAt(s, p) == Some((st.path, p + |Render(st, q)|))
  {
    RenderFrom(st, q);
    BindingStart(st);
    BindingOfRender(s, p, st, q);
    MatchOfText(s, p, BindingText(st), st.path, q);
  }

  /** A rendered statement, wherever it occurs, is one match that captures exactly its path. */
  lemma MatchRendered(s: string, p: nat, st: ImportStatement, q: char)
    requires WellFormed(st) && IsQuote(q) && TextAt(s, Render(st, q), p)
    ensures MatchAt(s, p) == Some((st.path, p + |Render(st, q)|))
  {
    if st.Plain? {
      MatchPlain(s, p, st, q);
    } else {
      MatchFrom(s, p, st, q);
    }
  }

  /** Where a match starts, the scan reports its path and resumes after it. */
  lemma ScanOfMatch(s: string, p: nat, m: (string, nat))
    requires p < |s| && MatchAt(s, p) == Some(m)
    ensures m.1 <= |s| && ScanFrom(s, p) == [m.0] + ScanFrom(s, m.1)
  {
  }

  /** Scanning from a rendered statement reports its path, then continues after it. */
  lemma ScanRendered(s: string, p: nat, st: ImportStatement, q: char)
    requires WellFormed(st) && IsQuote(q) && TextAt(s, Render(st, q), p)
    ensures p + |Render(st, q)| <= |s|
    ensures ScanFrom(s, p) == [st.path] + ScanFrom(s, p + |Render(st, q)|)
  {
    MatchRendered(s, p, st, q);
    ScanOfMatch(s, p, (st.path, p + |Render(st, q)|));
  }

  /** A `;` and a newline hold no match: the scan passes over them. */
  lemma SkipSeparator(s: string, x: nat)
    requires TextAt(s, ";\n", x)
    ensures ScanFrom(s, x) == ScanFrom(s, x + 2)
  {
    TextChar(s, ";\n", x, 0);
    TextChar(s, ";\n", x, 1);
    SkipChar(s, x);
    SkipChar(s, x + 1);
  }

  /** A rendered statement followed by `;` and a newline: its path, then the scan after it. */
  lemma ScanStatement(s: string, p: nat, st: ImportStatement, q: char, next: nat)
    requires WellFormed(st) && IsQuote(q) && TextAt(s, Render(st, q), p)
    requires next == p + |Render(st, q)| && TextAt(s, ";\n", next)
    ensures ScanFrom(s, p) == [st.path] + ScanFrom(s, next + 2)
  {
    ScanRendered(s, p, st, q);
    SkipSeparator(s, next);
  }

  /** A line of a program, in place: its path, then the scan after the line. */
  lemma ScanLine(s: string, p: nat, st: ImportStatement, q: char)
    requires WellFormed(st) && IsQuote(q) && TextAt(s, Render(st, q) + ";\n", p)
    ensures ScanFrom(s, p) == [st.path] + ScanFrom(s, p + |Render(st, q) + ";\n"|)
  {
    TextSplit(s, Render(st, q), ";\n", p);
    ScanStatement(s, p, st, q, p + |Render(st, q)|);
  }

  /** Lines written one after another. */
  function Joined(lines: seq<string>): string {
    if lines == [] then [] else lines[0] + Joined(lines[1..])
  }

  /** Wherever `line` is in place, the scan there reports `path`, then goes on after the line. */
  ghost predicate ScansTo(line: string, path: string) {
    forall t: string, x: nat :: TextAt(t, line, x) ==> ScanFrom(t, x) == [path] + ScanFrom(t, x + |line|)
  }

  /** Scanning a text that ends with lines that each scan to one path yields those paths in order. */
  lemma {:induction false} ScanLines(s: string, p: nat, lines: seq<string>, paths: seq<string>)
    requires |lines| == |paths| && forall n :: 0 <= n < |lines| ==> ScansTo(lines[n], paths[n])
    requires TextAt(s, Joined(lines), p) && p + |Joined(lines)| == |s|
    ensures ScanFrom(s, p) == paths
    decreases |lines|
  {
    if lines == [] {
      assert p == |s|;
    } else {
      assert Joined(lines) == lines[0] + Joined(lines[1..]);
      TextSplit(s, lines[0], Joined(lines[1..]), p);
      assert ScansTo(lines[0], paths[0]);
      ScanLines(s, p + |lines[0]|, lines[1..], paths[1..]);
    }
  }

  /** The lines of a program: each statement followed by `;` and a newline. */
  function Lines(sts: seq<ImportStatement>, q: char): (r: seq<string>)
    ensures |r| == |sts|
  {
    seq(|sts|, n requires 0 <= n < |sts| => Render(sts[n], q) + ";\n")
  }

  /** Import statements written one after another, each followed by `;` and a newline. */
  function Program(sts: seq<ImportStatement>, q: char): string {
    Joined(Lines(sts, q))
  }

  function PathsOf(sts: seq<ImportStatement>): (r: seq<string>)
    ensures |r| == |sts|
  {
    seq(|sts|, n requires 0 <= n < |sts| => sts[n].path)
  }

  /** The line of a well-formed statement scans to its path, wherever it is written. */
  lemma StatementScansTo(st: ImportStatement, q: char)
    requires WellFormed(st) && IsQuote(q)
    ensures ScansTo(Render(st, q) + ";\n", st.path)
  {
    var line := Render(st, q) + ";\n";
    forall t: string, x: nat | TextAt(t, line, x)
      ensures ScanFrom(t, x) == [st.path] + ScanFrom(t, x + |line|)
    {
      ScanLine(t, x, st, q);
    }
  }

  /** Each line of a program of well-formed statements scans to its statement's path. */
  lemma LinesScan(sts: seq<ImportStatement>, q: char)
    requires IsQuote(q) && forall n :: 0 <= n < |sts| ==> WellFormed(sts[n])
    ensures forall n :: 0 <= n < |sts| ==> ScansTo(Lines(sts, q)[n], PathsOf(sts)[n])
  {
    forall n | 0 <= n < |sts| ensures ScansTo(Lines(sts, q)[n], PathsOf(sts)[n]) {
      StatementScansTo(sts[n], q);
    }
  }

  /** A program of well-formed import statements yields exactly their paths, in source order. */
  lemma ExtractProgram(sts: seq<ImportStatement>, q: char)
    requires IsQuote(q) && forall n :: 0 <= n < |sts| ==> WellFormed(sts[n])
    ensures ImportPaths(Program(sts, q)) == PathsOf(sts)
  {
    LinesScan(sts, q);
    var s := Program(sts, q);
    assert TextAt(s, s, 0);
    ScanLines(s, 0, Lines(sts, q), PathsOf(sts));
  }
}
