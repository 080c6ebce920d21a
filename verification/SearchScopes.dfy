/** Structured search scopes: compaction drops the scopes that others cover, and filtering a
    result keeps the files and lines that some scope admits.  Both work inside the slices they
    are given.  Paths are slash-separated, as filepath.ToSlash leaves them. */
module SearchScopes {

  datatype Option<+T> = None | Some(value: T)

  const REPOSITORY := "repository"
  const FILE := "file"
  const DIRECTORY := "directory"
  const SYMBOL := "symbol"

  datatype Scope = Scope(repositoryId: nat, repository: string, kind: string, path: string,
                         symbol: string, startLine: int, endLine: int)

  // ---------------------------------------------------------------- covering

  function TrimSlash(path: string): string {
    if path != "" && path[|path| - 1] == '/' then path[..|path| - 1] else path
  }

  predicate Under(path: string, directory: string) {
    path == directory || directory + "/" <= path
  }

  /** searchScopeCovers */
  predicate Covers(left: Scope, right: Scope) {
    if left.repositoryId != right.repositoryId || left.repository != right.repository then false
    else if left.path == "" || left.kind == REPOSITORY then true
    else if left.kind == DIRECTORY then Under(TrimSlash(right.path), TrimSlash(left.path))
    else if left.kind == FILE || left.kind == "" then TrimSlash(right.path) == TrimSlash(left.path)
    else
      && left.kind == SYMBOL && right.kind == SYMBOL && TrimSlash(right.path) == TrimSlash(left.path)
      && left.startLine == right.startLine && left.endLine == right.endLine && left.symbol == right.symbol
  }

  /** A scope as the context resolver makes it: a repository, or a clean path inside one. */
  predicate Resolved(s: Scope) {
    && s.kind in {REPOSITORY, FILE, DIRECTORY, SYMBOL}
    && (s.kind == REPOSITORY <==> s.path == "")
    && TrimSlash(s.path) == s.path
  }

  /** At one revision a path is not both a file and a directory. */
  predicate Compatible(a: Scope, b: Scope) {
    a.repositoryId == b.repositoryId && a.repository == b.repository && a.path == b.path ==>
      (a.kind == DIRECTORY <==> b.kind == DIRECTORY)
  }

  predicate WellFormed(scopes: seq<Scope>) {
    && (forall s <- scopes :: Resolved(s))
    && forall s, t | s in scopes && t in scopes :: Compatible(s, t)
  }

  lemma CoversIsReflexive(s: Scope)
    requires Resolved(s)
    ensures Covers(s, s)
  {
    assert s.kind == REPOSITORY || s.kind == FILE || s.kind == DIRECTORY || s.kind == SYMBOL;
  }

  lemma CoversIsTransitive(a: Scope, b: Scope, c: Scope)
    requires Resolved(a) && Resolved(b) && Resolved(c)
    requires Compatible(a, b) && Covers(a, b) && Covers(b, c)
    ensures Covers(a, c)
  {
  }

  /** Without the fact about paths it is not: a file covers the directory of its name, which
      covers what lies in it. */
  lemma CoversNeedsCompatibility()
    ensures var a, b, c := Scope(1, "r", FILE, "x", "", 0, 0), Scope(1, "r", DIRECTORY, "x", "", 0, 0),
            Scope(1, "r", FILE, "x/y", "", 0, 0);
            Resolved(a) && Resolved(b) && Resolved(c) && Covers(a, b) && Covers(b, c) && !Covers(a, c)
  {
    assert "x/y" == "x" + "/" + "y";
  }

  // ---------------------------------------------------------------- compaction

  predicate CoveredBy(s: Scope, scopes: seq<Scope>) {
    exists t <- scopes :: Covers(t, s)
  }

  /** Those of the first n scopes that the new one does not cover, in order. */
  function Uncovered(scopes: seq<Scope>, n: nat, new': Scope): (r: seq<Scope>)
    requires n <= |scopes|
    ensures |r| <= n
  {
    if n == 0 then []
    else
      var r := Uncovered(scopes, n - 1, new');
      if Covers(new', scopes[n - 1]) then r else r + [scopes[n - 1]]
  }

  lemma {:induction false} UncoveredAre(scopes: seq<Scope>, n: nat, new': Scope)
    requires n <= |scopes|
    ensures forall s :: s in Uncovered(scopes, n, new') <==> s in scopes[..n] && !Covers(new', s)
  {
    if n > 0 {
      UncoveredAre(scopes, n - 1, new');
      assert scopes[..n] == scopes[..n - 1] + [scopes[n - 1]];
    }
  }

  function Add(output: seq<Scope>, s: Scope): (r: seq<Scope>)
    ensures |r| <= |output| + 1
  {
    if CoveredBy(s, output) then output else Uncovered(output, |output|, s) + [s]
  }

  /** compactSearchScopes, for the first n scopes of a list. */
  function CompactFirst(scopes: seq<Scope>, n: nat): (r: seq<Scope>)
    requires n <= |scopes|
    ensures |r| <= n
  {
    if n == 0 then [] else Add(CompactFirst(scopes, n - 1), scopes[n - 1])
  }

  function Compact(scopes: seq<Scope>): seq<Scope> {
    CompactFirst(scopes, |scopes|)
  }

  /** The first scopes in a slice are those of a list. */
  predicate Holds(output: array<Scope>, length: nat, list: seq<Scope>)
    reads output
  {
    length == |list| <= output.Length && forall i | 0 <= i < length :: output[i] == list[i]
  }

  /** The loop that drops what the new scope covers moves the other scopes to the front of the
      slice they stand in. */
  method DropCovered(output: array<Scope>, length: nat, new': Scope, ghost was: seq<Scope>) returns (kept: nat)
    requires Holds(output, length, was)
    modifies output
    ensures Holds(output, kept, Uncovered(was, |was|, new'))
  {
    kept := 0;
    for i := 0 to length
      invariant kept <= i
      invariant forall j | i <= j < length :: output[j] == was[j]
      invariant Holds(output, kept, Uncovered(was, i, new'))
    {
      if !Covers(new', output[i]) {
        output[kept] := output[i];
        kept := kept + 1;
      }
    }
  }

  method IsCovered(output: array<Scope>, length: nat, scope: Scope, ghost was: seq<Scope>) returns (covered: bool)
    requires Holds(output, length, was)
    ensures covered <==> CoveredBy(scope, was)
  {
    for j := 0 to length
      invariant forall i | 0 <= i < j :: !Covers(was[i], scope)
    {
      if Covers(output[j], scope) {
        assert was[j] in was;
        return true;
      }
    }
    return false;
  }

  /** The body of the outer loop. */
  method AddScope(output: array<Scope>, length: nat, scope: Scope, ghost was: seq<Scope>) returns (grown: nat)
    requires Holds(output, length, was) && length < output.Length
    modifies output
    ensures Holds(output, grown, Add(was, scope))
  {
    var covered := IsCovered(output, length, scope, was);
    if covered {
      return length;
    }
    var kept := DropCovered(output, length, scope, was);
    output[kept] := scope;
    return kept + 1;
  }

  method CompactSearchScopes(scopes: seq<Scope>) returns (compacted: seq<Scope>)
    ensures compacted == Compact(scopes)
  {
    if scopes == [] {
      return [];
    }
    var output := new Scope[|scopes|](_ => scopes[0]);
    var length: nat := 0;
    for i := 0 to |scopes|
      invariant Holds(output, length, CompactFirst(scopes, i))
    {
      length := AddScope(output, length, scopes[i], CompactFirst(scopes, i));
    }
    return output[..length];
  }

  predicate Antichain(scopes: seq<Scope>) {
    forall i, j | 0 <= i < |scopes| && 0 <= j < |scopes| && i != j :: !Covers(scopes[i], scopes[j])
  }

  lemma AntichainGrows(scopes: seq<Scope>, s: Scope)
    requires Antichain(scopes) && forall t <- scopes :: !Covers(s, t) && !Covers(t, s)
    ensures Antichain(scopes + [s])
  {
  }

  lemma {:induction false} ApartFromUncovered(scopes: seq<Scope>, n: nat, new': Scope, s: Scope)
    requires n <= |scopes| && forall i | 0 <= i < n :: !Covers(s, scopes[i]) && !Covers(scopes[i], s)
    ensures forall t <- Uncovered(scopes, n, new') :: !Covers(s, t) && !Covers(t, s)
  {
    if n > 0 {
      ApartFromUncovered(scopes, n - 1, new', s);
    }
  }

  lemma {:induction false} UncoveredIsAntichain(scopes: seq<Scope>, n: nat, new': Scope)
    requires n <= |scopes| && Antichain(scopes)
    ensures Antichain(Uncovered(scopes, n, new'))
  {
    if n > 0 {
      var kept, last := Uncovered(scopes, n - 1, new'), scopes[n - 1];
      UncoveredIsAntichain(scopes, n - 1, new');
      ApartFromUncovered(scopes, n - 1, new', last);
      AntichainGrows(kept, last);
    }
  }

  lemma {:induction false} FirstsAreAntichain(scopes: seq<Scope>, n: nat)
    requires n <= |scopes|
    ensures forall s <- CompactFirst(scopes, n) :: s in scopes[..n]
    ensures Antichain(CompactFirst(scopes, n))
    ensures n > 0 ==> CompactFirst(scopes, n) != []
  {
    if n > 0 {
      var output, s := CompactFirst(scopes, n - 1), scopes[n - 1];
      assert scopes[..n] == scopes[..n - 1] + [s];
      FirstsAreAntichain(scopes, n - 1);
      UncoveredIsAntichain(output, |output|, s);
      UncoveredAre(output, |output|, s);
      assert output[..|output|] == output;
      if !CoveredBy(s, output) {
        AntichainGrows(Uncovered(output, |output|, s), s);
      }
    }
  }

  /** The compacted scopes come from the list, and none covers another. */
  lemma CompactIsAntichain(scopes: seq<Scope>)
    ensures forall s <- Compact(scopes) :: s in scopes
    ensures Antichain(Compact(scopes))
    ensures scopes != [] ==> Compact(scopes) != []
  {
    FirstsAreAntichain(scopes, |scopes|);
    assert scopes[..|scopes|] == scopes;
  }

  /** What was covered before a scope is added stays covered, and the added scope is. */
  lemma AddCovers(output: seq<Scope>, s: Scope, t: Scope)
    requires Resolved(s) && Resolved(t) && forall o <- output :: Resolved(o) && Compatible(s, o)
    requires t == s || CoveredBy(t, output)
    ensures CoveredBy(t, Add(output, s))
  {
    UncoveredAre(output, |output|, s);
    assert output[..|output|] == output;
    if !CoveredBy(s, output) {
      if t == s {
        CoversIsReflexive(s);
        assert Covers(Add(output, s)[|Add(output, s)| - 1], t);
      } else {
        var o :| o in output && Covers(o, t);
        if Covers(s, o) {
          CoversIsTransitive(s, o, t);
          assert s in Add(output, s);
        } else {
          assert o in Add(output, s);
        }
      }
    }
  }

  lemma {:induction false} FirstsCoverAll(scopes: seq<Scope>, n: nat, i: nat)
    requires WellFormed(scopes) && i < n <= |scopes|
    ensures CoveredBy(scopes[i], CompactFirst(scopes, n))
  {
    FirstsAreAntichain(scopes, n - 1);
    if i < n - 1 {
      FirstsCoverAll(scopes, n - 1, i);
    }
    AddCovers(CompactFirst(scopes, n - 1), scopes[n - 1], scopes[i]);
  }

  /** Each scope of the list is covered by a compacted one. */
  lemma CompactCoversAll(scopes: seq<Scope>)
    requires WellFormed(scopes)
    ensures forall s <- scopes :: CoveredBy(s, Compact(scopes))
  {
    forall s <- scopes ensures CoveredBy(s, Compact(scopes)) {
      var i :| 0 <= i < |scopes| && scopes[i] == s;
      FirstsCoverAll(scopes, |scopes|, i);
    }
  }

  // ---------------------------------------------------------------- filtering a result

  /** A matched line: its number and how many fragments of it match. */
  datatype Line = Line(number: int, fragments: nat)

  datatype FileMatch = FileMatch(repositoryId: int, path: string, lines: seq<Line>)

  predicate Concerns(s: Scope, m: FileMatch) {
    s.repositoryId == 0 || s.repositoryId == m.repositoryId
  }

  /** The scope admits every line of the file. */
  predicate AdmitsFile(s: Scope, m: FileMatch) {
    Concerns(s, m) &&
    if s.kind == REPOSITORY then true
    else if s.kind == DIRECTORY then Under(m.path, TrimSlash(s.path))
    else s.kind != SYMBOL && m.path == TrimSlash(s.path)
  }

  /** The scope is a symbol in the file. */
  predicate IsRange(s: Scope, m: FileMatch) {
    Concerns(s, m) && s.kind == SYMBOL && m.path == TrimSlash(s.path)
  }

  predicate Spans(s: Scope, line: Line) {
    s.startLine <= line.number <= s.endLine
  }

  predicate WholeFile(scopes: seq<Scope>, m: FileMatch) {
    exists s <- scopes :: AdmitsFile(s, m)
  }

  predicate LineAdmitted(scopes: seq<Scope>, m: FileMatch, line: Line) {
    exists s <- scopes :: IsRange(s, m) && Spans(s, line)
  }

  /** Those of the first n lines that a symbol scope spans. */
  function LinesIn(scopes: seq<Scope>, m: FileMatch, n: nat): (r: seq<Line>)
    requires n <= |m.lines|
    ensures |r| <= n
    ensures forall line <- r :: LineAdmitted(scopes, m, line)
  {
    if n == 0 then []
    else LinesIn(scopes, m, n - 1) + if LineAdmitted(scopes, m, m.lines[n - 1]) then [m.lines[n - 1]] else []
  }

  /** What the filter leaves of one file. */
  function FilterMatch(scopes: seq<Scope>, m: FileMatch): Option<FileMatch> {
    if WholeFile(scopes, m) then Some(m)
    else
      var lines := LinesIn(scopes, m, |m.lines|);
      if lines == [] then None else Some(m.(lines := lines))
  }

  /** What the filter leaves of the first n files. */
  function FilterFirst(scopes: seq<Scope>, matches: seq<FileMatch>, n: nat): (r: seq<FileMatch>)
    requires n <= |matches|
    ensures |r| <= n
  {
    if n == 0 then []
    else
      var kept := FilterMatch(scopes, matches[n - 1]);
      FilterFirst(scopes, matches, n - 1) + if kept.Some? then [kept.value] else []
  }

  function Filter(scopes: seq<Scope>, matches: seq<FileMatch>): seq<FileMatch> {
    FilterFirst(scopes, matches, |matches|)
  }

  predicate HasSymbol(scopes: seq<Scope>) {
    exists s <- scopes :: s.kind == SYMBOL
  }

  /** filterSearchResultToStructuredScopes, as far as the matches go: the search engine has
      applied scopes without symbols already. */
  function FilterScoped(scopes: seq<Scope>, matches: seq<FileMatch>, engineScoped: bool): seq<FileMatch> {
    if scopes == [] || (engineScoped && !HasSymbol(scopes)) then matches else Filter(scopes, matches)
  }

  /** A covering scope admits the files that the covered one admits, and its lines. */
  lemma CoveringAdmits(t: Scope, s: Scope, m: FileMatch)
    requires Resolved(t) && Resolved(s) && Compatible(t, s) && Covers(t, s)
    ensures AdmitsFile(s, m) ==> AdmitsFile(t, m)
    ensures IsRange(s, m) ==> AdmitsFile(t, m) || (IsRange(t, m) && t.startLine == s.startLine &&
                                                   t.endLine == s.endLine)
  {
  }

  /** A file in the repository of a scope. */
  function FileAt(s: Scope, path: string): FileMatch {
    FileMatch(s.repositoryId, path, [])
  }

  lemma AboveItself(path: string)
    requires path != ""
    ensures Under(path, path) && !Under(path + "x", path)
  {
    assert (path + "x")[|path|] == 'x' && (path + "/")[|path|] == '/';
  }

  /** Within one repository covering is inclusion of what is admitted: a scope of whole files is covered exactly if all
      files that it admits are, and a symbol exactly if its file is, or by the same symbol. */
  lemma CoversIffIncludes(t: Scope, s: Scope)
    requires Resolved(t) && Resolved(s) && Compatible(t, s)
    requires t.repositoryId == s.repositoryId && t.repository == s.repository
    ensures s.kind != SYMBOL ==> (Covers(t, s) <==> forall m | AdmitsFile(s, m) :: AdmitsFile(t, m))
    ensures s.kind == SYMBOL ==> (Covers(t, s) <==> t == s || forall m | IsRange(s, m) :: AdmitsFile(t, m))
  {
    if Covers(t, s) {
      forall m ensures AdmitsFile(s, m) ==> AdmitsFile(t, m)
               ensures IsRange(s, m) ==> AdmitsFile(t, m) || (t.kind == SYMBOL && t == s) {
        CoveringAdmits(t, s, m);
      }
    } else {
      if t.path != "" {
        AboveItself(t.path);
      }
      if s.path != "" {
        AboveItself(s.path);
      }
      var m := FileAt(s, if s.kind == REPOSITORY then t.path + "x" else s.path);
      assert (AdmitsFile(s, m) || IsRange(s, m)) && !AdmitsFile(t, m);
    }
  }

  lemma TrimmedSlash(path: string)
    ensures TrimSlash(path + "/") == path
    ensures path != "" && path[|path| - 1] != '/' ==> TrimSlash(path) == path
  {
    assert (path + "/")[..|path|] == path;
  }

  /** A slash at the end of a path makes no difference, and a scope without a kind is one of a file. */
  lemma CoversIgnoresSlash(t: Scope, s: Scope)
    requires t.path != "" && TrimSlash(t.path) == t.path
    ensures Covers(t.(path := t.path + "/"), s) == Covers(t, s)
    ensures Covers(t.(kind := ""), s) == Covers(t.(kind := FILE), s)
    ensures s.path != "" && TrimSlash(s.path) == s.path ==> Covers(t, s.(path := s.path + "/")) == Covers(t, s)
  {
    TrimmedSlash(t.path);
    TrimmedSlash(s.path);
  }

  lemma CompactAdmits(scopes: seq<Scope>, m: FileMatch)
    requires WellFormed(scopes)
    ensures WholeFile(Compact(scopes), m) <==> WholeFile(scopes, m)
    ensures !WholeFile(scopes, m) ==>
              forall line :: LineAdmitted(Compact(scopes), m, line) <==> LineAdmitted(scopes, m, line)
  {
    var compacted := Compact(scopes);
    CompactIsAntichain(scopes);
    CompactCoversAll(scopes);
    forall s <- scopes
      ensures AdmitsFile(s, m) ==> WholeFile(compacted, m)
      ensures forall line | IsRange(s, m) && Spans(s, line) ::
              WholeFile(compacted, m) || LineAdmitted(compacted, m, line)
    {
      var t :| t in compacted && Covers(t, s);
      CoveringAdmits(t, s, m);
    }
  }

  lemma {:induction false} SameLines(a: seq<Scope>, b: seq<Scope>, m: FileMatch, n: nat)
    requires n <= |m.lines|
    requires forall line :: LineAdmitted(a, m, line) <==> LineAdmitted(b, m, line)
    ensures LinesIn(a, m, n) == LinesIn(b, m, n)
  {
    if n > 0 {
      SameLines(a, b, m, n - 1);
    }
  }

  lemma CompactFiltersMatch(scopes: seq<Scope>, m: FileMatch)
    requires WellFormed(scopes)
    ensures FilterMatch(Compact(scopes), m) == FilterMatch(scopes, m)
  {
    CompactAdmits(scopes, m);
    if !WholeFile(scopes, m) {
      SameLines(Compact(scopes), scopes, m, |m.lines|);
    }
  }

  lemma {:induction false} SameFilter(a: seq<Scope>, b: seq<Scope>, matches: seq<FileMatch>, n: nat)
    requires n <= |matches|
    requires forall i | 0 <= i < n :: FilterMatch(a, matches[i]) == FilterMatch(b, matches[i])
    ensures FilterFirst(a, matches, n) == FilterFirst(b, matches, n)
  {
    if n > 0 {
      SameFilter(a, b, matches, n - 1);
    }
  }

  /** Compacted scopes filter like the scopes they came from: the same files with the same lines. */
  lemma CompactFiltersAlike(scopes: seq<Scope>, matches: seq<FileMatch>)
    requires WellFormed(scopes)
    ensures Filter(Compact(scopes), matches) == Filter(scopes, matches)
    ensures FilterScoped(Compact(scopes), matches, false) == FilterScoped(scopes, matches, false)
  {
    forall i | 0 <= i < |matches| ensures FilterMatch(Compact(scopes), matches[i]) == FilterMatch(scopes, matches[i]) {
      CompactFiltersMatch(scopes, matches[i]);
    }
    SameFilter(Compact(scopes), scopes, matches, |matches|);
    CompactIsAntichain(scopes);
  }

  lemma {:induction false} AllLinesKept(scopes: seq<Scope>, m: FileMatch, n: nat)
    requires n <= |m.lines| && forall i | 0 <= i < n :: LineAdmitted(scopes, m, m.lines[i])
    ensures LinesIn(scopes, m, n) == m.lines[..n]
  {
    if n > 0 {
      AllLinesKept(scopes, m, n - 1);
      assert m.lines[..n] == m.lines[..n - 1] + [m.lines[n - 1]];
    }
  }

  lemma FilterMatchIsIdempotent(scopes: seq<Scope>, m: FileMatch)
    ensures var kept := FilterMatch(scopes, m);
            kept.Some? ==> FilterMatch(scopes, kept.value) == kept
  {
    if !WholeFile(scopes, m) {
      var lines := LinesIn(scopes, m, |m.lines|);
      var again := m.(lines := lines);
      forall s ensures AdmitsFile(s, again) <==> AdmitsFile(s, m) {
      }
      forall i | 0 <= i < |lines| ensures LineAdmitted(scopes, again, lines[i]) {
        assert lines[i] in lines;
        var s :| s in scopes && IsRange(s, m) && Spans(s, lines[i]);
        assert IsRange(s, again);
      }
      AllLinesKept(scopes, again, |lines|);
      assert lines[..|lines|] == lines;
    }
  }

  lemma {:induction false} FilterIsIdempotentFirst(scopes: seq<Scope>, matches: seq<FileMatch>, n: nat)
    requires n <= |matches|
    ensures Filter(scopes, FilterFirst(scopes, matches, n)) == FilterFirst(scopes, matches, n)
  {
    if n > 0 {
      var before, kept := FilterFirst(scopes, matches, n - 1), FilterMatch(scopes, matches[n - 1]);
      FilterIsIdempotentFirst(scopes, matches, n - 1);
      FilterMatchIsIdempotent(scopes, matches[n - 1]);
      if kept.Some? {
        var all := before + [kept.value];
        FilterOfPrefix(scopes, before, [kept.value], |before|);
        assert all[|before|] == kept.value && Filter(scopes, all) == FilterFirst(scopes, all, |before|) + [kept.value];
        assert FilterFirst(scopes, matches, n) == all;
      } else {
        assert FilterFirst(scopes, matches, n) == before;
      }
    }
  }

  lemma {:induction false} FilterOfPrefix(scopes: seq<Scope>, a: seq<FileMatch>, b: seq<FileMatch>, n: nat)
    requires n <= |a|
    ensures FilterFirst(scopes, a + b, n) == FilterFirst(scopes, a, n)
  {
    if n > 0 {
      FilterOfPrefix(scopes, a, b, n - 1);
    }
  }

  /** Filtering a filtered result changes nothing. */
  lemma FilterIsIdempotent(scopes: seq<Scope>, matches: seq<FileMatch>, engineScoped: bool)
    ensures var once := FilterScoped(scopes, matches, engineScoped);
            FilterScoped(scopes, once, engineScoped) == once
  {
    FilterIsIdempotentFirst(scopes, matches, |matches|);
  }

  /** Adding what is kept of one more file to what is kept of the others gives all files only if both do. */
  lemma KeptWhole(before: seq<FileMatch>, kept: Option<FileMatch>, matches: seq<FileMatch>, m: FileMatch)
    requires |before| <= |matches|
    ensures before + (if kept.Some? then [kept.value] else []) == matches + [m] <==>
            before == matches && kept == Some(m)
  {
    var all := before + (if kept.Some? then [kept.value] else []);
    if all == matches + [m] {
      assert |all| == |matches| + 1;
      assert before == all[..|matches|] == matches && all[|matches|] == m;
    }
  }

  /** The filter keeps the file as it is. */
  predicate IsKept(scopes: seq<Scope>, m: FileMatch) {
    FilterMatch(scopes, m) == Some(m)
  }

  lemma KeptStep(scopes: seq<Scope>, matches: seq<FileMatch>, n: nat)
    requires 0 < n <= |matches|
    ensures FilterFirst(scopes, matches, n) == matches[..n] <==>
            FilterFirst(scopes, matches, n - 1) == matches[..n - 1] && IsKept(scopes, matches[n - 1])
  {
    KeptWhole(FilterFirst(scopes, matches, n - 1), FilterMatch(scopes, matches[n - 1]), matches[..n - 1],
              matches[n - 1]);
    assert matches[..n] == matches[..n - 1] + [matches[n - 1]];
  }

  lemma {:induction false} FilterKeepsAll(scopes: seq<Scope>, matches: seq<FileMatch>, n: nat)
    requires n <= |matches|
    ensures FilterFirst(scopes, matches, n) == matches[..n] <==> forall i | 0 <= i < n :: IsKept(scopes, matches[i])
  {
    if n > 0 {
      FilterKeepsAll(scopes, matches, n - 1);
      KeptStep(scopes, matches, n);
    }
  }

  /** For any result that is taken to be scoped already, whether the engine did so or not: filtering by the compacted
      scopes has the same outcome exactly if compaction kept some symbol scope, or there was none, or the scopes admit
      every file of the result as a whole. */
  lemma EngineScopedFiltersAlike(scopes: seq<Scope>, matches: seq<FileMatch>)
    requires WellFormed(scopes)
    ensures FilterScoped(Compact(scopes), matches, true) == FilterScoped(scopes, matches, true) <==>
            (HasSymbol(Compact(scopes)) <==> HasSymbol(scopes)) || forall m <- matches :: WholeFile(scopes, m)
  {
    var compacted := Compact(scopes);
    CompactIsAntichain(scopes);
    CompactFiltersAlike(scopes, matches);
    FilterKeepsAll(scopes, matches, |matches|);
    assert matches[..|matches|] == matches;
    if HasSymbol(scopes) && !HasSymbol(compacted) {
      forall m <- matches ensures IsKept(scopes, m) <==> WholeFile(scopes, m) {
        CompactAdmits(scopes, m);
        CompactFiltersMatch(scopes, m);
        NoLinesWithoutSymbols(compacted, m, |m.lines|);
      }
    }
  }

  lemma {:induction false} NoLinesWithoutSymbols(scopes: seq<Scope>, m: FileMatch, n: nat)
    requires n <= |m.lines| && !HasSymbol(scopes)
    ensures LinesIn(scopes, m, n) == []
  {
    if n > 0 {
      NoLinesWithoutSymbols(scopes, m, n - 1);
    }
  }

  /** What the query that the engine makes of the scope lets through at most: files of the repository, below the
      directory or at the path of the scope, whatever their lines. */
  predicate EngineAdmits(s: Scope, m: FileMatch) {
    Concerns(s, m) &&
    (s.path == "" || if s.kind == DIRECTORY then Under(m.path, TrimSlash(s.path)) else m.path == TrimSlash(s.path))
  }

  /** The result of a search with these scopes. */
  predicate EngineScoped(scopes: seq<Scope>, matches: seq<FileMatch>) {
    scopes != [] ==> forall m <- matches :: exists s <- scopes :: EngineAdmits(s, m)
  }

  lemma EngineAdmitsFileOrRange(s: Scope, m: FileMatch)
    requires Resolved(s)
    ensures EngineAdmits(s, m) <==> AdmitsFile(s, m) || IsRange(s, m)
  {
  }

  /** A search with compacted scopes keeps the same files and lines as filtering its result by the original scopes:
      when compaction removes the last symbol scope nothing is filtered, and nothing needs to be. */
  lemma CompactedSearchFiltersAlike(scopes: seq<Scope>, matches: seq<FileMatch>)
    requires WellFormed(scopes) && EngineScoped(Compact(scopes), matches)
    ensures FilterScoped(Compact(scopes), matches, true) == FilterScoped(scopes, matches, true)
    ensures FilterScoped(Compact(scopes), matches, true) == Filter(scopes, matches) || scopes == []
  {
    var compacted := Compact(scopes);
    CompactIsAntichain(scopes);
    EngineScopedFiltersAlike(scopes, matches);
    if scopes != [] && !HasSymbol(compacted) {
      forall m <- matches ensures IsKept(scopes, m) && WholeFile(scopes, m) {
        var s :| s in compacted && EngineAdmits(s, m);
        EngineAdmitsFileOrRange(s, m);
        CompactAdmits(scopes, m);
      }
      FilterKeepsAll(scopes, matches, |matches|);
      assert matches[..|matches|] == matches;
    } else {
      CompactFiltersAlike(scopes, matches);
    }
  }

  // ---------------------------------------------------------------- repository filters in between

  /** Those of the first n scopes whose repository a filter accepts. */
  function KeptOf(scopes: seq<Scope>, n: nat, accepts: nat -> bool): seq<Scope>
    requires n <= |scopes|
  {
    if n == 0 then []
    else KeptOf(scopes, n - 1, accepts) + if accepts(scopes[n - 1].repositoryId) then [scopes[n - 1]] else []
  }

  /** What a repository filter leaves of a list of scopes. */
  function Kept(scopes: seq<Scope>, accepts: nat -> bool): seq<Scope> {
    KeptOf(scopes, |scopes|, accepts)
  }

  lemma {:induction false} KeptAre(scopes: seq<Scope>, n: nat, accepts: nat -> bool)
    requires n <= |scopes|
    ensures forall s :: s in KeptOf(scopes, n, accepts) <==> s in scopes[..n] && accepts(s.repositoryId)
  {
    if n > 0 {
      KeptAre(scopes, n - 1, accepts);
      assert scopes[..n] == scopes[..n - 1] + [scopes[n - 1]];
    }
  }

  lemma {:induction false} KeptOfPrefix(a: seq<Scope>, b: seq<Scope>, n: nat, accepts: nat -> bool)
    requires n <= |a|
    ensures KeptOf(a + b, n, accepts) == KeptOf(a, n, accepts)
  {
    if n > 0 {
      KeptOfPrefix(a, b, n - 1, accepts);
    }
  }

  lemma KeptAppend(scopes: seq<Scope>, s: Scope, accepts: nat -> bool)
    ensures Kept(scopes + [s], accepts) == Kept(scopes, accepts) + if accepts(s.repositoryId) then [s] else []
  {
    KeptOfPrefix(scopes, [s], |scopes|, accepts);
  }

  /** Dropping scopes and dropping the covered ones commute, as long as the new scope is not dropped. */
  lemma {:induction false} KeptUncovered(scopes: seq<Scope>, n: nat, s: Scope, accepts: nat -> bool)
    requires n <= |scopes| && accepts(s.repositoryId)
    ensures Kept(Uncovered(scopes, n, s), accepts) ==
            Uncovered(KeptOf(scopes, n, accepts), |KeptOf(scopes, n, accepts)|, s)
  {
    if n > 0 {
      var last, kept := scopes[n - 1], KeptOf(scopes, n - 1, accepts);
      KeptUncovered(scopes, n - 1, s, accepts);
      KeptAppend(Uncovered(scopes, n - 1, s), last, accepts);
      if accepts(last.repositoryId) {
        UncoveredOfPrefix(kept, [last], |kept|, s);
        assert (kept + [last])[|kept|] == last;
      } else {
        assert KeptOf(scopes, n, accepts) == kept && !Covers(s, last);
      }
    }
  }

  lemma {:induction false} UncoveredOfPrefix(a: seq<Scope>, b: seq<Scope>, n: nat, s: Scope)
    requires n <= |a|
    ensures Uncovered(a + b, n, s) == Uncovered(a, n, s)
  {
    if n > 0 {
      UncoveredOfPrefix(a, b, n - 1, s);
    }
  }

  /** A scope that is dropped covers only scopes that are dropped too. */
  lemma {:induction false} KeptUncoveredByDropped(scopes: seq<Scope>, n: nat, s: Scope, accepts: nat -> bool)
    requires n <= |scopes| && !accepts(s.repositoryId)
    ensures Kept(Uncovered(scopes, n, s), accepts) == KeptOf(scopes, n, accepts)
  {
    if n > 0 {
      KeptUncoveredByDropped(scopes, n - 1, s, accepts);
      KeptAppend(Uncovered(scopes, n - 1, s), scopes[n - 1], accepts);
    }
  }

  lemma KeptAdd(output: seq<Scope>, s: Scope, accepts: nat -> bool)
    ensures Kept(Add(output, s), accepts) ==
            if accepts(s.repositoryId) then Add(Kept(output, accepts), s) else Kept(output, accepts)
  {
    KeptAre(output, |output|, accepts);
    assert output[..|output|] == output;
    if !CoveredBy(s, output) {
      KeptAppend(Uncovered(output, |output|, s), s, accepts);
      if accepts(s.repositoryId) {
        KeptUncovered(output, |output|, s, accepts);
      } else {
        KeptUncoveredByDropped(output, |output|, s, accepts);
      }
    }
  }

  lemma {:induction false} CompactOfPrefix(a: seq<Scope>, b: seq<Scope>, n: nat)
    requires n <= |a|
    ensures CompactFirst(a + b, n) == CompactFirst(a, n)
  {
    if n > 0 {
      CompactOfPrefix(a, b, n - 1);
    }
  }

  lemma {:induction false} FirstCompactThenKeep(scopes: seq<Scope>, n: nat, accepts: nat -> bool)
    requires n <= |scopes|
    ensures Kept(CompactFirst(scopes, n), accepts) == Compact(KeptOf(scopes, n, accepts))
  {
    if n > 0 {
      var kept := KeptOf(scopes, n - 1, accepts);
      FirstCompactThenKeep(scopes, n - 1, accepts);
      KeptAdd(CompactFirst(scopes, n - 1), scopes[n - 1], accepts);
      if accepts(scopes[n - 1].repositoryId) {
        CompactOfPrefix(kept, [scopes[n - 1]], |kept|);
        assert (kept + [scopes[n - 1]])[|kept|] == scopes[n - 1];
      } else {
        assert KeptOf(scopes, n, accepts) == kept;
      }
    }
  }

  /** Dropping scopes by repository commutes with compaction. */
  lemma CompactThenKeep(scopes: seq<Scope>, accepts: nat -> bool)
    ensures Kept(Compact(scopes), accepts) == Compact(Kept(scopes, accepts))
  {
    FirstCompactThenKeep(scopes, |scopes|, accepts);
  }

  /** The search as a whole: scopes are compacted, a repository filter drops some of them, the engine searches what is
      left, and its result is filtered.  That keeps the same files and lines as filtering by those of the original
      scopes that the repository filter accepts. */
  lemma FilteredSearchFiltersAlike(scopes: seq<Scope>, accepts: nat -> bool, matches: seq<FileMatch>)
    requires WellFormed(scopes) && EngineScoped(Kept(Compact(scopes), accepts), matches)
    ensures var searched := Kept(Compact(scopes), accepts);
            && FilterScoped(searched, matches, true) == FilterScoped(Kept(scopes, accepts), matches, true)
            && (searched != [] ==> FilterScoped(searched, matches, true) == Filter(Kept(scopes, accepts), matches))
            && (searched == [] <==> Kept(scopes, accepts) == [])
  {
    var kept := Kept(scopes, accepts);
    CompactThenKeep(scopes, accepts);
    KeptAre(scopes, |scopes|, accepts);
    assert scopes[..|scopes|] == scopes;
    CompactedSearchFiltersAlike(kept, matches);
    CompactIsAntichain(kept);
  }

  /** The theorem relies on the engine: a file, a symbol in it, and a match elsewhere, which no search with these
      scopes returns and which would go unfiltered. */
  lemma FilterReliesOnTheEngine(symbol: Scope, file: Scope, m: FileMatch)
    requires symbol == Scope(1, "r", SYMBOL, "a", "x", 3, 4) && file == Scope(1, "r", FILE, "a", "", 0, 0)
    requires m == FileMatch(1, "b", [Line(9, 1)])
    ensures WellFormed([symbol, file]) && !EngineScoped(Compact([symbol, file]), [m])
    ensures FilterScoped(Compact([symbol, file]), [m], true) == [m]
    ensures FilterScoped([symbol, file], [m], true) == []
  {
    var scopes := [symbol, file];
    assert TrimSlash("a") == "a" && "a" != "b" && TrimSlash("a") != "b";
    assert scopes[0] == symbol && scopes[1] == file && symbol in scopes;
    assert CompactFirst(scopes, 1) == Add([], symbol) == [symbol];
    assert Covers(file, symbol) && !Covers(symbol, file);
    assert Uncovered([symbol], 0, file) == [] && Uncovered([symbol], 1, file) == [];
    assert !CoveredBy(file, [symbol]);
    assert Compact(scopes) == [file];
    assert !WholeFile(scopes, m) && !LineAdmitted(scopes, m, m.lines[0]);
    assert LinesIn(scopes, m, 1) == LinesIn(scopes, m, 0) == [];
    assert FilterFirst(scopes, [m], 0) == [];
    assert m in [m] && !EngineAdmits(file, m);
  }

  // ---------------------------------------------------------------- filtering in place

  /** A file of a result: its lines are the first `length` elements of a buffer of its own. */
  datatype FileSlice = FileSlice(repositoryId: int, path: string, buffer: array<Line>, length: nat)

  datatype Result = Result(matches: seq<FileSlice>, matchCount: int, fileCount: nat, truncated: bool,
                           totalFilesExact: bool)

  function ValueOf(f: FileSlice): FileMatch
    requires f.length <= f.buffer.Length
    reads f.buffer
  {
    FileMatch(f.repositoryId, f.path, f.buffer[..f.length])
  }

  /** The files of a result do not share buffers. */
  predicate Separate(matches: seq<FileSlice>) {
    && (forall f <- matches :: f.length <= f.buffer.Length)
    && forall i, j | 0 <= i < j < |matches| :: matches[i].buffer != matches[j].buffer
  }

  ghost function BuffersOf(matches: seq<FileSlice>): set<object> {
    set f | f in matches :: f.buffer
  }

  lemma AdmittedByRange(ranges: seq<Scope>, scopes: seq<Scope>, m: FileMatch, line: Line)
    requires forall s :: s in ranges <==> s in scopes && IsRange(s, m)
    ensures (exists s <- ranges :: Spans(s, line)) <==> LineAdmitted(scopes, m, line)
  {
  }

  /** Some lines stand at the front of the buffer, and from line i on those it had. */
  ghost predicate Front(f: FileSlice, kept: nat, list: seq<Line>, i: nat, was: seq<Line>)
    requires i <= |was|
    reads f.buffer
  {
    && kept == |list| <= i && f.length == |was| <= f.buffer.Length
    && (forall j | 0 <= j < kept :: f.buffer[j] == list[j])
    && forall j | i <= j < f.length :: f.buffer[j] == was[j]
  }

  method KeepLine(f: FileSlice, ranges: seq<Scope>, i: nat, kept: nat, ghost list: seq<Line>, ghost was: seq<Line>)
    returns (kept': nat)
    requires i < |was| && Front(f, kept, list, i, was)
    modifies f.buffer
    ensures Front(f, kept', list + (if exists s <- ranges :: Spans(s, was[i]) then [was[i]] else []), i + 1, was)
  {
    var line := f.buffer[i];
    kept' := kept;
    if exists s <- ranges :: Spans(s, line) {
      f.buffer[kept] := line;
      kept' := kept + 1;
    }
  }

  /** The loop over the lines of one file; what it keeps overwrites the front of the buffer. */
  method FilterLines(f: FileSlice, ranges: seq<Scope>, ghost scopes: seq<Scope>, ghost was: FileMatch)
    returns (kept: nat)
    requires f.length <= f.buffer.Length && ValueOf(f) == was
    requires forall s :: s in ranges <==> s in scopes && IsRange(s, was)
    modifies f.buffer
    ensures kept <= f.length && f.buffer[..kept] == LinesIn(scopes, was, f.length)
  {
    kept := 0;
    for i := 0 to f.length
      invariant Front(f, kept, LinesIn(scopes, was, i), i, was.lines)
    {
      AdmittedByRange(ranges, scopes, was, was.lines[i]);
      kept := KeepLine(f, ranges, i, kept, LinesIn(scopes, was, i), was.lines);
    }
  }

  lemma OneMoreScope(scopes: seq<Scope>, s: Scope, m: FileMatch)
    ensures WholeFile(scopes + [s], m) <==> WholeFile(scopes, m) || AdmitsFile(s, m)
  {
    if AdmitsFile(s, m) {
      assert s in scopes + [s];
    }
    if t :| t in scopes && AdmitsFile(t, m) {
      assert t in scopes + [s];
    }
  }

  /** The inner loop over the scopes: does one admit the file, and which are symbols in it? */
  method ScopesFor(scopes: seq<Scope>, repositoryId: int, path: string, ghost m: FileMatch)
    returns (wholeFile: bool, ranges: seq<Scope>)
    requires m.repositoryId == repositoryId && m.path == path
    ensures wholeFile <==> WholeFile(scopes, m)
    ensures forall s :: s in ranges <==> s in scopes && IsRange(s, m)
  {
    wholeFile, ranges := false, [];
    for i := 0 to |scopes|
      invariant wholeFile <==> WholeFile(scopes[..i], m)
      invariant forall s :: s in ranges <==> s in scopes[..i] && IsRange(s, m)
    {
      var scope := scopes[i];
      OneMoreScope(scopes[..i], scope, m);
      assert scopes[..i + 1] == scopes[..i] + [scope];
      if scope.repositoryId > 0 && scope.repositoryId != repositoryId {
        continue;
      }
      var scopePath := TrimSlash(scope.path);
      if scope.kind == REPOSITORY {
        wholeFile := true;
      } else if scope.kind == DIRECTORY {
        if path == scopePath || scopePath + "/" <= path {
          wholeFile := true;
        }
      } else if scope.kind == SYMBOL {
        if path == scopePath {
          ranges := ranges + [scope];
        }
      } else if path == scopePath {
        wholeFile := true;
      }
    }
    assert scopes[..|scopes|] == scopes;
  }

  /** The body of the loop over the files: what is left of one file, if anything. */
  method FilterFile(scopes: seq<Scope>, f: FileSlice, ghost was: FileMatch) returns (kept: Option<FileSlice>)
    requires f.length <= f.buffer.Length && ValueOf(f) == was
    modifies f.buffer
    ensures kept.Some? <==> FilterMatch(scopes, was).Some?
    ensures kept.Some? ==> kept.value.buffer == f.buffer && kept.value.length <= f.length &&
                           ValueOf(kept.value) == FilterMatch(scopes, was).value
  {
    var wholeFile, ranges := ScopesFor(scopes, f.repositoryId, f.path, was);
    if wholeFile {
      return Some(f);
    }
    var length := FilterLines(f, ranges, scopes, was);
    if length == 0 {
      return None;
    }
    return Some(f.(length := length));
  }

  /** MatchCount: at least one for each line. */
  function CountLines(lines: seq<Line>): nat {
    if lines == [] then 0
    else CountLines(lines[..|lines| - 1]) + if lines[|lines| - 1].fragments > 1 then lines[|lines| - 1].fragments else 1
  }

  function CountMatches(matches: seq<FileMatch>): nat {
    if matches == [] then 0 else CountMatches(matches[..|matches| - 1]) + CountLines(matches[|matches| - 1].lines)
  }

  /** What one file contributes to MatchCount. */
  function LinesKept(scopes: seq<Scope>, m: FileMatch): nat {
    var kept := FilterMatch(scopes, m);
    if kept.Some? then CountLines(kept.value.lines) else 0
  }

  function CountKept(scopes: seq<Scope>, matches: seq<FileMatch>, n: nat): nat
    requires n <= |matches|
  {
    if n == 0 then 0 else CountKept(scopes, matches, n - 1) + LinesKept(scopes, matches[n - 1])
  }

  lemma {:induction false} CountKeptIsMatchCount(scopes: seq<Scope>, matches: seq<FileMatch>, n: nat)
    requires n <= |matches|
    ensures CountKept(scopes, matches, n) == CountMatches(FilterFirst(scopes, matches, n))
  {
    if n > 0 {
      CountKeptIsMatchCount(scopes, matches, n - 1);
      var before, kept := FilterFirst(scopes, matches, n - 1), FilterMatch(scopes, matches[n - 1]);
      if kept.Some? {
        assert (before + [kept.value])[..|before|] == before;
      } else {
        assert FilterFirst(scopes, matches, n) == before;
      }
    }
  }

  method CountSlice(f: FileSlice) returns (count: nat)
    requires f.length <= f.buffer.Length
    ensures count == CountLines(f.buffer[..f.length])
  {
    count := 0;
    for i := 0 to f.length
      invariant count == CountLines(f.buffer[..i])
    {
      assert f.buffer[..i + 1][..i] == f.buffer[..i];
      count := count + if f.buffer[i].fragments > 1 then f.buffer[i].fragments else 1;
    }
  }

  /** The slices hold these files. */
  ghost predicate Represents(slices: seq<FileSlice>, files: seq<FileMatch>)
    reads BuffersOf(slices)
  {
    && |slices| == |files|
    && forall i | 0 <= i < |slices| :: slices[i].length <= slices[i].buffer.Length && ValueOf(slices[i]) == files[i]
  }

  /** The kept files stem from different files among the first i, whose buffers they took over. */
  predicate Stem(filtered: seq<FileSlice>, origin: seq<nat>, matches: seq<FileSlice>, i: nat)
    requires i <= |matches|
  {
    && |origin| == |filtered|
    && (forall k | 0 <= k < |filtered| :: origin[k] < i && filtered[k].buffer == matches[origin[k]].buffer)
    && forall k, l | 0 <= k < l < |filtered| :: origin[k] < origin[l]
  }

  lemma StemIsSeparate(filtered: seq<FileSlice>, origin: seq<nat>, matches: seq<FileSlice>, i: nat)
    requires i <= |matches| && Stem(filtered, origin, matches, i) && Separate(matches)
    requires forall f <- filtered :: f.length <= f.buffer.Length
    ensures Separate(filtered) && BuffersOf(filtered) <= BuffersOf(matches)
  {
    forall f <- filtered ensures f.buffer in BuffersOf(matches) {
      var k :| 0 <= k < |filtered| && filtered[k] == f;
      assert matches[origin[k]] in matches;
    }
  }

  lemma StemGrows(filtered: seq<FileSlice>, origin: seq<nat>, matches: seq<FileSlice>, i: nat, f: FileSlice)
    requires i < |matches| && Stem(filtered, origin, matches, i) && f.buffer == matches[i].buffer
    ensures Stem(filtered, origin, matches, i + 1) && Stem(filtered + [f], origin + [i], matches, i + 1)
  {
  }

  /** What the loop over the files has done after i of them. */
  ghost predicate Progress(scopes: seq<Scope>, matches: seq<FileSlice>, was: seq<FileMatch>, i: nat,
                           filtered: seq<FileSlice>, origin: seq<nat>, matchCount: nat)
    requires i <= |matches| == |was|
    reads BuffersOf(matches), BuffersOf(filtered)
  {
    && (forall j | i <= j < |matches| :: matches[j].length <= matches[j].buffer.Length && ValueOf(matches[j]) == was[j])
    && Stem(filtered, origin, matches, i)
    && Represents(filtered, FilterFirst(scopes, was, i))
    && matchCount == CountKept(scopes, was, i)
  }

  /** One turn of the loop over the files. */
  method FilterNext(scopes: seq<Scope>, matches: seq<FileSlice>, i: nat, filtered: seq<FileSlice>, matchCount: nat,
                    ghost origin: seq<nat>, ghost was: seq<FileMatch>)
    returns (filtered': seq<FileSlice>, matchCount': nat, ghost origin': seq<nat>)
    requires i < |matches| == |was| && Separate(matches)
    requires Progress(scopes, matches, was, i, filtered, origin, matchCount)
    modifies matches[i].buffer
    ensures Progress(scopes, matches, was, i + 1, filtered', origin', matchCount')
  {
    var kept := FilterFile(scopes, matches[i], was[i]);
    filtered', matchCount', origin' := filtered, matchCount, origin;
    StemGrows(filtered, origin, matches, i, matches[i]);
    assert Represents(filtered, FilterFirst(scopes, was, i));
    if kept.Some? {
      var count := CountSlice(kept.value);
      matchCount' := matchCount + count;
      filtered', origin' := filtered + [kept.value], origin + [i];
    }
  }

  /** The loop over the files of a result. */
  method FilterFiles(scopes: seq<Scope>, matches: seq<FileSlice>, ghost was: seq<FileMatch>)
    returns (filtered: seq<FileSlice>, matchCount: nat)
    requires Separate(matches) && Represents(matches, was)
    modifies BuffersOf(matches)
    ensures Represents(filtered, Filter(scopes, was))
    ensures Separate(filtered) && BuffersOf(filtered) <= BuffersOf(matches)
    ensures matchCount == CountMatches(Filter(scopes, was))
  {
    filtered, matchCount := [], 0;
    ghost var origin: seq<nat> := [];
    for i := 0 to |matches|
      invariant Progress(scopes, matches, was, i, filtered, origin, matchCount)
    {
      assert matches[i] in matches;
      filtered, matchCount, origin := FilterNext(scopes, matches, i, filtered, matchCount, origin, was);
    }
    StemIsSeparate(filtered, origin, matches, |matches|);
    CountKeptIsMatchCount(scopes, was, |matches|);
  }

  /** filterSearchResultToStructuredScopes.  The lines of the files of `result` are overwritten on
      the way; what is returned holds what the filter leaves of the files as they were. */
  method FilterSearchResult(result: Result, scopes: seq<Scope>, engineScoped: bool, ghost was: seq<FileMatch>)
    returns (filtered: Result)
    requires Separate(result.matches) && Represents(result.matches, was)
    modifies BuffersOf(result.matches)
    ensures Separate(filtered.matches) && BuffersOf(filtered.matches) <= BuffersOf(result.matches)
    ensures Represents(filtered.matches, FilterScoped(scopes, was, engineScoped))
    ensures scopes == [] || (engineScoped && !HasSymbol(scopes)) ==> filtered == result
    ensures scopes != [] && (engineScoped ==> HasSymbol(scopes)) ==>
              && filtered.matchCount == CountMatches(Filter(scopes, was))
              && filtered.fileCount == |Filter(scopes, was)|
              && filtered.totalFilesExact == result.totalFilesExact
              && filtered.truncated == (result.truncated && !result.totalFilesExact)
  {
    if scopes == [] {
      return result;
    }
    if engineScoped {
      var hasSymbolScope := exists s <- scopes :: s.kind == SYMBOL;
      if !hasSymbolScope {
        return result;
      }
    }
    var matches, matchCount := FilterFiles(scopes, result.matches, was);
    filtered := Result(matches, matchCount, |matches|, result.truncated, result.totalFilesExact);
    if filtered.totalFilesExact {
      filtered := filtered.(truncated := false);
    }
  }
}
