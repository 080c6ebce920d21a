/** Files of ignore rules: loading them, and the verdict of the walk in terms of their lines. */
module IgnoreFiles {

  import opened Globs
  import opened IgnoreRules
  import opened IgnoreWalk

  /** The lines of a .gitignore and the directory it lies in. */
  datatype IgnoreFile = IgnoreFile(base: Path, lines: seq<string>)

  /** A path below a base, slash-separated. */
  function Join(names: Path): string {
    if names == [] then "" else if |names| == 1 then names[0] else names[0] + "/" + Join(names[1..])
  }

  /** A path below another: the path down to it, a slash, and the rest. */
  lemma {:induction false} JoinBelow(above: Path, below: Path)
    ensures above != [] && below != [] ==> Join(above + below) == Join(above) + "/" + Join(below)
    ensures forall name :: Join([name]) == name
  {
    if above != [] && below != [] {
      assert (above + below)[1..] == above[1..] + below;
      if |above| == 1 {
        assert above + below == [above[0]] + below;
        assert above[1..] + below == below;
      } else {
        JoinBelow(above[1..], below);
      }
    }
  }

  /** The rule of the walk that a compiled line is. */
  function PatternOf(m: Brackets, compiled: IgnorePattern): Pattern {
    Pattern((path: Path) => PatternMatches(m, compiled, Join(path)), compiled.negate)
  }

  /** The line holds a rule, and its bracket expressions are well formed. */
  predicate Usable(valid: string -> bool, line: string) {
    RuleOf(line).Some? && Compiles(valid, RuleOf(line).value)
  }

  function CompiledLine(line: string): IgnorePattern
    requires RuleOf(line).Some?
  {
    var rule := RuleOf(line).value;
    IgnorePattern(ExpressionOf(rule), rule.negate, rule.directoryOnly)
  }

  /** The usable ones of the first n lines, compiled. */
  function PatternsOf(m: Brackets, valid: string -> bool, lines: seq<string>, n: nat): seq<Pattern>
    requires n <= |lines|
  {
    if n == 0 then []
    else PatternsOf(m, valid, lines, n - 1)
         + if Usable(valid, lines[n - 1]) then [PatternOf(m, CompiledLine(lines[n - 1]))] else []
  }

  function ScopeOf(m: Brackets, valid: string -> bool, file: IgnoreFile, n: nat): Scope
    requires n <= |file.lines|
  {
    Scope(file.base, PatternsOf(m, valid, file.lines, n))
  }

  function ScopesOf(m: Brackets, valid: string -> bool, files: seq<IgnoreFile>): seq<Scope> {
    seq(|files|, i requires 0 <= i < |files| => ScopeOf(m, valid, files[i], |files[i].lines|))
  }

  lemma CompiledIsUsable(valid: string -> bool, line: string, r: IgnoreRules.Option<IgnorePattern>)
    requires Compiled(valid, RuleOf(line), r)
    ensures r.Some? <==> Usable(valid, line)
    ensures r.Some? ==> r.value == CompiledLine(line)
  {
  }

  /** The loop of loadIgnoreScope over the lines of a file. */
  method LoadIgnoreScope(m: Brackets, valid: string -> bool, file: IgnoreFile) returns (scope: Scope, usable: bool)
    ensures scope == ScopeOf(m, valid, file, |file.lines|)
    ensures usable <==> exists line <- file.lines :: Usable(valid, line)
  {
    hide Compiled, Usable, CompiledLine, PatternOf;
    scope, usable := Scope(file.base, []), false;
    for n := 0 to |file.lines|
      invariant scope == ScopeOf(m, valid, file, n)
      invariant usable <==> exists k | 0 <= k < n :: Usable(valid, file.lines[k])
    {
      var pattern := CompileIgnorePattern(valid, file.lines[n]);
      CompiledIsUsable(valid, file.lines[n], pattern);
      if pattern.Some? {
        scope := scope.(patterns := scope.patterns + [PatternOf(m, pattern.value)]);
        usable := true;
      }
    }
  }

  // ---------------------------------------------------------------- the last line decides

  /** The line applies to the path, read without regular expressions. */
  predicate LineMatches(m: Brackets, valid: string -> bool, base: Path, line: string, path: Path) {
    && Usable(valid, line) && Encloses(base, path) && base != path
    && Applies(m, RuleOf(line).value, Join(path[|base|..]))
  }

  predicate MatchesAt(m: Brackets, valid: string -> bool, file: IgnoreFile, l: nat, path: Path) {
    l < |file.lines| && LineMatches(m, valid, file.base, file.lines[l], path)
  }

  /** Line l is the last of the first n lines that applies. */
  predicate IsLastLine(m: Brackets, valid: string -> bool, file: IgnoreFile, l: nat, n: nat, path: Path) {
    l < n && MatchesAt(m, valid, file, l, path) && forall k | l < k < n :: !MatchesAt(m, valid, file, k, path)
  }

  predicate Negates(line: string) {
    RuleOf(line).Some? && RuleOf(line).value.negate
  }

  lemma LineIsRule(m: Brackets, valid: string -> bool, base: Path, line: string, path: Path)
    requires Usable(valid, line)
    ensures RuleMatches(base, PatternOf(m, CompiledLine(line)), path) <==> LineMatches(m, valid, base, line, path)
  {
    if Encloses(base, path) {
      CompiledPatternApplies(m, RuleOf(line).value, CompiledLine(line), Join(path[|base|..]));
    }
  }

  lemma {:induction false} VerdictOfPrefix(a: Scope, b: Scope, n: nat, path: Path, earlier: bool)
    requires a.base == b.base && n <= |a.patterns| && a.patterns <= b.patterns
    ensures ScopeVerdict(a, n, path, earlier) == ScopeVerdict(b, n, path, earlier)
  {
    if n > 0 {
      VerdictOfPrefix(a, b, n - 1, path, earlier);
    }
  }

  function FileVerdict(m: Brackets, valid: string -> bool, file: IgnoreFile, n: nat, path: Path, earlier: bool): bool
    requires n <= |file.lines|
  {
    ScopeVerdict(ScopeOf(m, valid, file, n), |ScopeOf(m, valid, file, n).patterns|, path, earlier)
  }

  lemma OneMoreLine(m: Brackets, valid: string -> bool, file: IgnoreFile, n: nat, path: Path, earlier: bool)
    requires n < |file.lines|
    ensures FileVerdict(m, valid, file, n + 1, path, earlier) ==
            if MatchesAt(m, valid, file, n, path) then !Negates(file.lines[n])
            else FileVerdict(m, valid, file, n, path, earlier)
  {
    hide Compiles, RuleOf, Applies;
    var before, after := ScopeOf(m, valid, file, n), ScopeOf(m, valid, file, n + 1);
    if Usable(valid, file.lines[n]) {
      var rule := PatternOf(m, CompiledLine(file.lines[n]));
      assert after.patterns == before.patterns + [rule] && rule.negate == Negates(file.lines[n]);
      LineIsRule(m, valid, file.base, file.lines[n], path);
      VerdictOfPrefix(before, after, |before.patterns|, path, earlier);
      assert RuleMatches(after.base, after.patterns[|before.patterns|], path) <==> MatchesAt(m, valid, file, n, path);
    } else {
      assert after == before;
    }
  }

  lemma NoLines(m: Brackets, valid: string -> bool, file: IgnoreFile, path: Path, earlier: bool)
    ensures FileVerdict(m, valid, file, 0, path, earlier) == earlier
  {
  }

  /** The last line of a file that applies decides; without one (-1) the earlier verdict stands. */
  lemma {:induction false} LastLineOfFile(m: Brackets, valid: string -> bool, file: IgnoreFile, n: nat, path: Path,
                                          earlier: bool)
    returns (l: int)
    requires n <= |file.lines|
    ensures -1 <= l < n
    ensures if l == -1 then forall k: nat | k < n :: !MatchesAt(m, valid, file, k, path)
            else IsLastLine(m, valid, file, l, n, path)
    ensures FileVerdict(m, valid, file, n, path, earlier) == if l == -1 then earlier else !Negates(file.lines[l])
  {
    hide FileVerdict, MatchesAt, Negates;
    if n == 0 {
      NoLines(m, valid, file, path, earlier);
      l := -1;
    } else {
      OneMoreLine(m, valid, file, n - 1, path, earlier);
      if MatchesAt(m, valid, file, n - 1, path) {
        l := n - 1;
      } else {
        l := LastLineOfFile(m, valid, file, n - 1, path, earlier);
      }
    }
  }

  /** Line l of file f is the last line of all files that applies. */
  ghost predicate IsLastOfAll(m: Brackets, valid: string -> bool, files: seq<IgnoreFile>, f: nat, l: nat, path: Path) {
    && f < |files| && IsLastLine(m, valid, files[f], l, |files[f].lines|, path)
    && forall g, k: nat | f < g < |files| :: !MatchesAt(m, valid, files[g], k, path)
  }

  /** What the files say of a path, with the rules read as globs on its components. */
  ghost predicate LinesIgnore(m: Brackets, valid: string -> bool, files: seq<IgnoreFile>, path: Path) {
    exists f: nat, l: nat :: IsLastOfAll(m, valid, files, f, l, path) && !Negates(files[f].lines[l])
  }

  lemma {:induction false} VerdictOfFirst(a: seq<Scope>, b: seq<Scope>, n: nat, path: Path)
    requires n <= |a| && a <= b
    ensures Verdict(a, n, path) == Verdict(b, n, path)
  {
    if n > 0 {
      VerdictOfFirst(a, b, n - 1, path);
    }
  }

  lemma OneMoreFile(m: Brackets, valid: string -> bool, files: seq<IgnoreFile>, file: IgnoreFile, path: Path)
    ensures Ignored(ScopesOf(m, valid, files + [file]), path) ==
            FileVerdict(m, valid, file, |file.lines|, path, Ignored(ScopesOf(m, valid, files), path))
  {
    var before, after := ScopesOf(m, valid, files), ScopesOf(m, valid, files + [file]);
    assert after == before + [ScopeOf(m, valid, file, |file.lines|)];
    VerdictOfFirst(before, after, |files|, path);
  }

  lemma LaterFileDecides(m: Brackets, valid: string -> bool, files: seq<IgnoreFile>, file: IgnoreFile, l: nat,
                         path: Path)
    requires IsLastLine(m, valid, file, l, |file.lines|, path)
    ensures LinesIgnore(m, valid, files + [file], path) <==> !Negates(file.lines[l])
  {
    var all := files + [file];
    assert all[|files|] == file;
    assert IsLastOfAll(m, valid, all, |files|, l, path);
    forall f: nat, k: nat | IsLastOfAll(m, valid, all, f, k, path) ensures f == |files| && k == l {
    }
  }

  lemma LaterFileAbstains(m: Brackets, valid: string -> bool, files: seq<IgnoreFile>, file: IgnoreFile, path: Path)
    requires forall l: nat :: !MatchesAt(m, valid, file, l, path)
    ensures LinesIgnore(m, valid, files + [file], path) <==> LinesIgnore(m, valid, files, path)
  {
    var all := files + [file];
    assert all[|files|] == file;
    forall f: nat, l: nat ensures IsLastOfAll(m, valid, all, f, l, path) <==> IsLastOfAll(m, valid, files, f, l, path) {
      if f < |files| {
        assert all[f] == files[f];
        if IsLastOfAll(m, valid, all, f, l, path) {
          forall g, k: nat | f < g < |files| ensures !MatchesAt(m, valid, files[g], k, path) {
            assert !MatchesAt(m, valid, all[g], k, path);
          }
        }
      }
    }
  }

  /** A directory is ignored exactly if some line applies to it and the last one that does, of the innermost file
      with one, is not a negation. */
  lemma {:induction false} LastLineDecides(m: Brackets, valid: string -> bool, files: seq<IgnoreFile>, path: Path)
    ensures Ignored(ScopesOf(m, valid, files), path) <==> LinesIgnore(m, valid, files, path)
  {
    if files != [] {
      var front, file := files[..|files| - 1], files[|files| - 1];
      assert files == front + [file];
      LastLineDecides(m, valid, front, path);
      var earlier := Ignored(ScopesOf(m, valid, front), path);
      OneMoreFile(m, valid, front, file, path);
      var l := LastLineOfFile(m, valid, file, |file.lines|, path, earlier);
      if l == -1 {
        LaterFileAbstains(m, valid, front, file, path);
      } else {
        LaterFileDecides(m, valid, front, file, l, path);
      }
    }
  }
}
