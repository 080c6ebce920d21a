/** The walk and the ignore files together: which directories are skipped, in terms of the lines of the files. */
module IgnoreDiscovery {

  import opened Globs
  import opened IgnoreRules
  import opened IgnoreFiles
  import opened IgnoreWalk

  /** The lines of the .gitignore in a directory; a directory without one has no lines. */
  type Contents = Path -> seq<string>

  predicate AnyUsable(valid: string -> bool, lines: seq<string>) {
    exists line <- lines :: Usable(valid, line)
  }

  /** The rules of every directory of the tree are those that loading its file gives. */
  ghost predicate Loaded(m: Brackets, valid: string -> bool, contents: Contents, d: Directory, path: Path)
    decreases d
  {
    && Own(d, path) == LoadedScopes(m, valid, [FileAt(contents, path)])
    && forall i | 0 <= i < |d.children| :: Loaded(m, valid, contents, d.children[i], path + [d.children[i].name])
  }

  function FileAt(contents: Contents, path: Path): IgnoreFile {
    IgnoreFile(path, contents(path))
  }

  /** What loading some files gives: a scope for each file with a usable line. */
  function LoadedScopes(m: Brackets, valid: string -> bool, files: seq<IgnoreFile>): seq<Scope> {
    if files == [] then []
    else
      var last := files[|files| - 1];
      LoadedScopes(m, valid, files[..|files| - 1]) +
      if AnyUsable(valid, last.lines) then [ScopeOf(m, valid, last, |last.lines|)] else []
  }

  /** The files at the proper ancestors of a path, from depth `depth` on, outermost first. */
  function FilesAbove(contents: Contents, path: Path, depth: nat): seq<IgnoreFile>
    requires depth <= |path|
    decreases |path| - depth
  {
    if depth == |path| then [] else [FileAt(contents, path[..depth])] + FilesAbove(contents, path, depth + 1)
  }

  lemma {:induction false} LoadOneMore(m: Brackets, valid: string -> bool, files: seq<IgnoreFile>, file: IgnoreFile)
    ensures LoadedScopes(m, valid, files + [file]) == LoadedScopes(m, valid, files) + LoadedScopes(m, valid, [file])
  {
    assert (files + [file])[..|files|] == files && [file][..0] == [];
  }

  lemma {:induction false} NothingUsable(m: Brackets, valid: string -> bool, lines: seq<string>, n: nat)
    requires n <= |lines| && !AnyUsable(valid, lines)
    ensures PatternsOf(m, valid, lines, n) == []
  {
    if n > 0 {
      NothingUsable(m, valid, lines, n - 1);
    }
  }

  lemma {:induction false} OneMoreScopeDecides(scopes: seq<Scope>, s: Scope, path: Path)
    ensures Ignored(scopes + [s], path) == ScopeVerdict(s, |s.patterns|, path, Ignored(scopes, path))
  {
    VerdictOfFirst(scopes, scopes + [s], |scopes|, path);
  }

  /** Files without usable lines have no say. */
  lemma {:induction false} LoadedDecideAlike(m: Brackets, valid: string -> bool, files: seq<IgnoreFile>, path: Path)
    ensures Ignored(LoadedScopes(m, valid, files), path) == Ignored(ScopesOf(m, valid, files), path)
  {
    hide AnyUsable, Usable, Ignored;
    if files == [] {
      assert ScopesOf(m, valid, files) == [];
    } else {
      var front, last := files[..|files| - 1], files[|files| - 1];
      var scope := ScopeOf(m, valid, last, |last.lines|);
      LoadedDecideAlike(m, valid, front, path);
      assert ScopesOf(m, valid, files) == ScopesOf(m, valid, front) + [scope];
      OneMoreScopeDecides(ScopesOf(m, valid, front), scope, path);
      OneMoreScopeDecides(LoadedScopes(m, valid, front), scope, path);
      if AnyUsable(valid, last.lines) {
        assert LoadedScopes(m, valid, files) == LoadedScopes(m, valid, front) + [scope];
      } else {
        NothingUsable(m, valid, last.lines, |last.lines|);
        assert LoadedScopes(m, valid, files) == LoadedScopes(m, valid, front);
      }
    }
  }

  lemma {:induction false} FilesUnfold(contents: Contents, files: seq<IgnoreFile>, path: Path, below: Path)
    requires |path| < |below| && path == below[..|path|]
    ensures files + FilesAbove(contents, below, |path|) ==
            (files + [FileAt(contents, path)]) + FilesAbove(contents, below, |path| + 1)
  {
  }

  /** At every directory of the walk the rules applied are those loaded from the files at its proper ancestors. */
  lemma {:induction false} WalkReadsFiles(m: Brackets, valid: string -> bool, contents: Contents, d: Directory,
                                          path: Path, files: seq<IgnoreFile>, v: Visit)
    requires Loaded(m, valid, contents, d, path) && v in Walk(d, path, LoadedScopes(m, valid, files)).visits
    ensures path <= v.path && v.scopes == LoadedScopes(m, valid, files + FilesAbove(contents, v.path, |path|))
    ensures v.ignored == IsIgnored(v.path, v.scopes)
    decreases d, 1, 0
  {
    var scopes := LoadedScopes(m, valid, files);
    if v.path == path && v.scopes == scopes && v.ignored == IsIgnored(path, scopes) {
      assert files + FilesAbove(contents, path, |path|) == files;
    } else {
      LoadOneMore(m, valid, files, FileAt(contents, path));
      WalkFirstReadsFiles(m, valid, contents, d, path, files + [FileAt(contents, path)], |d.children|, v);
      FilesUnfold(contents, files, path, v.path);
    }
  }

  lemma {:induction false} WalkFirstReadsFiles(m: Brackets, valid: string -> bool, contents: Contents, d: Directory,
                                               path: Path, files: seq<IgnoreFile>, n: nat, v: Visit)
    requires Loaded(m, valid, contents, d, path) && n <= |d.children|
    requires v in WalkFirst(d, path, LoadedScopes(m, valid, files), n).visits
    ensures |path| < |v.path| && path == v.path[..|path|]
    ensures v.scopes == LoadedScopes(m, valid, files + FilesAbove(contents, v.path, |path| + 1))
    ensures v.ignored == IsIgnored(v.path, v.scopes)
    decreases d, 0, n
  {
    hide LoadedScopes, FilesAbove, IsIgnored, Own, Walk;
    if v in WalkFirst(d, path, LoadedScopes(m, valid, files), n - 1).visits {
      WalkFirstReadsFiles(m, valid, contents, d, path, files, n - 1, v);
    } else {
      var name := d.children[n - 1].name;
      WalkReadsFiles(m, valid, contents, d.children[n - 1], path + [name], files, v);
      NextName(path, name, v.path);
    }
  }

  /** A directory that the walk visits is skipped exactly if it is not the root and the last usable line that applies
      to it, among the lines of the ignore files at its proper ancestors, is not a negation. */
  lemma {:induction false} DiscoveryFollowsLines(m: Brackets, valid: string -> bool, contents: Contents, root: Directory, v: Visit)
    requires Loaded(m, valid, contents, root, []) && v in Walk(root, [], []).visits
    ensures v.ignored <==> v.path != [] && LinesIgnore(m, valid, FilesAbove(contents, v.path, 0), v.path)
  {
    var files := FilesAbove(contents, v.path, 0);
    WalkReadsFiles(m, valid, contents, root, [], [], v);
    assert [] + files == files;
    LoadedDecideAlike(m, valid, files, v.path);
    LastLineDecides(m, valid, files, v.path);
  }
}
