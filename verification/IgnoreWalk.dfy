/** Looking for repositories below a root: a pre-order walk that keeps one stack of ignore rules, pruned at
    each directory, against a recursive walk that passes the rules of enclosing directories down.

    A path is the sequence of the names below the root; a directory's attributes are what the
    file system says about it when it is visited. */
module IgnoreWalk {

  datatype Option<+T> = None | Some(value: T)

  type Path = seq<string>

  /** A rule: the paths below its file's directory that it matches, and whether it re-includes them. */
  datatype Pattern = Pattern(matches: Path -> bool, negate: bool)

  /** The rules of one .gitignore and the directory it lies in. */
  datatype Scope = Scope(base: Path, patterns: seq<Pattern>)

  datatype Directory = Directory(
    name: string,
    symlink: bool,                   // a link to a directory
    excluded: bool,                  // the caller excluded its path
    linkedWorktree: bool,            // its .git is a file
    rules: Option<seq<Pattern>>,     // its .gitignore, if it has usable rules
    repository: bool,                // repositoryAt finds one here
    children: seq<Directory>         // its subdirectories, in the order of the walk
  )

  /** Names are unique within a directory. */
  predicate WellNamed(d: Directory) {
    && (forall i, j | 0 <= i < j < |d.children| :: d.children[i].name != d.children[j].name)
    && forall i | 0 <= i < |d.children| :: WellNamed(d.children[i])
  }

  // ---------------------------------------------------------------- verdicts

  /** filepath.Rel does not lead out of the base. */
  predicate Encloses(base: Path, path: Path) {
    base <= path
  }

  predicate RuleMatches(base: Path, pattern: Pattern, path: Path) {
    Encloses(base, path) && base != path && pattern.matches(path[|base|..])
  }

  /** The verdict of the first n rules of a scope, given an earlier one: the last match decides. */
  function ScopeVerdict(scope: Scope, n: nat, path: Path, earlier: bool): bool
    requires n <= |scope.patterns|
  {
    if n == 0 then earlier
    else if RuleMatches(scope.base, scope.patterns[n - 1], path) then !scope.patterns[n - 1].negate
    else ScopeVerdict(scope, n - 1, path, earlier)
  }

  /** The verdict of the first n scopes. */
  function Verdict(scopes: seq<Scope>, n: nat, path: Path): bool
    requires n <= |scopes|
  {
    n > 0 && ScopeVerdict(scopes[n - 1], |scopes[n - 1].patterns|, path, Verdict(scopes, n - 1, path))
  }

  function Ignored(scopes: seq<Scope>, path: Path): bool {
    Verdict(scopes, |scopes|, path)
  }

  lemma {:induction false} NoSay(scope: Scope, n: nat, path: Path, earlier: bool)
    requires n <= |scope.patterns| && (!Encloses(scope.base, path) || scope.base == path)
    ensures ScopeVerdict(scope, n, path, earlier) == earlier
  {
    if n > 0 {
      NoSay(scope, n - 1, path, earlier);
    }
  }

  /** ignoredDirectory */
  method IgnoredDirectory(scopes: seq<Scope>, path: Path) returns (ignored: bool)
    ensures ignored == Ignored(scopes, path)
  {
    ignored := false;
    for n := 0 to |scopes|
      invariant ignored == Verdict(scopes, n, path)
    {
      var scope := scopes[n];
      if !Encloses(scope.base, path) || scope.base == path {
        NoSay(scope, |scope.patterns|, path, ignored);
        continue;
      }
      var relative := path[|scope.base|..];
      ghost var earlier := ignored;
      for k := 0 to |scope.patterns|
        invariant ignored == ScopeVerdict(scope, k, path, earlier)
      {
        if scope.patterns[k].matches(relative) {
          ignored := !scope.patterns[k].negate;
        }
      }
    }
  }

  /** A rule together with the directory of its file. */
  datatype PlacedRule = PlacedRule(base: Path, pattern: Pattern)

  function RulesOf(scope: Scope): seq<PlacedRule> {
    seq(|scope.patterns|, k requires 0 <= k < |scope.patterns| => PlacedRule(scope.base, scope.patterns[k]))
  }

  /** The rules of some scopes in one list: outermost file first, each file from top to bottom. */
  function Concatenated(scopes: seq<Scope>, n: nat): seq<PlacedRule>
    requires n <= |scopes|
  {
    if n == 0 then [] else Concatenated(scopes, n - 1) + RulesOf(scopes[n - 1])
  }

  predicate Concerns(r: PlacedRule, path: Path) {
    RuleMatches(r.base, r.pattern, path)
  }

  /** The last of the first n rules that matches decides. */
  function LastVerdict(rules: seq<PlacedRule>, n: nat, path: Path): bool
    requires n <= |rules|
  {
    n > 0 && if Concerns(rules[n - 1], path) then !rules[n - 1].pattern.negate else LastVerdict(rules, n - 1, path)
  }

  lemma {:induction false} LastVerdictOfPrefix(a: seq<PlacedRule>, b: seq<PlacedRule>, n: nat, path: Path)
    requires n <= |a|
    ensures LastVerdict(a + b, n, path) == LastVerdict(a, n, path)
  {
    if n > 0 {
      LastVerdictOfPrefix(a, b, n - 1, path);
    }
  }

  lemma {:induction false} OneMoreScope(rules: seq<PlacedRule>, scope: Scope, n: nat, path: Path)
    requires n <= |scope.patterns|
    ensures LastVerdict(rules + RulesOf(scope), |rules| + n, path) ==
            ScopeVerdict(scope, n, path, LastVerdict(rules, |rules|, path))
  {
    if n > 0 {
      OneMoreScope(rules, scope, n - 1, path);
      assert (rules + RulesOf(scope))[|rules| + n - 1] == RulesOf(scope)[n - 1];
    } else {
      LastVerdictOfPrefix(rules, RulesOf(scope), |rules|, path);
    }
  }

  lemma {:induction false} VerdictIsLast(scopes: seq<Scope>, n: nat, path: Path)
    requires n <= |scopes|
    ensures Verdict(scopes, n, path) == LastVerdict(Concatenated(scopes, n), |Concatenated(scopes, n)|, path)
  {
    if n > 0 {
      VerdictIsLast(scopes, n - 1, path);
      OneMoreScope(Concatenated(scopes, n - 1), scopes[n - 1], |scopes[n - 1].patterns|, path);
    }
  }

  /** Rule i is the last of the first n rules that matches. */
  predicate IsLast(rules: seq<PlacedRule>, i: nat, n: nat, path: Path)
    requires n <= |rules|
  {
    i < n && Concerns(rules[i], path) && forall j | i < j < n :: !Concerns(rules[j], path)
  }

  lemma {:induction false} LastVerdictMeans(rules: seq<PlacedRule>, n: nat, path: Path)
    requires n <= |rules|
    ensures forall i: nat | IsLast(rules, i, n, path) :: LastVerdict(rules, n, path) == !rules[i].pattern.negate
    ensures (forall i | 0 <= i < n :: !Concerns(rules[i], path)) ==> !LastVerdict(rules, n, path)
  {
    hide Concerns;
    if n > 0 {
      LastVerdictMeans(rules, n - 1, path);
      forall i: nat | IsLast(rules, i, n, path) ensures LastVerdict(rules, n, path) == !rules[i].pattern.negate {
        if i < n - 1 {
          assert IsLast(rules, i, n - 1, path) && !Concerns(rules[n - 1], path);
        }
      }
    }
  }

  /** The last matching rule of all rules, outermost file first, decides whether a directory is ignored;
      without one it is not. */
  lemma {:induction false} LastRuleDecides(scopes: seq<Scope>, path: Path)
    ensures var rules := Concatenated(scopes, |scopes|);
            && (forall i: nat | IsLast(rules, i, |rules|, path) :: Ignored(scopes, path) == !rules[i].pattern.negate)
            && ((forall i | 0 <= i < |rules| :: !Concerns(rules[i], path)) ==> !Ignored(scopes, path))
  {
    VerdictIsLast(scopes, |scopes|, path);
    LastVerdictMeans(Concatenated(scopes, |scopes|), |Concatenated(scopes, |scopes|)|, path);
  }

  // ---------------------------------------------------------------- the recursive walk

  /** What a walk does at one directory it does not skip before: the rules it applies, and its verdict. */
  datatype Visit = Visit(path: Path, scopes: seq<Scope>, ignored: bool)

  datatype Report = Report(found: seq<Path>, visits: seq<Visit>)

  function Append(a: Report, b: Report): Report {
    Report(a.found + b.found, a.visits + b.visits)
  }

  /** Passed over without a look at the rules: linked, excluded or hidden, or a linked worktree. */
  predicate PassedOver(d: Directory, path: Path) {
    d.symlink || d.excluded || (path != [] && "." <= d.name) || (path != [] && d.linkedWorktree)
  }

  function Own(d: Directory, path: Path): seq<Scope> {
    if d.rules.Some? then [Scope(path, d.rules.value)] else []
  }

  predicate IsIgnored(path: Path, scopes: seq<Scope>) {
    path != [] && Ignored(scopes, path)
  }

  /** What is done at a directory itself. */
  function Here(d: Directory, path: Path, scopes: seq<Scope>): Report {
    var ignored := IsIgnored(path, scopes);
    Report(if !ignored && d.repository then [path] else [], [Visit(path, scopes, ignored)])
  }

  /** The walk does not go below the directory: it is ignored, or a repository other than the root. */
  predicate StopsAt(d: Directory, path: Path, scopes: seq<Scope>) {
    IsIgnored(path, scopes) || (d.repository && path != [])
  }

  /** The walk below a directory, given the rules of the directories around it. */
  function Walk(d: Directory, path: Path, scopes: seq<Scope>): Report
    decreases d, 1, 0
  {
    if PassedOver(d, path) then Report([], [])
    else if StopsAt(d, path, scopes) then Here(d, path, scopes)
    else Append(Here(d, path, scopes), WalkFirst(d, path, scopes + Own(d, path), |d.children|))
  }

  /** The walks of the first n subdirectories. */
  function WalkFirst(d: Directory, path: Path, scopes: seq<Scope>, n: nat): Report
    requires n <= |d.children|
    decreases d, 0, n
  {
    if n == 0 then Report([], [])
    else Append(WalkFirst(d, path, scopes, n - 1), Walk(d.children[n - 1], path + [d.children[n - 1].name], scopes))
  }

  /** The first of the subdirectories from number k on with a name, or their number. */
  function Child(d: Directory, name: string, k: nat): (i: nat)
    requires k <= |d.children|
    ensures k <= i <= |d.children| && (i < |d.children| ==> d.children[i].name == name)
    decreases |d.children| - k
  {
    if k == |d.children| || d.children[k].name == name then k else Child(d, name, k + 1)
  }

  lemma {:induction false} ChildIsUnique(d: Directory, k: nat, i: nat)
    requires WellNamed(d) && k <= i < |d.children|
    ensures Child(d, d.children[i].name, k) == i
    decreases i - k
  {
    if k < i {
      ChildIsUnique(d, k + 1, i);
    }
  }

  /** The rules loaded at the proper ancestors of a path, from depth `depth` on, outermost first;
      d is the directory at that depth. */
  function Above(d: Directory, path: Path, depth: nat): seq<Scope>
    requires depth <= |path|
    decreases d
  {
    if depth == |path| then []
    else
      var i := Child(d, path[depth], 0);
      Own(d, path[..depth]) + if i < |d.children| then Above(d.children[i], path, depth + 1) else []
  }

  /** At every directory of the walk the rules applied are those loaded at its proper ancestors. */
  lemma {:induction false} WalkAppliesRulesAbove(d: Directory, path: Path, scopes: seq<Scope>, v: Visit)
    requires WellNamed(d) && v in Walk(d, path, scopes).visits
    ensures path <= v.path && v.scopes == scopes + Above(d, v.path, |path|)
    ensures v.ignored == IsIgnored(v.path, v.scopes)
    decreases d, 1, 0
  {
    if v.path == path && v.scopes == scopes && v.ignored == IsIgnored(path, scopes) {
      assert scopes + Above(d, path, |path|) == scopes;
    } else {
      var inner := scopes + Own(d, path);
      WalkFirstAppliesRulesAbove(d, path, inner, |d.children|, v);
      AboveUnfolds(d, path, v.path, scopes);
    }
  }

  lemma {:induction false} AboveUnfolds(d: Directory, path: Path, below: Path, scopes: seq<Scope>)
    requires |path| < |below| && path == below[..|path|] && Child(d, below[|path|], 0) < |d.children|
    ensures scopes + Above(d, below, |path|) ==
            (scopes + Own(d, path)) + Above(d.children[Child(d, below[|path|], 0)], below, |path| + 1)
  {
    Associates(scopes, Own(d, path), Above(d.children[Child(d, below[|path|], 0)], below, |path| + 1));
  }

  lemma Associates(a: seq<Scope>, b: seq<Scope>, c: seq<Scope>)
    ensures a + (b + c) == (a + b) + c
  {
  }

  lemma NextName(path: Path, name: string, below: Path)
    requires path + [name] <= below
    ensures |path| < |below| && path == below[..|path|] && below[|path|] == name
  {
    assert below[|path|] == (path + [name])[|path|];
  }

  lemma {:induction false} WalkFirstAppliesRulesAbove(d: Directory, path: Path, scopes: seq<Scope>, n: nat, v: Visit)
    requires WellNamed(d) && n <= |d.children| && v in WalkFirst(d, path, scopes, n).visits
    ensures |path| < |v.path| && path == v.path[..|path|] && Child(d, v.path[|path|], 0) < |d.children|
    ensures v.scopes == scopes + Above(d.children[Child(d, v.path[|path|], 0)], v.path, |path| + 1)
    ensures v.ignored == IsIgnored(v.path, v.scopes)
    decreases d, 0, n
  {
    if v in WalkFirst(d, path, scopes, n - 1).visits {
      WalkFirstAppliesRulesAbove(d, path, scopes, n - 1, v);
    } else {
      var name := d.children[n - 1].name;
      WalkAppliesRulesAbove(d.children[n - 1], path + [name], scopes, v);
      NextName(path, name, v.path);
      ChildIsUnique(d, 0, n - 1);
    }
  }

  // ---------------------------------------------------------------- the pruned stack

  /** activeIgnoreScopes on values: the first n scopes without those that do not enclose the path. */
  function Active(scopes: seq<Scope>, n: nat, path: Path): (r: seq<Scope>)
    requires n <= |scopes|
  {
    if n == 0 then []
    else Active(scopes, n - 1, path) + if Encloses(scopes[n - 1].base, path) then [scopes[n - 1]] else []
  }

  method ActiveIgnoreScopes(scopes: seq<Scope>, path: Path) returns (kept: seq<Scope>)
    ensures kept == Active(scopes, |scopes|, path)
  {
    kept := [];
    for n := 0 to |scopes|
      invariant kept == Active(scopes, n, path)
    {
      if Encloses(scopes[n].base, path) {
        kept := kept + [scopes[n]];
      }
    }
  }

  /** The rules of the enclosing directories stay, what was left by walks of other directories goes. */
  lemma {:induction false} ActiveOfStack(scopes: seq<Scope>, rest: seq<Scope>, n: nat, path: Path)
    requires n <= |scopes| + |rest|
    requires forall s <- scopes :: Encloses(s.base, path)
    requires forall s <- rest :: !Encloses(s.base, path)
    ensures Active(scopes + rest, n, path) == if n <= |scopes| then scopes[..n] else scopes
  {
    if n > 0 {
      ActiveOfStack(scopes, rest, n - 1, path);
      if n <= |scopes| {
        assert scopes[..n] == scopes[..n - 1] + [scopes[n - 1]];
      } else {
        assert (scopes + rest)[n - 1] == rest[n - 1 - |scopes|];
      }
    }
  }

  /** What the walks of the first k subdirectories may leave on the stack. */
  ghost predicate LeftBy(d: Directory, path: Path, k: nat, rest: seq<Scope>)
    requires k <= |d.children|
  {
    forall s <- rest :: exists j | 0 <= j < k :: path + [d.children[j].name] <= s.base
  }

  lemma {:induction false} OthersDoNotEnclose(d: Directory, path: Path, k: nat, rest: seq<Scope>)
    requires WellNamed(d) && k < |d.children| && LeftBy(d, path, k, rest)
    ensures forall s <- rest :: !Encloses(s.base, path + [d.children[k].name])
  {
    forall s <- rest ensures !Encloses(s.base, path + [d.children[k].name]) {
      var j :| 0 <= j < k && path + [d.children[j].name] <= s.base;
      assert s.base[|path|] == (path + [d.children[j].name])[|path|] == d.children[j].name;
    }
  }

  /** The walk of a directory leaves the stack alone, or prunes it to the rules above and leaves rules from
      the directory and below on top. */
  ghost predicate Leaves(before: seq<Scope>, after: seq<Scope>, scopes: seq<Scope>, path: Path) {
    after == before ||
    (scopes <= after && forall i | |scopes| <= i < |after| :: path <= after[i].base)
  }

  lemma EnclosesBelow(scopes: seq<Scope>, path: Path, name: string)
    requires forall s <- scopes :: Encloses(s.base, path)
    ensures forall s <- scopes :: Encloses(s.base, path + [name])
  {
    forall s <- scopes ensures Encloses(s.base, path + [name]) {
      assert Encloses(s.base, path);
    }
  }

  lemma {:induction false} ActiveOfWhole(scopes: seq<Scope>, rest: seq<Scope>, path: Path)
    requires forall s <- scopes :: Encloses(s.base, path)
    requires forall s <- rest :: !Encloses(s.base, path)
    ensures Active(scopes + rest, |scopes + rest|, path) == scopes
  {
    ActiveOfStack(scopes, rest, |scopes| + |rest|, path);
    assert scopes[..|scopes|] == scopes;
  }

  /** Before the walk of a subdirectory, pruning leaves the rules of the directory and those around it. */
  lemma {:induction false} StackOfChild(d: Directory, path: Path, k: nat, inner: seq<Scope>, rest: seq<Scope>, child: Path)
    requires WellNamed(d) && k < |d.children| && LeftBy(d, path, k, rest) && forall s <- inner :: Encloses(s.base, path)
    requires child == path + [d.children[k].name]
    ensures Active(inner + rest, |inner + rest|, child) == inner
    ensures forall s <- inner :: Encloses(s.base, child)
  {
    EnclosesBelow(inner, path, d.children[k].name);
    OthersDoNotEnclose(d, path, k, rest);
    ActiveOfWhole(inner, rest, child);
  }

  lemma LeavesMore(d: Directory, path: Path, k: nat, inner: seq<Scope>, rest: seq<Scope>, after: seq<Scope>)
    returns (rest': seq<Scope>)
    requires k < |d.children| && LeftBy(d, path, k, rest)
    requires Leaves(inner + rest, after, inner, path + [d.children[k].name])
    ensures after == inner + rest' && LeftBy(d, path, k + 1, rest')
  {
    if after == inner + rest {
      rest' := rest;
    } else {
      rest' := after[|inner|..];
      forall s <- rest' ensures path + [d.children[k].name] <= s.base {
        var i :| 0 <= i < |rest'| && rest'[i] == s;
        assert s == after[|inner| + i];
      }
    }
  }

  lemma LeftAreBelow(d: Directory, path: Path, rest: seq<Scope>)
    requires LeftBy(d, path, |d.children|, rest)
    ensures forall i | 0 <= i < |rest| :: path <= rest[i].base
  {
    forall i | 0 <= i < |rest| ensures path <= rest[i].base {
      assert rest[i] in rest;
      var j :| 0 <= j < |d.children| && path + [d.children[j].name] <= rest[i].base;
    }
  }

  lemma {:induction false} WalkAppends(d: Directory, path: Path, scopes: seq<Scope>, before: Report)
    ensures PassedOver(d, path) ==> Append(before, Walk(d, path, scopes)) == before
    ensures !PassedOver(d, path) && StopsAt(d, path, scopes) ==>
              Append(before, Walk(d, path, scopes)) == Append(before, Here(d, path, scopes))
    ensures !PassedOver(d, path) && !StopsAt(d, path, scopes) ==>
              Append(before, Walk(d, path, scopes)) ==
              Append(Append(before, Here(d, path, scopes)), WalkFirst(d, path, scopes + Own(d, path), |d.children|))
  {
    AppendAssociates(before, Here(d, path, scopes), WalkFirst(d, path, scopes + Own(d, path), |d.children|));
  }

  lemma AppendAssociates(a: Report, b: Report, c: Report)
    ensures Append(a, Append(b, c)) == Append(Append(a, b), c)
    ensures Append(a, Report([], [])) == a
  {
  }

  lemma {:induction false} JoinMore(d: Directory, path: Path, inner: seq<Scope>, k: nat, entered: Report)
    requires k < |d.children|
    ensures Append(entered, WalkFirst(d, path, inner, k + 1)) ==
            Append(Append(entered, WalkFirst(d, path, inner, k)),
                   Walk(d.children[k], path + [d.children[k].name], inner))
  {
  }

  /** The variables of the walk's closure. */
  class Walker {
    var ignoreScopes: seq<Scope>
    var repositories: seq<Path>
    ghost var visits: seq<Visit>

    constructor ()
      ensures ignoreScopes == [] && repositories == [] && visits == []
    {
      ignoreScopes, repositories, visits := [], [], [];
    }

    /** The closure, for a directory; `scopes` are the rules above it. */
    method Enter(d: Directory, path: Path, ghost scopes: seq<Scope>) returns (skip: bool)
      requires Active(ignoreScopes, |ignoreScopes|, path) == scopes
      modifies this
      ensures PassedOver(d, path) ==> skip && unchanged(this)
      ensures !PassedOver(d, path) ==>
                && skip == StopsAt(d, path, scopes)
                && ignoreScopes == scopes + (if IsIgnored(path, scopes) then [] else Own(d, path))
                && Report(repositories, visits) == Append(old(Report(repositories, visits)), Here(d, path, scopes))
    {
      if d.symlink || d.excluded {
        return true;
      }
      if path != [] && "." <= d.name {
        return true;
      }
      if path != [] && d.linkedWorktree {
        return true;
      }
      ignoreScopes := ActiveIgnoreScopes(ignoreScopes, path);
      var ignored := false;
      if path != [] {
        ignored := IgnoredDirectory(ignoreScopes, path);
      }
      visits := visits + [Visit(path, scopes, ignored)];
      if ignored {
        return true;
      }
      if d.rules.Some? {
        ignoreScopes := ignoreScopes + [Scope(path, d.rules.value)];
      }
      if !d.repository {
        return false;
      }
      repositories := repositories + [path];
      return path != [];
    }

    /** The walks of the first k subdirectories are over: `entered` is what had been found before. */
    ghost predicate Progress(d: Directory, path: Path, inner: seq<Scope>, k: nat, rest: seq<Scope>, entered: Report)
      requires k <= |d.children|
      reads this
    {
      && ignoreScopes == inner + rest && LeftBy(d, path, k, rest)
      && Report(repositories, visits) == Append(entered, WalkFirst(d, path, inner, k))
    }

    method WalkChild(d: Directory, path: Path, k: nat, ghost inner: seq<Scope>, ghost rest: seq<Scope>,
                     ghost entered: Report)
      returns (ghost rest': seq<Scope>)
      requires WellNamed(d) && k < |d.children| && Progress(d, path, inner, k, rest, entered)
      requires forall s <- inner :: Encloses(s.base, path)
      modifies this
      ensures Progress(d, path, inner, k + 1, rest', entered)
      decreases d, 0
    {
      var child := path + [d.children[k].name];
      StackOfChild(d, path, k, inner, rest, child);
      JoinMore(d, path, inner, k, entered);
      WalkDir(d.children[k], child, inner);
      rest' := LeavesMore(d, path, k, inner, rest, ignoreScopes);
    }

    /** The walks of all subdirectories of a directory that is not skipped. */
    method WalkChildren(d: Directory, path: Path, ghost inner: seq<Scope>)
      requires WellNamed(d) && ignoreScopes == inner && forall s <- inner :: Encloses(s.base, path)
      modifies this
      ensures Report(repositories, visits) == Append(old(Report(repositories, visits)),
                                                     WalkFirst(d, path, inner, |d.children|))
      ensures inner <= ignoreScopes && forall i | |inner| <= i < |ignoreScopes| :: path <= ignoreScopes[i].base
      decreases d, 1
    {
      ghost var rest: seq<Scope> := [];
      ghost var entered := Report(repositories, visits);
      for k := 0 to |d.children|
        invariant Progress(d, path, inner, k, rest, entered)
      {
        rest := WalkChild(d, path, k, inner, rest, entered);
      }
      LeftAreBelow(d, path, rest);
    }

    /** filepath.WalkDir: the closure, and unless it skips the directory its subdirectories in order. */
    method WalkDir(d: Directory, path: Path, ghost scopes: seq<Scope>)
      requires WellNamed(d)
      requires Active(ignoreScopes, |ignoreScopes|, path) == scopes && forall s <- scopes :: Encloses(s.base, path)
      modifies this
      ensures Report(repositories, visits) == Append(old(Report(repositories, visits)), Walk(d, path, scopes))
      ensures Leaves(old(ignoreScopes), ignoreScopes, scopes, path)
      decreases d, 2
    {
      ghost var before := Report(repositories, visits);
      var skip := Enter(d, path, scopes);
      WalkAppends(d, path, scopes, before);
      if !skip {
        WalkChildren(d, path, scopes + Own(d, path));
      }
    }
  }

  /** DiscoverWithOptions, before it sorts: the repositories are those of the recursive walk, and every
      directory was judged by the rules loaded at its proper ancestors, outermost first. */
  method Discover(root: Directory) returns (repositories: seq<Path>, ghost visits: seq<Visit>)
    requires WellNamed(root)
    ensures repositories == Walk(root, [], []).found
    ensures visits == Walk(root, [], []).visits
    ensures forall v <- visits :: v.scopes == Above(root, v.path, 0) && v.ignored == IsIgnored(v.path, v.scopes)
  {
    var walker := new Walker();
    walker.WalkDir(root, [], []);
    repositories, visits := walker.repositories, walker.visits;
    forall v <- visits ensures v.scopes == Above(root, v.path, 0) && v.ignored == IsIgnored(v.path, v.scopes) {
      WalkAppliesRulesAbove(root, [], [], v);
    }
  }
}
