/** CODEOWNERS: a pattern is compiled to a regular expression, and the last rule that matches a path owns it. */
module CodeOwners {

  import opened Globs

  datatype Option<+T> = None | Some(value: T)

  // ---------------------------------------------------------------- patterns

  predicate IsSpace(c: char): (b: bool)
    ensures b <==> c as int in {9, 10, 11, 12, 13, 32}
  {
    c == ' ' || '\t' <= c <= '\r'
  }

  /** strings.TrimSpace, for ASCII text. */
  function TrimSpace(s: string): string {
    if s != "" && IsSpace(s[0]) then TrimSpace(s[1..])
    else if s != "" && IsSpace(s[|s| - 1]) then TrimSpace(s[..|s| - 1])
    else s
  }

  /** An escaped blank is a blank. */
  function Unescape(s: string): string {
    if "\\ " <= s then " " + Unescape(s[2..]) else if s == "" then "" else [s[0]] + Unescape(s[1..])
  }

  function TokenAt(pattern: string, i: nat): (r: (Token, nat))
    requires i < |pattern|
    ensures i < r.1 <= |pattern|
  {
    if "**" <= pattern[i..] then (Deep, i + 2)
    else if pattern[i] == '*' then (Run, i + 1)
    else if pattern[i] == '?' then (One, i + 1)
    else (Lit(pattern[i]), i + 1)
  }

  function Tokens(pattern: string, i: nat): seq<Token>
    requires i <= |pattern|
    decreases |pattern| - i
  {
    if i == |pattern| then [] else [TokenAt(pattern, i).0] + Tokens(pattern, TokenAt(pattern, i).1)
  }

  /** What a pattern says: its glob, whether it is tied to the root, and whether it names a directory. */
  datatype Rule = Rule(tokens: seq<Token>, rooted: bool, directory: bool)

  function RuleOf(text: string): Option<Rule> {
    var pattern := TrimSpace(Unescape(text));
    if pattern == "" || "!" <= pattern || '[' in pattern || ']' in pattern then None
    else
      var relative := if "/" <= pattern then pattern[1..] else pattern;
      var directory := relative != "" && relative[|relative| - 1] == '/';
      var glob := if directory then relative[..|relative| - 1] else relative;
      if glob == "" then None else Some(Rule(Tokens(glob, 0), "/" <= pattern || '/' in glob, directory))
  }

  /** (?:^|.*\/) */
  const ANY_START := Alt(Begin, Cat(Star(Dot), Chr('/')))
  /** (?:\/.*)? */
  const ANY_BELOW := Opt(Cat(Chr('/'), Star(Dot)))

  function StartOf(rule: Rule): Re {
    if rule.rooted then Begin else ANY_START
  }

  function EndOf(rule: Rule): Re {
    if rule.directory then Cat(ANY_BELOW, End) else End
  }

  function ExpressionOf(rule: Rule): Re {
    Cat(StartOf(rule), Cat(Chain(NodesOf(rule.tokens), 0), EndOf(rule)))
  }

  /** No pattern uses a bracket expression. */
  const NO_BRACKETS: Brackets := (text, c) => false

  predicate Cut(pattern: string, done: seq<Token>, index: nat)
    requires index <= |pattern|
  {
    done + Tokens(pattern, index) == Tokens(pattern, 0)
  }

  lemma CutMoves(pattern: string, done: seq<Token>, index: nat)
    requires index < |pattern| && Cut(pattern, done, index)
    ensures Cut(pattern, done + [TokenAt(pattern, index).0], TokenAt(pattern, index).1)
    ensures NodesOf(done + [TokenAt(pattern, index).0]) == NodesOf(done) + [NodeOf(TokenAt(pattern, index).0)]
  {
    var t := TokenAt(pattern, index);
    assert done + ([t.0] + Tokens(pattern, t.1)) == (done + [t.0]) + Tokens(pattern, t.1);
  }

  /** The loop of codeownersPatternMatches. */
  method WriteGlob(pattern: string) returns (output: seq<Re>)
    ensures output == NodesOf(Tokens(pattern, 0))
  {
    output := [];
    ghost var done: seq<Token> := [];
    var offset := 0;
    while offset < |pattern|
      invariant offset <= |pattern| && Cut(pattern, done, offset) && output == NodesOf(done)
    {
      CutMoves(pattern, done, offset);
      done := done + [TokenAt(pattern, offset).0];
      if "**" <= pattern[offset..] {
        output := output + [Star(Dot)];
        offset := offset + 2;
      } else {
        output := output + [if pattern[offset] == '*' then Star(NotSlash) else if pattern[offset] == '?' then NotSlash
                            else Chr(pattern[offset])];
        offset := offset + 1;
      }
    }
  }

  /** codeownersPatternMatches up to the compiled expression. */
  method CompilePattern(text: string) returns (expression: Option<Re>)
    ensures expression == match RuleOf(text) case None => None case Some(rule) => Some(ExpressionOf(rule))
  {
    var pattern := TrimSpace(Unescape(text));
    if pattern == "" || "!" <= pattern || '[' in pattern || ']' in pattern {
      return None;
    }
    var anchored := "/" <= pattern;
    if anchored {
      pattern := pattern[1..];
    }
    var directory := pattern != "" && pattern[|pattern| - 1] == '/';
    if directory {
      pattern := pattern[..|pattern| - 1];
    }
    if pattern == "" {
      return None;
    }
    var start := if anchored || '/' in pattern then Begin else ANY_START;
    var nodes := WriteGlob(pattern);
    var end := if directory then Cat(ANY_BELOW, End) else End;
    return Some(Cat(start, Cat(Chain(nodes, 0), end)));
  }

  // ---------------------------------------------------------------- what a pattern matches

  /** Where a match may start: at the root or, without a slash in the pattern, at any component. */
  predicate MayStart(rule: Rule, path: string, k: nat)
    requires k <= |path|
  {
    k == 0 || (!rule.rooted && path[k - 1] == '/')
  }

  /** Where it may end: at the end or, for a directory, before a slash. */
  predicate MayEnd(rule: Rule, path: string, q: nat)
    requires q <= |path|
  {
    q == |path| || (rule.directory && path[q] == '/' && Free(path, '\n', q + 1, |path|))
  }

  predicate Applies(rule: Rule, path: string) {
    exists k: nat, q: nat | k <= q <= |path| ::
      MayStart(rule, path, k) && MayEnd(rule, path, q) && Glob(NO_BRACKETS, rule.tokens, 0, |rule.tokens|, path, k, q)
  }

  lemma {:induction false} StartMeans(rule: Rule, path: string, i: nat, k: nat)
    requires i <= k <= |path|
    ensures Matches(NO_BRACKETS, StartOf(rule), path, i, k) ==> MayStart(rule, path, k)
    ensures MayStart(rule, path, k) && (i == k == 0 || i + 1 == k) ==> Matches(NO_BRACKETS, StartOf(rule), path, i, k)
  {
    Directories(NO_BRACKETS, path, i, k);
    var start := ANY_START;
    assert start.a == Begin && start.b == Cat(Star(Dot), Chr('/'));
    assert Matches(NO_BRACKETS, start, path, i, k) <==>
           Matches(NO_BRACKETS, start.a, path, i, k) || Matches(NO_BRACKETS, start.b, path, i, k);
  }

  lemma {:induction false} BelowMeans(path: string, q: nat, j: nat)
    requires q <= j <= |path|
    ensures Matches(NO_BRACKETS, ANY_BELOW, path, q, j) <==> q == j || (path[q] == '/' && Free(path, '\n', q + 1, j))
  {
    if q < j {
      forall k: nat | q <= k <= j ensures Matches(NO_BRACKETS, Chr('/'), path, q, k) <==> k == q + 1 && path[q] == '/' {
      }
      StarOfDot(NO_BRACKETS, path, q + 1, j);
      var below := Cat(Chr('/'), Star(Dot));
      assert ANY_BELOW.r == below;
      assert Matches(NO_BRACKETS, below, path, q, j) <==>
             Matches(NO_BRACKETS, Chr('/'), path, q, q + 1) && Matches(NO_BRACKETS, Star(Dot), path, q + 1, j);
    }
  }

  lemma {:induction false} EndMeans(rule: Rule, path: string, q: nat, j: nat)
    requires q <= j <= |path|
    ensures Matches(NO_BRACKETS, EndOf(rule), path, q, j) <==> j == |path| && MayEnd(rule, path, q)
  {
    BelowMeans(path, q, |path|);
    assert Matches(NO_BRACKETS, End, path, |path|, |path|);
    if rule.directory && Matches(NO_BRACKETS, EndOf(rule), path, q, j) {
      var k := CatSplits(NO_BRACKETS, EndOf(rule), path, q, j);
    }
    if j == |path| && MayEnd(rule, path, q) && rule.directory {
      assert Matches(NO_BRACKETS, Cat(ANY_BELOW, End), path, q, j);
    }
  }

  lemma {:induction false} MatchApplies(rule: Rule, path: string, i: nat, j: nat)
    requires i <= j <= |path| && Matches(NO_BRACKETS, ExpressionOf(rule), path, i, j)
    ensures Applies(rule, path)
  {
    var m, e := NO_BRACKETS, ExpressionOf(rule);
    var k := CatSplits(m, e, path, i, j);
    var q := CatSplits(m, e.b, path, k, j);
    StartMeans(rule, path, i, k);
    EndMeans(rule, path, q, j);
    ChainIsGlob(m, rule.tokens, NodesOf(rule.tokens), 0, path, k, q);
  }

  lemma {:induction false} AppliesMatches(rule: Rule, path: string, k: nat, q: nat)
    requires k <= q <= |path| && MayStart(rule, path, k) && MayEnd(rule, path, q)
    requires Glob(NO_BRACKETS, rule.tokens, 0, |rule.tokens|, path, k, q)
    ensures MatchString(NO_BRACKETS, ExpressionOf(rule), path)
  {
    var m, e := NO_BRACKETS, ExpressionOf(rule);
    var h := if k == 0 then 0 else k - 1;
    StartMeans(rule, path, h, k);
    EndMeans(rule, path, q, |path|);
    ChainIsGlob(m, rule.tokens, NodesOf(rule.tokens), 0, path, k, q);
    assert Matches(m, e.b, path, k, |path|);
    assert Matches(m, e, path, h, |path|);
  }

  /** The compiled expression of a pattern matches exactly the paths the pattern applies to. */
  lemma CompiledPatternApplies(rule: Rule, path: string)
    ensures MatchString(NO_BRACKETS, ExpressionOf(rule), path) <==> Applies(rule, path)
  {
    if i: nat, j: nat :| i <= j <= |path| && Matches(NO_BRACKETS, ExpressionOf(rule), path, i, j) {
      MatchApplies(rule, path, i, j);
    }
    forall k: nat, q: nat | k <= q <= |path| && MayStart(rule, path, k) && MayEnd(rule, path, q) &&
                            Glob(NO_BRACKETS, rule.tokens, 0, |rule.tokens|, path, k, q)
      ensures MatchString(NO_BRACKETS, ExpressionOf(rule), path)
    {
      AppliesMatches(rule, path, k, q);
    }
  }

  /** Component k of a path: it starts there, and the next slash, or the end, ends it. */
  predicate IsComponent(path: string, k: nat, q: nat) {
    && k <= q <= |path| && (k == 0 || path[k - 1] == '/') && (q == |path| || path[q] == '/')
    && Free(path, '/', k, q)
  }

  /** A plain pattern without a slash owns a path exactly if its glob matches the last component or,
      for a directory, any component. */
  lemma {:induction false} PlainPatternMatchesComponent(rule: Rule, path: string)
    requires !rule.rooted && Plain(rule.tokens) && NoSlash(rule.tokens, 0, |rule.tokens|) && Free(path, '\n', 0, |path|)
    ensures Applies(rule, path) <==>
            exists k: nat, q: nat :: IsComponent(path, k, q) && (q == |path| || rule.directory) &&
              Glob(NO_BRACKETS, rule.tokens, 0, |rule.tokens|, path, k, q)
  {
    forall k: nat, q: nat | k <= q <= |path| && Glob(NO_BRACKETS, rule.tokens, 0, |rule.tokens|, path, k, q)
      ensures MayStart(rule, path, k) && MayEnd(rule, path, q) <==>
              IsComponent(path, k, q) && (q == |path| || rule.directory)
    {
      StaysInComponent(NO_BRACKETS, rule.tokens, 0, |rule.tokens|, path, k, q);
    }
  }

  /** A rooted directory pattern owns what lies below the directories its glob matches, and the path itself. */
  lemma {:induction false} DirectoryPatternMatchesAncestor(rule: Rule, path: string)
    requires rule.rooted && rule.directory && Free(path, '\n', 0, |path|)
    ensures Applies(rule, path) <==>
            exists q: nat :: q <= |path| && (q == |path| || path[q] == '/') &&
              Glob(NO_BRACKETS, rule.tokens, 0, |rule.tokens|, path, 0, q)
  {
    forall q: nat | q <= |path| ensures MayEnd(rule, path, q) <==> q == |path| || path[q] == '/' {
    }
    assert MayStart(rule, path, 0);
  }

  // ---------------------------------------------------------------- what patterns say

  lemma {:induction false} NothingToUnescape(s: string)
    requires '\\' !in s
    ensures Unescape(s) == s
  {
    if s != "" {
      assert s[0] in s && s == [s[0]] + s[1..];
      NothingToUnescape(s[1..]);
    }
  }

  /** A pattern without marks around its glob. */
  predicate Bare(p: string) {
    && p != "" && p[0] !in "!/" && p[|p| - 1] != '/'
    && forall i | 0 <= i < |p| :: p[i] !in "[]\\" && !IsSpace(p[i])
  }

  /** Text without blanks, escapes and brackets is what it says. */
  lemma {:induction false} Unmarked(p: string)
    requires p != "" && forall i | 0 <= i < |p| :: p[i] !in "[]\\" && !IsSpace(p[i])
    ensures TrimSpace(Unescape(p)) == p && '[' !in p && ']' !in p
  {
    assert '\\' !in p;
    NothingToUnescape(p);
    assert !IsSpace(p[0]) && !IsSpace(p[|p| - 1]);
  }

  /** The marks: a slash in front, or within, ties a pattern to the root, one at the end asks for a directory, and
      a negated pattern says nothing. */
  lemma {:induction false} Marks(p: string)
    requires Bare(p)
    ensures RuleOf(p) == Some(Rule(Tokens(p, 0), '/' in p, false))
    ensures RuleOf("/" + p) == Some(Rule(Tokens(p, 0), true, false))
    ensures RuleOf(p + "/") == Some(Rule(Tokens(p, 0), '/' in p, true))
    ensures RuleOf("!" + p) == None
  {
    BareRule(p);
    SlashInFront(p);
    SlashAtEnd(p);
    Unmarked("!" + p);
    assert "!" <= "!" + p;
  }

  lemma {:induction false} BareRule(p: string)
    requires Bare(p)
    ensures RuleOf(p) == Some(Rule(Tokens(p, 0), '/' in p, false))
  {
    Unmarked(p);
  }

  lemma {:induction false} SlashInFront(p: string)
    requires Bare(p)
    ensures RuleOf("/" + p) == Some(Rule(Tokens(p, 0), true, false))
  {
    var marked := "/" + p;
    Unmarked(marked);
    assert marked[0] == '/' && marked[1..] == p;
  }

  lemma {:induction false} SlashAtEnd(p: string)
    requires Bare(p)
    ensures RuleOf(p + "/") == Some(Rule(Tokens(p, 0), '/' in p, true))
  {
    var marked := p + "/";
    Unmarked(marked);
    assert marked[0] == p[0] && marked[|marked| - 1] == '/' && marked[..|marked| - 1] == p;
  }

  // ---------------------------------------------------------------- owners

  datatype OwnershipRule = OwnershipRule(pattern: string, owners: seq<string>, unresolvedOwners: seq<string>, line: nat)

  datatype OwnershipIndex = OwnershipIndex(available: bool, rules: seq<OwnershipRule>)

  datatype OwnershipMatch =
    | Unavailable
    | Unowned
    | Owned(rule: OwnershipRule)
    | UnresolvedOwner(rule: OwnershipRule)

  /** A pattern that says nothing, or is not supported, matches nothing. */
  predicate PatternMatches(pattern: string, path: string) {
    match RuleOf(pattern)
    case None => false
    case Some(rule) => Applies(rule, path)
  }

  function ToSlash(path: string): (r: string)
    ensures |r| == |path| && '\\' !in r
    ensures forall i | 0 <= i < |path| :: r[i] == path[i] || (path[i] == '\\' && r[i] == '/')
  {
    seq(|path|, i requires 0 <= i < |path| => if path[i] == '\\' then '/' else path[i])
  }

  function Normalize(filePath: string): string {
    var path := ToSlash(TrimSpace(filePath));
    if "/" <= path then path[1..] else path
  }

  function StateOf(rule: OwnershipRule): OwnershipMatch {
    if rule.owners != [] && rule.unresolvedOwners == [] then Owned(rule) else UnresolvedOwner(rule)
  }

  /** codeownersPatternMatches: the compiled expression is matched against the path. */
  method MatchesPattern(pattern: string, path: string) returns (matches: bool)
    ensures matches <==> PatternMatches(pattern, path)
  {
    var expression := CompilePattern(pattern);
    if expression.None? {
      return false;
    }
    CompiledPatternApplies(RuleOf(pattern).value, path);
    matches := exists i: nat, j: nat | i <= j <= |path| :: Matches(NO_BRACKETS, expression.value, path, i, j);
  }

  /** Which rules match the path. */
  function Verdicts(rules: seq<OwnershipRule>, path: string): (v: seq<bool>)
    ensures |v| == |rules|
  {
    seq(|rules|, k requires 0 <= k < |rules| => PatternMatches(rules[k].pattern, path))
  }

  predicate IsLastTrue(verdicts: seq<bool>, k: nat, n: nat)
    requires n <= |verdicts|
  {
    k < n && verdicts[k] && forall l | k < l < n :: !verdicts[l]
  }

  method FindLast(rules: seq<OwnershipRule>, path: string) returns (matched: Option<nat>)
    ensures matched.None? ==> forall l | 0 <= l < |rules| :: !Verdicts(rules, path)[l]
    ensures matched.Some? ==> IsLastTrue(Verdicts(rules, path), matched.value, |rules|)
  {
    hide PatternMatches;
    ghost var verdicts := Verdicts(rules, path);
    matched := None;
    for k := 0 to |rules|
      invariant matched.None? ==> forall l | 0 <= l < k :: !verdicts[l]
      invariant matched.Some? ==> IsLastTrue(verdicts, matched.value, k)
    {
      var matches := MatchesPattern(rules[k].pattern, path);
      assert matches == verdicts[k];
      if matches {
        matched := Some(k);
      }
    }
  }

  /** ResolveOwners: the last rule that matches decides. */
  method ResolveOwners(index: OwnershipIndex, filePath: string) returns (r: OwnershipMatch)
    ensures r.Unavailable? <==> !index.available
    ensures var verdicts := Verdicts(index.rules, Normalize(filePath));
            && (r.Unowned? ==> forall l | 0 <= l < |verdicts| :: !verdicts[l])
            && (r.Owned? || r.UnresolvedOwner? ==>
                  exists k: nat :: IsLastTrue(verdicts, k, |verdicts|) && r == StateOf(index.rules[k]))
    ensures r.Owned? ==> r.rule.owners != [] && r.rule.unresolvedOwners == []
  {
    if !index.available {
      return Unavailable;
    }
    var path := ToSlash(TrimSpace(filePath));
    if "/" <= path {
      path := path[1..];
    }
    var matched := FindLast(index.rules, path);
    if matched.None? {
      return Unowned;
    }
    var rule := index.rules[matched.value];
    if rule.owners == [] {
      return UnresolvedOwner(rule);
    }
    return if rule.unresolvedOwners != [] then UnresolvedOwner(rule) else Owned(rule);
  }
}
