/** .gitignore rules: a line becomes a regular expression over paths relative to the file's directory. */
module IgnoreRules {

  import opened Globs

  datatype Option<+T> = None | Some(value: T)

  // ---------------------------------------------------------------- glob syntax

  /** The next occurrence of a character, or the end. */
  function IndexOf(s: string, c: char, i: nat): (p: nat)
    requires i <= |s|
    ensures i <= p <= |s| && Free(s, c, i, p) && (p < |s| ==> s[p] == c)
    decreases |s| - i
  {
    if i == |s| || s[i] == c then i else IndexOf(s, c, i + 1)
  }

  /** A class with its negation in the spelling of regular expressions. */
  function ClassText(text: string): string {
    if "[!" <= text then "[^" + text[2..] else text
  }

  /** The token that starts at position i, and where the next one starts. */
  function TokenAt(pattern: string, i: nat): (r: (Token, nat))
    requires i < |pattern|
    ensures i < r.1 <= |pattern|
  {
    if "**/" <= pattern[i..] then (DeepDirs, i + 3)
    else if "**" <= pattern[i..] then (Deep, i + 2)
    else if pattern[i] == '*' then (Run, i + 1)
    else if pattern[i] == '?' then (One, i + 1)
    else if pattern[i] == '[' && IndexOf(pattern, ']', i) < |pattern| then
      var closing := IndexOf(pattern, ']', i);
      (Bracket(ClassText(pattern[i..closing + 1])), closing + 1)
    else if pattern[i] == '\\' && i + 1 < |pattern| then (Lit(pattern[i + 1]), i + 2)
    else (Lit(pattern[i]), i + 1)
  }

  function Tokens(pattern: string, i: nat): seq<Token>
    requires i <= |pattern|
    decreases |pattern| - i
  {
    if i == |pattern| then [] else [TokenAt(pattern, i).0] + Tokens(pattern, TokenAt(pattern, i).1)
  }

  /** One turn of the loop of globToRegexp: what it writes, and the index it leaves. */
  method WriteToken(pattern: string, start: nat) returns (node: Re, index: nat)
    requires start < |pattern|
    ensures node == NodeOf(TokenAt(pattern, start).0) && index + 1 == TokenAt(pattern, start).1
  {
    index := start;
    var character := pattern[index];
    if character == '*' {
      if index + 1 < |pattern| && pattern[index + 1] == '*' {
        index := index + 1;
        if index + 1 < |pattern| && pattern[index + 1] == '/' {
          index := index + 1;
          return ANY_DIRECTORIES, index;
        }
        return ANYTHING, index;
      }
      node := Star(NotSlash);
    } else if character == '?' {
      node := NotSlash;
    } else if character == '[' {
      var closing := IndexOf(pattern, ']', index);
      if closing < |pattern| {
        var class' := pattern[index..closing + 1];
        if "[!" <= class' {
          class' := "[^" + class'[2..];
        }
        return Class(class'), closing;
      }
      node := Chr('[');
    } else if character == '\\' {
      if index + 1 < |pattern| {
        index := index + 1;
        return Chr(pattern[index]), index;
      }
      node := Chr('\\');
    } else {
      node := Chr(character);
    }
  }

  /** The tokens before an index are done, the others are to come. */
  predicate Cut(pattern: string, done: seq<Token>, index: nat)
    requires index <= |pattern|
  {
    done + Tokens(pattern, index) == Tokens(pattern, 0)
  }

  lemma CutMoves(pattern: string, done: seq<Token>, index: nat)
    requires index < |pattern| && Cut(pattern, done, index)
    ensures Cut(pattern, done + [TokenAt(pattern, index).0], TokenAt(pattern, index).1)
    ensures NodesOf(done + [TokenAt(pattern, index).0]) == NodesOf(done) + [NodeOf(TokenAt(pattern, index).0)]
  {
    var t := TokenAt(pattern, index);
    assert done + ([t.0] + Tokens(pattern, t.1)) == (done + [t.0]) + Tokens(pattern, t.1);
  }

  /** globToRegexp */
  method GlobToRegexp(pattern: string) returns (output: seq<Re>)
    ensures output == NodesOf(Tokens(pattern, 0))
  {
    output := [];
    ghost var done: seq<Token> := [];
    var index := 0;
    while index < |pattern|
      invariant index <= |pattern| && Cut(pattern, done, index) && output == NodesOf(done)
    {
      CutMoves(pattern, done, index);
      done := done + [TokenAt(pattern, index).0];
      var node, last := WriteToken(pattern, index);
      output := output + [node];
      index := last + 1;
    }
  }

  // ---------------------------------------------------------------- one line

  datatype Rule = Rule(tokens: seq<Token>, anchored: bool, negate: bool, directoryOnly: bool)

  function TrimRight(line: string): (r: string)
    ensures |r| <= |line| && r == line[..|r|]
  {
    if line != "" && line[|line| - 1] in " \t" then TrimRight(line[..|line| - 1]) else line
  }

  /** What a line says, after its trailing blanks, a mark of negation and an escape were removed. */
  function BodyRule(line: string, negate: bool): Option<Rule> {
    var directoryOnly := line != "" && line[|line| - 1] == '/';
    var body := if directoryOnly then line[..|line| - 1] else line;
    var relative := if "/" <= body then body[1..] else body;
    if relative == "" then None else Some(Rule(Tokens(relative, 0), '/' in body, negate, directoryOnly))
  }

  function RuleOf(line: string): Option<Rule> {
    var trimmed := TrimRight(line);
    var negate := "!" <= trimmed;
    var rest := if negate then trimmed[1..] else trimmed;
    if trimmed == "" || "#" <= trimmed then None
    else BodyRule(if "\\#" <= rest || "\\!" <= rest then rest[1..] else rest, negate)
  }

  /** The regular expression of a rule: anchored at the start, or below any directories. */
  function ExpressionOf(rule: Rule): Re {
    var body := Cat(Chain(NodesOf(rule.tokens), 0), End);
    Cat(Begin, if rule.anchored then body else Cat(ANY_DIRECTORIES, body))
  }

  datatype IgnorePattern = IgnorePattern(matcher: Re, negate: bool, directoryOnly: bool)

  /** Go's compiler accepts the expression: it refuses malformed bracket expressions. */
  predicate Compiles(valid: string -> bool, rule: Rule) {
    forall t <- rule.tokens :: t.Bracket? ==> valid(t.text)
  }

  predicate AllValid(valid: string -> bool, nodes: seq<Re>) {
    forall k | 0 <= k < |nodes| :: nodes[k].Class? ==> valid(nodes[k].text)
  }

  /** The pattern that a rule is compiled to, if it compiles. */
  predicate Compiled(valid: string -> bool, rule: Option<Rule>, r: Option<IgnorePattern>) {
    && (r.Some? <==> rule.Some? && Compiles(valid, rule.value))
    && (r.Some? ==> r.value == IgnorePattern(ExpressionOf(rule.value), rule.value.negate, rule.value.directoryOnly))
  }

  method CompileRelative(valid: string -> bool, relative: string, anchored: bool) returns (matcher: Option<Re>)
    ensures var rule := Rule(Tokens(relative, 0), anchored, false, false);
            (matcher.Some? <==> Compiles(valid, rule)) && (matcher.Some? ==> matcher.value == ExpressionOf(rule))
  {
    var nodes := GlobToRegexp(relative);
    ghost var tokens := Tokens(relative, 0);
    assert forall k | 0 <= k < |tokens| :: nodes[k] == NodeOf(tokens[k]);
    if !AllValid(valid, nodes) {
      return None;
    }
    var expression := Cat(Chain(nodes, 0), End);
    if !anchored {
      expression := Cat(ANY_DIRECTORIES, expression);
    }
    return Some(Cat(Begin, expression));
  }

  /** The second half of compileIgnorePattern. */
  method CompileBody(valid: string -> bool, text: string, negate: bool) returns (r: Option<IgnorePattern>)
    ensures Compiled(valid, BodyRule(text, negate), r)
  {
    var line, directoryOnly := text, false;
    if line != "" && line[|line| - 1] == '/' {
      directoryOnly := true;
      line := line[..|line| - 1];
    }
    if line == "" {
      return None;
    }
    var anchored := '/' in line;
    if "/" <= line {
      line := line[1..];
    }
    if line == "" {
      return None;
    }
    var matcher := CompileRelative(valid, line, anchored);
    if matcher.None? {
      return None;
    }
    return Some(IgnorePattern(matcher.value, negate, directoryOnly));
  }

  /** compileIgnorePattern */
  method CompileIgnorePattern(valid: string -> bool, text: string) returns (r: Option<IgnorePattern>)
    ensures Compiled(valid, RuleOf(text), r)
  {
    var line := TrimRight(text);
    if line == "" || "#" <= line {
      return None;
    }
    var negate := false;
    if "!" <= line {
      negate := true;
      line := line[1..];
    }
    if "\\#" <= line || "\\!" <= line {
      line := line[1..];
    }
    r := CompileBody(valid, line, negate);
  }

  // ---------------------------------------------------------------- what rules match

  /** The rule matches the path, read without regular expressions: at its start or, when it is not
      anchored, after some slash. */
  predicate Applies(m: Brackets, rule: Rule, path: string) {
    GlobFrom(m, rule.tokens, path, 0) ||
    (!rule.anchored &&
     exists p: nat | 0 < p <= |path| :: path[p - 1] == '/' && Free(path, '\n', 0, p) &&
       GlobFrom(m, rule.tokens, path, p))
  }

  lemma {:induction false} ToTheEnd(m: Brackets, r: Re, s: string, i: nat, j: nat)
    requires i <= j <= |s|
    ensures Matches(m, Cat(r, End), s, i, j) <==> j == |s| && Matches(m, r, s, i, |s|)
  {
    assert j == |s| ==> Matches(m, End, s, j, j);
  }

  lemma {:induction false} FromTheStart(m: Brackets, r: Re, s: string)
    requires forall j: nat | j <= |s| && Matches(m, r, s, 0, j) :: j == |s|
    ensures MatchString(m, Cat(Begin, r), s) <==> Matches(m, r, s, 0, |s|)
  {
    assert Matches(m, Begin, s, 0, 0);
    if Matches(m, r, s, 0, |s|) {
      assert Matches(m, Cat(Begin, r), s, 0, |s|);
    }
    if i: nat, j: nat :| i <= j <= |s| && Matches(m, Cat(Begin, r), s, i, j) {
      var k := CatSplits(m, Cat(Begin, r), s, i, j);
    }
  }

  lemma {:induction false} BodyMeans(m: Brackets, ts: seq<Token>, s: string, i: nat, j: nat)
    requires i <= j <= |s|
    ensures Matches(m, Cat(Chain(NodesOf(ts), 0), End), s, i, j) <==> j == |s| && GlobFrom(m, ts, s, i)
  {
    ToTheEnd(m, Chain(NodesOf(ts), 0), s, i, j);
    ChainIsGlob(m, ts, NodesOf(ts), 0, s, i, |s|);
  }

  lemma {:induction false} BelowMeans(m: Brackets, ts: seq<Token>, body: Re, s: string, j: nat)
    requires body == Cat(Chain(NodesOf(ts), 0), End) && j <= |s|
    ensures Matches(m, Cat(ANY_DIRECTORIES, body), s, 0, j) <==>
            j == |s| && (GlobFrom(m, ts, s, 0) ||
                         exists p: nat | 0 < p <= |s| ::
                           s[p - 1] == '/' && Free(s, '\n', 0, p) && GlobFrom(m, ts, s, p))
  {
    forall p: nat | p <= j
      ensures Matches(m, ANY_DIRECTORIES, s, 0, p) <==> p == 0 || (s[p - 1] == '/' && Free(s, '\n', 0, p))
      ensures Matches(m, body, s, p, j) <==> j == |s| && GlobFrom(m, ts, s, p)
    {
      AnyDirectories(m, s, 0, p);
      BodyMeans(m, ts, s, p, j);
    }
  }

  /** The compiled expression of a rule accepts exactly the paths the rule applies to. */
  lemma CompiledRuleApplies(m: Brackets, rule: Rule, path: string)
    ensures MatchString(m, ExpressionOf(rule), path) <==> Applies(m, rule, path)
  {
    var body := Cat(Chain(NodesOf(rule.tokens), 0), End);
    forall j: nat | j <= |path|
      ensures Matches(m, body, path, 0, j) <==> j == |path| && GlobFrom(m, rule.tokens, path, 0)
      ensures Matches(m, Cat(ANY_DIRECTORIES, body), path, 0, j) <==>
              j == |path| && Applies(m, rule.(anchored := false), path)
    {
      BodyMeans(m, rule.tokens, path, 0, j);
      BelowMeans(m, rule.tokens, body, path, j);
    }
    FromTheStart(m, if rule.anchored then body else Cat(ANY_DIRECTORIES, body), path);
  }

  /** matcher.MatchString */
  predicate PatternMatches(m: Brackets, pattern: IgnorePattern, path: string) {
    exists i: nat, j: nat | i <= j <= |path| :: Matches(m, pattern.matcher, path, i, j)
  }

  /** A compiled line matches exactly the paths its rule applies to. */
  lemma CompiledPatternApplies(m: Brackets, rule: Rule, pattern: IgnorePattern, path: string)
    requires pattern.matcher == ExpressionOf(rule)
    ensures PatternMatches(m, pattern, path) <==> Applies(m, rule, path)
  {
    CompiledRuleApplies(m, rule, path);
  }

  /** Where the last component of a path starts. */
  function LastComponent(path: string): (p: nat)
    ensures p <= |path| && Free(path, '/', p, |path|) && (p > 0 ==> path[p - 1] == '/')
  {
    if path == "" || path[|path| - 1] == '/' then |path| else LastComponent(path[..|path| - 1])
  }

  /** An anchored rule without two stars and bracket expressions applies component by component. */
  lemma {:induction false} AnchoredAppliesByComponents(m: Brackets, rule: Rule, path: string)
    requires rule.anchored && Plain(rule.tokens)
    ensures Applies(m, rule, path) <==> ByComponents(m, rule.tokens, 0, path, 0)
  {
    PlainIsByComponents(m, rule.tokens, 0, path, 0);
  }

  /** One that is not anchored applies exactly if it matches the last component. */
  lemma {:induction false} UnanchoredAppliesToLastComponent(m: Brackets, rule: Rule, path: string)
    requires !rule.anchored && Plain(rule.tokens) && NoSlash(rule.tokens, 0, |rule.tokens|) &&
             Free(path, '\n', 0, |path|)
    ensures Applies(m, rule, path) <==> GlobFrom(m, rule.tokens, path, LastComponent(path))
  {
    var last := LastComponent(path);
    forall p: nat | p <= |path| && GlobFrom(m, rule.tokens, path, p) &&
      (p == 0 || path[p - 1] == '/') ensures p == last {
      StaysInComponent(m, rule.tokens, 0, |rule.tokens|, path, p, |path|);
    }
  }

  // ---------------------------------------------------------------- what lines say

  lemma {:induction false} TokensWithoutSlash(pattern: string, i: nat)
    requires i <= |pattern| && '/' !in pattern
    ensures NoSlash(Tokens(pattern, i), 0, |Tokens(pattern, i)|)
    decreases |pattern| - i
  {
    if i < |pattern| {
      TokensWithoutSlash(pattern, TokenAt(pattern, i).1);
    }
  }

  /** Neither two stars in a row nor an opening bracket. */
  predicate PlainText(text: string) {
    '[' !in text && forall i | 0 <= i < |text| - 1 :: !(text[i] == '*' && text[i + 1] == '*')
  }

  lemma TwoStars(pattern: string, i: nat)
    requires i < |pattern|
    ensures "**" <= pattern[i..] <==> i + 1 < |pattern| && pattern[i] == '*' && pattern[i + 1] == '*'
  {
  }

  lemma {:induction false} PlainTextIsPlain(pattern: string, i: nat)
    requires i <= |pattern| && PlainText(pattern)
    ensures Plain(Tokens(pattern, i))
    decreases |pattern| - i
  {
    if i < |pattern| {
      assert pattern[i] in pattern;
      TwoStars(pattern, i);
      PlainTextIsPlain(pattern, TokenAt(pattern, i).1);
    }
  }

  /** A line without marks around its glob. */
  predicate Bare(line: string) {
    line != "" && line[0] !in "#!/\\" && line[|line| - 1] !in "/ \t"
  }

  /** A line without marks and slashes, two stars and brackets ignores the paths whose last component its
      glob matches. */
  lemma {:induction false} BareLineMatchesLastComponent(m: Brackets, line: string, path: string)
    requires Bare(line) && '/' !in line && PlainText(line) && Free(path, '\n', 0, |path|)
    ensures RuleOf(line).Some?
    ensures Applies(m, RuleOf(line).value, path) <==> GlobFrom(m, Tokens(line, 0), path, LastComponent(path))
  {
    assert TrimRight(line) == line;
    TokensWithoutSlash(line, 0);
    PlainTextIsPlain(line, 0);
    UnanchoredAppliesToLastComponent(m, RuleOf(line).value, path);
  }

  lemma {:induction false} BareBody(line: string, negate: bool)
    requires Bare(line)
    ensures BodyRule(line, negate) == Some(Rule(Tokens(line, 0), '/' in line, negate, false))
    ensures BodyRule(line + "/", negate) == Some(Rule(Tokens(line, 0), '/' in line, negate, true))
    ensures BodyRule("/" + line, negate) == Some(Rule(Tokens(line, 0), true, negate, false))
  {
    hide Tokens;
    assert !("/" <= line) && (line + "/")[..|line|] == line;
    assert ("/" + line)[1..] == line && ("/" + line)[0] == '/' && ("/" + line)[|line|] == line[|line| - 1];
  }

  lemma {:induction false} InFront(c: char, line: string)
    requires Bare(line)
    ensures TrimRight([c] + line) == [c] + line && ([c] + line)[1..] == line && ([c] + line)[0] == c
  {
    assert ([c] + line)[|line|] == line[|line| - 1];
  }

  /** The marks: blanks at the end are ignored, a line in comment says nothing, ! negates, a slash at the
      end asks for directories and one at the start anchors. */
  lemma {:induction false} Marks(line: string)
    requires Bare(line)
    ensures RuleOf(line) == Some(Rule(Tokens(line, 0), '/' in line, false, false))
    ensures RuleOf("#" + line) == None
    ensures RuleOf("!" + line) == Some(RuleOf(line).value.(negate := true))
    ensures RuleOf(line + "/") == Some(RuleOf(line).value.(directoryOnly := true))
    ensures RuleOf("/" + line) == Some(RuleOf(line).value.(anchored := true))
  {
    BareRule(line);
    BareBody(line, false);
    Commented(line);
    Negated(line);
    SlashAtEnd(line);
    SlashInFront(line);
  }

  lemma Commented(line: string)
    requires Bare(line)
    ensures RuleOf("#" + line) == None
  {
    InFront('#', line);
  }

  lemma {:induction false} Negated(line: string)
    requires Bare(line)
    ensures RuleOf("!" + line) == BodyRule(line, true) &&
            BodyRule(line, true) == Some(Rule(Tokens(line, 0), '/' in line, true, false))
  {
    InFront('!', line);
    BareBody(line, true);
  }

  lemma SlashAtEnd(line: string)
    requires Bare(line)
    ensures RuleOf(line + "/") == BodyRule(line + "/", false)
  {
    var marked := line + "/";
    assert marked[|line|] == '/' && TrimRight(marked) == marked && marked[0] == line[0];
  }

  lemma SlashInFront(line: string)
    requires Bare(line)
    ensures RuleOf("/" + line) == BodyRule("/" + line, false)
  {
    InFront('/', line);
  }

  lemma BareRule(line: string)
    requires Bare(line)
    ensures RuleOf(line) == BodyRule(line, false)
    ensures RuleOf(line + " ") == RuleOf(line)
  {
    assert TrimRight(line) == line && line[0] !in "#!\\";
    assert (line + " ")[..|line|] == line && TrimRight(line + " ") == line;
  }
}
