/** Glob tokens, the regular expressions they are compiled to, and a direct matcher for them.
    A bracket expression is an opaque set of characters. */
module Globs {

  /** A regular expression, of the forms the glob compilers write. */
  datatype Re =
    | Empty
    | Begin                  // ^
    | End                    // $
    | Chr(c: char)
    | Dot                    // . is any character but a newline
    | NotSlash               // [^/]
    | Class(text: string)    // a bracket expression
    | Star(r: Re)
    | Opt(r: Re)             // (?:r)?
    | Alt(a: Re, b: Re)      // (?:a|b)
    | Cat(a: Re, b: Re)

  /** The characters a bracket expression stands for. */
  type Brackets = (string, char) -> bool

  /** The expression matches s from position i up to position j. */
  predicate Matches(m: Brackets, r: Re, s: string, i: nat, j: nat)
    requires i <= j <= |s|
    decreases r, j - i
  {
    match r
    case Empty => i == j
    case Begin => i == j == 0
    case End => i == j == |s|
    case Chr(c) => j == i + 1 && s[i] == c
    case Dot => j == i + 1 && s[i] != '\n'
    case NotSlash => j == i + 1 && s[i] != '/'
    case Class(text) => j == i + 1 && m(text, s[i])
    case Star(x) => i == j || exists k: nat | i < k <= j :: Matches(m, x, s, i, k) && Matches(m, r, s, k, j)
    case Opt(x) => i == j || Matches(m, x, s, i, j)
    case Alt(a, b) => Matches(m, a, s, i, j) || Matches(m, b, s, i, j)
    case Cat(a, b) => exists k: nat | i <= k <= j :: Matches(m, a, s, i, k) && Matches(m, b, s, k, j)
  }

  /** MatchString: the expression matches some part of s. */
  ghost predicate MatchString(m: Brackets, r: Re, s: string) {
    exists i: nat, j: nat :: i <= j <= |s| && Matches(m, r, s, i, j)
  }

  // ---------------------------------------------------------------- tokens

  datatype Token =
    | Lit(c: char)
    | Run                    // any characters of one component
    | One                    // one character of a component
    | Deep                   // any characters
    | DeepDirs               // any directories, including none
    | Bracket(text: string)

  /** .* */
  const ANYTHING := Star(Dot)
  /** (?:.*\/)? */
  const ANY_DIRECTORIES := Opt(Cat(Star(Dot), Chr('/')))

  function NodeOf(t: Token): Re {
    match t
    case Lit(c) => Chr(c)
    case Run => Star(NotSlash)
    case One => NotSlash
    case Deep => ANYTHING
    case DeepDirs => ANY_DIRECTORIES
    case Bracket(text) => Class(text)
  }

  /** Some expressions after each other, from the k-th on. */
  function Chain(nodes: seq<Re>, k: nat): Re
    requires k <= |nodes|
    decreases |nodes| - k
  {
    if k == |nodes| then Empty else Cat(nodes[k], Chain(nodes, k + 1))
  }

  predicate Free(s: string, c: char, i: nat, j: nat)
    requires j <= |s|
  {
    forall k | i <= k < j :: s[k] != c
  }

  /** The direct matcher: tokens k up to n match s from position i up to position j. */
  predicate Glob(m: Brackets, ts: seq<Token>, k: nat, n: nat, s: string, i: nat, j: nat)
    requires k <= n <= |ts| && i <= j <= |s|
    decreases n - k, j - i
  {
    if k == n then i == j else
    match ts[k]
    case Lit(c) => i < j && s[i] == c && Glob(m, ts, k + 1, n, s, i + 1, j)
    case One => i < j && s[i] != '/' && Glob(m, ts, k + 1, n, s, i + 1, j)
    case Bracket(text) => i < j && m(text, s[i]) && Glob(m, ts, k + 1, n, s, i + 1, j)
    case Run => Glob(m, ts, k + 1, n, s, i, j) || (i < j && s[i] != '/' && Glob(m, ts, k, n, s, i + 1, j))
    case Deep => Glob(m, ts, k + 1, n, s, i, j) || (i < j && s[i] != '\n' && Glob(m, ts, k, n, s, i + 1, j))
    case DeepDirs =>
      Glob(m, ts, k + 1, n, s, i, j) ||
      exists p: nat | i < p <= j :: s[p - 1] == '/' && Free(s, '\n', i, p) && Glob(m, ts, k + 1, n, s, p, j)
  }

  // ---------------------------------------------------------------- compiling preserves meaning

  lemma CatSplits(m: Brackets, r: Re, s: string, i: nat, j: nat) returns (k: nat)
    requires i <= j <= |s| && r.Cat? && Matches(m, r, s, i, j)
    ensures i <= k <= j && Matches(m, r.a, s, i, k) && Matches(m, r.b, s, k, j)
  {
    assert exists k: nat :: i <= k <= j && Matches(m, r.a, s, i, k) && Matches(m, r.b, s, k, j);
    k :| i <= k <= j && Matches(m, r.a, s, i, k) && Matches(m, r.b, s, k, j);
  }

  lemma {:induction false} StarOfDot(m: Brackets, s: string, i: nat, j: nat)
    requires i <= j <= |s|
    ensures Matches(m, Star(Dot), s, i, j) <==> Free(s, '\n', i, j)
    decreases j - i
  {
    if i < j {
      StarOfDot(m, s, i + 1, j);
      assert Matches(m, Dot, s, i, i + 1) <==> s[i] != '\n';
    }
  }

  lemma {:induction false} StarOfNotSlash(m: Brackets, s: string, i: nat, j: nat)
    requires i <= j <= |s|
    ensures Matches(m, Star(NotSlash), s, i, j) <==> Free(s, '/', i, j)
    decreases j - i
  {
    if i < j {
      StarOfNotSlash(m, s, i + 1, j);
      assert Matches(m, NotSlash, s, i, i + 1) <==> s[i] != '/';
    }
  }

  /** A run takes any number of characters that are no slashes. */
  lemma {:induction false} GlobRun(m: Brackets, ts: seq<Token>, k: nat, n: nat, s: string, i: nat, j: nat)
    requires k < n <= |ts| && i <= j <= |s| && ts[k].Run?
    ensures Glob(m, ts, k, n, s, i, j) <==>
            exists p: nat :: i <= p <= j && Free(s, '/', i, p) && Glob(m, ts, k + 1, n, s, p, j)
    decreases j - i
  {
    assert Free(s, '/', i, i);
    if i < j {
      GlobRun(m, ts, k, n, s, i + 1, j);
      if Glob(m, ts, k, n, s, i + 1, j) && s[i] != '/' {
        var p: nat :| i + 1 <= p <= j && Free(s, '/', i + 1, p) && Glob(m, ts, k + 1, n, s, p, j);
        assert Free(s, '/', i, p);
      }
      if p: nat :| i <= p <= j && Free(s, '/', i, p) && Glob(m, ts, k + 1, n, s, p, j) {
        if p > i {
          assert Free(s, '/', i + 1, p);
        }
      }
    }
  }

  lemma {:induction false} GlobDeep(m: Brackets, ts: seq<Token>, k: nat, n: nat, s: string, i: nat, j: nat)
    requires k < n <= |ts| && i <= j <= |s| && ts[k].Deep?
    ensures Glob(m, ts, k, n, s, i, j) <==>
            exists p: nat :: i <= p <= j && Free(s, '\n', i, p) && Glob(m, ts, k + 1, n, s, p, j)
    decreases j - i
  {
    assert Free(s, '\n', i, i);
    if i < j {
      GlobDeep(m, ts, k, n, s, i + 1, j);
      if Glob(m, ts, k, n, s, i + 1, j) && s[i] != '\n' {
        var p: nat :| i + 1 <= p <= j && Free(s, '\n', i + 1, p) && Glob(m, ts, k + 1, n, s, p, j);
        assert Free(s, '\n', i, p);
      }
      if p: nat :| i <= p <= j && Free(s, '\n', i, p) && Glob(m, ts, k + 1, n, s, p, j) {
        if p > i {
          assert Free(s, '\n', i + 1, p);
        }
      }
    }
  }

  lemma {:induction false} Directories(m: Brackets, s: string, i: nat, p: nat)
    requires i <= p <= |s|
    ensures Matches(m, Cat(Star(Dot), Chr('/')), s, i, p) <==> i < p && s[p - 1] == '/' && Free(s, '\n', i, p)
  {
    if i < p {
      forall k: nat | i <= k <= p ensures Matches(m, Chr('/'), s, k, p) <==> k + 1 == p && s[k] == '/' {
      }
      StarOfDot(m, s, i, p - 1);
      assert Matches(m, Cat(Star(Dot), Chr('/')), s, i, p) <==>
             Matches(m, Star(Dot), s, i, p - 1) && Matches(m, Chr('/'), s, p - 1, p);
    }
  }

  lemma {:induction false} AnyDirectories(m: Brackets, s: string, i: nat, p: nat)
    requires i <= p <= |s|
    ensures Matches(m, ANY_DIRECTORIES, s, i, p) <==> i == p || (s[p - 1] == '/' && Free(s, '\n', i, p))
  {
    Directories(m, s, i, p);
    assert ANY_DIRECTORIES.r == Cat(Star(Dot), Chr('/'));
  }

  /** The nodes of the tokens. */
  function NodesOf(ts: seq<Token>): (nodes: seq<Re>)
    ensures |nodes| == |ts| && forall k | 0 <= k < |ts| :: nodes[k] == NodeOf(ts[k])
  {
    seq(|ts|, k requires 0 <= k < |ts| => NodeOf(ts[k]))
  }

  /** The compiled expression accepts what the direct matcher accepts. */
  lemma {:induction false} ChainIsGlob(m: Brackets, ts: seq<Token>, nodes: seq<Re>, k: nat, s: string, i: nat, j: nat)
    requires k <= |ts| == |nodes| && (forall l | 0 <= l < |ts| :: nodes[l] == NodeOf(ts[l])) && i <= j <= |s|
    ensures Matches(m, Chain(nodes, k), s, i, j) <==> Glob(m, ts, k, |ts|, s, i, j)
    decreases |ts| - k
  {
    if k < |ts| {
      var rest := Chain(nodes, k + 1);
      forall p: nat | i <= p <= j ensures Matches(m, rest, s, p, j) <==> Glob(m, ts, k + 1, |ts|, s, p, j) {
        ChainIsGlob(m, ts, nodes, k + 1, s, p, j);
      }
      TokenIsNode(m, ts, k, NodeOf(ts[k]), rest, s, i, j);
    }
  }

  lemma TokenIsNode(m: Brackets, ts: seq<Token>, k: nat, node: Re, rest: Re, s: string, i: nat, j: nat)
    requires k < |ts| && node == NodeOf(ts[k]) && i <= j <= |s|
    requires forall p: nat | i <= p <= j :: Matches(m, rest, s, p, j) <==> Glob(m, ts, k + 1, |ts|, s, p, j)
    ensures Matches(m, Cat(node, rest), s, i, j) <==> Glob(m, ts, k, |ts|, s, i, j)
  {
    if ts[k].Run? || ts[k].Deep? || ts[k].DeepDirs? {
      StretchIsNode(m, ts, k, node, rest, s, i, j);
    } else if i < j {
      assert Matches(m, Cat(node, rest), s, i, j) <==> Matches(m, node, s, i, i + 1) && Matches(m, rest, s, i + 1, j);
      assert Matches(m, rest, s, i + 1, j) <==> Glob(m, ts, k + 1, |ts|, s, i + 1, j);
    }
  }

  /** The same for a token that takes any number of characters. */
  lemma StretchIsNode(m: Brackets, ts: seq<Token>, k: nat, node: Re, rest: Re, s: string, i: nat, j: nat)
    requires k < |ts| && node == NodeOf(ts[k]) && i <= j <= |s| && (ts[k].Run? || ts[k].Deep? || ts[k].DeepDirs?)
    requires forall p: nat | i <= p <= j :: Matches(m, rest, s, p, j) <==> Glob(m, ts, k + 1, |ts|, s, p, j)
    ensures Matches(m, Cat(node, rest), s, i, j) <==> Glob(m, ts, k, |ts|, s, i, j)
  {
    assert Matches(m, Cat(node, rest), s, i, j) <==>
           exists p: nat :: i <= p <= j && Matches(m, node, s, i, p) && Matches(m, rest, s, p, j);
    forall p: nat | i <= p <= j
      ensures ts[k].Run? ==> (Matches(m, node, s, i, p) <==> Free(s, '/', i, p))
      ensures ts[k].Deep? ==> (Matches(m, node, s, i, p) <==> Free(s, '\n', i, p))
      ensures ts[k].DeepDirs? ==> (Matches(m, node, s, i, p) <==> i == p || (s[p - 1] == '/' && Free(s, '\n', i, p)))
    {
      StarOfNotSlash(m, s, i, p);
      StarOfDot(m, s, i, p);
      AnyDirectories(m, s, i, p);
    }
    if ts[k].Run? {
      GlobRun(m, ts, k, |ts|, s, i, j);
    } else if ts[k].Deep? {
      GlobDeep(m, ts, k, |ts|, s, i, j);
    } else {
      assert Matches(m, node, s, i, i);
    }
  }

  /** Some tokens match s from position i to its end. */
  predicate GlobFrom(m: Brackets, ts: seq<Token>, s: string, i: nat)
    requires i <= |s|
  {
    Glob(m, ts, 0, |ts|, s, i, |s|)
  }

  // ---------------------------------------------------------------- component by component

  /** Neither two stars nor a bracket expression: every token stays within a component or is a slash. */
  predicate Plain(ts: seq<Token>) {
    forall k | 0 <= k < |ts| :: ts[k].Lit? || ts[k].Run? || ts[k].One?
  }

  /** The next slash from position i on, or the end. */
  function NextSlash(s: string, i: nat): (p: nat)
    requires i <= |s|
    ensures i <= p <= |s| && Free(s, '/', i, p) && (p < |s| ==> s[p] == '/')
    decreases |s| - i
  {
    if i == |s| || s[i] == '/' then i else NextSlash(s, i + 1)
  }

  predicate NoSlash(ts: seq<Token>, k: nat, n: nat)
    requires n <= |ts|
  {
    forall l | k <= l < n :: ts[l] != Lit('/')
  }

  function NextSlashToken(ts: seq<Token>, k: nat): (e: nat)
    requires k <= |ts|
    ensures k <= e <= |ts| && NoSlash(ts, k, e) && (e < |ts| ==> ts[e] == Lit('/'))
    decreases |ts| - k
  {
    if k == |ts| || ts[k] == Lit('/') then k else NextSlashToken(ts, k + 1)
  }

  /** As many components in the pattern as in the path, and each matches its counterpart. */
  predicate ByComponents(m: Brackets, ts: seq<Token>, k: nat, s: string, i: nat)
    requires k <= |ts| && i <= |s|
    decreases |ts| - k
  {
    var e, p := NextSlashToken(ts, k), NextSlash(s, i);
    Glob(m, ts, k, e, s, i, p) &&
    if e == |ts| then p == |s| else p < |s| && ByComponents(m, ts, e + 1, s, p + 1)
  }

  /** Tokens without a slash match no slash. */
  lemma {:induction false} StaysInComponent(m: Brackets, ts: seq<Token>, k: nat, e: nat, s: string, i: nat, j: nat)
    requires Plain(ts) && k <= e <= |ts| && NoSlash(ts, k, e) && i <= j <= |s| && Glob(m, ts, k, e, s, i, j)
    ensures Free(s, '/', i, j)
    decreases e - k, j - i
  {
    if k < e {
      if ts[k].Run? && Glob(m, ts, k + 1, e, s, i, j) {
        StaysInComponent(m, ts, k + 1, e, s, i, j);
      } else if ts[k].Run? {
        StaysInComponent(m, ts, k, e, s, i + 1, j);
      } else {
        StaysInComponent(m, ts, k + 1, e, s, i + 1, j);
      }
    }
  }

  /** A match of some tokens splits at any of them. */
  lemma {:induction false} GlobSplits(m: Brackets, ts: seq<Token>, k: nat, e: nat, n: nat, s: string, i: nat, j: nat)
    requires Plain(ts) && k <= e <= n <= |ts| && i <= j <= |s|
    ensures Glob(m, ts, k, n, s, i, j) <==>
            exists p: nat :: i <= p <= j && Glob(m, ts, k, e, s, i, p) && Glob(m, ts, e, n, s, p, j)
    decreases e - k, j - i
  {
    if k < e {
      if i < j {
        GlobSplits(m, ts, k + 1, e, n, s, i + 1, j);
      }
      if ts[k].Run? {
        GlobSplits(m, ts, k + 1, e, n, s, i, j);
        if i < j {
          GlobSplits(m, ts, k, e, n, s, i + 1, j);
        }
      }
    }
  }

  /** A plain pattern matches a path component by component. */
  lemma {:induction false} PlainIsByComponents(m: Brackets, ts: seq<Token>, k: nat, s: string, i: nat)
    requires Plain(ts) && k <= |ts| && i <= |s|
    ensures Glob(m, ts, k, |ts|, s, i, |s|) <==> ByComponents(m, ts, k, s, i)
    decreases |ts| - k
  {
    var e, p := NextSlashToken(ts, k), NextSlash(s, i);
    GlobSplits(m, ts, k, e, |ts|, s, i, |s|);
    forall q: nat | i <= q <= |s| && Glob(m, ts, k, e, s, i, q) && Glob(m, ts, e, |ts|, s, q, |s|) ensures q == p {
      StaysInComponent(m, ts, k, e, s, i, q);
    }
    assert Glob(m, ts, k, |ts|, s, i, |s|) <==> Glob(m, ts, k, e, s, i, p) && Glob(m, ts, e, |ts|, s, p, |s|);
    if e < |ts| && p < |s| {
      PlainIsByComponents(m, ts, e + 1, s, p + 1);
    }
  }
}
