/** stripJavaComments: a lexer that blanks comments in place, so that every byte offset,
    every line number and every literal survives.  A char stands for one byte. */
module JavaComments {
  import SourceLines

  datatype LexState = Code | LineComment | BlockComment | StringLiteral | CharLiteral | RawStringLiteral

  /** The two characters a, b stand at an offset. */
  predicate Pair(s: string, at: nat, a: char, b: char) {
    at + 1 < |s| && s[at] == a && s[at + 1] == b
  }

  /** Three double quotes stand at an offset. */
  predicate TripleQuote(s: string, at: nat) {
    at + 2 < |s| && s[at] == '"' && s[at + 1] == '"' && s[at + 2] == '"'
  }

  function Closing(state: LexState): char {
    if state == StringLiteral then '"' else '\''
  }

  /** One move of the lexer: the next state, how many bytes it consumes, and whether it
      writes spaces for them. */
  datatype LexMove = LexMove(next: LexState, consumed: nat, blank: bool)

  function Move(state: LexState, s: string, at: nat): (m: LexMove)
    requires at < |s|
    ensures 0 < m.consumed <= |s| - at
  {
    match state
    case Code =>
      if Pair(s, at, '/', '/') then LexMove(LineComment, 2, true)
      else if Pair(s, at, '/', '*') then LexMove(BlockComment, 2, true)
      else if TripleQuote(s, at) then LexMove(RawStringLiteral, 3, false)
      else LexMove(if s[at] == '"' then StringLiteral else if s[at] == '\'' then CharLiteral else Code, 1, false)
    case LineComment =>
      if s[at] == '\n' then LexMove(Code, 1, false) else LexMove(LineComment, 1, true)
    case BlockComment =>
      if Pair(s, at, '*', '/') then LexMove(Code, 2, true)
      else LexMove(BlockComment, 1, s[at] != '\n' && s[at] != '\r')
    case RawStringLiteral =>
      if TripleQuote(s, at) then LexMove(Code, 3, false) else LexMove(RawStringLiteral, 1, false)
    case _ =>
      if s[at] == '\\' && at + 1 < |s| then LexMove(state, 2, false)
      else LexMove(if s[at] == Closing(state) || s[at] == '\n' then Code else state, 1, false)
  }

  /** `out` has, from an offset on, what the lexer writes for `s` when it is in a state there. */
  ghost predicate Writes(state: LexState, s: string, at: nat, out: string)
    requires at <= |s| == |out|
    decreases |s| - at
  {
    at < |s| ==>
      var m := Move(state, s, at);
      && (forall k | at <= k < at + m.consumed :: out[k] == if m.blank then ' ' else s[k])
      && Writes(m.next, s, at + m.consumed, out)
  }

  /** stripJavaComments of `s` is `out`. */
  ghost predicate IsStripped(s: string, out: string) {
    |s| == |out| && Writes(Code, s, 0, out)
  }

  /** There is only one such text. */
  lemma {:induction false} WritesOneThing(state: LexState, s: string, at: nat, out: string, out': string)
    requires at <= |s| == |out| == |out'| && Writes(state, s, at, out) && Writes(state, s, at, out')
    ensures forall k | at <= k < |s| :: out[k] == out'[k]
    decreases |s| - at
  {
    if at < |s| {
      var m := Move(state, s, at);
      WritesOneThing(m.next, s, at + m.consumed, out, out');
    }
  }

  /** One turn of the lexer's loop: the switch on its state. */
  method LexByte(content: array<char>, output: array<char>, start: LexState, at: nat)
    returns (state: LexState, index: nat)
    requires at < content.Length == output.Length && content != output
    requires forall k | at <= k < content.Length :: output[..][k] == content[..][k]
    modifies output
    ensures var m := Move(start, content[..], at);
            && state == m.next && index == at + m.consumed
            && forall k | 0 <= k < output.Length ::
                 output[..][k] == if at <= k < index && m.blank then ' ' else old(output[..])[k]
  {
    state, index := start, at;
    var character := content[index];
    match state {
      case Code =>
        if character == '/' && index + 1 < content.Length && content[index + 1] == '/' {
          state := LineComment;
          output[index], output[index + 1] := ' ', ' ';
          index := index + 1;
        } else if character == '/' && index + 1 < content.Length && content[index + 1] == '*' {
          state := BlockComment;
          output[index], output[index + 1] := ' ', ' ';
          index := index + 1;
        } else if character == '"' && TripleQuote(content[..], index) {
          state := RawStringLiteral;
          index := index + 2;
        } else if character == '"' {
          state := StringLiteral;
        } else if character == '\'' {
          state := CharLiteral;
        }
      case LineComment =>
        if character == '\n' {
          state := Code;
        } else {
          output[index] := ' ';
        }
      case BlockComment =>
        if character == '*' && index + 1 < content.Length && content[index + 1] == '/' {
          output[index], output[index + 1] := ' ', ' ';
          index := index + 1;
          state := Code;
        } else if character != '\n' && character != '\r' {
          output[index] := ' ';
        }
      case RawStringLiteral =>
        if character == '"' && TripleQuote(content[..], index) {
          index := index + 2;
          state := Code;
        }
      case _ =>
        if character == '\\' && index + 1 < content.Length {
          index := index + 1;
        } else if (state == StringLiteral && character == '"')
                  || (state == CharLiteral && character == '\'') || character == '\n' {
          state := Code;
        }
    }
    index := index + 1;
  }

  /** What is written before `at` is right, if the rest is. */
  ghost predicate RightSoFar(state: LexState, s: string, at: nat, out: string)
    requires at <= |s| == |out|
  {
    forall o | |o| == |s| && (forall k | 0 <= k < at :: o[k] == out[k]) && Writes(state, s, at, o) ::
      Writes(Code, s, 0, o)
  }

  lemma OneMoveFurther(state: LexState, s: string, at: nat, out: string, out': string)
    requires at < |s| == |out| == |out'| && RightSoFar(state, s, at, out)
    requires var m := Move(state, s, at);
             && (forall k | 0 <= k < at :: out'[k] == out[k])
             && (forall k | at <= k < at + m.consumed :: out'[k] == if m.blank then ' ' else s[k])
    ensures RightSoFar(Move(state, s, at).next, s, at + Move(state, s, at).consumed, out')
  {
    var m := Move(state, s, at);
    forall o | |o| == |s| && (forall k | 0 <= k < at + m.consumed :: o[k] == out'[k]) &&
      Writes(m.next, s, at + m.consumed, o)
      ensures Writes(Code, s, 0, o)
    {
      assert forall k | at <= k < at + m.consumed :: o[k] == out'[k];
      assert Writes(state, s, at, o);
    }
  }

  lemma AllRight(state: LexState, s: string, out: string)
    requires |s| == |out| && RightSoFar(state, s, |s|, out)
    ensures IsStripped(s, out)
  {
    assert Writes(state, s, |s|, out);
  }

  /** The loop of stripJavaComments: it reads `content` and blanks a copy of it. */
  method StripJavaComments(content: array<char>) returns (output: array<char>)
    ensures fresh(output)
    ensures IsStripped(content[..], output[..])
  {
    output := new char[content.Length](i requires 0 <= i < content.Length reads content => content[i]);
    ghost var input := content[..];
    var state := Code;
    var index := 0;
    while index < content.Length
      invariant 0 <= index <= content.Length
      invariant RightSoFar(state, input, index, output[..])
      invariant forall k | index <= k < content.Length :: output[..][k] == input[k]
    {
      ghost var at, from, before := index, state, output[..];
      state, index := LexByte(content, output, state, index);
      OneMoveFurther(from, input, at, before, output[..]);
    }
    AllRight(state, input, output[..]);
  }

  // ---------------------------------------------------------------- what a comment is, without a lexer

  datatype Kind = PlainByte | Literal | LineRemark | BlockRemark

  /** A piece of a text: one byte of code, a literal or a comment, from `lo` up to `hi`. */
  datatype Token = Token(kind: Kind, lo: nat, hi: nat) {
    predicate Covers(k: nat) { lo <= k < hi }
  }

  /** A line comment reaches to the end of its line, a block comment past the first close,
      a raw string past the next three quotes, and a literal past its closing quote, an
      unescaped line end or the end of the text; a backslash hides the byte after it. */
  function LineEnd(s: string, at: nat): (e: nat)
    requires at <= |s|
    ensures at <= e <= |s|
    decreases |s| - at
  {
    if at == |s| || s[at] == '\n' then at else LineEnd(s, at + 1)
  }

  function BlockEnd(s: string, at: nat): (e: nat)
    requires at <= |s|
    ensures at <= e <= |s|
    decreases |s| - at
  {
    if at == |s| then at else if Pair(s, at, '*', '/') then at + 2 else BlockEnd(s, at + 1)
  }

  function RawEnd(s: string, at: nat): (e: nat)
    requires at <= |s|
    ensures at <= e <= |s|
    decreases |s| - at
  {
    if at == |s| then at else if TripleQuote(s, at) then at + 3 else RawEnd(s, at + 1)
  }

  function LiteralEnd(s: string, at: nat, quote: char): (e: nat)
    requires at <= |s|
    ensures at <= e <= |s|
    decreases |s| - at
  {
    if at == |s| then at
    else if s[at] == '\\' && at + 1 < |s| then LiteralEnd(s, at + 2, quote)
    else if s[at] == quote || s[at] == '\n' then at + 1
    else LiteralEnd(s, at + 1, quote)
  }

  function NextToken(s: string, at: nat): (t: Token)
    requires at < |s|
    ensures t.lo == at < t.hi <= |s|
  {
    if Pair(s, at, '/', '/') then Token(LineRemark, at, LineEnd(s, at + 2))
    else if Pair(s, at, '/', '*') then Token(BlockRemark, at, BlockEnd(s, at + 2))
    else if TripleQuote(s, at) then Token(Literal, at, RawEnd(s, at + 3))
    else if s[at] == '"' || s[at] == '\'' then Token(Literal, at, LiteralEnd(s, at + 1, s[at]))
    else Token(PlainByte, at, at + 1)
  }

  /** The pieces of a text, each beginning where the one before it ends. */
  function Tokens(s: string, at: nat): seq<Token>
    requires at <= |s|
    decreases |s| - at
  {
    if at == |s| then [] else [NextToken(s, at)] + Tokens(s, NextToken(s, at).hi)
  }

  /** A byte of a line comment is blanked, carriage returns too; a block comment keeps its
      line breaks; code and literals are kept byte for byte. */
  function Shown(kind: Kind, c: char): char {
    match kind
    case LineRemark => ' '
    case BlockRemark => if c == '\n' || c == '\r' then c else ' '
    case _ => c
  }

  /** `out` shows the bytes of `s` between two offsets as those of a token of a kind. */
  predicate ShownBetween(kind: Kind, s: string, out: string, lo: nat, hi: nat)
    requires hi <= |s| == |out|
  {
    forall k | lo <= k < hi :: out[k] == Shown(kind, s[k])
  }

  lemma {:induction false} LineRemarkShown(s: string, at: nat, out: string)
    requires at <= |s| == |out| && Writes(LineComment, s, at, out)
    ensures ShownBetween(LineRemark, s, out, at, LineEnd(s, at))
    ensures Writes(Code, s, LineEnd(s, at), out)
    decreases |s| - at
  {
    if at < |s| && s[at] != '\n' {
      LineRemarkShown(s, at + 1, out);
    }
  }

  lemma {:induction false} BlockRemarkShown(s: string, at: nat, out: string)
    requires at <= |s| == |out| && Writes(BlockComment, s, at, out)
    ensures ShownBetween(BlockRemark, s, out, at, BlockEnd(s, at))
    ensures Writes(Code, s, BlockEnd(s, at), out)
    decreases |s| - at
  {
    if at < |s| && !Pair(s, at, '*', '/') {
      BlockRemarkShown(s, at + 1, out);
    }
  }

  lemma {:induction false} RawLiteralShown(s: string, at: nat, out: string)
    requires at <= |s| == |out| && Writes(RawStringLiteral, s, at, out)
    ensures ShownBetween(Literal, s, out, at, RawEnd(s, at))
    ensures Writes(Code, s, RawEnd(s, at), out)
    decreases |s| - at
  {
    if at < |s| && !TripleQuote(s, at) {
      RawLiteralShown(s, at + 1, out);
    }
  }

  lemma {:induction false} LiteralShown(s: string, at: nat, state: LexState, out: string)
    requires at <= |s| == |out| && Writes(state, s, at, out)
    requires state == StringLiteral || state == CharLiteral
    ensures ShownBetween(Literal, s, out, at, LiteralEnd(s, at, Closing(state)))
    ensures Writes(Code, s, LiteralEnd(s, at, Closing(state)), out)
    decreases |s| - at
  {
    if at < |s| {
      var m := Move(state, s, at);
      if m.next == state {
        LiteralShown(s, at + m.consumed, state, out);
      }
    }
  }

  /** The lexer, in its code state, shows the next token and is in its code state again. */
  lemma {:induction false} TokenShown(s: string, at: nat, out: string)
    requires at < |s| == |out| && Writes(Code, s, at, out)
    ensures var t := NextToken(s, at);
            ShownBetween(t.kind, s, out, t.lo, t.hi) && Writes(Code, s, t.hi, out)
  {
    if Pair(s, at, '/', '/') {
      LineRemarkShown(s, at + 2, out);
    } else if Pair(s, at, '/', '*') {
      BlockRemarkShown(s, at + 2, out);
    } else if TripleQuote(s, at) {
      RawLiteralShown(s, at + 3, out);
    } else if s[at] == '"' {
      LiteralShown(s, at + 1, StringLiteral, out);
    } else if s[at] == '\'' {
      LiteralShown(s, at + 1, CharLiteral, out);
    }
  }

  lemma {:induction false} TokensShown(s: string, at: nat, out: string)
    requires at <= |s| == |out| && Writes(Code, s, at, out)
    ensures forall t <- Tokens(s, at) :: t.hi <= |s| && ShownBetween(t.kind, s, out, t.lo, t.hi)
    decreases |s| - at
  {
    if at < |s| {
      TokenShown(s, at, out);
      TokensShown(s, NextToken(s, at).hi, out);
    }
  }

  ghost predicate Covered(s: string, at: nat, k: nat)
    requires at <= |s|
  {
    exists t <- Tokens(s, at) :: t.Covers(k)
  }

  /** Every byte of a text is in one of its tokens. */
  lemma {:induction false} TokensCover(s: string, at: nat, k: nat)
    requires at <= k < |s|
    ensures Covered(s, at, k)
    decreases |s| - at
  {
    var t := NextToken(s, at);
    assert Tokens(s, at)[0] == t;
    if !t.Covers(k) {
      TokensCover(s, t.hi, k);
      var u :| u in Tokens(s, t.hi) && u.Covers(k);
      assert u in Tokens(s, at);
    }
  }

  /** Stripping keeps the length, blanks every byte of every comment but the line breaks of
      block comments, and keeps code and literals byte for byte; nothing else is in a text. */
  lemma {:induction false} StripBlanksExactlyComments(s: string, out: string)
    requires IsStripped(s, out)
    ensures |out| == |s|
    ensures forall t <- Tokens(s, 0) :: t.hi <= |s| && ShownBetween(t.kind, s, out, t.lo, t.hi)
    ensures forall k | 0 <= k < |s| :: Covered(s, 0, k)
  {
    TokensShown(s, 0, out);
    forall k | 0 <= k < |s| ensures Covered(s, 0, k) {
      TokensCover(s, 0, k);
    }
  }

  // ---------------------------------------------------------------- consequences

  lemma MoveKeepsLineFeeds(state: LexState, s: string, at: nat, k: nat)
    requires at < |s| && at <= k < at + Move(state, s, at).consumed
    ensures Move(state, s, at).blank ==> s[k] != '\n'
  {
  }

  /** Bytes change only to spaces, and line feeds stay where they are. */
  lemma {:induction false} StripKeepsLineFeeds(state: LexState, s: string, at: nat, out: string)
    requires at <= |s| == |out| && Writes(state, s, at, out)
    ensures forall k | at <= k < |s| :: out[k] == s[k] || (out[k] == ' ' && s[k] != '\n')
    decreases |s| - at
  {
    if at < |s| {
      var m := Move(state, s, at);
      StripKeepsLineFeeds(m.next, s, at + m.consumed, out);
      forall k | at <= k < at + m.consumed ensures m.blank ==> s[k] != '\n' {
        MoveKeepsLineFeeds(state, s, at, k);
      }
    }
  }

  lemma {:induction false} SameLineFeeds(s: string, r: string)
    requires |s| == |r| && forall k | 0 <= k < |s| :: r[k] == '\n' <==> s[k] == '\n'
    ensures SourceLines.CountNewlines(r) == SourceLines.CountNewlines(s)
  {
    if s != [] {
      SameLineFeeds(s[..|s| - 1], r[..|r| - 1]);
    }
  }

  /** Every offset lies on the same line before and after. */
  lemma StripKeepsLines(s: string, out: string, offset: int)
    requires IsStripped(s, out)
    ensures SourceLines.LineAtOffset(out, offset) == SourceLines.LineAtOffset(s, offset)
  {
    StripKeepsLineFeeds(Code, s, 0, out);
    if offset > 0 {
      var n := if offset <= |s| then offset else |s|;
      SameLineFeeds(s[..n], out[..n]);
    }
  }

  /** The state of a second pass where the first pass was in `state`: comments are gone. */
  function Uncommented(state: LexState): LexState {
    if state == LineComment || state == BlockComment then Code else state
  }

  /** Blanks are written in comments only, at most two at a time. */
  lemma BlankIsComment(state: LexState, s: string, at: nat)
    requires at < |s| && Move(state, s, at).blank
    ensures Move(state, s, at).consumed <= 2 && Uncommented(state) == Code == Uncommented(Move(state, s, at).next)
  {
  }

  /** Where the first pass kept its bytes, the second makes the same move. */
  lemma SameMove(state: LexState, s: string, out: string, at: nat)
    requires at < |s| == |out| && !Move(state, s, at).blank
    requires forall k | at <= k < |s| :: out[k] == s[k] || out[k] == ' '
    requires forall k | at <= k < at + Move(state, s, at).consumed :: out[k] == s[k]
    ensures Move(Uncommented(state), out, at) ==
            LexMove(Uncommented(Move(state, s, at).next), Move(state, s, at).consumed, false)
  {
  }

  /** A space, in code, stays. */
  lemma SpaceStays(out: string, at: nat)
    requires at < |out| && out[at] == ' ' && Writes(Code, out, at + 1, out)
    ensures Writes(Code, out, at, out)
  {
  }

  lemma {:induction false} SecondPass(state: LexState, s: string, out: string, at: nat)
    requires at <= |s| == |out| && Writes(state, s, at, out)
    ensures Writes(Uncommented(state), out, at, out)
    decreases |s| - at
  {
    if at < |s| {
      var m := Move(state, s, at);
      SecondPass(m.next, s, out, at + m.consumed);
      StripKeepsLineFeeds(state, s, at, out);
      if m.blank {
        BlankIsComment(state, s, at);
        if m.consumed == 2 {
          SpaceStays(out, at + 1);
        }
        SpaceStays(out, at);
      } else {
        SameMove(state, s, out, at);
      }
    }
  }

  /** Stripping twice is stripping once. */
  lemma StripIsIdempotent(s: string, once: string, twice: string)
    requires IsStripped(s, once) && IsStripped(once, twice)
    ensures twice == once
  {
    SecondPass(Code, s, once, 0);
    WritesOneThing(Code, once, 0, once, twice);
  }
}
