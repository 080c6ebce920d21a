/** Line numbers two ways: counting newlines before an offset, and binary search in an
    index of line starts. */
module SourceLines {

  /** How many newlines a text holds. */
  function CountNewlines(text: string): nat {
    if text == [] then 0 else CountNewlines(text[..|text| - 1]) + if text[|text| - 1] == '\n' then 1 else 0
  }

  /** lineAtOffset: offsets outside the text are clamped to its ends. */
  function LineAtOffset(text: string, offset: int): int {
    if offset <= 0 then 1
    else CountNewlines(text[..if offset <= |text| then offset else |text|]) + 1
  }

  /** The starts of the lines of a text: 0, and one past every newline. */
  function LineStarts(text: string): (starts: seq<int>) {
    if text == [] then [0]
    else LineStarts(text[..|text| - 1]) + if text[|text| - 1] == '\n' then [|text|] else []
  }

  /** lineIndex */
  method LineIndex(source: string) returns (lines: seq<int>)
    ensures lines == LineStarts(source)
  {
    lines := [0];
    for index := 0 to |source|
      invariant lines == LineStarts(source[..index])
    {
      assert source[..index + 1][..index] == source[..index];
      if source[index] == '\n' {
        lines := lines + [index + 1];
      }
    }
    assert source[..|source|] == source;
  }

  predicate Increasing(s: seq<int>) {
    forall i, j | 0 <= i < j < |s| :: s[i] < s[j]
  }

  lemma {:induction false} LineStartsIncrease(text: string)
    ensures LineStarts(text) != [] && LineStarts(text)[0] == 0
    ensures Increasing(LineStarts(text))
    ensures forall i | 0 <= i < |LineStarts(text)| :: 0 <= LineStarts(text)[i] <= |text|
  {
    if text != [] {
      LineStartsIncrease(text[..|text| - 1]);
    }
  }

  /** The starts up to an offset are as many as the newlines before it, plus one. */
  lemma {:induction false} StartsUpTo(text: string, offset: nat, k: nat)
    requires 0 < k <= |LineStarts(text)|
    requires forall i | 0 <= i < k :: LineStarts(text)[i] <= offset
    requires forall i | k <= i < |LineStarts(text)| :: LineStarts(text)[i] > offset
    ensures k == CountNewlines(text[..if offset <= |text| then offset else |text|]) + 1
  {
    LineStartsIncrease(text);
    if offset < |text| {
      // the last character, and its newline if it is one, lie after the offset
      var front := text[..|text| - 1];
      assert text[..offset] == front[..offset];
      assert LineStarts(text) == LineStarts(front) + if text[|text| - 1] == '\n' then [|text|] else [];
      assert forall i | 0 <= i < |LineStarts(front)| :: LineStarts(text)[i] == LineStarts(front)[i];
      assert |LineStarts(text)| > |LineStarts(front)| ==> LineStarts(text)[|LineStarts(text)| - 1] == |text|;
      StartsUpTo(front, offset, k);
    } else {
      assert text[..|text|] == text;
      StartsAreNewlines(text);
      assert LineStarts(text)[|LineStarts(text)| - 1] <= |text|;
    }
  }

  lemma {:induction false} StartsAreNewlines(text: string)
    ensures |LineStarts(text)| == CountNewlines(text) + 1
  {
    if text != [] {
      StartsAreNewlines(text[..|text| - 1]);
    }
  }

  /** sort.Search for the first start after the offset. */
  method FirstStartAfter(lines: seq<int>, offset: int) returns (k: nat)
    requires Increasing(lines)
    ensures k <= |lines|
    ensures forall i | 0 <= i < k :: lines[i] <= offset
    ensures forall i | k <= i < |lines| :: lines[i] > offset
  {
    var low, high := 0, |lines|;
    while low < high
      invariant 0 <= low <= high <= |lines|
      invariant forall i | 0 <= i < low :: lines[i] <= offset
      invariant forall i | high <= i < |lines| :: lines[i] > offset
    {
      var middle := (low + high) / 2;
      if !(lines[middle] > offset) {
        low := middle + 1;
      } else {
        high := middle;
      }
    }
    k := low;
  }

  /** sourcePoint on the index of a text: the line is the one found by counting newlines, and
      the start of that line plus the column gives the offset back. */
  method SourcePoint(text: string, lines: seq<int>, offset: int) returns (line: int, column: int)
    requires lines == LineStarts(text)
    ensures line == LineAtOffset(text, offset)
    ensures 1 <= line <= |lines|
    ensures lines[line - 1] + column - 1 == offset
    ensures offset >= 0 ==> column >= 1 && (line < |lines| ==> offset < lines[line])
  {
    LineStartsIncrease(text);
    var found := FirstStartAfter(lines, offset);
    if found == 0 {
      return 1, offset + 1;
    }
    StartsUpTo(text, offset, found);
    var lineStart := lines[found - 1];
    return found, offset - lineStart + 1;
  }
}
