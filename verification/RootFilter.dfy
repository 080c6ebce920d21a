/** Structural search leaves out documents in which no root of the query can occur, by a binary search in
    the sorted kinds of their syntax nodes. */
module RootFilter {

  import opened Text

  predicate Sorted(kinds: seq<string>) {
    forall i, j | 0 <= i < j < |kinds| :: CompareText(kinds[i], kinds[j]) <= 0
  }

  /** sort.SearchStrings: the first index whose text is not less. */
  method SearchStrings(kinds: seq<string>, x: string) returns (index: nat)
    requires Sorted(kinds)
    ensures index <= |kinds|
    ensures forall k | 0 <= k < index :: CompareText(kinds[k], x) < 0
    ensures forall k | index <= k < |kinds| :: CompareText(kinds[k], x) >= 0
  {
    var low, high := 0, |kinds|;
    while low < high
      invariant 0 <= low <= high <= |kinds|
      invariant forall k | 0 <= k < low :: CompareText(kinds[k], x) < 0
      invariant forall k | high <= k < |kinds| :: CompareText(kinds[k], x) >= 0
    {
      var middle := (low + high) / 2;
      if CompareText(kinds[middle], x) < 0 {
        forall k | 0 <= k <= middle ensures CompareText(kinds[k], x) < 0 {
          NotAfter(kinds[k], kinds[middle], x);
        }
        low := middle + 1;
      } else {
        forall k | middle <= k < |kinds| ensures CompareText(kinds[k], x) >= 0 {
          NotBefore(kinds[middle], kinds[k], x);
        }
        high := middle;
      }
    }
    return low;
  }

  lemma {:induction false} NotAfter(a: string, b: string, x: string)
    requires a == b || CompareText(a, b) <= 0
    requires CompareText(b, x) < 0
    ensures CompareText(a, x) < 0
  {
    if a != b {
      CompareTextIsTransitive(a, b, x);
    }
  }

  lemma {:induction false} NotBefore(a: string, b: string, x: string)
    requires a == b || CompareText(a, b) <= 0
    requires CompareText(a, x) >= 0
    ensures CompareText(b, x) >= 0
  {
    if CompareText(b, x) < 0 {
      NotAfter(a, b, x);
    }
  }

  /** documentCanMatchRoots: a document stays unless its kinds are known and none of them is a root. */
  method CanMatchRoots(kinds: seq<string>, roots: seq<string>) returns (r: bool)
    requires Sorted(kinds)
    ensures r <==> roots == [] || kinds == [] || exists root <- roots :: root in kinds
  {
    if |roots| == 0 || |kinds| == 0 {
      return true;
    }
    for n := 0 to |roots|
      invariant forall i | 0 <= i < n :: roots[i] !in kinds
    {
      var index := SearchStrings(kinds, roots[n]);
      if index < |kinds| && kinds[index] == roots[n] {
        assert roots[n] in roots && kinds[index] in kinds;
        return true;
      }
      NotFound(kinds, roots[n], index);
    }
    return false;
  }

  lemma {:induction false} NotFound(kinds: seq<string>, x: string, index: nat)
    requires Sorted(kinds) && index <= |kinds| && (index < |kinds| ==> kinds[index] != x)
    requires forall k | 0 <= k < index :: CompareText(kinds[k], x) < 0
    requires forall k | index <= k < |kinds| :: CompareText(kinds[k], x) >= 0
    ensures x !in kinds
  {
    CompareTextIsTotal(x, x);
    forall k | 0 <= k < |kinds| ensures kinds[k] != x {
      if index < k && kinds[k] == x {
        CompareTextIsTotal(kinds[index], x);
      }
    }
  }
}
