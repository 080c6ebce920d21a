/** Sorting long lists of events: Go's stable sort inserts within blocks of 20 elements and merges neighboring blocks.
    How it merges is its own affair, as long as a merge keeps the order within either block and sorts sorted blocks
    whenever the comparator is transitive. */
module OsvBlockSort {

  import opened OsvEvents
  import opened OsvRanges

  const BLOCK_SIZE := 20

  type Merger = (seq<Event>, seq<Event>) -> seq<Event>

  /** The merged list holds the elements of both, those of either one in their order. */
  ghost predicate Interleaves(left: seq<Event>, right: seq<Event>, merged: seq<Event>) {
    && multiset(merged) == multiset(left + right)
    && forall x, y | Before(left, x, y) || Before(right, x, y) :: Before(merged, x, y)
  }

  ghost predicate IsMerger(rank: Ranking, merge: Merger) {
    && (forall l, r :: Interleaves(l, r, merge(l, r)))
    && forall l, r | Sorted(rank, l) && Sorted(rank, r) && Transitive(rank, l + r) :: Sorted(rank, merge(l, r))
  }

  // ---------------------------------------------------------------- there is a merger

  function StableMerge(rank: Ranking, l: seq<Event>, r: seq<Event>): seq<Event>
    decreases |l| + |r|
  {
    if l == [] then r
    else if r == [] then l
    else if Compare(rank, l[0], r[0]) <= 0 then [l[0]] + StableMerge(rank, l[1..], r)
    else [r[0]] + StableMerge(rank, l, r[1..])
  }

  lemma FirstOut(l: seq<Event>, r: seq<Event>)
    requires r != []
    ensures multiset(l + r) == multiset([r[0]]) + multiset(l + r[1..])
  {
    assert r == [r[0]] + r[1..];
  }

  lemma {:induction false} MergeHoldsAll(rank: Ranking, l: seq<Event>, r: seq<Event>)
    ensures multiset(StableMerge(rank, l, r)) == multiset(l + r)
    decreases |l| + |r|
  {
    hide Compare;
    if l == [] {
      assert l + r == r;
    } else if r == [] {
      assert l + r == l;
    } else if Compare(rank, l[0], r[0]) <= 0 {
      MergeHoldsAll(rank, l[1..], r);
      assert l + r == [l[0]] + (l[1..] + r);
    } else {
      MergeHoldsAll(rank, l, r[1..]);
      FirstOut(l, r);
    }
  }

  lemma BeforeCons(e: Event, rest: seq<Event>, x: Event, y: Event)
    ensures Before([e] + rest, x, y) <==> Before(rest, x, y) || (e == x && y in rest)
  {
    var all := [e] + rest;
    if i, j :| 0 <= i < j < |all| && all[i] == x && all[j] == y {
      assert rest[j - 1] == y && (i > 0 ==> rest[i - 1] == x);
    }
    if i, j :| 0 <= i < j < |rest| && rest[i] == x && rest[j] == y {
      assert all[i + 1] == x && all[j + 1] == y;
    }
    if e == x && y in rest {
      var j :| 0 <= j < |rest| && rest[j] == y;
      assert all[0] == x && all[j + 1] == y;
    }
  }

  lemma {:induction false} MergeKeepsOrder(rank: Ranking, l: seq<Event>, r: seq<Event>, x: Event, y: Event)
    requires Before(l, x, y) || Before(r, x, y)
    ensures Before(StableMerge(rank, l, r), x, y)
    decreases |l| + |r|
  {
    if l != [] && r != [] {
      assert l == [l[0]] + l[1..] && r == [r[0]] + r[1..];
      var left := Compare(rank, l[0], r[0]) <= 0;
      var first := if left then l[0] else r[0];
      var l', r' := if left then l[1..] else l, if left then r else r[1..];
      BeforeCons(l[0], l[1..], x, y);
      BeforeCons(r[0], r[1..], x, y);
      BeforeCons(first, StableMerge(rank, l', r'), x, y);
      MergeHoldsAll(rank, l', r');
      SameElements(StableMerge(rank, l', r'), l' + r');
      if Before(l', x, y) || Before(r', x, y) {
        MergeKeepsOrder(rank, l', r', x, y);
      }
    }
  }

  lemma SortedCons(rank: Ranking, e: Event, rest: seq<Event>)
    requires Sorted(rank, rest) && forall f <- rest :: Compare(rank, e, f) <= 0
    ensures Sorted(rank, [e] + rest)
  {
  }

  /** The lesser of the two first elements is not greater than any other. */
  lemma LeastFirst(rank: Ranking, l: seq<Event>, r: seq<Event>, e: Event)
    requires l != [] && r != [] && Sorted(rank, l) && Sorted(rank, r) && Transitive(rank, l + r) && e in l + r
    ensures Compare(rank, if Compare(rank, l[0], r[0]) <= 0 then l[0] else r[0], e) <= 0
  {
    assert l[0] in l + r && r[0] in l + r;
    assert Compare(rank, l[0], r[0]) <= 0 || Compare(rank, r[0], l[0]) <= 0;
    if e in l {
      var i :| 0 <= i < |l| && l[i] == e;
    } else {
      var i :| 0 <= i < |r| && r[i] == e;
    }
  }

  /** What is left of both lists after the first element was taken. */
  lemma MergeUnfolds(rank: Ranking, l: seq<Event>, r: seq<Event>) returns (first: Event, l': seq<Event>, r': seq<Event>)
    requires l != [] && r != [] && Sorted(rank, l) && Sorted(rank, r)
    ensures first == if Compare(rank, l[0], r[0]) <= 0 then l[0] else r[0]
    ensures StableMerge(rank, l, r) == [first] + StableMerge(rank, l', r') && Sorted(rank, l') && Sorted(rank, r')
    ensures (forall e <- l' + r' :: e in l + r) && |l'| + |r'| < |l| + |r|
  {
    if Compare(rank, l[0], r[0]) <= 0 {
      first, l', r' := l[0], l[1..], r;
    } else {
      first, l', r' := r[0], l, r[1..];
    }
  }

  lemma {:induction false} MergeIsSorted(rank: Ranking, l: seq<Event>, r: seq<Event>)
    requires Sorted(rank, l) && Sorted(rank, r) && Transitive(rank, l + r)
    ensures Sorted(rank, StableMerge(rank, l, r))
    decreases |l| + |r|
  {
    if l != [] && r != [] {
      hide Sorted, Transitive, Compare, StableMerge;
      var first, l', r' := MergeUnfolds(rank, l, r);
      TransitiveAmong(rank, l + r, l' + r');
      MergeIsSorted(rank, l', r');
      MergeHoldsAll(rank, l', r');
      SameElements(StableMerge(rank, l', r'), l' + r');
      forall e <- l' + r' ensures Compare(rank, first, e) <= 0 {
        LeastFirst(rank, l, r, e);
      }
      SortedCons(rank, first, StableMerge(rank, l', r'));
    }
  }

  /** The textbook merge is one. */
  lemma StableMergeIsMerger(rank: Ranking)
    ensures IsMerger(rank, (l, r) => StableMerge(rank, l, r))
  {
    forall l: seq<Event>, r: seq<Event> ensures Interleaves(l, r, StableMerge(rank, l, r)) {
      MergeHoldsAll(rank, l, r);
      forall x, y | Before(l, x, y) || Before(r, x, y) ensures Before(StableMerge(rank, l, r), x, y) {
        MergeKeepsOrder(rank, l, r, x, y);
      }
    }
    forall l, r | Sorted(rank, l) && Sorted(rank, r) && Transitive(rank, l + r)
      ensures Sorted(rank, StableMerge(rank, l, r))
    {
      MergeIsSorted(rank, l, r);
    }
  }

  lemma TransitiveAmong(rank: Ranking, events: seq<Event>, some: seq<Event>)
    requires Transitive(rank, events) && forall e <- some :: e in events
    ensures Transitive(rank, some)
  {
  }

  // ---------------------------------------------------------------- blocks

  /** The blocks, each sorted by insertion. */
  function Blocks(rank: Ranking, events: seq<Event>): (blocks: seq<seq<Event>>)
    ensures blocks != []
  {
    if |events| <= BLOCK_SIZE then [SortStable(rank, events)]
    else [SortStable(rank, events[..BLOCK_SIZE])] + Blocks(rank, events[BLOCK_SIZE..])
  }

  /** One pass over the blocks merges the first with the second, the third with the fourth and so on. */
  function MergePass(merge: Merger, blocks: seq<seq<Event>>): (merged: seq<seq<Event>>)
    ensures blocks != [] ==> merged != []
    ensures |merged| <= |blocks| && (|blocks| > 1 ==> |merged| < |blocks|)
  {
    if |blocks| < 2 then blocks else [merge(blocks[0], blocks[1])] + MergePass(merge, blocks[2..])
  }

  function MergeAll(merge: Merger, blocks: seq<seq<Event>>): seq<Event>
    requires blocks != []
    decreases |blocks|
  {
    if |blocks| == 1 then blocks[0] else MergeAll(merge, MergePass(merge, blocks))
  }

  function BlockSort(rank: Ranking, merge: Merger, events: seq<Event>): seq<Event> {
    MergeAll(merge, Blocks(rank, events))
  }

  function Flatten(blocks: seq<seq<Event>>): seq<Event> {
    if blocks == [] then [] else blocks[0] + Flatten(blocks[1..])
  }

  // ---------------------------------------------------------------- elements

  lemma {:induction false} BlocksHoldAll(rank: Ranking, events: seq<Event>)
    ensures multiset(Flatten(Blocks(rank, events))) == multiset(events)
  {
    if |events| <= BLOCK_SIZE {
      assert Flatten([SortStable(rank, events)]) == SortStable(rank, events) + [];
    } else {
      BlocksHoldAll(rank, events[BLOCK_SIZE..]);
      assert events == events[..BLOCK_SIZE] + events[BLOCK_SIZE..];
    }
  }

  lemma {:induction false} FlattenTwo(blocks: seq<seq<Event>>)
    requires |blocks| >= 2
    ensures Flatten(blocks) == (blocks[0] + blocks[1]) + Flatten(blocks[2..])
  {
    assert blocks[1..][1..] == blocks[2..];
  }

  lemma {:induction false} PassHoldsAll(rank: Ranking, merge: Merger, blocks: seq<seq<Event>>)
    requires IsMerger(rank, merge)
    ensures multiset(Flatten(MergePass(merge, blocks))) == multiset(Flatten(blocks))
  {
    if |blocks| >= 2 {
      PassHoldsAll(rank, merge, blocks[2..]);
      assert Interleaves(blocks[0], blocks[1], merge(blocks[0], blocks[1]));
      FlattenTwo(blocks);
    }
  }

  // ---------------------------------------------------------------- sorted blocks

  ghost predicate AllSorted(rank: Ranking, blocks: seq<seq<Event>>) {
    forall i | 0 <= i < |blocks| :: Sorted(rank, blocks[i])
  }

  lemma {:induction false} BlocksAreSorted(rank: Ranking, events: seq<Event>)
    requires Transitive(rank, events)
    ensures AllSorted(rank, Blocks(rank, events))
  {
    if |events| <= BLOCK_SIZE {
      TransitiveSorts(rank, events);
    } else {
      assert Transitive(rank, events[..BLOCK_SIZE]) && Transitive(rank, events[BLOCK_SIZE..]);
      TransitiveSorts(rank, events[..BLOCK_SIZE]);
      BlocksAreSorted(rank, events[BLOCK_SIZE..]);
    }
  }

  lemma MergeSorts(rank: Ranking, merge: Merger, l: seq<Event>, r: seq<Event>)
    requires IsMerger(rank, merge) && Sorted(rank, l) && Sorted(rank, r) && Transitive(rank, l + r)
    ensures Sorted(rank, merge(l, r))
  {
  }

  lemma {:induction false} TransitiveParts(rank: Ranking, blocks: seq<seq<Event>>)
    requires |blocks| >= 2 && Transitive(rank, Flatten(blocks))
    ensures Transitive(rank, blocks[0] + blocks[1]) && Transitive(rank, Flatten(blocks[2..]))
  {
    FlattenTwo(blocks);
    hide Transitive, Flatten;
    TransitiveAmong(rank, Flatten(blocks), blocks[0] + blocks[1]);
    TransitiveAmong(rank, Flatten(blocks), Flatten(blocks[2..]));
  }

  lemma {:induction false} PassKeepsSorted(rank: Ranking, merge: Merger, blocks: seq<seq<Event>>)
    requires IsMerger(rank, merge) && AllSorted(rank, blocks) && Transitive(rank, Flatten(blocks))
    ensures AllSorted(rank, MergePass(merge, blocks))
  {
    hide Transitive, Sorted, Flatten, IsMerger;
    if |blocks| >= 2 {
      TransitiveParts(rank, blocks);
      MergeSorts(rank, merge, blocks[0], blocks[1]);
      PassKeepsSorted(rank, merge, blocks[2..]);
    }
  }

  lemma {:induction false} MergingSorts(rank: Ranking, merge: Merger, blocks: seq<seq<Event>>)
    requires IsMerger(rank, merge) && blocks != [] && AllSorted(rank, blocks) && Transitive(rank, Flatten(blocks))
    ensures Sorted(rank, MergeAll(merge, blocks)) && multiset(MergeAll(merge, blocks)) == multiset(Flatten(blocks))
    decreases |blocks|
  {
    if |blocks| == 1 {
      assert Flatten(blocks) == blocks[0] + [];
    } else {
      var merged := MergePass(merge, blocks);
      PassKeepsSorted(rank, merge, blocks);
      PassHoldsAll(rank, merge, blocks);
      SameElements(Flatten(merged), Flatten(blocks));
      TransitiveAmong(rank, Flatten(blocks), Flatten(merged));
      MergingSorts(rank, merge, merged);
    }
  }

  lemma TransitiveBlockSorts(rank: Ranking, merge: Merger, events: seq<Event>)
    requires IsMerger(rank, merge) && Transitive(rank, events)
    ensures Sorted(rank, BlockSort(rank, merge, events)) && multiset(BlockSort(rank, merge, events)) == multiset(events)
  {
    BlocksHoldAll(rank, events);
    SameElements(Flatten(Blocks(rank, events)), events);
    TransitiveAmong(rank, events, Flatten(Blocks(rank, events)));
    BlocksAreSorted(rank, events);
    MergingSorts(rank, merge, Blocks(rank, events));
  }

  // ---------------------------------------------------------------- circles

  lemma {:induction false} FirstBlockKeepsOrder(rank: Ranking, merge: Merger, blocks: seq<seq<Event>>, x: Event,
                                                y: Event)
    requires IsMerger(rank, merge) && blocks != [] && Before(blocks[0], x, y)
    ensures Before(MergeAll(merge, blocks), x, y)
    decreases |blocks|
  {
    if |blocks| > 1 {
      assert Interleaves(blocks[0], blocks[1], merge(blocks[0], blocks[1]));
      FirstBlockKeepsOrder(rank, merge, MergePass(merge, blocks), x, y);
    }
  }

  lemma CircleStaysInBlocks(rank: Ranking, merge: Merger, p: seq<Event>, a: Event, b: Event, c: Event)
    requires IsMerger(rank, merge) && |p| >= 3 && p[..3] == [b, c, a]
    requires Compare(rank, b, c) <= 0 && Compare(rank, c, a) <= 0
    ensures Before(BlockSort(rank, merge, p), b, a)
  {
    var first := if |p| <= BLOCK_SIZE then p else p[..BLOCK_SIZE];
    assert first[..3] == p[..3];
    CircleStays(rank, first, a, b, c);
    FirstBlockKeepsOrder(rank, merge, Blocks(rank, p), b, a);
  }

  /** Sorting sorts the events, in whatever order they come and however many they are, exactly if they hold no
      circle. */
  lemma BlockSortsIffNoCircle(rank: Ranking, merge: Merger, events: seq<Event>)
    requires WellFormed(events) && IsMerger(rank, merge)
    ensures (forall p: seq<Event> | multiset(p) == multiset(events) :: Sorted(rank, BlockSort(rank, merge, p)))
            <==> !HasCircle(rank, events)
  {
    if a, b, c :| a in events && b in events && c in events && Circle(rank, a, b, c) {
      var p := CircleToFront(rank, events, a, b, c);
      CirclesGoRound(rank, events, a, b, c);
      CircleStaysInBlocks(rank, merge, p, a, b, c);
      assert !Sorted(rank, BlockSort(rank, merge, p));
    } else {
      TransitiveIffNoCircle(rank, events);
      forall p: seq<Event> | multiset(p) == multiset(events) ensures Sorted(rank, BlockSort(rank, merge, p)) {
        SameElements(p, events);
        TransitiveBlockSorts(rank, merge, p);
      }
    }
  }

  /** Where the ranges are read from, blocks make no difference: events that alternate once sorted by insertion are
      sorted to the same list. */
  lemma {:induction false} BlockSortIsInsertion(rank: Ranking, merge: Merger, events: seq<Event>)
    requires IsMerger(rank, merge)
    requires Distinguished(rank, events) && WellFormed(events) && Alternating(SortStable(rank, events))
    ensures BlockSort(rank, merge, events) == SortStable(rank, events)
  {
    var a := SortStable(rank, events);
    SameElements(events, a);
    SortStableSorts(rank, events);
    DistinguishedIsTransitive(rank, events);
    TransitiveBlockSorts(rank, merge, events);
    forall i, j | 0 <= i < j < |a| ensures Compare(rank, a[i], a[j]) < 0 {
      StrictlyOrdered(rank, a, i, j);
    }
    OneSortedOrder(rank, a, BlockSort(rank, merge, events));
  }
}
