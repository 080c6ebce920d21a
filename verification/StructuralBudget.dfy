/** The structural inventory: documents of all repositories go into one list, within a limit on documents and
    five budgets on their facts; nothing may be dropped silently. */
module StructuralBudget {

  datatype Option<+T> = None | Some(value: T)

  const MAXIMUM_DOCUMENTS := 3000
  const MAXIMUM_SYMBOLS := 12000
  const MAXIMUM_TYPED_RELATIONS := 96000
  const MAXIMUM_IMPORT_RELATIONS := 24000
  const MAXIMUM_CALL_RELATIONS := 24000
  const MAXIMUM_BUILD_FACTS := 4000

  type Fact = string

  /** A relation: calls and imports have budgets of their own. */
  datatype Relation = Relation(kind: string, fact: Fact)

  /** An analyzed file; the analysis itself may have truncated it. */
  datatype Document = Document(path: string, truncated: bool, symbols: seq<Fact>, relations: seq<Relation>,
                               buildFacts: seq<Fact>)

  datatype Kind = Call | Import | Typed

  function KindOf(r: Relation): Kind {
    if r.kind == "call" then Call else if r.kind == "import" then Import else Typed
  }

  /** How many relations of a kind are among the first n. */
  function CountKind(relations: seq<Relation>, n: nat, k: Kind): nat
    requires n <= |relations|
  {
    if n == 0 then 0 else CountKind(relations, n - 1, k) + if KindOf(relations[n - 1]) == k then 1 else 0
  }

  /** What is left of the budgets. */
  datatype Budget = Budget(calls: nat, imports: nat, typed: nat)

  function For(b: Budget, k: Kind): nat {
    match k case Call => b.calls case Import => b.imports case Typed => b.typed
  }

  /** Of the first n relations those that fit: of each kind the first ones, up to its budget. */
  function Fitting(relations: seq<Relation>, n: nat, b: Budget): seq<Relation>
    requires n <= |relations|
  {
    if n == 0 then []
    else
      var r := relations[n - 1];
      Fitting(relations, n - 1, b) + if CountKind(relations, n - 1, KindOf(r)) < For(b, KindOf(r)) then [r] else []
  }

  /** All of the first n relations fit. */
  predicate AllFit(relations: seq<Relation>, n: nat, b: Budget)
    requires n <= |relations|
  {
    forall k: Kind :: CountKind(relations, n, k) <= For(b, k)
  }

  function Min(a: nat, b: nat): nat {
    if a < b then a else b
  }

  lemma {:induction false} FittingCounts(relations: seq<Relation>, n: nat, b: Budget, k: Kind)
    requires n <= |relations|
    ensures var kept := Fitting(relations, n, b);
            CountKind(kept, |kept|, k) == Min(CountKind(relations, n, k), For(b, k))
  {
    if n > 0 {
      FittingCounts(relations, n - 1, b, k);
      var before, kept := Fitting(relations, n - 1, b), Fitting(relations, n, b);
      if kept != before {
        CountAppended(before, relations[n - 1], k);
      }
    }
  }

  lemma {:induction false} CountAppended(relations: seq<Relation>, r: Relation, k: Kind)
    ensures CountKind(relations + [r], |relations| + 1, k) == CountKind(relations, |relations|, k)
            + if KindOf(r) == k then 1 else 0
  {
    CountOfPrefix(relations, [r], |relations|, k);
  }

  lemma {:induction false} CountOfPrefix(a: seq<Relation>, b: seq<Relation>, n: nat, k: Kind)
    requires n <= |a|
    ensures CountKind(a + b, n, k) == CountKind(a, n, k)
  {
    if n > 0 {
      CountOfPrefix(a, b, n - 1, k);
    }
  }

  /** What fits is everything exactly if no budget is exceeded. */
  lemma {:induction false} FittingIsAll(relations: seq<Relation>, n: nat, b: Budget)
    requires n <= |relations|
    ensures Fitting(relations, n, b) == relations[..n] <==> AllFit(relations, n, b)
    ensures |Fitting(relations, n, b)| <= n
  {
    if n > 0 {
      FittingIsAll(relations, n - 1, b);
      assert relations[..n] == relations[..n - 1] + [relations[n - 1]];
      assert forall k: Kind :: CountKind(relations, n - 1, k) <= CountKind(relations, n, k);
      if Fitting(relations, n, b) == relations[..n] {
        assert |Fitting(relations, n - 1, b)| == n - 1;
        assert Fitting(relations, n - 1, b) == Fitting(relations, n, b)[..n - 1] == relations[..n - 1];
      }
    }
  }

  /** A document within budgets. */
  function Cut(d: Document, symbols: nat, buildFacts: nat, b: Budget): Document {
    d.(symbols := d.symbols[..Min(|d.symbols|, symbols)], relations := Fitting(d.relations, |d.relations|, b),
       buildFacts := d.buildFacts[..Min(|d.buildFacts|, buildFacts)])
  }

  lemma CutIsAll(d: Document, symbols: nat, buildFacts: nat, b: Budget)
    ensures Cut(d, symbols, buildFacts, b) == d <==>
            |d.symbols| <= symbols && |d.buildFacts| <= buildFacts && AllFit(d.relations, |d.relations|, b)
  {
    FittingIsAll(d.relations, |d.relations|, b);
    assert d.relations[..|d.relations|] == d.relations;
    assert d.symbols[..|d.symbols|] == d.symbols && d.buildFacts[..|d.buildFacts|] == d.buildFacts;
  }

  // ---------------------------------------------------------------- what a list of documents holds

  function Symbols(structure: seq<Document>): nat {
    if structure == [] then 0 else Symbols(structure[..|structure| - 1]) + |structure[|structure| - 1].symbols|
  }

  function BuildFacts(structure: seq<Document>): nat {
    if structure == [] then 0 else BuildFacts(structure[..|structure| - 1]) + |structure[|structure| - 1].buildFacts|
  }

  function Relations(structure: seq<Document>, k: Kind): nat {
    if structure == [] then 0
    else
      var last := structure[|structure| - 1];
      Relations(structure[..|structure| - 1], k) + CountKind(last.relations, |last.relations|, k)
  }

  lemma {:induction false} OneMoreDocument(structure: seq<Document>, d: Document)
    ensures Symbols(structure + [d]) == Symbols(structure) + |d.symbols|
    ensures BuildFacts(structure + [d]) == BuildFacts(structure) + |d.buildFacts|
    ensures Relations(structure + [d], Call) == Relations(structure, Call) + CountKind(d.relations, |d.relations|, Call)
    ensures Relations(structure + [d], Import) == Relations(structure, Import) +
            CountKind(d.relations, |d.relations|, Import)
    ensures Relations(structure + [d], Typed) == Relations(structure, Typed) +
            CountKind(d.relations, |d.relations|, Typed)
  {
    assert (structure + [d])[..|structure|] == structure;
  }

  /** The documents among the first n files; a file may be missing or not be supported. */
  function Supported(files: seq<Option<Document>>, n: nat): seq<Document>
    requires n <= |files|
  {
    if n == 0 then [] else Supported(files, n - 1) + if files[n - 1].Some? then [files[n - 1].value] else []
  }

  lemma {:induction false} SupportedGrows(files: seq<Option<Document>>, n: nat, m: nat)
    requires n <= m <= |files|
    ensures Supported(files, n) <= Supported(files, m)
  {
    if n < m {
      SupportedGrows(files, n, m - 1);
    }
  }

  // ---------------------------------------------------------------- what one repository does to the inventory

  function Left(limit: nat, used: nat): nat {
    if used < limit then limit - used else 0
  }

  /** What is kept of a document that comes after others. */
  function CutAfter(structure: seq<Document>, d: Document): Document {
    Cut(d, Left(MAXIMUM_SYMBOLS, Symbols(structure)), Left(MAXIMUM_BUILD_FACTS, BuildFacts(structure)),
        BudgetAfter(structure))
  }

  function BudgetAfter(structure: seq<Document>): Budget {
    Budget(Left(MAXIMUM_CALL_RELATIONS, Relations(structure, Call)),
           Left(MAXIMUM_IMPORT_RELATIONS, Relations(structure, Import)),
           Left(MAXIMUM_TYPED_RELATIONS, Relations(structure, Typed)))
  }

  /** All five budgets are used up. */
  predicate IsFull(structure: seq<Document>) {
    && Symbols(structure) >= MAXIMUM_SYMBOLS && BuildFacts(structure) >= MAXIMUM_BUILD_FACTS
    && Relations(structure, Call) >= MAXIMUM_CALL_RELATIONS
    && Relations(structure, Import) >= MAXIMUM_IMPORT_RELATIONS
    && Relations(structure, Typed) >= MAXIMUM_TYPED_RELATIONS
  }

  /** Behind what was there come the first of these documents, each cut to what those before it left. */
  ghost predicate Takes(before: seq<Document>, docs: seq<Document>, structure: seq<Document>) {
    && before <= structure && |structure| <= |before| + |docs|
    && forall i | |before| <= i < |structure| :: structure[i] == CutAfter(structure[..i], docs[i - |before|])
  }

  /** The inventory does not hold all of the document. */
  predicate Lacks(d: Document, kept: Document) {
    kept != d || d.truncated
  }

  /** Something of a document that was taken in is missing. */
  ghost predicate Lost(before: seq<Document>, docs: seq<Document>, structure: seq<Document>)
    requires |structure| <= |before| + |docs|
  {
    exists i | |before| <= i < |structure| :: Lacks(docs[i - |before|], structure[i])
  }

  /** What the documents of a repository do to an inventory: they are taken in one after the other until there is no
      room for one more, or all budgets have become used up; and the inventory is marked exactly if it was before, if
      something of a document or a whole document is missing, or if all budgets are used up. */
  ghost predicate Done(before: seq<Document>, marked: bool, docs: seq<Document>, structure: seq<Document>,
                       truncated: bool) {
    && Takes(before, docs, structure)
    && (forall i | |before| < i < |structure| :: !IsFull(structure[..i]))
    && (|structure| < |before| + |docs| ==>
          |structure| >= MAXIMUM_DOCUMENTS || (|structure| > |before| && IsFull(structure)))
    && |structure| <= MAXIMUM_DOCUMENTS
    && (truncated <==> marked || Lost(before, docs, structure) || |structure| < |before| + |docs| || IsFull(structure))
  }

  lemma {:induction false} TakesAgree(before: seq<Document>, docs: seq<Document>, a: seq<Document>, b: seq<Document>,
                                      n: nat)
    requires Takes(before, docs, a) && Takes(before, docs, b) && |before| <= n <= |a| && n <= |b|
    ensures a[..n] == b[..n]
  {
    hide CutAfter;
    if n > |before| {
      TakesAgree(before, docs, a, b, n - 1);
      assert a[..n] == a[..n - 1] + [a[n - 1]] && b[..n] == b[..n - 1] + [b[n - 1]];
    } else {
      assert a[..n] == before == b[..n];
    }
  }

  lemma DoneIsNoLonger(before: seq<Document>, marked: bool, docs: seq<Document>, a: seq<Document>, a': bool,
                       b: seq<Document>, b': bool)
    requires Done(before, marked, docs, a, a') && Done(before, marked, docs, b, b') && |a| <= |b|
    ensures a == b && a' == b'
  {
    hide IsFull, CutAfter, Lost;
    TakesAgree(before, docs, a, b, |a|);
    assert a[..|a|] == a && b[..|b|] == b && b[..|a|] == a;
    if |a| < |b| {
      assert false;
    }
  }

  /** This leaves no choice: there is one inventory that a repository makes of another. */
  lemma DoneIsUnique(before: seq<Document>, marked: bool, docs: seq<Document>, a: seq<Document>, a': bool,
                     b: seq<Document>, b': bool)
    requires Done(before, marked, docs, a, a') && Done(before, marked, docs, b, b')
    ensures a == b && a' == b'
  {
    hide Done;
    if |a| <= |b| {
      DoneIsNoLonger(before, marked, docs, a, a', b, b');
    } else {
      DoneIsNoLonger(before, marked, docs, b, b', a, a');
    }
  }

  lemma UnmarkedIsWhole(before: seq<Document>, marked: bool, docs: seq<Document>, structure: seq<Document>)
    requires Done(before, marked, docs, structure, false)
    ensures !marked && structure == before + docs
  {
    hide IsFull, CutAfter;
    forall i | |before| <= i < |structure| ensures structure[i] == docs[i - |before|] {
    }
  }

  /** The loop over the relations of a document: what fits, and whether something did not. */
  method KeepRelations(relations: seq<Relation>, b: Budget) returns (kept: seq<Relation>, left: Budget, dropped: bool)
    ensures kept == Fitting(relations, |relations|, b)
    ensures left.calls + CountKind(kept, |kept|, Call) == b.calls
    ensures left.imports + CountKind(kept, |kept|, Import) == b.imports
    ensures left.typed + CountKind(kept, |kept|, Typed) == b.typed
    ensures dropped <==> !AllFit(relations, |relations|, b)
  {
    kept, dropped := [], false;
    var calls, imports, typed := b.calls, b.imports, b.typed;
    for n := 0 to |relations|
      invariant kept == Fitting(relations, n, b)
      invariant calls == b.calls - Min(CountKind(relations, n, Call), b.calls)
      invariant imports == b.imports - Min(CountKind(relations, n, Import), b.imports)
      invariant typed == b.typed - Min(CountKind(relations, n, Typed), b.typed)
      invariant dropped <==> !AllFit(relations, n, b)
    {
      var relation := relations[n];
      if relation.kind == "call" {
        if calls <= 0 {
          dropped := true;
          continue;
        }
        calls := calls - 1;
      } else if relation.kind == "import" {
        if imports <= 0 {
          dropped := true;
          continue;
        }
        imports := imports - 1;
      } else {
        if typed <= 0 {
          dropped := true;
          continue;
        }
        typed := typed - 1;
      }
      kept := kept + [relation];
    }
    FittingCounts(relations, |relations|, b, Call);
    FittingCounts(relations, |relations|, b, Import);
    FittingCounts(relations, |relations|, b, Typed);
    left := Budget(calls, imports, typed);
  }

  // ---------------------------------------------------------------- the accumulator

  class StructureBuilder {
    var structure: seq<Document>
    var symbols: nat
    var typedRelations: nat
    var importRelations: nat
    var callRelations: nat
    var buildFacts: nat
    var truncated: bool

    /** The limits hold, the counters count what the documents hold, and a full inventory is marked. */
    ghost predicate Valid()
      reads this
    {
      && |structure| <= MAXIMUM_DOCUMENTS
      && symbols == Symbols(structure) <= MAXIMUM_SYMBOLS
      && typedRelations == Relations(structure, Typed) <= MAXIMUM_TYPED_RELATIONS
      && importRelations == Relations(structure, Import) <= MAXIMUM_IMPORT_RELATIONS
      && callRelations == Relations(structure, Call) <= MAXIMUM_CALL_RELATIONS
      && buildFacts == BuildFacts(structure) <= MAXIMUM_BUILD_FACTS
      && (IsFull(structure) ==> truncated)
    }

    predicate Full()
      reads this
    {
      && symbols >= MAXIMUM_SYMBOLS && typedRelations >= MAXIMUM_TYPED_RELATIONS &&
         importRelations >= MAXIMUM_IMPORT_RELATIONS
      && callRelations >= MAXIMUM_CALL_RELATIONS && buildFacts >= MAXIMUM_BUILD_FACTS
    }

    function RelationBudget(): (b: Budget)
      requires Valid()
      reads this
      ensures b == BudgetAfter(structure)
    {
      Budget(MAXIMUM_CALL_RELATIONS - callRelations, MAXIMUM_IMPORT_RELATIONS - importRelations,
             MAXIMUM_TYPED_RELATIONS - typedRelations)
    }

    constructor ()
      ensures Valid() && structure == [] && !truncated
    {
      structure, truncated := [], false;
      symbols, typedRelations, importRelations, callRelations, buildFacts := 0, 0, 0, 0, 0;
    }

    /** A document goes into the inventory and its facts are counted. */
    method Append(d: Document, left: Budget)
      requires Valid() && |structure| < MAXIMUM_DOCUMENTS
      requires symbols + |d.symbols| <= MAXIMUM_SYMBOLS && buildFacts + |d.buildFacts| <= MAXIMUM_BUILD_FACTS
      requires left.calls + CountKind(d.relations, |d.relations|, Call) == RelationBudget().calls
      requires left.imports + CountKind(d.relations, |d.relations|, Import) == RelationBudget().imports
      requires left.typed + CountKind(d.relations, |d.relations|, Typed) == RelationBudget().typed
      modifies this
      ensures Valid() && structure == old(structure) + [d] && (truncated <==> old(truncated) || IsFull(structure))
    {
      OneMoreDocument(structure, d);
      callRelations, importRelations, typedRelations :=
        MAXIMUM_CALL_RELATIONS - left.calls, MAXIMUM_IMPORT_RELATIONS - left.imports,
          MAXIMUM_TYPED_RELATIONS - left.typed;
      symbols, buildFacts := symbols + |d.symbols|, buildFacts + |d.buildFacts|;
      structure := structure + [d];
      if Full() {
        truncated := true;
      }
    }

    /** One turn of the loop over the files, for a supported document. */
    method AddDocument(d: Document)
      requires Valid() && |structure| < MAXIMUM_DOCUMENTS
      modifies this
      ensures Valid() && structure == old(structure) + [CutAfter(old(structure), d)]
      ensures truncated <==>
              old(truncated) || CutAfter(old(structure), d) != d || d.truncated || IsFull(structure)
    {
      var symbolBudget, buildFactBudget := MAXIMUM_SYMBOLS - symbols, MAXIMUM_BUILD_FACTS - buildFacts;
      hide Symbols, BuildFacts, Relations, CountKind;
      CutIsAll(d, symbolBudget, buildFactBudget, RelationBudget());
      var relations, left, dropped := KeepRelations(d.relations, RelationBudget());
      if |d.symbols| > symbolBudget || |d.buildFacts| > buildFactBudget || dropped || d.truncated {
        truncated := true;
      }
      Append(d.(symbols := d.symbols[..Min(|d.symbols|, symbolBudget)], relations := relations,
                buildFacts := d.buildFacts[..Min(|d.buildFacts|, buildFactBudget)]), left);
    }

    /** The loop over the files has taken in the documents among the first n. */
    ghost predicate Progress(before: seq<Document>, marked: bool, files: seq<Option<Document>>, n: nat)
      requires n <= |files|
      reads this
    {
      && Valid() && |structure| == |before| + |Supported(files, n)|
      && Done(before, marked, Supported(files, n), structure, truncated)
      && (|structure| > |before| ==> !IsFull(structure))
    }

    /** addStructuralAnalysis, for the files of one repository. */
    method AddStructuralAnalysis(files: seq<Option<Document>>)
      requires Valid()
      modifies this
      ensures Valid() && Done(old(structure), old(truncated), Supported(files, |files|), structure, truncated)
    {
      hide IsFull, CutAfter, Lost, Takes, Symbols, BuildFacts, Relations;
      ghost var before, marked := structure, truncated;
      NothingDone(before, marked);
      for n := 0 to |files|
        invariant Progress(before, marked, files, n)
      {
        var stop := NextFile(before, marked, files, n);
        if stop {
          return;
        }
      }
    }

    /** One turn of the loop over the files. */
    method NextFile(ghost before: seq<Document>, ghost marked: bool, files: seq<Option<Document>>, n: nat)
      returns (stop: bool)
      requires n < |files| && Progress(before, marked, files, n)
      modifies this
      ensures if stop then Valid() && Done(before, marked, Supported(files, |files|), structure, truncated)
              else Progress(before, marked, files, n + 1)
    {
      hide CutAfter, Lost, Takes, Symbols, BuildFacts, Relations;
      if files[n].None? {
        assert Supported(files, n + 1) == Supported(files, n);
        return false;
      }
      SupportedGrows(files, n, |files|);
      SupportedGrows(files, n + 1, |files|);
      if |structure| >= MAXIMUM_DOCUMENTS {
        NoRoomForMore(before, marked, Supported(files, n), Supported(files, |files|), structure, truncated);
        truncated := true;
        return true;
      }
      OneMoreDone(before, marked, Supported(files, n), files[n].value, structure, truncated);
      AddDocument(files[n].value);
      if Full() {
        FullAfter(before, marked, Supported(files, n + 1), Supported(files, |files|), structure, truncated);
        return true;
      }
      return false;
    }
  }

  lemma NothingDone(before: seq<Document>, marked: bool)
    requires |before| <= MAXIMUM_DOCUMENTS && (IsFull(before) ==> marked)
    ensures Done(before, marked, [], before, marked)
  {
  }

  lemma StaysFull(structure: seq<Document>, d: Document)
    requires IsFull(structure)
    ensures IsFull(structure + [d])
  {
    OneMoreDocument(structure, d);
  }

  lemma OneMoreTaken(before: seq<Document>, docs: seq<Document>, d: Document, structure: seq<Document>)
    requires Takes(before, docs, structure) && |structure| == |before| + |docs|
    ensures Takes(before, docs + [d], structure + [CutAfter(structure, d)])
  {
    hide CutAfter;
    var structure' := structure + [CutAfter(structure, d)];
    forall i | |before| <= i < |structure'|
      ensures structure'[i] == CutAfter(structure'[..i], (docs + [d])[i - |before|]) {
      assert structure'[..i] == structure[..i];
      assert structure[..|structure|] == structure;
    }
  }

  lemma OneMoreLost(before: seq<Document>, docs: seq<Document>, d: Document, structure: seq<Document>, kept: Document)
    requires |structure| == |before| + |docs|
    ensures Lost(before, docs + [d], structure + [kept]) <==> Lost(before, docs, structure) || Lacks(d, kept)
  {
    hide Lacks;
    var structure' := structure + [kept];
    if Lost(before, docs, structure) {
      var i :| |before| <= i < |structure| && Lacks(docs[i - |before|], structure[i]);
      assert Lacks((docs + [d])[i - |before|], structure'[i]);
    }
    if Lacks(d, kept) {
      assert Lacks((docs + [d])[|docs|], structure'[|structure|]);
    }
    if Lost(before, docs + [d], structure') {
      var i :| |before| <= i < |structure'| && Lacks((docs + [d])[i - |before|], structure'[i]);
      assert i < |structure| ==> Lacks(docs[i - |before|], structure[i]);
    }
  }

  /** The inventory with one more document. */
  lemma OneMoreDone(before: seq<Document>, marked: bool, docs: seq<Document>, d: Document, structure: seq<Document>,
                    truncated: bool)
    requires Done(before, marked, docs, structure, truncated) && |structure| == |before| + |docs| < MAXIMUM_DOCUMENTS
    requires |structure| > |before| ==> !IsFull(structure)
    ensures var structure' := structure + [CutAfter(structure, d)];
            Done(before, marked, docs + [d], structure',
                 truncated || CutAfter(structure, d) != d || d.truncated || IsFull(structure'))
  {
    hide IsFull, CutAfter, Takes, Lost;
    var structure' := structure + [CutAfter(structure, d)];
    OneMoreTaken(before, docs, d, structure);
    OneMoreLost(before, docs, d, structure, CutAfter(structure, d));
    forall i | |before| < i < |structure'| ensures !IsFull(structure'[..i]) {
      assert structure'[..i] == structure[..i];
      assert structure[..|structure|] == structure;
    }
    if IsFull(structure) {
      StaysFull(structure, CutAfter(structure, d));
    }
  }

  lemma MoreDocuments(before: seq<Document>, docs: seq<Document>, all: seq<Document>, structure: seq<Document>)
    requires Takes(before, docs, structure) && docs <= all
    ensures Takes(before, all, structure) && (Lost(before, all, structure) <==> Lost(before, docs, structure))
  {
    hide CutAfter, Lacks;
    if Lost(before, docs, structure) {
      var i :| |before| <= i < |structure| && Lacks(docs[i - |before|], structure[i]);
      assert Lacks(all[i - |before|], structure[i]);
    }
    if Lost(before, all, structure) {
      var i :| |before| <= i < |structure| && Lacks(all[i - |before|], structure[i]);
      assert Lacks(docs[i - |before|], structure[i]);
    }
  }

  /** There are more documents, but the list is full. */
  lemma NoRoomForMore(before: seq<Document>, marked: bool, docs: seq<Document>, all: seq<Document>,
                      structure: seq<Document>, truncated: bool)
    requires Done(before, marked, docs, structure, truncated) && docs < all
    requires |structure| == |before| + |docs| == MAXIMUM_DOCUMENTS
    ensures Done(before, marked, all, structure, true)
  {
    hide CutAfter, IsFull, Lost, Takes;
    MoreDocuments(before, docs, all, structure);
  }

  /** There may be more documents, but the budgets are used up. */
  lemma FullAfter(before: seq<Document>, marked: bool, docs: seq<Document>, all: seq<Document>,
                  structure: seq<Document>, truncated: bool)
    requires Done(before, marked, docs, structure, truncated) && docs <= all
    requires |structure| == |before| + |docs| > |before| && IsFull(structure)
    ensures Done(before, marked, all, structure, truncated)
  {
    hide CutAfter, IsFull, Lost, Takes;
    MoreDocuments(before, docs, all, structure);
  }

  /** The supported documents of the first n repositories. */
  function AllSupported(repositories: seq<seq<Option<Document>>>, n: nat): seq<Document>
    requires n <= |repositories|
  {
    if n == 0 then [] else AllSupported(repositories, n - 1) + Supported(repositories[n - 1], |repositories[n - 1]|)
  }

  /** The inventory of all repositories, one after the other: never beyond a limit, and complete unless it says
      otherwise.  `after` is what it was after each repository. */
  method Build(repositories: seq<seq<Option<Document>>>)
    returns (structure: seq<Document>, structureTruncated: bool, ghost after: seq<(seq<Document>, bool)>)
    ensures |after| == |repositories| + 1 && after[0] == ([], false) && after[|repositories|] == (structure,
                                                                                                 structureTruncated)
    ensures forall n | 0 <= n < |repositories| ::
              Done(after[n].0, after[n].1, Supported(repositories[n], |repositories[n]|), after[n + 1].0,
                   after[n + 1].1)
    ensures |structure| <= MAXIMUM_DOCUMENTS && Symbols(structure) <= MAXIMUM_SYMBOLS &&
            BuildFacts(structure) <= MAXIMUM_BUILD_FACTS
    ensures Relations(structure, Call) <= MAXIMUM_CALL_RELATIONS &&
            Relations(structure, Import) <= MAXIMUM_IMPORT_RELATIONS
    ensures Relations(structure, Typed) <= MAXIMUM_TYPED_RELATIONS
    ensures !structureTruncated ==> structure == AllSupported(repositories, |repositories|)
  {
    hide Done, Supported;
    var builder := new StructureBuilder();
    after := [([], false)];
    for n := 0 to |repositories|
      invariant builder.Valid()
      invariant |after| == n + 1 && after[0] == ([], false) && after[n] == (builder.structure, builder.truncated)
      invariant forall i | 0 <= i < n ::
                  Done(after[i].0, after[i].1, Supported(repositories[i], |repositories[i]|), after[i + 1].0,
                       after[i + 1].1)
      invariant !builder.truncated ==> builder.structure == AllSupported(repositories, n)
    {
      builder.AddStructuralAnalysis(repositories[n]);
      if !builder.truncated {
        UnmarkedIsWhole(after[n].0, after[n].1, Supported(repositories[n], |repositories[n]|), builder.structure);
      }
      after := after + [(builder.structure, builder.truncated)];
    }
    return builder.structure, builder.truncated, after;
  }
}
