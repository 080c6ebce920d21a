/** Cursor-paged structural search: pages limited both in matches and in files attempted,
    over candidates that may be skipped, refine one scan without pages. */
module AstSearch {

  datatype Option<+T> = None | Some(value: T)
  datatype Result<+T> = Ok(value: T) | Err(reason: Error)
  datatype Error = InvalidLimit | StaleCursor | CursorNoLongerValid

  const DEFAULT_LIMIT := 50
  const MAXIMUM_LIMIT := 200
  const MAXIMUM_FILES_PER_PAGE := 32

  datatype QueryMatch = QueryMatch(patternIndex: int, captures: seq<string>)

  /** What reading a candidate at its indexed revision and executing the query on it gives. */
  datatype Outcome =
    | ReadFailed
    | QueryFailed
    | Scanned(matches: seq<QueryMatch>, truncated: bool)

  datatype Candidate = Candidate(repository: int, path: string, outcome: Outcome)

  /** A reported match: the match and the candidate it lies in. */
  datatype Hit = Hit(repository: int, path: string, found: QueryMatch)

  /** Where a page starts: a candidate and the number of its matches already returned. */
  datatype Position = Position(document: int, skip: int)

  datatype Cursor = Cursor(version: int, indexId: string, requestHash: string, position: Position)

  /** What a request runs on: everything SearchAST determines before its page loop. */
  datatype Index = Index(id: string, requestHash: string, candidates: seq<Candidate>,
                         scopeComplete: bool, artifactTruncated: bool)

  datatype Page = Page(hits: seq<Hit>, next: Option<Cursor>, scanned: nat, skipped: nat, truncated: bool,
                       complete: bool)

  // ---------------------------------------------------------------- the scan without pages

  function HitOf(c: Candidate, m: QueryMatch): Hit {
    Hit(c.repository, c.path, m)
  }

  /** The hits of one candidate after the first `skip` of its matches. */
  function HitsOf(c: Candidate, skip: nat): seq<Hit>
    decreases if c.outcome.Scanned? then |c.outcome.matches| - skip else 0
  {
    if c.outcome.Scanned? && skip < |c.outcome.matches|
    then [HitOf(c, c.outcome.matches[skip])] + HitsOf(c, skip + 1)
    else []
  }

  /** One scan, without pages, of the candidates from number `d` on. */
  function Scan(candidates: seq<Candidate>, d: nat): seq<Hit>
    decreases |candidates| - d
  {
    if d >= |candidates| then [] else HitsOf(candidates[d], 0) + Scan(candidates, d + 1)
  }

  /** What the scan still has to return at a position. */
  function Remaining(index: Index, p: Position): seq<Hit>
    requires 0 <= p.document <= |index.candidates| && 0 <= p.skip
  {
    if p.document == |index.candidates| then []
    else HitsOf(index.candidates[p.document], p.skip) + Scan(index.candidates, p.document + 1)
  }

  // ---------------------------------------------------------------- cursors

  /** decodeASTCursor, after the wire encoding is undone. */
  function Decode(cursor: Option<Cursor>, index: Index): (r: Result<Position>)
    ensures r.Ok? ==> 0 <= r.value.document <= |index.candidates| && 0 <= r.value.skip
  {
    match cursor
    case None => Ok(Position(0, 0))
    case Some(c) =>
      if || c.version != 1
         || c.indexId != index.id
         || c.requestHash != index.requestHash
         || c.position.document < 0
         || c.position.document > |index.candidates|
         || c.position.skip < 0
         || (c.position.document == |index.candidates| && c.position.skip != 0)
      then Err(StaleCursor)
      else Ok(c.position)
  }

  function Encode(index: Index, p: Position): Cursor {
    Cursor(1, index.id, index.requestHash, p)
  }

  /** Where a request asks to go on: at the very start, or where its cursor says. */
  function Asked(cursor: Option<Cursor>): Position {
    match cursor
    case None => Position(0, 0)
    case Some(c) => c.position
  }

  /** The cursor was made for this index and for this request. */
  ghost predicate BelongsTo(cursor: Option<Cursor>, index: Index) {
    cursor.Some? ==>
      && cursor.value.version == 1
      && cursor.value.indexId == index.id
      && cursor.value.requestHash == index.requestHash
  }

  /** What a request must say to get a page at all. */
  ghost predicate Accepts(index: Index, cursor: Option<Cursor>) {
    BelongsTo(cursor, index) && Usable(index, Asked(cursor))
  }

  /** A position of some scan of as many candidates. */
  predicate WithinCandidates(index: Index, p: Position) {
    0 <= p.document <= |index.candidates| && 0 <= p.skip && (p.document == |index.candidates| ==> p.skip == 0)
  }

  /** The position lies within its candidate, or in one that is skipped anyway. */
  predicate Usable(index: Index, p: Position) {
    && WithinCandidates(index, p)
    && (p.document < |index.candidates| && index.candidates[p.document].outcome.Scanned?
        ==> p.skip <= |index.candidates[p.document].outcome.matches|)
  }

  // ---------------------------------------------------------------- one page

  predicate IsSkipped(c: Candidate) {
    !c.outcome.Scanned?
  }

  predicate IsLossless(c: Candidate) {
    c.outcome.Scanned? && !c.outcome.truncated
  }

  function EffectiveLimit(limit: int): int {
    if limit == 0 then DEFAULT_LIMIT else limit
  }

  /** What a page must be, without saying how it is found.  `start` is where it begins and
      `stop` the position after it: it returns exactly the hits in between, it breaks off only
      at one of the two caps, and its completeness flags are about the candidates it touched. */
  ghost predicate IsPage(index: Index, start: Position, limit: int, page: Page, stop: Position) {
    && Usable(index, start) && Usable(index, stop)
    && (start.document < stop.document || (start.document == stop.document && start.skip <= stop.skip))
    && page.next == (if stop.document < |index.candidates| then Some(Encode(index, stop)) else None)
    && page.hits + Remaining(index, stop) == Remaining(index, start)
    && |page.hits| <= limit && StopsShort(index, stop)
    && (stop.document < |index.candidates| ==>
          |page.hits| == limit || (stop.skip == 0 && stop.document == start.document + MAXIMUM_FILES_PER_PAGE))
    && End(stop) <= start.document + MAXIMUM_FILES_PER_PAGE
    && Tally(index.candidates, start.document, End(stop), page.scanned, page.skipped, page.truncated)
    && (page.complete <==>
          && index.scopeComplete && !index.artifactTruncated
          && forall d | start.document <= d < End(stop) :: IsLossless(index.candidates[d]))
  }

  /** A page that stops within a candidate leaves matches of it to return. */
  ghost predicate StopsShort(index: Index, stop: Position)
    requires Usable(index, stop)
  {
    stop.skip > 0 ==>
      var c := index.candidates[stop.document];
      c.outcome.Scanned? && stop.skip < |c.outcome.matches|
  }

  /** The candidate after the last one that a page which stops at `stop` touched. */
  function End(stop: Position): int {
    if stop.skip > 0 then stop.document + 1 else stop.document
  }

  /** The counters of a page are about the candidates it touched. */
  ghost predicate Tally(candidates: seq<Candidate>, lo: nat, hi: int, scanned: nat, skipped: nat, truncated: bool)
    requires hi <= |candidates|
  {
    && skipped == CountSkipped(candidates, lo, hi)
    && lo + scanned + skipped == hi
    && (truncated <==> exists d :: lo <= d < hi && IsCut(candidates[d]))
  }

  predicate IsCut(c: Candidate) {
    c.outcome.Scanned? && c.outcome.truncated
  }

  function CountSkipped(candidates: seq<Candidate>, lo: nat, hi: int): nat
    requires hi <= |candidates|
    decreases hi
  {
    if hi <= lo then 0 else CountSkipped(candidates, lo, hi - 1) + if IsSkipped(candidates[hi - 1]) then 1 else 0
  }

  lemma {:induction false} NoneSkipped(candidates: seq<Candidate>, lo: nat, hi: int)
    requires hi <= |candidates|
    ensures CountSkipped(candidates, lo, hi) == 0 <==> forall d | lo <= d < hi :: !IsSkipped(candidates[d])
    decreases hi
  {
    if lo < hi {
      NoneSkipped(candidates, lo, hi - 1);
    }
  }

  /** Moving past one candidate, or past one of its matches. */
  lemma {:induction false} PassCandidate(index: Index, d: nat, skip: nat)
    requires d < |index.candidates| && Usable(index, Position(d, skip))
    ensures Remaining(index, Position(d, skip)) ==
            HitsOf(index.candidates[d], skip) + Remaining(index, Position(d + 1, 0))
  {
  }

  lemma {:induction false} PassMatch(index: Index, d: nat, skip: nat)
    requires d < |index.candidates| && index.candidates[d].outcome.Scanned? &&
             skip < |index.candidates[d].outcome.matches|
    ensures Remaining(index, Position(d, skip)) ==
            [HitOf(index.candidates[d], index.candidates[d].outcome.matches[skip])] +
              Remaining(index, Position(d, skip + 1))
  {
    var c := index.candidates[d];
    assert HitsOf(c, skip) == [HitOf(c, c.outcome.matches[skip])] + HitsOf(c, skip + 1);
  }

  /** The hits so far, and what the scan still has to return. */
  ghost predicate Progress(index: Index, start: Position, hits: seq<Hit>, at: Position, limit: int) {
    && Usable(index, start) && Usable(index, at)
    && |hits| < limit
    && hits + Remaining(index, at) == Remaining(index, start)
  }

  /** What a candidate without further hits leaves to return is what comes after it. */
  lemma StepNothing(hits: seq<Hit>, first: seq<Hit>, now: seq<Hit>, next: seq<Hit>, whole: seq<Hit>)
    requires first == [] && now == first + next && hits + now == whole
    ensures hits + next == whole
  {
    assert first + next == next;
  }

  lemma StepOne(hits: seq<Hit>, one: seq<Hit>, now: seq<Hit>, next: seq<Hit>, whole: seq<Hit>)
    requires now == one + next && hits + now == whole
    ensures hits + one + next == whole
  {
    assert hits + (one + next) == hits + one + next;
  }

  lemma {:induction false} ProgressCandidate(index: Index, start: Position, hits: seq<Hit>, at: Position, limit: int)
    requires Progress(index, start, hits, at, limit) && at.document < |index.candidates|
    requires HitsOf(index.candidates[at.document], at.skip) == []
    ensures Progress(index, start, hits, Position(at.document + 1, 0), limit)
  {
    hide Remaining, HitsOf, Scan;
    PassCandidate(index, at.document, at.skip);
    var here, next := HitsOf(index.candidates[at.document], at.skip), Position(at.document + 1, 0);
    StepNothing(hits, here, Remaining(index, at), Remaining(index, next), Remaining(index, start));
  }

  lemma {:induction false} NoHitsAtEnd(c: Candidate, skip: nat)
    requires c.outcome.Scanned? && skip == |c.outcome.matches|
    ensures HitsOf(c, skip) == []
  {
  }

  lemma {:induction false} RemainingAtEnd(index: Index, d: nat, skip: nat)
    requires d < |index.candidates| && Usable(index, Position(d, skip)) && HitsOf(index.candidates[d], skip) == []
    ensures Remaining(index, Position(d, skip)) == Remaining(index, Position(d + 1, 0))
  {
    PassCandidate(index, d, skip);
    var rest := Remaining(index, Position(d + 1, 0));
    StepNothing([], HitsOf(index.candidates[d], skip), Remaining(index, Position(d, skip)), rest,
                Remaining(index, Position(d, skip)));
    assert [] + rest == rest;
  }

  lemma {:induction false} ProgressMatch(index: Index, start: Position, hits: seq<Hit>, at: Position, limit: int)
    requires Progress(index, start, hits, at, limit) && at.document < |index.candidates|
    requires index.candidates[at.document].outcome.Scanned?
    requires at.skip < |index.candidates[at.document].outcome.matches|
    ensures var c := index.candidates[at.document];
            var next := Position(at.document, at.skip + 1);
            && hits + [HitOf(c, c.outcome.matches[at.skip])] + Remaining(index, next) == Remaining(index, start)
            && Usable(index, next)
            && (at.skip + 1 == |c.outcome.matches| ==>
                Remaining(index, next) == Remaining(index, Position(at.document + 1, 0)))
  {
    hide Remaining, HitsOf, Scan;
    var c := index.candidates[at.document];
    var now, next := Remaining(index, at), Remaining(index, Position(at.document, at.skip + 1));
    PassMatch(index, at.document, at.skip);
    StepOne(hits, [HitOf(c, c.outcome.matches[at.skip])], now, next, Remaining(index, start));
    if at.skip + 1 == |c.outcome.matches| {
      NoHitsAtEnd(c, at.skip + 1);
      RemainingAtEnd(index, at.document, at.skip + 1);
    }
  }

  predicate IsClosed(index: Index, page: Page, stop: Position) {
    && page.next == (if stop.document < |index.candidates| then Some(Encode(index, stop)) else None)
    && page.complete == Complete(index, page.skipped, page.truncated)
  }

  lemma FinishPage(index: Index, start: Position, limit: int, page: Page, stop: Position)
    requires Usable(index, start) && Usable(index, stop)
    requires start.document < stop.document || (start.document == stop.document && start.skip <= stop.skip)
    requires page.hits + Remaining(index, stop) == Remaining(index, start) && |page.hits| <= limit
    requires StopsShort(index, stop)
    requires stop.document < |index.candidates| ==>
               |page.hits| == limit || (stop.skip == 0 && stop.document == start.document + MAXIMUM_FILES_PER_PAGE)
    requires End(stop) <= start.document + MAXIMUM_FILES_PER_PAGE
    requires Tally(index.candidates, start.document, End(stop), page.scanned, page.skipped, page.truncated)
    requires IsClosed(index, page, stop)
    ensures IsPage(index, start, limit, page, stop)
  {
    NoneSkipped(index.candidates, start.document, End(stop));
  }

  /** The inner loop: append the matches of one candidate until the page is full. */
  method AppendMatches(index: Index, ghost start: Position, document: nat, matchStart: nat, before: seq<Hit>,
                       limit: int)
    returns (hits: seq<Hit>, matchIndex: nat, full: bool)
    requires document < |index.candidates| && index.candidates[document].outcome.Scanned?
    requires Progress(index, start, before, Position(document, matchStart), limit)
    ensures Usable(index, Position(document, matchIndex)) && matchStart <= matchIndex
    ensures hits + Remaining(index, Position(document, matchIndex)) == Remaining(index, start)
    ensures if full then |hits| == limit && matchIndex > 0
            else |hits| < limit && matchIndex == |index.candidates[document].outcome.matches|
  {
    var candidate := index.candidates[document];
    var matches := candidate.outcome.matches;
    hits, matchIndex := before, matchStart;
    while matchIndex < |matches|
      invariant matchStart <= matchIndex <= |matches|
      invariant Progress(index, start, hits, Position(document, matchIndex), limit)
    {
      ProgressMatch(index, start, hits, Position(document, matchIndex), limit);
      hits := hits + [HitOf(candidate, matches[matchIndex])];
      matchIndex := matchIndex + 1;
      if |hits| == limit {
        return hits, matchIndex, true;
      }
    }
    return hits, matchIndex, false;
  }

  /** Where a full page stops: after the last match of a candidate comes the next candidate. */
  function After(index: Index, document: nat, matchIndex: nat): Position
    requires document < |index.candidates| && index.candidates[document].outcome.Scanned?
  {
    if matchIndex >= |index.candidates[document].outcome.matches| then Position(document + 1, 0)
    else Position(document, matchIndex)
  }

  lemma RemainingAfter(index: Index, document: nat, matchIndex: nat)
    requires document < |index.candidates| && Usable(index, Position(document, matchIndex))
    requires index.candidates[document].outcome.Scanned?
    ensures Usable(index, After(index, document, matchIndex))
    ensures Remaining(index, Position(document, matchIndex)) == Remaining(index, After(index, document, matchIndex))
  {
    if matchIndex == |index.candidates[document].outcome.matches| {
      PassCandidate(index, document, matchIndex);
    }
  }

  /** What the page loop keeps before candidate `document`. */
  ghost predicate AtCandidate(index: Index, start: Position, document: nat, limit: int,
                              hits: seq<Hit>, scanned: nat, skipped: nat, truncated: bool) {
    && 0 <= start.document <= document <= |index.candidates|
    && (Usable(index, start) ==> Progress(index, start, hits, HereOf(start, document), limit))
    && (document > start.document ==> Usable(index, start))
    && Tally(index.candidates, start.document, document, scanned, skipped, truncated)
  }

  /** The position before candidate `document` of a page that began at `start`. */
  function HereOf(start: Position, document: nat): Position {
    Position(document, if document == start.document then start.skip else 0)
  }

  lemma {:induction false} SkippedHasNoHits(c: Candidate, skip: nat)
    requires IsSkipped(c)
    ensures HitsOf(c, skip) == []
  {
  }

  lemma StepOverSkipped(index: Index, start: Position, document: nat, limit: int,
                        hits: seq<Hit>, scanned: nat, skipped: nat, truncated: bool)
    requires start.document >= 0 && AtCandidate(index, start, document, limit, hits, scanned, skipped, truncated)
    requires document < |index.candidates| && IsSkipped(index.candidates[document])
    requires 0 <= start.skip
    ensures AtCandidate(index, start, document + 1, limit, hits, scanned, skipped + 1, truncated)
  {
    hide Remaining, Scan;
    SkippedHasNoHits(index.candidates[document], HereOf(start, document).skip);
    if Usable(index, start) {
      ProgressCandidate(index, start, hits, HereOf(start, document), limit);
    }
  }

  lemma StepOverScanned(index: Index, start: Position, document: nat, matchIndex: nat, limit: int,
                        hits: seq<Hit>, scanned: nat, skipped: nat, truncated: bool)
    requires 0 <= start.document <= document < |index.candidates| && index.candidates[document].outcome.Scanned?
    requires matchIndex == |index.candidates[document].outcome.matches|
    requires Progress(index, start, hits, Position(document, matchIndex), limit)
    requires Tally(index.candidates, start.document, document + 1, scanned, skipped, truncated)
    ensures AtCandidate(index, start, document + 1, limit, hits, scanned, skipped, truncated)
  {
    NoHitsAtEnd(index.candidates[document], matchIndex);
    RemainingAtEnd(index, document, matchIndex);
    hide Remaining, HitsOf, Scan;
  }

  /** A page that stops between two candidates: at the file cap, or at the end. */
  lemma FinishBetween(index: Index, start: Position, document: nat, limit: int, page: Page)
    requires start.document >= 0 && (start.document == |index.candidates| ==> start.skip == 0)
    requires Usable(index, start)
    requires AtCandidate(index, start, document, limit, page.hits, page.scanned, page.skipped, page.truncated)
    requires document - start.document <= MAXIMUM_FILES_PER_PAGE
    requires document < |index.candidates| ==> document - start.document == MAXIMUM_FILES_PER_PAGE
    requires IsClosed(index, page, Position(document, 0))
    ensures IsPage(index, start, limit, page, Position(document, 0))
  {
    FinishPage(index, start, limit, page, Position(document, 0));
  }

  /** A page that stops because it is full. */
  lemma FinishFullPage(index: Index, start: Position, document: nat, matchIndex: nat, limit: int, page: Page)
    requires 0 <= start.document <= document < |index.candidates| && Usable(index, start) &&
             Usable(index, Position(document, matchIndex))
    requires index.candidates[document].outcome.Scanned? && matchIndex > 0
    requires document == start.document ==> start.skip <= matchIndex
    requires page.hits + Remaining(index, Position(document, matchIndex)) == Remaining(index, start) &&
             |page.hits| == limit
    requires document + 1 - start.document <= MAXIMUM_FILES_PER_PAGE
    requires Tally(index.candidates, start.document, document + 1, page.scanned, page.skipped, page.truncated)
    requires IsClosed(index, page, After(index, document, matchIndex))
    ensures IsPage(index, start, limit, page, After(index, document, matchIndex))
  {
    RemainingAfter(index, document, matchIndex);
    FinishPage(index, start, limit, page, After(index, document, matchIndex));
  }

  /** The page of the hits so far. */
  lemma FinishHere(index: Index, start: Position, document: nat, limit: int, hits: seq<Hit>, scanned: nat, skipped: nat,
                   truncated: bool)
    requires 0 <= start.document <= |index.candidates| && (start.document == |index.candidates| ==> start.skip == 0)
    requires document > start.document || start.document == |index.candidates|
    requires AtCandidate(index, start, document, limit, hits, scanned, skipped, truncated)
    requires document - start.document <= MAXIMUM_FILES_PER_PAGE
    requires document < |index.candidates| ==> document - start.document == MAXIMUM_FILES_PER_PAGE
    ensures Usable(index, start)
    ensures IsPage(index, start, limit, Close(index, hits, Position(document, 0), scanned, skipped, truncated),
                   Position(document, 0))
  {
    hide Remaining, HitsOf, Scan;
    FinishBetween(index, start, document, limit, Close(index, hits, Position(document, 0), scanned, skipped,
                                                       truncated));
  }

  lemma StartOfPage(index: Index, start: Position, limit: int)
    requires 0 <= start.document <= |index.candidates| && 0 <= start.skip && 1 <= limit
    ensures AtCandidate(index, start, start.document, limit, [], 0, 0, false)
  {
    assert Usable(index, start) ==> [] + Remaining(index, start) == Remaining(index, start);
  }

  /** How one turn of the page loop ends. */
  datatype Turn =
    | GoOn(hits: seq<Hit>, scanned: nat, skipped: nat, truncated: bool)
    | PageFull(page: Page, next: Position)
    | Invalid

  /** One turn of the page loop: the matches of one candidate. */
  method ReadCandidate(index: Index, start: Position, documentIndex: nat, limit: int,
                       hits: seq<Hit>, scanned: nat, skipped: nat, truncated: bool) returns (turn: Turn)
    requires 0 <= start.document && 0 <= start.skip && 1 <= limit
    requires documentIndex < |index.candidates| && documentIndex - start.document < MAXIMUM_FILES_PER_PAGE
    requires AtCandidate(index, start, documentIndex, limit, hits, scanned, skipped, truncated)
    ensures turn.GoOn? ==> AtCandidate(index, start, documentIndex + 1, limit, turn.hits, turn.scanned, turn.skipped,
                                       turn.truncated)
    ensures turn.PageFull? ==> Usable(index, start) && IsPage(index, start, limit, turn.page, turn.next)
    ensures turn.Invalid? ==> !Usable(index, start)
  {
    hide Remaining, HitsOf, Scan;
    var candidate := index.candidates[documentIndex];
    if candidate.outcome.ReadFailed? || candidate.outcome.QueryFailed? {
      StepOverSkipped(index, start, documentIndex, limit, hits, scanned, skipped, truncated);
      return GoOn(hits, scanned, skipped + 1, truncated);
    }
    var truncated' := truncated || candidate.outcome.truncated;
    var matchStart := 0;
    if documentIndex == start.document {
      matchStart := start.skip;
    }
    if matchStart > |candidate.outcome.matches| {
      return Invalid;
    }
    assert Usable(index, start) && matchStart == HereOf(start, documentIndex).skip;
    var hits', matchIndex, full := AppendMatches(index, start, documentIndex, matchStart, hits, limit);
    if full {
      var next := After(index, documentIndex, matchIndex);
      var page := Close(index, hits', next, scanned + 1, skipped, truncated');
      FinishFullPage(index, start, documentIndex, matchIndex, limit, page);
      return PageFull(page, next);
    }
    StepOverScanned(index, start, documentIndex, matchIndex, limit, hits', scanned + 1, skipped, truncated');
    return GoOn(hits', scanned + 1, skipped, truncated');
  }

  /** The loop goes on before a candidate. */
  ghost predicate GoesOn(index: Index, start: Position, document: nat, limit: int, turn: Turn) {
    turn.GoOn? && AtCandidate(index, start, document, limit, turn.hits, turn.scanned, turn.skipped, turn.truncated)
  }

  /** The loop is over: with a full page, a refused position, or between two candidates. */
  ghost predicate Ends(index: Index, start: Position, document: nat, limit: int, turn: Turn) {
    match turn
    case GoOn(_, _, _, _) =>
      && GoesOn(index, start, document, limit, turn) && document - start.document <= MAXIMUM_FILES_PER_PAGE
      && (document < |index.candidates| ==> document - start.document == MAXIMUM_FILES_PER_PAGE)
    case PageFull(page, next) => Usable(index, start) && IsPage(index, start, limit, page, next)
    case Invalid => !Usable(index, start)
  }

  /** The page loop of SearchAST. */
  method ReadCandidates(index: Index, start: Position, limit: int) returns (turn: Turn, documentIndex: nat)
    requires 0 <= start.document <= |index.candidates| && 0 <= start.skip
    requires start.document == |index.candidates| ==> start.skip == 0
    requires 1 <= limit
    ensures Ends(index, start, documentIndex, limit, turn)
  {
    StartOfPage(index, start, limit);
    turn, documentIndex := GoOn([], 0, 0, false), start.document;
    var attemptedFiles := 0;
    while documentIndex < |index.candidates| && attemptedFiles < MAXIMUM_FILES_PER_PAGE
      invariant GoesOn(index, start, documentIndex, limit, turn)
      invariant attemptedFiles == documentIndex - start.document <= MAXIMUM_FILES_PER_PAGE
    {
      attemptedFiles := attemptedFiles + 1;
      turn := ReadCandidate(index, start, documentIndex, limit, turn.hits, turn.scanned, turn.skipped, turn.truncated);
      if !turn.GoOn? {
        return;
      }
      documentIndex := documentIndex + 1;
    }
  }

  /** SearchAST from a decoded position on: the loop, and the page it leaves. */
  method PageFrom(index: Index, start: Position, limit: int) returns (r: Result<Page>, ghost stop: Position)
    requires 0 <= start.document <= |index.candidates| && 0 <= start.skip
    requires start.document == |index.candidates| ==> start.skip == 0
    requires 1 <= limit
    ensures r.Ok? <==> Usable(index, start)
    ensures r.Err? ==> r.reason == CursorNoLongerValid
    ensures r.Ok? ==> IsPage(index, start, limit, r.value, stop)
  {
    var turn, documentIndex := ReadCandidates(index, start, limit);
    if turn.Invalid? {
      return Err(CursorNoLongerValid), start;
    }
    if turn.PageFull? {
      return Ok(turn.page), turn.next;
    }
    FinishHere(index, start, documentIndex, limit, turn.hits, turn.scanned, turn.skipped, turn.truncated);
    return Ok(Close(index, turn.hits, Position(documentIndex, 0), turn.scanned, turn.skipped, turn.truncated)),
           Position(documentIndex, 0);
  }

  /** The response of a page that stops at `stop`: a cursor only while candidates are left. */
  function Close(index: Index, hits: seq<Hit>, stop: Position, scanned: nat, skipped: nat, truncated: bool): Page {
    Page(hits, if stop.document < |index.candidates| then Some(Encode(index, stop)) else None,
         scanned, skipped, truncated, Complete(index, skipped, truncated))
  }

  /** SearchAST: the request's limit and cursor are validated, then one page is read. */
  method SearchPage(index: Index, cursor: Option<Cursor>, requestLimit: int)
    returns (r: Result<Page>, ghost stop: Position)
    ensures r.Ok? <==> 1 <= EffectiveLimit(requestLimit) <= MAXIMUM_LIMIT && Accepts(index, cursor)
    ensures r.Ok? ==> IsPage(index, Asked(cursor), EffectiveLimit(requestLimit), r.value, stop)
    ensures r.Err? ==>
      match r.reason
      case InvalidLimit => !(1 <= EffectiveLimit(requestLimit) <= MAXIMUM_LIMIT)
      case StaleCursor => !BelongsTo(cursor, index) || !WithinCandidates(index, Asked(cursor))
      case CursorNoLongerValid =>
        && BelongsTo(cursor, index) && WithinCandidates(index, Asked(cursor)) && !Usable(index, Asked(cursor))
  {
    var limit := requestLimit;
    if limit == 0 {
      limit := DEFAULT_LIMIT;
    }
    if limit < 1 || limit > MAXIMUM_LIMIT {
      return Err(InvalidLimit), Position(0, 0);
    }
    var decoded := Decode(cursor, index);
    if decoded.Err? {
      return Err(decoded.reason), Position(0, 0);
    }
    r, stop := PageFrom(index, decoded.value, limit);
  }

  /** astSearchComplete */
  predicate Complete(index: Index, skipped: nat, truncated: bool) {
    index.scopeComplete && !index.artifactTruncated && skipped == 0 && !truncated
  }

  // ---------------------------------------------------------------- following the cursors

  /** A client that follows NextCursor: page i was asked for with limits[i], and all but the
      last page gave a cursor.  The limit may differ from page to page. */
  ghost predicate Follows(index: Index, limits: seq<int>, pages: seq<Page>, stops: seq<Position>) {
    && 0 < |pages| == |limits| == |stops|
    && (forall i | 0 <= i < |pages| :: FollowsAt(index, limits, pages, stops, i))
  }

  ghost predicate FollowsAt(index: Index, limits: seq<int>, pages: seq<Page>, stops: seq<Position>, i: nat)
    requires i < |pages| == |limits| == |stops|
  {
    && 1 <= limits[i] <= MAXIMUM_LIMIT
    && var cursor := if i == 0 then None else pages[i - 1].next;
    && (i > 0 ==> cursor.Some?)
    && Accepts(index, cursor)
    && IsPage(index, Asked(cursor), limits[i], pages[i], stops[i])
  }

  /** A cursor that one index issued is accepted by another exactly if it is the same index and
      the same request, and then it names the position where the page stopped. */
  lemma IssuedCursorIsAccepted(index: Index, other: Index, start: Position, limit: int, page: Page, stop: Position)
    requires IsPage(index, start, limit, page, stop) && page.next.Some?
    ensures Asked(page.next) == stop && Accepts(index, page.next)
    ensures Accepts(other, page.next) <==>
            other.id == index.id && other.requestHash == index.requestHash && Usable(other, stop)
  {
    assert page.next == Some(Cursor(1, index.id, index.requestHash, stop));
  }

  /** What is left to scan from a position in the middle is the end of the whole scan. */
  lemma {:induction false} RestOfScan(index: Index, d: nat) returns (before: seq<Hit>)
    requires d <= |index.candidates|
    ensures before + Remaining(index, Position(d, 0)) == Scan(index.candidates, 0)
  {
    if d == 0 {
      before := [];
    } else {
      var b := RestOfScan(index, d - 1);
      var here := HitsOf(index.candidates[d - 1], 0);
      PassCandidate(index, d - 1, 0);
      before := b + here;
      assert b + (here + Remaining(index, Position(d, 0))) == before + Remaining(index, Position(d, 0));
    }
  }

  lemma {:induction false} HitsAfterSkip(c: Candidate, skip: nat) returns (before: seq<Hit>)
    requires c.outcome.Scanned? ==> skip <= |c.outcome.matches|
    ensures before + HitsOf(c, skip) == HitsOf(c, 0)
  {
    if skip == 0 || !c.outcome.Scanned? {
      before := [];
    } else {
      var b := HitsAfterSkip(c, skip - 1);
      var one := [HitOf(c, c.outcome.matches[skip - 1])];
      before := b + one;
      assert b + (one + HitsOf(c, skip)) == before + HitsOf(c, skip);
    }
  }

  lemma Regrouped(a: seq<Hit>, b: seq<Hit>, c: seq<Hit>, d: seq<Hit>)
    ensures a + ((b + c) + d) == (a + b) + (c + d)
  {
  }

  /** So the page that an accepted cursor gets is a stretch of this request's own scan. */
  lemma AcceptedPageIsStretch(index: Index, cursor: Option<Cursor>, limit: int, page: Page, stop: Position)
    returns (before: seq<Hit>, after: seq<Hit>)
    requires Accepts(index, cursor) && IsPage(index, Asked(cursor), limit, page, stop)
    ensures before + page.hits + after == Scan(index.candidates, 0)
    ensures after == Remaining(index, stop) && before + Remaining(index, Asked(cursor)) == Scan(index.candidates, 0)
  {
    var p := Asked(cursor);
    before := RestOfScan(index, p.document);
    after := Remaining(index, stop);
    if p.document < |index.candidates| {
      var first := HitsAfterSkip(index.candidates[p.document], p.skip);
      PassCandidate(index, p.document, 0);
      PassCandidate(index, p.document, p.skip);
      hide *;
      var rest := Remaining(index, Position(p.document + 1, 0));
      var hits := HitsOf(index.candidates[p.document], p.skip);
      Regrouped(before, first, hits, rest);
      before := before + first;
    }
    hide *;
    assert before + (page.hits + after) == before + page.hits + after;
  }

  ghost predicate IsHitOf(c: Candidate, k: nat, h: Hit) {
    c.outcome.Scanned? && k < |c.outcome.matches| && h == Hit(c.repository, c.path, c.outcome.matches[k])
  }

  lemma {:induction false} HitsAreMatches(c: Candidate, skip: nat, h: Hit)
    ensures h in HitsOf(c, skip) <==> exists k: nat :: skip <= k && IsHitOf(c, k, h)
    decreases if c.outcome.Scanned? then |c.outcome.matches| - skip else 0
  {
    if c.outcome.Scanned? && skip < |c.outcome.matches| {
      HitsAreMatches(c, skip + 1, h);
      assert IsHitOf(c, skip, HitOf(c, c.outcome.matches[skip]));
      if IsHitOf(c, skip, h) {
        assert h == HitsOf(c, skip)[0];
      }
    }
  }

  /** The scan returns the matches of the candidates that could be scanned, and nothing else. */
  lemma {:induction false} ScanIsTheMatches(candidates: seq<Candidate>, d: nat, h: Hit)
    ensures h in Scan(candidates, d) <==>
            exists i, k: nat :: d <= i < |candidates| && IsHitOf(candidates[i], k, h)
    decreases |candidates| - d
  {
    if d < |candidates| {
      HitsAreMatches(candidates[d], 0, h);
      ScanIsTheMatches(candidates, d + 1, h);
    }
  }

  function AllHits(pages: seq<Page>): seq<Hit> {
    if pages == [] then [] else AllHits(pages[..|pages| - 1]) + pages[|pages| - 1].hits
  }

  /** Where page i starts: where the one before it stopped. */
  function StartOf(stops: seq<Position>, i: nat): Position
    requires i < |stops|
  {
    if i == 0 then Position(0, 0) else stops[i - 1]
  }

  lemma StartsWhereTheLastStopped(index: Index, limits: seq<int>, pages: seq<Page>, stops: seq<Position>, i: nat)
    requires Follows(index, limits, pages, stops) && i < |pages|
    ensures IsPage(index, StartOf(stops, i), limits[i], pages[i], stops[i]) && Usable(index, StartOf(stops, i))
    ensures limits[i] >= 1 && (i > 0 ==> pages[i - 1].next.Some?)
  {
    assert FollowsAt(index, limits, pages, stops, i);
    if i > 0 {
      assert FollowsAt(index, limits, pages, stops, i - 1);
    }
  }

  lemma OneMorePage(pages: seq<Page>, n: nat)
    requires 0 < n <= |pages|
    ensures AllHits(pages[..n]) == AllHits(pages[..n - 1]) + pages[n - 1].hits
  {
    assert pages[..n][..n - 1] == pages[..n - 1];
  }

  lemma AllRemains(index: Index)
    ensures Remaining(index, Position(0, 0)) == Scan(index.candidates, 0)
  {
  }

  lemma {:induction false} FollowedSoFar(index: Index, limits: seq<int>, pages: seq<Page>, stops: seq<Position>, n: nat)
    requires Follows(index, limits, pages, stops) && 0 < n <= |pages|
    ensures Usable(index, stops[n - 1])
    ensures AllHits(pages[..n]) + Remaining(index, stops[n - 1]) == Scan(index.candidates, 0)
    ensures pages[n - 1].next.Some? ==> MAXIMUM_FILES_PER_PAGE * (n - |AllHits(pages[..n])|) <= stops[n - 1].document
    ensures n > 1 ==> MAXIMUM_FILES_PER_PAGE * (n - 1 - |AllHits(pages[..n - 1])|) <= stops[n - 1].document
    ensures |AllHits(pages[..n - 1])| <= |AllHits(pages[..n])|
  {
    StartsWhereTheLastStopped(index, limits, pages, stops, n - 1);
    OneMorePage(pages, n);
    if n > 1 {
      FollowedSoFar(index, limits, pages, stops, n - 1);
    } else {
      AllRemains(index);
      assert AllHits(pages[..0]) == [];
    }
    hide Remaining, Scan, AllHits;
  }

  lemma NothingRemains(index: Index, p: Position)
    requires p.document == |index.candidates| && p.skip == 0
    ensures Remaining(index, p) == []
  {
  }

  /** Following the cursors to the end gives the scan without pages: every hit, in order,
      exactly once, whatever the limits. */
  lemma {:induction false} PagesRefineScan(index: Index, limits: seq<int>, pages: seq<Page>, stops: seq<Position>)
    requires Follows(index, limits, pages, stops)
    ensures AllHits(pages) <= Scan(index.candidates, 0)
    ensures pages[|pages| - 1].next.None? ==> AllHits(pages) == Scan(index.candidates, 0)
  {
    hide Remaining, HitsOf, Scan, AllHits;
    var last := |pages| - 1;
    FollowedSoFar(index, limits, pages, stops, |pages|);
    assert pages[..|pages|] == pages;
    assert FollowsAt(index, limits, pages, stops, last);
    if pages[last].next.None? {
      NothingRemains(index, stops[last]);
    }
  }

  /** It also ends: there are no more pages than this. */
  lemma FinitelyManyPages(index: Index, limits: seq<int>, pages: seq<Page>, stops: seq<Position>)
    requires Follows(index, limits, pages, stops)
    ensures |pages| <= 1 + |Scan(index.candidates, 0)| + |index.candidates| / MAXIMUM_FILES_PER_PAGE
  {
    FollowedSoFar(index, limits, pages, stops, |pages|);
    assert pages[..|pages|] == pages;
    assert FollowsAt(index, limits, pages, stops, |pages| - 1);
  }

  lemma {:induction false} CompleteSoFar(index: Index, limits: seq<int>, pages: seq<Page>, stops: seq<Position>, n: nat)
    requires Follows(index, limits, pages, stops) && 0 < n <= |pages|
    ensures 0 <= End(stops[n - 1]) <= |index.candidates|
    ensures (forall i | 0 <= i < n :: pages[i].complete) <==>
            && index.scopeComplete && !index.artifactTruncated
            && forall d | 0 <= d < End(stops[n - 1]) :: IsLossless(index.candidates[d])
  {
    assert FollowsAt(index, limits, pages, stops, n - 1);
    if n > 1 {
      CompleteSoFar(index, limits, pages, stops, n - 1);
      assert FollowsAt(index, limits, pages, stops, n - 2);
    }
  }

  /** The pages are all marked complete exactly when the index is whole and no candidate was
      skipped or cut short: paging hides no loss. */
  lemma CompletenessIsHonest(index: Index, limits: seq<int>, pages: seq<Page>, stops: seq<Position>)
    requires Follows(index, limits, pages, stops) && pages[|pages| - 1].next.None?
    ensures (forall i | 0 <= i < |pages| :: pages[i].complete) <==>
            && index.scopeComplete && !index.artifactTruncated
            && forall c <- index.candidates :: IsLossless(c)
  {
    CompleteSoFar(index, limits, pages, stops, |pages|);
    assert FollowsAt(index, limits, pages, stops, |pages| - 1);
  }

  /** A client that pages through the whole result always finishes with all of it. */
  method FollowCursors(index: Index, limitOf: nat -> int) returns (hits: seq<Hit>)
    requires forall n: nat :: 1 <= limitOf(n) <= MAXIMUM_LIMIT
    ensures hits == Scan(index.candidates, 0)
  {
    var r, stop := SearchPage(index, None, limitOf(0));
    var page := r.value;
    hits := page.hits;
    var n := 1;
    while page.next.Some?
      invariant page.next.Some? ==> Accepts(index, page.next) && Asked(page.next) == stop &&
                                    stop.document < |index.candidates|
      invariant page.next.None? ==> stop == Position(|index.candidates|, 0)
      invariant Usable(index, stop)
      invariant hits + Remaining(index, stop) == Scan(index.candidates, 0)
      decreases |index.candidates| - stop.document, |Remaining(index, stop)|
    {
      ghost var start := stop;
      r, stop := SearchPage(index, page.next, limitOf(n));
      page := r.value;
      hits := hits + page.hits;
      n := n + 1;
      assert |page.hits| + |Remaining(index, stop)| == |Remaining(index, start)|;
    }
  }
}
