/** Repository and revision filters of a search query: they become lists of 32-bit repository
    ids, and these restrict the repositories and scopes that a request names. */
module QueryFilters {

  import SearchScopes

  type Scope = SearchScopes.Scope

  datatype Result<+T> = Ok(value: T) | NotUnique(selector: Selector) | NotIndexed(revision: string)

  /** A repository the viewer may see.  Its revision is trimmed and in lower case. */
  datatype Repository = Repository(id: int, name: string, revision: string)

  /** A repository selector: text that parses as an integer, or a name. */
  datatype Selector = ById(id: int) | ByName(name: string)

  /** Case folding, as strings.EqualFold compares names: names are equal if they fold alike. */
  type Folding = string -> string

  const TWO_TO_THE_32 := 0x1_0000_0000

  /** The conversion of a 64-bit id to uint32 keeps the low bits. */
  function Narrow(id: int): (r: nat)
    ensures r < 0x1_0000_0000 && (0 <= id < 0x1_0000_0000 ==> r == id)
  {
    id % TWO_TO_THE_32
  }

  /** Ids that differ by a multiple of 2 to the 32 are one to the engine. */
  lemma {:induction false} NarrowRepeats(id: int, n: nat)
    ensures Narrow(id + n * 0x1_0000_0000) == Narrow(id)
  {
    if n > 0 {
      NarrowRepeats(id, n - 1);
    }
  }

  // ---------------------------------------------------------------- selecting repositories

  predicate Selects(fold: Folding, v: Selector, r: Repository) {
    match v
    case ById(id) => r.id == id
    case ByName(name) => fold(r.name) == fold(name)
  }

  /** The selector names exactly one of the repositories. */
  predicate Unique(fold: Folding, repositories: seq<Repository>, v: Selector) {
    exists i | 0 <= i < |repositories| :: Selects(fold, v, repositories[i]) &&
      forall j | 0 <= j < |repositories| && j != i :: !Selects(fold, v, repositories[j])
  }

  predicate SelectedBy(fold: Folding, values: seq<Selector>, r: Repository) {
    exists v <- values :: Selects(fold, v, r)
  }

  predicate HasRevision(value: string, r: Repository) {
    value != "" && r.revision != "" && value <= r.revision
  }

  predicate AtRevision(values: seq<string>, r: Repository) {
    exists v <- values :: HasRevision(v, r)
  }

  predicate Indexed(repositories: seq<Repository>, value: string) {
    exists r <- repositories :: HasRevision(value, r)
  }

  predicate NoDuplicates(ids: seq<nat>) {
    forall i, j | 0 <= i < j < |ids| :: ids[i] != ids[j]
  }

  /** unionIDs of one or two groups. */
  method UnionIds(left: seq<nat>, right: seq<nat>) returns (output: seq<nat>)
    ensures forall id :: id in output <==> id in left || id in right
    ensures NoDuplicates(output)
  {
    var groups := left + right;
    var seen: set<nat> := {};
    output := [];
    for i := 0 to |groups|
      invariant forall id :: id in seen <==> id in groups[..i]
      invariant forall id :: id in seen <==> id in output
      invariant NoDuplicates(output)
    {
      var id := groups[i];
      assert groups[..i + 1] == groups[..i] + [id];
      if id in seen {
        continue;
      }
      seen := seen + {id};
      output := output + [id];
    }
    assert groups[..|groups|] == groups;
  }

  /** The matches found among the first i repositories, and where they stand. */
  ghost predicate Found(fold: Folding, repositories: seq<Repository>, v: Selector, i: nat,
                        matches: seq<Repository>, origin: seq<nat>)
    requires i <= |repositories|
  {
    && |origin| == |matches|
    && (forall k | 0 <= k < |origin| ::
          origin[k] < i && matches[k] == repositories[origin[k]] && Selects(fold, v, matches[k]))
    && (forall k, l | 0 <= k < |origin| && 0 <= l < |origin| && origin[k] == origin[l] :: k == l)
    && forall j: nat | j < i && Selects(fold, v, repositories[j]) :: j in origin
  }

  lemma OneMatchIsUnique(fold: Folding, repositories: seq<Repository>, v: Selector,
                         matches: seq<Repository>, origin: seq<nat>)
    requires Found(fold, repositories, v, |repositories|, matches, origin)
    ensures |matches| == 1 ==> Unique(fold, repositories, v)
  {
    if |matches| == 1 {
      var i := origin[0];
      assert Selects(fold, v, repositories[i]);
      assert forall j: nat | j < |repositories| && Selects(fold, v, repositories[j]) :: j == i;
    }
  }

  lemma UniqueIsOneMatch(fold: Folding, repositories: seq<Repository>, v: Selector,
                         matches: seq<Repository>, origin: seq<nat>)
    requires Found(fold, repositories, v, |repositories|, matches, origin)
    requires Unique(fold, repositories, v)
    ensures |matches| == 1
  {
    var i: nat :| i < |repositories| && Selects(fold, v, repositories[i]) &&
                  forall j | 0 <= j < |repositories| && j != i :: !Selects(fold, v, repositories[j]);
    assert i in origin;
    assert origin[0] == i && origin[|origin| - 1] == i;
  }

  /** The loop that looks for the repositories a selector names. */
  method MatchesOf(fold: Folding, repositories: seq<Repository>, v: Selector) returns (matches: seq<Repository>)
    ensures |matches| == 1 <==> Unique(fold, repositories, v)
    ensures forall r :: r in matches <==> r in repositories && Selects(fold, v, r)
  {
    matches := [];
    ghost var origin: seq<nat> := [];
    for i := 0 to |repositories|
      invariant Found(fold, repositories, v, i, matches, origin)
      invariant forall r :: r in matches <==> r in repositories[..i] && Selects(fold, v, r)
    {
      var matched := match v
                     case ById(id) => id == repositories[i].id
                     case ByName(name) => fold(name) == fold(repositories[i].name);
      if matched {
        matches := matches + [repositories[i]];
        origin := origin + [i];
      }
    }
    assert repositories[..|repositories|] == repositories;
    OneMatchIsUnique(fold, repositories, v, matches, origin);
    if Unique(fold, repositories, v) {
      UniqueIsOneMatch(fold, repositories, v, matches, origin);
    }
  }

  /** The ids of the repositories that some value selects. */
  ghost predicate DenotesSelected(ids: seq<nat>, fold: Folding, repositories: seq<Repository>, values: seq<Selector>) {
    forall id :: id in ids <==> exists r <- repositories :: SelectedBy(fold, values, r) && Narrow(r.id) == id
  }

  /** repositoryFilterIDs */
  method RepositoryFilterIds(fold: Folding, repositories: seq<Repository>, values: seq<Selector>)
    returns (r: Result<seq<nat>>)
    ensures r.Ok? <==> forall v <- values :: Unique(fold, repositories, v)
    ensures r.Ok? ==> DenotesSelected(r.value, fold, repositories, values) && NoDuplicates(r.value)
    ensures r.Ok? ==> (r.value == [] <==> values == [])
    ensures !r.Ok? ==> r.NotUnique? && r.selector in values && !Unique(fold, repositories, r.selector)
  {
    if values == [] {
      return Ok([]);
    }
    var output: seq<nat> := [];
    for i := 0 to |values|
      invariant forall v <- values[..i] :: Unique(fold, repositories, v)
      invariant DenotesSelected(output, fold, repositories, values[..i])
      invariant i > 0 ==> output != []
    {
      var matches := MatchesOf(fold, repositories, values[i]);
      if |matches| != 1 {
        return NotUnique(values[i]);
      }
      OneMoreValue(fold, repositories, values, i, matches[0], output);
      output := output + [Narrow(matches[0].id)];
    }
    assert values[..|values|] == values;
    assert output[0] in output;
    output := UnionIds(output, []);
    return Ok(output);
  }

  lemma OneMoreValue(fold: Folding, repositories: seq<Repository>, values: seq<Selector>, i: nat, m: Repository,
                     output: seq<nat>)
    requires i < |values| && DenotesSelected(output, fold, repositories, values[..i])
    requires forall r :: r == m <==> r in repositories && Selects(fold, values[i], r)
    ensures DenotesSelected(output + [Narrow(m.id)], fold, repositories, values[..i + 1])
  {
    assert values[..i + 1] == values[..i] + [values[i]];
    forall r ensures SelectedBy(fold, values[..i + 1], r) <==>
      SelectedBy(fold, values[..i], r) || Selects(fold, values[i], r) {
      assert Selects(fold, values[i], r) ==> values[i] in values[..i + 1];
      if v :| v in values[..i] && Selects(fold, v, r) {
        assert v in values[..i + 1];
      }
    }
    assert m in repositories && SelectedBy(fold, values[..i + 1], m);
  }

  ghost predicate DenotesRevisions(ids: seq<nat>, repositories: seq<Repository>, values: seq<string>) {
    forall id :: id in ids <==> exists r <- repositories :: AtRevision(values, r) && Narrow(r.id) == id
  }

  lemma OneMoreRevision(repositories: seq<Repository>, values: seq<string>, i: nat, output: seq<nat>, more: seq<nat>)
    requires i < |values| && DenotesRevisions(output, repositories, values[..i])
    requires forall id :: id in more <==> exists r <- repositories :: HasRevision(values[i], r) && Narrow(r.id) == id
    ensures DenotesRevisions(output + more, repositories, values[..i + 1])
  {
    assert values[..i + 1] == values[..i] + [values[i]];
    forall r ensures AtRevision(values[..i + 1], r) <==> AtRevision(values[..i], r) || HasRevision(values[i], r) {
      assert HasRevision(values[i], r) ==> values[i] in values[..i + 1];
      if v :| v in values[..i] && HasRevision(v, r) {
        assert v in values[..i + 1];
      }
    }
  }

  /** The inner loop of revisionFilterIDs. */
  method RevisionMatches(repositories: seq<Repository>, value: string) returns (ids: seq<nat>)
    ensures forall id :: id in ids <==> exists r <- repositories :: HasRevision(value, r) && Narrow(r.id) == id
    ensures ids != [] <==> Indexed(repositories, value)
  {
    ids := [];
    for i := 0 to |repositories|
      invariant forall id :: id in ids <==> exists r <- repositories[..i] :: HasRevision(value, r) && Narrow(r.id) == id
    {
      assert repositories[..i + 1] == repositories[..i] + [repositories[i]];
      var revision := repositories[i].revision;
      if value != "" && revision != "" && value <= revision {
        assert repositories[i] in repositories[..i + 1];
        ids := ids + [Narrow(repositories[i].id)];
      }
    }
    assert repositories[..|repositories|] == repositories;
    assert ids != [] ==> ids[0] in ids;
    assert forall r <- repositories :: HasRevision(value, r) ==> Narrow(r.id) in ids;
  }

  /** revisionFilterIDs */
  method RevisionFilterIds(repositories: seq<Repository>, values: seq<string>) returns (r: Result<seq<nat>>)
    ensures r.Ok? <==> forall v <- values :: Indexed(repositories, v)
    ensures r.Ok? ==> DenotesRevisions(r.value, repositories, values) && NoDuplicates(r.value)
    ensures r.Ok? ==> (r.value == [] <==> values == [])
    ensures !r.Ok? ==> r.NotIndexed? && r.revision in values && !Indexed(repositories, r.revision)
  {
    if values == [] {
      return Ok([]);
    }
    var output: seq<nat> := [];
    for i := 0 to |values|
      invariant forall v <- values[..i] :: Indexed(repositories, v)
      invariant DenotesRevisions(output, repositories, values[..i])
      invariant i > 0 ==> output != []
    {
      var ids := RevisionMatches(repositories, values[i]);
      if ids == [] {
        return NotIndexed(values[i]);
      }
      OneMoreRevision(repositories, values, i, output, ids);
      output := output + ids;
    }
    assert values[..|values|] == values;
    assert output[0] in output;
    output := UnionIds(output, []);
    return Ok(output);
  }

  /** intersectOptionalIDs: an empty list stands for an absent filter. */
  method IntersectOptionalIds(left: seq<nat>, right: seq<nat>) returns (output: seq<nat>)
    ensures forall id :: id in output <==>
              (left != [] || right != []) && (left != [] ==> id in left) && (right != [] ==> id in right)
  {
    if left == [] {
      return right;
    }
    if right == [] {
      return left;
    }
    output := [];
    for i := 0 to |left|
      invariant forall id :: id in output <==> id in left[..i] && id in right
    {
      assert left[..i + 1] == left[..i] + [left[i]];
      if left[i] in right {
        output := output + [left[i]];
      }
    }
    assert left[..|left|] == left;
  }

  // ---------------------------------------------------------------- compiling the filters

  datatype Compiled = Compiled(allow: seq<nat>, limited: bool, deny: seq<nat>)

  /** The filters of a query: selectors and revisions, asked for and excluded. */
  datatype Filters = Filters(repositories: seq<Selector>, notRepositories: seq<Selector>,
                             revisions: seq<string>, notRevisions: seq<string>)

  predicate Wanted(fold: Folding, f: Filters, r: Repository) {
    && (f.repositories != [] ==> SelectedBy(fold, f.repositories, r))
    && (f.revisions != [] ==> AtRevision(f.revisions, r))
  }

  predicate Unwanted(fold: Folding, f: Filters, r: Repository) {
    SelectedBy(fold, f.notRepositories, r) || AtRevision(f.notRevisions, r)
  }

  /** Every selector names one visible repository and every revision at least one. */
  predicate Resolvable(fold: Folding, repositories: seq<Repository>, f: Filters) {
    && (forall v <- f.repositories + f.notRepositories :: Unique(fold, repositories, v))
    && (forall v <- f.revisions + f.notRevisions :: Indexed(repositories, v))
  }

  /** No two visible repositories share a narrowed id. */
  predicate NarrowsApart(repositories: seq<Repository>) {
    forall r, s | r in repositories && s in repositories && Narrow(r.id) == Narrow(s.id) :: r == s
  }

  /** Ids are unique: they are the primary key of the repository table. */
  predicate UniqueIds(repositories: seq<Repository>) {
    forall i, j | 0 <= i < |repositories| && 0 <= j < |repositories| &&
      repositories[i].id == repositories[j].id :: i == j
  }

  /** The ids single out the selected repositories. */
  ghost predicate SingleOut(ids: seq<nat>, fold: Folding, repositories: seq<Repository>, values: seq<Selector>) {
    forall r <- repositories :: Narrow(r.id) in ids <==> SelectedBy(fold, values, r)
  }

  /** Whatever selectors a query uses, their ids single out what they select: this is so exactly
      if no two visible repositories narrow to one id. */
  lemma NarrowingIsExact(fold: Folding, repositories: seq<Repository>)
    requires UniqueIds(repositories)
    ensures NarrowsApart(repositories) <==>
            forall values, ids | (forall v <- values :: Unique(fold, repositories, v)) &&
              DenotesSelected(ids, fold, repositories, values) ::
              SingleOut(ids, fold, repositories, values)
  {
    if !NarrowsApart(repositories) {
      var r, s :| r in repositories && s in repositories && Narrow(r.id) == Narrow(s.id) && r != s;
      SharedIdMisleads(fold, repositories, r, s);
    }
  }

  lemma SharedIdMisleads(fold: Folding, repositories: seq<Repository>, r: Repository, s: Repository)
    requires UniqueIds(repositories) && r in repositories && s in repositories
    requires Narrow(r.id) == Narrow(s.id) && r != s
    ensures var values, ids := [ById(r.id)], [Narrow(r.id)];
            && (forall v <- values :: Unique(fold, repositories, v)) && DenotesSelected(ids, fold, repositories, values)
            && !SingleOut(ids, fold, repositories, values)
  {
    var values := [ById(r.id)];
    var i: nat :| i < |repositories| && repositories[i] == r;
    var j: nat :| j < |repositories| && repositories[j] == s;
    assert Selects(fold, ById(r.id), repositories[i]);
    forall t ensures SelectedBy(fold, values, t) <==> t.id == r.id {
      assert values[0] in values;
    }
    assert forall t <- repositories :: t.id == r.id ==> t == r;
  }

  /** The ids that the filters allow: both kinds of filter intersect on narrowed ids. */
  ghost predicate Allows(fold: Folding, repositories: seq<Repository>, f: Filters, id: nat) {
    && (f.repositories != [] ==> exists r <- repositories :: SelectedBy(fold, f.repositories, r) && Narrow(r.id) == id)
    && (f.revisions != [] ==> exists r <- repositories :: AtRevision(f.revisions, r) && Narrow(r.id) == id)
  }

  /** The repository part of compileQueryFilters.  An intersection that comes out empty still limits. */
  method CompileQueryFilters(fold: Folding, repositories: seq<Repository>, f: Filters) returns (r: Result<Compiled>)
    ensures r.Ok? <==> Resolvable(fold, repositories, f)
    ensures r.Ok? ==> (r.value.limited <==> f.repositories != [] || f.revisions != [])
    ensures r.Ok? && r.value.limited ==> forall id :: id in r.value.allow <==> Allows(fold, repositories, f, id)
    ensures r.Ok? ==> forall id :: id in r.value.deny <==>
            exists s <- repositories :: Unwanted(fold, f, s) && Narrow(s.id) == id
    ensures r.Ok? && NarrowsApart(repositories) ==> forall s <- repositories ::
              && (r.value.limited ==> (Narrow(s.id) in r.value.allow <==> Wanted(fold, f, s)))
              && (Narrow(s.id) in r.value.deny <==> Unwanted(fold, f, s))
  {
    var repositoryPositive := RepositoryFilterIds(fold, repositories, f.repositories);
    if !repositoryPositive.Ok? {
      assert repositoryPositive.selector in f.repositories + f.notRepositories;
      return NotUnique(repositoryPositive.selector);
    }
    var revisionPositive := RevisionFilterIds(repositories, f.revisions);
    if !revisionPositive.Ok? {
      assert revisionPositive.revision in f.revisions + f.notRevisions;
      return NotIndexed(revisionPositive.revision);
    }
    var allow := IntersectOptionalIds(repositoryPositive.value, revisionPositive.value);
    var limited := |f.repositories| > 0 || |f.revisions| > 0;
    var repositoryNegative := RepositoryFilterIds(fold, repositories, f.notRepositories);
    if !repositoryNegative.Ok? {
      assert repositoryNegative.selector in f.repositories + f.notRepositories;
      return NotUnique(repositoryNegative.selector);
    }
    var revisionNegative := RevisionFilterIds(repositories, f.notRevisions);
    if !revisionNegative.Ok? {
      assert revisionNegative.revision in f.revisions + f.notRevisions;
      return NotIndexed(revisionNegative.revision);
    }
    var deny := UnionIds(repositoryNegative.value, revisionNegative.value);
    return Ok(Compiled(allow, limited, deny));
  }

  // ---------------------------------------------------------------- restricting a search

  predicate Accepts(allowed: seq<nat>, allowedActive: bool, denied: seq<nat>, id: nat) {
    id !in denied && (allowedActive ==> id in allowed)
  }

  function Acceptor(allowed: seq<nat>, allowedActive: bool, denied: seq<nat>): nat -> bool {
    (id: nat) => Accepts(allowed, allowedActive, denied, id)
  }

  /** Those of the first n ids that are accepted. */
  function AcceptedIds(ids: seq<nat>, n: nat, accept: nat -> bool): (r: seq<nat>)
    requires n <= |ids|
    ensures |r| <= n
  {
    if n == 0 then [] else AcceptedIds(ids, n - 1, accept) + if accept(ids[n - 1]) then [ids[n - 1]] else []
  }

  function AcceptedScopes(scopes: seq<Scope>, n: nat, accept: nat -> bool): (r: seq<Scope>)
    requires n <= |scopes|
    ensures |r| <= n
  {
    if n == 0 then []
    else AcceptedScopes(scopes, n - 1, accept) + if accept(scopes[n - 1].repositoryId) then [scopes[n - 1]] else []
  }

  datatype Restriction = Restriction(base: seq<nat>, scopes: seq<Scope>, empty: bool)

  /** applyQueryRepositoryFilters on values. */
  function Restrict(base: seq<nat>, scopes: seq<Scope>, allowed: seq<nat>, allowedActive: bool,
                    denied: seq<nat>): Restriction {
    var accept := Acceptor(allowed, allowedActive, denied);
    if scopes != [] then
      var filtered := AcceptedScopes(scopes, |scopes|, accept);
      Restriction(base, filtered, filtered == [])
    else if base != [] then
      var filtered := AcceptedIds(base, |base|, accept);
      Restriction(filtered, scopes, filtered == [])
    else if allowedActive then
      var filtered := AcceptedIds(allowed, |allowed|, accept);
      Restriction(filtered, scopes, filtered == [])
    else Restriction(base, scopes, false)
  }

  lemma {:induction false} AcceptedIdsAre(ids: seq<nat>, n: nat, accept: nat -> bool)
    requires n <= |ids|
    ensures forall id :: id in AcceptedIds(ids, n, accept) <==> id in ids[..n] && accept(id)
  {
    if n > 0 {
      AcceptedIdsAre(ids, n - 1, accept);
      assert ids[..n] == ids[..n - 1] + [ids[n - 1]];
    }
  }

  lemma {:induction false} AcceptedScopesAre(scopes: seq<Scope>, n: nat, accept: nat -> bool)
    requires n <= |scopes|
    ensures forall s :: s in AcceptedScopes(scopes, n, accept) <==> s in scopes[..n] && accept(s.repositoryId)
  {
    if n > 0 {
      AcceptedScopesAre(scopes, n - 1, accept);
      assert scopes[..n] == scopes[..n - 1] + [scopes[n - 1]];
    }
  }

  /** The lists denote these ids: an empty list does not restrict. */
  predicate Denotes(base: seq<nat>, scopes: seq<Scope>, id: nat) {
    (base != [] ==> id in base) && (scopes != [] ==> exists s <- scopes :: s.repositoryId == id)
  }

  /** What the search engine is given: base, scopes and the excluded ids, in conjunction. */
  predicate EngineAdmits(base: seq<nat>, scopes: seq<Scope>, denied: seq<nat>, id: nat) {
    Denotes(base, scopes, id) && id !in denied
  }

  /** The restriction is exact: what the engine admits is what was requested, within what is allowed,
      without what is denied; and when the restriction is empty nothing remains. */
  lemma RestrictIsExact(base: seq<nat>, scopes: seq<Scope>, allowed: seq<nat>, allowedActive: bool, denied: seq<nat>,
                        id: nat)
    ensures var r := Restrict(base, scopes, allowed, allowedActive, denied);
            var meant := Denotes(base, scopes, id) && Accepts(allowed, allowedActive, denied, id);
            && (!r.empty ==> (EngineAdmits(r.base, r.scopes, denied, id) <==> meant))
            && (r.empty ==> !meant)
  {
    var accept := Acceptor(allowed, allowedActive, denied);
    AcceptedScopesAre(scopes, |scopes|, accept);
    AcceptedIdsAre(base, |base|, accept);
    AcceptedIdsAre(allowed, |allowed|, accept);
    assert scopes[..|scopes|] == scopes && base[..|base|] == base && allowed[..|allowed|] == allowed;
  }

  /** An active filter is never mistaken for an absent one. */
  lemma ActiveFilterRestricts(base: seq<nat>, scopes: seq<Scope>, allowed: seq<nat>, denied: seq<nat>)
    ensures var r := Restrict(base, scopes, allowed, true, denied);
            !r.empty ==> r.base != [] || r.scopes != []
  {
  }

  /** Base and scopes alone say what is meant, without the engine's exclusion, exactly if there was a list to
      filter or nothing was denied. */
  lemma DenialNeedsTheEngine(base: seq<nat>, scopes: seq<Scope>, allowed: seq<nat>, allowedActive: bool,
                             denied: seq<nat>)
    requires !Restrict(base, scopes, allowed, allowedActive, denied).empty
    ensures var r := Restrict(base, scopes, allowed, allowedActive, denied);
            (forall id: nat :: Denotes(r.base, r.scopes, id) <==>
                               Denotes(base, scopes, id) && Accepts(allowed, allowedActive, denied, id)) <==>
            (scopes != [] || base != [] || allowedActive || denied == [])
  {
    var accept := Acceptor(allowed, allowedActive, denied);
    AcceptedScopesAre(scopes, |scopes|, accept);
    AcceptedIdsAre(base, |base|, accept);
    AcceptedIdsAre(allowed, |allowed|, accept);
    assert scopes[..|scopes|] == scopes && base[..|base|] == base && allowed[..|allowed|] == allowed;
    var r := Restrict(base, scopes, allowed, allowedActive, denied);
    if scopes != [] || base != [] || allowedActive || denied == [] {
      forall id: nat ensures Denotes(r.base, r.scopes, id) <==>
        Denotes(base, scopes, id) && Accepts(allowed, allowedActive, denied, id) {
        RestrictIsExact(base, scopes, allowed, allowedActive, denied, id);
      }
    } else {
      assert Denotes(r.base, r.scopes, denied[0]);
    }
  }

  datatype Plan = Plan(restriction: Restriction, deny: seq<nat>)

  /** A search: the filters of the query are compiled and restrict what the request names.  With ids that narrow
      apart, the engine then admits exactly the visible repositories that were requested, are
      wanted and are not unwanted. */
  method PlanSearch(fold: Folding, repositories: seq<Repository>, f: Filters, base: seq<nat>, scopes: seq<Scope>)
    returns (r: Result<Plan>)
    ensures r.Ok? <==> Resolvable(fold, repositories, f)
    ensures r.Ok? && NarrowsApart(repositories) ==> forall s <- repositories ::
              var meant := Denotes(base, scopes, Narrow(s.id)) && Wanted(fold, f, s) && !Unwanted(fold, f, s);
              var plan := r.value.restriction;
              if plan.empty then !meant else EngineAdmits(plan.base, plan.scopes, r.value.deny, Narrow(s.id)) <==> meant
  {
    var compiled := CompileQueryFilters(fold, repositories, f);
    if !compiled.Ok? {
      return if compiled.NotUnique? then NotUnique(compiled.selector) else NotIndexed(compiled.revision);
    }
    var c := compiled.value;
    var restriction := Restrict(base, scopes, c.allow, c.limited, c.deny);
    forall s <- repositories | NarrowsApart(repositories)
      ensures Accepts(c.allow, c.limited, c.deny, Narrow(s.id)) <==> Wanted(fold, f, s) && !Unwanted(fold, f, s)
    {
    }
    forall id ensures (!restriction.empty ==> (EngineAdmits(restriction.base, restriction.scopes, c.deny, id) <==>
                                               Denotes(base, scopes, id) && Accepts(c.allow, c.limited, c.deny, id)))
                   && (restriction.empty ==> !(Denotes(base, scopes, id) && Accepts(c.allow, c.limited, c.deny, id)))
    {
      RestrictIsExact(base, scopes, c.allow, c.limited, c.deny, id);
    }
    return Ok(Plan(restriction, c.deny));
  }

  // ---------------------------------------------------------------- in place

  /** A slice: the first elements of a buffer. */
  datatype Slice<T> = Slice(buffer: array<T>, length: nat)

  ghost predicate Holds<T>(slice: Slice<T>, list: seq<T>)
    reads slice.buffer
  {
    slice.length == |list| <= slice.buffer.Length && forall i | 0 <= i < slice.length :: slice.buffer[i] == list[i]
  }

  method AcceptIds(ids: Slice<nat>, accept: nat -> bool, ghost was: seq<nat>) returns (filtered: Slice<nat>)
    requires Holds(ids, was)
    modifies ids.buffer
    ensures filtered.buffer == ids.buffer && Holds(filtered, AcceptedIds(was, |was|, accept))
  {
    filtered := ids.(length := 0);
    for i := 0 to ids.length
      invariant filtered.buffer == ids.buffer && filtered.length <= i
      invariant forall j | i <= j < ids.length :: ids.buffer[j] == was[j]
      invariant Holds(filtered, AcceptedIds(was, i, accept))
    {
      if accept(ids.buffer[i]) {
        filtered.buffer[filtered.length] := ids.buffer[i];
        filtered := filtered.(length := filtered.length + 1);
      }
    }
  }

  method AcceptScopes(scopes: Slice<Scope>, accept: nat -> bool, ghost was: seq<Scope>) returns (filtered: Slice<Scope>)
    requires Holds(scopes, was)
    modifies scopes.buffer
    ensures filtered.buffer == scopes.buffer && Holds(filtered, AcceptedScopes(was, |was|, accept))
  {
    filtered := scopes.(length := 0);
    for i := 0 to scopes.length
      invariant filtered.buffer == scopes.buffer && filtered.length <= i
      invariant forall j | i <= j < scopes.length :: scopes.buffer[j] == was[j]
      invariant Holds(filtered, AcceptedScopes(was, i, accept))
    {
      if accept(scopes.buffer[i].repositoryId) {
        filtered.buffer[filtered.length] := scopes.buffer[i];
        filtered := filtered.(length := filtered.length + 1);
      }
    }
  }

  /** A new slice for the accepted ids. */
  method AllowedOnly(allowed: seq<nat>, accept: nat -> bool) returns (filtered: Slice<nat>)
    ensures fresh(filtered.buffer) && Holds(filtered, AcceptedIds(allowed, |allowed|, accept))
  {
    var buffer := new nat[|allowed|];
    filtered := Slice(buffer, 0);
    for i := 0 to |allowed|
      invariant filtered.buffer == buffer && filtered.length <= i
      invariant Holds(filtered, AcceptedIds(allowed, i, accept))
    {
      if accept(allowed[i]) {
        buffer[filtered.length] := allowed[i];
        filtered := filtered.(length := filtered.length + 1);
      }
    }
  }

  /** applyQueryRepositoryFilters: it compacts the slices it is given. */
  method ApplyQueryRepositoryFilters(base: Slice<nat>, scopes: Slice<Scope>, allowed: seq<nat>, allowedActive: bool,
                                     denied: seq<nat>, ghost wasBase: seq<nat>, ghost wasScopes: seq<Scope>)
    returns (base': Slice<nat>, scopes': Slice<Scope>, empty: bool)
    requires Holds(base, wasBase) && Holds(scopes, wasScopes)
    modifies base.buffer, scopes.buffer
    ensures var r := Restrict(wasBase, wasScopes, allowed, allowedActive, denied);
            Holds(base', r.base) && Holds(scopes', r.scopes) && empty == r.empty
  {
    var accept := Acceptor(allowed, allowedActive, denied);
    base', scopes' := base, scopes;
    if scopes.length > 0 {
      scopes' := AcceptScopes(scopes, accept, wasScopes);
      empty := scopes'.length == 0;
    } else if base.length > 0 {
      base' := AcceptIds(base, accept, wasBase);
      empty := base'.length == 0;
    } else if allowedActive {
      base' := AllowedOnly(allowed, accept);
      empty := base'.length == 0;
    } else {
      empty := false;
    }
  }
}
