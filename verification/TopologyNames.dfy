/** The components of a snapshot, and which of them an observed name stands for. */
module TopologyNames {

  datatype Option<+T> = None | Some(value: T)

  type Id = string

  datatype Component = Component(id: Id, name: string, kind: string, repositoryId: int, candidate: bool,
                                 aliases: seq<string>, origins: seq<string>)

  /** Code that is not part of this model: case folding, name and kind normalization, and which kinds of
      components an observed name may stand for. */
  datatype Naming = Naming(lower: string -> string, normalize: string -> string, kindOf: string -> string,
                           canResolve: (string, Component) -> bool)

  /** The component without the places it is known from. */
  function Bare(c: Component): Component {
    c.(origins := [])
  }

  // ---------------------------------------------------------------- ids

  predicate HasComponent(components: seq<Component>, id: Id) {
    exists c <- components :: c.id == id
  }

  /** The component with an id: if several carry it, the last one. */
  function LastOf(components: seq<Component>, id: Id): Option<Component> {
    if components == [] then None
    else
      var n := |components| - 1;
      if components[n].id == id then Some(components[n]) else LastOf(components[..n], id)
  }

  lemma {:induction false} LastIsLast(components: seq<Component>, id: Id)
    ensures LastOf(components, id).Some? <==> HasComponent(components, id)
    ensures LastOf(components, id).Some? ==>
              exists i | 0 <= i < |components| ::
                && components[i] == LastOf(components, id).value && components[i].id == id
                && forall j | i < j < |components| :: components[j].id != id
  {
    if components != [] {
      var n := |components| - 1;
      assert components == components[..n] + [components[n]];
      LastIsLast(components[..n], id);
    }
  }

  lemma {:induction false} LastOfMore(components: seq<Component>, c: Component, id: Id)
    ensures LastOf(components + [c], id) == if c.id == id then Some(c) else LastOf(components, id)
    ensures HasComponent(components + [c], id) <==> HasComponent(components, id) || c.id == id
  {
    assert (components + [c])[..|components|] == components;
    assert c in components + [c];
    if HasComponent(components, id) {
      var d :| d in components && d.id == id;
      assert d in components + [c];
    }
  }

  // ---------------------------------------------------------------- names

  /** The component goes by a name of this normal form. */
  predicate HasName(naming: Naming, c: Component, normalized: string) {
    normalized != "" && exists name <- c.aliases + [c.name] :: naming.normalize(name) == normalized
  }

  predicate IsNamed(naming: Naming, components: seq<Component>, normalized: string, id: Id) {
    exists c <- components :: c.id == id && HasName(naming, c, normalized)
  }

  lemma OneMoreNamed(naming: Naming, components: seq<Component>, c: Component, normalized: string, id: Id)
    ensures IsNamed(naming, components + [c], normalized, id) <==>
            IsNamed(naming, components, normalized, id) || (c.id == id && HasName(naming, c, normalized))
  {
    assert c in components + [c];
    if IsNamed(naming, components, normalized, id) {
      var d :| d in components && d.id == id && HasName(naming, d, normalized);
      assert d in components + [c];
    }
  }

  /** A name of this kind may stand for the component with this id. */
  predicate CanStandFor(naming: Naming, components: seq<Component>, kind: string, id: Id) {
    var last := LastOf(components, id);
    last.Some? && naming.canResolve(kind, Bare(last.value))
  }

  /** All components of the snapshot that an observed name may stand for. */
  ghost function MayMean(naming: Naming, components: seq<Component>, name: string, kind: string): set<Id> {
    set c | c in components && IsNamed(naming, components, naming.normalize(name), c.id) &&
            CanStandFor(naming, components, kind, c.id) :: c.id
  }

  lemma MayMeanIff(naming: Naming, components: seq<Component>, name: string, kind: string, id: Id)
    ensures id in MayMean(naming, components, name, kind) <==>
            IsNamed(naming, components, naming.normalize(name), id) && CanStandFor(naming, components, kind, id)
  {
  }

  /** The id of the component that stands for an observed name only. */
  function RuntimeId(naming: Naming, name: string, kind: string): Id {
    "runtime:" + naming.kindOf(kind) + ":" + naming.normalize(name)
  }

  /** What an observed name stands for: the component of the snapshot that it may stand for, if there is exactly
      one, and otherwise a component of its own. */
  ghost function Meaning(naming: Naming, components: seq<Component>, name: string, kind: string): (id: Id)
    ensures MayMean(naming, components, name, kind) == {id} ||
            (|MayMean(naming, components, name, kind)| != 1 && id == RuntimeId(naming, name, kind))
  {
    var targets := MayMean(naming, components, name, kind);
    if |targets| == 1 then
      var id :| id in targets;
      OnlyOne(targets, id);
      id
    else RuntimeId(naming, name, kind)
  }

  lemma OnlyOne(ids: set<Id>, id: Id)
    requires |ids| == 1 && id in ids
    ensures ids == {id}
  {
    assert |ids - {id}| == 0;
  }

  /** A name that two components may stand for stands for neither, unless one of them is its own. */
  lemma AmbiguousNameIsItsOwn(naming: Naming, components: seq<Component>, name: string, kind: string, a: Id, b: Id)
    requires a != b && a in MayMean(naming, components, name, kind) && b in MayMean(naming, components, name, kind)
    ensures Meaning(naming, components, name, kind) == RuntimeId(naming, name, kind)
  {
    if |MayMean(naming, components, name, kind)| == 1 {
      OnlyOne(MayMean(naming, components, name, kind), a);
    }
  }

  /** A name that exactly one component may stand for stands for that one. */
  lemma UniqueNameIsTheirs(naming: Naming, components: seq<Component>, name: string, kind: string, a: Id)
    requires IsNamed(naming, components, naming.normalize(name), a) && CanStandFor(naming, components, kind, a)
    requires forall b | IsNamed(naming, components, naming.normalize(name), b) &&
                        CanStandFor(naming, components, kind, b) :: a == b
    ensures Meaning(naming, components, name, kind) == a
  {
    assert MayMean(naming, components, name, kind) == {a};
  }

  // ---------------------------------------------------------------- the index of names

  predicate NoRepeats<T(==)>(s: seq<T>) {
    forall i, j | 0 <= i < j < |s| :: s[i] != s[j]
  }

  lemma {:induction false} SizeWithoutRepeats<T>(s: seq<T>, all: set<T>)
    requires NoRepeats(s) && forall x :: x in all <==> x in s
    ensures |all| == |s|
  {
    if s == [] {
      assert all == {};
    } else {
      var n := |s| - 1;
      SizeWithoutRepeats(s[..n], all - {s[n]});
    }
  }

  function TargetsOf(aliasTargets: map<string, seq<Id>>, normalized: string): seq<Id> {
    if normalized in aliasTargets then aliasTargets[normalized] else []
  }

  /** The index lists, once each, exactly the components that go by a name. */
  ghost predicate Indexes(naming: Naming, components: seq<Component>, aliasTargets: map<string, seq<Id>>) {
    forall normalized ::
      && NoRepeats(TargetsOf(aliasTargets, normalized))
      && forall id :: id in TargetsOf(aliasTargets, normalized) <==> IsNamed(naming, components, normalized, id)
  }

  /** The nodes hold the components of the snapshot. */
  ghost predicate Holds(components: seq<Component>, nodes: map<Id, Component>) {
    forall id | LastOf(components, id).Some? :: id in nodes && Bare(nodes[id]) == Bare(LastOf(components, id).value)
  }

  /** What the loop over the candidates leaves decides what the name stands for. */
  lemma CandidatesDecide(naming: Naming, components: seq<Component>, name: string, kind: string, targets: seq<Id>)
    requires NoRepeats(targets)
    requires forall id :: id in targets <==> IsNamed(naming, components, naming.normalize(name), id) &&
                                             CanStandFor(naming, components, kind, id)
    ensures Meaning(naming, components, name, kind) ==
            if |targets| == 1 then targets[0] else RuntimeId(naming, name, kind)
  {
    var all := MayMean(naming, components, name, kind);
    forall id ensures id in all <==> id in targets {
      MayMeanIff(naming, components, name, kind, id);
    }
    SizeWithoutRepeats(targets, all);
    if |targets| == 1 {
      assert targets[0] in all;
    }
  }
}
