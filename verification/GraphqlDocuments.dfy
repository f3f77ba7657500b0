/**
 * The part of a GraphQL document the server's own rules read: selection sets, the
 * fragments they spread, and the tree of fields they stand for once every spread is
 * replaced by what it names (GraphQL specification, October 2021, sections 2.8 and 5.5.2.2).
 */
module GraphqlDocuments {
  import opened Common
  import opened Graphs

  /** A field with no selection set of its own has an empty `body`. */
  datatype Selection =
    | Field(name: Key, alias: Option<Key>, body: seq<Selection>)
    | InlineFragment(body: seq<Selection>)
    | Spread(fragment: Key)

  type Fragments = map<Key, seq<Selection>>

  /** The fragment names a walk carries with it, and guards itself by. */
  class NameSet {
    var names: set<Key>

    constructor ()
      ensures names == {}
    {
      names := {};
    }
  }

  /** One field of the response, under the key it is answered at. */
  datatype Tree = Tree(name: Key, responseKey: Key, children: seq<Tree>)

  function ResponseKey(s: Selection): Key
    requires s.Field?
  {
    if s.alias.Some? then s.alias.value else s.name
  }

  /** Every fragment a selection set names, however deep. */
  function SpreadsIn(selections: seq<Selection>): set<Key>
    decreases selections, 0
  {
    if selections == [] then {} else SpreadsIn(selections[..|selections| - 1]) + SpreadsOf(selections[|selections| - 1])
  }

  function SpreadsOf(s: Selection): set<Key>
    decreases s, 1
  {
    match s
    case Field(_, _, body) => SpreadsIn(body)
    case InlineFragment(body) => SpreadsIn(body)
    case Spread(fragment) => {fragment}
  }

  /** Which fragments each fragment's own definition names. */
  function FragmentGraph(fragments: Fragments): Graph {
    map f | f in fragments :: SpreadsIn(fragments[f])
  }

  /** No fragment leads back to itself: the rule of section 5.5.2.2. */
  ghost predicate NoFragmentCycle(fragments: Fragments) {
    !Cyclic(FragmentGraph(fragments))
  }

  ghost predicate Below(spreads: set<Key>, fragments: Fragments, rank: map<Key, nat>, bound: nat) {
    Numbering(FragmentGraph(fragments), rank) && forall k :: k in spreads && k in fragments ==> rank[k] < bound
  }

  lemma BodyBelow(fragments: Fragments, rank: map<Key, nat>, f: Key)
    requires Numbering(FragmentGraph(fragments), rank) && f in fragments
    ensures f in rank && Below(SpreadsIn(fragments[f]), fragments, rank, rank[f])
  {
    forall k | k in SpreadsIn(fragments[f]) && k in fragments ensures rank[k] < rank[f] {
      assert Edge(FragmentGraph(fragments), f, k);
    }
  }

  /** The response a selection set asks for, every spread replaced wherever it is used. */
  ghost function Inline(selections: seq<Selection>, fragments: Fragments, rank: map<Key, nat>, bound: nat): seq<Tree>
    requires Below(SpreadsIn(selections), fragments, rank, bound)
    decreases bound, selections, 0
  {
    if selections == [] then []
    else Inline(selections[..|selections| - 1], fragments, rank, bound) + InlineOne(selections[|selections| - 1], fragments, rank, bound)
  }

  ghost function InlineOne(s: Selection, fragments: Fragments, rank: map<Key, nat>, bound: nat): seq<Tree>
    requires Below(SpreadsOf(s), fragments, rank, bound)
    decreases bound, s, 1
  {
    match s
    case Field(name, _, body) => [Tree(name, ResponseKey(s), Inline(body, fragments, rank, bound))]
    case InlineFragment(body) => Inline(body, fragments, rank, bound)
    case Spread(f) =>
      if f !in fragments then []
      else BodyBelow(fragments, rank, f); Inline(fragments[f], fragments, rank, rank[f])
  }

  /** A field is answered under its alias where it has one, and otherwise under its own name. */
  lemma AnsweredUnderItsAlias(name: Key, alias: Key, body: seq<Selection>, fragments: Fragments, rank: map<Key, nat>, bound: nat)
    requires Below(SpreadsIn(body), fragments, rank, bound)
    ensures InlineOne(Field(name, Some(alias), body), fragments, rank, bound)
      == [Tree(name, alias, Inline(body, fragments, rank, bound))]
    ensures InlineOne(Field(name, None, body), fragments, rank, bound) == [Tree(name, name, Inline(body, fragments, rank, bound))]
  {
  }

  /** A numbering of the fragments, and a number above all of them. */
  ghost predicate RankedBelow(fragments: Fragments, rank: map<Key, nat>, bound: nat) {
    Numbering(FragmentGraph(fragments), rank) && forall k :: k in rank ==> rank[k] < bound
  }

  lemma RankExists(fragments: Fragments)
    requires NoFragmentCycle(fragments)
    ensures exists rank, bound :: RankedBelow(fragments, rank, bound)
  {
    AcyclicIffNumbered(FragmentGraph(fragments));
    var rank :| Numbering(FragmentGraph(fragments), rank);
    var bound := UpperBound(rank);
    assert RankedBelow(fragments, rank, bound);
  }

  /** The inlined response of a whole document without fragment cycles. */
  ghost function Inlined(selections: seq<Selection>, fragments: Fragments): seq<Tree>
    requires NoFragmentCycle(fragments)
  {
    RankExists(fragments);
    var rank, bound :| RankedBelow(fragments, rank, bound);
    Inline(selections, fragments, rank, bound)
  }

  /** Inlining does not depend on how the fragments happen to be numbered. */
  lemma {:induction false} InlineUnique(
    selections: seq<Selection>, fragments: Fragments,
    r1: map<Key, nat>, b1: nat, r2: map<Key, nat>, b2: nat)
    requires Below(SpreadsIn(selections), fragments, r1, b1) && Below(SpreadsIn(selections), fragments, r2, b2)
    ensures Inline(selections, fragments, r1, b1) == Inline(selections, fragments, r2, b2)
    decreases b1, selections
  {
    if selections != [] {
      var last := selections[|selections| - 1];
      InlineUnique(selections[..|selections| - 1], fragments, r1, b1, r2, b2);
      assert SpreadsOf(last) <= SpreadsIn(selections);
      match last
      case Field(_, _, body) => InlineUnique(body, fragments, r1, b1, r2, b2);
      case InlineFragment(body) => InlineUnique(body, fragments, r1, b1, r2, b2);
      case Spread(f) =>
        if f in fragments {
          BodyBelow(fragments, r1, f);
          BodyBelow(fragments, r2, f);
          InlineUnique(fragments[f], fragments, r1, r1[f], r2, r2[f]);
        }
    }
  }
}
