/** The fields a selection set asks for at its own level, each fragment entered once (src/graphql/validation.ts). */
module CollectedFields {
  import opened Common
  import opened Graphs
  import opened GraphqlDocuments

  // ---- What sits at the level of a selection set, through inline fragments only ----

  /** Its fields, in order, each as often as it is written. */
  function TopFields(selections: seq<Selection>): seq<Selection>
    decreases selections, 0
  {
    if selections == [] then [] else TopFields(selections[..|selections| - 1]) + TopFieldsOf(selections[|selections| - 1])
  }

  function TopFieldsOf(s: Selection): seq<Selection>
    decreases s, 1
  {
    match s
    case Field(_, _, _) => [s]
    case InlineFragment(body) => TopFields(body)
    case Spread(_) => []
  }

  function TopSpreads(selections: seq<Selection>): set<Key>
    decreases selections, 0
  {
    if selections == [] then {} else TopSpreads(selections[..|selections| - 1]) + TopSpreadsOf(selections[|selections| - 1])
  }

  function TopSpreadsOf(s: Selection): set<Key>
    decreases s, 1
  {
    match s
    case Field(_, _, _) => {}
    case InlineFragment(body) => TopSpreads(body)
    case Spread(fragment) => {fragment}
  }

  function SpreadGraph(fragments: Fragments): Graph {
    map f | f in fragments :: TopSpreads(fragments[f])
  }

  /** Unrestricted expansion from `roots` comes to `f` along the chain `p` of spreads. */
  ghost predicate ReachesBy(fragments: Fragments, roots: set<Key>, p: seq<Key>, f: Key) {
    && p != [] && p[0] in roots && p[0] in fragments && p[|p| - 1] == f
    && Walk(SpreadGraph(fragments), p)
  }

  ghost predicate Reaches(fragments: Fragments, roots: set<Key>, f: Key) {
    exists p :: ReachesBy(fragments, roots, p, f)
  }

  // ---- What expanding once can have entered ----

  ghost predicate Explored(fragments: Fragments, before: set<Key>, after: set<Key>) {
    && before <= after
    && after - before <= fragments.Keys
    && forall f :: f in after - before ==> f in fragments && TopSpreads(fragments[f]) * fragments.Keys <= after
  }

  ghost predicate AllReached(fragments: Fragments, roots: set<Key>, before: set<Key>, after: set<Key>) {
    forall f {:trigger Reaches(fragments, roots, f)} :: f in after - before ==> Reaches(fragments, roots, f)
  }

  /** How often each field is written in the fragments of a list. */
  function FieldsOfEach(fragments: Fragments, entered: seq<Key>): multiset<Selection>
    requires forall f :: f in entered ==> f in fragments
  {
    if entered == [] then multiset{}
    else FieldsOfEach(fragments, entered[..|entered| - 1]) + multiset(TopFields(fragments[entered[|entered| - 1]]))
  }

  /** `entered` lists each fragment between `before` and `after` once. */
  ghost predicate Entered(fragments: Fragments, before: set<Key>, after: set<Key>, entered: seq<Key>) {
    Distinct(entered) && ToSet(entered) == after - before && forall f :: f in entered ==> f in fragments
  }

  /** The fields are those of the selections themselves and of each fragment entered, as often as they are written there. */
  ghost predicate Collected(own: seq<Selection>, fragments: Fragments, entered: seq<Key>, fields: seq<Selection>)
    requires forall f :: f in entered ==> f in fragments
  {
    multiset(fields) == multiset(own) + FieldsOfEach(fragments, entered)
  }

  /**
   * What an expansion that goes from `before` visited to `after` comes to: whatever was visited stays
   * visited; everything newly visited is reachable from here, and all that it spreads has been visited
   * too; and the fields of each are collected once.
   */
  ghost predicate Expanded(
    fragments: Fragments, own: seq<Selection>, spreads: set<Key>, before: set<Key>, after: set<Key>,
    entered: seq<Key>, fields: seq<Selection>) {
    && Explored(fragments, before, after) && spreads * fragments.Keys <= after
    && AllReached(fragments, spreads, before, after)
    && Entered(fragments, before, after, entered) && Collected(own, fragments, entered, fields)
  }

  lemma ReachesFromMore(fragments: Fragments, some: set<Key>, more: set<Key>, before: set<Key>, after: set<Key>)
    requires some <= more && AllReached(fragments, some, before, after)
    ensures AllReached(fragments, more, before, after)
  {
    forall f | f in after - before ensures Reaches(fragments, more, f) {
      assert Reaches(fragments, some, f);
      var p :| ReachesBy(fragments, some, p, f);
      assert ReachesBy(fragments, more, p, f);
    }
  }

  lemma ReachesThrough(fragments: Fragments, name: Key, before: set<Key>, after: set<Key>)
    requires name in fragments && AllReached(fragments, TopSpreads(fragments[name]), before + {name}, after)
    ensures AllReached(fragments, {name}, before, after)
  {
    forall f | f in after - before ensures Reaches(fragments, {name}, f) {
      if f == name {
        assert ReachesBy(fragments, {name}, [name], name);
      } else {
        assert f in after - (before + {name}) && Reaches(fragments, TopSpreads(fragments[name]), f);
        var p :| ReachesBy(fragments, TopSpreads(fragments[name]), p, f);
        var q := [name] + p;
        assert Edge(SpreadGraph(fragments), name, p[0]);
        assert ReachesBy(fragments, {name}, q, f);
      }
    }
  }

  /** Expands a selection set, entering each fragment once over the whole call. */
  method CollectFields(selections: seq<Selection>, fragments: Fragments, visited: NameSet)
    returns (fields: seq<Selection>, ghost entered: seq<Key>)
    modifies visited
    ensures Expanded(fragments, TopFields(selections), TopSpreads(selections), old(visited.names), visited.names, entered, fields)
    decreases fragments.Keys - visited.names, selections
  {
    fields, entered := [], [];
    ghost var start := visited.names;
    for i := 0 to |selections|
      invariant Expanded(fragments, TopFields(selections[..i]), TopSpreads(selections[..i]), start, visited.names, entered, fields)
    {
      ghost var before, had, earlier := visited.names, fields, entered;
      assert selections[..i + 1][..i] == selections[..i];
      var more: seq<Selection>;
      ghost var newly: seq<Key>;
      more, newly := CollectOne(selections[i], fragments, visited);
      fields, entered := fields + more, entered + newly;
      OneAfterAnother(
        fragments, TopFields(selections[..i]), TopFieldsOf(selections[i]), TopSpreads(selections[..i]), TopSpreadsOf(selections[i]),
        start, before, visited.names, earlier, newly, had, more);
    }
    assert selections[..|selections|] == selections;
  }

  method CollectOne(s: Selection, fragments: Fragments, visited: NameSet)
    returns (fields: seq<Selection>, ghost entered: seq<Key>)
    modifies visited
    ensures Expanded(fragments, TopFieldsOf(s), TopSpreadsOf(s), old(visited.names), visited.names, entered, fields)
    decreases fragments.Keys - visited.names, s
  {
    fields, entered := [], [];
    match s {
      case Field(_, _, _) =>
        fields := [s];
      case InlineFragment(body) =>
        fields, entered := CollectFields(body, fragments, visited);
      case Spread(name) =>
        if name !in visited.names && name in fragments {
          ghost var before := visited.names;
          visited.names := visited.names + {name};
          fields, entered := CollectFields(fragments[name], fragments, visited);
          ReachesThrough(fragments, name, before, visited.names);
          EnteredThrough(fragments, name, before, visited.names, entered);
          entered := [name] + entered;
        }
    }
  }

  lemma {:induction false} EachOfBoth(fragments: Fragments, a: seq<Key>, b: seq<Key>)
    requires forall f :: f in a + b ==> f in fragments
    ensures FieldsOfEach(fragments, a + b) == FieldsOfEach(fragments, a) + FieldsOfEach(fragments, b)
  {
    if b == [] {
      assert a + b == a;
    } else {
      assert (a + b)[..|a + b| - 1] == a + b[..|b| - 1];
      EachOfBoth(fragments, a, b[..|b| - 1]);
    }
  }

  lemma EnteredThrough(fragments: Fragments, name: Key, before: set<Key>, after: set<Key>, entered: seq<Key>)
    requires name in fragments && name !in before && before + {name} <= after
    requires Entered(fragments, before + {name}, after, entered)
    ensures Entered(fragments, before, after, [name] + entered)
    ensures FieldsOfEach(fragments, [name] + entered) == multiset(TopFields(fragments[name])) + FieldsOfEach(fragments, entered)
  {
    assert forall f :: f in entered ==> f in ToSet(entered);
    assert ToSet([name] + entered) == {name} + ToSet(entered);
    EachOfBoth(fragments, [name], entered);
    assert [name][..0] == [];
  }

  lemma JoinReached(fragments: Fragments, a: set<Key>, b: set<Key>, s0: set<Key>, s1: set<Key>, s2: set<Key>)
    requires AllReached(fragments, a, s0, s1) && AllReached(fragments, b, s1, s2)
    ensures AllReached(fragments, a + b, s0, s2)
  {
    ReachesFromMore(fragments, a, a + b, s0, s1);
    ReachesFromMore(fragments, b, a + b, s1, s2);
    forall f | f in s2 - s0 ensures Reaches(fragments, a + b, f) {
      assert f in s1 - s0 || f in s2 - s1;
    }
  }

  lemma JoinEntered(fragments: Fragments, s0: set<Key>, s1: set<Key>, s2: set<Key>, a: seq<Key>, b: seq<Key>)
    requires s0 <= s1 <= s2 && Entered(fragments, s0, s1, a) && Entered(fragments, s1, s2, b)
    ensures Entered(fragments, s0, s2, a + b)
  {
    forall i, j | 0 <= i < |a| && 0 <= j < |b| ensures a[i] != b[j] {
      assert a[i] in ToSet(a) && b[j] in ToSet(b);
    }
    assert ToSet(a + b) == ToSet(a) + ToSet(b);
  }

  lemma JoinCollected(
    own1: seq<Selection>, own2: seq<Selection>, fragments: Fragments, e1: seq<Key>, e2: seq<Key>,
    f1: seq<Selection>, f2: seq<Selection>)
    requires (forall f :: f in e1 ==> f in fragments) && (forall f :: f in e2 ==> f in fragments)
    requires Collected(own1, fragments, e1, f1) && Collected(own2, fragments, e2, f2)
    ensures Collected(own1 + own2, fragments, e1 + e2, f1 + f2)
  {
    EachOfBoth(fragments, e1, e2);
  }

  lemma OneAfterAnother(
    fragments: Fragments, own1: seq<Selection>, own2: seq<Selection>, spreads1: set<Key>, spreads2: set<Key>,
    s0: set<Key>, s1: set<Key>, s2: set<Key>, e1: seq<Key>, e2: seq<Key>, f1: seq<Selection>, f2: seq<Selection>)
    requires Expanded(fragments, own1, spreads1, s0, s1, e1, f1) && Expanded(fragments, own2, spreads2, s1, s2, e2, f2)
    ensures Expanded(fragments, own1 + own2, spreads1 + spreads2, s0, s2, e1 + e2, f1 + f2)
  {
    JoinReached(fragments, spreads1, spreads2, s0, s1, s2);
    JoinEntered(fragments, s0, s1, s2, e1, e2);
    JoinCollected(own1, own2, fragments, e1, e2, f1, f2);
  }

  lemma {:induction false} ReachedIsVisited(fragments: Fragments, roots: set<Key>, visited: set<Key>, p: seq<Key>, f: Key)
    requires Explored(fragments, {}, visited) && roots * fragments.Keys <= visited
    requires ReachesBy(fragments, roots, p, f)
    ensures f in visited
  {
    if |p| > 1 {
      var q := p[..|p| - 1];
      assert Edge(SpreadGraph(fragments), p[|p| - 2], p[|p| - 1]);
      assert ReachesBy(fragments, roots, q, q[|q| - 1]);
      ReachedIsVisited(fragments, roots, visited, q, q[|q| - 1]);
    }
  }

  /** Each fragment that unrestricted expansion reaches, once. */
  ghost predicate AllEntered(fragments: Fragments, roots: set<Key>, entered: seq<Key>) {
    && Distinct(entered)
    && forall f {:trigger Reaches(fragments, roots, f)} :: Reaches(fragments, roots, f) <==> f in entered && f in fragments
  }

  ghost predicate AllCollected(selections: seq<Selection>, fragments: Fragments, entered: seq<Key>, fields: seq<Selection>) {
    && AllEntered(fragments, TopSpreads(selections), entered) && (forall f :: f in entered ==> f in fragments)
    && Collected(TopFields(selections), fragments, entered, fields)
  }

  /**
   * Entering each fragment once loses nothing and repeats nothing: the fields are those of the selections
   * and of every fragment unrestricted expansion reaches, as often as they are written in each, for any
   * fragments at all, cyclic ones included.
   */
  method AllFields(selections: seq<Selection>, fragments: Fragments) returns (fields: seq<Selection>)
    ensures exists entered :: AllCollected(selections, fragments, entered, fields)
  {
    var visited := new NameSet();
    ghost var entered;
    fields, entered := CollectFields(selections, fragments, visited);
    ghost var roots := TopSpreads(selections);
    forall f ensures Reaches(fragments, roots, f) <==> f in visited.names {
      if Reaches(fragments, roots, f) {
        var p :| ReachesBy(fragments, roots, p, f);
        ReachedIsVisited(fragments, roots, visited.names, p, f);
      }
    }
    assert forall f :: f in entered <==> f in ToSet(entered);
    assert visited.names - {} == visited.names;
    assert AllCollected(selections, fragments, entered, fields);
  }
}
