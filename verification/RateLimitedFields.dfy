/**
 * Finding every operation the rate-limit policy names in one document (src/graphql/rate-limit.ts).
 *
 * `limited` is the policy: whether it has an allowance for a list of field names. The walk runs
 * at execution, so it may rely on what standard validation has refused: a fragment that leads
 * back to itself, and a spread of a fragment that does not exist.
 */
module RateLimitedFields {
  import opened Common
  import opened GraphqlDocuments

  type Policy = seq<Key> -> bool

  datatype LimitedField = LimitedField(operation: seq<Key>, responsePath: seq<Key>)

  ghost predicate Known(selections: seq<Selection>, fragments: Fragments) {
    SpreadsIn(selections) <= fragments.Keys && forall f :: f in fragments ==> SpreadsIn(fragments[f]) <= fragments.Keys
  }

  ghost predicate Validated(selections: seq<Selection>, fragments: Fragments) {
    NoFragmentCycle(fragments) && Known(selections, fragments)
  }

  // ---- What is found in an inlined response ----

  function LimitedIn(limited: Policy, names: seq<Key>, keys: seq<Key>, t: Tree): seq<LimitedField>
    decreases t, 1
  {
    var operation, path := names + [t.name], keys + [t.responseKey];
    if limited(operation) then [LimitedField(operation, path)] else LimitedInAll(limited, operation, path, t.children)
  }

  function LimitedInAll(limited: Policy, names: seq<Key>, keys: seq<Key>, forest: seq<Tree>): seq<LimitedField>
    decreases forest, 0
  {
    if forest == [] then []
    else LimitedInAll(limited, names, keys, forest[..|forest| - 1]) + LimitedIn(limited, names, keys, forest[|forest| - 1])
  }

  // ---- The walk over the document as written ----

  /** `field` stands for exactly the tree `t`. */
  ghost predicate StandsFor(field: Selection, fragments: Fragments, rank: map<Key, nat>, bound: nat, t: Tree) {
    && field.Field?
    && Known([field], fragments)
    && Below(SpreadsOf(field), fragments, rank, bound)
    && InlineOne(field, fragments, rank, bound) == [t]
  }

  ghost predicate StandForAll(fields: seq<Selection>, fragments: Fragments, rank: map<Key, nat>, bound: nat, forest: seq<Tree>) {
    |fields| == |forest| && forall i :: 0 <= i < |fields| ==> StandsFor(fields[i], fragments, rank, bound, forest[i])
  }

  lemma SpreadsOfOne(s: Selection)
    ensures SpreadsIn([s]) == SpreadsOf(s)
  {
    assert [s][..0] == [];
  }

  lemma StandForAllHigher(fields: seq<Selection>, fragments: Fragments, rank: map<Key, nat>, low: nat, high: nat, forest: seq<Tree>)
    requires low <= high && StandForAll(fields, fragments, rank, low, forest)
    ensures StandForAll(fields, fragments, rank, high, forest)
  {
    forall i | 0 <= i < |fields| ensures StandsFor(fields[i], fragments, rank, high, forest[i]) {
      assert StandsFor(fields[i], fragments, rank, low, forest[i]);
      InlineUnique(fields[i].body, fragments, rank, low, rank, high);
    }
  }

  lemma StandForBoth(
    a: seq<Selection>, b: seq<Selection>, fragments: Fragments, rank: map<Key, nat>, bound: nat, ta: seq<Tree>, tb: seq<Tree>)
    requires StandForAll(a, fragments, rank, bound, ta) && StandForAll(b, fragments, rank, bound, tb)
    ensures StandForAll(a + b, fragments, rank, bound, ta + tb)
  {
  }

  lemma FieldStandsFor(s: Selection, fragments: Fragments, rank: map<Key, nat>, bound: nat)
    requires s.Field? && Known([s], fragments) && Below(SpreadsOf(s), fragments, rank, bound)
    ensures StandForAll([s], fragments, rank, bound, InlineOne(s, fragments, rank, bound))
  {
    var forest := InlineOne(s, fragments, rank, bound);
    assert forest == [forest[0]];
  }

  /** The fields of a selection set, in order, one for each top-level tree of its inlined response. */
  method FieldsIn(selections: seq<Selection>, fragments: Fragments, ghost rank: map<Key, nat>, ghost bound: nat)
    returns (fields: seq<Selection>)
    requires Known(selections, fragments) && Below(SpreadsIn(selections), fragments, rank, bound)
    ensures StandForAll(fields, fragments, rank, bound, Inline(selections, fragments, rank, bound))
    decreases bound, selections
  {
    fields := [];
    for i := 0 to |selections|
      invariant Below(SpreadsIn(selections[..i]), fragments, rank, bound)
      invariant StandForAll(fields, fragments, rank, bound, Inline(selections[..i], fragments, rank, bound))
    {
      var s := selections[i];
      SpreadsOfOne(s);
      SpreadsWithin(selections, i);
      assert selections[..i + 1][..i] == selections[..i];
      var more;
      match s {
        case Field(_, _, _) =>
          more := [s];
          FieldStandsFor(s, fragments, rank, bound);
        case InlineFragment(body) =>
          more := FieldsIn(body, fragments, rank, bound);
        case Spread(name) =>
          BodyBelow(fragments, rank, name);
          more := FieldsIn(fragments[name], fragments, rank, rank[name]);
          StandForAllHigher(more, fragments, rank, rank[name], bound, Inline(fragments[name], fragments, rank, rank[name]));
      }
      StandForBoth(fields, more, fragments, rank, bound,
        Inline(selections[..i], fragments, rank, bound), InlineOne(s, fragments, rank, bound));
      fields := fields + more;
    }
    assert selections[..|selections|] == selections;
  }

  lemma {:induction false} SpreadsWithin(selections: seq<Selection>, i: nat)
    requires i < |selections|
    ensures SpreadsOf(selections[i]) <= SpreadsIn(selections)
    ensures SpreadsIn(selections[..i + 1]) <= SpreadsIn(selections)
  {
    if i < |selections| - 1 {
      var front := selections[..|selections| - 1];
      SpreadsWithin(front, i);
      assert front[..i + 1] == selections[..i + 1];
    } else {
      assert selections[..i + 1] == selections;
    }
  }

  class Finder {
    var found: seq<LimitedField>

    constructor ()
      ensures found == []
    {
      found := [];
    }

    method Walk(
      limited: Policy, node: Selection, names: seq<Key>, keys: seq<Key>, fragments: Fragments,
      ghost rank: map<Key, nat>, ghost bound: nat, ghost t: Tree)
      requires StandsFor(node, fragments, rank, bound, t)
      modifies this
      ensures found == old(found) + LimitedIn(limited, names, keys, t)
      decreases t
    {
      var operationPath := names + [node.name];
      var responsePath := keys + [ResponseKey(node)];
      if limited(operationPath) {
        found := found + [LimitedField(operationPath, responsePath)];
        return;
      }
      SpreadsOfOne(node);
      var children := FieldsIn(node.body, fragments, rank, bound);
      for i := 0 to |children|
        invariant found == old(found) + LimitedInAll(limited, operationPath, responsePath, t.children[..i])
      {
        Walk(limited, children[i], operationPath, responsePath, fragments, rank, bound, t.children[i]);
        assert t.children[..i + 1][..i] == t.children[..i];
      }
      assert t.children[..|t.children|] == t.children;
    }
  }

  /** The same operations at the same places, in the same order, as in the document with every fragment inlined. */
  method LimitedFields(limited: Policy, operation: seq<Selection>, fragments: Fragments) returns (found: seq<LimitedField>)
    requires Validated(operation, fragments)
    ensures found == LimitedInAll(limited, [], [], Inlined(operation, fragments))
  {
    RankExists(fragments);
    ghost var rank, bound :| RankedBelow(fragments, rank, bound) && Inlined(operation, fragments) == Inline(operation, fragments, rank, bound);
    ghost var response := Inlined(operation, fragments);
    var fields := FieldsIn(operation, fragments, rank, bound);
    var finder := new Finder();
    for i := 0 to |fields|
      invariant finder.found == LimitedInAll(limited, [], [], response[..i])
    {
      finder.Walk(limited, fields[i], [], [], fragments, rank, bound, response[i]);
      assert response[..i + 1][..i] == response[..i];
    }
    assert response[..|response|] == response;
    found := finder.found;
  }

  // ---- Every shortest limited path is found, and nothing else ----

  /** Following the positions `trail` down the forest spells `x`. */
  ghost predicate Spells(forest: seq<Tree>, names: seq<Key>, keys: seq<Key>, trail: seq<nat>, x: LimitedField)
    decreases trail
  {
    && trail != [] && trail[0] < |forest|
    && var t := forest[trail[0]];
       var operation, path := names + [t.name], keys + [t.responseKey];
       if |trail| == 1 then x == LimitedField(operation, path) else Spells(t.children, operation, path, trail[1..], x)
  }

  /** Limited, and no shorter part of the way past `from` names is. */
  ghost predicate FirstLimited(limited: Policy, from: nat, operation: seq<Key>) {
    from < |operation| && limited(operation) && forall n :: from < n < |operation| ==> !limited(operation[..n])
  }

  lemma {:induction false} SpellsExtends(forest: seq<Tree>, names: seq<Key>, keys: seq<Key>, trail: seq<nat>, x: LimitedField)
    requires Spells(forest, names, keys, trail, x)
    ensures |x.operation| == |names| + |trail| && x.operation[..|names| + 1] == names + [forest[trail[0]].name]
    decreases trail
  {
    if |trail| > 1 {
      var t := forest[trail[0]];
      SpellsExtends(t.children, names + [t.name], keys + [t.responseKey], trail[1..], x);
      assert x.operation[..|names| + 1] == x.operation[..|names| + 2][..|names| + 1];
    }
  }

  lemma {:induction false} FoundInForest(limited: Policy, names: seq<Key>, keys: seq<Key>, forest: seq<Tree>, x: LimitedField)
    ensures x in LimitedInAll(limited, names, keys, forest) <==>
      exists i :: 0 <= i < |forest| && x in LimitedIn(limited, names, keys, forest[i])
  {
    if forest != [] {
      var front := forest[..|forest| - 1];
      FoundInForest(limited, names, keys, front, x);
      assert forall i :: 0 <= i < |front| ==> front[i] == forest[i];
    }
  }

  lemma {:induction false} FoundIsFirstLimited(
    limited: Policy, names: seq<Key>, keys: seq<Key>, forest: seq<Tree>, i: nat, x: LimitedField) returns (trail: seq<nat>)
    requires i < |forest| && x in LimitedIn(limited, names, keys, forest[i])
    ensures Spells(forest, names, keys, trail, x) && FirstLimited(limited, |names|, x.operation)
    decreases forest[i]
  {
    var t := forest[i];
    var operation, path := names + [t.name], keys + [t.responseKey];
    if limited(operation) {
      trail := [i];
      assert Spells(forest, names, keys, trail, x);
    } else {
      FoundInForest(limited, operation, path, t.children, x);
      var j :| 0 <= j < |t.children| && x in LimitedIn(limited, operation, path, t.children[j]);
      var rest := FoundIsFirstLimited(limited, operation, path, t.children, j, x);
      trail := [i] + rest;
      assert trail[1..] == rest;
      SpellsExtends(forest, names, keys, trail, x);
    }
  }

  lemma {:induction false} FirstLimitedIsFound(
    limited: Policy, names: seq<Key>, keys: seq<Key>, forest: seq<Tree>, trail: seq<nat>, x: LimitedField)
    requires Spells(forest, names, keys, trail, x) && FirstLimited(limited, |names|, x.operation)
    ensures x in LimitedInAll(limited, names, keys, forest)
    decreases trail
  {
    SpellsExtends(forest, names, keys, trail, x);
    FoundInForest(limited, names, keys, forest, x);
    var t := forest[trail[0]];
    if |trail| > 1 {
      assert !limited(x.operation[..|names| + 1]);
      FirstLimitedIsFound(limited, names + [t.name], keys + [t.responseKey], t.children, trail[1..], x);
    } else {
      assert x.operation == names + [t.name];
    }
    assert x in LimitedIn(limited, names, keys, t);
  }

  ghost predicate SpelledSomewhere(forest: seq<Tree>, x: LimitedField) {
    exists trail :: Spells(forest, [], [], trail, x)
  }

  lemma FoundExactlyTheShortest(limited: Policy, forest: seq<Tree>, x: LimitedField)
    ensures x in LimitedInAll(limited, [], [], forest) <==>
      FirstLimited(limited, 0, x.operation) && SpelledSomewhere(forest, x)
  {
    if x in LimitedInAll(limited, [], [], forest) {
      FoundInForest(limited, [], [], forest, x);
      var i :| 0 <= i < |forest| && x in LimitedIn(limited, [], [], forest[i]);
      var trail := FoundIsFirstLimited(limited, [], [], forest, i, x);
    } else if FirstLimited(limited, 0, x.operation) && SpelledSomewhere(forest, x) {
      var trail :| Spells(forest, [], [], trail, x);
      FirstLimitedIsFound(limited, [], [], forest, trail, x);
    }
  }

  // ---- Aliases change where an answer goes, never which operations are found ----

  function Unaliased(selections: seq<Selection>): (r: seq<Selection>)
    ensures |r| == |selections|
    decreases selections, 0
  {
    if selections == [] then []
    else Unaliased(selections[..|selections| - 1]) + [UnaliasedOne(selections[|selections| - 1])]
  }

  function UnaliasedOne(s: Selection): Selection
    decreases s, 1
  {
    match s
    case Field(name, _, body) => Field(name, None, Unaliased(body))
    case InlineFragment(body) => InlineFragment(Unaliased(body))
    case Spread(_) => s
  }

  function UnaliasedFragments(fragments: Fragments): Fragments {
    map f | f in fragments :: Unaliased(fragments[f])
  }

  function UnaliasedTrees(forest: seq<Tree>): (r: seq<Tree>)
    ensures |r| == |forest|
    decreases forest, 0
  {
    if forest == [] then [] else UnaliasedTrees(forest[..|forest| - 1]) + [UnaliasedTree(forest[|forest| - 1])]
  }

  function UnaliasedTree(t: Tree): Tree
    decreases t, 1
  {
    Tree(t.name, t.name, UnaliasedTrees(t.children))
  }

  function Operations(found: seq<LimitedField>): seq<seq<Key>> {
    seq(|found|, i requires 0 <= i < |found| => found[i].operation)
  }

  lemma {:induction false} UnaliasedSpreads(selections: seq<Selection>)
    ensures SpreadsIn(Unaliased(selections)) == SpreadsIn(selections)
    decreases selections
  {
    if selections != [] {
      var front, last := selections[..|selections| - 1], selections[|selections| - 1];
      UnaliasedSpreads(front);
      assert Unaliased(selections)[..|selections| - 1] == Unaliased(front);
      match last
      case Field(_, _, body) => UnaliasedSpreads(body);
      case InlineFragment(body) => UnaliasedSpreads(body);
      case Spread(_) =>
    }
  }

  lemma UnaliasedGraph(fragments: Fragments)
    ensures FragmentGraph(UnaliasedFragments(fragments)) == FragmentGraph(fragments)
  {
    forall f | f in fragments ensures SpreadsIn(Unaliased(fragments[f])) == SpreadsIn(fragments[f]) {
      UnaliasedSpreads(fragments[f]);
    }
  }

  lemma {:induction false} UnaliasedTreesOfBoth(a: seq<Tree>, b: seq<Tree>)
    ensures UnaliasedTrees(a + b) == UnaliasedTrees(a) + UnaliasedTrees(b)
  {
    if b == [] {
      assert a + b == a;
    } else {
      assert (a + b)[..|a + b| - 1] == a + b[..|b| - 1];
      UnaliasedTreesOfBoth(a, b[..|b| - 1]);
    }
  }

  lemma {:induction false} UnaliasedInline(selections: seq<Selection>, fragments: Fragments, rank: map<Key, nat>, bound: nat)
    requires Below(SpreadsIn(selections), fragments, rank, bound)
    ensures Below(SpreadsIn(Unaliased(selections)), UnaliasedFragments(fragments), rank, bound)
    ensures Inline(Unaliased(selections), UnaliasedFragments(fragments), rank, bound)
         == UnaliasedTrees(Inline(selections, fragments, rank, bound))
    decreases bound, selections
  {
    UnaliasedGraph(fragments);
    UnaliasedSpreads(selections);
    if selections != [] {
      var front, last := selections[..|selections| - 1], selections[|selections| - 1];
      assert Unaliased(selections)[..|selections| - 1] == Unaliased(front);
      assert SpreadsOf(last) <= SpreadsIn(selections);
      UnaliasedInline(front, fragments, rank, bound);
      UnaliasedTreesOfBoth(Inline(front, fragments, rank, bound), InlineOne(last, fragments, rank, bound));
      match last
      case Field(_, _, body) =>
        UnaliasedInline(body, fragments, rank, bound);
        var t := InlineOne(last, fragments, rank, bound)[0];
        assert [t][..0] == [] && UnaliasedTrees([t]) == [UnaliasedTree(t)];
      case InlineFragment(body) => UnaliasedInline(body, fragments, rank, bound);
      case Spread(f) =>
        if f in fragments {
          BodyBelow(fragments, rank, f);
          UnaliasedInline(fragments[f], fragments, rank, rank[f]);
        }
    }
  }

  lemma OperationsOfBoth(a: seq<LimitedField>, b: seq<LimitedField>)
    ensures Operations(a + b) == Operations(a) + Operations(b)
  {
  }

  lemma {:induction false} UnaliasedOperations(
    limited: Policy, names: seq<Key>, k1: seq<Key>, k2: seq<Key>, forest: seq<Tree>)
    ensures Operations(LimitedInAll(limited, names, k1, UnaliasedTrees(forest)))
         == Operations(LimitedInAll(limited, names, k2, forest))
    decreases forest
  {
    if forest != [] {
      var front, t := forest[..|forest| - 1], forest[|forest| - 1];
      assert UnaliasedTrees(forest)[..|forest| - 1] == UnaliasedTrees(front);
      UnaliasedOperations(limited, names, k1, k2, front);
      UnaliasedOperations(limited, names + [t.name], k1 + [t.name], k2 + [t.responseKey], t.children);
      OperationsOfBoth(LimitedInAll(limited, names, k1, UnaliasedTrees(front)), LimitedIn(limited, names, k1, UnaliasedTree(t)));
      OperationsOfBoth(LimitedInAll(limited, names, k2, front), LimitedIn(limited, names, k2, t));
      assert Operations(LimitedIn(limited, names, k1, UnaliasedTree(t))) == Operations(LimitedIn(limited, names, k2, t));
    }
  }

  /** Renaming every field in a document finds the same operations, in the same order. */
  lemma AliasesHideNothing(limited: Policy, operation: seq<Selection>, fragments: Fragments)
    requires NoFragmentCycle(fragments)
    ensures NoFragmentCycle(UnaliasedFragments(fragments))
    ensures Operations(LimitedInAll(limited, [], [], Inlined(Unaliased(operation), UnaliasedFragments(fragments))))
         == Operations(LimitedInAll(limited, [], [], Inlined(operation, fragments)))
  {
    UnaliasedGraph(fragments);
    RankExists(fragments);
    RankExists(UnaliasedFragments(fragments));
    var plain := UnaliasedFragments(fragments);
    var rank, bound :| RankedBelow(fragments, rank, bound) && Inlined(operation, fragments) == Inline(operation, fragments, rank, bound);
    var r2, b2 :| RankedBelow(plain, r2, b2) && Inlined(Unaliased(operation), plain) == Inline(Unaliased(operation), plain, r2, b2);
    UnaliasedInline(operation, fragments, rank, bound);
    InlineUnique(Unaliased(operation), plain, rank, bound, r2, b2);
    UnaliasedOperations(limited, [], [], [], Inlined(operation, fragments));
  }
}
