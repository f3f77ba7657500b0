/** How much work one document may ask for (src/graphql/validation.ts). */
module DocumentCost {
  import opened Common
  import opened GraphqlDocuments

  const MAX_FIELDS := 500
  const MAX_DEPTH := 12
  const TYPENAME: Key := "__typename"

  datatype Cost = Cost(fields: nat, depth: nat)

  function Max(a: nat, b: nat): nat { if a < b then b else a }

  function Combine(total: Cost, part: Cost): Cost {
    Cost(total.fields + part.fields, Max(total.depth, part.depth))
  }

  // ---- What the measure means: a count and a height over the inlined response ----

  function FieldCount(forest: seq<Tree>): nat
    decreases forest, 0
  {
    if forest == [] then 0 else FieldCount(forest[..|forest| - 1]) + TreeCount(forest[|forest| - 1])
  }

  function TreeCount(t: Tree): nat
    decreases t, 1
  {
    if t.name == TYPENAME then 0 else 1 + FieldCount(t.children)
  }

  function Height(forest: seq<Tree>): nat
    decreases forest, 0
  {
    if forest == [] then 0 else Max(Height(forest[..|forest| - 1]), TreeHeight(forest[|forest| - 1]))
  }

  function TreeHeight(t: Tree): nat
    decreases t, 1
  {
    if t.name == TYPENAME then 0 else 1 + Height(t.children)
  }

  lemma {:induction false} CountAndHeightOfBoth(a: seq<Tree>, b: seq<Tree>)
    ensures FieldCount(a + b) == FieldCount(a) + FieldCount(b)
    ensures Height(a + b) == Max(Height(a), Height(b))
  {
    if b == [] {
      assert a + b == a;
    } else {
      assert (a + b)[..|a + b| - 1] == a + b[..|b| - 1];
      CountAndHeightOfBoth(a, b[..|b| - 1]);
    }
  }

  // ---- What the stateful walk computes, with the guarded names as an argument ----

  function CostOfSet(selections: seq<Selection>, depth: nat, fragments: Fragments, seen: set<Key>): Cost
    decreases fragments.Keys - seen, selections, 0
  {
    if selections == [] then Cost(0, depth)
    else Combine(CostOfSet(selections[..|selections| - 1], depth, fragments, seen),
                 CostOfSelection(selections[|selections| - 1], depth, fragments, seen))
  }

  function CostOfSelection(s: Selection, depth: nat, fragments: Fragments, seen: set<Key>): Cost
    decreases fragments.Keys - seen, s, 1
  {
    match s
    case InlineFragment(body) => CostOfSet(body, depth, fragments, seen)
    case Spread(f) =>
      if f in seen || f !in fragments then Cost(0, depth)
      else CostOfSet(fragments[f], depth, fragments, seen + {f})
    case Field(name, _, body) =>
      if name == TYPENAME then Cost(0, depth)
      else
        var inner := CostOfSet(body, depth + 1, fragments, seen);
        Cost(inner.fields + 1, inner.depth)
  }

  // `seen` holds the names on the way down to the selection being measured.

  /** Measures a selection set at `depth`, ending with `seen` exactly as it began, whatever the fragments. */
  method MeasureSelectionSet(selections: seq<Selection>, depth: nat, fragments: Fragments, seen: NameSet) returns (total: Cost)
    modifies seen
    ensures seen.names == old(seen.names)
    ensures total == CostOfSet(selections, depth, fragments, old(seen.names))
    decreases fragments.Keys - seen.names, selections, 0
  {
    total := Cost(0, depth);
    for i := 0 to |selections|
      invariant seen.names == old(seen.names)
      invariant total == CostOfSet(selections[..i], depth, fragments, seen.names)
    {
      var part := MeasureSelection(selections[i], depth, fragments, seen);
      total := Combine(total, part);
      assert selections[..i + 1][..i] == selections[..i];
    }
    assert selections[..|selections|] == selections;
  }

  method MeasureSelection(s: Selection, depth: nat, fragments: Fragments, seen: NameSet) returns (cost: Cost)
    modifies seen
    ensures seen.names == old(seen.names)
    ensures cost == CostOfSelection(s, depth, fragments, old(seen.names))
    decreases fragments.Keys - seen.names, s, 1
  {
    match s
    case InlineFragment(body) =>
      cost := MeasureSelectionSet(body, depth, fragments, seen);
    case Spread(_) =>
      cost := MeasureSpread(s, depth, fragments, seen);
    case Field(name, _, body) =>
      if name == TYPENAME { return Cost(0, depth); }
      var inner := MeasureSelectionSet(body, depth + 1, fragments, seen);
      cost := Cost(inner.fields + 1, inner.depth);
  }

  method MeasureSpread(spread: Selection, depth: nat, fragments: Fragments, seen: NameSet) returns (cost: Cost)
    requires spread.Spread?
    modifies seen
    ensures seen.names == old(seen.names)
    ensures cost == CostOfSelection(spread, depth, fragments, old(seen.names))
    decreases fragments.Keys - seen.names, spread, 0
  {
    var name := spread.fragment;
    if name in seen.names || name !in fragments { return Cost(0, depth); }
    seen.names := seen.names + {name};
    cost := MeasureSelectionSet(fragments[name], depth, fragments, seen);
    seen.names := seen.names - {name};
  }

  // ---- The measure is the count and height of the inlined response ----

  /** Nothing guarded can be met again below `bound`. */
  ghost predicate Above(seen: set<Key>, rank: map<Key, nat>, bound: nat) {
    forall k :: k in seen && k in rank ==> rank[k] >= bound
  }

  ghost predicate Measures(cost: Cost, depth: nat, forest: seq<Tree>) {
    cost == Cost(FieldCount(forest), depth + Height(forest))
  }

  lemma {:induction false} CostOfSetIsInlined(
    selections: seq<Selection>, depth: nat, fragments: Fragments, seen: set<Key>, rank: map<Key, nat>, bound: nat)
    requires Below(SpreadsIn(selections), fragments, rank, bound) && Above(seen, rank, bound)
    ensures Measures(CostOfSet(selections, depth, fragments, seen), depth, Inline(selections, fragments, rank, bound))
    decreases bound, selections, 0
  {
    if selections != [] {
      var front, last := selections[..|selections| - 1], selections[|selections| - 1];
      CostOfSetIsInlined(front, depth, fragments, seen, rank, bound);
      CostOfSelectionIsInlined(last, depth, fragments, seen, rank, bound);
      CountAndHeightOfBoth(Inline(front, fragments, rank, bound), InlineOne(last, fragments, rank, bound));
    }
  }

  lemma {:induction false} CostOfSelectionIsInlined(
    s: Selection, depth: nat, fragments: Fragments, seen: set<Key>, rank: map<Key, nat>, bound: nat)
    requires Below(SpreadsOf(s), fragments, rank, bound) && Above(seen, rank, bound)
    ensures Measures(CostOfSelection(s, depth, fragments, seen), depth, InlineOne(s, fragments, rank, bound))
    decreases bound, s, 1
  {
    match s
    case InlineFragment(body) => CostOfSetIsInlined(body, depth, fragments, seen, rank, bound);
    case Field(name, _, body) =>
      CostOfSetIsInlined(body, depth + 1, fragments, seen, rank, bound);
      var t := Tree(name, ResponseKey(s), Inline(body, fragments, rank, bound));
      assert [t][..0] == [];
      assert FieldCount([t]) == TreeCount(t);
      assert Height([t]) == Max(Height([]), TreeHeight(t)) == TreeHeight(t);
    case Spread(f) =>
      if f in fragments {
        BodyBelow(fragments, rank, f);
        CostOfSetIsInlined(fragments[f], depth, fragments, seen + {f}, rank, rank[f]);
      }
  }

  /** For a document with no fragment cycle, each spread is paid for wherever it is used, and only there. */
  lemma CostIsInlinedSize(selections: seq<Selection>, depth: nat, fragments: Fragments)
    requires NoFragmentCycle(fragments)
    ensures Measures(CostOfSet(selections, depth, fragments, {}), depth, Inlined(selections, fragments))
  {
    RankExists(fragments);
    var rank, bound :| RankedBelow(fragments, rank, bound) && Inlined(selections, fragments) == Inline(selections, fragments, rank, bound);
    CostOfSetIsInlined(selections, depth, fragments, {}, rank, bound);
  }

  // ---- The rule over one operation ----

  datatype CostProblem = TooManyFields(fields: nat) | TooDeep(depth: nat)

  predicate IntrospectionOnly(operation: seq<Selection>) {
    forall s :: s in operation ==> s.Field? && "__" <= s.name
  }

  /**
   * An operation is refused exactly when its inlined response has more than 500 fields or is
   * more than 12 levels deep, unless everything it selects at the top is introspection.
   */
  method DocumentCostProblems(operation: seq<Selection>, fragments: Fragments) returns (problems: seq<CostProblem>)
    ensures IntrospectionOnly(operation) ==> problems == []
    ensures NoFragmentCycle(fragments) && !IntrospectionOnly(operation) ==>
      var response := Inlined(operation, fragments);
      forall p :: p in problems <==>
        || (p == TooManyFields(FieldCount(response)) && FieldCount(response) > 500)
        || (p == TooDeep(Height(response)) && Height(response) > 12)
  {
    problems := [];
    if IntrospectionOnly(operation) { return; }
    var seen := new NameSet();
    var cost := MeasureSelectionSet(operation, 0, fragments, seen);
    if cost.fields > MAX_FIELDS { problems := problems + [TooManyFields(cost.fields)]; }
    if cost.depth > MAX_DEPTH { problems := problems + [TooDeep(cost.depth)]; }
    if NoFragmentCycle(fragments) {
      CostIsInlinedSize(operation, 0, fragments);
    }
  }

  /** One field more at the top that is not introspection, or a fragment, and the operation is measured. */
  lemma OnlyIntrospectionIsExempt(operation: seq<Selection>, s: Selection)
    ensures IntrospectionOnly([])
    ensures IntrospectionOnly(operation + [s]) <==>
      IntrospectionOnly(operation) && s.Field? && |s.name| >= 2 && s.name[0] == '_' && s.name[1] == '_'
  {
    assert forall i :: 0 <= i < |operation| ==> (operation + [s])[i] == operation[i];
    assert (operation + [s])[|operation|] == s;
    assert forall x :: x in operation ==> x in operation + [s];
  }
}
