/**
 * An action's inputs, checked as a one-stage form (src/services/pipeline/inputs.ts, and of the form engine
 * src/services/application/form/template.ts, coerce.ts, rules.ts, conditions.ts, engine.ts and answers.ts,
 * what concerns the nine types an input can have).
 */
module ActionInputs {
  import opened Common
  import opened Graphs
  import opened PipelineDefinitions
  import CalendarMonths

  const MAX_SAFE_INTEGER := 9_007_199_254_740_991
  const MAX_ANSWER_BYTES := 32 * 1024

  // ---- Whether the inputs form a form ----

  function SourceKeys(i: Input): set<Key> { set c | c in i.visibleWhen :: c.key }

  function SourcesUnder(inputs: seq<Input>, key: Key): set<Key> {
    var i := FindInput(inputs, key);
    if i.Some? then SourceKeys(i.value) else {}
  }

  /** Which inputs each input's visibility reads. */
  function InputGraph(inputs: seq<Input>): Graph { map k | k in InputKeys(inputs) :: SourcesUnder(inputs, k) }

  predicate HasValue(inputs: seq<Input>, key: Key) {
    FindInput(inputs, key).Some? && !FindInput(inputs, key).value.inputType.Statement?
  }

  /** Every visibility condition reads an input that has a value. */
  predicate SourcesHaveValues(inputs: seq<Input>) {
    forall i :: i in inputs ==> forall k :: k in SourceKeys(i) ==> HasValue(inputs, k)
  }

  ghost predicate FormResolves(action: Action) {
    Distinct(InputKeys(action.inputs)) && SourcesHaveValues(action.inputs) && !Cyclic(InputGraph(action.inputs))
  }

  /** The graph of some inputs, by what it says of each. */
  ghost predicate GraphOf(g: Graph, inputs: seq<Input>) {
    && (forall k :: k in g ==> exists i :: i in inputs && i.key == k)
    && forall i :: i in inputs ==> i.key in g && g[i.key] == SourceKeys(i)
  }

  lemma InputGraphIsTheGraph(inputs: seq<Input>)
    requires Distinct(InputKeys(inputs))
    ensures GraphOf(InputGraph(inputs), inputs)
  {
    forall i | i in inputs ensures i.key in InputGraph(inputs) && InputGraph(inputs)[i.key] == SourceKeys(i) {
      var n :| 0 <= n < |inputs| && inputs[n] == i;
      assert InputKeys(inputs)[n] == i.key;
      FindsEachInput(inputs, i);
    }
    forall k | k in InputGraph(inputs) ensures exists i :: i in inputs && i.key == k {
      var n :| 0 <= n < |inputs| && InputKeys(inputs)[n] == k;
      assert inputs[n] in inputs;
    }
  }

  // ---- Placing each input after what it reads ----

  function ReadyInputs(inputs: seq<Input>, placed: set<Key>): seq<Input> {
    if inputs == [] then []
    else
      var last := inputs[|inputs| - 1];
      ReadyInputs(inputs[..|inputs| - 1], placed) + if SourceKeys(last) <= placed then [last] else []
  }

  function WaitingInputs(inputs: seq<Input>, placed: set<Key>): seq<Input> {
    if inputs == [] then []
    else
      var last := inputs[|inputs| - 1];
      WaitingInputs(inputs[..|inputs| - 1], placed) + if SourceKeys(last) <= placed then [] else [last]
  }

  /** No two of them have the same key. */
  ghost predicate Apart(inputs: seq<Input>) {
    forall i, j :: 0 <= i < j < |inputs| ==> inputs[i].key != inputs[j].key
  }

  lemma {:induction false} ReadyOrWaiting(inputs: seq<Input>, placed: set<Key>)
    ensures |ReadyInputs(inputs, placed)| + |WaitingInputs(inputs, placed)| == |inputs|
    ensures forall i :: i in ReadyInputs(inputs, placed) <==> i in inputs && SourceKeys(i) <= placed
    ensures forall i :: i in WaitingInputs(inputs, placed) <==> i in inputs && !(SourceKeys(i) <= placed)
  {
    if inputs != [] {
      ReadyOrWaiting(inputs[..|inputs| - 1], placed);
    }
  }

  lemma ApartMore(inputs: seq<Input>, i: Input)
    requires Apart(inputs) && forall x :: x in inputs ==> x.key != i.key
    ensures Apart(inputs + [i])
  {
  }

  lemma {:induction false} PartsStayApart(inputs: seq<Input>, placed: set<Key>)
    requires Apart(inputs)
    ensures Apart(ReadyInputs(inputs, placed)) && Apart(WaitingInputs(inputs, placed))
  {
    if inputs != [] {
      var front, last := inputs[..|inputs| - 1], inputs[|inputs| - 1];
      PartsStayApart(front, placed);
      ReadyOrWaiting(front, placed);
      assert forall x :: x in front ==> x.key != last.key;
      if SourceKeys(last) <= placed {
        ApartMore(ReadyInputs(front, placed), last);
        assert WaitingInputs(inputs, placed) == WaitingInputs(front, placed);
      } else {
        ApartMore(WaitingInputs(front, placed), last);
        assert ReadyInputs(inputs, placed) == ReadyInputs(front, placed);
      }
    }
  }

  /** Every input once, each after all that its visibility reads. */
  ghost predicate SourcesFirst(g: Graph, order: seq<Key>) {
    ToSet(order) == g.Keys && Ordered(g, order)
  }

  ghost predicate Ordered(g: Graph, order: seq<Key>) {
    Distinct(order) && forall j, k :: 0 <= j < |order| && Edge(g, order[j], k) ==> k in order[..j]
  }

  /** What is placed is in order, and numbered. */
  ghost predicate Placed(g: Graph, ordered: seq<Key>, placed: set<Key>, rank: map<Key, nat>) {
    placed == ToSet(ordered) && Ordered(g, ordered) && SettledInOrder(g, placed, rank)
  }

  lemma PlaceOne(g: Graph, ordered: seq<Key>, placed: set<Key>, rank: map<Key, nat>, key: Key)
    requires Placed(g, ordered, placed, rank) && key in g && key !in placed && g[key] <= placed
    ensures Placed(g, ordered + [key], placed + {key}, rank[key := |placed|])
  {
    SettleOne(g, placed, rank, key);
    var more := ordered + [key];
    forall j, k | 0 <= j < |more| && Edge(g, more[j], k) ensures k in more[..j] {
      if j < |ordered| {
        assert more[..j] == ordered[..j];
      } else {
        assert more[..j] == ordered && k in placed;
      }
    }
  }

  function KeysOf(inputs: seq<Input>): set<Key> { set i | i in inputs :: i.key }

  lemma NextKey(ready: seq<Input>, n: nat)
    requires Apart(ready) && n < |ready|
    ensures ready[n].key !in KeysOf(ready[..n]) && KeysOf(ready[..n + 1]) == KeysOf(ready[..n]) + {ready[n].key}
  {
    assert ready[..n + 1] == ready[..n] + [ready[n]];
    forall i | i in ready[..n] ensures i.key != ready[n].key {
      var k :| 0 <= k < n && ready[k] == i;
    }
  }

  ghost predicate PlacedSoFar(
    g: Graph, before: set<Key>, ready: seq<Input>, n: nat, ordered: seq<Key>, placed: set<Key>, rank: map<Key, nat>)
    requires n <= |ready|
  {
    Placed(g, ordered, placed, rank) && placed == before + KeysOf(ready[..n]) && |placed| == |before| + n
  }

  lemma PlaceNext(g: Graph, before: set<Key>, ready: seq<Input>, n: nat, ordered: seq<Key>, placed: set<Key>, rank: map<Key, nat>)
    requires n < |ready| && Apart(ready) && PlacedSoFar(g, before, ready, n, ordered, placed, rank)
    requires ready[n].key in g && ready[n].key !in before && g[ready[n].key] <= before
    ensures PlacedSoFar(g, before, ready, n + 1, ordered + [ready[n].key], placed + {ready[n].key}, rank[ready[n].key := |placed|])
  {
    NextKey(ready, n);
    PlaceOne(g, ordered, placed, rank, ready[n].key);
  }

  /** Places everything that is ready at once. */
  method PlaceReady(ghost g: Graph, ready: seq<Input>, ordered: seq<Key>, placed: set<Key>, ghost rank: map<Key, nat>)
    returns (after: seq<Key>, all: set<Key>, ghost rankAfter: map<Key, nat>)
    requires Placed(g, ordered, placed, rank) && Apart(ready)
    requires forall i :: i in ready ==> i.key in g && i.key !in placed && g[i.key] <= placed
    ensures Placed(g, after, all, rankAfter) && all == placed + KeysOf(ready) && |all| == |placed| + |ready|
  {
    after, all, rankAfter := ordered, placed, rank;
    for n := 0 to |ready|
      invariant PlacedSoFar(g, placed, ready, n, after, all, rankAfter)
    {
      assert ready[n] in ready;
      PlaceNext(g, placed, ready, n, after, all, rankAfter);
      rankAfter := rankAfter[ready[n].key := |all|];
      after := after + [ready[n].key];
      all := all + {ready[n].key};
    }
    assert ready[..|ready|] == ready;
  }

  /** Those that wait are the rest. */
  ghost predicate Waiting(inputs: seq<Input>, placed: set<Key>, waiting: seq<Input>) {
    && Apart(waiting) && |placed| + |waiting| == |inputs|
    && (forall i :: i in waiting ==> i in inputs && i.key !in placed)
    && forall i :: i in inputs ==> i.key in placed || i in waiting
  }

  /** An order in which everything an input's visibility reads comes before it, if and only if none goes round in a circle. */
  method TopologicalOrder(inputs: seq<Input>) returns (order: Option<seq<Key>>)
    requires Distinct(InputKeys(inputs)) && SourcesHaveValues(inputs)
    ensures order.None? <==> Cyclic(InputGraph(inputs))
    ensures order.Some? ==> SourcesFirst(InputGraph(inputs), order.value)
  {
    ghost var g := InputGraph(inputs);
    InputGraphIsTheGraph(inputs);
    var ordered, placed, remaining := [], {}, inputs;
    ghost var rank: map<Key, nat> := map[];
    KeysAreApart(inputs);
    while |placed| < |inputs|
      invariant Placed(g, ordered, placed, rank) && Waiting(inputs, placed, remaining)
      decreases |remaining|
    {
      var ready, waiting := ReadyInputs(remaining, placed), WaitingInputs(remaining, placed);
      ReadyOrWaiting(remaining, placed);
      if |ready| == 0 {
        AllWaitingIsCyclic(inputs, g, placed, remaining);
        return None;
      }
      PartsStayApart(remaining, placed);
      ghost var before := placed;
      ordered, placed, rank := PlaceReady(g, ready, ordered, placed, rank);
      StillWaiting(inputs, before, remaining, ready, waiting);
      remaining := waiting;
    }
    AllPlacedIsAll(inputs, g, ordered, placed, remaining, rank);
    order := Some(ordered);
  }

  lemma KeysAreApart(inputs: seq<Input>)
    ensures Apart(inputs) <==> Distinct(InputKeys(inputs))
  {
    assert forall n :: 0 <= n < |inputs| ==> InputKeys(inputs)[n] == inputs[n].key;
  }

  lemma StillWaiting(inputs: seq<Input>, placed: set<Key>, remaining: seq<Input>, ready: seq<Input>, waiting: seq<Input>)
    requires Distinct(InputKeys(inputs)) && Waiting(inputs, placed, remaining) && Apart(waiting)
    requires |ready| + |waiting| == |remaining| && |placed + KeysOf(ready)| == |placed| + |ready|
    requires forall i :: i in remaining <==> i in ready || i in waiting
    requires forall i :: !(i in ready && i in waiting)
    ensures Waiting(inputs, placed + KeysOf(ready), waiting)
  {
    forall r, w | r in ready && w in waiting ensures r.key != w.key {
      FindsEachInput(inputs, r);
      FindsEachInput(inputs, w);
    }
  }

  lemma AllWaitingIsCyclic(inputs: seq<Input>, g: Graph, placed: set<Key>, waiting: seq<Input>)
    requires GraphOf(g, inputs) && SourcesHaveValues(inputs) && Waiting(inputs, placed, waiting) && placed <= g.Keys
    requires waiting != [] && forall i :: i in waiting ==> !(SourceKeys(i) <= placed)
    ensures Cyclic(g)
  {
    forall k | k in g && k !in placed ensures !Ready(g, placed, k) {
      var i :| i in inputs && i.key == k;
      assert i in waiting;
      var source :| source in SourceKeys(i) && source !in placed;
      assert HasValue(inputs, source);
      FoundInput(inputs, source);
    }
    assert waiting[0] in waiting;
    UnsettledIsCyclic(g, placed);
  }

  lemma AllPlacedIsAll(inputs: seq<Input>, g: Graph, ordered: seq<Key>, placed: set<Key>, waiting: seq<Input>, rank: map<Key, nat>)
    requires GraphOf(g, inputs) && Placed(g, ordered, placed, rank) && Waiting(inputs, placed, waiting) && waiting == []
    ensures SourcesFirst(g, ordered) && !Cyclic(g)
  {
    forall k | k in g ensures k in placed {
      var i :| i in inputs && i.key == k;
    }
    NumberingExcludesCycle(g, rank);
  }

  // ---- Which inputs are shown ----

  /** A condition compares an input that is shown; one that is not reads as unanswered. */
  predicate Compares(host: Host, inputs: seq<Input>, values: Values, shown: set<Key>, c: Condition) {
    var source := FindInput(inputs, c.key);
    source.Some? &&
    CompareValue(host, c.operator, if c.key in shown then Lookup(values, c.key) else None, c.value, source.value.inputType)
  }

  /** Every condition in the group of the `n`th compares. */
  predicate GroupCompares(host: Host, inputs: seq<Input>, values: Values, shown: set<Key>, i: Input, n: nat)
    requires n < |i.visibleWhen|
  {
    forall m :: 0 <= m < |i.visibleWhen| && i.visibleWhen[m].group == i.visibleWhen[n].group ==>
      Compares(host, inputs, values, shown, i.visibleWhen[m])
  }

  predicate ShownWith(host: Host, inputs: seq<Input>, values: Values, shown: set<Key>, i: Input) {
    i.visibleWhen == [] || exists n :: 0 <= n < |i.visibleWhen| && GroupCompares(host, inputs, values, shown, i, n)
  }

  /** The inputs shown are those whose conditions hold, reading only what is shown. */
  ghost predicate VisibleSet(host: Host, inputs: seq<Input>, values: Values, shown: set<Key>) {
    shown <= KeysOf(inputs) && forall i :: i in inputs ==> (i.key in shown <==> ShownWith(host, inputs, values, shown, i))
  }

  lemma ShownReadsItsSources(host: Host, inputs: seq<Input>, values: Values, a: set<Key>, b: set<Key>, i: Input)
    requires forall k :: k in SourceKeys(i) ==> (k in a <==> k in b)
    ensures ShownWith(host, inputs, values, a, i) <==> ShownWith(host, inputs, values, b, i)
  {
    forall m | 0 <= m < |i.visibleWhen|
      ensures Compares(host, inputs, values, a, i.visibleWhen[m]) <==> Compares(host, inputs, values, b, i.visibleWhen[m])
    {
      assert i.visibleWhen[m].key in SourceKeys(i);
    }
    forall n | 0 <= n < |i.visibleWhen|
      ensures GroupCompares(host, inputs, values, a, i, n) <==> GroupCompares(host, inputs, values, b, i, n)
    {
    }
  }

  /** Decided in order, each input once, everything it reads already decided. */
  method VisibleFields(host: Host, inputs: seq<Input>, order: seq<Key>, values: Values) returns (shown: set<Key>)
    requires Distinct(InputKeys(inputs)) && SourcesFirst(InputGraph(inputs), order) && SourcesHaveValues(inputs)
    ensures VisibleSet(host, inputs, values, shown)
  {
    shown := {};
    for n := 0 to |order|
      invariant Decided(host, inputs, values, order[..n], shown)
    {
      InputUnder(inputs, order, n);
      var i := FindInput(inputs, order[n]).value;
      DecideOneMore(host, inputs, values, order, n, shown, i);
      if ShownWith(host, inputs, values, shown, i) { shown := shown + {order[n]}; }
    }
    assert order[..|order|] == order;
    AllDecided(host, inputs, values, order, shown);
  }

  lemma InputUnder(inputs: seq<Input>, order: seq<Key>, n: nat)
    requires Distinct(InputKeys(inputs)) && SourcesFirst(InputGraph(inputs), order) && n < |order|
    ensures FindInput(inputs, order[n]).Some? && FindInput(inputs, order[n]).value in inputs && FindInput(inputs, order[n]).value.key == order[n]
  {
    InputGraphIsTheGraph(inputs);
    FoundInput(inputs, order[n]);
    assert order[n] in InputGraph(inputs);
  }

  lemma AllDecided(host: Host, inputs: seq<Input>, values: Values, order: seq<Key>, shown: set<Key>)
    requires Distinct(InputKeys(inputs)) && SourcesFirst(InputGraph(inputs), order) && Decided(host, inputs, values, order, shown)
    ensures VisibleSet(host, inputs, values, shown)
  {
    InputGraphIsTheGraph(inputs);
    forall k | k in shown ensures k in KeysOf(inputs) {
      assert k in InputGraph(inputs);
    }
    forall i | i in inputs ensures i.key in order {
      assert i.key in InputGraph(inputs);
    }
  }

  ghost predicate Decided(host: Host, inputs: seq<Input>, values: Values, decided: seq<Key>, shown: set<Key>) {
    shown <= ToSet(decided) && DecidedWith(host, inputs, values, decided, shown)
  }

  ghost predicate DecidedWith(host: Host, inputs: seq<Input>, values: Values, decided: seq<Key>, shown: set<Key>) {
    forall i :: i in inputs && i.key in decided ==> (i.key in shown <==> ShownWith(host, inputs, values, shown, i))
  }

  lemma DecideOneMore(host: Host, inputs: seq<Input>, values: Values, order: seq<Key>, n: nat, shown: set<Key>, next: Input)
    requires Distinct(InputKeys(inputs)) && SourcesFirst(InputGraph(inputs), order) && SourcesHaveValues(inputs)
    requires n < |order| && next in inputs && next.key == order[n] && Decided(host, inputs, values, order[..n], shown)
    ensures Decided(host, inputs, values, order[..n + 1],
      if ShownWith(host, inputs, values, shown, next) then shown + {order[n]} else shown)
  {
    var after := if ShownWith(host, inputs, values, shown, next) then shown + {order[n]} else shown;
    assert order[..n + 1] == order[..n] + [order[n]] && order[n] !in order[..n];
    forall i | i in inputs && i.key in order[..n + 1] ensures i.key in after <==> ShownWith(host, inputs, values, after, i) {
      var j :| 0 <= j <= n && order[j] == i.key;
      ReadsOnlyEarlier(inputs, order, i, j);
      assert order[..j] <= order[..n];
      ShownReadsItsSources(host, inputs, values, shown, after, i);
      if j == n {
        SameKeySameInput(inputs, i, next);
      } else {
        assert order[..n][j] == i.key;
      }
    }
  }

  /** Distinct keys: the same key is the same input. */
  lemma SameKeySameInput(inputs: seq<Input>, a: Input, b: Input)
    requires Distinct(InputKeys(inputs)) && a in inputs && b in inputs && a.key == b.key
    ensures a == b
  {
    FindsEachInput(inputs, a);
    FindsEachInput(inputs, b);
  }

  lemma ReadsOnlyEarlier(inputs: seq<Input>, order: seq<Key>, i: Input, j: nat)
    requires Distinct(InputKeys(inputs)) && SourcesFirst(InputGraph(inputs), order) && SourcesHaveValues(inputs)
    requires i in inputs && j < |order| && order[j] == i.key
    ensures forall k :: k in SourceKeys(i) ==> k in order[..j]
  {
    InputGraphIsTheGraph(inputs);
    forall k | k in SourceKeys(i) ensures k in order[..j] {
      assert HasValue(inputs, k);
      FoundInput(inputs, k);
      assert Edge(InputGraph(inputs), order[j], k);
    }
  }

  /** Where the inputs form a form, what is shown is settled by the values alone. */
  lemma OneVisibleSet(host: Host, action: Action, values: Values, a: set<Key>, b: set<Key>)
    requires FormResolves(action) && VisibleSet(host, action.inputs, values, a) && VisibleSet(host, action.inputs, values, b)
    ensures a == b
  {
    var g := InputGraph(action.inputs);
    AcyclicIffNumbered(g);
    var rank :| Numbering(g, rank);
    InputGraphIsTheGraph(action.inputs);
    forall i | i in action.inputs ensures i.key in a <==> i.key in b {
      SameBelow(host, action.inputs, values, a, b, rank, i);
    }
  }

  lemma SourceIsBelow(inputs: seq<Input>, rank: map<Key, nat>, i: Input, k: Key)
    requires Distinct(InputKeys(inputs)) && SourcesHaveValues(inputs) && Numbering(InputGraph(inputs), rank)
    requires i in inputs && k in SourceKeys(i)
    ensures FindInput(inputs, k).Some? && FindInput(inputs, k).value in inputs && FindInput(inputs, k).value.key == k
    ensures i.key in rank && k in rank && rank[k] < rank[i.key]
  {
    InputGraphIsTheGraph(inputs);
    assert HasValue(inputs, k);
    FoundInput(inputs, k);
    assert Edge(InputGraph(inputs), i.key, k);
  }

  lemma {:induction false} SameBelow(
    host: Host, inputs: seq<Input>, values: Values, a: set<Key>, b: set<Key>, rank: map<Key, nat>, i: Input)
    requires Distinct(InputKeys(inputs)) && SourcesHaveValues(inputs) && Numbering(InputGraph(inputs), rank) && i in inputs
    requires VisibleSet(host, inputs, values, a) && VisibleSet(host, inputs, values, b) && i.key in rank
    ensures i.key in a <==> i.key in b
    decreases rank[i.key]
  {
    forall k | k in SourceKeys(i) ensures k in a <==> k in b {
      SourceIsBelow(inputs, rank, i, k);
      SameBelow(host, inputs, values, a, b, rank, FindInput(inputs, k).value);
    }
    ShownReadsItsSources(host, inputs, values, a, b, i);
  }

  // ---- Dropping the values of inputs that are hidden ----

  function Emptied(i: Input): Value { if i.inputType.MultiChoice? then Choices([]) else Null }

  function KeptValue(i: Input, v: Value, shown: set<Key>): Value { if i.key in shown then v else Emptied(i) }

  /** The values as they are where an input is shown, and emptied where it is not. */
  ghost predicate PrunedTo(inputs: seq<Input>, values: Values, shown: set<Key>, pruned: Values) {
    && pruned.Keys == values.Keys * KeysOf(inputs)
    && forall i :: i in inputs && i.key in values ==> i.key in pruned && pruned[i.key] == KeptValue(i, values[i.key], shown)
  }

  /** Hiding reads as unanswered already, so pruning changes nothing of what is shown. */
  lemma PruningKeepsWhatIsShown(host: Host, inputs: seq<Input>, values: Values, shown: set<Key>, pruned: Values)
    requires VisibleSet(host, inputs, values, shown) && PrunedTo(inputs, values, shown, pruned)
    ensures VisibleSet(host, inputs, pruned, shown)
  {
    forall k | k in shown ensures Lookup(pruned, k) == Lookup(values, k) {
      var i :| i in inputs && i.key == k;
      assert i.key in values ==> pruned[i.key] == KeptValue(i, values[i.key], shown);
    }
    forall i | i in inputs ensures ShownWith(host, inputs, values, shown, i) <==> ShownWith(host, inputs, pruned, shown, i) {
      forall m | 0 <= m < |i.visibleWhen|
        ensures Compares(host, inputs, values, shown, i.visibleWhen[m]) <==> Compares(host, inputs, pruned, shown, i.visibleWhen[m])
      {
      }
      forall n | 0 <= n < |i.visibleWhen|
        ensures GroupCompares(host, inputs, values, shown, i, n) <==> GroupCompares(host, inputs, pruned, shown, i, n)
      {
      }
    }
  }

  /** One pass over the inputs, and whether it took an answer. */
  method PruneOnce(inputs: seq<Input>, values: Values, shown: set<Key>) returns (next: Values, cleared: bool)
    requires Distinct(InputKeys(inputs))
    ensures PrunedTo(inputs, values, shown, next)
    ensures !cleared <==> forall i :: i in inputs && i.key in values && i.key !in shown ==> !IsAnswered(Some(values[i.key]))
  {
    next, cleared := map[], false;
    for n := 0 to |inputs|
      invariant PrunedTo(inputs[..n], values, shown, next)
      invariant !cleared <==>
        forall i :: i in inputs[..n] && i.key in values && i.key !in shown ==> !IsAnswered(Some(values[i.key]))
    {
      var i := inputs[n];
      assert inputs[..n + 1] == inputs[..n] + [i];
      if i.key !in values { continue; }
      var value := values[i.key];
      PrunedOneMore(inputs, values, shown, n, next);
      if i.key !in shown {
        if IsAnswered(Some(value)) { cleared := true; }
        next := next[i.key := Emptied(i)];
        continue;
      }
      next := next[i.key := value];
    }
    assert inputs[..|inputs|] == inputs;
  }

  lemma PrunedOneMore(inputs: seq<Input>, values: Values, shown: set<Key>, n: nat, next: Values)
    requires Distinct(InputKeys(inputs)) && n < |inputs| && inputs[n].key in values
    requires PrunedTo(inputs[..n], values, shown, next)
    ensures PrunedTo(inputs[..n + 1], values, shown, next[inputs[n].key := KeptValue(inputs[n], values[inputs[n].key], shown)])
  {
    assert inputs[..n + 1] == inputs[..n] + [inputs[n]];
    assert KeysOf(inputs[..n + 1]) == KeysOf(inputs[..n]) + {inputs[n].key};
    forall i | i in inputs[..n] ensures i.key != inputs[n].key {
      var k :| 0 <= k < n && inputs[k] == i;
      assert InputKeys(inputs)[k] != InputKeys(inputs)[n];
    }
  }

  lemma PrunedTwice(inputs: seq<Input>, values: Values, shown: set<Key>, once: Values, twice: Values)
    requires PrunedTo(inputs, values, shown, once) && PrunedTo(inputs, once, shown, twice)
    ensures twice == once
  {
    forall k | k in once ensures k in twice && twice[k] == once[k] {
      var i :| i in inputs && i.key == k;
    }
  }

  /** What one pass makes of the values, with the same inputs shown after it as before. */
  ghost predicate PrunedHidden(host: Host, inputs: seq<Input>, values: Values, shown: set<Key>, pruned: Values) {
    VisibleSet(host, inputs, values, shown) && PrunedTo(inputs, values, shown, pruned) && VisibleSet(host, inputs, pruned, shown)
  }

  /**
   * Passes until one takes no answer, or there have been more of them than inputs. However the conditions
   * chain, what comes back is what the first pass alone makes of the values.
   */
  method PruneHidden(host: Host, action: Action, order: seq<Key>, values: Values) returns (current: Values)
    requires FormResolves(action) && SourcesFirst(InputGraph(action.inputs), order)
    ensures exists shown :: PrunedHidden(host, action.inputs, values, shown, current)
  {
    ghost var shown: set<Key> := {};
    current := values;
    for pass := 0 to |action.inputs| + 1
      invariant if pass == 0 then current == values else PrunedHidden(host, action.inputs, values, shown, current)
    {
      var visible := VisibleFields(host, action.inputs, order, current);
      if pass == 0 { shown := visible; }
      OneVisibleSet(host, action, current, visible, shown);
      var next, cleared := PruneOnce(action.inputs, current, visible);
      PruningKeepsWhatIsShown(host, action.inputs, current, visible, next);
      if pass > 0 { PrunedTwice(action.inputs, values, shown, current, next); }
      current := next;
      assert PrunedHidden(host, action.inputs, values, shown, current);
      if !cleared { return; }
    }
  }

  // ---- One input's value ----

  /** Typed text once cleaned; nothing where nothing is left. */
  function Cleaned(host: Host, inputType: InputType, text: string): Option<string> {
    var cleaned := host.clean(inputType, text);
    if cleaned == "" then None else Some(cleaned)
  }

  /** What was chosen, each option at its place, and at its last place where the options repeat it. */
  function InOptionOrder(options: seq<Key>, chosen: seq<string>): seq<string> {
    if options == [] then []
    else (if options[0] in chosen && options[0] !in options[1..] then [options[0]] else []) + InOptionOrder(options[1..], chosen)
  }

  /** The value as the input's type reads it, or nothing where it is not of that type. */
  function Coerced(host: Host, i: Input, v: Value): Option<Value> {
    match i.inputType
    case ShortText => CoercedText(host, i, v)
    case LongText => CoercedText(host, i, v)
    case Date =>
      var cleaned := CoercedText(host, i, v);
      if cleaned.Some? && cleaned.value.Text? && CalendarMonths.ParseDateOnly(cleaned.value.text).None? then None else cleaned
    case Integer => if v.Null? || (v.Number? && -MAX_SAFE_INTEGER <= v.number <= MAX_SAFE_INTEGER) then Some(v) else None
    case Money => if v.Null? || (v.Number? && 0 <= v.number <= MAX_SAFE_INTEGER) then Some(v) else None
    case Boolean => if v.Null? || v.Truth? then Some(v) else None
    case SingleChoice =>
      var cleaned := CoercedText(host, i, v);
      if cleaned.Some? && cleaned.value.Text? && cleaned.value.text !in i.options then None else cleaned
    case MultiChoice =>
      if v.Null? then Some(Choices([]))
      else if v.Choices? && Distinct(v.choices) && forall c :: c in v.choices ==> c in i.options
      then Some(Choices(InOptionOrder(i.options, v.choices))) else None
    case Statement => None
  }

  function CoercedText(host: Host, i: Input, v: Value): Option<Value> {
    if v.Null? then Some(Null)
    else if !v.Text? then None
    else match Cleaned(host, i.inputType, v.text) case None => Some(Null) case Some(text) => Some(Text(text))
  }

  predicate AtLeast(bound: Option<int>, n: int) { bound.Some? ==> bound.value <= n }

  predicate AtMost(bound: Option<int>, n: int) { bound.Some? ==> n <= bound.value }

  /** The time value of a bound that is a real date. */
  function DateBound(text: Option<string>): Option<int> {
    if text.None? || CalendarMonths.ParseDateOnly(text.value).None? then None
    else Some(CalendarMonths.ParseDateOnly(text.value).value.GetTime())
  }

  function StartOfDay(now: int): int { now - now % CalendarMonths.MS_PER_DAY }

  /** An unanswered input has no bounds to break. */
  predicate WithinRules(i: Input, v: Value, now: int) {
    var b := i.bounds;
    match v
    case Null => true
    case Truth(_) => true
    case Number(n) => AtLeast(b.minValue, n) && AtMost(b.maxValue, n)
    case Choices(choices) => AtMost(b.maxLength, |choices|)
    case Text(text) =>
      if i.inputType.ShortText? || i.inputType.LongText? then AtLeast(b.minLength, |text|) && AtMost(b.maxLength, |text|)
      else if i.inputType.Date? && CalendarMonths.ParseDateOnly(text).Some? then
        var time := CalendarMonths.ParseDateOnly(text).value.GetTime();
        && AtLeast(DateBound(b.minDate), time) && AtMost(DateBound(b.maxDate), time)
        && (b.relative == Some(NotFuture) ==> time <= now) && (b.relative == Some(NotPast) ==> StartOfDay(now) <= time)
      else true
  }

  /** Answered enough for an input that is shown. */
  predicate Complete(i: Input, v: Value) {
    && (i.required ==> IsAnswered(Some(v)))
    && (v.Choices? ==> AtLeast(i.bounds.minLength, |v.choices|))
  }

  // ---- What the officer sent ----

  function Given(submitted: Values, key: Key): Value { if key in submitted then submitted[key] else Null }

  /** The inputs that take a value. */
  function Answerable(inputs: seq<Input>): set<Key> { set i | i in inputs && !i.inputType.Statement? :: i.key }

  ghost predicate Normalized(host: Host, inputs: seq<Input>, submitted: Values, now: int, values: Values) {
    && values.Keys == Answerable(inputs)
    && forall i :: i in inputs && !i.inputType.Statement? ==>
         Coerced(host, i, Given(submitted, i.key)) == Some(values[i.key]) && WithinRules(i, values[i.key], now)
  }

  /** Every input shown is answered enough, and none that is hidden is answered. */
  predicate CompleteAsShown(inputs: seq<Input>, values: Values, shown: set<Key>) {
    forall i :: i in inputs && !i.inputType.Statement? && i.key in values ==>
      if i.key in shown then Complete(i, values[i.key]) else !IsAnswered(Some(values[i.key]))
  }

  /** What an officer sent is taken as these values. */
  ghost predicate Validated(host: Host, action: Action, submitted: Values, now: int, values: Values) {
    var inputs := action.inputs;
    && FormResolves(action) && submitted.Keys <= Answerable(inputs)
    && Normalized(host, inputs, submitted, now, values) && host.encodedBytes(values) <= MAX_ANSWER_BYTES
    && exists shown :: VisibleSet(host, inputs, values, shown) && CompleteAsShown(inputs, values, shown)
  }

  /** Values some officer could have sent, some day. */
  ghost predicate Accepted(host: Host, action: Action, values: Values) {
    exists submitted, now :: Validated(host, action, submitted, now, values)
  }

  /** Reads each input in turn; one bad value is enough to refuse them all. */
  method NormalizeAnswers(host: Host, inputs: seq<Input>, submitted: Values, now: int) returns (values: Option<Values>)
    requires Distinct(InputKeys(inputs))
    ensures forall v :: values == Some(v) <==> Normalized(host, inputs, submitted, now, v)
  {
    var value: Values, issues := map[], false;
    for n := 0 to |inputs|
      invariant !issues ==> Normalized(host, inputs[..n], submitted, now, value)
      invariant issues ==> forall v :: !Normalized(host, inputs, submitted, now, v)
    {
      var i := inputs[n];
      assert inputs[..n + 1] == inputs[..n] + [i] && i in inputs;
      if i.inputType.Statement? { continue; }
      var coerced := Coerced(host, i, Given(submitted, i.key));
      if coerced.None? || !WithinRules(i, coerced.value, now) {
        issues := true;
        continue;
      }
      if !issues { NormalizeOneMore(host, inputs, n, submitted, now, value, coerced.value); }
      value := value[i.key := coerced.value];
    }
    assert inputs[..|inputs|] == inputs;
    if issues { return None; }
    forall v | Normalized(host, inputs, submitted, now, v) ensures v == value {
      NormalizedOnce(host, inputs, submitted, now, v, value);
    }
    values := Some(value);
  }

  lemma NormalizeOneMore(host: Host, inputs: seq<Input>, n: nat, submitted: Values, now: int, values: Values, v: Value)
    requires Distinct(InputKeys(inputs)) && n < |inputs| && !inputs[n].inputType.Statement?
    requires Normalized(host, inputs[..n], submitted, now, values)
    requires Coerced(host, inputs[n], Given(submitted, inputs[n].key)) == Some(v) && WithinRules(inputs[n], v, now)
    ensures Normalized(host, inputs[..n + 1], submitted, now, values[inputs[n].key := v])
  {
    assert inputs[..n + 1] == inputs[..n] + [inputs[n]];
    forall i | i in inputs[..n] ensures i.key != inputs[n].key {
      var k :| 0 <= k < n && inputs[k] == i;
      assert InputKeys(inputs)[k] != InputKeys(inputs)[n];
    }
  }

  lemma NormalizedOnce(host: Host, inputs: seq<Input>, submitted: Values, now: int, a: Values, b: Values)
    requires Normalized(host, inputs, submitted, now, a) && Normalized(host, inputs, submitted, now, b)
    ensures a == b
  {
    forall k | k in a ensures a[k] == b[k] {
      var i :| i in inputs && !i.inputType.Statement? && i.key == k;
    }
  }

  /** The inputs' values, if and only if they are ones the form accepts. */
  method ValidateActionInputs(host: Host, action: Action, submitted: Values, now: int) returns (values: Option<Values>)
    ensures forall v :: values == Some(v) <==> Validated(host, action, submitted, now, v)
  {
    var inputs := action.inputs;
    var order := ResolvedOrder(action);
    if order.None? || !(submitted.Keys <= Answerable(inputs)) { return None; }
    var normalized := NormalizeAnswers(host, inputs, submitted, now);
    if normalized.None? || host.encodedBytes(normalized.value) > MAX_ANSWER_BYTES { return None; }
    var shown := VisibleFields(host, inputs, order.value, normalized.value);
    forall other | VisibleSet(host, inputs, normalized.value, other) ensures other == shown {
      OneVisibleSet(host, action, normalized.value, other, shown);
    }
    if !CompleteAsShown(inputs, normalized.value, shown) { return None; }
    var pruned := PruneHidden(host, action, order.value, normalized.value);
    ghost var kept :| PrunedHidden(host, inputs, normalized.value, kept, pruned);
    NothingToPrune(host, inputs, submitted, now, normalized.value, kept, pruned);
    values := Some(pruned);
  }

  /** Values found complete have nothing left in what is hidden: a hidden input is already empty. */
  lemma NothingToPrune(host: Host, inputs: seq<Input>, submitted: Values, now: int, values: Values, shown: set<Key>, pruned: Values)
    requires Normalized(host, inputs, submitted, now, values) && CompleteAsShown(inputs, values, shown)
    requires PrunedTo(inputs, values, shown, pruned)
    ensures pruned == values
  {
    assert pruned.Keys == values.Keys;
    forall k | k in values ensures pruned[k] == values[k] {
      var i :| i in inputs && !i.inputType.Statement? && i.key == k;
      if k !in shown { UnansweredIsEmpty(host, i, Given(submitted, k), values[k]); }
    }
  }

  lemma UnansweredIsEmpty(host: Host, i: Input, given: Value, v: Value)
    requires Coerced(host, i, given) == Some(v) && !IsAnswered(Some(v))
    ensures v == Emptied(i)
  {
  }

  /** The form's evaluation order, if and only if the inputs form a form at all. */
  method ResolvedOrder(action: Action) returns (order: Option<seq<Key>>)
    ensures order.Some? <==> FormResolves(action)
    ensures order.Some? ==> SourcesFirst(InputGraph(action.inputs), order.value)
  {
    if !Distinct(InputKeys(action.inputs)) || !SourcesHaveValues(action.inputs) { return None; }
    order := TopologicalOrder(action.inputs);
  }

  // ---- What accepted values are ----

  predicate IsAmount(i: Input, n: int) { 0 <= n && AtLeast(i.bounds.minValue, n) && AtMost(i.bounds.maxValue, n) }

  /** What is known of each accepted value: its type, its bounds, and that a required input always shown is answered. */
  lemma AcceptedValue(host: Host, action: Action, values: Values, i: Input)
    requires Accepted(host, action, values) && i in action.inputs && !i.inputType.Statement?
    ensures i.key in values && values.Keys == Answerable(action.inputs)
    ensures i.required && i.visibleWhen == [] ==> IsAnswered(Some(values[i.key]))
    ensures i.inputType.Money? ==> values[i.key].Null? || (values[i.key].Number? && IsAmount(i, values[i.key].number))
    ensures i.inputType.SingleChoice? ==> values[i.key].Null? || (values[i.key].Text? && values[i.key].text != "" && values[i.key].text in i.options)
  {
    var submitted, now :| Validated(host, action, submitted, now, values);
    var shown :| VisibleSet(host, action.inputs, values, shown) && CompleteAsShown(action.inputs, values, shown);
    TypedValue(host, i, Given(submitted, i.key), values[i.key], now);
    assert i.visibleWhen == [] ==> i.key in shown;
  }

  lemma TypedValue(host: Host, i: Input, given: Value, v: Value, now: int)
    requires Coerced(host, i, given) == Some(v) && WithinRules(i, v, now)
    ensures i.inputType.Money? ==> v.Null? || (v.Number? && IsAmount(i, v.number))
    ensures i.inputType.SingleChoice? ==> v.Null? || (v.Text? && v.text != "" && v.text in i.options)
  {
  }

  /** An effect never reads what the officer was not asked: among accepted values, a hidden input's is empty. */
  lemma HiddenIsEmpty(host: Host, action: Action, values: Values, shown: set<Key>, i: Input)
    requires Accepted(host, action, values) && VisibleSet(host, action.inputs, values, shown)
    requires i in action.inputs && !i.inputType.Statement? && i.key !in shown
    ensures i.key in values && values[i.key] == Emptied(i)
  {
    var submitted, now :| Validated(host, action, submitted, now, values);
    var seen :| VisibleSet(host, action.inputs, values, seen) && CompleteAsShown(action.inputs, values, seen);
    OneVisibleSet(host, action, values, seen, shown);
    assert Coerced(host, i, Given(submitted, i.key)) == Some(values[i.key]);
    UnansweredIsEmpty(host, i, Given(submitted, i.key), values[i.key]);
  }

  lemma AllShown(host: Host, inputs: seq<Input>, values: Values)
    requires forall i :: i in inputs ==> i.visibleWhen == []
    ensures VisibleSet(host, inputs, values, KeysOf(inputs))
  {
  }

  /** Where every input is always shown, values the form reads as they are and finds complete are accepted. */
  lemma AcceptedAsGiven(host: Host, action: Action, values: Values, now: int)
    requires Distinct(InputKeys(action.inputs)) && forall i :: i in action.inputs ==> i.visibleWhen == []
    requires Normalized(host, action.inputs, values, now, values) && host.encodedBytes(values) <= MAX_ANSWER_BYTES
    requires forall i :: i in action.inputs && !i.inputType.Statement? ==> Complete(i, values[i.key])
    ensures Accepted(host, action, values)
  {
    NoConditionsResolve(action);
    AllShown(host, action.inputs, values);
    assert CompleteAsShown(action.inputs, values, KeysOf(action.inputs));
    assert Validated(host, action, values, now, values);
  }

  /** An action that asks for nothing is taken with nothing. */
  lemma NothingAsked(host: Host, action: Action)
    requires action.inputs == [] && host.encodedBytes(map[]) <= MAX_ANSWER_BYTES
    ensures Accepted(host, action, map[])
  {
    AcceptedAsGiven(host, action, map[], 0);
  }

  /** Inputs that are always shown form a form when their keys differ. */
  lemma NoConditionsResolve(action: Action)
    requires Distinct(InputKeys(action.inputs)) && forall i :: i in action.inputs ==> i.visibleWhen == []
    ensures FormResolves(action)
  {
    var g := InputGraph(action.inputs);
    InputGraphIsTheGraph(action.inputs);
    var rank: map<Key, nat> := map k | k in g :: 0;
    forall a, b ensures !Edge(g, a, b) {
      if a in g { var i :| i in action.inputs && i.key == a; }
    }
    NumberingExcludesCycle(g, rank);
  }
}
