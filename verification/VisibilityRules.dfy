/**
 * The circle check on a form's visibility rules (src/services/admin/form-template-input.ts).
 *
 * A question with a rule is decided after the question its rule reads. The check settles
 * whatever waits on nothing unsettled, pass after pass, and calls what is left a circle.
 */
module VisibilityRules {
  import opened Common
  import opened Graphs

  datatype Condition = Condition(fieldKey: Key, sourceFieldKey: Key)

  datatype Template = Template(fieldKeys: seq<Key>, conditions: seq<Condition>)

  /** What each question waits on, read straight off the rules. */
  function DependencyGraph(t: Template): Graph {
    map k | k in t.fieldKeys :: set c | c in t.conditions && c.fieldKey == k :: c.sourceFieldKey
  }

  method CollectDependencies(t: Template) returns (order: seq<Key>, dependencies: Graph)
    ensures dependencies == DependencyGraph(t)
    ensures ToSet(order) == dependencies.Keys
  {
    order, dependencies := [], map[];
    for i := 0 to |t.fieldKeys|
      invariant ToSet(order) == dependencies.Keys
      invariant dependencies == map k | k in t.fieldKeys[..i] :: {}
    {
      if t.fieldKeys[i] !in dependencies {
        order := order + [t.fieldKeys[i]];
      }
      dependencies := dependencies[t.fieldKeys[i] := {}];
    }
    assert t.fieldKeys[..|t.fieldKeys|] == t.fieldKeys;
    for i := 0 to |t.conditions|
      invariant ToSet(order) == dependencies.Keys
      invariant dependencies.Keys == ToSet(t.fieldKeys)
      invariant forall k :: k in dependencies ==>
        dependencies[k] == set c | c in t.conditions[..i] && c.fieldKey == k :: c.sourceFieldKey
    {
      var c := t.conditions[i];
      assert t.conditions[..i + 1] == t.conditions[..i] + [c];
      if c.fieldKey in dependencies {
        dependencies := dependencies[c.fieldKey := dependencies[c.fieldKey] + {c.sourceFieldKey}];
      }
    }
    assert t.conditions[..|t.conditions|] == t.conditions;
  }

  /** One pass over the questions: each that is ready is settled there and then, and readies those after it. */
  method SettlePass(order: seq<Key>, dependencies: Graph, before: set<Key>, ghost rankBefore: map<Key, nat>)
    returns (settled: set<Key>, ghost rank: map<Key, nat>, progressed: bool)
    requires ToSet(order) == dependencies.Keys && SettledInOrder(dependencies, before, rankBefore)
    ensures SettledInOrder(dependencies, settled, rank)
    ensures if progressed then before < settled else before == settled && NoneReady(dependencies, settled, dependencies.Keys)
  {
    settled, rank, progressed := before, rankBefore, false;
    for i := 0 to |order|
      invariant SettledInOrder(dependencies, settled, rank)
      invariant if progressed then before < settled else before == settled
      invariant !progressed ==> NoneReady(dependencies, settled, ToSet(order[..i]))
    {
      var key := order[i];
      assert order[..i + 1] == order[..i] + [key];
      if key in settled { continue; }
      if Ready(dependencies, settled, key) {
        SettleOne(dependencies, settled, rank, key);
        rank := rank[key := |settled|];
        settled := settled + {key};
        progressed := true;
      }
    }
    assert order[..|order|] == order;
  }

  /**
   * True exactly when some chain of rules leads from a question back to itself; false exactly
   * when the questions can be numbered so that each comes after every question it waits on.
   */
  method HasVisibilityCycle(t: Template) returns (cycle: bool)
    ensures cycle <==> Cyclic(DependencyGraph(t))
    ensures !cycle <==> exists rank :: Numbering(DependencyGraph(t), rank)
  {
    var order, dependencies := CollectDependencies(t);
    var settled: set<Key> := {};
    ghost var rank: map<Key, nat> := map[];
    var progressed := true;
    while progressed
      invariant SettledInOrder(dependencies, settled, rank)
      invariant !progressed ==> NoneReady(dependencies, settled, dependencies.Keys)
      decreases dependencies.Keys - settled, progressed
    {
      settled, rank, progressed := SettlePass(order, dependencies, settled, rank);
    }
    cycle := |settled| != |dependencies|;
    AllSettledOrCyclic(dependencies, settled, rank);
    AcyclicIffNumbered(dependencies);
  }
}
