/**
 * What a configured condition means (src/services/pipeline/condition-sources.ts, src/services/application/form/
 * conditions.ts), and that no condition of a sound document is silently never true (src/services/pipeline/validate.ts).
 */
module PipelineConditions {
  import opened Common
  import opened PipelineDefinitions
  import opened PipelineValidation
  import opened PipelineRuns

  // ---- What one condition reads ----

  /** What stands where a condition looks: an answer, a recorded value, an input, or whether a flag is held. */
  function InPlace(state: FileState, inputs: Values, c: Condition): Option<Value> {
    match c.source
    case FromAnswer => Lookup(state.answers, c.key)
    case FromRecorded => Lookup(state.recorded, c.key)
    case FromInput => Lookup(inputs, c.key)
    case FromFlag => if c.key in state.flags then Some(Truth(true)) else None
  }

  /** A condition with an operand has one whatever the file holds, and it is what stands in its place. */
  lemma OperandIsInItsPlace(d: Definition, action: Action, c: Condition, state: FileState, inputs: Values)
    ensures var operand := Operand(d, state, inputs, action, c);
      && (operand.Some? ==> operand.value.0 == InPlace(state, inputs, c))
      && (operand.None? ==> forall s, i :: Operand(d, s, i, action, c).None?)
  {
  }

  /**
   * A condition is a fault exactly when no state of a file and no inputs ever give it anything to compare,
   * or it reads an input before there are any.
   */
  lemma FaultIffNothingToRead(d: Definition, action: Action, c: Condition, allowInputs: bool)
    ensures ConditionFault(d, action, c, allowInputs) <==>
      (forall state, inputs :: Operand(d, state, inputs, action, c).None?) || (c.source.FromInput? && !allowInputs)
  {
    var state := FileState(None, {}, map[], [], map[]);
    OperandIsInItsPlace(d, action, c, state, map[]);
    if !ConditionFault(d, action, c, allowInputs) { assert Operand(d, state, map[], action, c).Some?; }
  }

  /** The action's conditions that may be wrong, by the problem that says so, and whether inputs exist where they are read. */
  predicate IsConditionOf(action: Action, p: ActionProblem, c: Condition, hasInputs: bool) {
    match p
    case AvailableCondition(k) => k < |action.availableWhen| && action.availableWhen[k] == c && !hasInputs
    case EffectCondition(e, k) => e < |action.effects| && k < |action.effects[e].when| && action.effects[e].when[k] == c && hasInputs
    case InputCondition(i, k) =>
      i < |action.inputs| && k < |action.inputs[i].visibleWhen| && action.inputs[i].visibleWhen[k] == c && hasInputs
    case _ => false
  }

  /** The document's problem with a condition is just that: it can never compare anything. */
  lemma ConditionProblemIffNothingToRead(d: Definition, s: nat, a: nat, p: ActionProblem, c: Condition, hasInputs: bool)
    requires s < |d.stages| && a < |d.stages[s].actions| && IsConditionOf(d.stages[s].actions[a], p, c, hasInputs)
    ensures IsProblem(d, InAction(s, a, p)) <==>
      || (forall state, inputs :: Operand(d, state, inputs, d.stages[s].actions[a], c).None?)
      || (c.source.FromInput? && !hasInputs)
  {
    FaultIffNothingToRead(d, d.stages[s].actions[a], c, hasInputs);
  }

  /** Every condition of a sound document's actions has something to compare, in every state and with any inputs. */
  lemma EveryConditionReads(env: Env, stage: Stage, action: Action, c: Condition, state: FileState, inputs: Values)
    requires SoundEnv(env) && Offered(env.definition, stage, action)
    requires c in action.availableWhen || exists e :: e in action.effects && c in e.when
    ensures Operand(env.definition, state, inputs, action, c).Some?
  {
    var d := env.definition;
    if c in action.availableWhen {
      var k :| 0 <= k < |action.availableWhen| && action.availableWhen[k] == c;
      SoundAction(env, stage, action, AvailableCondition(k));
      FaultIffNothingToRead(d, action, c, false);
    } else {
      var e :| e in action.effects && c in e.when;
      var n :| 0 <= n < |action.effects| && action.effects[n] == e;
      var k :| 0 <= k < |e.when| && e.when[k] == c;
      SoundAction(env, stage, action, EffectCondition(n, k));
      FaultIffNothingToRead(d, action, c, true);
    }
    OperandIsInItsPlace(d, action, c, state, inputs);
  }

  /**
   * So asking whether something is there always gets one answer or the other: of a condition and the same one
   * with IS_ABSENT for IS_PRESENT, exactly one holds. Of a condition with nothing to read, neither would.
   */
  lemma PresentOrAbsent(env: Env, stage: Stage, action: Action, c: Condition, state: FileState, inputs: Values)
    requires SoundEnv(env) && Offered(env.definition, stage, action)
    requires c in action.availableWhen || exists e :: e in action.effects && c in e.when
    ensures Holds(env.host, env.definition, state, inputs, action, c.(operator := IsPresent))
      <==> !Holds(env.host, env.definition, state, inputs, action, c.(operator := IsAbsent))
    ensures Holds(env.host, env.definition, state, inputs, action, c.(operator := IsPresent))
      <==> IsAnswered(InPlace(state, inputs, c))
  {
    EveryConditionReads(env, stage, action, c, state, inputs);
    OperandIsInItsPlace(env.definition, action, c, state, inputs);
  }

  // ---- What a comparison says ----

  lemma {:induction false} DecimalKeepsApart(a: nat, b: nat)
    ensures Decimal(a) == Decimal(b) ==> a == b
    ensures Decimal(a) != "" && '0' <= Decimal(a)[0] <= '9'
    decreases a
  {
    if a >= 10 { DecimalKeepsApart(a / 10, if b >= 10 then b / 10 else 0); }
    if Decimal(a) == Decimal(b) {
      if a >= 10 && b >= 10 {
        assert Decimal(a)[..|Decimal(a)| - 1] == Decimal(a / 10) && Decimal(b)[..|Decimal(b)| - 1] == Decimal(b / 10);
        assert Decimal(a)[|Decimal(a)| - 1] == Decimal(b)[|Decimal(b)| - 1];
      } else if b >= 10 {
        TwoDigitsOrMore(b);
      }
    }
  }

  lemma TwoDigitsOrMore(n: nat)
    requires n >= 10
    ensures |Decimal(n)| > 1
  {
    assert |Decimal(n)| == |Decimal(n / 10)| + 1;
    assert Decimal(n / 10) != "";
  }

  /** A number is compared by its decimal, and no two numbers have the same. */
  lemma NumbersKeepApart(a: int, b: int)
    ensures Shown(Number(a)) == Shown(Number(b)) <==> a == b
  {
    DecimalKeepsApart(if a < 0 then -a else a, if b < 0 then -b else b);
    DecimalKeepsApart(if b < 0 then -b else b, 0);
    if a < 0 { assert Shown(Number(a))[0] == '-' && Shown(Number(a))[1..] == Decimal(-a); }
    if b < 0 { assert Shown(Number(b))[0] == '-' && Shown(Number(b))[1..] == Decimal(-b); }
  }

  /**
   * An unanswered operand satisfies IS_ABSENT and nothing else; an answered one equals or does not equal what it
   * is compared with, never both and never neither; a list equals each text in it, and a text itself.
   */
  lemma ComparisonLaws(host: Host, operator: Operator, answer: Option<Value>, expected: string, inputType: InputType)
    ensures !IsAnswered(answer) ==> (CompareValue(host, operator, answer, Some(expected), inputType) <==> operator.IsAbsent?)
    ensures IsAnswered(answer) && operator.IsPresent? ==> CompareValue(host, operator, answer, Some(expected), inputType)
    ensures IsAnswered(answer) && operator.IsAbsent? ==> !CompareValue(host, operator, answer, Some(expected), inputType)
    ensures IsAnswered(answer) ==>
      (CompareValue(host, Equals, answer, Some(expected), inputType) <==> !CompareValue(host, NotEquals, answer, Some(expected), inputType))
    ensures CompareValue(host, Equals, answer, Some(expected), inputType) <==>
      (IsAnswered(answer) &&
        match answer.value
        case Choices(choices) => exists k :: 0 <= k < |choices| && choices[k] == expected
        case Text(text) => text == expected
        case Truth(truth) => expected == (if truth then "true" else "false")
        case Number(n) => expected == Shown(Number(n)))
    ensures CompareValue(host, operator, answer, None, inputType) ==> operator.IsPresent? || operator.IsAbsent?
  {
  }

  // ---- What a list of conditions says ----

  /** Some condition is of this group, and all that are hold. */
  ghost predicate GroupHolds(host: Host, d: Definition, state: FileState, inputs: Values, action: Action, conditions: seq<Condition>, group: nat) {
    && (exists c :: c in conditions && c.group == group)
    && forall c :: c in conditions && c.group == group ==> Holds(host, d, state, inputs, action, c)
  }

  /** Within a group every condition must hold; any one whole group is enough; and no conditions at all hold. */
  lemma AnyWholeGroupIsEnough(host: Host, d: Definition, state: FileState, inputs: Values, action: Action, conditions: seq<Condition>)
    ensures ConditionsHold(host, d, state, inputs, action, conditions) <==>
      conditions == [] || exists group :: GroupHolds(host, d, state, inputs, action, conditions, group)
  {
    forall i | 0 <= i < |conditions|
      ensures GroupHolds(host, d, state, inputs, action, conditions, conditions[i].group) <==>
        forall j :: 0 <= j < |conditions| && conditions[j].group == conditions[i].group ==>
          Holds(host, d, state, inputs, action, conditions[j])
    {
      assert conditions[i] in conditions;
    }
    if conditions != [] && ConditionsHold(host, d, state, inputs, action, conditions) {
      var i :| 0 <= i < |conditions| && forall j :: 0 <= j < |conditions| && conditions[j].group == conditions[i].group ==>
        Holds(host, d, state, inputs, action, conditions[j]);
      assert GroupHolds(host, d, state, inputs, action, conditions, conditions[i].group);
    }
    if group :| GroupHolds(host, d, state, inputs, action, conditions, group) {
      var c :| c in conditions && c.group == group;
      var i :| 0 <= i < |conditions| && conditions[i] == c;
    }
  }
}
