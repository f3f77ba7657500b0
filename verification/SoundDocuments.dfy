/**
 * What each of the validator's rules buys (src/services/pipeline/validate.ts, and each effect's own checks in
 * src/services/pipeline/effects): over runs whose actions are taken with inputs their forms accept.
 */
module SoundDocuments {
  import opened Common
  import opened PipelineDefinitions
  import opened PipelineEffects
  import opened ActionInputs
  import opened ActionInputValues
  import opened PipelineValidation
  import opened PipelineRuns
  import opened PipelineRecords

  // ---- What the document says, rule by rule ----

  /** Names are names: no two recorded values, actions of a stage or inputs of an action share one. */
  lemma SoundNames(env: Env, stage: Stage, action: Action)
    requires SoundEnv(env) && Offered(env.definition, stage, action)
    ensures Distinct(RecordedKeys(env.definition.recordedValues)) && Distinct(ActionKeys(stage.actions)) && Distinct(InputKeys(action.inputs))
  {
    var d := env.definition;
    FoundStage(d.stages, stage.key);
    var s :| 0 <= s < |d.stages| && d.stages[s] == stage;
    forall k ensures !Repeated(RecordedKeys(d.recordedValues), k) { assert !IsProblem(d, RepeatedRecordedValue(k)); }
    forall k ensures !Repeated(ActionKeys(stage.actions), k) { assert !IsProblem(d, RepeatedAction(s, k)); }
    NotRepeatedIsDistinct(RecordedKeys(d.recordedValues));
    NotRepeatedIsDistinct(ActionKeys(stage.actions));
    SoundAction(env, stage, action, InputsNotAForm);
  }

  /** Every stage is on some route of configured moves, and some action of it has an effect that moves a file on. */
  lemma SoundStages(env: Env, stage: Stage)
    requires SoundEnv(env) && stage in env.definition.stages
    ensures Reached(env.definition, stage.key)
    ensures exists a, e :: a in stage.actions && e in a.effects && Moves(e.kind)
  {
    var d := env.definition;
    var s :| 0 <= s < |d.stages| && d.stages[s] == stage;
    assert !IsProblem(d, Unreached(s)) && !IsProblem(d, NothingLeaves(s));
  }

  /** A choice offers something to choose, and what is filled in beforehand from a recorded value is one there is. */
  lemma SoundInputs(env: Env, stage: Stage, action: Action, i: Input)
    requires SoundEnv(env) && Offered(env.definition, stage, action) && i in action.inputs
    ensures i.inputType.SingleChoice? || i.inputType.MultiChoice? ==> i.options != []
    ensures i.defaultFrom.Some? && i.defaultFrom.value.DefaultRecorded? ==>
      FindRecorded(env.definition.recordedValues, i.defaultFrom.value.key).Some?
  {
    var n :| 0 <= n < |action.inputs| && action.inputs[n] == i;
    SoundAction(env, stage, action, NoOptions(n));
    SoundAction(env, stage, action, BadDefault(n));
  }

  /** Every route of a choice can be chosen: its option is one the input offers. */
  lemma EveryRouteIsOffered(env: Env, stage: Stage, action: Action, e: Effect, option: Key)
    requires SoundEnv(env) && Offered(env.definition, stage, action) && e in action.effects && e.kind.MoveByChoice?
    requires option in e.kind.routes
    ensures exists i :: i in action.inputs && i.key == e.kind.input && i.inputType.SingleChoice? && option in i.options
  {
    SoundEffect(env, stage, action, e);
    assert !HasParamFault(env.definition, action, e.kind, UnknownInput);
    assert !HasRuleFault(env.definition, stage, action, e.kind, NotAChoice);
    assert !HasRuleFault(env.definition, stage, action, e.kind, RouteNotOffered);
    FoundInput(action.inputs, e.kind.input);
  }

  /** What is wrong with holding a flag while a file is worked, where no two flags share a key: the first of these that applies. */
  lemma FlagFaultSays(d: Definition, key: Key)
    requires Distinct(FlagKeys(d.statusFlags))
    ensures OrdinaryFault(d, key) ==
      if forall f :: f in d.statusFlags ==> f.key != key then Some(NoSuchFlag)
      else if Terminal(d, key) then Some(IsTerminal) else if Editable(d, key) then Some(IsEditable) else None
  {
    FoundFlag(d.statusFlags, key);
    forall f | f in d.statusFlags && f.key == key ensures FlagOf(d, key) == Some(f) {
      FindsEachFlag(d.statusFlags, f);
    }
    forall i | 0 <= i < |d.statusFlags| && d.statusFlags[i].key == key ensures FlagOf(d, key) == Some(d.statusFlags[i]) {
      assert d.statusFlags[i] in d.statusFlags;
    }
    if FlagOf(d, key).Some? {
      var i :| 0 <= i < |d.statusFlags| && d.statusFlags[i] == FlagOf(d, key).value;
    }
  }

  // ---- Accepted values, by what they are for ----

  /** A value as its declared type holds it. */
  predicate OfType(v: Value, t: InputType) {
    match t
    case Integer => v.Number?
    case Money => v.Number? && v.number >= 0
    case Boolean => v.Truth?
    case MultiChoice => v.Choices?
    case Statement => false
    case _ => v.Text?
  }

  /** An accepted value found under a key is the answer to the one input of that key, and of its type. */
  lemma AcceptedIsOfType(host: Host, action: Action, values: Values, k: Key)
    requires Accepted(host, action, values) && k in values
    ensures FindInput(action.inputs, k).Some? && FindInput(action.inputs, k).value in action.inputs
    ensures values[k] == Null || OfType(values[k], FindInput(action.inputs, k).value.inputType)
  {
    var submitted, now :| Validated(host, action, submitted, now, values);
    var i :| i in action.inputs && !i.inputType.Statement? && i.key == k;
    FindsEachInput(action.inputs, i);
    ReadingIsProper(host, i, Given(submitted, k), values[k], now);
    ProperIsOfType(host, i, Given(submitted, k), values[k], now);
  }

  lemma ProperIsOfType(host: Host, i: Input, given: Value, v: Value, now: int)
    requires !i.inputType.Statement? && Proper(host, i, given, v, now)
    ensures v == Null || OfType(v, i.inputType)
  {
  }

  /** What an officer writes as a note is never passed over for not being text. */
  lemma NotesAreText(env: Env, stage: Stage, action: Action, e: Effect, inputs: Values)
    requires SoundEnv(env) && Offered(env.definition, stage, action) && e in action.effects && e.kind.AddInternalNote?
    requires Accepted(env.host, action, inputs) && e.kind.input in inputs
    ensures inputs[e.kind.input] == Null || inputs[e.kind.input].Text?
  {
    SoundEffect(env, stage, action, e);
    assert !HasRuleFault(env.definition, stage, action, e.kind, NotLongText);
    AcceptedIsOfType(env.host, action, inputs, e.kind.input);
  }

  /** What a recording effect of a sound document is given is of the type its target is declared with. */
  lemma GivenIsOfType(env: Env, stage: Stage, action: Action, e: Effect, inputs: Values, v: Value)
    requires SoundEnv(env) && Offered(env.definition, stage, action) && e in action.effects && e.kind.SetRecordedValue?
    requires Accepted(env.host, action, inputs) && Lookup(inputs, e.kind.input) == Some(v) && v != Null
    ensures FindRecorded(env.definition.recordedValues, e.kind.target).Some?
    ensures OfType(v, FindRecorded(env.definition.recordedValues, e.kind.target).value.valueType)
    ensures (e.kind.atMostAnswer.Some? && e.kind.atMostAnswer.value != "") || e.kind.atMostCycleCeiling ==> v.Number?
  {
    SoundEffect(env, stage, action, e);
    assert !HasParamFault(env.definition, action, e.kind, UnknownRecorded);
    assert !HasRuleFault(env.definition, stage, action, e.kind, CannotHold);
    assert !HasRuleFault(env.definition, stage, action, e.kind, NotAnAmount);
    AcceptedIsOfType(env.host, action, inputs, e.kind.input);
  }

  /**
   * On every run of accepted inputs, whatever a file of a sound document holds recorded is declared, and of
   * the type it is declared with; and where the effect that recorded it names a bound, it is an amount within it.
   */
  lemma RecordedIsAsDeclared(env: Env, answers: Values, steps: seq<Step>, k: Key) returns (i: nat, e: Effect)
    requires SoundEnv(env) && AcceptedSteps(env.host, steps)
    requires Run(env, answers, steps).Some? && k in Run(env, answers, steps).value.state.recorded
    ensures var v := Run(env, answers, steps).value.state.recorded[k];
      && FindRecorded(env.definition.recordedValues, k).Some?
      && OfType(v, FindRecorded(env.definition.recordedValues, k).value.valueType)
      && GivenAt(env, answers, steps, k, v, i, e)
      && ((e.kind.atMostAnswer.Some? && e.kind.atMostAnswer.value != "") || e.kind.atMostCycleCeiling ==> v.Number?)
  {
    i, e := RecordedWasGiven(env, answers, steps, k);
    var f := Run(env, answers, steps[..i]).value;
    var stage := StageOf(env.definition, f.state.stageKey).value;
    FoundStage(env.definition.stages, f.state.stageKey.value);
    assert steps[i] in steps;
    GivenIsOfType(env, stage, steps[i].action, e, steps[i].inputs, Run(env, answers, steps).value.state.recorded[k]);
  }
}
