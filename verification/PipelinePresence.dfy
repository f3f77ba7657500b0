/**
 * Presence flags follow the stage (src/services/pipeline/definition.ts, src/services/pipeline/engine.ts):
 * what one plan does to them for any document, and when they are held exactly while the file is at a
 * stage that lists them, over every run.
 */
module PipelinePresence {
  import opened Common
  import opened PipelineDefinitions
  import opened PipelineEffects
  import opened PipelineEngine
  import opened PipelineValidation
  import opened PipelineRuns

  /**
   * Of any document: a plan that changes the stage leaves no presence flag of the stage left held, and of
   * the stage entered holds exactly those the stage left does not list and no removal that fires names.
   * So a flag both stages list is lost.
   */
  lemma PresenceAfterAMove(host: Host, c: Context, plan: Plan, k: Key)
    requires PlanOf(host, c) == Success(plan) && plan.toStageKey != Some(c.stage.key)
    ensures k in c.stage.presenceFlags ==> k !in plan.flags
    ensures k in PresenceAt(c.definition, plan.toStageKey) ==>
      (k in plan.flags <==> k !in c.stage.presenceFlags && !RemovesNow(host, c, k))
  {
    if RemovesNow(host, c, k) || k in c.stage.presenceFlags {
      RemovalWins(host, c, plan, k);
    } else if k in PresenceAt(c.definition, plan.toStageKey) && k !in plan.flags {
      LostFlagsGoTo(host, c, plan, k);
    }
  }

  // ---- Over every run ----

  function AllPresence(d: Definition): set<Key> { set s, k | s in d.stages && k in s.presenceFlags :: k }

  /** A presence flag is held exactly when the stage the file is at lists it. */
  ghost predicate PresenceHeld(d: Definition, s: FileState) {
    forall k :: k in AllPresence(d) ==> (k in s.flags <==> k in PresenceAt(d, s.stageKey))
  }

  /** No effect adds or removes a presence flag by name. */
  ghost predicate EffectsLeavePresence(d: Definition) {
    forall s, a, e :: s in d.stages && a in s.actions && e in a.effects && (e.kind.AddStatus? || e.kind.RemoveStatus?) ==>
      e.kind.flag !in AllPresence(d)
  }

  ghost predicate MovesShareNoPresence(d: Definition) {
    forall a, b :: MoveEdge(d, a, b) ==> PresenceAt(d, Some(a)) !! PresenceAt(d, Some(b))
  }

  /** What submission adds is, of the presence flags, exactly those of the stage files enter. */
  ghost predicate SubmitsPresenceOfTheStart(d: Definition) {
    forall k :: k in AllPresence(d) ==> (k in d.onSubmit <==> k in PresenceAt(d, Some(d.initialStageKey)))
  }

  lemma PresenceIsOrdinary(env: Env, k: Key)
    requires SoundEnv(env) && k in AllPresence(env.definition)
    ensures Ordinary(env.definition, k) && k !in EditableFlags(env.definition)
  {
    var s :| s in env.definition.stages && k in s.presenceFlags;
    SoundKeys(env);
    FindsEachStage(env.definition.stages, s);
    PresenceFlagsAreOrdinary(env, Some(s.key), k);
  }

  lemma PresenceIsAmongAll(d: Definition, stageKey: Option<Key>)
    ensures PresenceAt(d, stageKey) <= AllPresence(d)
  {
    if stageKey.Some? { FoundStage(d.stages, stageKey.value); }
  }

  /** What an action taken from where the presence flags are right makes of one of them. */
  lemma PresenceAfterTake(env: Env, f: File, action: Action, inputs: Values, plan: Plan, k: Key)
    requires SoundEnv(env) && EffectsLeavePresence(env.definition) && k in AllPresence(env.definition)
    requires PlanFor(env, f, action, inputs) == Some(plan) && PresenceHeld(env.definition, f.state)
    ensures k in Written(f.state, plan).flags <==>
      k in PresenceAt(env.definition, plan.toStageKey)
      && (plan.toStageKey != f.state.stageKey ==> k !in PresenceAt(env.definition, f.state.stageKey))
  {
    var d := env.definition;
    var stage := StageOf(d, f.state.stageKey).value;
    var c := ContextOf(env, f, stage, action, inputs);
    FoundStage(d.stages, f.state.stageKey.value);
    PresenceIsOrdinary(env, k);
    SoundFlags(env, stage, action, k);
    WrittenFlagsAreThePlans(env.host, c, plan);
    DestinationComesFromAnEffect(env.host, c, plan);
    if k in plan.flags {
      HeldFlagsComeFrom(env.host, c, plan, k);
    }
    if plan.toStageKey != Some(stage.key) {
      PresenceAfterAMove(env.host, c, plan, k);
    } else if k !in plan.flags && k in f.state.flags {
      LostFlagsGoTo(env.host, c, plan, k);
    }
  }

  /** From where the presence flags are right, an action leaves them right exactly when the stages it joins share none. */
  lemma TakeKeepsPresenceExactly(env: Env, f: File, action: Action, inputs: Values, plan: Plan)
    requires SoundEnv(env) && EffectsLeavePresence(env.definition)
    requires PlanFor(env, f, action, inputs) == Some(plan) && PresenceHeld(env.definition, f.state)
    ensures PresenceHeld(env.definition, Written(f.state, plan)) <==>
      plan.toStageKey == f.state.stageKey ||
      PresenceAt(env.definition, f.state.stageKey) !! PresenceAt(env.definition, plan.toStageKey)
  {
    var d := env.definition;
    var here, there := PresenceAt(d, f.state.stageKey), PresenceAt(d, plan.toStageKey);
    forall k | k in AllPresence(d)
      ensures k in Written(f.state, plan).flags <==> k in there && (plan.toStageKey != f.state.stageKey ==> k !in here)
    {
      PresenceAfterTake(env, f, action, inputs, plan, k);
    }
    PresenceIsAmongAll(d, f.state.stageKey);
    PresenceIsAmongAll(d, plan.toStageKey);
    if k :| k in here && k in there {
      assert k in AllPresence(d);
    }
  }

  lemma StepKeepsPresence(env: Env, f: File, s: Step)
    requires SoundEnv(env) && EffectsLeavePresence(env.definition) && MovesShareNoPresence(env.definition)
    requires Safe(env.definition, f) && PresenceHeld(env.definition, f.state) && Stepped(env, f, s).Some?
    ensures PresenceHeld(env.definition, Stepped(env, f, s).value.state)
  {
    var d := env.definition;
    if s.Take? {
      var plan := PlanFor(env, f, s.action, s.inputs).value;
      JoinedByAMove(env, f, s.action, s.inputs, plan);
      TakeKeepsPresenceExactly(env, f, s.action, s.inputs, plan);
    } else {
      forall k | k in AllPresence(d) ensures k !in EditableFlags(d) { PresenceIsOrdinary(env, k); }
    }
  }

  /** The stage a plan leaves and the one it enters are joined by a configured move, one way or the other. */
  lemma JoinedByAMove(env: Env, f: File, action: Action, inputs: Values, plan: Plan)
    requires SoundEnv(env) && Safe(env.definition, f) && PlanFor(env, f, action, inputs) == Some(plan)
    ensures plan.toStageKey.Some? && plan.toStageKey != f.state.stageKey ==>
      || MoveEdge(env.definition, f.state.stageKey.value, plan.toStageKey.value)
      || MoveEdge(env.definition, plan.toStageKey.value, f.state.stageKey.value)
  {
    var stage := StageOf(env.definition, f.state.stageKey).value;
    FoundStage(env.definition.stages, f.state.stageKey.value);
    DestinationComesFromAnEffect(env.host, ContextOf(env, f, stage, action, inputs), plan);
    if plan.trailOp == Push {
      SoundMove(env, stage, action, plan.toStageKey.value);
    } else if plan.trailOp == Pop {
      var stack := Stack(f.state);
      assert MoveEdge(env.definition, stack[|stack| - 2], stack[|stack| - 1]);
    }
  }

  lemma {:induction false} RunKeepsPresence(env: Env, answers: Values, steps: seq<Step>)
    requires SoundEnv(env) && EffectsLeavePresence(env.definition) && MovesShareNoPresence(env.definition)
    requires SubmitsPresenceOfTheStart(env.definition) && Run(env, answers, steps).Some?
    ensures PresenceHeld(env.definition, Run(env, answers, steps).value.state)
  {
    if steps != [] {
      var front := steps[..|steps| - 1];
      RunKeepsPresence(env, answers, front);
      EveryRunIsSafe(env, answers, front);
      StepKeepsPresence(env, Run(env, answers, front).value, steps[|steps| - 1]);
    }
  }

  /** Every file this far into any run has its presence flags right. */
  ghost predicate PresenceOnEveryRun(env: Env, answers: Values) {
    forall steps :: Run(env, answers, steps).Some? ==> PresenceHeld(env.definition, Run(env, answers, steps).value.state)
  }

  /**
   * Where no effect names a presence flag and stages joined by a move share none, the presence flags are
   * right on every run exactly when submission adds the entry stage's presence flags itself: nothing else does.
   */
  lemma PresenceFollowsTheStageIffSubmitted(env: Env, answers: Values)
    requires SoundEnv(env) && EffectsLeavePresence(env.definition) && MovesShareNoPresence(env.definition)
    ensures PresenceOnEveryRun(env, answers) <==> SubmitsPresenceOfTheStart(env.definition)
  {
    if SubmitsPresenceOfTheStart(env.definition) {
      forall steps | Run(env, answers, steps).Some? ensures PresenceHeld(env.definition, Run(env, answers, steps).value.state) {
        RunKeepsPresence(env, answers, steps);
      }
    }
    assert Run(env, answers, []) == Some(Submitted(env, answers));
  }
}
