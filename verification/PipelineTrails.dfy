/**
 * Returns match moves as closing brackets match opening ones: what a file's trail is for
 * (src/services/pipeline/engine.ts, src/services/pipeline/registry.ts).
 */
module PipelineTrails {
  import opened Common
  import opened PipelineDefinitions
  import opened PipelineEffects
  import opened PipelineEngine
  import opened PipelineRuns

  /** How a step changes the trail's depth. */
  function Turn(env: Env, f: File, s: Step): int {
    if !s.Take? || PlanFor(env, f, s.action, s.inputs).None? then 0
    else match PlanFor(env, f, s.action, s.inputs).value.trailOp case Push => 1 case Pop => -1 case Stay => 0
  }

  /** Moves taken less returns taken. */
  function Depth(env: Env, f: File, steps: seq<Step>): int {
    if steps == [] then 0
    else
      var front := steps[..|steps| - 1];
      var before := RunFrom(env, f, front);
      Depth(env, f, front) + if before.Some? then Turn(env, before.value, steps[|steps| - 1]) else 0
  }

  /** No prefix of the run returns more often than it has moved. */
  ghost predicate NeverBelow(env: Env, f: File, steps: seq<Step>) {
    forall i :: 0 <= i <= |steps| ==> Depth(env, f, steps[..i]) >= 0
  }

  /** A run that stays above where it began keeps the whole stack it began with underneath, however deep it goes. */
  lemma {:induction false} StackIsKeptUnderneath(env: Env, f: File, steps: seq<Step>)
    requires RunFrom(env, f, steps).Some? && RunFrom(env, f, steps).value.state.stageKey.Some?
    requires NeverBelow(env, f, steps)
    ensures Stack(f.state) <= Stack(RunFrom(env, f, steps).value.state)
    ensures |Stack(RunFrom(env, f, steps).value.state)| == |Stack(f.state)| + Depth(env, f, steps)
  {
    if steps != [] {
      var front, s := steps[..|steps| - 1], steps[|steps| - 1];
      var before := RunFrom(env, f, front).value;
      forall i | 0 <= i <= |front| ensures Depth(env, f, front[..i]) >= 0 {
        assert front[..i] == steps[..i];
      }
      assert steps[..|steps|] == steps;
      if s.Take? {
        StackAfter(env, before, s.action, s.inputs, PlanFor(env, before, s.action, s.inputs).value);
      }
      StackIsKeptUnderneath(env, f, front);
    }
  }

  /**
   * Any balanced run of moves and returns, with any other actions, resubmissions and withdrawn requests
   * among them, ends at the very stage and trail it began with.
   */
  lemma BracketsMatch(env: Env, f: File, steps: seq<Step>)
    requires RunFrom(env, f, steps).Some? && f.state.stageKey.Some? && RunFrom(env, f, steps).value.state.stageKey.Some?
    requires NeverBelow(env, f, steps) && Depth(env, f, steps) == 0
    ensures RunFrom(env, f, steps).value.state.stageKey == f.state.stageKey
    ensures RunFrom(env, f, steps).value.state.trail == f.state.trail
  {
    StackIsKeptUnderneath(env, f, steps);
    var after := RunFrom(env, f, steps).value;
    assert Stack(after.state) == Stack(f.state);
    assert after.state.trail == Stack(after.state)[..|Stack(after.state)| - 1];
    assert f.state.trail == Stack(f.state)[..|Stack(f.state)| - 1];
  }

  // ---- When a return is refused ----

  lemma {:induction false} OnlyTheReturnRefuses(host: Host, c: Context, effects: seq<Effect>)
    requires forall e :: e in effects && Fires(host, c, e) && !e.kind.ReturnToPrevious? ==> PlanEffect(host, e.kind, c).Success?
    ensures Fired(host, c, effects).Failure? <==> c.state.trail == [] && exists e :: e in effects && Fires(host, c, e) && e.kind.ReturnToPrevious?
    ensures Fired(host, c, effects).Failure? ==> Fired(host, c, effects) == Failure(NoEarlierStage)
  {
    if effects != [] {
      OnlyTheReturnRefuses(host, c, effects[..|effects| - 1]);
      assert effects == effects[..|effects| - 1] + [effects[|effects| - 1]];
    }
  }

  /** An action whose return fires, and none of whose other effects refuses, is refused exactly when the trail is empty. */
  lemma ReturnIsRefusedExactlyAtAnEmptyTrail(env: Env, f: File, stage: Stage, action: Action, inputs: Values, e: Effect)
    requires SoundEnv(env) && Offered(env.definition, stage, action)
    requires var c := ContextOf(env, f, stage, action, inputs);
      && e in action.effects && e.kind.ReturnToPrevious? && Fires(env.host, c, e)
      && forall x :: x in action.effects && Fires(env.host, c, x) && !x.kind.ReturnToPrevious? ==> PlanEffect(env.host, x.kind, c).Success?
    ensures var outcome := PlanOf(env.host, ContextOf(env, f, stage, action, inputs));
      && (outcome == Failure(NoEarlierStage) <==> f.state.trail == [])
      && (outcome.Success? <==> f.state.trail != [])
      && (outcome.Success? ==> outcome.value.toStageKey == Some(f.state.trail[|f.state.trail| - 1]) && outcome.value.trailOp == Pop)
  {
    var c := ContextOf(env, f, stage, action, inputs);
    OnlyTheReturnRefuses(env.host, c, action.effects);
    if f.state.trail != [] {
      NeverClashes(env, c);
      ReturnGoesBack(env.host, c, Fired(env.host, c, action.effects).value, e);
    }
  }

  lemma ReturnGoesBack(host: Host, c: Context, fragments: seq<Fragment>, e: Effect)
    requires Fired(host, c, c.action.effects) == Success(fragments) && !Clash(fragments)
    requires e in c.action.effects && e.kind.ReturnToPrevious? && Fires(host, c, e)
    ensures c.state.trail != [] && PlanOf(host, c).Success?
    ensures PlanOf(host, c).value.toStageKey == Some(c.state.trail[|c.state.trail| - 1]) && PlanOf(host, c).value.trailOp == Pop
  {
    OnlyItMoves(host, c, fragments, e);
  }

  /**
   * On every run of a sound document no action is ever refused for want of an earlier stage: the trail is
   * empty only where files enter, and no action there returns.
   */
  lemma NoReturnIsEverRefused(env: Env, answers: Values, steps: seq<Step>, stage: Stage, action: Action, inputs: Values)
    requires SoundEnv(env) && Run(env, answers, steps).Some?
    requires StageOf(env.definition, Run(env, answers, steps).value.state.stageKey) == Some(stage) && action in stage.actions
    ensures PlanOf(env.host, ContextOf(env, Run(env, answers, steps).value, stage, action, inputs)) != Failure(NoEarlierStage)
  {
    var f := Run(env, answers, steps).value;
    var c := ContextOf(env, f, stage, action, inputs);
    FoundStage(env.definition.stages, f.state.stageKey.value);
    if f.state.trail == [] {
      AnEmptyTrailIsTheStart(env, answers, steps);
      NothingReturnsFromTheStart(env, stage, action);
      NoReturnNoRefusal(env.host, c);
    } else {
      NeverIncompatible(env, f, stage, action, inputs);
    }
  }

  lemma AnEmptyTrailIsTheStart(env: Env, answers: Values, steps: seq<Step>)
    requires SoundEnv(env) && Run(env, answers, steps).Some?
    ensures var s := Run(env, answers, steps).value.state;
      s.trail == [] && s.stageKey.Some? ==> s.stageKey == Some(env.definition.initialStageKey)
  {
    EveryRunIsSafe(env, answers, steps);
    var s := Run(env, answers, steps).value.state;
    if s.trail == [] && s.stageKey.Some? {
      assert Stack(s)[0] == s.stageKey.value;
    }
  }

  lemma NothingReturnsFromTheStart(env: Env, stage: Stage, action: Action)
    requires SoundEnv(env) && Offered(env.definition, stage, action) && stage.key == env.definition.initialStageKey
    ensures forall e :: e in action.effects ==> !e.kind.ReturnToPrevious?
  {
    forall e | e in action.effects ensures !e.kind.ReturnToPrevious? {
      SoundEffect(env, stage, action, e);
      assert !HasRuleFault(env.definition, stage, action, e.kind, NothingToReturnFrom);
    }
  }

  lemma {:induction false} NoReturnFires(host: Host, c: Context, effects: seq<Effect>)
    requires forall e :: e in effects ==> !e.kind.ReturnToPrevious?
    ensures Fired(host, c, effects) != Failure(NoEarlierStage)
  {
    if effects != [] {
      NoReturnFires(host, c, effects[..|effects| - 1]);
    }
  }

  lemma NoReturnNoRefusal(host: Host, c: Context)
    requires forall e :: e in c.action.effects ==> !e.kind.ReturnToPrevious?
    ensures PlanOf(host, c) != Failure(NoEarlierStage)
  {
    NoReturnFires(host, c, c.action.effects);
    var fired := Fired(host, c, c.action.effects);
    if fired.Success? && MovesOf(fired.value) != [] {
      var f := FragmentMoving(fired.value, MovesOf(fired.value)[0]);
      var e := EffectBehind(host, c, c.action.effects, fired.value, f);
      MoveOfEffect(host, e.kind, c);
    }
  }

  /** On every run of a sound document, an action that moves or returns a file leaves it at another stage. */
  lemma MovesChangeTheStage(env: Env, answers: Values, steps: seq<Step>, action: Action, inputs: Values)
    requires SoundEnv(env) && Run(env, answers, steps).Some?
    requires PlanFor(env, Run(env, answers, steps).value, action, inputs).Some?
    ensures var f := Run(env, answers, steps).value;
      var plan := PlanFor(env, f, action, inputs).value;
      plan.trailOp != Stay ==> plan.toStageKey.Some? && plan.toStageKey != f.state.stageKey
  {
    var f := Run(env, answers, steps).value;
    var plan := PlanFor(env, f, action, inputs).value;
    var stage := StageOf(env.definition, f.state.stageKey).value;
    EveryRunIsSafe(env, answers, steps);
    FoundStage(env.definition.stages, f.state.stageKey.value);
    StackAfter(env, f, action, inputs, plan);
    DestinationComesFromAnEffect(env.host, ContextOf(env, f, stage, action, inputs), plan);
    if plan.trailOp == Push {
      SoundMove(env, stage, action, plan.toStageKey.value);
    } else if plan.trailOp == Pop {
      var stack := Stack(f.state);
      assert stack[|stack| - 2] != stack[|stack| - 1];
    }
  }
}
