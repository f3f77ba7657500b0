/**
 * What a pipeline nothing is wrong with can still do: one small document that passes validation
 * (src/services/pipeline/validate.ts) and shows where promises of its documentation stop.
 */
module PipelineOddities {
  import opened Common
  import opened PipelineDefinitions
  import opened PipelineEffects
  import opened PipelineEngine
  import opened PipelineValidation
  import opened PipelineSoundness
  import opened PipelineRuns

  const DESK: Key := "DESK"
  const HALL: Key := "HALLWAY"
  const YARD: Key := "YARDS"
  const HERE: Key := "HERE"
  const ENDED: Key := "ENDED"
  const KEPT: Key := "KEPT_OPEN"

  function EndUnmarked(): Action { Action("END", [], [], [Effect(CompletePipeline(ENDED), []), Effect(RemoveStatus(ENDED), [])]) }

  function EndKeptOpen(): Action { Action("CLOSE", [], [], [Effect(CloseApplication(KEPT), [])]) }

  function Onward(to: Key): Action { Action("ON", [], [], [Effect(MoveToStage(to), [])]) }

  function Desk(): Stage { Stage(DESK, [HERE], [EndUnmarked(), EndKeptOpen(), Onward(HALL)]) }

  function Hall(): Stage { Stage(HALL, [HERE], [Onward(YARD)]) }

  function Yard(): Stage { Stage(YARD, [], [Onward(HALL)]) }

  function Flags(): seq<StatusFlag> {
    [StatusFlag(HERE, false, false, false), StatusFlag(ENDED, true, true, false), StatusFlag(KEPT, true, true, true)]
  }

  function Odd(onSubmit: seq<Key>): Definition { Definition(DESK, onSubmit, Flags(), [], [Desk(), Hall(), Yard()]) }

  /** Submission may add the entry stage's presence flag, or not. */
  predicate Allowed(onSubmit: seq<Key>) { onSubmit == [] || onSubmit == [HERE] }

  // ---- Nothing is wrong with it ----

  lemma OddFlags(onSubmit: seq<Key>)
    ensures Distinct(FlagKeys(Flags()))
    ensures FlagOf(Odd(onSubmit), HERE) == Some(StatusFlag(HERE, false, false, false))
    ensures FlagOf(Odd(onSubmit), ENDED) == Some(StatusFlag(ENDED, true, true, false))
    ensures FlagOf(Odd(onSubmit), KEPT) == Some(StatusFlag(KEPT, true, true, true))
  {
    assert |HERE| == 4 && |ENDED| == 5 && |KEPT| == 9;
    assert FlagKeys(Flags()) == [HERE, ENDED, KEPT];
    FindsEachFlag(Flags(), Flags()[0]);
    FindsEachFlag(Flags(), Flags()[1]);
    FindsEachFlag(Flags(), Flags()[2]);
  }

  lemma OddStages(onSubmit: seq<Key>)
    ensures DESK != HALL && HALL != YARD && DESK != YARD && Distinct(StageKeys(Odd(onSubmit).stages))
    ensures FindStage(Odd(onSubmit).stages, DESK) == Some(Desk())
    ensures FindStage(Odd(onSubmit).stages, HALL) == Some(Hall())
    ensures FindStage(Odd(onSubmit).stages, YARD) == Some(Yard())
  {
    var stages := Odd(onSubmit).stages;
    assert |DESK| == 4 && |HALL| == 7 && |YARD| == 5;
    assert StageKeys(stages) == [DESK, HALL, YARD];
    FindsEachStage(stages, stages[0]);
    FindsEachStage(stages, stages[1]);
    FindsEachStage(stages, stages[2]);
  }

  lemma OnwardFits(d: Definition, stage: Stage, to: Key)
    requires to != stage.key && FindStage(d.stages, to).Some?
    ensures Fits(d, stage, Onward(to), 0)
  {
  }

  lemma EndsFit(d: Definition, stage: Stage)
    requires FlagOf(d, ENDED) == Some(StatusFlag(ENDED, true, true, false)) && FlagOf(d, KEPT) == Some(StatusFlag(KEPT, true, true, true))
    ensures Fits(d, stage, EndUnmarked(), 0) && Fits(d, stage, EndKeptOpen(), 0)
  {
    EndFits(d, stage, EndUnmarked(), StatusFlag(ENDED, true, true, false));
    StatusFits(d, stage, EndUnmarked(), StatusFlag(ENDED, true, true, false));
    EndFits(d, stage, EndKeptOpen(), StatusFlag(KEPT, true, true, true));
  }

  lemma EndTargets()
    ensures StageTargets(Desk()) == {HALL} && StageTargets(Hall()) == {YARD} && StageTargets(Yard()) == {HALL}
  {
    NoTargets(EndUnmarked());
    NoTargets(EndKeptOpen());
    OneTarget(Onward(HALL));
    OneTarget(Onward(YARD));
    OneActionMoves(Desk(), Onward(HALL));
    OneActionMoves(Hall(), Onward(YARD));
    OneActionMoves(Yard(), Onward(HALL));
  }

  lemma EachIsReached(onSubmit: seq<Key>)
    ensures Reached(Odd(onSubmit), DESK) && Reached(Odd(onSubmit), HALL) && Reached(Odd(onSubmit), YARD)
  {
    var d := Odd(onSubmit);
    OddStages(onSubmit);
    EndTargets();
    assert Route(d, [DESK]);
    OneMoreMove(d, DESK, HALL);
    OneMoreMove(d, HALL, YARD);
  }

  lemma ActionsFit(onSubmit: seq<Key>, s: Stage, a: Action, p: ActionProblem)
    requires Allowed(onSubmit) && s in Odd(onSubmit).stages && a in s.actions
    ensures !IsActionProblem(Odd(onSubmit), s, a, p)
  {
    var d := Odd(onSubmit);
    OddFlags(onSubmit);
    OddStages(onSubmit);
    if s == Desk() {
      EndsFit(d, s);
      OnwardFits(d, s, HALL);
    } else if s == Hall() {
      OnwardFits(d, s, YARD);
    } else {
      OnwardFits(d, s, HALL);
    }
    FittingActionHasNoProblem(d, s, a, 0, p);
  }

  lemma EachIsLeft(s: Stage)
    requires s in [Desk(), Hall(), Yard()]
    ensures StageIsLeft(s) && Distinct(ActionKeys(s.actions)) && StageEnds(Desk())
  {
    assert |"END"| == 3 && |"CLOSE"| == 5 && |"ON"| == 2;
    assert ActionKeys(Desk().actions) == ["END", "CLOSE", "ON"];
    assert Effect(MoveToStage(HALL), []) in Onward(HALL).effects && Effect(MoveToStage(YARD), []) in Onward(YARD).effects;
    assert EndKeptOpen() in Desk().actions && Effect(CloseApplication(KEPT), []) in EndKeptOpen().effects;
  }

  lemma NoPresenceIsWrong(onSubmit: seq<Key>, s: Stage)
    requires s in Odd(onSubmit).stages
    ensures forall k :: k in s.presenceFlags ==> OrdinaryFault(Odd(onSubmit), k).None?
  {
    OddFlags(onSubmit);
    assert forall k :: k in s.presenceFlags ==> k == HERE;
  }

  lemma NothingIsWrongAt(onSubmit: seq<Key>, s: Stage)
    requires Allowed(onSubmit) && s in Odd(onSubmit).stages
    ensures NothingWrongAt(Odd(onSubmit), s)
  {
    NoPresenceIsWrong(onSubmit, s);
    EachIsReached(onSubmit);
    EachIsLeft(s);
    forall a, p | a in s.actions ensures !IsActionProblem(Odd(onSubmit), s, a, p) { ActionsFit(onSubmit, s, a, p); }
  }

  lemma OddIsSound(onSubmit: seq<Key>)
    requires Allowed(onSubmit)
    ensures Sound(Odd(onSubmit))
  {
    var d := Odd(onSubmit);
    OddFlags(onSubmit);
    OddStages(onSubmit);
    forall s | s in d.stages ensures NothingWrongAt(d, s) { NothingIsWrongAt(onSubmit, s); }
    EachIsLeft(Desk());
    SoundStageByStage(d, Desk());
  }

  // ---- Its actions always go through ----

  function OddEnv(host: Host, onSubmit: seq<Key>): Env { Env(host, Odd(onSubmit), None) }

  /** From the desk any of its actions can be taken at once. */
  lemma FirstAction(host: Host, onSubmit: seq<Key>, answers: Values, action: Action) returns (plan: Plan, after: File)
    requires Allowed(onSubmit) && action in Desk().actions
    ensures var env := OddEnv(host, onSubmit);
      && SoundEnv(env)
      && PlanFor(env, Submitted(env, answers), action, map[]) == Some(plan) && plan.revisionFlag.None?
      && PlanOf(host, ContextOf(env, Submitted(env, answers), Desk(), action, map[])) == Success(plan)
      && after == File(Written(Submitted(env, answers).state, plan), 0)
      && Run(env, answers, [Take(action, map[], 0)]) == Some(after)
  {
    var env := OddEnv(host, onSubmit);
    var f := Submitted(env, answers);
    OddIsSound(onSubmit);
    OddStages(onSubmit);
    SubmittedIsSafe(env, answers);
    DeskNeverRefuses(host, ContextOf(env, f, Desk(), action, map[]));
    GoesThrough(env, f, Desk(), action, map[]);
    plan := PlanFor(env, f, action, map[]).value;
    DeskAsksNoRevision(host, ContextOf(env, f, Desk(), action, map[]), plan);
    after := File(Written(f.state, plan), 0);
    OneMoreStepTaken(env, answers, [], Take(action, map[], 0));
    assert [] + [Take(action, map[], 0)] == [Take(action, map[], 0)];
  }

  lemma DeskNeverRefuses(host: Host, c: Context)
    requires c.action in Desk().actions
    ensures c.action.availableWhen == [] && forall e :: e in c.action.effects ==> PlanEffect(host, e.kind, c).Success?
  {
  }

  lemma DeskAsksNoRevision(host: Host, c: Context, plan: Plan)
    requires PlanOf(host, c) == Success(plan) && c.action in Desk().actions
    ensures plan.revisionFlag.None?
  {
    DestinationComesFromAnEffect(host, c, plan);
    DeskRevises(c.action);
  }

  lemma DeskRevises(action: Action)
    requires action in Desk().actions
    ensures forall k :: !AsksRevision(action, k)
  {
    assert forall e :: e in action.effects ==> !e.kind.RequestRevision?;
  }

  // ---- Where promises stop ----

  /** An ending whose own action removes its flag leaves a file at no stage that holds nothing terminal. */
  lemma AnEndingMayLeaveNoMark(host: Host, answers: Values)
    ensures Sound(Odd([]))
    ensures var run := Run(OddEnv(host, []), answers, [Take(EndUnmarked(), map[], 0)]);
      && run.Some? && run.value.state.stageKey.None?
      && forall k :: k in run.value.state.flags ==> !Terminal(Odd([]), k)
  {
    var env := OddEnv(host, []);
    var plan, after := FirstAction(host, [], answers, EndUnmarked());
    var f := Submitted(env, answers);
    var c := ContextOf(env, f, Desk(), EndUnmarked(), map[]);
    OddFlags([]);
    var ending, removal := Effect(CompletePipeline(ENDED), []), Effect(RemoveStatus(ENDED), []);
    assert ending in c.action.effects && removal in c.action.effects && Fires(host, c, removal);
    EndingDecides(host, c, plan, ending);
    RemovalWins(host, c, plan, ENDED);
    WrittenFlagsAreThePlans(host, c, plan);
    forall k | k in after.state.flags ensures !Terminal(Odd([]), k) {
      if Terminal(Odd([]), k) {
        TerminalAfterTake(env, f, EndUnmarked(), map[], plan, k);
      }
    }
  }

  /**
   * An ending may add an editable flag, though the validator is said to let only a revision request add one.
   * Nothing can be edited for it: no correction is open.
   */
  lemma AnEndingMayAddAnEditable(host: Host, answers: Values)
    ensures Sound(Odd([])) && Editable(Odd([]), KEPT) && KEPT !in Submitted(OddEnv(host, []), answers).state.flags
    ensures var run := Run(OddEnv(host, []), answers, [Take(EndKeptOpen(), map[], 0)]);
      run.Some? && KEPT in run.value.state.flags && run.value.openRevisions == 0
  {
    var env := OddEnv(host, []);
    var plan, after := FirstAction(host, [], answers, EndKeptOpen());
    var f := Submitted(env, answers);
    var c := ContextOf(env, f, Desk(), EndKeptOpen(), map[]);
    OddFlags([]);
    OddStages([]);
    assert Effect(CloseApplication(KEPT), []) in c.action.effects;
    EndingDecides(host, c, plan, Effect(CloseApplication(KEPT), []));
    FlagSays(env, KEPT);
    EditableAfterTake(env, f, EndKeptOpen(), map[], plan, KEPT);
  }

  /** The entry stage's presence flag is not held on entry, unless submission names it. */
  lemma PresenceMayBeMissingOnEntry(host: Host, answers: Values)
    ensures Sound(Odd([]))
    ensures var f := Submitted(OddEnv(host, []), answers);
      HERE in PresenceAt(Odd([]), f.state.stageKey) && HERE !in f.state.flags
  {
    OddIsSound([]);
    OddStages([]);
  }

  /** A presence flag two neighbouring stages share is lost on moving from one to the other. */
  lemma SharedPresenceIsLost(host: Host, answers: Values)
    ensures Sound(Odd([HERE])) && HERE in Submitted(OddEnv(host, [HERE]), answers).state.flags
    ensures var run := Run(OddEnv(host, [HERE]), answers, [Take(Onward(HALL), map[], 0)]);
      run.Some? && HERE in PresenceAt(Odd([HERE]), run.value.state.stageKey) && HERE !in run.value.state.flags
  {
    var env := OddEnv(host, [HERE]);
    var plan, after := FirstAction(host, [HERE], answers, Onward(HALL));
    var c := ContextOf(env, Submitted(env, answers), Desk(), Onward(HALL), map[]);
    OddStages([HERE]);
    MovesToItsTarget(host, c, plan, HALL);
    RemovalWins(host, c, plan, HERE);
    WrittenFlagsAreThePlans(host, c, plan);
  }

  lemma MovesToItsTarget(host: Host, c: Context, plan: Plan, to: Key)
    requires PlanOf(host, c) == Success(plan) && c.action == Onward(to)
    ensures plan.toStageKey == Some(to) && plan.trailOp == Push && plan.ended.None?
  {
    var e := Effect(MoveToStage(to), []);
    assert e in c.action.effects && Fires(host, c, e);
    MovingEffectDecides(host, c, plan, e);
  }

  // ---- A place with no end ----

  predicate Beyond(stageKey: Option<Key>) { stageKey == Some(HALL) || stageKey == Some(YARD) }

  /** Nothing is wrong with the document, yet a file past the desk never ends, whatever is done with it. */
  lemma {:induction false} SomeStagesNeverEnd(host: Host, onSubmit: seq<Key>, f: File, steps: seq<Step>)
    requires Allowed(onSubmit) && Beyond(f.state.stageKey) && RunFrom(OddEnv(host, onSubmit), f, steps).Some?
    ensures Sound(Odd(onSubmit)) && Beyond(RunFrom(OddEnv(host, onSubmit), f, steps).value.state.stageKey)
  {
    var env := OddEnv(host, onSubmit);
    OddIsSound(onSubmit);
    if steps != [] {
      var front, s := steps[..|steps| - 1], steps[|steps| - 1];
      SomeStagesNeverEnd(host, onSubmit, f, front);
      var before := RunFrom(env, f, front).value;
      if s.Take? {
        OddStages(onSubmit);
        var stage := StageOf(env.definition, before.state.stageKey).value;
        assert stage == Hall() || stage == Yard();
        MovesToItsTarget(host, ContextOf(env, before, stage, s.action, s.inputs),
          PlanFor(env, before, s.action, s.inputs).value, if stage == Hall() then YARD else HALL);
      }
    }
  }

  /** And such a place is reached from the desk in one move. */
  lemma OneMoveGetsThere(host: Host, onSubmit: seq<Key>, answers: Values)
    requires Allowed(onSubmit)
    ensures var run := Run(OddEnv(host, onSubmit), answers, [Take(Onward(HALL), map[], 0)]);
      run.Some? && Beyond(run.value.state.stageKey)
  {
    var env := OddEnv(host, onSubmit);
    var plan, after := FirstAction(host, onSubmit, answers, Onward(HALL));
    MovesToItsTarget(host, ContextOf(env, Submitted(env, answers), Desk(), Onward(HALL), map[]), plan, HALL);
  }
}
