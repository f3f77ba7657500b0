/**
 * A file's whole journey: submitted once, then worked by actions, resubmissions and withdrawn
 * revision requests in any order (src/services/pipeline/controllers/stage.ts,
 * src/services/application/queries/application.ts).
 */
module PipelineRuns {
  import opened Common
  import opened PipelineDefinitions
  import opened PipelineEffects
  import opened PipelineEngine
  import opened ActionInputs
  import opened PipelineValidation

  /** The pinned pipeline, and what belongs to the cycle and the host. */
  datatype Env = Env(host: Host, definition: Definition, ceilingPaise: Option<int>)

  datatype File = File(state: FileState, openRevisions: nat)

  /** `sections` is how many form sections the officer names for correction. */
  datatype Step = Take(action: Action, inputs: Values, sections: nat) | Resubmit(answers: Values) | Withdraw

  /** A first submission enters the initial stage holding what the document adds on submit. */
  function Submitted(env: Env, answers: Values): File {
    File(FileState(Some(env.definition.initialStageKey), ToSet(env.definition.onSubmit), map[], [], answers), 0)
  }

  function EditableFlags(d: Definition): set<Key> { set f | f in d.statusFlags && f.editable :: f.key }

  function ContextOf(env: Env, f: File, stage: Stage, action: Action, inputs: Values): Context {
    Context(env.definition, stage, action, inputs, f.state, env.ceilingPaise)
  }

  /** The plan an action is taken with, or none where it is not offered or is refused. */
  function PlanFor(env: Env, f: File, action: Action, inputs: Values): Option<Plan> {
    var stage := StageOf(env.definition, f.state.stageKey);
    if stage.None? || action !in stage.value.actions || !ActionIsAvailable(env.host, env.definition, action, f.state) then None
    else match PlanOf(env.host, ContextOf(env, f, stage.value, action, inputs))
      case Failure(_) => None
      case Success(plan) => Some(plan)
  }

  /** What one step makes of the file, or nothing where it is refused. */
  function Stepped(env: Env, f: File, s: Step): Option<File> {
    match s
    case Take(action, inputs, sections) =>
      var plan := PlanFor(env, f, action, inputs);
      if plan.None? || (plan.value.revisionFlag.Some? <==> sections == 0) then None
      else Some(File(Written(f.state, plan.value), f.openRevisions + sections))
    case Resubmit(answers) =>
      if f.openRevisions == 0 then None
      else Some(File(f.state.(flags := f.state.flags - EditableFlags(env.definition), answers := answers), 0))
    case Withdraw =>
      if f.openRevisions == 0 || f.state.stageKey.None? then None
      else if f.openRevisions > 1 then Some(f.(openRevisions := f.openRevisions - 1))
      else Some(File(f.state.(flags := f.state.flags - EditableFlags(env.definition)), 0))
  }

  function RunFrom(env: Env, f: File, steps: seq<Step>): Option<File> {
    if steps == [] then Some(f)
    else
      var before := RunFrom(env, f, steps[..|steps| - 1]);
      if before.None? then None else Stepped(env, before.value, steps[|steps| - 1])
  }

  /** The file after a submission and some steps. */
  function Run(env: Env, answers: Values, steps: seq<Step>): Option<File> {
    RunFrom(env, Submitted(env, answers), steps)
  }

  /** Every action of the run is taken with inputs its form accepts. */
  ghost predicate AcceptedSteps(host: Host, steps: seq<Step>) {
    forall s :: s in steps && s.Take? ==> Accepted(host, s.action, s.inputs)
  }

  // ---- What a sound document says ----

  ghost predicate SoundEnv(env: Env) { Sound(env.definition) }

  /** An action the document offers at a stage. */
  ghost predicate Offered(d: Definition, stage: Stage, action: Action) {
    FindStage(d.stages, stage.key) == Some(stage) && action in stage.actions
  }

  lemma NotRepeatedIsDistinct(keys: seq<Key>)
    requires forall k :: !Repeated(keys, k)
    ensures Distinct(keys)
  {
    forall i, j | 0 <= i < j < |keys| ensures keys[i] != keys[j] {
      assert !Repeated(keys, keys[i]);
    }
  }

  lemma SoundKeys(env: Env)
    requires SoundEnv(env)
    ensures Distinct(StageKeys(env.definition.stages)) && Distinct(FlagKeys(env.definition.statusFlags))
    ensures FindStage(env.definition.stages, env.definition.initialStageKey).Some?
  {
    var d := env.definition;
    forall k ensures !Repeated(StageKeys(d.stages), k) { assert !IsProblem(d, RepeatedStage(k)); }
    forall k ensures !Repeated(FlagKeys(d.statusFlags), k) { assert !IsProblem(d, RepeatedFlag(k)); }
    NotRepeatedIsDistinct(StageKeys(d.stages));
    NotRepeatedIsDistinct(FlagKeys(d.statusFlags));
    assert !IsProblem(d, NoInitialStage);
  }

  /** With distinct keys, what the flag found under a key says is what any flag under it says. */
  lemma FlagSays(env: Env, k: Key)
    requires SoundEnv(env) && FlagOf(env.definition, k).Some?
    ensures Terminal(env.definition, k) <==> FlagOf(env.definition, k).value.terminal
    ensures Editable(env.definition, k) <==> FlagOf(env.definition, k).value.editable
  {
    var d := env.definition;
    SoundKeys(env);
    FoundFlag(d.statusFlags, k);
    forall i | 0 <= i < |d.statusFlags| && d.statusFlags[i].key == k ensures FlagOf(d, k) == Some(d.statusFlags[i]) {
      FindsEachFlag(d.statusFlags, d.statusFlags[i]);
    }
  }

  ghost predicate Ordinary(d: Definition, k: Key) { !Terminal(d, k) && !Editable(d, k) }

  lemma SubmitFlagsAreOrdinary(env: Env, k: Key)
    requires SoundEnv(env) && k in env.definition.onSubmit
    ensures Ordinary(env.definition, k)
  {
    var d := env.definition;
    var i :| 0 <= i < |d.onSubmit| && d.onSubmit[i] == k;
    assert !IsProblem(d, SubmitFlag(i, NoSuchFlag));
    assert !IsProblem(d, SubmitFlag(i, IsTerminal));
    assert !IsProblem(d, SubmitFlag(i, IsEditable));
    FlagSays(env, k);
  }

  lemma PresenceFlagsAreOrdinary(env: Env, stageKey: Option<Key>, k: Key)
    requires SoundEnv(env) && k in PresenceAt(env.definition, stageKey)
    ensures Ordinary(env.definition, k)
  {
    var d := env.definition;
    FoundStage(d.stages, stageKey.value);
    var s := StageOf(d, stageKey).value;
    var i :| 0 <= i < |d.stages| && d.stages[i] == s;
    var j :| 0 <= j < |s.presenceFlags| && s.presenceFlags[j] == k;
    assert !IsProblem(d, PresenceFlag(i, j, NoSuchFlag));
    assert !IsProblem(d, PresenceFlag(i, j, IsTerminal));
    assert !IsProblem(d, PresenceFlag(i, j, IsEditable));
    FlagSays(env, k);
  }

  lemma SoundAction(env: Env, stage: Stage, action: Action, p: ActionProblem)
    requires SoundEnv(env) && Offered(env.definition, stage, action)
    ensures !FaultApartFromPermission(env.definition, stage, action, p)
  {
    var d := env.definition;
    FoundStage(d.stages, stage.key);
    var s :| 0 <= s < |d.stages| && d.stages[s] == stage;
    var a :| 0 <= a < |stage.actions| && stage.actions[a] == action;
    assert !IsProblem(d, InAction(s, a, p));
  }

  lemma SoundEffect(env: Env, stage: Stage, action: Action, e: Effect)
    requires SoundEnv(env) && Offered(env.definition, stage, action) && e in action.effects
    ensures forall f :: !HasParamFault(env.definition, action, e.kind, f)
    ensures forall f :: !HasRuleFault(env.definition, stage, action, e.kind, f)
  {
    var i :| 0 <= i < |action.effects| && action.effects[i] == e;
    forall f ensures !HasParamFault(env.definition, action, e.kind, f) {
      SoundAction(env, stage, action, EffectParam(i, f));
    }
    forall f ensures !HasRuleFault(env.definition, stage, action, e.kind, f) {
      SoundAction(env, stage, action, EffectRule(i, f));
    }
  }

  /** What the flags an action's effects name can be. */
  lemma SoundFlags(env: Env, stage: Stage, action: Action, k: Key)
    requires SoundEnv(env) && Offered(env.definition, stage, action)
    ensures AddsStatus(action, k) ==> Ordinary(env.definition, k)
    ensures EndsWith(action, k) ==> Terminal(env.definition, k)
    ensures AsksRevision(action, k) ==> Editable(env.definition, k) && !Terminal(env.definition, k)
    ensures (exists e :: e in action.effects && e.kind == RemoveStatus(k)) ==> !Editable(env.definition, k)
  {
    forall e | e in action.effects && (e.kind.AddStatus? || e.kind.RemoveStatus? || e.kind.RequestRevision? || Ends(e.kind))
      ensures e.kind.AddStatus? ==> Ordinary(env.definition, e.kind.flag)
      ensures Ends(e.kind) ==> Terminal(env.definition, e.kind.flag)
      ensures e.kind.RequestRevision? ==> Editable(env.definition, e.kind.flag) && !Terminal(env.definition, e.kind.flag)
      ensures e.kind.RemoveStatus? ==> !Editable(env.definition, e.kind.flag)
    {
      SoundEffect(env, stage, action, e);
      assert !HasParamFault(env.definition, action, e.kind, UnknownFlag);
      FlagSays(env, e.kind.flag);
      assert !HasRuleFault(env.definition, stage, action, e.kind, EndsThePipeline);
      assert !HasRuleFault(env.definition, stage, action, e.kind, LetsApplicantEdit);
      assert !HasRuleFault(env.definition, stage, action, e.kind, RemovedByResubmission);
      assert !HasRuleFault(env.definition, stage, action, e.kind, NotTerminal);
      assert !HasRuleFault(env.definition, stage, action, e.kind, NotARevisionFlag);
    }
  }

  /** A configured move leads from its stage to another declared one. */
  lemma SoundMove(env: Env, stage: Stage, action: Action, to: Key)
    requires SoundEnv(env) && Offered(env.definition, stage, action) && MovesToward(action, to)
    ensures MoveEdge(env.definition, stage.key, to) && to != stage.key && FindStage(env.definition.stages, to).Some?
  {
    var e :| e in action.effects && to in MoveTargets(e.kind);
    SoundEffect(env, stage, action, e);
    assert !HasParamFault(env.definition, action, e.kind, UnknownStage);
    assert !HasParamFault(env.definition, action, e.kind, UnknownRoute);
    assert !HasParamFault(env.definition, action, e.kind, UnknownInput);
    assert !HasRuleFault(env.definition, stage, action, e.kind, NotAChoice);
    assert !HasRuleFault(env.definition, stage, action, e.kind, MovesToItself);
    assert to in ActionTargets(action);
  }

  // ---- A sound document is never refused for contradicting itself ----

  lemma {:induction false} FiredCounts(host: Host, c: Context, effects: seq<Effect>, fragments: seq<Fragment>)
    requires Fired(host, c, effects) == Success(fragments)
    ensures |MovesOf(fragments)| <= CountMoves(effects) && |RevisionsOf(fragments)| <= CountRevisions(effects)
  {
    if effects != [] {
      var last := effects[|effects| - 1];
      FiredCounts(host, c, effects[..|effects| - 1], Fired(host, c, effects[..|effects| - 1]).value);
      if Fires(host, c, last) {
        MoveOfEffect(host, last.kind, c);
        assert fragments[..|fragments| - 1] == Fired(host, c, effects[..|effects| - 1]).value;
      }
    }
  }

  /**
   * Of a sound document, no action is ever refused as doing two incompatible things, whatever fires;
   * and one is refused for want of an earlier stage only when the file has none.
   */
  lemma NeverIncompatible(env: Env, f: File, stage: Stage, action: Action, inputs: Values)
    requires SoundEnv(env) && Offered(env.definition, stage, action)
    ensures PlanOf(env.host, ContextOf(env, f, stage, action, inputs)) != Failure(Incompatible)
    ensures PlanOf(env.host, ContextOf(env, f, stage, action, inputs)) == Failure(NoEarlierStage) ==> f.state.trail == []
  {
    var c := ContextOf(env, f, stage, action, inputs);
    if Fired(env.host, c, action.effects).Success? {
      NeverClashes(env, c);
    } else {
      RefusalsAreEffects(env.host, c, action.effects);
    }
  }

  lemma NeverClashes(env: Env, c: Context)
    requires SoundEnv(env) && Offered(env.definition, c.stage, c.action) && Fired(env.host, c, c.action.effects).Success?
    ensures !Clash(Fired(env.host, c, c.action.effects).value)
  {
    AtMostOneOfEach(env, c.stage, c.action);
    FiredCounts(env.host, c, c.action.effects, Fired(env.host, c, c.action.effects).value);
  }

  /** An action of a sound document holds at most one effect that moves or asks for a revision. */
  lemma AtMostOneOfEach(env: Env, stage: Stage, action: Action)
    requires SoundEnv(env) && Offered(env.definition, stage, action)
    ensures CountMoves(action.effects) + CountRevisions(action.effects) <= 1
  {
    SoundAction(env, stage, action, TwoMoves);
    SoundAction(env, stage, action, TwoRevisions);
    SoundAction(env, stage, action, MoveAndRevision);
  }

  lemma {:induction false} RefusalsAreEffects(host: Host, c: Context, effects: seq<Effect>)
    requires Fired(host, c, effects).Failure?
    ensures Fired(host, c, effects).error != Incompatible
    ensures Fired(host, c, effects).error == NoEarlierStage ==> c.state.trail == []
  {
    if Fired(host, c, effects[..|effects| - 1]).Failure? {
      RefusalsAreEffects(host, c, effects[..|effects| - 1]);
    }
  }

  lemma {:induction false} AllPlanned(host: Host, c: Context, effects: seq<Effect>)
    requires forall e :: e in effects && Fires(host, c, e) ==> PlanEffect(host, e.kind, c).Success?
    ensures Fired(host, c, effects).Success?
  {
    if effects != [] {
      AllPlanned(host, c, effects[..|effects| - 1]);
    }
  }

  /** An action that is available, and none of whose effects refuses, goes through. */
  lemma GoesThrough(env: Env, f: File, stage: Stage, action: Action, inputs: Values)
    requires SoundEnv(env) && StageOf(env.definition, f.state.stageKey) == Some(stage) && action in stage.actions
    requires ActionIsAvailable(env.host, env.definition, action, f.state)
    requires var c := ContextOf(env, f, stage, action, inputs);
      forall e :: e in action.effects && Fires(env.host, c, e) ==> PlanEffect(env.host, e.kind, c).Success?
    ensures PlanFor(env, f, action, inputs).Some?
    ensures PlanOf(env.host, ContextOf(env, f, stage, action, inputs)) == Success(PlanFor(env, f, action, inputs).value)
  {
    var c := ContextOf(env, f, stage, action, inputs);
    FoundStage(env.definition.stages, f.state.stageKey.value);
    AllPlanned(env.host, c, action.effects);
    NeverClashes(env, c);
    NoMoveIsLost(env.host, c, Fired(env.host, c, action.effects).value);
  }

  lemma NoMoveIsLost(host: Host, c: Context, fragments: seq<Fragment>)
    requires Fired(host, c, c.action.effects) == Success(fragments)
    ensures DestinationOf(FirstOf(MovesOf(fragments)), c.stage, c.state.trail).Success?
  {
    if MovesOf(fragments) != [] {
      var f := FragmentMoving(fragments, MovesOf(fragments)[0]);
      var e := EffectBehind(host, c, c.action.effects, fragments, f);
      MoveOfEffect(host, e.kind, c);
    }
  }

  lemma OneMoreStepTaken(env: Env, answers: Values, steps: seq<Step>, s: Step)
    requires Run(env, answers, steps).Some?
    ensures Run(env, answers, steps + [s]) == Stepped(env, Run(env, answers, steps).value, s)
  {
    var more := steps + [s];
    assert more != [] && more[..|more| - 1] == steps && more[|more| - 1] == s;
  }

  /**
   * With inputs its form accepts, an action of a sound document is refused a place to go exactly when the
   * choice was left unanswered: every option offered has a route, and every route is to a stage.
   */
  lemma ChoiceIsRefusedIffUnanswered(env: Env, stage: Stage, action: Action, e: Effect, c: Context)
    requires SoundEnv(env) && Offered(env.definition, stage, action) && e in action.effects && e.kind.MoveByChoice?
    requires Accepted(env.host, action, c.inputs) && FindStage(env.definition.stages, "").None?
    ensures PlanEffect(env.host, e.kind, c).Failure? <==> !IsAnswered(Lookup(c.inputs, e.kind.input))
  {
    var input := ChoiceIsRouted(env, stage, action, e);
    RoutedIffChosen(env.host, action, input, e.kind, c);
  }

  lemma ChoiceIsRouted(env: Env, stage: Stage, action: Action, e: Effect) returns (input: Input)
    requires SoundEnv(env) && Offered(env.definition, stage, action) && e in action.effects && e.kind.MoveByChoice?
    requires FindStage(env.definition.stages, "").None?
    ensures input in action.inputs && input.key == e.kind.input && input.inputType.SingleChoice?
    ensures forall o :: o in input.options ==> o in e.kind.routes && e.kind.routes[o] != ""
  {
    var d := env.definition;
    SoundEffect(env, stage, action, e);
    assert !HasParamFault(d, action, e.kind, UnknownInput) && !HasParamFault(d, action, e.kind, UnknownRoute);
    assert !HasRuleFault(d, stage, action, e.kind, NotAChoice) && !HasRuleFault(d, stage, action, e.kind, OptionNotRouted);
    FoundInput(action.inputs, e.kind.input);
    input := FindInput(action.inputs, e.kind.input).value;
  }

  lemma RoutedIffChosen(host: Host, action: Action, input: Input, e: EffectKind, c: Context)
    requires Accepted(host, action, c.inputs) && input in action.inputs && input.inputType.SingleChoice?
    requires e.MoveByChoice? && e.input == input.key
    requires forall o :: o in input.options ==> o in e.routes && e.routes[o] != ""
    ensures PlanEffect(host, e, c).Failure? <==> !IsAnswered(Lookup(c.inputs, e.input))
  {
    AcceptedValue(host, action, c.inputs, input);
  }

  // ---- What every run keeps ----

  /** The stages the file came through, and the one it is at. */
  function Stack(s: FileState): seq<Key> {
    s.trail + if s.stageKey.Some? then [s.stageKey.value] else []
  }

  /** The stack starts where files enter; each place is a declared, reachable stage, one configured move from the place before. */
  ghost predicate Travelled(d: Definition, stack: seq<Key>) {
    && (stack != [] ==> stack[0] == d.initialStageKey)
    && (forall i :: 0 <= i < |stack| ==> FindStage(d.stages, stack[i]).Some? && Reached(d, stack[i]))
    && forall i, j {:trigger stack[i], stack[j]} :: 0 <= i < j < |stack| && j == i + 1 ==>
         MoveEdge(d, stack[i], stack[j]) && stack[i] != stack[j]
  }

  ghost predicate Safe(d: Definition, f: File) {
    && Travelled(d, Stack(f.state))
    // A terminal flag is held only at no stage.
    && (f.state.stageKey.Some? ==> forall k :: k in f.state.flags ==> !Terminal(d, k))
    // The applicant holds the file exactly while a correction is open, or where it ended holding an editable flag.
    && (f.openRevisions > 0 ==> AwaitsApplicant(d, f.state.flags) && f.state.stageKey.Some?)
    && (AwaitsApplicant(d, f.state.flags) ==> f.openRevisions > 0 || f.state.stageKey.None?)
    && AtMostOneEditable(d, f.state.flags)
  }

  ghost predicate AtMostOneEditable(d: Definition, flags: set<Key>) {
    forall a, b :: a in flags && b in flags && Editable(d, a) && Editable(d, b) ==> a == b
  }

  lemma AwaitsIsEditable(d: Definition, flags: set<Key>)
    ensures AwaitsApplicant(d, flags) <==> exists k :: k in flags && Editable(d, k)
    ensures forall k :: Editable(d, k) <==> k in EditableFlags(d)
    ensures !AwaitsApplicant(d, flags - EditableFlags(d))
  {
  }

  lemma SubmittedIsSafe(env: Env, answers: Values)
    requires SoundEnv(env)
    ensures Safe(env.definition, Submitted(env, answers))
  {
    var d := env.definition;
    var f := Submitted(env, answers);
    SoundKeys(env);
    forall k | k in f.state.flags ensures Ordinary(d, k) { SubmitFlagsAreOrdinary(env, k); }
    AwaitsIsEditable(d, f.state.flags);
    assert Stack(f.state) == [d.initialStageKey];
    assert Route(d, [d.initialStageKey]);
  }

  /** How a plan changes the stack: a move pushes where it goes, a return pops, an ending leaves the trail. */
  lemma StackAfter(env: Env, f: File, action: Action, inputs: Values, plan: Plan)
    requires PlanFor(env, f, action, inputs) == Some(plan)
    ensures f.state.stageKey == Some(plan.fromStageKey)
    ensures var after := Written(f.state, plan);
      match plan.trailOp
      case Push => after.stageKey.Some? && Stack(after) == Stack(f.state) + [after.stageKey.value]
      case Pop => f.state.trail != [] && Stack(after) == Stack(f.state)[..|Stack(f.state)| - 1]
      case Stay => after.trail == f.state.trail && after.stageKey == (if plan.ended.Some? then None else f.state.stageKey)
  {
    var stage := StageOf(env.definition, f.state.stageKey).value;
    FoundStage(env.definition.stages, f.state.stageKey.value);
    DestinationComesFromAnEffect(env.host, ContextOf(env, f, stage, action, inputs), plan);
    var after := Written(f.state, plan);
    if plan.trailOp == Pop {
      var trail := f.state.trail;
      assert trail[..|trail| - 1] + [trail[|trail| - 1]] == trail;
    }
  }

  lemma TakeKeepsTravelled(env: Env, f: File, action: Action, inputs: Values, plan: Plan)
    requires SoundEnv(env) && Travelled(env.definition, Stack(f.state)) && PlanFor(env, f, action, inputs) == Some(plan)
    ensures Travelled(env.definition, Stack(Written(f.state, plan)))
  {
    var d := env.definition;
    var stage := StageOf(d, f.state.stageKey).value;
    var stack := Stack(f.state);
    var after := Written(f.state, plan);
    FoundStage(d.stages, f.state.stageKey.value);
    StackAfter(env, f, action, inputs, plan);
    DestinationComesFromAnEffect(env.host, ContextOf(env, f, stage, action, inputs), plan);
    assert stack[|stack| - 1] == stage.key;
    if plan.trailOp == Push {
      SoundMove(env, stage, action, after.stageKey.value);
      TravelsOn(d, stack, after.stageKey.value);
    } else {
      TravelsBack(d, stack);
      assert plan.trailOp == Stay && plan.ended.Some? ==> Stack(after) == f.state.trail == stack[..|stack| - 1];
    }
  }

  lemma TravelsOn(d: Definition, stack: seq<Key>, to: Key)
    requires Travelled(d, stack) && stack != [] && stack[|stack| - 1] != to
    requires MoveEdge(d, stack[|stack| - 1], to) && FindStage(d.stages, to).Some?
    ensures Travelled(d, stack + [to])
  {
    OneMoreMove(d, stack[|stack| - 1], to);
  }

  lemma TravelsBack(d: Definition, stack: seq<Key>)
    requires Travelled(d, stack) && stack != []
    ensures Travelled(d, stack[..|stack| - 1])
  {
  }

  /** Exactly which editable flags a plan leaves held, starting from none: the one a revision adds, or an ending's own. */
  lemma EditableAfterTake(env: Env, f: File, action: Action, inputs: Values, plan: Plan, k: Key)
    requires SoundEnv(env) && PlanFor(env, f, action, inputs) == Some(plan) && Editable(env.definition, k)
    ensures k in Written(f.state, plan).flags <==> plan.revisionFlag == Some(k) || plan.ended == Some(k)
  {
    var d := env.definition;
    var stage := StageOf(d, f.state.stageKey).value;
    var c := ContextOf(env, f, stage, action, inputs);
    FoundStage(d.stages, f.state.stageKey.value);
    SoundFlags(env, stage, action, k);
    AwaitsIsEditable(d, f.state.flags);
    WrittenFlagsAreThePlans(env.host, c, plan);
    NoSpecialPresence(env, plan.toStageKey, k);
    NoSpecialPresence(env, f.state.stageKey, k);
    if k in plan.flags {
      HeldFlagsComeFrom(env.host, c, plan, k);
    } else if plan.revisionFlag == Some(k) || plan.ended == Some(k) {
      LostFlagsGoTo(env.host, c, plan, k);
    }
  }

  lemma NoSpecialPresence(env: Env, stageKey: Option<Key>, k: Key)
    requires SoundEnv(env) && !Ordinary(env.definition, k)
    ensures k !in PresenceAt(env.definition, stageKey)
  {
    if k in PresenceAt(env.definition, stageKey) { PresenceFlagsAreOrdinary(env, stageKey, k); }
  }

  /** A plan that does not end the journey leaves no terminal flag it did not find. */
  lemma TerminalAfterTake(env: Env, f: File, action: Action, inputs: Values, plan: Plan, k: Key)
    requires SoundEnv(env) && PlanFor(env, f, action, inputs) == Some(plan) && Terminal(env.definition, k)
    requires k in Written(f.state, plan).flags
    ensures k in f.state.flags || (plan.ended == Some(k) && plan.toStageKey.None?)
  {
    var d := env.definition;
    var stage := StageOf(d, f.state.stageKey).value;
    var c := ContextOf(env, f, stage, action, inputs);
    FoundStage(d.stages, f.state.stageKey.value);
    SoundFlags(env, stage, action, k);
    WrittenFlagsAreThePlans(env.host, c, plan);
    HeldFlagsComeFrom(env.host, c, plan, k);
    NoSpecialPresence(env, plan.toStageKey, k);
    DestinationComesFromAnEffect(env.host, c, plan);
  }

  /** After an action the applicant holds the file only for its revision or its ending, through one flag. */
  lemma AwaitsAfterTake(env: Env, f: File, action: Action, inputs: Values, plan: Plan)
    requires SoundEnv(env) && PlanFor(env, f, action, inputs) == Some(plan)
    ensures var after := Written(f.state, plan);
      && AtMostOneEditable(env.definition, after.flags)
      && (plan.revisionFlag.Some? ==> AwaitsApplicant(env.definition, after.flags) && after.stageKey.Some?)
      && (AwaitsApplicant(env.definition, after.flags) ==> plan.revisionFlag.Some? || after.stageKey.None?)
  {
    var d := env.definition;
    var stage := StageOf(d, f.state.stageKey).value;
    FoundStage(d.stages, f.state.stageKey.value);
    DestinationComesFromAnEffect(env.host, ContextOf(env, f, stage, action, inputs), plan);
    AwaitsIsEditable(d, Written(f.state, plan).flags);
    forall k | Editable(d, k) ensures k in Written(f.state, plan).flags <==> plan.revisionFlag == Some(k) || plan.ended == Some(k) {
      EditableAfterTake(env, f, action, inputs, plan, k);
    }
    if plan.revisionFlag.Some? {
      SoundFlags(env, stage, action, plan.revisionFlag.value);
    }
  }

  /** An action that leaves the file at a stage leaves it no terminal flag. */
  lemma NoTerminalAfterTake(env: Env, f: File, action: Action, inputs: Values, plan: Plan, k: Key)
    requires SoundEnv(env) && PlanFor(env, f, action, inputs) == Some(plan) && plan.toStageKey.Some?
    requires k in Written(f.state, plan).flags && (k in f.state.flags ==> !Terminal(env.definition, k))
    ensures !Terminal(env.definition, k)
  {
    if Terminal(env.definition, k) { TerminalAfterTake(env, f, action, inputs, plan, k); }
  }

  lemma TakeKeepsSafe(env: Env, f: File, s: Step)
    requires SoundEnv(env) && Safe(env.definition, f) && s.Take? && Stepped(env, f, s).Some?
    ensures Safe(env.definition, Stepped(env, f, s).value)
  {
    var plan := PlanFor(env, f, s.action, s.inputs).value;
    var after := Written(f.state, plan);
    TakeKeepsTravelled(env, f, s.action, s.inputs, plan);
    AwaitsAfterTake(env, f, s.action, s.inputs, plan);
    forall k | k in after.flags && after.stageKey.Some? ensures !Terminal(env.definition, k) {
      NoTerminalAfterTake(env, f, s.action, s.inputs, plan, k);
    }
    NothingIsOpenBefore(env, f, s.action, s.inputs);
  }

  /** No action is offered while a correction is open. */
  lemma NothingIsOpenBefore(env: Env, f: File, action: Action, inputs: Values)
    requires Safe(env.definition, f) && PlanFor(env, f, action, inputs).Some?
    ensures f.openRevisions == 0
  {
  }

  lemma StepKeepsSafe(env: Env, f: File, s: Step)
    requires SoundEnv(env) && Safe(env.definition, f) && Stepped(env, f, s).Some?
    ensures Safe(env.definition, Stepped(env, f, s).value)
  {
    if s.Take? {
      TakeKeepsSafe(env, f, s);
    } else {
      AwaitsIsEditable(env.definition, f.state.flags);
      AwaitsIsEditable(env.definition, Stepped(env, f, s).value.state.flags);
      assert Stack(Stepped(env, f, s).value.state) == Stack(f.state);
    }
  }

  lemma {:induction false} RunFromKeepsSafe(env: Env, f: File, steps: seq<Step>)
    requires SoundEnv(env) && Safe(env.definition, f) && RunFrom(env, f, steps).Some?
    ensures Safe(env.definition, RunFrom(env, f, steps).value)
  {
    if steps != [] {
      RunFromKeepsSafe(env, f, steps[..|steps| - 1]);
      StepKeepsSafe(env, RunFrom(env, f, steps[..|steps| - 1]).value, steps[|steps| - 1]);
    }
  }

  /**
   * On every run of a sound document: the file and its whole trail stay on stages that routes reach,
   * each one configured move from the last; a terminal flag is held only at no stage; the applicant
   * holds the file while a correction is open, and otherwise only where it ended with an editable flag;
   * and at most one editable flag is held.
   */
  lemma EveryRunIsSafe(env: Env, answers: Values, steps: seq<Step>)
    requires SoundEnv(env) && Run(env, answers, steps).Some?
    ensures Safe(env.definition, Run(env, answers, steps).value)
  {
    SubmittedIsSafe(env, answers);
    RunFromKeepsSafe(env, Submitted(env, answers), steps);
  }

  /** A file that holds a terminal flag is offered nothing more, by anybody. */
  lemma NothingFollowsAnEnding(env: Env, answers: Values, steps: seq<Step>, k: Key, s: Step)
    requires SoundEnv(env) && Run(env, answers, steps).Some?
    requires k in Run(env, answers, steps).value.state.flags && Terminal(env.definition, k)
    ensures Stepped(env, Run(env, answers, steps).value, s) == None
  {
    EveryRunIsSafe(env, answers, steps);
  }

  /** On a run of a sound document, with no correction open, an action offered now that cannot be refused is taken. */
  lemma TakenOnARun(env: Env, answers: Values, steps: seq<Step>, stage: Stage, action: Action, inputs: Values) returns (plan: Plan)
    requires SoundEnv(env) && Run(env, answers, steps).Some? && Run(env, answers, steps).value.openRevisions == 0
    requires StageOf(env.definition, Run(env, answers, steps).value.state.stageKey) == Some(stage) && action in stage.actions
    requires ConditionsHold(
      env.host, env.definition, Run(env, answers, steps).value.state, map[], action, action.availableWhen)
    requires forall e :: e in action.effects ==>
      !e.kind.RequestRevision? && PlanEffect(env.host, e.kind, ContextOf(env, Run(env, answers, steps).value, stage, action, inputs)).Success?
    ensures PlanOf(env.host, ContextOf(env, Run(env, answers, steps).value, stage, action, inputs)) == Success(plan)
    ensures Run(env, answers, steps + [Take(action, inputs, 0)]) == Some(File(Written(Run(env, answers, steps).value.state, plan), 0))
  {
    var f := Run(env, answers, steps).value;
    EveryRunIsSafe(env, answers, steps);
    GoesThrough(env, f, stage, action, inputs);
    plan := PlanFor(env, f, action, inputs).value;
    AsksForNothing(env.host, ContextOf(env, f, stage, action, inputs), plan);
    OneMoreStepTaken(env, answers, steps, Take(action, inputs, 0));
  }

  lemma AsksForNothing(host: Host, c: Context, plan: Plan)
    requires PlanOf(host, c) == Success(plan) && forall e :: e in c.action.effects ==> !e.kind.RequestRevision?
    ensures plan.revisionFlag.None?
  {
    DestinationComesFromAnEffect(host, c, plan);
    assert forall k :: !AsksRevision(c.action, k);
  }

  // ---- Which flags let the applicant edit, and who adds and removes them ----

  /**
   * On every run, a step after which an editable flag is newly held is an action that either asks for
   * a revision with that flag, and leaves the stage and the trail as they were, or ends the journey with it.
   */
  lemma EditableIsGainedBy(env: Env, answers: Values, steps: seq<Step>, s: Step, k: Key)
    requires SoundEnv(env) && Run(env, answers, steps).Some? && Editable(env.definition, k)
    ensures var f := Run(env, answers, steps).value;
      var stepped := Stepped(env, f, s);
      stepped.Some? && k !in f.state.flags && k in stepped.value.state.flags ==> AddsAnEditable(env, f, s, stepped.value, k)
  {
    var f := Run(env, answers, steps).value;
    if s.Take? && Stepped(env, f, s).Some? {
      var plan := PlanFor(env, f, s.action, s.inputs).value;
      var stage := StageOf(env.definition, f.state.stageKey).value;
      FoundStage(env.definition.stages, f.state.stageKey.value);
      EditableAfterTake(env, f, s.action, s.inputs, plan, k);
      DestinationComesFromAnEffect(env.host, ContextOf(env, f, stage, s.action, s.inputs), plan);
    }
  }

  ghost predicate AddsAnEditable(env: Env, f: File, s: Step, after: File, k: Key) {
    && s.Take? && PlanFor(env, f, s.action, s.inputs).Some?
    && var plan := PlanFor(env, f, s.action, s.inputs).value;
       || (plan.revisionFlag == Some(k) && Stack(after.state) == Stack(f.state) && after.openRevisions > 0)
       || (plan.ended == Some(k) && after.state.stageKey.None?)
  }

  /** No ending of the document names an editable flag: what the validator would have to refuse as well. */
  ghost predicate EndingsAddNoEditable(d: Definition) {
    forall s, a, e :: s in d.stages && a in s.actions && e in a.effects && Ends(e.kind) ==> !Editable(d, e.kind.flag)
  }

  /** Where no ending names an editable flag, only a revision request adds one. */
  lemma OnlyARevisionAddsAnEditable(env: Env, answers: Values, steps: seq<Step>, s: Step, k: Key)
    requires SoundEnv(env) && EndingsAddNoEditable(env.definition)
    requires Run(env, answers, steps).Some? && Editable(env.definition, k)
    requires var f := Run(env, answers, steps).value;
      Stepped(env, f, s).Some? && k !in f.state.flags && k in Stepped(env, f, s).value.state.flags
    ensures s.Take? && PlanFor(env, Run(env, answers, steps).value, s.action, s.inputs).value.revisionFlag == Some(k)
  {
    EditableIsGainedBy(env, answers, steps, s, k);
    var f := Run(env, answers, steps).value;
    NoEditableEnding(env, f, s.action, s.inputs, PlanFor(env, f, s.action, s.inputs).value);
  }

  lemma NoEditableEnding(env: Env, f: File, action: Action, inputs: Values, plan: Plan)
    requires EndingsAddNoEditable(env.definition) && PlanFor(env, f, action, inputs) == Some(plan)
    ensures plan.ended.Some? ==> !Editable(env.definition, plan.ended.value)
  {
    var stage := StageOf(env.definition, f.state.stageKey).value;
    FoundStage(env.definition.stages, f.state.stageKey.value);
    DestinationComesFromAnEffect(env.host, ContextOf(env, f, stage, action, inputs), plan);
    assert forall e :: e in action.effects && Ends(e.kind) ==> !Editable(env.definition, e.kind.flag);
  }

  /** And there, on every run, the applicant holds the file exactly while a correction is open. */
  lemma {:induction false} HeldExactlyWhileOpen(env: Env, answers: Values, steps: seq<Step>)
    requires SoundEnv(env) && EndingsAddNoEditable(env.definition) && Run(env, answers, steps).Some?
    ensures var f := Run(env, answers, steps).value; AwaitsApplicant(env.definition, f.state.flags) <==> f.openRevisions > 0
  {
    EveryRunIsSafe(env, answers, steps);
    AwaitsIsEditable(env.definition, Run(env, answers, steps).value.state.flags);
    if steps == [] {
      SubmittedIsSafe(env, answers);
    } else {
      var front, s := steps[..|steps| - 1], steps[|steps| - 1];
      var f := Run(env, answers, front).value;
      HeldExactlyWhileOpen(env, answers, front);
      if s.Take? { TakeHoldsNoEditable(env, f, s); }
      AwaitsIsEditable(env.definition, f.state.flags);
    }
  }

  /** An action that asks for no revision leaves nothing for the applicant. */
  lemma TakeHoldsNoEditable(env: Env, f: File, s: Step)
    requires SoundEnv(env) && EndingsAddNoEditable(env.definition) && s.Take? && Stepped(env, f, s).Some?
    ensures PlanFor(env, f, s.action, s.inputs).value.revisionFlag.None? ==>
      !AwaitsApplicant(env.definition, Stepped(env, f, s).value.state.flags)
  {
    var plan := PlanFor(env, f, s.action, s.inputs).value;
    var after := Written(f.state, plan);
    NoEditableEnding(env, f, s.action, s.inputs, plan);
    AwaitsIsEditable(env.definition, after.flags);
    forall k | k in after.flags && plan.revisionFlag.None? ensures !Editable(env.definition, k) {
      if Editable(env.definition, k) { EditableAfterTake(env, f, s.action, s.inputs, plan, k); }
    }
  }

  /** A held editable flag is lost by resubmitting and by withdrawing the last open request, and by nothing else. */
  lemma EditableIsLostBy(env: Env, answers: Values, steps: seq<Step>, s: Step, k: Key)
    requires SoundEnv(env) && Run(env, answers, steps).Some? && Editable(env.definition, k)
    requires k in Run(env, answers, steps).value.state.flags && Stepped(env, Run(env, answers, steps).value, s).Some?
    ensures var f := Run(env, answers, steps).value;
      var after := Stepped(env, f, s).value;
      && (k !in after.state.flags <==> s.Resubmit? || (s.Withdraw? && f.openRevisions == 1))
      && (k !in after.state.flags <==> after.openRevisions == 0)
  {
    AwaitsIsEditable(env.definition, Run(env, answers, steps).value.state.flags);
  }

  // ---- Who gives the applicant back their pen ----

  // A submitted application may be edited exactly in the sections of its open corrections.

  /** Only a revision request opens corrections, as many as it names, and it leaves the stage and the trail alone. */
  lemma OnlyARevisionOpensCorrections(env: Env, f: File, s: Step)
    requires Stepped(env, f, s).Some? && Stepped(env, f, s).value.openRevisions > f.openRevisions
    ensures s.Take? && Stack(Stepped(env, f, s).value.state) == Stack(f.state)
    ensures PlanFor(env, f, s.action, s.inputs).Some? && PlanFor(env, f, s.action, s.inputs).value.revisionFlag.Some?
    ensures Stepped(env, f, s).value.openRevisions == f.openRevisions + s.sections
  {
    var plan := PlanFor(env, f, s.action, s.inputs).value;
    StackAfter(env, f, s.action, s.inputs, plan);
    var stage := StageOf(env.definition, f.state.stageKey).value;
    DestinationComesFromAnEffect(env.host, ContextOf(env, f, stage, s.action, s.inputs), plan);
  }

  ghost predicate AsksAt(env: Env, answers: Values, steps: seq<Step>, i: nat)
    requires i < |steps|
  {
    var before := Run(env, answers, steps[..i]);
    steps[i].Take? && before.Some? &&
    var plan := PlanFor(env, before.value, steps[i].action, steps[i].inputs);
    plan.Some? && plan.value.revisionFlag.Some?
  }

  /** The `i`th step asked for corrections, and since then fewer of them have been withdrawn, and nothing else done. */
  ghost predicate OpenSince(env: Env, answers: Values, steps: seq<Step>, i: nat) {
    && i < |steps| && AsksAt(env, answers, steps, i)
    && |steps| - 1 - i < steps[i].sections && forall j :: i < j < |steps| ==> steps[j].Withdraw?
  }

  /** What is left open since a step that asked for corrections. */
  function StillOpen(steps: seq<Step>, i: nat): int
    requires i < |steps| && steps[i].Take?
  {
    steps[i].sections - (|steps| - 1 - i)
  }

  lemma OpenAfterWithdrawing(env: Env, answers: Values, steps: seq<Step>, s: Step, i: nat)
    requires s.Withdraw?
    ensures OpenSince(env, answers, steps + [s], i) <==> OpenSince(env, answers, steps, i) && StillOpen(steps, i) > 1
  {
    if i < |steps| {
      assert (steps + [s])[..i] == steps[..i] && (steps + [s])[i] == steps[i];
      assert AsksAt(env, answers, steps + [s], i) <==> AsksAt(env, answers, steps, i);
      assert forall j :: i < j < |steps| ==> (steps + [s])[j] == steps[j];
    }
  }

  lemma OpenAfterAnother(env: Env, answers: Values, steps: seq<Step>, s: Step, i: nat)
    requires !s.Withdraw? && Run(env, answers, steps).Some? && Stepped(env, Run(env, answers, steps).value, s).Some?
    ensures OpenSince(env, answers, steps + [s], i) <==> i == |steps| && s.Take? && s.sections > 0
  {
    var more := steps + [s];
    assert more[..|steps|] == steps && more[|steps|] == s;
    if i < |steps| { assert !more[|steps|].Withdraw?; }
  }

  /**
   * On every run the applicant may edit exactly since a revision request, until they resubmit or all
   * its corrections are withdrawn; and as many corrections are open as it named, less those withdrawn.
   */
  lemma {:induction false} PenIsHeldSinceARevision(env: Env, answers: Values, steps: seq<Step>)
    requires SoundEnv(env) && Run(env, answers, steps).Some?
    ensures Run(env, answers, steps).value.openRevisions > 0 <==> exists i :: OpenSince(env, answers, steps, i)
    ensures forall i :: OpenSince(env, answers, steps, i) ==> Run(env, answers, steps).value.openRevisions == StillOpen(steps, i)
  {
    if steps != [] {
      var front, s := steps[..|steps| - 1], steps[|steps| - 1];
      assert steps == front + [s];
      PenIsHeldSinceARevision(env, answers, front);
      OneMoreForThePen(env, answers, front, s);
    }
  }

  ghost predicate PenHeld(env: Env, answers: Values, steps: seq<Step>, open: nat) {
    && (open > 0 <==> exists i :: OpenSince(env, answers, steps, i))
    && forall i :: OpenSince(env, answers, steps, i) ==> open == StillOpen(steps, i)
  }

  lemma OneMoreForThePen(env: Env, answers: Values, steps: seq<Step>, s: Step)
    requires SoundEnv(env) && Run(env, answers, steps).Some? && Stepped(env, Run(env, answers, steps).value, s).Some?
    requires PenHeld(env, answers, steps, Run(env, answers, steps).value.openRevisions)
    ensures PenHeld(env, answers, steps + [s], Stepped(env, Run(env, answers, steps).value, s).value.openRevisions)
  {
    var f := Run(env, answers, steps).value;
    if s.Withdraw? {
      PenAfterWithdrawing(env, answers, steps, s, f.openRevisions);
    } else {
      if s.Take? {
        EveryRunIsSafe(env, answers, steps);
        NothingIsOpenBefore(env, f, s.action, s.inputs);
      }
      PenAfterAnother(env, answers, steps, s, Stepped(env, f, s).value.openRevisions);
    }
  }

  lemma PenAfterWithdrawing(env: Env, answers: Values, steps: seq<Step>, s: Step, open: nat)
    requires s.Withdraw? && open > 0 && PenHeld(env, answers, steps, open)
    ensures PenHeld(env, answers, steps + [s], open - 1)
  {
    forall i ensures OpenSince(env, answers, steps + [s], i) <==> OpenSince(env, answers, steps, i) && StillOpen(steps, i) > 1 {
      OpenAfterWithdrawing(env, answers, steps, s, i);
    }
    var i :| OpenSince(env, answers, steps, i);
    assert OpenSince(env, answers, steps + [s], i) <==> open > 1;
  }

  lemma PenAfterAnother(env: Env, answers: Values, steps: seq<Step>, s: Step, open: nat)
    requires !s.Withdraw? && Run(env, answers, steps).Some? && Stepped(env, Run(env, answers, steps).value, s).Some?
    requires open == if s.Take? then s.sections else 0
    ensures PenHeld(env, answers, steps + [s], open)
  {
    forall i ensures OpenSince(env, answers, steps + [s], i) <==> i == |steps| && s.Take? && s.sections > 0 {
      OpenAfterAnother(env, answers, steps, s, i);
    }
    assert OpenSince(env, answers, steps + [s], |steps|) <==> open > 0;
  }

  /** Every action of a sound document needs some permission. */
  lemma EveryActionNeedsAPermission(env: Env, stage: Stage, action: Action)
    requires SoundEnv(env) && Offered(env.definition, stage, action)
    ensures PermissionsFor(env.definition, action) != {}
  {
    var d := env.definition;
    FoundStage(d.stages, stage.key);
    var s :| 0 <= s < |d.stages| && d.stages[s] == stage;
    var a :| 0 <= a < |stage.actions| && stage.actions[a] == action;
    assert !IsProblem(d, InAction(s, a, NoPermission));
    forall q ensures !FaultApartFromPermission(d, stage, action, q) {
      SoundAction(env, stage, action, q);
    }
  }

  // ---- How a journey ends ----

  /** An action that ends the journey leaves its flag held exactly when none of its removals names that flag. */
  lemma EndedFlagIsHeldUnlessRemoved(env: Env, f: File, action: Action, inputs: Values, plan: Plan)
    requires SoundEnv(env) && PlanFor(env, f, action, inputs) == Some(plan) && plan.ended.Some?
    ensures var stage := StageOf(env.definition, f.state.stageKey).value;
      (plan.ended.value in Written(f.state, plan).flags)
        <==> !RemovesNow(env.host, ContextOf(env, f, stage, action, inputs), plan.ended.value)
  {
    var d := env.definition;
    var stage := StageOf(d, f.state.stageKey).value;
    var c := ContextOf(env, f, stage, action, inputs);
    var k := plan.ended.value;
    FoundStage(d.stages, f.state.stageKey.value);
    WrittenFlagsAreThePlans(env.host, c, plan);
    DestinationComesFromAnEffect(env.host, c, plan);
    SoundFlags(env, stage, action, k);
    NoSpecialPresence(env, f.state.stageKey, k);
    if RemovesNow(env.host, c, k) {
      RemovalWins(env.host, c, plan, k);
    } else if k !in plan.flags {
      LostFlagsGoTo(env.host, c, plan, k);
    }
  }

  /** Nothing wrong with the document means some route of configured moves leads to a stage an action can end from. */
  lemma SomeRouteEnds(env: Env)
    requires SoundEnv(env)
    ensures exists p, s :: Route(env.definition, p) && s in env.definition.stages && s.key == p[|p| - 1] && StageEnds(s)
  {
    var d := env.definition;
    assert !IsProblem(d, NeverEnds);
    var s :| s in d.stages && Reached(d, s.key) && StageEnds(s);
    var p :| Route(d, p) && p[|p| - 1] == s.key;
  }
}
