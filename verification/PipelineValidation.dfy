/**
 * Whether a pipeline document makes sense as a whole (src/services/pipeline/validate.ts).
 *
 * A problem is what is wrong and where; `IsProblem` says outright which ones a document has, and
 * `PipelineProblems` finds exactly those.
 */
module PipelineValidation {
  import opened Common
  import opened PipelineDefinitions
  import opened PipelineEffects
  import opened ActionInputs

  datatype FlagFault = NoSuchFlag | IsTerminal | IsEditable

  datatype ActionProblem =
    | RepeatedInput(key: Key)
    | InputsNotAForm
    | NoOptions(input: nat)
    | BadDefault(input: nat)
    | InputCondition(input: nat, condition: nat)
    | AvailableCondition(condition: nat)
    | EffectCondition(effect: nat, condition: nat)
    | EffectParam(effect: nat, param: ParamFault)
    | EffectRule(effect: nat, rule: RuleFault)
    | TwoMoves
    | TwoRevisions
    | MoveAndRevision
    | NoPermission

  datatype Problem =
    | RepeatedStage(key: Key)
    | RepeatedFlag(key: Key)
    | RepeatedRecordedValue(key: Key)
    | NoInitialStage
    | SubmitFlag(flag: nat, fault: FlagFault)
    | RepeatedAction(stage: nat, key: Key)
    | PresenceFlag(stage: nat, flag: nat, fault: FlagFault)
    | NothingLeaves(stage: nat)
    | InAction(stage: nat, action: nat, problem: ActionProblem)
    | Unreached(stage: nat)
    | NeverEnds

  // ---- The moves the document configures ----

  /** Some action of the stage found under `from` can send a file to `to`. */
  predicate MoveEdge(d: Definition, from: Key, to: Key) {
    && FindStage(d.stages, from).Some?
    && to in StageTargets(FindStage(d.stages, from).value)
  }

  function ActionTargets(a: Action): set<Key> { set e, k | e in a.effects && k in MoveTargets(e.kind) :: k }

  function StageTargets(s: Stage): set<Key> { set a, k | a in s.actions && k in ActionTargets(a) :: k }

  /** A route of configured moves from where files enter. */
  ghost predicate Route(d: Definition, p: seq<Key>) {
    && p != [] && p[0] == d.initialStageKey
    && forall i, j {:trigger p[i], p[j]} :: 0 <= i < j < |p| && j == i + 1 ==> MoveEdge(d, p[i], p[j])
  }

  ghost predicate Reached(d: Definition, key: Key) {
    exists p :: Route(d, p) && p[|p| - 1] == key
  }

  ghost predicate ClosedUnderMoves(d: Definition, keys: set<Key>) {
    d.initialStageKey in keys && forall a, b {:trigger MoveEdge(d, a, b)} :: a in keys && MoveEdge(d, a, b) ==> b in keys
  }

  lemma OneMoreMove(d: Definition, a: Key, b: Key)
    requires Reached(d, a) && MoveEdge(d, a, b)
    ensures Reached(d, b)
  {
    var p :| Route(d, p) && p[|p| - 1] == a;
    var q := p + [b];
    assert Route(d, q) && q[|q| - 1] == b;
  }

  lemma {:induction false} RouteStaysInside(d: Definition, keys: set<Key>, p: seq<Key>)
    requires ClosedUnderMoves(d, keys) && Route(d, p)
    ensures p[|p| - 1] in keys
  {
    if |p| > 1 {
      var q := p[..|p| - 1];
      assert Route(d, q);
      RouteStaysInside(d, keys, q);
      assert MoveEdge(d, p[|p| - 2], p[|p| - 1]);
    }
  }

  /** The least set holding the initial stage and closed under configured moves: it is what routes reach. */
  lemma ReachedIsLeast(d: Definition, keys: set<Key>)
    requires ClosedUnderMoves(d, keys) && forall k {:trigger Reached(d, k)} :: k in keys ==> Reached(d, k)
    ensures forall k :: k in keys <==> Reached(d, k)
    ensures forall other: set<Key> :: ClosedUnderMoves(d, other) ==> keys <= other
  {
    forall other: set<Key>, k | ClosedUnderMoves(d, other) && Reached(d, k) ensures k in other {
      var p :| Route(d, p) && p[|p| - 1] == k;
      RouteStaysInside(d, other, p);
    }
  }

  function AllTargets(d: Definition): set<Key> { set s, k | s in d.stages && k in StageTargets(s) :: k }

  lemma TargetsAreReached(d: Definition, a: Key)
    requires Reached(d, a) && FindStage(d.stages, a).Some?
    ensures forall b {:trigger Reached(d, b)} :: b in StageTargets(FindStage(d.stages, a).value) ==> Reached(d, b)
    ensures StageTargets(FindStage(d.stages, a).value) <= AllTargets(d)
  {
    FoundStage(d.stages, a);
    forall b | b in StageTargets(FindStage(d.stages, a).value) ensures Reached(d, b) {
      OneMoreMove(d, a, b);
    }
  }

  method ReachableStages(d: Definition) returns (reached: set<Key>)
    ensures forall k :: k in reached <==> Reached(d, k)
    ensures ClosedUnderMoves(d, reached)
    ensures forall other: set<Key> :: ClosedUnderMoves(d, other) ==> reached <= other
  {
    reached := {d.initialStageKey};
    var queue := [d.initialStageKey];
    ghost var universe := {d.initialStageKey} + AllTargets(d);
    assert Route(d, [d.initialStageKey]);
    while |queue| > 0
      invariant d.initialStageKey in reached && reached <= universe && ToSet(queue) <= reached
      invariant forall k {:trigger Reached(d, k)} :: k in reached ==> Reached(d, k)
      invariant forall a, b {:trigger MoveEdge(d, a, b)} :: a in reached - ToSet(queue) && MoveEdge(d, a, b) ==> b in reached
      decreases universe - reached, |queue|
    {
      var next := queue[0];
      assert queue == [next] + queue[1..];
      queue := queue[1..];
      var stage := FindStage(d.stages, next);
      if stage.Some? {
        TargetsAreReached(d, next);
        reached, queue := AddTargets(d, StageTargets(stage.value), reached, queue);
      }
    }
    ReachedIsLeast(d, reached);
  }

  /** Each target not reached before is reached now, and joins the queue. */
  method AddTargets(d: Definition, targets: set<Key>, reached: set<Key>, queue: seq<Key>) returns (r: set<Key>, q: seq<Key>)
    ensures r == reached + targets
    ensures ToSet(q) == ToSet(queue) + (targets - reached)
    ensures targets <= reached ==> r == reached && q == queue
  {
    r, q := reached, queue;
    var left := targets;
    while left != {}
      invariant left <= targets && r == reached + (targets - left)
      invariant ToSet(q) == ToSet(queue) + (targets - left - reached)
      invariant targets <= reached ==> r == reached && q == queue
      decreases left
    {
      var target :| target in left;
      left := left - {target};
      if target in r { continue; }
      r := r + {target};
      assert ToSet(q + [target]) == ToSet(q) + {target};
      q := q + [target];
    }
  }

  // ---- What is wrong with one action ----

  predicate Repeated(keys: seq<Key>, key: Key) {
    exists i, j :: 0 <= i < j < |keys| && keys[i] == key && keys[j] == key
  }

  function OrdinaryFault(d: Definition, key: Key): Option<FlagFault> {
    var flag := FlagOf(d, key);
    if flag.None? then Some(NoSuchFlag)
    else if flag.value.terminal then Some(IsTerminal)
    else if flag.value.editable then Some(IsEditable)
    else None
  }

  predicate ConditionFault(d: Definition, action: Action, c: Condition, allowInputs: bool) {
    match c.source
    case FromInput => !allowInputs || FindInput(action.inputs, c.key).None?
    case FromFlag => FlagOf(d, c.key).None?
    case FromRecorded => FindRecorded(d.recordedValues, c.key).None?
    case FromAnswer => c.answerType.None?
  }

  function CountMoves(effects: seq<Effect>): nat {
    if effects == [] then 0 else CountMoves(effects[..|effects| - 1]) + if Moves(effects[|effects| - 1].kind) then 1 else 0
  }

  function CountRevisions(effects: seq<Effect>): nat {
    if effects == [] then 0 else CountRevisions(effects[..|effects| - 1]) + if Revises(effects[|effects| - 1].kind) then 1 else 0
  }

  ghost predicate FaultApartFromPermission(d: Definition, stage: Stage, action: Action, p: ActionProblem) {
    match p
    case RepeatedInput(key) => Repeated(InputKeys(action.inputs), key)
    case InputsNotAForm => !FormResolves(action)
    case NoOptions(i) =>
      && i < |action.inputs| && action.inputs[i].options == []
      && (action.inputs[i].inputType.SingleChoice? || action.inputs[i].inputType.MultiChoice?)
    case BadDefault(i) =>
      && i < |action.inputs| && action.inputs[i].defaultFrom.Some? && action.inputs[i].defaultFrom.value.DefaultRecorded?
      && FindRecorded(d.recordedValues, action.inputs[i].defaultFrom.value.key).None?
    case InputCondition(i, k) =>
      && i < |action.inputs| && k < |action.inputs[i].visibleWhen|
      && ConditionFault(d, action, action.inputs[i].visibleWhen[k], true)
    case AvailableCondition(k) => k < |action.availableWhen| && ConditionFault(d, action, action.availableWhen[k], false)
    case EffectCondition(e, k) =>
      && e < |action.effects| && k < |action.effects[e].when|
      && ConditionFault(d, action, action.effects[e].when[k], true)
    case EffectParam(e, fault) => e < |action.effects| && HasParamFault(d, action, action.effects[e].kind, fault)
    case EffectRule(e, fault) => e < |action.effects| && HasRuleFault(d, stage, action, action.effects[e].kind, fault)
    case TwoMoves => CountMoves(action.effects) > 1
    case TwoRevisions => CountRevisions(action.effects) > 1
    case MoveAndRevision => CountMoves(action.effects) > 0 && CountRevisions(action.effects) > 0
    case NoPermission => false
  }

  /** An action is told it needs a permission only once nothing else about it is wrong. */
  ghost predicate IsActionProblem(d: Definition, stage: Stage, action: Action, p: ActionProblem) {
    || FaultApartFromPermission(d, stage, action, p)
    || (p == NoPermission && PermissionsFor(d, action) == {}
        && forall q :: !FaultApartFromPermission(d, stage, action, q))
  }

  const PARAM_FAULTS := {UnknownFlag, UnknownInput, UnknownRecorded, UnknownStage, UnknownRoute}

  const RULE_FAULTS := {
    EndsThePipeline, LetsApplicantEdit, RemovedByResubmission, NotTerminal, NotARevisionFlag, NotLongText, CannotHold,
    NotAnAmount, MovesToItself, NotAChoice, OptionNotRouted, RouteNotOffered, NothingToReturnFrom}

  function InputFaults(d: Definition, action: Action, i: nat): set<ActionProblem>
    requires i < |action.inputs|
  {
    var input := action.inputs[i];
    (if input.options == [] && (input.inputType.SingleChoice? || input.inputType.MultiChoice?) then {NoOptions(i)} else {})
    + (if input.defaultFrom.Some? && input.defaultFrom.value.DefaultRecorded? &&
          FindRecorded(d.recordedValues, input.defaultFrom.value.key).None? then {BadDefault(i)} else {})
    + set k | 0 <= k < |input.visibleWhen| && ConditionFault(d, action, input.visibleWhen[k], true) :: InputCondition(i, k)
  }

  function EffectFaults(d: Definition, stage: Stage, action: Action, i: nat): set<ActionProblem>
    requires i < |action.effects|
  {
    var effect := action.effects[i];
    (set k | 0 <= k < |effect.when| && ConditionFault(d, action, effect.when[k], true) :: EffectCondition(i, k))
    + (set f | f in PARAM_FAULTS && HasParamFault(d, action, effect.kind, f) :: EffectParam(i, f))
    + (set f | f in RULE_FAULTS && HasRuleFault(d, stage, action, effect.kind, f) :: EffectRule(i, f))
  }

  function RepeatedKeys(keys: seq<Key>): set<Key> { set k | k in keys && Repeated(keys, k) }

  /** The input, or the effect, a problem is about. */
  function InputOf(p: ActionProblem): int {
    match p case NoOptions(i) => i case BadDefault(i) => i case InputCondition(i, _) => i case _ => -1
  }

  function EffectOf(p: ActionProblem): int {
    match p case EffectCondition(i, _) => i case EffectParam(i, _) => i case EffectRule(i, _) => i case _ => -1
  }

  method InputProblems(d: Definition, action: Action) returns (problems: set<ActionProblem>)
    ensures forall p :: p in problems <==> 0 <= InputOf(p) < |action.inputs| && p in InputFaults(d, action, InputOf(p))
  {
    problems := {};
    for i := 0 to |action.inputs|
      invariant forall p :: p in problems <==> 0 <= InputOf(p) < i && p in InputFaults(d, action, InputOf(p))
    {
      assert forall p :: p in InputFaults(d, action, i) ==> InputOf(p) == i;
      problems := problems + InputFaults(d, action, i);
    }
  }

  method EffectProblems(d: Definition, stage: Stage, action: Action)
    returns (problems: set<ActionProblem>, stageEffects: nat, lifecycleEffects: nat)
    ensures forall p :: p in problems <==> 0 <= EffectOf(p) < |action.effects| && p in EffectFaults(d, stage, action, EffectOf(p))
    ensures stageEffects == CountMoves(action.effects) && lifecycleEffects == CountRevisions(action.effects)
  {
    problems, stageEffects, lifecycleEffects := {}, 0, 0;
    for i := 0 to |action.effects|
      invariant stageEffects == CountMoves(action.effects[..i]) && lifecycleEffects == CountRevisions(action.effects[..i])
      invariant forall p :: p in problems <==> 0 <= EffectOf(p) < i && p in EffectFaults(d, stage, action, EffectOf(p))
    {
      CountOneMore(action.effects, i);
      if Moves(action.effects[i].kind) { stageEffects := stageEffects + 1; }
      if Revises(action.effects[i].kind) { lifecycleEffects := lifecycleEffects + 1; }
      assert forall p :: p in EffectFaults(d, stage, action, i) ==> EffectOf(p) == i;
      problems := problems + EffectFaults(d, stage, action, i);
    }
    assert action.effects[..|action.effects|] == action.effects;
  }

  lemma CountOneMore(effects: seq<Effect>, i: nat)
    requires i < |effects|
    ensures CountMoves(effects[..i + 1]) == CountMoves(effects[..i]) + if Moves(effects[i].kind) then 1 else 0
    ensures CountRevisions(effects[..i + 1]) == CountRevisions(effects[..i]) + if Revises(effects[i].kind) then 1 else 0
  {
    assert effects[..i + 1][..i] == effects[..i];
  }

  lemma FaultsByPlace(d: Definition, stage: Stage, action: Action, p: ActionProblem)
    ensures 0 <= InputOf(p) ==>
      (FaultApartFromPermission(d, stage, action, p) <==> InputOf(p) < |action.inputs| && p in InputFaults(d, action, InputOf(p)))
    ensures 0 <= EffectOf(p) ==>
      (FaultApartFromPermission(d, stage, action, p) <==> EffectOf(p) < |action.effects| && p in EffectFaults(d, stage, action, EffectOf(p)))
  {
    match p
    case EffectParam(e, fault) => ParamFaultsAreAll(fault);
    case EffectRule(e, fault) => RuleFaultsAreAll(fault);
    case _ =>
  }

  lemma ParamFaultsAreAll(f: ParamFault)
    ensures f in PARAM_FAULTS
  {
    match f case UnknownFlag => case UnknownInput => case UnknownRecorded => case UnknownStage => case UnknownRoute =>
  }

  lemma RuleFaultsAreAll(f: RuleFault)
    ensures f in RULE_FAULTS
  {
    match f
    case EndsThePipeline => case LetsApplicantEdit => case RemovedByResubmission => case NotTerminal =>
    case NotARevisionFlag => case NotLongText => case CannotHold => case NotAnAmount => case MovesToItself =>
    case NotAChoice => case OptionNotRouted => case RouteNotOffered => case NothingToReturnFrom =>
  }

  function AvailabilityFaults(d: Definition, action: Action): set<ActionProblem> {
    set k | 0 <= k < |action.availableWhen| && ConditionFault(d, action, action.availableWhen[k], false) :: AvailableCondition(k)
  }

  function InputKeyFaults(action: Action): set<ActionProblem> {
    set k | k in RepeatedKeys(InputKeys(action.inputs)) :: RepeatedInput(k)
  }

  /** What is wrong with how an action combines its effects. */
  function CombinationFaults(stageEffects: nat, lifecycleEffects: nat): set<ActionProblem> {
    (if stageEffects > 1 then {TwoMoves} else {})
    + (if lifecycleEffects > 1 then {TwoRevisions} else {})
    + (if stageEffects > 0 && lifecycleEffects > 0 then {MoveAndRevision} else {})
  }

  /** Everything wrong apart from permission, gathered part by part. */
  ghost predicate Gathered(
    d: Definition, stage: Stage, action: Action, resolves: bool, aboutInputs: set<ActionProblem>, aboutEffects: set<ActionProblem>) {
    && (resolves <==> FormResolves(action))
    && (forall p :: p in aboutInputs <==> 0 <= InputOf(p) < |action.inputs| && p in InputFaults(d, action, InputOf(p)))
    && (forall p :: p in aboutEffects <==> 0 <= EffectOf(p) < |action.effects| && p in EffectFaults(d, stage, action, EffectOf(p)))
  }

  lemma GatheredIsAll(
    d: Definition, stage: Stage, action: Action, resolves: bool,
    aboutInputs: set<ActionProblem>, aboutEffects: set<ActionProblem>, p: ActionProblem)
    requires Gathered(d, stage, action, resolves, aboutInputs, aboutEffects)
    ensures FaultApartFromPermission(d, stage, action, p) <==>
      || p in InputKeyFaults(action) || (!resolves && p == InputsNotAForm) || p in aboutInputs
      || p in AvailabilityFaults(d, action) || p in aboutEffects
      || p in CombinationFaults(CountMoves(action.effects), CountRevisions(action.effects))
  {
    FaultsByPlace(d, stage, action, p);
  }

  method ActionProblems(d: Definition, stage: Stage, action: Action) returns (problems: set<ActionProblem>)
    ensures forall p :: p in problems <==> IsActionProblem(d, stage, action, p)
  {
    problems := InputKeyFaults(action);
    var order := ResolvedOrder(action);
    if order.None? { problems := problems + {InputsNotAForm}; }
    var aboutInputs := InputProblems(d, action);
    var aboutEffects, stageEffects, lifecycleEffects := EffectProblems(d, stage, action);
    problems := problems + aboutInputs + AvailabilityFaults(d, action) + aboutEffects;
    problems := problems + CombinationFaults(stageEffects, lifecycleEffects);
    forall p ensures p in problems <==> FaultApartFromPermission(d, stage, action, p) {
      GatheredIsAll(d, stage, action, order.Some?, aboutInputs, aboutEffects, p);
    }
    if problems == {} && PermissionsFor(d, action) == {} { problems := problems + {NoPermission}; }
  }

  // ---- What is wrong with the document ----

  predicate StageEnds(s: Stage) {
    exists a :: a in s.actions && exists e :: e in a.effects && Ends(e.kind)
  }

  predicate StageIsLeft(s: Stage) {
    exists a :: a in s.actions && exists e :: e in a.effects && Moves(e.kind)
  }

  function ActionKeys(actions: seq<Action>): seq<Key> { seq(|actions|, i requires 0 <= i < |actions| => actions[i].key) }

  function RecordedKeys(values: seq<RecordedValue>): seq<Key> { seq(|values|, i requires 0 <= i < |values| => values[i].key) }

  ghost predicate IsProblem(d: Definition, p: Problem) {
    match p
    case RepeatedStage(key) => Repeated(StageKeys(d.stages), key)
    case RepeatedFlag(key) => Repeated(FlagKeys(d.statusFlags), key)
    case RepeatedRecordedValue(key) => Repeated(RecordedKeys(d.recordedValues), key)
    case NoInitialStage => FindStage(d.stages, d.initialStageKey).None?
    case SubmitFlag(i, fault) => i < |d.onSubmit| && OrdinaryFault(d, d.onSubmit[i]) == Some(fault)
    case RepeatedAction(s, key) => s < |d.stages| && Repeated(ActionKeys(d.stages[s].actions), key)
    case PresenceFlag(s, i, fault) =>
      s < |d.stages| && i < |d.stages[s].presenceFlags| && OrdinaryFault(d, d.stages[s].presenceFlags[i]) == Some(fault)
    case NothingLeaves(s) => s < |d.stages| && !StageIsLeft(d.stages[s])
    case InAction(s, a, problem) =>
      s < |d.stages| && a < |d.stages[s].actions| && IsActionProblem(d, d.stages[s], d.stages[s].actions[a], problem)
    case Unreached(s) => s < |d.stages| && !Reached(d, d.stages[s].key)
    case NeverEnds => forall s :: s in d.stages && Reached(d, s.key) ==> !StageEnds(s)
  }

  function SubmitFaults(d: Definition): set<Problem> {
    set i | 0 <= i < |d.onSubmit| && OrdinaryFault(d, d.onSubmit[i]).Some? :: SubmitFlag(i, OrdinaryFault(d, d.onSubmit[i]).value)
  }

  /** What is wrong with a stage itself, its actions apart. */
  function StageFaults(d: Definition, s: nat): set<Problem>
    requires s < |d.stages|
  {
    var stage := d.stages[s];
    (set k | k in RepeatedKeys(ActionKeys(stage.actions)) :: RepeatedAction(s, k))
    + (set i | 0 <= i < |stage.presenceFlags| && OrdinaryFault(d, stage.presenceFlags[i]).Some? ::
         PresenceFlag(s, i, OrdinaryFault(d, stage.presenceFlags[i]).value))
    + (if StageIsLeft(stage) then {} else {NothingLeaves(s)})
  }

  /** A problem of the stage itself, or of one of its first `n` actions. */
  ghost predicate InStageSoFar(d: Definition, s: nat, n: nat, p: Problem)
    requires s < |d.stages| && n <= |d.stages[s].actions|
  {
    p in StageFaults(d, s) ||
    (p.InAction? && p.stage == s && p.action < n &&
      IsActionProblem(d, d.stages[s], d.stages[s].actions[p.action], p.problem))
  }

  function StageIn(p: Problem): int {
    match p
    case RepeatedAction(s, _) => s
    case PresenceFlag(s, _, _) => s
    case NothingLeaves(s) => s
    case InAction(s, _, _) => s
    case _ => -1
  }

  ghost predicate InSomeStage(d: Definition, n: nat, p: Problem)
    requires n <= |d.stages|
  {
    0 <= StageIn(p) < n && InStageSoFar(d, StageIn(p), |d.stages[StageIn(p)].actions|, p)
  }

  method StageProblems(d: Definition, s: nat) returns (problems: set<Problem>)
    requires s < |d.stages|
    ensures forall p :: p in problems <==> InStageSoFar(d, s, |d.stages[s].actions|, p)
    ensures forall p :: p in problems ==> StageIn(p) == s
  {
    var stage := d.stages[s];
    problems := StageFaults(d, s);
    for a := 0 to |stage.actions|
      invariant forall p :: p in problems <==> InStageSoFar(d, s, a, p)
    {
      var found := ActionProblems(d, stage, stage.actions[a]);
      problems := problems + set q | q in found :: InAction(s, a, q);
    }
  }

  /** Every problem of the document, all at once, and nothing that is not one. */
  method PipelineProblems(d: Definition) returns (problems: set<Problem>)
    ensures forall p :: p in problems <==> IsProblem(d, p)
  {
    problems := KeyFaults(d);
    if FindStage(d.stages, d.initialStageKey).None? { problems := problems + {NoInitialStage}; }
    problems := problems + SubmitFaults(d);
    var aboutStages := AllStageProblems(d);
    problems := problems + aboutStages;
    var reached := ReachableStages(d);
    problems := problems + UnreachedStages(d, reached);
    if forall s :: s in d.stages && s.key in reached ==> !StageEnds(s) { problems := problems + {NeverEnds}; }
    forall p ensures p in problems <==> IsProblem(d, p) {
      ProblemsByStage(d, p);
      ProblemsElsewhere(d, reached, p);
    }
  }

  function UnreachedStages(d: Definition, reached: set<Key>): set<Problem> {
    set s | 0 <= s < |d.stages| && d.stages[s].key !in reached :: Unreached(s)
  }

  lemma ProblemsElsewhere(d: Definition, reached: set<Key>, p: Problem)
    requires forall k :: k in reached <==> Reached(d, k)
    ensures StageIn(p) < 0 ==> (IsProblem(d, p) <==>
      || p in KeyFaults(d)
      || (p.NoInitialStage? && FindStage(d.stages, d.initialStageKey).None?)
      || p in SubmitFaults(d)
      || p in UnreachedStages(d, reached)
      || (p.NeverEnds? && forall s :: s in d.stages && s.key in reached ==> !StageEnds(s)))
    ensures StageIn(p) >= 0 ==> p !in KeyFaults(d) + SubmitFaults(d) + UnreachedStages(d, reached) + {NoInitialStage, NeverEnds}
  {
  }

  function KeyFaults(d: Definition): set<Problem> {
    (set k | k in RepeatedKeys(StageKeys(d.stages)) :: RepeatedStage(k))
    + (set k | k in RepeatedKeys(FlagKeys(d.statusFlags)) :: RepeatedFlag(k))
    + (set k | k in RepeatedKeys(RecordedKeys(d.recordedValues)) :: RepeatedRecordedValue(k))
  }

  method AllStageProblems(d: Definition) returns (problems: set<Problem>)
    ensures forall p :: p in problems <==> InSomeStage(d, |d.stages|, p)
  {
    problems := {};
    for s := 0 to |d.stages|
      invariant forall p :: p in problems <==> InSomeStage(d, s, p)
    {
      var found := StageProblems(d, s);
      problems := problems + found;
    }
  }

  lemma ProblemsByStage(d: Definition, p: Problem)
    ensures 0 <= StageIn(p) ==> (IsProblem(d, p) <==> InSomeStage(d, |d.stages|, p))
  {
  }

  /** A document nothing is wrong with. */
  ghost predicate Sound(d: Definition) {
    forall p :: !IsProblem(d, p)
  }
}
