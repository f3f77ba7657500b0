/**
 * What each effect is and does: the catalogue's exclusivity (src/services/catalogue/workflow.generated.ts)
 * and the handlers' plans, permissions and checks (src/services/pipeline/effects).
 */
module PipelineEffects {
  import opened Common
  import opened PipelineDefinitions

  datatype Move = MoveTo(to: Key) | Return | End(flag: Key)

  datatype Notice = Notice(message: string, email: bool)

  /** What one fired effect contributes to an action's outcome. */
  datatype Fragment = Fragment(
    move: Option<Move>, addFlags: seq<Key>, removeFlags: seq<Key>, recorded: Values,
    revision: Option<Key>, notify: Option<Notice>, internalNote: Option<string>)

  const NOTHING := Fragment(None, [], [], map[], None, None, None)

  datatype Refusal =
    | NoEarlierStage | Incompatible | ChooseWhere(input: Key)
    | AmountNotGiven(input: Key) | MoreThanAsked(input: Key, bound: int) | MoreThanCeiling(input: Key, bound: int)

  /** Everything an effect may read while planning. */
  datatype Context = Context(
    definition: Definition, stage: Stage, action: Action, inputs: Values, state: FileState, ceilingPaise: Option<int>)

  // ---- The catalogue ----

  predicate Moves(e: EffectKind) {
    e.MoveToStage? || e.MoveByChoice? || e.ReturnToPrevious? || e.CompletePipeline? || e.CloseApplication?
  }

  predicate Revises(e: EffectKind) { e.RequestRevision? }

  predicate Ends(e: EffectKind) { e.CompletePipeline? || e.CloseApplication? }

  /** The stages one effect can send a file to. */
  function MoveTargets(e: EffectKind): set<Key> {
    match e
    case MoveToStage(target) => {target}
    case MoveByChoice(_, routes) => routes.Values
    case _ => {}
  }

  // ---- Planning ----

  function PlanRecorded(e: EffectKind, c: Context): Result<Fragment, Refusal>
    requires e.SetRecordedValue?
  {
    var value := Lookup(c.inputs, e.input);
    if value.None? || value.value.Null? || value.value == Text("") then Success(NOTHING)
    else if value.value.Number? && e.atMostAnswer.Some? && e.atMostAnswer.value != "" &&
            !(e.atMostAnswer.value in c.state.answers && c.state.answers[e.atMostAnswer.value].Number?)
    then Failure(AmountNotGiven(e.input))
    else if value.value.Number? && e.atMostAnswer.Some? && e.atMostAnswer.value != "" &&
            value.value.number > c.state.answers[e.atMostAnswer.value].number
    then Failure(MoreThanAsked(e.input, c.state.answers[e.atMostAnswer.value].number))
    else if value.value.Number? && e.atMostCycleCeiling && c.ceilingPaise.Some? && value.value.number > c.ceilingPaise.value
    then Failure(MoreThanCeiling(e.input, c.ceilingPaise.value))
    else Success(NOTHING.(recorded := map[e.target := value.value]))
  }

  function PlanEffect(host: Host, e: EffectKind, c: Context): Result<Fragment, Refusal> {
    match e
    case AddStatus(flag) => Success(NOTHING.(addFlags := [flag]))
    case RemoveStatus(flag) => Success(NOTHING.(removeFlags := [flag]))
    case SetRecordedValue(_, _, _, _) => PlanRecorded(e, c)
    case RequestRevision(flag) => Success(NOTHING.(revision := Some(flag)))
    case NotifyApplicant(message, email) => Success(NOTHING.(notify := Some(Notice(message, email))))
    case AddInternalNote(input) =>
      var note := Lookup(c.inputs, input);
      if note.Some? && note.value.Text? && host.trim(note.value.text) != ""
      then Success(NOTHING.(internalNote := Some(host.trim(note.value.text)))) else Success(NOTHING)
    case MoveToStage(target) => Success(NOTHING.(move := Some(MoveTo(target))))
    case MoveByChoice(input, routes) =>
      var chosen := Lookup(c.inputs, input);
      if chosen.Some? && chosen.value.Text? && chosen.value.text in routes && routes[chosen.value.text] != ""
      then Success(NOTHING.(move := Some(MoveTo(routes[chosen.value.text])))) else Failure(ChooseWhere(input))
    case ReturnToPrevious =>
      if c.state.trail != [] then Success(NOTHING.(move := Some(Return))) else Failure(NoEarlierStage)
    case CompletePipeline(flag) => Success(NOTHING.(move := Some(End(flag))))
    case CloseApplication(flag) => Success(NOTHING.(move := Some(End(flag))))
  }

  /** A fragment moves only as its effect's kind and parameters allow. */
  lemma MoveOfEffect(host: Host, e: EffectKind, c: Context)
    requires PlanEffect(host, e, c).Success?
    ensures var f := PlanEffect(host, e, c).value;
      && (f.move.Some? <==> Moves(e))
      && (f.move.Some? && f.move.value.End? <==> Ends(e))
      && (f.move.Some? && f.move.value.MoveTo? ==> f.move.value.to in MoveTargets(e))
      && (f.move == Some(Return) <==> e.ReturnToPrevious?)
      && (f.move == Some(Return) ==> c.state.trail != [])
      && (f.revision.Some? <==> Revises(e))
  {
  }

  /** A fragment asks for a revision only with the flag its effect names. */
  lemma RevisionOfEffect(host: Host, e: EffectKind, c: Context)
    requires PlanEffect(host, e, c).Success? && PlanEffect(host, e, c).value.revision.Some?
    ensures e == RequestRevision(PlanEffect(host, e, c).value.revision.value)
  {
  }

  /** A fragment adds and removes only the flag its effect names. */
  lemma FlagsOfEffect(host: Host, e: EffectKind, c: Context)
    requires PlanEffect(host, e, c).Success?
    ensures PlanEffect(host, e, c).value.addFlags == if e.AddStatus? then [e.flag] else []
    ensures PlanEffect(host, e, c).value.removeFlags == if e.RemoveStatus? then [e.flag] else []
  {
  }

  /** A fragment records only under its effect's own target, what the officer gave, within the effect's bounds. */
  lemma RecordedOfEffect(host: Host, e: EffectKind, c: Context, k: Key)
    requires PlanEffect(host, e, c).Success? && k in PlanEffect(host, e, c).value.recorded
    ensures e.SetRecordedValue? && e.target == k
    ensures Lookup(c.inputs, e.input) == Some(PlanEffect(host, e, c).value.recorded[k])
    ensures PlanEffect(host, e, c).value.recorded[k].Number? ==> WithinBounds(e, c, PlanEffect(host, e, c).value.recorded[k].number)
  {
  }

  /** An amount is within the answer and the cycle's ceiling its effect names. */
  predicate WithinBounds(e: EffectKind, c: Context, amount: int)
    requires e.SetRecordedValue?
  {
    && (e.atMostAnswer.Some? && e.atMostAnswer.value != "" ==>
         var asked := Lookup(c.state.answers, e.atMostAnswer.value);
         asked.Some? && asked.value.Number? && amount <= asked.value.number)
    && (e.atMostCycleCeiling && c.ceilingPaise.Some? ==> amount <= c.ceilingPaise.value)
  }

  /** An input the officer left a value in: there, not null, and not empty text. */
  predicate IsGiven(v: Option<Value>) { v.Some? && v.value != Null && v.value != Text("") }

  /** The answer a recording effect bounds its amount by, where it names one. */
  function Bounding(e: EffectKind, c: Context): Option<Option<Value>>
    requires e.SetRecordedValue?
  {
    if e.atMostAnswer.None? || e.atMostAnswer.value == "" then None else Some(Lookup(c.state.answers, e.atMostAnswer.value))
  }

  /**
   * A recording effect refuses exactly an amount that is not within its bounds, and says which it breaks: the
   * applicant gave no amount, it is more than theirs, or it is within theirs and more than the cycle's ceiling.
   * Otherwise it records the officer's value under its target, if there is one, and nothing else.
   */
  lemma RecordingRefusesIff(host: Host, e: EffectKind, c: Context)
    requires e.SetRecordedValue?
    ensures var v := Lookup(c.inputs, e.input);
      var outcome := PlanEffect(host, e, c);
      var bounding := Bounding(e, c);
      && (outcome.Failure? <==> v.Some? && v.value.Number? && !WithinBounds(e, c, v.value.number))
      && (outcome.Failure? ==>
           if bounding.Some? && (bounding.value.None? || !bounding.value.value.Number?) then outcome.error == AmountNotGiven(e.input)
           else if bounding.Some? && v.value.number > bounding.value.value.number then
             outcome.error == MoreThanAsked(e.input, bounding.value.value.number)
           else c.ceilingPaise.Some? && v.value.number > c.ceilingPaise.value && outcome.error == MoreThanCeiling(e.input, c.ceilingPaise.value))
      && (outcome.Success? ==>
           outcome.value == NOTHING.(recorded := if IsGiven(v) then map[e.target := v.value] else map[]))
  {
  }

  // ---- Permissions ----

  datatype Permission = StageAdvance | StageDecide | StageReturn | StageClose | StageRequestRevision | ApplicationNote

  function FlagPermission(d: Definition, key: Key): Permission {
    if FlagOf(d, key).Some? && FlagOf(d, key).value.outcome then StageDecide else StageAdvance
  }

  function EffectPermissions(d: Definition, e: EffectKind): set<Permission> {
    match e
    case AddStatus(flag) => {FlagPermission(d, flag)}
    case RemoveStatus(flag) => {FlagPermission(d, flag)}
    case SetRecordedValue(_, _, _, _) => {StageDecide}
    case RequestRevision(_) => {StageRequestRevision}
    case NotifyApplicant(_, _) => {}
    case AddInternalNote(_) => {ApplicationNote}
    case MoveToStage(_) => {StageAdvance}
    case MoveByChoice(_, _) => {StageAdvance}
    case ReturnToPrevious => {StageReturn}
    case CompletePipeline(_) => {StageAdvance}
    case CloseApplication(_) => {StageClose}
  }

  /** The union of what an action's effects need. */
  function PermissionsFor(d: Definition, action: Action): set<Permission> {
    set e, p | e in action.effects && p in EffectPermissions(d, e.kind) :: p
  }

  // Which permission each thing an action does asks for, apart from the table.

  predicate TouchesOutcome(d: Definition, e: EffectKind) {
    (e.AddStatus? || e.RemoveStatus?) && FlagOf(d, e.flag).Some? && FlagOf(d, e.flag).value.outcome
  }

  predicate Advances(d: Definition, e: EffectKind) {
    e.MoveToStage? || e.MoveByChoice? || e.CompletePipeline? || ((e.AddStatus? || e.RemoveStatus?) && !TouchesOutcome(d, e))
  }

  predicate Decides(d: Definition, e: EffectKind) { e.SetRecordedValue? || TouchesOutcome(d, e) }

  /** An effect's permission, by what the effect does. */
  predicate Permits(d: Definition, e: EffectKind) {
    && (StageClose in EffectPermissions(d, e) <==> e.CloseApplication?)
    && (StageReturn in EffectPermissions(d, e) <==> e.ReturnToPrevious?)
    && (StageRequestRevision in EffectPermissions(d, e) <==> e.RequestRevision?)
    && (ApplicationNote in EffectPermissions(d, e) <==> e.AddInternalNote?)
    && (StageDecide in EffectPermissions(d, e) <==> Decides(d, e))
    && (StageAdvance in EffectPermissions(d, e) <==> Advances(d, e))
  }

  /** Each effect needs one permission, by what it does; telling the applicant needs none. */
  lemma PermissionOfEffect(d: Definition, e: EffectKind)
    ensures Permits(d, e) && (EffectPermissions(d, e) == {} <==> e.NotifyApplicant?)
  {
    if !e.NotifyApplicant? {
      var p := if Decides(d, e) then StageDecide else if Advances(d, e) then StageAdvance
        else match e
        case RequestRevision(_) => StageRequestRevision
        case AddInternalNote(_) => ApplicationNote
        case ReturnToPrevious => StageReturn
        case _ => StageClose;
      assert p in EffectPermissions(d, e);
    }
  }

  /** An action needs a permission exactly when some effect of it does what that permission is for. */
  lemma PermissionsSayWhatIsDone(d: Definition, action: Action)
    ensures StageClose in PermissionsFor(d, action) <==> exists e :: e in action.effects && e.kind.CloseApplication?
    ensures StageReturn in PermissionsFor(d, action) <==> exists e :: e in action.effects && e.kind.ReturnToPrevious?
    ensures StageRequestRevision in PermissionsFor(d, action) <==> exists e :: e in action.effects && e.kind.RequestRevision?
    ensures ApplicationNote in PermissionsFor(d, action) <==> exists e :: e in action.effects && e.kind.AddInternalNote?
    ensures StageDecide in PermissionsFor(d, action) <==> exists e :: e in action.effects && Decides(d, e.kind)
    ensures StageAdvance in PermissionsFor(d, action) <==> exists e :: e in action.effects && Advances(d, e.kind)
    ensures PermissionsFor(d, action) == {} <==> forall e :: e in action.effects ==> e.kind.NotifyApplicant?
  {
    forall p ensures p in PermissionsFor(d, action) <==> Needs(d, action, p) {
    }
    forall e | e in action.effects ensures Permits(d, e.kind) {
      PermissionOfEffect(d, e.kind);
    }
    NeedsNothing(d, action);
  }

  ghost predicate Needs(d: Definition, action: Action, p: Permission) {
    exists e :: e in action.effects && p in EffectPermissions(d, e.kind)
  }

  lemma NeedsNothing(d: Definition, action: Action)
    ensures PermissionsFor(d, action) == {} <==> forall e :: e in action.effects ==> e.kind.NotifyApplicant?
  {
    forall e | e in action.effects ensures EffectPermissions(d, e.kind) <= PermissionsFor(d, action) {
    }
    forall e | e in action.effects ensures EffectPermissions(d, e.kind) == {} <==> e.kind.NotifyApplicant? {
      PermissionOfEffect(d, e.kind);
    }
  }

  // ---- Document checks: what each parameter names, then the effect's own rules ----

  datatype ParamFault = UnknownFlag | UnknownInput | UnknownRecorded | UnknownStage | UnknownRoute

  predicate HasParamFault(d: Definition, action: Action, e: EffectKind, fault: ParamFault) {
    match fault
    case UnknownFlag =>
      (e.AddStatus? || e.RemoveStatus? || e.RequestRevision? || e.CompletePipeline? || e.CloseApplication?) && FlagOf(d, e.flag).None?
    case UnknownInput =>
      (e.SetRecordedValue? || e.AddInternalNote? || e.MoveByChoice?) && FindInput(action.inputs, e.input).None?
    case UnknownRecorded => e.SetRecordedValue? && FindRecorded(d.recordedValues, e.target).None?
    case UnknownStage => e.MoveToStage? && FindStage(d.stages, e.target).None?
    case UnknownRoute => e.MoveByChoice? && exists option :: option in e.routes && FindStage(d.stages, e.routes[option]).None?
  }

  datatype RuleFault =
    | EndsThePipeline | LetsApplicantEdit | RemovedByResubmission | NotTerminal | NotARevisionFlag
    | NotLongText | CannotHold | NotAnAmount | MovesToItself | NotAChoice | OptionNotRouted | RouteNotOffered
    | NothingToReturnFrom

  predicate CompatibleTypes(inputType: InputType, valueType: InputType) {
    inputType == valueType || (valueType.ShortText? && (inputType.ShortText? || inputType.LongText?))
  }

  predicate HasRuleFault(d: Definition, stage: Stage, action: Action, e: EffectKind, fault: RuleFault) {
    match fault
    case EndsThePipeline => e.AddStatus? && FlagOf(d, e.flag).Some? && FlagOf(d, e.flag).value.terminal
    case LetsApplicantEdit => e.AddStatus? && FlagOf(d, e.flag).Some? && FlagOf(d, e.flag).value.editable
    case RemovedByResubmission => e.RemoveStatus? && FlagOf(d, e.flag).Some? && FlagOf(d, e.flag).value.editable
    case NotTerminal => Ends(e) && FlagOf(d, e.flag).Some? && !FlagOf(d, e.flag).value.terminal
    case NotARevisionFlag =>
      e.RequestRevision? && FlagOf(d, e.flag).Some? && !(FlagOf(d, e.flag).value.editable && !FlagOf(d, e.flag).value.terminal)
    case NotLongText =>
      e.AddInternalNote? && FindInput(action.inputs, e.input).Some? && !FindInput(action.inputs, e.input).value.inputType.LongText?
    case CannotHold =>
      && e.SetRecordedValue? && FindInput(action.inputs, e.input).Some? && FindRecorded(d.recordedValues, e.target).Some?
      && !CompatibleTypes(FindInput(action.inputs, e.input).value.inputType, FindRecorded(d.recordedValues, e.target).value.valueType)
    case NotAnAmount =>
      && e.SetRecordedValue? && FindInput(action.inputs, e.input).Some? && FindRecorded(d.recordedValues, e.target).Some?
      && ((e.atMostAnswer.Some? && e.atMostAnswer.value != "") || e.atMostCycleCeiling)
      && var valueType := FindRecorded(d.recordedValues, e.target).value.valueType; !valueType.Money? && !valueType.Integer?
    case MovesToItself =>
      || (e.MoveToStage? && e.target == stage.key)
      || (e.MoveByChoice? && FindInput(action.inputs, e.input).Some? && FindInput(action.inputs, e.input).value.inputType.SingleChoice?
          && stage.key in e.routes.Values)
    case NotAChoice =>
      e.MoveByChoice? && FindInput(action.inputs, e.input).Some? && !FindInput(action.inputs, e.input).value.inputType.SingleChoice?
    case OptionNotRouted =>
      && e.MoveByChoice? && FindInput(action.inputs, e.input).Some? && FindInput(action.inputs, e.input).value.inputType.SingleChoice?
      && exists option :: option in FindInput(action.inputs, e.input).value.options && option !in e.routes
    case RouteNotOffered =>
      && e.MoveByChoice? && FindInput(action.inputs, e.input).Some? && FindInput(action.inputs, e.input).value.inputType.SingleChoice?
      && exists option :: option in e.routes && option !in FindInput(action.inputs, e.input).value.options
    case NothingToReturnFrom => e.ReturnToPrevious? && stage.key == d.initialStageKey
  }
}
