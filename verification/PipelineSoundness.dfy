/**
 * How a document is shown to have nothing wrong with it (src/services/pipeline/validate.ts): one effect,
 * one action and one stage at a time.
 */
module PipelineSoundness {
  import opened Common
  import opened PipelineDefinitions
  import opened PipelineEffects
  import opened ActionInputs
  import opened PipelineValidation

  // ---- Nothing is wrong with any action ----

  /** Every reason an action can be wrong, denied one effect and one input at a time. */
  ghost predicate Fits(d: Definition, stage: Stage, action: Action, mover: nat) {
    && Distinct(InputKeys(action.inputs))
    && (forall i :: i in action.inputs ==>
         i.visibleWhen == [] && (i.defaultFrom.Some? ==> i.defaultFrom.value.DefaultAnswer?)
         && (i.inputType.SingleChoice? || i.inputType.MultiChoice? ==> i.options != []))
    && (forall c :: c in action.availableWhen ==> !ConditionFault(d, action, c, false))
    && (forall e :: e in action.effects ==> e.when == [] && EffectFits(d, stage, action, e.kind))
    && (forall j :: 0 <= j < |action.effects| && j != mover ==> !Moves(action.effects[j].kind) && !Revises(action.effects[j].kind))
    && mover < |action.effects| && EffectPermissions(d, action.effects[mover].kind) != {}
  }

  ghost predicate EffectFits(d: Definition, stage: Stage, action: Action, e: EffectKind) {
    && (forall f :: !HasParamFault(d, action, e, f))
    && (forall f :: !HasRuleFault(d, stage, action, e, f))
  }

  lemma {:induction false} AtMostOneMoves(effects: seq<Effect>, mover: nat)
    requires forall j :: 0 <= j < |effects| && j != mover ==> !Moves(effects[j].kind) && !Revises(effects[j].kind)
    ensures CountMoves(effects) <= 1 && CountRevisions(effects) <= 1
    ensures mover >= |effects| ==> CountMoves(effects) == 0 == CountRevisions(effects)
    ensures CountMoves(effects) == 0 || CountRevisions(effects) == 0
  {
    if effects != [] {
      AtMostOneMoves(effects[..|effects| - 1], mover);
    }
  }

  lemma FittingActionHasNoProblem(d: Definition, stage: Stage, action: Action, mover: nat, p: ActionProblem)
    requires Fits(d, stage, action, mover)
    ensures !IsActionProblem(d, stage, action, p)
  {
    AtMostOneMoves(action.effects, mover);
    NoConditionsResolve(action);
    if p.RepeatedInput? && Repeated(InputKeys(action.inputs), p.key) {
      assert false;
    }
    var permission :| permission in EffectPermissions(d, action.effects[mover].kind);
    assert permission in PermissionsFor(d, action);
  }

  // What each kind of effect needs of the document, stated once for any document.

  lemma StatusFits(d: Definition, stage: Stage, action: Action, f: StatusFlag)
    requires FlagOf(d, f.key) == Some(f) && !f.editable
    ensures !f.terminal ==> EffectFits(d, stage, action, AddStatus(f.key))
    ensures EffectFits(d, stage, action, RemoveStatus(f.key))
  {
  }

  lemma EndFits(d: Definition, stage: Stage, action: Action, f: StatusFlag)
    requires FlagOf(d, f.key) == Some(f) && f.terminal
    ensures EffectFits(d, stage, action, CompletePipeline(f.key)) && EffectFits(d, stage, action, CloseApplication(f.key))
  {
  }

  lemma RevisionFits(d: Definition, stage: Stage, action: Action, f: StatusFlag)
    requires FlagOf(d, f.key) == Some(f) && f.editable && !f.terminal
    ensures EffectFits(d, stage, action, RequestRevision(f.key))
  {
  }

  lemma NotifyFits(d: Definition, stage: Stage, action: Action, message: string)
    ensures EffectFits(d, stage, action, NotifyApplicant(message, true))
  {
  }

  lemma NoteFits(d: Definition, stage: Stage, action: Action, key: Key)
    requires FindInput(action.inputs, key).Some? && FindInput(action.inputs, key).value.inputType.LongText?
    ensures EffectFits(d, stage, action, AddInternalNote(key))
  {
  }

  lemma ReturnFits(d: Definition, stage: Stage, action: Action)
    requires stage.key != d.initialStageKey
    ensures EffectFits(d, stage, action, ReturnToPrevious)
  {
  }

  lemma RecordFits(d: Definition, stage: Stage, action: Action, e: EffectKind, input: Input, value: RecordedValue)
    requires e.SetRecordedValue? && FindInput(action.inputs, e.input) == Some(input)
    requires FindRecorded(d.recordedValues, e.target) == Some(value) && input.inputType == value.valueType
    requires value.valueType.Money? || (e.atMostAnswer.None? && !e.atMostCycleCeiling)
    ensures EffectFits(d, stage, action, e)
  {
  }

  // ---- The moves of one action and of one stage ----

  lemma NoTargets(a: Action)
    requires forall e :: e in a.effects ==> !e.kind.MoveToStage? && !e.kind.MoveByChoice?
    ensures ActionTargets(a) == {}
  {
  }

  lemma OneTarget(a: Action)
    requires |a.effects| == 1
    ensures ActionTargets(a) == MoveTargets(a.effects[0].kind)
  {
    assert a.effects[0] in a.effects;
  }

  lemma OneActionMoves(s: Stage, a: Action)
    requires a in s.actions && forall b :: b in s.actions && b != a ==> ActionTargets(b) == {}
    ensures StageTargets(s) == ActionTargets(a)
  {
  }

  // ---- The whole document ----

  ghost predicate KeysApart(d: Definition) {
    Distinct(StageKeys(d.stages)) && Distinct(FlagKeys(d.statusFlags)) && Distinct(RecordedKeys(d.recordedValues))
  }

  ghost predicate EntryIsRight(d: Definition) {
    && FindStage(d.stages, d.initialStageKey).Some?
    && forall k :: k in d.onSubmit ==> OrdinaryFault(d, k).None?
  }

  ghost predicate NothingWrongAt(d: Definition, s: Stage) {
    && Distinct(ActionKeys(s.actions)) && StageIsLeft(s) && Reached(d, s.key)
    && (forall k :: k in s.presenceFlags ==> OrdinaryFault(d, k).None?)
    && (forall a, p :: a in s.actions ==> !IsActionProblem(d, s, a, p))
  }

  lemma DistinctIsNotRepeated(keys: seq<Key>)
    requires Distinct(keys)
    ensures forall k :: !Repeated(keys, k)
  {
  }

  /** A document is sound when its keys differ, its entry is right, nothing is wrong at any stage, and some stage ends. */
  lemma SoundStageByStage(d: Definition, ending: Stage)
    requires KeysApart(d) && EntryIsRight(d) && (forall s :: s in d.stages ==> NothingWrongAt(d, s))
    requires ending in d.stages && StageEnds(ending)
    ensures Sound(d)
  {
    DistinctIsNotRepeated(StageKeys(d.stages));
    DistinctIsNotRepeated(FlagKeys(d.statusFlags));
    DistinctIsNotRepeated(RecordedKeys(d.recordedValues));
    assert NothingWrongAt(d, ending);
    forall p ensures !IsProblem(d, p) {
      var place := if p.Unreached? then p.stage else StageIn(p);
      if 0 <= place < |d.stages| {
        NotWrongAt(d, place, p);
      }
    }
  }

  lemma NotWrongAt(d: Definition, place: nat, p: Problem)
    requires place < |d.stages| && NothingWrongAt(d, d.stages[place])
    requires place == (if p.Unreached? then p.stage else StageIn(p))
    ensures !IsProblem(d, p)
  {
    DistinctIsNotRepeated(ActionKeys(d.stages[place].actions));
  }
}
