/**
 * What every file of the Mission SEP pipeline (src/services/pipeline/example.ts) keeps, however it is worked.
 */
module MissionSepRuns {
  import opened Common
  import opened PipelineDefinitions
  import opened PipelineEffects
  import opened PipelineEngine
  import opened PipelineValidation
  import opened PipelineRuns
  import opened PipelineTrails
  import opened PipelinePresence
  import opened MissionSepPipeline

  // ---- What its actions can do ----

  /** What the effects of an action may name, and what stands beside them. */
  ghost predicate Shaped(a: Action) {
    && (forall e :: e in a.effects ==> e.when == [] && EffectShaped(a, e.kind))
    && (forall c :: c in a.availableWhen ==> c.group == 1)
  }

  ghost predicate EffectShaped(a: Action, e: EffectKind) {
    && (e.RemoveStatus? ==> e.flag == IN_REVIEW && CanEnd(a))
    && (Ends(e) ==> LeaveReview() in a.effects && (e.flag == COMPLETED || e.flag == REJECTED))
    && (e.RequestRevision? ==> e.flag == REVISION_REQUIRED)
    && (e.AddStatus? ==> e.flag == GRANT_APPROVED || (e.flag == LOAN_APPROVED && Always(CompletePipeline(COMPLETED)) in a.effects))
    && (e.SetRecordedValue? && e.target == APPROVED_GRANT ==>
         e.atMostCycleCeiling && Always(AddStatus(GRANT_APPROVED)) in a.effects && NoGrantYet() in a.availableWhen)
  }

  ghost predicate CanEnd(a: Action) { exists e :: e in a.effects && Ends(e.kind) }

  lemma RejectIsShaped(m: Messages)
    ensures Shaped(Reject(m))
  {
    assert Always(CloseApplication(REJECTED)) in Reject(m).effects;
  }

  lemma ApproveGrantIsShaped(m: Messages)
    ensures Shaped(ApproveGrant(m))
  {
  }

  lemma CompleteIsShaped(m: Messages)
    ensures Shaped(CompleteWithoutLoan(m))
  {
    assert Always(CompletePipeline(COMPLETED)) in CompleteWithoutLoan(m).effects;
  }

  lemma OtherRecords(a: Action, input: Key, target: Key, atMost: Option<Key>)
    requires target != APPROVED_GRANT
    ensures EffectShaped(a, SetRecordedValue(input, target, atMost, false))
  {
  }

  lemma RecordedApart()
    ensures APPROVED_GRANT !in {FULFILLED_LOAN, LOAN_REFERENCE, LOAN_SANCTIONED_ON}
  {
    assert FULFILLED_LOAN[0] != APPROVED_GRANT[0] && |LOAN_REFERENCE| != |APPROVED_GRANT| && |LOAN_SANCTIONED_ON| != |APPROVED_GRANT|;
  }

  lemma FulfilIsShaped(m: Messages)
    ensures Shaped(FulfilLoan(m))
  {
    var a := FulfilLoan(m);
    RecordedApart();
    OtherRecords(a, "AMOUNT", FULFILLED_LOAN, Some(LOAN_AMOUNT));
    OtherRecords(a, "REFERENCE", LOAN_REFERENCE, None);
    OtherRecords(a, "SANCTION_DATE", LOAN_SANCTIONED_ON, None);
    assert Always(CompletePipeline(COMPLETED)) in a.effects && LeaveReview() in a.effects;
    assert CanEnd(a);
    forall e | e in a.effects ensures e.when == [] && EffectShaped(a, e.kind) {
      if e.kind.SetRecordedValue? { assert EffectShaped(a, e.kind); }
    }
  }

  lemma SendBackIsShaped()
    ensures Shaped(SendBack())
  {
  }

  lemma SendToBankIsShaped()
    ensures Shaped(SendToBank())
  {
  }

  lemma FirstReviewIsShaped(m: Messages, a: Action)
    requires a in FirstReview(m).actions
    ensures Shaped(a)
  {
    if a == Reject(m) { RejectIsShaped(m); }
  }

  lemma DepartmentIsShaped(m: Messages, a: Action)
    requires a in Department(m).actions
    ensures Shaped(a)
  {
    SendBackIsShaped();
    ApproveGrantIsShaped(m);
    SendToBankIsShaped();
    CompleteIsShaped(m);
  }

  lemma EachActionIsShaped(m: Messages, s: Stage, a: Action)
    requires s in Stages(m) && a in s.actions
    ensures Shaped(a)
  {
    if s == FirstReview(m) {
      FirstReviewIsShaped(m, a);
    } else if s == Department(m) {
      DepartmentIsShaped(m, a);
    } else {
      SendBackIsShaped();
      FulfilIsShaped(m);
    }
  }

  // ---- The environment and its flags ----

  lemma FlagsApart()
    ensures BANKING_STAGE !in {IN_REVIEW, REVISION_REQUIRED, GRANT_APPROVED, LOAN_APPROVED, COMPLETED, REJECTED}
    ensures IN_REVIEW !in {REVISION_REQUIRED, GRANT_APPROVED, LOAN_APPROVED, COMPLETED, REJECTED}
    ensures GRANT_APPROVED !in {REVISION_REQUIRED, LOAN_APPROVED, COMPLETED, REJECTED}
    ensures REVISION_REQUIRED !in {LOAN_APPROVED, COMPLETED, REJECTED} && LOAN_APPROVED !in {COMPLETED, REJECTED}
  {
    assert LOAN_APPROVED[0] != BANKING_STAGE[0] && COMPLETED[0] != IN_REVIEW[0];
    assert |IN_REVIEW| == 9 && |REVISION_REQUIRED| == 17 && |GRANT_APPROVED| == 14 && |BANKING_STAGE| == 13;
    assert |LOAN_APPROVED| == 13 && |COMPLETED| == 9 && |REJECTED| == 8;
  }

  lemma StagesApart()
    ensures TTC !in {INDUSTRIES, SBI_BANK, TGB_BANK} && INDUSTRIES !in {SBI_BANK, TGB_BANK} && SBI_BANK != TGB_BANK
  {
    assert SBI_BANK[0] != TGB_BANK[0];
  }

  function SepEnv(host: Host, m: Messages, ceilingPaise: Option<int>): Env { Env(host, MissionSep(m), ceilingPaise) }

  lemma SepSays(m: Messages, k: Key)
    ensures Terminal(MissionSep(m), k) <==> k == COMPLETED || k == REJECTED
    ensures Editable(MissionSep(m), k) <==> k == REVISION_REQUIRED
  {
    var d := MissionSep(m);
    FlagsApart();
    assert d.statusFlags[1].key == REVISION_REQUIRED && d.statusFlags[1].editable;
    assert d.statusFlags[5].key == COMPLETED && d.statusFlags[5].terminal;
    assert d.statusFlags[6].key == REJECTED && d.statusFlags[6].terminal;
  }

  predicate AtABank(stageKey: Option<Key>) { stageKey == Some(SBI_BANK) || stageKey == Some(TGB_BANK) }

  lemma SepPresence(m: Messages, stageKey: Option<Key>)
    ensures PresenceAt(MissionSep(m), stageKey) == if AtABank(stageKey) then {BANKING_STAGE} else {}
  {
    StageKeysDiffer(m);
    SepStages(m, FirstReview(m));
    SepStages(m, Department(m));
    SepStages(m, Bank(SBI_BANK, m));
    SepStages(m, Bank(TGB_BANK, m));
    if stageKey.Some? { FoundStage(Stages(m), stageKey.value); }
  }

  lemma AllSepPresence(m: Messages)
    ensures AllPresence(MissionSep(m)) == {BANKING_STAGE}
  {
    assert Bank(SBI_BANK, m) in Stages(m) && BANKING_STAGE in Bank(SBI_BANK, m).presenceFlags;
  }

  lemma NoEffectNamesPresence(m: Messages)
    ensures EffectsLeavePresence(MissionSep(m))
  {
    var d := MissionSep(m);
    AllSepPresence(m);
    FlagsApart();
    forall s, a, e | s in d.stages && a in s.actions && e in a.effects && (e.kind.AddStatus? || e.kind.RemoveStatus?)
      ensures e.kind.flag != BANKING_STAGE
    {
      EachActionIsShaped(m, s, a);
    }
  }

  lemma NoMoveSharesPresence(m: Messages)
    ensures MovesShareNoPresence(MissionSep(m))
  {
    var d := MissionSep(m);
    StagesApart();
    forall a, b | MoveEdge(d, a, b) ensures PresenceAt(d, Some(a)) !! PresenceAt(d, Some(b)) {
      SepMoves(m, a, b);
      SepPresence(m, Some(a));
    }
  }

  lemma SubmissionNeedsNoPresence(m: Messages)
    ensures SubmitsPresenceOfTheStart(MissionSep(m))
  {
    AllSepPresence(m);
    SepPresence(m, Some(TTC));
    StagesApart();
    FlagsApart();
  }

  // ---- What every run keeps ----

  /** Where a file at each stage has come through. */
  function TrailTo(stageKey: Key): seq<Key> {
    if stageKey == TTC then [] else if stageKey == INDUSTRIES then [TTC] else [TTC, INDUSTRIES]
  }

  ghost predicate OnCourse(f: File) {
    var s := f.state;
    && (s.stageKey.Some? ==> (s.stageKey == Some(TTC) || s.stageKey == Some(INDUSTRIES) || AtABank(s.stageKey)) && s.trail == TrailTo(s.stageKey.value))
    && (BANKING_STAGE in s.flags <==> AtABank(s.stageKey))
    && StatusOnCourse(s)
  }

  ghost predicate StatusOnCourse(s: FileState) {
    && (IN_REVIEW in s.flags <==> s.stageKey.Some?)
    && (LOAN_APPROVED in s.flags ==> COMPLETED in s.flags)
    && (APPROVED_GRANT in s.recorded ==> GRANT_APPROVED in s.flags)
  }

  ghost predicate GrantWithinCeiling(s: FileState, ceilingPaise: Option<int>) {
    APPROVED_GRANT in s.recorded && s.recorded[APPROVED_GRANT].Number? && ceilingPaise.Some? ==>
      s.recorded[APPROVED_GRANT].number <= ceilingPaise.value
  }

  /** Where every configured move leads from the start to one middle, or from there to an end, a route has one shape. */
  lemma {:induction false} OneShape(d: Definition, stack: seq<Key>, middle: Key, ends: set<Key>)
    requires d.initialStageKey != middle && d.initialStageKey !in ends && middle !in ends
    requires MovesOn(d, middle, ends)
    requires Travelled(d, stack) && stack != []
    ensures || stack == [d.initialStageKey] || stack == [d.initialStageKey, middle]
            || (|stack| == 3 && stack[..2] == [d.initialStageKey, middle] && stack[2] in ends)
  {
    if |stack| > 1 {
      var front := stack[..|stack| - 1];
      OneShape(d, front, middle, ends);
      assert MoveEdge(d, stack[|stack| - 2], stack[|stack| - 1]);
      assert stack == front + [stack[|stack| - 1]];
    }
  }

  ghost predicate MovesOn(d: Definition, middle: Key, ends: set<Key>) {
    forall a, b {:trigger MoveEdge(d, a, b)} :: MoveEdge(d, a, b) ==> (a == d.initialStageKey && b == middle) || (a == middle && b in ends)
  }

  lemma SepMovesOn(m: Messages)
    ensures MovesOn(MissionSep(m), INDUSTRIES, {SBI_BANK, TGB_BANK})
  {
    forall a, b | MoveEdge(MissionSep(m), a, b)
      ensures (a == TTC && b == INDUSTRIES) || (a == INDUSTRIES && b in {SBI_BANK, TGB_BANK})
    {
      SepMoves(m, a, b);
    }
  }

  lemma TrailShape(d: Definition, s: FileState, middle: Key, ends: set<Key>)
    requires d.initialStageKey != middle && d.initialStageKey !in ends && middle !in ends && MovesOn(d, middle, ends)
    requires Travelled(d, Stack(s)) && s.stageKey.Some?
    ensures || (s.stageKey.value == d.initialStageKey && s.trail == [])
            || (s.stageKey.value == middle && s.trail == [d.initialStageKey])
            || (s.stageKey.value in ends && s.trail == [d.initialStageKey, middle])
  {
    OneShape(d, Stack(s), middle, ends);
    assert s.trail == Stack(s)[..|Stack(s)| - 1] && Stack(s)[|Stack(s)| - 1] == s.stageKey.value;
  }

  // What the runs need to know of the document: where files go and what presence means, and what its statuses are.

  ghost predicate PlacedLikeSep(d: Definition) {
    && d.initialStageKey == TTC && MovesOn(d, INDUSTRIES, {SBI_BANK, TGB_BANK})
    && (forall at :: PresenceAt(d, at) == if AtABank(at) then {BANKING_STAGE} else {})
    && AllPresence(d) == {BANKING_STAGE}
    && EffectsLeavePresence(d) && MovesShareNoPresence(d) && SubmitsPresenceOfTheStart(d)
  }

  ghost predicate WorkedLikeSep(d: Definition) {
    && d.onSubmit == [IN_REVIEW] && FlagOf(d, GRANT_APPROVED).Some?
    && (forall s, a :: s in d.stages && a in s.actions ==> Shaped(a))
    && (forall k :: Terminal(d, k) <==> k == COMPLETED || k == REJECTED)
    && (forall k :: Editable(d, k) <==> k == REVISION_REQUIRED)
  }

  lemma MissionSepIsPlaced(m: Messages)
    ensures PlacedLikeSep(MissionSep(m))
  {
    var d := MissionSep(m);
    SepMovesOn(m);
    forall at ensures PresenceAt(d, at) == if AtABank(at) then {BANKING_STAGE} else {} { SepPresence(m, at); }
    AllSepPresence(m);
    NoEffectNamesPresence(m);
    NoMoveSharesPresence(m);
    SubmissionNeedsNoPresence(m);
  }

  lemma MissionSepIsWorked(m: Messages)
    ensures WorkedLikeSep(MissionSep(m))
  {
    var d := MissionSep(m);
    forall s, a | s in d.stages && a in s.actions ensures Shaped(a) { EachActionIsShaped(m, s, a); }
    forall k
      ensures Terminal(d, k) <==> k == COMPLETED || k == REJECTED
      ensures Editable(d, k) <==> k == REVISION_REQUIRED
    {
      SepSays(m, k);
    }
    SepFlags(m, StatusFlag(GRANT_APPROVED, true, false, false));
  }

  /** What a plan of this pipeline can do to the status flags it names. */
  lemma PlannedStatus(host: Host, c: Context, plan: Plan)
    requires PlanOf(host, c) == Success(plan) && Shaped(c.action)
    ensures plan.ended.Some? ==> IN_REVIEW !in plan.flags && (plan.ended == Some(COMPLETED) || plan.ended == Some(REJECTED))
    ensures forall k :: RemovesNow(host, c, k) ==> k == IN_REVIEW && plan.ended.Some?
    ensures AddsStatus(c.action, LOAN_APPROVED) ==> plan.ended == Some(COMPLETED)
    ensures plan.revisionFlag.Some? ==> plan.revisionFlag == Some(REVISION_REQUIRED)
    ensures forall k :: AddsStatus(c.action, k) ==> k == GRANT_APPROVED || k == LOAN_APPROVED
  {
    FlagsApart();
    DestinationComesFromAnEffect(host, c, plan);
    if plan.ended.Some? {
      var e :| e in c.action.effects && Ends(e.kind) && e.kind.flag == plan.ended.value;
      assert LeaveReview() in c.action.effects && Fires(host, c, LeaveReview());
      RemovalWins(host, c, plan, IN_REVIEW);
    }
    forall k | RemovesNow(host, c, k) ensures k == IN_REVIEW && plan.ended.Some? {
      var e :| e in c.action.effects && Ends(e.kind);
      EndingDecides(host, c, plan, e);
    }
    if AddsStatus(c.action, LOAN_APPROVED) {
      assert LOAN_APPROVED != GRANT_APPROVED;
      var e := Always(CompletePipeline(COMPLETED));
      assert e in c.action.effects;
      EndingDecides(host, c, plan, e);
    }
  }

  // ---- One action ----

  /** A status an action neither removes nor is left with on leaving a stage stays. */
  lemma StatusStays(env: Env, f: File, action: Action, inputs: Values, plan: Plan, k: Key)
    requires PlacedLikeSep(env.definition) && WorkedLikeSep(env.definition) && PlanFor(env, f, action, inputs) == Some(plan)
    requires k in f.state.flags && k != BANKING_STAGE && (k == IN_REVIEW ==> plan.ended.None?)
    ensures k in Written(f.state, plan).flags
  {
    var d := env.definition;
    var stage := StageOf(d, f.state.stageKey).value;
    var c := ContextOf(env, f, stage, action, inputs);
    FoundStage(d.stages, f.state.stageKey.value);
    WrittenFlagsAreThePlans(env.host, c, plan);
    PlannedStatus(env.host, c, plan);
    assert k !in PresenceAt(d, f.state.stageKey) && k !in stage.presenceFlags;
    if k !in plan.flags { LostFlagsGoTo(env.host, c, plan, k); }
  }

  /** A status newly held was added by name, ended the journey or asked for a revision. */
  lemma StatusGained(env: Env, f: File, action: Action, inputs: Values, plan: Plan, k: Key)
    requires PlacedLikeSep(env.definition) && WorkedLikeSep(env.definition) && PlanFor(env, f, action, inputs) == Some(plan)
    requires k !in f.state.flags && k in Written(f.state, plan).flags && k != BANKING_STAGE
    ensures AddsStatus(action, k) || plan.ended == Some(k) || plan.revisionFlag == Some(k)
  {
    var d := env.definition;
    var stage := StageOf(d, f.state.stageKey).value;
    var c := ContextOf(env, f, stage, action, inputs);
    WrittenFlagsAreThePlans(env.host, c, plan);
    HeldFlagsComeFrom(env.host, c, plan, k);
    assert PresenceAt(d, plan.toStageKey) <= {BANKING_STAGE};
  }

  lemma ReviewAfterTake(env: Env, f: File, action: Action, inputs: Values, plan: Plan)
    requires PlacedLikeSep(env.definition) && WorkedLikeSep(env.definition) && PlanFor(env, f, action, inputs) == Some(plan)
    requires IN_REVIEW in f.state.flags
    ensures IN_REVIEW in Written(f.state, plan).flags <==> plan.toStageKey.Some?
  {
    var stage := StageOf(env.definition, f.state.stageKey).value;
    var c := ContextOf(env, f, stage, action, inputs);
    FoundStage(env.definition.stages, f.state.stageKey.value);
    FlagsApart();
    WrittenFlagsAreThePlans(env.host, c, plan);
    PlannedStatus(env.host, c, plan);
    DestinationComesFromAnEffect(env.host, c, plan);
    if plan.ended.None? { StatusStays(env, f, action, inputs, plan, IN_REVIEW); }
  }

  lemma LoanAfterTake(env: Env, f: File, action: Action, inputs: Values, plan: Plan)
    requires PlacedLikeSep(env.definition) && WorkedLikeSep(env.definition) && PlanFor(env, f, action, inputs) == Some(plan)
    requires LOAN_APPROVED in f.state.flags ==> COMPLETED in f.state.flags
    ensures LOAN_APPROVED in Written(f.state, plan).flags ==> COMPLETED in Written(f.state, plan).flags
  {
    var stage := StageOf(env.definition, f.state.stageKey).value;
    var c := ContextOf(env, f, stage, action, inputs);
    FoundStage(env.definition.stages, f.state.stageKey.value);
    FlagsApart();
    WrittenFlagsAreThePlans(env.host, c, plan);
    PlannedStatus(env.host, c, plan);
    if LOAN_APPROVED in f.state.flags {
      StatusStays(env, f, action, inputs, plan, COMPLETED);
    } else if LOAN_APPROVED in plan.flags {
      StatusGained(env, f, action, inputs, plan, LOAN_APPROVED);
      if COMPLETED !in plan.flags { LostFlagsGoTo(env.host, c, plan, COMPLETED); }
      assert PresenceAt(env.definition, f.state.stageKey) <= {BANKING_STAGE};
    }
  }

  lemma GrantAfterTake(env: Env, f: File, action: Action, inputs: Values, plan: Plan)
    requires PlacedLikeSep(env.definition) && WorkedLikeSep(env.definition) && PlanFor(env, f, action, inputs) == Some(plan)
    requires APPROVED_GRANT in f.state.recorded ==> GRANT_APPROVED in f.state.flags
    ensures APPROVED_GRANT in Written(f.state, plan).recorded ==> GRANT_APPROVED in Written(f.state, plan).flags
    // Recorded once: what an action records, no file had recorded already.
    ensures APPROVED_GRANT in plan.recorded ==> GRANT_APPROVED !in f.state.flags && APPROVED_GRANT !in f.state.recorded
  {
    var stage := StageOf(env.definition, f.state.stageKey).value;
    var c := ContextOf(env, f, stage, action, inputs);
    FoundStage(env.definition.stages, f.state.stageKey.value);
    FlagsApart();
    WrittenFlagsAreThePlans(env.host, c, plan);
    PlannedStatus(env.host, c, plan);
    if APPROVED_GRANT in plan.recorded {
      RecordedComesFromAnEffect(env.host, c, plan, APPROVED_GRANT);
      var add := Always(AddStatus(GRANT_APPROVED));
      assert add in action.effects && NoGrantYet() in action.availableWhen;
      OfferedOnlyWithoutTheGrant(env, f, action);
      AdditionHolds(env.host, c, plan, add);
      assert PresenceAt(env.definition, f.state.stageKey) <= {BANKING_STAGE};
    } else if APPROVED_GRANT in f.state.recorded {
      StatusStays(env, f, action, inputs, plan, GRANT_APPROVED);
    }
  }

  /** Conditions of one group all hold when together they hold. */
  lemma OneGroupHolds(host: Host, d: Definition, state: FileState, inputs: Values, action: Action, conditions: seq<Condition>, c: Condition)
    requires ConditionsHold(host, d, state, inputs, action, conditions) && c in conditions
    requires forall x :: x in conditions ==> x.group == c.group
    ensures Holds(host, d, state, inputs, action, c)
  {
    var i :| 0 <= i < |conditions| &&
      forall j :: 0 <= j < |conditions| && conditions[j].group == conditions[i].group ==>
        Holds(host, d, state, inputs, action, conditions[j]);
    var j :| 0 <= j < |conditions| && conditions[j] == c;
  }

  lemma OfferedOnlyWithoutTheGrant(env: Env, f: File, action: Action)
    requires WorkedLikeSep(env.definition) && Shaped(action) && NoGrantYet() in action.availableWhen
    requires ActionIsAvailable(env.host, env.definition, action, f.state)
    ensures GRANT_APPROVED !in f.state.flags
  {
    OneGroupHolds(env.host, env.definition, f.state, map[], action, action.availableWhen, NoGrantYet());
  }

  lemma CeilingAfterTake(env: Env, f: File, action: Action, inputs: Values, plan: Plan)
    requires WorkedLikeSep(env.definition) && PlanFor(env, f, action, inputs) == Some(plan)
    requires GrantWithinCeiling(f.state, env.ceilingPaise)
    ensures GrantWithinCeiling(Written(f.state, plan), env.ceilingPaise)
  {
    var stage := StageOf(env.definition, f.state.stageKey).value;
    var c := ContextOf(env, f, stage, action, inputs);
    FoundStage(env.definition.stages, f.state.stageKey.value);
    if APPROVED_GRANT in plan.recorded && plan.recorded[APPROVED_GRANT].Number? {
      var e := RecordedAmountsAreBounded(env.host, c, plan, APPROVED_GRANT);
      assert Shaped(action);
    }
  }

  // ---- Every run ----

  lemma {:induction false} StatusOnEveryRun(env: Env, answers: Values, steps: seq<Step>)
    requires SoundEnv(env) && PlacedLikeSep(env.definition) && WorkedLikeSep(env.definition) && Run(env, answers, steps).Some?
    ensures StatusOnCourse(Run(env, answers, steps).value.state)
    ensures GrantWithinCeiling(Run(env, answers, steps).value.state, env.ceilingPaise)
  {
    FlagsApart();
    if steps != [] {
      var front, s := steps[..|steps| - 1], steps[|steps| - 1];
      StatusOnEveryRun(env, answers, front);
      var f := Run(env, answers, front).value;
      if s.Take? {
        var plan := PlanFor(env, f, s.action, s.inputs).value;
        ReviewAfterTake(env, f, s.action, s.inputs, plan);
        LoanAfterTake(env, f, s.action, s.inputs, plan);
        GrantAfterTake(env, f, s.action, s.inputs, plan);
        CeilingAfterTake(env, f, s.action, s.inputs, plan);
      } else {
        StatusApartFromRevision(env.definition, f.state.flags);
      }
    }
  }

  lemma StatusApartFromRevision(d: Definition, flags: set<Key>)
    requires WorkedLikeSep(d)
    ensures EditableFlags(d) <= {REVISION_REQUIRED}
  {
    AwaitsIsEditable(d, flags);
  }

  /**
   * Every file of Mission SEP, however it is worked: its trail is the one way to its stage, it holds
   * BANKING_STAGE exactly at a bank and IN_REVIEW exactly while at a stage, a loan approved means it is
   * completed, a grant recorded means the grant is approved, and no grant recorded is over the cycle's ceiling.
   */
  lemma EveryMissionSepFileIsOnCourse(host: Host, m: Messages, ceilingPaise: Option<int>, answers: Values, steps: seq<Step>)
    ensures var run := Run(SepEnv(host, m, ceilingPaise), answers, steps);
      run.Some? ==> OnCourse(run.value) && GrantWithinCeiling(run.value.state, ceilingPaise)
  {
    MissionSepIsSound(m);
    MissionSepIsPlaced(m);
    MissionSepIsWorked(m);
    if Run(SepEnv(host, m, ceilingPaise), answers, steps).Some? {
      OnCourseWhereLikeSep(SepEnv(host, m, ceilingPaise), answers, steps);
    }
  }

  lemma OnCourseWhereLikeSep(env: Env, answers: Values, steps: seq<Step>)
    requires SoundEnv(env) && PlacedLikeSep(env.definition) && WorkedLikeSep(env.definition) && Run(env, answers, steps).Some?
    ensures OnCourse(Run(env, answers, steps).value)
    ensures GrantWithinCeiling(Run(env, answers, steps).value.state, env.ceilingPaise)
  {
    var s := Run(env, answers, steps).value.state;
    StatusOnEveryRun(env, answers, steps);
    EveryRunIsSafe(env, answers, steps);
    RunKeepsPresence(env, answers, steps);
    assert BANKING_STAGE in AllPresence(env.definition);
    if s.stageKey.Some? {
      StagesApart();
      TrailShape(env.definition, s, INDUSTRIES, {SBI_BANK, TGB_BANK});
    }
  }

  /** Once a grant is recorded no action, resubmission or withdrawn request changes it. */
  lemma GrantIsRecordedOnce(host: Host, m: Messages, ceilingPaise: Option<int>, answers: Values, steps: seq<Step>, s: Step)
    requires Run(SepEnv(host, m, ceilingPaise), answers, steps).Some?
    requires var f := Run(SepEnv(host, m, ceilingPaise), answers, steps).value;
      APPROVED_GRANT in f.state.recorded && Stepped(SepEnv(host, m, ceilingPaise), f, s).Some?
    ensures var f := Run(SepEnv(host, m, ceilingPaise), answers, steps).value;
      var after := Stepped(SepEnv(host, m, ceilingPaise), f, s).value;
      APPROVED_GRANT in after.state.recorded && after.state.recorded[APPROVED_GRANT] == f.state.recorded[APPROVED_GRANT]
  {
    MissionSepIsSound(m);
    MissionSepIsPlaced(m);
    MissionSepIsWorked(m);
    GrantStays(SepEnv(host, m, ceilingPaise), answers, steps, s);
  }

  lemma GrantStays(env: Env, answers: Values, steps: seq<Step>, s: Step)
    requires SoundEnv(env) && PlacedLikeSep(env.definition) && WorkedLikeSep(env.definition) && Run(env, answers, steps).Some?
    requires var f := Run(env, answers, steps).value;
      APPROVED_GRANT in f.state.recorded && Stepped(env, f, s).Some?
    ensures var f := Run(env, answers, steps).value;
      var after := Stepped(env, f, s).value;
      APPROVED_GRANT in after.state.recorded && after.state.recorded[APPROVED_GRANT] == f.state.recorded[APPROVED_GRANT]
  {
    var f := Run(env, answers, steps).value;
    StatusOnEveryRun(env, answers, steps);
    if s.Take? {
      GrantAfterTake(env, f, s.action, s.inputs, PlanFor(env, f, s.action, s.inputs).value);
    }
  }

  /** No file of Mission SEP is ever refused a return, nor any action for contradicting itself. */
  lemma MissionSepNeverRefusesAReturn(
    host: Host, m: Messages, ceilingPaise: Option<int>, answers: Values, steps: seq<Step>, stage: Stage, action: Action, inputs: Values)
    requires Run(SepEnv(host, m, ceilingPaise), answers, steps).Some?
    requires var f := Run(SepEnv(host, m, ceilingPaise), answers, steps).value;
      StageOf(MissionSep(m), f.state.stageKey) == Some(stage) && action in stage.actions
    ensures var f := Run(SepEnv(host, m, ceilingPaise), answers, steps).value;
      var outcome := PlanOf(host, ContextOf(SepEnv(host, m, ceilingPaise), f, stage, action, inputs));
      outcome != Failure(NoEarlierStage) && outcome != Failure(Incompatible)
  {
    var env := SepEnv(host, m, ceilingPaise);
    var f := Run(env, answers, steps).value;
    MissionSepIsSound(m);
    FoundStage(env.definition.stages, f.state.stageKey.value);
    NoReturnIsEverRefused(env, answers, steps, stage, action, inputs);
    NeverIncompatible(env, f, stage, action, inputs);
  }
}
