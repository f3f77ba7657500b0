/**
 * What a Mission SEP file holds recorded (src/services/pipeline/example.ts), when its actions are taken only
 * with inputs their forms accept (src/services/pipeline/controllers/stage.ts, src/services/pipeline/inputs.ts).
 */
module MissionSepRecords {
  import opened Common
  import opened PipelineDefinitions
  import opened PipelineEngine
  import opened ActionInputs
  import opened ActionInputValues
  import opened PipelineRuns
  import opened PipelineRecords
  import opened MissionSepPipeline
  import opened MissionSepRuns
  import CalendarMonths

  function GrantRecord(): Effect { Always(SetRecordedValue("AMOUNT", APPROVED_GRANT, Some(SEED_FUND), true)) }

  // ---- What the document says of its records ----

  ghost predicate RecordsLikeSep(d: Definition) {
    forall s, a :: s in d.stages && a in s.actions ==> RecordingAction(a)
  }

  ghost predicate RecordingAction(a: Action) {
    && (Always(AddStatus(GRANT_APPROVED)) in a.effects ==> GrantRecord() in a.effects)
    && (GrantRecord() in a.effects ==> Amount(SEED_FUND) in a.inputs && Always(AddStatus(GRANT_APPROVED)) in a.effects)
    && forall e :: e in a.effects ==> RecordingEffect(a, e)
  }

  ghost predicate RecordingEffect(a: Action, e: Effect) {
    && e.when == [] && (e.kind.SetRecordedValue? && e.kind.target == APPROVED_GRANT ==> e == GrantRecord())
    && (e.kind.SetRecordedValue? && e.kind.target == LOAN_SANCTIONED_ON ==> e.kind.input == "SANCTION_DATE" && SanctionDate() in a.inputs)
  }

  lemma RecordsNothing(a: Action)
    requires forall e :: e in a.effects ==> e.when == [] && !e.kind.SetRecordedValue? && !e.kind.AddStatus?
    ensures RecordingAction(a)
  {
  }

  lemma GrantRecords(m: Messages)
    ensures RecordingAction(ApproveGrant(m))
  {
    var a := ApproveGrant(m);
    RecordedApart();
    assert a.effects[0] == Always(AddStatus(GRANT_APPROVED)) && a.effects[1] == GrantRecord() && a.inputs[0] == Amount(SEED_FUND);
    assert LOAN_SANCTIONED_ON != APPROVED_GRANT;
  }

  lemma LoanRecords(m: Messages)
    ensures RecordingAction(FulfilLoan(m))
  {
    var a := FulfilLoan(m);
    RecordedApart();
    FlagsApart();
    RecordedKeysDiffer();
    assert |LOAN_REFERENCE| != |LOAN_SANCTIONED_ON| && |FULFILLED_LOAN| != |LOAN_SANCTIONED_ON|;
    assert a.inputs[2] == SanctionDate();
    forall e | e in a.effects ensures RecordingEffect(a, e) && e != Always(AddStatus(GRANT_APPROVED)) && e != GrantRecord() {
    }
  }

  lemma MissionSepRecordsSo(m: Messages)
    ensures RecordsLikeSep(MissionSep(m))
  {
    forall s, a | s in Stages(m) && a in s.actions ensures RecordingAction(a) {
      if a == ApproveGrant(m) {
        GrantRecords(m);
      } else if a == FulfilLoan(m) {
        LoanRecords(m);
      } else {
        OthersRecordNothing(m, s, a);
      }
    }
  }

  lemma OthersRecordNothing(m: Messages, s: Stage, a: Action)
    requires s in Stages(m) && a in s.actions && a != ApproveGrant(m) && a != FulfilLoan(m)
    ensures RecordingAction(a)
  {
    if s == FirstReview(m) {
      FirstReviewRecordsNothing(m, a);
    } else if s == Department(m) {
      DepartmentRecordsNothing(m, a);
    } else {
      assert a == SendBack();
      RecordsNothing(a);
    }
  }

  lemma FirstReviewRecordsNothing(m: Messages, a: Action)
    requires a in FirstReview(m).actions
    ensures RecordingAction(a)
  {
    RecordsNothing(a);
  }

  lemma DepartmentRecordsNothing(m: Messages, a: Action)
    requires a in Department(m).actions && a != ApproveGrant(m)
    ensures RecordingAction(a)
  {
    RecordsNothing(a);
  }

  // ---- Grants ----

  /** An action that approves the grant records the amount it was given: at least one paisa, and within its bounds. */
  lemma ApprovalRecordsItsAmount(env: Env, f: File, action: Action, inputs: Values, plan: Plan)
    requires PlanFor(env, f, action, inputs) == Some(plan) && Accepted(env.host, action, inputs)
    requires RecordingAction(action) && GrantRecord() in action.effects
    ensures "AMOUNT" in inputs && inputs["AMOUNT"].Number? && inputs["AMOUNT"].number >= 1
    ensures APPROVED_GRANT in plan.recorded && plan.recorded[APPROVED_GRANT] == inputs["AMOUNT"]
    ensures SEED_FUND in f.state.answers && f.state.answers[SEED_FUND].Number? && inputs["AMOUNT"].number <= f.state.answers[SEED_FUND].number
    ensures env.ceilingPaise.Some? ==> inputs["AMOUNT"].number <= env.ceilingPaise.value
  {
    var c := ContextOf(env, f, StageOf(env.definition, f.state.stageKey).value, action, inputs);
    AcceptedValue(env.host, action, inputs, Amount(SEED_FUND));
    var n :| 0 <= n < |action.effects| && action.effects[n] == GrantRecord();
    assert RecordsAt(env.host, c, action.effects, APPROVED_GRANT, n);
    var last := LastOf(env.host, c, action.effects, APPROVED_GRANT);
    assert RecordingEffect(action, action.effects[last]);
    RecordedIsTheLast(env.host, c, plan, APPROVED_GRANT);
    RecordingWasNotRefused(env.host, c, plan, GrantRecord());
    assert SEED_FUND != "";
  }

  /** After APPROVE_GRANT on any run, the file holds the amount the officer approved, and GRANT_APPROVED. */
  lemma ApprovedGrantIsRecorded(host: Host, m: Messages, ceilingPaise: Option<int>, answers: Values, steps: seq<Step>, s: Step)
    requires s.Take? && s.action == ApproveGrant(m) && Accepted(host, s.action, s.inputs)
    requires Run(SepEnv(host, m, ceilingPaise), answers, steps + [s]).Some?
    ensures var state := Run(SepEnv(host, m, ceilingPaise), answers, steps + [s]).value.state;
      && "AMOUNT" in s.inputs && s.inputs["AMOUNT"].Number? && s.inputs["AMOUNT"].number >= 1
      && APPROVED_GRANT in state.recorded && state.recorded[APPROVED_GRANT] == s.inputs["AMOUNT"]
      && GRANT_APPROVED in state.flags
  {
    var env := SepEnv(host, m, ceilingPaise);
    MissionSepIsSound(m);
    MissionSepIsPlaced(m);
    MissionSepIsWorked(m);
    GrantRecords(m);
    GrantAmountIsEffect(m);
    GrantAfterStep(env, answers, steps, s);
  }

  lemma GrantAmountIsEffect(m: Messages)
    ensures GrantRecord() in ApproveGrant(m).effects
  {
    assert ApproveGrant(m).effects[1] == GrantRecord();
  }

  lemma GrantAfterStep(env: Env, answers: Values, steps: seq<Step>, s: Step)
    requires SoundEnv(env) && PlacedLikeSep(env.definition) && WorkedLikeSep(env.definition)
    requires s.Take? && RecordingAction(s.action) && GrantRecord() in s.action.effects && Accepted(env.host, s.action, s.inputs)
    requires Run(env, answers, steps + [s]).Some?
    ensures var state := Run(env, answers, steps + [s]).value.state;
      && "AMOUNT" in s.inputs && s.inputs["AMOUNT"].Number? && s.inputs["AMOUNT"].number >= 1
      && APPROVED_GRANT in state.recorded && state.recorded[APPROVED_GRANT] == s.inputs["AMOUNT"]
      && GRANT_APPROVED in state.flags
  {
    assert (steps + [s])[..|steps|] == steps;
    var f := Run(env, answers, steps).value;
    var plan := PlanFor(env, f, s.action, s.inputs).value;
    ApprovalRecordsItsAmount(env, f, s.action, s.inputs, plan);
    StatusOnEveryRun(env, answers, steps);
    GrantAfterTake(env, f, s.action, s.inputs, plan);
  }

  /** On every run of accepted inputs a grant is approved exactly when an amount for it is recorded. */
  lemma GrantsApprovedAreRecorded(host: Host, m: Messages, ceilingPaise: Option<int>, answers: Values, steps: seq<Step>)
    requires AcceptedSteps(host, steps)
    ensures var run := Run(SepEnv(host, m, ceilingPaise), answers, steps);
      run.Some? ==> (GRANT_APPROVED in run.value.state.flags <==> APPROVED_GRANT in run.value.state.recorded)
  {
    MissionSepIsSound(m);
    MissionSepIsPlaced(m);
    MissionSepIsWorked(m);
    MissionSepRecordsSo(m);
    if Run(SepEnv(host, m, ceilingPaise), answers, steps).Some? {
      ApprovedIffRecorded(SepEnv(host, m, ceilingPaise), answers, steps);
    }
  }

  lemma {:induction false} ApprovedIffRecorded(env: Env, answers: Values, steps: seq<Step>)
    requires SoundEnv(env) && PlacedLikeSep(env.definition) && WorkedLikeSep(env.definition) && RecordsLikeSep(env.definition)
    requires AcceptedSteps(env.host, steps) && Run(env, answers, steps).Some?
    ensures var state := Run(env, answers, steps).value.state; GRANT_APPROVED in state.flags <==> APPROVED_GRANT in state.recorded
  {
    StatusOnEveryRun(env, answers, steps);
    FlagsApart();
    if steps != [] {
      var front, s := steps[..|steps| - 1], steps[|steps| - 1];
      ApprovedIffRecorded(env, answers, front);
      var f := Run(env, answers, front).value;
      if s.Take? {
        NewlyApprovedIsRecorded(env, f, s);
      }
    }
  }

  lemma NewlyApprovedIsRecorded(env: Env, f: File, s: Step)
    requires PlacedLikeSep(env.definition) && WorkedLikeSep(env.definition) && RecordsLikeSep(env.definition)
    requires s.Take? && Stepped(env, f, s).Some? && Accepted(env.host, s.action, s.inputs)
    requires GRANT_APPROVED in f.state.flags ==> APPROVED_GRANT in f.state.recorded
    ensures var after := Stepped(env, f, s).value.state; GRANT_APPROVED in after.flags ==> APPROVED_GRANT in after.recorded
  {
    var plan := PlanFor(env, f, s.action, s.inputs).value;
    var stage := StageOf(env.definition, f.state.stageKey).value;
    FoundStage(env.definition.stages, f.state.stageKey.value);
    assert RecordingAction(s.action);
    if GRANT_APPROVED !in f.state.flags && GRANT_APPROVED in Written(f.state, plan).flags {
      FlagsApart();
      StatusGained(env, f, s.action, s.inputs, plan, GRANT_APPROVED);
      PlannedStatus(env.host, ContextOf(env, f, stage, s.action, s.inputs), plan);
      var e :| e in s.action.effects && e.kind == AddStatus(GRANT_APPROVED);
      assert RecordingEffect(s.action, e) && e == Always(AddStatus(GRANT_APPROVED));
      ApprovalRecordsItsAmount(env, f, s.action, s.inputs, plan);
    }
  }

  // ---- Sanction dates ----

  /** Each action's inputs were accepted at its own moment. */
  ghost predicate EnteredAt(host: Host, steps: seq<Step>, moments: seq<int>) {
    && |moments| == |steps|
    && forall i :: 0 <= i < |steps| && steps[i].Take? ==> AcceptedAt(host, steps[i].action, steps[i].inputs, moments[i])
  }

  ghost predicate AcceptedAt(host: Host, action: Action, values: Values, now: int) {
    exists submitted :: Validated(host, action, submitted, now, values)
  }

  /** No loan is recorded as sanctioned later than the moment an officer entered it. */
  lemma SanctionedByThen(host: Host, m: Messages, ceilingPaise: Option<int>, answers: Values, steps: seq<Step>, moments: seq<int>)
    returns (i: nat, d: CalendarMonths.Date)
    requires EnteredAt(host, steps, moments) && Run(SepEnv(host, m, ceilingPaise), answers, steps).Some?
    requires LOAN_SANCTIONED_ON in Run(SepEnv(host, m, ceilingPaise), answers, steps).value.state.recorded
    ensures i < |steps| && steps[i].Take? && "SANCTION_DATE" in steps[i].inputs
    ensures var on := Run(SepEnv(host, m, ceilingPaise), answers, steps).value.state.recorded[LOAN_SANCTIONED_ON];
      on == steps[i].inputs["SANCTION_DATE"] && on.Text? && Writes(on.text, d) && d.GetTime() <= moments[i]
  {
    MissionSepRecordsSo(m);
    i, d := SanctionedWhereLikeSep(SepEnv(host, m, ceilingPaise), answers, steps, moments);
  }

  lemma SanctionedWhereLikeSep(env: Env, answers: Values, steps: seq<Step>, moments: seq<int>) returns (i: nat, d: CalendarMonths.Date)
    requires RecordsLikeSep(env.definition) && EnteredAt(env.host, steps, moments) && Run(env, answers, steps).Some?
    requires LOAN_SANCTIONED_ON in Run(env, answers, steps).value.state.recorded
    ensures i < |steps| && steps[i].Take? && "SANCTION_DATE" in steps[i].inputs
    ensures var on := Run(env, answers, steps).value.state.recorded[LOAN_SANCTIONED_ON];
      on == steps[i].inputs["SANCTION_DATE"] && on.Text? && Writes(on.text, d) && d.GetTime() <= moments[i]
  {
    var e;
    i, e := RecordedWasGiven(env, answers, steps, LOAN_SANCTIONED_ON);
    var f := Run(env, answers, steps[..i]).value;
    FoundStage(env.definition.stages, f.state.stageKey.value);
    assert RecordingAction(steps[i].action) && RecordingEffect(steps[i].action, e);
    assert AcceptedAt(env.host, steps[i].action, steps[i].inputs, moments[i]);
    var submitted :| Validated(env.host, steps[i].action, submitted, moments[i], steps[i].inputs);
    d := DateIsNotAhead(env.host, steps[i].action, submitted, moments[i], steps[i].inputs, SanctionDate());
  }
}
