/**
 * When a Mission SEP loan can be approved (src/services/pipeline/example.ts), given that an action is taken
 * only with inputs its form accepts (src/services/pipeline/controllers/stage.ts, src/services/pipeline/inputs.ts).
 */
module MissionSepLoans {
  import opened Common
  import opened PipelineDefinitions
  import opened PipelineEffects
  import opened PipelineEngine
  import opened ActionInputs
  import opened PipelineRuns
  import opened MissionSepPipeline
  import opened MissionSepRuns
  import CalendarMonths

  /** What a condition comparing with "true" takes for a yes. */
  predicate SaysYes(v: Option<Value>) {
    v == Some(Truth(true)) || v == Some(Text("true")) || (v.Some? && v.value.Choices? && "true" in v.value.choices)
  }

  /** The applicant asked for a loan, of at least one paisa. */
  predicate LoanOnOffer(answers: Values) {
    && SaysYes(Lookup(answers, WANTS_BANK_LOAN))
    && LOAN_AMOUNT in answers && answers[LOAN_AMOUNT].Number? && answers[LOAN_AMOUNT].number >= 1
  }

  lemma {:induction false} DecimalStartsWithADigit(n: nat)
    ensures Decimal(n) != "" && '0' <= Decimal(n)[0] <= '9'
  {
    if n >= 10 {
      DecimalStartsWithADigit(n / 10);
    }
  }

  lemma NoNumberIsYes(n: int)
    ensures Shown(Number(n)) != "true"
  {
    if n < 0 {
      assert Shown(Number(n))[0] == '-';
    } else {
      DecimalStartsWithADigit(n);
    }
  }

  lemma YesIsTrue(host: Host, d: Definition, state: FileState, action: Action)
    ensures ConditionsHold(host, d, state, map[], action, [Answer(WANTS_BANK_LOAN, "true")]) <==> SaysYes(Lookup(state.answers, WANTS_BANK_LOAN))
  {
    var conditions := [Answer(WANTS_BANK_LOAN, "true")];
    var answer := Lookup(state.answers, WANTS_BANK_LOAN);
    if answer.Some? && answer.value.Number? { NoNumberIsYes(answer.value.number); }
    assert Holds(host, d, state, map[], action, conditions[0]) <==> SaysYes(answer);
  }

  // ---- What the document says of loans ----

  function LoanRecord(): Effect { Always(SetRecordedValue("AMOUNT", FULFILLED_LOAN, Some(LOAN_AMOUNT), false)) }

  ghost predicate LendsLikeSep(d: Definition) {
    forall s, a :: s in d.stages && a in s.actions ==> LendingAction(s, a)
  }

  ghost predicate LendingAction(s: Stage, a: Action) {
    && (forall e :: e in a.effects && e.kind.RequestRevision? ==> s.key == TTC)
    && (forall e :: e in a.effects && e.kind == AddStatus(LOAN_APPROVED) ==>
         AtABank(Some(s.key)) && Amount(LOAN_AMOUNT) in a.inputs && LoanRecord() in a.effects)
    && (MovesToward(a, SBI_BANK) || MovesToward(a, TGB_BANK) ==> a.availableWhen == [Answer(WANTS_BANK_LOAN, "true")])
  }

  lemma NoLending(s: Stage, a: Action)
    requires forall e :: e in a.effects ==> !e.kind.RequestRevision? && !e.kind.AddStatus? && !e.kind.MoveToStage? && !e.kind.MoveByChoice?
    ensures LendingAction(s, a)
  {
  }

  lemma ReviewLends(m: Messages, a: Action)
    requires a in FirstReview(m).actions
    ensures LendingAction(FirstReview(m), a)
  {
    StagesApart();
    if a == Reject(m) { NoLending(FirstReview(m), a); }
  }

  lemma GrantLends(m: Messages, s: Stage)
    ensures LendingAction(s, ApproveGrant(m))
  {
    FlagsApart();
  }

  lemma DepartmentLends(m: Messages, a: Action)
    requires a in Department(m).actions
    ensures LendingAction(Department(m), a)
  {
    if a == ApproveGrant(m) {
      GrantLends(m, Department(m));
    } else if a == SendBack() || a == CompleteWithoutLoan(m) {
      NoLending(Department(m), a);
    }
  }

  lemma BankLends(key: Key, m: Messages, a: Action)
    requires a in Bank(key, m).actions && AtABank(Some(key))
    ensures LendingAction(Bank(key, m), a)
  {
    if a == SendBack() {
      NoLending(Bank(key, m), a);
    } else {
      FulfilLends(Bank(key, m), m);
    }
  }

  lemma FulfilLends(s: Stage, m: Messages)
    requires AtABank(Some(s.key))
    ensures LendingAction(s, FulfilLoan(m))
  {
    var a := FulfilLoan(m);
    assert a.effects[1] == LoanRecord() && a.inputs[0] == Amount(LOAN_AMOUNT);
    forall e | e in a.effects ensures !e.kind.RequestRevision? && MoveTargets(e.kind) == {} {
    }
    LendsAtABank(s, a);
  }

  lemma LendsAtABank(s: Stage, a: Action)
    requires AtABank(Some(s.key)) && Amount(LOAN_AMOUNT) in a.inputs && LoanRecord() in a.effects
    requires forall e :: e in a.effects ==> !e.kind.RequestRevision? && MoveTargets(e.kind) == {}
    ensures LendingAction(s, a)
  {
  }

  lemma MissionSepLends(m: Messages)
    ensures LendsLikeSep(MissionSep(m))
  {
    forall s, a | s in Stages(m) && a in s.actions ensures LendingAction(s, a) {
      if s == FirstReview(m) {
        ReviewLends(m, a);
      } else if s == Department(m) {
        DepartmentLends(m, a);
      } else {
        BankLends(s.key, m, a);
      }
    }
  }

  // ---- What every accepted run keeps ----

  /** Corrections are open only at the first stage, only files that asked for a loan reach a bank, and a loan is approved only on offer. */
  ghost predicate LoanSafe(f: File) {
    && (f.openRevisions > 0 ==> f.state.stageKey == Some(TTC))
    && (AtABank(f.state.stageKey) ==> SaysYes(Lookup(f.state.answers, WANTS_BANK_LOAN)))
    && (LOAN_APPROVED in f.state.flags ==> LoanOnOffer(f.state.answers))
  }

  /** Everything known of the document and of a file reached by a run. */
  ghost predicate SepFile(env: Env, f: File) {
    && SoundEnv(env) && PlacedLikeSep(env.definition) && WorkedLikeSep(env.definition) && LendsLikeSep(env.definition)
    && Safe(env.definition, f) && OnCourse(f)
  }

  /** A loan recorded with accepted inputs is within an amount the applicant gave. */
  lemma RecordedWithinTheAsking(host: Host, c: Context)
    requires Accepted(host, c.action, c.inputs) && Amount(LOAN_AMOUNT) in c.action.inputs
    requires PlanEffect(host, LoanRecord().kind, c).Success?
    ensures LOAN_AMOUNT in c.state.answers && c.state.answers[LOAN_AMOUNT].Number? && c.state.answers[LOAN_AMOUNT].number >= 1
  {
    AcceptedValue(host, c.action, c.inputs, Amount(LOAN_AMOUNT));
    assert |LOAN_AMOUNT| > 0;
  }

  lemma LoanAfterAcceptedTake(env: Env, f: File, action: Action, inputs: Values, plan: Plan)
    requires SepFile(env, f) && LoanSafe(f) && PlanFor(env, f, action, inputs) == Some(plan) && Accepted(env.host, action, inputs)
    requires LOAN_APPROVED in Written(f.state, plan).flags
    ensures LoanOnOffer(f.state.answers)
  {
    if LOAN_APPROVED !in f.state.flags {
      var stage := StageOf(env.definition, f.state.stageKey).value;
      var c := ContextOf(env, f, stage, action, inputs);
      FoundStage(env.definition.stages, f.state.stageKey.value);
      FlagsApart();
      StatusGained(env, f, action, inputs, plan, LOAN_APPROVED);
      PlannedStatus(env.host, c, plan);
      assert LendingAction(stage, action);
      LoanIsRecorded(env.host, c, plan);
      RecordedWithinTheAsking(env.host, c);
    }
  }

  lemma LoanIsRecorded(host: Host, c: Context, plan: Plan)
    requires PlanOf(host, c) == Success(plan) && LoanRecord() in c.action.effects
    ensures PlanEffect(host, LoanRecord().kind, c).Success?
  {
    var fragments, destination := PlanParts(host, c, plan);
    FragmentOf(host, c, c.action.effects, fragments, LoanRecord());
  }

  /** Only a file that asked for a loan gets to a bank. */
  lemma BankAfterTake(env: Env, f: File, action: Action, inputs: Values, plan: Plan)
    requires SepFile(env, f) && LoanSafe(f) && PlanFor(env, f, action, inputs) == Some(plan) && AtABank(plan.toStageKey)
    ensures SaysYes(Lookup(f.state.answers, WANTS_BANK_LOAN))
  {
    var stage := StageOf(env.definition, f.state.stageKey).value;
    FoundStage(env.definition.stages, f.state.stageKey.value);
    DestinationComesFromAnEffect(env.host, ContextOf(env, f, stage, action, inputs), plan);
    StagesApart();
    if plan.trailOp == Push {
      assert LendingAction(stage, action);
      YesIsTrue(env.host, env.definition, f.state, action);
    }
  }

  /** A correction is asked for only at the first stage, and the file stays there. */
  lemma RevisionAfterTake(env: Env, f: File, action: Action, inputs: Values, plan: Plan)
    requires SepFile(env, f) && PlanFor(env, f, action, inputs) == Some(plan) && plan.revisionFlag.Some?
    ensures plan.toStageKey == Some(TTC)
  {
    var stage := StageOf(env.definition, f.state.stageKey).value;
    FoundStage(env.definition.stages, f.state.stageKey.value);
    DestinationComesFromAnEffect(env.host, ContextOf(env, f, stage, action, inputs), plan);
    assert LendingAction(stage, action);
  }

  lemma AcceptedTakeIsLoanSafe(env: Env, f: File, s: Step)
    requires SepFile(env, f) && LoanSafe(f) && s.Take? && Stepped(env, f, s).Some? && Accepted(env.host, s.action, s.inputs)
    ensures LoanSafe(Stepped(env, f, s).value)
  {
    var plan := PlanFor(env, f, s.action, s.inputs).value;
    if LOAN_APPROVED in Written(f.state, plan).flags { LoanAfterAcceptedTake(env, f, s.action, s.inputs, plan); }
    if AtABank(plan.toStageKey) { BankAfterTake(env, f, s.action, s.inputs, plan); }
    if plan.revisionFlag.Some? { RevisionAfterTake(env, f, s.action, s.inputs, plan); }
  }

  lemma OtherStepsAreLoanSafe(env: Env, f: File, s: Step)
    requires SepFile(env, f) && LoanSafe(f) && !s.Take? && Stepped(env, f, s).Some?
    ensures LoanSafe(Stepped(env, f, s).value)
  {
    StagesApart();
    assert Terminal(env.definition, COMPLETED);
  }

  lemma {:induction false} AcceptedRunIsLoanSafe(env: Env, answers: Values, steps: seq<Step>)
    requires SoundEnv(env) && PlacedLikeSep(env.definition) && WorkedLikeSep(env.definition) && LendsLikeSep(env.definition)
    requires Run(env, answers, steps).Some? && AcceptedSteps(env.host, steps)
    ensures LoanSafe(Run(env, answers, steps).value)
  {
    if steps == [] {
      StagesApart();
      FlagsApart();
    } else {
      var front, s := steps[..|steps| - 1], steps[|steps| - 1];
      AcceptedRunIsLoanSafe(env, answers, front);
      var f := Run(env, answers, front).value;
      EveryRunIsSafe(env, answers, front);
      OnCourseWhereLikeSep(env, answers, front);
      if s.Take? {
        AcceptedTakeIsLoanSafe(env, f, s);
      } else {
        OtherStepsAreLoanSafe(env, f, s);
      }
    }
  }

  /** On every run of accepted inputs, a loan is approved only while the file's answers ask for one. */
  lemma ApprovedLoansAreOnOffer(host: Host, m: Messages, ceilingPaise: Option<int>, answers: Values, steps: seq<Step>)
    requires AcceptedSteps(host, steps)
    ensures var run := Run(SepEnv(host, m, ceilingPaise), answers, steps);
      run.Some? && LOAN_APPROVED in run.value.state.flags ==> LoanOnOffer(run.value.state.answers)
  {
    if Run(SepEnv(host, m, ceilingPaise), answers, steps).Some? {
      MissionSepIsSound(m);
      MissionSepIsPlaced(m);
      MissionSepIsWorked(m);
      MissionSepLends(m);
      AcceptedRunIsLoanSafe(SepEnv(host, m, ceilingPaise), answers, steps);
    }
  }

  // ---- A run to the loan ----

  const A_REFERENCE := "X"
  const A_DATE := "2000-01-01"

  /** The bank the officer chooses. */
  const CHOSEN: Values := map["BANK" := Text("SBI")]

  /** The least loan there is, with a reference and a date. */
  const FULFILMENT: Values := map["AMOUNT" := Number(1), "REFERENCE" := Text(A_REFERENCE), "SANCTION_DATE" := Text(A_DATE)]

  /** Cleaning leaves three plain texts as they are, and few short values are within the size a form may have. */
  predicate CleansPlainly(host: Host) {
    && host.clean(SingleChoice, "SBI") == "SBI" && host.clean(ShortText, A_REFERENCE) == A_REFERENCE
    && host.clean(InputType.Date, A_DATE) == A_DATE
    && host.encodedBytes(map[]) <= MAX_ANSWER_BYTES && host.encodedBytes(CHOSEN) <= MAX_ANSWER_BYTES
    && host.encodedBytes(FULFILMENT) <= MAX_ANSWER_BYTES
  }

  lemma ChosenIsAccepted(host: Host)
    requires CleansPlainly(host)
    ensures Accepted(host, SendToBank(), CHOSEN)
  {
    var a := SendToBank();
    assert InputKeys(a.inputs) == ["BANK"];
    assert Answerable(a.inputs) == {"BANK"};
    AcceptedAsGiven(host, a, CHOSEN, 0);
  }

  /** The first of January 2000, at midnight. */
  function ADate(): CalendarMonths.Date { CalendarMonths.Date.Date(2000, 0, 1, 0) }

  lemma TheDateIsWritten()
    ensures CalendarMonths.Writable(ADate()) && CalendarMonths.Rendered(ADate()) == A_DATE
  {
    assert CalendarMonths.TwoDigits(20) == "20" && CalendarMonths.TwoDigits(0) == "00" && CalendarMonths.TwoDigits(1) == "01";
    var d := ADate();
    assert d.year / 100 == 20 && d.year % 100 == 0;
    assert CalendarMonths.Rendered(d) == "20" + "00" + "-" + "01" + "-" + "01";
  }

  lemma TheDateIsReal()
    ensures CalendarMonths.ParseDateOnly(A_DATE) == Some(ADate())
  {
    TheDateIsWritten();
    CalendarMonths.RenderedParses(ADate());
  }

  /** Always shown, answered enough, and read as it is. */
  predicate ReadAsGiven(host: Host, i: Input, v: Value, now: int) {
    i.visibleWhen == [] && Complete(i, v) && Coerced(host, i, v) == Some(v) && WithinRules(i, v, now)
  }

  lemma AmountIsRead(host: Host, now: int)
    ensures ReadAsGiven(host, Amount(LOAN_AMOUNT), Number(1), now)
  {
  }

  lemma ReferenceIsRead(host: Host, now: int)
    requires CleansPlainly(host)
    ensures ReadAsGiven(host, Reference(), Text(A_REFERENCE), now)
  {
  }

  lemma DateIsRead(host: Host) returns (now: int)
    requires CleansPlainly(host)
    ensures ReadAsGiven(host, SanctionDate(), Text(A_DATE), now)
  {
    TheDateIsReal();
    now := ADate().GetTime();
    assert |A_DATE| == 10;
  }

  lemma FulfilmentHolds(m: Messages)
    ensures FULFILMENT.Keys == Answerable(FulfilLoan(m).inputs)
    ensures FULFILMENT["AMOUNT"] == Number(1) && FULFILMENT["REFERENCE"] == Text(A_REFERENCE) && FULFILMENT["SANCTION_DATE"] == Text(A_DATE)
  {
    var inputs := FulfilLoan(m).inputs;
    assert |"AMOUNT"| == 6 && |"REFERENCE"| == 9 && |"SANCTION_DATE"| == 13;
    assert inputs[0] in inputs && inputs[1] in inputs && inputs[2] in inputs;
    assert FULFILMENT.Keys == {"AMOUNT", "REFERENCE", "SANCTION_DATE"};
    assert Answerable(inputs) == {inputs[0].key, inputs[1].key, inputs[2].key};
  }

  lemma FulfilmentIsRead(host: Host, m: Messages, i: Input, now: int)
    requires CleansPlainly(host) && i in FulfilLoan(m).inputs && ReadAsGiven(host, SanctionDate(), Text(A_DATE), now)
    ensures i.key in FULFILMENT && ReadAsGiven(host, i, FULFILMENT[i.key], now)
  {
    FulfilmentHolds(m);
    AmountIsRead(host, now);
    ReferenceIsRead(host, now);
    assert i == Amount(LOAN_AMOUNT) || i == Reference() || i == SanctionDate();
  }

  lemma FulfilmentIsAccepted(host: Host, m: Messages)
    requires CleansPlainly(host)
    ensures Accepted(host, FulfilLoan(m), FULFILMENT)
  {
    var now := DateIsRead(host);
    FulfilLoanInputs(m);
    FulfilmentHolds(m);
    forall i | i in FulfilLoan(m).inputs ensures i.key in FULFILMENT && ReadAsGiven(host, i, FULFILMENT[i.key], now) {
      FulfilmentIsRead(host, m, i, now);
    }
    AcceptedAsGiven(host, FulfilLoan(m), FULFILMENT, now);
  }

  lemma SentOn(host: Host, c: Context)
    requires c.action == ToIndustries()
    ensures c.action.availableWhen == [] && forall e :: e in c.action.effects ==> PlanEffect(host, e.kind, c).Success?
    ensures PlanOf(host, c).Success? ==> PlanOf(host, c).value.toStageKey == Some(INDUSTRIES)
  {
    if PlanOf(host, c).Success? {
      assert Always(MoveToStage(INDUSTRIES)) in c.action.effects;
      MovingEffectDecides(host, c, PlanOf(host, c).value, Always(MoveToStage(INDUSTRIES)));
    }
  }

  lemma ChoiceIsRouted(host: Host, c: Context)
    requires c.inputs == CHOSEN
    ensures PlanEffect(host, SendToBank().effects[0].kind, c) == Success(NOTHING.(move := Some(MoveTo(SBI_BANK))))
  {
    assert "SBI"[0] != "TGB"[0] && |SBI_BANK| > 0;
  }

  lemma SentToTheBank(host: Host, c: Context)
    requires c.action == SendToBank() && c.inputs == CHOSEN
    ensures forall e :: e in c.action.effects ==> PlanEffect(host, e.kind, c).Success?
    ensures PlanOf(host, c).Success? ==> PlanOf(host, c).value.toStageKey == Some(SBI_BANK)
  {
    ChoiceIsRouted(host, c);
    if PlanOf(host, c).Success? {
      MovingEffectDecides(host, c, PlanOf(host, c).value, SendToBank().effects[0]);
    }
  }

  /** With an amount the applicant's own allows, no effect of fulfilling refuses. */
  lemma FulfillingIsNotRefused(host: Host, m: Messages, c: Context)
    requires c.action == FulfilLoan(m) && c.inputs == FULFILMENT
    requires LOAN_AMOUNT in c.state.answers && c.state.answers[LOAN_AMOUNT].Number? && c.state.answers[LOAN_AMOUNT].number >= 1
    ensures c.action.availableWhen == []
    ensures forall e :: e in c.action.effects ==> !e.kind.RequestRevision? && PlanEffect(host, e.kind, c).Success?
  {
    FulfilmentHolds(m);
    LoanRecordIsNotRefused(host, c);
    forall e | e in c.action.effects ensures !e.kind.RequestRevision? && PlanEffect(host, e.kind, c).Success? {
      if e != LoanRecord() { UnboundedIsNotRefused(host, e.kind, c); }
    }
  }

  lemma LoanRecordIsNotRefused(host: Host, c: Context)
    requires "AMOUNT" in c.inputs && c.inputs["AMOUNT"] == Number(1)
    requires LOAN_AMOUNT in c.state.answers && c.state.answers[LOAN_AMOUNT].Number? && c.state.answers[LOAN_AMOUNT].number >= 1
    ensures PlanEffect(host, LoanRecord().kind, c).Success?
  {
  }

  lemma UnboundedIsNotRefused(host: Host, e: EffectKind, c: Context)
    requires !e.MoveByChoice? && !e.ReturnToPrevious? && (e.SetRecordedValue? ==> e.atMostAnswer.None? && !e.atMostCycleCeiling)
    ensures PlanEffect(host, e, c).Success?
  {
  }

  lemma Fulfilled(host: Host, m: Messages, c: Context, plan: Plan)
    requires c.action == FulfilLoan(m) && PlanOf(host, c) == Success(plan) && LOAN_APPROVED !in c.stage.presenceFlags
    ensures plan.toStageKey.None? && LOAN_APPROVED in plan.flags
  {
    FulfilIsShaped(m);
    var loan, completion := Always(AddStatus(LOAN_APPROVED)), Always(CompletePipeline(COMPLETED));
    assert loan in c.action.effects && completion in c.action.effects;
    EndingDecides(host, c, plan, completion);
    PlannedStatus(host, c, plan);
    FlagsApart();
    AdditionHolds(host, c, plan, loan);
  }

  /** A file at a stage after a run of accepted inputs, nothing open, holding the answers it was submitted with. */
  ghost predicate At(env: Env, answers: Values, steps: seq<Step>, stageKey: Key) {
    var run := Run(env, answers, steps);
    && AcceptedSteps(env.host, steps) && run.Some? && run.value.openRevisions == 0
    && run.value.state.stageKey == Some(stageKey) && run.value.state.answers == answers
  }

  lemma SentOnRun(env: Env, m: Messages, answers: Values) returns (steps: seq<Step>)
    requires SoundEnv(env) && env.definition.initialStageKey == TTC && FindStage(env.definition.stages, TTC) == Some(FirstReview(m))
    requires CleansPlainly(env.host)
    ensures At(env, answers, steps, INDUSTRIES)
  {
    var f := Submitted(env, answers);
    assert Run(env, answers, []) == Some(f);
    SentOn(env.host, ContextOf(env, f, FirstReview(m), ToIndustries(), map[]));
    var plan := TakenOnARun(env, answers, [], FirstReview(m), ToIndustries(), map[]);
    NothingAsked(env.host, ToIndustries());
    steps := [] + [Take(ToIndustries(), map[], 0)];
  }

  lemma SentToTheBankRun(env: Env, m: Messages, answers: Values, before: seq<Step>) returns (steps: seq<Step>)
    requires SoundEnv(env) && FindStage(env.definition.stages, INDUSTRIES) == Some(Department(m)) && At(env, answers, before, INDUSTRIES)
    requires CleansPlainly(env.host) && SaysYes(Lookup(answers, WANTS_BANK_LOAN))
    ensures At(env, answers, steps, SBI_BANK)
  {
    var f := Run(env, answers, before).value;
    SentToTheBank(env.host, ContextOf(env, f, Department(m), SendToBank(), CHOSEN));
    YesIsTrue(env.host, env.definition, f.state, SendToBank());
    var plan := TakenOnARun(env, answers, before, Department(m), SendToBank(), CHOSEN);
    ChosenIsAccepted(env.host);
    steps := before + [Take(SendToBank(), CHOSEN, 0)];
  }

  /** A run of accepted inputs that leaves the file with these answers, at no stage, its loan approved. */
  ghost predicate EndsInLoan(env: Env, answers: Values, steps: seq<Step>) {
    var run := Run(env, answers, steps);
    && AcceptedSteps(env.host, steps) && run.Some? && run.value.state.answers == answers
    && run.value.state.stageKey.None? && LOAN_APPROVED in run.value.state.flags
  }

  /** An action that is not refused, sends the file nowhere and approves the loan ends the run so. */
  lemma EndsOnRun(env: Env, answers: Values, before: seq<Step>, stage: Stage, action: Action, inputs: Values, c: Context)
    returns (steps: seq<Step>)
    requires SoundEnv(env) && At(env, answers, before, stage.key) && FindStage(env.definition.stages, stage.key) == Some(stage)
    requires c == ContextOf(env, Run(env, answers, before).value, stage, action, inputs)
    requires action in stage.actions && action.availableWhen == [] && Accepted(env.host, action, inputs)
    requires forall e :: e in action.effects ==> !e.kind.RequestRevision? && PlanEffect(env.host, e.kind, c).Success?
    requires LOAN_APPROVED !in stage.presenceFlags
    requires PlanOf(env.host, c).Success? ==>
      PlanOf(env.host, c).value.toStageKey.None? && LOAN_APPROVED in PlanOf(env.host, c).value.flags
    ensures EndsInLoan(env, answers, steps)
  {
    var plan := TakenOnARun(env, answers, before, stage, action, inputs);
    WrittenFlagsAreThePlans(env.host, c, plan);
    steps := before + [Take(action, inputs, 0)];
  }

  lemma FulfilledFrom(env: Env, m: Messages, answers: Values, before: seq<Step>, stage: Stage, action: Action)
    returns (steps: seq<Step>)
    requires SoundEnv(env) && At(env, answers, before, stage.key) && FindStage(env.definition.stages, stage.key) == Some(stage)
    requires action in stage.actions && LOAN_APPROVED !in stage.presenceFlags && action == FulfilLoan(m)
    requires Accepted(env.host, action, FULFILMENT) && LoanOnOffer(answers)
    ensures EndsInLoan(env, answers, steps)
  {
    var c := ContextOf(env, Run(env, answers, before).value, stage, action, FULFILMENT);
    FulfillingIsNotRefused(env.host, m, c);
    if PlanOf(env.host, c).Success? { Fulfilled(env.host, m, c, PlanOf(env.host, c).value); }
    steps := EndsOnRun(env, answers, before, stage, action, FULFILMENT, c);
  }

  lemma FulfilledAtABank(key: Key, m: Messages)
    ensures FulfilLoan(m) in Bank(key, m).actions && LOAN_APPROVED !in Bank(key, m).presenceFlags && Bank(key, m).key == key
  {
    FlagsApart();
    assert Bank(key, m).actions[1] == FulfilLoan(m);
  }

  lemma FulfilledRun(env: Env, m: Messages, answers: Values, before: seq<Step>) returns (steps: seq<Step>)
    requires SoundEnv(env) && FindStage(env.definition.stages, SBI_BANK) == Some(Bank(SBI_BANK, m)) && At(env, answers, before, SBI_BANK)
    requires CleansPlainly(env.host) && LoanOnOffer(answers)
    ensures EndsInLoan(env, answers, steps)
  {
    FulfilledAtABank(SBI_BANK, m);
    FulfilmentIsAccepted(env.host, m);
    steps := FulfilledFrom(env, m, answers, before, Bank(SBI_BANK, m), FulfilLoan(m));
  }

  lemma LoanRun(env: Env, m: Messages, answers: Values) returns (steps: seq<Step>)
    requires SoundEnv(env) && env.definition.initialStageKey == TTC && CleansPlainly(env.host) && LoanOnOffer(answers)
    requires FindStage(env.definition.stages, TTC) == Some(FirstReview(m))
    requires FindStage(env.definition.stages, INDUSTRIES) == Some(Department(m))
    requires FindStage(env.definition.stages, SBI_BANK) == Some(Bank(SBI_BANK, m))
    ensures EndsInLoan(env, answers, steps)
  {
    steps := SentOnRun(env, m, answers);
    steps := SentToTheBankRun(env, m, answers, steps);
    steps := FulfilledRun(env, m, answers, steps);
  }

  /**
   * A file can be worked, with inputs its forms accept, to its loan approved exactly when its applicant
   * asked for a loan and gave an amount of at least one paisa.
   */
  lemma LoanIsApprovedIffOnOffer(host: Host, m: Messages, ceilingPaise: Option<int>, answers: Values)
    requires CleansPlainly(host)
    ensures (exists steps :: EndsInLoan(SepEnv(host, m, ceilingPaise), answers, steps)) <==> LoanOnOffer(answers)
  {
    var env := SepEnv(host, m, ceilingPaise);
    forall steps | EndsInLoan(env, answers, steps) ensures LoanOnOffer(answers) {
      ApprovedLoansAreOnOffer(host, m, ceilingPaise, answers, steps);
    }
    if LoanOnOffer(answers) {
      MissionSepIsSound(m);
      SepStages(m, FirstReview(m));
      SepStages(m, Department(m));
      SepStages(m, Bank(SBI_BANK, m));
      var steps := LoanRun(env, m, answers);
    }
  }
}
