/**
 * The Mission SEP pipeline (src/services/pipeline/example.ts): TTC checks the file, Industries & Commerce
 * approves the grant and chooses the bank, and the bank fulfils the loan. Nothing is wrong with it.
 */
module MissionSepPipeline {
  import opened Common
  import opened PipelineDefinitions
  import opened PipelineEffects
  import opened PipelineValidation
  import opened PipelineSoundness

  const TTC: Key := "TTC"
  const INDUSTRIES: Key := "INDUSTRIES_COMMERCE"
  const SBI_BANK: Key := "SBI_BANK"
  const TGB_BANK: Key := "TGB_BANK"

  const IN_REVIEW: Key := "IN_REVIEW"
  const REVISION_REQUIRED: Key := "REVISION_REQUIRED"
  const GRANT_APPROVED: Key := "GRANT_APPROVED"
  const BANKING_STAGE: Key := "BANKING_STAGE"
  const LOAN_APPROVED: Key := "LOAN_APPROVED"
  const COMPLETED: Key := "COMPLETED"
  const REJECTED: Key := "REJECTED"

  const APPROVED_GRANT: Key := "APPROVED_GRANT_PAISE"
  const FULFILLED_LOAN: Key := "FULFILLED_LOAN_PAISE"
  const LOAN_REFERENCE: Key := "LOAN_REFERENCE"
  const LOAN_SANCTIONED_ON: Key := "LOAN_SANCTIONED_ON"

  const WANTS_GRANT: Key := "WANTS_GRANT"
  const WANTS_BANK_LOAN: Key := "WANTS_BANK_LOAN"
  const SEED_FUND: Key := "SEED_FUND_REQUESTED_PAISE"
  const FIRST_BANK: Key := "LOAN_BANK_FIRST_CHOICE"
  const LOAN_AMOUNT: Key := "LOAN_AMOUNT_REQUESTED_PAISE"

  /** What the applicant is told; nothing below depends on it. */
  datatype Messages = Messages(correct: string, granted: string, completed: string, rejected: string)

  function Always(kind: EffectKind): Effect { Effect(kind, []) }

  // Every input is required and always shown.

  function Note(key: Key): Input {
    Input(key, LongText, true, UNBOUNDED.(maxLength := Some(2000)), [], None, [])
  }

  function Amount(defaultFrom: Key): Input {
    Input("AMOUNT", Money, true, UNBOUNDED.(minValue := Some(1)), [], Some(DefaultAnswer(defaultFrom)), [])
  }

  function ChosenBank(): Input {
    Input("BANK", SingleChoice, true, UNBOUNDED, ["SBI", "TGB"], Some(DefaultAnswer(FIRST_BANK)), [])
  }

  function Reference(): Input { Input("REFERENCE", ShortText, true, UNBOUNDED.(maxLength := Some(60)), [], None, []) }

  function SanctionDate(): Input {
    Input("SANCTION_DATE", Date, true, UNBOUNDED.(relative := Some(NotFuture)), [], None, [])
  }

  function Answer(key: Key, value: string): Condition { Condition(1, FromAnswer, key, Equals, Some(value), Some(Boolean)) }

  // What every ending does besides: the file leaves review, and the applicant is told.

  function LeaveReview(): Effect { Always(RemoveStatus(IN_REVIEW)) }

  function Tell(message: string): Effect { Always(NotifyApplicant(message, true)) }

  function SendBack(): Action {
    Action("SEND_BACK", [Note("NOTE")], [], [Always(ReturnToPrevious), Always(AddInternalNote("NOTE"))])
  }

  function AskRevision(m: Messages): Action {
    Action("ASK_REVISION", [], [], [Always(RequestRevision(REVISION_REQUIRED)), Tell(m.correct)])
  }

  function ToIndustries(): Action { Action("TO_INDUSTRIES_COMMERCE", [], [], [Always(MoveToStage(INDUSTRIES))]) }

  function Reject(m: Messages): Action {
    Action("REJECT", [Note("REASON")], [],
      [Always(CloseApplication(REJECTED)), Always(AddInternalNote("REASON")), LeaveReview(), Tell(m.rejected)])
  }

  function NoGrantYet(): Condition { Condition(1, FromFlag, GRANT_APPROVED, IsAbsent, None, None) }

  function ApproveGrant(m: Messages): Action {
    Action("APPROVE_GRANT", [Amount(SEED_FUND)], [Answer(WANTS_GRANT, "true"), NoGrantYet()],
      [Always(AddStatus(GRANT_APPROVED)), Always(SetRecordedValue("AMOUNT", APPROVED_GRANT, Some(SEED_FUND), true)),
       Tell(m.granted)])
  }

  function SendToBank(): Action {
    Action("SEND_TO_BANK", [ChosenBank()],
      [Answer(WANTS_BANK_LOAN, "true")], [Always(MoveByChoice("BANK", map["SBI" := SBI_BANK, "TGB" := TGB_BANK]))])
  }

  function CompleteWithoutLoan(m: Messages): Action {
    Action("COMPLETE_WITHOUT_LOAN", [], [Answer(WANTS_BANK_LOAN, "false")],
      [Always(CompletePipeline(COMPLETED)), LeaveReview(), Tell(m.completed)])
  }

  function FulfilLoan(m: Messages): Action {
    Action("FULFIL_LOAN",
      [Amount(LOAN_AMOUNT), Reference(), SanctionDate()], [],
      [Always(AddStatus(LOAN_APPROVED)), Always(SetRecordedValue("AMOUNT", FULFILLED_LOAN, Some(LOAN_AMOUNT), false)),
       Always(SetRecordedValue("REFERENCE", LOAN_REFERENCE, None, false)),
       Always(SetRecordedValue("SANCTION_DATE", LOAN_SANCTIONED_ON, None, false)),
       Always(CompletePipeline(COMPLETED)), LeaveReview(), Tell(m.completed)])
  }

  function FirstReview(m: Messages): Stage { Stage(TTC, [], [AskRevision(m), ToIndustries(), Reject(m)]) }

  function Department(m: Messages): Stage {
    Stage(INDUSTRIES, [], [SendBack(), ApproveGrant(m), SendToBank(), CompleteWithoutLoan(m)])
  }

  function Bank(key: Key, m: Messages): Stage { Stage(key, [BANKING_STAGE], [SendBack(), FulfilLoan(m)]) }

  function Flags(): seq<StatusFlag> {
    [StatusFlag(IN_REVIEW, false, false, false), StatusFlag(REVISION_REQUIRED, false, false, true),
     StatusFlag(GRANT_APPROVED, true, false, false), StatusFlag(BANKING_STAGE, false, false, false),
     StatusFlag(LOAN_APPROVED, true, false, false), StatusFlag(COMPLETED, true, true, false),
     StatusFlag(REJECTED, true, true, false)]
  }

  function Recorded(): seq<RecordedValue> {
    [RecordedValue(APPROVED_GRANT, Money), RecordedValue(FULFILLED_LOAN, Money),
     RecordedValue(LOAN_REFERENCE, ShortText), RecordedValue(LOAN_SANCTIONED_ON, Date)]
  }

  function Stages(m: Messages): seq<Stage> { [FirstReview(m), Department(m), Bank(SBI_BANK, m), Bank(TGB_BANK, m)] }

  function MissionSep(m: Messages): Definition { Definition(TTC, [IN_REVIEW], Flags(), Recorded(), Stages(m)) }

  // ---- Its keys ----

  lemma FlagKeysDiffer()
    ensures Distinct(FlagKeys(Flags()))
    ensures Distinct([IN_REVIEW, REVISION_REQUIRED, GRANT_APPROVED, BANKING_STAGE, LOAN_APPROVED, COMPLETED, REJECTED])
  {
    assert LOAN_APPROVED[0] != BANKING_STAGE[0];
    assert COMPLETED[0] != IN_REVIEW[0];
    var keys := [IN_REVIEW, REVISION_REQUIRED, GRANT_APPROVED, BANKING_STAGE, LOAN_APPROVED, COMPLETED, REJECTED];
    assert FlagKeys(Flags()) == keys;
    assert |IN_REVIEW| == 9 && |REVISION_REQUIRED| == 17 && |GRANT_APPROVED| == 14 && |BANKING_STAGE| == 13;
    assert |LOAN_APPROVED| == 13 && |COMPLETED| == 9 && |REJECTED| == 8;
  }

  lemma StageKeysDiffer(m: Messages)
    ensures Distinct(StageKeys(Stages(m)))
    ensures Distinct([TTC, INDUSTRIES, SBI_BANK, TGB_BANK])
  {
    assert SBI_BANK[0] != TGB_BANK[0];
    assert StageKeys(Stages(m)) == [TTC, INDUSTRIES, SBI_BANK, TGB_BANK];
  }

  lemma SepFlags(m: Messages, f: StatusFlag)
    requires f in Flags()
    ensures FlagOf(MissionSep(m), f.key) == Some(f)
  {
    FlagKeysDiffer();
    FindsEachFlag(Flags(), f);
  }

  lemma SepStages(m: Messages, s: Stage)
    requires s in Stages(m)
    ensures FindStage(Stages(m), s.key) == Some(s)
  {
    StageKeysDiffer(m);
    FindsEachStage(Stages(m), s);
  }

  lemma SepRecorded(m: Messages)
    ensures FindRecorded(Recorded(), APPROVED_GRANT) == Some(RecordedValue(APPROVED_GRANT, Money))
    ensures FindRecorded(Recorded(), FULFILLED_LOAN) == Some(RecordedValue(FULFILLED_LOAN, Money))
    ensures FindRecorded(Recorded(), LOAN_REFERENCE) == Some(RecordedValue(LOAN_REFERENCE, ShortText))
    ensures FindRecorded(Recorded(), LOAN_SANCTIONED_ON) == Some(RecordedValue(LOAN_SANCTIONED_ON, Date))
  {
    assert APPROVED_GRANT[0] != FULFILLED_LOAN[0];
    assert Recorded()[1..] == [RecordedValue(FULFILLED_LOAN, Money), RecordedValue(LOAN_REFERENCE, ShortText), RecordedValue(LOAN_SANCTIONED_ON, Date)];
    assert Recorded()[1..][1..] == [RecordedValue(LOAN_REFERENCE, ShortText), RecordedValue(LOAN_SANCTIONED_ON, Date)];
    assert Recorded()[1..][1..][1..] == [RecordedValue(LOAN_SANCTIONED_ON, Date)];
  }

  // ---- Each action, at any stage of a document that declares what it names ----

  ghost predicate Declares(d: Definition) {
    && d.initialStageKey == TTC
    && FlagOf(d, IN_REVIEW) == Some(StatusFlag(IN_REVIEW, false, false, false))
    && FlagOf(d, REVISION_REQUIRED) == Some(StatusFlag(REVISION_REQUIRED, false, false, true))
    && FlagOf(d, GRANT_APPROVED) == Some(StatusFlag(GRANT_APPROVED, true, false, false))
    && FlagOf(d, BANKING_STAGE) == Some(StatusFlag(BANKING_STAGE, false, false, false))
    && FlagOf(d, LOAN_APPROVED) == Some(StatusFlag(LOAN_APPROVED, true, false, false))
    && FlagOf(d, COMPLETED) == Some(StatusFlag(COMPLETED, true, true, false))
    && FlagOf(d, REJECTED) == Some(StatusFlag(REJECTED, true, true, false))
    && FindRecorded(d.recordedValues, APPROVED_GRANT) == Some(RecordedValue(APPROVED_GRANT, Money))
    && FindRecorded(d.recordedValues, FULFILLED_LOAN) == Some(RecordedValue(FULFILLED_LOAN, Money))
    && FindRecorded(d.recordedValues, LOAN_REFERENCE) == Some(RecordedValue(LOAN_REFERENCE, ShortText))
    && FindRecorded(d.recordedValues, LOAN_SANCTIONED_ON) == Some(RecordedValue(LOAN_SANCTIONED_ON, Date))
    && FindStage(d.stages, INDUSTRIES).Some? && FindStage(d.stages, SBI_BANK).Some? && FindStage(d.stages, TGB_BANK).Some?
  }

  lemma EndingFits(d: Definition, stage: Stage, action: Action, message: string)
    requires Declares(d)
    ensures forall e :: e in [LeaveReview(), Tell(message)] ==> e.when == [] && EffectFits(d, stage, action, e.kind)
  {
    StatusFits(d, stage, action, StatusFlag(IN_REVIEW, false, false, false));
    NotifyFits(d, stage, action, message);
  }

  lemma SendBackFits(d: Definition, stage: Stage)
    requires Declares(d) && stage.key != TTC
    ensures Fits(d, stage, SendBack(), 0)
  {
    ReturnFits(d, stage, SendBack());
    NoteFits(d, stage, SendBack(), "NOTE");
  }

  lemma AskRevisionFits(d: Definition, stage: Stage, m: Messages)
    requires Declares(d)
    ensures Fits(d, stage, AskRevision(m), 0)
  {
    RevisionFits(d, stage, AskRevision(m), StatusFlag(REVISION_REQUIRED, false, false, true));
    NotifyFits(d, stage, AskRevision(m), m.correct);
  }

  lemma ToIndustriesFits(d: Definition, stage: Stage)
    requires Declares(d) && stage.key != INDUSTRIES
    ensures Fits(d, stage, ToIndustries(), 0)
  {
  }

  lemma RejectFits(d: Definition, stage: Stage, m: Messages)
    requires Declares(d)
    ensures Fits(d, stage, Reject(m), 0)
  {
    var action := Reject(m);
    EndFits(d, stage, action, StatusFlag(REJECTED, true, true, false));
    NoteFits(d, stage, action, "REASON");
    EndingFits(d, stage, action, m.rejected);
  }

  lemma ApproveGrantFits(d: Definition, stage: Stage, m: Messages)
    requires Declares(d)
    ensures Fits(d, stage, ApproveGrant(m), 0)
  {
    var action := ApproveGrant(m);
    StatusFits(d, stage, action, StatusFlag(GRANT_APPROVED, true, false, false));
    RecordFits(d, stage, action, action.effects[1].kind, Amount(SEED_FUND), RecordedValue(APPROVED_GRANT, Money));
    NotifyFits(d, stage, action, m.granted);
  }

  lemma ChoiceFits(d: Definition, stage: Stage)
    requires Declares(d) && stage.key != SBI_BANK && stage.key != TGB_BANK
    ensures EffectFits(d, stage, SendToBank(), SendToBank().effects[0].kind)
  {
  }

  lemma SendToBankFits(d: Definition, stage: Stage)
    requires Declares(d) && stage.key != SBI_BANK && stage.key != TGB_BANK
    ensures Fits(d, stage, SendToBank(), 0)
  {
    ChoiceFits(d, stage);
  }

  lemma CompleteWithoutLoanFits(d: Definition, stage: Stage, m: Messages)
    requires Declares(d)
    ensures Fits(d, stage, CompleteWithoutLoan(m), 0)
  {
    var action := CompleteWithoutLoan(m);
    EndFits(d, stage, action, StatusFlag(COMPLETED, true, true, false));
    EndingFits(d, stage, action, m.completed);
  }

  lemma FulfilLoanInputs(m: Messages)
    ensures var inputs := FulfilLoan(m).inputs;
      && FindInput(inputs, "AMOUNT") == Some(inputs[0]) && FindInput(inputs, "REFERENCE") == Some(inputs[1])
      && FindInput(inputs, "SANCTION_DATE") == Some(inputs[2]) && Distinct(InputKeys(inputs))
  {
    var inputs := FulfilLoan(m).inputs;
    assert |"AMOUNT"| == 6 && |"REFERENCE"| == 9 && |"SANCTION_DATE"| == 13;
    assert inputs[1..] == [inputs[1], inputs[2]] && [inputs[1], inputs[2]][1..] == [inputs[2]];
    assert FindInput([inputs[2]], "SANCTION_DATE") == Some(inputs[2]);
    assert InputKeys(inputs) == ["AMOUNT", "REFERENCE", "SANCTION_DATE"];
  }

  lemma FulfilLoanEffectsFit(d: Definition, stage: Stage, m: Messages)
    requires Declares(d)
    ensures forall e :: e in FulfilLoan(m).effects ==> e.when == [] && EffectFits(d, stage, FulfilLoan(m), e.kind)
  {
    var action := FulfilLoan(m);
    StatusFits(d, stage, action, StatusFlag(LOAN_APPROVED, true, false, false));
    EndFits(d, stage, action, StatusFlag(COMPLETED, true, true, false));
    FulfilLoanInputs(m);
    RecordFits(d, stage, action, action.effects[1].kind, action.inputs[0], RecordedValue(FULFILLED_LOAN, Money));
    RecordFits(d, stage, action, action.effects[2].kind, action.inputs[1], RecordedValue(LOAN_REFERENCE, ShortText));
    RecordFits(d, stage, action, action.effects[3].kind, action.inputs[2], RecordedValue(LOAN_SANCTIONED_ON, Date));
    EndingFits(d, stage, action, m.completed);
  }

  lemma OnlyCompletingMoves(m: Messages)
    ensures forall j :: 0 <= j < 7 && j != 4 ==> !Moves(FulfilLoan(m).effects[j].kind) && !Revises(FulfilLoan(m).effects[j].kind)
  {
  }

  lemma FulfilLoanFits(d: Definition, stage: Stage, m: Messages)
    requires Declares(d)
    ensures Fits(d, stage, FulfilLoan(m), 4)
  {
    FulfilLoanEffectsFit(d, stage, m);
    FulfilLoanInputs(m);
    OnlyCompletingMoves(m);
  }

  // ---- Nothing is wrong with the document ----

  lemma SepDeclares(m: Messages)
    ensures Declares(MissionSep(m))
  {
    forall f | f in Flags() ensures FlagOf(MissionSep(m), f.key) == Some(f) { SepFlags(m, f); }
    assert Flags()[0] in Flags() && Flags()[1] in Flags() && Flags()[2] in Flags() && Flags()[3] in Flags();
    assert Flags()[4] in Flags() && Flags()[5] in Flags() && Flags()[6] in Flags();
    SepRecorded(m);
    SepStages(m, Department(m));
    SepStages(m, Bank(SBI_BANK, m));
    SepStages(m, Bank(TGB_BANK, m));
  }

  lemma FirstReviewFits(d: Definition, m: Messages, a: Action, p: ActionProblem)
    requires Declares(d) && a in FirstReview(m).actions
    ensures !IsActionProblem(d, FirstReview(m), a, p)
  {
    var s := FirstReview(m);
    assert s.key != INDUSTRIES;
    if a == AskRevision(m) {
      AskRevisionFits(d, s, m);
    } else if a == ToIndustries() {
      ToIndustriesFits(d, s);
    } else {
      RejectFits(d, s, m);
    }
    FittingActionHasNoProblem(d, s, a, 0, p);
  }

  lemma DepartmentFits(d: Definition, m: Messages, a: Action, p: ActionProblem)
    requires Declares(d) && a in Department(m).actions
    ensures !IsActionProblem(d, Department(m), a, p)
  {
    var s := Department(m);
    assert s.key != TTC && s.key != SBI_BANK && s.key != TGB_BANK;
    if a == SendBack() {
      SendBackFits(d, s);
    } else if a == ApproveGrant(m) {
      ApproveGrantFits(d, s, m);
    } else if a == SendToBank() {
      SendToBankFits(d, s);
    } else {
      CompleteWithoutLoanFits(d, s, m);
    }
    FittingActionHasNoProblem(d, s, a, 0, p);
  }

  lemma BankFits(d: Definition, key: Key, m: Messages, a: Action, p: ActionProblem)
    requires Declares(d) && a in Bank(key, m).actions && key != TTC
    ensures !IsActionProblem(d, Bank(key, m), a, p)
  {
    if a == SendBack() {
      SendBackFits(d, Bank(key, m));
      FittingActionHasNoProblem(d, Bank(key, m), a, 0, p);
    } else {
      FulfilLoanFits(d, Bank(key, m), m);
      FittingActionHasNoProblem(d, Bank(key, m), a, 4, p);
    }
  }

  /** The moves it configures: on to the department, and from there to either bank. */
  lemma SepMoves(m: Messages, a: Key, b: Key)
    ensures MoveEdge(MissionSep(m), a, b) <==> (a == TTC && b == INDUSTRIES) || (a == INDUSTRIES && (b == SBI_BANK || b == TGB_BANK))
  {
    var d := MissionSep(m);
    StageKeysDiffer(m);
    SepStages(m, FirstReview(m));
    SepStages(m, Department(m));
    FoundStage(d.stages, a);
    FirstReviewTargets(m);
    DepartmentTargets(m);
    BankTargets(SBI_BANK, m);
    BankTargets(TGB_BANK, m);
  }

  lemma FirstReviewTargets(m: Messages)
    ensures StageTargets(FirstReview(m)) == {INDUSTRIES}
  {
    NoTargets(AskRevision(m));
    NoTargets(Reject(m));
    OneTarget(ToIndustries());
    OneActionMoves(FirstReview(m), ToIndustries());
  }

  lemma DepartmentTargets(m: Messages)
    ensures StageTargets(Department(m)) == {SBI_BANK, TGB_BANK}
  {
    NoTargets(SendBack());
    NoTargets(ApproveGrant(m));
    NoTargets(CompleteWithoutLoan(m));
    OneTarget(SendToBank());
    RoutesOfTheChoice();
    OneActionMoves(Department(m), SendToBank());
  }

  lemma BankTargets(key: Key, m: Messages)
    ensures StageTargets(Bank(key, m)) == {}
  {
    NoTargets(SendBack());
    NoTargets(FulfilLoan(m));
  }

  lemma RoutesOfTheChoice()
    ensures (map["SBI" := SBI_BANK, "TGB" := TGB_BANK]).Values == {SBI_BANK, TGB_BANK}
  {
    var routes := map["SBI" := SBI_BANK, "TGB" := TGB_BANK];
    assert "SBI"[0] != "TGB"[0];
    assert routes["SBI"] == SBI_BANK && routes["TGB"] == TGB_BANK;
    assert routes.Keys == {"SBI", "TGB"};
  }

  lemma EachStageIsReached(m: Messages, s: Stage)
    requires s in Stages(m)
    ensures Reached(MissionSep(m), s.key)
  {
    var d := MissionSep(m);
    assert Route(d, [TTC]);
    SepMoves(m, TTC, INDUSTRIES);
    OneMoreMove(d, TTC, INDUSTRIES);
    SepMoves(m, INDUSTRIES, SBI_BANK);
    OneMoreMove(d, INDUSTRIES, SBI_BANK);
    SepMoves(m, INDUSTRIES, TGB_BANK);
    OneMoreMove(d, INDUSTRIES, TGB_BANK);
  }

  lemma EachStageIsLeft(m: Messages, s: Stage)
    requires s in Stages(m)
    ensures StageIsLeft(s)
  {
    assert Always(CloseApplication(REJECTED)) in Reject(m).effects && Always(ReturnToPrevious) in SendBack().effects;
    assert Reject(m) in FirstReview(m).actions && SendBack() in Department(m).actions;
  }

  lemma ActionKeysDiffer(m: Messages, s: Stage)
    requires s in Stages(m)
    ensures Distinct(ActionKeys(s.actions))
  {
    assert ActionKeys(FirstReview(m).actions) == ["ASK_REVISION", "TO_INDUSTRIES_COMMERCE", "REJECT"];
    assert ActionKeys(Department(m).actions) == ["SEND_BACK", "APPROVE_GRANT", "SEND_TO_BANK", "COMPLETE_WITHOUT_LOAN"];
    assert |"ASK_REVISION"| == 12 && |"TO_INDUSTRIES_COMMERCE"| == 22 && |"REJECT"| == 6 && |"SEND_BACK"| == 9;
    assert |"APPROVE_GRANT"| == 13 && |"SEND_TO_BANK"| == 12 && |"COMPLETE_WITHOUT_LOAN"| == 21 && |"FULFIL_LOAN"| == 11;
    assert s.actions == [SendBack(), FulfilLoan(m)] ==> ActionKeys(s.actions) == ["SEND_BACK", "FULFIL_LOAN"];
  }

  lemma RecordedKeysDiffer()
    ensures Distinct(RecordedKeys(Recorded()))
  {
    assert RecordedKeys(Recorded()) == [APPROVED_GRANT, FULFILLED_LOAN, LOAN_REFERENCE, LOAN_SANCTIONED_ON];
    assert APPROVED_GRANT[0] != FULFILLED_LOAN[0] && |APPROVED_GRANT| == 20 && |FULFILLED_LOAN| == 20;
    assert |LOAN_REFERENCE| == 14 && |LOAN_SANCTIONED_ON| == 18;
  }

  lemma RejectEnds(m: Messages)
    ensures StageEnds(FirstReview(m))
  {
    assert Reject(m) in FirstReview(m).actions && Always(CloseApplication(REJECTED)) in Reject(m).effects;
  }

  lemma NoPresenceIsWrong(m: Messages, s: Stage)
    requires s in Stages(m)
    ensures forall k :: k in s.presenceFlags ==> OrdinaryFault(MissionSep(m), k).None?
  {
    SepDeclares(m);
  }

  lemma NoActionIsWrong(m: Messages, s: Stage, a: Action, p: ActionProblem)
    requires s in Stages(m) && a in s.actions
    ensures !IsActionProblem(MissionSep(m), s, a, p)
  {
    SepDeclares(m);
    if s == FirstReview(m) {
      FirstReviewFits(MissionSep(m), m, a, p);
    } else if s == Department(m) {
      DepartmentFits(MissionSep(m), m, a, p);
    } else {
      assert SBI_BANK != TTC && TGB_BANK != TTC;
      BankFits(MissionSep(m), s.key, m, a, p);
    }
  }

  lemma NoStageIsWrong(m: Messages, s: Stage)
    requires s in Stages(m)
    ensures NothingWrongAt(MissionSep(m), s)
  {
    ActionKeysDiffer(m, s);
    EachStageIsLeft(m, s);
    EachStageIsReached(m, s);
    NoPresenceIsWrong(m, s);
    forall a, p | a in s.actions ensures !IsActionProblem(MissionSep(m), s, a, p) { NoActionIsWrong(m, s, a, p); }
  }

  lemma SepKeysApart(m: Messages)
    ensures KeysApart(MissionSep(m))
  {
    StageKeysDiffer(m);
    FlagKeysDiffer();
    RecordedKeysDiffer();
  }

  lemma SepEntryIsRight(m: Messages)
    ensures EntryIsRight(MissionSep(m))
  {
    SepDeclares(m);
    SepStages(m, FirstReview(m));
  }

  /** The shipped pipeline passes its own validation, whatever its notices say. */
  lemma MissionSepIsSound(m: Messages)
    ensures Sound(MissionSep(m))
  {
    var d := MissionSep(m);
    SepKeysApart(m);
    SepEntryIsRight(m);
    forall s | s in d.stages ensures NothingWrongAt(d, s) { NoStageIsWrong(m, s); }
    RejectEnds(m);
    SoundStageByStage(d, FirstReview(m));
  }
}
