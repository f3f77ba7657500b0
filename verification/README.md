# Verification of the case-file pipeline and its neighbours

Dafny models of the programme's application server, with proofs about every input, every run and every
interleaving.

- **The pipeline** is the core: a configured state machine that works an application from submission to its end.
  `PipelineDefinitions`, `PipelineEffects` and `PipelineEngine` decide what one action does, `PipelineRecords` what it
  leaves behind, `PipelineConditions` what a condition means, `ActionInputs` and `ActionInputValues` what an action
  may be given; `PipelineValidation` says what is wrong with a configuration; `PipelineRuns`, `PipelineTrails`,
  `PipelinePresence` and `SoundDocuments` say what validation buys over every run; `CaseFileWrites` adds officers and
  the applicant acting at once under version-guarded writes; `MissionSepPipeline`, `MissionSepRuns`,
  `MissionSepLoans`, `MissionSepRecords` and `MissionSepHistory` take the shipped configuration through all of it;
  `PipelineOddities` holds one small valid configuration that shows where promises stop; `PipelineSoundness` is how a
  document is shown to be valid.
- **Graphs and documents**: the circle check on a form's visibility rules (`VisibilityRules`, over `Graphs`),
  the cost of a GraphQL document, the fields it collects and the rate-limited operations it hides
  (`DocumentCost`, `CollectedFields`, `RateLimitedFields`, over `GraphqlDocuments`), and reusable form
  structures expanded to flat rows (`GroupDefinitions`).
- **One connection**: transactions kept apart by a promise chain (`ConnectionBatches`, `BatchOutcomes`) and the
  browser's query queue (`QueryCoalescing`).
- **Arithmetic and text**: whole calendar months (`CalendarMonths`), LIKE escaping (`PrefixSearch`), CSV export
  (`AuditCsv`), wrapping and pagination (`ConfirmationText`).

Code that works step by step is a method, with its loop and invariants, or a class, proved against a
specification function; what the system promises is then proved of that function. `dafny verify dfyconfig.toml`
checks the whole project.

## Where the code and its documentation part

- `definition.ts:117-120` says the validator lets only a revision request add a flag that lets the applicant edit. An
  ending may too: the rules for endings ask only that their flag is terminal, and such a flag may be terminal.
  `PipelineOddities.AnEndingMayAddAnEditable` is the document and the run; `PipelineRuns.EditableAfterTake` is
  exactly when it happens; `PipelineRuns.OnlyARevisionAddsAnEditable` holds where no ending names such a flag. What
  `validate.ts:13-14` protects holds all the same, for the right to edit comes from open revision requests
  (`application.ts:592-621`): `PipelineRuns.PenIsHeldSinceARevision`.
- The same lines say only resubmission removes such a flag. Withdrawing the last open request does as well
  (`controllers/stage.ts:538-540`): `PipelineRuns.EditableIsLostBy`.
- `definition.ts:108` calls presence flags held exactly while a file is at their stage. Submission adds only the
  flags the document names (`application.ts:1712-1718`), so the entry stage's presence flags are missing unless
  named there too, and a flag two joined stages share is lost on the move between them.
  `PipelinePresence.PresenceFollowsTheStageIffSubmitted` and `PipelinePresence.TakeKeepsPresenceExactly` are the exact
  conditions.
- An ending may remove its own terminal flag in the same action, because removal wins and nothing refuses it:
  `PipelineRuns.EndedFlagIsHeldUnlessRemoved`.
- Replaying the history's added and removed flags does not rebuild the flags of a file that has come back from a
  correction: resubmissions and withdrawn requests write no history row.
  `MissionSepHistory.ClosedCorrectionsLeaveNoRow` is such a run of the shipped pipeline;
  `CaseFileWrites.HistoryRebuildsTheFile` is the exact condition, and
  `CaseFileWrites.HistoryRebuildsWhileACorrectionIsOpen` what it comes to where only revision requests add such flags.
- `answers.ts:125-129` says that one pass of pruning hidden answers leaves some behind; the code's own comment
  (`answers.ts:140-147`) says one is always enough. For questions outside repeated groups it is:
  `ActionInputs.PruneHidden`.
- Month arithmetic goes through `Date.UTC`, which reads years 0 to 99 as 1900 to 1999:
  `CalendarMonths.ShiftLandsIffNotTwoDigitYear` and `CalendarMonths.FullUtcCalendarMonths` say exactly when that shows,
  and `CalendarMonths.AWholeMonthIsMissed` is a case of it.

## Model

| member | source | states |
|---|---|---|
| `PipelineEngine.FiredFragments` | src/services/pipeline/engine.ts:109-123 | the loop over an action's effects gives, in order, the fragments of exactly those whose conditions hold, or the first refusal among them |
| `PipelineEngine.FiredInOrder` | src/services/pipeline/engine.ts:108-123 | effects are planned in order: the fragments of a list are those of its first part and then its second, and the first refusal stands |
| `PipelineEngine.EffectBehind` | src/services/pipeline/engine.ts:114-122 | every fragment is what some effect of the action, whose conditions hold, plans |
| `PipelineEngine.FragmentOf` | src/services/pipeline/engine.ts:115-121 | every effect whose conditions hold is planned, and its fragment is among those that count |
| `PipelineEngine.FlagChanges` | src/services/pipeline/engine.ts:149-166 | the sets grown and shrunk step by step are the effects' own flags, the ending's, the revision's and the presence flags of the stages left and entered, with every removal winning |
| `PipelineEngine.PlanAction` | src/services/pipeline/engine.ts:172-219 | one whole plan or one refusal, never part of a plan; everything below is proved of the plan it gives |
| `PipelineEngine.WrittenFlagsAreThePlans` | src/services/pipeline/controllers/stage.ts:223-227 | the flags the controller rebuilds from what the plan says it added and removed are the plan's own flags, and added, removed and held never overlap |
| `PipelineEngine.DestinationComesFromAnEffect` | src/services/pipeline/engine.ts:128-142 | each way a plan can go (push, pop, stay, end) traced to the configured effect that says so; a revision never accompanies a move; a pop goes to the last stage of the trail |
| `PipelineEngine.HeldFlagsComeFrom` | src/services/pipeline/engine.ts:156-163 | the only five ways a flag can be held after a plan |
| `PipelineEngine.LostFlagsGoTo` | src/services/pipeline/engine.ts:157-164 | a flag the plan should hold is missing only because a firing removal names it or the stage left lists it |
| `PipelineEngine.RemovalWins` | src/services/pipeline/engine.ts:144-148 | a flag a firing removal names, or the stage left lists, is not held, whatever adds it |
| `PipelineEngine.AdditionHolds` | src/services/pipeline/engine.ts:156-165 | an addition that fires is held unless something in the same plan removes the same flag |
| `PipelineEngine.MovingEffectDecides` | src/services/pipeline/engine.ts:187-197 | a moving effect that fires is where the plan goes: where its own move leads from this stage and trail, with no other firing beside it |
| `PipelineEngine.RevisionEffectDecides` | src/services/pipeline/effects/request-revision.ts:13-24 | a revision request that fires is what the plan asks for, with the file left where it is |
| `PipelineEngine.RecordedComesFromAnEffect` | src/services/pipeline/engine.ts:213 | a value is recorded only under a name some recording effect of the action targets |
| `PipelineEngine.RecordedAmountsAreBounded` | src/services/pipeline/effects/set-recorded-value.ts:39-64 | an amount recorded is the officer's input, at most the answer the effect names and at most the cycle's ceiling where the effect asks for it, however effects are merged |
| `PipelineEffects.MoveOfEffect` | src/services/catalogue/workflow.generated.ts:150-280 | each handler's fragment moves, ends, returns or asks for a revision exactly as the catalogue's `exclusive` and `terminal` entries say |
| `PipelineEffects.RecordedOfEffect` | src/services/pipeline/effects/set-recorded-value.ts:39-64 | the recording handler writes one name only, from its own input, within its bounds |
| `PipelineEffects.RecordingRefusesIff` | src/services/pipeline/effects/set-recorded-value.ts:39-64 | a recording effect refuses if and only if its input is an amount outside its bounds, with which refusal in which case; otherwise it records exactly what the officer gave, where anything was given |
| `PipelineEffects.PermissionsSayWhatIsDone` | src/services/pipeline/engine.ts:60-63 | each permission is needed by an action if and only if some effect does what it is for: closing, returning, asking for a revision, noting, deciding (outcome flags and recorded values), advancing (the rest); telling the applicant needs none |
| `PipelineRecords.RecordedIsTheLast` | src/services/pipeline/engine.ts:213 | of a plan that goes through, a value is recorded under a name if and only if some firing effect was given one for it, and it is what the last such effect was given |
| `PipelineRecords.EverythingIsToldAndNoted` | src/services/pipeline/engine.ts:215-216 | a plan holds every firing notice and every firing trimmed note, in order, and none besides |
| `PipelineRecords.GoesWhereTheMoveSays` | src/services/pipeline/engine.ts:125-142 | a firing move leads to its target, to the stage the officer's choice is routed to, to the last stage of the trail, or to no stage |
| `PipelineConditions.OperandIsInItsPlace` | src/services/pipeline/condition-sources.ts:12-40 | a condition reads the answer, held flag, recorded value or input it names, and has something to read in every state or in none |
| `PipelineConditions.ComparisonLaws` | src/services/application/form/conditions.ts:36-70 | an unanswered operand satisfies only IS_ABSENT; an answered one equals or does not equal, never both or neither; a list equals each text in it |
| `PipelineConditions.NumbersKeepApart` | src/services/application/form/conditions.ts:65-69 | two numbers are compared as the same text if and only if they are the same number |
| `PipelineConditions.AnyWholeGroupIsEnough` | src/services/application/form/conditions.ts:94-107 | conditions hold if and only if there are none or some whole group of them holds |
| `PipelineValidation.ReachableStages` | src/services/pipeline/validate.ts:145-159 | the work list ends with exactly the stages some route of configured moves reaches: the least set that holds the entry stage and is closed under moves |
| `PipelineValidation.AddTargets` | src/services/pipeline/validate.ts:152-156 | each target not reached before is reached and queued once |
| `PipelineValidation.ReachedIsLeast` | src/services/pipeline/validate.ts:144-159 | a set closed under moves and made of reachable stages is exactly the reachable stages, and no closed set is smaller |
| `PipelineValidation.ActionProblems` | src/services/pipeline/validate.ts:70-134 | the problems of one action are found, all of them and nothing else, a missing permission only where nothing else is wrong |
| `PipelineValidation.EffectProblems` | src/services/pipeline/validate.ts:94-124 | every condition, parameter and rule fault of every effect, with exact counts of moves and revisions |
| `PipelineValidation.StageProblems` | src/services/pipeline/validate.ts:192-205 | the problems of one stage and of each of its actions, exactly |
| `PipelineValidation.PipelineProblems` | src/services/pipeline/validate.ts:167-217 | a document's problems are found all at once: a problem is listed if and only if the document has it |
| `PipelineConditions.FaultIffNothingToRead` | src/services/pipeline/validate.ts:48-66 | a condition is at fault if and only if no state of a file and no inputs ever give it anything to compare, or it reads an input before there are any |
| `PipelineConditions.ConditionProblemIffNothingToRead` | src/services/pipeline/validate.ts:90-101 | the same of every problem listed for a condition of an action's availability, effects or inputs |
| `SoundDocuments.FlagFaultSays` | src/services/pipeline/validate.ts:180-186 | which fault a flag held while the file is worked has: undeclared, ending, letting the applicant edit, or none, in that order |
| `PipelineConditions.EveryConditionReads` | src/services/pipeline/condition-sources.ts:5-7 | in a document with no problems every condition of every action has something to compare, in every state and with any inputs |
| `PipelineConditions.PresentOrAbsent` | src/services/pipeline/condition-sources.ts:5-7 | so of such a condition, IS_PRESENT and IS_ABSENT never both fail: none is silently never true |
| `SoundDocuments.SoundNames` | src/services/pipeline/validate.ts:173-195 | in a document with no problems no two recorded values, actions of a stage or inputs of an action share a key |
| `SoundDocuments.SoundStages` | src/services/pipeline/validate.ts:199-210 | every stage is reachable, and some action of it moves files on |
| `SoundDocuments.SoundInputs` | src/services/pipeline/validate.ts:83-89 | every choice offers something, and every default from a recorded value names one there is |
| `SoundDocuments.EveryRouteIsOffered` | src/services/pipeline/effects/move-by-choice.ts:15-27 | every route of a choice can be chosen |
| `SoundDocuments.NotesAreText` | src/services/pipeline/effects/add-internal-note.ts:8-15 | with accepted inputs, what an officer writes as a note is text, so never passed over |
| `SoundDocuments.RecordedIsAsDeclared` | src/services/pipeline/effects/set-recorded-value.ts:16-64 | on every run of accepted inputs, whatever is recorded is declared and of its declared type, and was given to an action of the file's own stage; where that names a bound it is an amount within it |
| `PipelineRecords.RecordedWasGiven` | src/services/pipeline/queries/stage.ts:486 | on every run, whatever a file holds recorded is what some action offered where the file then was was given for it, within its bounds |
| `PipelineRecords.RecordedAfterStep` | src/services/pipeline/queries/stage.ts:486 | a step replaces exactly the recorded values its plan records |
| `PipelineRecords.AnswersAreTheLatest` | src/services/application/queries/application.ts:1721-1747 | on every run the answers conditions and bounds read are those last sent, with a resubmission or the submission |
| `PipelineRuns.SoundFlags` | src/services/pipeline/validate.ts:13-15 | in a document with no problems, what flags additions, endings, revisions and removals can name |
| `PipelineRuns.SoundMove` | src/services/pipeline/validate.ts:137-142 | in a document with no problems, every configured move leads to another declared stage |
| `PipelineRuns.NeverIncompatible` | src/services/pipeline/engine.ts:189-194 | of a document with no problems, no action is ever refused as doing two incompatible things, whichever of its effects fire; and a missing earlier stage is reported only for an empty trail |
| `PipelineRuns.StackAfter` | src/services/pipeline/engine.ts:128-142 | for any document, how a plan changes the trail with the current stage on top: push, pop, or unchanged |
| `PipelineRuns.EveryRunIsSafe` | src/services/pipeline/engine.ts:10-18 | on every run of a document with no problems: current stage and whole trail reachable, each a configured move from the last; a terminal flag only at no stage; the applicant holds the file while a correction is open, and otherwise only where it ended holding an editable flag; at most one such flag held |
| `PipelineRuns.ChoiceIsRefusedIffUnanswered` | src/services/pipeline/effects/move-by-choice.ts:4-6 | with inputs its form accepts, a choice of stage is refused if and only if it was left unanswered: no offered option leads nowhere |
| `PipelineRuns.NothingFollowsAnEnding` | src/services/pipeline/definition.ts:117-118 | a file that holds a terminal flag is offered nothing more: no action, no resubmission, no withdrawal |
| `PipelineRuns.EditableAfterTake` | src/services/pipeline/engine.ts:201-203 | exactly which flags that let the applicant edit are held after an action: the one a revision adds and the one an ending names |
| `PipelineRuns.EditableIsGainedBy` | src/services/pipeline/definition.ts:117-120 | on every run, such a flag is newly held only after a revision request with it that leaves stage and trail alone, or an ending that names it |
| `PipelineRuns.OnlyARevisionAddsAnEditable` | src/services/pipeline/definition.ts:117-120 | where no ending names such a flag, only a revision request adds one |
| `PipelineRuns.EditableIsLostBy` | src/services/application/queries/application.ts:1721-1747 | on every run, a held one is lost if and only if the step resubmits or withdraws the last open request: exactly when no correction stays open |
| `PipelineRuns.HeldExactlyWhileOpen` | src/services/application/queries/application.ts:1726-1729 | where no ending names such a flag, one is held on every run exactly while a correction is open |
| `PipelineRuns.OnlyARevisionOpensCorrections` | src/services/application/queries/application.ts:595-598 | for any document, corrections are opened only by a revision request, as many as it names, and it leaves stage and trail alone |
| `PipelineRuns.PenIsHeldSinceARevision` | src/services/pipeline/validate.ts:13-14 | on every run of a document with no problems, the applicant may edit exactly since some revision request with nothing but withdrawals after it, fewer of them than it named; and what it named less those is what is open |
| `PipelineRuns.EveryActionNeedsAPermission` | src/services/pipeline/validate.ts:16-17 | no action of a document with no problems can be taken without some permission |
| `PipelineRuns.EndedFlagIsHeldUnlessRemoved` | src/services/pipeline/engine.ts:158-164 | an ending leaves its own flag held if and only if no firing removal of the same action names that flag |
| `PipelineRuns.SomeRouteEnds` | src/services/pipeline/validate.ts:211-214 | a document with no problems has a route of configured moves to a stage an action can end from |
| `PipelineTrails.BracketsMatch` | src/services/pipeline/registry.ts:62-63 | for any document, any balanced run of moves and returns, with other actions, resubmissions and withdrawals among them, ends at the stage and trail it began with |
| `PipelineTrails.StackIsKeptUnderneath` | src/services/pipeline/engine.ts:128-142 | a run that never returns past where it began keeps the whole trail it began with underneath, however deep it goes |
| `PipelineTrails.ReturnIsRefusedExactlyAtAnEmptyTrail` | src/services/pipeline/engine.ts:135-140 | an action whose return fires and whose other effects go through is refused if and only if the trail is empty, and otherwise goes to the last stage of the trail |
| `PipelineTrails.NoReturnIsEverRefused` | src/services/pipeline/effects/return-to-previous.ts:14-17 | on every run of a document with no problems, no action is ever refused for want of an earlier stage |
| `PipelineTrails.MovesChangeTheStage` | src/services/pipeline/validate.ts:136-142 | on every run, an action that moves or returns a file leaves it at another stage |
| `PipelinePresence.PresenceAfterAMove` | src/services/pipeline/engine.ts:160-164 | for any document and plan that changes stage: nothing the stage left lists is held, and what the stage entered lists is held exactly when the stage left does not list it and no firing removal names it |
| `PipelinePresence.TakeKeepsPresenceExactly` | src/services/pipeline/engine.ts:160-163 | an action keeps the presence flags right if and only if the stages it joins share none |
| `PipelinePresence.PresenceFollowsTheStageIffSubmitted` | src/services/pipeline/definition.ts:108-109 | over every run a presence flag is held exactly while the stage lists it, if and only if submission itself adds the entry stage's presence flags |
| `PipelineOddities.OddIsSound` | src/services/pipeline/validate.ts:167-217 | a concrete document nothing is wrong with, the witness of the four limits below |
| `PipelineOddities.AnEndingMayLeaveNoMark` | src/services/pipeline/definition.ts:117-118 | a run of it that ends with no terminal flag held |
| `PipelineOddities.AnEndingMayAddAnEditable` | src/services/pipeline/definition.ts:117-120 | a run of it in which an ending, and no revision request, adds an editable flag, with no correction open |
| `PipelineOddities.PresenceMayBeMissingOnEntry` | src/services/pipeline/definition.ts:108-109 | its submission at a stage whose presence flag is not held |
| `PipelineOddities.SharedPresenceIsLost` | src/services/pipeline/engine.ts:144-148 | a move of it between two stages that share a presence flag, which is lost |
| `PipelineOddities.SomeStagesNeverEnd` | src/services/pipeline/validate.ts:207-214 | it has stages from which no run ever ends: validation promises only that some route can |
| `PipelineSoundness.SoundStageByStage` | src/services/pipeline/validate.ts:167-217 | a document whose keys differ, whose entry is right, with nothing wrong at any stage and some stage that ends, has no problem at all |
| `MissionSepPipeline.MissionSepIsSound` | src/services/pipeline/example.ts:137-271 | the shipped pipeline has no problem, whatever its notices say |
| `MissionSepPipeline.SepMoves` | src/services/pipeline/example.ts:177-256 | its configured moves are exactly TTC to Industries & Commerce, and from there to either bank |
| `MissionSepRuns.EveryMissionSepFileIsOnCourse` | src/services/pipeline/example.ts:137-271 | every file, however worked: the trail is the one way to its stage; BANKING_STAGE exactly at a bank; IN_REVIEW exactly while at a stage; LOAN_APPROVED only with COMPLETED; a recorded grant only with GRANT_APPROVED and never over the cycle's ceiling |
| `MissionSepRuns.GrantIsRecordedOnce` | src/services/pipeline/example.ts:214-232 | once a grant is recorded, no step changes it |
| `MissionSepRecords.ApprovedGrantIsRecorded` | src/services/pipeline/example.ts:214-232 | after APPROVE_GRANT with accepted inputs, on any run, the file holds recorded the amount approved, at least one paisa, and GRANT_APPROVED |
| `MissionSepRecords.GrantsApprovedAreRecorded` | src/services/pipeline/example.ts:214-232 | on every run of accepted inputs GRANT_APPROVED is held if and only if a grant amount is recorded |
| `MissionSepRecords.SanctionedByThen` | src/services/pipeline/example.ts:97-117 | on every run, the sanction date a file holds is a real date no later than the moment it was entered |
| `MissionSepRuns.MissionSepNeverRefusesAReturn` | src/services/pipeline/example.ts:37-48 | no file of it is ever refused a return, nor any action for contradicting itself |
| `MissionSepLoans.LoanIsApprovedIffOnOffer` | src/services/pipeline/example.ts:93-134 | some run, every action taken with inputs its form accepts, takes a file to LOAN_APPROVED at no stage with given answers, if and only if they ask for a loan and give an amount of at least one paisa |
| `MissionSepLoans.ApprovedLoansAreOnOffer` | src/services/pipeline/effects/set-recorded-value.ts:44-55 | on every run of accepted inputs, from any answers and through any resubmissions, LOAN_APPROVED is held only while the answers ask for a loan and give its amount |
| `MissionSepHistory.MissionSepHistoryRebuilds` | src/services/pipeline/queries/stage.ts:496-510 | after any interleaving, replaying its rows gives the flags if and only if nobody has asked for a correction, or one is open now |
| `MissionSepHistory.ClosedCorrectionsLeaveNoRow` | src/services/application/queries/application.ts:1721-1747 | a correction asked for and then resubmitted, or withdrawn, leaves REVISION_REQUIRED in what the rows rebuild and not on the file |
| `ActionInputs.TopologicalOrder` | src/services/application/form/template.ts:81-102 | an order of the inputs in which everything an input's visibility reads comes before it, and none if and only if some conditions lead in a circle |
| `ActionInputs.ResolvedOrder` | src/services/pipeline/inputs.ts:89-91 | the inputs form a form if and only if their keys differ, every condition reads an input that has a value, and no conditions lead in a circle |
| `ActionInputs.VisibleFields` | src/services/application/form/conditions.ts:130-159 | one pass in that order finds a set of inputs in which each is shown exactly when its conditions hold of what is shown |
| `ActionInputs.OneVisibleSet` | src/services/application/form/conditions.ts:14-22 | there is only one such set: what is shown depends on the values alone |
| `ActionInputs.PruneOnce` | src/services/application/form/answers.ts:150-187 | one pass keeps what is shown, empties what is hidden, and tells whether it took an answer |
| `ActionInputs.PruneHidden` | src/services/application/form/answers.ts:134-194 | however the conditions chain, pruning to a fixed point gives what its first pass gives, and shows the same inputs |
| `ActionInputs.NormalizeAnswers` | src/services/application/form/engine.ts:217-278 | values come back if and only if every input reads as its type and keeps to its bounds, and then they are those readings |
| `ActionInputs.ValidateActionInputs` | src/services/pipeline/inputs.ts:119-140 | inputs are taken as some values if and only if the form resolves, no unknown key was sent, every value is well formed, all fit the size allowed, what is shown is complete and nothing hidden is answered |
| `ActionInputValues.ReadingIsProper` | src/services/application/form/coerce.ts:137-214 | for every type, a value is what the engine reads and lets through if and only if it is proper: text cleaned and of allowed length; a real date between its bounds, not after now or not before today's midnight; an amount or whole number in range; a yes or no; an offered option; the distinct offered options chosen, in option order, not too many |
| `ActionInputValues.ValidatedIsFitting` | src/services/pipeline/inputs.ts:97-140 | inputs are taken as some values if and only if the form resolves, nothing else was sent, every value is proper for what was sent (or for nothing), at most 32 kibibytes in all, what is shown is filled in as required and what is hidden is blank |
| `ActionInputValues.WhatAFormIs` | src/services/application/form/template.ts:142-166 | inputs form a form if and only if no two share a key, each condition reads an input that takes a value, and they can be numbered so that each comes after all it reads |
| `ActionInputValues.AnyWholeGroupShows` | src/services/application/form/conditions.ts:109-122 | an input is shown if and only if it has no conditions or some whole group of them compares |
| `ActionInputValues.HiddenReadsAsUnanswered` | src/services/application/form/conditions.ts:138-148 | of a hidden input only IS_ABSENT compares; a shown one is read as it is |
| `ActionInputs.HiddenIsEmpty` | src/services/pipeline/inputs.ts:114-117 | an effect never reads what the officer was not asked: among accepted values a hidden input's is empty |
| `ActionInputs.AcceptedValue` | src/services/application/form/rules.ts:66-88 | an accepted amount is within its bounds, an accepted choice is one of its options, and a required input always shown is answered |
| `CaseFileWrites.DecidedOnTheHeadIsStepped` | src/services/pipeline/queries/stage.ts:473-564 | reading, deciding and writing with nothing between is exactly the step, for actions, withdrawals and resubmissions alike |
| `CaseFileWrites.WriteLandsIffCurrent` | src/services/pipeline/queries/stage.ts:487-494 | in any interleaving a write lands if and only if its request read the version the file now has, and then the file takes that request's own step |
| `CaseFileWrites.OnlyOneLands` | src/db/index.ts:109-118 | of two requests that read the same version, the second to write writes nothing |
| `CaseFileWrites.CommitsAsSeen` | src/services/pipeline/controllers/stage.ts:349-353 | in every interleaving, when a request commits, the version on the screen it was made from is the version the file has at that moment |
| `CaseFileWrites.OneCommitFromEachScreen` | src/services/pipeline/controllers/stage.ts:349-353 | of all requests made from one version's screen, whenever each is read, at most one ever commits |
| `CaseFileWrites.EveryInterleavingIsSerial` | src/db/index.ts:55-81 | every interleaving of reads, decisions and guarded writes leaves the file, version and history of a serial run of the committed steps, each decided on the very state it was applied to |
| `CaseFileWrites.EverySerialRunHappens` | src/db/index.ts:55-81 | and every serial run is such an interleaving, so the heads reached are exactly those of serial runs |
| `CaseFileWrites.EveryInterleavingIsSafe` | README.md:92-94 | however many act at once, a file of a document with no problems stays safe |
| `CaseFileWrites.RowsAreInOrder` | src/services/pipeline/queries/stage.ts:496-510 | the history has at most one row for each version, in strictly increasing order |
| `CaseFileWrites.HistoryRebuildsTheFile` | src/services/pipeline/queries/stage.ts:496-510 | replaying the rows gives stage and recorded values exactly, and the flags if and only if the rows added no editable flag, or one only and the file awaits the applicant now; all other flags always |
| `CaseFileWrites.AddedIffAsked` | src/services/pipeline/queries/stage.ts:496-510 | where no ending names an editable flag, the rows added one if and only if some step asked for a revision |
| `CaseFileWrites.HistoryRebuildsWhileACorrectionIsOpen` | src/services/pipeline/queries/stage.ts:496-510 | there, replay gives the flags if and only if nobody asked for a correction, or one is open and only its flag was ever asked with |
| `VisibilityRules.CollectDependencies` | src/services/admin/form-template-input.ts:749-754 | the map built by the two loops is the dependency graph of the rules over declared questions |
| `VisibilityRules.HasVisibilityCycle` | src/services/admin/form-template-input.ts:748-768 | true exactly when some chain of rules leads from a question back to itself, false exactly when the questions can be numbered so that each follows all it waits on |
| `VisibilityRules.SettlePass` | src/services/admin/form-template-input.ts:758-765 | one pass settles questions in order, and either settles one more or finds none ready |
| `Graphs.UnsettledIsCyclic` | src/services/admin/form-template-input.ts:740-747 | what is left when a whole pass settles nothing contains a cycle |
| `Graphs.AcyclicIffNumbered` | src/services/admin/form-template-input.ts:740-747 | a finite graph has no cycle if and only if it can be numbered along its edges |
| `GraphqlDocuments.InlineUnique` | src/graphql/validation.ts:97-103 | the inlined response does not depend on how fragments are ordered |
| `DocumentCost.MeasureSelectionSet` | src/graphql/validation.ts:121-131 | the stateful measure ends with `seen` exactly as it began, on any fragments, cyclic ones included, and gives the cost specified |
| `DocumentCost.MeasureSpread` | src/graphql/validation.ts:163-181 | the same of a spread, which adds to and deletes from `seen` |
| `DocumentCost.CostIsInlinedSize` | src/graphql/validation.ts:155-162 | with no fragment cycle, the cost is the number of fields and the height of the fully inlined response, every spread counted wherever it is used |
| `DocumentCost.DocumentCostProblems` | src/graphql/validation.ts:183-233 | an operation is refused exactly when its inlined response has over 500 fields or is over 12 deep, introspection apart |
| `CollectedFields.CollectFields` | src/graphql/validation.ts:18-48 | entering each fragment once over the whole call: what is newly entered is reachable from here, all it spreads is entered too, and the fields of each are collected once |
| `CollectedFields.AllFields` | src/graphql/validation.ts:13-17 | the fields collected are those of the selections and of every fragment unrestricted expansion reaches, each as often as it is written there, for any fragments, cyclic ones included |
| `GraphqlDocuments.AnsweredUnderItsAlias` | src/graphql/rate-limit.ts:90-105 | a field of the inlined response is answered under its alias where it has one, and otherwise under its name |
| `DocumentCost.OnlyIntrospectionIsExempt` | src/graphql/validation.ts:183-233 | an operation stays exempt if and only if everything selected at its top is a field whose name begins with two underscores |
| `RateLimitedFields.FieldsIn` | src/graphql/rate-limit.ts:90-105 | one field for each top-level field of the inlined response, in order |
| `RateLimitedFields.LimitedFields` | src/graphql/rate-limit.ts:122-158 | the operations found, with their response paths and in order, are those of the fully inlined document |
| `RateLimitedFields.FoundExactlyTheShortest` | src/graphql/rate-limit.ts:107-121 | a path is found if and only if it occurs, is limited, and no shorter part of it is |
| `RateLimitedFields.AliasesHideNothing` | src/graphql/rate-limit.ts:110-113 | renaming every field of a document finds the same operations in the same order |
| `CalendarMonths.DateUtcTime` | src/services/application/validation.ts:81-91 | `Date.UTC` with any month and day gives the time value ECMA-262 section 21.4.1 does |
| `CalendarMonths.TimeBeginsIn1970` | src/services/application/validation.ts:72-74 | time values are counted from the first midnight of 1970 (ECMA-262 section 21.4.1) |
| `CalendarMonths.TimeDeterminesDate` | src/services/application/validation.ts:72-74 | a time value is one date and no other |
| `CalendarMonths.AddUtcCalendarMonths` | src/services/application/validation.ts:79-94 | the day-zero construction and the clamp give the same day and time that many months on, or the last day of that month |
| `CalendarMonths.ShiftLandsIffNotTwoDigitYear` | src/services/application/validation.ts:79-94 | the months land where they should if and only if the year is not 0 to 99 |
| `CalendarMonths.ShiftIsStrictlyIncreasing` | src/services/application/validation.ts:79-94 | more months always give a later time, across leap years and year ends |
| `CalendarMonths.FullUtcCalendarMonths` | src/services/application/validation.ts:96-103 | the count is the number of whole calendar months if and only if the first year is not 0 to 99, or the second date is in no later month, or the last month between them is not complete; and the greatest number `addUtcCalendarMonths` fits exactly outside those years or under two months apart |
| `CalendarMonths.AWholeMonthIsMissed` | src/services/application/validation.ts:96-103 | from 15 January to 20 February of the year 50 a whole month passes, and the count is 0 |
| `CalendarMonths.ParsesExactlyRealDates` | src/services/application/validation.ts:65-77 | text is accepted if and only if it is how a real date of years 100 to 9999 is written, and gives that date |
| `PrefixSearch.ThreePassesEscapeEachOnce` | src/services/search.ts:46-49 | the three successive passes equal one escape of each character |
| `PrefixSearch.PatternMatchesExactlyThePrefix` | src/services/search.ts:43-61 | a string is LIKE the pattern if and only if it starts with the normalised term |
| `PrefixSearch.LongTermsAreCut` | src/services/search.ts:43-61 | a term is searched for trimmed, lower-cased and cut to 64 characters, and only a blank one gives no pattern |
| `AuditCsv.ExportReadsBack` | src/services/audit/csv.ts:78-79 | reading the whole export with an RFC 4180 section 2 reader gives back the header and every record, for any cell contents |
| `AuditCsv.FileReadsBack` | src/services/audit/csv.ts:19-23 | the same for any header of plain names |
| `AuditCsv.EveryCellReadsBack` | src/services/audit/csv.ts:7-23 | row by row and place by place, a field reads back as its cell, or as an apostrophe and its cell where that begins with one of the six formula characters |
| `AuditCsv.QuotedOnlyWhereItMustBe` | src/services/audit/csv.ts:19-23 | a field is quoted if and only if it holds a quote, a comma or a line break |
| `AuditCsv.NoFieldIsAFormula` | src/services/audit/csv.ts:7-12 | no field read back after the header begins with a formula character |
| `ConfirmationText.BreakWord` | src/services/application/confirmation.ts:131-141 | a word too wide for the page is broken without losing a character, each piece fitting or a single character |
| `ConfirmationText.WrapLines` | src/services/application/confirmation.ts:109-146 | for any width function: every non-space character once and in order; each line fits, is one character, or is the one empty line; and each line ends where the text continues at a word, or at a character of a word too wide for any line, that would not have fitted on it |
| `ConfirmationText.Writer.Gap` | src/services/application/confirmation.ts:191-193 | moves the cursor down and draws nothing |
| `ConfirmationText.Writer.Write` | src/services/application/confirmation.ts:148-171 | each wrapped line drawn once, in order, below the last or at the top of a new page |
| `ConfirmationText.InsideTheMarginsIffSizeFits` | src/services/application/confirmation.ts:158-162 | no line is below the bottom margin if and only if a line of this size fits a page |
| `ConfirmationText.DrawnInReadingOrder` | src/services/application/confirmation.ts:157-170 | a later line is on a later page, or lower on the same page by at least its size and the gap |
| `GroupDefinitions.MembersProblem` | src/services/admin/group-definitions.ts:60-98 | no fault if and only if every member is sound and no key repeats |
| `GroupDefinitions.DefinitionProblem` | src/services/admin/group-definitions.ts:32-58 | no fault if and only if every structure is sound, few enough and distinct |
| `GroupDefinitions.StructureUseProblem` | src/services/admin/group-definitions.ts:100-136 | no fault if and only if every use is sound and no rule touches a derived key |
| `GroupDefinitions.ExpandGroupDefinitions` | src/services/admin/group-definitions.ts:144-194 | succeeds if and only if there is nothing to expand, or definitions, uses and every derived key are sound; and then puts each structure's rows after its use |
| `GroupDefinitions.ExpandedKeysAreDistinct` | src/services/admin/group-definitions.ts:172-175 | no two questions of the expanded form share a key |
| `GroupDefinitions.MembersFollowTheirUse` | src/services/admin/group-definitions.ts:162-182 | each use is followed at once by exactly its structure's members, in order, in its stage and under it |
| `GroupDefinitions.MemberRowIsTheMember` | src/services/admin/group-definitions.ts:166-182 | a derived row is named after its use and member, in the use's stage and under it, with the member's type, role and shape, and is no use itself |
| `GroupDefinitions.MemberOptionsAreTheMembers` | src/services/admin/group-definitions.ts:183-190 | the options under a derived row's key are its member's, in order and of its type |
| `GroupDefinitions.NamedIsTheOneWithTheKey` | src/services/admin/group-definitions.ts:100-112 | where structures' keys differ, the one found under a key is the one that has it |
| `GroupDefinitions.KeysGrowByOne` | src/services/admin/group-definitions.ts:21 | what a key is, one character at a time: a capital, then one to 63 capitals, digits and underscores |
| `GroupDefinitions.DerivedKeyIsAKey` | src/services/admin/group-definitions.ts:166-175 | a derived key is a key if and only if it is short enough |
| `GroupDefinitions.ReadingUndoesExpansion` | src/services/admin/controllers/form-template.ts:142-226 | reading an expanded form back drops every derived row and its options: the questions are as authored, and the whole form is if and only if each of its options was of one of its questions |
| `ConnectionBatches.EveryScheduleIsSerial` | src/db/index.ts:142-164 | in every schedule of calls and continuations the log is the calls' own blocks, one after another in order of arrival |
| `ConnectionBatches.NothingInterleaves` | src/db/index.ts:144-148 | nothing one call sends falls between two things another sends |
| `ConnectionBatches.EveryCallIsWhole` | src/db/index.ts:127-139 | a call that succeeded sent BEGIN, its statements once in order and COMMIT; one that failed sent nothing, a refused BEGIN, or a transaction cut short and ROLLBACK |
| `ConnectionBatches.FirstUnsettledAlwaysMoves` | src/db/index.ts:159-164 | however earlier calls ended, exactly the first unsettled call can move, and each move brings it nearer its end |
| `ConnectionBatches.Connection.Batch` | src/db/index.ts:159-163 | joining the chain keeps the order above |
| `ConnectionBatches.Connection.Resume` | src/db/index.ts:127-139 | each continuation of a call does what the schedule says and keeps the order above |
| `BatchOutcomes.SettledWellIffEveryStepWas` | src/db/index.ts:127-134 | over every schedule, a settled call succeeded if and only if every step it took did, and it took three more than it has statements: building, BEGIN, each statement, COMMIT |
| `BatchOutcomes.WhatAFailureSent` | src/db/index.ts:128-138 | what a failed call sent follows from which step was refused: nothing, BEGIN alone, or all up to the refused one and then ROLLBACK |
| `BatchOutcomes.GoesThroughFromItsTurn` | src/db/index.ts:127-139 | from its turn, that many successful steps settle a call well, with BEGIN, its statements and COMMIT sent |
| `QueryCoalescing.EveryRunIsValid` | dev-web/src/lib/graphql.ts:99-130 | on every run a flush is scheduled exactly while something is queued, every request is in one place in the order it was issued, and what is settled is what came back |
| `QueryCoalescing.ChunksKeepOrder` | dev-web/src/lib/graphql.ts:101-119 | chunking keeps every query, in order, in pieces of one to ten, all but the last of ten |
| `QueryCoalescing.SettledOnceAtItsOwnPlace` | dev-web/src/lib/graphql.ts:112-117 | each query of a request that comes back is settled then for the first time, by the outcome at its own index |
| `QueryCoalescing.AnswersGoToTheirQueries` | dev-web/src/lib/graphql.ts:111-118 | data at a query's place resolves it with that data; an error there, nothing there, or a failed request rejects it, with which message |
| `QueryCoalescing.SettledForGood` | dev-web/src/lib/graphql.ts:112-117 | what was settled stays as it was, and nothing outside the request is settled |
| `QueryCoalescing.MutationsAreNeverQueued` | dev-web/src/lib/graphql.ts:124-130 | a mutation, and anything sent on the server, is never queued and never in a chunk |
| `QueryCoalescing.NothingIsForgotten` | dev-web/src/lib/graphql.ts:101-130 | once no flush is scheduled and all requests have come back, exactly the requests issued are settled |
| `QueryCoalescing.Coalescer.Send` | dev-web/src/lib/graphql.ts:124-130 | the module's own queue steps as above when a request is issued |
| `QueryCoalescing.Coalescer.Flush` | dev-web/src/lib/graphql.ts:101-120 | and when the flush runs, its loop taking the whole queue in chunks |
| `QueryCoalescing.Coalescer.Receive` | dev-web/src/lib/graphql.ts:111-118 | and when a request comes back |

## Left out

- Ordered comparison of two condition operands (dates as times, amounts as numbers), trimming, cleaning typed text, and
  the encoded size of a form's values are functions of the `Host` value, about which nothing is assumed.
  Only `MissionSepLoans.LoanIsApprovedIffOnOffer` assumes that cleaning leaves three plain texts as they are and that
  a few short values are within the size allowed.
- `PipelineRuns.Run`: actions are taken with any inputs at all, so what is proved over runs holds whatever a form
  accepts; `SoundDocuments`, `MissionSepLoans` and `MissionSepRecords` take them with accepted inputs only.
- `ActionInputs.ValidateActionInputs`: an action's inputs are not in repeated groups, are not files and are
  not role-bound, so of the form engine only what concerns their nine types is modelled; its issues are not told apart.
- Parsing of a pipeline document: `PipelineDefinitions` starts from a parsed one, so parameters of the wrong shape,
  blank keys, list bounds and the database's own CHECK constraints (such as the length of the trail) are not part of it.
- The wording and order of messages, and the sorting of flag lists: flags are sets and problems are sets of values.
- Whether a cycle's form carries a pipeline (`pipelinePinProblems`), who may act, own applications, notifications'
  delivery, timelines, notes and audit records beside the history row.
- `PipelineRuns.Stepped`: a correction's open sections are a count; which sections, their notes and the applicant's
  draft saves in between are not part of it.
- Liveness of the pipeline: validation does not promise that a file can always end, and
  `PipelineOddities.SomeStagesNeverEnd` shows it need not.
- Two pipelines or two versions pinned at once: a run keeps the one document it was submitted under.
- `GroupDefinitions.ExpandGroupDefinitions`: which of several faults is named first is not stated; that a fault is
  reported if and only if there is one is.
- The rest of the form template's checks (`ruleProblem`, bounds, presentation), and `worstCaseAnswerBytes`.
- The rules that allow one mutation a namespace: they filter what `CollectedFields` collects and count it.
- `CollectedFields.AllFields`: the order in which fields are collected, on which nothing depends.
- `RateLimitedFields.LimitedFields`: which operation of a document runs, the matched node and its arguments.
- `DocumentCost.DocumentCostProblems`: for documents with a fragment cycle, refused by standard validation, only
  termination and the restored `seen` are stated.
- Dates outside ECMAScript's range, and invalid dates: a date is a valid year, month, day and time in the day.
- `PrefixSearch.PatternMatchesExactlyThePrefix`: the database's own lower-casing of the column, and blank terms, which
  give no pattern.
- `ConfirmationText.WrapLines`: fonts are an arbitrary width function of a line; sanitising text for a font, splitting
  surrogate pairs and PDF encoding are not part of it.
- `ConnectionBatches`: statement results, and separate handles, which share nothing.
- `QueryCoalescing`: which rejected value a caller sees beyond its message, and a lone query's own endpoint.
- React components, HTTP routes, sessions, storage, queues and scanners.
