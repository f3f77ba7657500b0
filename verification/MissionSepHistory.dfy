/**
 * What a Mission SEP file's history says of corrections (src/services/pipeline/example.ts): its rows tell that
 * REVISION_REQUIRED was added, and never that it was taken away.
 */
module MissionSepHistory {
  import opened Common
  import opened PipelineDefinitions
  import opened PipelineEffects
  import opened PipelineEngine
  import opened PipelineRuns
  import opened CaseFileWrites
  import opened MissionSepPipeline
  import opened MissionSepRuns

  lemma EndingsLikeSep(d: Definition)
    requires WorkedLikeSep(d)
    ensures EndingsAddNoEditable(d)
  {
    FlagsApart();
    forall s, a, e | s in d.stages && a in s.actions && e in a.effects && Ends(e.kind) ensures !Editable(d, e.kind.flag) {
      assert Shaped(a);
      assert EffectShaped(a, e.kind);
    }
  }

  /**
   * After any interleaving, replaying a Mission SEP file's rows gives the flags it holds exactly when nobody
   * has asked its applicant for a correction, or one is open now.
   */
  lemma MissionSepHistoryRebuilds(
    host: Host, m: Messages, ceilingPaise: Option<int>, answers: Values, version: nat, events: seq<Event>)
    ensures var env := SepEnv(host, m, ceilingPaise);
      var w := World(Head(Submitted(env, answers), version, []), map[]);
      var head, steps := AfterAll(env, w, events).head, Committed(env, w, events);
      ReplayFlags(Submitted(env, answers).state.flags, head.history) == head.file.state.flags <==>
        (forall i :: 0 <= i < |steps| ==> !AsksAt(env, answers, steps, i)) || head.file.openRevisions > 0
  {
    MissionSepIsSound(m);
    MissionSepIsWorked(m);
    EndingsLikeSep(MissionSep(m));
    RebuildsWhereLikeSep(SepEnv(host, m, ceilingPaise), answers, version, events);
  }

  lemma RebuildsWhereLikeSep(env: Env, answers: Values, version: nat, events: seq<Event>)
    requires SoundEnv(env) && EndingsAddNoEditable(env.definition) && WorkedLikeSep(env.definition)
    ensures var w := World(Head(Submitted(env, answers), version, []), map[]);
      var head, steps := AfterAll(env, w, events).head, Committed(env, w, events);
      ReplayFlags(Submitted(env, answers).state.flags, head.history) == head.file.state.flags <==>
        (forall i :: 0 <= i < |steps| ==> !AsksAt(env, answers, steps, i)) || head.file.openRevisions > 0
  {
    var h := Head(Submitted(env, answers), version, []);
    var steps := Committed(env, World(h, map[]), events);
    HistoryRebuildsWhileACorrectionIsOpen(env, answers, version, events);
    EveryInterleavingIsSerial(env, h, events);
    AddedIffAsked(env, answers, version, steps);
    OneEditableFlag(env.definition, AfterAll(env, World(h, map[]), events).head.history);
  }

  lemma OneEditableFlag(d: Definition, rows: seq<Row>)
    requires WorkedLikeSep(d)
    ensures EditableAdded(d, rows) == {} || |EditableAdded(d, rows)| == 1
  {
    StatusApartFromRevision(d, {});
    assert EditableAdded(d, rows) == {} || EditableAdded(d, rows) == {REVISION_REQUIRED};
  }

  // ---- A correction that has closed ----

  /** The first officer asks for one section to be corrected. */
  function Asked(m: Messages): Step { Take(AskRevision(m), map[], 1) }

  lemma AskedOnce(env: Env, m: Messages, answers: Values)
    requires SoundEnv(env) && env.definition.initialStageKey == TTC && FindStage(env.definition.stages, TTC) == Some(FirstReview(m))
    ensures var f := Stepped(env, Submitted(env, answers), Asked(m));
      f.Some? && f.value.openRevisions == 1 && f.value.state.stageKey == Some(TTC)
    ensures AsksAt(env, answers, [Asked(m)], 0)
  {
    assert Always(RequestRevision(REVISION_REQUIRED)) in AskRevision(m).effects;
    AskedAtTheStart(env, answers, FirstReview(m), AskRevision(m), Always(RequestRevision(REVISION_REQUIRED)));
  }

  /** An action at the first stage that only asks for a revision and tells the applicant is taken on a new file. */
  lemma AskedAtTheStart(env: Env, answers: Values, stage: Stage, action: Action, e: Effect)
    requires SoundEnv(env) && FindStage(env.definition.stages, env.definition.initialStageKey) == Some(stage)
    requires action in stage.actions && action.availableWhen == []
    requires forall x :: x in action.effects ==> x.kind.RequestRevision? || x.kind.NotifyApplicant?
    requires e in action.effects && e.kind.RequestRevision? && e.when == []
    ensures var f := Stepped(env, Submitted(env, answers), Take(action, map[], 1));
      f.Some? && f.value.openRevisions == 1 && f.value.state.stageKey == Some(env.definition.initialStageKey)
    ensures AsksAt(env, answers, [Take(action, map[], 1)], 0)
  {
    var f := Submitted(env, answers);
    SubmittedIsSafe(env, answers);
    GoesThrough(env, f, stage, action, map[]);
    FoundStage(env.definition.stages, env.definition.initialStageKey);
    RevisionEffectDecides(env.host, ContextOf(env, f, stage, action, map[]), PlanFor(env, f, action, map[]).value, e);
    assert Run(env, answers, []) == Some(f);
  }

  lemma ClosedCorrection(env: Env, m: Messages, answers: Values, version: nat, closing: Step)
    requires SoundEnv(env) && EndingsAddNoEditable(env.definition) && WorkedLikeSep(env.definition)
    requires env.definition.initialStageKey == TTC && FindStage(env.definition.stages, TTC) == Some(FirstReview(m))
    requires closing.Resubmit? || closing.Withdraw?
    ensures var h := Head(Submitted(env, answers), version, []);
      var worked := Worked(env, h, [Asked(m), closing]);
      && worked.Some? && worked.value.file.openRevisions == 0
      && REVISION_REQUIRED in ReplayFlags(h.file.state.flags, worked.value.history)
      && REVISION_REQUIRED !in worked.value.file.state.flags
  {
    var h := Head(Submitted(env, answers), version, []);
    AskedOnce(env, m, answers);
    assert Worked(env, h, []) == Some(h);
    WorkedOnce(env, h, [], Asked(m));
    assert [] + [Asked(m)] == [Asked(m)] && [Asked(m)] + [closing] == [Asked(m), closing];
    var asked := Worked(env, h, [Asked(m)]).value;
    AddedIffAsked(env, answers, version, [Asked(m)]);
    WorkedOnce(env, h, [Asked(m)], closing);
    OthersLeaveNoRow(env, asked, closing);
    SubmittedHoldsNoEditable(env, answers);
    HistoryRebuildsTheHead(env, h, [Asked(m), closing]);
    OneEditableFlag(env.definition, asked.history);
    AwaitsIsEditable(env.definition, asked.file.state.flags);
  }

  /**
   * A correction asked for and then resubmitted, or withdrawn, leaves REVISION_REQUIRED in what the rows
   * rebuild and takes it from the file.
   */
  lemma ClosedCorrectionsLeaveNoRow(
    host: Host, m: Messages, ceilingPaise: Option<int>, answers: Values, version: nat, closing: Step)
    requires closing.Resubmit? || closing.Withdraw?
    ensures var env := SepEnv(host, m, ceilingPaise);
      var h := Head(Submitted(env, answers), version, []);
      var worked := Worked(env, h, [Asked(m), closing]);
      && worked.Some? && worked.value.file.openRevisions == 0
      && REVISION_REQUIRED in ReplayFlags(h.file.state.flags, worked.value.history)
      && REVISION_REQUIRED !in worked.value.file.state.flags
  {
    MissionSepIsSound(m);
    MissionSepIsWorked(m);
    EndingsLikeSep(MissionSep(m));
    SepStages(m, FirstReview(m));
    ClosedCorrection(SepEnv(host, m, ceilingPaise), m, answers, version, closing);
  }
}
