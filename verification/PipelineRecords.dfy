/**
 * What actions leave behind them: recorded values (src/services/pipeline/effects/set-recorded-value.ts), notices and
 * notes, and where their moves lead (src/services/pipeline/engine.ts).
 */
module PipelineRecords {
  import opened Common
  import opened PipelineDefinitions
  import opened PipelineEffects
  import opened PipelineEngine
  import opened PipelineRuns

  // ---- What one plan records ----

  /** The `n`th of these effects fires, and records a value the officer gave under `k`. */
  predicate RecordsAt(host: Host, c: Context, effects: seq<Effect>, k: Key, n: nat) {
    && n < |effects| && Fires(host, c, effects[n]) && effects[n].kind.SetRecordedValue? && effects[n].kind.target == k
    && IsGiven(Lookup(c.inputs, effects[n].kind.input))
  }

  ghost predicate LastToRecord(host: Host, c: Context, effects: seq<Effect>, k: Key, n: nat) {
    RecordsAt(host, c, effects, k, n) && forall m: nat :: m > n ==> !RecordsAt(host, c, effects, k, m)
  }

  /** What an effect that does not refuse contributes: the officer's value under its target, and nothing else. */
  lemma RecordedOfEach(host: Host, c: Context, e: Effect)
    requires PlanEffect(host, e.kind, c).Success?
    ensures PlanEffect(host, e.kind, c).value.recorded ==
      if e.kind.SetRecordedValue? && IsGiven(Lookup(c.inputs, e.kind.input))
      then map[e.kind.target := c.inputs[e.kind.input]] else map[]
  {
    if e.kind.SetRecordedValue? { RecordingRefusesIff(host, e.kind, c); }
  }

  /** What is found under `k`: what the last effect to record it was given, or nothing where none did. */
  ghost predicate FoundFrom(host: Host, c: Context, effects: seq<Effect>, found: Option<Value>, k: Key) {
    && (found.Some? <==> exists n: nat :: RecordsAt(host, c, effects, k, n))
    && forall n: nat :: LastToRecord(host, c, effects, k, n) ==> found == Lookup(c.inputs, effects[n].kind.input)
  }

  lemma {:induction false} MergedIsTheLast(host: Host, c: Context, effects: seq<Effect>, fragments: seq<Fragment>, k: Key)
    requires Fired(host, c, effects) == Success(fragments)
    ensures FoundFrom(host, c, effects, Lookup(Merged(fragments), k), k)
  {
    if effects != [] {
      var front, last := effects[..|effects| - 1], effects[|effects| - 1];
      var before := Fired(host, c, front).value;
      MergedIsTheLast(host, c, front, before, k);
      if Fires(host, c, last) {
        RecordedOfEach(host, c, last);
        assert fragments[..|fragments| - 1] == before;
      }
      OneMoreEffect(host, c, effects, Lookup(Merged(before), k), Lookup(Merged(fragments), k), k);
    }
  }

  lemma OneMoreEffect(host: Host, c: Context, effects: seq<Effect>, before: Option<Value>, after: Option<Value>, k: Key)
    requires effects != [] && FoundFrom(host, c, effects[..|effects| - 1], before, k)
    requires after == if RecordsAt(host, c, effects, k, |effects| - 1) then Lookup(c.inputs, effects[|effects| - 1].kind.input) else before
    ensures FoundFrom(host, c, effects, after, k)
  {
    var front := effects[..|effects| - 1];
    forall n: nat | n < |front| ensures RecordsAt(host, c, front, k, n) <==> RecordsAt(host, c, effects, k, n) {
    }
    if RecordsAt(host, c, effects, k, |effects| - 1) {
      assert forall n: nat :: LastToRecord(host, c, effects, k, n) ==> n == |effects| - 1;
    } else {
      forall n: nat | LastToRecord(host, c, effects, k, n) ensures after == Lookup(c.inputs, effects[n].kind.input) {
        assert LastToRecord(host, c, front, k, n);
      }
    }
  }

  /**
   * Of a plan that goes through: a value is recorded under a name exactly when some effect that fires was given
   * one to record there, and it is the one the last such effect was given.
   */
  lemma RecordedIsTheLast(host: Host, c: Context, plan: Plan, k: Key)
    requires PlanOf(host, c) == Success(plan)
    ensures k in plan.recorded <==> exists n: nat :: RecordsAt(host, c, c.action.effects, k, n)
    ensures forall n: nat :: LastToRecord(host, c, c.action.effects, k, n) ==>
      k in plan.recorded && plan.recorded[k] == c.inputs[c.action.effects[n].kind.input]
  {
    var fragments, destination := PlanParts(host, c, plan);
    MergedIsTheLast(host, c, c.action.effects, fragments, k);
  }

  // ---- What one plan tells, notes, and where it goes ----

  function NoticeOf(e: Effect): Option<Notice> {
    if e.kind.NotifyApplicant? then Some(Notice(e.kind.message, e.kind.email)) else None
  }

  /** The note the officer wrote for it, trimmed, unless nothing is then left. */
  function NoteOf(host: Host, c: Context, e: Effect): Option<string> {
    if !e.kind.AddInternalNote? then None
    else
      var written := Lookup(c.inputs, e.kind.input);
      if written.Some? && written.value.Text? && host.trim(written.value.text) != "" then Some(host.trim(written.value.text)) else None
  }

  function AsList<T>(x: Option<T>): seq<T> { if x.Some? then [x.value] else [] }

  /** The notices of the effects that fire, in the order they are listed. */
  function NoticesAsked(host: Host, c: Context, effects: seq<Effect>): seq<Notice> {
    if effects == [] then []
    else
      var last := effects[|effects| - 1];
      NoticesAsked(host, c, effects[..|effects| - 1]) + if Fires(host, c, last) then AsList(NoticeOf(last)) else []
  }

  /** The notes of the effects that fire. */
  function NotesWritten(host: Host, c: Context, effects: seq<Effect>): seq<string> {
    if effects == [] then []
    else
      var last := effects[|effects| - 1];
      NotesWritten(host, c, effects[..|effects| - 1]) + if Fires(host, c, last) then AsList(NoteOf(host, c, last)) else []
  }

  lemma SaidByEach(host: Host, c: Context, e: Effect)
    requires PlanEffect(host, e.kind, c).Success?
    ensures PlanEffect(host, e.kind, c).value.notify == NoticeOf(e) && PlanEffect(host, e.kind, c).value.internalNote == NoteOf(host, c, e)
  {
    if e.kind.SetRecordedValue? { RecordingRefusesIff(host, e.kind, c); }
  }

  lemma SaidOneMore(fragments: seq<Fragment>, f: Fragment)
    ensures NoticesOf(fragments + [f]) == NoticesOf(fragments) + AsList(f.notify)
    ensures NotesOf(fragments + [f]) == NotesOf(fragments) + AsList(f.internalNote)
  {
    assert (fragments + [f])[..|fragments|] == fragments;
  }

  lemma {:induction false} ToldAndNoted(host: Host, c: Context, effects: seq<Effect>, fragments: seq<Fragment>)
    requires Fired(host, c, effects) == Success(fragments)
    ensures NoticesOf(fragments) == NoticesAsked(host, c, effects) && NotesOf(fragments) == NotesWritten(host, c, effects)
  {
    if effects != [] {
      var front, last := effects[..|effects| - 1], effects[|effects| - 1];
      ToldAndNoted(host, c, front, Fired(host, c, front).value);
      if Fires(host, c, last) {
        SaidByEach(host, c, last);
        SaidOneMore(Fired(host, c, front).value, PlanEffect(host, last.kind, c).value);
      }
    }
  }

  /** A plan tells the applicant every notice that fires, and keeps every note written, each in order and none besides. */
  lemma EverythingIsToldAndNoted(host: Host, c: Context, plan: Plan)
    requires PlanOf(host, c) == Success(plan)
    ensures plan.notifications == NoticesAsked(host, c, c.action.effects)
    ensures plan.internalNotes == NotesWritten(host, c, c.action.effects)
  {
    var fragments, destination := PlanParts(host, c, plan);
    ToldAndNoted(host, c, c.action.effects, fragments);
  }

  /** A move that fires takes the file to its target, to the stage its choice is routed to, back, or to no stage. */
  lemma GoesWhereTheMoveSays(host: Host, c: Context, plan: Plan, e: Effect)
    requires PlanOf(host, c) == Success(plan) && e in c.action.effects && Moves(e.kind) && Fires(host, c, e)
    ensures match e.kind
      case MoveToStage(target) => plan.toStageKey == Some(target) && plan.trailOp == Push && plan.ended.None?
      case MoveByChoice(input, routes) =>
        && plan.trailOp == Push && plan.ended.None? && input in c.inputs && c.inputs[input].Text? && c.inputs[input].text in routes
        && plan.toStageKey == Some(routes[c.inputs[input].text])
      case ReturnToPrevious =>
        plan.trailOp == Pop && plan.ended.None? && c.state.trail != [] && plan.toStageKey == Some(c.state.trail[|c.state.trail| - 1])
      case _ => plan.trailOp == Stay && plan.ended == Some(e.kind.flag) && plan.toStageKey.None?
  {
    MovingEffectDecides(host, c, plan, e);
  }

  // ---- What is recorded over a run ----

  /** The `i`th step of the run was an action offered at the file's stage, and `e` one of its effects, given this value for `k`. */
  ghost predicate GivenAt(env: Env, answers: Values, steps: seq<Step>, k: Key, v: Value, i: nat, e: Effect) {
    && i < |steps| && steps[i].Take? && Run(env, answers, steps[..i]).Some?
    && var f := Run(env, answers, steps[..i]).value;
       var stage := StageOf(env.definition, f.state.stageKey);
       && stage.Some? && steps[i].action in stage.value.actions && e in steps[i].action.effects
       && e.kind.SetRecordedValue? && e.kind.target == k && Lookup(steps[i].inputs, e.kind.input) == Some(v) && IsGiven(Some(v))
       && (v.Number? ==> WithinBounds(e.kind, ContextOf(env, f, stage.value, steps[i].action, steps[i].inputs), v.number))
  }

  lemma GivenEarlier(env: Env, answers: Values, steps: seq<Step>, s: Step, k: Key, v: Value, i: nat, e: Effect)
    requires GivenAt(env, answers, steps, k, v, i, e)
    ensures GivenAt(env, answers, steps + [s], k, v, i, e)
  {
    assert (steps + [s])[..i] == steps[..i] && (steps + [s])[i] == steps[i];
  }

  lemma GivenNow(env: Env, f: File, action: Action, inputs: Values, plan: Plan, k: Key) returns (e: Effect)
    requires PlanFor(env, f, action, inputs) == Some(plan) && k in plan.recorded
    ensures e in action.effects && e.kind.SetRecordedValue? && e.kind.target == k
    ensures Lookup(inputs, e.kind.input) == Some(plan.recorded[k]) && IsGiven(Some(plan.recorded[k]))
    ensures plan.recorded[k].Number? ==>
      WithinBounds(e.kind, ContextOf(env, f, StageOf(env.definition, f.state.stageKey).value, action, inputs), plan.recorded[k].number)
  {
    var c := ContextOf(env, f, StageOf(env.definition, f.state.stageKey).value, action, inputs);
    RecordedIsTheLast(env.host, c, plan, k);
    var n: nat := LastOf(env.host, c, action.effects, k);
    e := action.effects[n];
    RecordingWasNotRefused(env.host, c, plan, e);
  }

  lemma LastOf(host: Host, c: Context, effects: seq<Effect>, k: Key) returns (n: nat)
    requires exists m: nat :: RecordsAt(host, c, effects, k, m)
    ensures LastToRecord(host, c, effects, k, n)
  {
    var m: nat :| RecordsAt(host, c, effects, k, m);
    n := |effects| - 1;
    while !RecordsAt(host, c, effects, k, n)
      invariant m <= n < |effects| && forall j: nat :: j > n ==> !RecordsAt(host, c, effects, k, j)
      decreases n
    {
      n := n - 1;
    }
  }

  lemma RecordingWasNotRefused(host: Host, c: Context, plan: Plan, e: Effect)
    requires PlanOf(host, c) == Success(plan) && e in c.action.effects && Fires(host, c, e) && e.kind.SetRecordedValue?
    ensures var v := Lookup(c.inputs, e.kind.input); v.Some? && v.value.Number? ==> WithinBounds(e.kind, c, v.value.number)
  {
    var fragments, destination := PlanParts(host, c, plan);
    FragmentOf(host, c, c.action.effects, fragments, e);
    RecordingRefusesIff(host, e.kind, c);
  }

  /** On every run, whatever a file holds recorded is what an officer gave an action of its stage for it, within that action's bounds. */
  lemma {:induction false} RecordedWasGiven(env: Env, answers: Values, steps: seq<Step>, k: Key) returns (i: nat, e: Effect)
    requires Run(env, answers, steps).Some? && k in Run(env, answers, steps).value.state.recorded
    ensures GivenAt(env, answers, steps, k, Run(env, answers, steps).value.state.recorded[k], i, e)
  {
    var front, s := steps[..|steps| - 1], steps[|steps| - 1];
    var f := Run(env, answers, front).value;
    assert steps == front + [s];
    if s.Take? && k in PlanFor(env, f, s.action, s.inputs).value.recorded {
      i := |front|;
      e := GivenNow(env, f, s.action, s.inputs, PlanFor(env, f, s.action, s.inputs).value, k);
      assert steps[..i] == front;
    } else {
      i, e := RecordedWasGiven(env, answers, front, k);
      GivenEarlier(env, answers, front, s, k, f.state.recorded[k], i, e);
    }
  }

  /** An action writes exactly what its plan records over what was there; nothing else touches recorded values. */
  lemma RecordedAfterStep(env: Env, f: File, s: Step, k: Key)
    requires Stepped(env, f, s).Some?
    ensures var after := Lookup(Stepped(env, f, s).value.state.recorded, k);
      if s.Take? && k in PlanFor(env, f, s.action, s.inputs).value.recorded
      then after == Some(PlanFor(env, f, s.action, s.inputs).value.recorded[k])
      else after == Lookup(f.state.recorded, k)
  {
  }

  // ---- The answers over a run ----

  /** The answers last sent: with the latest resubmission, or with the submission itself. */
  function LatestAnswers(answers: Values, steps: seq<Step>): Values {
    if steps == [] then answers
    else if steps[|steps| - 1].Resubmit? then steps[|steps| - 1].answers
    else LatestAnswers(answers, steps[..|steps| - 1])
  }

  /** What every condition and bound reads as the applicant's answers is what they last sent. */
  lemma {:induction false} AnswersAreTheLatest(env: Env, answers: Values, steps: seq<Step>)
    requires Run(env, answers, steps).Some?
    ensures Run(env, answers, steps).value.state.answers == LatestAnswers(answers, steps)
  {
    if steps != [] {
      AnswersAreTheLatest(env, answers, steps[..|steps| - 1]);
    }
  }
}
