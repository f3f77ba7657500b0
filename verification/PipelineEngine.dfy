/**
 * Deciding what an action does (src/services/pipeline/engine.ts), and what the head row becomes when
 * the decision is written (src/services/pipeline/controllers/stage.ts, src/services/pipeline/queries/stage.ts).
 */
module PipelineEngine {
  import opened Common
  import opened PipelineDefinitions
  import opened PipelineEffects

  datatype TrailOp = Push | Pop | Stay

  datatype Plan = Plan(
    fromStageKey: Key, toStageKey: Option<Key>, trailOp: TrailOp, ended: Option<Key>,
    flagsAdded: set<Key>, flagsRemoved: set<Key>, flags: set<Key>, recorded: Values,
    revisionFlag: Option<Key>, notifications: seq<Notice>, internalNotes: seq<string>)

  /** Whether the file may be offered this action now, before any input. */
  predicate ActionIsAvailable(host: Host, d: Definition, action: Action, state: FileState) {
    && state.stageKey.Some?
    && !AwaitsApplicant(d, state.flags)
    && ConditionsHold(host, d, state, map[], action, action.availableWhen)
  }

  // ---- The fragments that fire ----

  predicate Fires(host: Host, c: Context, e: Effect) {
    ConditionsHold(host, c.definition, c.state, c.inputs, c.action, e.when)
  }

  /** Every fired effect's fragment, in order, or the first refusal among them. */
  function Fired(host: Host, c: Context, effects: seq<Effect>): Result<seq<Fragment>, Refusal> {
    if effects == [] then Success([])
    else
      var front, last := Fired(host, c, effects[..|effects| - 1]), effects[|effects| - 1];
      if front.Failure? || !Fires(host, c, last) then front
      else match PlanEffect(host, last.kind, c)
        case Failure(refusal) => Failure(refusal)
        case Success(fragment) => Success(front.value + [fragment])
  }

  method FiredFragments(host: Host, c: Context) returns (result: Result<seq<Fragment>, Refusal>)
    ensures result == Fired(host, c, c.action.effects)
  {
    var effects := c.action.effects;
    var fragments: seq<Fragment> := [];
    for i := 0 to |effects|
      invariant Fired(host, c, effects[..i]) == Success(fragments)
    {
      assert effects[..i + 1][..i] == effects[..i];
      if !Fires(host, c, effects[i]) { continue; }
      var fragment := PlanEffect(host, effects[i].kind, c);
      if fragment.Failure? {
        RefusalStays(host, c, effects, i + 1);
        return Failure(fragment.error);
      }
      fragments := fragments + [fragment.value];
    }
    assert effects[..|effects|] == effects;
    result := Success(fragments);
  }

  lemma {:induction false} RefusalStays(host: Host, c: Context, effects: seq<Effect>, i: nat)
    requires i <= |effects| && Fired(host, c, effects[..i]).Failure?
    ensures Fired(host, c, effects) == Fired(host, c, effects[..i])
  {
    if i == |effects| {
      assert effects[..i] == effects;
    } else {
      assert effects[..|effects| - 1][..i] == effects[..i];
      RefusalStays(host, c, effects[..|effects| - 1], i);
    }
  }

  /** Effects are planned in order: what some plan comes first, and the first refusal among them stands. */
  lemma {:induction false} FiredInOrder(host: Host, c: Context, first: seq<Effect>, second: seq<Effect>)
    ensures Fired(host, c, first + second) ==
      if Fired(host, c, first).Failure? then Fired(host, c, first)
      else if Fired(host, c, second).Failure? then Fired(host, c, second)
      else Success(Fired(host, c, first).value + Fired(host, c, second).value)
  {
    var all := first + second;
    if second == [] {
      assert all == first;
      if Fired(host, c, first).Success? { assert Fired(host, c, first).value + [] == Fired(host, c, first).value; }
    } else {
      assert all[..|all| - 1] == first + second[..|second| - 1] && all[|all| - 1] == second[|second| - 1];
      FiredInOrder(host, c, first, second[..|second| - 1]);
      var a, b, whole := Fired(host, c, first), Fired(host, c, second), Fired(host, c, all);
      if a.Success? && b.Success? {
        assert whole.value == a.value + b.value;
      }
    }
  }

  /** Each fragment is what some effect that fires plans. */
  lemma {:induction false} EffectBehind(host: Host, c: Context, effects: seq<Effect>, fragments: seq<Fragment>, f: Fragment) returns (e: Effect)
    requires Fired(host, c, effects) == Success(fragments) && f in fragments
    ensures e in effects && Fires(host, c, e) && PlanEffect(host, e.kind, c) == Success(f)
  {
    var front, last := effects[..|effects| - 1], effects[|effects| - 1];
    var before := Fired(host, c, front).value;
    if f in before {
      e := EffectBehind(host, c, front, before, f);
    } else {
      e := last;
    }
  }

  /** Each effect that fires is planned, and its fragment is there. */
  lemma {:induction false} FragmentOf(host: Host, c: Context, effects: seq<Effect>, fragments: seq<Fragment>, e: Effect)
    requires Fired(host, c, effects) == Success(fragments) && e in effects && Fires(host, c, e)
    ensures PlanEffect(host, e.kind, c).Success? && PlanEffect(host, e.kind, c).value in fragments
  {
    var front, last := effects[..|effects| - 1], effects[|effects| - 1];
    if e != last {
      assert e in front;
      FragmentOf(host, c, front, Fired(host, c, front).value, e);
    }
  }

  function MovesOf(fragments: seq<Fragment>): seq<Move> {
    if fragments == [] then []
    else
      var last := fragments[|fragments| - 1];
      MovesOf(fragments[..|fragments| - 1]) + (if last.move.Some? then [last.move.value] else [])
  }

  function RevisionsOf(fragments: seq<Fragment>): seq<Key> {
    if fragments == [] then []
    else
      var last := fragments[|fragments| - 1];
      RevisionsOf(fragments[..|fragments| - 1]) + (if last.revision.Some? then [last.revision.value] else [])
  }

  lemma {:induction false} FragmentMoving(fragments: seq<Fragment>, m: Move) returns (f: Fragment)
    requires m in MovesOf(fragments)
    ensures f in fragments && f.move == Some(m)
  {
    var front, last := fragments[..|fragments| - 1], fragments[|fragments| - 1];
    if m in MovesOf(front) {
      f := FragmentMoving(front, m);
    } else {
      f := last;
    }
  }

  lemma {:induction false} FragmentRevising(fragments: seq<Fragment>, r: Key) returns (f: Fragment)
    requires r in RevisionsOf(fragments)
    ensures f in fragments && f.revision == Some(r)
  {
    var front, last := fragments[..|fragments| - 1], fragments[|fragments| - 1];
    if r in RevisionsOf(front) {
      f := FragmentRevising(front, r);
    } else {
      f := last;
    }
  }

  lemma {:induction false} MovingFragmentCounts(fragments: seq<Fragment>, f: Fragment)
    requires f in fragments
    ensures f.move.Some? ==> f.move.value in MovesOf(fragments)
    ensures f.revision.Some? ==> f.revision.value in RevisionsOf(fragments)
  {
    var front, last := fragments[..|fragments| - 1], fragments[|fragments| - 1];
    if f != last {
      assert f in front;
      MovingFragmentCounts(front, f);
    }
  }

  // ---- Where the one fired move sends the file ----

  datatype Destination = Destination(toStageKey: Option<Key>, trailOp: TrailOp, ended: Option<Key>)

  function DestinationOf(move: Option<Move>, stage: Stage, trail: seq<Key>): Result<Destination, Refusal> {
    match move
    case Some(MoveTo(to)) => Success(Destination(Some(to), Push, None))
    case Some(End(flag)) => Success(Destination(None, Stay, Some(flag)))
    case Some(Return) =>
      if trail == [] then Failure(NoEarlierStage) else Success(Destination(Some(trail[|trail| - 1]), Pop, None))
    case None => Success(Destination(Some(stage.key), Stay, None))
  }

  // ---- The flags the action adds and removes ----

  function AddedBy(fragments: seq<Fragment>): set<Key> { set f, k | f in fragments && k in f.addFlags :: k }

  function RemovedBy(fragments: seq<Fragment>): set<Key> { set f, k | f in fragments && k in f.removeFlags :: k }

  function OptionSet(k: Option<Key>): set<Key> { if k.Some? then {k.value} else {} }

  /** What a stage's presence asks for: nothing at no stage, and nothing at one the document does not have. */
  function PresenceAt(d: Definition, stageKey: Option<Key>): set<Key> {
    var stage := StageOf(d, stageKey);
    if stage.Some? then ToSet(stage.value.presenceFlags) else {}
  }

  function Leaves(stage: Stage, destination: Destination): bool { destination.toStageKey != Some(stage.key) }

  function FlagsRemoved(stage: Stage, fragments: seq<Fragment>, destination: Destination): set<Key> {
    RemovedBy(fragments) + if Leaves(stage, destination) then ToSet(stage.presenceFlags) else {}
  }

  /** A flag both added and removed ends up removed. */
  function FlagsAdded(d: Definition, stage: Stage, fragments: seq<Fragment>, destination: Destination, revision: Option<Key>): set<Key> {
    AddedBy(fragments) + OptionSet(destination.ended) + OptionSet(revision)
      + (if Leaves(stage, destination) then PresenceAt(d, destination.toStageKey) else {})
      - FlagsRemoved(stage, fragments, destination)
  }

  method FlagChanges(d: Definition, stage: Stage, fragments: seq<Fragment>, destination: Destination, revision: Option<Key>)
    returns (added: set<Key>, removed: set<Key>)
    ensures added == FlagsAdded(d, stage, fragments, destination, revision)
    ensures removed == FlagsRemoved(stage, fragments, destination)
  {
    added, removed := {}, {};
    for i := 0 to |fragments|
      invariant added == AddedBy(fragments[..i]) && removed == RemovedBy(fragments[..i])
    {
      assert fragments[..i + 1] == fragments[..i] + [fragments[i]];
      added := added + ToSet(fragments[i].addFlags);
      removed := removed + ToSet(fragments[i].removeFlags);
    }
    assert fragments[..|fragments|] == fragments;
    if destination.ended.Some? { added := added + {destination.ended.value}; }
    if revision.Some? { added := added + {revision.value}; }
    if destination.toStageKey != Some(stage.key) {
      removed := AddEach(removed, stage.presenceFlags);
      var next := StageOf(d, destination.toStageKey);
      if next.Some? { added := AddEach(added, next.value.presenceFlags); }
    }
    added := added - removed;
  }

  method AddEach(flags: set<Key>, more: seq<Key>) returns (all: set<Key>)
    ensures all == flags + ToSet(more)
  {
    all := flags;
    for i := 0 to |more|
      invariant all == flags + ToSet(more[..i])
    {
      all := all + {more[i]};
    }
    assert more[..|more|] == more;
  }

  // ---- The plan ----

  function Merged(fragments: seq<Fragment>): Values {
    if fragments == [] then map[] else Merged(fragments[..|fragments| - 1]) + fragments[|fragments| - 1].recorded
  }

  function NoticesOf(fragments: seq<Fragment>): seq<Notice> {
    if fragments == [] then []
    else
      var last := fragments[|fragments| - 1];
      NoticesOf(fragments[..|fragments| - 1]) + (if last.notify.Some? then [last.notify.value] else [])
  }

  function NotesOf(fragments: seq<Fragment>): seq<string> {
    if fragments == [] then []
    else
      var last := fragments[|fragments| - 1];
      NotesOf(fragments[..|fragments| - 1]) + (if last.internalNote.Some? then [last.internalNote.value] else [])
  }

  function FirstOf<T>(s: seq<T>): Option<T> { if s == [] then None else Some(s[0]) }

  predicate Clash(fragments: seq<Fragment>) {
    |MovesOf(fragments)| > 1 || |RevisionsOf(fragments)| > 1 || (MovesOf(fragments) != [] && RevisionsOf(fragments) != [])
  }

  function Assembled(c: Context, fragments: seq<Fragment>, destination: Destination): Plan {
    var revision := FirstOf(RevisionsOf(fragments));
    var added := FlagsAdded(c.definition, c.stage, fragments, destination, revision);
    var removed := FlagsRemoved(c.stage, fragments, destination);
    Plan(c.stage.key, destination.toStageKey, destination.trailOp, destination.ended,
      added - c.state.flags, removed * c.state.flags, c.state.flags - removed + added,
      Merged(fragments), revision, NoticesOf(fragments), NotesOf(fragments))
  }

  /** One plan, or one refusal: never part of a plan. */
  function PlanOf(host: Host, c: Context): Result<Plan, Refusal> {
    match Fired(host, c, c.action.effects)
    case Failure(refusal) => Failure(refusal)
    case Success(fragments) =>
      if Clash(fragments) then Failure(Incompatible)
      else match DestinationOf(FirstOf(MovesOf(fragments)), c.stage, c.state.trail)
        case Failure(refusal) => Failure(refusal)
        case Success(destination) => Success(Assembled(c, fragments, destination))
  }

  method PlanAction(host: Host, c: Context) returns (outcome: Result<Plan, Refusal>)
    ensures outcome == PlanOf(host, c)
  {
    var fired := FiredFragments(host, c);
    if fired.Failure? { return Failure(fired.error); }
    var fragments := fired.value;
    var moves, revisions := MovesOf(fragments), RevisionsOf(fragments);
    if |moves| > 1 || |revisions| > 1 || (|moves| > 0 && |revisions| > 0) { return Failure(Incompatible); }
    var destination := DestinationOf(FirstOf(moves), c.stage, c.state.trail);
    if destination.Failure? { return Failure(destination.error); }
    var revisionFlag := FirstOf(revisions);
    var added, removed := FlagChanges(c.definition, c.stage, fragments, destination.value, revisionFlag);
    var flags := c.state.flags - removed;
    flags := flags + added;
    outcome := Success(Plan(
      c.stage.key, destination.value.toStageKey, destination.value.trailOp, destination.value.ended,
      added - c.state.flags, removed * c.state.flags, flags,
      Merged(fragments), revisionFlag, NoticesOf(fragments), NotesOf(fragments)));
  }

  // ---- What the write makes of the file ----

  /** The file's flags after the plan: survivors, and what is new. */
  function FlagsAfter(flags: set<Key>, plan: Plan): set<Key> {
    (flags - plan.flagsRemoved) + (plan.flagsAdded - flags)
  }

  function TrailAfter(trail: seq<Key>, plan: Plan): seq<Key> {
    match plan.trailOp
    case Push => trail + [plan.fromStageKey]
    case Pop => if trail == [] then [] else trail[..|trail| - 1]
    case Stay => trail
  }

  function Written(state: FileState, plan: Plan): FileState {
    state.(
      stageKey := plan.toStageKey,
      flags := FlagsAfter(state.flags, plan),
      trail := TrailAfter(state.trail, plan),
      recorded := state.recorded + plan.recorded)
  }

  /** The flags rebuilt from what the plan says it added and removed are the flags it promised. */
  lemma WrittenFlagsAreThePlans(host: Host, c: Context, plan: Plan)
    requires PlanOf(host, c) == Success(plan)
    ensures FlagsAfter(c.state.flags, plan) == plan.flags
    ensures plan.flagsRemoved <= c.state.flags && plan.flagsAdded !! c.state.flags && plan.flagsAdded !! plan.flagsRemoved
  {
  }

  // ---- What a plan comes from ----

  /** The fragments and destination behind a plan. */
  lemma PlanParts(host: Host, c: Context, plan: Plan) returns (fragments: seq<Fragment>, destination: Destination)
    requires PlanOf(host, c) == Success(plan)
    ensures Fired(host, c, c.action.effects) == Success(fragments) && !Clash(fragments)
    ensures DestinationOf(FirstOf(MovesOf(fragments)), c.stage, c.state.trail) == Success(destination)
    ensures plan == Assembled(c, fragments, destination)
  {
    fragments := Fired(host, c, c.action.effects).value;
    destination := DestinationOf(FirstOf(MovesOf(fragments)), c.stage, c.state.trail).value;
  }

  // What an action's effects name, whether or not they fire.

  ghost predicate AddsStatus(action: Action, k: Key) { exists e :: e in action.effects && e.kind == AddStatus(k) }

  ghost predicate EndsWith(action: Action, k: Key) { exists e :: e in action.effects && Ends(e.kind) && e.kind.flag == k }

  ghost predicate AsksRevision(action: Action, k: Key) { exists e :: e in action.effects && e.kind == RequestRevision(k) }

  ghost predicate MovesToward(action: Action, k: Key) { exists e :: e in action.effects && k in MoveTargets(e.kind) }

  ghost predicate Returns(action: Action) { exists e :: e in action.effects && e.kind.ReturnToPrevious? }

  ghost predicate Records(action: Action, k: Key) {
    exists e :: e in action.effects && e.kind.SetRecordedValue? && e.kind.target == k
  }

  /** A REMOVE_STATUS naming the flag fires. */
  ghost predicate RemovesNow(host: Host, c: Context, k: Key) {
    exists e :: e in c.action.effects && e.kind == RemoveStatus(k) && Fires(host, c, e)
  }

  lemma MoveComesFromAnEffect(host: Host, c: Context, fragments: seq<Fragment>)
    requires Fired(host, c, c.action.effects) == Success(fragments) && MovesOf(fragments) != []
    ensures match MovesOf(fragments)[0]
      case MoveTo(to) => MovesToward(c.action, to)
      case Return => Returns(c.action)
      case End(flag) => EndsWith(c.action, flag)
  {
    var f := FragmentMoving(fragments, MovesOf(fragments)[0]);
    var e := EffectBehind(host, c, c.action.effects, fragments, f);
    MoveOfEffect(host, e.kind, c);
  }

  lemma RevisionComesFromAnEffect(host: Host, c: Context, fragments: seq<Fragment>)
    requires Fired(host, c, c.action.effects) == Success(fragments) && RevisionsOf(fragments) != []
    ensures AsksRevision(c.action, RevisionsOf(fragments)[0])
  {
    var f := FragmentRevising(fragments, RevisionsOf(fragments)[0]);
    var e := EffectBehind(host, c, c.action.effects, fragments, f);
    RevisionOfEffect(host, e.kind, c);
  }

  /** Where a plan sends the file, traced back to the one effect that says so. */
  lemma DestinationComesFromAnEffect(host: Host, c: Context, plan: Plan)
    requires PlanOf(host, c) == Success(plan)
    ensures match plan.trailOp
      case Push => plan.ended.None? && plan.revisionFlag.None? && plan.toStageKey.Some? && MovesToward(c.action, plan.toStageKey.value)
      case Pop =>
        && plan.ended.None? && plan.revisionFlag.None? && c.state.trail != [] && Returns(c.action)
        && plan.toStageKey == Some(c.state.trail[|c.state.trail| - 1])
      case Stay =>
        && plan.toStageKey == (if plan.ended.Some? then None else Some(c.stage.key))
        && (plan.ended.Some? ==> EndsWith(c.action, plan.ended.value) && plan.revisionFlag.None?)
        && (plan.revisionFlag.Some? ==> AsksRevision(c.action, plan.revisionFlag.value))
  {
    var fragments, destination := PlanParts(host, c, plan);
    if MovesOf(fragments) != [] { MoveComesFromAnEffect(host, c, fragments); }
    if RevisionsOf(fragments) != [] { RevisionComesFromAnEffect(host, c, fragments); }
  }

  lemma AddedByAnEffect(host: Host, c: Context, fragments: seq<Fragment>, k: Key)
    requires Fired(host, c, c.action.effects) == Success(fragments) && k in AddedBy(fragments)
    ensures AddsStatus(c.action, k)
  {
    var f :| f in fragments && k in f.addFlags;
    var e := EffectBehind(host, c, c.action.effects, fragments, f);
    FlagsOfEffect(host, e.kind, c);
  }

  lemma RemovedByAnEffect(host: Host, c: Context, fragments: seq<Fragment>, k: Key)
    requires Fired(host, c, c.action.effects) == Success(fragments) && k in RemovedBy(fragments)
    ensures RemovesNow(host, c, k)
  {
    var f :| f in fragments && k in f.removeFlags;
    var e := EffectBehind(host, c, c.action.effects, fragments, f);
    FlagsOfEffect(host, e.kind, c);
  }

  /** A flag is held afterwards only if it was before, an ADD_STATUS names it, it ended the journey, a revision adds it, or the stage entered lists it. */
  lemma HeldFlagsComeFrom(host: Host, c: Context, plan: Plan, k: Key)
    requires PlanOf(host, c) == Success(plan) && k in plan.flags
    ensures || k in c.state.flags || AddsStatus(c.action, k) || plan.ended == Some(k) || plan.revisionFlag == Some(k)
            || (plan.toStageKey != Some(c.stage.key) && k in PresenceAt(c.definition, plan.toStageKey))
  {
    var fragments, destination := PlanParts(host, c, plan);
    if k in AddedBy(fragments) {
      AddedByAnEffect(host, c, fragments, k);
    }
  }

  /** A flag is lost only to a REMOVE_STATUS that names it and fires, or to leaving a stage that lists it. */
  lemma LostFlagsGoTo(host: Host, c: Context, plan: Plan, k: Key)
    requires PlanOf(host, c) == Success(plan) && k !in plan.flags
    requires k in c.state.flags || plan.ended == Some(k) || plan.revisionFlag == Some(k)
          || (plan.toStageKey != Some(c.stage.key) && k in PresenceAt(c.definition, plan.toStageKey))
    ensures RemovesNow(host, c, k) || (plan.toStageKey != Some(c.stage.key) && k in c.stage.presenceFlags)
  {
    var fragments, destination := PlanParts(host, c, plan);
    assert k in FlagsRemoved(c.stage, fragments, destination);
    if k in RemovedBy(fragments) {
      RemovedByAnEffect(host, c, fragments, k);
    }
  }

  /** A removal is never outweighed: neither by an addition in the same action, nor by the stage entered. */
  lemma RemovalWins(host: Host, c: Context, plan: Plan, k: Key)
    requires PlanOf(host, c) == Success(plan)
    requires RemovesNow(host, c, k) || (plan.toStageKey != Some(c.stage.key) && k in c.stage.presenceFlags)
    ensures k !in plan.flags
  {
    var fragments, destination := PlanParts(host, c, plan);
    if RemovesNow(host, c, k) {
      var e :| e in c.action.effects && e.kind == RemoveStatus(k) && Fires(host, c, e);
      FragmentOf(host, c, c.action.effects, fragments, e);
      var f := PlanEffect(host, e.kind, c).value;
      assert f in fragments && k in f.removeFlags;
    }
    assert k in FlagsRemoved(c.stage, fragments, destination);
  }

  /** An ADD_STATUS that fires is held, unless a removal in the same plan names the same flag. */
  lemma AdditionHolds(host: Host, c: Context, plan: Plan, e: Effect)
    requires PlanOf(host, c) == Success(plan) && e in c.action.effects && e.kind.AddStatus? && Fires(host, c, e)
    ensures || e.kind.flag in plan.flags || RemovesNow(host, c, e.kind.flag)
            || (plan.toStageKey != Some(c.stage.key) && e.kind.flag in c.stage.presenceFlags)
  {
    var fragments, destination := PlanParts(host, c, plan);
    FragmentOf(host, c, c.action.effects, fragments, e);
    var f := PlanEffect(host, e.kind, c).value;
    assert f in fragments && e.kind.flag in f.addFlags;
    assert e.kind.flag in AddedBy(fragments);
    if e.kind.flag in RemovedBy(fragments) {
      RemovedByAnEffect(host, c, fragments, e.kind.flag);
    }
  }

  lemma {:induction false} RecordedAs(fragments: seq<Fragment>, k: Key) returns (f: Fragment)
    requires k in Merged(fragments)
    ensures f in fragments && k in f.recorded && f.recorded[k] == Merged(fragments)[k]
  {
    var last := fragments[|fragments| - 1];
    if k in last.recorded {
      f := last;
    } else {
      f := RecordedAs(fragments[..|fragments| - 1], k);
    }
  }

  lemma RecordedBehind(host: Host, c: Context, fragments: seq<Fragment>, k: Key) returns (e: Effect)
    requires Fired(host, c, c.action.effects) == Success(fragments) && k in Merged(fragments)
    ensures e in c.action.effects && Fires(host, c, e) && e.kind.SetRecordedValue? && e.kind.target == k
    ensures Lookup(c.inputs, e.kind.input) == Some(Merged(fragments)[k])
    ensures Merged(fragments)[k].Number? ==> WithinBounds(e.kind, c, Merged(fragments)[k].number)
  {
    var f := RecordedAs(fragments, k);
    e := EffectBehind(host, c, c.action.effects, fragments, f);
    RecordedOfEffect(host, e.kind, c, k);
  }

  /** A value is recorded only by a SET_RECORDED_VALUE that names it. */
  lemma RecordedComesFromAnEffect(host: Host, c: Context, plan: Plan, k: Key)
    requires PlanOf(host, c) == Success(plan) && k in plan.recorded
    ensures Records(c.action, k)
  {
    var fragments, destination := PlanParts(host, c, plan);
    var e := RecordedBehind(host, c, fragments, k);
  }

  /** An amount recorded is one the officer gave, within the answer and the cycle's ceiling its effect names. */
  lemma RecordedAmountsAreBounded(host: Host, c: Context, plan: Plan, k: Key) returns (e: Effect)
    requires PlanOf(host, c) == Success(plan) && k in plan.recorded && plan.recorded[k].Number?
    ensures e in c.action.effects && Fires(host, c, e) && e.kind.SetRecordedValue? && e.kind.target == k
    ensures Lookup(c.inputs, e.kind.input) == Some(plan.recorded[k]) && WithinBounds(e.kind, c, plan.recorded[k].number)
  {
    var fragments, destination := PlanParts(host, c, plan);
    e := RecordedBehind(host, c, fragments, k);
  }

  /** A moving effect that fires is where the plan goes: no other can fire beside it. */
  lemma MovingEffectDecides(host: Host, c: Context, plan: Plan, e: Effect)
    requires PlanOf(host, c) == Success(plan) && e in c.action.effects && Moves(e.kind) && Fires(host, c, e)
    ensures PlanEffect(host, e.kind, c).Success?
    ensures DestinationOf(PlanEffect(host, e.kind, c).value.move, c.stage, c.state.trail) == Success(DestinationIn(plan))
  {
    var fragments, destination := PlanParts(host, c, plan);
    OnlyItMoves(host, c, fragments, e);
  }

  function DestinationIn(plan: Plan): Destination { Destination(plan.toStageKey, plan.trailOp, plan.ended) }

  lemma OnlyItMoves(host: Host, c: Context, fragments: seq<Fragment>, e: Effect)
    requires Fired(host, c, c.action.effects) == Success(fragments) && !Clash(fragments)
    requires e in c.action.effects && Moves(e.kind) && Fires(host, c, e)
    ensures PlanEffect(host, e.kind, c).Success? && PlanEffect(host, e.kind, c).value.move.Some?
    ensures MovesOf(fragments) == [PlanEffect(host, e.kind, c).value.move.value]
  {
    FragmentOf(host, c, c.action.effects, fragments, e);
    MoveOfEffect(host, e.kind, c);
    MovingFragmentCounts(fragments, PlanEffect(host, e.kind, c).value);
  }

  /** An ending that fires is where the plan goes. */
  lemma EndingDecides(host: Host, c: Context, plan: Plan, e: Effect)
    requires PlanOf(host, c) == Success(plan) && e in c.action.effects && Ends(e.kind) && Fires(host, c, e)
    ensures plan.ended == Some(e.kind.flag) && plan.toStageKey.None?
  {
    EndOfEffect(host, e.kind, c);
    MovingEffectDecides(host, c, plan, e);
  }

  /** A revision request that fires is what the plan asks for, and the file stays where it is. */
  lemma RevisionEffectDecides(host: Host, c: Context, plan: Plan, e: Effect)
    requires PlanOf(host, c) == Success(plan) && e in c.action.effects && e.kind.RequestRevision? && Fires(host, c, e)
    ensures plan.revisionFlag == Some(e.kind.flag) && DestinationIn(plan) == Destination(Some(c.stage.key), Stay, None)
  {
    var fragments, destination := PlanParts(host, c, plan);
    FragmentOf(host, c, c.action.effects, fragments, e);
    MovingFragmentCounts(fragments, PlanEffect(host, e.kind, c).value);
  }

  lemma EndOfEffect(host: Host, e: EffectKind, c: Context)
    requires Ends(e)
    ensures PlanEffect(host, e, c) == Success(NOTHING.(move := Some(End(e.flag))))
  {
  }
}
