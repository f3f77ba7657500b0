/**
 * Officers and the applicant working one file at once. Each reads it, decides on what was read, and then
 * writes under the version it read: a write whose version, or stage, is no longer the file's writes
 * nothing at all (src/services/pipeline/queries/stage.ts, src/services/application/queries/application.ts,
 * src/db/index.ts). Whatever the interleaving, the file is what some serial run makes of it.
 */
module CaseFileWrites {
  import opened Common
  import opened PipelineDefinitions
  import opened PipelineEngine
  import opened PipelineRuns

  /** One row of the append-only history, for one action. */
  datatype Row = Row(
    version: nat, actionKey: Key, stageKey: Key, toStageKey: Option<Key>,
    flagsAdded: set<Key>, flagsRemoved: set<Key>, recorded: Values)

  datatype Head = Head(file: File, version: nat, history: seq<Row>)

  /** A decision as it will be written: whole values, worked out from what was read. */
  datatype Write =
    | WriteAction(
        actionKey: Key, stageKey: Key, toStageKey: Option<Key>, trail: seq<Key>, flags: set<Key>, recorded: Values,
        flagsAdded: set<Key>, flagsRemoved: set<Key>, sections: nat)
    | WriteWithdrawal(stageKey: Key, flags: set<Key>)
    | WriteResubmission(answers: Values)

  /** Where one request has got to. */
  datatype Session = Reading(file: File, version: nat) | Writing(version: nat, step: Step, write: Write)

  datatype World = World(head: Head, sessions: map<nat, Session>)

  /** `seen` is the version on the screen the request was made from: a request from an older screen is refused at once. */
  datatype Event = Reads(id: nat, seen: nat) | Decides(id: nat, step: Step) | Writes(id: nat)

  // ---- Deciding, and writing under a guard ----

  function Decided(env: Env, f: File, s: Step): Option<Write> {
    match s
    case Take(action, inputs, sections) =>
      var plan := PlanFor(env, f, action, inputs);
      if plan.None? || (plan.value.revisionFlag.Some? <==> sections == 0) then None
      else
        Some(WriteAction(
          action.key, plan.value.fromStageKey, plan.value.toStageKey, TrailAfter(f.state.trail, plan.value),
          FlagsAfter(f.state.flags, plan.value), plan.value.recorded, plan.value.flagsAdded, plan.value.flagsRemoved, sections))
    case Withdraw =>
      if f.state.stageKey.None? || f.openRevisions == 0 then None
      else
        Some(WriteWithdrawal(
          f.state.stageKey.value, if f.openRevisions > 1 then f.state.flags else f.state.flags - EditableFlags(env.definition)))
    case Resubmit(answers) =>
      if f.openRevisions == 0 then None else Some(WriteResubmission(answers))
  }

  /** One statement: the head moves only while its guard holds, and the history row comes only from that move. */
  function Landed(env: Env, h: Head, version: nat, w: Write): Option<Head> {
    if h.version != version then None
    else match w
      case WriteAction(actionKey, stageKey, toStageKey, trail, flags, recorded, flagsAdded, flagsRemoved, sections) =>
        if h.file.state.stageKey != Some(stageKey) then None
        else
          var state := h.file.state.(stageKey := toStageKey, trail := trail, flags := flags, recorded := h.file.state.recorded + recorded);
          Some(Head(
            File(state, h.file.openRevisions + sections), h.version + 1,
            h.history + [Row(h.version + 1, actionKey, stageKey, toStageKey, flagsAdded, flagsRemoved, recorded)]))
      case WriteWithdrawal(stageKey, flags) =>
        if h.file.state.stageKey != Some(stageKey) || h.file.openRevisions == 0 then None
        else Some(Head(File(h.file.state.(flags := flags), h.file.openRevisions - 1), h.version + 1, h.history))
      case WriteResubmission(answers) =>
        if h.file.openRevisions == 0 then None
        else
          var state := h.file.state.(flags := h.file.state.flags - EditableFlags(env.definition), answers := answers);
          Some(Head(File(state, 0), h.version + 1, h.history))
  }

  function After(env: Env, w: World, e: Event): World {
    match e
    case Reads(id, seen) =>
      if seen != w.head.version then w.(sessions := w.sessions - {id})
      else w.(sessions := w.sessions[id := Reading(w.head.file, w.head.version)])
    case Decides(id, s) =>
      if id !in w.sessions || !w.sessions[id].Reading? then w
      else
        var write := Decided(env, w.sessions[id].file, s);
        if write.None? then w.(sessions := w.sessions - {id})
        else w.(sessions := w.sessions[id := Writing(w.sessions[id].version, s, write.value)])
    case Writes(id) =>
      if id !in w.sessions || !w.sessions[id].Writing? then w
      else
        var landed := Landed(env, w.head, w.sessions[id].version, w.sessions[id].write);
        World(if landed.Some? then landed.value else w.head, w.sessions - {id})
  }

  /** The step an event commits, if it is a write that lands. */
  function CommittedBy(env: Env, w: World, e: Event): seq<Step> {
    if e.Writes? && e.id in w.sessions && w.sessions[e.id].Writing? &&
       Landed(env, w.head, w.sessions[e.id].version, w.sessions[e.id].write).Some?
    then [w.sessions[e.id].step] else []
  }

  function AfterAll(env: Env, w: World, events: seq<Event>): World {
    if events == [] then w else After(env, AfterAll(env, w, events[..|events| - 1]), events[|events| - 1])
  }

  function Committed(env: Env, w: World, events: seq<Event>): seq<Step> {
    if events == [] then []
    else
      var front := events[..|events| - 1];
      Committed(env, w, front) + CommittedBy(env, AfterAll(env, w, front), events[|events| - 1])
  }

  // ---- The serial run, and its history ----

  /** The history row a step leaves: one for an action, none for the applicant's and the office's other writes. */
  function RowOf(env: Env, f: File, version: nat, s: Step): seq<Row> {
    if s.Take? && PlanFor(env, f, s.action, s.inputs).Some? then
      var plan := PlanFor(env, f, s.action, s.inputs).value;
      [Row(version, s.action.key, plan.fromStageKey, plan.toStageKey, plan.flagsAdded, plan.flagsRemoved, plan.recorded)]
    else []
  }

  /** The head a step takes the file to. */
  function Then(env: Env, h: Head, s: Step): Option<Head> {
    var stepped := Stepped(env, h.file, s);
    if stepped.None? then None else Some(Head(stepped.value, h.version + 1, h.history + RowOf(env, h.file, h.version + 1, s)))
  }

  /** One request at a time: what the head becomes, its history with it. */
  function Worked(env: Env, h: Head, steps: seq<Step>): Option<Head> {
    if steps == [] then Some(h)
    else
      var before := Worked(env, h, steps[..|steps| - 1]);
      if before.None? then None else Then(env, before.value, steps[|steps| - 1])
  }

  lemma WorkedOnce(env: Env, h: Head, steps: seq<Step>, s: Step)
    requires Worked(env, h, steps).Some?
    ensures Worked(env, h, steps + [s]) == Then(env, Worked(env, h, steps).value, s)
  {
    var more := steps + [s];
    assert more != [] && more[..|more| - 1] == steps && more[|more| - 1] == s;
  }

  /** The serial run of the file, with its version counting the steps. */
  lemma {:induction false} WorkedIsTheRun(env: Env, h: Head, steps: seq<Step>)
    ensures Worked(env, h, steps).Some? <==> RunFrom(env, h.file, steps).Some?
    ensures Worked(env, h, steps).Some? ==>
      && Worked(env, h, steps).value.file == RunFrom(env, h.file, steps).value
      && Worked(env, h, steps).value.version == h.version + |steps|
  {
    if steps != [] {
      WorkedIsTheRun(env, h, steps[..|steps| - 1]);
    }
  }

  /** Deciding and then writing, with nothing between, is exactly taking the step. */
  lemma DecidedOnTheHeadIsStepped(env: Env, h: Head, s: Step)
    ensures Decided(env, h.file, s).Some? <==> Stepped(env, h.file, s).Some?
    ensures Decided(env, h.file, s).Some? ==> Landed(env, h, h.version, Decided(env, h.file, s).value) == Then(env, h, s)
  {
    if s.Take? && Decided(env, h.file, s).Some? {
      StackAfter(env, h.file, s.action, s.inputs, PlanFor(env, h.file, s.action, s.inputs).value);
    }
    assert h.history + [] == h.history;
  }

  /** What is known of every session: nothing read is newer than the head, and what is as new as the head was read from it. */
  ghost predicate Current(env: Env, w: World) {
    forall id :: id in w.sessions ==> SessionIsCurrent(env, w.head, w.sessions[id])
  }

  ghost predicate SessionIsCurrent(env: Env, h: Head, s: Session) {
    && s.version <= h.version
    && (s.version == h.version ==>
         if s.Reading? then s.file == h.file else Decided(env, h.file, s.step) == Some(s.write))
  }

  lemma EventKeepsCurrent(env: Env, w: World, e: Event)
    requires Current(env, w)
    ensures Current(env, After(env, w, e))
  {
  }

  /** A write lands exactly when its session read the head's version, and then the head takes the session's own step. */
  lemma WriteLandsIffCurrent(env: Env, w: World, id: nat)
    requires Current(env, w) && id in w.sessions && w.sessions[id].Writing?
    ensures var landed := Landed(env, w.head, w.sessions[id].version, w.sessions[id].write);
      && (landed.Some? <==> w.sessions[id].version == w.head.version)
      && (landed.Some? ==> landed == Then(env, w.head, w.sessions[id].step))
  {
    assert SessionIsCurrent(env, w.head, w.sessions[id]);
    DecidedOnTheHeadIsStepped(env, w.head, w.sessions[id].step);
  }

  /** Of any requests that read the same version, no two land: the first to land leaves the others stale. */
  lemma OnlyOneLands(env: Env, w: World, first: nat, second: nat)
    requires Current(env, w) && first != second && first in w.sessions && second in w.sessions
    requires w.sessions[first].Writing? && w.sessions[second].Writing? && w.sessions[first].version == w.sessions[second].version
    ensures var after := After(env, w, Writes(first));
      CommittedBy(env, w, Writes(first)) != [] ==>
        CommittedBy(env, after, Writes(second)) == [] && After(env, after, Writes(second)).head == after.head
  {
    WriteLandsIffCurrent(env, w, first);
  }

  // ---- What the screen a request was made from has to do with it ----

  /** The version on the screen of the latest of these requests made as `id`. */
  function LatestSeen(events: seq<Event>, id: nat): Option<nat> {
    if events == [] then None
    else
      var last := events[|events| - 1];
      if last.Reads? && last.id == id then Some(last.seen) else LatestSeen(events[..|events| - 1], id)
  }

  /** Every request still being worked is on the version its own screen showed. */
  lemma {:induction false} SessionsAreAsSeen(env: Env, w: World, events: seq<Event>, id: nat)
    requires w.sessions == map[] && id in AfterAll(env, w, events).sessions
    ensures LatestSeen(events, id) == Some(AfterAll(env, w, events).sessions[id].version)
  {
    var front, e := events[..|events| - 1], events[|events| - 1];
    if !(e.Reads? && e.id == id) {
      SessionsAreAsSeen(env, w, front, id);
    }
  }

  predicate Commits(env: Env, w: World, events: seq<Event>, n: nat) {
    n < |events| && CommittedBy(env, AfterAll(env, w, events[..n]), events[n]) != []
  }

  /**
   * A request is only ever written onto what its officer or applicant was looking at: when one commits, the
   * version on the screen it was made from is the version the file has at that moment.
   */
  lemma CommitsAsSeen(env: Env, w: World, events: seq<Event>, n: nat)
    requires w.sessions == map[] && Commits(env, w, events, n)
    ensures LatestSeen(events[..n], events[n].id) == Some(AfterAll(env, w, events[..n]).head.version)
  {
    SessionsAreAsSeen(env, w, events[..n], events[n].id);
  }

  lemma {:induction false} VersionsOnlyGrow(env: Env, w: World, events: seq<Event>, n: nat)
    requires n <= |events|
    ensures AfterAll(env, w, events[..n]).head.version <= AfterAll(env, w, events).head.version
    ensures n < |events| && Commits(env, w, events, n) ==>
      AfterAll(env, w, events[..n]).head.version < AfterAll(env, w, events).head.version
  {
    if n == |events| {
      assert events[..n] == events;
    } else {
      var front := events[..|events| - 1];
      assert front[..n] == events[..n];
      VersionsOnlyGrow(env, w, front, n);
    }
  }

  /** Of all the requests made from one version's screen, whenever each is read, at most one is ever written. */
  lemma OneCommitFromEachScreen(env: Env, w: World, events: seq<Event>, n: nat, m: nat)
    requires w.sessions == map[] && n < m && Commits(env, w, events, n) && Commits(env, w, events, m)
    ensures var first, second := LatestSeen(events[..n], events[n].id), LatestSeen(events[..m], events[m].id);
      first.Some? && second.Some? && first.value < second.value
  {
    CommitsAsSeen(env, w, events, n);
    CommitsAsSeen(env, w, events, m);
    assert events[..m][..n] == events[..n];
    VersionsOnlyGrow(env, w, events[..m], n);
  }

  // ---- Every interleaving is some serial run ----

  /**
   * In every interleaving of reads, decisions and guarded writes, the head is what working the committed
   * steps one at a time makes of it, each decided on the very state it was applied to: the file is that
   * run's, the version counts the steps, and the history is that run's history.
   */
  lemma {:induction false} EveryInterleavingIsSerial(env: Env, h: Head, events: seq<Event>)
    ensures var w := AfterAll(env, World(h, map[]), events);
      var steps := Committed(env, World(h, map[]), events);
      && Current(env, w)
      && Worked(env, h, steps) == Some(w.head)
      && RunFrom(env, h.file, steps) == Some(w.head.file)
      && w.head.version == h.version + |steps|
  {
    if events != [] {
      var front, e := events[..|events| - 1], events[|events| - 1];
      EveryInterleavingIsSerial(env, h, front);
      var w := AfterAll(env, World(h, map[]), front);
      EventKeepsCurrent(env, w, e);
      OneMoreEvent(env, h, w, Committed(env, World(h, map[]), front), e);
    }
    WorkedIsTheRun(env, h, Committed(env, World(h, map[]), events));
  }

  lemma OneMoreEvent(env: Env, start: Head, w: World, steps: seq<Step>, e: Event)
    requires Current(env, w) && Worked(env, start, steps) == Some(w.head)
    ensures Worked(env, start, steps + CommittedBy(env, w, e)) == Some(After(env, w, e).head)
  {
    if CommittedBy(env, w, e) == [] {
      assert steps + [] == steps;
    } else {
      WriteLandsIffCurrent(env, w, e.id);
      WorkedOnce(env, start, steps, w.sessions[e.id].step);
    }
  }

  /** And every serial run happens: reading, deciding and writing one step after another takes the head through it. */
  lemma {:induction false} EverySerialRunHappens(env: Env, h: Head, steps: seq<Step>) returns (events: seq<Event>)
    requires Worked(env, h, steps).Some?
    ensures AfterAll(env, World(h, map[]), events) == World(Worked(env, h, steps).value, map[])
  {
    if steps == [] {
      events := [];
    } else {
      var front, s := steps[..|steps| - 1], steps[|steps| - 1];
      var before := EverySerialRunHappens(env, h, front);
      var head := Worked(env, h, front).value;
      events := before + [Reads(0, head.version)] + [Decides(0, s)] + [Writes(0)];
      DecidedOnTheHeadIsStepped(env, head, s);
      AtOnce(env, head, s);
      AfterOneMore(env, World(h, map[]), before, Reads(0, head.version));
      AfterOneMore(env, World(h, map[]), before + [Reads(0, head.version)], Decides(0, s));
      AfterOneMore(env, World(h, map[]), before + [Reads(0, head.version)] + [Decides(0, s)], Writes(0));
    }
  }

  lemma AfterOneMore(env: Env, w: World, events: seq<Event>, e: Event)
    ensures AfterAll(env, w, events + [e]) == After(env, AfterAll(env, w, events), e)
  {
    assert (events + [e])[..|events|] == events;
  }

  lemma AtOnce(env: Env, h: Head, s: Step)
    requires Then(env, h, s).Some?
    ensures After(env, After(env, After(env, World(h, map[]), Reads(0, h.version)), Decides(0, s)), Writes(0))
      == World(Then(env, h, s).value, map[])
  {
    DecidedOnTheHeadIsStepped(env, h, s);
    var read := After(env, World(h, map[]), Reads(0, h.version));
    var decided := After(env, read, Decides(0, s));
    assert read.sessions == map[0 := Reading(h.file, h.version)];
    assert decided.sessions == map[0 := Writing(h.version, s, Decided(env, h.file, s).value)];
    assert decided.sessions - {0} == map[];
  }

  /** So whatever officers and the applicant do at once, a sound document's file stays safe. */
  lemma EveryInterleavingIsSafe(env: Env, answers: Values, version: nat, events: seq<Event>)
    requires SoundEnv(env)
    ensures Safe(env.definition, AfterAll(env, World(Head(Submitted(env, answers), version, []), map[]), events).head.file)
  {
    var h := Head(Submitted(env, answers), version, []);
    EveryInterleavingIsSerial(env, h, events);
    EveryRunIsSafe(env, answers, Committed(env, World(h, map[]), events));
  }

  // ---- What the history says ----

  /** One row at most for each version, in order. */
  ghost predicate InOrder(after: nat, upTo: nat, rows: seq<Row>) {
    && (forall i :: 0 <= i < |rows| ==> after < rows[i].version <= upTo)
    && forall i, j :: 0 <= i < j < |rows| ==> rows[i].version < rows[j].version
  }

  /** An action leaves one row, saying what its plan did. */
  lemma ActionLeavesARow(env: Env, h: Head, s: Step) returns (plan: Plan)
    requires s.Take? && Then(env, h, s).Some?
    ensures PlanFor(env, h.file, s.action, s.inputs) == Some(plan)
    ensures var after := Then(env, h, s).value;
      && after.file.state == Written(h.file.state, plan) && after.version == h.version + 1
      && after.history == h.history + [Row(
           h.version + 1, s.action.key, plan.fromStageKey, plan.toStageKey, plan.flagsAdded, plan.flagsRemoved, plan.recorded)]
  {
    plan := PlanFor(env, h.file, s.action, s.inputs).value;
  }

  /** What is not an action leaves none, and changes only the editable flags and the answers. */
  lemma OthersLeaveNoRow(env: Env, h: Head, s: Step)
    requires !s.Take? && Then(env, h, s).Some?
    ensures var after := Then(env, h, s).value;
      && after.history == h.history && after.version == h.version + 1
      && after.file.state.stageKey == h.file.state.stageKey && after.file.state.recorded == h.file.state.recorded
      && (after.file.state.flags == h.file.state.flags || after.file.state.flags == h.file.state.flags - EditableFlags(env.definition))
  {
    assert h.history + [] == h.history;
  }

  lemma StepKeepsOrder(env: Env, start: nat, h: Head, s: Step)
    requires InOrder(start, h.version, h.history) && start <= h.version && Then(env, h, s).Some?
    ensures InOrder(start, Then(env, h, s).value.version, Then(env, h, s).value.history) && start <= Then(env, h, s).value.version
  {
    if s.Take? {
      var plan := ActionLeavesARow(env, h, s);
    } else {
      OthersLeaveNoRow(env, h, s);
    }
  }

  lemma {:induction false} RowsAreInOrder(env: Env, h: Head, steps: seq<Step>)
    requires h.history == [] && Worked(env, h, steps).Some?
    ensures InOrder(h.version, Worked(env, h, steps).value.version, Worked(env, h, steps).value.history)
    ensures h.version <= Worked(env, h, steps).value.version
  {
    if steps != [] {
      var front, s := steps[..|steps| - 1], steps[|steps| - 1];
      RowsAreInOrder(env, h, front);
      StepKeepsOrder(env, h.version, Worked(env, h, front).value, s);
    }
  }

  // Replaying the rows from what submission set.

  function ReplayFlags(flags: set<Key>, rows: seq<Row>): set<Key> {
    if rows == [] then flags
    else var row := rows[|rows| - 1]; ReplayFlags(flags, rows[..|rows| - 1]) - row.flagsRemoved + row.flagsAdded
  }

  function ReplayRecorded(recorded: Values, rows: seq<Row>): Values {
    if rows == [] then recorded else ReplayRecorded(recorded, rows[..|rows| - 1]) + rows[|rows| - 1].recorded
  }

  function ReplayStage(stageKey: Option<Key>, rows: seq<Row>): Option<Key> {
    if rows == [] then stageKey else rows[|rows| - 1].toStageKey
  }

  /** What some row says an action added. */
  ghost predicate AddedByARow(rows: seq<Row>, k: Key) { exists i :: 0 <= i < |rows| && k in rows[i].flagsAdded }

  /** How what the rows rebuild stands to the head. */
  ghost predicate Rebuilds(d: Definition, start: FileState, h: Head) {
    var replayed := ReplayFlags(start.flags, h.history);
    && ReplayStage(start.stageKey, h.history) == h.file.state.stageKey
    && ReplayRecorded(start.recorded, h.history) == h.file.state.recorded
    && replayed - EditableFlags(d) == h.file.state.flags - EditableFlags(d)
    && h.file.state.flags <= replayed
    && forall k :: k in EditableFlags(d) ==> (k in replayed <==> AddedByARow(h.history, k))
  }

  lemma PlannedFromNoEditable(env: Env, f: File, action: Action, inputs: Values, plan: Plan)
    requires PlanFor(env, f, action, inputs) == Some(plan)
    ensures plan.flagsRemoved !! EditableFlags(env.definition)
    ensures plan.flagsAdded !! f.state.flags && plan.flagsRemoved <= f.state.flags
  {
    var stage := StageOf(env.definition, f.state.stageKey).value;
    WrittenFlagsAreThePlans(env.host, ContextOf(env, f, stage, action, inputs), plan);
    AwaitsIsEditable(env.definition, f.state.flags);
  }

  lemma RowAddsToRows(rows: seq<Row>, row: Row, k: Key)
    ensures AddedByARow(rows + [row], k) <==> AddedByARow(rows, k) || k in row.flagsAdded
  {
    var more := rows + [row];
    if i :| 0 <= i < |rows| && k in rows[i].flagsAdded { assert k in more[i].flagsAdded; }
    if k in row.flagsAdded { assert k in more[|rows|].flagsAdded; }
  }

  lemma ActionKeepsRebuilding(env: Env, start: FileState, h: Head, s: Step)
    requires s.Take? && Then(env, h, s).Some? && Rebuilds(env.definition, start, h)
    ensures Rebuilds(env.definition, start, Then(env, h, s).value)
  {
    var plan := ActionLeavesARow(env, h, s);
    PlannedFromNoEditable(env, h.file, s.action, s.inputs, plan);
    var row := Row(h.version + 1, s.action.key, plan.fromStageKey, plan.toStageKey, plan.flagsAdded, plan.flagsRemoved, plan.recorded);
    OneMoreRow(env.definition, start, h, row, Then(env, h, s).value);
  }

  lemma OneMoreRow(d: Definition, start: FileState, h: Head, row: Row, after: Head)
    requires Rebuilds(d, start, h) && row.flagsRemoved !! EditableFlags(d)
    requires after.history == h.history + [row] && after.file.state.stageKey == row.toStageKey
    requires after.file.state.recorded == h.file.state.recorded + row.recorded
    requires after.file.state.flags == (h.file.state.flags - row.flagsRemoved) + (row.flagsAdded - h.file.state.flags)
    requires row.flagsAdded !! h.file.state.flags
    ensures Rebuilds(d, start, after)
  {
    assert after.history[..|after.history| - 1] == h.history;
    var editable, replayed := EditableFlags(d), ReplayFlags(start.flags, h.history);
    assert ReplayFlags(start.flags, after.history) == replayed - row.flagsRemoved + row.flagsAdded;
    forall k | k !in editable ensures k in replayed <==> k in h.file.state.flags {
      assert k in replayed - editable <==> k in h.file.state.flags - editable;
    }
    forall k ensures AddedByARow(after.history, k) <==> AddedByARow(h.history, k) || k in row.flagsAdded {
      RowAddsToRows(h.history, row, k);
    }
  }

  lemma {:induction false} HistoryRebuildsTheHead(env: Env, h: Head, steps: seq<Step>)
    requires h.history == [] && h.file.state.flags !! EditableFlags(env.definition) && Worked(env, h, steps).Some?
    ensures Rebuilds(env.definition, h.file.state, Worked(env, h, steps).value)
  {
    if steps != [] {
      var front, s := steps[..|steps| - 1], steps[|steps| - 1];
      HistoryRebuildsTheHead(env, h, front);
      if s.Take? {
        ActionKeepsRebuilding(env, h.file.state, Worked(env, h, front).value, s);
      } else {
        OthersLeaveNoRow(env, Worked(env, h, front).value, s);
      }
    }
  }

  /** The editable flags some row says an action added. */
  ghost function EditableAdded(d: Definition, rows: seq<Row>): set<Key> { set k | k in EditableFlags(d) && AddedByARow(rows, k) }

  /**
   * After any interleaving from a submission: the rows are in order, at most one for each version; replaying
   * them gives the stage and the recorded values exactly; and it gives the flags exactly when the rows added
   * no editable flag, or one only and the file awaits the applicant now. Flags apart from the editable ones
   * always agree: resubmissions and withdrawn requests, which leave no row, take only those.
   */
  lemma HistoryRebuildsTheFile(env: Env, answers: Values, version: nat, events: seq<Event>)
    requires SoundEnv(env)
    ensures var start := Submitted(env, answers).state;
      var head := AfterAll(env, World(Head(Submitted(env, answers), version, []), map[]), events).head;
      var added := EditableAdded(env.definition, head.history);
      && InOrder(version, head.version, head.history)
      && Rebuilds(env.definition, start, head)
      && (ReplayFlags(start.flags, head.history) == head.file.state.flags <==>
            added == {} || (AwaitsApplicant(env.definition, head.file.state.flags) && |added| == 1))
  {
    var h := Head(Submitted(env, answers), version, []);
    EveryInterleavingIsSerial(env, h, events);
    var steps := Committed(env, World(h, map[]), events);
    RowsAreInOrder(env, h, steps);
    SubmittedHoldsNoEditable(env, answers);
    HistoryRebuildsTheHead(env, h, steps);
    EveryRunIsSafe(env, answers, steps);
    FlagsAgreeIff(env.definition, h.file.state, Worked(env, h, steps).value);
  }

  lemma SubmittedHoldsNoEditable(env: Env, answers: Values)
    requires SoundEnv(env)
    ensures Submitted(env, answers).state.flags !! EditableFlags(env.definition)
  {
    AwaitsIsEditable(env.definition, {});
    forall k | k in env.definition.onSubmit ensures !Editable(env.definition, k) { SubmitFlagsAreOrdinary(env, k); }
  }

  lemma FlagsAgreeIff(d: Definition, start: FileState, h: Head)
    requires Rebuilds(d, start, h) && AtMostOneEditable(d, h.file.state.flags)
    ensures var added := EditableAdded(d, h.history);
      ReplayFlags(start.flags, h.history) == h.file.state.flags <==>
        added == {} || (AwaitsApplicant(d, h.file.state.flags) && |added| == 1)
  {
    AwaitsIsEditable(d, h.file.state.flags);
    var replayed, flags, added := ReplayFlags(start.flags, h.history), h.file.state.flags, EditableAdded(d, h.history);
    assert added == replayed * EditableFlags(d);
    assert replayed == flags <==> added <= flags by { SplitByEditable(replayed, flags, EditableFlags(d)); }
    if AwaitsApplicant(d, flags) {
      var k :| k in flags && Editable(d, k);
      OneElementOrMore(added, k);
      assert added <= flags <==> added == {k};
    }
  }

  lemma SplitByEditable(replayed: set<Key>, flags: set<Key>, editable: set<Key>)
    requires replayed - editable == flags - editable && flags <= replayed
    ensures replayed == flags <==> replayed * editable <= flags
  {
    if replayed * editable <= flags {
      forall k | k in replayed ensures k in flags {
        if k !in editable { assert k in replayed - editable; }
      }
    }
  }

  lemma OneElementOrMore<T>(s: set<T>, x: T)
    requires x in s
    ensures |s| == 1 <==> s == {x}
  {
    if |s| == 1 { assert |s - {x}| == 0; }
  }

  // ---- What the history says of corrections ----

  /** A row adds an editable flag exactly when its action asked for a revision. */
  lemma RowAddsWhatWasAsked(env: Env, f: File, s: Step)
    requires SoundEnv(env) && EndingsAddNoEditable(env.definition) && s.Take? && Stepped(env, f, s).Some?
    ensures var plan := PlanFor(env, f, s.action, s.inputs).value;
      plan.flagsAdded * EditableFlags(env.definition) != {} <==> plan.revisionFlag.Some?
  {
    var d, plan := env.definition, PlanFor(env, f, s.action, s.inputs).value;
    var stage := StageOf(d, f.state.stageKey).value;
    FoundStage(d.stages, f.state.stageKey.value);
    WrittenFlagsAreThePlans(env.host, ContextOf(env, f, stage, s.action, s.inputs), plan);
    DestinationComesFromAnEffect(env.host, ContextOf(env, f, stage, s.action, s.inputs), plan);
    NoEditableEnding(env, f, s.action, s.inputs, plan);
    AwaitsIsEditable(d, f.state.flags);
    forall k | Editable(d, k) ensures k in plan.flagsAdded <==> plan.revisionFlag == Some(k) {
      EditableAfterTake(env, f, s.action, s.inputs, plan, k);
    }
    if plan.revisionFlag.Some? { SoundFlags(env, stage, s.action, plan.revisionFlag.value); }
  }

  /** The rows added an editable flag exactly when some step asked for a revision. */
  lemma {:induction false} AddedIffAsked(env: Env, answers: Values, version: nat, steps: seq<Step>)
    requires SoundEnv(env) && EndingsAddNoEditable(env.definition)
    requires Worked(env, Head(Submitted(env, answers), version, []), steps).Some?
    ensures EditableAdded(env.definition, Worked(env, Head(Submitted(env, answers), version, []), steps).value.history) != {}
      <==> exists i :: 0 <= i < |steps| && AsksAt(env, answers, steps, i)
  {
    var h := Head(Submitted(env, answers), version, []);
    if steps != [] {
      var front, s := steps[..|steps| - 1], steps[|steps| - 1];
      AddedIffAsked(env, answers, version, front);
      WorkedIsTheRun(env, h, front);
      var before := Worked(env, h, front).value;
      AskedBefore(env, answers, front, steps);
      if s.Take? {
        RowAddsWhatWasAsked(env, before.file, s);
        var plan := ActionLeavesARow(env, before, s);
        var row := Row(before.version + 1, s.action.key, plan.fromStageKey, plan.toStageKey, plan.flagsAdded, plan.flagsRemoved, plan.recorded);
        AddedWithARow(env.definition, before.history, row);
      } else {
        OthersLeaveNoRow(env, before, s);
      }
    }
  }

  lemma AskedBefore(env: Env, answers: Values, front: seq<Step>, steps: seq<Step>)
    requires steps != [] && front == steps[..|steps| - 1]
    ensures (exists i :: 0 <= i < |steps| && AsksAt(env, answers, steps, i)) <==>
      (AsksAt(env, answers, steps, |front|) || exists i :: 0 <= i < |front| && AsksAt(env, answers, front, i))
  {
    forall i | 0 <= i < |front| ensures AsksAt(env, answers, front, i) <==> AsksAt(env, answers, steps, i) {
      assert front[..i] == steps[..i];
    }
  }

  lemma AddedWithARow(d: Definition, rows: seq<Row>, row: Row)
    ensures EditableAdded(d, rows + [row]) != {} <==> EditableAdded(d, rows) != {} || row.flagsAdded * EditableFlags(d) != {}
  {
    forall k ensures AddedByARow(rows + [row], k) <==> AddedByARow(rows, k) || k in row.flagsAdded {
      RowAddsToRows(rows, row, k);
    }
    assert EditableAdded(d, rows + [row]) == EditableAdded(d, rows) + row.flagsAdded * EditableFlags(d);
  }

  /**
   * Where only revision requests add editable flags, replay gives the flags exactly when nobody asked for
   * a correction, or one is open and only its flag was ever asked with.
   */
  lemma HistoryRebuildsWhileACorrectionIsOpen(env: Env, answers: Values, version: nat, events: seq<Event>)
    requires SoundEnv(env) && EndingsAddNoEditable(env.definition)
    ensures var w := World(Head(Submitted(env, answers), version, []), map[]);
      var head, steps := AfterAll(env, w, events).head, Committed(env, w, events);
      ReplayFlags(Submitted(env, answers).state.flags, head.history) == head.file.state.flags <==>
        || (forall i :: 0 <= i < |steps| ==> !AsksAt(env, answers, steps, i))
        || (head.file.openRevisions > 0 && |EditableAdded(env.definition, head.history)| == 1)
  {
    var h := Head(Submitted(env, answers), version, []);
    EveryInterleavingIsSerial(env, h, events);
    var steps := Committed(env, World(h, map[]), events);
    HistoryRebuildsTheFile(env, answers, version, events);
    AddedIffAsked(env, answers, version, steps);
    HeldExactlyWhileOpen(env, answers, steps);
  }
}
