/**
 * How a transition on a shared connection ends (src/db/index.ts: `batch`): decided by its own steps alone,
 * and by whether each of them succeeded.
 */
module BatchOutcomes {
  import opened Common
  import opened ConnectionBatches

  /** Whether each step a call took in a schedule succeeded, in order: building, BEGIN, its statements, COMMIT. */
  function StepsOf(events: seq<Event>, i: nat): seq<bool> {
    if events == [] then []
    else
      var last := events[|events| - 1];
      StepsOf(events[..|events| - 1], i) + if last.Continue? && last.call == i then [last.ok] else []
  }

  /** All a call may send down the wire if nothing is refused. */
  function Transaction(statements: seq<string>): seq<Op> { [Begin] + Statements(statements) + [Commit] }

  predicate AllWell(steps: seq<bool>) { forall k :: 0 <= k < |steps| ==> steps[k] }

  /** The first of these steps that did not succeed. */
  predicate Refused(steps: seq<bool>, f: nat) { f < |steps| && !steps[f] && AllWell(steps[..f]) }

  /** With every step so far successful: each but the first has sent the next of the transaction, and the last settles the call. */
  predicate GoesWell(c: Call, steps: nat) {
    && steps <= |c.statements| + 3
    && c.issued == Transaction(c.statements)[..if steps == 0 then 0 else steps - 1]
    && c.phase == if steps == 0 then Waiting else if steps == 1 then Opening
                  else if steps < |c.statements| + 3 then Executing(steps - 2) else Settled(true)
  }

  /** With step `f` the first refused: only once BEGIN has succeeded is there something to roll back, in one more step. */
  predicate GoesWrong(c: Call, steps: nat, f: nat) {
    && f < |c.statements| + 3 && f < steps
    && var sent := Transaction(c.statements)[..f];
       if f < 2 then steps == f + 1 && c.phase == Settled(false) && c.issued == sent
       else if steps == f + 1 then c.phase == Failing && c.issued == sent
       else steps == f + 2 && c.phase == Settled(false) && c.issued == sent + [Rollback]
  }

  ghost predicate Stands(c: Call, steps: seq<bool>) {
    && (AllWell(steps) ==> GoesWell(c, |steps|))
    && forall f: nat :: Refused(steps, f) ==> GoesWrong(c, |steps|, f)
  }

  /** The call after one more step. */
  function Moved(c: Call, ok: bool): Call {
    var op := NextOp(c);
    c.(phase := NextPhase(c, ok), issued := if op.Some? then c.issued + [op.value] else c.issued)
  }

  lemma NextIsSent(c: Call, steps: nat)
    requires GoesWell(c, steps) && !c.phase.Settled?
    ensures if steps == 0 then NextOp(c).None? else NextOp(c) == Some(Transaction(c.statements)[steps - 1])
    ensures Moved(c, true).issued == Transaction(c.statements)[..steps]
  {
    var all := Transaction(c.statements);
    if steps > 0 { assert all[..steps] == all[..steps - 1] + [all[steps - 1]]; }
  }

  lemma WellOneMore(c: Call, steps: nat, ok: bool)
    requires GoesWell(c, steps) && !c.phase.Settled?
    ensures if ok then GoesWell(Moved(c, ok), steps + 1) else GoesWrong(Moved(c, ok), steps + 1, steps)
  {
    NextIsSent(c, steps);
  }

  lemma WrongOneMore(c: Call, steps: nat, f: nat, ok: bool)
    requires GoesWrong(c, steps, f) && !c.phase.Settled?
    ensures GoesWrong(Moved(c, ok), steps + 1, f)
  {
  }

  lemma StandsOneMore(c: Call, steps: seq<bool>, ok: bool)
    requires Stands(c, steps) && !c.phase.Settled?
    ensures Stands(Moved(c, ok), steps + [ok])
  {
    var more := steps + [ok];
    assert more[..|steps|] == steps;
    assert AllWell(more) ==> more[|steps|] && forall k :: 0 <= k < |steps| ==> more[k] == steps[k];
    if AllWell(steps) { WellOneMore(c, |steps|, ok); }
    forall f: nat | Refused(more, f) ensures GoesWrong(Moved(c, ok), |more|, f) {
      if f < |steps| {
        assert more[..f] == steps[..f] && Refused(steps, f);
        WrongOneMore(c, |steps|, f, ok);
      }
    }
  }

  /** Where every call of a schedule stands follows from how its own steps went. */
  lemma {:induction false} EveryCallStands(events: seq<Event>, s: State, i: nat)
    requires After(events) == Some(s) && i < |s.calls|
    ensures Stands(s.calls[i], StepsOf(events, i))
  {
    var front, e := events[..|events| - 1], events[|events| - 1];
    var before := After(front).value;
    if i < |before.calls| {
      EveryCallStands(front, before, i);
      if e.Continue? && e.call == i {
        StandsOneMore(before.calls[i], StepsOf(front, i), e.ok);
      } else {
        assert s.calls[i] == before.calls[i] && StepsOf(events, i) == StepsOf(front, i);
      }
    } else {
      NoStepsBefore(front, before, i);
    }
  }

  lemma {:induction false} NoStepsBefore(events: seq<Event>, s: State, i: nat)
    requires After(events) == Some(s) && i >= |s.calls|
    ensures StepsOf(events, i) == []
  {
    if events != [] {
      NoStepsBefore(events[..|events| - 1], After(events[..|events| - 1]).value, i);
    }
  }

  lemma {:induction false} SomeRefused(steps: seq<bool>) returns (f: nat)
    requires !AllWell(steps)
    ensures Refused(steps, f)
  {
    var front := steps[..|steps| - 1];
    if AllWell(front) {
      f := |steps| - 1;
    } else {
      f := SomeRefused(front);
      assert front[..f] == steps[..f];
    }
  }

  /**
   * A call settles well exactly when every step it took succeeded, and takes three more of them than it has
   * statements; what it sent is then BEGIN, its statements and COMMIT.
   */
  lemma SettledWellIffEveryStepWas(events: seq<Event>, s: State, i: nat)
    requires After(events) == Some(s) && i < |s.calls|
    ensures var c, steps := s.calls[i], StepsOf(events, i);
      && (c.phase == Settled(true) <==> AllWell(steps) && |steps| == |c.statements| + 3)
      && (c.phase.Settled? ==> (c.phase.ok <==> AllWell(steps)))
      && (c.phase == Settled(true) ==> SentBy(s.log, i) == [Begin] + Statements(c.statements) + [Commit])
  {
    EveryCallStands(events, s, i);
    EveryScheduleIsSerial(events, s);
    SentByBlocks(s.calls, i);
    var c := s.calls[i];
    assert Transaction(c.statements)[..|c.statements| + 2] == Transaction(c.statements);
    if !AllWell(StepsOf(events, i)) { var f := SomeRefused(StepsOf(events, i)); }
  }

  /**
   * What a call that failed sent follows from which of its steps was refused: nothing when its statements
   * could not be built, BEGIN alone when that was refused, and otherwise all up to and with the refused
   * statement or COMMIT, and then ROLLBACK.
   */
  lemma WhatAFailureSent(events: seq<Event>, s: State, i: nat, f: nat)
    requires After(events) == Some(s) && i < |s.calls| && s.calls[i].phase.Settled? && Refused(StepsOf(events, i), f)
    ensures f < |s.calls[i].statements| + 3 && !s.calls[i].phase.ok
    ensures var all := [Begin] + Statements(s.calls[i].statements) + [Commit];
      SentBy(s.log, i) == if f == 0 then [] else if f == 1 then [Begin] else all[..f] + [Rollback]
  {
    EveryCallStands(events, s, i);
    EveryScheduleIsSerial(events, s);
    SentByBlocks(s.calls, i);
    assert Transaction(s.calls[i].statements)[..1] == [Begin];
  }

  function Turns(i: nat, n: nat): seq<Event> { seq(n, _ => Continue(i, true)) }

  lemma OneMoreTurn(events: seq<Event>, i: nat, n: nat)
    ensures events + Turns(i, n + 1) == events + Turns(i, n) + [Continue(i, true)]
  {
    assert Turns(i, n + 1) == Turns(i, n) + [Continue(i, true)];
  }

  /** From its turn, a call whose every step succeeds goes through, in three more steps than it has statements. */
  lemma {:induction false} GoesThroughFromItsTurn(events: seq<Event>, s: State, i: nat, n: nat) returns (after: State)
    requires After(events) == Some(s) && MayContinue(s, i) && s.calls[i].phase.Waiting? && n <= |s.calls[i].statements| + 3
    ensures After(events + Turns(i, n)) == Some(after) && |after.calls| == |s.calls| && (n == 0 ==> after == s)
    ensures after.calls[i].statements == s.calls[i].statements && GoesWell(after.calls[i], n)
    ensures n == |s.calls[i].statements| + 3 ==>
      after.calls[i].phase == Settled(true) && SentBy(after.log, i) == [Begin] + Statements(s.calls[i].statements) + [Commit]
  {
    if n == 0 {
      assert events + Turns(i, 0) == events;
      EveryCallStands(events, s, i);
      after := s;
      NoRefusalWhileWaiting(s.calls[i], StepsOf(events, i));
    } else {
      var before := GoesThroughFromItsTurn(events, s, i, n - 1);
      after := OneTurn(events + Turns(i, n - 1), before, i, n - 1);
      OneMoreTurn(events, i, n - 1);
      if n == |s.calls[i].statements| + 3 {
        SettledFromItsTurn(events + Turns(i, n), after, i);
      }
    }
  }

  lemma OneTurn(events: seq<Event>, s: State, i: nat, n: nat) returns (after: State)
    requires After(events) == Some(s) && i < |s.calls| && GoesWell(s.calls[i], n) && n < |s.calls[i].statements| + 3
    requires n == 0 ==> MayContinue(s, i)
    ensures After(events + [Continue(i, true)]) == Some(after) && |after.calls| == |s.calls|
    ensures after.calls[i] == Moved(s.calls[i], true) && GoesWell(after.calls[i], n + 1)
  {
    var more := events + [Continue(i, true)];
    assert more[..|more| - 1] == events && more[|more| - 1] == Continue(i, true);
    after := Continued(s, i, true);
    WellOneMore(s.calls[i], n, true);
  }

  lemma NoRefusalWhileWaiting(c: Call, steps: seq<bool>)
    requires Stands(c, steps) && c.phase.Waiting?
    ensures GoesWell(c, 0)
  {
    if !AllWell(steps) { var f := SomeRefused(steps); }
  }

  lemma SettledFromItsTurn(events: seq<Event>, s: State, i: nat)
    requires After(events) == Some(s) && i < |s.calls| && s.calls[i].phase == Settled(true)
    ensures SentBy(s.log, i) == [Begin] + Statements(s.calls[i].statements) + [Commit]
  {
    SettledWellIffEveryStepWas(events, s, i);
  }
}
