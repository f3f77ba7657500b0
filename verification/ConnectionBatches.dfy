/**
 * Transitions on one connection (src/db/index.ts: `batch` and its chain of pending calls).
 *
 * Calls arrive at any time and their continuations run in any order; what keeps them apart is
 * only that each call begins once the call that was last in the chain when it arrived has settled.
 */
module ConnectionBatches {
  import opened Common

  datatype Op = Begin | Statement(text: string) | Commit | Rollback

  /** One thing sent down the wire, and the call that sent it. */
  datatype Entry = Entry(call: nat, op: Op)

  /** Where a call's continuation stands. Executing(n) with every statement sent is about to commit. */
  datatype Phase = Waiting | Opening | Executing(sent: nat) | Failing | Settled(ok: bool)

  /** `awaits` is the call this one was chained behind; `issued` is what it has sent so far. */
  datatype Call = Call(statements: seq<string>, awaits: Option<nat>, phase: Phase, issued: seq<Op>)

  datatype State = State(calls: seq<Call>, pending: Option<nat>, log: seq<Entry>)

  const INITIAL := State([], None, [])

  /** A new call chains itself behind the last one, and becomes the last one. */
  function Submitted(s: State, statements: seq<string>): State {
    State(s.calls + [Call(statements, s.pending, Waiting, [])], Some(|s.calls|), s.log)
  }

  /** A chained call may begin once what it awaits has settled, well or badly. */
  predicate MayContinue(s: State, i: nat) {
    && i < |s.calls|
    && !s.calls[i].phase.Settled?
    && (s.calls[i].phase.Waiting? && s.calls[i].awaits.Some? ==>
          s.calls[i].awaits.value < |s.calls| && s.calls[s.calls[i].awaits.value].phase.Settled?)
  }

  /** What call `c` sends next, if its next move is to send something. */
  function NextOp(c: Call): Option<Op> {
    match c.phase
    case Opening => Some(Begin)
    case Executing(k) => if k < |c.statements| then Some(Statement(c.statements[k])) else Some(Commit)
    case Failing => Some(Rollback)
    case _ => None
  }

  /** Where it stands afterwards: `ok` says whether building, or the statement sent, succeeded. */
  function NextPhase(c: Call, ok: bool): Phase {
    match c.phase
    case Waiting => if ok then Opening else Settled(false)
    case Opening => if ok then Executing(0) else Settled(false)
    case Executing(k) => if !ok then Failing else if k < |c.statements| then Executing(k + 1) else Settled(true)
    case Failing => Settled(false)
    case Settled(_) => c.phase
  }

  function Continued(s: State, i: nat, ok: bool): State
    requires MayContinue(s, i)
  {
    var c := s.calls[i];
    var op := NextOp(c);
    var issued := if op.Some? then c.issued + [op.value] else c.issued;
    s.(calls := s.calls[i := c.(phase := NextPhase(c, ok), issued := issued)],
       log := if op.Some? then s.log + [Entry(i, op.value)] else s.log)
  }

  // ---- Every schedule ----

  datatype Event = Submit(statements: seq<string>) | Continue(call: nat, ok: bool)

  predicate Allowed(s: State, e: Event) { e.Submit? || MayContinue(s, e.call) }

  function Next(s: State, e: Event): State
    requires Allowed(s, e)
  {
    match e
    case Submit(statements) => Submitted(s, statements)
    case Continue(i, ok) => Continued(s, i, ok)
  }

  /** The state a schedule leads to, if every continuation in it could have run when it did. */
  function After(events: seq<Event>): Option<State> {
    if events == [] then Some(INITIAL)
    else
      var before, e := After(events[..|events| - 1]), events[|events| - 1];
      if before.Some? && Allowed(before.value, e) then Some(Next(before.value, e)) else None
  }

  // ---- What holds in all of them ----

  function Tagged(i: nat, ops: seq<Op>): seq<Entry> {
    seq(|ops|, k requires 0 <= k < |ops| => Entry(i, ops[k]))
  }

  /** What the calls have sent, one call's block after another, in the order they arrived. */
  function Blocks(calls: seq<Call>): seq<Entry> {
    if calls == [] then [] else Blocks(calls[..|calls| - 1]) + Tagged(|calls| - 1, calls[|calls| - 1].issued)
  }

  function Statements(texts: seq<string>): seq<Op> {
    seq(|texts|, k requires 0 <= k < |texts| => Statement(texts[k]))
  }

  /** BEGIN and the first `k` statements. */
  function Opened(c: Call, k: nat): seq<Op>
    requires k <= |c.statements|
  {
    [Begin] + Statements(c.statements[..k])
  }

  /** A transaction cut short: some statements, the last of them refused, or all of them and a refused COMMIT. */
  ghost predicate CutShort(c: Call, issued: seq<Op>) {
    || (exists k :: 0 < k <= |c.statements| && issued == Opened(c, k))
    || issued == Opened(c, |c.statements|) + [Commit]
  }

  ghost predicate ShapedLike(c: Call) {
    match c.phase
    case Waiting => c.issued == []
    case Opening => c.issued == []
    case Executing(k) => k <= |c.statements| && c.issued == Opened(c, k)
    case Failing => CutShort(c, c.issued)
    case Settled(true) => c.issued == Opened(c, |c.statements|) + [Commit]
    case Settled(false) =>
      || c.issued == []
      || c.issued == [Begin]
      || exists cut :: CutShort(c, cut) && c.issued == cut + [Rollback]
  }

  ghost predicate Chained(s: State) {
    && s.pending == (if s.calls == [] then None else Some(|s.calls| - 1))
    && forall i :: 0 <= i < |s.calls| ==> s.calls[i].awaits == if i == 0 then None else Some(i - 1)
  }

  /** Until a call has settled, nothing after it has begun. */
  ghost predicate OneAtATime(s: State) {
    forall i, j :: 0 <= i < j < |s.calls| && !s.calls[i].phase.Settled? ==> s.calls[j].phase.Waiting?
  }

  ghost predicate Shaped(s: State) { forall i :: 0 <= i < |s.calls| ==> ShapedLike(s.calls[i]) }

  ghost predicate Serial(s: State) {
    Chained(s) && OneAtATime(s) && Shaped(s) && s.log == Blocks(s.calls)
  }

  lemma {:induction false} NothingSentYet(calls: seq<Call>, i: nat)
    requires i <= |calls| && forall j :: i <= j < |calls| ==> calls[j].issued == []
    ensures Blocks(calls) == Blocks(calls[..i])
  {
    if i == |calls| {
      assert calls[..i] == calls;
    } else {
      assert calls[..|calls| - 1][..i] == calls[..i];
      NothingSentYet(calls[..|calls| - 1], i);
    }
  }

  /** A call that sends something while nothing after it has adds to the end of the log. */
  lemma BlocksGrowAtTheEnd(calls: seq<Call>, i: nat, c: Call, op: Op)
    requires i < |calls| && forall j :: i < j < |calls| ==> calls[j].issued == []
    requires c.issued == calls[i].issued + [op]
    ensures Blocks(calls[i := c]) == Blocks(calls) + [Entry(i, op)]
  {
    var after := calls[i := c];
    NothingSentYet(calls, i + 1);
    NothingSentYet(after, i + 1);
    assert calls[..i + 1][..i] == calls[..i] && after[..i + 1][..i] == calls[..i];
    assert Tagged(i, c.issued) == Tagged(i, calls[i].issued) + [Entry(i, op)];
  }

  lemma {:induction false} BlocksSame(calls: seq<Call>, i: nat, c: Call)
    requires i < |calls| && c.issued == calls[i].issued
    ensures Blocks(calls[i := c]) == Blocks(calls)
  {
    if i < |calls| - 1 {
      BlocksSame(calls[..|calls| - 1], i, c);
      assert calls[i := c][..|calls| - 1] == calls[..|calls| - 1][i := c];
    } else {
      assert calls[i := c][..|calls| - 1] == calls[..|calls| - 1];
    }
  }

  lemma ShapeKept(c: Call, ok: bool)
    requires ShapedLike(c) && !c.phase.Settled?
    ensures var op := NextOp(c);
      ShapedLike(c.(phase := NextPhase(c, ok), issued := if op.Some? then c.issued + [op.value] else c.issued))
  {
    if c.phase.Executing? && c.phase.sent < |c.statements| {
      var k := c.phase.sent;
      assert c.statements[..k + 1] == c.statements[..k] + [c.statements[k]];
      assert Opened(c, k) + [Statement(c.statements[k])] == Opened(c, k + 1);
    }
    if c.phase.Opening? {
      assert Opened(c, 0) == [Begin] == [] + [Begin];
    }
    var op := NextOp(c);
    var c' := c.(phase := NextPhase(c, ok), issued := if op.Some? then c.issued + [op.value] else c.issued);
    assert forall issued :: CutShort(c, issued) ==> CutShort(c', issued) by {
      assert forall k: nat :: k <= |c.statements| ==> Opened(c', k) == Opened(c, k);
    }
  }

  lemma ContinueKeepsLog(s: State, i: nat, ok: bool)
    requires Serial(s) && MayContinue(s, i)
    ensures Continued(s, i, ok).log == Blocks(Continued(s, i, ok).calls)
  {
    forall j | i < j < |s.calls| ensures s.calls[j].issued == [] {
      assert ShapedLike(s.calls[j]);
    }
    var c := Continued(s, i, ok).calls[i];
    if NextOp(s.calls[i]).Some? {
      BlocksGrowAtTheEnd(s.calls, i, c, NextOp(s.calls[i]).value);
    } else {
      BlocksSame(s.calls, i, c);
    }
  }

  /** A call that may move follows only settled ones. */
  lemma MovesFirst(s: State, i: nat, j: nat)
    requires Chained(s) && OneAtATime(s) && MayContinue(s, i) && j < i
    ensures s.calls[j].phase.Settled?
  {
  }

  lemma ContinueKeepsShape(s: State, i: nat, ok: bool)
    requires Shaped(s) && MayContinue(s, i)
    ensures Shaped(Continued(s, i, ok))
  {
    assert ShapedLike(s.calls[i]);
    ShapeKept(s.calls[i], ok);
    var s' := Continued(s, i, ok);
    forall j | 0 <= j < |s'.calls| ensures ShapedLike(s'.calls[j]) {
      if j != i {
        assert s'.calls[j] == s.calls[j] && ShapedLike(s.calls[j]);
      }
    }
  }

  lemma ContinueKeepsOrder(s: State, i: nat, ok: bool)
    requires Chained(s) && OneAtATime(s) && MayContinue(s, i)
    ensures Chained(Continued(s, i, ok)) && OneAtATime(Continued(s, i, ok))
  {
    forall j | 0 <= j < i ensures s.calls[j].phase.Settled? {
      MovesFirst(s, i, j);
    }
  }

  lemma ContinueKeepsSerial(s: State, i: nat, ok: bool)
    requires Serial(s) && MayContinue(s, i)
    ensures Serial(Continued(s, i, ok))
  {
    ContinueKeepsLog(s, i, ok);
    ContinueKeepsShape(s, i, ok);
    ContinueKeepsOrder(s, i, ok);
  }

  lemma {:induction false} EveryScheduleIsSerial(events: seq<Event>, s: State)
    requires After(events) == Some(s)
    ensures Serial(s)
  {
    if events != [] {
      var front, e := events[..|events| - 1], events[|events| - 1];
      var before := After(front).value;
      EveryScheduleIsSerial(front, before);
      match e
      case Submit(statements) =>
        assert s.calls[..|s.calls| - 1] == before.calls;
      case Continue(i, ok) => ContinueKeepsSerial(before, i, ok);
    }
  }

  lemma {:induction false} BlocksInOrder(calls: seq<Call>, a: nat, b: nat)
    requires a <= b < |Blocks(calls)|
    ensures Blocks(calls)[a].call <= Blocks(calls)[b].call < |calls|
  {
    var front := calls[..|calls| - 1];
    if b < |Blocks(front)| {
      BlocksInOrder(front, a, b);
    } else if a < |Blocks(front)| {
      BlocksInOrder(front, a, a);
    }
  }

  /** Nothing one call sends falls between two things another sends, and earlier calls send first. */
  lemma NothingInterleaves(events: seq<Event>, s: State, a: nat, b: nat)
    requires After(events) == Some(s) && a <= b < |s.log|
    ensures s.log[a].call <= s.log[b].call
  {
    EveryScheduleIsSerial(events, s);
    BlocksInOrder(s.calls, a, b);
  }

  /** What one call sent, picked out of the whole log. */
  function SentBy(log: seq<Entry>, i: nat): seq<Op> {
    if log == [] then []
    else SentBy(log[..|log| - 1], i) + if log[|log| - 1].call == i then [log[|log| - 1].op] else []
  }

  lemma {:induction false} SentByBoth(a: seq<Entry>, b: seq<Entry>, i: nat)
    ensures SentBy(a + b, i) == SentBy(a, i) + SentBy(b, i)
  {
    if b == [] {
      assert a + b == a;
    } else {
      assert (a + b)[..|a + b| - 1] == a + b[..|b| - 1];
      SentByBoth(a, b[..|b| - 1], i);
    }
  }

  lemma {:induction false} SentByTagged(j: nat, ops: seq<Op>, i: nat)
    ensures SentBy(Tagged(j, ops), i) == if i == j then ops else []
  {
    if ops != [] {
      assert Tagged(j, ops)[..|ops| - 1] == Tagged(j, ops[..|ops| - 1]);
      SentByTagged(j, ops[..|ops| - 1], i);
    }
  }

  lemma {:induction false} SentByBlocks(calls: seq<Call>, i: nat)
    ensures SentBy(Blocks(calls), i) == if i < |calls| then calls[i].issued else []
  {
    if calls != [] {
      var front := calls[..|calls| - 1];
      SentByBlocks(front, i);
      SentByBoth(Blocks(front), Tagged(|calls| - 1, calls[|calls| - 1].issued), i);
      SentByTagged(|calls| - 1, calls[|calls| - 1].issued, i);
    }
  }

  /**
   * A call that succeeded sent BEGIN, each of its statements once in order, then COMMIT. One that
   * failed sent nothing, or a BEGIN that was refused, or a transaction cut short and then ROLLBACK.
   */
  lemma EveryCallIsWhole(events: seq<Event>, s: State, i: nat)
    requires After(events) == Some(s) && i < |s.calls| && s.calls[i].phase.Settled?
    ensures var c, sent := s.calls[i], SentBy(s.log, i);
      if c.phase.ok then sent == [Begin] + Statements(c.statements) + [Commit]
      else sent == [] || sent == [Begin] || exists cut :: CutShort(c, cut) && sent == cut + [Rollback]
  {
    EveryScheduleIsSerial(events, s);
    SentByBlocks(s.calls, i);
    assert ShapedLike(s.calls[i]);
    assert s.calls[i].statements[..|s.calls[i].statements|] == s.calls[i].statements;
  }

  // ---- Nothing stops the calls behind ----

  /** How many more moves a call can make. */
  function MovesLeft(c: Call): nat {
    match c.phase
    case Waiting => |c.statements| + 4
    case Opening => |c.statements| + 3
    case Executing(k) => (if k <= |c.statements| then |c.statements| - k else 0) + 2
    case Failing => 1
    case Settled(_) => 0
  }

  /**
   * While any call is unsettled, exactly the first of them can move, however the ones before it
   * ended, and every move brings it closer to settling.
   */
  lemma FirstUnsettledAlwaysMoves(events: seq<Event>, s: State, i: nat, ok: bool)
    requires After(events) == Some(s) && i < |s.calls| && !s.calls[i].phase.Settled?
    ensures MayContinue(s, i) <==> forall j :: 0 <= j < i ==> s.calls[j].phase.Settled?
    ensures MayContinue(s, i) ==> MovesLeft(Continued(s, i, ok).calls[i]) < MovesLeft(s.calls[i])
  {
    EveryScheduleIsSerial(events, s);
    assert ShapedLike(s.calls[i]);
    if MayContinue(s, i) {
      forall j | 0 <= j < i ensures s.calls[j].phase.Settled? {
        MovesFirst(s, i, j);
      }
    }
  }

  // ---- The handle the calls share ----

  class Connection {
    var calls: seq<Call>
    var pending: Option<nat>
    var log: seq<Entry>

    ghost function Now(): State
      reads this
    {
      State(calls, pending, log)
    }

    constructor ()
      ensures Now() == INITIAL
    {
      calls, pending, log := [], None, [];
    }

    /** `serially`: reads the chain's end and replaces it with the new call. */
    method Batch(statements: seq<string>) returns (call: nat)
      modifies this
      ensures call == old(|calls|) && Now() == Submitted(old(Now()), statements)
      ensures old(Serial(Now())) ==> Serial(Now())
    {
      call := |calls|;
      calls := calls + [Call(statements, pending, Waiting, [])];
      pending := Some(call);
      assert calls[..|calls| - 1] == old(calls);
    }

    /** One continuation of one call: from its last await to its next. */
    method Resume(i: nat, ok: bool)
      requires MayContinue(Now(), i)
      modifies this
      ensures Now() == Continued(old(Now()), i, ok)
      ensures old(Serial(Now())) ==> Serial(Now())
    {
      var c := calls[i];
      match c.phase {
        case Waiting =>
          calls := calls[i := c.(phase := if ok then Opening else Settled(false))];
        case Opening =>
          log := log + [Entry(i, Begin)];
          calls := calls[i := c.(phase := if ok then Executing(0) else Settled(false), issued := c.issued + [Begin])];
        case Executing(k) =>
          var op := if k < |c.statements| then Statement(c.statements[k]) else Commit;
          var next := if !ok then Failing else if k < |c.statements| then Executing(k + 1) else Settled(true);
          log := log + [Entry(i, op)];
          calls := calls[i := c.(phase := next, issued := c.issued + [op])];
        case Failing =>
          log := log + [Entry(i, Rollback)];
          calls := calls[i := c.(phase := Settled(false), issued := c.issued + [Rollback])];
        case Settled(_) =>
      }
      if old(Serial(Now())) {
        ContinueKeepsSerial(old(Now()), i, ok);
      }
    }
  }
}
