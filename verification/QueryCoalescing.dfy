/**
 * The browser's queue of queries (dev-web/src/lib/graphql.ts): the queries of one task leave
 * together, a mutation leaves alone, and each is answered by the outcome at its own place.
 */
module QueryCoalescing {
  import opened Common

  const MAX_BATCH := 10
  const NO_DATA := "The API returned no data."

  datatype Outcome = Data(data: string) | Error(message: string)

  datatype Settlement = Resolved(data: string) | Rejected(message: string)

  /** A request on its way: one sent at once on its own, or a chunk of those queued together. */
  datatype Outgoing = Direct(id: nat) | Chunk(ids: seq<nat>)

  /** What comes back for a whole request: an outcome for each place, or one failure for them all. */
  datatype Answer = Outcomes(outcomes: seq<Outcome>) | Failed(message: string)

  function Ids(o: Outgoing): seq<nat> { if o.Direct? then [o.id] else o.ids }

  // ---- Chunks ----

  function Chunks(batch: seq<nat>): seq<Outgoing>
    decreases |batch|
  {
    if |batch| == 0 then []
    else if |batch| <= MAX_BATCH then [Chunk(batch)]
    else [Chunk(batch[..MAX_BATCH])] + Chunks(batch[MAX_BATCH..])
  }

  /** The queued requests among those sent, in the order they left. */
  function Chunked(sent: seq<Outgoing>): seq<nat> {
    if sent == [] then [] else Chunked(sent[..|sent| - 1]) + if sent[|sent| - 1].Chunk? then sent[|sent| - 1].ids else []
  }

  function SentAlone(sent: seq<Outgoing>): seq<nat> {
    if sent == [] then [] else SentAlone(sent[..|sent| - 1]) + if sent[|sent| - 1].Direct? then [sent[|sent| - 1].id] else []
  }

  lemma {:induction false} SentOfBoth(a: seq<Outgoing>, b: seq<Outgoing>)
    ensures Chunked(a + b) == Chunked(a) + Chunked(b) && SentAlone(a + b) == SentAlone(a) + SentAlone(b)
  {
    if b == [] {
      assert a + b == a;
    } else {
      assert (a + b)[..|a + b| - 1] == a + b[..|b| - 1];
      SentOfBoth(a, b[..|b| - 1]);
    }
  }

  predicate FullEnough(chunks: seq<Outgoing>) {
    forall i :: 0 <= i < |chunks| ==>
      chunks[i].Chunk? && 1 <= |chunks[i].ids| <= 10 && (i < |chunks| - 1 ==> |chunks[i].ids| == 10)
  }

  /** Chunking keeps every query, in order, in pieces of one to ten, all but the last of them ten. */
  lemma {:induction false} ChunksKeepOrder(batch: seq<nat>)
    ensures Chunked(Chunks(batch)) == batch && SentAlone(Chunks(batch)) == [] && FullEnough(Chunks(batch))
    decreases |batch|
  {
    if |batch| > MAX_BATCH {
      var first, rest := Chunk(batch[..MAX_BATCH]), Chunks(batch[MAX_BATCH..]);
      ChunksKeepOrder(batch[MAX_BATCH..]);
      SentOfBoth([first], rest);
      assert [first][..0] == [] && Chunked([first]) == first.ids && SentAlone([first]) == [];
      assert batch[..MAX_BATCH] + batch[MAX_BATCH..] == batch;
      assert rest != [];
    } else if |batch| > 0 {
      assert [Chunk(batch)][..0] == [] && Chunked([Chunk(batch)]) == batch;
    }
  }

  // ---- Settling ----

  function SettledAt(answer: Answer, place: nat): Settlement {
    match answer
    case Failed(message) => Rejected(message)
    case Outcomes(outcomes) =>
      if place >= |outcomes| then Rejected(NO_DATA)
      else match outcomes[place] case Data(data) => Resolved(data) case Error(message) => Rejected(message)
  }

  /** The places issued so far that were coalesced (or not), in the order they were issued. */
  function Issued(alone: seq<bool>, which: bool): seq<nat> {
    if alone == [] then []
    else Issued(alone[..|alone| - 1], which) + if alone[|alone| - 1] == which then [|alone| - 1] else []
  }

  lemma DistinctPush(front: seq<nat>, id: nat)
    requires Distinct(front) && id !in front
    ensures Distinct(front + [id])
  {
  }

  lemma {:induction false} IssuedOnce(alone: seq<bool>, which: bool)
    ensures Distinct(Issued(alone, which))
    ensures forall id: nat :: id in Issued(alone, which) <==> id < |alone| && alone[id] == which
  {
    if alone != [] {
      var before := alone[..|alone| - 1];
      IssuedOnce(before, which);
      assert |alone| - 1 !in Issued(before, which);
      if alone[|alone| - 1] == which { DistinctPush(Issued(before, which), |alone| - 1); }
      forall id: nat ensures id in Issued(alone, which) <==> id < |alone| && alone[id] == which {
        assert id < |before| ==> before[id] == alone[id];
      }
    }
  }

  lemma {:induction false} FoundInSent(sent: seq<Outgoing>, k: nat, id: nat)
    requires k < |sent| && id in Ids(sent[k])
    ensures sent[k].Chunk? ==> id in Chunked(sent)
    ensures sent[k].Direct? ==> id in SentAlone(sent)
  {
    if k < |sent| - 1 {
      FoundInSent(sent[..|sent| - 1], k, id);
    }
  }

  lemma InBothHalves(front: seq<nat>, back: seq<nat>, id: nat)
    requires id in front && id in back
    ensures !Distinct(front + back)
  {
    var i :| 0 <= i < |front| && front[i] == id;
    var j :| 0 <= j < |back| && back[j] == id;
    assert (front + back)[i] == (front + back)[|front| + j];
  }

  // ---- The state, and what each event makes of it ----

  /**
   * `timers` counts flushes scheduled and not yet run, `answered` is which requests have come back,
   * and `alone` says, for every query and mutation ever issued, whether it was to leave at once.
   */
  datatype State = State(
    queued: seq<nat>, timers: nat, sent: seq<Outgoing>,
    answered: set<nat>, settled: map<nat, Settlement>, alone: seq<bool>)

  const INITIAL := State([], 0, [], {}, map[], [])

  function AfterSend(s: State, atOnce: bool): State {
    var id := |s.alone|;
    if atOnce then s.(alone := s.alone + [true], sent := s.sent + [Direct(id)])
    else s.(alone := s.alone + [false], queued := s.queued + [id], timers := if s.queued == [] then s.timers + 1 else s.timers)
  }

  function AfterFlush(s: State): State
    requires s.timers > 0
  {
    s.(timers := s.timers - 1, queued := [], sent := s.sent + Chunks(s.queued))
  }

  predicate MayReceive(s: State, k: nat) { k < |s.sent| && k !in s.answered }

  function PlaceOf(ids: seq<nat>, id: nat): (place: nat)
    requires id in ids
    ensures place < |ids| && ids[place] == id
  {
    if ids[0] == id then 0 else 1 + PlaceOf(ids[1..], id)
  }

  function AfterReceive(s: State, k: nat, answer: Answer): State
    requires MayReceive(s, k)
  {
    var ids := Ids(s.sent[k]);
    s.(answered := s.answered + {k},
       settled := s.settled + Settling(ids, |ids|, answer))
  }

  /** What the first `n` places of a request settle. */
  function Settling(ids: seq<nat>, n: nat, answer: Answer): map<nat, Settlement>
    requires n <= |ids|
  {
    map id | id in ids[..n] :: SettledAt(answer, PlaceOf(ids, id))
  }

  lemma PlaceIsItsIndex(ids: seq<nat>, n: nat)
    requires n < |ids| && Distinct(ids)
    ensures PlaceOf(ids, ids[n]) == n
  {
  }

  lemma SettlingDomain(ids: seq<nat>, n: nat, answer: Answer)
    requires n < |ids|
    ensures Settling(ids, n + 1, answer).Keys == Settling(ids, n, answer).Keys + {ids[n]}
  {
    assert ids[..n + 1] == ids[..n] + [ids[n]];
  }

  lemma SettlingOneMore(settled: map<nat, Settlement>, ids: seq<nat>, n: nat, answer: Answer)
    requires n < |ids| && Distinct(ids)
    ensures (settled + Settling(ids, n, answer))[ids[n] := SettledAt(answer, n)] == settled + Settling(ids, n + 1, answer)
  {
    SettlingDomain(ids, n, answer);
    PlaceIsItsIndex(ids, n);
  }

  // ---- What every run keeps ----

  /**
   * A flush is scheduled exactly while something is queued; every request is in exactly one place,
   * in the order it was issued; and those settled are those of the requests that came back.
   */
  ghost predicate Valid(s: State) {
    && s.timers == (if s.queued == [] then 0 else 1)
    && Chunked(s.sent) + s.queued == Issued(s.alone, false)
    && SentAlone(s.sent) == Issued(s.alone, true)
    && (forall k :: 0 <= k < |s.sent| && s.sent[k].Chunk? ==> 1 <= |s.sent[k].ids| <= MAX_BATCH)
    && SettledExactly(s)
  }

  ghost predicate IdIsAnswered(s: State, id: nat) {
    exists k :: k in s.answered && k < |s.sent| && id in Ids(s.sent[k])
  }

  ghost predicate SettledExactly(s: State) {
    && (forall k :: k in s.answered ==> k < |s.sent|)
    && forall id: nat :: id in s.settled <==> IdIsAnswered(s, id)
  }

  lemma SettledWithMoreSent(s: State, s': State)
    requires SettledExactly(s) && s.sent <= s'.sent && s'.answered == s.answered && s'.settled == s.settled
    ensures SettledExactly(s')
  {
    forall id: nat ensures IdIsAnswered(s', id) <==> IdIsAnswered(s, id) {
      if IdIsAnswered(s, id) {
        var k :| k in s.answered && k < |s.sent| && id in Ids(s.sent[k]);
        assert s'.sent[k] == s.sent[k];
      }
      if IdIsAnswered(s', id) {
        var k :| k in s'.answered && k < |s'.sent| && id in Ids(s'.sent[k]);
        assert s'.sent[k] == s.sent[k];
      }
    }
  }

  lemma SendKeepsValid(s: State, atOnce: bool)
    requires Valid(s)
    ensures Valid(AfterSend(s, atOnce))
  {
    var s' := AfterSend(s, atOnce);
    assert s'.alone[..|s'.alone| - 1] == s.alone;
    SettledWithMoreSent(s, s');
    if atOnce {
      assert s'.sent[..|s'.sent| - 1] == s.sent;
    }
  }

  lemma FlushKeepsValid(s: State)
    requires Valid(s) && s.timers > 0
    ensures Valid(AfterFlush(s))
  {
    ChunksKeepOrder(s.queued);
    SentOfBoth(s.sent, Chunks(s.queued));
    SettledWithMoreSent(s, AfterFlush(s));
  }

  lemma ReceiveKeepsValid(s: State, k: nat, answer: Answer)
    requires Valid(s) && MayReceive(s, k)
    ensures Valid(AfterReceive(s, k, answer))
  {
    var s' := AfterReceive(s, k, answer);
    forall id: nat ensures id in s'.settled <==> IdIsAnswered(s', id) {
      if IdIsAnswered(s', id) {
        var j :| j in s'.answered && j < |s'.sent| && id in Ids(s'.sent[j]);
        assert j != k ==> IdIsAnswered(s, id);
      }
      if id in s.settled {
        var j :| j in s.answered && j < |s.sent| && id in Ids(s.sent[j]);
        assert j in s'.answered;
      } else if id in Ids(s.sent[k]) {
        assert k in s'.answered;
      }
    }
  }

  lemma DistinctPart(before: seq<nat>, part: seq<nat>, after: seq<nat>)
    requires Distinct(before + part + after)
    ensures Distinct(part)
  {
    var all := before + part + after;
    assert forall p :: 0 <= p < |part| ==> part[p] == all[|before| + p];
  }

  lemma SentIdsAreDistinct(s: State)
    requires Valid(s)
    ensures Distinct(Chunked(s.sent)) && Distinct(SentAlone(s.sent))
    ensures forall id :: id in Chunked(s.sent) ==> id !in SentAlone(s.sent)
  {
    IssuedOnce(s.alone, true);
    IssuedOnce(s.alone, false);
    assert [] + Chunked(s.sent) + s.queued == Issued(s.alone, false);
    DistinctPart([], Chunked(s.sent), s.queued);
    forall id | id in Chunked(s.sent) ensures id !in SentAlone(s.sent) {
      assert id in Issued(s.alone, false);
    }
  }

  /** No query is in two requests. */
  lemma OneRequestEach(s: State, a: nat, b: nat, id: nat)
    requires Valid(s) && a < b < |s.sent| && id in Ids(s.sent[a])
    ensures id !in Ids(s.sent[b])
  {
    SentIdsAreDistinct(s);
    if id in Ids(s.sent[b]) {
      var front, back := s.sent[..b], s.sent[b..];
      assert s.sent == front + back;
      SentOfBoth(front, back);
      FoundInSent(front, a, id);
      FoundInSent(back, 0, id);
      FoundInSent(s.sent, a, id);
      FoundInSent(s.sent, b, id);
      if s.sent[a].Chunk? && s.sent[b].Chunk? {
        InBothHalves(Chunked(front), Chunked(back), id);
      } else if s.sent[a].Direct? && s.sent[b].Direct? {
        InBothHalves(SentAlone(front), SentAlone(back), id);
      }
      assert false;
    }
  }

  lemma IdsAreDistinct(s: State, k: nat)
    requires Valid(s) && k < |s.sent|
    ensures Distinct(Ids(s.sent[k]))
  {
    SentIdsAreDistinct(s);
    if s.sent[k].Chunk? {
      var before, one, after := s.sent[..k], [s.sent[k]], s.sent[k + 1..];
      assert s.sent == before + one + after && one[..0] == [];
      SentOfBoth(before + one, after);
      SentOfBoth(before, one);
      DistinctPart(Chunked(before), s.sent[k].ids, Chunked(after));
    }
  }

  /** Each query of a request that comes back is settled then for the first time, by the outcome at its own place. */
  lemma SettledOnceAtItsOwnPlace(s: State, k: nat, answer: Answer, place: nat)
    requires Valid(s) && MayReceive(s, k) && place < |Ids(s.sent[k])|
    ensures var id := Ids(s.sent[k])[place];
      && id !in s.settled
      && id in AfterReceive(s, k, answer).settled
      && AfterReceive(s, k, answer).settled[id] == SettledAt(answer, place)
  {
    var ids := Ids(s.sent[k]);
    var id := ids[place];
    if IdIsAnswered(s, id) {
      var j :| j in s.answered && j < |s.sent| && id in Ids(s.sent[j]);
      OneRequestEach(s, if j < k then j else k, if j < k then k else j, id);
    }
    IdsAreDistinct(s, k);
    assert PlaceOf(ids, id) == place;
  }

  /**
   * Data at a query's place resolves it with that data; an error there rejects it with its message, nothing
   * there with a message saying so, and a failed request rejects each of its queries with the failure's message.
   */
  lemma AnswersGoToTheirQueries(s: State, k: nat, answer: Answer, place: nat)
    requires Valid(s) && MayReceive(s, k) && place < |Ids(s.sent[k])|
    ensures var id := Ids(s.sent[k])[place];
      id in AfterReceive(s, k, answer).settled &&
      var settlement := AfterReceive(s, k, answer).settled[id];
      && (forall data :: answer.Outcomes? && place < |answer.outcomes| && answer.outcomes[place] == Data(data) ==> settlement == Resolved(data))
      && (forall message :: answer.Outcomes? && place < |answer.outcomes| && answer.outcomes[place] == Error(message) ==>
            settlement == Rejected(message))
      && (answer.Outcomes? && place >= |answer.outcomes| ==> settlement == Rejected("The API returned no data."))
      && (answer.Failed? ==> settlement == Rejected(answer.message))
  {
    SettledOnceAtItsOwnPlace(s, k, answer, place);
  }

  /** What was settled stays as it was, and nothing else is settled. */
  lemma SettledForGood(s: State, k: nat, answer: Answer, id: nat)
    requires Valid(s) && MayReceive(s, k)
    ensures id in s.settled ==> id in AfterReceive(s, k, answer).settled && AfterReceive(s, k, answer).settled[id] == s.settled[id]
    ensures id in AfterReceive(s, k, answer).settled ==> id in s.settled || id in Ids(s.sent[k])
  {
    if id in s.settled && id in Ids(s.sent[k]) {
      SettledOnceAtItsOwnPlace(s, k, answer, PlaceOf(Ids(s.sent[k]), id));
    }
  }

  /** A mutation, or anything issued on the server, is never queued and never in a chunk. */
  lemma MutationsAreNeverQueued(s: State, id: nat)
    requires Valid(s) && id < |s.alone|
    ensures s.alone[id] ==> id !in s.queued && id !in Chunked(s.sent) && id in SentAlone(s.sent)
    ensures !s.alone[id] ==> id in s.queued || id in Chunked(s.sent)
  {
    IssuedOnce(s.alone, true);
    IssuedOnce(s.alone, false);
    assert id in Issued(s.alone, false) <==> id in Chunked(s.sent) || id in s.queued;
  }

  // ---- Whole runs ----

  /** One thing that happens: a request is issued, the scheduled flush runs, or a request comes back. */
  datatype Event = Issue(atOnce: bool) | Flushes | ComesBack(sent: nat, answer: Answer)

  /** The state a run leads to, if everything in it could have happened when it did. */
  function After(events: seq<Event>): Option<State> {
    if events == [] then Some(INITIAL)
    else
      var before := After(events[..|events| - 1]);
      if before.None? then None
      else match events[|events| - 1]
        case Issue(atOnce) => Some(AfterSend(before.value, atOnce))
        case Flushes => if before.value.timers == 0 then None else Some(AfterFlush(before.value))
        case ComesBack(k, answer) => if !MayReceive(before.value, k) then None else Some(AfterReceive(before.value, k, answer))
  }

  /** On every run a flush is scheduled exactly while something is queued, and every request is in one place, in order. */
  lemma {:induction false} EveryRunIsValid(events: seq<Event>, s: State)
    requires After(events) == Some(s)
    ensures Valid(s)
  {
    if events != [] {
      var before := After(events[..|events| - 1]).value;
      EveryRunIsValid(events[..|events| - 1], before);
      match events[|events| - 1]
      case Issue(atOnce) => SendKeepsValid(before, atOnce);
      case Flushes => FlushKeepsValid(before);
      case ComesBack(k, answer) => ReceiveKeepsValid(before, k, answer);
    }
  }

  lemma {:induction false} SentSomewhere(sent: seq<Outgoing>, id: nat) returns (k: nat)
    requires id in Chunked(sent) || id in SentAlone(sent)
    ensures k < |sent| && id in Ids(sent[k])
  {
    var front := sent[..|sent| - 1];
    if id in Chunked(front) || id in SentAlone(front) {
      k := SentSomewhere(front, id);
    } else {
      k := |sent| - 1;
    }
  }

  /** On every run, once no flush is scheduled and every request has come back, everything issued is settled, and nothing else. */
  lemma NothingIsForgotten(events: seq<Event>, s: State, id: nat)
    requires After(events) == Some(s) && s.timers == 0 && forall k :: 0 <= k < |s.sent| ==> k in s.answered
    ensures id in s.settled <==> id < |s.alone|
  {
    EveryRunIsValid(events, s);
    IssuedOnce(s.alone, true);
    IssuedOnce(s.alone, false);
    assert Chunked(s.sent) + [] == Chunked(s.sent);
    if id < |s.alone| {
      MutationsAreNeverQueued(s, id);
      var k := SentSomewhere(s.sent, id);
      assert IdIsAnswered(s, id);
    }
    if id in s.settled {
      var k :| k in s.answered && k < |s.sent| && id in Ids(s.sent[k]);
      FoundInSent(s.sent, k, id);
    }
  }

  /** The chunks still to leave once those before `start` have. */
  function ChunksFrom(batch: seq<nat>, start: nat): seq<Outgoing> {
    if start < |batch| then Chunks(batch[start..]) else []
  }

  lemma OneChunk(batch: seq<nat>, start: nat)
    requires start < |batch|
    ensures var end := if start + MAX_BATCH < |batch| then start + MAX_BATCH else |batch|;
      ChunksFrom(batch, start) == [Chunk(batch[start..end])] + ChunksFrom(batch, start + MAX_BATCH)
  {
    var rest := batch[start..];
    if start + MAX_BATCH < |batch| {
      assert rest[..MAX_BATCH] == batch[start..start + MAX_BATCH];
      assert rest[MAX_BATCH..] == batch[start + MAX_BATCH..];
    } else {
      assert rest == batch[start..|batch|];
    }
  }

  // ---- The module's own queue ----

  class Coalescer {
    var queued: seq<nat>
    var timers: nat
    var sent: seq<Outgoing>
    var answered: set<nat>
    var settled: map<nat, Settlement>
    var alone: seq<bool>

    ghost function Now(): State
      reads this
    {
      State(queued, timers, sent, answered, settled, alone)
    }

    constructor ()
      ensures Now() == INITIAL && Valid(Now())
    {
      queued, timers, sent, answered, settled, alone := [], 0, [], {}, map[], [];
    }

    /** On the server, and for a mutation, a request leaves at once; otherwise the first queued schedules a flush. */
    method Send(onServer: bool, mutation: bool) returns (id: nat)
      requires Valid(Now())
      modifies this
      ensures Valid(Now()) && id == |old(alone)| && Now() == AfterSend(old(Now()), onServer || mutation)
    {
      SendKeepsValid(Now(), onServer || mutation);
      id := |alone|;
      alone := alone + [onServer || mutation];
      if onServer || mutation {
        sent := sent + [Direct(id)];
        return;
      }
      queued := queued + [id];
      if |queued| == 1 {
        timers := timers + 1;
      }
    }

    /** Everything queued leaves, in chunks, in the order it was issued. */
    method Flush()
      requires Valid(Now()) && timers > 0
      modifies this
      ensures Valid(Now()) && Now() == AfterFlush(old(Now()))
    {
      ghost var was := Now();
      FlushKeepsValid(was);
      timers := timers - 1;
      var batch := queued;
      queued := [];
      var start := 0;
      while start < |batch|
        invariant 0 <= start && queued == [] && timers == old(timers) - 1
        invariant unchanged(`answered) && unchanged(`settled) && unchanged(`alone)
        invariant sent + ChunksFrom(batch, start) == was.sent + Chunks(batch)
      {
        var chunk := batch[start..if start + MAX_BATCH < |batch| then start + MAX_BATCH else |batch|];
        OneChunk(batch, start);
        sent := sent + [Chunk(chunk)];
        start := start + MAX_BATCH;
      }
      assert Now() == AfterFlush(was);
    }

    /** The outcomes of one request settle its queries, each by its own place. */
    method Receive(k: nat, answer: Answer)
      requires Valid(Now()) && MayReceive(Now(), k)
      modifies this
      ensures Valid(Now()) && Now() == AfterReceive(old(Now()), k, answer)
    {
      ghost var was := Now();
      var ids := Ids(sent[k]);
      IdsAreDistinct(was, k);
      answered := answered + {k};
      for place := 0 to |ids|
        invariant unchanged(`queued) && unchanged(`timers) && unchanged(`sent) && unchanged(`alone)
        invariant answered == old(answered) + {k}
        invariant settled == was.settled + Settling(ids, place, answer)
      {
        SettlingOneMore(was.settled, ids, place, answer);
        settled := settled[ids[place] := SettledAt(answer, place)];
      }
      assert Now() == AfterReceive(was, k, answer);
      ReceiveKeepsValid(was, k, answer);
    }
  }
}
