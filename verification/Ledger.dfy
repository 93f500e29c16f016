/**
 What every run of the outbox keeps about its jobs: none is lost, attempts and dispatches are
 bounded, failures are spaced by the backoff, and a crash forgets at most one outcome.

 `Inv` relates each row to the ledger of what happened to its id; it holds in every reachable
 state, whatever the admin does, whatever the panel answers and wherever the process crashes.
 */
module Ledger {
  import opened Options
  import opened Jobs
  import opened Outbox

  /** The outcome the worker has in memory for this id, not yet recorded. */
  function InFlight(s: State, id: int): Option<Outcome> {
    if s.reply.Some? && s.held != [] && s.held[0].id == id then s.reply else None
  }

  /** The least time between the first failure and the moment attempt n + 1 may start. */
  function Waits(n: nat): int {
    if n == 0 then 0 else Waits(n - 1) + Backoff(n)
  }

  predicate Counted(j: Job, en: Entry, flight: Option<Outcome>) {
    && en.spec == SpecOf(j) && !en.pruned
    && en.claims == en.requeues + (if j.status == Pending then 0 else 1)
    && en.dispatches ==
         j.attempts + en.unrecorded + (if j.status == Success then 1 else 0) + (if flight.Some? then 1 else 0)
    && (j.status == Success ==> 1 <= en.acks)
    && (flight.Some? ==> j.status == InProgress && (flight.value.ok ==> 1 <= en.acks))
  }

  /** Attempts are exact once a job has failed for good; each Retry buys one more. */
  predicate Bounded(j: Job, en: Entry, maxAttempts: nat) {
    if j.status == Failed then j.attempts == maxAttempts + en.retries
    else if en.retries == 0 then j.attempts < maxAttempts
    else j.attempts == maxAttempts + en.retries - 1
  }

  predicate Spaced(j: Job, en: Entry, clock: int, maxAttempts: nat) {
    && (en.firstFailure == None <==> j.attempts == 0)
    && (en.retries == 0 && 1 <= j.attempts ==>
          match j.status
          case Pending => en.firstFailure.value + Waits(j.attempts) <= j.nextAttemptAt
          case InProgress => en.firstFailure.value + Waits(j.attempts) <= clock
          case Failed => 1 <= maxAttempts && en.firstFailure.value + Waits(maxAttempts - 1) <= en.lastFailure
          case Success => true)
  }

  predicate RowOk(j: Job, s: State, maxAttempts: nat) {
    && j.id < s.nextId && j.id in s.ledger
    && Counted(j, s.ledger[j.id], InFlight(s, j.id))
    && Bounded(j, s.ledger[j.id], maxAttempts)
    && Spaced(j, s.ledger[j.id], s.clock, maxAttempts)
  }

  /** A held job is an in_progress row, as it was when it was claimed. */
  ghost predicate HeldRow(t: seq<Job>, h: Job) {
    exists i :: 0 <= i < |t| && t[i].id == h.id && t[i].status == InProgress &&
      t[i].attempts == h.attempts && SpecOf(t[i]) == SpecOf(h)
  }

  /** A pruned job was acknowledged, and dispatched no more often than its row would have allowed. */
  predicate PrunedOk(en: Entry, maxAttempts: nat) {
    1 <= en.acks && en.dispatches <= maxAttempts + en.retries + en.unrecorded
  }

  ghost predicate Inv(s: State, maxAttempts: nat) {
    && Ascending(s.table)
    && (forall i :: 0 <= i < |s.table| ==> RowOk(s.table[i], s, maxAttempts))
    && (forall id :: id in s.ledger ==> id < s.nextId)
    && (forall id :: id in s.ledger ==>
          if s.ledger[id].pruned then PrunedOk(s.ledger[id], maxAttempts) && !HasRow(s.table, id)
          else HasRow(s.table, id))
    && Ascending(s.held)
    && (forall k :: 0 <= k < |s.held| ==> HeldRow(s.table, s.held[k]))
    && (s.reply.Some? ==> s.held != [])
  }

  lemma InvAtStart(clock: int, maxAttempts: nat)
    ensures Inv(Start(clock), maxAttempts)
  {
  }

  // ---------------------------------------------------------------- every act keeps it

  lemma KeptByAdvance(s: State, e: Event, maxAttempts: nat)
    requires 1 <= maxAttempts && Inv(s, maxAttempts) && Enabled(s, e) && e.act == Advance
    ensures Inv(Apply(s, e, maxAttempts), maxAttempts)
  {
    var s' := Apply(s, e, maxAttempts);
    if s.script[0].Enqueue? {
      KeptByEnqueue(s, s', s.script[0].spec, maxAttempts);
    } else {
      KeptByWrite(s, s', maxAttempts);
    }
  }

  lemma KeptByWrite(s: State, s': State, maxAttempts: nat)
    requires Inv(s, maxAttempts) && s.clock <= s'.clock
    requires s'.table == s.table && s'.nextId == s.nextId && s'.ledger == s.ledger
    requires s'.held == s.held && s'.reply == s.reply
    ensures Inv(s', maxAttempts)
  {
    forall i | 0 <= i < |s.table| ensures RowOk(s.table[i], s', maxAttempts) {
      assert RowOk(s.table[i], s, maxAttempts);
    }
  }

  lemma KeptByEnqueue(s: State, s': State, spec: Spec, maxAttempts: nat)
    requires 1 <= maxAttempts && Inv(s, maxAttempts) && s.clock <= s'.clock
    requires s'.table == s.table + [NewRow(s.nextId, spec, s'.clock)] && s'.nextId == s.nextId + 1
    requires s'.ledger == s.ledger[s.nextId := NewEntry(spec)] && s'.held == s.held && s'.reply == s.reply
    ensures Inv(s', maxAttempts)
  {
    EnqueuedRowsOk(s, s', spec, maxAttempts);
    EnqueuedIdsKnown(s.table, NewRow(s.nextId, spec, s'.clock));
    forall k | 0 <= k < |s'.held| ensures HeldRow(s'.table, s'.held[k]) {
      HeldRowSurvives(s.table, s'.table, s.held[k]);
    }
  }

  lemma EnqueuedRowsOk(s: State, s': State, spec: Spec, maxAttempts: nat)
    requires 1 <= maxAttempts && Inv(s, maxAttempts) && s.clock <= s'.clock
    requires s'.table == s.table + [NewRow(s.nextId, spec, s'.clock)] && s'.nextId == s.nextId + 1
    requires s'.ledger == s.ledger[s.nextId := NewEntry(spec)] && s'.held == s.held && s'.reply == s.reply
    ensures forall i :: 0 <= i < |s'.table| ==> RowOk(s'.table[i], s', maxAttempts)
  {
    assert InFlight(s', s.nextId) == None by {
      assert s.held != [] ==> HeldRow(s.table, s.held[0]);
    }
    forall i | 0 <= i < |s.table| ensures RowOk(s'.table[i], s', maxAttempts) {
      assert RowOk(s.table[i], s, maxAttempts);
    }
  }

  lemma EnqueuedIdsKnown(t: seq<Job>, row: Job)
    ensures forall id :: HasRow(t + [row], id) <==> HasRow(t, id) || id == row.id
  {
    var t' := t + [row];
    forall id ensures HasRow(t', id) <==> HasRow(t, id) || id == row.id {
      assert t'[|t|].id == row.id;
      if i :| 0 <= i < |t| && t[i].id == id { assert t'[i].id == id; }
    }
  }

  lemma HeldRowSurvives(t: seq<Job>, t': seq<Job>, h: Job)
    requires HeldRow(t, h)
    requires |t| <= |t'|
    requires forall i :: 0 <= i < |t| && t[i].id == h.id ==>
      && t'[i].id == h.id && t'[i].status == t[i].status
      && t'[i].attempts == t[i].attempts && SpecOf(t'[i]) == SpecOf(t[i])
    ensures HeldRow(t', h)
  {
    var i :| 0 <= i < |t| && t[i].id == h.id && t[i].status == InProgress &&
      t[i].attempts == h.attempts && SpecOf(t[i]) == SpecOf(h);
    assert t'[i].id == h.id;
  }

  lemma HasRowAfterExec(t: seq<Job>, st: Statement, now: int)
    ensures forall id :: HasRow(Exec(t, st, now), id) <==> HasRow(t, id)
    ensures Ascending(t) ==> Ascending(Exec(t, st, now))
  {
    var t' := Exec(t, st, now);
    forall id ensures HasRow(t', id) <==> HasRow(t, id) {
      if i :| 0 <= i < |t| && t[i].id == id { assert t'[i].id == id; }
      if i :| 0 <= i < |t'| && t'[i].id == id { assert t[i].id == id; }
    }
  }

  /** Which row a WHERE clause hits can be asked by position. */
  lemma HitByPosition(t: seq<Job>, st: Statement, i: int)
    requires Ascending(t) && 0 <= i < |t|
    ensures (exists j :: j in t && j.id == t[i].id && Where(st, j)) <==> Where(st, t[i])
  {
    forall j | j in t && j.id == t[i].id ensures j == t[i] {
      var k :| 0 <= k < |t| && t[k] == j;
    }
  }

  function Requeuing(a: Act): Statement
    requires a.RetryFailed? || a.Reap?
  {
    if a.RetryFailed? then Retry(a.id) else ReapStale(a.cutoff)
  }

  lemma KeptByRetryOrReap(s: State, e: Event, maxAttempts: nat)
    requires 1 <= maxAttempts && Inv(s, maxAttempts) && Enabled(s, e)
    requires e.act.RetryFailed? || e.act.Reap?
    ensures Inv(Apply(s, e, maxAttempts), maxAttempts)
  {
    var s' := Apply(s, e, maxAttempts);
    HasRowAfterExec(s.table, Requeuing(e.act), e.time);
    forall i | 0 <= i < |s'.table| ensures RowOk(s'.table[i], s', maxAttempts) {
      MaybeRequeuedRowOk(s, s', e, i, maxAttempts);
    }
    forall k | 0 <= k < |s'.held| ensures HeldRow(s'.table, s'.held[k]) {
      assert HeldRow(s.table, s.held[k]);
      HeldRowNotRetried(s.table, e.act.id, e.time, s.held[k]);
    }
  }

  lemma HeldRowNotRetried(t: seq<Job>, id: int, now: int, h: Job)
    requires HeldRow(t, h)
    ensures HeldRow(Exec(t, Retry(id), now), h)
  {
    var i :| 0 <= i < |t| && t[i].id == h.id && t[i].status == InProgress &&
      t[i].attempts == h.attempts && SpecOf(t[i]) == SpecOf(h);
    assert Exec(t, Retry(id), now)[i] == t[i];
  }

  lemma MaybeRequeuedRowOk(s: State, s': State, e: Event, i: int, maxAttempts: nat)
    requires 1 <= maxAttempts && Inv(s, maxAttempts) && Enabled(s, e) && (e.act.RetryFailed? || e.act.Reap?)
    requires s' == Apply(s, e, maxAttempts) && 0 <= i < |s.table|
    ensures RowOk(s'.table[i], s', maxAttempts)
  {
    var st := Requeuing(e.act);
    HitByPosition(s.table, st, i);
    assert RowOk(s.table[i], s, maxAttempts);
    assert InFlight(s', s.table[i].id) == InFlight(s, s.table[i].id);
    if Where(st, s.table[i]) {
      RequeuedRowOk(s, s', s.table[i], st, maxAttempts);
    }
  }

  lemma RequeuedRowOk(s: State, s': State, j: Job, st: Statement, maxAttempts: nat)
    requires RowOk(j, s, maxAttempts) && Where(st, j) && (st.Retry? || st.ReapStale?)
    requires s'.clock >= s.clock && s'.nextId == s.nextId && InFlight(s, j.id) == None == InFlight(s', j.id)
    requires j.id in s'.ledger
    requires var en := s.ledger[j.id];
      s'.ledger[j.id] == if st.Retry? then en.(retries := en.retries + 1, requeues := en.requeues + 1)
                         else en.(requeues := en.requeues + 1)
    ensures RowOk(Set(st, j, s'.clock), s', maxAttempts)
  {
  }

  lemma KeptByClaim(s: State, e: Event, maxAttempts: nat)
    requires 1 <= maxAttempts && Inv(s, maxAttempts) && Enabled(s, e) && e.act.Claim?
    ensures Inv(Apply(s, e, maxAttempts), maxAttempts)
  {
    var s' := Apply(s, e, maxAttempts);
    var b := Selected(s.table, e.time, e.act.limit);
    SelectedIsLowestDue(s.table, e.time, e.act.limit);
    HasRowAfterExec(s.table, MarkInProgress(Ids(b)), e.time);
    forall i | 0 <= i < |s'.table| ensures RowOk(s'.table[i], s', maxAttempts) {
      ClaimedRowOk(s, s', e, i, maxAttempts);
    }
    ClaimedAreHeld(s.table, b, e.time);
  }

  lemma ClaimedAreHeld(t: seq<Job>, b: seq<Job>, now: int)
    requires Ascending(b) && forall j :: j in b ==> j in t
    ensures Ascending(InProgressBatch(b))
    ensures forall k :: 0 <= k < |b| ==> HeldRow(Exec(t, MarkInProgress(Ids(b)), now), InProgressBatch(b)[k])
  {
    var t' := Exec(t, MarkInProgress(Ids(b)), now);
    forall k | 0 <= k < |b| ensures HeldRow(t', InProgressBatch(b)[k]) {
      assert b[k] in b && b[k].id in Ids(b);
      var i :| 0 <= i < |t| && t[i] == b[k];
      assert t'[i].id == b[k].id;
    }
  }

  lemma ClaimedRowOk(s: State, s': State, e: Event, i: int, maxAttempts: nat)
    requires Inv(s, maxAttempts) && Enabled(s, e) && e.act.Claim? && s' == Apply(s, e, maxAttempts)
    requires 0 <= i < |s.table|
    ensures RowOk(s'.table[i], s', maxAttempts)
  {
    var b := Selected(s.table, e.time, e.act.limit);
    SelectedIsLowestDue(s.table, e.time, e.act.limit);
    var j := s.table[i];
    assert RowOk(j, s, maxAttempts);
    assert InFlight(s', j.id) == None;
    if j.id in Ids(b) {
      var x :| x in b && x.id == j.id;
      SameIdSameRow(s.table, x, i);
      assert Due(j, e.time);
    }
  }

  lemma SameIdSameRow(t: seq<Job>, j: Job, i: int)
    requires Ascending(t) && 0 <= i < |t| && j in t && j.id == t[i].id
    ensures j == t[i]
  {
    var k :| 0 <= k < |t| && t[k] == j;
  }

  lemma KeptByDispatch(s: State, e: Event, maxAttempts: nat)
    requires 1 <= maxAttempts && Inv(s, maxAttempts) && Enabled(s, e) && e.act.Dispatch?
    ensures Inv(Apply(s, e, maxAttempts), maxAttempts)
  {
    var s' := Apply(s, e, maxAttempts);
    var h := s.held[0];
    assert HeldRow(s.table, h);
    forall i | 0 <= i < |s'.table| ensures RowOk(s'.table[i], s', maxAttempts) {
      assert RowOk(s.table[i], s, maxAttempts);
    }
  }

  lemma KeptByRecord(s: State, e: Event, maxAttempts: nat)
    requires 1 <= maxAttempts && Inv(s, maxAttempts) && Enabled(s, e) && e.act.Record?
    ensures Inv(Apply(s, e, maxAttempts), maxAttempts)
  {
    var s' := Apply(s, e, maxAttempts);
    var h, ok := s.held[0], s.reply.value.ok;
    assert HeldRow(s.table, h);
    HasRowAfterExec(s.table, Mark(h, ok, e.act.error, e.act.seen, maxAttempts), e.time);
    forall i | 0 <= i < |s'.table| ensures RowOk(s'.table[i], s', maxAttempts) {
      RowAfterRecord(s, e, i, maxAttempts);
    }
    HeldTail(s, s');
  }

  lemma RowAfterRecord(s: State, e: Event, i: int, maxAttempts: nat)
    requires 1 <= maxAttempts && Inv(s, maxAttempts) && Enabled(s, e) && e.act.Record? && 0 <= i < |s.table|
    ensures RowOk(Apply(s, e, maxAttempts).table[i], Apply(s, e, maxAttempts), maxAttempts)
  {
    var s' := Apply(s, e, maxAttempts);
    assert HeldRow(s.table, s.held[0]);
    assert RowOk(s.table[i], s, maxAttempts);
    assert InFlight(s', s.table[i].id) == None;
    if s.table[i].id == s.held[0].id {
      RecordedRowOk(s, s', s.table[i], e, maxAttempts);
    }
  }

  /** The rest of the batch is untouched when only the head's row changed. */
  lemma HeldTail(s: State, s': State)
    requires Ascending(s.held) && s.held != [] && s'.held == s.held[1..]
    requires forall k :: 0 <= k < |s.held| ==> HeldRow(s.table, s.held[k])
    requires |s'.table| == |s.table|
    requires forall i :: 0 <= i < |s.table| && s.table[i].id != s.held[0].id ==> s'.table[i] == s.table[i]
    ensures Ascending(s'.held)
    ensures forall k :: 0 <= k < |s'.held| ==> HeldRow(s'.table, s'.held[k])
  {
    forall k | 0 <= k < |s'.held| ensures HeldRow(s'.table, s'.held[k]) {
      assert s.held[0].id < s.held[k + 1].id;
      HeldRowSurvives(s.table, s'.table, s.held[k + 1]);
    }
  }

  lemma RecordedRowOk(s: State, s': State, j: Job, e: Event, maxAttempts: nat)
    requires 1 <= maxAttempts && RowOk(j, s, maxAttempts)
    requires s.reply.Some? && s.held != [] && s.held[0].id == j.id && s.held[0].attempts == j.attempts
    requires s.clock <= e.time && e.act.Record? && s.clock <= e.act.seen <= e.time
    requires s'.clock == e.time && s'.nextId == s.nextId && InFlight(s', j.id) == None && j.id in s'.ledger
    requires var st := Mark(s.held[0], s.reply.value.ok, e.act.error, e.act.seen, maxAttempts);
      s'.ledger[j.id] == RequeuedIf(Recorded(s.ledger[j.id], s.reply.value.ok, e.act.seen), st.MarkRetry?)
    ensures var st := Mark(s.held[0], s.reply.value.ok, e.act.error, e.act.seen, maxAttempts);
      RowOk(Set(st, j, e.time), s', maxAttempts)
  {
    assert Waits(j.attempts + 1) == Waits(j.attempts) + Backoff(j.attempts + 1);
  }

  lemma KeptByLoss(s: State, e: Event, maxAttempts: nat)
    requires 1 <= maxAttempts && Inv(s, maxAttempts) && Enabled(s, e)
    requires e.act == RecordLost || e.act == Crash
    ensures Inv(Apply(s, e, maxAttempts), maxAttempts)
  {
    var s' := Apply(s, e, maxAttempts);
    if s.reply.Some? {
      assert HeldRow(s.table, s.held[0]);
    }
    forall i | 0 <= i < |s'.table| ensures RowOk(s'.table[i], s', maxAttempts) {
      assert RowOk(s.table[i], s, maxAttempts);
    }
    if e.act == RecordLost {
      HeldTail(s, s');
    }
  }

  lemma KeptByPrune(s: State, e: Event, maxAttempts: nat)
    requires 1 <= maxAttempts && Inv(s, maxAttempts) && Enabled(s, e) && e.act.Prune?
    ensures Inv(Apply(s, e, maxAttempts), maxAttempts)
  {
    var s' := Apply(s, e, maxAttempts);
    PrunedKeepsTheRest(s.table, e.act.cutoff);
    forall i | 0 <= i < |s'.table| ensures RowOk(s'.table[i], s', maxAttempts) {
      SurvivorRowOk(s, s', e, i, maxAttempts);
    }
    forall id | id in s'.ledger
      ensures if s'.ledger[id].pruned then PrunedOk(s'.ledger[id], maxAttempts) && !HasRow(s'.table, id)
              else HasRow(s'.table, id)
    {
      PrunedEntry(s, s', e, id, maxAttempts);
    }
  }

  lemma SurvivorRowOk(s: State, s': State, e: Event, i: int, maxAttempts: nat)
    requires Inv(s, maxAttempts) && Enabled(s, e) && e.act.Prune? && s' == Apply(s, e, maxAttempts)
    requires 0 <= i < |s'.table|
    ensures RowOk(s'.table[i], s', maxAttempts)
  {
    PrunedKeepsTheRest(s.table, e.act.cutoff);
    assert s'.table[i] in s.table;
    var k :| 0 <= k < |s.table| && s.table[k] == s'.table[i];
    assert RowOk(s.table[k], s, maxAttempts);
    if j :| j in s.table && j.id == s.table[k].id && Prunable(j, e.act.cutoff) {
      SameIdSameRow(s.table, j, k);
    }
  }

  lemma PrunedEntry(s: State, s': State, e: Event, id: int, maxAttempts: nat)
    requires Inv(s, maxAttempts) && Enabled(s, e) && e.act.Prune? && s' == Apply(s, e, maxAttempts)
    requires id in s.ledger
    ensures if s'.ledger[id].pruned then PrunedOk(s'.ledger[id], maxAttempts) && !HasRow(s'.table, id)
            else HasRow(s'.table, id)
  {
    PrunedRows(s.table, e.act.cutoff, id);
    if HasRow(s.table, id) {
      AcknowledgedBeforePruned(s, id, e.act.cutoff, maxAttempts);
    }
  }

  lemma AcknowledgedBeforePruned(s: State, id: int, cutoff: int, maxAttempts: nat)
    requires Inv(s, maxAttempts) && HasRow(s.table, id)
    ensures id in s.ledger && !s.ledger[id].pruned
    ensures (exists j :: j in s.table && j.id == id && Prunable(j, cutoff)) ==> PrunedOk(s.ledger[id], maxAttempts)
  {
    var i :| 0 <= i < |s.table| && s.table[i].id == id;
    assert RowOk(s.table[i], s, maxAttempts);
    if j :| j in s.table && j.id == id && Prunable(j, cutoff) {
      SameIdSameRow(s.table, j, i);
    }
  }

  lemma PrunedRows(t: seq<Job>, cutoff: int, id: int)
    requires Ascending(t)
    ensures HasRow(Pruned(t, cutoff), id) <==> HasRow(t, id) && !exists j :: j in t && j.id == id && Prunable(j, cutoff)
  {
    PrunedKeepsTheRest(t, cutoff);
    var t' := Pruned(t, cutoff);
    if HasRow(t', id) {
      var k :| 0 <= k < |t'| && t'[k].id == id;
      assert t'[k] in t;
      var i :| 0 <= i < |t| && t[i] == t'[k];
      forall j | j in t && j.id == id ensures !Prunable(j, cutoff) {
        SameIdSameRow(t, j, i);
      }
    }
    if HasRow(t, id) && !exists j :: j in t && j.id == id && Prunable(j, cutoff) {
      var i :| 0 <= i < |t| && t[i].id == id;
      assert t[i] in t';
      var k :| 0 <= k < |t'| && t'[k] == t[i];
    }
  }

  /** One step of anyone. */
  lemma KeptByStep(s: State, e: Event, maxAttempts: nat)
    requires 1 <= maxAttempts && Inv(s, maxAttempts) && Enabled(s, e)
    ensures Inv(Apply(s, e, maxAttempts), maxAttempts)
  {
    match e.act
    case Begin(_) =>
      forall i | 0 <= i < |s.table| ensures RowOk(s.table[i], Apply(s, e, maxAttempts), maxAttempts) {
        assert RowOk(s.table[i], s, maxAttempts);
      }
    case Advance => KeptByAdvance(s, e, maxAttempts);
    case RetryFailed(_) => KeptByRetryOrReap(s, e, maxAttempts);
    case Reap(_) => KeptByRetryOrReap(s, e, maxAttempts);
    case Claim(_) => KeptByClaim(s, e, maxAttempts);
    case Dispatch(_) => KeptByDispatch(s, e, maxAttempts);
    case Record(_, _) => KeptByRecord(s, e, maxAttempts);
    case RecordLost => KeptByLoss(s, e, maxAttempts);
    case Prune(_) => KeptByPrune(s, e, maxAttempts);
    case Crash => KeptByLoss(s, e, maxAttempts);
  }

  // ---------------------------------------------------------------- theorems over whole runs

  lemma {:induction false} KeptByRun(s: State, es: seq<Event>, s': State, maxAttempts: nat)
    requires 1 <= maxAttempts && Inv(s, maxAttempts) && Reaches(s, es, s', maxAttempts)
    ensures Inv(s', maxAttempts)
    decreases |es|
  {
    if es == [] {
    } else {
      KeptByStep(s, es[0], maxAttempts);
      KeptByRun(Apply(s, es[0], maxAttempts), es[1..], s', maxAttempts);
    }
  }

  /** How many crashes and refused marks a run contains. */
  function Losses(es: seq<Event>): nat {
    if es == [] then 0 else Loses(es[0]) + Losses(es[1..])
  }

  function Loses(e: Event): nat {
    if e.act == Crash || e.act == RecordLost then 1 else 0
  }

  predicate EntryGrew(a: Entry, b: Entry, losses: nat) {
    && b.spec == a.spec && a.retries <= b.retries && a.acks <= b.acks
    && a.unrecorded <= b.unrecorded <= a.unrecorded + losses
  }

  /** No id is forgotten, no enqueued content edited, no count goes down, at most `losses` outcomes lost. */
  ghost predicate Grew(a: map<int, Entry>, b: map<int, Entry>, losses: nat) {
    forall id :: id in a ==> id in b && EntryGrew(a[id], b[id], losses)
  }

  lemma EntryKept(s: State, e: Event, id: int, maxAttempts: nat)
    requires Enabled(s, e) && id in s.ledger && id < s.nextId
    ensures var s' := Apply(s, e, maxAttempts);
      id in s'.ledger && EntryGrew(s.ledger[id], s'.ledger[id], Loses(e))
  {
  }

  lemma AcksNeedADispatch(s: State, e: Event, id: int, maxAttempts: nat)
    requires Enabled(s, e) && id in s.ledger && id < s.nextId
    ensures Acks(s.ledger, id) < Acks(Apply(s, e, maxAttempts).ledger, id) ==>
      e.act == Dispatch(Outcome(true, true)) && s.held[0].id == id
  {
  }

  lemma StepKeepsLedger(s: State, e: Event, maxAttempts: nat)
    requires Enabled(s, e) && forall id :: id in s.ledger ==> id < s.nextId
    ensures Grew(s.ledger, Apply(s, e, maxAttempts).ledger, Loses(e))
  {
    var s' := Apply(s, e, maxAttempts);
    forall id | id in s.ledger ensures id in s'.ledger && EntryGrew(s.ledger[id], s'.ledger[id], Loses(e)) {
      EntryKept(s, e, id, maxAttempts);
    }
  }

  lemma {:induction false} RunKeepsLedger(s: State, es: seq<Event>, s': State, maxAttempts: nat)
    requires 1 <= maxAttempts && Inv(s, maxAttempts) && Reaches(s, es, s', maxAttempts)
    ensures Grew(s.ledger, s'.ledger, Losses(es))
    decreases |es|
  {
    if es == [] {
    } else {
      StepKeepsLedger(s, es[0], maxAttempts);
      KeptByStep(s, es[0], maxAttempts);
      RunKeepsLedger(Apply(s, es[0], maxAttempts), es[1..], s', maxAttempts);
    }
  }

  ghost predicate OnlyRow(t: seq<Job>, i: int) {
    0 <= i < |t| && forall k :: 0 <= k < |t| && t[k].id == t[i].id ==> k == i
  }

  /** No job is lost: whatever happens after a row exists, the table holds exactly one row with its id
      and what was enqueued under it, or the row was pruned after some dispatch of it returned nil. */
  lemma NoJobLost(s: State, es: seq<Event>, s': State, maxAttempts: nat, j: Job)
    requires 1 <= maxAttempts && Inv(s, maxAttempts) && Reaches(s, es, s', maxAttempts)
    requires j in s.table
    ensures
      || (exists i :: OnlyRow(s'.table, i) && s'.table[i].id == j.id && SpecOf(s'.table[i]) == SpecOf(j))
      || (!HasRow(s'.table, j.id) && j.id in s'.ledger && 1 <= s'.ledger[j.id].acks)
  {
    var i :| 0 <= i < |s.table| && s.table[i] == j;
    assert RowOk(s.table[i], s, maxAttempts);
    RunKeepsLedger(s, es, s', maxAttempts);
    KeptByRun(s, es, s', maxAttempts);
    if !s'.ledger[j.id].pruned {
      var k :| 0 <= k < |s'.table| && s'.table[k].id == j.id;
      assert RowOk(s'.table[k], s', maxAttempts);
      assert OnlyRow(s'.table, k);
    }
  }

  /** From an empty outbox: a row is marked success only if some dispatch of it returned nil, a failed
      row used up all its attempts, and no row is dispatched more often than its attempts, its manual
      retries and the losses of the run allow.  Between two claims it was put back. */
  lemma EveryReachableRow(clock: int, es: seq<Event>, s: State, maxAttempts: nat, j: Job)
    requires 1 <= maxAttempts && Reaches(Start(clock), es, s, maxAttempts) && j in s.table
    ensures j.id in s.ledger
    ensures var en := s.ledger[j.id];
      && (j.status == Success ==> 1 <= en.acks)
      && j.attempts <= maxAttempts + en.retries
      && (j.status == Failed ==> maxAttempts <= j.attempts)
      && en.dispatches <= maxAttempts + en.retries + en.unrecorded
      && en.claims <= en.requeues + 1
  {
    InvAtStart(clock, maxAttempts);
    KeptByRun(Start(clock), es, s, maxAttempts);
    var i :| 0 <= i < |s.table| && s.table[i] == j;
    assert RowOk(s.table[i], s, maxAttempts);
  }

  /** The same bound for every job ever enqueued, pruned ones included. */
  lemma DispatchesAreBounded(s: State, maxAttempts: nat, id: int)
    requires Inv(s, maxAttempts) && id in s.ledger
    ensures s.ledger[id].dispatches <= maxAttempts + s.ledger[id].retries + s.ledger[id].unrecorded
  {
    if !s.ledger[id].pruned {
      var i :| 0 <= i < |s.table| && s.table[i].id == id;
      assert RowOk(s.table[i], s, maxAttempts);
    }
  }

  /** Without a manual retry, a crash or a refused mark, no job is dispatched more than maxAttempts times. */
  lemma AtMostMaxAttemptsDispatches(s: State, es: seq<Event>, s': State, maxAttempts: nat, id: int)
    requires 1 <= maxAttempts && Inv(s, maxAttempts) && Reaches(s, es, s', maxAttempts)
    requires id in s'.ledger && s'.ledger[id].retries == 0 && Losses(es) == 0
    requires forall k :: k in s.ledger ==> s.ledger[k].unrecorded == 0
    ensures s'.ledger[id].dispatches <= maxAttempts
  {
    KeptByRun(s, es, s', maxAttempts);
    NothingUnrecorded(s, es, s', maxAttempts);
    DispatchesAreBounded(s', maxAttempts, id);
  }

  lemma {:induction false} NothingUnrecorded(s: State, es: seq<Event>, s': State, maxAttempts: nat)
    requires Reaches(s, es, s', maxAttempts) && Losses(es) == 0
    requires forall id :: id in s.ledger ==> s.ledger[id].unrecorded == 0
    ensures forall id :: id in s'.ledger ==> s'.ledger[id].unrecorded == 0
    decreases |es|
  {
    if es == [] {
    } else {
      NothingUnrecorded(Apply(s, es[0], maxAttempts), es[1..], s', maxAttempts);
    }
  }

  /** Where a run stands after its first k events. */
  function StateAt(s: State, es: seq<Event>, k: nat, maxAttempts: nat): State
    requires k <= |es|
    decreases k
  {
    if k == 0 || !Enabled(s, es[0]) then s else StateAt(Apply(s, es[0], maxAttempts), es[1..], k - 1, maxAttempts)
  }

  /** The worker dispatches this job, the panel serves and accepts it, and the answer arrives. */
  predicate Succeeds(s: State, e: Event, id: int, spec: Spec) {
    e.act == Dispatch(Outcome(true, true)) && s.held != [] && s.held[0].id == id && SpecOf(s.held[0]) == spec
  }

  function Acks(ledger: map<int, Entry>, id: int): nat {
    if id in ledger then ledger[id].acks else 0
  }

  lemma AckedInOneStep(s: State, e: Event, maxAttempts: nat, id: int)
    requires Inv(s, maxAttempts) && Enabled(s, e)
    requires Acks(s.ledger, id) < Acks(Apply(s, e, maxAttempts).ledger, id)
    ensures id in s.ledger && Succeeds(s, e, id, s.ledger[id].spec)
  {
    if id in s.ledger {
      AcksNeedADispatch(s, e, id, maxAttempts);
      assert HeldRow(s.table, s.held[0]);
      var i :| 0 <= i < |s.table| && s.table[i].id == id && SpecOf(s.table[i]) == SpecOf(s.held[0]);
      assert RowOk(s.table[i], s, maxAttempts);
    }
  }

  /** An acknowledgement has a cause: somewhere in the run that very job, as it was enqueued, was dispatched,
      accepted by the panel and answered. */
  lemma {:induction false} AckedByItsDispatch(
    s: State, es: seq<Event>, s': State, maxAttempts: nat, id: int) returns (k: nat)
    requires 1 <= maxAttempts && Inv(s, maxAttempts) && Reaches(s, es, s', maxAttempts)
    requires id in s'.ledger && Acks(s.ledger, id) < s'.ledger[id].acks
    ensures k < |es| && Succeeds(StateAt(s, es, k, maxAttempts), es[k], id, s'.ledger[id].spec)
    decreases |es|
  {
    if es == [] {
      assert false;
    } else {
      var m := Apply(s, es[0], maxAttempts);
      if Acks(s.ledger, id) < Acks(m.ledger, id) {
        k := 0;
        AckedInOneStep(s, es[0], maxAttempts, id);
        RunKeepsLedger(s, es, s', maxAttempts);
      } else {
        KeptByStep(s, es[0], maxAttempts);
        var rest := AckedByItsDispatch(m, es[1..], s', maxAttempts, id);
        k := rest + 1;
      }
    }
  }

  /** So a row is marked success, and an id pruned, only after such a dispatch of it. */
  lemma SuccessHasItsDispatch(clock: int, es: seq<Event>, s: State, maxAttempts: nat, id: int) returns (k: nat)
    requires 1 <= maxAttempts && Reaches(Start(clock), es, s, maxAttempts) && id in s.ledger
    requires s.ledger[id].pruned || exists j :: j in s.table && j.id == id && j.status == Success
    ensures k < |es| && Succeeds(StateAt(Start(clock), es, k, maxAttempts), es[k], id, s.ledger[id].spec)
  {
    InvAtStart(clock, maxAttempts);
    KeptByRun(Start(clock), es, s, maxAttempts);
    if !s.ledger[id].pruned {
      var j :| j in s.table && j.id == id && j.status == Success;
      var i :| 0 <= i < |s.table| && s.table[i] == j;
      assert RowOk(s.table[i], s, maxAttempts);
    }
    k := AckedByItsDispatch(Start(clock), es, s, maxAttempts, id);
  }

  /** One Retry buys exactly one more recorded failure: as long as it is not retried again, the row
      stays at its old attempt count until it fails for good one above it. */
  lemma RetryBuysOneFailure(s: State, es: seq<Event>, s': State, maxAttempts: nat, j: Job, j': Job)
    requires 1 <= maxAttempts && Inv(s, maxAttempts) && Reaches(s, es, s', maxAttempts)
    requires j in s.table && j.status == Failed && j' in s'.table && j'.id == j.id
    requires j.id in s.ledger && j.id in s'.ledger && s'.ledger[j.id].retries == s.ledger[j.id].retries + 1
    ensures j'.attempts == j.attempts + (if j'.status == Failed then 1 else 0)
  {
    KeptByRun(s, es, s', maxAttempts);
    var i :| 0 <= i < |s.table| && s.table[i] == j;
    assert RowOk(s.table[i], s, maxAttempts);
    var k :| 0 <= k < |s'.table| && s'.table[k] == j';
    assert RowOk(s'.table[k], s', maxAttempts);
  }

  /** Until it is retried by hand, a job that failed for good failed over at least the sum of its backoffs. */
  lemma FailuresAreSpaced(clock: int, es: seq<Event>, s: State, maxAttempts: nat, j: Job)
    requires 1 <= maxAttempts && Reaches(Start(clock), es, s, maxAttempts) && j in s.table
    requires j.status == Failed && j.id in s.ledger && s.ledger[j.id].retries == 0
    ensures s.ledger[j.id].firstFailure.Some?
    ensures Waits(maxAttempts - 1) <= s.ledger[j.id].lastFailure - s.ledger[j.id].firstFailure.value
  {
    InvAtStart(clock, maxAttempts);
    KeptByRun(Start(clock), es, s, maxAttempts);
    var i :| 0 <= i < |s.table| && s.table[i] == j;
    assert RowOk(s.table[i], s, maxAttempts);
  }

  /** With the default of 8 attempts that is 140 seconds; the 60 second cap is reached from attempt 8 on. */
  lemma DefaultWaitIs140Seconds()
    ensures Waits(DEFAULT_MAX_ATTEMPTS - 1) == 140 * SECOND
    ensures forall k: nat :: Backoff(k) == MAX_BACKOFF <==> DEFAULT_MAX_ATTEMPTS <= k
  {
    assert Waits(1) == Waits(0) + Backoff(1) == SECOND;
    assert Waits(2) == Waits(1) + Backoff(2) == 5 * SECOND;
    assert Waits(3) == Waits(2) + Backoff(3) == 14 * SECOND;
    assert Waits(4) == Waits(3) + Backoff(4) == 30 * SECOND;
    assert Waits(5) == Waits(4) + Backoff(5) == 55 * SECOND;
    assert Waits(6) == Waits(5) + Backoff(6) == 91 * SECOND;
    assert Waits(7) == Waits(6) + Backoff(7) == 140 * SECOND;
    forall k: nat ensures Backoff(k) == MAX_BACKOFF <==> DEFAULT_MAX_ATTEMPTS <= k {
      if 8 <= k {
        assert 8 * 8 <= k * k;
      } else {
        assert k * k <= 7 * 7;
      }
    }
  }

  /** The ids a step leaves with one more dispatch whose outcome nobody will record. */
  function Forgotten(s: State, s': State): set<int> {
    set id | id in s.ledger && id in s'.ledger && s.ledger[id].unrecorded < s'.ledger[id].unrecorded
  }

  /** A crash or a refused mark forgets the outcome of at most one job; nothing else forgets any. */
  lemma AtMostOneOutcomeForgotten(s: State, e: Event, maxAttempts: nat)
    requires 1 <= maxAttempts && Inv(s, maxAttempts) && Enabled(s, e)
    ensures var lost := Forgotten(s, Apply(s, e, maxAttempts));
      |lost| <= 1 && (lost != {} ==> s.reply.Some? && (e.act == Crash || e.act == RecordLost))
  {
    var lost := Forgotten(s, Apply(s, e, maxAttempts));
    if e.act == Crash || e.act == RecordLost {
      if s.reply.Some? {
        assert lost <= {s.held[0].id};
        assert |{s.held[0].id} - lost| + |lost| == 1;
      } else {
        assert lost == {};
      }
    } else {
      assert lost == {};
    }
  }
}
