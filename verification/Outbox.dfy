/**
 The outbox as a transition system: admin handlers, the one sync worker, crashes and the panel,
 interleaved step by step.

 A handler reads the local tables, then performs a script of writes and enqueues one at a time,
 so the worker may run between any two of them.  Admin handlers do not overlap each other.
 The worker holds the batch it claimed, and the outcome of its last dispatch until it is recorded.
 The ledger is ghost history: what happened so far to every id ever enqueued.
 */
module Outbox {
  import opened Options
  import opened Jobs
  import opened Panel
  import opened Users

  /** One statement of an admin handler. */
  datatype Micro = Write(local: Local) | Enqueue(spec: Spec)

  /** What happened to one job so far. */
  datatype Entry = Entry(
    spec: Spec, claims: nat, requeues: nat, dispatches: nat, acks: nat, retries: nat,
    unrecorded: nat, firstFailure: Option<int>, lastFailure: int, pruned: bool)

  function NewEntry(spec: Spec): Entry {
    Entry(spec, 0, 0, 0, 0, 0, 0, None, 0, false)
  }

  /** What the worker saw of a dispatch: whether the panel served it, and whether it returned nil. */
  datatype Outcome = Outcome(served: bool, ok: bool)

  /** `begun` and `ran` are history: the tables the last handler started from, and what it has done since. */
  datatype State = State(
    local: Local, script: seq<Micro>, begun: Local, ran: seq<Micro>,
    table: seq<Job>, nextId: int,
    panel: Panel.State,
    held: seq<Job>, reply: Option<Outcome>,
    clock: int, ledger: map<int, Entry>)

  datatype Act =
    | Begin(script: seq<Micro>)                     // an admin handler starts
    | Advance                                       // its next statement
    | RetryFailed(id: int)                          // the Retry button
    | Reap(cutoff: int)                             // the rest are the worker's
    | Claim(limit: int)
    | Dispatch(outcome: Outcome)
    | Record(error: string, seen: int)              // `seen`: the clock reading the backoff starts from
    | RecordLost                                    // the store refused the mark
    | Prune(cutoff: int)
    | Crash

  /** An act and the clock reading it is carried out at. */
  datatype Event = At(time: int, act: Act)

  const SECOND := 1_000_000_000
  const MAX_BACKOFF := 60 * SECOND
  const DEFAULT_MAX_ATTEMPTS := 8
  const DEFAULT_BATCH_SIZE := 20
  const STALE_AFTER := 300 * SECOND
  const PRUNE_AFTER := 604800 * SECOND

  function Backoff(attempts: nat): int {
    var b := attempts * attempts * SECOND;
    if b > MAX_BACKOFF then MAX_BACKOFF else b
  }

  /** The statement process() runs after a dispatch. */
  function Mark(j: Job, ok: bool, error: string, seen: int, maxAttempts: int): Statement {
    var attempts := j.attempts + 1;
    if ok then MarkSuccess(j.id)
    else if attempts >= maxAttempts then MarkFailed(j.id, attempts, error)
    else MarkRetry(j.id, attempts, error, seen + Backoff(attempts))
  }

  function InProgressBatch(b: seq<Job>): seq<Job> {
    seq(|b|, i requires 0 <= i < |b| => b[i].(status := InProgress))
  }

  predicate WorkerIdle(s: State) {
    s.held == [] && s.reply == None
  }

  predicate Enabled(s: State, e: Event) {
    s.clock <= e.time &&
    match e.act
    case Begin(_) => s.script == []
    case Advance => s.script != []
    case RetryFailed(_) => true
    case Reap(_) => WorkerIdle(s)
    case Claim(_) => WorkerIdle(s)
    case Dispatch(o) =>
      && s.held != [] && s.reply == None
      && (o.ok ==> o.served && Accepts(Find(s.panel, s.held[0].payload.email), CommandOf(s.held[0])))
    case Record(_, seen) => s.reply.Some? && s.held != [] && s.clock <= seen <= e.time
    case RecordLost => s.reply.Some? && s.held != []
    case Prune(_) => WorkerIdle(s)
    case Crash => true
  }

  function Recorded(e: Entry, ok: bool, failedAt: int): Entry {
    if ok then e
    else e.(firstFailure := if e.firstFailure == None then Some(failedAt) else e.firstFailure,
            lastFailure := failedAt)
  }

  /** The entry of the job whose dispatch outcome is about to be forgotten. */
  function Forget(s: State): map<int, Entry> {
    if s.reply.Some? && s.held != [] && s.held[0].id in s.ledger then
      s.ledger[s.held[0].id := s.ledger[s.held[0].id].(unrecorded := s.ledger[s.held[0].id].unrecorded + 1)]
    else s.ledger
  }

  function Apply(s: State, e: Event, maxAttempts: int): State
    requires Enabled(s, e)
  {
    var now := e.time;
    var s := s.(clock := now);
    match e.act
    case Begin(script) => s.(script := script, begun := s.local, ran := [])
    case Advance =>
      (match s.script[0]
       case Write(l) => s.(local := l, script := s.script[1..], ran := s.ran + [s.script[0]])
       case Enqueue(spec) =>
         s.(table := s.table + [NewRow(s.nextId, spec, now)], nextId := s.nextId + 1,
            ledger := s.ledger[s.nextId := NewEntry(spec)],
            script := s.script[1..], ran := s.ran + [s.script[0]]))
    case RetryFailed(id) =>
      s.(table := Exec(s.table, Retry(id), now),
         ledger := map k | k in s.ledger ::
           if exists j :: j in s.table && j.id == k && Where(Retry(id), j)
           then s.ledger[k].(retries := s.ledger[k].retries + 1, requeues := s.ledger[k].requeues + 1)
           else s.ledger[k])
    case Reap(cutoff) =>
      s.(table := Exec(s.table, ReapStale(cutoff), now),
         ledger := map k | k in s.ledger ::
           if exists j :: j in s.table && j.id == k && Where(ReapStale(cutoff), j)
           then s.ledger[k].(requeues := s.ledger[k].requeues + 1) else s.ledger[k])
    case Claim(limit) =>
      var batch := Selected(s.table, now, limit);
      s.(table := Exec(s.table, MarkInProgress(Ids(batch)), now),
         held := InProgressBatch(batch),
         ledger := map k | k in s.ledger ::
           if k in Ids(batch) then s.ledger[k].(claims := s.ledger[k].claims + 1) else s.ledger[k])
    case Dispatch(o) =>
      var j := s.held[0];
      var client := Find(s.panel, j.payload.email);
      s.(panel := if o.served then Put(s.panel, j.payload.email, Panel.Step(client, CommandOf(j))) else s.panel,
         reply := Some(o),
         ledger := if j.id !in s.ledger then s.ledger else
           var en := s.ledger[j.id];
           s.ledger[j.id := en.(dispatches := en.dispatches + 1, acks := en.acks + (if o.ok then 1 else 0))])
    case Record(error, seen) =>
      var j := s.held[0];
      var ok := s.reply.value.ok;
      s.(table := Exec(s.table, Mark(j, ok, error, seen, maxAttempts), now),
         held := s.held[1..], reply := None,
         ledger := if j.id !in s.ledger then s.ledger else
           s.ledger[j.id := RequeuedIf(Recorded(s.ledger[j.id], ok, seen),
             Mark(j, ok, error, seen, maxAttempts).MarkRetry?)])
    case RecordLost =>
      s.(held := s.held[1..], reply := None, ledger := Forget(s))
    case Prune(cutoff) =>
      s.(table := Pruned(s.table, cutoff),
         ledger := map k | k in s.ledger ::
           if exists j :: j in s.table && j.id == k && Prunable(j, cutoff)
           then s.ledger[k].(pruned := true) else s.ledger[k])
    case Crash =>
      s.(script := [], begun := s.local, ran := [], held := [], reply := None, ledger := Forget(s))
  }

  function RequeuedIf(e: Entry, again: bool): Entry {
    if again then e.(requeues := e.requeues + 1) else e
  }

  /** s' is reached from s by the events es. */
  ghost predicate Reaches(s: State, es: seq<Event>, s': State, maxAttempts: int)
    decreases |es|
  {
    if es == [] then s == s'
    else Enabled(s, es[0]) && Reaches(Apply(s, es[0], maxAttempts), es[1..], s', maxAttempts)
  }

  lemma {:induction false} ReachesThen(
    s: State, a: seq<Event>, m: State, b: seq<Event>, s': State, maxAttempts: int)
    requires Reaches(s, a, m, maxAttempts) && Reaches(m, b, s', maxAttempts)
    ensures Reaches(s, a + b, s', maxAttempts)
    decreases |a|
  {
    if a == [] {
      assert a + b == b;
    } else {
      assert (a + b)[1..] == a[1..] + b;
      ReachesThen(Apply(s, a[0], maxAttempts), a[1..], m, b, s', maxAttempts);
    }
  }

  /** Nothing enqueued, nobody known, an empty panel. */
  function Start(clock: int): State {
    State(Local(map[], map[]), [], Local(map[], map[]), [], [], 1, map[], [], None, clock, map[])
  }

  /** What a dispatch of the head of the batch comes to when the network answers every request. */
  function AnswerTo(s: State): Outcome
    requires s.held != []
  {
    Outcome(true, Accepts(Find(s.panel, s.held[0].payload.email), CommandOf(s.held[0])))
  }

  /** A run in which every dispatch is answered and every outcome recorded. */
  ghost predicate Prompt(s: State, es: seq<Event>, maxAttempts: int)
    decreases |es|
  {
    es == [] || (
      && Enabled(s, es[0]) && es[0].act != RecordLost
      && (es[0].act.Dispatch? ==> es[0].act.outcome == AnswerTo(s))
      && Prompt(Apply(s, es[0], maxAttempts), es[1..], maxAttempts))
  }

  lemma {:induction false} PromptThen(
    s: State, a: seq<Event>, m: State, b: seq<Event>, maxAttempts: int)
    requires Prompt(s, a, maxAttempts) && Reaches(s, a, m, maxAttempts) && Prompt(m, b, maxAttempts)
    ensures Prompt(s, a + b, maxAttempts)
    decreases |a|
  {
    if a == [] {
      assert a + b == b;
    } else {
      assert (a + b)[1..] == a[1..] + b;
      PromptThen(Apply(s, a[0], maxAttempts), a[1..], m, b, maxAttempts);
    }
  }

  /** The loop of Tick: dispatch each held job and record its outcome, until none is left. */
  ghost predicate Processing(s: State, es: seq<Event>, s': State, maxAttempts: int)
    decreases |es|
  {
    if s.held == [] then es == [] && s == s'
    else
      && 2 <= |es| && es[0].act.Dispatch? && (es[1].act.Record? || es[1].act == RecordLost)
      && Enabled(s, es[0])
      && var m := Apply(s, es[0], maxAttempts);
      Enabled(m, es[1]) && Processing(Apply(m, es[1], maxAttempts), es[2..], s', maxAttempts)
  }

  /** One Tick: reap what is stale for five minutes, claim a batch, process it, prune week-old successes. */
  ghost predicate TickRun(s: State, es: seq<Event>, s': State, batchSize: int, maxAttempts: int) {
    && 3 <= |es|
    && es[0].act.Reap? && s.clock <= es[0].act.cutoff + STALE_AFTER <= es[0].time
    && Enabled(s, es[0])
    && var s1 := Apply(s, es[0], maxAttempts);
    && es[1].act == Claim(batchSize) && Enabled(s1, es[1])
    && var s2 := Apply(s1, es[1], maxAttempts);
    exists m ::
      && Processing(s2, es[2..|es| - 1], m, maxAttempts)
      && Enabled(m, es[|es| - 1]) && s' == Apply(m, es[|es| - 1], maxAttempts)
      && es[|es| - 1].act.Prune? && m.clock <= es[|es| - 1].act.cutoff + PRUNE_AFTER <= es[|es| - 1].time
  }

  lemma {:induction false} ProcessingReaches(s: State, es: seq<Event>, s': State, maxAttempts: int)
    requires Processing(s, es, s', maxAttempts)
    ensures Reaches(s, es, s', maxAttempts) && s'.held == []
    decreases |es|
  {
    if s.held == [] {
    } else {
      var m := Apply(s, es[0], maxAttempts);
      ProcessingReaches(Apply(m, es[1], maxAttempts), es[2..], s', maxAttempts);
      assert es[1..][1..] == es[2..];
    }
  }

  lemma ReachesOne(s: State, e: Event, s': State, maxAttempts: int)
    requires Enabled(s, e) && s' == Apply(s, e, maxAttempts)
    ensures Reaches(s, [e], s', maxAttempts)
  {
    assert Reaches(s', [e][1..], s', maxAttempts);
  }

  lemma ReachesOneMore(s: State, es: seq<Event>, s1: State, s': State, maxAttempts: int)
    requires es != [] && Enabled(s, es[0]) && s1 == Apply(s, es[0], maxAttempts)
    requires Reaches(s1, es[1..], s', maxAttempts)
    ensures Reaches(s, es, s', maxAttempts)
  {
  }

  /** The loop of Tick and the statement after it. */
  lemma RestOfTick(s: State, es: seq<Event>, m: State, last: Event, s': State, maxAttempts: int)
    requires Processing(s, es, m, maxAttempts) && Enabled(m, last) && s' == Apply(m, last, maxAttempts)
    ensures Reaches(s, es + [last], s', maxAttempts)
  {
    ProcessingReaches(s, es, m, maxAttempts);
    ReachesOne(m, last, s', maxAttempts);
    ReachesThen(s, es, m, [last], s', maxAttempts);
  }

  /** The states a Tick goes through: after the reap, after the claim, after the loop. */
  lemma TickParts(s: State, es: seq<Event>, s': State, batchSize: int, maxAttempts: int)
    returns (s1: State, s2: State, m: State)
    requires TickRun(s, es, s', batchSize, maxAttempts)
    ensures 3 <= |es| && Enabled(s, es[0]) && s1 == Apply(s, es[0], maxAttempts)
    ensures Enabled(s1, es[1]) && s2 == Apply(s1, es[1], maxAttempts)
    ensures Processing(s2, es[2..|es| - 1], m, maxAttempts)
    ensures Enabled(m, es[|es| - 1]) && s' == Apply(m, es[|es| - 1], maxAttempts)
  {
    var n := |es| - 1;
    s1 := Apply(s, es[0], maxAttempts);
    s2 := Apply(s1, es[1], maxAttempts);
    m :| Processing(s2, es[2..n], m, maxAttempts) && Enabled(m, es[n]) && s' == Apply(m, es[n], maxAttempts);
  }

  /** A dispatch that is served does to the panel what its job says, field by field. */
  lemma ServedDispatchCarries(s: State, e: Event, maxAttempts: int)
    requires Enabled(s, e) && e.act.Dispatch? && e.act.outcome.served
    ensures Carries(s.panel, s.held[0], Apply(s, e, maxAttempts).panel)
  {
    StepCarries(s.panel, s.held[0]);
  }

  /** What recording an outcome makes of the table: the row of the job at hand succeeds, or fails for good at its
      last attempt, or waits attempts^2 seconds, but no more than sixty; no other row changes. */
  lemma RecordByColumn(s: State, e: Event, maxAttempts: int, i: nat)
    requires Enabled(s, e) && e.act.Record? && i < |s.table|
    ensures var j, n := s.table[i], s.held[0].attempts + 1;
      var wait := if n < 8 then n * n else 60;
      Apply(s, e, maxAttempts).table[i] ==
        if j.id != s.held[0].id then j
        else if s.reply.value.ok then j.(status := Success, lastError := "", updatedAt := e.time)
        else if maxAttempts <= n then j.(status := Failed, attempts := n, lastError := e.act.error, updatedAt := e.time)
        else j.(status := Pending, attempts := n, lastError := e.act.error,
                nextAttemptAt := e.act.seen + wait * 1_000_000_000, updatedAt := e.time)
  {
    var n := s.held[0].attempts + 1;
    SquareIsCapped(n);
    StatementsByColumn(s.table, Mark(s.held[0], s.reply.value.ok, e.act.error, e.act.seen, maxAttempts), e.time, i);
  }

  lemma SquareIsCapped(n: nat)
    ensures Backoff(n) == (if n < 8 then n * n else 60) * 1_000_000_000
  {
    if 8 <= n {
      assert 64 <= n * n;
    } else {
      assert n * n <= 49;
    }
  }

  /** Row i is put back if it was claimed more than five minutes before s, and left alone if since. */
  predicate KeptOrReaped(s: State, s': State, i: nat)
    requires i < |s.table| == |s'.table|
  {
    var j := s.table[i];
    && (j.status != InProgress || s'.clock - 300_000_000_000 <= j.updatedAt ==> s'.table[i] == j)
    && (j.status == InProgress && j.updatedAt < s.clock - 300_000_000_000 ==>
          s'.table[i] == j.(status := Pending, nextAttemptAt := s'.clock, updatedAt := s'.clock))
  }

  lemma ReapCutoff(s: State, e: Event, s': State, maxAttempts: int)
    requires Enabled(s, e) && e.act.Reap? && s.clock <= e.act.cutoff + STALE_AFTER <= e.time
    requires s' == Apply(s, e, maxAttempts)
    ensures |s'.table| == |s.table| && s.clock <= s'.clock
    ensures forall i :: 0 <= i < |s.table| ==> KeptOrReaped(s, s', i)
  {
    forall i | 0 <= i < |s.table| ensures |s'.table| == |s.table| && KeptOrReaped(s, s', i) {
      StatementsByColumn(s.table, ReapStale(e.act.cutoff), e.time, i);
    }
  }

  /** The row is deleted if it succeeded more than a week before s, and kept if since or if it did not. */
  predicate KeptOrPruned(s: State, s': State, j: Job) {
    && (j.status != Success || s'.clock - 604_800_000_000_000 <= j.updatedAt ==> j in s'.table)
    && (j.status == Success && j.updatedAt < s.clock - 604_800_000_000_000 ==> j !in s'.table)
  }

  lemma PruneCutoff(s: State, e: Event, s': State, maxAttempts: int)
    requires Enabled(s, e) && e.act.Prune? && s.clock <= e.act.cutoff + PRUNE_AFTER <= e.time
    requires s' == Apply(s, e, maxAttempts)
    ensures s.clock <= s'.clock && forall j :: j in s.table ==> KeptOrPruned(s, s', j)
    ensures forall j :: j in s'.table ==> j in s.table
  {
    PrunedAre(s.table, e.act.cutoff);
  }

  /** The two ends of a Tick keep these cutoffs. */
  lemma TickCutoffs(s: State, es: seq<Event>, s': State, batchSize: int, maxAttempts: int)
    returns (s1: State, m: State)
    requires TickRun(s, es, s', batchSize, maxAttempts)
    ensures |s1.table| == |s.table| && s.clock <= s1.clock && m.clock <= s'.clock
    ensures forall i :: 0 <= i < |s.table| ==> KeptOrReaped(s, s1, i)
    ensures forall j :: j in m.table ==> KeptOrPruned(m, s', j)
    ensures forall j :: j in s'.table ==> j in m.table
  {
    var n, s2 := |es| - 1, s;
    s1 := Apply(s, es[0], maxAttempts);
    ReapCutoff(s, es[0], s1, maxAttempts);
    s2 := Apply(s1, es[1], maxAttempts);
    m :| Processing(s2, es[2..n], m, maxAttempts)
      && Enabled(m, es[n]) && s' == Apply(m, es[n], maxAttempts)
      && es[n].act.Prune? && m.clock <= es[n].act.cutoff + PRUNE_AFTER <= es[n].time;
    PruneCutoff(m, es[n], s', maxAttempts);
  }

  lemma ReachesThrough(
    s: State, es: seq<Event>, s1: State, s2: State, s': State, maxAttempts: int)
    requires 3 <= |es| && Enabled(s, es[0]) && s1 == Apply(s, es[0], maxAttempts)
    requires Enabled(s1, es[1]) && s2 == Apply(s1, es[1], maxAttempts)
    requires Reaches(s2, es[2..|es| - 1] + [es[|es| - 1]], s', maxAttempts)
    ensures Reaches(s, es, s', maxAttempts)
  {
    assert es[1..][1..] == es[2..|es| - 1] + [es[|es| - 1]];
    ReachesOneMore(s1, es[1..], s2, s', maxAttempts);
  }

  /** A Tick is a run of the transition system, so whatever every run keeps, every Tick keeps. */
  lemma TickReaches(s: State, es: seq<Event>, s': State, batchSize: int, maxAttempts: int)
    requires TickRun(s, es, s', batchSize, maxAttempts)
    ensures Reaches(s, es, s', maxAttempts)
  {
    var s1, s2, m := TickParts(s, es, s', batchSize, maxAttempts);
    RestOfTick(s2, es[2..|es| - 1], m, es[|es| - 1], s', maxAttempts);
    ReachesThrough(s, es, s1, s2, s', maxAttempts);
  }
}
