/**
 The outbox empties: once the network answers, ceil(n / 20) Ticks finish n due jobs and leave the
 panel equal to the local tables, including after a crash whose claims have become stale.
 */
module Drain {
  import opened Options
  import opened Jobs
  import opened Panel
  import opened Users
  import opened Outbox
  import opened Convergence
  import Ledger

  function Unfinished(t: seq<Job>): nat {
    if t == [] then 0 else (if t[0].status != Success then 1 else 0) + Unfinished(t[1..])
  }

  /** Every dispatch of the run is answered by the panel with success, and every outcome is stored. */
  ghost predicate Healthy(es: seq<Event>) {
    forall i :: 0 <= i < |es| ==>
      es[i].act != RecordLost && (es[i].act.Dispatch? ==> es[i].act.outcome == Outcome(true, true))
  }

  predicate ReadyRow(j: Job, clock: int) {
    match j.status
    case Success => true
    case Pending => j.nextAttemptAt <= clock
    case InProgress => j.updatedAt < clock - STALE_AFTER
    case Failed => false
  }

  /** No handler or batch is under way and every unfinished job is due, or left over from a crash
      more than five minutes ago. */
  ghost predicate Ready(s: Outbox.State) {
    && s.script == [] && WorkerIdle(s)
    && forall i :: 0 <= i < |s.table| ==> ReadyRow(s.table[i], s.clock)
  }

  /** Row j waits its turn behind the whole batch. */
  ghost predicate Behind(j: Job, s: Outbox.State) {
    && j.status == Pending && j.nextAttemptAt <= s.clock
    && forall k :: 0 <= k < |s.held| ==> s.held[k].id < j.id
  }

  ghost predicate Held(j: Job, held: seq<Job>) {
    exists k :: 0 <= k < |held| && held[k].id == j.id
  }

  /** The batch consists of the oldest unfinished jobs. */
  ghost predicate OldestHeld(s: Outbox.State) {
    forall i :: 0 <= i < |s.table| && s.table[i].status != Success ==>
      Held(s.table[i], s.held) || Behind(s.table[i], s)
  }

  // ---------------------------------------------------------------- counting

  lemma {:induction false} UnfinishedAppend(a: seq<Job>, b: seq<Job>)
    ensures Unfinished(a + b) == Unfinished(a) + Unfinished(b)
  {
    if a == [] {
      assert a + b == b;
    } else {
      assert (a + b)[1..] == a[1..] + b;
      UnfinishedAppend(a[1..], b);
    }
  }

  lemma {:induction false} UnfinishedSame(t: seq<Job>, t': seq<Job>)
    requires |t| == |t'|
    requires forall i :: 0 <= i < |t| ==> (t[i].status == Success <==> t'[i].status == Success)
    ensures Unfinished(t) == Unfinished(t')
  {
    if t == [] {
    } else {
      UnfinishedSame(t[1..], t'[1..]);
    }
  }

  lemma {:induction false} UnfinishedPruned(t: seq<Job>, cutoff: int)
    ensures Unfinished(Pruned(t, cutoff)) == Unfinished(t)
  {
    if t == [] {
    } else {
      UnfinishedPruned(t[1..], cutoff);
      UnfinishedAppend(if Prunable(t[0], cutoff) then [] else [t[0]], Pruned(t[1..], cutoff));
      assert [t[0]][1..] == [];
    }
  }

  lemma {:induction false} UnfinishedFinishOne(t: seq<Job>, t': seq<Job>, k: int)
    requires |t| == |t'| && 0 <= k < |t|
    requires t[k].status != Success && t'[k].status == Success
    requires forall i :: 0 <= i < |t| && i != k ==> t'[i] == t[i]
    ensures Unfinished(t') == Unfinished(t) - 1
  {
    if k == 0 {
      assert t'[1..] == t[1..];
    } else {
      UnfinishedFinishOne(t[1..], t'[1..], k - 1);
    }
  }

  lemma {:induction false} UnfinishedAreDue(t: seq<Job>, now: int)
    requires forall i :: 0 <= i < |t| && t[i].status != Success ==> Due(t[i], now)
    ensures |DueRows(t, now)| == Unfinished(t)
  {
    if t == [] {
    } else {
      UnfinishedAreDue(t[1..], now);
    }
  }

  lemma {:induction false} NothingUnfinished(t: seq<Job>)
    requires Unfinished(t) == 0
    ensures forall j :: j in t ==> j.status == Success
  {
    if t == [] {
    } else {
      NothingUnfinished(t[1..]);
      assert t == [t[0]] + t[1..];
    }
  }

  // ---------------------------------------------------------------- one tick

  function Least(a: int, b: int): int {
    if a < b then a else b
  }

  lemma ReapReadies(s: Outbox.State, e: Event, maxAttempts: nat)
    requires Ready(s) && Enabled(s, e) && e.act.Reap? && s.clock <= e.act.cutoff + STALE_AFTER <= e.time
    ensures var s' := Apply(s, e, maxAttempts);
      && Unfinished(s'.table) == Unfinished(s.table)
      && forall i :: 0 <= i < |s'.table| && s'.table[i].status != Success ==> Due(s'.table[i], s'.clock)
  {
    UnfinishedSame(s.table, Apply(s, e, maxAttempts).table);
  }

  lemma ClaimHoldsOldest(s: Outbox.State, e: Event, maxAttempts: nat)
    requires Ascending(s.table) && Enabled(s, e) && e.act.Claim? && 0 <= e.act.limit
    requires forall i :: 0 <= i < |s.table| && s.table[i].status != Success ==> Due(s.table[i], s.clock)
    ensures var s' := Apply(s, e, maxAttempts);
      && OldestHeld(s')
      && Unfinished(s'.table) == Unfinished(s.table)
      && |s'.held| == Least(e.act.limit, Unfinished(s.table))
  {
    var s' := Apply(s, e, maxAttempts);
    var b := Selected(s.table, e.time, e.act.limit);
    SelectedIsLowestDue(s.table, e.time, e.act.limit);
    UnfinishedAreDue(s.table, e.time);
    forall i | 0 <= i < |s.table| && s.table[i].status != Success
      ensures Held(s'.table[i], s'.held) || Behind(s'.table[i], s')
    {
      ClaimedOrBehind(s, s', b, i, e.time);
    }
    forall i | 0 <= i < |s.table| ensures s'.table[i].status == Success <==> s.table[i].status == Success {
      if s.table[i].id in Ids(b) {
        var x :| x in b && x.id == s.table[i].id;
        Ledger.SameIdSameRow(s.table, x, i);
      }
    }
    UnfinishedSame(s.table, s'.table);
  }

  lemma ClaimedOrBehind(s: Outbox.State, s': Outbox.State, b: seq<Job>, i: nat, now: int)
    requires i < |s.table| && Due(s.table[i], s.clock) && s.clock <= now == s'.clock
    requires s'.held == InProgressBatch(b) && s'.table == Exec(s.table, MarkInProgress(Ids(b)), now)
    requires s.table[i] in b || forall k :: 0 <= k < |b| ==> b[k].id < s.table[i].id
    ensures Held(s'.table[i], s'.held) || Behind(s'.table[i], s')
  {
    var j := s.table[i];
    if j in b {
      var k :| 0 <= k < |b| && b[k] == j;
      assert s'.held[k].id == j.id;
    } else {
      forall x | x in b ensures x.id != j.id {
        var k :| 0 <= k < |b| && b[k] == x;
      }
      assert s'.table[i] == j;
    }
  }

  lemma HeadInOrder(s: Outbox.State)
    requires OldestHeld(s) && s.held != [] && Ascending(s.held)
    ensures InOrder(s)
  {
  }

  lemma FinishHead(s: Outbox.State, d: Event, r: Event, maxAttempts: nat)
    requires 1 <= maxAttempts && Ledger.Inv(s, maxAttempts) && Agree(s) && OldestHeld(s)
    requires s.held != [] && Enabled(s, d) && d.act == Dispatch(Outcome(true, true))
    requires Enabled(Apply(s, d, maxAttempts), r) && r.act.Record?
    ensures var s' := Apply(Apply(s, d, maxAttempts), r, maxAttempts);
      && Ledger.Inv(s', maxAttempts) && Agree(s') && OldestHeld(s')
      && s'.script == s.script && s'.reply == None && s'.held == s.held[1..]
      && Unfinished(s'.table) == Unfinished(s.table) - 1
  {
    var m := Apply(s, d, maxAttempts);
    var s' := Apply(m, r, maxAttempts);
    HeadInOrder(s);
    Ledger.KeptByStep(s, d, maxAttempts);
    AgreeKeptByStep(s, d, maxAttempts);
    Ledger.KeptByStep(m, r, maxAttempts);
    AgreeKeptByStep(m, r, maxAttempts);
    var k := HeldAt(s, maxAttempts);
    FinishedOthersStay(s, s', k, r.time);
    UnfinishedFinishOne(s.table, s'.table, k);
  }

  lemma FinishedOthersStay(s: Outbox.State, s': Outbox.State, k: int, now: int)
    requires Ascending(s.table) && Ascending(s.held) && s.held != [] && OldestHeld(s)
    requires 0 <= k < |s.table| && s.table[k].id == s.held[0].id
    requires s'.table == Exec(s.table, MarkSuccess(s.held[0].id), now)
    requires s'.held == s.held[1..] && s.clock <= s'.clock
    ensures OldestHeld(s')
    ensures s'.table[k].status == Success
    ensures forall i :: 0 <= i < |s.table| && i != k ==> s'.table[i] == s.table[i]
  {
    forall i | 0 <= i < |s.table| && i != k ensures s'.table[i] == s.table[i] {
      assert s.table[i].id != s.table[k].id;
    }
    forall i | 0 <= i < |s'.table| && s'.table[i].status != Success
      ensures Held(s'.table[i], s'.held) || Behind(s'.table[i], s')
    {
      assert i != k && s'.table[i] == s.table[i];
      if Held(s.table[i], s.held) {
        var n :| 0 <= n < |s.held| && s.held[n].id == s.table[i].id;
        assert n != 0 && s'.held[n - 1] == s.held[n];
      } else {
        assert Behind(s.table[i], s);
        forall n | 0 <= n < |s'.held| ensures s'.held[n].id < s'.table[i].id {
          assert s'.held[n] == s.held[n + 1];
        }
      }
    }
  }

  lemma {:induction false} ProcessingDrains(s: Outbox.State, es: seq<Event>, s': Outbox.State, maxAttempts: nat)
    requires 1 <= maxAttempts && Ledger.Inv(s, maxAttempts) && Agree(s) && OldestHeld(s)
    requires s.reply == None && Processing(s, es, s', maxAttempts) && Healthy(es)
    ensures Ledger.Inv(s', maxAttempts) && Agree(s') && OldestHeld(s')
    ensures s'.held == [] && s'.reply == None && s'.script == s.script
    ensures Unfinished(s'.table) == Unfinished(s.table) - |s.held|
    decreases |es|
  {
    if s.held == [] {
    } else {
      HealthySplit(es);
      FinishHead(s, es[0], es[1], maxAttempts);
      ProcessingDrains(Apply(Apply(s, es[0], maxAttempts), es[1], maxAttempts), es[2..], s', maxAttempts);
    }
  }

  lemma HealthySplit(es: seq<Event>)
    requires 2 <= |es| && Healthy(es)
    ensures es[0].act != RecordLost && es[1].act != RecordLost && Healthy(es[2..])
    ensures es[0].act.Dispatch? ==> es[0].act.outcome == Outcome(true, true)
  {
    forall i | 0 <= i < |es[2..]| ensures es[2..][i] == es[i + 2] {}
  }

  /** The two statements before the loop of Tick. */
  lemma ReapAndClaim(s: Outbox.State, r: Event, c: Event, maxAttempts: nat)
    requires 1 <= maxAttempts && Ledger.Inv(s, maxAttempts) && Agree(s) && Ready(s)
    requires r.act.Reap? && s.clock <= r.act.cutoff + STALE_AFTER <= r.time && Enabled(s, r)
    requires c.act.Claim? && 0 <= c.act.limit && Enabled(Apply(s, r, maxAttempts), c)
    ensures var s' := Apply(Apply(s, r, maxAttempts), c, maxAttempts);
      && Ledger.Inv(s', maxAttempts) && Agree(s') && OldestHeld(s') && s'.script == [] && s'.reply == None
      && Unfinished(s'.table) == Unfinished(s.table)
      && |s'.held| == Least(c.act.limit, Unfinished(s.table))
  {
    var s1 := Apply(s, r, maxAttempts);
    ReapReadies(s, r, maxAttempts);
    Ledger.KeptByStep(s, r, maxAttempts);
    AgreeKeptByStep(s, r, maxAttempts);
    ClaimHoldsOldest(s1, c, maxAttempts);
    Ledger.KeptByStep(s1, c, maxAttempts);
    AgreeKeptByStep(s1, c, maxAttempts);
  }

  lemma PruneAfterwards(m: Outbox.State, e: Event, maxAttempts: nat)
    requires 1 <= maxAttempts && Ledger.Inv(m, maxAttempts) && Agree(m) && OldestHeld(m)
    requires m.held == [] && m.reply == None && m.script == [] && Enabled(m, e) && e.act.Prune?
    ensures var s' := Apply(m, e, maxAttempts);
      && Ledger.Inv(s', maxAttempts) && Agree(s') && Ready(s') && Unfinished(s'.table) == Unfinished(m.table)
  {
    PruneStaysReady(m, e, maxAttempts);
    Ledger.KeptByStep(m, e, maxAttempts);
    AgreeKeptByStep(m, e, maxAttempts);
  }

  lemma HealthySlice(es: seq<Event>, i: nat, j: nat)
    requires i <= j <= |es| && Healthy(es)
    ensures Healthy(es[i..j])
  {
  }

  /** A healthy Tick finishes min(20, n) of n ready jobs and keeps the panel on course. */
  lemma TickDrains(s: Outbox.State, es: seq<Event>, s': Outbox.State, batchSize: nat, maxAttempts: nat)
    requires 1 <= maxAttempts && Ledger.Inv(s, maxAttempts) && Agree(s) && Ready(s)
    requires TickRun(s, es, s', batchSize, maxAttempts) && Healthy(es)
    ensures Ledger.Inv(s', maxAttempts) && Agree(s') && Ready(s')
    ensures Unfinished(s'.table) == Unfinished(s.table) - Least(batchSize, Unfinished(s.table))
  {
    var n := |es| - 1;
    var s2 := Apply(Apply(s, es[0], maxAttempts), es[1], maxAttempts);
    var m :| Processing(s2, es[2..n], m, maxAttempts) && Enabled(m, es[n]) && s' == Apply(m, es[n], maxAttempts);
    ReapAndClaim(s, es[0], es[1], maxAttempts);
    HealthySlice(es, 2, n);
    ProcessingDrains(s2, es[2..n], m, maxAttempts);
    PruneAfterwards(m, es[n], maxAttempts);
  }

  /** When the network answers, the dispatches of a batch of oldest jobs all succeed. */
  lemma {:induction false} PromptBatchSucceeds(s: Outbox.State, es: seq<Event>, s': Outbox.State, maxAttempts: nat)
    requires 1 <= maxAttempts && Ledger.Inv(s, maxAttempts) && Agree(s) && OldestHeld(s)
    requires s.reply == None && Processing(s, es, s', maxAttempts) && Prompt(s, es, maxAttempts)
    ensures Healthy(es)
    decreases |es|
  {
    if s.held == [] {
    } else {
      var next := Apply(Apply(s, es[0], maxAttempts), es[1], maxAttempts);
      HeadInOrder(s);
      OldestJobIsAccepted(s, maxAttempts);
      PromptPair(s, es, maxAttempts);
      FinishHead(s, es[0], es[1], maxAttempts);
      PromptBatchSucceeds(next, es[2..], s', maxAttempts);
      HealthyPair(es);
    }
  }

  lemma HealthyPair(es: seq<Event>)
    requires 2 <= |es| && es[0].act == Dispatch(Outcome(true, true)) && es[1].act.Record? && Healthy(es[2..])
    ensures Healthy(es)
  {
    assert forall i :: 2 <= i < |es| ==> es[i] == es[2..][i - 2];
  }

  lemma PromptPair(s: Outbox.State, es: seq<Event>, maxAttempts: int)
    requires 2 <= |es| && Prompt(s, es, maxAttempts)
    ensures Enabled(s, es[0]) && es[0].act != RecordLost && es[1].act != RecordLost
    ensures es[0].act.Dispatch? ==> es[0].act.outcome == AnswerTo(s)
    ensures Enabled(Apply(s, es[0], maxAttempts), es[1])
    ensures Prompt(Apply(Apply(s, es[0], maxAttempts), es[1], maxAttempts), es[2..], maxAttempts)
  {
    assert es[1..][0] == es[1] && es[1..][1..] == es[2..];
  }

  lemma {:induction false} PromptPrefix(s: Outbox.State, es: seq<Event>, n: nat, maxAttempts: int)
    requires Prompt(s, es, maxAttempts) && n <= |es|
    ensures Prompt(s, es[..n], maxAttempts)
    decreases |es|
  {
    if n == 0 {
    } else {
      PromptPrefix(Apply(s, es[0], maxAttempts), es[1..], n - 1, maxAttempts);
      assert es[..n][1..] == es[1..][..n - 1];
    }
  }

  lemma PromptMiddle(s: Outbox.State, es: seq<Event>, maxAttempts: int)
    requires 3 <= |es| && Prompt(s, es, maxAttempts)
    ensures Enabled(s, es[0]) && Enabled(Apply(s, es[0], maxAttempts), es[1])
    ensures Prompt(Apply(Apply(s, es[0], maxAttempts), es[1], maxAttempts), es[2..|es| - 1], maxAttempts)
  {
    PromptPair(s, es, maxAttempts);
    PromptPrefix(Apply(Apply(s, es[0], maxAttempts), es[1], maxAttempts), es[2..], |es| - 3, maxAttempts);
    assert es[2..][..|es| - 3] == es[2..|es| - 1];
  }

  lemma HealthyAround(es: seq<Event>)
    requires 3 <= |es| && Healthy(es[2..|es| - 1])
    requires es[0].act.Reap? && es[1].act.Claim? && es[|es| - 1].act.Prune?
    ensures Healthy(es)
  {
    assert forall i :: 2 <= i < |es| - 1 ==> es[i] == es[2..|es| - 1][i - 2];
  }

  /** So a Tick whose requests are all answered finishes min(20, n) of n ready jobs. */
  lemma PromptTickDrains(s: Outbox.State, es: seq<Event>, s': Outbox.State, batchSize: nat, maxAttempts: nat)
    requires 1 <= maxAttempts && OnCourse(s, maxAttempts)
    requires TickRun(s, es, s', batchSize, maxAttempts) && Prompt(s, es, maxAttempts)
    ensures Healthy(es) && OnCourse(s', maxAttempts)
    ensures Unfinished(s'.table) == Unfinished(s.table) - Least(batchSize, Unfinished(s.table))
  {
    PromptTickIsHealthy(s, es, s', batchSize, maxAttempts);
    TickDrains(s, es, s', batchSize, maxAttempts);
  }

  lemma PromptTickIsHealthy(s: Outbox.State, es: seq<Event>, s': Outbox.State, batchSize: nat, maxAttempts: nat)
    requires 1 <= maxAttempts && OnCourse(s, maxAttempts)
    requires TickRun(s, es, s', batchSize, maxAttempts) && Prompt(s, es, maxAttempts)
    ensures Healthy(es)
  {
    var n := |es| - 1;
    var s2 := Apply(Apply(s, es[0], maxAttempts), es[1], maxAttempts);
    var m :| Processing(s2, es[2..n], m, maxAttempts) && Enabled(m, es[n]) && s' == Apply(m, es[n], maxAttempts);
    PromptMiddle(s, es, maxAttempts);
    ReapAndClaim(s, es[0], es[1], maxAttempts);
    PromptBatchSucceeds(s2, es[2..n], m, maxAttempts);
    HealthyAround(es);
  }

  lemma PruneStaysReady(m: Outbox.State, e: Event, maxAttempts: nat)
    requires Ascending(m.table) && OldestHeld(m) && m.held == [] && m.reply == None && m.script == []
    requires Enabled(m, e) && e.act.Prune?
    ensures Ready(Apply(m, e, maxAttempts))
    ensures Unfinished(Apply(m, e, maxAttempts).table) == Unfinished(m.table)
  {
    var s' := Apply(m, e, maxAttempts);
    UnfinishedPruned(m.table, e.act.cutoff);
    PrunedKeepsTheRest(m.table, e.act.cutoff);
    forall i | 0 <= i < |s'.table| && s'.table[i].status != Success ensures Behind(s'.table[i], s') {
      assert s'.table[i] in m.table;
      var k :| 0 <= k < |m.table| && m.table[k] == s'.table[i];
      assert Behind(m.table[k], m);
    }
  }

  // ---------------------------------------------------------------- many ticks

  /** A Tick in which every dispatch succeeds takes s to s'. */
  ghost predicate HealthyTick(s: Outbox.State, s': Outbox.State, batchSize: nat, maxAttempts: nat) {
    exists es :: TickRun(s, es, s', batchSize, maxAttempts) && Healthy(es)
  }

  /** Ticks with nothing but time between them: each takes one of these states to the next. */
  ghost predicate TickRuns(states: seq<Outbox.State>, batchSize: nat, maxAttempts: nat) {
    states != [] && forall i, j :: 0 <= i && i + 1 == j < |states| ==>
      HealthyTick(states[i], states[j], batchSize, maxAttempts)
  }

  ghost predicate OnCourse(s: Outbox.State, maxAttempts: nat) {
    Ledger.Inv(s, maxAttempts) && Agree(s) && Ready(s)
  }

  /** Something every step does to a count, done k times. */
  lemma {:induction false} Repeated<S(!new)>(
    states: seq<S>, next: (S, S) -> bool, holds: (S, nat) -> bool, n: nat, k: nat, batchSize: nat)
    requires k < |states| && holds(states[0], n)
    requires forall i, j :: 0 <= i && i + 1 == j < |states| ==> next(states[i], states[j])
    requires forall a, b, m: nat :: next(a, b) && holds(a, m) ==> holds(b, m - Least(batchSize, m))
    ensures holds(states[k], Left(n, k, batchSize))
  {
    if k == 0 {
    } else {
      Repeated(states, next, holds, n, k - 1, batchSize);
      assert next(states[k - 1], states[k]);
    }
  }

  lemma AfterTicks(states: seq<Outbox.State>, k: nat, batchSize: nat, maxAttempts: nat)
    requires 1 <= maxAttempts && TickRuns(states, batchSize, maxAttempts) && k < |states|
    requires OnCourse(states[0], maxAttempts)
    ensures OnCourseWith(states[k], maxAttempts, Left(Unfinished(states[0].table), k, batchSize))
  {
    ghost var next := (a, b) => HealthyTick(a, b, batchSize, maxAttempts);
    ghost var holds := (s, m: nat) => OnCourseWith(s, maxAttempts, m);
    EveryTick(batchSize, maxAttempts);
    Repeated(states, next, holds, Unfinished(states[0].table), k, batchSize);
  }

  ghost predicate OnCourseWith(s: Outbox.State, maxAttempts: nat, unfinished: nat) {
    OnCourse(s, maxAttempts) && Unfinished(s.table) == unfinished
  }

  lemma EveryTick(batchSize: nat, maxAttempts: nat)
    requires 1 <= maxAttempts
    ensures forall s, s', m: nat :: HealthyTick(s, s', batchSize, maxAttempts) && OnCourseWith(s, maxAttempts, m) ==>
      OnCourseWith(s', maxAttempts, m - Least(batchSize, m))
  {
    forall s, s', m: nat | HealthyTick(s, s', batchSize, maxAttempts) && OnCourseWith(s, maxAttempts, m)
      ensures OnCourseWith(s', maxAttempts, m - Least(batchSize, m))
    {
      OneTick(s, s', batchSize, maxAttempts, m);
    }
  }

  lemma OneTick(s: Outbox.State, s': Outbox.State, batchSize: nat, maxAttempts: nat, n: nat)
    requires 1 <= maxAttempts && OnCourseWith(s, maxAttempts, n) && HealthyTick(s, s', batchSize, maxAttempts)
    ensures OnCourseWith(s', maxAttempts, n - Least(batchSize, n))
  {
    var es :| TickRun(s, es, s', batchSize, maxAttempts) && Healthy(es);
    TickDrains(s, es, s', batchSize, maxAttempts);
  }

  /** n jobs after k Ticks, each taking a batch. */
  function Left(n: nat, k: nat, batchSize: nat): nat {
    if k == 0 then n else Left(n, k - 1, batchSize) - Least(batchSize, Left(n, k - 1, batchSize))
  }

  lemma {:induction false} LeftIs(n: nat, k: nat, batchSize: nat)
    ensures Left(n, k, batchSize) == if n <= k * batchSize then 0 else n - k * batchSize
  {
    if k == 0 {
    } else {
      LeftIs(n, k - 1, batchSize);
      assert k * batchSize == (k - 1) * batchSize + batchSize;
    }
  }

  /** n ready jobs are all done after k healthy Ticks exactly when 20 k reaches n, that is after
      ceil(n / 20) of them, and then the panel is exactly the local view. */
  lemma TicksDrainTheOutbox(states: seq<Outbox.State>, batchSize: nat, maxAttempts: nat)
    requires 1 <= maxAttempts && TickRuns(states, batchSize, maxAttempts) && OnCourse(states[0], maxAttempts)
    ensures var last, ticks := states[|states| - 1], |states| - 1;
      && ((forall j :: j in last.table ==> j.status == Success) <==> Unfinished(states[0].table) <= ticks * batchSize)
      && ValidLocal(last.local)
      && ((forall j :: j in last.table ==> j.status == Success) ==> Mirrors(last.panel, last.local))
  {
    var last := states[|states| - 1];
    AfterTicks(states, |states| - 1, batchSize, maxAttempts);
    LeftIs(Unfinished(states[0].table), |states| - 1, batchSize);
    AgreeWhenIdle(last, "");
    if forall j :: j in last.table ==> j.status == Success {
      AllFinished(last.table);
      QuietMirrors(last);
    } else {
      if Unfinished(last.table) == 0 {
        NothingUnfinished(last.table);
      }
    }
  }

  lemma {:induction false} AllFinished(t: seq<Job>)
    requires forall j :: j in t ==> j.status == Success
    ensures Unfinished(t) == 0
  {
    if t == [] {
    } else {
      AllFinished(t[1..]);
    }
  }
}
