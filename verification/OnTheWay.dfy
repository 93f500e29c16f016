/**
 A client under reconciliation is never left without inbounds: not in between, not after a crash wherever it
 falls, not after a lost answer or a refused mark.

 While the jobs of one handler are under way, the client on the panel is what some first part of them makes
 of it, and the rest of them is still to come (`PartDone`).  All this takes is that requests reach the panel in
 turn (`InTurnRun`): no handler has to be sound, and no crash harmless.
 */
module OnTheWay {
  import opened Options
  import opened Jobs
  import opened Panel
  import opened Users
  import opened Outbox
  import opened Convergence
  import opened Scripts
  import opened Sequences
  import opened HandlerRuns
  import Ledger

  /** The client's jobs still to be done or enqueued. */
  function Rest(s: Outbox.State, email: string): seq<Command> {
    Outstanding(s.table, email) + Todo(s.script, email)
  }

  /** The first k of the jobs have taken effect; the k-th may still be waiting to be recorded. */
  ghost predicate PartDone(s: Outbox.State, email: string, c: Option<Client>, jobs: seq<Command>, k: nat) {
    && k <= |jobs| && Find(s.panel, email) == Play(c, jobs[..k])
    && (Rest(s, email) == jobs[k..] ||
        (1 <= k && Rest(s, email) == jobs[k - 1..] && Outstanding(s.table, email) != []))
  }

  /** Other handlers may begin, but none for this client. */
  predicate LeavesAlone(e: Event, email: string) {
    e.act.Begin? ==> Todo(e.act.script, email) == []
  }

  lemma PlayOneMore(c: Option<Client>, jobs: seq<Command>, k: nat)
    requires k < |jobs|
    ensures Play(c, jobs[..k + 1]) == Panel.Step(Play(c, jobs[..k]), jobs[k])
  {
    assert jobs[..k + 1] == jobs[..k] + [jobs[k]];
    PlayAppend(c, jobs[..k], [jobs[k]]);
    OneStep(Play(c, jobs[..k]), jobs[k]);
  }

  /** The oldest unfinished job is served: a step forward, or the last step again. */
  lemma ServedPartDone(
    s: Outbox.State, s': Outbox.State, email: string, c: Option<Client>, jobs: seq<Command>, k: nat)
    returns (k': nat)
    requires PartDone(s, email, c, jobs, k) && Outstanding(s.table, email) != []
    requires s'.table == s.table && s'.script == s.script
    requires Find(s'.panel, email) == Panel.Step(Find(s.panel, email), Outstanding(s.table, email)[0])
    ensures PartDone(s', email, c, jobs, k')
  {
    assert Rest(s, email)[0] == Outstanding(s.table, email)[0];
    if Rest(s, email) == jobs[k..] {
      k' := k + 1;
      PlayOneMore(c, jobs, k);
    } else {
      k' := k;
      PlayOneMore(c, jobs, k - 1);
      StepTwice(Play(c, jobs[..k - 1]), jobs[k - 1]);
    }
  }

  /** Its success is recorded: what was done is off the queue. */
  lemma RecordedPartDone(
    s: Outbox.State, s': Outbox.State, email: string, c: Option<Client>, jobs: seq<Command>, k: nat, cmd: Command)
    returns (k': nat)
    requires PartDone(s, email, c, jobs, k)
    requires s'.panel == s.panel && s'.script == s.script
    requires Outstanding(s.table, email) == [cmd] + Outstanding(s'.table, email)
    requires Panel.Step(Find(s.panel, email), cmd) == Find(s.panel, email)
    ensures PartDone(s', email, c, jobs, k')
  {
    Regroup([cmd], Outstanding(s'.table, email), Todo(s.script, email));
    assert Rest(s, email) == [cmd] + Rest(s', email);
    if Rest(s, email) == jobs[k..] {
      k' := k + 1;
      assert jobs[k..][1..] == jobs[k + 1..] && jobs[k] == cmd;
      PlayOneMore(c, jobs, k);
    } else {
      k' := k;
      assert jobs[k - 1..][1..] == jobs[k..];
    }
  }

  /** A crash drops what was not enqueued; what was is a first part of the jobs. */
  lemma CrashedPartDone(
    s: Outbox.State, s': Outbox.State, email: string, c: Option<Client>, jobs: seq<Command>, k: nat)
    returns (n: nat)
    requires PartDone(s, email, c, jobs, k)
    requires s'.table == s.table && s'.panel == s.panel && s'.script == []
    ensures n <= |jobs| && PartDone(s', email, c, jobs[..n], k)
  {
    var o, t := Outstanding(s.table, email), Todo(s.script, email);
    n := |jobs| - |t|;
    assert Rest(s', email) == o;
    assert o == Rest(s, email)[..|o|];
    assert jobs[..n][..k] == jobs[..k];
    if Rest(s, email) == jobs[k..] {
      assert jobs[k..][..|o|] == jobs[..n][k..];
    } else {
      assert jobs[k - 1..][..|o|] == jobs[..n][k - 1..];
    }
  }

  lemma SameCourse(
    s: Outbox.State, s': Outbox.State, email: string, c: Option<Client>, jobs: seq<Command>, k: nat)
    requires PartDone(s, email, c, jobs, k)
    requires Find(s'.panel, email) == Find(s.panel, email) && Rest(s', email) == Rest(s, email)
    requires Outstanding(s.table, email) != [] ==> Outstanding(s'.table, email) != []
    ensures PartDone(s', email, c, jobs[..|jobs|], k)
  {
    assert jobs[..|jobs|] == jobs;
  }

  lemma PartDoneKeptByDispatch(
    s: Outbox.State, e: Event, maxAttempts: nat, email: string, c: Option<Client>, jobs: seq<Command>, k: nat)
    returns (k': nat)
    requires Ledger.Inv(s, maxAttempts) && Enabled(s, e) && e.act.Dispatch? && InTurn(s, e)
    requires PartDone(s, email, c, jobs, k)
    ensures PartDone(Apply(s, e, maxAttempts), email, c, jobs[..|jobs|], k')
  {
    var s', at := Apply(s, e, maxAttempts), s.held[0].payload.email;
    PutFind(s.panel, at, Panel.Step(Find(s.panel, at), CommandOf(s.held[0])));
    if e.act.outcome.served && at == email {
      var i := HeldAt(s, maxAttempts);
      QueueOfHeld(s, i);
      k' := ServedPartDone(s, s', email, c, jobs, k);
      assert jobs[..|jobs|] == jobs;
    } else {
      k' := k;
      SameCourse(s, s', email, c, jobs, k);
    }
  }

  lemma PartDoneKeptByRecord(
    s: Outbox.State, e: Event, maxAttempts: nat, email: string, c: Option<Client>, jobs: seq<Command>, k: nat)
    returns (k': nat)
    requires Ledger.Inv(s, maxAttempts) && HeadApplied(s) && Enabled(s, e) && e.act.Record?
    requires PartDone(s, email, c, jobs, k)
    ensures PartDone(Apply(s, e, maxAttempts), email, c, jobs[..|jobs|], k')
  {
    var s' := Apply(s, e, maxAttempts);
    QueueAfterRecord(s, e, email, maxAttempts);
    if RecordedHead(s, email) != [] {
      k' := RecordedPartDone(s, s', email, c, jobs, k, CommandOf(s.held[0]));
      assert jobs[..|jobs|] == jobs;
    } else {
      k' := k;
      assert [] + Outstanding(s'.table, email) == Outstanding(s'.table, email);
      SameCourse(s, s', email, c, jobs, k);
    }
  }

  /** Every other act leaves the client where it is and its jobs where they are. */
  lemma PartDoneOtherwise(s: Outbox.State, e: Event, maxAttempts: nat, email: string)
    requires Ledger.Inv(s, maxAttempts) && Enabled(s, e) && LeavesAlone(e, email)
    requires !e.act.Dispatch? && !e.act.Record? && e.act != Crash
    ensures var s' := Apply(s, e, maxAttempts);
      && s'.panel == s.panel && Rest(s', email) == Rest(s, email)
      && (Outstanding(s.table, email) != [] ==> Outstanding(s'.table, email) != [])
  {
    match e.act
    case Begin(_) =>
    case Advance => AdvancedPartDone(s, e, email, maxAttempts);
    case RetryFailed(_) => QueueAfterRequeueOrClaim(s, e, email, maxAttempts);
    case Reap(_) => QueueAfterRequeueOrClaim(s, e, email, maxAttempts);
    case Claim(_) => QueueAfterRequeueOrClaim(s, e, email, maxAttempts);
    case RecordLost =>
    case Prune(cutoff) => OutstandingPruned(s.table, cutoff, email);
  }

  ghost predicate Steady(s: Outbox.State, maxAttempts: nat) {
    1 <= maxAttempts && Ledger.Inv(s, maxAttempts) && HeadApplied(s)
  }

  /** One step, of whoever.  The jobs stay the same, but for a crash, which may cut them short. */
  lemma PartDoneKeptByStep(
    s: Outbox.State, e: Event, maxAttempts: nat, email: string, c: Option<Client>, jobs: seq<Command>, k: nat)
    returns (n: nat, k': nat)
    requires Steady(s, maxAttempts) && Enabled(s, e) && InTurn(s, e) && LeavesAlone(e, email)
    requires PartDone(s, email, c, jobs, k)
    ensures n <= |jobs| && PartDone(Apply(s, e, maxAttempts), email, c, jobs[..n], k')
  {
    n, k' := |jobs|, k;
    if e.act.Dispatch? {
      k' := PartDoneKeptByDispatch(s, e, maxAttempts, email, c, jobs, k);
    } else if e.act.Record? {
      k' := PartDoneKeptByRecord(s, e, maxAttempts, email, c, jobs, k);
    } else if e.act == Crash {
      n := CrashedPartDone(s, Apply(s, e, maxAttempts), email, c, jobs, k);
    } else {
      PartDoneOtherwise(s, e, maxAttempts, email);
      SameCourse(s, Apply(s, e, maxAttempts), email, c, jobs, k);
    }
  }

  lemma AdvancedPartDone(s: Outbox.State, e: Event, email: string, maxAttempts: nat)
    requires Enabled(s, e) && e.act == Advance
    ensures Rest(Apply(s, e, maxAttempts), email) == Rest(s, email)
    ensures Outstanding(s.table, email) != [] ==> Outstanding(Apply(s, e, maxAttempts).table, email) != []
  {
    QueueAfterAdvance(s, e, email, maxAttempts);
    assert s.script == [s.script[0]] + s.script[1..];
    TodoAppend([s.script[0]], s.script[1..], email);
    Regroup(Outstanding(s.table, email), Todo([s.script[0]], email), Todo(s.script[1..], email));
  }

  ghost predicate AllLeaveAlone(es: seq<Event>, email: string) {
    forall i :: 0 <= i < |es| ==> LeavesAlone(es[i], email)
  }

  lemma SteadyStep(
    s: Outbox.State, e: Event, maxAttempts: nat, email: string, c: Option<Client>, jobs: seq<Command>, k: nat)
    returns (n: nat, k': nat)
    requires Steady(s, maxAttempts) && Enabled(s, e) && InTurn(s, e) && LeavesAlone(e, email)
    requires PartDone(s, email, c, jobs, k)
    ensures Steady(Apply(s, e, maxAttempts), maxAttempts)
    ensures n <= |jobs| && PartDone(Apply(s, e, maxAttempts), email, c, jobs[..n], k')
  {
    n, k' := PartDoneKeptByStep(s, e, maxAttempts, email, c, jobs, k);
    HeadAppliedKept(s, e, maxAttempts);
    Ledger.KeptByStep(s, e, maxAttempts);
  }

  lemma RestLeavesAlone(es: seq<Event>, email: string)
    requires es != [] && AllLeaveAlone(es, email)
    ensures LeavesAlone(es[0], email) && AllLeaveAlone(es[1..], email)
  {
    forall i | 0 <= i < |es[1..]| ensures es[1..][i] == es[i + 1] {}
  }

  /** Along a whole run the client is at every moment what a first part of the jobs makes of it. */
  lemma {:induction false} PartDoneKeptByRun(
    s: Outbox.State, es: seq<Event>, s': Outbox.State, maxAttempts: nat,
    email: string, c: Option<Client>, jobs: seq<Command>, k: nat) returns (n: nat)
    requires Steady(s, maxAttempts) && InTurnRun(s, es, s', maxAttempts) && AllLeaveAlone(es, email)
    requires PartDone(s, email, c, jobs, k)
    ensures n <= |jobs| && Find(s'.panel, email) == Play(c, jobs[..n])
    decreases |es|
  {
    if es == [] {
      n := k;
    } else {
      RestLeavesAlone(es, email);
      var cut, k' := SteadyStep(s, es[0], maxAttempts, email, c, jobs, k);
      n := PartDoneKeptByRun(Apply(s, es[0], maxAttempts), es[1..], s', maxAttempts, email, c, jobs[..cut], k');
      assert jobs[..cut][..n] == jobs[..n];
    }
  }

  /** When the handler begins, none of its jobs is done. */
  lemma ReconcilingBegins(
    s: Outbox.State, e: Event, maxAttempts: nat, id: int, added: seq<int>, removed: seq<int>)
    requires 1 <= maxAttempts && Ledger.Inv(s, maxAttempts) && Agree(s) && s.script == []
    requires id in s.local.users && id in s.local.inbounds && Reconciles(s.local, id, added, removed)
    requires Outstanding(s.table, s.local.users[id].username) == []
    requires Enabled(s, e) && e.act == Begin(SetInboundsScript(s.local, id, added, removed))
    ensures var f := FieldsOf(PayloadFor(s.local.users[id]));
      var jobs := Commands(Assign, added, f) + Commands(Unassign, removed, f);
      var m := Apply(s, e, maxAttempts);
      && Steady(m, maxAttempts)
      && PartDone(m, s.local.users[id].username, ClientWith(f, s.local.inbounds[id]), jobs, 0)
  {
    var email, f := s.local.users[id].username, FieldsOf(PayloadFor(s.local.users[id]));
    var jobs := Commands(Assign, added, f) + Commands(Unassign, removed, f);
    assert jobs[..0] == [] && jobs[0..] == jobs;
    assert Steady(Apply(s, e, maxAttempts), maxAttempts) by {
      HeadAppliedKept(s, e, maxAttempts);
      Ledger.KeptByStep(s, e, maxAttempts);
    }
    assert Todo(e.act.script, email) == jobs by {
      SetInboundsTodo(s.local, id, added, removed);
    }
    assert Find(s.panel, email) == ClientWith(f, s.local.inbounds[id]) by {
      AgreeWhenIdle(s, email);
      DesiredIs(s.local, id);
    }
  }

  /** Reconciling the inbounds of a user nothing is pending for, from a set that is not empty to one that is
      not: in every run in which requests reach the panel in turn, with retries, refused marks, lost answers and
      crashes anywhere, between the reconciliation's own statements too, and with any handlers for other users
      in between, the panel keeps the client attached at every moment. */
  lemma NeverBareInAnyRun(
    s: Outbox.State, es: seq<Event>, s': Outbox.State, maxAttempts: nat,
    id: int, added: seq<int>, removed: seq<int>)
    requires 1 <= maxAttempts && Ledger.Inv(s, maxAttempts) && Agree(s) && s.script == []
    requires id in s.local.users && id in s.local.inbounds && Reconciles(s.local, id, added, removed)
    requires s.local.inbounds[id] != {} && s.local.inbounds[id] + ToSet(added) - ToSet(removed) != {}
    requires var email := s.local.users[id].username;
      && Outstanding(s.table, email) == []
      && es != [] && es[0].act == Begin(SetInboundsScript(s.local, id, added, removed))
      && AllLeaveAlone(es[1..], email)
    requires InTurnRun(s, es, s', maxAttempts)
    ensures Attached(Find(s'.panel, s.local.users[id].username)) != {}
  {
    var email, have, f := s.local.users[id].username, s.local.inbounds[id], FieldsOf(PayloadFor(s.local.users[id]));
    var jobs := Commands(Assign, added, f) + Commands(Unassign, removed, f);
    var m := Apply(s, es[0], maxAttempts);
    ReconcilingBegins(s, es[0], maxAttempts, id, added, removed);
    var n := PartDoneKeptByRun(m, es[1..], s', maxAttempts, email, ClientWith(f, have), jobs, 0);
    NeverBareOnTheWay(have, added, removed, f);
  }
}
