/**
 The panel follows the local tables.

 `Agree` says that the panel, once every unfinished job (pending, in progress or failed) and
 everything a running handler still has to enqueue is carried out in id order, equals what the local
 tables ask for (`AgreeWhenBusy`).  It is kept by every run in which a dispatch that reaches the panel
 concerns the oldest unfinished job of its client, and in which the process dies inside a handler only
 where the statements carried out so far are sound by themselves (`CrashKeepsAgreeIff`).  Jobs of
 different clients may overtake each other freely, and dispatches may fail or lose their answers.
 */
module Convergence {
  import opened Options
  import opened Jobs
  import opened Panel
  import opened Users
  import opened Outbox
  import opened Sequences
  import Ledger

  function SpecCommand(spec: Spec): Command {
    Command(spec.op, spec.inboundId, FieldsOf(spec.payload))
  }

  /** The unfinished jobs of one client, oldest first. */
  function Outstanding(t: seq<Job>, email: string): seq<Command> {
    if t == [] then []
    else (if t[0].status != Success && t[0].payload.email == email then [CommandOf(t[0])] else []) +
         Outstanding(t[1..], email)
  }

  /** What the running handler will still enqueue for one client. */
  function Todo(script: seq<Micro>, email: string): seq<Command> {
    if script == [] then []
    else (if script[0].Enqueue? && script[0].spec.payload.email == email then [SpecCommand(script[0].spec)] else []) +
         Todo(script[1..], email)
  }

  /** The local tables once the running handler is done. */
  function Final(l: Local, script: seq<Micro>): Local
    decreases |script|
  {
    if script == [] then l
    else Final(if script[0].Write? then script[0].local else l, script[1..])
  }

  /** The unfinished jobs lead where the statements the handler has carried out lead. */
  ghost predicate AgreeOn(s: Outbox.State, email: string)
    requires ValidLocal(s.begun)
  {
    && Play(Find(s.panel, email), Outstanding(s.table, email)) == Play(Desired(s.begun, email), Todo(s.ran, email))
    && PlayAccepted(Find(s.panel, email), Outstanding(s.table, email))
  }

  /** No older job of the same client is unfinished. */
  ghost predicate InOrder(s: Outbox.State) {
    s.held != [] && forall i :: 0 <= i < |s.table| ==>
      s.table[i].id < s.held[0].id && s.table[i].payload.email == s.held[0].payload.email ==>
      s.table[i].status == Success
  }

  /** A dispatch that returned nil and is not recorded yet has already taken effect. */
  ghost predicate HeadApplied(s: Outbox.State) {
    s.reply.Some? && s.reply.value.ok ==>
      && InOrder(s)
      && Panel.Step(Find(s.panel, s.held[0].payload.email), CommandOf(s.held[0]))
           == Find(s.panel, s.held[0].payload.email)
  }

  /** Statements that enqueue what turns the old desired panel into the new one. */
  ghost predicate Sound(l: Local, script: seq<Micro>) {
    && ValidLocal(l) && ValidLocal(Final(l, script))
    && forall email ::
         && Play(Desired(l, email), Todo(script, email)) == Desired(Final(l, script), email)
         && PlayAccepted(Desired(l, email), Todo(script, email))
  }

  ghost predicate Agree(s: Outbox.State) {
    && Sound(s.begun, s.ran + s.script) && s.local == Final(s.begun, s.ran)
    && (forall email :: AgreeOn(s, email))
    && HeadApplied(s)
  }

  /** The runs for which the service converges. */
  ghost predicate Orderly(s: Outbox.State, e: Event) {
    match e.act
    case Begin(script) => Sound(s.local, script)
    case Dispatch(o) => o.served ==> InOrder(s)
    case Crash => Sound(s.begun, s.ran)
    case _ => true
  }

  // ---------------------------------------------------------------- what a handler has to do

  lemma {:induction false} TodoAppend(a: seq<Micro>, b: seq<Micro>, email: string)
    ensures Todo(a + b, email) == Todo(a, email) + Todo(b, email)
  {
    if a == [] {
      assert a + b == b;
    } else {
      assert (a + b)[1..] == a[1..] + b;
      TodoAppend(a[1..], b, email);
    }
  }

  lemma {:induction false} FinalAppend(l: Local, a: seq<Micro>, b: seq<Micro>)
    ensures Final(l, a + b) == Final(Final(l, a), b)
    decreases |a|
  {
    if a == [] {
      assert a + b == b;
    } else {
      assert (a + b)[1..] == a[1..] + b;
      FinalAppend(if a[0].Write? then a[0].local else l, a[1..], b);
    }
  }

  lemma OneTodo(m: Micro, email: string)
    ensures Todo([m], email) == if m.Enqueue? && m.spec.payload.email == email then [SpecCommand(m.spec)] else []
  {
    assert [m][1..] == [];
  }

  /** Whatever part of a sound script has run, the panel would accept its jobs. */
  lemma SoundPrefixIsAccepted(l: Local, a: seq<Micro>, b: seq<Micro>, email: string)
    requires Sound(l, a + b)
    ensures PlayAccepted(Desired(l, email), Todo(a, email))
    ensures PlayAccepted(Play(Desired(l, email), Todo(a, email)), Todo(b, email))
  {
    TodoAppend(a, b, email);
    PlayAppend(Desired(l, email), Todo(a, email), Todo(b, email));
  }

  // ---------------------------------------------------------------- the queue of one client

  lemma {:induction false} OutstandingAppend(a: seq<Job>, b: seq<Job>, email: string)
    ensures Outstanding(a + b, email) == Outstanding(a, email) + Outstanding(b, email)
  {
    if a == [] {
      assert a + b == b;
    } else {
      assert (a + b)[1..] == a[1..] + b;
      OutstandingAppend(a[1..], b, email);
    }
  }

  lemma {:induction false} OutstandingSame(t: seq<Job>, t': seq<Job>, email: string)
    requires |t| == |t'|
    requires forall i :: 0 <= i < |t| ==>
      SpecOf(t[i]) == SpecOf(t'[i]) && (t[i].status == Success <==> t'[i].status == Success)
    ensures Outstanding(t, email) == Outstanding(t', email)
  {
    if t == [] {
    } else {
      assert SpecOf(t[0]) == SpecOf(t'[0]);
      OutstandingSame(t[1..], t'[1..], email);
    }
  }

  lemma {:induction false} OutstandingPruned(t: seq<Job>, cutoff: int, email: string)
    ensures Outstanding(Pruned(t, cutoff), email) == Outstanding(t, email)
  {
    if t == [] {
    } else {
      OutstandingPruned(t[1..], cutoff, email);
      var rest := Pruned(t[1..], cutoff);
      assert Pruned(t, cutoff) == if Prunable(t[0], cutoff) then rest else [t[0]] + rest;
      assert ([t[0]] + rest)[1..] == rest;
    }
  }

  lemma {:induction false} NothingOutstanding(t: seq<Job>, email: string)
    requires forall i :: 0 <= i < |t| ==> t[i].payload.email == email ==> t[i].status == Success
    ensures Outstanding(t, email) == []
  {
    if t == [] {
    } else {
      NothingOutstanding(t[1..], email);
    }
  }

  /** In order, the job at hand is the head of its client's queue. */
  lemma HeadOfQueue(t: seq<Job>, k: int)
    requires 0 <= k < |t| && t[k].status != Success
    requires forall i :: 0 <= i < k ==> t[i].payload.email == t[k].payload.email ==> t[i].status == Success
    ensures Outstanding(t, t[k].payload.email) ==
      [CommandOf(t[k])] + Outstanding(t[k + 1..], t[k].payload.email)
  {
    var email := t[k].payload.email;
    assert t == t[..k] + t[k..];
    OutstandingAppend(t[..k], t[k..], email);
    NothingOutstanding(t[..k], email);
    assert t[k..][1..] == t[k + 1..];
  }

  lemma HeldAt(s: Outbox.State, maxAttempts: nat) returns (k: int)
    requires Ledger.Inv(s, maxAttempts) && s.held != []
    ensures 0 <= k < |s.table| && s.table[k].id == s.held[0].id && s.table[k].status == InProgress
    ensures SpecOf(s.table[k]) == SpecOf(s.held[0])
  {
    assert Ledger.HeldRow(s.table, s.held[0]);
    k :| 0 <= k < |s.table| && s.table[k].id == s.held[0].id && s.table[k].status == InProgress &&
      s.table[k].attempts == s.held[0].attempts && SpecOf(s.table[k]) == SpecOf(s.held[0]);
  }

  lemma QueueOfHeld(s: Outbox.State, k: int)
    requires Ascending(s.table) && InOrder(s)
    requires 0 <= k < |s.table| && s.table[k].id == s.held[0].id && s.table[k].status == InProgress
    requires SpecOf(s.table[k]) == SpecOf(s.held[0])
    ensures Outstanding(s.table, s.held[0].payload.email) ==
      [CommandOf(s.held[0])] + Outstanding(s.table[k + 1..], s.held[0].payload.email)
  {
    assert SpecOf(s.table[k]).payload == SpecOf(s.held[0]).payload;
    assert CommandOf(s.table[k]) == SpecCommand(SpecOf(s.table[k])) == CommandOf(s.held[0]);
    HeadOfQueue(s.table, k);
  }

  // ---------------------------------------------------------------- every orderly act keeps it

  lemma AgreeAtStart(clock: int)
    ensures Agree(Start(clock))
  {
    var s := Start(clock);
    forall email ensures Desired(s.local, email) == None {
      assert !exists id :: Owns(s.local, id, email);
    }
    forall email ensures AgreeOn(s, email) {
      assert Desired(s.begun, email) == None;
    }
  }

  /** While no handler is under way, panel and unfinished jobs add up to the local tables. */
  lemma AgreeWhenIdle(s: Outbox.State, email: string)
    requires Agree(s) && s.script == []
    ensures ValidLocal(s.local)
    ensures Play(Find(s.panel, email), Outstanding(s.table, email)) == Desired(s.local, email)
  {
    assert s.ran + [] == s.ran;
    assert AgreeOn(s, email);
  }

  /** While one is, they do once it has carried out the rest of its script. */
  lemma AgreeWhenBusy(s: Outbox.State, email: string)
    requires Agree(s)
    ensures ValidLocal(Final(s.local, s.script))
    ensures Play(Find(s.panel, email), Outstanding(s.table, email) + Todo(s.script, email))
      == Desired(Final(s.local, s.script), email)
  {
    assert AgreeOn(s, email);
    FinalAppend(s.begun, s.ran, s.script);
    TodoAppend(s.ran, s.script, email);
    PlayAppend(Find(s.panel, email), Outstanding(s.table, email), Todo(s.script, email));
    PlayAppend(Desired(s.begun, email), Todo(s.ran, email), Todo(s.script, email));
  }

  lemma AgreeKeptByBegin(s: Outbox.State, e: Event, maxAttempts: nat)
    requires Agree(s) && Enabled(s, e) && e.act.Begin? && Orderly(s, e)
    ensures Agree(Apply(s, e, maxAttempts))
  {
    var s' := Apply(s, e, maxAttempts);
    assert [] + e.act.script == e.act.script;
    forall email ensures AgreeOn(s', email) {
      assert AgreeOn(s, email);
      AgreeWhenIdle(s, email);
    }
  }

  lemma AgreeKeptByAdvance(s: Outbox.State, e: Event, maxAttempts: nat)
    requires Ledger.Inv(s, maxAttempts) && Agree(s) && Enabled(s, e) && e.act == Advance
    ensures Agree(Apply(s, e, maxAttempts))
  {
    var s' := Apply(s, e, maxAttempts);
    forall email ensures Outstanding(s'.table, email) == Outstanding(s.table, email) + Todo([s.script[0]], email) {
      QueueAfterAdvance(s, e, email, maxAttempts);
    }
    if s.reply.Some? && s.reply.value.ok {
      HeadStaysApplied(s, s', maxAttempts);
    }
    OneMoreRan(s, s');
  }

  lemma QueueAfterAdvance(s: Outbox.State, e: Event, email: string, maxAttempts: nat)
    requires Enabled(s, e) && e.act == Advance
    ensures Outstanding(Apply(s, e, maxAttempts).table, email) ==
      Outstanding(s.table, email) + Todo([s.script[0]], email)
  {
    OneTodo(s.script[0], email);
    if s.script[0].Enqueue? {
      OutstandingWhenEnqueued(s.table, NewRow(s.nextId, s.script[0].spec, e.time), s.script[0], email);
    } else {
      assert Outstanding(s.table, email) + [] == Outstanding(s.table, email);
    }
  }

  lemma OutstandingWhenEnqueued(t: seq<Job>, row: Job, m: Micro, email: string)
    requires m.Enqueue? && SpecOf(row) == m.spec && row.status != Success
    ensures Outstanding(t + [row], email) == Outstanding(t, email) + Todo([m], email)
  {
    OutstandingAppend(t, [row], email);
    OneTodo(m, email);
    assert [row][1..] == [];
    assert CommandOf(row) == SpecCommand(SpecOf(row)) && SpecOf(row).payload == row.payload;
  }

  /** A statement moves from what the handler has to do to what it has done. */
  lemma OneMoreRan(s: Outbox.State, s': Outbox.State)
    requires Agree(s) && s.script != [] && HeadApplied(s')
    requires s'.panel == s.panel && s'.begun == s.begun && s'.ran == s.ran + [s.script[0]] && s'.script == s.script[1..]
    requires s'.local == if s.script[0].Write? then s.script[0].local else s.local
    requires forall email ::
      Outstanding(s'.table, email) == Outstanding(s.table, email) + Todo([s.script[0]], email)
    ensures Agree(s')
  {
    var m := s.script[0];
    assert s'.ran + s'.script == s.ran + s.script;
    FinalAppend(s.begun, s.ran, [m]);
    assert [m][1..] == [];
    forall email ensures AgreeOn(s', email) {
      assert AgreeOn(s, email);
      AdvanceOn(s, s', email);
    }
  }

  lemma AdvanceOn(s: Outbox.State, s': Outbox.State, email: string)
    requires s.script != [] && Sound(s.begun, s.ran + s.script) && AgreeOn(s, email)
    requires s'.panel == s.panel && s'.begun == s.begun && s'.ran == s.ran + [s.script[0]]
    requires Outstanding(s'.table, email) == Outstanding(s.table, email) + Todo([s.script[0]], email)
    ensures AgreeOn(s', email)
  {
    var m, rest := s.script[0], s.script[1..];
    var x, d := Find(s.panel, email), Desired(s.begun, email);
    assert s.ran + s.script == (s.ran + [m]) + rest;
    TodoAppend(s.ran, [m], email);
    SoundPrefixIsAccepted(s.begun, s.ran + [m], rest, email);
    PlayAppend(x, Outstanding(s.table, email), Todo([m], email));
    PlayAppend(d, Todo(s.ran, email), Todo([m], email));
  }

  /** What is left when a process dies in the middle of a handler: the jobs enqueued so far, for tables
      that may ask for more.  The panel stays on course exactly when the statements carried out so far
      are sound by themselves. */
  lemma CrashKeepsAgreeIff(s: Outbox.State, e: Event, maxAttempts: nat)
    requires Agree(s) && Enabled(s, e) && e.act == Crash
    ensures Agree(Apply(s, e, maxAttempts)) <==> Sound(s.begun, s.ran)
  {
    var s' := Apply(s, e, maxAttempts);
    assert s'.ran + s'.script == [];
    assert forall email :: Todo([], email) == [];
    forall email
      ensures PlayAccepted(Desired(s.begun, email), Todo(s.ran, email))
      ensures ValidLocal(s.local) ==>
        (AgreeOn(s', email) <==> Play(Desired(s.begun, email), Todo(s.ran, email)) == Desired(s.local, email))
    {
      assert AgreeOn(s, email);
      SoundPrefixIsAccepted(s.begun, s.ran, s.script, email);
    }
  }

  lemma HeadStaysApplied(s: Outbox.State, s': Outbox.State, maxAttempts: nat)
    requires Ledger.Inv(s, maxAttempts) && HeadApplied(s) && s.reply.Some? && s.reply.value.ok
    requires s'.held == s.held && s'.reply == s.reply && s'.panel == s.panel && s.table <= s'.table
    requires forall i :: |s.table| <= i < |s'.table| ==> s.nextId <= s'.table[i].id
    ensures HeadApplied(s')
  {
    var k := HeldAt(s, maxAttempts);
    assert Ledger.RowOk(s.table[k], s, maxAttempts);
  }

  /** Acts that change neither the panel nor which jobs are finished. */
  lemma AgreeKeptWhenQueuesStay(s: Outbox.State, s': Outbox.State)
    requires Agree(s) && SameHandler(s, s') && s'.panel == s.panel
    requires forall email :: Outstanding(s'.table, email) == Outstanding(s.table, email)
    requires HeadApplied(s')
    ensures Agree(s')
  {
    forall email ensures AgreeOn(s', email) {
      assert AgreeOn(s, email);
    }
  }

  predicate SameHandler(s: Outbox.State, s': Outbox.State) {
    s'.local == s.local && s'.script == s.script && s'.begun == s.begun && s'.ran == s.ran
  }

  lemma ExecKeepsQueues(t: seq<Job>, st: Statement, now: int, email: string)
    requires !st.MarkSuccess?
    requires forall i :: 0 <= i < |t| && Where(st, t[i]) ==> t[i].status != Success
    ensures Outstanding(Exec(t, st, now), email) == Outstanding(t, email)
  {
    OutstandingSame(Exec(t, st, now), t, email);
  }

  lemma AgreeKeptByRequeueOrClaim(s: Outbox.State, e: Event, maxAttempts: nat)
    requires Ledger.Inv(s, maxAttempts) && Agree(s) && Enabled(s, e)
    requires e.act.RetryFailed? || e.act.Reap? || e.act.Claim?
    ensures Agree(Apply(s, e, maxAttempts))
  {
    forall email ensures Outstanding(Apply(s, e, maxAttempts).table, email) == Outstanding(s.table, email) {
      QueueAfterRequeueOrClaim(s, e, email, maxAttempts);
    }
    HeadAfterRequeueOrClaim(s, e, maxAttempts);
    AgreeKeptWhenQueuesStay(s, Apply(s, e, maxAttempts));
  }

  lemma HeadAfterRequeueOrClaim(s: Outbox.State, e: Event, maxAttempts: nat)
    requires HeadApplied(s) && Enabled(s, e) && (e.act.RetryFailed? || e.act.Reap? || e.act.Claim?)
    ensures HeadApplied(Apply(s, e, maxAttempts))
  {
  }

  lemma QueueAfterRequeueOrClaim(s: Outbox.State, e: Event, email: string, maxAttempts: nat)
    requires Ledger.Inv(s, maxAttempts) && Enabled(s, e)
    requires e.act.RetryFailed? || e.act.Reap? || e.act.Claim?
    ensures Outstanding(Apply(s, e, maxAttempts).table, email) == Outstanding(s.table, email)
  {
    var st := if e.act.Claim? then MarkInProgress(Ids(Selected(s.table, e.time, e.act.limit)))
              else Ledger.Requeuing(e.act);
    forall i | 0 <= i < |s.table| && Where(st, s.table[i]) ensures s.table[i].status != Success {
      if e.act.Claim? {
        SelectedIsLowestDue(s.table, e.time, e.act.limit);
        var j :| j in Selected(s.table, e.time, e.act.limit) && j.id == s.table[i].id;
        Ledger.SameIdSameRow(s.table, j, i);
      }
    }
    ExecKeepsQueues(s.table, st, e.time, email);
  }

  lemma AgreeKeptByDispatch(s: Outbox.State, e: Event, maxAttempts: nat)
    requires Ledger.Inv(s, maxAttempts) && Agree(s) && Enabled(s, e) && e.act.Dispatch? && Orderly(s, e)
    ensures Agree(Apply(s, e, maxAttempts))
  {
    var s' := Apply(s, e, maxAttempts);
    var j := s.held[0];
    if e.act.outcome.served {
      var k := HeldAt(s, maxAttempts);
      QueueOfHeld(s, k);
      ServedInOrder(s, s', Outstanding(s.table[k + 1..], j.payload.email));
    } else {
      forall email ensures AgreeOn(s', email) {
        assert AgreeOn(s, email);
      }
    }
  }

  lemma ServedInOrder(s: Outbox.State, s': Outbox.State, rest: seq<Command>)
    requires Agree(s) && InOrder(s)
    requires SameHandler(s, s') && s'.table == s.table && s'.held == s.held
    requires var email := s.held[0].payload.email;
      && s'.panel == Put(s.panel, email, Panel.Step(Find(s.panel, email), CommandOf(s.held[0])))
      && Outstanding(s.table, email) == [CommandOf(s.held[0])] + rest
    ensures Agree(s')
  {
    var at := s.held[0].payload.email;
    var cmd, x := CommandOf(s.held[0]), Find(s.panel, at);
    PutFind(s.panel, at, Panel.Step(x, cmd));
    StepTwice(x, cmd);
    forall email ensures AgreeOn(s', email) {
      assert AgreeOn(s, email);
      if email == at {
        ServedHere(s, s', cmd, rest);
      }
    }
    assert InOrder(s');
  }

  lemma ServedHere(s: Outbox.State, s': Outbox.State, cmd: Command, rest: seq<Command>)
    requires s.held != [] && SameHandler(s, s') && s'.table == s.table && ValidLocal(s.begun)
    requires var email := s.held[0].payload.email;
      && AgreeOn(s, email) && Find(s'.panel, email) == Panel.Step(Find(s.panel, email), cmd)
      && Outstanding(s.table, email) == [cmd] + rest
    ensures AgreeOn(s', s.held[0].payload.email)
  {
    PlayHeadAgain(Find(s.panel, s.held[0].payload.email), cmd, rest);
  }

  lemma AgreeKeptByRecord(s: Outbox.State, e: Event, maxAttempts: nat)
    requires Ledger.Inv(s, maxAttempts) && Agree(s) && Enabled(s, e) && e.act.Record?
    ensures Agree(Apply(s, e, maxAttempts))
  {
    var s' := Apply(s, e, maxAttempts);
    forall email ensures Outstanding(s.table, email) == RecordedHead(s, email) + Outstanding(s'.table, email) {
      QueueAfterRecord(s, e, email, maxAttempts);
    }
    if s.reply.value.ok {
      AgreeKeptBySuccess(s, s');
    } else {
      AgreeKeptWhenQueuesStay(s, s');
    }
  }

  /** What recording the outcome takes off the client's queue. */
  function RecordedHead(s: Outbox.State, email: string): seq<Command>
    requires s.reply.Some? && s.held != []
  {
    if s.reply.value.ok && s.held[0].payload.email == email then [CommandOf(s.held[0])] else []
  }

  lemma QueueAfterRecord(s: Outbox.State, e: Event, email: string, maxAttempts: nat)
    requires Ledger.Inv(s, maxAttempts) && HeadApplied(s) && Enabled(s, e) && e.act.Record?
    ensures Outstanding(s.table, email) ==
      RecordedHead(s, email) + Outstanding(Apply(s, e, maxAttempts).table, email)
  {
    var st := Mark(s.held[0], s.reply.value.ok, e.act.error, e.act.seen, maxAttempts);
    var k := HeldAt(s, maxAttempts);
    forall i | 0 <= i < |s.table| && s.table[i].id == s.table[k].id ensures i == k {}
    if s.reply.value.ok {
      QueueAfterSuccess(s, Apply(s, e, maxAttempts).table, k, e.time, email);
    } else {
      ExecKeepsQueues(s.table, st, e.time, email);
    }
  }

  lemma QueueAfterSuccess(s: Outbox.State, t': seq<Job>, k: int, now: int, email: string)
    requires InOrder(s) && Ascending(s.table)
    requires 0 <= k < |s.table| && s.table[k].id == s.held[0].id && s.table[k].status == InProgress
    requires SpecOf(s.table[k]) == SpecOf(s.held[0]) && t' == Exec(s.table, MarkSuccess(s.held[0].id), now)
    ensures Outstanding(s.table, email) ==
      (if s.held[0].payload.email == email then [CommandOf(s.held[0])] else []) + Outstanding(t', email)
  {
    QueueOfHeld(s, k);
    forall i | 0 <= i < |s.table| && i != k ensures t'[i] == s.table[i] {
      assert s.table[i].id != s.table[k].id;
    }
    assert SpecOf(s.table[k]).payload == SpecOf(s.held[0]).payload;
    if email == s.held[0].payload.email {
      DoneUpTo(s.table, t', k, email);
    } else {
      OutstandingElsewhere(s.table, t', k, email);
    }
  }

  lemma AgreeKeptBySuccess(s: Outbox.State, s': Outbox.State)
    requires Agree(s) && s.held != [] && s.reply.Some? && s.reply.value.ok
    requires SameHandler(s, s') && s'.panel == s.panel && s'.reply == None
    requires forall email :: Outstanding(s.table, email) == RecordedHead(s, email) + Outstanding(s'.table, email)
    ensures Agree(s')
  {
    forall email ensures AgreeOn(s', email) {
      assert AgreeOn(s, email);
      PlayAppend(Find(s.panel, email), RecordedHead(s, email), Outstanding(s'.table, email));
      OneStep(Find(s.panel, email), CommandOf(s.held[0]));
    }
  }

  lemma OneStep(c: Option<Client>, cmd: Command)
    ensures Play(c, [cmd]) == Panel.Step(c, cmd)
  {
    assert Play(c, [cmd]) == Play(Panel.Step(c, cmd), [cmd][1..]);
  }

  lemma DoneUpTo(t: seq<Job>, t': seq<Job>, k: int, email: string)
    requires |t| == |t'| && 0 <= k < |t|
    requires forall i :: 0 <= i <= k ==> t'[i].payload.email == email ==> t'[i].status == Success
    requires forall i :: k < i < |t| ==> t'[i] == t[i]
    ensures Outstanding(t', email) == Outstanding(t[k + 1..], email)
  {
    assert t' == t'[..k + 1] + t'[k + 1..];
    assert t'[k + 1..] == t[k + 1..];
    OutstandingAppend(t'[..k + 1], t'[k + 1..], email);
    NothingOutstanding(t'[..k + 1], email);
  }

  lemma OutstandingElsewhere(t: seq<Job>, t': seq<Job>, k: int, email: string)
    requires |t| == |t'| && 0 <= k < |t|
    requires forall i :: 0 <= i < |t| && i != k ==> t'[i] == t[i]
    requires t[k].payload.email != email && t'[k].payload.email != email
    ensures Outstanding(t', email) == Outstanding(t, email)
  {
    assert t == t[..k] + ([t[k]] + t[k + 1..]);
    assert t' == t[..k] + ([t'[k]] + t[k + 1..]);
    OutstandingAppend(t[..k], [t[k]] + t[k + 1..], email);
    OutstandingAppend(t[..k], [t'[k]] + t[k + 1..], email);
    OutstandingAppend([t[k]], t[k + 1..], email);
    OutstandingAppend([t'[k]], t[k + 1..], email);
  }

  /** A dispatch reaches the panel only when it is its turn; nothing else is asked of a step. */
  ghost predicate InTurn(s: Outbox.State, e: Event) {
    e.act.Dispatch? && e.act.outcome.served ==> InOrder(s)
  }

  ghost predicate InTurnRun(s: Outbox.State, es: seq<Event>, s': Outbox.State, maxAttempts: nat)
    decreases |es|
  {
    if es == [] then s == s'
    else Enabled(s, es[0]) && InTurn(s, es[0]) && InTurnRun(Apply(s, es[0], maxAttempts), es[1..], s', maxAttempts)
  }

  /** Whatever handlers do and wherever the process dies. */
  lemma HeadAppliedKept(s: Outbox.State, e: Event, maxAttempts: nat)
    requires Ledger.Inv(s, maxAttempts) && HeadApplied(s) && Enabled(s, e) && InTurn(s, e)
    ensures HeadApplied(Apply(s, e, maxAttempts))
  {
    match e.act
    case Advance =>
      if s.reply.Some? && s.reply.value.ok {
        HeadStaysApplied(s, Apply(s, e, maxAttempts), maxAttempts);
      }
    case RetryFailed(_) => HeadAfterRequeueOrClaim(s, e, maxAttempts);
    case Reap(_) => HeadAfterRequeueOrClaim(s, e, maxAttempts);
    case Claim(_) => HeadAfterRequeueOrClaim(s, e, maxAttempts);
    case Dispatch(_) => HeadAppliedByDispatch(s, e, maxAttempts);
    case _ =>
  }

  lemma HeadAppliedByDispatch(s: Outbox.State, e: Event, maxAttempts: nat)
    requires Enabled(s, e) && InTurn(s, e) && e.act.Dispatch?
    ensures HeadApplied(Apply(s, e, maxAttempts))
  {
    if e.act.outcome.ok {
      var email, cmd := s.held[0].payload.email, CommandOf(s.held[0]);
      PutFind(s.panel, email, Panel.Step(Find(s.panel, email), cmd));
      StepTwice(Find(s.panel, email), cmd);
      assert InOrder(Apply(s, e, maxAttempts));
    }
  }

  /** One orderly step of anyone. */
  lemma AgreeKeptByStep(s: Outbox.State, e: Event, maxAttempts: nat)
    requires Ledger.Inv(s, maxAttempts) && Agree(s) && Enabled(s, e) && Orderly(s, e)
    ensures Agree(Apply(s, e, maxAttempts))
  {
    var s' := Apply(s, e, maxAttempts);
    match e.act
    case Begin(_) => AgreeKeptByBegin(s, e, maxAttempts);
    case Advance => AgreeKeptByAdvance(s, e, maxAttempts);
    case RetryFailed(_) => AgreeKeptByRequeueOrClaim(s, e, maxAttempts);
    case Reap(_) => AgreeKeptByRequeueOrClaim(s, e, maxAttempts);
    case Claim(_) => AgreeKeptByRequeueOrClaim(s, e, maxAttempts);
    case Dispatch(_) => AgreeKeptByDispatch(s, e, maxAttempts);
    case Record(_, _) => AgreeKeptByRecord(s, e, maxAttempts);
    case RecordLost => AgreeKeptWhenQueuesStay(s, s');
    case Crash => CrashKeepsAgreeIff(s, e, maxAttempts);
    case Prune(cutoff) =>
      forall email ensures Outstanding(s'.table, email) == Outstanding(s.table, email) {
        OutstandingPruned(s.table, cutoff, email);
      }
      AgreeKeptWhenQueuesStay(s, s');
  }

  ghost predicate OrderlyRun(s: Outbox.State, es: seq<Event>, s': Outbox.State, maxAttempts: nat)
    decreases |es|
  {
    if es == [] then s == s'
    else Enabled(s, es[0]) && Orderly(s, es[0]) && OrderlyRun(Apply(s, es[0], maxAttempts), es[1..], s', maxAttempts)
  }

  lemma {:induction false} AgreeKeptByRun(s: Outbox.State, es: seq<Event>, s': Outbox.State, maxAttempts: nat)
    requires 1 <= maxAttempts && Ledger.Inv(s, maxAttempts) && Agree(s)
    requires OrderlyRun(s, es, s', maxAttempts)
    ensures Ledger.Inv(s', maxAttempts) && Agree(s')
    decreases |es|
  {
    if es == [] {
    } else {
      AgreeKeptByStep(s, es[0], maxAttempts);
      Ledger.KeptByStep(s, es[0], maxAttempts);
      AgreeKeptByRun(Apply(s, es[0], maxAttempts), es[1..], s', maxAttempts);
    }
  }

  /** Every client on the panel is what the local tables ask for, and every such client is there. */
  ghost predicate Mirrors(panel: Panel.State, l: Local)
    requires l.inbounds.Keys == l.users.Keys
  {
    forall email :: Find(panel, email) == Desired(l, email)
  }

  /** The panel shows this user: a client with these six values and inbounds under the username, or none at all. */
  ghost predicate ShowsUser(panel: Panel.State, u: User, inbounds: set<int>) {
    if inbounds == {} then u.username !in panel
    else
      && u.username in panel && panel[u.username].inbounds == inbounds
      && var f := panel[u.username].fields;
      && f.subId == u.subId && f.password == u.password && f.flow == u.flow && f.enable == u.enabled
      && f.totalGB == u.totalGB && f.expiryMs == u.expiryMs
  }

  /** It shows every user, and nobody else. */
  ghost predicate ShowsUsers(panel: Panel.State, l: Local)
    requires l.inbounds.Keys == l.users.Keys
  {
    && (forall id :: id in l.users ==> ShowsUser(panel, l.users[id], l.inbounds[id]))
    && (forall email :: email in panel ==> exists id :: id in l.users && l.users[id].username == email)
  }

  /** That is what mirroring comes to, user by user and field by field. */
  lemma MirrorsIff(panel: Panel.State, l: Local)
    requires ValidLocal(l)
    ensures Mirrors(panel, l) <==> ShowsUsers(panel, l)
  {
    forall id | id in l.users
      ensures ShowsUser(panel, l.users[id], l.inbounds[id]) <==>
        Find(panel, l.users[id].username) == Desired(l, l.users[id].username)
    {
      DesiredIs(l, id);
    }
    if Mirrors(panel, l) {
      forall email | email in panel ensures exists id :: id in l.users && l.users[id].username == email {
        assert Desired(l, email) == Find(panel, email);
      }
    }
    if ShowsUsers(panel, l) {
      forall email ensures Find(panel, email) == Desired(l, email) {
        if id :| id in l.users && l.users[id].username == email {
          assert ShowsUser(panel, l.users[id], l.inbounds[id]);
        }
      }
    }
  }

  /** The service converges: after an orderly run that left every job successful and no handler
      half done, the panel is exactly the local view. */
  lemma QuietPanelMirrorsTables(clock: int, es: seq<Event>, s: Outbox.State, maxAttempts: nat)
    requires 1 <= maxAttempts && OrderlyRun(Start(clock), es, s, maxAttempts)
    requires s.script == [] && forall j :: j in s.table ==> j.status == Success
    ensures ValidLocal(s.local) && Mirrors(s.panel, s.local) && ShowsUsers(s.panel, s.local)
  {
    Ledger.InvAtStart(clock, maxAttempts);
    AgreeAtStart(clock);
    AgreeKeptByRun(Start(clock), es, s, maxAttempts);
    QuietMirrors(s);
    MirrorsIff(s.panel, s.local);
  }

  lemma QuietMirrors(s: Outbox.State)
    requires Agree(s) && s.script == [] && forall j :: j in s.table ==> j.status == Success
    ensures ValidLocal(s.local) && Mirrors(s.panel, s.local)
  {
    AgreeWhenIdle(s, "");
    forall email ensures Find(s.panel, email) == Desired(s.local, email) {
      AgreeWhenIdle(s, email);
      NothingOutstanding(s.table, email);
    }
  }

  /** In an orderly run the panel never turns down the oldest unfinished job of a client: an update
      always finds its client.  What is left to fail is the network. */
  lemma OldestJobIsAccepted(s: Outbox.State, maxAttempts: nat)
    requires Ledger.Inv(s, maxAttempts) && Agree(s) && InOrder(s)
    ensures Accepts(Find(s.panel, s.held[0].payload.email), CommandOf(s.held[0]))
  {
    var k := HeldAt(s, maxAttempts);
    QueueOfHeld(s, k);
    assert AgreeOn(s, s.held[0].payload.email);
  }
}
