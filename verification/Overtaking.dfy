/**
 Jobs of one client out of turn: the older one fails, waits for its retry, and the newer one lands first.

 What that does to a queue of updates is said exactly, for the queue and for the running system; and two runs
 show what it can do: an edit undone on the panel with every job successful, and a client dropped on its way from
 one inbound to another.
 */
module Overtaking {
  import opened Options
  import opened Jobs
  import opened Panel
  import opened Users
  import opened Outbox
  import opened Convergence
  import opened Scripts
  import opened Sequences
  import Ledger

  // ---------------------------------------------------------------- a queue of updates

  predicate AllUpdates(cmds: seq<Command>) {
    forall i :: 0 <= i < |cmds| ==> cmds[i].op == Update
  }

  /** A client after these updates: the last one counts. */
  function Updated(c: Client, cmds: seq<Command>): Client {
    if cmds == [] then c else c.(fields := cmds[|cmds| - 1].fields)
  }

  lemma {:induction false} PlayAllUpdates(c: Client, cmds: seq<Command>)
    requires AllUpdates(cmds)
    ensures Play(Some(c), cmds) == Some(Updated(c, cmds)) && PlayAccepted(Some(c), cmds)
    decreases |cmds|
  {
    if cmds == [] {
    } else {
      var init, last := cmds[..|cmds| - 1], cmds[|cmds| - 1];
      assert cmds == init + [last];
      PlayAllUpdates(c, init);
      PlayAppend(Some(c), init, [last]);
      OneUpdate(Some(Updated(c, init)), last);
    }
  }

  /** An update that is done ahead of older ones leaves the queue leading to the same client exactly when a newer
      one is still queued, or the newest of those it overtook pushes the same. */
  lemma OvertakingIff(c: Client, older: seq<Command>, cmd: Command, newer: seq<Command>)
    requires older != [] && AllUpdates(older) && AllUpdates([cmd]) && AllUpdates(newer)
    ensures Play(Panel.Step(Some(c), cmd), older + newer) == Play(Some(c), older + ([cmd] + newer))
      <==> newer != [] || older[|older| - 1].fields == cmd.fields
    ensures PlayAccepted(Panel.Step(Some(c), cmd), older + newer)
  {
    LastOfBoth([cmd], newer);
    EarlyStep(c, cmd);
    var end := if newer != [] then newer[|newer| - 1].fields else older[|older| - 1].fields;
    var due := if newer != [] then newer[|newer| - 1].fields else cmd.fields;
    assert Play(Panel.Step(Some(c), cmd), older + newer) == Some(c.(fields := end)) by {
      PlayBoth(c.(fields := cmd.fields), older, newer);
    }
    assert Play(Some(c), older + ([cmd] + newer)) == Some(c.(fields := due)) by {
      PlayBoth(c, older, [cmd] + newer);
    }
    assert c.(fields := end).fields == end && c.(fields := due).fields == due;
    PlayBoth(c.(fields := cmd.fields), older, newer);
  }

  lemma EarlyStep(c: Client, cmd: Command)
    requires AllUpdates([cmd])
    ensures Panel.Step(Some(c), cmd) == Some(c.(fields := cmd.fields))
  {
    assert [cmd][0].op == Update;
  }

  lemma LastOfBoth(a: seq<Command>, b: seq<Command>)
    requires a != [] && AllUpdates(a) && AllUpdates(b)
    ensures AllUpdates(a + b) && (a + b)[|a + b| - 1] == if b != [] then b[|b| - 1] else a[|a| - 1]
  {
  }

  lemma PlayBoth(c: Client, a: seq<Command>, b: seq<Command>)
    requires a != [] && AllUpdates(a) && AllUpdates(b)
    ensures Play(Some(c), a + b) == Some(c.(fields := (if b != [] then b[|b| - 1] else a[|a| - 1]).fields))
    ensures PlayAccepted(Some(c), a + b)
  {
    PlayAppend(Some(c), a, b);
    PlayAllUpdates(c, a);
    PlayAllUpdates(Updated(c, a), b);
  }

  // ---------------------------------------------------------------- the same in the running system

  lemma QueueAround(t: seq<Job>, k: int, email: string)
    requires 0 <= k < |t| && t[k].status != Success && t[k].payload.email == email
    ensures Outstanding(t, email) ==
      Outstanding(t[..k], email) + ([CommandOf(t[k])] + Outstanding(t[k + 1..], email))
  {
    assert t == t[..k] + t[k..];
    OutstandingAppend(t[..k], t[k..], email);
    assert t[k..][1..] == t[k + 1..];
  }

  lemma QueueWithout(t: seq<Job>, t': seq<Job>, k: int, email: string)
    requires |t'| == |t| && 0 <= k < |t| && t'[k].status == Success
    requires forall i :: 0 <= i < |t| && i != k ==> t'[i] == t[i]
    ensures Outstanding(t', email) == Outstanding(t[..k], email) + Outstanding(t[k + 1..], email)
  {
    assert t' == t[..k] + ([t'[k]] + t[k + 1..]);
    OutstandingAppend(t[..k], [t'[k]] + t[k + 1..], email);
    assert ([t'[k]] + t[k + 1..])[1..] == t[k + 1..];
    assert [] + Outstanding(t[k + 1..], email) == Outstanding(t[k + 1..], email);
  }

  /** The job at hand is dispatched with success, and the mark is stored. */
  ghost predicate Succeeds(s: Outbox.State, d: Event, r: Event, s': Outbox.State, maxAttempts: nat) {
    && Enabled(s, d) && d.act == Dispatch(Outcome(true, true))
    && Enabled(Apply(s, d, maxAttempts), r) && r.act.Record?
    && s' == Apply(Apply(s, d, maxAttempts), r, maxAttempts)
  }

  /** What that leaves: one row marked, one client moved. */
  lemma AfterSuccess(s: Outbox.State, d: Event, r: Event, s': Outbox.State, maxAttempts: nat)
    requires Succeeds(s, d, r, s', maxAttempts)
    ensures var email := s.held[0].payload.email;
      && SameHandler(s, s') && s'.reply == None && s'.held == s.held[1..] && s'.nextId == s.nextId
      && s'.clock == r.time && s'.table == Exec(s.table, MarkSuccess(s.held[0].id), r.time)
      && s'.panel == Put(s.panel, email, Panel.Step(Find(s.panel, email), CommandOf(s.held[0])))
  {
  }

  /** In the running system: when every unfinished job of the client is an update, and one is done out of turn,
      panel, jobs and tables stay on course exactly under that condition. */
  lemma OvertakingKeepsAgreeIff(
    s: Outbox.State, d: Event, r: Event, s': Outbox.State, maxAttempts: nat) returns (k: int)
    requires Ledger.Inv(s, maxAttempts) && Agree(s) && s.held != [] && !InOrder(s)
    requires Succeeds(s, d, r, s', maxAttempts) && AllUpdates(Outstanding(s.table, s.held[0].payload.email))
    ensures 0 <= k < |s.table| && s.table[k].id == s.held[0].id
    ensures var email := s.held[0].payload.email;
      var older, newer := Outstanding(s.table[..k], email), Outstanding(s.table[k + 1..], email);
      && older != []
      && (Agree(s') <==> newer != [] || older[|older| - 1].fields == FieldsOf(s.held[0].payload))
  {
    k := HeldAt(s, maxAttempts);
    AfterSuccess(s, d, r, s', maxAttempts);
    AgreeAfterOvertakingIff(s, s', k, r.time);
  }

  lemma AgreeAfterOvertakingIff(s: Outbox.State, s': Outbox.State, k: int, now: int)
    requires Ascending(s.table) && Agree(s) && s.held != [] && !InOrder(s)
    requires AllUpdates(Outstanding(s.table, s.held[0].payload.email))
    requires 0 <= k < |s.table| && s.table[k].id == s.held[0].id && s.table[k].status == InProgress
    requires SpecOf(s.table[k]) == SpecOf(s.held[0])
    requires SameHandler(s, s') && s'.reply == None && s'.table == Exec(s.table, MarkSuccess(s.held[0].id), now)
    requires var email := s.held[0].payload.email;
      s'.panel == Put(s.panel, email, Panel.Step(Find(s.panel, email), CommandOf(s.held[0])))
    ensures var email := s.held[0].payload.email;
      var older, newer := Outstanding(s.table[..k], email), Outstanding(s.table[k + 1..], email);
      && older != []
      && (Agree(s') <==> newer != [] || older[|older| - 1].fields == FieldsOf(s.held[0].payload))
  {
    var email, cmd := s.held[0].payload.email, CommandOf(s.held[0]);
    var older, newer := Outstanding(s.table[..k], email), Outstanding(s.table[k + 1..], email);
    assert SpecOf(s.table[k]).payload == SpecOf(s.held[0]).payload;
    assert CommandOf(s.table[k]) == SpecCommand(SpecOf(s.table[k])) == cmd;
    OlderExists(s, k);
    QueueAround(s.table, k, email);
    UpdatesAround(older, cmd, newer);
    QueuesAfterSuccess(s, s', k, now);
    AgreeOnAfterOvertaking(s, s', cmd, older, newer);
    PutFind(s.panel, email, Panel.Step(Find(s.panel, email), cmd));
    OthersStayOnCourse(s, s', email);
  }

  lemma UpdatesAround(older: seq<Command>, cmd: Command, newer: seq<Command>)
    requires AllUpdates(older + ([cmd] + newer))
    ensures AllUpdates(older) && AllUpdates([cmd]) && AllUpdates(newer)
  {
    var all := older + ([cmd] + newer);
    assert forall i :: 0 <= i < |older| ==> all[i] == older[i];
    assert all[|older|] == cmd;
    assert forall i :: 0 <= i < |newer| ==> all[|older| + 1 + i] == newer[i];
  }

  lemma OlderExists(s: Outbox.State, k: int)
    requires s.held != [] && !InOrder(s) && Ascending(s.table)
    requires 0 <= k < |s.table| && s.table[k].id == s.held[0].id
    ensures Outstanding(s.table[..k], s.held[0].payload.email) != []
  {
    var email := s.held[0].payload.email;
    var i :| 0 <= i < |s.table| && s.table[i].id < s.held[0].id && s.table[i].payload.email == email
      && s.table[i].status != Success;
    assert i < k && s.table[..k][i] == s.table[i];
    QueueAround(s.table[..k], i, email);
  }

  lemma QueuesAfterSuccess(s: Outbox.State, s': Outbox.State, k: int, now: int)
    requires s.held != [] && Ascending(s.table)
    requires 0 <= k < |s.table| && s.table[k].id == s.held[0].id && SpecOf(s.table[k]) == SpecOf(s.held[0])
    requires s'.table == Exec(s.table, MarkSuccess(s.held[0].id), now)
    ensures var email := s.held[0].payload.email;
      Outstanding(s'.table, email) == Outstanding(s.table[..k], email) + Outstanding(s.table[k + 1..], email)
    ensures forall email :: email != s.held[0].payload.email ==>
      Outstanding(s'.table, email) == Outstanding(s.table, email)
  {
    forall i | 0 <= i < |s.table| && i != k ensures s'.table[i] == s.table[i] {
      assert s.table[i].id != s.table[k].id;
    }
    QueueWithout(s.table, s'.table, k, s.held[0].payload.email);
    assert SpecOf(s.table[k]).payload == SpecOf(s.held[0]).payload;
    forall email | email != s.held[0].payload.email
      ensures Outstanding(s'.table, email) == Outstanding(s.table, email)
    {
      OutstandingElsewhere(s.table, s'.table, k, email);
    }
  }

  lemma AgreeOnAfterOvertaking(
    s: Outbox.State, s': Outbox.State, cmd: Command, older: seq<Command>, newer: seq<Command>)
    requires Agree(s) && s.held != [] && SameHandler(s, s')
    requires older != [] && AllUpdates(older) && AllUpdates([cmd]) && AllUpdates(newer)
    requires var email := s.held[0].payload.email;
      && s'.panel == Put(s.panel, email, Panel.Step(Find(s.panel, email), cmd))
      && Outstanding(s.table, email) == older + ([cmd] + newer) && Outstanding(s'.table, email) == older + newer
    ensures AgreeOn(s', s.held[0].payload.email) <==> newer != [] || older[|older| - 1].fields == cmd.fields
  {
    var email := s.held[0].payload.email;
    assert AgreeOn(s, email);
    assert Accepts(Find(s.panel, email), older[0]) by {
      assert (older + ([cmd] + newer))[0] == older[0];
    }
    PutFind(s.panel, email, Panel.Step(Find(s.panel, email), cmd));
    OvertakingIff(Find(s.panel, email).value, older, cmd, newer);
  }

  lemma OthersStayOnCourse(s: Outbox.State, s': Outbox.State, at: string)
    requires Agree(s) && SameHandler(s, s') && s'.reply == None
    requires forall email :: email != at ==>
      Find(s'.panel, email) == Find(s.panel, email) && Outstanding(s'.table, email) == Outstanding(s.table, email)
    ensures Agree(s') <==> AgreeOn(s', at)
  {
    forall email | email != at ensures AgreeOn(s', email) {
      assert AgreeOn(s, email);
    }
  }

  // ---------------------------------------------------------------- a run in which the newer job lands first

  /** The table ends with these two rows, and everything before them is done. */
  ghost predicate LastTwo(t: seq<Job>, done: seq<Job>, a: Job, b: Job) {
    && t == done + [a, b] && a.id < b.id
    && forall i :: 0 <= i < |done| ==> done[i].status == Success && done[i].id < a.id
  }

  function Marked(st: Statement, j: Job, now: int): Job {
    if Where(st, j) then Set(st, j, now) else j
  }

  lemma ExecOnLastTwo(t: seq<Job>, done: seq<Job>, a: Job, b: Job, st: Statement, now: int)
    requires LastTwo(t, done, a, b) && forall i :: 0 <= i < |done| ==> !Where(st, done[i])
    ensures LastTwo(Exec(t, st, now), done, Marked(st, a, now), Marked(st, b, now))
  {
    assert a == t[|done|] && b == t[|done| + 1];
    assert Exec(t, st, now) == done + [Marked(st, a, now), Marked(st, b, now)];
  }

  lemma {:induction false} DueAmongLastTwo(t: seq<Job>, done: seq<Job>, a: Job, b: Job, now: int)
    requires LastTwo(t, done, a, b)
    ensures DueRows(t, now) == (if Due(a, now) then [a] else []) + (if Due(b, now) then [b] else [])
    decreases |done|
  {
    if done == [] {
      assert t[0] == a && t[1..] == [b] && [b][1..] == [];
      assert DueRows([b], now) == (if Due(b, now) then [b] else []) + [];
    } else {
      assert t[0] == done[0] && t[1..] == done[1..] + [a, b];
      DueAmongLastTwo(t[1..], done[1..], a, b, now);
    }
  }

  function Claimed(j: Job, now: int): Job {
    if Due(j, now) then j.(status := InProgress, updatedAt := now) else j
  }

  /** As the worker holds it. */
  function AsHeld(j: Job): Job {
    j.(status := InProgress)
  }

  /** The worker claims the older of the two, and the newer one if it is due as well. */
  lemma ClaimsDue(s: Outbox.State, done: seq<Job>, a: Job, b: Job, now: int, maxAttempts: nat)
    returns (e: Event, s': Outbox.State)
    requires LastTwo(s.table, done, a, b) && WorkerIdle(s) && s.clock <= now && Due(a, now)
    ensures Reaches(s, [e], s', maxAttempts) && e == At(now, Claim(DEFAULT_BATCH_SIZE))
    ensures SameHandler(s, s') && s'.panel == s.panel && s'.clock == now && s'.reply == None
    ensures s'.held == [AsHeld(a)] + (if Due(b, now) then [AsHeld(b)] else [])
    ensures LastTwo(s'.table, done, Claimed(a, now), Claimed(b, now))
  {
    e := At(now, Claim(DEFAULT_BATCH_SIZE));
    s' := Apply(s, e, maxAttempts);
    ReachesOne(s, e, s', maxAttempts);
    SelectedAmongLastTwo(s.table, done, a, b, now);
    MarksLastTwo(s.table, done, a, b, now);
  }

  lemma SelectedAmongLastTwo(t: seq<Job>, done: seq<Job>, a: Job, b: Job, now: int)
    requires LastTwo(t, done, a, b) && Due(a, now)
    ensures Selected(t, now, DEFAULT_BATCH_SIZE) == if Due(b, now) then [a, b] else [a]
  {
    DueAmongLastTwo(t, done, a, b, now);
  }

  lemma MarksLastTwo(t: seq<Job>, done: seq<Job>, a: Job, b: Job, now: int)
    requires LastTwo(t, done, a, b) && Due(a, now)
    ensures var ids := Ids(if Due(b, now) then [a, b] else [a]);
      LastTwo(Exec(t, MarkInProgress(ids), now), done, Claimed(a, now), Claimed(b, now))
  {
    var batch := if Due(b, now) then [a, b] else [a];
    assert batch[0] == a && (Due(b, now) ==> batch[1] == b);
    ExecOnLastTwo(t, done, a, b, MarkInProgress(Ids(batch)), now);
  }

  lemma ReachesTwo(s: Outbox.State, d: Event, m: Outbox.State, r: Event, s': Outbox.State, maxAttempts: nat)
    requires Enabled(s, d) && m == Apply(s, d, maxAttempts) && Enabled(m, r) && s' == Apply(m, r, maxAttempts)
    ensures Reaches(s, [d, r], s', maxAttempts)
  {
    ReachesOne(s, d, m, maxAttempts);
    ReachesOne(m, r, s', maxAttempts);
    ReachesThen(s, [d], m, [r], s', maxAttempts);
    assert [d] + [r] == [d, r];
  }

  const LOST := "xui: request failed"

  /** A dispatch whose request is lost, and the mark that puts it off. */
  function Loses(now: int): seq<Event> {
    [At(now, Dispatch(Outcome(false, false))), At(now, Record(LOST, now))]
  }

  /** A dispatch that succeeds, and its mark. */
  function Wins(now: int): seq<Event> {
    [At(now, Dispatch(Outcome(true, true))), At(now, Record("", now))]
  }

  function Claims(now: int): Event {
    At(now, Claim(DEFAULT_BATCH_SIZE))
  }

  /** The older job's request is lost, and it is put off for a second. */
  lemma IsPutOff(s: Outbox.State, done: seq<Job>, a: Job, b: Job, h: Job, rest: seq<Job>, maxAttempts: nat)
    returns (s': Outbox.State, a': Job)
    requires LastTwo(s.table, done, a, b) && s.reply == None && s.held == [h] + rest
    requires h.id == a.id && h.attempts == 0 && 2 <= maxAttempts
    ensures Reaches(s, Loses(s.clock), s', maxAttempts)
    ensures SameHandler(s, s') && s'.panel == s.panel && s'.clock == s.clock && s'.reply == None && s'.held == rest
    ensures LastTwo(s'.table, done, a', b) && SpecOf(a') == SpecOf(a) && Due(a', s.clock + SECOND)
  {
    var d, r := Loses(s.clock)[0], Loses(s.clock)[1];
    var m := Apply(s, d, maxAttempts);
    s' := Apply(m, r, maxAttempts);
    ReachesTwo(s, d, m, r, s', maxAttempts);
    assert Backoff(1) == SECOND;
    var st := Mark(h, false, LOST, s.clock, maxAttempts);
    a' := Marked(st, a, s.clock);
    ExecOnLastTwo(s.table, done, a, b, st, s.clock);
  }

  /** One of the two lands. */
  lemma Lands(s: Outbox.State, done: seq<Job>, a: Job, b: Job, h: Job, rest: seq<Job>, maxAttempts: nat)
    returns (s': Outbox.State)
    requires LastTwo(s.table, done, a, b) && s.reply == None && s.held == [h] + rest && a.id <= h.id
    requires Accepts(Find(s.panel, h.payload.email), CommandOf(h))
    ensures Reaches(s, Wins(s.clock), s', maxAttempts)
    ensures SameHandler(s, s') && s'.clock == s.clock && s'.reply == None && s'.held == rest
    ensures s'.panel == Put(s.panel, h.payload.email, Panel.Step(Find(s.panel, h.payload.email), CommandOf(h)))
    ensures LastTwo(s'.table, done, Marked(MarkSuccess(h.id), a, s.clock), Marked(MarkSuccess(h.id), b, s.clock))
  {
    var d, r := Wins(s.clock)[0], Wins(s.clock)[1];
    var m := Apply(s, d, maxAttempts);
    s' := Apply(m, r, maxAttempts);
    ReachesTwo(s, d, m, r, s', maxAttempts);
    ExecOnLastTwo(s.table, done, a, b, MarkSuccess(h.id), s.clock);
  }

  /** Only this client moved, and this is where to. */
  ghost predicate Moved(before: Panel.State, after: Panel.State, email: string, c: Option<Client>) {
    Find(after, email) == c && forall other :: other != email ==> Find(after, other) == Find(before, other)
  }

  /** The worker claims both; the older one fails, the newer one lands. */
  lemma FirstRound(s: Outbox.State, done: seq<Job>, a: Job, b: Job, maxAttempts: nat)
    returns (m: Outbox.State, a': Job, b': Job)
    requires 2 <= maxAttempts && WorkerIdle(s) && LastTwo(s.table, done, a, b) && Due(a, s.clock) && Due(b, s.clock)
    requires a.attempts == 0 && Accepts(Find(s.panel, b.payload.email), CommandOf(b))
    ensures Reaches(s, [Claims(s.clock)] + (Loses(s.clock) + Wins(s.clock)), m, maxAttempts)
    ensures SameHandler(s, m) && WorkerIdle(m) && m.clock == s.clock
    ensures Moved(s.panel, m.panel, b.payload.email, Panel.Step(Find(s.panel, b.payload.email), CommandOf(b)))
    ensures LastTwo(m.table, done, a', b') && Due(a', m.clock + SECOND) && b'.status == Success
    ensures CommandOf(a') == CommandOf(a) && a'.payload == a.payload
  {
    var now := s.clock;
    var e, s1 := ClaimsDue(s, done, a, b, now, maxAttempts);
    var s2;
    s2, a' := IsPutOff(s1, done, Claimed(a, now), Claimed(b, now), AsHeld(a), [AsHeld(b)], maxAttempts);
    assert [AsHeld(b)] + [] == [AsHeld(b)];
    m := Lands(s2, done, a', Claimed(b, now), AsHeld(b), [], maxAttempts);
    b' := Marked(MarkSuccess(b.id), Claimed(b, now), now);
    PutFind(s.panel, b.payload.email, Panel.Step(Find(s.panel, b.payload.email), CommandOf(b)));
    assert CommandOf(a') == SpecCommand(SpecOf(a')) == CommandOf(a) && SpecOf(a').payload == a.payload;
    ReachesThen(s1, Loses(now), s2, Wins(now), m, maxAttempts);
    ReachesThen(s, [e], s1, Loses(now) + Wins(now), m, maxAttempts);
  }

  /** A second later the worker claims the older one again, and it lands. */
  lemma SecondRound(m: Outbox.State, done: seq<Job>, a: Job, b: Job, maxAttempts: nat)
    returns (s': Outbox.State)
    requires WorkerIdle(m) && LastTwo(m.table, done, a, b) && Due(a, m.clock + SECOND) && b.status == Success
    requires Accepts(Find(m.panel, a.payload.email), CommandOf(a))
    ensures Reaches(m, [Claims(m.clock + SECOND)] + Wins(m.clock + SECOND), s', maxAttempts)
    ensures SameHandler(m, s') && WorkerIdle(s')
    ensures Moved(m.panel, s'.panel, a.payload.email, Panel.Step(Find(m.panel, a.payload.email), CommandOf(a)))
    ensures forall j :: j in s'.table ==> j.status == Success
  {
    var now := m.clock + SECOND;
    var e, s1 := ClaimsDue(m, done, a, b, now, maxAttempts);
    s' := Lands(s1, done, Claimed(a, now), Claimed(b, now), AsHeld(a), [], maxAttempts);
    ReachesThen(m, [e], s1, Wins(now), s', maxAttempts);
    PutFind(m.panel, a.payload.email, Panel.Step(Find(m.panel, a.payload.email), CommandOf(a)));
  }

  /** What the worker does in such a run, up to the moment when the newer job has landed, and after it. */
  function NewerFirst(now: int): seq<Event> {
    [Claims(now)] + (Loses(now) + Wins(now))
  }

  function OlderLater(now: int): seq<Event> {
    [Claims(now + SECOND)] + Wins(now + SECOND)
  }

  /** Two jobs of one client are waiting.  The older one is dispatched first and fails, the newer one lands, and
      then the older one does: the run goes through mid and ends with every job successful. */
  lemma NewerLandsFirst(s: Outbox.State, done: seq<Job>, a: Job, b: Job, maxAttempts: nat)
    returns (mid: Outbox.State, s': Outbox.State)
    requires 2 <= maxAttempts && WorkerIdle(s) && LastTwo(s.table, done, a, b) && Due(a, s.clock) && Due(b, s.clock)
    requires a.attempts == 0 && a.payload.email == b.payload.email
    requires var c := Find(s.panel, a.payload.email);
      Accepts(c, CommandOf(b)) && Accepts(Panel.Step(c, CommandOf(b)), CommandOf(a))
    ensures Reaches(s, NewerFirst(s.clock), mid, maxAttempts)
    ensures Reaches(mid, OlderLater(s.clock), s', maxAttempts)
    ensures SameHandler(s, s') && WorkerIdle(s') && forall j :: j in s'.table ==> j.status == Success
    ensures var c := Panel.Step(Find(s.panel, a.payload.email), CommandOf(b));
      && Moved(s.panel, mid.panel, a.payload.email, c)
      && Moved(s.panel, s'.panel, a.payload.email, Panel.Step(c, CommandOf(a)))
  {
    var a', b';
    mid, a', b' := FirstRound(s, done, a, b, maxAttempts);
    s' := SecondRound(mid, done, a', b', maxAttempts);
  }

  // ---------------------------------------------------------------- handlers that enqueue two jobs

  /** The rows these statements add, all at once. */
  function RowsOf(script: seq<Micro>, id: int, now: int): seq<Job> {
    if script == [] then []
    else if script[0].Enqueue? then [NewRow(id, script[0].spec, now)] + RowsOf(script[1..], id + 1, now)
    else RowsOf(script[1..], id, now)
  }

  /** A handler that nothing comes between. */
  lemma {:induction false} AllAtOnce(s: Outbox.State, maxAttempts: nat) returns (es: seq<Event>, s': Outbox.State)
    ensures Reaches(s, es, s', maxAttempts) && |es| == |s.script|
    ensures s'.script == [] && s'.local == Final(s.local, s.script)
    ensures s'.table == s.table + RowsOf(s.script, s.nextId, s.clock)
    ensures s'.nextId == s.nextId + |RowsOf(s.script, s.nextId, s.clock)|
    ensures s'.panel == s.panel && s'.held == s.held && s'.reply == s.reply && s'.clock == s.clock
    decreases |s.script|
  {
    if s.script == [] {
      es, s' := [], s;
    } else {
      var e := At(s.clock, Advance);
      var m := Apply(s, e, maxAttempts);
      var rest;
      rest, s' := AllAtOnce(m, maxAttempts);
      es := [e] + rest;
      assert es[1..] == rest;
      if s.script[0].Enqueue? {
        Regroup(s.table, [NewRow(s.nextId, s.script[0].spec, s.clock)], RowsOf(m.script, m.nextId, m.clock));
      }
    }
  }

  lemma HandlerAtOnce(s: Outbox.State, script: seq<Micro>, maxAttempts: nat)
    returns (es: seq<Event>, s': Outbox.State)
    requires s.script == []
    ensures Reaches(s, es, s', maxAttempts) && |es| == |script| + 1 && es[0].act == Begin(script)
    ensures s'.script == [] && s'.local == Final(s.local, script)
    ensures s'.table == s.table + RowsOf(script, s.nextId, s.clock)
    ensures s'.nextId == s.nextId + |RowsOf(script, s.nextId, s.clock)|
    ensures s'.panel == s.panel && s'.held == s.held && s'.reply == s.reply && s'.clock == s.clock
  {
    var begin := At(s.clock, Begin(script));
    var m := Apply(s, begin, maxAttempts);
    var rest;
    rest, s' := AllAtOnce(m, maxAttempts);
    es := [begin] + rest;
    assert es[1..] == rest;
  }

  // ---------------------------------------------------------------- what it can do

  /** Nothing is under way and nothing is left to do. */
  ghost predicate Quiet(s: Outbox.State, maxAttempts: nat) {
    && Ledger.Inv(s, maxAttempts) && Agree(s) && s.script == [] && WorkerIdle(s)
    && forall j :: j in s.table ==> j.status == Success
  }

  lemma TwoMoreRows(s: Outbox.State, t: seq<Job>, a: Job, b: Job, maxAttempts: nat)
    requires Quiet(s, maxAttempts) && t == s.table + [a, b] && a.id == s.nextId && b.id == s.nextId + 1
    ensures LastTwo(t, s.table, a, b)
  {
    forall i | 0 <= i < |s.table| ensures s.table[i].status == Success && s.table[i].id < s.nextId {
      assert s.table[i] in s.table && Ledger.RowOk(s.table[i], s, maxAttempts);
    }
  }

  lemma EditAtOnce(s: Outbox.State, id: int, u: User, inbound: int, maxAttempts: nat)
    returns (es: seq<Event>, s': Outbox.State)
    requires s.script == []
    ensures Reaches(s, es, s', maxAttempts) && |es| == 3
    ensures es[0].act == Begin(OverwriteScript(s.local, id, u, [inbound]))
    ensures s'.script == [] && s'.local == Local(s.local.users[id := u], s.local.inbounds)
    ensures s'.table == s.table + [NewRow(s.nextId, Spec(id, inbound, Update, PayloadFor(u)), s.clock)]
    ensures s'.nextId == s.nextId + 1
    ensures s'.panel == s.panel && s'.held == s.held && s'.reply == s.reply && s'.clock == s.clock
  {
    var script := OverwriteScript(s.local, id, u, [inbound]);
    es, s' := HandlerAtOnce(s, script, maxAttempts);
    var spec := Spec(id, inbound, Update, PayloadFor(u));
    var l := Local(s.local.users[id := u], s.local.inbounds);
    assert script == [Write(l), Enqueue(spec)];
    assert script[1..] == [Enqueue(spec)] && script[1..][1..] == [];
    assert RowsOf(script[1..], s.nextId, s.clock) == [NewRow(s.nextId, spec, s.clock)] + [];
    assert Final(s.local, script) == Final(l, script[1..]) == l;
  }

  /** A client that gets two updates in the wrong order ends up with the older one's fields. */
  lemma UpdatesLandSwapped(s: Outbox.State, done: seq<Job>, a: Job, b: Job, c: Client, maxAttempts: nat)
    returns (s': Outbox.State)
    requires 2 <= maxAttempts && WorkerIdle(s) && LastTwo(s.table, done, a, b) && Due(a, s.clock) && Due(b, s.clock)
    requires a.attempts == 0 && a.payload.email == b.payload.email && a.op == Update && b.op == Update
    requires Find(s.panel, a.payload.email) == Some(c)
    ensures Reaches(s, NewerFirst(s.clock) + OlderLater(s.clock), s', maxAttempts)
    ensures SameHandler(s, s') && WorkerIdle(s') && forall j :: j in s'.table ==> j.status == Success
    ensures Moved(s.panel, s'.panel, a.payload.email, Some(c.(fields := FieldsOf(a.payload))))
  {
    var mid;
    mid, s' := NewerLandsFirst(s, done, a, b, maxAttempts);
    ReachesThen(s, NewerFirst(s.clock), mid, OlderLater(s.clock), s', maxAttempts);
  }

  function EditJob(s: Outbox.State, k: nat, id: int, inbound: int, u: User): Job {
    NewRow(s.nextId + k, Spec(id, inbound, Update, PayloadFor(u)), s.clock)
  }

  lemma TwoEdits(s: Outbox.State, id: int, inbound: int, u1: User, u2: User, maxAttempts: nat)
    returns (edits: seq<Event>, s': Outbox.State)
    requires s.script == []
    ensures Reaches(s, edits, s', maxAttempts) && |edits| == 6
    ensures edits[0].act == Begin(OverwriteScript(s.local, id, u1, [inbound]))
    ensures edits[3].act ==
      Begin(OverwriteScript(Local(s.local.users[id := u1], s.local.inbounds), id, u2, [inbound]))
    ensures s'.script == [] && s'.local == Local(s.local.users[id := u2], s.local.inbounds)
    ensures s'.table == s.table + [EditJob(s, 0, id, inbound, u1), EditJob(s, 1, id, inbound, u2)]
    ensures s'.panel == s.panel && s'.held == s.held && s'.reply == s.reply && s'.clock == s.clock
  {
    var es1, s1 := EditAtOnce(s, id, u1, inbound, maxAttempts);
    var es2;
    es2, s' := EditAtOnce(s1, id, u2, inbound, maxAttempts);
    edits := es1 + es2;
    ReachesThen(s, es1, s1, es2, s', maxAttempts);
    Regroup(s.table, [EditJob(s, 0, id, inbound, u1)], [EditJob(s, 1, id, inbound, u2)]);
    assert s.local.users[id := u1][id := u2] == s.local.users[id := u2];
  }

  /** Two edits of a user with one inbound; the first one's request is lost, the second lands, and the retry of the
      first lands on top of it.  Every job is successful, and the panel is right exactly if both edits push the
      same. */
  lemma EditIsUndoneIff(s: Outbox.State, id: int, inbound: int, u1: User, u2: User, maxAttempts: nat)
    returns (edits: seq<Event>, s': Outbox.State)
    requires 2 <= maxAttempts && Quiet(s, maxAttempts) && id in s.local.users && id in s.local.inbounds
    requires s.local.inbounds[id] == {inbound} && u1.username == u2.username == s.local.users[id].username
    ensures Reaches(s, edits + (NewerFirst(s.clock) + OlderLater(s.clock)), s', maxAttempts) && |edits| == 6
    ensures edits[0].act == Begin(OverwriteScript(s.local, id, u1, [inbound]))
    ensures edits[3].act ==
      Begin(OverwriteScript(Local(s.local.users[id := u1], s.local.inbounds), id, u2, [inbound]))
    ensures s'.script == [] && WorkerIdle(s') && forall j :: j in s'.table ==> j.status == Success
    ensures s'.local == Local(s.local.users[id := u2], s.local.inbounds) && ValidLocal(s'.local)
    ensures Mirrors(s'.panel, s'.local) <==> FieldsOf(PayloadFor(u1)) == FieldsOf(PayloadFor(u2))
  {
    var c := QuietClient(s, id, maxAttempts);
    var m;
    edits, m := TwoEdits(s, id, inbound, u1, u2, maxAttempts);
    var a, b := EditJob(s, 0, id, inbound, u1), EditJob(s, 1, id, inbound, u2);
    TwoMoreRows(s, m.table, a, b, maxAttempts);
    s' := UpdatesLandSwapped(m, s.table, a, b, c, maxAttempts);
    ReachesThen(s, edits, m, NewerFirst(s.clock) + OlderLater(s.clock), s', maxAttempts);
    EditedMirrorsIff(s.local, s'.local, id, u2, s.panel, s'.panel, FieldsOf(PayloadFor(u1)));
  }

  /** The client of a user with an inbound, when nothing is left to do. */
  lemma QuietClient(s: Outbox.State, id: int, maxAttempts: nat) returns (c: Client)
    requires Quiet(s, maxAttempts) && id in s.local.users && id in s.local.inbounds && s.local.inbounds[id] != {}
    ensures c == Client(FieldsOf(PayloadFor(s.local.users[id])), s.local.inbounds[id])
    ensures Find(s.panel, s.local.users[id].username) == Some(c)
    ensures ValidLocal(s.local) && Mirrors(s.panel, s.local)
  {
    QuietMirrors(s);
    DesiredIs(s.local, id);
    c := Client(FieldsOf(PayloadFor(s.local.users[id])), s.local.inbounds[id]);
    assert Find(s.panel, s.local.users[id].username) == Desired(s.local, s.local.users[id].username);
  }

  lemma EditedMirrorsIff(
    l: Local, l': Local, id: int, u: User, panel: Panel.State, panel': Panel.State, pushed: Fields)
    requires ValidLocal(l) && id in l.users && l.inbounds[id] != {} && Mirrors(panel, l)
    requires l' == Local(l.users[id := u], l.inbounds) && u.username == l.users[id].username
    requires Moved(panel, panel', u.username, Some(Client(pushed, l.inbounds[id])))
    ensures ValidLocal(l') && (Mirrors(panel', l') <==> pushed == FieldsOf(PayloadFor(u)))
  {
    DesiredIs(l', id);
    forall other | other != u.username ensures Find(panel', other) == Desired(l', other) {
      DesiredElsewhere(l, l', id, other);
    }
  }

  function MoveJob(s: Outbox.State, k: nat, id: int, inbound: int, op: Op): Job
    requires id in s.local.users
  {
    NewRow(s.nextId + k, Spec(id, inbound, op, PayloadFor(s.local.users[id])), s.clock)
  }

  lemma MoveAtOnce(s: Outbox.State, id: int, from: int, to: int, maxAttempts: nat)
    returns (es: seq<Event>, s': Outbox.State)
    requires s.script == [] && id in s.local.users && id in s.local.inbounds
    ensures Reaches(s, es, s', maxAttempts) && |es| == 4
    ensures es[0].act == Begin(SetInboundsScript(s.local, id, [to], [from])) && s'.script == []
    ensures s'.table == s.table + [MoveJob(s, 0, id, to, Assign), MoveJob(s, 1, id, from, Unassign)]
    ensures s'.panel == s.panel && s'.held == s.held && s'.reply == s.reply && s'.clock == s.clock
  {
    var p := PayloadFor(s.local.users[id]);
    var script := SetInboundsScript(s.local, id, [to], [from]);
    es, s' := HandlerAtOnce(s, script, maxAttempts);
    var assign, unassign := Enqueue(Spec(id, to, Assign, p)), Enqueue(Spec(id, from, Unassign, p));
    assert script[1..] == [assign, unassign];
    TwoRows(script, assign, unassign, s.nextId, s.clock);
  }

  /** Moving a client from one inbound to another: the assign's request is lost, and the unassign drops the client
      on the way.  The retry brings it back, but in between the user is cut off. */
  lemma MovedClientIsDropped(s: Outbox.State, id: int, from: int, to: int, maxAttempts: nat)
    returns (handler: seq<Event>, mid: Outbox.State, s': Outbox.State)
    requires 2 <= maxAttempts && Quiet(s, maxAttempts) && id in s.local.users && id in s.local.inbounds
    requires s.local.inbounds[id] == {from} && to != from
    ensures |handler| == 4 && handler[0].act == Begin(SetInboundsScript(s.local, id, [to], [from]))
    ensures Reaches(s, handler + NewerFirst(s.clock), mid, maxAttempts)
    ensures Reaches(mid, OlderLater(s.clock), s', maxAttempts)
    ensures var email := s.local.users[id].username;
      && Attached(Find(s.panel, email)) == {from} && Find(mid.panel, email) == None
      && Attached(Find(s'.panel, email)) == {to}
    ensures s'.script == [] && WorkerIdle(s') && forall j :: j in s'.table ==> j.status == Success
  {
    var c := QuietClient(s, id, maxAttempts);
    var m;
    handler, m := MoveAtOnce(s, id, from, to, maxAttempts);
    var a, b := MoveJob(s, 0, id, to, Assign), MoveJob(s, 1, id, from, Unassign);
    TwoMoreRows(s, m.table, a, b, maxAttempts);
    mid, s' := DropsOnTheWay(m, s.table, a, b, c, maxAttempts);
    ReachesThen(s, handler, m, NewerFirst(s.clock), mid, maxAttempts);
  }

  lemma DropsOnTheWay(s: Outbox.State, done: seq<Job>, a: Job, b: Job, c: Client, maxAttempts: nat)
    returns (mid: Outbox.State, s': Outbox.State)
    requires 2 <= maxAttempts && WorkerIdle(s) && LastTwo(s.table, done, a, b) && Due(a, s.clock) && Due(b, s.clock)
    requires a.attempts == 0 && a.payload.email == b.payload.email && a.op == Assign && b.op == Unassign
    requires Find(s.panel, a.payload.email) == Some(c) && c.inbounds == {b.inboundId}
    ensures Reaches(s, NewerFirst(s.clock), mid, maxAttempts)
    ensures Reaches(mid, OlderLater(s.clock), s', maxAttempts)
    ensures SameHandler(s, s') && WorkerIdle(s') && forall j :: j in s'.table ==> j.status == Success
    ensures Find(mid.panel, a.payload.email) == None
    ensures Attached(Find(s'.panel, a.payload.email)) == {a.inboundId}
  {
    DetachedFromItsOnly(c, CommandOf(b), CommandOf(a));
    mid, s' := NewerLandsFirst(s, done, a, b, maxAttempts);
  }

  lemma DetachedFromItsOnly(c: Client, detach: Command, attach: Command)
    requires detach.op == Unassign && attach.op == Assign && c.inbounds == {detach.inbound}
    ensures Panel.Step(Some(c), detach) == None && Accepts(Some(c), detach)
    ensures Panel.Step(None, attach) == Some(Client(attach.fields, {attach.inbound})) && Accepts(None, attach)
  {
  }

  lemma TwoRows(script: seq<Micro>, a: Micro, b: Micro, id: int, now: int)
    requires |script| == 3 && script[0].Write? && script[1..] == [a, b] && a.Enqueue? && b.Enqueue?
    ensures RowsOf(script, id, now) == [NewRow(id, a.spec, now), NewRow(id + 1, b.spec, now)]
  {
    assert [a, b][1..] == [b] && [b][1..] == [];
    assert RowsOf([b], id + 1, now) == [NewRow(id + 1, b.spec, now)] + [];
    assert RowsOf([a, b], id, now) == [NewRow(id, a.spec, now)] + RowsOf([b], id + 1, now);
  }
}
