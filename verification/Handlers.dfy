/**
 The admin handlers that change users (internal/admin/handlers_users.go), as runs of the outbox
 transition system.

 Only state changes, job order and status codes are modelled.  Local statements may be interleaved
 with the worker by the transition system; here each handler runs by itself.
 */
module Handlers {
  import opened Options
  import opened Jobs
  import opened Users
  import opened Outbox
  import opened Convergence
  import opened Scripts
  import opened HandlerRuns
  import opened Bulk
  import opened Worker

  const FOUND := 302
  const NOT_FOUND := 404
  const CONFLICT := 409
  const INTERNAL_ERROR := 500
  const BAD_GATEWAY := 502

  class Server {
    const users: Users.Store
    const jobs: Jobs.Store
    const clock: Clock
    ghost const maxAttempts: nat

    constructor (users: Users.Store, jobs: Jobs.Store, clock: Clock, ghost maxAttempts: nat)
      ensures this.users == users && this.jobs == jobs && this.clock == clock && this.maxAttempts == maxAttempts
    {
      this.users, this.jobs, this.clock, this.maxAttempts := users, jobs, clock, maxAttempts;
    }

    /** The job table and the clock are the state's. */
    ghost predicate Queued(s: State)
      reads jobs, clock
    {
      jobs.Valid() && jobs.rows == s.table && jobs.nextId == s.nextId && clock.reading == s.clock
    }

    /** So are the users. */
    ghost predicate Matches(s: State)
      reads users, jobs, clock
    {
      users.Valid() && users.View() == s.local && Queued(s)
    }

    /** Enqueue one job per inbound; the errors of Enqueue are logged only, and it has none here. */
    method EnqueueEach(id: int, op: Op, ids: seq<int>, payload: Payload, ghost rest: seq<Micro>, ghost s: State)
      returns (ghost es: seq<Event>, ghost s': State)
      requires Queued(s) && s.script == EnqueueAll(id, op, ids, payload) + rest
      modifies jobs, clock
      ensures OrderlyRun(s, es, s', maxAttempts) && AllAdvance(es) && Queued(s')
      ensures s'.script == rest && s'.local == s.local
    {
      es, s' := [], s;
      for i := 0 to |ids|
        invariant OrderlyRun(s, es, s', maxAttempts) && AllAdvance(es) && Queued(s')
        invariant s'.script == EnqueueAll(id, op, ids[i..], payload) + rest && s'.local == s.local
      {
        assert s'.script[1..] == EnqueueAll(id, op, ids[i + 1..], payload) + rest;
        ghost var e, next;
        e, next := EnqueueOne(Spec(id, ids[i], op, payload), s');
        OneMoreOrderly(s, es, s', e, next, maxAttempts);
        es, s' := es + [e], next;
      }
      assert EnqueueAll(id, op, ids[|ids|..], payload) + rest == rest;
    }

    method EnqueueOne(spec: Spec, ghost s: State) returns (ghost e: Event, ghost s': State)
      requires Queued(s) && s.script != [] && s.script[0] == Enqueue(spec)
      modifies jobs, clock
      ensures OrderlyRun(s, [e], s', maxAttempts) && e.act == Advance && Queued(s')
      ensures s'.script == s.script[1..] && s'.local == s.local
    {
      var now := clock.Now();
      var job := jobs.Enqueue(spec, now);
      e := At(now, Advance);
      s' := Apply(s, e, maxAttempts);
      OneOrderlyStep(s, e, maxAttempts);
    }

    /** The loop over the form's ids: those the panel has. */
    static method ReadForm(form: seq<int>, live: map<int, Inbound>) returns (desired: seq<Inbound>)
      ensures desired == LiveOf(form, live)
    {
      desired := [];
      for i := 0 to |form|
        invariant desired == LiveOf(form[..i], live)
      {
        assert form[..i + 1][..i] == form[..i];
        if form[i] in live {
          desired := desired + [live[form[i]]];
        }
      }
      assert form[..|form|] == form;
    }

    /** users.SetInbounds with what the form asks for. */
    method StoreInbounds(id: int, form: seq<int>, live: map<int, Inbound>, now: int)
      returns (r: Result<(seq<int>, seq<int>), UserError>)
      requires users.Valid() && id in users.users && forall n :: n in live ==> live[n].id == n
      modifies users`rows, users`nextRow
      ensures users.Valid() && old(users.View()).inbounds.Keys == users.users.Keys
      ensures r.Err? <==> Repeats(form, live, old(users.View()).inbounds[id])
      ensures r.Err? ==> users.View() == old(users.View())
      ensures NewRowsAreLive(old(users.rows), users.rows, id, live)
      ensures r.Ok? ==> var had := old(users.View());
        && Reconciles(had, id, r.value.0, r.value.1)
        && had.inbounds[id] + ToSet(r.value.0) - ToSet(r.value.1) == Wanted(form, live)
        && users.View() == Local(had.users, had.inbounds[id := Wanted(form, live)])
    {
      var desired := ReadForm(form, live);
      LiveIds(form, live);
      ghost var have := users.View().inbounds[id];
      MissingIs(desired, have);
      ghost var before := users.rows;
      r := users.SetInbounds(id, desired, now);
      LiveElements(form, live);
      RowsAsAskedAreLive(before, users.rows, id, desired, live, now);
      if r.Ok? {
        assert have + ToSet(r.value.0) - ToSet(r.value.1) == Wanted(form, live);
      }
    }

    /** handleUserSetInbounds, with the form's ids looked up among the panel's live inbounds, which are None when
        the panel does not answer. */
    method HandleSetInbounds(id: int, form: seq<int>, live: Option<map<int, Inbound>>, ghost s: State)
      returns (code: int, ghost added: seq<int>, ghost removed: seq<int>, ghost es: seq<Event>, ghost s': State)
      requires Matches(s) && s.script == []
      requires live.Some? ==> forall n :: n in live.value ==> live.value[n].id == n
      modifies users`rows, users`nextRow, jobs, clock
      ensures Reaches(s, es, s', maxAttempts) && Matches(s') && s'.script == []
      ensures OrderlyRun(s, es, s', maxAttempts)
      ensures code == (
        if id !in s.local.users then NOT_FOUND
        else if live == None then BAD_GATEWAY
        else if Repeats(form, live.value, s.local.inbounds[id]) then INTERNAL_ERROR else FOUND)
      ensures code in {302, 404, 500, 502} && (code == 404 <==> id !in s.local.users)
      ensures code == 502 <==> id in s.local.users && live == None
      ensures code == 500 <==> id in s.local.users && live.Some? && Repeats(form, live.value, s.local.inbounds[id])
      ensures code != FOUND ==> s'.local == s.local && s'.table == s.table
      ensures NewRowsAreLive(old(users.rows), users.rows, id, if live.Some? then live.value else map[])
      ensures code == FOUND ==> s'.local == Local(s.local.users, s.local.inbounds[id := Wanted(form, live.value)])
      ensures code == FOUND ==>
        && Reconciles(s.local, id, added, removed)
        && Ran(s, SetInboundsScript(s.local, id, added, removed), es, s', maxAttempts)
    {
      added, removed := [], [];
      if id !in users.users {
        return NOT_FOUND, added, removed, [], s;
      }
      var u := users.users[id];
      if live == None {
        return BAD_GATEWAY, added, removed, [], s;
      }
      var now := clock.Now();
      var r := StoreInbounds(id, form, live.value, now);
      if r.Err? {
        es, s' := NothingDone(s, now, maxAttempts);
        return INTERNAL_ERROR, added, removed, es, s';
      }
      var (plus, minus) := r.value;
      added, removed := plus, minus;
      es, s' := SyncDelta(id, PayloadFor(u), plus, minus, now, s);
      code := FOUND;
    }

    /** The two loops after users.SetInbounds: assigns, then unassigns. */
    method SyncDelta(id: int, payload: Payload, added: seq<int>, removed: seq<int>, now: int, ghost s: State)
      returns (ghost es: seq<Event>, ghost s': State)
      requires s.script == [] && id in s.local.users && ValidLocal(s.local)
      requires payload == PayloadFor(s.local.users[id]) && Reconciles(s.local, id, added, removed)
      requires Queued(s.(clock := now)) && s.clock <= now
      modifies jobs, clock
      ensures Ran(s, SetInboundsScript(s.local, id, added, removed), es, s', maxAttempts)
      ensures OrderlyRun(s, es, s', maxAttempts) && Queued(s')
      ensures s'.local == Local(
        s.local.users, s.local.inbounds[id := s.local.inbounds[id] + ToSet(added) - ToSet(removed)])
    {
      ghost var script := SetInboundsScript(s.local, id, added, removed);
      ghost var s2 := AfterWrite(s, script, now);
      ghost var unassigns := EnqueueAll(id, Unassign, removed, payload);
      assert s2.script == EnqueueAll(id, Assign, added, payload) + unassigns;
      ghost var a, b, s3;
      a, s3 := EnqueueEach(id, Assign, added, payload, unassigns, s2);
      assert s3.script == unassigns + [];
      b, s' := EnqueueEach(id, Unassign, removed, payload, [], s3);
      OrderlyThen(s2, a, s3, b, s', maxAttempts);
      SetInboundsTodo(s.local, id, added, removed);
      RanWriteFirst(s, script, now, a + b, s', maxAttempts);
      es := [At(s.clock, Begin(script))] + ([At(now, Advance)] + (a + b));
      SetInboundsIsSound(s.local, id, added, removed);
    }

    /** The row was overwritten by u, and one update per inbound enqueued. */
    ghost predicate RanOverwrite(s: State, id: int, u: User, targets: seq<int>, es: seq<Event>, s': State)
      requires id in s.local.inbounds
    {
      Lists(targets, s.local.inbounds[id]) && Ran(s, OverwriteScript(s.local, id, u, targets), es, s', maxAttempts)
    }

    /** enqueueUpdateForAllAssignments, after a user's row was overwritten by u at time `now`. */
    method SyncOverwrite(id: int, u: User, now: int, ghost s: State)
      returns (ghost targets: seq<int>, ghost es: seq<Event>, ghost s': State)
      requires s.script == [] && id in s.local.users && ValidLocal(s.local)
      requires users.Valid() && users.View() == Local(s.local.users[id := u], s.local.inbounds)
      requires Queued(s.(clock := now)) && s.clock <= now
      modifies jobs, clock
      ensures Matches(s') && s'.script == [] && s'.local == Local(s.local.users[id := u], s.local.inbounds)
      ensures RanOverwrite(s, id, u, targets, es, s')
      ensures u.username == s.local.users[id].username || s.local.inbounds[id] == {}
        ==> OrderlyRun(s, es, s', maxAttempts)
    {
      var assignments := users.Inbounds(id);
      var ids := InboundIds(assignments);
      targets := ids;
      assert Lists(ids, s.local.inbounds[id]) by {
        assert users.View().inbounds[id] == s.local.inbounds[id];
      }
      es, s' := EnqueueUpdates(id, u, ids, now, s);
      OverwriteIsSoundIff(s.local, id, u, ids);
    }

    method EnqueueUpdates(id: int, u: User, ids: seq<int>, now: int, ghost s: State)
      returns (ghost es: seq<Event>, ghost s': State)
      requires s.script == [] && id in s.local.users
      requires Queued(s.(clock := now)) && s.clock <= now
      modifies jobs, clock
      ensures Queued(s') && s'.local == Local(s.local.users[id := u], s.local.inbounds)
      ensures Ran(s, OverwriteScript(s.local, id, u, ids), es, s', maxAttempts)
    {
      ghost var script := OverwriteScript(s.local, id, u, ids);
      ghost var s2 := AfterWrite(s, script, now);
      assert s2.script == EnqueueAll(id, Update, ids, PayloadFor(u)) + [];
      ghost var a;
      a, s' := EnqueueEach(id, Update, ids, PayloadFor(u), [], s2);
      OverwriteTodo(s.local, id, u, ids);
      RanWriteFirst(s, script, now, a, s', maxAttempts);
      es := [At(s.clock, Begin(script))] + ([At(now, Advance)] + a);
    }

    /** handleUserCreate: new users start enabled and without inbounds; `uuid` and `password` are drawn by the
        caller. */
    method HandleCreate(form: User, uuid: string, password: string, ghost s: State)
      returns (code: int, ghost es: seq<Event>, ghost s': State)
      requires Matches(s) && s.script == []
      modifies users, jobs, clock
      ensures Matches(s') && s'.script == [] && OrderlyRun(s, es, s', maxAttempts)
      ensures s'.table == s.table && s'.panel == s.panel
      ensures code == if old(users.Taken(users.nextUser, form)) then CONFLICT else FOUND
      ensures (code == 409 || code == 302) && (code == 409 <==>
        exists k :: k in s.local.users && SameNameOrSubId(s.local.users[k], form))
      ensures code == FOUND ==> var id := old(users.nextUser);
        && id !in s.local.users && id in s'.local.users
        && FilledIn(form.(enabled := true), uuid, password, s'.local.users[id])
      ensures s'.local == if code == CONFLICT then s.local else
        Local(s.local.users[old(users.nextUser) := Completed(form, uuid, password).(enabled := true)],
              s.local.inbounds[old(users.nextUser) := {}])
      ensures code == FOUND ==>
        var u := Completed(form, uuid, password).(enabled := true);
        Ran(s, CreateScript(s.local, old(users.nextUser), u), es, s', maxAttempts)
    {
      var u := Completed(form, uuid, password).(enabled := true);
      var now := clock.Now();
      var r := users.Create(form.(enabled := true), uuid, password);
      if r.Err? {
        es, s' := NothingDone(s, now, maxAttempts);
        return CONFLICT, es, s';
      }
      var id := r.value;
      es, s' := CreateRuns(s, id, u, now, maxAttempts);
      code := FOUND;
    }

    /** handleUserUpdate. */
    method HandleUpdate(id: int, form: User, ghost s: State)
      returns (code: int, ghost targets: seq<int>, ghost es: seq<Event>, ghost s': State)
      requires Matches(s) && s.script == []
      modifies users`users, jobs, clock
      ensures Reaches(s, es, s', maxAttempts) && Matches(s') && s'.script == []
      ensures code == (
        if id !in s.local.users then NOT_FOUND else if old(users.Taken(id, form)) then CONFLICT else FOUND)
      ensures (code == 404 <==> id !in s.local.users) && code in {302, 404, 409}
      ensures code == 409 <==> id in s.local.users && exists k ::
        k in s.local.users && k != id && SameNameOrSubId(s.local.users[k], form)
      ensures code == FOUND ==> id in s'.local.users && TookForm(s.local.users[id], form, s'.local.users[id])
      ensures code != FOUND ==> s'.local == s.local && s'.table == s.table
      ensures code == FOUND ==>
        && s'.local == Local(s.local.users[id := Edited(s.local.users[id], form)], s.local.inbounds)
        && (form.username == s.local.users[id].username || s.local.inbounds[id] == {} ==>
              OrderlyRun(s, es, s', maxAttempts))
      ensures code == FOUND ==> RanOverwrite(s, id, Edited(s.local.users[id], form), targets, es, s')
    {
      targets := [];
      if id !in users.users {
        return NOT_FOUND, targets, [], s;
      }
      var now := clock.Now();
      var r := users.Update(id, form);
      if r.Err? {
        es, s' := NothingDone(s, now, maxAttempts);
        return CONFLICT, targets, es, s';
      }
      targets, es, s' := SyncOverwrite(id, r.value, now, s);
      code := FOUND;
    }

    /** What a toggle and the bulk actions "enable" and "disable" do with a user. */
    method SetEnabled(id: int, enabled: bool, ghost s: State)
      returns (code: int, ghost targets: seq<int>, ghost es: seq<Event>, ghost s': State)
      requires Matches(s) && s.script == []
      modifies users`users, jobs, clock
      ensures Matches(s') && s'.script == [] && OrderlyRun(s, es, s', maxAttempts)
      ensures code == if id in s.local.users then FOUND else NOT_FOUND
      ensures s'.local ==
        if id !in s.local.users then s.local
        else Local(s.local.users[id := s.local.users[id].(enabled := enabled)], s.local.inbounds)
      ensures id in s.local.users ==>
        RanOverwrite(s, id, s.local.users[id].(enabled := enabled), targets, es, s')
    {
      if id !in users.users {
        return NOT_FOUND, [], [], s;
      }
      code, targets, es, s' := Overwrite(id, users.users[id].(enabled := enabled), s);
    }

    /** handleUserToggle. */
    method HandleToggle(id: int, ghost s: State)
      returns (code: int, ghost targets: seq<int>, ghost es: seq<Event>, ghost s': State)
      requires Matches(s) && s.script == []
      modifies users`users, jobs, clock
      ensures Matches(s') && s'.script == [] && OrderlyRun(s, es, s', maxAttempts)
      ensures code == if id in s.local.users then FOUND else NOT_FOUND
      ensures id !in s.local.users ==> s' == s
      ensures id in s.local.users ==>
        RanOverwrite(s, id, s.local.users[id].(enabled := !s.local.users[id].enabled), targets, es, s')
    {
      if id !in users.users {
        return NOT_FOUND, [], [], s;
      }
      code, targets, es, s' := SetEnabled(id, !users.users[id].enabled, s);
    }

    /** handleUserRegenerateUUID, with the new credentials drawn by the caller. */
    method HandleRegenerate(id: int, uuid: string, password: string, ghost s: State)
      returns (code: int, ghost targets: seq<int>, ghost es: seq<Event>, ghost s': State)
      requires Matches(s) && s.script == []
      modifies users`users, jobs, clock
      ensures Matches(s') && s'.script == [] && OrderlyRun(s, es, s', maxAttempts)
      ensures code == if id in s.local.users then FOUND else NOT_FOUND
      ensures id !in s.local.users ==> s' == s
      ensures s'.local ==
        if id !in s.local.users then s.local
        else Local(s.local.users[id := s.local.users[id].(uuid := uuid, password := password)], s.local.inbounds)
      ensures id in s.local.users ==>
        RanOverwrite(s, id, s.local.users[id].(uuid := uuid, password := password), targets, es, s')
    {
      if id !in users.users {
        return NOT_FOUND, [], [], s;
      }
      code, targets, es, s' := Overwrite(id, users.users[id].(uuid := uuid, password := password), s);
    }

    method Overwrite(id: int, u: User, ghost s: State)
      returns (code: int, ghost targets: seq<int>, ghost es: seq<Event>, ghost s': State)
      requires Matches(s) && s.script == [] && id in users.users
      requires u.username == users.users[id].username && u.subId == users.users[id].subId
      modifies users`users, jobs, clock
      ensures Matches(s') && s'.script == [] && OrderlyRun(s, es, s', maxAttempts) && code == FOUND
      ensures s'.local == Local(s.local.users[id := u], s.local.inbounds)
      ensures RanOverwrite(s, id, u, targets, es, s')
    {
      var now := clock.Now();
      var r := users.Overwrite(id, u);
      targets, es, s' := SyncOverwrite(id, u, now, s);
      code := FOUND;
    }

    /** handleUserResetTraffic and the bulk action "reset_traffic". */
    method HandleResetTraffic(id: int, ghost s: State)
      returns (code: int, ghost targets: seq<int>, ghost es: seq<Event>, ghost s': State)
      requires Matches(s) && s.script == []
      modifies jobs, clock
      ensures Reaches(s, es, s', maxAttempts) && Matches(s') && s'.script == [] && s'.local == s.local
      ensures id in s.local.users && (s.local.users[id].enabled || s.local.inbounds[id] == {})
        ==> OrderlyRun(s, es, s', maxAttempts)
      ensures code == if id in s.local.users then FOUND else NOT_FOUND
      ensures id in s.local.users ==>
        Lists(targets, s.local.inbounds[id]) && Ran(s, ResetScript(s.local, id, targets), es, s', maxAttempts)
    {
      if id !in users.users {
        return NOT_FOUND, [], [], s;
      }
      var assignments := users.Inbounds(id);
      var ids := InboundIds(assignments);
      targets := ids;
      var payload := PayloadFor(users.users[id]);
      es, s' := EnqueueResets(id, ids, payload, s);
      ResetIsSoundIff(s.local, id, ids);
      code := FOUND;
    }

    method EnqueueResets(id: int, ids: seq<int>, payload: Payload, ghost s: State)
      returns (ghost es: seq<Event>, ghost s': State)
      requires Queued(s) && s.script == [] && id in s.local.users && payload == PayloadFor(s.local.users[id])
      modifies jobs, clock
      ensures Queued(s') && s'.local == s.local
      ensures Ran(s, ResetScript(s.local, id, ids), es, s', maxAttempts)
    {
      ghost var script := ResetScript(s.local, id, ids);
      ghost var s1 := AfterBegin(s, script);
      assert s1.script == EnqueueAll(id, ResetTraffic, ids, payload) + [];
      ghost var a;
      a, s' := EnqueueEach(id, ResetTraffic, ids, payload, [], s1);
      TodoOfEnqueueAll(id, ResetTraffic, ids, payload, payload.email, s.local);
      RanWhole(s, script, a, s', maxAttempts);
      es := [At(s.clock, Begin(script))] + a;
    }

    /** handleUserDelete and the bulk action "delete": enqueue first, then delete the row. */
    method HandleDelete(id: int, ghost s: State)
      returns (code: int, ghost es: seq<Event>, ghost s': State)
      requires Matches(s) && s.script == []
      modifies users`users, users`rows, jobs, clock
      ensures Matches(s') && s'.script == [] && OrderlyRun(s, es, s', maxAttempts)
      ensures code == if id in s.local.users then FOUND else NOT_FOUND
      ensures s'.local == Local(s.local.users - {id}, s.local.inbounds - {id})
      ensures id in s.local.users ==> Ran(s, DeleteScript(s.local, id), es, s', maxAttempts)
    {
      if id !in users.users {
        assert s.local == Local(s.local.users - {id}, s.local.inbounds - {id});
        return NOT_FOUND, [], s;
      }
      es, s' := DeleteKnown(id, s);
      code := FOUND;
    }

    method EnqueueDeletion(id: int, payload: Payload, attached: bool, ghost rest: seq<Micro>, ghost s: State)
      returns (ghost es: seq<Event>, ghost s': State)
      requires Queued(s) && s.script == (if attached then [Enqueue(Spec(id, 0, Delete, payload))] else []) + rest
      modifies jobs, clock
      ensures OrderlyRun(s, es, s', maxAttempts) && AllAdvance(es) && Queued(s')
      ensures s'.script == rest && s'.local == s.local
    {
      es, s' := [], s;
      if attached {
        ghost var e;
        e, s' := EnqueueOne(Spec(id, 0, Delete, payload), s);
        es := [e];
      }
    }

    method HasInbounds(id: int) returns (some: bool)
      requires users.Valid() && id in users.users
      ensures some <==> users.View().inbounds[id] != {}
    {
      var assignments := users.Inbounds(id);
      some := |assignments| > 0;
      assert some ==> InboundIds(assignments)[0] in ToSet(InboundIds(assignments));
    }

    /** handleUserDelete once the user is found: one job if anything is assigned, then the rows go. */
    method DeleteKnown(id: int, ghost s: State) returns (ghost es: seq<Event>, ghost s': State)
      requires Matches(s) && s.script == [] && id in s.local.users
      modifies users`users, users`rows, jobs, clock
      ensures Matches(s') && s'.script == [] && OrderlyRun(s, es, s', maxAttempts)
      ensures s'.local == Local(s.local.users - {id}, s.local.inbounds - {id})
      ensures Ran(s, DeleteScript(s.local, id), es, s', maxAttempts)
    {
      var attached := HasInbounds(id);
      var payload := PayloadFor(users.users[id]);
      ghost var script, last := DeleteScript(s.local, id), Local(s.local.users - {id}, s.local.inbounds - {id});
      ghost var a, s2;
      a, s2 := EnqueueDeletion(id, payload, attached, [Write(last)], AfterBegin(s, script));
      var now := clock.Now();
      var r := users.Delete(id);
      FinalOfDelete(s.local, id);
      es, s' := RanWriteLast(s, script, a, s2, now, last, maxAttempts);
      DeleteIsSound(s.local, id);
    }

    /** handleSyncRetry: the Retry button.  A job that has not failed, or does not exist, is left as it is, and the
        answer is the same. */
    method HandleSyncRetry(job: int, ghost s: State) returns (code: int, ghost e: Event, ghost s': State)
      requires Matches(s)
      modifies jobs`rows, clock
      ensures code == FOUND && Matches(s') && Enabled(s, e) && s' == Apply(s, e, maxAttempts)
      ensures e.act == RetryFailed(job)
    {
      var now := clock.Now();
      ghost var before := jobs.rows;
      var found := jobs.RetryJob(job, now);
      e := At(now, RetryFailed(job));
      s' := Apply(s, e, maxAttempts);
      if !found {
        NothingToRetry(before, job, now);
      }
      code := FOUND;
    }

    /** bulkApply: refused for an unknown user or action, and otherwise the run of the action's statements. */
    method BulkApply(id: int, action: string, ghost s: State)
      returns (ok: bool, ghost targets: seq<int>, ghost es: seq<Event>, ghost s': State)
      requires Matches(s) && s.script == []
      modifies users`users, users`rows, jobs, clock
      ensures Matches(s') && s'.script == []
      ensures ok <==> id in s.local.users && KnownAction(action)
      ensures Visited(s, id, action, targets, es, s', maxAttempts)
    {
      targets, es, s' := [], [], s;
      if id !in users.users || !KnownAction(action) {
        return false, targets, es, s';
      }
      ok := true;
      var code;
      if action == "reset_traffic" {
        code, targets, es, s' := HandleResetTraffic(id, s);
      } else if action == "delete" {
        code, es, s' := HandleDelete(id, s);
      } else {
        code, targets, es, s' := SetEnabled(id, action == "enable", s);
      }
    }

    /** handleUsersBulk: a user that cannot be handled is logged and skipped. */
    method HandleUsersBulk(ids: seq<int>, action: string, ghost s: State)
      returns (ghost visits: seq<Visit>, ghost s': State)
      requires Matches(s) && s.script == []
      modifies users`users, users`rows, jobs, clock
      ensures BulkRuns(s, ids, action, visits, maxAttempts) && s' == Before(s, visits, |visits|)
      ensures Matches(s') && s'.script == [] && Reaches(s, EventsOf(visits), s', maxAttempts)
      ensures OrderlyRun(s, EventsOf(visits), s', maxAttempts) <==> ResetsAreRight(s.local, ids, action)
      ensures s'.local == AfterBulkAll(s.local, ids, action)
    {
      visits, s' := [], s;
      for i := 0 to |ids|
        invariant Matches(s') && s'.script == [] && i == |visits| && s' == Before(s, visits, i)
        invariant BulkRuns(s, ids[..i], action, visits, maxAttempts)
      {
        var ok;
        ghost var targets, es, next;
        ok, targets, es, next := BulkApply(ids[i], action, s');
        OneMoreVisit(s, ids[..i], action, visits, ids[i], Visit(targets, es, next), maxAttempts);
        assert ids[..i + 1] == ids[..i] + [ids[i]];
        visits, s' := visits + [Visit(targets, es, next)], next;
      }
      assert ids[..|ids|] == ids && visits[..|ids|] == visits;
      BulkReaches(s, ids, action, visits, |ids|, maxAttempts);
      BulkIsOrderlyIff(s, ids, action, visits, maxAttempts);
    }
  }

  lemma CreateRuns(s: State, id: int, u: User, now: int, maxAttempts: nat) returns (es: seq<Event>, s': State)
    requires s.script == [] && s.clock <= now && ValidLocal(s.local) && id !in s.local.users
    requires forall k :: k in s.local.users ==> s.local.users[k].username != u.username
    ensures Ran(s, CreateScript(s.local, id, u), es, s', maxAttempts) && OrderlyRun(s, es, s', maxAttempts)
    ensures s'.table == s.table && s'.nextId == s.nextId && s'.panel == s.panel && s'.clock == now
    ensures s'.local == Local(s.local.users[id := u], s.local.inbounds[id := {}])
  {
    var script := CreateScript(s.local, id, u);
    CreateIsSound(s.local, id, u);
    s' := AfterWrite(s, script, now);
    assert script[1..] == [] && s'.local == Final(s.local, script);
    RanWriteFirst(s, script, now, [], s', maxAttempts);
    es := [At(s.clock, Begin(script))] + ([At(now, Advance)] + []);
  }

  predicate SameNameOrSubId(a: User, b: User) {
    a.username == b.username || a.subId == b.subId
  }

  lemma NothingToRetry(t: seq<Job>, id: int, now: int)
    requires forall j :: j in t ==> !(j.id == id && j.status == Failed)
    ensures Exec(t, Retry(id), now) == t
  {
    forall i | 0 <= i < |t| ensures Exec(t, Retry(id), now)[i] == t[i] {
      assert t[i] in t;
    }
  }

  // ---------------------------------------------------------------- the inbound form

  function LiveOf(form: seq<int>, live: map<int, Inbound>): seq<Inbound> {
    if form == [] then []
    else LiveOf(form[..|form| - 1], live) + (if form[|form| - 1] in live then [live[form[|form| - 1]]] else [])
  }

  /** The inbounds the form asks for that exist on the panel. */
  function Wanted(form: seq<int>, live: map<int, Inbound>): set<int> {
    set n | n in form && n in live
  }

  /** The form lists some inbound twice that the user does not have yet. */
  ghost predicate Repeats(form: seq<int>, live: map<int, Inbound>, have: set<int>) {
    exists i, j :: 0 <= i < j < |form| && form[i] == form[j] && form[i] in live && form[i] !in have
  }

  lemma {:induction false} LiveElements(form: seq<int>, live: map<int, Inbound>)
    ensures forall d :: d in LiveOf(form, live) <==> exists n :: n in form && n in live && d == live[n]
  {
    if form == [] {
    } else {
      var init, last := form[..|form| - 1], form[|form| - 1];
      LiveElements(init, live);
      assert forall n :: n in form <==> n in init || n == last;
    }
  }

  /** Rows that were not there before are the user's, for inbounds as the panel lists them. */
  predicate NewRowsAreLive(before: seq<Row>, after: seq<Row>, user: int, live: map<int, Inbound>) {
    forall x :: x in after && x !in before ==>
      x.userId == user && x.inbound.id in live && x.inbound == live[x.inbound.id]
  }

  lemma RowsAsAskedAreLive(
    before: seq<Row>, after: seq<Row>, user: int, desired: seq<Inbound>, live: map<int, Inbound>, now: int)
    requires NewRowsAsAsked(before, after, user, desired, now) && forall n :: n in live ==> live[n].id == n
    requires forall d :: d in desired ==> exists n :: n in live && d == live[n]
    ensures NewRowsAreLive(before, after, user, live)
  {
  }

  lemma {:induction false} LiveIds(form: seq<int>, live: map<int, Inbound>)
    requires forall n :: n in live ==> live[n].id == n
    ensures ToSet(DesiredIds(LiveOf(form, live))) == Wanted(form, live)
    ensures forall have :: Distinct(Missing(LiveOf(form, live), have)) <==> !Repeats(form, live, have)
  {
    forall have ensures Distinct(Missing(LiveOf(form, live), have)) <==> !Repeats(form, live, have) {
      LiveDistinct(form, live, have);
    }
    LiveMissing(form, live, {});
  }

  lemma {:induction false} LiveMissing(form: seq<int>, live: map<int, Inbound>, have: set<int>)
    requires forall n :: n in live ==> live[n].id == n
    ensures ToSet(DesiredIds(LiveOf(form, live))) == Wanted(form, live)
    ensures ToSet(Missing(LiveOf(form, live), have)) == Wanted(form, live) - have
  {
    if form == [] {
    } else {
      var init, last := form[..|form| - 1], form[|form| - 1];
      LiveMissing(init, live, have);
      assert form == init + [last];
      WantedSnoc(init, last, live);
      if last in live {
        LiveSnoc(LiveOf(init, live), live[last], have);
        ToSetSnoc(DesiredIds(LiveOf(init, live)), last);
        ToSetSnoc(Missing(LiveOf(init, live), have), last);
      } else {
        assert LiveOf(form, live) == LiveOf(init, live);
      }
    }
  }

  lemma {:induction false} LiveDistinct(form: seq<int>, live: map<int, Inbound>, have: set<int>)
    requires forall n :: n in live ==> live[n].id == n
    ensures Distinct(Missing(LiveOf(form, live), have)) <==> !Repeats(form, live, have)
  {
    if form == [] {
    } else {
      var init, last := form[..|form| - 1], form[|form| - 1];
      LiveDistinct(init, live, have);
      assert form == init + [last];
      RepeatsSnoc(init, last, live, have);
      if last in live {
        LiveSnoc(LiveOf(init, live), live[last], have);
        LiveMissing(init, live, have);
        DistinctSnoc(Missing(LiveOf(init, live), have), last);
      } else {
        assert LiveOf(form, live) == LiveOf(init, live);
      }
    }
  }

  lemma WantedSnoc(init: seq<int>, last: int, live: map<int, Inbound>)
    ensures Wanted(init + [last], live) == if last in live then Wanted(init, live) + {last} else Wanted(init, live)
  {
  }

  lemma LiveSnoc(init: seq<Inbound>, last: Inbound, have: set<int>)
    ensures DesiredIds(init + [last]) == DesiredIds(init) + [last.id]
    ensures Missing(init + [last], have) ==
      if last.id in have then Missing(init, have) else Missing(init, have) + [last.id]
  {
    MissingAppend(init, [last], have);
    assert Missing([last], have) == if last.id in have then [] else [last.id];
  }

  lemma DistinctSnoc(s: seq<int>, x: int)
    ensures Distinct(s + [x]) <==> Distinct(s) && x !in ToSet(s)
  {
    var t := s + [x];
    if Distinct(t) {
      forall i, j | 0 <= i < j < |s| ensures s[i] != s[j] {
        assert t[i] != t[j];
      }
      forall i | 0 <= i < |s| ensures s[i] != x {
        assert t[i] != t[|s|];
      }
    }
  }

  lemma RepeatsSnoc(init: seq<int>, last: int, live: map<int, Inbound>, have: set<int>)
    ensures Repeats(init + [last], live, have) <==>
      Repeats(init, live, have) || (last in live && last !in have && last in init)
  {
    var form := init + [last];
    if Repeats(init, live, have) {
      var i, j :| 0 <= i < j < |init| && init[i] == init[j] && init[i] in live && init[i] !in have;
      assert form[i] == form[j];
    }
    if last in live && last !in have && last in init {
      var i :| 0 <= i < |init| && init[i] == last;
      assert form[i] == form[|init|];
    }
  }
}
