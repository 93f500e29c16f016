/**
 The sync worker (internal/sync/worker.go), loop by loop, as runs of the outbox transition system.

 A ghost state `s` travels along: each method takes the state its objects are in and returns the
 events it performed and the state they end in.
 */
module Worker {
  import opened Options
  import opened Jobs
  import opened Panel
  import opened Outbox

  class Clock {
    var reading: int

    constructor ()
      ensures reading == 0
    {
      reading := 0;
    }

    method Now() returns (r: int)
      modifies this
      ensures r == reading && old(reading) <= reading
    {
      var d: int := *;
      reading := reading + if d < 0 then -d else d;
      r := reading;
    }
  }

  class Worker {
    const jobs: Jobs.Store
    const writer: XuiClient
    const clock: Clock
    const batchSize: int
    const maxAttempts: int

    constructor (jobs: Jobs.Store, writer: XuiClient, clock: Clock)
      ensures this.jobs == jobs && this.writer == writer && this.clock == clock
      ensures batchSize == DEFAULT_BATCH_SIZE == 20 && maxAttempts == DEFAULT_MAX_ATTEMPTS == 8
    {
      this.jobs, this.writer, this.clock := jobs, writer, clock;
      batchSize, maxAttempts := DEFAULT_BATCH_SIZE, DEFAULT_MAX_ATTEMPTS;
    }

    /** The objects are in state s. */
    ghost predicate Matches(s: Outbox.State)
      reads jobs, writer, clock
    {
      && jobs.Valid() && jobs.rows == s.table && jobs.nextId == s.nextId
      && writer.panel == s.panel && clock.reading == s.clock
    }

    method DoAssign(j: Job) returns (err: Option<Error>, ghost o: Outcome)
      requires j.op == Assign
      modifies writer
      ensures o.ok <==> err == None
      ensures o.ok ==> o.served
      ensures writer.panel == if o.served then Effect(old(writer.panel), j) else old(writer.panel)
      ensures old(writer.log) <= writer.log
      ensures 1 <= writer.maxAttempts && AllAnswered(writer.log, |old(writer.log)|) ==> o == Outcome(true, true)
    {
      var email := j.payload.email;
      var exists_;
      exists_, err := writer.GetClient(email);
      if err.Some? {
        o := Outcome(false, false);
        return;
      }
      ghost var before, n := writer.panel, |writer.log|;
      if exists_ {
        err := writer.Request(email, Attach({j.inboundId}));
        if 1 <= writer.maxAttempts && AllAnswered(writer.log, n) {
          AnsweredAtOnce(writer.log[n..], writer.maxAttempts, Find(before, email), Attach({j.inboundId}));
        }
      } else {
        err := writer.Request(email, Add(FieldsOf(j.payload), {j.inboundId}));
        if 1 <= writer.maxAttempts && AllAnswered(writer.log, n) {
          var add := Add(FieldsOf(j.payload), {j.inboundId});
          AnsweredAtOnce(writer.log[n..], writer.maxAttempts, Find(before, email), add);
        }
      }
      o := Outcome(writer.panel == Effect(before, j), err == None);
    }

    ghost function Effect(p: Panel.State, j: Job): Panel.State {
      Put(p, j.payload.email, Panel.Step(Find(p, j.payload.email), CommandOf(j)))
    }

    /** dispatch: o is what became of it, an answered one being accepted or not by the panel alone. */
    method Dispatch(j: Job) returns (err: Option<Error>, ghost o: Outcome)
      modifies writer
      ensures o.ok <==> err == None
      ensures o.ok ==> o.served && Accepts(Find(old(writer.panel), j.payload.email), CommandOf(j))
      ensures writer.panel == if o.served then Effect(old(writer.panel), j) else old(writer.panel)
      ensures if o.served then Carries(old(writer.panel), j, writer.panel) else writer.panel == old(writer.panel)
      ensures err == None ==> !j.op.Unknown? && (j.op.Update? ==> j.payload.email in old(writer.panel))
      ensures old(writer.log) <= writer.log
      ensures 1 <= writer.maxAttempts && AllAnswered(writer.log, |old(writer.log)|) ==>
        o == Outcome(true, Accepts(Find(old(writer.panel), j.payload.email), CommandOf(j)))
    {
      ghost var before, n, r := writer.panel, |writer.log|, Get;
      StepCarries(before, j);
      AcceptsIff(before, j);
      var email := j.payload.email;
      match j.op {
        case Assign =>
          err, o := DoAssign(j);
          return;
        case Update =>
          r := Replace(FieldsOf(j.payload));
          err := writer.Request(email, Replace(FieldsOf(j.payload)));
        case Unassign =>
          r := Detach({j.inboundId});
          err := writer.RequestIgnoringNotFound(email, Detach({j.inboundId}));
        case Delete =>
          r := Del;
          err := writer.RequestIgnoringNotFound(email, Del);
        case ResetTraffic =>
          r := Reset;
          err := writer.RequestIgnoringNotFound(email, Reset);
        case Unknown(_) =>
          err := Some(Other);
          o := Outcome(true, false);
          PutFind(before, email, Find(before, email));
          return;
      }
      if 1 <= writer.maxAttempts && AllAnswered(writer.log, n) {
        AnsweredAtOnce(writer.log[n..], writer.maxAttempts, Find(before, email), r);
      }
      o := Outcome(writer.panel == Effect(before, j), err == None);
    }

    /** Dispatch one job, then mark it succeeded, failed, or due again after attempts^2 seconds. */
    method Process(j: Job, ghost s: Outbox.State) returns (ghost d: Event, ghost r: Event, ghost s': Outbox.State)
      requires Matches(s) && s.held != [] && s.held[0] == j && s.reply == None
      modifies jobs`rows, writer, clock
      ensures d.act.Dispatch? && r.act.Record?
      ensures Enabled(s, d) && Enabled(Apply(s, d, maxAttempts), r)
      ensures s' == Apply(Apply(s, d, maxAttempts), r, maxAttempts) && Matches(s')
      ensures old(writer.log) <= writer.log
      ensures 1 <= writer.maxAttempts && AllAnswered(writer.log, |old(writer.log)|) ==> d.act.outcome == AnswerTo(s)
    {
      var err;
      ghost var o;
      err, o := Dispatch(j);
      d := At(s.clock, Act.Dispatch(o));
      ghost var m := Apply(s, d, maxAttempts);
      r, s' := MarkOutcome(j, err, m);
    }

    method MarkOutcome(j: Job, err: Option<Error>, ghost m: Outbox.State)
      returns (ghost r: Event, ghost s': Outbox.State)
      requires Matches(m) && m.held != [] && m.held[0] == j
      requires m.reply.Some? && (m.reply.value.ok <==> err == None)
      modifies jobs`rows, clock
      ensures r.act.Record? && Enabled(m, r)
      ensures s' == Apply(m, r, maxAttempts) && Matches(s')
    {
      var attempts := j.attempts + 1;
      var error := Describe(err);
      var seen := clock.Now();
      var now := clock.Now();
      r := At(now, Record(error, seen));
      var mark;
      if err == None {
        mark := MarkSuccess(j.id);
      } else if attempts >= maxAttempts {
        mark := MarkFailed(j.id, attempts, error);
      } else {
        var backoff := attempts * attempts * SECOND;
        if backoff > MAX_BACKOFF {
          backoff := MAX_BACKOFF;
        }
        mark := MarkRetry(j.id, attempts, error, seen + backoff);
      }
      assert mark == Mark(j, m.reply.value.ok, error, seen, maxAttempts);
      var n := jobs.Run(mark, now);
      s' := Apply(m, r, maxAttempts);
    }

    /** `done` leads from s to `now` in the middle of a batch. */
    ghost predicate Underway(s: Outbox.State, done: seq<Event>, now: Outbox.State) {
      forall rest: seq<Event>, s': Outbox.State ::
        Processing(now, rest, s', maxAttempts) ==> Processing(s, done + rest, s', maxAttempts)
    }

    lemma OneMore(s: Outbox.State, done: seq<Event>, m: Outbox.State, d: Event, r: Event)
      requires Underway(s, done, m) && m.held != []
      requires d.act.Dispatch? && r.act.Record? && Enabled(m, d) && Enabled(Apply(m, d, maxAttempts), r)
      ensures Underway(s, done + [d, r], Apply(Apply(m, d, maxAttempts), r, maxAttempts))
    {
      var next := Apply(Apply(m, d, maxAttempts), r, maxAttempts);
      forall rest: seq<Event>, s': Outbox.State | Processing(next, rest, s', maxAttempts)
        ensures Processing(s, done + [d, r] + rest, s', maxAttempts)
      {
        assert ([d, r] + rest)[2..] == rest;
        assert Processing(m, [d, r] + rest, s', maxAttempts);
        assert done + ([d, r] + rest) == done + [d, r] + rest;
      }
    }

    lemma BatchGoesOn(s: Outbox.State, done: seq<Event>, m: Outbox.State, d: Event, r: Event)
      requires Reaches(s, done, m, maxAttempts) && Enabled(m, d) && Enabled(Apply(m, d, maxAttempts), r)
      ensures Reaches(s, done + [d, r], Apply(Apply(m, d, maxAttempts), r, maxAttempts), maxAttempts)
    {
      var mid := Apply(m, d, maxAttempts);
      var next := Apply(mid, r, maxAttempts);
      ReachesOne(m, d, mid, maxAttempts);
      ReachesOne(mid, r, next, maxAttempts);
      ReachesThen(m, [d], mid, [r], next, maxAttempts);
      assert [d] + [r] == [d, r];
      ReachesThen(s, done, m, [d, r], next, maxAttempts);
    }

    lemma BatchStaysPrompt(s: Outbox.State, done: seq<Event>, m: Outbox.State, d: Event, r: Event)
      requires Reaches(s, done, m, maxAttempts) && Prompt(s, done, maxAttempts)
      requires m.held != [] && Enabled(m, d) && d.act.Dispatch? && d.act.outcome == AnswerTo(m)
      requires Enabled(Apply(m, d, maxAttempts), r) && r.act.Record?
      ensures Prompt(s, done + [d, r], maxAttempts)
    {
      assert [d, r][1..] == [r] && [r][1..] == [];
      assert Prompt(Apply(m, d, maxAttempts), [r], maxAttempts);
      PromptThen(s, done, m, [d, r], maxAttempts);
    }

    method ProcessBatch(batch: seq<Job>, ghost s: Outbox.State) returns (ghost done: seq<Event>, ghost m: Outbox.State)
      requires Matches(s) && s.held == batch && s.reply == None
      modifies jobs`rows, writer, clock
      ensures Processing(s, done, m, maxAttempts)
      ensures Matches(m) && WorkerIdle(m)
      ensures old(writer.log) <= writer.log
      ensures 1 <= writer.maxAttempts && AllAnswered(writer.log, |old(writer.log)|) ==> Prompt(s, done, maxAttempts)
    {
      done, m := [], s;
      assert Underway(s, [], s) by {
        forall rest: seq<Event> ensures [] + rest == rest {}
      }
      for i := 0 to |batch|
        invariant Matches(m) && m.reply == None && m.held == batch[i..]
        invariant Underway(s, done, m) && Reaches(s, done, m, maxAttempts) && old(writer.log) <= writer.log
        invariant 1 <= writer.maxAttempts && AllAnswered(writer.log, |old(writer.log)|) ==> Prompt(s, done, maxAttempts)
      {
        ghost var log := writer.log;
        ghost var d, r, next;
        d, r, next := Process(batch[i], m);
        OneMore(s, done, m, d, r);
        BatchGoesOn(s, done, m, d, r);
        if 1 <= writer.maxAttempts && AllAnswered(writer.log, |old(writer.log)|) {
          assert AllAnswered(log, |old(writer.log)|) && AllAnswered(writer.log, |log|);
          BatchStaysPrompt(s, done, m, d, r);
        }
        done, m := done + [d, r], next;
      }
      assert Processing(m, [], m, maxAttempts);
      assert done + [] == done;
    }

    method ReapAndClaim(ghost s: Outbox.State)
      returns (batch: seq<Job>, ghost reap: Event, ghost claim: Event, ghost s2: Outbox.State)
      requires Matches(s) && WorkerIdle(s)
      modifies jobs`rows, clock
      ensures reap.act.Reap? && s.clock <= reap.act.cutoff + STALE_AFTER <= reap.time && Enabled(s, reap)
      ensures claim.act == Claim(batchSize) && Enabled(Apply(s, reap, maxAttempts), claim)
      ensures s2 == Apply(Apply(s, reap, maxAttempts), claim, maxAttempts)
      ensures Matches(s2) && s2.held == batch && s2.reply == None
    {
      var t := clock.Now();
      var now := clock.Now();
      var n := jobs.Run(ReapStale(t - STALE_AFTER), now);
      reap := At(now, Reap(t - STALE_AFTER));
      ghost var s1 := Apply(s, reap, maxAttempts);
      assert Matches(s1) && WorkerIdle(s1);
      now := clock.Now();
      batch := jobs.ClaimBatch(batchSize, now);
      claim := At(now, Claim(batchSize));
      s2 := Apply(s1, claim, maxAttempts);
    }

    lemma TickIsRun(s: Outbox.State, reap: Event, claim: Event, done: seq<Event>, m: Outbox.State, prune: Event)
      requires reap.act.Reap? && s.clock <= reap.act.cutoff + STALE_AFTER <= reap.time && Enabled(s, reap)
      requires claim.act == Claim(batchSize) && Enabled(Apply(s, reap, maxAttempts), claim)
      requires Processing(Apply(Apply(s, reap, maxAttempts), claim, maxAttempts), done, m, maxAttempts)
      requires prune.act.Prune? && Enabled(m, prune)
      requires m.clock <= prune.act.cutoff + PRUNE_AFTER <= prune.time
      ensures TickRun(s, [reap, claim] + done + [prune], Apply(m, prune, maxAttempts), batchSize, maxAttempts)
    {
      var es := [reap, claim] + done + [prune];
      assert es[2..|es| - 1] == done;
    }

    lemma PromptOneMore(s: Outbox.State, e: Event, s1: Outbox.State, rest: seq<Event>)
      requires Enabled(s, e) && (e.act.Reap? || e.act.Claim?) && s1 == Apply(s, e, maxAttempts)
      requires Prompt(s1, rest, maxAttempts)
      ensures Prompt(s, [e] + rest, maxAttempts)
    {
      assert ([e] + rest)[1..] == rest;
    }

    lemma PromptToTheEnd(s: Outbox.State, done: seq<Event>, m: Outbox.State, prune: Event)
      requires Processing(s, done, m, maxAttempts) && Prompt(s, done, maxAttempts)
      requires Enabled(m, prune) && prune.act.Prune?
      ensures Prompt(s, done + [prune], maxAttempts)
    {
      ProcessingReaches(s, done, m, maxAttempts);
      assert [prune][1..] == [];
      PromptThen(s, done, m, [prune], maxAttempts);
    }

    lemma TickIsPrompt(
      s: Outbox.State, reap: Event, claim: Event, s2: Outbox.State, done: seq<Event>, m: Outbox.State, prune: Event)
      requires reap.act.Reap? && Enabled(s, reap) && claim.act.Claim? && Enabled(Apply(s, reap, maxAttempts), claim)
      requires s2 == Apply(Apply(s, reap, maxAttempts), claim, maxAttempts)
      requires Prompt(s2, done + [prune], maxAttempts)
      ensures Prompt(s, [reap, claim] + done + [prune], maxAttempts)
    {
      PromptOneMore(Apply(s, reap, maxAttempts), claim, s2, done + [prune]);
      PromptOneMore(s, reap, Apply(s, reap, maxAttempts), [claim] + (done + [prune]));
      assert [reap] + ([claim] + (done + [prune])) == [reap, claim] + done + [prune];
    }

    method PruneOld(ghost m: Outbox.State) returns (ghost prune: Event, ghost s': Outbox.State)
      requires Matches(m) && WorkerIdle(m)
      modifies jobs`rows, clock
      ensures prune.act.Prune? && m.clock <= prune.act.cutoff + PRUNE_AFTER <= prune.time && Enabled(m, prune)
      ensures s' == Apply(m, prune, maxAttempts) && Matches(s') && WorkerIdle(s')
    {
      var t := clock.Now();
      jobs.Prune(t - PRUNE_AFTER);
      prune := At(t, Act.Prune(t - PRUNE_AFTER));
      s' := Apply(m, prune, maxAttempts);
    }

    /** Tick is one run of the transition system in the order reap, claim, (dispatch, record)*, prune. */
    method Tick(ghost s: Outbox.State) returns (ghost es: seq<Event>, ghost s': Outbox.State)
      requires Matches(s) && WorkerIdle(s)
      modifies jobs`rows, writer, clock
      ensures TickRun(s, es, s', batchSize, maxAttempts)
      ensures Matches(s') && WorkerIdle(s')
      ensures old(writer.log) <= writer.log
      ensures 1 <= writer.maxAttempts && AllAnswered(writer.log, |old(writer.log)|) ==> Prompt(s, es, maxAttempts)
    {
      ghost var reap, claim, s2, done, m;
      var batch;
      batch, reap, claim, s2 := ReapAndClaim(s);
      done, m := ProcessBatch(batch, s2);
      ghost var prune;
      prune, s' := PruneOld(m);
      es := [reap, claim] + done + [prune];
      TickIsRun(s, reap, claim, done, m, prune);
      if Prompt(s2, done, maxAttempts) {
        PromptToTheEnd(s2, done, m, prune);
        TickIsPrompt(s, reap, claim, s2, done, m, prune);
      }
    }
  }
}
