/**
 Handlers that do not run by themselves: two that edit the same user at once, and one whose process dies
 before its last statement.
 */
module Interruptions {
  import opened Jobs
  import Panel
  import opened Users
  import opened Outbox
  import opened Overlaps
  import opened Convergence
  import opened Scripts
  import opened Sequences
  import opened HandlerRuns
  import Ledger

  // ---------------------------------------------------------------- handlers that overlap

  lemma {:induction false} AdvancesQueue(s: State, es: seq<Event>, s': State, email: string, maxAttempts: nat)
    requires Reaches(s, es, s', maxAttempts) && AllAdvance(es)
    ensures |es| <= |s.script|
    ensures Outstanding(s'.table, email) == Outstanding(s.table, email) + Todo(s.script[..|es|], email)
    decreases |es|
  {
    AdvancesRun(s, es, s', maxAttempts);
    if es == [] {
      assert s.script[..0] == [] && Outstanding(s.table, email) + [] == Outstanding(s.table, email);
    } else {
      var m := Apply(s, es[0], maxAttempts);
      AdvancesQueue(m, es[1..], s', email, maxAttempts);
      OneMoreQueued(s.table, s.nextId, s.script, m.table, es[0].time, |es|, email);
    }
  }

  lemma OneMoreQueued(t: seq<Job>, id: int, script: seq<Micro>, t1: seq<Job>, now: int, n: nat, email: string)
    requires 1 <= n <= |script|
    requires t1 == if script[0].Enqueue? then t + [NewRow(id, script[0].spec, now)] else t
    ensures Outstanding(t1, email) + Todo(script[1..][..n - 1], email)
      == Outstanding(t, email) + Todo(script[..n], email)
  {
    var first, rest := [script[0]], script[1..][..n - 1];
    OneByOne([], script, n);
    TodoAppend(first, rest, email);
    OneTodo(script[0], email);
    if script[0].Enqueue? {
      OutstandingWhenEnqueued(t, NewRow(id, script[0].spec, now), script[0], email);
    } else {
      assert Outstanding(t, email) + [] == Outstanding(t, email);
    }
    Regroup(Outstanding(t, email), Todo(first, email), Todo(rest, email));
  }

  /** The jobs lead where the statements do, sound or not: two handlers whose statements are mixed are one
      script to the outbox. */
  lemma QueueLeadsWhereTheScriptDoes(
    s: State, script: seq<Micro>, es: seq<Event>, s': State, email: string, maxAttempts: nat)
    requires Agree(s) && s.script == [] && Ran(s, script, es, s', maxAttempts)
    ensures ValidLocal(s.local)
    ensures Panel.Play(Panel.Find(s'.panel, email), Outstanding(s'.table, email))
      == Panel.Play(Desired(s.local, email), Todo(script, email))
  {
    var s1 := Apply(s, es[0], maxAttempts);
    AgreeWhenIdle(s, email);
    AdvancesRun(s1, es[1..], s', maxAttempts);
    AdvancesQueue(s1, es[1..], s', email, maxAttempts);
    assert script[..|es[1..]|] == script;
    Panel.PlayAppend(Panel.Find(s.panel, email), Outstanding(s.table, email), Todo(script, email));
  }

  /** So what `Overlaps` says of a script holds of every run of it: panel, jobs and tables are on course
      afterwards exactly when the script is sound. */
  lemma RanKeepsAgreeIff(s: State, script: seq<Micro>, es: seq<Event>, s': State, maxAttempts: nat)
    requires 1 <= maxAttempts && Ledger.Inv(s, maxAttempts) && Agree(s) && s.script == []
    requires Ran(s, script, es, s', maxAttempts)
    ensures Agree(s') <==> Sound(s.local, script)
  {
    AdvancesRun(Apply(s, es[0], maxAttempts), es[1..], s', maxAttempts);
    assert s'.begun == s.local && s'.ran == script by {
      assert [] + script[..|es[1..]|] == script[..|es[1..]|] == script;
    }
    assert s'.ran + s'.script == script;
    if Sound(s.local, script) {
      AgreeKeptByRun(s, es, s', maxAttempts);
    }
  }

  /** And any such script is the script of some run. */
  lemma EveryScriptRuns(s: State, script: seq<Micro>, maxAttempts: nat) returns (es: seq<Event>, s': State)
    requires s.script == []
    ensures Ran(s, script, es, s', maxAttempts)
  {
    var begin := At(s.clock, Begin(script));
    var s1 := Apply(s, begin, maxAttempts);
    var advances;
    advances, s' := SomeAdvances(s1, |script|, maxAttempts);
    es := [begin] + advances;
    assert es[1..] == advances;
    AdvancesRun(s1, advances, s', maxAttempts);
    assert script[..|script|] == script;
    AdvancesAreOrderly(s1, advances, s', maxAttempts);
  }

  /** A toggle that read its user before an edit landed: once its jobs are done, the client on the panel is
      the row's exactly when the edit changed nothing that is pushed. */
  lemma StaleToggleIsPushedIff(
    s: State, id: int, edited: User, enabled: bool, targets: seq<int>, es: seq<Event>, s': State, maxAttempts: nat)
    requires Agree(s) && s.script == [] && id in s.local.users && id in s.local.inbounds
    requires Lists(targets, s.local.inbounds[id]) && s.local.inbounds[id] != {}
    requires edited.username == s.local.users[id].username
    requires Ran(s, StaleToggle(s.local, id, edited, enabled, targets), es, s', maxAttempts)
    ensures ValidLocal(s'.local)
    ensures var email := edited.username;
      Panel.Play(Panel.Find(s'.panel, email), Outstanding(s'.table, email)) == Desired(s'.local, email) <==>
        Panel.FieldsOf(PayloadFor(edited.(enabled := enabled))) ==
        Panel.FieldsOf(PayloadFor(s.local.users[id].(enabled := enabled)))
  {
    var script, email := StaleToggle(s.local, id, edited, enabled, targets), edited.username;
    QueueLeadsWhereTheScriptDoes(s, script, es, s', email, maxAttempts);
    StaleToggleEnds(s.local, id, edited, enabled, targets);
    PlayEdits(s.local, id, script, Desired(s.local, email).value);
  }

  // ---------------------------------------------------------------- a crash inside a handler

  /** A handler begins, carries out some of its statements, and the process dies. */
  ghost predicate Died(s: State, script: seq<Micro>, es: seq<Event>, s': State, maxAttempts: nat) {
    && 2 <= |es| && es[0].act == Begin(script) && AllAdvance(es[1..|es| - 1]) && es[|es| - 1].act == Crash
    && Reaches(s, es, s', maxAttempts)
  }

  lemma DiedAfter(s: State, script: seq<Micro>, es: seq<Event>, s': State, maxAttempts: nat) returns (m: State)
    requires s.script == [] && Died(s, script, es, s', maxAttempts)
    ensures var n := |es| - 2;
      && n <= |script| && m.script == script[n..] && m.begun == s.local && m.ran == script[..n]
      && m.local == Final(s.local, script[..n])
      && s.table <= m.table && Enqueued(m.table, |s.table|, s.nextId, Specs(script[..n])) && m.panel == s.panel
      && Enabled(m, es[|es| - 1]) && s' == Apply(m, es[|es| - 1], maxAttempts)
      && Reaches(Apply(s, es[0], maxAttempts), es[1..|es| - 1], m, maxAttempts)
  {
    var s1, advances, last := Apply(s, es[0], maxAttempts), es[1..|es| - 1], es[|es| - 1];
    assert es[1..] == advances + [last];
    m := SplitRun(s1, advances, [last], s', maxAttempts);
    AdvancesRun(s1, advances, m, maxAttempts);
    AdvancesEnqueue(s1, advances, m, maxAttempts);
    assert [] + script[..|advances|] == script[..|advances|];
  }

  lemma {:induction false} SplitRun(s: State, a: seq<Event>, b: seq<Event>, s': State, maxAttempts: nat)
    returns (m: State)
    requires Reaches(s, a + b, s', maxAttempts)
    ensures Reaches(s, a, m, maxAttempts) && Reaches(m, b, s', maxAttempts)
    decreases |a|
  {
    if a == [] {
      assert a + b == b;
      m := s;
    } else {
      assert (a + b)[0] == a[0] && (a + b)[1..] == a[1..] + b;
      m := SplitRun(Apply(s, a[0], maxAttempts), a[1..], b, s', maxAttempts);
    }
  }

  /** docs/ARCHITECTURE.md:307 says a missed enqueue is always visible.  It never is: after a crash the table
      holds the jobs enqueued before it and nothing of the others, so every job of the handler has its row
      exactly when the crash missed none. */
  lemma MissedEnqueueHasNoRow(s: State, script: seq<Micro>, es: seq<Event>, s': State, maxAttempts: nat)
    requires s.script == [] && Died(s, script, es, s', maxAttempts)
    ensures |es| - 2 <= |script|
    ensures s.table <= s'.table && Enqueued(s'.table, |s.table|, s.nextId, Specs(script[..|es| - 2]))
    ensures |s'.table| == |s.table| + |Specs(script)| <==> Specs(script[|es| - 2..]) == []
  {
    var m := DiedAfter(s, script, es, s', maxAttempts);
    var n := |es| - 2;
    assert script == script[..n] + script[n..];
    SpecsAppend(script[..n], script[n..]);
  }

  /** And the panel stays on course exactly when the statements before the crash are sound by themselves.
      `Scripts.CrashIn...` says for each handler where that is. */
  lemma DeathKeepsAgreeIff(s: State, script: seq<Micro>, es: seq<Event>, s': State, maxAttempts: nat)
    requires 1 <= maxAttempts && Ledger.Inv(s, maxAttempts) && Agree(s) && s.script == []
    requires Sound(s.local, script) && Died(s, script, es, s', maxAttempts)
    ensures |es| - 2 <= |script|
    ensures Agree(s') <==> Sound(s.local, script[..|es| - 2])
  {
    var m := DiedAfter(s, script, es, s', maxAttempts);
    var s1 := Apply(s, es[0], maxAttempts);
    AgreeKeptByStep(s, es[0], maxAttempts);
    Ledger.KeptByStep(s, es[0], maxAttempts);
    AdvancesAreOrderly(s1, es[1..|es| - 1], m, maxAttempts);
    AgreeKeptByRun(s1, es[1..|es| - 1], m, maxAttempts);
    CrashKeepsAgreeIff(m, es[|es| - 1], maxAttempts);
  }

  lemma {:induction false} AdvancesAreOrderly(s: State, es: seq<Event>, s': State, maxAttempts: nat)
    requires Reaches(s, es, s', maxAttempts) && AllAdvance(es)
    ensures OrderlyRun(s, es, s', maxAttempts)
    decreases |es|
  {
    if es == [] {
    } else {
      AdvancesAreOrderly(Apply(s, es[0], maxAttempts), es[1..], s', maxAttempts);
    }
  }

  /** Such a run exists for every script and every place in it. */
  lemma AnyStatementMayBeTheLast(s: State, script: seq<Micro>, n: nat, maxAttempts: nat)
    returns (es: seq<Event>, s': State)
    requires s.script == [] && n <= |script|
    ensures |es| == n + 2 && Died(s, script, es, s', maxAttempts)
  {
    var begin, crash := At(s.clock, Begin(script)), At(s.clock, Crash);
    var advances, m := SomeAdvances(Apply(s, begin, maxAttempts), n, maxAttempts);
    s' := Apply(m, crash, maxAttempts);
    ReachesOne(m, crash, s', maxAttempts);
    ReachesThen(Apply(s, begin, maxAttempts), advances, m, [crash], s', maxAttempts);
    es := [begin] + (advances + [crash]);
    assert es[1..] == advances + [crash] && es[1..|es| - 1] == advances;
  }

  lemma {:induction false} SomeAdvances(s: State, n: nat, maxAttempts: nat) returns (es: seq<Event>, s': State)
    requires n <= |s.script|
    ensures |es| == n && AllAdvance(es) && Reaches(s, es, s', maxAttempts) && s'.clock == s.clock
    decreases n
  {
    if n == 0 {
      es, s' := [], s;
    } else {
      var e := At(s.clock, Advance);
      var rest;
      rest, s' := SomeAdvances(Apply(s, e, maxAttempts), n - 1, maxAttempts);
      es := [e] + rest;
      assert es[1..] == rest;
    }
  }

  /** For one, a crash between the local write and the first enqueue leaves a user whose new inbound no job
      will ever push, and not a single row. */
  lemma CrashBeforeEnqueueLeavesNoTrace(s: State, id: int, inbound: int, maxAttempts: nat)
    returns (es: seq<Event>, s': State)
    requires Agree(s) && s.script == [] && s.table == []
    requires id in s.local.users && id in s.local.inbounds && s.local.inbounds[id] == {}
    ensures |es| == 3 && Died(s, SetInboundsScript(s.local, id, [inbound], []), es, s', maxAttempts)
    ensures s'.script == [] && s'.table == [] && ValidLocal(s'.local) && !Mirrors(s'.panel, s'.local)
  {
    var script := SetInboundsScript(s.local, id, [inbound], []);
    es, s' := AnyStatementMayBeTheLast(s, script, 1, maxAttempts);
    var m := DiedAfter(s, script, es, s', maxAttempts);
    var l' := Local(s.local.users, s.local.inbounds[id := s.local.inbounds[id] + ToSet([inbound]) - ToSet([])]);
    assert script[..1] == [Write(l')] && [Write(l')][1..] == [];
    QuietMirrors(s);
    NewInboundIsMissed(s.local, l', id, inbound, s.panel);
  }

  lemma NewInboundIsMissed(l: Local, l': Local, id: int, inbound: int, panel: Panel.State)
    requires ValidLocal(l) && id in l.users && l.inbounds[id] == {} && Mirrors(panel, l)
    requires l' == Local(l.users, l.inbounds[id := l.inbounds[id] + ToSet([inbound]) - ToSet([])])
    ensures ValidLocal(l') && !Mirrors(panel, l')
  {
    var email := l.users[id].username;
    DesiredIs(l, id);
    assert inbound in l'.inbounds[id];
    DesiredIs(l', id);
    assert Panel.Find(panel, email) == Desired(l, email);
  }
}
