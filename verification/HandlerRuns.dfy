/**
 What it means that an admin handler ran: a Begin with its script, then one Advance per statement; and what
 that leaves in the job table.
 */
module HandlerRuns {
  import opened Jobs
  import opened Users
  import opened Outbox
  import opened Convergence
  import opened Scripts
  import opened Sequences

  lemma {:induction false} OrderlyReaches(s: State, es: seq<Event>, s': State, maxAttempts: nat)
    requires OrderlyRun(s, es, s', maxAttempts)
    ensures Reaches(s, es, s', maxAttempts)
    decreases |es|
  {
    if es == [] {
    } else {
      OrderlyReaches(Apply(s, es[0], maxAttempts), es[1..], s', maxAttempts);
    }
  }

  lemma {:induction false} OrderlyThen(
    s: State, a: seq<Event>, m: State, b: seq<Event>, s': State, maxAttempts: nat)
    requires OrderlyRun(s, a, m, maxAttempts) && OrderlyRun(m, b, s', maxAttempts)
    ensures OrderlyRun(s, a + b, s', maxAttempts)
    decreases |a|
  {
    if a == [] {
      assert a + b == b;
    } else {
      assert (a + b)[1..] == a[1..] + b;
      OrderlyThen(Apply(s, a[0], maxAttempts), a[1..], m, b, s', maxAttempts);
    }
  }

  lemma {:induction false} OrderlySplitIff(
    s: State, a: seq<Event>, m: State, b: seq<Event>, s': State, maxAttempts: nat)
    requires Reaches(s, a, m, maxAttempts)
    ensures OrderlyRun(s, a + b, s', maxAttempts) <==>
      OrderlyRun(s, a, m, maxAttempts) && OrderlyRun(m, b, s', maxAttempts)
    decreases |a|
  {
    if a == [] {
      assert a + b == b;
    } else {
      assert (a + b)[0] == a[0] && (a + b)[1..] == a[1..] + b;
      OrderlySplitIff(Apply(s, a[0], maxAttempts), a[1..], m, b, s', maxAttempts);
    }
  }

  ghost predicate AllAdvance(es: seq<Event>) {
    forall i :: 0 <= i < |es| ==> es[i].act == Advance
  }

  /** What a handler leaves: it began with its script and ran all of it, in an orderly way if the script is sound. */
  ghost predicate Ran(s: State, script: seq<Micro>, es: seq<Event>, s': State, maxAttempts: nat) {
    && es != [] && es[0].act == Begin(script) && AllAdvance(es[1..])
    && Reaches(s, es, s', maxAttempts) && s'.script == []
    && s'.local == Final(s.local, script)
    && (Sound(s.local, script) ==> OrderlyRun(s, es, s', maxAttempts))
  }

  function AfterBegin(s: State, script: seq<Micro>): State {
    s.(script := script, begun := s.local, ran := [])
  }

  /** After a first statement that is a write. */
  function AfterWrite(s: State, script: seq<Micro>, now: int): State
    requires script != [] && script[0].Write?
  {
    s.(clock := now, local := script[0].local, script := script[1..], begun := s.local, ran := [script[0]])
  }

  lemma OneOrderlyStep(s: State, e: Event, maxAttempts: nat)
    requires Enabled(s, e) && Orderly(s, e)
    ensures OrderlyRun(s, [e], Apply(s, e, maxAttempts), maxAttempts)
  {
    assert [e][1..] == [];
  }

  lemma OneMoreOrderly(s: State, es: seq<Event>, m: State, e: Event, s': State, maxAttempts: nat)
    requires OrderlyRun(s, es, m, maxAttempts) && OrderlyRun(m, [e], s', maxAttempts)
    requires AllAdvance(es) && e.act == Advance
    ensures OrderlyRun(s, es + [e], s', maxAttempts) && AllAdvance(es + [e])
  {
    OrderlyThen(s, es, m, [e], s', maxAttempts);
  }

  lemma RanWhole(s: State, script: seq<Micro>, es: seq<Event>, s': State, maxAttempts: nat)
    requires s.script == [] && AllAdvance(es) && OrderlyRun(AfterBegin(s, script), es, s', maxAttempts)
    requires s'.script == [] && s'.local == Final(s.local, script)
    ensures Ran(s, script, [At(s.clock, Begin(script))] + es, s', maxAttempts)
  {
    var begin := At(s.clock, Begin(script));
    assert Apply(s, begin, maxAttempts) == AfterBegin(s, script);
    assert ([begin] + es)[1..] == es;
    OrderlyReaches(AfterBegin(s, script), es, s', maxAttempts);
  }

  /** The run of a handler that writes first. */
  lemma RanWriteFirst(s: State, script: seq<Micro>, now: int, es: seq<Event>, s': State, maxAttempts: nat)
    requires s.script == [] && s.clock <= now && script != [] && script[0].Write? && AllAdvance(es)
    requires OrderlyRun(AfterWrite(s, script, now), es, s', maxAttempts)
    requires s'.script == [] && s'.local == Final(s.local, script)
    ensures Ran(s, script, [At(s.clock, Begin(script))] + ([At(now, Advance)] + es), s', maxAttempts)
  {
    var s1, write := AfterBegin(s, script), At(now, Advance);
    assert [] + [script[0]] == [script[0]];
    assert Apply(s1, write, maxAttempts) == AfterWrite(s, script, now);
    assert ([write] + es)[1..] == es;
    RanWhole(s, script, [write] + es, s', maxAttempts);
  }

  /** The run of a handler that writes last. */
  lemma RanWriteLast(s: State, script: seq<Micro>, es: seq<Event>, m: State, now: int, l: Local, maxAttempts: nat)
    returns (all: seq<Event>, s': State)
    requires s.script == [] && AllAdvance(es) && OrderlyRun(AfterBegin(s, script), es, m, maxAttempts)
    requires m.clock <= now && m.script == [Write(l)] && l == Final(s.local, script)
    ensures Ran(s, script, all, s', maxAttempts)
    ensures s' == m.(clock := now, local := l, script := [], ran := m.ran + m.script)
  {
    var write := At(now, Advance);
    s' := Apply(m, write, maxAttempts);
    OneOrderlyStep(m, write, maxAttempts);
    OneMoreOrderly(AfterBegin(s, script), es, m, write, s', maxAttempts);
    RanWhole(s, script, es + [write], s', maxAttempts);
    all := [At(s.clock, Begin(script))] + (es + [write]);
  }

  /** Time passed and nothing else did. */
  lemma NothingDone(s: State, now: int, maxAttempts: nat) returns (es: seq<Event>, s': State)
    requires s.clock <= now && s.script == [] && ValidLocal(s.local)
    ensures OrderlyRun(s, es, s', maxAttempts) && Reaches(s, es, s', maxAttempts)
    ensures s' == s.(clock := now, begun := s.local, ran := [])
  {
    var e := At(now, Begin([]));
    s' := Apply(s, e, maxAttempts);
    es := [e];
    NothingIsSound(s.local);
    OneOrderlyStep(s, e, maxAttempts);
    OrderlyReaches(s, es, s', maxAttempts);
  }

  // ---------------------------------------------------------------- the rows a handler adds

  /** The jobs a script enqueues, in order. */
  function Specs(script: seq<Micro>): seq<Spec> {
    if script == [] then []
    else (if script[0].Enqueue? then [script[0].spec] else []) + Specs(script[1..])
  }

  /** Row n of the table is the i-th of these jobs, waiting, under the i-th id from first on. */
  ghost predicate Enqueued(t: seq<Job>, n: nat, first: int, specs: seq<Spec>) {
    |t| == n + |specs| && forall i :: 0 <= i < |specs| ==> WaitsAs(t[n + i], first + i, specs[i])
  }

  predicate WaitsAs(j: Job, id: int, spec: Spec) {
    j.id == id && SpecOf(j) == spec && j.status == Pending
  }

  lemma FinalOneMore(l: Local, m: Micro, rest: seq<Micro>)
    ensures Final(l, [m] + rest) == Final(if m.Write? then m.local else l, rest)
  {
    assert ([m] + rest)[1..] == rest;
  }

  lemma {:induction false} AdvancesRun(s: State, es: seq<Event>, s': State, maxAttempts: nat)
    requires Reaches(s, es, s', maxAttempts) && AllAdvance(es)
    ensures |es| <= |s.script| && s'.script == s.script[|es|..] && s'.panel == s.panel
    ensures s'.begun == s.begun && s'.ran == s.ran + s.script[..|es|]
    ensures s'.local == Final(s.local, s.script[..|es|])
    decreases |es|
  {
    if es == [] {
      assert s.script[..0] == [] && s.ran + [] == s.ran;
    } else {
      var m := Apply(s, es[0], maxAttempts);
      AdvancesRun(m, es[1..], s', maxAttempts);
      OneByOne(s.ran, s.script, |es|);
      FinalOneMore(s.local, s.script[0], s.script[1..][..|es| - 1]);
    }
  }

  lemma {:induction false} AdvancesEnqueue(s: State, es: seq<Event>, s': State, maxAttempts: nat)
    requires Reaches(s, es, s', maxAttempts) && AllAdvance(es)
    ensures |es| <= |s.script|
    ensures s.table <= s'.table && Enqueued(s'.table, |s.table|, s.nextId, Specs(s.script[..|es|]))
    decreases |es|
  {
    AdvancesRun(s, es, s', maxAttempts);
    if es == [] {
      assert s.script[..0] == [];
    } else {
      var m := Apply(s, es[0], maxAttempts);
      AdvancesEnqueue(m, es[1..], s', maxAttempts);
      OneMoreEnqueued(s.table, s.nextId, s.script, m.table, m.nextId, s'.table, es[0].time, |es|);
    }
  }

  lemma OneMoreEnqueued(
    t: seq<Job>, id: int, script: seq<Micro>, t1: seq<Job>, id1: int, t2: seq<Job>, now: int, n: nat)
    requires 1 <= n <= |script| && t1 <= t2 && Enqueued(t2, |t1|, id1, Specs(script[1..][..n - 1]))
    requires if script[0].Enqueue? then t1 == t + [NewRow(id, script[0].spec, now)] && id1 == id + 1
             else t1 == t && id1 == id
    ensures t <= t2 && Enqueued(t2, |t|, id, Specs(script[..n]))
  {
    OneByOne([], script, n);
    FirstSpec(script[0], script[1..][..n - 1]);
    if script[0].Enqueue? {
      FirstEnqueued(t2, t, id, script[0].spec, now, Specs(script[1..][..n - 1]));
    }
  }

  lemma FirstSpec(first: Micro, rest: seq<Micro>)
    ensures Specs([first] + rest) == if first.Enqueue? then [first.spec] + Specs(rest) else Specs(rest)
  {
    assert ([first] + rest)[1..] == rest;
    assert [] + Specs(rest) == Specs(rest);
  }

  lemma FirstEnqueued(t: seq<Job>, before: seq<Job>, first: int, spec: Spec, now: int, rest: seq<Spec>)
    requires before + [NewRow(first, spec, now)] <= t && Enqueued(t, |before| + 1, first + 1, rest)
    ensures before <= t && Enqueued(t, |before|, first, [spec] + rest)
  {
    var row := NewRow(first, spec, now);
    assert t[|before|] == (before + [row])[|before|] == row;
    forall i | 0 <= i < |[spec] + rest|
      ensures WaitsAs(t[|before| + i], first + i, ([spec] + rest)[i])
    {
      if 0 < i {
        assert WaitsAs(t[|before| + 1 + (i - 1)], first + 1 + (i - 1), rest[i - 1]);
      }
    }
  }

  /** A handler adds exactly its jobs, in the order of its script and under ascending ids, and leaves the
      panel and every other row alone. */
  lemma RanEnqueues(s: State, script: seq<Micro>, es: seq<Event>, s': State, maxAttempts: nat)
    requires s.script == [] && Ran(s, script, es, s', maxAttempts)
    ensures s.table <= s'.table && Enqueued(s'.table, |s.table|, s.nextId, Specs(script))
    ensures s'.panel == s.panel
  {
    AdvancesRun(Apply(s, es[0], maxAttempts), es[1..], s', maxAttempts);
    AdvancesEnqueue(Apply(s, es[0], maxAttempts), es[1..], s', maxAttempts);
    assert script[..|es[1..]|] == script;
  }

  lemma {:induction false} SpecsAppend(a: seq<Micro>, b: seq<Micro>)
    ensures Specs(a + b) == Specs(a) + Specs(b)
  {
    if a == [] {
      assert a + b == b;
    } else {
      assert (a + b)[1..] == a[1..] + b && (a + b)[0] == a[0];
      SpecsAppend(a[1..], b);
      Regroup(if a[0].Enqueue? then [a[0].spec] else [], Specs(a[1..]), Specs(b));
    }
  }

  lemma {:induction false} SpecsOfEnqueueAll(id: int, op: Op, ids: seq<int>, p: Payload)
    ensures |Specs(EnqueueAll(id, op, ids, p))| == |ids|
    ensures forall i :: 0 <= i < |ids| ==> Specs(EnqueueAll(id, op, ids, p))[i] == Spec(id, ids[i], op, p)
  {
    if ids == [] {
    } else {
      var init, last := ids[..|ids| - 1], ids[|ids| - 1..];
      assert EnqueueAll(id, op, ids, p) == EnqueueAll(id, op, init, p) + EnqueueAll(id, op, last, p);
      SpecsAppend(EnqueueAll(id, op, init, p), EnqueueAll(id, op, last, p));
      SpecsOfEnqueueAll(id, op, init, p);
      assert EnqueueAll(id, op, last, p)[1..] == [];
    }
  }

  /** A waiting job about this user and inbound that says what the user's row says, field by field. */
  predicate JobFor(j: Job, id: int, user: int, inbound: int, op: Op, u: User) {
    && j.id == id && j.userId == user && j.inboundId == inbound && j.op == op && j.status == Pending
    && CarriesUser(j.payload, u)
  }

  /** Overwriting a user's row: the tables hold the new row, and one update per inbound carries it. */
  lemma OverwriteEnqueues(
    s: State, id: int, u: User, targets: seq<int>, es: seq<Event>, s': State, maxAttempts: nat)
    requires s.script == [] && id in s.local.users
    requires Ran(s, OverwriteScript(s.local, id, u, targets), es, s', maxAttempts)
    ensures s'.local.users == s.local.users[id := u] && s'.local.inbounds == s.local.inbounds
    ensures s.table <= s'.table && |s'.table| == |s.table| + |targets|
    ensures forall i :: 0 <= i < |targets| ==>
      JobFor(s'.table[|s.table| + i], s.nextId + i, id, targets[i], Update, u)
  {
    var script := OverwriteScript(s.local, id, u, targets);
    RanEnqueues(s, script, es, s', maxAttempts);
    OverwriteTodo(s.local, id, u, targets);
    assert script[1..] == EnqueueAll(id, Update, targets, PayloadFor(u));
    SpecsOfEnqueueAll(id, Update, targets, PayloadFor(u));
    JobsOf(s'.table, |s.table|, s.nextId, id, Update, targets, u, Specs(script));
  }

  lemma JobsOf(
    t: seq<Job>, n: nat, first: int, id: int, op: Op, targets: seq<int>, u: User, specs: seq<Spec>)
    requires Enqueued(t, n, first, specs) && |specs| == |targets|
    requires forall i :: 0 <= i < |targets| ==> specs[i] == Spec(id, targets[i], op, PayloadFor(u))
    ensures forall i :: 0 <= i < |targets| ==> JobFor(t[n + i], first + i, id, targets[i], op, u)
  {
    forall i | 0 <= i < |targets| ensures JobFor(t[n + i], first + i, id, targets[i], op, u) {
      assert WaitsAs(t[n + i], first + i, specs[i]);
      JobOf(t[n + i], first + i, id, op, targets[i], u);
    }
  }

  lemma JobOf(j: Job, n: int, id: int, op: Op, inbound: int, u: User)
    requires WaitsAs(j, n, Spec(id, inbound, op, PayloadFor(u)))
    ensures JobFor(j, n, id, inbound, op, u)
  {
    assert SpecOf(j).payload == PayloadFor(u) && SpecOf(j).op == op;
    PayloadCarriesUser(u);
  }

  /** Resetting traffic: nothing in the tables, and one reset per inbound. */
  lemma ResetEnqueues(s: State, id: int, targets: seq<int>, es: seq<Event>, s': State, maxAttempts: nat)
    requires s.script == [] && id in s.local.users
    requires Ran(s, ResetScript(s.local, id, targets), es, s', maxAttempts)
    ensures s'.local == s.local && s.table <= s'.table && |s'.table| == |s.table| + |targets|
    ensures forall i :: 0 <= i < |targets| ==>
      JobFor(s'.table[|s.table| + i], s.nextId + i, id, targets[i], ResetTraffic, s.local.users[id])
  {
    var u := s.local.users[id];
    RanEnqueues(s, ResetScript(s.local, id, targets), es, s', maxAttempts);
    SpecsOfEnqueueAll(id, ResetTraffic, targets, PayloadFor(u));
    TodoOfEnqueueAll(id, ResetTraffic, targets, PayloadFor(u), u.username, s.local);
    JobsOf(s'.table, |s.table|, s.nextId, id, ResetTraffic, targets, u, Specs(ResetScript(s.local, id, targets)));
  }

  /** Deleting a user: its rows go, and one deletion, about no inbound, is enqueued if it had any. */
  lemma DeleteEnqueues(s: State, id: int, es: seq<Event>, s': State, maxAttempts: nat)
    requires s.script == [] && id in s.local.users && id in s.local.inbounds
    requires Ran(s, DeleteScript(s.local, id), es, s', maxAttempts)
    ensures s'.local.users == s.local.users - {id} && s'.local.inbounds == s.local.inbounds - {id}
    ensures s.local.inbounds[id] == {} ==> s'.table == s.table
    ensures s.local.inbounds[id] != {} ==>
      && s.table <= s'.table && |s'.table| == |s.table| + 1
      && JobFor(s'.table[|s.table|], s.nextId, id, 0, Delete, s.local.users[id])
  {
    var script := DeleteScript(s.local, id);
    var write := [Write(Local(s.local.users - {id}, s.local.inbounds - {id}))];
    RanEnqueues(s, script, es, s', maxAttempts);
    FinalOfDelete(s.local, id);
    assert write[1..] == [] && Specs(write) == [] + Specs([]);
    if s.local.inbounds[id] == {} {
      assert script == write && s'.table[..|s.table|] == s.table;
    } else {
      assert script[1..] == write;
      assert WaitsAs(s'.table[|s.table| + 0], s.nextId + 0, Specs(script)[0]);
      JobOf(s'.table[|s.table|], s.nextId, id, Delete, 0, s.local.users[id]);
    }
  }

  /** Reconciling inbounds: every assign gets a lower id than every unassign, so claims by id carry the
      client over before taking anything away. */
  lemma AssignsComeFirst(
    s: State, id: int, added: seq<int>, removed: seq<int>, es: seq<Event>, s': State, maxAttempts: nat, i: nat)
    requires s.script == [] && id in s.local.users && id in s.local.inbounds
    requires Ran(s, SetInboundsScript(s.local, id, added, removed), es, s', maxAttempts)
    requires i < |added| + |removed|
    ensures |s'.table| == |s.table| + |added| + |removed|
    ensures var j := s'.table[|s.table| + i];
      if i < |added| then JobFor(j, s.nextId + i, id, added[i], Assign, s.local.users[id])
      else JobFor(j, s.nextId + i, id, removed[i - |added|], Unassign, s.local.users[id])
    ensures s'.local.users == s.local.users
    ensures s'.local.inbounds == s.local.inbounds[id := s.local.inbounds[id] + ToSet(added) - ToSet(removed)]
  {
    var script, p := SetInboundsScript(s.local, id, added, removed), PayloadFor(s.local.users[id]);
    var a, r := EnqueueAll(id, Assign, added, p), EnqueueAll(id, Unassign, removed, p);
    RanEnqueues(s, script, es, s', maxAttempts);
    assert script[1..] == a + r;
    SpecsAppend(a, r);
    SpecsOfEnqueueAll(id, Assign, added, p);
    SpecsOfEnqueueAll(id, Unassign, removed, p);
    assert Specs(script) == Specs(a) + Specs(r);
    SetInboundsTodo(s.local, id, added, removed);
    assert WaitsAs(s'.table[|s.table| + i], s.nextId + i, Specs(script)[i]);
    if i < |added| {
      JobOf(s'.table[|s.table| + i], s.nextId + i, id, Assign, added[i], s.local.users[id]);
    } else {
      JobOf(s'.table[|s.table| + i], s.nextId + i, id, Unassign, removed[i - |added|], s.local.users[id]);
    }
  }
}
