/**
 The bulk actions of the user list (internal/admin/handlers_users.go:816): one action, visited user by user.
 */
module Bulk {
  import opened Jobs
  import opened Users
  import opened Outbox
  import opened Convergence
  import opened Scripts
  import opened HandlerRuns

  predicate KnownAction(action: string) {
    action in ["enable", "disable", "reset_traffic", "delete"]
  }

  lemma KnownActionsAre(action: string)
    ensures KnownAction(action) <==>
      action == "enable" || action == "disable" || action == "reset_traffic" || action == "delete"
  {
  }

  function AfterBulk(l: Local, id: int, action: string): Local {
    if id !in l.users then l
    else if action == "enable" || action == "disable"
    then Local(l.users[id := l.users[id].(enabled := action == "enable")], l.inbounds)
    else if action == "delete" then Local(l.users - {id}, l.inbounds - {id})
    else l
  }

  function AfterBulkAll(l: Local, ids: seq<int>, action: string): Local {
    if ids == [] then l
    else AfterBulk(AfterBulkAll(l, ids[..|ids| - 1], action), ids[|ids| - 1], action)
  }

  function Switched(u: User, asked: bool, action: string): User {
    if asked && action == "enable" then u.(enabled := true)
    else if asked && action == "disable" then u.(enabled := false)
    else u
  }

  /** A bulk action does to every listed user that exists what its name says, and nothing to anyone else. */
  lemma {:induction false} BulkDoesWhatItSays(l: Local, ids: seq<int>, action: string, id: int)
    requires l.inbounds.Keys == l.users.Keys
    ensures var l', asked := AfterBulkAll(l, ids, action), id in ids;
      && (id in l'.users <==> id in l.users && !(asked && action == "delete"))
      && (id in l'.inbounds <==> id in l'.users)
      && (id in l'.users ==> l'.inbounds[id] == l.inbounds[id] && l'.users[id] == Switched(l.users[id], asked, action))
  {
    if ids == [] {
    } else {
      var init, last := ids[..|ids| - 1], ids[|ids| - 1];
      BulkDoesWhatItSays(l, init, action, id);
      assert ids == init + [last];
      assert id in ids <==> id in init || id == last;
      BulkDoesWhatItSays(l, init, action, last);
    }
  }

  // ---------------------------------------------------------------- visiting the listed users

  /** The statements of one visit. */
  function BulkScript(l: Local, id: int, action: string, targets: seq<int>): seq<Micro>
    requires id in l.users && id in l.inbounds
  {
    if action == "reset_traffic" then ResetScript(l, id, targets)
    else if action == "delete" then DeleteScript(l, id)
    else OverwriteScript(l, id, l.users[id].(enabled := action == "enable"), targets)
  }

  /** One visit: the action's handler ran on a user that exists; otherwise nothing happened. */
  ghost predicate Visited(
    s: State, id: int, action: string, targets: seq<int>, es: seq<Event>, s': State, maxAttempts: nat)
  {
    if id in s.local.users && KnownAction(action) then
      && id in s.local.inbounds && (action != "delete" ==> Lists(targets, s.local.inbounds[id]))
      && Ran(s, BulkScript(s.local, id, action, targets), es, s', maxAttempts)
    else es == [] && s' == s
  }

  datatype Visit = Visit(targets: seq<int>, es: seq<Event>, after: State)

  function Before(s: State, visits: seq<Visit>, k: nat): State
    requires k <= |visits|
  {
    if k == 0 then s else visits[k - 1].after
  }

  function EventsOf(visits: seq<Visit>): seq<Event> {
    if visits == [] then [] else EventsOf(visits[..|visits| - 1]) + visits[|visits| - 1].es
  }

  /** Every listed user was visited, in the order of the list. */
  ghost predicate BulkRuns(s: State, ids: seq<int>, action: string, visits: seq<Visit>, maxAttempts: nat) {
    |visits| == |ids| && forall i :: 0 <= i < |ids| ==> VisitedAt(s, ids, action, visits, i, maxAttempts)
  }

  ghost predicate VisitedAt(s: State, ids: seq<int>, action: string, visits: seq<Visit>, i: nat, maxAttempts: nat)
    requires |visits| == |ids| && i < |ids|
  {
    Visited(Before(s, visits, i), ids[i], action, visits[i].targets, visits[i].es, visits[i].after, maxAttempts)
  }

  lemma OneMoreVisit(
    s: State, ids: seq<int>, action: string, visits: seq<Visit>, id: int, visit: Visit, maxAttempts: nat)
    requires BulkRuns(s, ids, action, visits, maxAttempts)
    requires Visited(Before(s, visits, |visits|), id, action, visit.targets, visit.es, visit.after, maxAttempts)
    ensures BulkRuns(s, ids + [id], action, visits + [visit], maxAttempts)
  {
    forall i | 0 <= i < |ids + [id]| ensures VisitedAt(s, ids + [id], action, visits + [visit], i, maxAttempts) {
      if i < |ids| {
        assert VisitedAt(s, ids, action, visits, i, maxAttempts);
      }
    }
  }

  /** A reset is right for an enabled user and for one without inbounds. */
  predicate ResetIsRight(l: Local, id: int) {
    id in l.users && id in l.inbounds ==> l.users[id].enabled || l.inbounds[id] == {}
  }

  lemma VisitDoes(
    s: State, id: int, action: string, targets: seq<int>, es: seq<Event>, s': State, maxAttempts: nat)
    requires s.script == [] && ValidLocal(s.local) && Visited(s, id, action, targets, es, s', maxAttempts)
    ensures s'.script == [] && s'.local == AfterBulk(s.local, id, action) && ValidLocal(s'.local)
    ensures Reaches(s, es, s', maxAttempts)
    ensures OrderlyRun(s, es, s', maxAttempts) <==> (action == "reset_traffic" ==> ResetIsRight(s.local, id))
  {
    if id in s.local.users && KnownAction(action) {
      if action == "reset_traffic" {
        ResetIsSoundIff(s.local, id, targets);
        TodoOfEnqueueAll(id, ResetTraffic, targets, PayloadFor(s.local.users[id]), "", s.local);
      } else if action == "delete" {
        DeleteIsSound(s.local, id);
        FinalOfDelete(s.local, id);
      } else {
        var u := s.local.users[id].(enabled := action == "enable");
        OverwriteIsSoundIff(s.local, id, u, targets);
        OverwriteTodo(s.local, id, u, targets);
      }
    }
  }

  lemma {:induction false} BulkReaches(
    s: State, ids: seq<int>, action: string, visits: seq<Visit>, k: nat, maxAttempts: nat)
    requires s.script == [] && ValidLocal(s.local) && BulkRuns(s, ids, action, visits, maxAttempts) && k <= |ids|
    ensures var m := Before(s, visits, k);
      && Reaches(s, EventsOf(visits[..k]), m, maxAttempts)
      && m.script == [] && ValidLocal(m.local) && m.local == AfterBulkAll(s.local, ids[..k], action)
  {
    if k == 0 {
      assert visits[..0] == [] && ids[..0] == [];
    } else {
      var m, v := Before(s, visits, k - 1), visits[k - 1];
      BulkReaches(s, ids, action, visits, k - 1, maxAttempts);
      assert VisitedAt(s, ids, action, visits, k - 1, maxAttempts);
      VisitDoes(m, ids[k - 1], action, v.targets, v.es, v.after, maxAttempts);
      ReachesThen(s, EventsOf(visits[..k - 1]), m, v.es, v.after, maxAttempts);
      assert visits[..k][..k - 1] == visits[..k - 1] && ids[..k][..k - 1] == ids[..k - 1];
    }
  }

  lemma {:induction false} ResetsChangeNoRow(l: Local, ids: seq<int>)
    ensures AfterBulkAll(l, ids, "reset_traffic") == l
  {
    if ids == [] {
    } else {
      ResetsChangeNoRow(l, ids[..|ids| - 1]);
    }
  }

  ghost predicate PrefixIsOrderly(s: State, visits: seq<Visit>, k: nat, maxAttempts: nat)
    requires k <= |visits|
  {
    OrderlyRun(s, EventsOf(visits[..k]), Before(s, visits, k), maxAttempts)
  }

  lemma OneMoreIsOrderlyIff(s: State, ids: seq<int>, action: string, visits: seq<Visit>, k: nat, maxAttempts: nat)
    requires s.script == [] && ValidLocal(s.local) && BulkRuns(s, ids, action, visits, maxAttempts) && k < |ids|
    ensures PrefixIsOrderly(s, visits, k + 1, maxAttempts) <==>
      PrefixIsOrderly(s, visits, k, maxAttempts) && VisitIsRight(s.local, ids[k], action)
  {
    BulkReaches(s, ids, action, visits, k, maxAttempts);
    VisitIsOrderlyIff(s, ids, action, visits, k, maxAttempts);
    assert visits[..k + 1][..k] == visits[..k];
    OrderlySplitIff(s, EventsOf(visits[..k]), Before(s, visits, k), visits[k].es, visits[k].after, maxAttempts);
  }

  predicate VisitIsRight(l: Local, id: int, action: string) {
    action == "reset_traffic" ==> ResetIsRight(l, id)
  }

  /** What grows by one condition at a time is the conjunction of all of them. */
  lemma {:induction false} AllSoFar(p: nat -> bool, q: nat -> bool, n: nat)
    requires p(0) && forall i: nat, j: nat :: i + 1 == j <= n ==> (p(j) <==> p(i) && q(i))
    ensures p(n) <==> forall i: nat :: i < n ==> q(i)
  {
    if n == 0 {
    } else {
      AllSoFar(p, q, n - 1);
      assert p(n) <==> p(n - 1) && q(n - 1);
    }
  }

  predicate ResetsAreRight(l: Local, ids: seq<int>, action: string) {
    action == "reset_traffic" ==> forall i :: 0 <= i < |ids| ==> ResetIsRight(l, ids[i])
  }

  lemma VisitIsOrderlyIff(s: State, ids: seq<int>, action: string, visits: seq<Visit>, i: nat, maxAttempts: nat)
    requires s.script == [] && ValidLocal(s.local) && BulkRuns(s, ids, action, visits, maxAttempts) && i < |ids|
    ensures OrderlyRun(Before(s, visits, i), visits[i].es, visits[i].after, maxAttempts) <==>
      VisitIsRight(s.local, ids[i], action)
  {
    var m, v := Before(s, visits, i), visits[i];
    BulkReaches(s, ids, action, visits, i, maxAttempts);
    assert VisitedAt(s, ids, action, visits, i, maxAttempts);
    VisitDoes(m, ids[i], action, v.targets, v.es, v.after, maxAttempts);
    if action == "reset_traffic" {
      ResetsChangeNoRow(s.local, ids[..i]);
    }
  }

  /** A bulk action keeps the panel on course, always, except a reset, which does exactly when every listed user
      that exists is enabled or has no inbound. */
  lemma BulkIsOrderlyIff(s: State, ids: seq<int>, action: string, visits: seq<Visit>, maxAttempts: nat)
    requires s.script == [] && ValidLocal(s.local) && BulkRuns(s, ids, action, visits, maxAttempts)
    ensures OrderlyRun(s, EventsOf(visits), Before(s, visits, |visits|), maxAttempts) <==>
      ResetsAreRight(s.local, ids, action)
  {
    ghost var p := (k: nat) => k <= |visits| && PrefixIsOrderly(s, visits, k, maxAttempts);
    ghost var q := (k: nat) => k < |ids| && VisitIsRight(s.local, ids[k], action);
    assert p(0) by {
      assert visits[..0] == [];
    }
    forall i: nat, j: nat | i + 1 == j <= |ids| ensures p(j) <==> p(i) && q(i) {
      OneMoreIsOrderlyIff(s, ids, action, visits, i, maxAttempts);
    }
    AllSoFar(p, q, |ids|);
    assert visits[..|ids|] == visits;
    assert forall i: nat :: i < |ids| ==> (q(i) <==> VisitIsRight(s.local, ids[i], action));
  }

  // ---------------------------------------------------------------- the jobs of a bulk action

  function BulkOp(action: string): Op {
    if action == "reset_traffic" then ResetTraffic else if action == "delete" then Delete else Update
  }

  /** The job a visit owes for one inbound; a deletion owes one for all of them. */
  function Owed(l: Local, id: int, action: string, inbound: int): Spec
    requires id in l.users
  {
    Spec(id, if action == "delete" then 0 else inbound, BulkOp(action), PayloadFor(Switched(l.users[id], true, action)))
  }

  /** The same column by column: the inbound, except for a deletion, the operation of the action, and the user with
      the flag as the action sets it. */
  predicate IsOwed(j: Job, l: Local, id: int, action: string, inbound: int)
    requires id in l.users
  {
    var u := l.users[id];
    && j.userId == id && j.status == Pending
    && (action == "delete" ==> j.op == Delete && j.inboundId == 0 && CarriesUser(j.payload, u))
    && (action == "reset_traffic" ==> j.op == ResetTraffic && j.inboundId == inbound && CarriesUser(j.payload, u))
    && (action == "enable" ==>
          j.op == Update && j.inboundId == inbound && CarriesUser(j.payload, u.(enabled := true)))
    && (action == "disable" ==>
          j.op == Update && j.inboundId == inbound && CarriesUser(j.payload, u.(enabled := false)))
  }

  lemma OwedIs(j: Job, l: Local, id: int, action: string, inbound: int)
    requires id in l.users && SpecOf(j) == Owed(l, id, action, inbound) && j.status == Pending
    ensures IsOwed(j, l, id, action, inbound)
  {
    var u := Switched(l.users[id], true, action);
    assert SpecOf(j).payload == PayloadFor(u) && SpecOf(j).op == BulkOp(action);
    PayloadCarriesUser(u);
  }

  /** The job was added to the table after its first n rows. */
  ghost predicate Added(t: seq<Job>, n: nat, spec: Spec) {
    exists i :: n <= i < |t| && SpecOf(t[i]) == spec && t[i].status == Pending
  }

  lemma SpecsOfVisit(l: Local, id: int, action: string, targets: seq<int>)
    requires id in l.users && id in l.inbounds && KnownAction(action)
    ensures var specs := Specs(BulkScript(l, id, action, targets));
      if action == "delete" then specs == if l.inbounds[id] == {} then [] else [Owed(l, id, action, 0)]
      else |specs| == |targets| && forall i :: 0 <= i < |targets| ==> specs[i] == Owed(l, id, action, targets[i])
  {
    var script, p := BulkScript(l, id, action, targets), PayloadFor(Switched(l.users[id], true, action));
    if action == "delete" {
      var write := [Write(Local(l.users - {id}, l.inbounds - {id}))];
      assert write[1..] == [] && Specs(write) == [] + Specs([]);
      if l.inbounds[id] != {} {
        assert script[1..] == write;
      } else {
        assert script == write;
      }
    } else {
      SpecsOfEnqueueAll(id, BulkOp(action), targets, p);
      if action != "reset_traffic" {
        assert script[1..] == EnqueueAll(id, Update, targets, p);
      }
    }
  }

  /** What one visit adds to the table: all it owes, and nothing for anyone else. */
  lemma VisitAdds(
    s: State, id: int, action: string, targets: seq<int>, es: seq<Event>, s': State, maxAttempts: nat)
    requires s.script == [] && Visited(s, id, action, targets, es, s', maxAttempts)
    ensures s.table <= s'.table
    ensures forall i :: |s.table| <= i < |s'.table| ==> s'.table[i].userId == id && s'.table[i].op == BulkOp(action)
    ensures id in s.local.users && id in s.local.inbounds && KnownAction(action) ==>
      forall n :: n in s.local.inbounds[id] ==> Added(s'.table, |s.table|, Owed(s.local, id, action, n))
  {
    if id in s.local.users && KnownAction(action) {
      var l, script := s.local, BulkScript(s.local, id, action, targets);
      var specs := Specs(script);
      RanEnqueues(s, script, es, s', maxAttempts);
      SpecsOfVisit(l, id, action, targets);
      forall i | |s.table| <= i < |s'.table| ensures s'.table[i].userId == id && s'.table[i].op == BulkOp(action) {
        assert WaitsAs(s'.table[|s.table| + (i - |s.table|)], s.nextId + (i - |s.table|), specs[i - |s.table|]);
      }
      forall n | n in l.inbounds[id] ensures Added(s'.table, |s.table|, Owed(l, id, action, n)) {
        var k: nat := 0;
        if action != "delete" {
          assert n in ToSet(targets);
          k :| 0 <= k < |targets| && targets[k] == n;
        }
        assert WaitsAs(s'.table[|s.table| + k], s.nextId + k, specs[k]);
      }
    }
  }

  lemma {:induction false} BulkTableGrows(
    s: State, ids: seq<int>, action: string, visits: seq<Visit>, i: nat, k: nat, maxAttempts: nat)
    requires s.script == [] && ValidLocal(s.local) && BulkRuns(s, ids, action, visits, maxAttempts)
    requires i <= k <= |ids|
    ensures Before(s, visits, i).table <= Before(s, visits, k).table
    ensures forall r :: |Before(s, visits, i).table| <= r < |Before(s, visits, k).table| ==>
      Before(s, visits, k).table[r].userId in ids && Before(s, visits, k).table[r].op == BulkOp(action)
    decreases k
  {
    if i == k {
    } else {
      var m, v := Before(s, visits, k - 1), visits[k - 1];
      BulkTableGrows(s, ids, action, visits, i, k - 1, maxAttempts);
      BulkReaches(s, ids, action, visits, k - 1, maxAttempts);
      assert VisitedAt(s, ids, action, visits, k - 1, maxAttempts);
      VisitAdds(m, ids[k - 1], action, v.targets, v.es, v.after, maxAttempts);
    }
  }

  /** Every listed user that exists gets a job for each of its inbounds, carrying what the action makes of the
      user (the first visit counts, when a deletion is listed twice), and nobody else gets one. */
  lemma BulkEnqueues(s: State, ids: seq<int>, action: string, visits: seq<Visit>, maxAttempts: nat)
    requires s.script == [] && ValidLocal(s.local) && BulkRuns(s, ids, action, visits, maxAttempts)
    requires KnownAction(action)
    ensures var t := Before(s, visits, |visits|).table;
      && s.table <= t
      && (forall r :: |s.table| <= r < |t| ==> t[r].userId in ids && t[r].op == BulkOp(action))
      && (forall id, n :: id in ids && id in s.local.users && n in s.local.inbounds[id] ==>
            exists i :: |s.table| <= i < |t| && IsOwed(t[i], s.local, id, action, n))
  {
    BulkTableGrows(s, ids, action, visits, 0, |ids|, maxAttempts);
    forall id, n | id in ids && id in s.local.users && n in s.local.inbounds[id]
      ensures var t := Before(s, visits, |visits|).table;
        exists i :: |s.table| <= i < |t| && IsOwed(t[i], s.local, id, action, n)
    {
      BulkEnqueuesOne(s, ids, action, visits, id, n, maxAttempts);
      var t := Before(s, visits, |visits|).table;
      var i :| |s.table| <= i < |t| && SpecOf(t[i]) == Owed(s.local, id, action, n) && t[i].status == Pending;
      OwedIs(t[i], s.local, id, action, n);
    }
  }

  lemma FirstIndex(ids: seq<int>, id: int) returns (i: nat)
    requires id in ids
    ensures i < |ids| && ids[i] == id && id !in ids[..i]
  {
    if ids[0] == id {
      i := 0;
    } else {
      var j := FirstIndex(ids[1..], id);
      i := j + 1;
      assert ids[..i] == [ids[0]] + ids[1..][..j];
    }
  }

  lemma BulkEnqueuesOne(
    s: State, ids: seq<int>, action: string, visits: seq<Visit>, id: int, n: int, maxAttempts: nat)
    requires s.script == [] && ValidLocal(s.local) && BulkRuns(s, ids, action, visits, maxAttempts)
    requires KnownAction(action) && id in ids && id in s.local.users && n in s.local.inbounds[id]
    ensures Added(Before(s, visits, |visits|).table, |s.table|, Owed(s.local, id, action, n))
  {
    var i := FirstIndex(ids, id);
    var m, v := Before(s, visits, i), visits[i];
    BulkReaches(s, ids, action, visits, i, maxAttempts);
    BulkDoesWhatItSays(s.local, ids[..i], action, id);
    assert VisitedAt(s, ids, action, visits, i, maxAttempts);
    VisitAdds(m, id, action, v.targets, v.es, v.after, maxAttempts);
    BulkTableGrows(s, ids, action, visits, 0, i, maxAttempts);
    BulkTableGrows(s, ids, action, visits, i + 1, |ids|, maxAttempts);
    var t, t' := v.after.table, Before(s, visits, |visits|).table;
    var r :| |m.table| <= r < |t| && SpecOf(t[r]) == Owed(s.local, id, action, n) && t[r].status == Pending;
    assert t'[r] == t[r];
  }
}
