/**
 Handlers for one user that overlap, told by what they do to the outbox: one script in which their statements are
 mixed.  For edits, and for reconciliations of inbounds, `Sound` comes down to what is enqueued last.
 */
module Overlaps {
  import opened Jobs
  import opened Options
  import opened Panel
  import opened Users
  import opened Outbox
  import opened Convergence
  import opened Scripts
  import opened Sequences

  // ---------------------------------------------------------------- edits of one user that overlap

  /** A statement of some edit of this user: the row is overwritten, its name kept, or an update enqueued. */
  predicate EditOf(l: Local, id: int, m: Micro)
    requires id in l.users
  {
    match m
    case Write(w) =>
      && id in w.users && w == Local(l.users[id := w.users[id]], l.inbounds)
      && w.users[id].username == l.users[id].username
    case Enqueue(spec) => spec.op == Update && spec.payload.email == l.users[id].username
  }

  predicate EditsOf(l: Local, id: int, script: seq<Micro>)
    requires id in l.users
  {
    forall i :: 0 <= i < |script| ==> EditOf(l, id, script[i])
  }

  /** What the last update of the script pushes. */
  function LastPushed(script: seq<Micro>): Option<Payload> {
    if script == [] then None
    else if script[|script| - 1].Enqueue? then Some(script[|script| - 1].spec.payload)
    else LastPushed(script[..|script| - 1])
  }

  lemma {:induction false} PlayEdits(l: Local, id: int, script: seq<Micro>, c: Client)
    requires id in l.users && EditsOf(l, id, script)
    ensures var cmds, last := Todo(script, l.users[id].username), LastPushed(script);
      && Play(Some(c), cmds) == Some(if last.Some? then c.(fields := FieldsOf(last.value)) else c)
      && PlayAccepted(Some(c), cmds)
    decreases |script|
  {
    var email := l.users[id].username;
    if script == [] {
    } else {
      var init, m := script[..|script| - 1], script[|script| - 1];
      assert script == init + [m] && EditOf(l, id, m);
      PlayEdits(l, id, init, c);
      TodoAppend(init, [m], email);
      OneTodo(m, email);
      PlayAppend(Some(c), Todo(init, email), Todo([m], email));
      if m.Enqueue? {
        OneUpdate(Play(Some(c), Todo(init, email)), SpecCommand(m.spec));
      }
    }
  }

  lemma {:induction false} FinalOfEdits(l: Local, id: int, script: seq<Micro>)
    requires ValidLocal(l) && id in l.users && EditsOf(l, id, script)
    ensures var l' := Final(l, script);
      && ValidLocal(l') && id in l'.users && l' == Local(l.users[id := l'.users[id]], l.inbounds)
      && l'.users[id].username == l.users[id].username
    decreases |script|
  {
    if script == [] {
      assert l.users == l.users[id := l.users[id]];
    } else {
      var init, m := script[..|script| - 1], script[|script| - 1];
      assert script == init + [m] && EditOf(l, id, m) && [m][1..] == [];
      FinalOfEdits(l, id, init);
      FinalAppend(l, init, [m]);
    }
  }

  lemma TodoOfEditsElsewhere(l: Local, id: int, script: seq<Micro>, email: string)
    requires id in l.users && EditsOf(l, id, script) && email != l.users[id].username
    ensures Todo(script, email) == []
    decreases |script|
  {
    if script == [] {
    } else {
      assert EditOf(l, id, script[0]);
      assert forall i :: 0 <= i < |script[1..]| ==> script[1..][i] == script[i + 1];
      TodoOfEditsElsewhere(l, id, script[1..], email);
    }
  }

  /** However the statements of any number of edits of one user are mixed, the panel follows exactly when
      the last update enqueued carries what the row ends up with. */
  lemma OverlappingEditsIff(l: Local, id: int, script: seq<Micro>)
    requires ValidLocal(l) && id in l.users && l.inbounds[id] != {} && EditsOf(l, id, script)
    ensures id in Final(l, script).users
    ensures Sound(l, script) <==>
      FieldsOf(PayloadFor(Final(l, script).users[id])) ==
        FieldsOf(if LastPushed(script).Some? then LastPushed(script).value else PayloadFor(l.users[id]))
  {
    var l', email := Final(l, script), l.users[id].username;
    FinalOfEdits(l, id, script);
    DesiredIs(l, id);
    DesiredIs(l', id);
    PlayEdits(l, id, script, Desired(l, email).value);
    forall other | other != email
      ensures Play(Desired(l, other), Todo(script, other)) == Desired(l', other)
        && PlayAccepted(Desired(l, other), Todo(script, other))
    {
      TodoOfEditsElsewhere(l, id, script, other);
      DesiredElsewhere(l, l', id, other);
    }
  }

  /** A toggle that read its user before an edit landed, and writes and enqueues after it. */
  function StaleToggle(l: Local, id: int, edited: User, enabled: bool, targets: seq<int>): seq<Micro>
    requires id in l.users
  {
    OverwriteScript(l, id, edited, targets) +
    ([Write(Local(l.users[id := edited.(enabled := enabled)], l.inbounds))] +
     EnqueueAll(id, Update, targets, PayloadFor(l.users[id].(enabled := enabled))))
  }

  lemma StaleToggleEnds(l: Local, id: int, edited: User, enabled: bool, targets: seq<int>)
    requires ValidLocal(l) && id in l.users && Lists(targets, l.inbounds[id]) && l.inbounds[id] != {}
    requires edited.username == l.users[id].username
    ensures var script := StaleToggle(l, id, edited, enabled, targets);
      && EditsOf(l, id, script)
      && LastPushed(script) == Some(PayloadFor(l.users[id].(enabled := enabled)))
      && Final(l, script) == Local(l.users[id := edited.(enabled := enabled)], l.inbounds)
      && ValidLocal(Final(l, script))
    ensures Desired(l, edited.username) == Some(Client(FieldsOf(PayloadFor(l.users[id])), l.inbounds[id]))
    ensures Desired(Final(l, StaleToggle(l, id, edited, enabled, targets)), edited.username)
      == Some(Client(FieldsOf(PayloadFor(edited.(enabled := enabled))), l.inbounds[id]))
  {
    var script := StaleToggle(l, id, edited, enabled, targets);
    var last := Local(l.users[id := edited.(enabled := enabled)], l.inbounds);
    var stale := PayloadFor(l.users[id].(enabled := enabled));
    var first, pushes := OverwriteScript(l, id, edited, targets), EnqueueAll(id, Update, targets, stale);
    assert targets != [] by {
      assert targets == [] ==> ToSet(targets) == {};
    }
    assert EditsOf(l, id, script);
    FinalAppend(l, first, [Write(last)] + pushes);
    assert ([Write(last)] + pushes)[1..] == pushes;
    TodoOfEnqueueAll(id, Update, targets, stale, "", last);
    assert script[|script| - 1] == pushes[|pushes| - 1];
    FinalOfEdits(l, id, script);
    DesiredIs(l, id);
    DesiredIs(last, id);
  }

  /** It undoes the edit on the panel, unless the edit changed nothing that is pushed. */
  lemma StaleToggleIff(l: Local, id: int, edited: User, enabled: bool, targets: seq<int>)
    requires ValidLocal(l) && id in l.users && Lists(targets, l.inbounds[id]) && l.inbounds[id] != {}
    requires edited.username == l.users[id].username
    ensures Sound(l, StaleToggle(l, id, edited, enabled, targets)) <==>
      FieldsOf(PayloadFor(edited.(enabled := enabled))) == FieldsOf(PayloadFor(l.users[id].(enabled := enabled)))
  {
    StaleToggleEnds(l, id, edited, enabled, targets);
    OverlappingEditsIff(l, id, StaleToggle(l, id, edited, enabled, targets));
  }

  // ---------------------------------------------------------------- reconciliations of one user that overlap

  /** A statement of some reconciliation of this user's inbounds. */
  predicate ReconcileOf(l: Local, id: int, m: Micro)
    requires id in l.users
  {
    match m
    case Write(w) => id in w.inbounds && w == Local(l.users, l.inbounds[id := w.inbounds[id]])
    case Enqueue(spec) => (spec.op == Assign || spec.op == Unassign) && spec.payload == PayloadFor(l.users[id])
  }

  predicate ReconcilesOf(l: Local, id: int, script: seq<Micro>)
    requires id in l.users
  {
    forall i :: 0 <= i < |script| ==> ReconcileOf(l, id, script[i])
  }

  function JoinedBy(have: set<int>, m: Micro): set<int> {
    if m.Write? then have
    else if m.spec.op == Assign then have + {m.spec.inboundId} else have - {m.spec.inboundId}
  }

  /** The inbounds a client is attached to once these jobs are done. */
  function Joined(have: set<int>, script: seq<Micro>): set<int> {
    if script == [] then have else JoinedBy(Joined(have, script[..|script| - 1]), script[|script| - 1])
  }

  /** The last job about this inbound. */
  function LastAbout(script: seq<Micro>, inbound: int): Option<Op> {
    if script == [] then None
    else if script[|script| - 1].Enqueue? && script[|script| - 1].spec.inboundId == inbound
    then Some(script[|script| - 1].spec.op)
    else LastAbout(script[..|script| - 1], inbound)
  }

  /** In the end the client has an inbound if the last job about it assigns it, or none is and it had it. */
  predicate EndsAttached(have: set<int>, script: seq<Micro>, inbound: int) {
    match LastAbout(script, inbound)
    case Some(op) => op == Assign
    case None => inbound in have
  }

  lemma {:induction false} JoinedIs(have: set<int>, script: seq<Micro>, inbound: int)
    ensures inbound in Joined(have, script) <==> EndsAttached(have, script, inbound)
  {
    if script == [] {
    } else {
      JoinedIs(have, script[..|script| - 1], inbound);
    }
  }

  lemma {:induction false} PlayReconciles(l: Local, id: int, script: seq<Micro>, have: set<int>)
    requires id in l.users && ReconcilesOf(l, id, script)
    ensures var p := PayloadFor(l.users[id]);
      var cmds := Todo(script, p.email);
      && Play(ClientWith(FieldsOf(p), have), cmds) == ClientWith(FieldsOf(p), Joined(have, script))
      && PlayAccepted(ClientWith(FieldsOf(p), have), cmds)
    decreases |script|
  {
    var p := PayloadFor(l.users[id]);
    if script == [] {
    } else {
      var init, m := script[..|script| - 1], script[|script| - 1];
      assert script == init + [m] && ReconcileOf(l, id, m);
      PlayReconciles(l, id, init, have);
      TodoAppend(init, [m], p.email);
      OneTodo(m, p.email);
      PlayAppend(ClientWith(FieldsOf(p), have), Todo(init, p.email), Todo([m], p.email));
      if m.Enqueue? {
        OneReconcile(Joined(have, init), FieldsOf(p), SpecCommand(m.spec));
      }
    }
  }

  lemma OneReconcile(have: set<int>, f: Fields, cmd: Command)
    requires (cmd.op == Assign || cmd.op == Unassign) && cmd.fields == f
    ensures var after := if cmd.op == Assign then have + {cmd.inbound} else have - {cmd.inbound};
      Play(ClientWith(f, have), [cmd]) == ClientWith(f, after) && PlayAccepted(ClientWith(f, have), [cmd])
  {
    OneStep(ClientWith(f, have), cmd);
    NothingLeft(have, {cmd.inbound});
    assert have == {} ==> have + {cmd.inbound} == {cmd.inbound} && have - {cmd.inbound} == {};
    assert cmd.inbound in have + {cmd.inbound};
  }

  lemma {:induction false} FinalOfReconciles(l: Local, id: int, script: seq<Micro>)
    requires ValidLocal(l) && id in l.users && ReconcilesOf(l, id, script)
    ensures var l' := Final(l, script);
      && ValidLocal(l') && id in l'.inbounds && l' == Local(l.users, l.inbounds[id := l'.inbounds[id]])
    decreases |script|
  {
    if script == [] {
      assert l.inbounds == l.inbounds[id := l.inbounds[id]];
    } else {
      var init, m := script[..|script| - 1], script[|script| - 1];
      assert script == init + [m] && ReconcileOf(l, id, m) && [m][1..] == [];
      FinalOfReconciles(l, id, init);
      FinalAppend(l, init, [m]);
    }
  }

  lemma {:induction false} TodoOfReconcilesElsewhere(l: Local, id: int, script: seq<Micro>, email: string)
    requires id in l.users && ReconcilesOf(l, id, script) && email != l.users[id].username
    ensures Todo(script, email) == []
    decreases |script|
  {
    if script == [] {
    } else {
      assert ReconcileOf(l, id, script[0]);
      assert forall i :: 0 <= i < |script[1..]| ==> script[1..][i] == script[i + 1];
      TodoOfReconcilesElsewhere(l, id, script[1..], email);
    }
  }

  /** However the statements of any number of reconciliations of one user are mixed, the panel follows exactly
      when, inbound by inbound, the last job about it agrees with what the table ends up with. */
  lemma OverlappingReconcilesIff(l: Local, id: int, script: seq<Micro>)
    requires ValidLocal(l) && id in l.users && ReconcilesOf(l, id, script)
    ensures id in Final(l, script).inbounds
    ensures Sound(l, script) <==>
      forall n :: n in Final(l, script).inbounds[id] <==> EndsAttached(l.inbounds[id], script, n)
  {
    FinalOfReconciles(l, id, script);
    JoinedDecides(l, id, script);
    var end, joined := Final(l, script).inbounds[id], Joined(l.inbounds[id], script);
    forall n ensures n in joined <==> EndsAttached(l.inbounds[id], script, n) {
      JoinedIs(l.inbounds[id], script, n);
    }
    SameMembersIff(end, joined);
  }

  lemma SameMembersIff(a: set<int>, b: set<int>)
    ensures a == b <==> forall n :: n in a <==> n in b
  {
    if forall n :: n in a <==> n in b {
      forall n | n in a ensures n in b {}
      forall n | n in b ensures n in a {}
      assert a <= b && b <= a;
    }
  }

  lemma JoinedDecides(l: Local, id: int, script: seq<Micro>)
    requires ValidLocal(l) && id in l.users && ReconcilesOf(l, id, script)
    ensures id in Final(l, script).inbounds
    ensures Sound(l, script) <==> Final(l, script).inbounds[id] == Joined(l.inbounds[id], script)
  {
    var l', p := Final(l, script), PayloadFor(l.users[id]);
    FinalOfReconciles(l, id, script);
    DesiredIs(l, id);
    DesiredIs(l', id);
    PlayReconciles(l, id, script, l.inbounds[id]);
    forall other | other != p.email
      ensures Play(Desired(l, other), Todo(script, other)) == Desired(l', other)
        && PlayAccepted(Desired(l, other), Todo(script, other))
    {
      TodoOfReconcilesElsewhere(l, id, script, other);
      DesiredElsewhere(l, l', id, other);
    }
  }

  /** The jobs of one reconciliation. */
  function Delta(l: Local, id: int, added: seq<int>, removed: seq<int>): seq<Micro>
    requires id in l.users
  {
    EnqueueAll(id, Assign, added, PayloadFor(l.users[id])) + EnqueueAll(id, Unassign, removed, PayloadFor(l.users[id]))
  }

  lemma {:induction false} JoinedAppend(have: set<int>, a: seq<Micro>, b: seq<Micro>)
    ensures Joined(have, a + b) == Joined(Joined(have, a), b)
    decreases |b|
  {
    if b == [] {
      assert a + b == a;
    } else {
      assert (a + b)[..|a + b| - 1] == a + b[..|b| - 1];
      JoinedAppend(have, a, b[..|b| - 1]);
    }
  }

  lemma {:induction false} JoinedAll(have: set<int>, id: int, op: Op, ids: seq<int>, p: Payload)
    requires op == Assign || op == Unassign
    ensures Joined(have, EnqueueAll(id, op, ids, p)) == if op == Assign then have + ToSet(ids) else have - ToSet(ids)
    decreases |ids|
  {
    var script := EnqueueAll(id, op, ids, p);
    if ids == [] {
      assert have + ToSet(ids) == have - ToSet(ids) == have;
    } else {
      var init, last := ids[..|ids| - 1], ids[|ids| - 1];
      JoinedAll(have, id, op, init, p);
      assert script[..|script| - 1] == EnqueueAll(id, op, init, p) && script[|script| - 1].spec.inboundId == last;
      assert ids == init + [last];
      ToSetSnoc(init, last);
      assert have + ToSet(init) + {last} == have + ToSet(ids);
      assert have - ToSet(init) - {last} == have - ToSet(ids);
    }
  }

  lemma JoinedDelta(have: set<int>, l: Local, id: int, added: seq<int>, removed: seq<int>)
    requires id in l.users
    ensures Joined(have, Delta(l, id, added, removed)) == have + ToSet(added) - ToSet(removed)
  {
    var p := PayloadFor(l.users[id]);
    JoinedAppend(have, EnqueueAll(id, Assign, added, p), EnqueueAll(id, Unassign, removed, p));
    JoinedAll(have, id, Assign, added, p);
    JoinedAll(have + ToSet(added), id, Unassign, removed, p);
  }

  function Reconciled(l: Local, id: int, added: seq<int>, removed: seq<int>): Local
    requires id in l.inbounds
  {
    Local(l.users, l.inbounds[id := l.inbounds[id] + ToSet(added) - ToSet(removed)])
  }

  /** Two reconciliations one after the other in the tables, whose jobs are enqueued the other way round. */
  function Crossed(l: Local, id: int, add1: seq<int>, remove1: seq<int>, add2: seq<int>, remove2: seq<int>): seq<Micro>
    requires id in l.users && id in l.inbounds
  {
    var l1 := Reconciled(l, id, add1, remove1);
    [Write(l1), Write(Reconciled(l1, id, add2, remove2))] + (Delta(l, id, add2, remove2) + Delta(l, id, add1, remove1))
  }

  /** That does harm exactly when the second takes back something the first did. */
  lemma CrossedReconcilesIff(
    l: Local, id: int, add1: seq<int>, remove1: seq<int>, add2: seq<int>, remove2: seq<int>)
    requires ValidLocal(l) && id in l.users && Reconciles(l, id, add1, remove1)
    requires Reconciles(Reconciled(l, id, add1, remove1), id, add2, remove2)
    ensures Sound(l, Crossed(l, id, add1, remove1, add2, remove2)) <==>
      ToSet(add1) !! ToSet(remove2) && ToSet(remove1) !! ToSet(add2)
  {
    var l1 := Reconciled(l, id, add1, remove1);
    var l2 := Reconciled(l1, id, add2, remove2);
    var writes, jobs := [Write(l1), Write(l2)], Delta(l, id, add2, remove2) + Delta(l, id, add1, remove1);
    var script, have := Crossed(l, id, add1, remove1, add2, remove2), l.inbounds[id];
    assert ReconcilesOf(l, id, script);
    JoinedDecides(l, id, script);
    FinalOfCrossed(l, l1, l2, jobs, id);
    JoinedAppend(have, writes, jobs);
    assert Joined(have, writes) == have by {
      assert writes[..1] == [Write(l1)] && writes[..1][..0] == [];
      assert Joined(have, writes) == JoinedBy(Joined(have, writes[..1]), writes[1]);
      assert Joined(have, [Write(l1)]) == JoinedBy(Joined(have, []), Write(l1));
    }
    JoinedAppend(have, Delta(l, id, add2, remove2), Delta(l, id, add1, remove1));
    JoinedDelta(have, l, id, add2, remove2);
    JoinedDelta(have + ToSet(add2) - ToSet(remove2), l, id, add1, remove1);
    OppositeOrdersIff(have, ToSet(add1), ToSet(remove1), ToSet(add2), ToSet(remove2));
  }

  lemma FinalOfCrossed(l: Local, l1: Local, l2: Local, jobs: seq<Micro>, id: int)
    requires forall i :: 0 <= i < |jobs| ==> jobs[i].Enqueue?
    ensures Final(l, [Write(l1), Write(l2)] + jobs) == l2
  {
    var script := [Write(l1), Write(l2)] + jobs;
    assert script[1..] == [Write(l2)] + jobs && script[1..][1..] == jobs;
    FinalOfJobs(l2, jobs);
  }

  lemma {:induction false} FinalOfJobs(l: Local, jobs: seq<Micro>)
    requires forall i :: 0 <= i < |jobs| ==> jobs[i].Enqueue?
    ensures Final(l, jobs) == l
    decreases |jobs|
  {
    if jobs == [] {
    } else {
      FinalOfJobs(l, jobs[1..]);
    }
  }

  lemma OppositeOrdersIff(have: set<int>, a1: set<int>, r1: set<int>, a2: set<int>, r2: set<int>)
    requires a1 !! have && r1 <= have && a2 !! have + a1 - r1 && r2 <= have + a1 - r1
    ensures have + a1 - r1 + a2 - r2 == have + a2 - r2 + a1 - r1 <==> a1 !! r2 && r1 !! a2
  {
    if n :| n in a1 && n in r2 {
      assert n in have + a2 - r2 + a1 - r1 && n !in have + a1 - r1 + a2 - r2;
    }
    if n :| n in r1 && n in a2 {
      assert n in have + a1 - r1 + a2 - r2 && n !in have + a2 - r2 + a1 - r1;
    }
  }

  // ---------------------------------------------------------------- a reconciliation that read an old user

  /** A reconciliation that read its user before an edit landed, and writes and enqueues after it. */
  function StaleReconcile(
    l: Local, id: int, edited: User, targets: seq<int>, added: seq<int>, removed: seq<int>): seq<Micro>
    requires id in l.users && id in l.inbounds
  {
    var l1 := Local(l.users[id := edited], l.inbounds);
    OverwriteScript(l, id, edited, targets) +
    ([Write(Reconciled(l1, id, added, removed))] + Delta(l, id, added, removed))
  }

  /** It creates the client with the old fields: harmful exactly when there was no client for the edit to reach. */
  lemma StaleReconcileIff(
    l: Local, id: int, edited: User, targets: seq<int>, added: seq<int>, removed: seq<int>)
    requires ValidLocal(l) && id in l.users && edited.username == l.users[id].username
    requires Lists(targets, l.inbounds[id]) && Reconciles(l, id, added, removed)
    ensures Sound(l, StaleReconcile(l, id, edited, targets, added, removed)) <==>
      l.inbounds[id] != {} || added == [] || FieldsOf(PayloadFor(edited)) == FieldsOf(PayloadFor(l.users[id]))
  {
    var script := StaleReconcile(l, id, edited, targets, added, removed);
    var l1 := Local(l.users[id := edited], l.inbounds);
    var l' := Reconciled(l1, id, added, removed);
    var was, now := FieldsOf(PayloadFor(l.users[id])), FieldsOf(PayloadFor(edited));
    StaleReconcileTodo(l, id, edited, targets, added, removed);
    DesiredIs(l, id);
    DesiredIs(l', id);
    PlayStale(l.inbounds[id], targets, added, removed, was, now);
    forall other | other != edited.username
      ensures Play(Desired(l, other), Todo(script, other)) == Desired(l', other)
        && PlayAccepted(Desired(l, other), Todo(script, other))
    {
      DesiredElsewhere(l, l', id, other);
    }
  }

  /** Updates with the new fields, then the delta with the old ones. */
  function StaleCommands(
    targets: seq<int>, added: seq<int>, removed: seq<int>, was: Fields, now: Fields): seq<Command>
  {
    Commands(Update, targets, now) + (Commands(Assign, added, was) + Commands(Unassign, removed, was))
  }

  lemma StaleReconcileTodo(
    l: Local, id: int, edited: User, targets: seq<int>, added: seq<int>, removed: seq<int>)
    requires id in l.users && id in l.inbounds && edited.username == l.users[id].username
    ensures var script := StaleReconcile(l, id, edited, targets, added, removed);
      && Final(l, script) == Reconciled(Local(l.users[id := edited], l.inbounds), id, added, removed)
      && forall email :: Todo(script, email) ==
           if email != edited.username then []
           else StaleCommands(targets, added, removed, FieldsOf(PayloadFor(l.users[id])), FieldsOf(PayloadFor(edited)))
  {
    var l1, p := Local(l.users[id := edited], l.inbounds), PayloadFor(l.users[id]);
    var first := OverwriteScript(l, id, edited, targets);
    var second := [Write(Reconciled(l1, id, added, removed))] + Delta(l, id, added, removed);
    OverwriteTodo(l, id, edited, targets);
    DeltaTodo(l1, Reconciled(l1, id, added, removed), id, added, removed, p);
    FinalAppend(l, first, second);
    forall email ensures Todo(first + second, email) == Todo(first, email) + Todo(second, email) {
      TodoAppend(first, second, email);
    }
  }

  lemma PlayStale(have: set<int>, targets: seq<int>, added: seq<int>, removed: seq<int>, was: Fields, now: Fields)
    requires Lists(targets, have) && ToSet(removed) <= have
    ensures PlayAccepted(ClientWith(was, have), StaleCommands(targets, added, removed, was, now))
    ensures Play(ClientWith(was, have), StaleCommands(targets, added, removed, was, now))
        == ClientWith(now, have + ToSet(added) - ToSet(removed))
      <==> have != {} || added == [] || now == was
  {
    var c, rest := ClientWith(was, have), Commands(Assign, added, was) + Commands(Unassign, removed, was);
    NoneListed(targets);
    NoneListed(removed);
    NoneListed(added);
    PlayAppend(c, Commands(Update, targets, now), rest);
    PlayUpdates(c, targets, now);
    if have == {} {
      PlayDelta(have, added, removed, was);
      assert ToSet(removed) == {} && have + ToSet(added) - ToSet(removed) == ToSet(added);
    } else {
      PlayDeltaKeepsFields(Client(now, have), added, removed, was);
    }
  }

  lemma NoneListed(ids: seq<int>)
    ensures ToSet(ids) == {} <==> ids == []
  {
    if ids != [] {
      assert ids[0] in ToSet(ids);
    }
  }

  lemma PlayDeltaKeepsFields(c: Client, added: seq<int>, removed: seq<int>, f: Fields)
    requires c.inbounds != {}
    ensures var cmds := Commands(Assign, added, f) + Commands(Unassign, removed, f);
      && Play(Some(c), cmds) == ClientWith(c.fields, c.inbounds + ToSet(added) - ToSet(removed))
      && PlayAccepted(Some(c), cmds)
  {
    PlayAppend(Some(c), Commands(Assign, added, f), Commands(Unassign, removed, f));
    PlayAssigns(Some(c), added, f);
    var all := c.inbounds + ToSet(added);
    assert added == [] ==> all == c.inbounds;
    assert all != {} by {
      NothingLeft(c.inbounds, all);
    }
    PlayDetaches(Some(Client(c.fields, all)), removed, f);
    NothingLeft(all, ToSet(removed));
  }
}
