/**
 What the admin handlers write and enqueue, in which order (internal/admin/handlers_users.go),
 and when that keeps the panel on course (`Convergence.Sound`).
 */
module Scripts {
  import opened Jobs
  import opened Options
  import opened Panel
  import opened Users
  import opened Outbox
  import opened Convergence

  /** One job per inbound, in the given order. */
  function EnqueueAll(user: int, op: Op, ids: seq<int>, payload: Payload): seq<Micro> {
    seq(|ids|, i requires 0 <= i < |ids| => Enqueue(Spec(user, ids[i], op, payload)))
  }

  function CreateScript(l: Local, id: int, u: User): seq<Micro> {
    [Write(Local(l.users[id := u], l.inbounds[id := {}]))]
  }

  /** Assigns get lower ids than unassigns. */
  function SetInboundsScript(l: Local, id: int, added: seq<int>, removed: seq<int>): seq<Micro>
    requires id in l.users && id in l.inbounds
  {
    var p := PayloadFor(l.users[id]);
    [Write(Local(l.users, l.inbounds[id := l.inbounds[id] + ToSet(added) - ToSet(removed)]))] +
    (EnqueueAll(id, Assign, added, p) + EnqueueAll(id, Unassign, removed, p))
  }

  /** Update, toggle, bulk enable/disable and regenerate: overwrite the row, then one update per inbound. */
  function OverwriteScript(l: Local, id: int, u: User, targets: seq<int>): seq<Micro> {
    [Write(Local(l.users[id := u], l.inbounds))] + EnqueueAll(id, Update, targets, PayloadFor(u))
  }

  function ResetScript(l: Local, id: int, targets: seq<int>): seq<Micro>
    requires id in l.users
  {
    EnqueueAll(id, ResetTraffic, targets, PayloadFor(l.users[id]))
  }

  /** The delete job is enqueued before the row goes, and only for a user with an inbound. */
  function DeleteScript(l: Local, id: int): seq<Micro>
    requires id in l.users && id in l.inbounds
  {
    (if l.inbounds[id] != {} then [Enqueue(Spec(id, 0, Delete, PayloadFor(l.users[id])))] else []) +
    [Write(Local(l.users - {id}, l.inbounds - {id}))]
  }

  /** The commands of a run of jobs for one client. */
  function Commands(op: Op, ids: seq<int>, fields: Fields): seq<Command> {
    seq(|ids|, i requires 0 <= i < |ids| => Command(op, ids[i], fields))
  }

  lemma {:induction false} TodoOfEnqueueAll(user: int, op: Op, ids: seq<int>, p: Payload, email: string, l: Local)
    ensures Todo(EnqueueAll(user, op, ids, p), email) ==
      if email == p.email then Commands(op, ids, FieldsOf(p)) else []
    ensures Final(l, EnqueueAll(user, op, ids, p)) == l
  {
    if ids == [] {
    } else {
      assert EnqueueAll(user, op, ids, p)[1..] == EnqueueAll(user, op, ids[1..], p);
      assert Commands(op, ids, FieldsOf(p)) == [Command(op, ids[0], FieldsOf(p))] + Commands(op, ids[1..], FieldsOf(p));
      TodoOfEnqueueAll(user, op, ids[1..], p, email, l);
    }
  }

  // ---------------------------------------------------------------- playing runs of jobs

  function Attached(c: Option<Client>): set<int> {
    if c.Some? then c.value.inbounds else {}
  }

  lemma {:induction false} PlayAssigns(c: Option<Client>, ids: seq<int>, f: Fields)
    ensures Play(c, Commands(Assign, ids, f)) ==
      if ids == [] then c
      else Some(Client(if c.Some? then c.value.fields else f, Attached(c) + ToSet(ids)))
    ensures PlayAccepted(c, Commands(Assign, ids, f))
    decreases |ids|
  {
    if ids == [] {
    } else {
      var cmds := Commands(Assign, ids, f);
      assert cmds[1..] == Commands(Assign, ids[1..], f);
      PlayAssigns(Panel.Step(c, cmds[0]), ids[1..], f);
      assert ToSet(ids) == {ids[0]} + ToSet(ids[1..]);
      assert Attached(c) + {ids[0]} + ToSet(ids[1..]) == Attached(c) + ToSet(ids);
      assert Attached(Panel.Step(c, cmds[0])) == Attached(c) + {ids[0]};
      assert ids[1..] == [] ==> Attached(c) + {ids[0]} == Attached(c) + ToSet(ids);
    }
  }

  lemma {:induction false} PlayDetaches(c: Option<Client>, ids: seq<int>, f: Fields)
    requires c.Some? ==> c.value.inbounds != {}
    ensures Play(c, Commands(Unassign, ids, f)) ==
      if c.Some? && !(c.value.inbounds <= ToSet(ids))
      then Some(c.value.(inbounds := c.value.inbounds - ToSet(ids))) else None
    ensures PlayAccepted(c, Commands(Unassign, ids, f))
    decreases |ids|
  {
    if ids == [] {
      if c.Some? {
        assert c.value.inbounds - ToSet(ids) == c.value.inbounds;
      }
    } else {
      var cmds := Commands(Unassign, ids, f);
      assert cmds[1..] == Commands(Unassign, ids[1..], f);
      PlayDetaches(Panel.Step(c, cmds[0]), ids[1..], f);
      assert ToSet(ids) == {ids[0]} + ToSet(ids[1..]);
      if c.Some? {
        assert c.value.inbounds - {ids[0]} - ToSet(ids[1..]) == c.value.inbounds - ToSet(ids);
        assert c.value.inbounds <= {ids[0]} ==> c.value.inbounds <= ToSet(ids);
        assert c.value.inbounds - {ids[0]} <= ToSet(ids[1..]) <==> c.value.inbounds <= ToSet(ids);
      }
    }
  }

  lemma {:induction false} PlayUpdates(c: Option<Client>, ids: seq<int>, f: Fields)
    ensures Play(c, Commands(Update, ids, f)) ==
      if ids == [] || c == None then c else Some(c.value.(fields := f))
    ensures PlayAccepted(c, Commands(Update, ids, f)) <==> ids == [] || c.Some?
    decreases |ids|
  {
    if ids == [] {
    } else {
      var cmds := Commands(Update, ids, f);
      assert cmds[1..] == Commands(Update, ids[1..], f);
      PlayUpdates(Panel.Step(c, cmds[0]), ids[1..], f);
    }
  }

  lemma {:induction false} PlayResets(c: Option<Client>, ids: seq<int>, f: Fields)
    ensures Play(c, Commands(ResetTraffic, ids, f)) ==
      if ids == [] || c == None then c else Some(c.value.(fields := c.value.fields.(enable := true)))
    ensures PlayAccepted(c, Commands(ResetTraffic, ids, f))
    decreases |ids|
  {
    if ids == [] {
    } else {
      var cmds := Commands(ResetTraffic, ids, f);
      assert cmds[1..] == Commands(ResetTraffic, ids[1..], f);
      PlayResets(Panel.Step(c, cmds[0]), ids[1..], f);
    }
  }

  lemma OneUpdate(c: Option<Client>, cmd: Command)
    requires cmd.op == Update && c.Some?
    ensures Play(c, [cmd]) == Some(c.value.(fields := cmd.fields)) && PlayAccepted(c, [cmd])
  {
    assert Play(c, [cmd]) == Play(Panel.Step(c, cmd), [cmd][1..]);
  }

  // ---------------------------------------------------------------- when a handler is sound

  /** Creating a user asks nothing of the panel. */
  lemma CreateIsSound(l: Local, id: int, u: User)
    requires ValidLocal(l) && id !in l.users
    requires forall k :: k in l.users ==> l.users[k].username != u.username
    ensures Sound(l, CreateScript(l, id, u))
  {
    var l' := Final(l, CreateScript(l, id, u));
    forall email
      ensures Play(Desired(l, email), Todo(CreateScript(l, id, u), email)) == Desired(l', email)
    {
      if email == u.username {
        DesiredIs(l', id);
        assert !exists k :: Owns(l, k, email);
      } else {
        DesiredElsewhere(l, l', id, email);
      }
    }
  }

  ghost predicate Reconciles(l: Local, id: int, added: seq<int>, removed: seq<int>)
    requires id in l.inbounds
  {
    && Distinct(added) && Distinct(removed)
    && ToSet(added) !! l.inbounds[id] && ToSet(removed) <= l.inbounds[id]
  }

  lemma SetInboundsIsSound(l: Local, id: int, added: seq<int>, removed: seq<int>)
    requires ValidLocal(l) && id in l.users && Reconciles(l, id, added, removed)
    ensures Sound(l, SetInboundsScript(l, id, added, removed))
  {
    var p := PayloadFor(l.users[id]);
    var script := SetInboundsScript(l, id, added, removed);
    var l' := Local(l.users, l.inbounds[id := l.inbounds[id] + ToSet(added) - ToSet(removed)]);
    SetInboundsTodo(l, id, added, removed);
    forall email
      ensures Play(Desired(l, email), Todo(script, email)) == Desired(l', email)
      ensures PlayAccepted(Desired(l, email), Todo(script, email))
    {
      if email == p.email {
        DesiredIs(l, id);
        DesiredIs(l', id);
        PlayDelta(l.inbounds[id], added, removed, FieldsOf(p));
      } else {
        DesiredElsewhere(l, l', id, email);
      }
    }
  }

  /** The first write of a reconciliation and any of the jobs after it. */
  lemma DeltaTodo(l: Local, l': Local, id: int, added: seq<int>, removed: seq<int>, p: Payload)
    ensures var script := [Write(l')] + (EnqueueAll(id, Assign, added, p) + EnqueueAll(id, Unassign, removed, p));
      && Final(l, script) == l'
      && forall email :: Todo(script, email) ==
           if email != p.email then []
           else Commands(Assign, added, FieldsOf(p)) + Commands(Unassign, removed, FieldsOf(p))
  {
    var a, r := EnqueueAll(id, Assign, added, p), EnqueueAll(id, Unassign, removed, p);
    var script := [Write(l')] + (a + r);
    assert script[1..] == a + r;
    FinalAppend(l', a, r);
    TodoOfEnqueueAll(id, Assign, added, p, p.email, l');
    TodoOfEnqueueAll(id, Unassign, removed, p, p.email, l');
    forall email
      ensures Todo(script, email) == if email != p.email then []
        else Commands(Assign, added, FieldsOf(p)) + Commands(Unassign, removed, FieldsOf(p))
    {
      TodoAppend(a, r, email);
      TodoOfEnqueueAll(id, Assign, added, p, email, l');
      TodoOfEnqueueAll(id, Unassign, removed, p, email, l');
    }
  }

  lemma SetInboundsTodo(l: Local, id: int, added: seq<int>, removed: seq<int>)
    requires id in l.users && id in l.inbounds
    ensures var script, p := SetInboundsScript(l, id, added, removed), PayloadFor(l.users[id]);
      && Final(l, script) == Local(l.users, l.inbounds[id := l.inbounds[id] + ToSet(added) - ToSet(removed)])
      && forall email :: Todo(script, email) ==
           if email != p.email then []
           else Commands(Assign, added, FieldsOf(p)) + Commands(Unassign, removed, FieldsOf(p))
  {
    var l' := Local(l.users, l.inbounds[id := l.inbounds[id] + ToSet(added) - ToSet(removed)]);
    DeltaTodo(l, l', id, added, removed, PayloadFor(l.users[id]));
  }

  function ClientWith(f: Fields, inbounds: set<int>): Option<Client> {
    if inbounds == {} then None else Some(Client(f, inbounds))
  }

  lemma PlayDelta(have: set<int>, added: seq<int>, removed: seq<int>, f: Fields)
    requires ToSet(removed) <= have
    ensures var cmds := Commands(Assign, added, f) + Commands(Unassign, removed, f);
      && Play(ClientWith(f, have), cmds) == ClientWith(f, have + ToSet(added) - ToSet(removed))
      && PlayAccepted(ClientWith(f, have), cmds)
  {
    var c := ClientWith(f, have);
    assert c == None <==> have == {};
    PlayAppend(c, Commands(Assign, added, f), Commands(Unassign, removed, f));
    PlayAssigns(c, added, f);
    assert added != [] ==> added[0] in ToSet(added);
    assert Attached(c) == have;
    assert added == [] ==> have + ToSet(added) == have;
    var m := Play(c, Commands(Assign, added, f));
    assert m == ClientWith(f, have + ToSet(added));
    PlayDetaches(m, removed, f);
    NothingLeft(have + ToSet(added), ToSet(removed));
  }

  lemma NothingLeft(a: set<int>, b: set<int>)
    ensures a <= b <==> a - b == {}
  {
    if a - b == {} {
      forall x | x in a ensures x in b {
        assert x !in a - b;
      }
    }
  }

  /** Reconciling never strips a client bare on the way: after any number of the delta's jobs the
      client is attached to something, exactly when it started with an inbound and ends with one. */
  lemma NeverBareOnTheWay(have: set<int>, added: seq<int>, removed: seq<int>, f: Fields)
    requires have != {} && ToSet(added) !! have && ToSet(removed) <= have
    ensures var cmds := Commands(Assign, added, f) + Commands(Unassign, removed, f);
      (forall n :: 0 <= n <= |cmds| ==> Attached(Play(ClientWith(f, have), cmds[..n])) != {})
        <==> have + ToSet(added) - ToSet(removed) != {}
  {
    var a, r := Commands(Assign, added, f), Commands(Unassign, removed, f);
    var cmds := a + r;
    PlayDelta(have, added, removed, f);
    assert cmds[..|cmds|] == cmds;
    if have + ToSet(added) - ToSet(removed) != {} {
      forall n | 0 <= n <= |cmds| ensures Attached(Play(ClientWith(f, have), cmds[..n])) != {} {
        if n <= |a| {
          assert cmds[..n] == Commands(Assign, added[..n], f) + Commands(Unassign, [], f);
          PlayDelta(have, added[..n], [], f);
          assert have + ToSet(added[..n]) - ToSet([]) >= have;
        } else {
          var k := n - |a|;
          assert cmds[..n] == Commands(Assign, added, f) + Commands(Unassign, removed[..k], f);
          assert ToSet(removed[..k]) <= ToSet(removed);
          PlayDelta(have, added, removed[..k], f);
          assert have + ToSet(added) - ToSet(removed[..k]) >= have + ToSet(added) - ToSet(removed);
        }
      }
    }
  }

  /** The other order would strip it: moving a client from inbound 1 to inbound 2 by unassigning first
      drops it from the panel on the way. */
  lemma UnassignFirstDropsTheClient(f: Fields)
    ensures Play(Some(Client(f, {1})), [Command(Unassign, 1, f)]) == None
  {
  }

  ghost predicate Lists(ids: seq<int>, s: set<int>) {
    Distinct(ids) && ToSet(ids) == s
  }

  /** Editing a user reaches the panel exactly when the username stays, or there is nothing to reach. */
  lemma OverwriteIsSoundIff(l: Local, id: int, u: User, targets: seq<int>)
    requires ValidLocal(l) && id in l.users && Lists(targets, l.inbounds[id])
    requires UniqueNames(l.users[id := u])
    ensures Sound(l, OverwriteScript(l, id, u, targets)) <==>
      u.username == l.users[id].username || l.inbounds[id] == {}
  {
    assert targets == [] <==> l.inbounds[id] == {} by {
      assert targets != [] ==> targets[0] in ToSet(targets);
    }
    SomeUpdatesSoundIff(l, id, u, targets);
  }

  /** The same for any number of updates, which may be fewer than there are inbounds. */
  lemma SomeUpdatesSoundIff(l: Local, id: int, u: User, targets: seq<int>)
    requires ValidLocal(l) && id in l.users && UniqueNames(l.users[id := u])
    requires l.inbounds[id] == {} ==> targets == []
    ensures Sound(l, OverwriteScript(l, id, u, targets)) <==>
      || l.inbounds[id] == {}
      || (u.username == l.users[id].username
          && (targets != [] || FieldsOf(PayloadFor(u)) == FieldsOf(PayloadFor(l.users[id]))))
  {
    var script := OverwriteScript(l, id, u, targets);
    var p := PayloadFor(u);
    var l' := Local(l.users[id := u], l.inbounds);
    var before := l.users[id].username;
    OverwriteTodo(l, id, u, targets);
    forall email
      ensures email != before && email != u.username ==>
        Play(Desired(l, email), Todo(script, email)) == Desired(l', email) &&
        PlayAccepted(Desired(l, email), Todo(script, email))
    {
      if email != before && email != u.username {
        DesiredElsewhere(l, l', id, email);
      }
    }
    DesiredIs(l, id);
    DesiredIs(l', id);
    PlayUpdates(Desired(l, u.username), targets, FieldsOf(p));
    if u.username != before {
      assert !exists k :: Owns(l', k, before);
      if l.inbounds[id] == {} {
        assert forall k :: k in l.users && k != id ==> k in l'.users && l'.users[k] == l.users[k];
        assert !exists k :: Owns(l, k, u.username);
      }
      assert Todo(script, before) == [];
    }
  }

  lemma OverwriteTodo(l: Local, id: int, u: User, targets: seq<int>)
    requires id in l.users
    ensures var script := OverwriteScript(l, id, u, targets);
      && Final(l, script) == Local(l.users[id := u], l.inbounds)
      && forall email :: Todo(script, email) ==
           if email == u.username then Commands(Update, targets, FieldsOf(PayloadFor(u))) else []
  {
    var script := OverwriteScript(l, id, u, targets);
    assert script[1..] == EnqueueAll(id, Update, targets, PayloadFor(u));
    forall email ensures Todo(script, email) ==
      if email == u.username then Commands(Update, targets, FieldsOf(PayloadFor(u))) else []
    {
      TodoOfEnqueueAll(id, Update, targets, PayloadFor(u), email, Local(l.users[id := u], l.inbounds));
    }
    TodoOfEnqueueAll(id, Update, targets, PayloadFor(u), u.username, Local(l.users[id := u], l.inbounds));
  }

  /** Resetting traffic re-enables the client: it keeps the panel on course exactly for enabled users
      and users without an inbound. */
  lemma ResetIsSoundIff(l: Local, id: int, targets: seq<int>)
    requires ValidLocal(l) && id in l.users && Lists(targets, l.inbounds[id])
    ensures Sound(l, ResetScript(l, id, targets)) <==> l.users[id].enabled || l.inbounds[id] == {}
  {
    assert targets == [] <==> l.inbounds[id] == {} by {
      assert targets != [] ==> targets[0] in ToSet(targets);
    }
    SomeResetsSoundIff(l, id, targets);
  }

  lemma SomeResetsSoundIff(l: Local, id: int, targets: seq<int>)
    requires ValidLocal(l) && id in l.users && (l.inbounds[id] == {} ==> targets == [])
    ensures Sound(l, ResetScript(l, id, targets)) <==>
      targets == [] || l.users[id].enabled || l.inbounds[id] == {}
  {
    var p := PayloadFor(l.users[id]);
    var script := ResetScript(l, id, targets);
    TodoOfEnqueueAll(id, ResetTraffic, targets, p, p.email, l);
    DesiredIs(l, id);
    PlayResets(Desired(l, p.email), targets, FieldsOf(p));
    forall email | email != p.email
      ensures Todo(script, email) == []
    {
      TodoOfEnqueueAll(id, ResetTraffic, targets, p, email, l);
    }
  }

  lemma FinalOfDelete(l: Local, id: int)
    requires id in l.users && id in l.inbounds
    ensures Final(l, DeleteScript(l, id)) == Local(l.users - {id}, l.inbounds - {id})
  {
    var write := [Write(Local(l.users - {id}, l.inbounds - {id}))];
    if l.inbounds[id] != {} {
      var enqueue := [Enqueue(Spec(id, 0, Delete, PayloadFor(l.users[id])))];
      FinalAppend(l, enqueue, write);
      assert enqueue[1..] == [];
    }
    assert write[1..] == [];
  }

  lemma DeleteIsSound(l: Local, id: int)
    requires ValidLocal(l) && id in l.users
    ensures Sound(l, DeleteScript(l, id))
  {
    var script := DeleteScript(l, id);
    var l' := Local(l.users - {id}, l.inbounds - {id});
    var p := PayloadFor(l.users[id]);
    var head := if l.inbounds[id] != {} then [Enqueue(Spec(id, 0, Delete, p))] else [];
    FinalAppend(l, head, [Write(l')]);
    forall email
      ensures Play(Desired(l, email), Todo(script, email)) == Desired(l', email)
      ensures PlayAccepted(Desired(l, email), Todo(script, email))
    {
      TodoAppend(head, [Write(l')], email);
      if email == p.email {
        DesiredIs(l, id);
        assert !exists k :: Owns(l', k, email);
      } else {
        DesiredElsewhere(l, l', id, email);
      }
    }
  }

  // ---------------------------------------------------------------- where a crash does no harm

  lemma NothingIsSound(l: Local)
    requires ValidLocal(l)
    ensures Sound(l, [])
  {
    assert forall email :: Todo([], email) == [];
  }

  lemma WholeIs(script: seq<Micro>)
    ensures script[..|script|] == script
  {
  }

  /** Creating a user: anywhere. */
  lemma CrashInCreate(l: Local, id: int, u: User, n: nat)
    requires ValidLocal(l) && id !in l.users && n <= |CreateScript(l, id, u)|
    requires forall k :: k in l.users ==> l.users[k].username != u.username
    ensures Sound(l, CreateScript(l, id, u)[..n])
  {
    if n == 0 {
      NothingIsSound(l);
    } else {
      WholeIs(CreateScript(l, id, u));
      CreateIsSound(l, id, u);
    }
  }

  /** Reconciling inbounds: before the first statement or after the last. */
  lemma CrashInSetInboundsIff(l: Local, id: int, added: seq<int>, removed: seq<int>, n: nat)
    requires ValidLocal(l) && id in l.users && Reconciles(l, id, added, removed)
    requires n <= |SetInboundsScript(l, id, added, removed)|
    ensures var script := SetInboundsScript(l, id, added, removed);
      Sound(l, script[..n]) <==> n == 0 || n == |script|
  {
    var script := SetInboundsScript(l, id, added, removed);
    if n == 0 {
      NothingIsSound(l);
    } else if n == |script| {
      WholeIs(script);
      SetInboundsIsSound(l, id, added, removed);
    } else {
      var k := n - 1;
      var i := if k < |added| then k else |added|;
      PrefixOfDelta(l, id, added, removed, i, k - i);
      PartialDeltaIsUnsound(l, id, added, removed, i, k - i);
    }
  }

  lemma PrefixOfDelta(l: Local, id: int, added: seq<int>, removed: seq<int>, i: nat, j: nat)
    requires id in l.users && id in l.inbounds && i <= |added| && j <= |removed| && (i < |added| ==> j == 0)
    ensures var script, p := SetInboundsScript(l, id, added, removed), PayloadFor(l.users[id]);
      script[..1 + i + j] ==
        script[..1] + (EnqueueAll(id, Assign, added[..i], p) + EnqueueAll(id, Unassign, removed[..j], p))
  {
  }

  lemma PartialDeltaIsUnsound(l: Local, id: int, added: seq<int>, removed: seq<int>, i: nat, j: nat)
    requires ValidLocal(l) && id in l.users && Reconciles(l, id, added, removed)
    requires i <= |added| && j <= |removed| && (i < |added| ==> j == 0) && i + j < |added| + |removed|
    ensures var p := PayloadFor(l.users[id]);
      !Sound(l, SetInboundsScript(l, id, added, removed)[..1]
                + (EnqueueAll(id, Assign, added[..i], p) + EnqueueAll(id, Unassign, removed[..j], p)))
  {
    var p, have := PayloadFor(l.users[id]), l.inbounds[id];
    var l' := Local(l.users, l.inbounds[id := have + ToSet(added) - ToSet(removed)]);
    assert SetInboundsScript(l, id, added, removed)[..1] == [Write(l')];
    DeltaTodo(l, l', id, added[..i], removed[..j], p);
    DesiredIs(l, id);
    DesiredIs(l', id);
    assert ToSet(removed[..j]) <= ToSet(removed);
    PlayDelta(have, added[..i], removed[..j], FieldsOf(p));
    PartialDeltaDiffers(have, added, removed, i, j);
  }

  lemma PartialDeltaDiffers(have: set<int>, added: seq<int>, removed: seq<int>, i: nat, j: nat)
    requires Distinct(added) && Distinct(removed) && ToSet(added) !! have && ToSet(removed) <= have
    requires i <= |added| && j <= |removed| && (i < |added| ==> j == 0) && i + j < |added| + |removed|
    ensures have + ToSet(added[..i]) - ToSet(removed[..j]) != have + ToSet(added) - ToSet(removed)
  {
    if i < |added| {
      var x := added[i];
      assert x in ToSet(added) && x !in have && x !in ToSet(added[..i]);
      assert x in have + ToSet(added) - ToSet(removed);
    } else {
      var x := removed[j];
      assert x in ToSet(removed) && x in have && x !in ToSet(removed[..j]);
      assert x in have + ToSet(added[..i]) - ToSet(removed[..j]);
    }
  }

  /** Editing a user: before the write or after the first update, unless there is nothing to push. */
  lemma CrashInOverwriteIff(l: Local, id: int, u: User, targets: seq<int>, n: nat)
    requires ValidLocal(l) && id in l.users && Lists(targets, l.inbounds[id]) && UniqueNames(l.users[id := u])
    requires n <= |OverwriteScript(l, id, u, targets)|
    ensures Sound(l, OverwriteScript(l, id, u, targets)[..n]) <==>
      || n == 0 || l.inbounds[id] == {}
      || (u.username == l.users[id].username
          && (2 <= n || FieldsOf(PayloadFor(u)) == FieldsOf(PayloadFor(l.users[id]))))
  {
    if n == 0 {
      NothingIsSound(l);
    } else {
      var some := targets[..n - 1];
      assert OverwriteScript(l, id, u, targets)[..n] == OverwriteScript(l, id, u, some);
      assert targets != [] ==> targets[0] in ToSet(targets);
      SomeUpdatesSoundIff(l, id, u, some);
    }
  }

  /** Resetting traffic: anywhere, if resetting is right at all. */
  lemma CrashInResetIff(l: Local, id: int, targets: seq<int>, n: nat)
    requires ValidLocal(l) && id in l.users && Lists(targets, l.inbounds[id]) && n <= |targets|
    ensures Sound(l, ResetScript(l, id, targets)[..n]) <==> n == 0 || l.users[id].enabled || l.inbounds[id] == {}
  {
    assert ResetScript(l, id, targets)[..n] == ResetScript(l, id, targets[..n]);
    assert targets != [] ==> targets[0] in ToSet(targets);
    SomeResetsSoundIff(l, id, targets[..n]);
  }

  lemma DeleteDrops(c: Option<Client>, cmd: Command)
    requires cmd.op == Delete
    ensures Play(c, [cmd]) == None
  {
    assert Play(c, [cmd]) == Play(Panel.Step(c, cmd), [cmd][1..]);
  }

  /** Deleting a user: before the delete job or after the row is gone. */
  lemma CrashInDeleteIff(l: Local, id: int, n: nat)
    requires ValidLocal(l) && id in l.users && n <= |DeleteScript(l, id)|
    ensures Sound(l, DeleteScript(l, id)[..n]) <==> n == 0 || n == |DeleteScript(l, id)|
  {
    var script := DeleteScript(l, id);
    if n == 0 {
      NothingIsSound(l);
    } else if n == |script| {
      WholeIs(script);
      DeleteIsSound(l, id);
    } else {
      var p := PayloadFor(l.users[id]);
      var job := Enqueue(Spec(id, 0, Delete, p));
      assert script[..n] == [job] && [job][1..] == [];
      DesiredIs(l, id);
      OneTodo(job, p.email);
      DeleteDrops(Desired(l, p.email), SpecCommand(job.spec));
      assert Final(l, [job]) == l;
    }
  }
}
