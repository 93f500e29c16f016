/**
 The tables "users" and "user_inbounds" (internal/users/users.go).

 `Local` is their abstract value: the users by id, and for each user the set of inbounds it
 is assigned to.  The class below keeps the rows and carries out SetInbounds in the order the
 source does.
 */
module Users {
  import opened Options
  import opened Jobs
  import opened Panel

  datatype User = User(
    username: string, subId: string, uuid: string, password: string, cipher: string,
    flow: string, enabled: bool, totalGB: int, expiryMs: int, notes: string)

  /** payloadFor of internal/admin/handlers_users.go. */
  function PayloadFor(u: User): Payload {
    Payload(u.username, u.subId, u.uuid, u.password, u.cipher, u.flow, u.enabled, u.totalGB, u.expiryMs)
  }

  /** A payload that says about a user what its row says, field by field. */
  predicate CarriesUser(p: Payload, u: User) {
    && p.email == u.username && p.subId == u.subId && p.uuid == u.uuid && p.password == u.password
    && p.cipher == u.cipher && p.flow == u.flow && p.enable == u.enabled
    && p.totalGB == u.totalGB && p.expiryMs == u.expiryMs
  }

  lemma PayloadCarriesUser(u: User)
    ensures CarriesUser(PayloadFor(u), u)
  {
  }

  datatype Local = Local(users: map<int, User>, inbounds: map<int, set<int>>)

  ghost predicate UniqueNames(users: map<int, User>) {
    forall a, b :: a in users && b in users && users[a].username == users[b].username ==> a == b
  }

  ghost predicate ValidLocal(l: Local) {
    l.inbounds.Keys == l.users.Keys && UniqueNames(l.users)
  }

  /** The user a panel client with this email should mirror. */
  ghost predicate Owns(l: Local, id: int, email: string)
    requires l.inbounds.Keys == l.users.Keys
  {
    id in l.users && l.users[id].username == email && l.inbounds[id] != {}
  }

  /** What the panel should hold under `email`: a client exactly for a user with an inbound. */
  ghost function Desired(l: Local, email: string): Option<Client>
    requires l.inbounds.Keys == l.users.Keys
  {
    if id :| Owns(l, id, email) then Some(Client(FieldsOf(PayloadFor(l.users[id])), l.inbounds[id]))
    else None
  }

  lemma DesiredIs(l: Local, id: int)
    requires ValidLocal(l) && id in l.users
    ensures Desired(l, l.users[id].username) ==
      if l.inbounds[id] == {} then None
      else Some(Client(FieldsOf(PayloadFor(l.users[id])), l.inbounds[id]))
  {
    var email := l.users[id].username;
    assert forall k :: Owns(l, k, email) ==> k == id;
    assert Owns(l, id, email) <==> l.inbounds[id] != {};
  }

  /** A change to one user's row and assignments leaves every other email's client alone. */
  lemma DesiredElsewhere(l: Local, l': Local, id: int, email: string)
    requires ValidLocal(l) && ValidLocal(l')
    requires forall k :: k != id ==> (k in l.users <==> k in l'.users)
    requires forall k :: k != id && k in l.users ==>
      l'.users[k] == l.users[k] && l'.inbounds[k] == l.inbounds[k]
    requires id in l.users ==> l.users[id].username != email
    requires id in l'.users ==> l'.users[id].username != email
    ensures Desired(l', email) == Desired(l, email)
  {
    assert forall k :: Owns(l, k, email) <==> Owns(l', k, email);
    if k :| Owns(l, k, email) {
      DesiredIs(l, k);
      DesiredIs(l', k);
    }
  }

  // ---------------------------------------------------------------- rows

  datatype Inbound = Inbound(id: int, tag: string, protocol: string)

  datatype Row = Row(id: int, userId: int, inbound: Inbound, createdAt: int)

  ghost predicate Distinct(s: seq<int>) {
    forall i, j :: 0 <= i < j < |s| ==> s[i] != s[j]
  }

  /** UNIQUE(user_id, inbound_id), and row ids are keys. */
  ghost predicate UniqueRows(rows: seq<Row>) {
    forall i, j :: 0 <= i < j < |rows| ==>
      && rows[i].id != rows[j].id
      && (rows[i].userId != rows[j].userId || rows[i].inbound.id != rows[j].inbound.id)
  }

  function Assigned(rows: seq<Row>, user: int): set<int> {
    set r | r in rows && r.userId == user :: r.inbound.id
  }

  function LocalOf(users: map<int, User>, rows: seq<Row>): Local {
    Local(users, map id | id in users :: Assigned(rows, id))
  }

  lemma OnlyOneMoved(users: map<int, User>, before: seq<Row>, after: seq<Row>, user: int)
    requires forall k :: k != user ==> Assigned(after, k) == Assigned(before, k)
    ensures LocalOf(users, after) ==
      if user !in users then LocalOf(users, before)
      else Local(users, LocalOf(users, before).inbounds[user := Assigned(after, user)])
  {
    if user in users {
      assert LocalOf(users, after).inbounds == LocalOf(users, before).inbounds[user := Assigned(after, user)];
    } else {
      assert LocalOf(users, after).inbounds == LocalOf(users, before).inbounds;
    }
  }

  ghost predicate SortedByInbound(rows: seq<Row>) {
    forall i, j :: 0 <= i < j < |rows| ==> rows[i].inbound.id < rows[j].inbound.id
  }

  function InsertSorted(r: Row, rows: seq<Row>): seq<Row> {
    if rows == [] || r.inbound.id < rows[0].inbound.id then [r] + rows
    else [rows[0]] + InsertSorted(r, rows[1..])
  }

  /** SELECT ... WHERE user_id = ? ORDER BY inbound_id. */
  function SelectSorted(rows: seq<Row>, user: int): seq<Row> {
    if rows == [] then []
    else if rows[0].userId == user then InsertSorted(rows[0], SelectSorted(rows[1..], user))
    else SelectSorted(rows[1..], user)
  }

  lemma {:induction false} InsertSortedSorts(r: Row, rows: seq<Row>)
    requires SortedByInbound(rows)
    requires forall x :: x in rows ==> x.inbound.id != r.inbound.id
    ensures SortedByInbound(InsertSorted(r, rows))
    ensures forall x :: x in InsertSorted(r, rows) <==> x == r || x in rows
  {
    if rows == [] || r.inbound.id < rows[0].inbound.id {
    } else {
      assert rows == [rows[0]] + rows[1..];
      InsertSortedSorts(r, rows[1..]);
      var t := InsertSorted(r, rows[1..]);
      forall k | 0 <= k < |t| ensures rows[0].inbound.id < t[k].inbound.id {
        assert t[k] in t;
      }
    }
  }

  lemma {:induction false} SelectSortedIsQuery(rows: seq<Row>, user: int)
    requires UniqueRows(rows)
    ensures SortedByInbound(SelectSorted(rows, user))
    ensures forall x :: x in SelectSorted(rows, user) <==> x in rows && x.userId == user
  {
    if rows == [] {
    } else {
      assert rows == [rows[0]] + rows[1..];
      SelectSortedIsQuery(rows[1..], user);
      if rows[0].userId == user {
        InsertSortedSorts(rows[0], SelectSorted(rows[1..], user));
      }
    }
  }

  function InboundIds(rows: seq<Row>): seq<int> {
    seq(|rows|, i requires 0 <= i < |rows| => rows[i].inbound.id)
  }

  function DesiredIds(desired: seq<Inbound>): seq<int> {
    seq(|desired|, i requires 0 <= i < |desired| => desired[i].id)
  }

  function ToSet(s: seq<int>): set<int> {
    set x | x in s
  }

  /** The wanted inbounds a user does not have yet, in form order. */
  function Missing(desired: seq<Inbound>, have: set<int>): seq<int> {
    if desired == [] then []
    else (if desired[0].id in have then [] else [desired[0].id]) + Missing(desired[1..], have)
  }

  /** Row i is deleted by DELETE ... WHERE id = ?. */
  function DeleteRow(rows: seq<Row>, id: int): seq<Row> {
    if rows == [] then []
    else (if rows[0].id == id then [] else [rows[0]]) + DeleteRow(rows[1..], id)
  }

  lemma {:induction false} DeleteRowDeletes(rows: seq<Row>, id: int)
    requires UniqueRows(rows)
    ensures UniqueRows(DeleteRow(rows, id))
    ensures forall r :: r in DeleteRow(rows, id) <==> r in rows && r.id != id
  {
    if rows == [] {
    } else {
      assert rows == [rows[0]] + rows[1..];
      DeleteRowDeletes(rows[1..], id);
      var rest := DeleteRow(rows[1..], id);
      forall k | 0 <= k < |rest|
        ensures rows[0].id != rest[k].id
        ensures rows[0].userId != rest[k].userId || rows[0].inbound.id != rest[k].inbound.id
      {
        assert rest[k] in rows[1..];
      }
    }
  }

  /** ON DELETE CASCADE. */
  function Cascade(rows: seq<Row>, user: int): seq<Row> {
    if rows == [] then []
    else (if rows[0].userId == user then [] else [rows[0]]) + Cascade(rows[1..], user)
  }

  lemma {:induction false} CascadeDeletes(rows: seq<Row>, user: int)
    requires UniqueRows(rows)
    ensures UniqueRows(Cascade(rows, user))
    ensures forall r :: r in Cascade(rows, user) <==> r in rows && r.userId != user
  {
    if rows == [] {
    } else {
      assert rows == [rows[0]] + rows[1..];
      CascadeDeletes(rows[1..], user);
      var rest := Cascade(rows[1..], user);
      forall k | 0 <= k < |rest|
        ensures rows[0].id != rest[k].id
        ensures rows[0].userId != rest[k].userId || rows[0].inbound.id != rest[k].inbound.id
      {
        assert rest[k] in rows[1..];
      }
    }
  }

  const DEFAULT_METHOD := "chacha20-ietf-poly1305"

  /** A new user's row: what the form left empty is filled in, everything else is as asked. */
  function Completed(u: User, uuid: string, password: string): User {
    u.(uuid := if u.uuid == "" then uuid else u.uuid,
       password := if u.password == "" then password else u.password,
       cipher := if u.cipher == "" then DEFAULT_METHOD else u.cipher)
  }

  /** The same, field by field. */
  predicate FilledIn(asked: User, uuid: string, password: string, u: User) {
    && u.username == asked.username && u.subId == asked.subId && u.flow == asked.flow && u.enabled == asked.enabled
    && u.totalGB == asked.totalGB && u.expiryMs == asked.expiryMs && u.notes == asked.notes
    && (asked.uuid == "" ==> u.uuid == uuid) && (asked.uuid != "" ==> u.uuid == asked.uuid)
    && (asked.password == "" ==> u.password == password) && (asked.password != "" ==> u.password == asked.password)
    && (asked.cipher == "" ==> u.cipher == "chacha20-ietf-poly1305")
    && (asked.cipher != "" ==> u.cipher == asked.cipher)
  }

  /** An edited row, field by field: the form's fields, and of the old row the credentials and the enabled flag. */
  predicate TookForm(before: User, form: User, after: User) {
    && after.username == form.username && after.subId == form.subId && after.cipher == form.cipher
    && after.flow == form.flow && after.totalGB == form.totalGB && after.expiryMs == form.expiryMs
    && after.notes == form.notes
    && after.uuid == before.uuid && after.password == before.password && after.enabled == before.enabled
  }

  datatype UserError = NoSuchUser | NameTaken | InboundRepeated

  /** Store of internal/users/users.go. */
  class Store {
    var users: map<int, User>
    var rows: seq<Row>
    var nextUser: int
    var nextRow: int

    ghost predicate Valid()
      reads this
    {
      && UniqueNames(users)
      && UniqueRows(rows)
      && (forall id :: id in users ==> id < nextUser)
      && (forall r :: r in rows ==> r.userId in users && r.id < nextRow)
    }

    ghost function View(): Local
      reads this
    {
      LocalOf(users, rows)
    }

    constructor ()
      ensures Valid() && View() == Local(map[], map[])
    {
      users, rows, nextUser, nextRow := map[], [], 1, 1;
    }

    /** The UNIQUE constraints on username and sub_id, seen from a row about to get id `self`. */
    predicate Taken(self: int, u: User)
      reads this
    {
      exists k :: k in users && k != self && (users[k].username == u.username || users[k].subId == u.subId)
    }

    /** A user without credentials gets the ones drawn for it; one without a cipher gets the default. */
    method Create(u: User, uuid: string, password: string) returns (r: Result<int, UserError>)
      requires Valid()
      modifies this
      ensures Valid()
      ensures old(Taken(nextUser, u)) ==> r == Err(NameTaken) && View() == old(View())
      ensures r.Err? <==>
        exists k :: k in old(users) && (old(users)[k].username == u.username || old(users)[k].subId == u.subId)
      ensures r.Ok? ==> r.value in users && FilledIn(u, uuid, password, users[r.value])
      ensures !old(Taken(nextUser, u)) ==>
        && r == Ok(old(nextUser))
        && old(nextUser) !in old(users)
        && users == old(users)[old(nextUser) := Completed(u, uuid, password)]
        && View() == Local(users, old(View()).inbounds[old(nextUser) := {}])
    {
      if Taken(nextUser, u) {
        return Err(NameTaken);
      }
      assert Assigned(rows, nextUser) == {};
      var stored := Complete(u, uuid, password);
      users := users[nextUser := stored];
      r := Ok(nextUser);
      nextUser := nextUser + 1;
    }

    /** The defaults of Create. */
    static method Complete(u: User, uuid: string, password: string) returns (stored: User)
      ensures stored == Completed(u, uuid, password) && FilledIn(u, uuid, password, stored)
    {
      stored := u;
      if stored.uuid == "" {
        stored := stored.(uuid := uuid);
      }
      if stored.password == "" {
        stored := stored.(password := password);
      }
      if stored.cipher == "" {
        stored := stored.(cipher := DEFAULT_METHOD);
      }
    }

    /** Update leaves uuid, password and the enabled flag alone. */
    method Update(id: int, u: User) returns (r: Result<User, UserError>)
      requires Valid()
      modifies `users
      ensures Valid() && rows == old(rows)
      ensures id !in old(users) ==> r == Err(NoSuchUser) && users == old(users)
      ensures id in old(users) && old(Taken(id, u)) ==> r == Err(NameTaken) && users == old(users)
      ensures id in old(users) && !old(Taken(id, u)) ==>
        && r == Ok(Edited(old(users)[id], u))
        && users == old(users)[id := r.value]
      ensures r == Err(NameTaken) <==> id in old(users) && exists k ::
        k in old(users) && k != id && (old(users)[k].username == u.username || old(users)[k].subId == u.subId)
      ensures r.Ok? ==> id in old(users) && TookForm(old(users)[id], u, r.value)
    {
      if id !in users {
        return Err(NoSuchUser);
      }
      if Taken(id, u) {
        return Err(NameTaken);
      }
      var edited := Edited(users[id], u);
      users := users[id := edited];
      r := Ok(edited);
    }

    /** SetEnabled and RegenerateCredentials overwrite fields other than the unique ones. */
    method Overwrite(id: int, u: User) returns (r: Result<User, UserError>)
      requires Valid()
      requires id in users ==> u.username == users[id].username && u.subId == users[id].subId
      modifies `users
      ensures Valid() && rows == old(rows)
      ensures id !in old(users) ==> r == Err(NoSuchUser) && users == old(users)
      ensures id in old(users) ==> r == Ok(u) && users == old(users)[id := u]
    {
      if id !in users {
        return Err(NoSuchUser);
      }
      users := users[id := u];
      r := Ok(u);
    }

    method Delete(id: int) returns (r: Result<(), UserError>)
      requires Valid()
      modifies `users, `rows
      ensures Valid()
      ensures id !in old(users) ==> r == Err(NoSuchUser) && users == old(users) && rows == old(rows)
      ensures id in old(users) ==>
        && r == Ok(())
        && View() == Local(old(users) - {id}, old(View()).inbounds - {id})
        && (forall x :: x in rows <==> x in old(rows) && x.userId != id)
    {
      if id !in users {
        return Err(NoSuchUser);
      }
      CascadeDeletes(rows, id);
      rows := Cascade(rows, id);
      users := users - {id};
      assert forall k :: k in users ==> Assigned(rows, k) == Assigned(old(rows), k);
      assert View().inbounds == old(View()).inbounds - {id};
      r := Ok(());
    }

    method Inbounds(user: int) returns (found: seq<Row>)
      requires Valid()
      ensures SortedByInbound(found)
      ensures forall x :: x in found <==> x in rows && x.userId == user
      ensures ToSet(InboundIds(found)) == Assigned(rows, user)
      ensures Distinct(InboundIds(found))
    {
      SelectSortedIsQuery(rows, user);
      found := SelectSorted(rows, user);
      IdsOfRows(found, rows, user);
    }

    /** SetInbounds: one transaction that inserts what is missing and deletes what is not wanted.
        It fails, changing nothing, exactly when the form repeats an inbound the user lacks, or the foreign key
        refuses an insert because there is no such user. */
    method SetInbounds(user: int, desired: seq<Inbound>, now: int)
      returns (r: Result<(seq<int>, seq<int>), UserError>)
      requires Valid()
      modifies `rows, `nextRow
      ensures Valid()
      ensures var have := Assigned(old(rows), user);
        var missing := Missing(desired, have);
        var wanted := ToSet(DesiredIds(desired));
        match InsertError(user in users, missing)
        case Some(e) => r == Err(e) && rows == old(rows)
        case None =>
          && r.Ok? && r.value.0 == missing
          && ToSet(missing) == wanted - have
          && Distinct(r.value.1) && ToSet(r.value.1) == have - wanted
          && View() == if user in users then Local(users, old(View()).inbounds[user := wanted]) else old(View())
      ensures NewRowsAsAsked(old(rows), rows, user, desired, now)
      ensures r.Ok? ==> forall x :: x in old(rows) && x !in rows ==>
        x.userId == user && forall d :: d in desired ==> d.id != x.inbound.id
    {
      var current := Inbounds(user);
      ghost var have := Assigned(rows, user);
      var wanted := ToSet(DesiredIds(desired));
      MissingIs(desired, have);
      var tx, next, added, error := InsertMissing(user, desired, ToSet(InboundIds(current)), now);
      if error.Some? {
        return Err(error.value);
      }
      var removed;
      tx, removed := DeleteUnwanted(user, current, wanted, tx, next);
      assert have + ToSet(added) - ToSet(removed) == wanted;
      DesiredAreWanted(desired);
      assert Assigned(tx, user) == wanted;
      OnlyOneMoved(users, rows, tx, user);
      rows, nextRow := tx, next;
      r := Ok((added, removed));
    }

    /** The insert loop of SetInbounds, on the transaction's copy of the rows. */
    method InsertMissing(user: int, desired: seq<Inbound>, have: set<int>, now: int)
      returns (tx: seq<Row>, next: int, added: seq<int>, error: Option<UserError>)
      requires Valid() && have == Assigned(rows, user)
      ensures error == InsertError(user in users, Missing(desired, have))
      ensures error == None ==>
        && UniqueRows(tx) && nextRow <= next
        && (forall x :: x in tx ==> x.userId in users && x.id < next)
        && (forall x :: x in rows ==> x in tx) && NewRowsAsAsked(rows, tx, user, desired, now)
        && added == Missing(desired, have)
        && (forall k :: Assigned(tx, k) == if k == user then have + ToSet(added) else Assigned(rows, k))
    {
      tx, next, added, error := rows, nextRow, [], None;
      for i := 0 to |desired|
        invariant UniqueRows(tx) && nextRow <= next
        invariant forall x :: x in tx ==> x.userId in users && x.id < next
        invariant forall x :: x in rows ==> x in tx
        invariant NewRowsAsAsked(rows, tx, user, desired, now)
        invariant added == Missing(desired[..i], have)
        invariant Distinct(added) && error == None && (user !in users ==> added == [])
        invariant forall k :: Assigned(tx, k) == if k == user then have + ToSet(added) else Assigned(rows, k)
      {
        var d := desired[i];
        MissingSnoc(desired, i, have);
        if d.id in have {
          continue;
        }
        if user !in users {
          MissingStays(desired, i + 1, have);
          error := Some(NoSuchUser);
          return;
        }
        if d.id in Assigned(tx, user) {
          MissingDuplicate(desired, i, have);
          error := Some(InboundRepeated);
          return;
        }
        AssignedSnoc(tx, Row(next, user, d, now));
        OneNewRow(rows, tx, user, desired, now, Row(next, user, d, now));
        ToSetSnoc(added, d.id);
        tx, next, added := tx + [Row(next, user, d, now)], next + 1, added + [d.id];
      }
      assert desired[..|desired|] == desired;
    }

    /** The delete loop of SetInbounds. */
    method DeleteUnwanted(user: int, current: seq<Row>, wanted: set<int>, tx0: seq<Row>, next: int)
      returns (tx: seq<Row>, removed: seq<int>)
      requires UniqueRows(tx0) && forall x :: x in tx0 ==> x.userId in users && x.id < next
      requires SortedByInbound(current)
      requires forall x :: x in current ==> x in tx0 && x.userId == user
      ensures UniqueRows(tx) && forall x :: x in tx ==> x in tx0
      ensures forall x :: x in tx0 && x !in tx ==> x.userId == user && x.inbound.id !in wanted
      ensures Distinct(removed) && ToSet(removed) == ToSet(InboundIds(current)) - wanted
      ensures forall k :: Assigned(tx, k) == Without(Assigned(tx0, k), k == user, removed)
    {
      tx, removed := tx0, [];
      for i := 0 to |current|
        invariant UniqueRows(tx) && forall x :: x in tx ==> x in tx0
        invariant forall x :: x in tx0 && x !in tx ==> x.userId == user && x.inbound.id !in wanted
        invariant forall k :: i <= k < |current| ==> current[k] in tx && current[k].inbound.id !in removed
        invariant Distinct(removed)
        invariant ToSet(removed) == ToSet(InboundIds(current[..i])) - wanted
        invariant forall k :: Assigned(tx, k) == Without(Assigned(tx0, k), k == user, removed)
      {
        var ui := current[i];
        assert InboundIds(current[..i + 1]) == InboundIds(current[..i]) + [ui.inbound.id];
        ToSetSnoc(InboundIds(current[..i]), ui.inbound.id);
        if ui.inbound.id in wanted {
          continue;
        }
        DeleteRowDeletes(tx, ui.id);
        AssignedDelete(tx, ui);
        ToSetSnoc(removed, ui.inbound.id);
        tx, removed := DeleteRow(tx, ui.id), removed + [ui.inbound.id];
      }
      assert current[..|current|] == current;
    }
  }

  /** Why the inserts fail: the foreign key refuses the first one, or an inbound comes twice. */
  ghost function InsertError(known: bool, missing: seq<int>): Option<UserError> {
    if !known && missing != [] then Some(NoSuchUser)
    else if !Distinct(missing) then Some(InboundRepeated) else None
  }

  ghost function Without(had: set<int>, concerned: bool, removed: seq<int>): set<int> {
    if concerned then had - ToSet(removed) else had
  }

  /** Rows that were not there before are the user's, for inbounds as the form gives them, id, tag and protocol. */
  predicate NewRowsAsAsked(before: seq<Row>, after: seq<Row>, user: int, desired: seq<Inbound>, now: int) {
    forall x :: x in after && x !in before ==> x.userId == user && x.inbound in desired && x.createdAt == now
  }

  lemma OneNewRow(before: seq<Row>, after: seq<Row>, user: int, desired: seq<Inbound>, now: int, r: Row)
    requires NewRowsAsAsked(before, after, user, desired, now)
    requires r.userId == user && r.inbound in desired && r.createdAt == now
    ensures NewRowsAsAsked(before, after + [r], user, desired, now)
  {
  }

  lemma DesiredAreWanted(desired: seq<Inbound>)
    ensures forall d :: d in desired ==> d.id in ToSet(DesiredIds(desired))
  {
    forall d | d in desired ensures d.id in DesiredIds(desired) {
      var k :| 0 <= k < |desired| && desired[k] == d;
      assert DesiredIds(desired)[k] == d.id;
    }
  }

  lemma MissingStays(desired: seq<Inbound>, i: nat, have: set<int>)
    requires i <= |desired| && Missing(desired[..i], have) != []
    ensures Missing(desired, have) != []
  {
    assert desired == desired[..i] + desired[i..];
    MissingAppend(desired[..i], desired[i..], have);
  }

  lemma ToSetSnoc(s: seq<int>, x: int)
    ensures ToSet(s + [x]) == ToSet(s) + {x}
  {
  }

  function Edited(existing: User, form: User): User {
    existing.(username := form.username, subId := form.subId, flow := form.flow, cipher := form.cipher,
              totalGB := form.totalGB, expiryMs := form.expiryMs, notes := form.notes)
  }

  lemma IdsOfRows(found: seq<Row>, rows: seq<Row>, user: int)
    requires SortedByInbound(found)
    requires forall x :: x in found <==> x in rows && x.userId == user
    ensures ToSet(InboundIds(found)) == Assigned(rows, user)
    ensures Distinct(InboundIds(found))
  {
    forall id | id in Assigned(rows, user) ensures id in InboundIds(found) {
      var r :| r in rows && r.userId == user && r.inbound.id == id;
      var k :| 0 <= k < |found| && found[k] == r;
      assert InboundIds(found)[k] == id;
    }
    forall id | id in InboundIds(found) ensures id in Assigned(rows, user) {
      var k :| 0 <= k < |found| && InboundIds(found)[k] == id;
      assert found[k] in found;
    }
  }

  lemma {:induction false} MissingIs(desired: seq<Inbound>, have: set<int>)
    ensures ToSet(Missing(desired, have)) == ToSet(DesiredIds(desired)) - have
  {
    if desired == [] {
    } else {
      MissingIs(desired[1..], have);
      assert DesiredIds(desired) == [desired[0].id] + DesiredIds(desired[1..]);
      assert ToSet(DesiredIds(desired)) == {desired[0].id} + ToSet(DesiredIds(desired[1..]));
      assert ToSet(Missing(desired, have)) == ({desired[0].id} - have) + ToSet(Missing(desired[1..], have));
    }
  }

  lemma {:induction false} MissingAppend(a: seq<Inbound>, b: seq<Inbound>, have: set<int>)
    ensures Missing(a + b, have) == Missing(a, have) + Missing(b, have)
  {
    if a == [] {
      assert a + b == b;
    } else {
      assert (a + b)[1..] == a[1..] + b;
      MissingAppend(a[1..], b, have);
    }
  }

  lemma MissingSnoc(desired: seq<Inbound>, i: int, have: set<int>)
    requires 0 <= i < |desired|
    ensures Missing(desired[..i + 1], have) ==
      Missing(desired[..i], have) + (if desired[i].id in have then [] else [desired[i].id])
  {
    assert desired[..i + 1] == desired[..i] + [desired[i]];
    MissingAppend(desired[..i], [desired[i]], have);
  }

  lemma MissingDuplicate(desired: seq<Inbound>, i: int, have: set<int>)
    requires 0 <= i < |desired| && desired[i].id !in have
    requires desired[i].id in Missing(desired[..i], have)
    ensures !Distinct(Missing(desired, have))
  {
    var a, b := Missing(desired[..i], have), Missing(desired[i + 1..], have);
    assert desired == desired[..i] + ([desired[i]] + desired[i + 1..]);
    MissingAppend(desired[..i], [desired[i]] + desired[i + 1..], have);
    MissingAppend([desired[i]], desired[i + 1..], have);
    assert Missing(desired, have) == a + ([desired[i].id] + b);
    var k :| 0 <= k < |a| && a[k] == desired[i].id;
    assert Missing(desired, have)[k] == Missing(desired, have)[|a|];
  }

  function AddedTo(rows: seq<Row>, r: Row, user: int): set<int> {
    if user == r.userId then Assigned(rows, user) + {r.inbound.id} else Assigned(rows, user)
  }

  function DroppedFrom(rows: seq<Row>, r: Row, user: int): set<int> {
    if user == r.userId then Assigned(rows, user) - {r.inbound.id} else Assigned(rows, user)
  }

  lemma AssignedSnoc(rows: seq<Row>, r: Row)
    ensures forall k :: Assigned(rows + [r], k) == AddedTo(rows, r, k)
  {
    forall k ensures Assigned(rows + [r], k) == AddedTo(rows, r, k) {
      assert r in rows + [r];
    }
  }

  lemma AssignedDelete(rows: seq<Row>, r: Row)
    requires UniqueRows(rows) && r in rows
    ensures forall k :: Assigned(DeleteRow(rows, r.id), k) == DroppedFrom(rows, r, k)
  {
    DeleteRowDeletes(rows, r.id);
    forall k ensures Assigned(DeleteRow(rows, r.id), k) == DroppedFrom(rows, r, k) {
      forall x | x in rows && x.id == r.id ensures x == r {
      }
      forall x | x in rows && x.userId == r.userId && x.inbound.id == r.inbound.id ensures x == r {
      }
    }
  }
}
