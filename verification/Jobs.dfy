/**
 The outbox table "sync_jobs" (internal/sync/sync.go).

 The table is a sequence of rows in id order: ids are AUTOINCREMENT, so a new row is
 always last and no id comes back.  An SQL UPDATE is a value of type Statement, with
 its WHERE and SET parts as functions of one row.  Clock readings are parameters.
 */
module Jobs {
  import opened Options

  datatype Op = Assign | Update | Unassign | Delete | ResetTraffic | Unknown(name: string)

  datatype Status = Pending | InProgress | Success | Failed

  datatype Payload = Payload(
    email: string, subId: string, uuid: string, password: string, cipher: string,
    flow: string, enable: bool, totalGB: int, expiryMs: int)

  datatype Job = Job(
    id: int, userId: int, inboundId: int, op: Op, status: Status, attempts: nat,
    lastError: string, nextAttemptAt: int, payload: Payload, createdAt: int, updatedAt: int)

  ghost predicate Ascending(t: seq<Job>) {
    forall i, j :: 0 <= i < j < |t| ==> t[i].id < t[j].id
  }

  /** What never changes in a row: the fields the enqueuer wrote. */
  datatype Spec = Spec(userId: int, inboundId: int, op: Op, payload: Payload)

  function SpecOf(j: Job): Spec {
    Spec(j.userId, j.inboundId, j.op, j.payload)
  }

  function NewRow(id: int, spec: Spec, now: int): Job {
    Job(id, spec.userId, spec.inboundId, spec.op, Pending, 0, "", now, spec.payload, now, now)
  }

  /** One SQL UPDATE on sync_jobs. */
  datatype Statement =
    | MarkInProgress(ids: set<int>)
    | MarkSuccess(id: int)
    | MarkRetry(id: int, attempts: nat, error: string, next: int)
    | MarkFailed(id: int, attempts: nat, error: string)
    | Retry(id: int)
    | ReapStale(cutoff: int)

  predicate Where(s: Statement, j: Job) {
    match s
    case MarkInProgress(ids) => j.id in ids
    case MarkSuccess(id) => j.id == id
    case MarkRetry(id, _, _, _) => j.id == id
    case MarkFailed(id, _, _) => j.id == id
    case Retry(id) => j.id == id && j.status == Failed
    case ReapStale(cutoff) => j.status == InProgress && j.updatedAt < cutoff
  }

  function Set(s: Statement, j: Job, now: int): Job {
    match s
    case MarkInProgress(_) => j.(status := InProgress, updatedAt := now)
    case MarkSuccess(_) => j.(status := Success, lastError := "", updatedAt := now)
    case MarkRetry(_, n, e, next) =>
      j.(status := Pending, attempts := n, lastError := e, nextAttemptAt := next, updatedAt := now)
    case MarkFailed(_, n, e) => j.(status := Failed, attempts := n, lastError := e, updatedAt := now)
    case Retry(_) => j.(status := Pending, nextAttemptAt := 0, updatedAt := now)
    case ReapStale(_) => j.(status := Pending, nextAttemptAt := now, updatedAt := now)
  }

  function Exec(t: seq<Job>, s: Statement, now: int): seq<Job> {
    seq(|t|, i requires 0 <= i < |t| => if Where(s, t[i]) then Set(s, t[i], now) else t[i])
  }

  lemma ExecKeepsRows(t: seq<Job>, s: Statement, now: int)
    ensures var t' := Exec(t, s, now);
      |t'| == |t| && forall i :: 0 <= i < |t| ==> t'[i].id == t[i].id && SpecOf(t'[i]) == SpecOf(t[i])
  {
  }

  lemma ExecOfPrefix(t: seq<Job>, i: int, s: Statement, now: int)
    requires 0 <= i < |t|
    ensures Exec(t[..i + 1], s, now) ==
      Exec(t[..i], s, now) + [if Where(s, t[i]) then Set(s, t[i], now) else t[i]]
  {
  }

  /** What each statement makes of a row, column by column. */
  lemma StatementsByColumn(t: seq<Job>, s: Statement, now: int, i: nat)
    requires i < |t|
    ensures var j, j' := t[i], Exec(t, s, now)[i];
      match s
      case MarkInProgress(ids) => j' == if j.id in ids then j.(status := InProgress, updatedAt := now) else j
      case MarkSuccess(id) => j' == if j.id == id then j.(status := Success, lastError := "", updatedAt := now) else j
      case MarkRetry(id, n, error, next) =>
        j' == if j.id != id then j else
          j.(status := Pending, attempts := n, lastError := error, nextAttemptAt := next, updatedAt := now)
      case MarkFailed(id, n, error) =>
        j' == if j.id != id then j else j.(status := Failed, attempts := n, lastError := error, updatedAt := now)
      case Retry(id) =>
        j' == if j.id != id || j.status != Failed then j else
          j.(status := Pending, nextAttemptAt := 0, updatedAt := now)
      case ReapStale(cutoff) =>
        j' == if j.status != InProgress || cutoff <= j.updatedAt then j else
          j.(status := Pending, nextAttemptAt := now, updatedAt := now)
  {
  }

  // ---------------------------------------------------------------- claiming

  predicate Due(j: Job, now: int) {
    j.status == Pending && j.nextAttemptAt <= now
  }

  function DueRows(t: seq<Job>, now: int): seq<Job> {
    if t == [] then [] else (if Due(t[0], now) then [t[0]] else []) + DueRows(t[1..], now)
  }

  /** LIMIT n, where a negative n means no limit. */
  function Limit(t: seq<Job>, n: int): seq<Job> {
    if 0 <= n < |t| then t[..n] else t
  }

  function Selected(t: seq<Job>, now: int, limit: int): seq<Job> {
    Limit(DueRows(t, now), limit)
  }

  function Ids(t: seq<Job>): set<int> {
    set j | j in t :: j.id
  }

  ghost predicate HasRow(t: seq<Job>, id: int) {
    exists i :: 0 <= i < |t| && t[i].id == id
  }

  lemma {:induction false} DueRowsAreTheDueRows(t: seq<Job>, now: int)
    requires Ascending(t)
    ensures Ascending(DueRows(t, now))
    ensures forall j :: j in DueRows(t, now) <==> j in t && Due(j, now)
  {
    if t == [] {
    } else {
      var rest := DueRows(t[1..], now);
      DueRowsAreTheDueRows(t[1..], now);
      assert t == [t[0]] + t[1..];
      forall k | 0 <= k < |rest| ensures t[0].id < rest[k].id {
        assert rest[k] in t[1..];
      }
    }
  }

  /** SELECT ... WHERE pending AND due ORDER BY id LIMIT n: the batch is the `limit` lowest
      due ids in ascending order, and it is short only when no due row is left out. */
  lemma {:induction false} SelectedIsLowestDue(t: seq<Job>, now: int, limit: int)
    requires Ascending(t)
    ensures var b := Selected(t, now, limit);
      && Ascending(b)
      && (forall j :: j in b ==> j in t && j.status == Pending && j.nextAttemptAt <= now)
      && (0 <= limit ==> |b| <= limit)
      && (forall j :: j in t && j.status == Pending && j.nextAttemptAt <= now && j !in b ==>
            0 <= limit && |b| == limit && forall k :: 0 <= k < |b| ==> b[k].id < j.id)
  {
    DueRowsAreTheDueRows(t, now);
    var d := DueRows(t, now);
    var b := Selected(t, now, limit);
    forall j | j in b ensures j in t && j.status == Pending && j.nextAttemptAt <= now {
      assert j in d && Due(j, now);
    }
    forall j | j in t && Due(j, now) && j !in b
      ensures 0 <= limit && |b| == limit && forall k :: 0 <= k < |b| ==> b[k].id < j.id
    {
      var i :| 0 <= i < |d| && d[i] == j;
      assert 0 <= limit < |d| && limit <= i;
    }
  }

  // ---------------------------------------------------------------- rollup

  datatype Rollup = RollupNone | RollupError | RollupSyncing | RollupSynced

  /** Row i is the newest row of its inbound for its user (ROW_NUMBER() = 1). */
  predicate Latest(t: seq<Job>, i: int)
    requires 0 <= i < |t|
  {
    forall k :: i < k < |t| ==> t[k].userId != t[i].userId || t[k].inboundId != t[i].inboundId
  }

  /** The rows of the rollup query, in whatever order. */
  function LatestStatuses(t: seq<Job>, user: int, n: nat): (r: seq<Status>)
    requires n <= |t|
    ensures forall st :: st in r <==>
      exists i :: 0 <= i < n && t[i].userId == user && t[i].status == st && Latest(t, i)
  {
    if n == 0 then [] else
      LatestStatuses(t, user, n - 1) +
      (if t[n - 1].userId == user && Latest(t, n - 1) then [t[n - 1].status] else [])
  }

  /** Some assigned inbound's newest job of `user` has a status in `among`. */
  ghost predicate SomeLatest(t: seq<Job>, user: int, among: set<Status>) {
    exists i :: 0 <= i < |t| && t[i].userId == user && Latest(t, i) && t[i].status in among
  }

  ghost predicate HasJobs(t: seq<Job>, user: int) {
    exists j :: j in t && j.userId == user
  }

  ghost function RollupSpec(t: seq<Job>, user: int): Rollup {
    if !HasJobs(t, user) then RollupNone
    else if SomeLatest(t, user, {Failed}) then RollupError
    else if SomeLatest(t, user, {Pending, InProgress}) then RollupSyncing
    else RollupSynced
  }

  /** Every inbound with a job has a newest one. */
  lemma {:induction false} LatestExists(t: seq<Job>, i: int) returns (k: int)
    requires 0 <= i < |t|
    ensures i <= k < |t| && Latest(t, k)
    ensures t[k].userId == t[i].userId && t[k].inboundId == t[i].inboundId
    decreases |t| - i
  {
    if Latest(t, i) {
      k := i;
    } else {
      var n :| i < n < |t| && t[n].userId == t[i].userId && t[n].inboundId == t[i].inboundId;
      k := LatestExists(t, n);
    }
  }

  /** A finished user is one with a job for some inbound and every newest job successful. */
  lemma {:induction false} SyncedMeansEveryLatestSucceeded(t: seq<Job>, user: int)
    ensures RollupSpec(t, user) == RollupSynced <==>
      && HasJobs(t, user)
      && (forall i :: 0 <= i < |t| && t[i].userId == user && Latest(t, i) ==> t[i].status == Success)
  {
    if RollupSpec(t, user) == RollupSynced {
      forall i | 0 <= i < |t| && t[i].userId == user && Latest(t, i) ensures t[i].status == Success {
        assert t[i].status in {Failed} ==> SomeLatest(t, user, {Failed});
        assert t[i].status in {Pending, InProgress} ==> SomeLatest(t, user, {Pending, InProgress});
      }
    }
  }

  // ---------------------------------------------------------------- pruning

  predicate Prunable(j: Job, cutoff: int) {
    j.status == Success && j.updatedAt < cutoff
  }

  function Pruned(t: seq<Job>, cutoff: int): seq<Job> {
    if t == [] then [] else (if Prunable(t[0], cutoff) then [] else [t[0]]) + Pruned(t[1..], cutoff)
  }

  /** Which rows a prune leaves. */
  lemma {:induction false} PrunedAre(t: seq<Job>, cutoff: int)
    ensures forall j :: j in Pruned(t, cutoff) <==> j in t && (j.status == Success ==> cutoff <= j.updatedAt)
  {
    if t == [] {
    } else {
      PrunedAre(t[1..], cutoff);
      assert t == [t[0]] + t[1..];
    }
  }

  /** DELETE keeps the order and exactly the rows that are not old successes. */
  lemma {:induction false} PrunedKeepsTheRest(t: seq<Job>, cutoff: int)
    requires Ascending(t)
    ensures Ascending(Pruned(t, cutoff))
    ensures forall j :: j in Pruned(t, cutoff) <==> j in t && !Prunable(j, cutoff)
  {
    if t == [] {
    } else {
      var rest := Pruned(t[1..], cutoff);
      PrunedKeepsTheRest(t[1..], cutoff);
      assert t == [t[0]] + t[1..];
      forall k | 0 <= k < |rest| ensures t[0].id < rest[k].id {
        assert rest[k] in t[1..];
      }
    }
  }

  /** In an id-ordered table "newest" can be said without positions. */
  ghost predicate NewestRow(t: seq<Job>, j: Job) {
    j in t && forall k :: k in t && k.userId == j.userId && k.inboundId == j.inboundId ==> k.id <= j.id
  }

  lemma LatestIsNewest(t: seq<Job>, i: int)
    requires Ascending(t) && 0 <= i < |t|
    ensures Latest(t, i) <==> NewestRow(t, t[i])
  {
    if Latest(t, i) {
      forall k | k in t && k.userId == t[i].userId && k.inboundId == t[i].inboundId
        ensures k.id <= t[i].id
      {
        var n :| 0 <= n < |t| && t[n] == k;
      }
    } else {
      var n :| i < n < |t| && t[n].userId == t[i].userId && t[n].inboundId == t[i].inboundId;
      assert t[n] in t && t[i].id < t[n].id;
    }
  }

  lemma SomeLatestIsNewest(t: seq<Job>, user: int, among: set<Status>)
    requires Ascending(t)
    ensures SomeLatest(t, user, among) <==>
      exists j :: NewestRow(t, j) && j.userId == user && j.status in among
  {
    if SomeLatest(t, user, among) {
      var i :| 0 <= i < |t| && t[i].userId == user && Latest(t, i) && t[i].status in among;
      LatestIsNewest(t, i);
      assert NewestRow(t, t[i]);
    }
    if j :| NewestRow(t, j) && j.userId == user && j.status in among {
      var i :| 0 <= i < |t| && t[i] == j;
      LatestIsNewest(t, i);
    }
  }

  lemma SomeLatestHasJobs(t: seq<Job>, user: int, among: set<Status>)
    ensures SomeLatest(t, user, among) ==> HasJobs(t, user)
  {
    if SomeLatest(t, user, among) {
      var i :| 0 <= i < |t| && t[i].userId == user && Latest(t, i) && t[i].status in among;
      assert t[i] in t;
    }
  }

  /** Pruning never hides an unfinished or failed newest job. */
  lemma PruneKeepsNewestUnfinished(t: seq<Job>, cutoff: int, user: int, among: set<Status>)
    requires Ascending(t) && Success !in among
    requires SomeLatest(t, user, among)
    ensures SomeLatest(Pruned(t, cutoff), user, among)
  {
    PrunedKeepsTheRest(t, cutoff);
    SomeLatestIsNewest(t, user, among);
    var j :| NewestRow(t, j) && j.userId == user && j.status in among;
    assert NewestRow(Pruned(t, cutoff), j);
    SomeLatestIsNewest(Pruned(t, cutoff), user, among);
  }

  /** The rollup looks at the newest row of each of the user's inbounds: an error if one of them failed, otherwise
      syncing if one is unfinished, otherwise synced; and none for a user without jobs. */
  lemma RollupIs(t: seq<Job>, user: int)
    requires Ascending(t)
    ensures RollupSpec(t, user) == RollupError <==>
      exists j :: NewestRow(t, j) && j.userId == user && j.status == Failed
    ensures RollupSpec(t, user) == RollupSyncing <==>
      && (forall j :: NewestRow(t, j) && j.userId == user ==> j.status != Failed)
      && exists j :: NewestRow(t, j) && j.userId == user && (j.status == Pending || j.status == InProgress)
    ensures RollupSpec(t, user) == RollupNone <==> forall j :: j in t ==> j.userId != user
  {
    SomeLatestIsNewest(t, user, {Failed});
    SomeLatestIsNewest(t, user, {Pending, InProgress});
    SomeLatestHasJobs(t, user, {Failed});
    SomeLatestHasJobs(t, user, {Pending, InProgress});
  }

  /** "error" survives a prune; "syncing" stays or turns into "error", never into "synced" or "none". */
  lemma PruneOnlyWorsens(t: seq<Job>, cutoff: int, user: int)
    requires Ascending(t)
    ensures var before, after := RollupSpec(t, user), RollupSpec(Pruned(t, cutoff), user);
      && (before == RollupError ==> after == RollupError)
      && (before == RollupSyncing ==> after == RollupSyncing || after == RollupError)
      && (before == RollupNone ==> after == RollupNone)
  {
    PrunedKeepsTheRest(t, cutoff);
    var p := Pruned(t, cutoff);
    if SomeLatest(t, user, {Failed}) {
      PruneKeepsNewestUnfinished(t, cutoff, user, {Failed});
    }
    if SomeLatest(t, user, {Pending, InProgress}) {
      PruneKeepsNewestUnfinished(t, cutoff, user, {Pending, InProgress});
    }
  }

  /** Whether a prune at `cutoff` lifts an old success off an older unfinished row with a status
      in `among`: that row becomes the newest of its inbound. */
  ghost predicate Exposes(t: seq<Job>, cutoff: int, user: int, among: set<Status>) {
    exists j :: j in t && j.userId == user && j.status in among &&
      forall k :: k in t && k.userId == user && k.inboundId == j.inboundId && j.id < k.id ==> Prunable(k, cutoff)
  }

  lemma ExposedIsNewestAfterPrune(t: seq<Job>, cutoff: int, user: int, among: set<Status>)
    requires Ascending(t) && Success !in among
    ensures Exposes(t, cutoff, user, among) <==> SomeLatest(Pruned(t, cutoff), user, among)
  {
    PrunedKeepsTheRest(t, cutoff);
    var p := Pruned(t, cutoff);
    SomeLatestIsNewest(p, user, among);
    if Exposes(t, cutoff, user, among) {
      var j :| j in t && j.userId == user && j.status in among &&
        forall k :: k in t && k.userId == user && k.inboundId == j.inboundId && j.id < k.id ==> Prunable(k, cutoff);
      assert NewestRow(p, j);
    }
    if j :| NewestRow(p, j) && j.userId == user && j.status in among {
      forall k | k in t && k.userId == user && k.inboundId == j.inboundId && j.id < k.id
        ensures Prunable(k, cutoff)
      {
        assert k in p <==> !Prunable(k, cutoff);
      }
      assert j in t;
    }
  }

  /** "A prune leaves the rollup alone" is false in general.  It is true exactly when the prune
      exposes no failed row under a status other than "error", no unfinished row under "synced",
      and does not delete a "synced" user's last row. */
  lemma PruneKeepsRollupIff(t: seq<Job>, cutoff: int, user: int)
    requires Ascending(t)
    ensures var before := RollupSpec(t, user);
      RollupSpec(Pruned(t, cutoff), user) == before <==>
        && (before != RollupError ==> !Exposes(t, cutoff, user, {Failed}))
        && (before == RollupSynced ==>
              && !Exposes(t, cutoff, user, {Pending, InProgress})
              && exists j :: j in t && j.userId == user && !Prunable(j, cutoff))
  {
    PrunedKeepsTheRest(t, cutoff);
    ExposedIsNewestAfterPrune(t, cutoff, user, {Failed});
    ExposedIsNewestAfterPrune(t, cutoff, user, {Pending, InProgress});
    PruneOnlyWorsens(t, cutoff, user);
    assert HasJobs(Pruned(t, cutoff), user) <==> exists j :: j in t && j.userId == user && !Prunable(j, cutoff);
    SomeLatestHasJobs(Pruned(t, cutoff), user, {Failed});
    SomeLatestHasJobs(Pruned(t, cutoff), user, {Pending, InProgress});
  }

  // ---------------------------------------------------------------- the store

  /** Marking row by row comes to marking the batch. */
  lemma OneMoreMarked(t: seq<Job>, b: seq<Job>, i: nat, now: int)
    requires i < |b|
    ensures Exec(Exec(t, MarkInProgress(Ids(b[..i])), now), MarkInProgress({b[i].id}), now)
      == Exec(t, MarkInProgress(Ids(b[..i + 1])), now)
  {
    assert b[..i + 1] == b[..i] + [b[i]];
    assert Ids(b[..i + 1]) == Ids(b[..i]) + {b[i].id};
  }

  /** What the rollup asks of the table, it can ask of the statuses the query returns. */
  lemma LatestStatusesDecide(t: seq<Job>, user: int)
    ensures var statuses := LatestStatuses(t, user, |t|);
      && (HasJobs(t, user) <==> statuses != [])
      && (SomeLatest(t, user, {Failed}) <==> Failed in statuses)
      && (SomeLatest(t, user, {Pending, InProgress}) <==> Pending in statuses || InProgress in statuses)
  {
    var statuses := LatestStatuses(t, user, |t|);
    if j :| j in t && j.userId == user {
      var i :| 0 <= i < |t| && t[i] == j;
      var k := LatestExists(t, i);
      assert t[k].status in statuses;
    }
    if statuses != [] {
      assert statuses[0] in statuses;
    }
  }

  /** Store of internal/sync/sync.go: the table and its AUTOINCREMENT counter. */
  class Store {
    var rows: seq<Job>
    var nextId: int

    ghost predicate Valid()
      reads this
    {
      Ascending(rows) && forall j :: j in rows ==> j.id < nextId
    }

    constructor ()
      ensures Valid() && rows == [] && nextId == 1
    {
      rows, nextId := [], 1;
    }

    method Enqueue(spec: Spec, now: int) returns (id: int)
      requires Valid()
      modifies this
      ensures Valid()
      ensures id == old(nextId) && nextId == id + 1
      ensures rows == old(rows) + [NewRow(id, spec, now)]
      ensures var j := rows[|old(rows)|];
        && j.id == id && j.userId == spec.userId && j.inboundId == spec.inboundId && j.op == spec.op
        && j.payload == spec.payload && j.status == Pending && j.attempts == 0 && j.lastError == ""
        && j.nextAttemptAt == now && j.createdAt == now && j.updatedAt == now
    {
      id := nextId;
      rows, nextId := rows + [NewRow(id, spec, now)], id + 1;
    }

    /** One transaction: select the batch, then mark its rows one by one. */
    method ClaimBatch(limit: int, now: int) returns (batch: seq<Job>)
      requires Valid()
      modifies `rows
      ensures Valid()
      ensures rows == Exec(old(rows), MarkInProgress(Ids(Selected(old(rows), now, limit))), now)
      ensures |batch| == |Selected(old(rows), now, limit)|
      ensures forall k :: 0 <= k < |batch| ==>
        batch[k] == Selected(old(rows), now, limit)[k].(status := InProgress)
    {
      ghost var before := rows;
      var selected := Selected(rows, now, limit);
      batch := selected;
      var tx := rows;
      for i := 0 to |selected|
        invariant tx == Exec(before, MarkInProgress(Ids(selected[..i])), now)
        invariant |batch| == |selected|
        invariant forall k :: 0 <= k < |batch| ==>
          batch[k] == if k < i then selected[k].(status := InProgress) else selected[k]
      {
        OneMoreMarked(before, selected, i, now);
        tx := Exec(tx, MarkInProgress({batch[i].id}), now);
        batch := batch[i := batch[i].(status := InProgress)];
      }
      assert selected[..|selected|] == selected;
      rows := tx;
    }

    method Run(s: Statement, now: int) returns (affected: nat)
      requires Valid()
      modifies `rows
      ensures Valid()
      ensures rows == Exec(old(rows), s, now)
      ensures affected == 0 <==> forall j :: j in old(rows) ==> !Where(s, j)
    {
      affected := 0;
      var before, tx := rows, [];
      for i := 0 to |before|
        invariant tx == Exec(before[..i], s, now)
        invariant affected == 0 <==> forall k :: 0 <= k < i ==> !Where(s, before[k])
      {
        ExecOfPrefix(before, i, s, now);
        if Where(s, before[i]) {
          tx, affected := tx + [Set(s, before[i], now)], affected + 1;
        } else {
          tx := tx + [before[i]];
        }
      }
      assert before[..|before|] == before;
      ExecKeepsRows(before, s, now);
      rows := tx;
      assert Ascending(rows);
    }

    /** False stands for ErrNotFound: no failed job has this id. */
    method RetryJob(id: int, now: int) returns (found: bool)
      requires Valid()
      modifies `rows
      ensures Valid()
      ensures found <==> exists j :: j in old(rows) && j.id == id && j.status == Failed
      ensures rows == if found then Exec(old(rows), Retry(id), now) else old(rows)
    {
      ghost var before := rows;
      var n := Run(Retry(id), now);
      found := n != 0;
      if n == 0 {
        forall i | 0 <= i < |before| ensures rows[i] == before[i] {
          assert before[i] in before;
        }
        assert rows == before;
      } else {
        ghost var j :| j in before && Where(Retry(id), j);
      }
    }

    method Prune(cutoff: int)
      requires Valid()
      modifies `rows
      ensures Valid()
      ensures rows == Pruned(old(rows), cutoff)
    {
      PrunedKeepsTheRest(rows, cutoff);
      rows := Pruned(rows, cutoff);
    }

    /** RollupStatusForUser: one pass over the newest status of each inbound. */
    method RollupStatusForUser(user: int) returns (r: Rollup)
      ensures r == RollupSpec(rows, user)
    {
      var statuses := LatestStatuses(rows, user, |rows|);
      var any, anyFailed, anyPending := false, false, false;
      for n := 0 to |statuses|
        invariant any <==> 0 < n
        invariant anyFailed <==> Failed in statuses[..n]
        invariant anyPending <==> Pending in statuses[..n] || InProgress in statuses[..n]
      {
        any := true;
        match statuses[n]
        case Failed => anyFailed := true;
        case Pending => anyPending := true;
        case InProgress => anyPending := true;
        case Success =>
      }
      assert statuses[..|statuses|] == statuses;
      LatestStatusesDecide(rows, user);
      r := if !any then RollupNone else if anyFailed then RollupError
           else if anyPending then RollupSyncing else RollupSynced;
    }
  }
}
