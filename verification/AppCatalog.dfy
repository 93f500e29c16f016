/**
 The application catalog (internal/apps/apps.go): a cache of a table that is considered fresh as long
 as a fingerprint (row count, newest updated_at) does not move.  The fingerprint is read outside the
 lock and apart from the rows, so writes and other callers' reloads may land anywhere in between.

 `versions` records every state the table went through; Interfere stands for whatever other
 goroutines do between two sections of one call.
 */
module AppCatalog {
  import opened Options

  /** `texts`: name, icon, description, platforms, download, deeplink, instructions. */
  datatype App = App(id: nat, texts: seq<string>, visible: bool, sortOrder: int)

  datatype Row = Row(app: App, updatedAt: int)

  /** A table state, with the newest stamp any write has carried so far. */
  datatype Version = Version(table: map<nat, Row>, clock: int)

  predicate Newest(table: map<nat, Row>, m: int) {
    if table == map[] then m == 0
    else (exists id :: id in table && table[id].updatedAt == m) && forall id :: id in table ==> table[id].updatedAt <= m
  }

  /** SELECT COUNT(*), MAX(updated_at), with NULL read as 0. */
  predicate Fingerprint(table: map<nat, Row>, count: int, newest: int) {
    count == |table| && Newest(table, newest)
  }

  /** SELECT ... ORDER BY sort_order: all rows, once each, sorted; ties in any order. */
  ghost predicate Lists(table: map<nat, Row>, apps: seq<App>) {
    && |apps| == |table|
    && (forall i :: 0 <= i < |apps| ==> apps[i].id in table && table[apps[i].id].app == apps[i])
    && (forall i, j :: 0 <= i < j < |apps| ==> apps[i].id != apps[j].id && apps[i].sortOrder <= apps[j].sortOrder)
  }

  predicate Stamped(v: Version) {
    0 <= v.clock && forall id :: id in v.table ==> v.table[id].app.id == id && v.table[id].updatedAt <= v.clock
  }

  /** A row of b stamped no later than m was there, unchanged, in a. */
  predicate Kept(a: map<nat, Row>, b: map<nat, Row>, m: int) {
    forall id :: id in b && b[id].updatedAt <= m ==> id in a && a[id] == b[id]
  }

  lemma SubmapSameSize(a: map<nat, Row>, b: map<nat, Row>)
    requires |a| == |b| && forall id :: id in a ==> id in b && a[id] == b[id]
    ensures a == b
  {
    assert a.Keys <= b.Keys;
    assert |b.Keys - a.Keys| == |b.Keys| - |a.Keys|;
    assert a.Keys == b.Keys;
  }

  /** The fingerprint argument: if table f has as many rows as table l, no row stamped after m, and of those
      stamped no later than m only rows of l, then f is l.  A delete cannot hide behind an unchanged maximum, nor
      an update behind an unchanged count. */
  lemma FingerprintDecides(l: map<nat, Row>, f: map<nat, Row>, m: int)
    requires Kept(l, f, m) && |f| == |l|
    requires forall id :: id in f ==> f[id].updatedAt <= m
    ensures f == l
  {
    SubmapSameSize(f, l);
  }

  /** The clauses are both needed: a count alone misses an update, a maximum alone misses a delete. */
  lemma NeitherCountNorMaximumDecides(a: App, b: App)
    requires a.id != b.id
    ensures var t := map[a.id := Row(a, 1), b.id := Row(b, 2)];
      && Newest(t, 2) && Newest(t - {a.id}, 2) && t - {a.id} != t
      && |t[a.id := Row(a, 3)]| == |t| && t[a.id := Row(a, 3)] != t
  {
    var t := map[a.id := Row(a, 1), b.id := Row(b, 2)];
    assert t[b.id].updatedAt == 2 && (t - {a.id})[b.id].updatedAt == 2;
    assert a.id in t && a.id !in t - {a.id};
    assert t[a.id := Row(a, 3)].Keys == t.Keys;
    assert t[a.id := Row(a, 3)][a.id] != t[a.id];
  }

  // ---------------------------------------------------------------- stamps in another order than commits

  /** A committed write, with the stamp its writer drew, maybe long before. */
  datatype Write = Store(id: nat, row: Row) | Drop(id: nat)

  function Written(table: map<nat, Row>, w: Write): map<nat, Row> {
    match w
    case Store(id, row) => table[id := row]
    case Drop(id) => table - {id}
  }

  function WrittenAll(table: map<nat, Row>, ws: seq<Write>): map<nat, Row> {
    if ws == [] then table else Written(WrittenAll(table, ws[..|ws| - 1]), ws[|ws| - 1])
  }

  predicate StampedAbove(ws: seq<Write>, m: int) {
    forall i :: 0 <= i < |ws| && ws[i].Store? ==> m < ws[i].row.updatedAt
  }

  lemma {:induction false} OldRowsWereThere(table: map<nat, Row>, ws: seq<Write>, m: int)
    requires StampedAbove(ws, m)
    ensures var t := WrittenAll(table, ws);
      forall id :: id in t && t[id].updatedAt <= m ==> id in table && t[id] == table[id]
  {
    if ws == [] {
    } else {
      OldRowsWereThere(table, ws[..|ws| - 1], m);
    }
  }

  /** Whatever order stamps are drawn in, the fingerprint sees any writes whose stamps are above the newest
      one loaded: it comes out the same only if the table did. */
  lemma StampsAboveAreSeen(table: map<nat, Row>, ws: seq<Write>, count: int, m: int)
    requires Fingerprint(table, count, m) && StampedAbove(ws, m)
    ensures Fingerprint(WrittenAll(table, ws), count, m) ==> WrittenAll(table, ws) == table
  {
    OldRowsWereThere(table, ws, m);
    if Fingerprint(WrittenAll(table, ws), count, m) {
      SubmapSameSize(WrittenAll(table, ws), table);
    }
  }

  /** A single update is missed exactly when its stamp is not above the newest one loaded and the newest one
      survives it; an insert or a delete never is. */
  lemma UpdateIsMissedIff(table: map<nat, Row>, id: nat, row: Row, count: int, m: int)
    requires Fingerprint(table, count, m) && id in table
    ensures Fingerprint(table[id := row], count, m) <==>
      row.updatedAt <= m && (row.updatedAt == m || exists k :: k in table && k != id && table[k].updatedAt == m)
  {
    var t := table[id := row];
    assert t.Keys == table.Keys && |t| == |t.Keys| == |table.Keys| == |table|;
    assert t[id] == row && forall k :: k in table && k != id ==> t[k] == table[k];
    if row.updatedAt <= m {
      if row.updatedAt != m && exists k :: k in table && k != id && table[k].updatedAt == m {
        var k :| k in table && k != id && table[k].updatedAt == m;
        assert k in t && t[k].updatedAt == m;
      }
    }
  }

  lemma InsertsAndDeletesAreSeen(table: map<nat, Row>, id: nat, row: Row, count: int, m: int)
    requires Fingerprint(table, count, m)
    ensures id !in table ==> !Fingerprint(table[id := row], count, m)
    ensures id in table ==> !Fingerprint(table - {id}, count, m)
  {
    if id in table {
      assert (table - {id}).Keys == table.Keys - {id};
    } else {
      assert table[id := row].Keys == table.Keys + {id};
    }
  }

  /** One writer draws stamp 3 for app a, another draws 4 for app b and commits first; the cache is loaded;
      then the first commits.  The fingerprint has not moved, and a's update is not seen. */
  lemma OppositeCommitsAreMissed(a: App, a': App, b: App, b': App)
    requires a.id == a'.id != b.id == b'.id && a != a'
    ensures var table := map[a.id := Row(a, 1), b.id := Row(b, 2)];
      var loaded := WrittenAll(table, [Store(b.id, Row(b', 4))]);
      var later := WrittenAll(table, [Store(b.id, Row(b', 4)), Store(a.id, Row(a', 3))]);
      && Fingerprint(loaded, 2, 4) && Fingerprint(later, 2, 4) && later != loaded
  {
    var table := map[a.id := Row(a, 1), b.id := Row(b, 2)];
    var ws := [Store(b.id, Row(b', 4)), Store(a.id, Row(a', 3))];
    var loaded := WrittenAll(table, [ws[0]]);
    assert [ws[0]][..0] == [] && ws[..1] == [ws[0]];
    assert WrittenAll(table, [ws[0]]) == Written(WrittenAll(table, []), ws[0]);
    assert loaded == map[a.id := Row(a, 1), b.id := Row(b', 4)];
    assert loaded.Keys == {a.id, b.id};
    assert loaded[b.id].updatedAt == 4;
    UpdateIsMissedIff(loaded, a.id, Row(a', 3), 2, 4);
    assert loaded[a.id := Row(a', 3)][a.id] != loaded[a.id];
  }

  function VisibleOf(apps: seq<App>): seq<App> {
    if apps == [] then []
    else VisibleOf(apps[..|apps| - 1]) + (if apps[|apps| - 1].visible then [apps[|apps| - 1]] else [])
  }

  /** What List shows of a list: the visible apps and no other, in the same order. */
  ghost predicate Shows(all: seq<App>, out: seq<App>) {
    && (forall a :: a in out <==> a in all && a.visible)
    && (forall i, j :: 0 <= i < j < |out| ==> ComesBefore(all, out[i], out[j]))
  }

  ghost predicate ComesBefore(all: seq<App>, a: App, b: App) {
    exists i, j :: 0 <= i < j < |all| && all[i] == a && all[j] == b
  }

  lemma {:induction false} VisibleOfShows(all: seq<App>)
    ensures Shows(all, VisibleOf(all))
  {
    if all == [] {
    } else {
      var init, last, shown := all[..|all| - 1], all[|all| - 1], VisibleOf(all[..|all| - 1]);
      VisibleOfShows(init);
      assert all == init + [last];
      forall i, j | 0 <= i < j < |VisibleOf(all)| ensures ComesBefore(all, VisibleOf(all)[i], VisibleOf(all)[j]) {
        if j < |shown| {
          assert ComesBefore(init, shown[i], shown[j]);
          var k, n :| 0 <= k < n < |init| && init[k] == shown[i] && init[n] == shown[j];
          assert all[k] == shown[i] && all[n] == shown[j];
        } else {
          assert shown[i] in init;
          var k :| 0 <= k < |init| && init[k] == shown[i];
          assert all[k] == shown[i] && all[|init|] == last;
        }
      }
    }
  }

  /** Exactly the table's visible apps, each once, by ascending sort order. */
  ghost predicate ShowsTable(table: map<nat, Row>, out: seq<App>) {
    && (forall a :: a in out <==> a.id in table && table[a.id].app == a && a.visible)
    && (forall i, j :: 0 <= i < j < |out| ==> out[i].id != out[j].id && out[i].sortOrder <= out[j].sortOrder)
  }

  /** A list of a table's rows has each app once and sorted, and so has what is shown of it. */
  lemma ShownOnceAndSorted(table: map<nat, Row>, all: seq<App>, out: seq<App>)
    requires Lists(table, all) && Shows(all, out)
    ensures ShowsTable(table, out)
  {
    ListsEveryRow(table, all);
    forall i, j | 0 <= i < j < |out| ensures out[i].id != out[j].id && out[i].sortOrder <= out[j].sortOrder {
      assert ComesBefore(all, out[i], out[j]);
    }
  }

  /** As many different ids as the table has rows: none is left out. */
  lemma ListsEveryRow(table: map<nat, Row>, all: seq<App>)
    requires Lists(table, all)
    ensures forall id :: id in table ==> table[id].app in all
  {
    var ids := set i | 0 <= i < |all| :: all[i].id;
    IdsCounted(all, |all|);
    assert ids <= table.Keys && |ids| == |table.Keys|;
    SubsetSameSize(ids, table.Keys);
    forall id | id in table ensures table[id].app in all {
      assert id in ids;
    }
  }

  lemma SubsetSameSize(a: set<nat>, b: set<nat>)
    requires a <= b && |a| == |b|
    ensures a == b
  {
    assert |b - a| == |b| - |a|;
  }

  lemma {:induction false} IdsCounted(all: seq<App>, n: nat)
    requires n <= |all| && forall i, j :: 0 <= i < j < |all| ==> all[i].id != all[j].id
    ensures |set i | 0 <= i < n :: all[i].id| == n
  {
    var ids := set i | 0 <= i < n :: all[i].id;
    if n == 0 {
      assert ids == {};
    } else {
      var before := set i | 0 <= i < n - 1 :: all[i].id;
      IdsCounted(all, n - 1);
      assert ids == before + {all[n - 1].id};
    }
  }

  /** The loop of List. */
  method Visible(cached: seq<App>) returns (out: seq<App>)
    ensures out == VisibleOf(cached)
  {
    out := [];
    for i := 0 to |cached|
      invariant out == VisibleOf(cached[..i])
    {
      assert cached[..i + 1][..i] == cached[..i];
      if cached[i].visible {
        out := out + [cached[i]];
      }
    }
    assert cached[..|cached|] == cached;
  }

  class Catalog {
    var versions: seq<Version>
    var nextId: nat
    var apps: Option<seq<App>>
    var loadedAt: int
    ghost var loaded: nat     // the version the cached rows were read from
    ghost var above: bool     // every write so far was stamped above the newest stamp the cache knew of then
    ghost var inOrder: bool   // every write so far was stamped above every earlier one

    ghost predicate Valid()
      reads this
    {
      && Grows(versions) && IdsBelow(versions, nextId)
      && (apps.Some? ==> Cached(versions, apps.value, loaded, loadedAt, above))
      && (inOrder ==> above)
    }

    /** The cache holds some version not older than f. */
    ghost predicate AtLeast(f: nat)
      reads this
    {
      apps.Some? && Holds(versions, apps.value, f)
    }

    function Table(): map<nat, Row>
      requires versions != []
      reads this
    {
      versions[|versions| - 1].table
    }

    constructor ()
      ensures Valid() && Table() == map[] && apps == None && above && inOrder
    {
      versions, nextId, apps, loadedAt, loaded := [Version(map[], 0)], 1, None, 0, 0;
      above, inOrder := true, true;
    }

    /** time.Now().UnixNano() of a write, which may have been drawn long before it commits. */
    static method Now() returns (t: int) {
      t := *;
    }

    /** A write whose stamp is above the newest one the cache knows, or that has none. */
    ghost predicate SeenBy(stamp: Option<int>)
      reads this
    {
      apps.Some? && stamp.Some? ==> loadedAt < stamp.value
    }

    /** A write whose stamp is above every earlier one, or that has none. */
    ghost predicate NextInOrder(stamp: Option<int>)
      requires versions != []
      reads this
    {
      stamp.Some? ==> versions[|versions| - 1].clock < stamp.value
    }

    /** Row `changed` is written with this stamp, or dropped. */
    method Commit(table: map<nat, Row>, changed: nat, stamp: Option<int>)
      requires Valid()
      requires Writes(Table(), table, changed, stamp) && (changed in table ==> changed < nextId)
      modifies `versions, `above, `inOrder
      ensures Valid() && old(versions) <= versions && Table() == table
      ensures above == old(above && SeenBy(stamp)) && inOrder == old(inOrder && NextInOrder(stamp))
      ensures forall f :: old(AtLeast(f)) ==> AtLeast(f)
    {
      ghost var before := versions;
      var last := versions[|versions| - 1].clock;
      above, inOrder := above && SeenBy(stamp), inOrder && NextInOrder(stamp);
      var clock := if stamp.Some? && last < stamp.value then stamp.value else last;
      versions := versions + [Version(table, clock)];
      GrowsCommit(before, table, clock, changed, stamp, nextId);
      if apps.Some? {
        CachedCommit(before, table, clock, changed, stamp, apps.value, loaded, loadedAt, above);
      }
    }

    /** Row id now holds this app; no other row changed. */
    ghost predicate Stores(before: map<nat, Row>, after: map<nat, Row>, id: nat, a: App) {
      id in after && after[id].app == a && after == before[id := after[id]]
    }

    /** What the write of row id has made of the two conditions. */
    ghost predicate Noted(before: seq<Version>, wasAbove: bool, wasInOrder: bool, id: nat)
      requires before != [] && versions != [] && id in Table()
      reads this
    {
      && above == (wasAbove && SeenBy(Some(Table()[id].updatedAt)))
      && inOrder == (wasInOrder && before[|before| - 1].clock < Table()[id].updatedAt)
    }

    method Create(a: App) returns (id: nat)
      requires Valid()
      modifies `versions, `nextId, `above, `inOrder
      ensures Valid() && old(versions) <= versions && id == old(nextId) && id !in old(Table())
      ensures Stores(old(Table()), Table(), id, a.(id := id))
      ensures Noted(old(versions), old(above), old(inOrder), id)
      ensures forall f :: old(AtLeast(f)) ==> AtLeast(f)
    {
      id := nextId;
      nextId := nextId + 1;
      var now := Now();
      Commit(Table()[id := Row(a.(id := id), now)], id, Some(now));
    }

    method Update(id: nat, a: App) returns (found: bool)
      requires Valid()
      modifies `versions, `above, `inOrder
      ensures Valid() && old(versions) <= versions && found == (id in old(Table()))
      ensures found ==> Stores(old(Table()), Table(), id, a.(id := id))
      ensures found ==> Noted(old(versions), old(above), old(inOrder), id)
      ensures !found ==> versions == old(versions) && above == old(above) && inOrder == old(inOrder)
      ensures forall f :: old(AtLeast(f)) ==> AtLeast(f)
    {
      found := id in Table();
      if found {
        var now := Now();
        Commit(Table()[id := Row(a.(id := id), now)], id, Some(now));
      }
    }

    method Delete(id: nat) returns (found: bool)
      requires Valid()
      modifies `versions, `above, `inOrder
      ensures Valid() && old(versions) <= versions && found == (id in old(Table())) && Table() == old(Table()) - {id}
      ensures above == old(above) && inOrder == old(inOrder)
      ensures forall f :: old(AtLeast(f)) ==> AtLeast(f)
    {
      found := id in Table();
      if found {
        Commit(Table() - {id}, id, None);
      }
    }

    method ReadFingerprint() returns (count: int, newest: int)
      requires Valid()
      ensures Fingerprint(Table(), count, newest)
    {
      var table := Table();
      count, newest := |table|, 0;
      var left := table.Keys;
      if left != {} {
        var first :| first in left;
        newest := table[first].updatedAt;
        while left != {}
          invariant left <= table.Keys
          invariant exists id :: id in table && table[id].updatedAt == newest
          invariant forall id :: id in table && id !in left ==> table[id].updatedAt <= newest
          decreases |left|
        {
          var id :| id in left;
          left := left - {id};
          if newest < table[id].updatedAt {
            newest := table[id].updatedAt;
          }
        }
      }
    }

    /** The locked section of reloadIfNeeded, with a fingerprint taken at version f. */
    method LoadLocked(count: int, newest: int, f: nat)
      requires Valid() && f < |versions| && Fingerprint(versions[f].table, count, newest)
      modifies `apps, `loadedAt, `loaded
      ensures Valid() && apps.Some? && (above ==> AtLeast(f))
      ensures forall g :: old(AtLeast(g)) ==> AtLeast(g)
    {
      if apps.Some? && newest == loadedAt && count == |apps.value| {
        if above {
          StillFresh(versions, apps.value, loaded, loadedAt, f, count, newest);
        }
        return;
      }
      var rows := QueryRows(Table());
      apps, loadedAt, loaded := Some(rows), newest, |versions| - 1;
      JustLoaded(versions, rows, f, count, newest);
    }

    /** Other goroutines: any number of writes, and of reloads with fingerprints taken at any time before. */
    method Interfere()
      requires Valid()
      modifies this
      ensures Valid() && old(versions) <= versions && (above ==> old(above)) && (old(apps.Some?) ==> apps.Some?)
      ensures forall f :: old(AtLeast(f)) ==> AtLeast(f)
    {
      var n: int := *;
      while 0 < n
        invariant Valid() && old(versions) <= versions && (above ==> old(above)) && (old(apps.Some?) ==> apps.Some?)
        invariant forall f :: old(AtLeast(f)) ==> AtLeast(f)
      {
        n := n - 1;
        var what: int, id: int, f: int, count: int, newest: int := *, *, *, *, *;
        id := if id < 0 then -id else id;
        var a: App := *;
        if what == 0 {
          var created := Create(a);
        } else if what == 1 {
          var found := Update(id, a);
        } else if what == 2 {
          var found := Delete(id);
        } else if 0 <= f < |versions| && Fingerprint(versions[f].table, count, newest) {
          LoadLocked(count, newest, f);
        }
      }
    }

    /** Afterwards the cache is no older than the table at the call, in every history whose writes were stamped
        above what the cache knew of at the time; so in particular where stamps commit in order. */
    method ReloadIfNeeded()
      requires Valid()
      modifies this
      ensures Valid() && old(versions) <= versions && (above ==> old(above)) && apps.Some?
      ensures above ==> AtLeast(|old(versions)| - 1)
    {
      var count, newest := ReadFingerprint();
      var f := |versions| - 1;
      ghost var before := versions;
      Interfere();
      assert versions[f] == before[f];
      LoadLocked(count, newest, f);
    }

    /** The rows of some version, and under that condition of none that is older than the call. */
    ghost predicate Current(since: nat, all: seq<App>)
      reads this
    {
      exists v :: 0 <= v < |versions| && (above ==> since <= v) && Lists(versions[v].table, all)
    }

    /** The visible part of such a version: under the condition, never a table older than the one at the call. */
    method List() returns (out: seq<App>)
      requires Valid()
      modifies this
      ensures Valid() && old(versions) <= versions
      ensures exists all :: Current(|old(versions)| - 1, all) && Shows(all, out) && out == VisibleOf(all)
      ensures exists v ::
        0 <= v < |versions| && (above ==> |old(versions)| - 1 <= v) && ShowsTable(versions[v].table, out)
    {
      ReloadIfNeeded();
      Interfere();
      assert Current(|old(versions)| - 1, apps.value);
      out := Visible(apps.value);
      VisibleOfShows(apps.value);
      ghost var v :| 0 <= v < |versions| && (above ==> |old(versions)| - 1 <= v)
        && Lists(versions[v].table, apps.value);
      ShownOnceAndSorted(versions[v].table, apps.value, out);
    }

    method ListAll() returns (out: seq<App>)
      requires Valid()
      modifies this
      ensures Valid() && old(versions) <= versions && Current(|old(versions)| - 1, out)
    {
      ReloadIfNeeded();
      Interfere();
      out := apps.value;
    }
  }

  /** Versions only ever add up, and no stamp exceeds its version's clock. */
  ghost predicate Grows(versions: seq<Version>) {
    && versions != []
    && (forall i :: 0 <= i < |versions| ==> Stamped(versions[i]))
    && (forall i, j :: 0 <= i <= j < |versions| ==> versions[i].clock <= versions[j].clock)
  }

  /** The table after a write of row `changed`. */
  predicate Writes(before: map<nat, Row>, table: map<nat, Row>, changed: nat, stamp: Option<int>) {
    && (forall id :: id in table && id != changed ==> id in before && table[id] == before[id])
    && if changed in table then table[changed].app.id == changed && stamp == Some(table[changed].updatedAt)
       else stamp == None
  }

  lemma GrowsCommit(
    versions: seq<Version>, table: map<nat, Row>, clock: int, changed: nat, stamp: Option<int>, nextId: nat)
    requires Grows(versions) && IdsBelow(versions, nextId) && (changed in table ==> changed < nextId)
    requires Writes(versions[|versions| - 1].table, table, changed, stamp)
    requires versions[|versions| - 1].clock <= clock && (stamp.Some? ==> stamp.value <= clock)
    ensures Grows(versions + [Version(table, clock)]) && IdsBelow(versions + [Version(table, clock)], nextId)
  {
    assert Stamped(versions[|versions| - 1]);
    assert Stamped(Version(table, clock));
  }

  /** These apps were read from that version. */
  ghost predicate Caches(versions: seq<Version>, apps: seq<App>, loaded: nat, loadedAt: int) {
    loaded < |versions| && Lists(versions[loaded].table, apps) && loadedAt <= versions[loaded].clock
  }

  /** They are those of some version from f on. */
  ghost predicate Holds(versions: seq<Version>, apps: seq<App>, f: nat) {
    exists v :: f <= v < |versions| && Lists(versions[v].table, apps)
  }

  lemma HoldsLater(before: seq<Version>, after: seq<Version>, apps: seq<App>)
    requires before <= after
    ensures forall f: nat :: Holds(before, apps, f) ==> Holds(after, apps, f)
  {
    forall f: nat | Holds(before, apps, f) ensures Holds(after, apps, f) {
      var v :| f <= v < |before| && Lists(before[v].table, apps);
      assert after[v] == before[v];
    }
  }

  /** The fingerprint has not moved, and so the rows are those of its version, or of a later one. */
  lemma StillFresh(
    versions: seq<Version>, apps: seq<App>, loaded: nat, loadedAt: int, f: nat, count: int, newest: int)
    requires Caches(versions, apps, loaded, loadedAt) && KeptSince(versions, loaded, loadedAt) && f < |versions|
    requires Fingerprint(versions[f].table, count, newest) && newest == loadedAt && count == |apps|
    ensures Holds(versions, apps, f)
  {
    if loaded <= f {
      FingerprintDecides(versions[loaded].table, versions[f].table, newest);
    }
  }

  lemma JustLoaded(versions: seq<Version>, rows: seq<App>, f: nat, count: int, newest: int)
    requires Grows(versions) && Lists(versions[|versions| - 1].table, rows) && f < |versions|
    requires Fingerprint(versions[f].table, count, newest)
    ensures Caches(versions, rows, |versions| - 1, newest) && KeptSince(versions, |versions| - 1, newest)
    ensures forall g: nat :: g < |versions| ==> Holds(versions, rows, g)
  {
    assert Stamped(versions[f]);
  }

  ghost predicate IdsBelow(versions: seq<Version>, nextId: nat) {
    forall i, id :: 0 <= i < |versions| && id in versions[i].table ==> id < nextId
  }

  /** No write since then carries a stamp the cache takes for known. */
  ghost predicate KeptSince(versions: seq<Version>, loaded: nat, loadedAt: int) {
    loaded < |versions| && forall v :: loaded <= v < |versions| ==>
      Kept(versions[loaded].table, versions[v].table, loadedAt)
  }

  lemma KeptCommit(
    versions: seq<Version>, loaded: nat, table: map<nat, Row>, clock: int, changed: nat, stamp: Option<int>,
    loadedAt: int)
    requires KeptSince(versions, loaded, loadedAt) && (stamp.Some? ==> loadedAt < stamp.value)
    requires Writes(versions[|versions| - 1].table, table, changed, stamp)
    ensures KeptSince(versions + [Version(table, clock)], loaded, loadedAt)
  {
    assert Kept(versions[loaded].table, versions[|versions| - 1].table, loadedAt);
    assert Kept(versions[loaded].table, table, loadedAt);
  }

  /** The cache: rows of a version, and as long as stamps allow, no later one that looks the same and is not. */
  ghost predicate Cached(versions: seq<Version>, apps: seq<App>, loaded: nat, loadedAt: int, above: bool) {
    Caches(versions, apps, loaded, loadedAt) && (above ==> KeptSince(versions, loaded, loadedAt))
  }

  lemma CachedCommit(
    versions: seq<Version>, table: map<nat, Row>, clock: int, changed: nat, stamp: Option<int>,
    apps: seq<App>, loaded: nat, loadedAt: int, above: bool)
    requires Caches(versions, apps, loaded, loadedAt)
    requires above ==> KeptSince(versions, loaded, loadedAt) && (stamp.Some? ==> loadedAt < stamp.value)
    requires Writes(versions[|versions| - 1].table, table, changed, stamp)
    ensures Cached(versions + [Version(table, clock)], apps, loaded, loadedAt, above)
    ensures forall f: nat :: Holds(versions, apps, f) ==> Holds(versions + [Version(table, clock)], apps, f)
  {
    HoldsLater(versions, versions + [Version(table, clock)], apps);
    if above {
      KeptCommit(versions, loaded, table, clock, changed, stamp, loadedAt);
    }
  }

  method QueryRows(table: map<nat, Row>) returns (apps: seq<App>)
    requires forall id :: id in table ==> table[id].app.id == id
    ensures Lists(table, apps)
  {
    apps := [];
    var left := table.Keys;
    while left != {}
      invariant left <= table.Keys
      invariant |apps| + |left| == |table|
      invariant forall i :: 0 <= i < |apps| ==>
        apps[i].id in table && apps[i].id !in left && table[apps[i].id].app == apps[i]
      invariant forall i, j :: 0 <= i < j < |apps| ==>
        apps[i].id != apps[j].id && apps[i].sortOrder <= apps[j].sortOrder
      decreases |left|
    {
      var id :| id in left;
      var a := table[id].app;
      var k := 0;
      while k < |apps| && apps[k].sortOrder <= a.sortOrder
        invariant 0 <= k <= |apps|
        invariant forall i :: 0 <= i < k ==> apps[i].sortOrder <= a.sortOrder
      {
        k := k + 1;
      }
      apps := apps[..k] + [a] + apps[k..];
      left := left - {id};
    }
  }
}
