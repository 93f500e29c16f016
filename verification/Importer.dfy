/**
 The importer's provenance protocol (internal/importer/importer.go) over the tables "templates" and
 "import_manifest", against the admin's Put and Delete (internal/templatestore/templatestore.go).

 Rows of different keys never influence each other, so what an import does is first said for one
 key: a `Slot` is its row and its manifest stamp.
 */
module Importer {
  import opened Options

  datatype Key = Key(format: string, profile: string, protocol: string)

  datatype Row = Row(content: string, updatedAt: int)

  datatype Db = Db(templates: map<Key, Row>, manifest: map<Key, int>)

  // ---------------------------------------------------------------- files

  /** A directory entry; content None is a file that cannot be read. */
  datatype Entry = Entry(name: string, isDir: bool, content: Option<string>)

  predicate HasSuffix(s: string, suffix: string) {
    |suffix| <= |s| && s[|s| - |suffix|..] == suffix
  }

  function TrimSuffix(s: string, suffix: string): string {
    if HasSuffix(s, suffix) then s[..|s| - |suffix|] else s
  }

  predicate IsTemplate(e: Entry) {
    !e.isDir && HasSuffix(e.name, ".tmpl")
  }

  function ProfileOf(name: string): string {
    TrimSuffix(TrimSuffix(name, ".tmpl"), ".yaml")
  }

  predicate Twins(short: string, long: string, profile: string) {
    short == profile + ".tmpl" && long == profile + ".yaml.tmpl"
  }

  /** Two template files fill the same slot exactly when they are p.tmpl and p.yaml.tmpl. */
  lemma SameProfileIff(a: string, b: string)
    requires HasSuffix(a, ".tmpl") && HasSuffix(b, ".tmpl") && a != b
    ensures ProfileOf(a) == ProfileOf(b) <==>
      exists p :: !HasSuffix(p, ".yaml") && (Twins(a, b, p) || Twins(b, a, p))
  {
    var x, y := TrimSuffix(a, ".tmpl"), TrimSuffix(b, ".tmpl");
    assert a == x + ".tmpl" && b == y + ".tmpl";
    assert HasSuffix(x, ".yaml") ==> x == TrimSuffix(x, ".yaml") + ".yaml";
    assert HasSuffix(y, ".yaml") ==> y == TrimSuffix(y, ".yaml") + ".yaml";
    if ProfileOf(a) == ProfileOf(b) {
      var p := ProfileOf(a);
      if HasSuffix(x, ".yaml") {
        assert a == p + ".yaml.tmpl";
        assert !HasSuffix(y, ".yaml") && y == p;
        assert Twins(b, a, p);
      } else {
        assert x == p && y == p + ".yaml";
        assert b == p + ".yaml.tmpl";
        assert Twins(a, b, p);
      }
    }
    if p :| !HasSuffix(p, ".yaml") && (Twins(a, b, p) || Twins(b, a, p)) {
      SuffixOff(p);
    }
  }

  lemma SuffixOff(p: string)
    ensures ProfileOf(p + ".yaml.tmpl") == p
    ensures !HasSuffix(p, ".yaml") ==> ProfileOf(p + ".tmpl") == p
  {
    assert (p + ".yaml.tmpl")[|p| + 5..] == ".tmpl";
    assert (p + ".yaml.tmpl")[..|p| + 5] == p + ".yaml";
    assert (p + ".yaml")[|p|..] == ".yaml" && (p + ".yaml")[..|p|] == p;
    assert (p + ".tmpl")[|p|..] == ".tmpl" && (p + ".tmpl")[..|p|] == p;
  }

  /** The contents that go to one profile, in directory order. */
  function ContentsFor(es: seq<Entry>, profile: string): seq<string> {
    if es == [] then [] else ContentsFor(es[..|es| - 1], profile) + ContentOf(es[|es| - 1], profile)
  }

  function ContentOf(e: Entry, profile: string): seq<string> {
    if IsTemplate(e) && e.content.Some? && ProfileOf(e.name) == profile then [e.content.value] else []
  }

  predicate Readable(es: seq<Entry>) {
    forall i :: 0 <= i < |es| && IsTemplate(es[i]) ==> es[i].content.Some?
  }

  /** What all this means for the names in the directory. */
  ghost predicate EndsIn(s: string, ending: string) {
    exists front: string :: s == front + ending
  }

  /** A file for this profile: p.yaml.tmpl, or p.tmpl unless p itself ends in ".yaml". */
  ghost predicate FileFor(e: Entry, profile: string) {
    && !e.isDir
    && (e.name == profile + ".yaml.tmpl" || (e.name == profile + ".tmpl" && !EndsIn(profile, ".yaml")))
  }

  /** Some file for this profile holds this. */
  ghost predicate HasFile(es: seq<Entry>, profile: string, content: string) {
    exists i :: 0 <= i < |es| && FileFor(es[i], profile) && es[i].content == Some(content)
  }

  lemma EndsInIff(s: string, ending: string)
    ensures EndsIn(s, ending) <==> HasSuffix(s, ending)
  {
    if HasSuffix(s, ending) {
      assert s == s[..|s| - |ending|] + ending;
    }
  }

  lemma TemplateIff(e: Entry)
    ensures IsTemplate(e) <==> !e.isDir && EndsIn(e.name, ".tmpl")
  {
    EndsInIff(e.name, ".tmpl");
  }

  lemma FileForIff(e: Entry, profile: string)
    ensures FileFor(e, profile) <==> IsTemplate(e) && ProfileOf(e.name) == profile
  {
    EndsInIff(profile, ".yaml");
    if FileFor(e, profile) {
      SuffixOff(profile);
      assert (profile + ".yaml.tmpl")[|profile| + 5..] == ".tmpl" && (profile + ".tmpl")[|profile|..] == ".tmpl";
    }
    if IsTemplate(e) && ProfileOf(e.name) == profile {
      var stem := TrimSuffix(e.name, ".tmpl");
      assert e.name == stem + ".tmpl";
      if HasSuffix(stem, ".yaml") {
        assert stem == profile + ".yaml" && e.name == profile + ".yaml.tmpl";
      }
    }
  }

  lemma {:induction false} ContentsAreFiles(es: seq<Entry>, profile: string, content: string)
    ensures content in ContentsFor(es, profile) <==> HasFile(es, profile, content)
  {
    if es == [] {
    } else {
      var init, last := es[..|es| - 1], es[|es| - 1];
      ContentsAreFiles(init, profile, content);
      FileForIff(last, profile);
      if HasFile(init, profile, content) {
        var i :| 0 <= i < |init| && FileFor(init[i], profile) && init[i].content == Some(content);
        assert es[i] == init[i];
      }
      if HasFile(es, profile, content) {
        var i :| 0 <= i < |es| && FileFor(es[i], profile) && es[i].content == Some(content);
        if i < |init| {
          assert init[i] == es[i];
        }
      }
    }
  }

  /** An import fails exactly when some file it would take cannot be read. */
  lemma ReadableIff(es: seq<Entry>)
    ensures Readable(es) <==>
      forall i :: 0 <= i < |es| && !es[i].isDir && EndsIn(es[i].name, ".tmpl") ==> es[i].content.Some?
  {
    forall i | 0 <= i < |es| ensures IsTemplate(es[i]) <==> !es[i].isDir && EndsIn(es[i].name, ".tmpl") {
      TemplateIff(es[i]);
    }
  }

  /** What f finds in the entries, in order. */
  function Gather(es: seq<Entry>, f: Entry -> seq<string>): seq<string> {
    if es == [] then [] else Gather(es[..|es| - 1], f) + f(es[|es| - 1])
  }

  lemma {:induction false} ContentsAreGathered(es: seq<Entry>, profile: string, f: Entry -> seq<string>)
    requires forall e :: f(e) == ContentOf(e, profile)
    ensures ContentsFor(es, profile) == Gather(es, f)
  {
    if es == [] {
    } else {
      ContentsAreGathered(es[..|es| - 1], profile, f);
      assert f(es[|es| - 1]) == ContentOf(es[|es| - 1], profile);
    }
  }

  lemma {:induction false} NothingToGather(a: seq<Entry>, e: Entry, b: seq<Entry>, f: Entry -> seq<string>)
    requires f(e) == []
    ensures Gather(a + [e] + b, f) == Gather(a + b, f)
    decreases |b|
  {
    if b == [] {
      assert (a + [e] + b)[..|a|] == a && a + b == a;
    } else {
      var init := b[..|b| - 1];
      NothingToGather(a, e, init, f);
      assert (a + [e] + b)[..|a| + |b|] == a + [e] + init && (a + b)[..|a| + |b| - 1] == a + init;
    }
  }

  /** A directory, or an entry of another name, goes to no profile. */
  lemma OtherEntriesHoldNothing(a: seq<Entry>, e: Entry, b: seq<Entry>, profile: string)
    requires e.isDir || !EndsIn(e.name, ".tmpl")
    ensures ContentsFor(a + [e] + b, profile) == ContentsFor(a + b, profile)
  {
    var f := x => ContentOf(x, profile);
    assert f(e) == [] by {
      TemplateIff(e);
    }
    ContentsAreGathered(a + [e] + b, profile, f);
    ContentsAreGathered(a + b, profile, f);
    NothingToGather(a, e, b, f);
  }

  // ---------------------------------------------------------------- one key

  datatype Slot = Slot(row: Option<Row>, stamp: Option<int>)

  function SlotOf(db: Db, k: Key): Slot {
    Slot(if k in db.templates then Some(db.templates[k]) else None,
         if k in db.manifest then Some(db.manifest[k]) else None)
  }

  /** The manifest stamp equals the row's own: nobody but the importer wrote the row. */
  predicate Pristine(s: Slot) {
    s.row.Some? && s.stamp == Some(s.row.value.updatedAt)
  }

  /** upsertTemplatePreservingEdits; `loaded` is the stamp loaded before the run. */
  function UpsertSlot(s: Slot, content: string, loaded: Option<int>, now: int): Slot {
    if s.row == None then Slot(Some(Row(content, now)), Some(now))
    else if loaded != Some(s.row.value.updatedAt) then s
    else if s.row.value.content == content then s
    else Slot(Some(Row(content, now)), Some(now))
  }

  function UpsertSlots(s: Slot, contents: seq<string>, loaded: Option<int>, now: int): Slot {
    if contents == [] then s
    else UpsertSlot(UpsertSlots(s, contents[..|contents| - 1], loaded, now), contents[|contents| - 1], loaded, now)
  }

  /** pruneOrphaned. */
  function PruneSlot(s: Slot, loaded: Option<int>, present: bool): Slot {
    if loaded == None || present then s
    else Slot(if s.row.Some? && s.row.value.updatedAt == loaded.value then None else s.row, None)
  }

  function ImportSlot(s: Slot, contents: seq<string>, now: int): Slot {
    PruneSlot(UpsertSlots(s, contents, s.stamp, now), s.stamp, contents != [])
  }

  predicate AllSame(contents: seq<string>) {
    forall i :: 0 <= i < |contents| ==> contents[i] == contents[0]
  }

  /** A row the importer does not own survives an import untouched, and is not taken over. */
  lemma {:induction false} UpsertKeepsForeign(s: Slot, contents: seq<string>, now: int)
    requires s.row.Some? && !Pristine(s)
    ensures UpsertSlots(s, contents, s.stamp, now) == s
  {
    if contents == [] {
    } else {
      UpsertKeepsForeign(s, contents[..|contents| - 1], now);
    }
  }

  /** The importer's own row and stamp always move together. */
  lemma {:induction false} UpsertStaysPristine(s: Slot, contents: seq<string>, now: int)
    requires s.row == None || Pristine(s)
    ensures var s' := UpsertSlots(s, contents, s.stamp, now);
      && (if contents == [] then s' == s else Pristine(s'))
      && (s' == s || s'.stamp == Some(now))
      && (Pristine(s') && contents != [] && AllSame(contents) ==> s'.row.value.content == contents[0])
  {
    if contents == [] {
    } else {
      var init := contents[..|contents| - 1];
      UpsertStaysPristine(s, init, now);
      assert AllSame(contents) ==> AllSame(init) && (init != [] ==> init[0] == contents[0]);
      if init == [] {
        assert contents[|contents| - 1] == contents[0];
      }
    }
  }

  /** What one import does to one key. */
  lemma ImportSlotOutcome(s: Slot, contents: seq<string>, now: int)
    ensures var s' := ImportSlot(s, contents, now);
      && (s.row.Some? && !Pristine(s) ==> s'.row == s.row && !Pristine(s'))
      && (contents == [] ==> s'.stamp == None && (Pristine(s) ==> s'.row == None))
      && (contents != [] && !(s.row.Some? && !Pristine(s)) ==> Pristine(s'))
      && (s'.stamp == None || s'.stamp == s.stamp || s'.stamp == Some(now))
      && (s'.row == None || s'.row == s.row || s'.row.value.updatedAt == now)
  {
    if s.row.Some? && !Pristine(s) {
      UpsertKeepsForeign(s, contents, now);
    } else {
      UpsertStaysPristine(s, contents, now);
      UpsertRow(s, contents, now);
    }
  }

  lemma {:induction false} UpsertRow(s: Slot, contents: seq<string>, now: int)
    ensures var s' := UpsertSlots(s, contents, s.stamp, now);
      s' == s || (s'.row.Some? && s'.row.value.updatedAt == now)
  {
    if contents == [] {
    } else {
      UpsertRow(s, contents[..|contents| - 1], now);
    }
  }

  /** A second pass over contents that are not all equal overwrites the importer's own row with the
      first one that differs, and then leaves it alone. */
  lemma {:induction false} UpsertAgain(s: Slot, contents: seq<string>, now: int)
    requires Pristine(s) && s.stamp != Some(now)
    ensures var s' := UpsertSlots(s, contents, s.stamp, now);
      s' == s <==> forall i :: 0 <= i < |contents| ==> contents[i] == s.row.value.content
  {
    if contents == [] {
    } else {
      var init := contents[..|contents| - 1];
      UpsertAgain(s, init, now);
      UpsertRow(s, init, now);
    }
  }

  /** Importing the same files again is idempotent exactly when, for a key the importer owns, all the
      files that map to it agree.  p.tmpl and p.yaml.tmpl with different contents alternate. */
  lemma ReimportUnchangedIff(s: Slot, contents: seq<string>, t1: int, t2: int)
    requires t1 != t2 && s.stamp != Some(t2)
    ensures var s1 := ImportSlot(s, contents, t1);
      ImportSlot(s1, contents, t2) == s1 <==> (Pristine(s1) ==> AllSame(contents))
  {
    var s1 := ImportSlot(s, contents, t1);
    ImportSlotOutcome(s, contents, t1);
    if Pristine(s1) {
      UpsertAgain(s1, contents, t2);
      FirstImportTakesOne(s, contents, t1);
    } else if s1.row.Some? {
      UpsertKeepsForeign(s1, contents, t2);
    }
  }

  /** After an import, the importer's row holds one of the key's files. */
  lemma {:induction false} FirstImportTakesOne(s: Slot, contents: seq<string>, now: int)
    requires Pristine(ImportSlot(s, contents, now))
    ensures contents != [] && ImportSlot(s, contents, now).row.value.content in contents
  {
    ImportSlotOutcome(s, contents, now);
    if s.row == None || Pristine(s) {
      UpsertTakesOne(s, contents, now);
    }
  }

  lemma {:induction false} UpsertTakesOne(s: Slot, contents: seq<string>, now: int)
    requires contents != [] && (s.row == None || Pristine(s))
    ensures UpsertSlots(s, contents, s.stamp, now).row.Some?
    ensures UpsertSlots(s, contents, s.stamp, now).row.value.content in contents
  {
    var init, last := contents[..|contents| - 1], contents[|contents| - 1];
    if init == [] {
    } else {
      UpsertTakesOne(s, init, now);
    }
  }

  // ---------------------------------------------------------------- the tables

  /** The tables after importing a readable directory, key by key: only this format's keys move, and
      of those only the ones with an empty protocol have files. */
  ghost predicate Imported(db: Db, db': Db, format: string, es: seq<Entry>, now: int) {
    forall k :: SlotOf(db', k) == ImportedSlot(db, k, format, es, now)
  }

  function ImportedSlot(db: Db, k: Key, format: string, es: seq<Entry>, now: int): Slot {
    if k.format == format then ImportSlot(SlotOf(db, k), FilesOf(es, k), now) else SlotOf(db, k)
  }

  function FilesOf(es: seq<Entry>, k: Key): seq<string> {
    if k.protocol == "" then ContentsFor(es, k.profile) else []
  }

  /** Every file for a profile without a row gets one: the profile's row afterwards holds one of its files. */
  ghost predicate FilesGetRows(db: Db, db': Db, format: string, es: seq<Entry>, now: int) {
    forall i, profile :: 0 <= i < |es| && FileFor(es[i], profile) && Key(format, profile, "") !in db.templates ==>
      HoldsFile(db', Key(format, profile, ""), es, now)
  }

  ghost predicate HoldsFile(db: Db, k: Key, es: seq<Entry>, now: int) {
    && k in db.templates && HasFile(es, k.profile, db.templates[k].content)
    && db.templates[k].updatedAt == now && k in db.manifest && db.manifest[k] == now
  }

  lemma NewFilesGetRows(db: Db, db': Db, format: string, es: seq<Entry>, now: int)
    requires Imported(db, db', format, es, now) && Readable(es)
    ensures FilesGetRows(db, db', format, es, now)
  {
    forall i, profile | 0 <= i < |es| && FileFor(es[i], profile) && Key(format, profile, "") !in db.templates
      ensures HoldsFile(db', Key(format, profile, ""), es, now)
    {
      var k := Key(format, profile, "");
      var s, contents := SlotOf(db, k), ContentsFor(es, profile);
      FileForIff(es[i], profile);
      assert HasFile(es, profile, es[i].content.value);
      ContentsAreFiles(es, profile, es[i].content.value);
      assert SlotOf(db', k) == ImportedSlot(db, k, format, es, now);
      UpsertTakesOne(s, contents, now);
      UpsertStaysPristine(s, contents, now);
      UpsertRow(s, contents, now);
      ContentsAreFiles(es, profile, db'.templates[k].content);
    }
  }

  /** And a directory, or an entry of another name, changes nothing. */
  lemma OtherEntriesChangeNothing(
    db: Db, with: Db, without: Db, format: string, a: seq<Entry>, e: Entry, b: seq<Entry>, now: int)
    requires e.isDir || !EndsIn(e.name, ".tmpl")
    requires Imported(db, with, format, a + [e] + b, now) && Imported(db, without, format, a + b, now)
    ensures with == without
  {
    forall k ensures SlotOf(with, k) == SlotOf(without, k) {
      OtherEntriesHoldNothing(a, e, b, k.profile);
      assert SlotOf(with, k) == ImportedSlot(db, k, format, a + [e] + b, now);
      assert SlotOf(without, k) == ImportedSlot(db, k, format, a + b, now);
    }
    SameSlotsSameDb(with, without);
  }

  lemma SameSlotsSameDb(a: Db, b: Db)
    requires forall k :: SlotOf(a, k) == SlotOf(b, k)
    ensures a == b
  {
    forall k ensures k in a.templates <==> k in b.templates
      ensures k in a.templates ==> a.templates[k] == b.templates[k]
      ensures k in a.manifest <==> k in b.manifest
      ensures k in a.manifest ==> a.manifest[k] == b.manifest[k]
    {
      assert SlotOf(a, k) == SlotOf(b, k);
    }
    assert a.templates == b.templates && a.manifest == b.manifest;
  }

  /** The tables, and as ghost history who last wrote which row. */
  class Tables {
    var db: Db
    ghost var world: World

    ghost predicate Valid()
      reads this
    {
      world.db == db && Provenance(world)
    }

    /** A database from before the manifest existed. */
    constructor (templates: map<Key, Row>)
      ensures Valid() && world == LegacyWorld(templates)
    {
      db := Db(templates, map[]);
      world := LegacyWorld(templates);
      new;
      ProvenanceAtStart(templates);
    }

    /** templatestore.Put: an admin's step.  Ownership can be read off the stamps afterwards exactly when the
        clock did not give the write the very reading the manifest holds for this key. */
    method Put(k: Key, content: string, now: int)
      requires Valid()
      modifies this
      ensures world == Next(old(world), Event.Put(k, content, now)) && world.db == db
      ensures Valid() <==> Lookup(old(db).manifest, k) != Some(now)
      ensures db.manifest == old(db).manifest && db.templates == old(db).templates[k := Row(content, now)]
    {
      world := Next(world, Event.Put(k, content, now));
      db := db.(templates := db.templates[k := Row(content, now)]);
      PutKeepsProvenanceIff(old(world), k, content, now);
    }

    /** templatestore.Delete: an admin's step, and always a harmless one. */
    method Delete(k: Key)
      requires Valid()
      modifies this
      ensures Valid() && world == Next(old(world), Event.Delete(k))
      ensures db.manifest == old(db).manifest && db.templates == old(db).templates - {k}
    {
      ProvenanceKept(world, Event.Delete(k));
      world := Next(world, Event.Delete(k));
      db := db.(templates := db.templates - {k});
    }

    /** importYAMLTemplates: one transaction, rolled back when a file cannot be read. */
    method ImportFormat(es: seq<Entry>, format: string, now: int) returns (ok: bool)
      requires Valid()
      modifies this
      ensures Valid() && (ok <==> Readable(es))
      ensures ok <==> forall i :: 0 <= i < |es| && !es[i].isDir && EndsIn(es[i].name, ".tmpl") ==> es[i].content.Some?
      ensures if ok then Imported(old(db), db, format, es, now) else db == old(db)
      ensures ok ==> FilesGetRows(old(db), db, format, es, now)
      ensures world == if ok then Next(old(world), Event.ImportFormat(format, es, now, db)) else old(world)
    {
      ReadableIff(es);
      var oldManifest := map k | k in db.manifest && k.format == format :: db.manifest[k];
      var tx, current;
      ok, tx, current := UpsertFiles(db, es, format, oldManifest, now);
      if !ok {
        return;
      }
      ghost var upserted := tx;
      tx := PruneOrphaned(tx, oldManifest, current);
      forall k ensures SlotOf(tx, k) == ImportedSlot(db, k, format, es, now) {
        FilesHaveContents(es, format, k);
        assert SlotOf(upserted, k) == UpsertedSlot(db, k, format, es, now);
      }
      NewFilesGetRows(db, tx, format, es, now);
      ProvenanceKept(world, Event.ImportFormat(format, es, now, tx));
      world := Next(world, Event.ImportFormat(format, es, now, tx));
      db := tx;
    }
  }

  /** The file loop of importYAMLTemplates. */
  method UpsertFiles(db: Db, es: seq<Entry>, format: string, oldManifest: map<Key, int>, now: int)
    returns (ok: bool, tx: Db, current: set<Key>)
    requires oldManifest == map k | k in db.manifest && k.format == format :: db.manifest[k]
    ensures ok <==> Readable(es)
    ensures ok ==> current == Files(es, format)
    ensures ok ==> forall k :: SlotOf(tx, k) == UpsertedSlot(db, k, format, es, now)
  {
    ok, tx, current := true, db, {};
    for i := 0 to |es|
      invariant ok && Readable(es[..i])
      invariant current == Files(es[..i], format)
      invariant forall k :: SlotOf(tx, k) == UpsertedSlot(db, k, format, es[..i], now)
    {
      assert es[..i + 1] == es[..i] + [es[i]];
      FilesSnoc(es[..i], es[i], format);
      if !IsTemplate(es[i]) {
        SkippedFile(db, format, es, i, now);
        continue;
      }
      if es[i].content == None {
        ok := false;
        return;
      }
      var k := Key(format, ProfileOf(es[i].name), "");
      ghost var before := tx;
      tx := Upsert(tx, k, es[i].content.value, oldManifest, now);
      OneMoreFile(db, before, tx, k, format, es, i, now);
      current := current + {k};
    }
    assert es[..|es|] == es;
  }

  lemma SkippedFile(db: Db, format: string, es: seq<Entry>, i: nat, now: int)
    requires i < |es| && !IsTemplate(es[i])
    ensures forall k :: UpsertedSlot(db, k, format, es[..i + 1], now) == UpsertedSlot(db, k, format, es[..i], now)
  {
    assert es[..i + 1][..i] == es[..i];
    forall k: Key ensures ContentsFor(es[..i + 1], k.profile) == ContentsFor(es[..i], k.profile) {
    }
  }

  method Upsert(tx: Db, k: Key, content: string, oldManifest: map<Key, int>, now: int) returns (tx': Db)
    ensures SlotOf(tx', k) == UpsertSlot(SlotOf(tx, k), content, Lookup(oldManifest, k), now)
    ensures forall x :: x != k ==> SlotOf(tx', x) == SlotOf(tx, x)
  {
    if k !in tx.templates {
      return Db(tx.templates[k := Row(content, now)], tx.manifest[k := now]);
    }
    var existing := tx.templates[k];
    var pristine := k in oldManifest && existing.updatedAt == oldManifest[k];
    if !pristine {
      return tx;
    }
    if existing.content == content {
      return tx;
    }
    tx' := Db(tx.templates[k := Row(content, now)], tx.manifest[k := now]);
  }

  function Lookup(m: map<Key, int>, k: Key): Option<int> {
    if k in m then Some(m[k]) else None
  }

  /** Visits the old manifest in any order. */
  method PruneOrphaned(tx0: Db, loaded: map<Key, int>, current: set<Key>) returns (tx: Db)
    ensures forall k :: SlotOf(tx, k) == PruneSlot(SlotOf(tx0, k), Lookup(loaded, k), k in current)
  {
    tx := tx0;
    var left := loaded.Keys;
    while left != {}
      invariant left <= loaded.Keys
      invariant forall k :: k in left ==> SlotOf(tx, k) == SlotOf(tx0, k)
      invariant forall k :: k !in left ==> SlotOf(tx, k) == PruneSlot(SlotOf(tx0, k), Lookup(loaded, k), k in current)
      decreases |left|
    {
      var k :| k in left;
      left := left - {k};
      assert SlotOf(tx, k) == SlotOf(tx0, k);
      if k in current {
        continue;
      }
      tx := PruneOne(tx, k, loaded[k]);
    }
  }

  method PruneOne(tx0: Db, k: Key, lastImportedAt: int) returns (tx: Db)
    ensures SlotOf(tx, k) == PruneSlot(SlotOf(tx0, k), Some(lastImportedAt), false)
    ensures forall x :: x != k ==> SlotOf(tx, x) == SlotOf(tx0, x)
  {
    tx := tx0;
    var stillMatches := k in tx.templates && tx.templates[k].updatedAt == lastImportedAt;
    if stillMatches {
      tx := tx.(templates := tx.templates - {k});
    }
    tx := tx.(manifest := tx.manifest - {k});
  }

  /** The keys of the files read so far. */
  function Files(es: seq<Entry>, format: string): set<Key> {
    set e | e in es && IsTemplate(e) :: Key(format, ProfileOf(e.name), "")
  }

  function UpsertedSlot(db: Db, k: Key, format: string, es: seq<Entry>, now: int): Slot {
    if k.format == format && k.protocol == ""
    then UpsertSlots(SlotOf(db, k), ContentsFor(es, k.profile), SlotOf(db, k).stamp, now)
    else SlotOf(db, k)
  }

  lemma OneMoreFile(db: Db, before: Db, after: Db, k: Key, format: string, es: seq<Entry>, i: nat, now: int)
    requires i < |es| && IsTemplate(es[i]) && es[i].content.Some?
    requires k == Key(format, ProfileOf(es[i].name), "")
    requires forall x :: SlotOf(before, x) == UpsertedSlot(db, x, format, es[..i], now)
    requires SlotOf(after, k) == UpsertSlot(SlotOf(before, k), es[i].content.value, SlotOf(db, k).stamp, now)
    requires forall x :: x != k ==> SlotOf(after, x) == SlotOf(before, x)
    ensures forall x :: SlotOf(after, x) == UpsertedSlot(db, x, format, es[..i + 1], now)
  {
    assert es[..i + 1][..i] == es[..i];
    forall x ensures SlotOf(after, x) == UpsertedSlot(db, x, format, es[..i + 1], now) {
      var a, b := ContentsFor(es[..i], x.profile), ContentsFor(es[..i + 1], x.profile);
      if x == k {
        assert b == a + [es[i].content.value] && b[..|b| - 1] == a;
      } else if x.format == format && x.protocol == "" {
        assert b == a;
      }
    }
  }

  lemma {:induction false} FilesHaveContents(es: seq<Entry>, format: string, k: Key)
    requires Readable(es)
    ensures k in Files(es, format) <==>
      k.format == format && k.protocol == "" && ContentsFor(es, k.profile) != []
  {
    if es == [] {
    } else {
      var init, e := es[..|es| - 1], es[|es| - 1];
      FilesHaveContents(init, format, k);
      assert es == init + [e];
      FilesSnoc(init, e, format);
    }
  }

  lemma FilesSnoc(es: seq<Entry>, e: Entry, format: string)
    ensures Files(es + [e], format) ==
      Files(es, format) + (if IsTemplate(e) then {Key(format, ProfileOf(e.name), "")} else {})
  {
  }

  // ---------------------------------------------------------------- who wrote what, over any run

  /** Who last wrote an existing row.  Legacy rows predate the manifest. */
  datatype Writer = ByImporter | ByAdmin | Legacy

  datatype World = World(db: Db, writer: map<Key, Writer>)

  /** Each of an import's formats is a transaction of its own; anything may happen between two of them. */
  datatype Event =
    | ImportFormat(format: string, es: seq<Entry>, now: int, after: Db)
    | Put(key: Key, content: string, t: int)
    | Delete(key: Key)

  /** Clock readings may come in any order, and commits in any other; but an admin's write does not carry
      the very reading the manifest holds for its key. */
  ghost predicate Enabled(w: World, e: Event) {
    match e
    case ImportFormat(format, es, now, after) => Imported(w.db, after, format, es, now)
    case Put(k, _, t) => Lookup(w.db.manifest, k) != Some(t)
    case Delete(_) => true
  }

  /** The importer becomes the writer of the rows it stores a new version of. */
  function Next(w: World, e: Event): World {
    match e
    case ImportFormat(_, _, _, after) =>
      World(after, map k | k in after.templates ::
        if k in w.db.templates && k in w.writer && after.templates[k] == w.db.templates[k]
        then w.writer[k] else ByImporter)
    case Put(k, c, t) =>
      World(w.db.(templates := w.db.templates[k := Row(c, t)]), w.writer[k := ByAdmin])
    case Delete(k) =>
      World(w.db.(templates := w.db.templates - {k}), w.writer - {k})
  }

  ghost predicate Provenance(w: World) {
    && w.writer.Keys == w.db.templates.Keys
    && (forall k :: k in w.db.templates ==> (w.writer[k] == ByImporter <==> Pristine(SlotOf(w.db, k))))
  }

  /** A database from before the manifest existed. */
  function LegacyWorld(templates: map<Key, Row>): World {
    World(Db(templates, map[]), map k | k in templates :: Legacy)
  }

  lemma ProvenanceAtStart(templates: map<Key, Row>)
    ensures Provenance(LegacyWorld(templates))
  {
  }

  lemma ImportOutcome(w: World, e: Event, k: Key)
    requires Provenance(w) && e.ImportFormat? && Enabled(w, e)
    ensures var s, s' := SlotOf(w.db, k), SlotOf(e.after, k);
      && (s.row.Some? && !Pristine(s) ==> s'.row == s.row && !Pristine(s'))
      && (s'.row.Some? && !(s.row.Some? && !Pristine(s)) ==> Pristine(s'))
      && (s'.stamp == None || s'.stamp == s.stamp || s'.stamp == Some(e.now))
      && (s'.row == None || s'.row == s.row || s'.row.value.updatedAt == e.now)
  {
    if k.format == e.format {
      ImportSlotOutcome(SlotOf(w.db, k), FilesOf(e.es, k), e.now);
    }
  }

  lemma ProvenanceKept(w: World, e: Event)
    requires Provenance(w) && Enabled(w, e)
    ensures Provenance(Next(w, e))
  {
    var w' := Next(w, e);
    if e.ImportFormat? {
      forall k | k in w'.db.templates
        ensures w'.writer[k] == ByImporter <==> Pristine(SlotOf(w'.db, k))
      {
        ImportOutcome(w, e, k);
        assert SlotOf(e.after, k).row == Some(w'.db.templates[k]);
      }
    } else if e.Put? {
      PutKeepsProvenanceIff(w, e.key, e.content, e.t);
    } else {
      OthersKeepTheirSlots(w, w', e.key);
    }
  }

  lemma OthersKeepTheirSlots(w: World, w': World, k: Key)
    requires Provenance(w) && w'.writer.Keys == w'.db.templates.Keys
    requires forall x :: x != k ==> SlotOf(w'.db, x) == SlotOf(w.db, x)
    requires forall x :: x != k && x in w.writer && x in w'.writer ==> w'.writer[x] == w.writer[x]
    ensures forall x :: x != k && x in w'.db.templates ==> (w'.writer[x] == ByImporter <==> Pristine(SlotOf(w'.db, x)))
  {
    forall x | x != k && x in w'.db.templates
      ensures w'.writer[x] == ByImporter <==> Pristine(SlotOf(w'.db, x))
    {
      assert SlotOf(w'.db, x) == SlotOf(w.db, x);
    }
  }

  /** What time.Now must not do: the one admin's write that would be taken for the importer's, and
      overwritten by the next import, is the one whose stamp equals the manifest's for its key. */
  lemma PutKeepsProvenanceIff(w: World, k: Key, content: string, t: int)
    requires Provenance(w)
    ensures Provenance(Next(w, Put(k, content, t))) <==> Lookup(w.db.manifest, k) != Some(t)
  {
    var w' := Next(w, Put(k, content, t));
    OthersKeepTheirSlots(w, w', k);
    assert Pristine(SlotOf(w'.db, k)) <==> Lookup(w.db.manifest, k) == Some(t);
  }

  ghost predicate Run(w: World, es: seq<Event>, w': World)
    decreases |es|
  {
    if es == [] then w == w' else Enabled(w, es[0]) && Run(Next(w, es[0]), es[1..], w')
  }

  lemma {:induction false} ProvenanceAlways(w: World, es: seq<Event>, w': World)
    requires Provenance(w) && Run(w, es, w')
    ensures Provenance(w')
    decreases |es|
  {
    if es == [] {
    } else {
      ProvenanceKept(w, es[0]);
      ProvenanceAlways(Next(w, es[0]), es[1..], w');
    }
  }

  /** Over any interleaving, starting from any database without a manifest: a row is the importer's
      exactly when its manifest stamp equals its updated_at. */
  lemma OwnedIffStampsAgree(templates: map<Key, Row>, es: seq<Event>, w: World, k: Key)
    requires Run(LegacyWorld(templates), es, w) && k in w.db.templates
    ensures k in w.writer
    ensures w.writer[k] == ByImporter <==>
      k in w.db.manifest && w.db.manifest[k] == w.db.templates[k].updatedAt
  {
    ProvenanceAtStart(templates);
    ProvenanceAlways(LegacyWorld(templates), es, w);
  }

  /** An admin who deletes a row hands its key back: the next import with a file for it owns it again. */
  lemma DeleteHandsTheKeyBack(w: World, k: Key, e: Event)
    requires Provenance(w) && e.ImportFormat? && Enabled(Next(w, Delete(k)), e)
    requires k.format == e.format && FilesOf(e.es, k) != []
    ensures var w' := Next(Next(w, Delete(k)), e);
      k in w'.writer && w'.writer[k] == ByImporter
  {
    var m := Next(w, Delete(k));
    ProvenanceKept(w, Delete(k));
    ProvenanceKept(m, e);
    ImportSlotOutcome(SlotOf(m.db, k), FilesOf(e.es, k), e.now);
    assert SlotOf(e.after, k) == ImportedSlot(m.db, k, e.format, e.es, e.now);
  }

  /** No import changes, deletes or takes over a row last written by an admin or of unknown origin. */
  lemma ImportLeavesOthersAlone(w: World, e: Event, k: Key)
    requires Provenance(w) && Enabled(w, e) && e.ImportFormat?
    requires k in w.db.templates && w.writer[k] != ByImporter
    ensures k in e.after.templates && e.after.templates[k] == w.db.templates[k]
    ensures Next(w, e).writer[k] == w.writer[k]
  {
    ImportOutcome(w, e, k);
    assert SlotOf(e.after, k).row == Some(w.db.templates[k]);
  }

  /** After an import every row of the format that is the importer's equals its file, if the key's
      files agree, and none is left for a removed file. */
  lemma ImportedRowsEqualFiles(w: World, e: Event, k: Key)
    requires Provenance(w) && Enabled(w, e) && e.ImportFormat?
    requires k in e.after.templates && k.format == e.format && Next(w, e).writer[k] == ByImporter
    ensures k.protocol == "" && ContentsFor(e.es, k.profile) != []
    ensures e.after.templates[k].content in ContentsFor(e.es, k.profile)
    ensures AllSame(ContentsFor(e.es, k.profile)) ==> e.after.templates[k].content == ContentsFor(e.es, k.profile)[0]
  {
    ProvenanceKept(w, e);
    var contents := FilesOf(e.es, k);
    assert Pristine(ImportSlot(SlotOf(w.db, k), contents, e.now)) by {
      assert SlotOf(e.after, k) == ImportSlot(SlotOf(w.db, k), contents, e.now);
      assert Pristine(SlotOf(Next(w, e).db, k));
    }
    FirstImportTakesOne(SlotOf(w.db, k), contents, e.now);
  }

  /** The same in names: the row of a profile that is the importer's holds a file for that profile. */
  lemma ImportedRowsHoldFiles(w: World, e: Event, k: Key)
    requires Provenance(w) && Enabled(w, e) && e.ImportFormat?
    requires k in e.after.templates && k.format == e.format && Next(w, e).writer[k] == ByImporter
    ensures k.protocol == "" && HasFile(e.es, k.profile, e.after.templates[k].content)
  {
    ImportedRowsEqualFiles(w, e, k);
    ContentsAreFiles(e.es, k.profile, e.after.templates[k].content);
  }

  /** And it is taken over by the one version its files agree on. */
  lemma ImportedRowsTakeTheirFile(w: World, e: Event, profile: string, content: string)
    requires Provenance(w) && Enabled(w, e) && e.ImportFormat? && HasFile(e.es, profile, content)
    requires forall other :: HasFile(e.es, profile, other) ==> other == content
    requires var k := Key(e.format, profile, ""); k in w.db.templates ==> w.writer[k] == ByImporter
    ensures var k := Key(e.format, profile, "");
      && k in e.after.templates && e.after.templates[k].content == content
      && k in e.after.manifest && e.after.manifest[k] == e.after.templates[k].updatedAt
  {
    var k := Key(e.format, profile, "");
    var s, contents := SlotOf(w.db, k), ContentsFor(e.es, profile);
    ContentsAreFiles(e.es, profile, content);
    forall i | 0 <= i < |contents| ensures contents[i] == content {
      ContentsAreFiles(e.es, profile, contents[i]);
    }
    assert SlotOf(e.after, k) == ImportedSlot(w.db, k, e.format, e.es, e.now);
    UpsertStaysPristine(s, contents, e.now);
    ImportSlotOutcome(s, contents, e.now);
  }

  /** Every key of the format that the importer owns in db has files that agree. */
  ghost predicate FilesAgree(db: Db, format: string, es: seq<Entry>) {
    forall k: Key :: k.format == format && Pristine(SlotOf(db, k)) ==> AllSame(FilesOf(es, k))
  }

  /** Importing the same directory again leaves both tables as they are exactly when no key of the
      format that the importer then owns has two files with different contents. */
  lemma ReimportIdempotentIff(db: Db, db1: Db, db2: Db, format: string, es: seq<Entry>, t1: int, t2: int)
    requires Imported(db, db1, format, es, t1) && Imported(db1, db2, format, es, t2)
    requires t1 != t2 && forall k :: k in db.manifest ==> db.manifest[k] != t2
    ensures db2 == db1 <==> FilesAgree(db1, format, es)
  {
    forall k: Key | k.format == format
      ensures SlotOf(db2, k) == SlotOf(db1, k) <==> (Pristine(SlotOf(db1, k)) ==> AllSame(FilesOf(es, k)))
    {
      assert SlotOf(db1, k) == ImportSlot(SlotOf(db, k), FilesOf(es, k), t1);
      assert SlotOf(db2, k) == ImportSlot(SlotOf(db1, k), FilesOf(es, k), t2);
      ReimportUnchangedIff(SlotOf(db, k), FilesOf(es, k), t1, t2);
    }
    if FilesAgree(db1, format, es) {
      forall k ensures SlotOf(db2, k) == SlotOf(db1, k) {
        assert SlotOf(db2, k) == ImportedSlot(db1, k, format, es, t2);
      }
      SameSlotsSameDb(db2, db1);
    }
  }
}
