/**
 The compiled-template cache (internal/generator/tmplcache/tmplcache.go) of one format: rows keyed by
 (profile, protocol), a fallback to the default profile, and entries that are reused as long as the
 row's updated_at stands still.

 `versions` records every state of the table.  Writes may land between any two reads of one Get; the
 only thing asked of them is that a row's stamp fixes its content.
 */
module TmplCache {
  import opened Options

  const DEFAULT_PROFILE := "default"

  datatype Key = Key(profile: string, protocol: string)

  datatype Row = Row(content: string, updatedAt: int)

  datatype Entry<T> = Entry(value: T, updatedAt: int)

  datatype Error = NoTemplate | ParseFailed

  function CacheKey(k: Key): string {
    k.profile + "|" + k.protocol
  }

  /** When two rows share a cache key: exactly when one's profile runs on into the other's protocol. */
  predicate RunsOn(a: Key, b: Key, middle: string) {
    a.profile == b.profile + "|" + middle && b.protocol == middle + "|" + a.protocol
  }

  lemma SameCacheKeyIff(a: Key, b: Key)
    requires a != b
    ensures CacheKey(a) == CacheKey(b) <==> exists m :: RunsOn(a, b, m) || RunsOn(b, a, m)
  {
    if CacheKey(a) == CacheKey(b) {
      if |b.profile| < |a.profile| {
        LongerRunsOn(a, b);
      } else if |a.profile| < |b.profile| {
        LongerRunsOn(b, a);
      } else {
        SameSplit(a, b);
      }
    }
    if m :| RunsOn(a, b, m) || RunsOn(b, a, m) {
      assert RunsOn(a, b, m) ==> CacheKey(a) == b.profile + "|" + (m + "|" + a.protocol);
      assert RunsOn(b, a, m) ==> CacheKey(b) == a.profile + "|" + (m + "|" + b.protocol);
    }
  }

  lemma SameSplit(a: Key, b: Key)
    requires CacheKey(a) == CacheKey(b) && |a.profile| == |b.profile|
    ensures a == b
  {
    assert CacheKey(a)[..|a.profile|] == a.profile && CacheKey(b)[..|b.profile|] == b.profile;
    assert CacheKey(a)[|a.profile| + 1..] == a.protocol && CacheKey(b)[|b.profile| + 1..] == b.protocol;
  }

  lemma LongerRunsOn(a: Key, b: Key)
    requires CacheKey(a) == CacheKey(b) && |b.profile| < |a.profile|
    ensures RunsOn(a, b, a.profile[|b.profile| + 1..])
    ensures '|' in b.protocol
  {
    var n, s := |b.profile|, CacheKey(a);
    var m := a.profile[n + 1..];
    assert s[..n] == b.profile && s[n] == '|' && s[n + 1..] == b.protocol;
    assert s[..|a.profile|] == a.profile && s[|a.profile|..] == "|" + a.protocol;
    assert a.profile == s[..n] + [s[n]] + m;
    assert s[n + 1..] == m + s[|a.profile|..];
    assert b.protocol[|m|] == '|';
  }

  /** Protocols without '|' keep rows apart. */
  lemma PlainProtocolsKeepKeysApart(a: Key, b: Key)
    requires CacheKey(a) == CacheKey(b) && '|' !in a.protocol && '|' !in b.protocol
    ensures a == b
  {
    if |b.profile| < |a.profile| {
      LongerRunsOn(a, b);
    } else if |a.profile| < |b.profile| {
      LongerRunsOn(b, a);
    } else {
      SameSplit(a, b);
    }
  }

  predicate Twins(a: Key, b: Key) {
    a != b && CacheKey(a) == CacheKey(b)
  }

  /** No row that shares k's cache key ever had a stamp that k's row had. */
  ghost predicate Apart(versions: seq<map<Key, Row>>, k: Key) {
    forall other, i, j ::
      Twins(k, other) && 0 <= i < |versions| && 0 <= j < |versions| && k in versions[i] && other in versions[j] ==>
        versions[i][k].updatedAt != versions[j][other].updatedAt
  }

  /** Where no protocol with a row holds '|', all rows are apart. */
  lemma PlainProtocolsAreApart(versions: seq<map<Key, Row>>, k: Key)
    requires forall i, x :: 0 <= i < |versions| && x in versions[i] ==> '|' !in x.protocol
    ensures Apart(versions, k)
  {
    forall other, i, j | 0 <= i < |versions| && 0 <= j < |versions| && k in versions[i] && other in versions[j]
      ensures !Twins(k, other)
    {
      if CacheKey(k) == CacheKey(other) {
        PlainProtocolsKeepKeysApart(k, other);
      }
    }
  }

  lemma ApartBefore(a: seq<map<Key, Row>>, b: seq<map<Key, Row>>, k: Key)
    requires a <= b && Apart(b, k)
    ensures Apart(a, k)
  {
    forall other, i, j |
      Twins(k, other) && 0 <= i < |a| && 0 <= j < |a| && k in a[i] && other in a[j]
      ensures a[i][k].updatedAt != a[j][other].updatedAt
    {
      assert a[i] == b[i] && a[j] == b[j];
    }
  }

  predicate StampsFixContent(a: map<Key, Row>, b: map<Key, Row>) {
    forall k :: k in a && k in b && a[k].updatedAt == b[k].updatedAt ==> a[k] == b[k]
  }

  ghost predicate Consistent(versions: seq<map<Key, Row>>) {
    && versions != []
    && forall i, j :: 0 <= i < |versions| && 0 <= j < |versions| ==> StampsFixContent(versions[i], versions[j])
  }

  class Cache<T(==)> {
    const format: string
    const parse: (string, string) -> Option<T>
    var versions: seq<map<Key, Row>>
    var entries: map<string, Entry<T>>

    constructor (format: string, parse: (string, string) -> Option<T>, table: map<Key, Row>)
      ensures this.format == format && this.parse == parse
      ensures Valid() && versions == [table]
    {
      this.format, this.parse, versions, entries := format, parse, [table], map[];
    }

    function Parsed(k: Key, content: string): Result<T, Error> {
      var p := parse(format + "/" + CacheKey(k), content);
      if p.Some? then Ok(p.value) else Err(ParseFailed)
    }

    /** The entry is what some version of k's row with the entry's stamp parses to. */
    ghost predicate Witnessed(versions: seq<map<Key, Row>>, s: string, k: Key, e: Entry<T>) {
      && CacheKey(k) == s
      && exists v :: 0 <= v < |versions| && Shows(versions[v], k, e)
    }

    ghost predicate Shows(table: map<Key, Row>, k: Key, e: Entry<T>) {
      k in table && table[k].updatedAt == e.updatedAt && Parsed(k, table[k].content) == Ok(e.value)
    }

    ghost predicate AllWitnessed(versions: seq<map<Key, Row>>, entries: map<string, Entry<T>>) {
      forall s :: s in entries ==> exists k :: Witnessed(versions, s, k, entries[s])
    }

    ghost predicate Valid()
      reads this
    {
      Consistent(versions) && AllWitnessed(versions, entries)
    }

    lemma StillWitnessed(a: seq<map<Key, Row>>, b: seq<map<Key, Row>>, entries: map<string, Entry<T>>)
      requires a <= b && AllWitnessed(a, entries)
      ensures AllWitnessed(b, entries)
    {
      forall s | s in entries ensures exists k :: Witnessed(b, s, k, entries[s]) {
        var k :| Witnessed(a, s, k, entries[s]);
        var v :| 0 <= v < |a| && Shows(a[v], k, entries[s]);
        assert Shows(b[v], k, entries[s]);
        assert Witnessed(b, s, k, entries[s]);
      }
    }

    lemma StillConsistent(versions: seq<map<Key, Row>>, table: map<Key, Row>)
      requires Consistent(versions) && forall v :: 0 <= v < |versions| ==> StampsFixContent(table, versions[v])
      ensures Consistent(versions + [table])
    {
      var after := versions + [table];
      forall i, j | 0 <= i < |after| && 0 <= j < |after| ensures StampsFixContent(after[i], after[j]) {
        if i < |versions| && j < |versions| {
          assert StampsFixContent(versions[i], versions[j]);
        } else if i < |versions| {
          assert StampsFixContent(table, versions[i]);
        }
      }
    }

    /** Puts, deletes and imports of others, and their calls of Get, between two steps of one Get. */
    method Interfere()
      requires Valid()
      modifies this
      ensures Valid() && old(versions) <= versions
    {
      var n: int := *;
      while 0 < n
        invariant Valid() && old(versions) <= versions
      {
        n := n - 1;
        var what: bool, table: map<Key, Row>, k: Key, seen: int := *, *, *, *;
        if what && forall v :: 0 <= v < |versions| ==> StampsFixContent(table, versions[v]) {
          Write(table);
        } else if !what && 0 <= seen < |versions| && k in versions[seen] {
          var r := Resolve(k, versions[seen][k], seen);
        }
      }
    }

    method Write(table: map<Key, Row>)
      requires Valid() && forall v :: 0 <= v < |versions| ==> StampsFixContent(table, versions[v])
      modifies `versions
      ensures Valid() && versions == old(versions) + [table]
    {
      StillConsistent(versions, table);
      StillWitnessed(versions, versions + [table], entries);
      versions := versions + [table];
    }

    /** The parse of some version of x's row with this stamp. */
    ghost predicate Stamped(versions: seq<map<Key, Row>>, x: Key, updatedAt: int, r: Result<T, Error>) {
      exists v :: 0 <= v < |versions| && x in versions[v] && versions[v][x].updatedAt == updatedAt
        && r == Parsed(x, versions[v][x].content)
    }

    /** The locked section of Get, for a row of k that was read at version `seen`: the parse of that row, unless a
        row that shares its cache key had the same stamp, in which case it may be that one's. */
    method Resolve(k: Key, row: Row, seen: nat) returns (r: Result<T, Error>)
      requires Valid()
      requires seen < |versions| && k in versions[seen] && versions[seen][k] == row
      modifies `entries
      ensures Valid()
      ensures r != Err(NoTemplate) && exists x :: CacheKey(x) == CacheKey(k) && Stamped(versions, x, row.updatedAt, r)
      ensures Apart(versions, k) ==> r == Parsed(k, row.content)
    {
      var key := CacheKey(k);
      if key in entries && entries[key].updatedAt == row.updatedAt {
        ghost var x :| Witnessed(versions, key, x, entries[key]);
        ghost var v :| 0 <= v < |versions| && Shows(versions[v], x, entries[key]);
        assert StampsFixContent(versions[v], versions[seen]);
        assert Apart(versions, k) ==> !Twins(k, x);
        r := Ok(entries[key].value);
        assert Stamped(versions, x, row.updatedAt, r);
        return;
      }
      r := Parsed(k, row.content);
      assert Stamped(versions, k, row.updatedAt, r);
      if r.Ok? {
        ghost var e := Entry(r.value, row.updatedAt);
        assert Shows(versions[seen], k, e) && Witnessed(versions, key, k, e);
        entries := entries[key := Entry(r.value, row.updatedAt)];
      }
    }

    /** Whatever writes land in between and whatever is cached: Get returns the parse of the profile's
        row as of some moment during the call or, if there was none at that moment, the parse of the
        default row as of a later moment, or an error if that is missing too; as long as no other row that
        shares the cache key had the same stamp. */
    method Get(profile: string, protocol: string) returns (r: Result<T, Error>)
      requires Valid()
      modifies this
      ensures Valid() && old(versions) <= versions
      ensures Apart(versions, Key(profile, protocol)) && Apart(versions, Key(DEFAULT_PROFILE, protocol)) ==>
        exists a, b ::
          |old(versions)| - 1 <= a <= b < |versions| && r == Answer(profile, protocol, versions[a], versions[b])
      ensures r == Err(NoTemplate) ==>
        exists a, b ::
          |old(versions)| - 1 <= a <= b < |versions| && r == Answer(profile, protocol, versions[a], versions[b])
      ensures r != Err(NoTemplate) ==>
        exists p, x, t :: (p == profile || p == DEFAULT_PROFILE)
          && CacheKey(x) == CacheKey(Key(p, protocol)) && Stamped(versions, x, t, r)
    {
      var k := Key(profile, protocol);
      var a := |versions| - 1;
      var b := a;
      ghost var start := versions;
      if k !in versions[a] {
        if profile == DEFAULT_PROFILE {
          assert Err(NoTemplate) == Answer(profile, protocol, versions[a], versions[a]);
          return Err(NoTemplate);
        }
        Interfere();
        k, b := Key(DEFAULT_PROFILE, protocol), |versions| - 1;
        assert versions[a] == start[a];
        if k !in versions[b] {
          assert Err(NoTemplate) == Answer(profile, protocol, versions[a], versions[b]);
          return Err(NoTemplate);
        }
      }
      var row := versions[b][k];
      ghost var fetched := versions;
      Interfere();
      assert versions[b] == fetched[b] && versions[a] == fetched[a];
      r := Resolve(k, row, b);
      assert Apart(versions, k) ==> r == Answer(profile, protocol, versions[a], versions[b]);
    }

    lemma ParsedIs(k: Key, content: string)
      ensures var p := parse(format + "/" + k.profile + "|" + k.protocol, content);
        Parsed(k, content) == match p case Some(v) => Ok(v) case None => Err(ParseFailed)
    {
      assert format + "/" + CacheKey(k) == format + "/" + k.profile + "|" + k.protocol;
    }

    /** What is parsed under which name: the content of the profile's row as format/profile|protocol, or else, unless
        it was asked for, that of the default profile's row as format/default|protocol. */
    lemma AnswerIs(profile: string, protocol: string, first: map<Key, Row>, second: map<Key, Row>)
      ensures var k, d, r := Key(profile, protocol), Key("default", protocol), Answer(profile, protocol, first, second);
        && (k in first ==> var p := parse(format + "/" + profile + "|" + protocol, first[k].content);
              r == match p case Some(v) => Ok(v) case None => Err(ParseFailed))
        && (k !in first && profile != "default" && d in second ==>
              var p := parse(format + "/" + "default" + "|" + protocol, second[d].content);
              r == match p case Some(v) => Ok(v) case None => Err(ParseFailed))
        && (k !in first && (profile == "default" || d !in second) ==> r == Err(NoTemplate))
    {
      var k, d := Key(profile, protocol), Key("default", protocol);
      if k in first {
        ParsedIs(k, first[k].content);
      } else if profile != "default" && d in second {
        ParsedIs(d, second[d].content);
      }
    }

    ghost function Answer(
      profile: string, protocol: string, first: map<Key, Row>, second: map<Key, Row>): Result<T, Error>
    {
      var k, d := Key(profile, protocol), Key(DEFAULT_PROFILE, protocol);
      if k in first then Parsed(k, first[k].content)
      else if profile != DEFAULT_PROFILE && d in second then Parsed(d, second[d].content)
      else Err(NoTemplate)
    }
  }
}
