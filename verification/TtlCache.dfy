/**
 The panel cache (internal/xui/cache.go): any number of concurrent get calls around one double-checked,
 singleflighted fetch whose successes and failures are both kept for ttl.

 The class has one method per critical section of the source.  The interleavings of those sections are
 a transition system over the same functions.  A time of None is the zero time.Time: never.
 */
module TtlCache {
  import opened Options

  datatype Cache<T> = Cache(
    ttl: int, value: T, fetchedAt: Option<int>, lastErr: Option<string>, erroredAt: Option<int>)

  predicate Within(at: Option<int>, now: int, ttl: int) {
    0 < ttl && at.Some? && now - at.value < ttl
  }

  /** What a freshness check finds: a cached value, a cached failure, or nothing fresh. */
  datatype Look<T> = Fresh(outcome: Result<T, string>) | Stale

  function Check<T>(c: Cache<T>, now: int): Look<T> {
    if Within(c.fetchedAt, now, c.ttl) then Fresh(Ok(c.value))
    else if c.lastErr.Some? && Within(c.erroredAt, now, c.ttl) then Fresh(Err(c.lastErr.value))
    else Stale
  }

  function Recorded<T>(c: Cache<T>, outcome: Result<T, string>, now: int): Cache<T> {
    match outcome
    case Ok(v) => c.(value := v, fetchedAt := Some(now), lastErr := None)
    case Err(e) => c.(lastErr := Some(e), erroredAt := Some(now))
  }

  function Cleared<T>(c: Cache<T>, zero: T): Cache<T> {
    Cache(c.ttl, zero, None, None, None)
  }

  class TtlCache<T> {
    const ttl: int
    const zero: T
    var value: T
    var fetchedAt: Option<int>
    var lastErr: Option<string>
    var erroredAt: Option<int>

    function View(): Cache<T>
      reads this
    {
      Cache(ttl, value, fetchedAt, lastErr, erroredAt)
    }

    constructor (ttl: int, zero: T)
      ensures this.ttl == ttl && this.zero == zero && View() == Cache(ttl, zero, None, None, None)
    {
      this.ttl, this.zero, value := ttl, zero, zero;
      fetchedAt, lastErr, erroredAt := None, None, None;
    }

    /** The section under RLock, on both its occurrences. */
    method Read(now: int) returns (r: Look<T>)
      ensures r == Check(View(), now)
      ensures r.Fresh? && r.outcome.Ok? <==> 0 < ttl && fetchedAt.Some? && now - fetchedAt.value < ttl
      ensures r.Fresh? && r.outcome.Ok? ==> r.outcome.value == value
      ensures r.Fresh? && r.outcome.Err? ==> lastErr == Some(r.outcome.error)
      ensures r.Stale? ==> !(0 < ttl && lastErr.Some? && erroredAt.Some? && now - erroredAt.value < ttl)
    {
      var isFresh := 0 < ttl && fetchedAt.Some? && now - fetchedAt.value < ttl;
      var cached := value;
      var freshErr := 0 < ttl && lastErr.Some? && erroredAt.Some? && now - erroredAt.value < ttl;
      var cachedErr := lastErr;
      if isFresh {
        return Fresh(Ok(cached));
      }
      if freshErr {
        return Fresh(Err(cachedErr.value));
      }
      r := Stale;
    }

    /** The section under Lock after a fetch. */
    method Record(outcome: Result<T, string>, now: int)
      modifies this
      ensures View() == Recorded(old(View()), outcome, now)
      ensures outcome.Ok? ==>
        value == outcome.value && fetchedAt == Some(now) && lastErr == None && erroredAt == old(erroredAt)
      ensures outcome.Err? ==>
        value == old(value) && fetchedAt == old(fetchedAt) && lastErr == Some(outcome.error) && erroredAt == Some(now)
    {
      match outcome
      case Err(e) =>
        lastErr := Some(e);
        erroredAt := Some(now);
      case Ok(v) =>
        value := v;
        fetchedAt := Some(now);
        lastErr := None;
    }

    method Invalidate()
      modifies this
      ensures View() == Cleared(old(View()), zero)
      ensures value == zero && fetchedAt == None && lastErr == None && erroredAt == None
    {
      value, fetchedAt, lastErr, erroredAt := zero, None, None, None;
    }
  }

  // ---------------------------------------------------------------- concurrent callers

  /** Where a call of get is.  Upstream calls are numbered in the order they start. */
  datatype Place<T> =
    | Missed                                  // not fresh, about to enter the singleflight group
    | Waiting                                 // for the leader's result
    | Leading                                 // leader, before its second check
    | Fetching(fetch: nat)                    // leader, this upstream call under way
    | Answered(fetch: nat, outcome: Result<T, string>, since: int)    // leader, result not yet handed out

  predicate Leads<T>(p: Place<T>) {
    p.Leading? || p.Fetching? || p.Answered?
  }

  /** An upstream call: when it started, which one was the newest on record then, and what it came to when. */
  datatype Fetch<T> = Fetch(started: int, lastRecord: Option<nat>, answer: Option<(int, Result<T, string>)>)

  /** A result served by a freshness check, and the newest upstream call on record at that moment. */
  datatype Hit<T> = Hit(outcome: Result<T, string>, checkedAt: int, lastRecord: Option<nat>)

  /** What group.Do handed to the leader and to everyone waiting: the outcome of which upstream call, since when
      the leader had it, and to whom. */
  datatype Delivery<T> = Delivery(fetch: nat, outcome: Result<T, string>, since: int, handedAt: int, callers: set<nat>)

  datatype State<T> = State(
    cache: Cache<T>, flight: Option<nat>, calls: map<nat, Place<T>>, clock: int,
    lastRecord: Option<nat>,                         // newest upstream call recorded since the last invalidate
    fetches: seq<Fetch<T>>, hits: seq<Hit<T>>, deliveries: seq<Delivery<T>>)

  datatype Act<T> =
    | Call(id: nat)                                     // the first check
    | Join(id: nat)                                     // group.Do
    | Recheck(id: nat)                                  // the second check
    | Return(id: nat, outcome: Result<T, string>)       // fetch returned, record it
    | Deliver(id: nat)                                  // group.Do hands out the result
    | Clear(zero: T)                                    // invalidate

  datatype Event<T> = At(time: int, act: Act<T>)

  predicate Enabled<T>(s: State<T>, e: Event<T>) {
    s.clock <= e.time &&
    match e.act
    case Call(id) => id !in s.calls
    case Join(id) => id in s.calls && s.calls[id].Missed?
    case Recheck(id) => id in s.calls && s.calls[id].Leading?
    case Return(id, _) => id in s.calls && s.calls[id].Fetching? && s.calls[id].fetch < |s.fetches|
    case Deliver(id) => id in s.calls && s.calls[id].Answered?
    case Clear(_) => true
  }

  function Next<T>(s: State<T>, e: Event<T>): State<T>
    requires Enabled(s, e)
  {
    var now := e.time;
    var s := s.(clock := now);
    var look := Check(s.cache, now);
    match e.act
    case Call(id) =>
      if look.Fresh? then s.(hits := s.hits + [Hit(look.outcome, now, s.lastRecord)])
      else s.(calls := s.calls[id := Missed])
    case Join(id) =>
      if s.flight == None then s.(flight := Some(id), calls := s.calls[id := Leading])
      else s.(calls := s.calls[id := Waiting])
    case Recheck(id) =>
      if look.Fresh? then
        s.(calls := s.calls[id := Answered(if s.lastRecord.Some? then s.lastRecord.value else 0, look.outcome, now)],
           hits := s.hits + [Hit(look.outcome, now, s.lastRecord)])
      else
        s.(calls := s.calls[id := Fetching(|s.fetches|)], fetches := s.fetches + [Fetch(now, s.lastRecord, None)])
    case Return(id, outcome) =>
      var n := s.calls[id].fetch;
      s.(cache := Recorded(s.cache, outcome, now), lastRecord := Some(n),
         fetches := s.fetches[n := s.fetches[n].(answer := Some((now, outcome)))],
         calls := s.calls[id := Answered(n, outcome, now)])
    case Deliver(id) =>
      var p := s.calls[id];
      s.(flight := None, calls := map k | k in s.calls && k !in Served(s, id) :: s.calls[k],
         deliveries := s.deliveries + [Delivery(p.fetch, p.outcome, p.since, now, Served(s, id))])
    case Clear(zero) =>
      s.(cache := Cleared(s.cache, zero), lastRecord := None)
  }

  function Served<T>(s: State<T>, id: nat): set<nat> {
    set k | k in s.calls && (k == id || s.calls[k].Waiting?)
  }

  // ---------------------------------------------------------------- what every step keeps

  /** The cache repeats what the newest upstream call came to, and nothing else it holds is still fresh. */
  ghost predicate Current<T>(s: State<T>) {
    match s.lastRecord
    case None => s.cache.fetchedAt == None && s.cache.lastErr == None
    case Some(n) =>
      n < |s.fetches| && s.fetches[n].answer.Some? &&
      match s.fetches[n].answer.value
      case (t, Ok(v)) =>
        t <= s.clock && s.cache.fetchedAt == Some(t) && s.cache.value == v && s.cache.lastErr == None
      case (t, Err(e)) =>
        && t <= s.clock && s.cache.lastErr == Some(e) && s.cache.erroredAt == Some(t)
        && (s.cache.fetchedAt.Some? ==> s.cache.fetchedAt.value + s.cache.ttl <= t)
  }

  /** At most one call leads: it is the one in flight; its upstream call is unanswered, or its result current
      when it was obtained. */
  ghost predicate LeaderOk<T>(s: State<T>, id: nat)
    requires id in s.calls
  {
    s.flight == Some(id) &&
    match s.calls[id]
    case Fetching(n) =>
      && n < |s.fetches| && s.fetches[n].answer == None && s.fetches[n].started <= s.clock
      && (s.cache.fetchedAt.Some? ==> s.cache.fetchedAt.value + s.cache.ttl <= s.fetches[n].started)
    case Answered(n, outcome, since) => since <= s.clock && Obtained(s.fetches, n, outcome, since, s.cache.ttl)
    case _ => true
  }

  /** An outcome obtained then: that upstream call's own, just now or less than ttl ago. */
  ghost predicate Obtained<T>(fetches: seq<Fetch<T>>, n: nat, outcome: Result<T, string>, since: int, ttl: int) {
    && n < |fetches| && fetches[n].answer.Some? && fetches[n].answer.value.1 == outcome
    && var at := fetches[n].answer.value.0; at <= since && (at == since || since - at < ttl)
  }

  ghost predicate HitOk<T>(h: Hit<T>, fetches: seq<Fetch<T>>, ttl: int) {
    && h.lastRecord.Some? && h.lastRecord.value < |fetches| && fetches[h.lastRecord.value].answer.Some?
    && fetches[h.lastRecord.value].answer.value.1 == h.outcome
    && h.checkedAt - fetches[h.lastRecord.value].answer.value.0 < ttl
  }

  ghost predicate FetchOk<T>(f: Fetch<T>, fetches: seq<Fetch<T>>, ttl: int) {
    f.lastRecord.Some? ==>
      && f.lastRecord.value < |fetches| && fetches[f.lastRecord.value].answer.Some?
      && fetches[f.lastRecord.value].answer.value.0 + ttl <= f.started
  }

  ghost predicate DeliveryOk<T>(d: Delivery<T>, fetches: seq<Fetch<T>>, ttl: int) {
    d.since <= d.handedAt && Obtained(fetches, d.fetch, d.outcome, d.since, ttl)
  }

  ghost predicate Inv<T>(s: State<T>) {
    && Current(s)
    && (forall id :: id in s.calls && Leads(s.calls[id]) ==> LeaderOk(s, id))
    && (forall i :: 0 <= i < |s.hits| ==> HitOk(s.hits[i], s.fetches, s.cache.ttl))
    && (forall i :: 0 <= i < |s.fetches| ==> FetchOk(s.fetches[i], s.fetches, s.cache.ttl))
    && (forall i :: 0 <= i < |s.deliveries| ==> DeliveryOk(s.deliveries[i], s.fetches, s.cache.ttl))
  }

  /** A fresh look is the newest outcome, recorded less than ttl ago. */
  lemma FreshIsNewest<T>(s: State<T>, now: int)
    requires Current(s) && s.clock <= now && Check(s.cache, now).Fresh?
    ensures HitOk(Hit(Check(s.cache, now).outcome, now, s.lastRecord), s.fetches, s.cache.ttl)
    ensures Obtained(s.fetches, s.lastRecord.value, Check(s.cache, now).outcome, now, s.cache.ttl)
  {
  }

  /** A stale look means the newest outcome is at least ttl old, whatever sign ttl has. */
  lemma StaleIsExpired<T>(s: State<T>, now: int)
    requires Current(s) && s.clock <= now && Check(s.cache, now).Stale?
    ensures FetchOk(Fetch(now, s.lastRecord, None), s.fetches, s.cache.ttl)
    ensures s.cache.fetchedAt.Some? ==> s.cache.fetchedAt.value + s.cache.ttl <= now
  {
  }

  /** The history only grows: no answered upstream call changes its answer, no start is rewritten. */
  ghost predicate Extends<T>(a: seq<Fetch<T>>, b: seq<Fetch<T>>) {
    && |a| <= |b|
    && forall n :: 0 <= n < |a| ==>
         && b[n].started == a[n].started && b[n].lastRecord == a[n].lastRecord
         && (a[n].answer.Some? ==> b[n].answer == a[n].answer)
  }

  lemma OldHistoryStays<T>(s: State<T>, b: seq<Fetch<T>>)
    requires Inv(s) && Extends(s.fetches, b)
    ensures forall i :: 0 <= i < |s.hits| ==> HitOk(s.hits[i], b, s.cache.ttl)
    ensures forall i :: 0 <= i < |s.deliveries| ==> DeliveryOk(s.deliveries[i], b, s.cache.ttl)
    ensures forall i :: 0 <= i < |s.fetches| ==> FetchOk(b[i], b, s.cache.ttl)
  {
    forall i | 0 <= i < |s.hits| ensures HitOk(s.hits[i], b, s.cache.ttl) {
      assert HitOk(s.hits[i], s.fetches, s.cache.ttl);
    }
    forall i | 0 <= i < |s.deliveries| ensures DeliveryOk(s.deliveries[i], b, s.cache.ttl) {
      assert DeliveryOk(s.deliveries[i], s.fetches, s.cache.ttl);
    }
    forall i | 0 <= i < |s.fetches| ensures FetchOk(b[i], b, s.cache.ttl) {
      assert FetchOk(s.fetches[i], s.fetches, s.cache.ttl);
    }
  }

  lemma InvKept<T>(s: State<T>, e: Event<T>)
    requires Inv(s) && Enabled(s, e)
    ensures Inv(Next(s, e))
  {
    LeadersStay(s, e);
    HistoryStays(s, e);
  }

  lemma HistoryStays<T>(s: State<T>, e: Event<T>)
    requires Inv(s) && Enabled(s, e)
    ensures var s' := Next(s, e);
      && (forall i :: 0 <= i < |s'.hits| ==> HitOk(s'.hits[i], s'.fetches, s'.cache.ttl))
      && (forall i :: 0 <= i < |s'.fetches| ==> FetchOk(s'.fetches[i], s'.fetches, s'.cache.ttl))
      && (forall i :: 0 <= i < |s'.deliveries| ==> DeliveryOk(s'.deliveries[i], s'.fetches, s'.cache.ttl))
  {
    var s' := Next(s, e);
    if Check(s.cache, e.time).Fresh? {
      FreshIsNewest(s, e.time);
    } else {
      StaleIsExpired(s, e.time);
    }
    if e.act.Return? || e.act.Deliver? {
      assert LeaderOk(s, e.act.id);
    }
    OldHistoryStays(s, s'.fetches);
  }

  lemma LeadersStay<T>(s: State<T>, e: Event<T>)
    requires Inv(s) && Enabled(s, e)
    ensures var s' := Next(s, e);
      Current(s') && forall id :: id in s'.calls && Leads(s'.calls[id]) ==> LeaderOk(s', id)
  {
    var s' := Next(s, e);
    if e.act.Return? {
      assert LeaderOk(s, e.act.id);
      Returned(s, e);
    } else {
      assert Current(s');
    }
    forall id | id in s'.calls && Leads(s'.calls[id]) ensures LeaderOk(s', id) {
      if id in s.calls && s'.calls[id] == s.calls[id] {
        assert LeaderOk(s, id);
        SameLeader(s, e, id);
      } else {
        NewLeader(s, e, id);
      }
    }
  }

  lemma Returned<T>(s: State<T>, e: Event<T>)
    requires Current(s) && Enabled(s, e) && e.act.Return? && LeaderOk(s, e.act.id)
    ensures Current(Next(s, e)) && LeaderOk(Next(s, e), e.act.id)
  {
  }

  lemma SameLeader<T>(s: State<T>, e: Event<T>, id: nat)
    requires Enabled(s, e) && id in s.calls && Leads(s.calls[id]) && LeaderOk(s, id)
    requires forall k :: k in s.calls && Leads(s.calls[k]) ==> LeaderOk(s, k)
    requires id in Next(s, e).calls && Next(s, e).calls[id] == s.calls[id]
    ensures LeaderOk(Next(s, e), id)
  {
    forall k | k in s.calls && Leads(s.calls[k]) ensures k == id {
      assert LeaderOk(s, k);
    }
  }

  lemma NewLeader<T>(s: State<T>, e: Event<T>, id: nat)
    requires Current(s) && Enabled(s, e) && id in Next(s, e).calls && Leads(Next(s, e).calls[id])
    requires id in s.calls ==> Next(s, e).calls[id] != s.calls[id]
    requires forall k :: k in s.calls && Leads(s.calls[k]) ==> LeaderOk(s, k)
    ensures LeaderOk(Next(s, e), id)
  {
    if e.act.Return? {
      assert LeaderOk(s, e.act.id);
      Returned(s, e);
    } else if e.act.Recheck? {
      assert LeaderOk(s, e.act.id);
      if Check(s.cache, e.time).Fresh? {
        FreshIsNewest(s, e.time);
      } else {
        StaleIsExpired(s, e.time);
      }
    }
  }

  function Start<T>(ttl: int, zero: T, clock: int): State<T> {
    State(Cache(ttl, zero, None, None, None), None, map[], clock, None, [], [], [])
  }

  ghost predicate Run<T(!new)>(s: State<T>, es: seq<Event<T>>, s': State<T>)
    decreases |es|
  {
    if es == [] then s == s' else Enabled(s, es[0]) && Run(Next(s, es[0]), es[1..], s')
  }

  lemma {:induction false} InvAlways<T(!new)>(s: State<T>, es: seq<Event<T>>, s': State<T>)
    requires Inv(s) && Run(s, es, s')
    ensures Inv(s') && s'.cache.ttl == s.cache.ttl
    decreases |es|
  {
    if es == [] {
    } else {
      InvKept(s, es[0]);
      InvAlways(Next(s, es[0]), es[1..], s');
    }
  }

  /** For any number of concurrent callers, any upstream behaviour and any invalidations:
      upstream calls never overlap; each starts at least ttl after the newest outcome on record, value or
      failure alike; what a check serves is that newest outcome, less than ttl old; and what group.Do hands out,
      to the leader and to everyone who waited, is what one upstream call came to, less than ttl old when the
      leader obtained it, or obtained the moment it came in. */
  lemma CacheTheorem<T(!new)>(ttl: int, zero: T, clock: int, es: seq<Event<T>>, s: State<T>)
    requires Run(Start(ttl, zero, clock), es, s)
    ensures forall a, b :: a in s.calls && b in s.calls && s.calls[a].Fetching? && s.calls[b].Fetching? ==> a == b
    ensures forall i :: 0 <= i < |s.fetches| ==> FetchOk(s.fetches[i], s.fetches, ttl)
    ensures forall i :: 0 <= i < |s.hits| ==> HitOk(s.hits[i], s.fetches, ttl)
    ensures forall i :: 0 <= i < |s.deliveries| ==> DeliveryOk(s.deliveries[i], s.fetches, ttl)
  {
    InvAlways(Start(ttl, zero, clock), es, s);
    forall a, b | a in s.calls && b in s.calls && s.calls[a].Fetching? && s.calls[b].Fetching? ensures a == b {
      assert LeaderOk(s, a) && LeaderOk(s, b);
    }
  }

  /** A fetch is the only thing that brings a new outcome on record, and it does so while no other runs:
      from its start to its end nothing else was recorded. */
  lemma NothingRecordedDuringAFetch<T>(s: State<T>, e: Event<T>, id: nat)
    requires Inv(s) && Enabled(s, e) && id in s.calls && s.calls[id].Fetching?
    requires Next(s, e).lastRecord != s.lastRecord
    ensures e.act.Clear? || (e.act.Return? && e.act.id == id)
  {
    assert LeaderOk(s, id);
    if e.act.Return? {
      assert LeaderOk(s, e.act.id);
    }
  }

  // ---------------------------------------------------------------- how far invalidate reaches

  predicate NoClear<T>(es: seq<Event<T>>) {
    forall i :: 0 <= i < |es| ==> !es[i].act.Clear?
  }

  ghost predicate AnyFetching<T>(s: State<T>) {
    exists id :: id in s.calls && s.calls[id].Fetching?
  }

  ghost predicate AnyAnswered<T>(s: State<T>) {
    exists id :: id in s.calls && s.calls[id].Answered?
  }

  /** Everything checks served since c comes from an upstream call started since c. */
  ghost predicate FreshHits<T>(c: State<T>, s: State<T>) {
    |c.hits| <= |s.hits| && forall i :: |c.hits| <= i < |s.hits| ==>
      s.hits[i].lastRecord.Some? && |c.fetches| <= s.hits[i].lastRecord.value
  }

  /** Everything handed out since c does. */
  ghost predicate FreshDeliveries<T>(c: State<T>, s: State<T>) {
    |c.deliveries| <= |s.deliveries| && forall i :: |c.deliveries| <= i < |s.deliveries| ==>
      |c.fetches| <= s.deliveries[i].fetch
  }

  /** Whatever happens until the next invalidate, the cache serves nothing older than this state. */
  ghost predicate ServesNothingOlder<T(!new)>(c: State<T>) {
    forall es, s :: Run(c, es, s) && NoClear(es) ==> FreshHits(c, s)
  }

  /** Whatever happens until the next invalidate, nobody is handed anything older than this state. */
  ghost predicate HandsOutNothingOlder<T(!new)>(c: State<T>) {
    forall es, s :: Run(c, es, s) && NoClear(es) ==> FreshDeliveries(c, s)
  }

  /** On record or under way since c: only upstream calls started since c. */
  ghost predicate NothingOldLeft<T>(c: State<T>, s: State<T>) {
    && |c.fetches| <= |s.fetches| && FreshHits(c, s)
    && (s.lastRecord.Some? ==> |c.fetches| <= s.lastRecord.value)
    && (forall id :: id in s.calls && s.calls[id].Fetching? ==> |c.fetches| <= s.calls[id].fetch)
  }

  lemma NothingOldComesBack<T>(c: State<T>, s: State<T>, e: Event<T>)
    requires Current(s) && Enabled(s, e) && NothingOldLeft(c, s) && !e.act.Clear?
    ensures NothingOldLeft(c, Next(s, e))
  {
    if Check(s.cache, e.time).Fresh? {
      FreshIsNewest(s, e.time);
    }
  }

  lemma {:induction false} NothingOldReturns<T(!new)>(c: State<T>, s: State<T>, es: seq<Event<T>>, s': State<T>)
    requires Inv(s) && NothingOldLeft(c, s) && Run(s, es, s') && NoClear(es)
    ensures FreshHits(c, s')
    decreases |es|
  {
    if es == [] {
    } else {
      InvKept(s, es[0]);
      NothingOldComesBack(c, s, es[0]);
      NothingOldReturns(c, Next(s, es[0]), es[1..], s');
    }
  }

  /** Neither does any call hold an older result. */
  ghost predicate NothingOldHeld<T>(c: State<T>, s: State<T>) {
    && NothingOldLeft(c, s) && FreshDeliveries(c, s)
    && (forall id :: id in s.calls && s.calls[id].Answered? ==> |c.fetches| <= s.calls[id].fetch)
  }

  lemma NothingOldIsPickedUp<T>(c: State<T>, s: State<T>, e: Event<T>)
    requires Current(s) && Enabled(s, e) && NothingOldHeld(c, s) && !e.act.Clear?
    ensures NothingOldHeld(c, Next(s, e))
  {
    NothingOldComesBack(c, s, e);
    if Check(s.cache, e.time).Fresh? {
      FreshIsNewest(s, e.time);
    }
  }

  lemma {:induction false} NothingOldDelivered<T(!new)>(c: State<T>, s: State<T>, es: seq<Event<T>>, s': State<T>)
    requires Inv(s) && NothingOldHeld(c, s) && Run(s, es, s') && NoClear(es)
    ensures FreshDeliveries(c, s')
    decreases |es|
  {
    if es == [] {
    } else {
      InvKept(s, es[0]);
      NothingOldIsPickedUp(c, s, es[0]);
      NothingOldDelivered(c, Next(s, es[0]), es[1..], s');
    }
  }

  lemma RunOne<T(!new)>(s: State<T>, e: Event<T>, rest: seq<Event<T>>, s': State<T>)
    requires Enabled(s, e) && Run(Next(s, e), rest, s')
    ensures Run(s, [e] + rest, s')
  {
    assert ([e] + rest)[1..] == rest;
  }

  /** An upstream call under way at the invalidate puts its outcome back, and the next caller is served it. */
  lemma OldOutcomeIsServed<T(!new)>(c: State<T>, id: nat, caller: nat) returns (es: seq<Event<T>>, s: State<T>)
    requires Inv(c) && id in c.calls && c.calls[id].Fetching? && caller !in c.calls && 0 < c.cache.ttl
    requires c.cache.fetchedAt == None
    ensures Run(c, es, s) && NoClear(es) && |c.hits| < |s.hits|
    ensures s.hits[|c.hits|].lastRecord == Some(c.calls[id].fetch)
    ensures c.calls[id].fetch < |c.fetches|
  {
    assert LeaderOk(c, id);
    var back, call := At(c.clock, Return(id, Err("upstream"))), At(c.clock, Call(caller));
    var m := Next(c, back);
    s := Next(m, call);
    RunOne(m, call, [], s);
    RunOne(c, back, [call] + [], s);
    es := [back] + ([call] + []);
  }

  lemma SomeoneNew<T>(s: State<T>) returns (id: nat)
    ensures id !in s.calls
  {
    id := Above(s.calls.Keys);
  }

  lemma Above(ids: set<nat>) returns (top: nat)
    ensures forall i :: i in ids ==> i < top
    decreases |ids|
  {
    if ids == {} {
      top := 0;
    } else {
      var x :| x in ids;
      var rest := Above(ids - {x});
      top := if rest <= x then x + 1 else rest;
      forall i | i in ids ensures i < top {
        assert i == x || i in ids - {x};
      }
    }
  }

  /** After an invalidate, and until the next one, every check serves only what was fetched since, exactly when
      no upstream call was under way at the invalidate (a cache without ttl serves nothing). */
  lemma InvalidateReachesChecksIff<T(!new)>(s: State<T>, t: int, zero: T)
    requires Inv(s) && s.clock <= t
    ensures ServesNothingOlder(Next(s, At(t, Clear(zero)))) <==> s.cache.ttl <= 0 || !AnyFetching(s)
  {
    var c := Next(s, At(t, Clear(zero)));
    InvKept(s, At(t, Clear(zero)));
    if s.cache.ttl <= 0 {
      forall es, s' | Run(c, es, s') && NoClear(es) ensures FreshHits(c, s') {
        NothingServedWithoutTtl(c, c, es, s');
      }
    } else if AnyFetching(s) {
      var id :| id in s.calls && s.calls[id].Fetching?;
      var caller := SomeoneNew(c);
      var es, s' := OldOutcomeIsServed(c, id, caller);
      assert !FreshHits(c, s');
    } else {
      forall es, s' | Run(c, es, s') && NoClear(es) ensures FreshHits(c, s') {
        NothingOldReturns(c, c, es, s');
      }
    }
  }

  lemma {:induction false} NothingServedWithoutTtl<T(!new)>(c: State<T>, s: State<T>, es: seq<Event<T>>, s': State<T>)
    requires s.cache.ttl <= 0 && FreshHits(c, s) && Run(s, es, s')
    ensures FreshHits(c, s')
    decreases |es|
  {
    if es == [] {
    } else {
      NothingServedWithoutTtl(c, Next(s, es[0]), es[1..], s');
    }
  }

  /** A leader that has its result, or is about to, hands it to a caller that joins after the invalidate. */
  lemma OldOutcomeIsHandedOut<T(!new)>(c: State<T>, id: nat, caller: nat) returns (es: seq<Event<T>>, s: State<T>)
    requires Inv(c) && id in c.calls && caller !in c.calls && Check(c.cache, c.clock).Stale?
    requires c.calls[id].Answered?
    ensures Run(c, es, s) && NoClear(es) && |c.deliveries| < |s.deliveries|
    ensures var d := s.deliveries[|c.deliveries|];
      d.fetch == c.calls[id].fetch < |c.fetches| && caller in d.callers
  {
    assert LeaderOk(c, id);
    var call, join, deliver := At(c.clock, Call(caller)), At(c.clock, Join(caller)), At(c.clock, Deliver(id));
    var m1 := Next(c, call);
    var m2 := Next(m1, join);
    s := Next(m2, deliver);
    RunOne(m2, deliver, [], s);
    RunOne(m1, join, [deliver] + [], s);
    RunOne(c, call, [join] + ([deliver] + []), s);
    es := [call] + ([join] + ([deliver] + []));
  }

  lemma OldOutcomeIsHandedOutLater<T(!new)>(c: State<T>, id: nat, caller: nat) returns (es: seq<Event<T>>, s: State<T>)
    requires Inv(c) && id in c.calls && caller !in c.calls && Check(c.cache, c.clock).Stale?
    requires c.calls[id].Fetching?
    ensures Run(c, es, s) && NoClear(es) && |c.deliveries| < |s.deliveries|
    ensures var d := s.deliveries[|c.deliveries|];
      d.fetch == c.calls[id].fetch < |c.fetches| && caller in d.callers
  {
    assert LeaderOk(c, id);
    var call, join := At(c.clock, Call(caller)), At(c.clock, Join(caller));
    var back, deliver := At(c.clock, Return(id, Err("upstream"))), At(c.clock, Deliver(id));
    var m1 := Next(c, call);
    var m2 := Next(m1, join);
    var m3 := Next(m2, back);
    s := Next(m3, deliver);
    RunOne(m3, deliver, [], s);
    RunOne(m2, back, [deliver] + [], s);
    RunOne(m1, join, [back] + ([deliver] + []), s);
    RunOne(c, call, [join] + ([back] + ([deliver] + [])), s);
    es := [call] + ([join] + ([back] + ([deliver] + [])));
  }

  /** And everything group.Do hands out was fetched since, exactly when no call was fetching and none had a
      result to hand out: otherwise even a caller who arrives after the invalidate may get an older result. */
  lemma InvalidateReachesCallersIff<T(!new)>(s: State<T>, t: int, zero: T)
    requires Inv(s) && s.clock <= t
    ensures HandsOutNothingOlder(Next(s, At(t, Clear(zero)))) <==> !AnyFetching(s) && !AnyAnswered(s)
  {
    var c := Next(s, At(t, Clear(zero)));
    InvKept(s, At(t, Clear(zero)));
    if AnyFetching(s) || AnyAnswered(s) {
      var id :| id in s.calls && (s.calls[id].Fetching? || s.calls[id].Answered?);
      var caller := SomeoneNew(c);
      var es, s';
      if s.calls[id].Answered? {
        es, s' := OldOutcomeIsHandedOut(c, id, caller);
      } else {
        es, s' := OldOutcomeIsHandedOutLater(c, id, caller);
      }
      assert !FreshDeliveries(c, s');
    } else {
      forall es, s' | Run(c, es, s') && NoClear(es) ensures FreshDeliveries(c, s') {
        NothingOldDelivered(c, c, es, s');
      }
    }
  }

  // ---------------------------------------------------------------- two runs

  lemma {:induction false} RunThen<T(!new)>(s: State<T>, a: seq<Event<T>>, m: State<T>, b: seq<Event<T>>, s': State<T>)
    requires Run(s, a, m) && Run(m, b, s')
    ensures Run(s, a + b, s')
    decreases |a|
  {
    if a == [] {
      assert a + b == b;
    } else {
      assert (a + b)[1..] == a[1..] + b;
      RunThen(Next(s, a[0]), a[1..], m, b, s');
    }
  }

  /** A first caller finds nothing and asks upstream. */
  lemma FirstFetch<T(!new)>(ttl: int, zero: T, t: int) returns (s: State<T>)
    ensures Run(Start(ttl, zero, t), [At(t, Call(1)), At(t, Join(1)), At(t, Recheck(1))], s)
    ensures s == State(Cache(ttl, zero, None, None, None), Some(1), map[1 := Fetching(0)], t, None,
                       [Fetch(t, None, None)], [], [])
  {
    var a, b, c := At(t, Call(1)), At(t, Join(1)), At(t, Recheck(1));
    var s0: State<T> := Start(ttl, zero, t);
    var s1 := Next(s0, a);
    var s2 := Next(s1, b);
    s := Next(s2, c);
    RunOne(s2, c, [], s);
    RunOne(s1, b, [c] + [], s);
    RunOne(s0, a, [b] + ([c] + []), s);
    assert [a] + ([b] + ([c] + [])) == [a, b, c];
  }

  /** Its answer comes back after the invalidate: the second caller is served what was fetched before it. */
  lemma InvalidateMissesAFetch<T(!new)>(ttl: int, zero: T, t: int, v: T) returns (before: State<T>, s: State<T>)
    requires 0 < ttl
    ensures Run(Start(ttl, zero, t), [At(t, Call(1)), At(t, Join(1)), At(t, Recheck(1))], before)
    ensures Run(before, [At(t, Clear(zero)), At(t, Return(1, Ok(v))), At(t, Call(2))], s)
    ensures before.hits == [] && s.hits == [Hit(Ok(v), t, Some(0))] && |before.fetches| == 1
  {
    before := FirstFetch(ttl, zero, t);
    var a, b, c := At(t, Clear(zero)), At(t, Return(1, Ok(v))), At(t, Call(2));
    var s1 := Next(before, a);
    var s2 := Next(s1, b);
    s := Next(s2, c);
    RunOne(s2, c, [], s);
    RunOne(s1, b, [c] + [], s);
    RunOne(before, a, [b] + ([c] + []), s);
    assert [a] + ([b] + ([c] + [])) == [a, b, c];
  }

  /** Its answer came back before the invalidate and is handed out after it, to a caller who called after it. */
  lemma InvalidateMissesAnAnswer<T(!new)>(ttl: int, zero: T, t: int, v: T) returns (before: State<T>, s: State<T>)
    requires 0 < ttl
    ensures Run(Start(ttl, zero, t),
                [At(t, Call(1)), At(t, Join(1)), At(t, Recheck(1))] + [At(t, Return(1, Ok(v)))], before)
    ensures !AnyFetching(before) && before.deliveries == [] && |before.fetches| == 1 && 2 !in before.calls
    ensures Run(before, [At(t, Clear(zero)), At(t, Call(2)), At(t, Join(2)), At(t, Deliver(1))], s)
    ensures s.deliveries == [Delivery(0, Ok(v), t, t, {1, 2})]
  {
    var m := FirstFetch(ttl, zero, t);
    var back := At(t, Return(1, Ok(v)));
    before := Next(m, back);
    RunOne(m, back, [], before);
    RunThen(Start(ttl, zero, t), [At(t, Call(1)), At(t, Join(1)), At(t, Recheck(1))], m, [back] + [], before);
    assert [back] + [] == [back];
    var a, b, c, d := At(t, Clear(zero)), At(t, Call(2)), At(t, Join(2)), At(t, Deliver(1));
    var s1 := Next(before, a);
    var s2 := Next(s1, b);
    var s3 := Next(s2, c);
    s := Next(s3, d);
    RunOne(s3, d, [], s);
    RunOne(s2, c, [d] + [], s);
    RunOne(s1, b, [c] + ([d] + []), s);
    RunOne(before, a, [b] + ([c] + ([d] + [])), s);
    assert [a] + ([b] + ([c] + ([d] + []))) == [a, b, c, d];
    assert Served(s3, 1) == {1, 2};
  }
}
