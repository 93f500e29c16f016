/**
 The 3x-ui panel as this service sees it, and the HTTP client in front of it
 (internal/xui/client.go).

 The panel is a map from email to a client: the fields it honours plus the inbounds the
 client is attached to.  It ignores `uuid` (docs/CONFIGURATION.md:133) and never receives
 the cipher `method` (internal/sync/worker.go:179).
 */
module Panel {
  import opened Options
  import opened Jobs

  datatype Fields = Fields(
    subId: string, password: string, flow: string, enable: bool, totalGB: int, expiryMs: int)

  datatype Client = Client(fields: Fields, inbounds: set<int>)

  type State = map<string, Client>

  /** toManagedClient, restricted to what the panel keeps. */
  function FieldsOf(p: Payload): Fields {
    Fields(p.subId, p.password, p.flow, p.enable, p.totalGB, p.expiryMs)
  }

  function Find(p: State, email: string): Option<Client> {
    if email in p then Some(p[email]) else None
  }

  function Put(p: State, email: string, c: Option<Client>): State {
    if c.Some? then p[email := c.value] else p - {email}
  }

  lemma PutFind(p: State, email: string, c: Option<Client>)
    ensures Find(Put(p, email, c), email) == c
    ensures forall e :: e != email ==> Find(Put(p, email, c), e) == Find(p, e)
    ensures c == Find(p, email) ==> Put(p, email, c) == p
  {
  }

  // ---------------------------------------------------------------- single requests

  datatype Request =
    | Get
    | Add(fields: Fields, ids: set<int>)
    | Attach(ids: set<int>)
    | Replace(fields: Fields)
    | Detach(ids: set<int>)
    | Del
    | Reset

  datatype Answer = Done | NotFound | Duplicate

  /** What the panel does with one request about one client, and what it answers. */
  function Serve(c: Option<Client>, r: Request): (Option<Client>, Answer) {
    match (c, r)
    case (Some(_), Get) => (c, Done)
    case (Some(_), Add(_, _)) => (c, Duplicate)
    case (Some(x), Attach(ids)) => (Some(x.(inbounds := x.inbounds + ids)), Done)
    case (Some(x), Replace(f)) => (Some(x.(fields := f)), Done)
    case (Some(x), Detach(ids)) =>
      // the panel drops a client together with its last inbound
      (if x.inbounds <= ids then None else Some(x.(inbounds := x.inbounds - ids)), Done)
    case (Some(_), Del) => (None, Done)
    case (Some(x), Reset) => (Some(x.(fields := x.fields.(enable := true))), Done)
    case (None, Add(f, ids)) => (Some(Client(f, ids)), Done)
    case (None, _) => (None, NotFound)
  }

  /** Serving a request again changes nothing more; only its answer may differ. */
  lemma ServeTwice(c: Option<Client>, r: Request)
    ensures var once := Serve(c, r);
      var twice := Serve(once.0, r);
      && twice.0 == once.0
      && (twice.1 == Done ==> once.1 == Done)
      && (twice.1 == NotFound ==> once.0 == None)
  {
    match (c, r)
    case (Some(x), Attach(ids)) => assert x.inbounds + ids + ids == x.inbounds + ids;
    case (Some(x), Detach(ids)) => assert x.inbounds - ids - ids == x.inbounds - ids;
    case _ =>
  }

  // ---------------------------------------------------------------- one job

  /** What dispatch asks for: the part of a job the panel can tell apart. */
  datatype Command = Command(op: Op, inbound: int, fields: Fields)

  function CommandOf(j: Job): Command {
    Command(j.op, j.inboundId, FieldsOf(j.payload))
  }

  function Step(c: Option<Client>, cmd: Command): Option<Client> {
    match cmd.op
    case Assign => if c.Some? then Serve(c, Attach({cmd.inbound})).0 else Serve(c, Add(cmd.fields, {cmd.inbound})).0
    case Update => Serve(c, Replace(cmd.fields)).0
    case Unassign => Serve(c, Detach({cmd.inbound})).0
    case Delete => Serve(c, Del).0
    case ResetTraffic => Serve(c, Reset).0
    case Unknown(_) => c
  }

  /** Whether a fully answered dispatch of the command returns nil. */
  predicate Accepts(c: Option<Client>, cmd: Command) {
    match cmd.op
    case Update => c.Some?
    case Unknown(_) => false
    case _ => true
  }

  /** Dispatching a job twice in a row leaves the panel as after once, and what was accepted once
      is accepted again: an assign whose AddClient response was lost finds the client and attaches. */
  lemma StepTwice(c: Option<Client>, cmd: Command)
    ensures Step(Step(c, cmd), cmd) == Step(c, cmd)
    ensures Accepts(c, cmd) ==> Accepts(Step(c, cmd), cmd)
  {
    match cmd.op
    case Assign => ServeTwice(c, Attach({cmd.inbound}));
      assert {cmd.inbound} + {cmd.inbound} == {cmd.inbound};
    case Update => ServeTwice(c, Replace(cmd.fields));
    case Unassign => ServeTwice(c, Detach({cmd.inbound}));
    case Delete =>
    case ResetTraffic =>
    case Unknown(_) =>
  }

  /** The panel's fields are the payload's fields of the same names. */
  predicate Pushed(f: Fields, p: Payload) {
    && f.subId == p.subId && f.password == p.password && f.flow == p.flow
    && f.enable == p.enable && f.totalGB == p.totalGB && f.expiryMs == p.expiryMs
  }

  /** What a job does to the panel, field by field: nothing to any other client; an assign attaches one inbound,
      and only a client it creates takes the payload's fields; an update pushes them and leaves the inbounds
      alone; an unassign takes one inbound, and the client with its last; a reset only enables. */
  ghost predicate Carries(before: State, j: Job, after: State) {
    var email, n := j.payload.email, j.inboundId;
    && after - {email} == before - {email}
    && (email in before && email in after && j.op.Assign? ==>
          after[email].fields == before[email].fields && after[email].inbounds == before[email].inbounds + {n})
    && (email !in before && j.op.Assign? ==>
          email in after && Pushed(after[email].fields, j.payload) && after[email].inbounds == {n})
    && (email in before && j.op.Update? ==>
          email in after && Pushed(after[email].fields, j.payload) && after[email].inbounds == before[email].inbounds)
    && (email in before && email in after && j.op.Unassign? ==>
          after[email].fields == before[email].fields && after[email].inbounds == before[email].inbounds - {n})
    && (email in before && email in after && j.op.ResetTraffic? ==>
          && after[email].fields.enable && after[email].inbounds == before[email].inbounds
          && after[email].fields == before[email].fields.(enable := true))
    && (email in after <==>
          match j.op
          case Assign => true
          case Delete => false
          case Unassign => email in before && exists other :: other in before[email].inbounds && other != n
          case _ => email in before)
    && (j.op.Unknown? ==> after == before)
  }

  lemma StepCarries(p: State, j: Job)
    ensures Carries(p, j, Put(p, j.payload.email, Step(Find(p, j.payload.email), CommandOf(j))))
  {
    var email := j.payload.email;
    if email in p {
      OnlyOneIn(p[email].inbounds, j.inboundId);
    }
  }

  lemma OnlyOneIn(s: set<int>, n: int)
    ensures s <= {n} <==> !exists other :: other in s && other != n
  {
    if !exists other :: other in s && other != n {
      forall k | k in s ensures k in {n} {}
    } else {
      var other :| other in s && other != n;
      assert other !in {n};
    }
  }

  /** And the panel turns a job down exactly if it does not know the operation, or is to update a client that is not
      there. */
  lemma AcceptsIff(p: State, j: Job)
    ensures Accepts(Find(p, j.payload.email), CommandOf(j)) <==>
      !j.op.Unknown? && (j.op.Update? ==> j.payload.email in p)
  {
  }

  function Play(c: Option<Client>, cmds: seq<Command>): Option<Client>
    decreases |cmds|
  {
    if cmds == [] then c else Play(Step(c, cmds[0]), cmds[1..])
  }

  predicate PlayAccepted(c: Option<Client>, cmds: seq<Command>)
    decreases |cmds|
  {
    cmds == [] || (Accepts(c, cmds[0]) && PlayAccepted(Step(c, cmds[0]), cmds[1..]))
  }

  lemma {:induction false} PlayAppend(c: Option<Client>, a: seq<Command>, b: seq<Command>)
    ensures Play(c, a + b) == Play(Play(c, a), b)
    ensures PlayAccepted(c, a + b) <==> PlayAccepted(c, a) && PlayAccepted(Play(c, a), b)
    decreases |a|
  {
    if a == [] {
      assert a + b == b;
    } else {
      assert (a + b)[1..] == a[1..] + b;
      PlayAppend(Step(c, a[0]), a[1..], b);
    }
  }

  /** Having already played the head of the queue does not change where the queue leads. */
  lemma PlayHeadAgain(c: Option<Client>, cmd: Command, rest: seq<Command>)
    ensures Play(Step(c, cmd), [cmd] + rest) == Play(c, [cmd] + rest)
    ensures PlayAccepted(c, [cmd] + rest) ==> PlayAccepted(Step(c, cmd), [cmd] + rest)
  {
    StepTwice(c, cmd);
    assert ([cmd] + rest)[1..] == rest;
  }

  // ---------------------------------------------------------------- the HTTP client

  datatype Error = RecordNotFound | Other

  function Describe(e: Option<Error>): string {
    match e
    case None => ""
    case Some(RecordNotFound) => "xui: record not found"
    case Some(Other) => "xui: request failed"
  }

  /** What happens to one HTTP attempt: cancelled before it is sent; failed in a way that is
      retried (network error, unread body, 5xx) or not (401/403, other status, bad envelope),
      with the panel having served it or not; or answered. */
  datatype Attempt = Cancelled | Transient(served: bool) | Terminal(served: bool) | Answered

  method NextAttempt() returns (a: Attempt) {
    var kind: nat := *;
    var served: bool := *;
    a := if kind % 4 == 0 then Cancelled else if kind % 4 == 1 then Transient(served)
         else if kind % 4 == 2 then Terminal(served) else Answered;
  }

  function ErrorOf(a: Answer): Option<Error> {
    match a
    case Done => None
    case NotFound => Some(RecordNotFound)
    case Duplicate => Some(Other)
  }

  function IgnoreNotFound(e: Option<Error>): Option<Error> {
    if e == Some(RecordNotFound) then None else e
  }

  function Attempts(maxAttempts: int): nat {
    if maxAttempts < 0 then 0 else maxAttempts
  }

  predicate Served(a: Attempt) {
    a == Answered || (a.Transient? && a.served) || (a.Terminal? && a.served)
  }

  ghost predicate AnyServed(tries: seq<Attempt>) {
    exists i :: 0 <= i < |tries| && Served(tries[i])
  }

  /** Only a transient failure is tried again, and only so often. */
  predicate Allowed(tries: seq<Attempt>, maxAttempts: int) {
    && |tries| <= Attempts(maxAttempts)
    && (forall i :: 0 <= i < |tries| - 1 ==> tries[i].Transient?)
    && (|tries| < Attempts(maxAttempts) ==> tries != [] && !tries[|tries| - 1].Transient?)
  }

  /** The error after these attempts: the panel's answer if it came, seen from a client that may have
      been changed by an attempt whose response was lost. */
  ghost function Verdict(tries: seq<Attempt>, c: Option<Client>, r: Request): Option<Error> {
    if tries == [] || tries[|tries| - 1] != Answered then Some(Other)
    else ErrorOf(Serve(if AnyServed(tries[..|tries| - 1]) then Serve(c, r).0 else c, r).1)
  }

  /** Every attempt from the n-th on was answered. */
  predicate AllAnswered(log: seq<Attempt>, n: nat) {
    forall i :: n <= i < |log| ==> log[i] == Answered
  }

  /** A first attempt that is answered is the only one. */
  lemma AnsweredAtOnce(tries: seq<Attempt>, maxAttempts: int, c: Option<Client>, r: Request)
    requires Allowed(tries, maxAttempts) && AllAnswered(tries, 0) && 1 <= maxAttempts
    ensures tries == [Answered] && AnyServed(tries) && Verdict(tries, c, r) == ErrorOf(Serve(c, r).1)
  {
    assert tries[0] == Answered;
    assert !AnyServed(tries[..0]);
  }

  /** Client of internal/xui/client.go, holding the remote panel it talks to. */
  class XuiClient {
    var panel: State
    ghost var log: seq<Attempt>      // every HTTP attempt so far
    const maxAttempts: int

    constructor (maxAttempts: int, panel: State)
      ensures this.maxAttempts == maxAttempts && this.panel == panel && log == []
    {
      this.maxAttempts, this.panel, log := maxAttempts, panel, [];
    }

    /** doJSONBody: retried after transient failures only.  However often the panel served it, the
        request took effect once or not at all; nil means once; "not found" means the client is gone. */
    method Request(email: string, r: Request) returns (err: Option<Error>)
      modifies this
      ensures old(log) <= log && Allowed(log[|old(log)|..], maxAttempts)
      ensures panel ==
        if AnyServed(log[|old(log)|..]) then Put(old(panel), email, Serve(Find(old(panel), email), r).0) else old(panel)
      ensures err == Verdict(log[|old(log)|..], Find(old(panel), email), r)
      ensures err == None ==>
        && Serve(Find(old(panel), email), r).1 == Done
        && panel == Put(old(panel), email, Serve(Find(old(panel), email), r).0)
      ensures err == Some(RecordNotFound) ==>
        && Serve(Find(old(panel), email), r).0 == None
        && panel == Put(old(panel), email, None)
    {
      ghost var before := Find(panel, email);
      ghost var after := Serve(before, r).0;
      PutFind(panel, email, before);
      PutFind(panel, email, after);
      ServeTwice(before, r);
      ghost var p0, n := panel, |log|;
      var attempt := 1;
      err := Some(Other);
      while attempt <= maxAttempts
        invariant err == Some(Other) && 1 <= attempt <= Attempts(maxAttempts) + 1
        invariant old(log) <= log && |log| == n + attempt - 1
        invariant forall i :: n <= i < |log| ==> log[i].Transient?
        invariant panel == if AnyServed(log[n..]) then Put(p0, email, after) else p0
        decreases maxAttempts - attempt
      {
        var a := NextAttempt();
        ghost var tries := log[n..];
        log := log + [a];
        assert log[n..] == tries + [a];
        AnyServedSnoc(tries, a);
        if a == Cancelled {
          return;
        }
        var served := a == Answered || a.served;
        var current := Find(panel, email);
        var outcome := Serve(current, r);
        if served {
          PutFind(panel, email, outcome.0);
          panel := Put(panel, email, outcome.0);
        }
        match a {
          case Transient(_) =>
          case Terminal(_) => return;
          case Answered =>
            assert log[n..][..|log[n..]| - 1] == tries;
            err := ErrorOf(outcome.1);
            return;
        }
        attempt := attempt + 1;
      }
    }

    /** GetClient: reads only; "not found" is an answer, not an error. */
    method GetClient(email: string) returns (found: bool, err: Option<Error>)
      modifies this
      ensures panel == old(panel) && old(log) <= log
      ensures err == None ==> (found <==> email in panel)
      ensures 1 <= maxAttempts && AllAnswered(log, |old(log)|) ==> err == None
    {
      PutFind(panel, email, Find(panel, email));
      ghost var n, c := |log|, Find(panel, email);
      err := Request(email, Get);
      if 1 <= maxAttempts && AllAnswered(log, n) {
        AnsweredAtOnce(log[n..], maxAttempts, c, Get);
      }
      found := err == None;
      err := IgnoreNotFound(err);
    }

    /** DetachClient, DeleteClient and ResetClientTraffic: a missing client counts as success. */
    method RequestIgnoringNotFound(email: string, r: Request) returns (err: Option<Error>)
      modifies this
      ensures old(log) <= log && Allowed(log[|old(log)|..], maxAttempts)
      ensures panel ==
        if AnyServed(log[|old(log)|..]) then Put(old(panel), email, Serve(Find(old(panel), email), r).0) else old(panel)
      ensures err == IgnoreNotFound(Verdict(log[|old(log)|..], Find(old(panel), email), r))
      ensures err == None ==> panel == Put(old(panel), email, Serve(Find(old(panel), email), r).0)
    {
      err := Request(email, r);
      err := IgnoreNotFound(err);
    }
  }

  lemma AnyServedSnoc(tries: seq<Attempt>, a: Attempt)
    ensures AnyServed(tries + [a]) <==> AnyServed(tries) || Served(a)
  {
    var all := tries + [a];
    assert all[|tries|] == a;
    if AnyServed(tries) {
      var i :| 0 <= i < |tries| && Served(tries[i]);
      assert all[i] == tries[i];
    }
  }
}
