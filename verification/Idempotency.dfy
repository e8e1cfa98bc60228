/** The server half of exactly-once writes: a middleware that answers a repeated
    idempotency key from the shared cache (apps/core/middleware.py). */
module Middleware {
  import opened Text
  import Tenants

  datatype Verb = GET | HEAD | POST | PUT | PATCH | DELETE

  datatype Request = Request(verb: Verb, header: Option<string>, form: Option<string>)

  /** `location` is empty when the response carries none. */
  datatype Response = Response(
    status: int, content: string, contentType: Option<string>, location: string, replay: bool)

  datatype Snap = Snap(status: int, content: string, contentType: string, location: string)

  /** A cached value and the time, in milliseconds, from which it is gone. */
  datatype Entry = Entry(value: Snap, expires: int)

  /** One run of the wrapped view, with the cache key it was run under. */
  datatype Execution = Execution(key: Option<string>, response: Response, at: int)

  datatype Server = Server(cache: map<string, Entry>, executions: seq<Execution>)

  const TTL := 720_000

  predicate Success(r: Response) {
    200 <= r.status < 400
  }

  predicate IsWrite(verb: Verb) {
    verb == POST || verb == PUT || verb == PATCH
  }

  /** The header wins over the form field unless it is absent or empty. */
  function ExtractKey(req: Request): Option<string> {
    var header := if req.header.Some? then req.header.value else "";
    var key :=
      if header == "" && IsWrite(req.verb) && req.form.Some? then req.form.value else header;
    var stripped := Tenants.Strip(key);
    if stripped != "" then Some(stripped) else None
  }

  /** The cache key a request is protected by, if it is. */
  function ProtectionKey(scope: string, req: Request): Option<string> {
    if !IsWrite(req.verb) || ExtractKey(req) == None then None
    else Some(Tenants.ScopedKey(Tenants.IDEMPOTENCY_PREFIX, scope, ExtractKey(req).value))
  }

  function Snapshot(r: Response): Snap {
    Snap(r.status, r.content, if r.contentType.Some? then r.contentType.value else "text/html", r.location)
  }

  function Rebuild(s: Snap): Response {
    if s.location != "" then
      Response(302, "", Some("text/html; charset=utf-8"), s.location, false)
    else
      Response(s.status, s.content, Some(s.contentType), "", true)
  }

  /** What a replay keeps of the response it stands for. */
  lemma ReplayKeepsMeaning(r: Response)
    requires Success(r)
    ensures Success(Rebuild(Snapshot(r)))
    ensures Rebuild(Snapshot(r)).location == r.location
    ensures r.location != "" ==> Rebuild(Snapshot(r)).status == 302
    ensures r.location == "" ==>
      var p := Rebuild(Snapshot(r)); p.status == r.status && p.content == r.content && p.replay
    ensures r.location != "" ==> !Rebuild(Snapshot(r)).replay
    ensures r.location == "" ==>
      Rebuild(Snapshot(r)).contentType == if r.contentType.Some? then r.contentType else Some("text/html")
  {}

  predicate Live(cache: map<string, Entry>, key: string, now: int) {
    key in cache && now < cache[key].expires
  }

  /** One request through the middleware; `view` is what the wrapped view would
      answer if it were run now. */
  function Handle(srv: Server, scope: string, req: Request, now: int, view: Response): (Server, Response) {
    match ProtectionKey(scope, req)
    case None => (srv.(executions := srv.executions + [Execution(None, view, now)]), view)
    case Some(key) =>
      if Live(srv.cache, key, now) then (srv, Rebuild(srv.cache[key].value))
      else
        (Server(
           if Success(view) then srv.cache[key := Entry(Snapshot(view), now + TTL)] else srv.cache,
           srv.executions + [Execution(Some(key), view, now)]),
         view)
  }

  /** Unless the key is live, the view is run, under that key, and answers. */
  lemma FreshDeliveryRunsView(srv: Server, scope: string, req: Request, now: int, view: Response)
    requires forall key :: ProtectionKey(scope, req) == Some(key) ==> !Live(srv.cache, key, now)
    ensures var (after, response) := Handle(srv, scope, req, now, view);
      && response == view
      && after.executions == srv.executions + [Execution(ProtectionKey(scope, req), view, now)]
  {}

  /** A second delivery after a success runs the view again exactly when the
      request is unprotected (another method, or a blank key) or comes when
      the first answer's lifetime of twelve minutes is over; otherwise it is
      answered with the replay of the first answer. */
  lemma SecondDeliveryReruns(srv: Server, scope: string, req: Request, t0: int, t1: int, v0: Response, v1: Response)
    requires 200 <= v0.status <= 399
    requires forall key :: ProtectionKey(scope, req) == Some(key) ==> !Live(srv.cache, key, t0)
    ensures var first := Handle(srv, scope, req, t0, v0).0;
      var (second, response) := Handle(first, scope, req, t1, v1);
      if ProtectionKey(scope, req) == None || t1 >= t0 + 12 * 60 * 1000 then
        |second.executions| == |srv.executions| + 2 && response == v1
      else
        |second.executions| == |srv.executions| + 1 && response == Rebuild(Snapshot(v0))
  {}

  /** Errors stay retryable: after any other answer a second delivery always
      runs the view. */
  lemma ErrorsStayRetryable(srv: Server, scope: string, req: Request, t0: int, t1: int, v0: Response, v1: Response)
    requires t0 <= t1 && (v0.status < 200 || v0.status >= 400)
    requires forall key :: ProtectionKey(scope, req) == Some(key) ==> !Live(srv.cache, key, t0)
    ensures var first := Handle(srv, scope, req, t0, v0).0;
      var (second, response) := Handle(first, scope, req, t1, v1);
      first.cache == srv.cache && |second.executions| == |srv.executions| + 2 && response == v1
  {}

  /** Of the writes whose form carries a key, exactly those run unprotected
      whose header is there, not empty, and blank: it hides the form key. */
  lemma BlankHeaderHidesFormKey(req: Request)
    requires IsWrite(req.verb) && req.form.Some? && !Tenants.Blank(req.form.value)
    ensures ExtractKey(req) == None <==>
      req.header.Some? && req.header.value != "" && Tenants.Blank(req.header.value)
  {
    Tenants.StripBlank(req.form.value);
    if req.header.Some? {
      Tenants.StripBlank(req.header.value);
    }
  }

  /** A no-break space is such a header, and a server passes it on: the write
      runs again at once although its form carries a key. */
  lemma NoBreakSpaceRunsTwice(srv: Server, scope: string, form: string, t: int, view: Response)
    requires !Tenants.Blank(form)
    ensures var req := Request(POST, Some("\U{a0}"), Some(form));
      var first := Handle(srv, scope, req, t, view).0;
      |Handle(first, scope, req, t, view).0.executions| == |srv.executions| + 2
  {
    BlankHeaderHidesFormKey(Request(POST, Some("\U{a0}"), Some(form)));
  }

  /** The request sends this key: in its header, padded with any blanks, or,
      if that is absent or empty, in the form of a write. */
  ghost predicate Sends(req: Request, key: string) {
    if req.header.Some? && req.header.value != "" then Tenants.Padded(req.header.value, key)
    else IsWrite(req.verb) && req.form.Some? && Tenants.Padded(req.form.value, key)
  }

  /** The key taken from a request is exactly the one it sends. */
  lemma ExtractedKeyIsSent(req: Request, key: string)
    ensures ExtractKey(req) == Some(key) <==> Sends(req, key)
  {
    if req.header.Some? && req.header.value != "" {
      Tenants.StripIsPadding(req.header.value, key);
    } else if IsWrite(req.verb) && req.form.Some? {
      Tenants.StripIsPadding(req.form.value, key);
    } else {
      assert Tenants.Strip("") == "";
    }
  }

  /** Exactly the writes that send a key are protected. */
  lemma ProtectedIff(scope: string, req: Request)
    ensures ProtectionKey(scope, req).Some? <==> req.verb in {POST, PUT, PATCH} && exists key :: Sends(req, key)
  {
    if ExtractKey(req).Some? {
      ExtractedKeyIsSent(req, ExtractKey(req).value);
    }
    if key :| Sends(req, key) {
      ExtractedKeyIsSent(req, key);
    }
  }

  /** Two writes share a cache entry exactly if they come from one scope and
      send one key. */
  lemma SharedEntryIff(scope0: string, req0: Request, key0: string, scope1: string, req1: Request, key1: string)
    requires Tenants.ValidScope(scope0) && Tenants.ValidScope(scope1)
    requires IsWrite(req0.verb) && IsWrite(req1.verb) && Sends(req0, key0) && Sends(req1, key1)
    ensures ProtectionKey(scope0, req0) == ProtectionKey(scope1, req1) <==> scope0 == scope1 && key0 == key1
  {
    ExtractedKeyIsSent(req0, key0);
    ExtractedKeyIsSent(req1, key1);
    if ProtectionKey(scope0, req0) == ProtectionKey(scope1, req1) {
      Tenants.ScopedKeyInjective(Tenants.IDEMPOTENCY_PREFIX, scope0, key0, scope1, key1);
    }
  }

  /** So a write under a new key runs its view, whatever went before it. */
  lemma OtherKeyRunsView(srv: Server, scope: string, req0: Request, key0: string, req1: Request, key1: string,
                         t0: int, t1: int, v0: Response, v1: Response)
    requires Tenants.ValidScope(scope) && IsWrite(req0.verb) && IsWrite(req1.verb)
    requires Sends(req0, key0) && Sends(req1, key1) && key0 != key1
    requires !Live(srv.cache, Tenants.ScopedKey(Tenants.IDEMPOTENCY_PREFIX, scope, key1), t1)
    ensures var first := Handle(srv, scope, req0, t0, v0).0;
      var (second, response) := Handle(first, scope, req1, t1, v1);
      response == v1 && |second.executions| == |first.executions| + 1
  {
    SharedEntryIff(scope, req0, key0, scope, req1, key1);
    ExtractedKeyIsSent(req1, key1);
  }

  class IdempotencyMiddleware {
    var cache: map<string, Entry>
    ghost var executions: seq<Execution>

    ghost function State(): Server
      reads this
    {
      Server(cache, executions)
    }

    constructor ()
      ensures State() == Server(map[], [])
    {
      cache, executions := map[], [];
    }

    method Call(scope: string, req: Request, now: int, view: Response) returns (response: Response)
      modifies this
      ensures (State(), response) == Handle(old(State()), scope, req, now, view)
    {
      if !IsWrite(req.verb) {
        executions := executions + [Execution(None, view, now)];
        return view;
      }
      var extracted := ExtractKey(req);
      if extracted == None {
        executions := executions + [Execution(None, view, now)];
        return view;
      }
      var key := Tenants.ScopedKey(Tenants.IDEMPOTENCY_PREFIX, scope, extracted.value);
      if key in cache && now < cache[key].expires {
        return Rebuild(cache[key].value);
      }
      executions := executions + [Execution(Some(key), view, now)];
      if Success(view) {
        cache := cache[key := Entry(Snapshot(view), now + TTL)];
      }
      return view;
    }
  }
}

/** The browser half: a write is retried with exponential backoff, always under
    the same key (static/base/crm_utils.js). */
module RetryClient {
  import opened Middleware

  datatype Config = Config(retries: int, baseDelay: nat)

  /** What one `fetch` yields: an answer, or a rejection. */
  datatype Reply = Answer(response: Response) | Dropped

  datatype Phase = Sending(attempt: nat) | Returned(response: Response) | Threw

  datatype Client = Client(phase: Phase, slept: nat)

  function Pow2(k: nat): (p: nat)
    ensures p >= 1
  {
    if k == 0 then 1 else 2 * Pow2(k - 1)
  }

  /** The time slept before attempt `k`, having started with attempt 0. */
  function Backoff(cfg: Config, k: nat): nat {
    if k == 0 then 0 else Backoff(cfg, k - 1) + cfg.baseDelay * Pow2(k - 1)
  }

  lemma {:induction false} BackoffClosedForm(cfg: Config, k: nat)
    ensures Backoff(cfg, k) == cfg.baseDelay * (Pow2(k) - 1)
  {
    if k > 0 {
      BackoffClosedForm(cfg, k - 1);
      var p := Pow2(k - 1);
      assert cfg.baseDelay * (2 * p - 1) == cfg.baseDelay * (p - 1) + cfg.baseDelay * p;
    }
  }

  predicate Transient(reply: Reply) {
    reply.Dropped? || reply.response.status >= 500
  }

  function Start(cfg: Config): Client {
    Client(if cfg.retries >= 0 then Sending(0) else Threw, 0)
  }

  /** The client's reaction to the outcome of its current attempt. */
  function React(cfg: Config, c: Client, reply: Reply): Client {
    if !c.phase.Sending? then c
    else if Transient(reply) && c.phase.attempt < cfg.retries then
      Client(Sending(c.phase.attempt + 1), c.slept + cfg.baseDelay * Pow2(c.phase.attempt))
    else if reply.Answer? then c.(phase := Returned(reply.response))
    else c.(phase := Threw)
  }

  function After(cfg: Config, replies: seq<Reply>): Client {
    if replies == [] then Start(cfg)
    else React(cfg, After(cfg, replies[..|replies| - 1]), replies[|replies| - 1])
  }

  function Attempts(cfg: Config): nat {
    if cfg.retries < 0 then 0 else cfg.retries + 1
  }

  /** The first reply is retried exactly if it is a dropped connection or a
      server error, and an attempt is left; any other answer is returned. */
  lemma FirstReplyDecides(cfg: Config, reply: Reply)
    requires cfg.retries >= 0
    ensures var c := After(cfg, [reply]);
      && (c.phase.Sending? <==> cfg.retries > 0 && (reply.Dropped? || reply.response.status >= 500))
      && (c.phase.Sending? ==> c.slept == cfg.baseDelay)
      && (!c.phase.Sending? ==>
            c.slept == 0 && c.phase == if reply.Answer? then Returned(reply.response) else Threw)
  {
    assert [reply][..0] == [];
    assert Pow2(0) == 1;
  }

  /** Closed forms for a client that has heard `replies`, all of them while it
      was still sending. */
  lemma {:induction false} AfterProfile(cfg: Config, replies: seq<Reply>)
    requires forall k :: 0 <= k < |replies| ==> After(cfg, replies[..k]).phase.Sending?
    ensures var c := After(cfg, replies);
      && |replies| <= Attempts(cfg)
      && (c.phase.Sending? ==>
            && c.phase.attempt == |replies| < Attempts(cfg)
            && c.slept == Backoff(cfg, |replies|)
            && forall i :: 0 <= i < |replies| ==> Transient(replies[i]))
      && (!c.phase.Sending? && replies != [] ==>
            && c.slept == Backoff(cfg, |replies| - 1)
            && (forall i :: 0 <= i < |replies| - 1 ==> Transient(replies[i])))
  {
    if replies != [] {
      var front := replies[..|replies| - 1];
      forall k | 0 <= k < |front|
        ensures After(cfg, front[..k]).phase.Sending?
      {
        assert front[..k] == replies[..k];
      }
      assert After(cfg, replies[..|replies| - 1]).phase.Sending?;
      AfterProfile(cfg, front);
      forall i | 0 <= i < |front|
        ensures Transient(replies[i])
      {
        assert front[i] == replies[i];
      }
    }
  }

  lemma {:induction false} BackoffBound(cfg: Config, j: nat, k: nat)
    requires j <= k
    ensures Backoff(cfg, j) <= Backoff(cfg, k)
  {
    if j < k {
      BackoffBound(cfg, j, k - 1);
    }
  }

  lemma AfterNext(cfg: Config, replies: seq<Reply>, k: nat)
    requires k < |replies|
    ensures After(cfg, replies[..k + 1]) == React(cfg, After(cfg, replies[..k]), replies[k])
  {
    assert replies[..k + 1][..k] == replies[..k];
  }

  /** The retry loop. `replies` lists what the successive fetches would yield. */
  method FetchWithRetry(cfg: Config, replies: seq<Reply>)
    returns (outcome: Phase, attempts: nat, slept: nat)
    requires |replies| >= Attempts(cfg)
    ensures attempts <= Attempts(cfg)
    ensures cfg.retries < 0 <==> attempts == 0
    ensures forall i :: 0 <= i < attempts - 1 ==> Transient(replies[i])
    ensures outcome.Returned? ==>
      && attempts > 0 && replies[attempts - 1] == Answer(outcome.response)
      && (Transient(replies[attempts - 1]) ==> attempts == Attempts(cfg))
    ensures outcome.Threw? && attempts > 0 ==>
      replies[attempts - 1].Dropped? && attempts == Attempts(cfg)
    ensures !outcome.Sending?
    ensures attempts > 0 ==> slept == Backoff(cfg, attempts - 1)
    ensures Client(outcome, slept) == After(cfg, replies[..attempts])
  {
    attempts, slept := 0, 0;
    var attempt := 0;
    while attempt <= cfg.retries
      invariant 0 <= attempt == attempts <= Attempts(cfg)
      invariant forall i :: 0 <= i < attempts ==> Transient(replies[i])
      invariant slept == Backoff(cfg, attempts)
      invariant cfg.retries >= 0 ==> attempt <= cfg.retries
      invariant After(cfg, replies[..attempts]) ==
        Client(if attempt <= cfg.retries then Sending(attempt) else Threw, slept)
    {
      var reply := replies[attempt];
      AfterNext(cfg, replies, attempt);
      attempts := attempts + 1;
      match reply {
        case Answer(response) =>
          if response.status >= 500 && attempt < cfg.retries {
            slept := slept + cfg.baseDelay * Pow2(attempt);
            attempt := attempt + 1;
            continue;
          }
          return Returned(response), attempts, slept;
        case Dropped =>
          if attempt < cfg.retries {
            slept := slept + cfg.baseDelay * Pow2(attempt);
            attempt := attempt + 1;
            continue;
          }
          return Threw, attempts, slept;
      }
    }
    outcome := Threw;
  }
}
