/** One retried write against the idempotent server, over a network that may
    delay or lose any request or response. */
module ExactlyOnce {
  import opened Text
  import Tenants
  import opened Middleware
  import opened RetryClient

  /** The write under study: the same request, so the same key, every attempt. */
  datatype Write = Write(client: Config, scope: string, request: Request)

  /** `requests` and `replies` are in flight, indexed by the attempt they belong
      to; `heard` is what the client has consumed so far. */
  datatype System = System(
    client: Client, waiting: bool, heard: seq<Reply>, sent: nat,
    requests: set<nat>, replies: map<nat, Response>, server: Server, now: int)

  datatype Step =
    | Send
    | Deliver(attempt: nat, view: Response)
    | LoseRequest(attempt: nat)
    | LoseReply(attempt: nat)
    | Hear(attempt: nat)
    | Reject
    | Tick(elapsed: nat)
    | Foreign(scope: string, request: Request, view: Response)

  function Key(w: Write): Option<string> {
    ProtectionKey(w.scope, w.request)
  }

  /** A completed 2xx/3xx run of the view for this write. */
  predicate Win(w: Write, srv: Server, i: int) {
    && 0 <= i < |srv.executions|
    && srv.executions[i].key == Key(w)
    && Success(srv.executions[i].response)
  }

  /** Every success so far is still being replayed. */
  predicate InLifetime(w: Write, s: System) {
    forall i :: 0 <= i < |s.server.executions| && Win(w, s.server, i) ==> s.now < s.server.executions[i].at + TTL
  }

  function Consume(w: Write, s: System, reply: Reply): System
    requires s.client.phase.Sending?
  {
    var c := React(w.client, s.client, reply);
    s.(client := c, waiting := false, heard := s.heard + [reply], now := s.now + (c.slept - s.client.slept))
  }

  /** The successor state, or None when the step cannot be taken. */
  function Next(w: Write, s: System, step: Step): Option<System> {
    match step
    case Send =>
      if s.client.phase.Sending? && !s.waiting then
        Some(s.(waiting := true, sent := s.sent + 1, requests := s.requests + {s.client.phase.attempt}))
      else None
    case Deliver(a, view) =>
      if a in s.requests then
        var (srv, response) := Handle(s.server, w.scope, w.request, s.now, view);
        Some(s.(server := srv, requests := s.requests - {a}, replies := s.replies[a := response]))
      else None
    case LoseRequest(a) => Some(s.(requests := s.requests - {a}))
    case LoseReply(a) => Some(s.(replies := s.replies - {a}))
    case Hear(a) =>
      if s.waiting && s.client.phase == Sending(a) && a in s.replies then
        Some(Consume(w, s.(replies := s.replies - {a}), Answer(s.replies[a])))
      else None
    case Reject =>
      if s.waiting && s.client.phase.Sending? then Some(Consume(w, s, Dropped)) else None
    case Tick(elapsed) => Some(s.(now := s.now + elapsed))
    case Foreign(scope, req, view) =>
      if ProtectionKey(scope, req) != Key(w) then
        Some(s.(server := Handle(s.server, scope, req, s.now, view).0))
      else None
  }

  /** Exactly the requests that are no writes of this tenant, or do not send this
      write's key, count as foreign. */
  lemma OthersAreForeign(w: Write, key: string, scope: string, req: Request)
    requires Tenants.ValidScope(scope) && Tenants.ValidScope(w.scope)
    requires IsWrite(w.request.verb) && Sends(w.request, key)
    ensures ProtectionKey(scope, req) != Key(w) <==> !(scope == w.scope && IsWrite(req.verb) && Sends(req, key))
  {
    ExtractedKeyIsSent(w.request, key);
    if ProtectionKey(scope, req).Some? {
      ExtractedKeyIsSent(req, ExtractKey(req).value);
      SharedEntryIff(scope, req, ExtractKey(req).value, w.scope, w.request, key);
    }
    ExtractedKeyIsSent(req, key);
  }

  /** A delivery that would succeed comes a lifetime after a success. */
  predicate Late(w: Write, s: System, step: Step) {
    step.Deliver? && Success(step.view) && !InLifetime(w, s)
  }

  function Run(w: Write, s: System, steps: seq<Step>): Option<System>
    decreases |steps|
  {
    if steps == [] then Some(s)
    else
      match Next(w, s, steps[0])
      case None => None
      case Some(s') => Run(w, s', steps[1..])
  }

  /** The client has just been created with a key nobody has used. */
  predicate Init(w: Write, s: System) {
    && s.client == Start(w.client) && !s.waiting && s.heard == [] && s.sent == 0
    && s.requests == {} && s.replies == map[]
    && Key(w).Some?
    && Key(w).value !in s.server.cache
    && forall i :: 0 <= i < |s.server.executions| ==> s.server.executions[i].key != Key(w)
  }

  /** The response is the answer of winning run `i`, or the replay of it. */
  predicate From(srv: Server, i: int, r: Response)
    requires 0 <= i < |srv.executions|
  {
    r == srv.executions[i].response || r == Rebuild(Snapshot(srv.executions[i].response))
  }

  ghost predicate Genuine(w: Write, srv: Server, r: Response) {
    Success(r) ==> exists i :: Win(w, srv, i) && From(srv, i, r)
  }

  ghost predicate ServerSafe(w: Write, srv: Server) {
    && Key(w).Some?
    && (forall i, j :: Win(w, srv, i) && Win(w, srv, j) ==> i == j)
    && (forall i :: Win(w, srv, i) ==>
          && Key(w).value in srv.cache
          && srv.cache[Key(w).value] == Entry(Snapshot(srv.executions[i].response), srv.executions[i].at + TTL))
    && (Key(w).value in srv.cache ==> exists i :: Win(w, srv, i))
  }

  ghost predicate ClientSafe(w: Write, s: System) {
    && s.client == After(w.client, s.heard)
    && (forall k :: 0 <= k < |s.heard| ==> After(w.client, s.heard[..k]).phase.Sending?)
    && s.sent == |s.heard| + (if s.waiting then 1 else 0)
    && (s.waiting ==> s.client.phase.Sending?)
  }

  ghost predicate Safe(w: Write, s: System) {
    && ServerSafe(w, s.server)
    && ClientSafe(w, s)
    && AnswersGenuine(w, s, s.server)
  }

  /** A delivery keeps the server safe and answers genuinely. */
  lemma DeliverySafe(w: Write, s: System, view: Response)
    requires ServerSafe(w, s.server) && (Success(view) ==> InLifetime(w, s))
    ensures var (srv, r) := Handle(s.server, w.scope, w.request, s.now, view);
      && ServerSafe(w, srv) && Genuine(w, srv, r)
      && s.server.executions <= srv.executions
  {
    var (srv, r) := Handle(s.server, w.scope, w.request, s.now, view);
    var n := |s.server.executions|;
    var key := Key(w).value;
    if Live(s.server.cache, key, s.now) {
      var i :| Win(w, s.server, i);
      assert From(srv, i, r);
    } else {
      assert forall i :: 0 <= i < n ==> (Win(w, srv, i) <==> Win(w, s.server, i));
      if Success(view) {
        assert forall i :: !Win(w, s.server, i);
        assert Win(w, srv, n) && From(srv, n, r);
      } else if i :| Win(w, s.server, i) {
        assert Win(w, srv, i);
      }
    }
  }

  /** Requests under other keys leave this write's record alone. */
  lemma ForeignSafe(w: Write, srv: Server, scope: string, req: Request, now: int, view: Response)
    requires ServerSafe(w, srv) && ProtectionKey(scope, req) != Key(w)
    ensures var after := Handle(srv, scope, req, now, view).0;
      ServerSafe(w, after) && srv.executions <= after.executions
  {
    var after := Handle(srv, scope, req, now, view).0;
    assert forall i :: Win(w, after, i) <==> Win(w, srv, i) by {
      forall i | Win(w, after, i)
        ensures Win(w, srv, i)
      {
        assert i < |srv.executions|;
      }
    }
  }

  lemma GenuineStays(w: Write, srv: Server, after: Server, r: Response)
    requires Genuine(w, srv, r) && srv.executions <= after.executions
    ensures Genuine(w, after, r)
  {
    if Success(r) {
      var i :| Win(w, srv, i) && From(srv, i, r);
      assert Win(w, after, i) && From(after, i, r);
    }
  }

  lemma ConsumeSafe(w: Write, s: System, reply: Reply)
    requires ClientSafe(w, s) && s.waiting
    ensures ClientSafe(w, Consume(w, s, reply))
  {
    var t := Consume(w, s, reply);
    assert t.heard[..|t.heard| - 1] == s.heard;
    forall k | 0 <= k < |t.heard|
      ensures After(w.client, t.heard[..k]).phase.Sending?
    {
      assert t.heard[..k] == s.heard[..k];
      if k == |s.heard| {
        assert s.heard[..k] == s.heard;
      }
    }
  }

  /** What has been answered stays genuine as the server's record grows. */
  ghost predicate AnswersGenuine(w: Write, s: System, srv: Server) {
    && (forall a :: a in s.replies ==> Genuine(w, srv, s.replies[a]))
    && (s.client.phase.Returned? ==> Genuine(w, srv, s.client.phase.response))
  }

  lemma AnswersStay(w: Write, s: System, srv: Server)
    requires AnswersGenuine(w, s, s.server) && s.server.executions <= srv.executions
    ensures AnswersGenuine(w, s, srv)
  {
    forall a | a in s.replies
      ensures Genuine(w, srv, s.replies[a])
    {
      GenuineStays(w, s.server, srv, s.replies[a]);
    }
    if s.client.phase.Returned? {
      GenuineStays(w, s.server, srv, s.client.phase.response);
    }
  }

  lemma DeliverSafe(w: Write, s: System, a: nat, view: Response)
    requires Safe(w, s) && Next(w, s, Deliver(a, view)).Some? && !Late(w, s, Deliver(a, view))
    ensures Safe(w, Next(w, s, Deliver(a, view)).value)
  {
    var (srv, response) := Handle(s.server, w.scope, w.request, s.now, view);
    DeliverySafe(w, s, view);
    AnswersStay(w, s, srv);
    AnswerAdded(w, s, srv, a, response);
  }

  lemma AnswerAdded(w: Write, s: System, srv: Server, a: nat, response: Response)
    requires ServerSafe(w, srv) && ClientSafe(w, s) && AnswersGenuine(w, s, srv) && Genuine(w, srv, response)
    ensures Safe(w, s.(server := srv, requests := s.requests - {a}, replies := s.replies[a := response]))
  {}

  lemma ForeignStepSafe(w: Write, s: System, step: Step)
    requires Safe(w, s) && step.Foreign? && Next(w, s, step).Some?
    ensures Safe(w, Next(w, s, step).value)
  {
    var srv := Handle(s.server, step.scope, step.request, s.now, step.view).0;
    ForeignSafe(w, s.server, step.scope, step.request, s.now, step.view);
    AnswersStay(w, s, srv);
    assert ClientSafe(w, s.(server := srv));
  }

  /** The client consumes a reply that is genuine, or none. */
  lemma ConsumeKeeps(w: Write, s: System, reply: Reply)
    requires Safe(w, s) && s.waiting && (reply.Answer? ==> Genuine(w, s.server, reply.response))
    ensures Safe(w, Consume(w, s, reply))
  {
    ConsumeSafe(w, s, reply);
    var c := React(w.client, s.client, reply);
    assert c.phase.Returned? ==> reply.Answer? && c.phase.response == reply.response;
  }

  lemma HearSafe(w: Write, s: System, a: nat)
    requires Safe(w, s) && Next(w, s, Hear(a)).Some?
    ensures Safe(w, Next(w, s, Hear(a)).value)
  {
    var rest := s.(replies := s.replies - {a});
    assert ClientSafe(w, rest) && Safe(w, rest);
    ConsumeKeeps(w, rest, Answer(s.replies[a]));
  }

  /** Sending, losing and waiting change nothing that has been promised. */
  lemma QuietSafe(w: Write, s: System, step: Step)
    requires Safe(w, s) && Next(w, s, step).Some?
    requires step.Send? || step.LoseRequest? || step.LoseReply? || step.Tick?
    ensures Safe(w, Next(w, s, step).value)
  {
    var t := Next(w, s, step).value;
    assert ClientSafe(w, t);
    assert AnswersGenuine(w, t, t.server);
  }

  lemma NextSafe(w: Write, s: System, step: Step)
    requires Safe(w, s) && Next(w, s, step).Some? && !Late(w, s, step)
    ensures Safe(w, Next(w, s, step).value)
  {
    match step {
      case Deliver(a, view) => DeliverSafe(w, s, a, view);
      case Foreign(_, _, _) => ForeignStepSafe(w, s, step);
      case Hear(a) => HearSafe(w, s, a);
      case Reject => ConsumeKeeps(w, s, Dropped);
      case _ => QuietSafe(w, s, step);
    }
  }

  /** No delivery of the run is late. */
  predicate OnTime(w: Write, s: System, steps: seq<Step>)
    decreases |steps|
  {
    steps == [] ||
    (!Late(w, s, steps[0])
     && (Next(w, s, steps[0]).Some? ==> OnTime(w, Next(w, s, steps[0]).value, steps[1..])))
  }

  lemma {:induction false} RunSafe(w: Write, s: System, steps: seq<Step>)
    requires Safe(w, s) && Run(w, s, steps).Some? && OnTime(w, s, steps)
    ensures Safe(w, Run(w, s, steps).value)
    decreases |steps|
  {
    if steps != [] {
      NextSafe(w, s, steps[0]);
      RunSafe(w, Next(w, s, steps[0]).value, steps[1..]);
    }
  }

  /** Exactly-once writes, for every run without a late delivery. The view
      succeeds at most once; a client that sees success sees that run's answer
      or its replay; and the number of attempts and the total backoff are
      bounded. */
  lemma ExactlyOnceWrite(w: Write, s0: System, steps: seq<Step>)
    requires Init(w, s0) && Run(w, s0, steps).Some? && OnTime(w, s0, steps)
    ensures var s := Run(w, s0, steps).value;
      && (forall i, j :: Win(w, s.server, i) && Win(w, s.server, j) ==> i == j)
      && (s.client.phase.Returned? && Success(s.client.phase.response) ==>
            exists i :: Win(w, s.server, i) && From(s.server, i, s.client.phase.response))
      && (w.client.retries >= 0 ==> s.sent <= w.client.retries + 1)
      && (w.client.retries < 0 ==> s.sent == 0)
      && (w.client.retries >= 0 ==> s.client.slept <= w.client.baseDelay * (Pow2(w.client.retries) - 1))
      && (w.client.retries < 0 ==> s.client.slept == 0)
  {
    assert Safe(w, s0);
    RunSafe(w, s0, steps);
    var s := Run(w, s0, steps).value;
    AfterProfile(w.client, s.heard);
    if w.client.retries >= 0 {
      BackoffBound(w.client, if s.client.phase.Sending? then |s.heard| else |s.heard| - 1, w.client.retries);
      BackoffClosedForm(w.client, w.client.retries);
    }
  }

  ghost predicate AtMostOneWin(w: Write, srv: Server) {
    forall i, j :: Win(w, srv, i) && Win(w, srv, j) ==> i == j
  }

  lemma NextGrows(w: Write, s: System, step: Step)
    requires Next(w, s, step).Some?
    ensures s.server.executions <= Next(w, s, step).value.server.executions
  {}

  lemma {:induction false} RunGrows(w: Write, s: System, steps: seq<Step>)
    requires Run(w, s, steps).Some?
    ensures s.server.executions <= Run(w, s, steps).value.server.executions
    decreases |steps|
  {
    if steps != [] {
      NextGrows(w, s, steps[0]);
      RunGrows(w, Next(w, s, steps[0]).value, steps[1..]);
    }
  }

  /** A late delivery runs the view again, and it succeeds again. */
  lemma LateWinsAgain(w: Write, s: System, step: Step) returns (i: nat, j: nat)
    requires ServerSafe(w, s.server) && Late(w, s, step) && Next(w, s, step).Some?
    ensures i < j && Win(w, Next(w, s, step).value.server, i) && Win(w, Next(w, s, step).value.server, j)
  {
    i :| 0 <= i < |s.server.executions| && Win(w, s.server, i) && s.now >= s.server.executions[i].at + TTL;
    j := |s.server.executions|;
  }

  lemma {:induction false} LateRunWinsTwice(w: Write, s: System, steps: seq<Step>)
    requires Safe(w, s) && Run(w, s, steps).Some? && !OnTime(w, s, steps)
    ensures !AtMostOneWin(w, Run(w, s, steps).value.server)
    decreases |steps|
  {
    var next := Next(w, s, steps[0]).value;
    if Late(w, s, steps[0]) {
      var i, j := LateWinsAgain(w, s, steps[0]);
      RunGrows(w, next, steps[1..]);
      var end := Run(w, s, steps).value.server;
      assert Win(w, end, i) && Win(w, end, j);
    } else {
      NextSafe(w, s, steps[0]);
      LateRunWinsTwice(w, next, steps[1..]);
    }
  }

  /** In any run, the view succeeds at most once exactly if no delivery that
      would succeed comes a lifetime after a success. */
  lemma AtMostOnceIff(w: Write, s0: System, steps: seq<Step>)
    requires Init(w, s0) && Run(w, s0, steps).Some?
    ensures AtMostOneWin(w, Run(w, s0, steps).value.server) <==> OnTime(w, s0, steps)
  {
    assert Safe(w, s0);
    if OnTime(w, s0, steps) {
      RunSafe(w, s0, steps);
    } else {
      LateRunWinsTwice(w, s0, steps);
    }
  }

  /** The same two deliveries, one lifetime apart, run the view twice: the
      assumption on delivery times cannot be dropped. */
  lemma LateDeliveryRunsTwice(w: Write, srv: Server, t: int, view: Response)
    requires ServerSafe(w, srv) && Success(view)
    requires forall i :: !Win(w, srv, i)
    ensures var once := Handle(srv, w.scope, w.request, t, view).0;
      var twice := Handle(once, w.scope, w.request, t + TTL, view).0;
      exists i, j :: Win(w, twice, i) && Win(w, twice, j) && i != j
  {
    var n := |srv.executions|;
    var once := Handle(srv, w.scope, w.request, t, view).0;
    var twice := Handle(once, w.scope, w.request, t + TTL, view).0;
    assert Win(w, twice, n) && Win(w, twice, n + 1);
  }
}
