/** Importing stored webhook events as leads, with capped retries
    (apps/integrations/services.py and apps/integrations/tasks.py). */
module WebhookProcessing {
  import opened Text
  import opened WebhookIntake

  datatype Status = RECEIVED | PROCESSED | FAILED

  datatype Event = Event(key: EventKey, status: Status, createdLead: Option<nat>, error: string)

  /** `outcome` is None while the retry is pending. */
  datatype Retry = Retry(event: nat, number: int, outcome: Option<Status>, error: string)

  /** `leads` lists, per created lead, the event named in its metadata. */
  datatype Store = Store(events: seq<Event>, retries: seq<Retry>, leads: seq<nat>)

  /** What creating the lead does: yields one lead, raises without effect, or
      raises so that the error handling fails as well and all is rolled back. */
  datatype Creation = Created | Refused(message: string) | Crashed

  const ERROR_LENGTH := 1000

  function Truncate(message: string): string {
    if |message| <= ERROR_LENGTH then message else message[..ERROR_LENGTH]
  }

  function NewEvent(key: EventKey): Event {
    Event(key, RECEIVED, None, "")
  }

  function FirstMatch(events: seq<Event>, key: EventKey): (i: nat)
    ensures i <= |events|
    ensures i < |events| ==> Matches(events[i].key, key)
    ensures forall k :: 0 <= k < i ==> !Matches(events[k].key, key)
  {
    if events == [] || Matches(events[0].key, key) then 0 else 1 + FirstMatch(events[1..], key)
  }

  /** A post that runs undisturbed. */
  function Receive(s: Store, key: EventKey): (Store, nat) {
    var i := FirstMatch(s.events, key);
    if i < |s.events| then (s, i) else (s.(events := s.events + [NewEvent(key)]), i)
  }

  function Process(s: Store, id: nat, c: Creation): Store
    requires id < |s.events|
  {
    var event := s.events[id];
    if event.status == PROCESSED then s
    else
      match c
      case Created =>
        Store(s.events[id := event.(createdLead := Some(|s.leads|), status := PROCESSED, error := "")],
              s.retries, s.leads + [id])
      case Refused(message) =>
        s.(events := s.events[id := event.(status := FAILED, error := Truncate(message))])
      case Crashed => s
  }

  /** The attempt numbers recorded for an event, in order. */
  function Numbers(retries: seq<Retry>, id: nat): seq<int> {
    if retries == [] then []
    else
      var last := retries[|retries| - 1];
      Numbers(retries[..|retries| - 1], id) + (if last.event == id then [last.number] else [])
  }

  predicate Crashes(s: Store, id: nat, c: Creation)
    requires id < |s.events|
  {
    c.Crashed? && s.events[id].status != PROCESSED
  }

  /** One turn of the retry loop; a crash leaves the retry row pending. */
  function RetryOne(s: Store, id: nat, maxAttempts: int, c: Creation): Store
    requires id < |s.events|
  {
    var attempts := |Numbers(s.retries, id)|;
    if attempts >= maxAttempts then s
    else
      var row := Retry(id, attempts + 1, None, "");
      var after := Process(s, id, c);
      var closed := if Crashes(s, id, c) then row
                    else row.(outcome := Some(after.events[id].status), error := after.events[id].error);
      after.(retries := after.retries + [closed])
  }

  predicate Stops(s: Store, id: nat, maxAttempts: int, c: Creation)
    requires id < |s.events|
  {
    |Numbers(s.retries, id)| < maxAttempts && Crashes(s, id, c)
  }

  predicate Known(s: Store, ids: seq<nat>) {
    forall i :: 0 <= i < |ids| ==> ids[i] < |s.events|
  }

  /** The retry loop over a batch; `creations` says how each import ends. */
  function RetryBatch(s: Store, ids: seq<nat>, maxAttempts: int, creations: seq<Creation>): (r: Store)
    requires Known(s, ids) && |creations| >= |ids|
    ensures |r.events| == |s.events|
    decreases |ids|
  {
    if ids == [] then s
    else
      var next := RetryOne(s, ids[0], maxAttempts, creations[0]);
      if Stops(s, ids[0], maxAttempts, creations[0]) then next
      else RetryBatch(next, ids[1..], maxAttempts, creations[1..])
  }

  function FailedIds(events: seq<Event>): seq<nat> {
    if events == [] then []
    else
      var n := |events| - 1;
      FailedIds(events[..n]) + (if events[n].status == FAILED then [n] else [])
  }

  function Batch(events: seq<Event>, size: nat): seq<nat> {
    var ids := FailedIds(events);
    if |ids| <= size then ids else ids[..size]
  }

  lemma {:induction false} FailedIdsKnown(events: seq<Event>)
    ensures forall i :: 0 <= i < |FailedIds(events)| ==>
      FailedIds(events)[i] < |events| && events[FailedIds(events)[i]].status == FAILED
  {
    if events != [] {
      FailedIdsKnown(events[..|events| - 1]);
    }
  }

  /** Every failed event is listed, once and in order. */
  lemma {:induction false} FailedIdsComplete(events: seq<Event>)
    ensures forall id :: 0 <= id < |events| && events[id].status == FAILED ==> id in FailedIds(events)
    ensures forall i, j :: 0 <= i < j < |FailedIds(events)| ==> FailedIds(events)[i] < FailedIds(events)[j]
  {
    if events != [] {
      var n := |events| - 1;
      FailedIdsComplete(events[..n]);
      FailedIdsKnown(events[..n]);
    }
  }

  /** A batch holds failed events only, each once, and all of them if there are
      no more than its size; otherwise it is full. */
  lemma BatchExact(events: seq<Event>, size: nat)
    ensures var batch := Batch(events, size);
      && |batch| <= size
      && (forall i :: 0 <= i < |batch| ==> batch[i] < |events| && events[batch[i]].status == FAILED)
      && (forall i, j :: 0 <= i < j < |batch| ==> batch[i] < batch[j])
      && (|batch| < size ==> forall id :: 0 <= id < |events| && events[id].status == FAILED ==> id in batch)
  {
    FailedIdsKnown(events);
    FailedIdsComplete(events);
  }

  // ---- What an import and a retry do ----

  /** The new lead names the event, and the event becomes processed with it. */
  predicate ImportedNow(s: Store, t: Store, id: nat) {
    && id < |s.events| == |t.events|
    && t.leads == s.leads + [id]
    && t.events[id] == Event(s.events[id].key, PROCESSED, Some(|s.leads|), "")
  }

  predicate OthersKept(s: Store, t: Store, id: nat) {
    && |s.events| == |t.events|
    && forall e :: 0 <= e < |s.events| && e != id ==> t.events[e] == s.events[e]
  }

  /** What an import does to an event that is not processed yet: it makes
      exactly one lead, or leaves the event failed with the message cut to 1000
      characters, or nothing. A processed event it leaves alone. */
  lemma ImportOutcome(s: Store, id: nat, c: Creation)
    requires id < |s.events|
    ensures var t := Process(s, id, c);
      && OthersKept(s, t, id) && t.retries == s.retries
      && (s.events[id].status == PROCESSED || c.Crashed? ==> t == s)
      && (s.events[id].status != PROCESSED && c.Created? ==> ImportedNow(s, t, id))
      && (s.events[id].status != PROCESSED && c.Refused? ==>
            && t.leads == s.leads
            && t.events[id].key == s.events[id].key && t.events[id].createdLead == s.events[id].createdLead
            && t.events[id].status == FAILED
            && t.events[id].error <= c.message
            && |t.events[id].error| == if |c.message| < 1000 then |c.message| else 1000)
  {}

  /** One turn of the loop: nothing once the cap is reached; otherwise one more
      row with the next number, and the import, whose end the row tells unless
      it crashed. */
  lemma RetryOutcome(s: Store, id: nat, maxAttempts: int, c: Creation)
    requires id < |s.events|
    ensures var t := RetryOne(s, id, maxAttempts, c);
      if |Numbers(s.retries, id)| >= maxAttempts then t == s
      else
        var p := Process(s, id, c);
        && (t.events, t.leads) == (p.events, p.leads)
        && |t.retries| == |s.retries| + 1 && t.retries[..|s.retries|] == s.retries
        && (var row := t.retries[|s.retries|];
            && row.event == id && row.number == |Numbers(s.retries, id)| + 1
            && (if c.Crashed? && s.events[id].status != PROCESSED then row.outcome == None
                else row.outcome == Some(t.events[id].status) && row.error == t.events[id].error))
  {}

  /** A retry whose creation succeeds leaves its event processed. */
  lemma RetrySucceeds(s: Store, id: nat, maxAttempts: int)
    requires id < |s.events| && |Numbers(s.retries, id)| < maxAttempts
    ensures RetryOne(s, id, maxAttempts, Created).events[id].status == PROCESSED
  {}

  /** In a batch of distinct failed events below the cap, in which no creation
      crashes, each gets one retry and ends as its own creation says. */
  lemma {:induction false} BatchOutcome(s: Store, ids: seq<nat>, maxAttempts: int, creations: seq<Creation>, i: nat)
    requires Known(s, ids) && |creations| >= |ids| && i < |ids|
    requires forall j, k :: 0 <= j < k < |ids| ==> ids[j] != ids[k]
    requires forall j :: 0 <= j < |ids| ==> s.events[ids[j]].status == FAILED && !creations[j].Crashed?
    requires |Numbers(s.retries, ids[i])| < maxAttempts
    ensures var t := RetryBatch(s, ids, maxAttempts, creations);
      && |Numbers(t.retries, ids[i])| == |Numbers(s.retries, ids[i])| + 1
      && t.events[ids[i]].status == if creations[i].Created? then PROCESSED else FAILED
    decreases |ids|
  {
    var next := RetryOne(s, ids[0], maxAttempts, creations[0]);
    RetryOutcome(s, ids[0], maxAttempts, creations[0]);
    ImportOutcome(s, ids[0], creations[0]);
    assert next.retries != s.retries ==> next.retries[..|next.retries| - 1] == s.retries;
    if i > 0 {
      assert ids[1..][i - 1] == ids[i] && creations[1..][i - 1] == creations[i];
      BatchOutcome(next, ids[1..], maxAttempts, creations[1..], i - 1);
    } else {
      OthersInBatch(next, ids[1..], maxAttempts, creations[1..], ids[0]);
    }
  }

  /** A batch leaves an event that is not in it. */
  lemma {:induction false} OthersInBatch(s: Store, ids: seq<nat>, maxAttempts: int, creations: seq<Creation>, id: nat)
    requires Known(s, ids) && |creations| >= |ids| && id < |s.events|
    requires forall j :: 0 <= j < |ids| ==> ids[j] != id
    ensures var t := RetryBatch(s, ids, maxAttempts, creations);
      t.events[id] == s.events[id] && Numbers(t.retries, id) == Numbers(s.retries, id)
    decreases |ids|
  {
    if ids != [] {
      var next := RetryOne(s, ids[0], maxAttempts, creations[0]);
      RetryOutcome(s, ids[0], maxAttempts, creations[0]);
      ImportOutcome(s, ids[0], creations[0]);
      assert next.retries != s.retries ==> next.retries[..|next.retries| - 1] == s.retries;
      if !Stops(s, ids[0], maxAttempts, creations[0]) {
        OthersInBatch(next, ids[1..], maxAttempts, creations[1..], id);
      }
    }
  }

  function ProcessedCount(events: seq<Event>): nat {
    if events == [] then 0
    else
      var n := |events| - 1;
      ProcessedCount(events[..n]) + (if events[n].status == PROCESSED then 1 else 0)
  }

  // ---- Runs ----

  /** `Beat` covers any batch the unordered query may return. */
  datatype Op =
    | Post(key: EventKey)
    | Import(id: nat, creation: Creation)
    | Beat(ids: seq<nat>, maxAttempts: int, creations: seq<Creation>)

  predicate Enabled(s: Store, op: Op) {
    match op
    case Post(_) => true
    case Import(id, _) => id < |s.events|
    case Beat(ids, _, creations) => Known(s, ids) && |creations| >= |ids|
  }

  function Step(s: Store, op: Op): Store
    requires Enabled(s, op)
  {
    match op
    case Post(key) => Receive(s, key).0
    case Import(id, creation) => Process(s, id, creation)
    case Beat(ids, maxAttempts, creations) => RetryBatch(s, ids, maxAttempts, creations)
  }

  predicate IsRun(trace: seq<Store>, ops: seq<Op>) {
    && |trace| == |ops| + 1
    && trace[0] == Store([], [], [])
    && forall k :: 0 <= k < |ops| ==> Enabled(trace[k], ops[k]) && trace[k + 1] == Step(trace[k], ops[k])
  }

  predicate DistinctEvents(events: seq<Event>) {
    forall i, j :: 0 <= i < j < |events| ==> !Conflicts(events[i].key, events[j].key)
  }

  /** An event is processed exactly when it carries its lead, which names it;
      only a failed event carries an error, cut to its column. */
  ghost predicate EventSafe(s: Store, id: nat)
    requires id < |s.events|
  {
    && (s.events[id].status == PROCESSED <==> s.events[id].createdLead.Some?)
    && (s.events[id].createdLead.Some? ==>
          s.events[id].createdLead.value < |s.leads| && s.leads[s.events[id].createdLead.value] == id)
    && |s.events[id].error| <= ERROR_LENGTH
    && (s.events[id].status != FAILED ==> s.events[id].error == "")
  }

  /** Every lead is the one its event carries: so no event made two. */
  ghost predicate LeadSafe(s: Store, lead: nat)
    requires lead < |s.leads|
  {
    s.leads[lead] < |s.events| && s.events[s.leads[lead]].createdLead == Some(lead)
  }

  ghost predicate Imported(s: Store) {
    && (forall id :: 0 <= id < |s.events| ==> EventSafe(s, id))
    && (forall lead :: 0 <= lead < |s.leads| ==> LeadSafe(s, lead))
  }

  ghost predicate Capped(s: Store, cap: nat) {
    forall id: nat ::
      CountsUp(Numbers(s.retries, id)) && |Numbers(s.retries, id)| <= cap
  }

  /** A closed retry row says how its import ended; one that says processed
      belongs to a processed event. */
  ghost predicate RetriesTell(s: Store) {
    forall i :: 0 <= i < |s.retries| ==>
      && s.retries[i].event < |s.events|
      && s.retries[i].outcome != Some(RECEIVED)
      && (s.retries[i].outcome == Some(PROCESSED) ==> s.events[s.retries[i].event].status == PROCESSED)
  }

  ghost predicate Safe(s: Store, cap: nat) {
    DistinctEvents(s.events) && Imported(s) && Capped(s, cap) && RetriesTell(s)
  }

  /** What `after` keeps of `before`: events, and for good the processed ones. */
  ghost predicate Keeps(before: Store, after: Store) {
    && |before.events| <= |after.events|
    && forall id :: 0 <= id < |before.events| ==>
         && after.events[id].key == before.events[id].key
         && (before.events[id].status == PROCESSED ==> after.events[id] == before.events[id])
  }

  lemma ProcessSafe(s: Store, id: nat, c: Creation)
    requires id < |s.events| && Imported(s) && DistinctEvents(s.events)
    ensures var t := Process(s, id, c);
      Imported(t) && DistinctEvents(t.events) && Keeps(s, t) && t.retries == s.retries
  {
    var t := Process(s, id, c);
    forall e | 0 <= e < |t.events|
      ensures EventSafe(t, e)
    {
      assert EventSafe(s, e);
    }
    forall lead | 0 <= lead < |t.leads|
      ensures LeadSafe(t, lead)
    {
      assert EventSafe(s, id);
      if lead < |s.leads| {
        assert LeadSafe(s, lead);
      }
    }
    assert forall e :: 0 <= e < |t.events| ==> t.events[e].key == s.events[e].key;
  }

  lemma RetryOneSafe(s: Store, id: nat, maxAttempts: int, c: Creation, cap: nat)
    requires id < |s.events| && Safe(s, cap) && maxAttempts <= cap
    ensures Safe(RetryOne(s, id, maxAttempts, c), cap) && Keeps(s, RetryOne(s, id, maxAttempts, c))
  {
    ProcessSafe(s, id, c);
    var t := RetryOne(s, id, maxAttempts, c);
    if t != s && |t.retries| > |s.retries| {
      assert t.retries[..|t.retries| - 1] == s.retries;
      forall e: nat
        ensures CountsUp(Numbers(t.retries, e)) && |Numbers(t.retries, e)| <= cap
      {
        assert CountsUp(Numbers(s.retries, e));
        assert Numbers(t.retries, e) == Numbers(s.retries, e) +
          (if e == id then [|Numbers(s.retries, id)| + 1] else []);
      }
    }
    assert Imported(t) by {
      var p := Process(s, id, c);
      forall e | 0 <= e < |t.events|
        ensures EventSafe(t, e)
      {
        assert EventSafe(s, e) && EventSafe(p, e);
      }
      forall lead | 0 <= lead < |t.leads|
        ensures LeadSafe(t, lead)
      {
        if t != s {
          assert LeadSafe(p, lead);
        } else {
          assert LeadSafe(s, lead);
        }
      }
    }
  }

  lemma {:induction false} RetryBatchSafe(s: Store, ids: seq<nat>, maxAttempts: int, creations: seq<Creation>,
                                          cap: nat)
    requires Known(s, ids) && |creations| >= |ids| && Safe(s, cap) && maxAttempts <= cap
    ensures Safe(RetryBatch(s, ids, maxAttempts, creations), cap)
    ensures Keeps(s, RetryBatch(s, ids, maxAttempts, creations))
    decreases |ids|
  {
    if ids != [] {
      var next := RetryOne(s, ids[0], maxAttempts, creations[0]);
      RetryOneSafe(s, ids[0], maxAttempts, creations[0], cap);
      if !Stops(s, ids[0], maxAttempts, creations[0]) {
        RetryBatchSafe(next, ids[1..], maxAttempts, creations[1..], cap);
      }
    }
  }

  lemma ReceiveSafe(s: Store, key: EventKey, cap: nat)
    requires Safe(s, cap)
    ensures var (t, i) := Receive(s, key);
      && Safe(t, cap) && Keeps(s, t)
      && i < |t.events| && Matches(t.events[i].key, key)
  {
    var (t, i) := Receive(s, key);
    forall e | 0 <= e < |t.events|
      ensures EventSafe(t, e)
    {
      if e < |s.events| {
        assert EventSafe(s, e);
      }
    }
    forall lead | 0 <= lead < |t.leads|
      ensures LeadSafe(t, lead)
    {
      assert LeadSafe(s, lead);
    }
    assert t.retries == s.retries && Capped(t, cap);
  }

  lemma StepSafe(s: Store, op: Op, cap: nat)
    requires Safe(s, cap) && Enabled(s, op)
    requires op.Beat? ==> op.maxAttempts <= cap
    ensures Safe(Step(s, op), cap) && Keeps(s, Step(s, op))
  {
    match op {
      case Post(key) =>
        ReceiveSafe(s, key, cap);
      case Import(id, creation) =>
        ProcessSafe(s, id, creation);
        assert Capped(Process(s, id, creation), cap);
      case Beat(ids, maxAttempts, creations) =>
        RetryBatchSafe(s, ids, maxAttempts, creations, cap);
    }
  }

  /** Over every run of posts, imports and retry beats: events stay unique, an
      event is processed exactly when it carries its lead, its retries are
      numbered 1..k with k at most the cap, and they tell how they ended. */
  lemma {:induction false} RunSafe(trace: seq<Store>, ops: seq<Op>, k: nat, cap: nat)
    requires IsRun(trace, ops) && k < |trace|
    requires forall j :: 0 <= j < |ops| && ops[j].Beat? ==> ops[j].maxAttempts <= cap
    ensures Safe(trace[k], cap)
  {
    if k > 0 {
      RunSafe(trace, ops, k - 1, cap);
      StepSafe(trace[k - 1], ops[k - 1], cap);
    }
  }

  // ---- As many leads as processed events ----

  function Processed01(e: Event): nat {
    if e.status == PROCESSED then 1 else 0
  }

  lemma {:induction false} CountUpdated(events: seq<Event>, id: nat, e: Event)
    requires id < |events|
    ensures ProcessedCount(events[id := e]) == ProcessedCount(events) - Processed01(events[id]) + Processed01(e)
  {
    var n := |events| - 1;
    var after := events[id := e];
    if id < n {
      CountUpdated(events[..n], id, e);
      assert after[..n] == events[..n][id := e];
    } else {
      assert after[..n] == events[..n];
    }
  }

  predicate CountsAgree(s: Store) {
    |s.leads| == ProcessedCount(s.events)
  }

  lemma ImportCounts(s: Store, id: nat, c: Creation)
    requires id < |s.events| && CountsAgree(s)
    ensures CountsAgree(Process(s, id, c))
  {
    CountUpdated(s.events, id, Process(s, id, c).events[id]);
    assert s.events[id := s.events[id]] == s.events;
  }

  lemma {:induction false} BatchCounts(s: Store, ids: seq<nat>, maxAttempts: int, creations: seq<Creation>)
    requires Known(s, ids) && |creations| >= |ids| && CountsAgree(s)
    ensures CountsAgree(RetryBatch(s, ids, maxAttempts, creations))
    decreases |ids|
  {
    if ids != [] {
      var next := RetryOne(s, ids[0], maxAttempts, creations[0]);
      ImportCounts(s, ids[0], creations[0]);
      if !Stops(s, ids[0], maxAttempts, creations[0]) {
        BatchCounts(next, ids[1..], maxAttempts, creations[1..]);
      }
    }
  }

  /** In every state of a run there are as many leads as processed events. */
  lemma {:induction false} LeadsCountProcessed(trace: seq<Store>, ops: seq<Op>, k: nat)
    requires IsRun(trace, ops) && k < |trace|
    ensures |trace[k].leads| == ProcessedCount(trace[k].events)
  {
    if k > 0 {
      LeadsCountProcessed(trace, ops, k - 1);
      var s := trace[k - 1];
      match ops[k - 1] {
        case Post(key) =>
          assert |trace[k].events| > |s.events| ==> trace[k].events[..|s.events|] == s.events;
        case Import(id, creation) =>
          ImportCounts(s, id, creation);
        case Beat(ids, maxAttempts, creations) =>
          BatchCounts(s, ids, maxAttempts, creations);
      }
    }
  }

  /** No event creates two leads. */
  lemma AtMostOneLead(trace: seq<Store>, ops: seq<Op>, k: nat, cap: nat, a: nat, b: nat)
    requires IsRun(trace, ops) && k < |trace|
    requires forall j :: 0 <= j < |ops| && ops[j].Beat? ==> ops[j].maxAttempts <= cap
    requires a < |trace[k].leads| && b < |trace[k].leads| && trace[k].leads[a] == trace[k].leads[b]
    ensures a == b
  {
    RunSafe(trace, ops, k, cap);
    assert LeadSafe(trace[k], a) && LeadSafe(trace[k], b);
  }

  /** Once processed, an event never changes again. */
  lemma {:induction false} ProcessedIsForGood(trace: seq<Store>, ops: seq<Op>, k: nat, later: nat, cap: nat, id: nat)
    requires IsRun(trace, ops) && k <= later < |trace|
    requires forall j :: 0 <= j < |ops| && ops[j].Beat? ==> ops[j].maxAttempts <= cap
    requires id < |trace[k].events| && trace[k].events[id].status == PROCESSED
    ensures id < |trace[later].events| && trace[later].events[id] == trace[k].events[id]
  {
    if k < later {
      ProcessedIsForGood(trace, ops, k, later - 1, cap, id);
      RunSafe(trace, ops, later - 1, cap);
      StepSafe(trace[later - 1], ops[later - 1], cap);
      assert Keeps(trace[later - 1], trace[later]);
    }
  }

  // ---- The services ----

  class WebhookStore {
    var events: seq<Event>
    var retries: seq<Retry>
    var leads: seq<nat>

    function View(): Store
      reads this
    {
      Store(events, retries, leads)
    }

    constructor ()
      ensures View() == Store([], [], [])
    {
      events, retries, leads := [], [], [];
    }

    method ReceiveEvent(key: EventKey) returns (id: nat)
      modifies this`events
      ensures (View(), id) == Receive(old(View()), key)
    {
      id := FirstMatch(events, key);
      if id < |events| {
        return;
      }
      events := events + [NewEvent(key)];
    }

    /** `raised` tells that the import failed beyond the handled errors. */
    method ProcessEvent(id: nat, c: Creation) returns (raised: bool)
      requires id < |events|
      modifies this`events, this`leads
      ensures View() == Process(old(View()), id, c)
      ensures raised == Crashes(old(View()), id, c)
    {
      var event := events[id];
      if event.status == PROCESSED {
        return false;
      }
      match c {
        case Created =>
          leads := leads + [id];
          event := event.(createdLead := Some(|leads| - 1));
          event := event.(status := PROCESSED, error := "");
        case Refused(message) =>
          event := event.(status := FAILED, error := Truncate(message));
        case Crashed =>
          return true;
      }
      events := events[id := event];
      raised := false;
    }

    method CountRetries(id: nat) returns (n: nat)
      ensures n == |Numbers(retries, id)|
    {
      n := 0;
      var i := 0;
      while i < |retries|
        invariant i <= |retries|
        invariant n == |Numbers(retries[..i], id)|
      {
        assert retries[..i + 1][..i] == retries[..i];
        if retries[i].event == id {
          n := n + 1;
        }
        i := i + 1;
      }
      assert retries[..i] == retries;
    }

    /** One turn of the loop: create the retry row, import, close the row. */
    method RetryEvent(id: nat, maxAttempts: int, c: Creation) returns (retried: bool, raised: bool)
      requires id < |events|
      modifies this
      ensures View() == RetryOne(old(View()), id, maxAttempts, c)
      ensures raised == Stops(old(View()), id, maxAttempts, c)
      ensures |retries| == |old(retries)| + (if retried || raised then 1 else 0)
      ensures !(retried && raised)
    {
      var attempts := CountRetries(id);
      if attempts >= maxAttempts {
        return false, false;
      }
      var row := |retries|;
      retries := retries + [Retry(id, attempts + 1, None, "")];
      raised := ProcessEvent(id, c);
      if raised {
        return false, true;
      }
      retries := retries[row := retries[row].(outcome := Some(events[id].status), error := events[id].error)];
      retried := true;
    }

    /** `retried` counts the retries made; `raised` tells whether an exception
        ended the loop early. */
    method RetryFailed(maxAttempts: int, batchSize: nat, creations: seq<Creation>)
      returns (retried: nat, raised: bool)
      requires |creations| >= |Batch(events, batchSize)|
      modifies this
      ensures Known(old(View()), Batch(old(events), batchSize))
      ensures View() == RetryBatch(old(View()), Batch(old(events), batchSize), maxAttempts, creations)
      ensures |retries| == |old(retries)| + retried + (if raised then 1 else 0)
    {
      FailedIdsKnown(events);
      var failed := Batch(events, batchSize);
      retried := 0;
      var i := 0;
      while i < |failed|
        invariant i <= |failed| && Known(View(), failed)
        invariant RetryBatch(View(), failed[i..], maxAttempts, creations[i..])
               == RetryBatch(old(View()), failed, maxAttempts, creations)
        invariant |retries| == |old(retries)| + retried
      {
        assert failed[i..][0] == failed[i] && failed[i..][1..] == failed[i + 1..];
        assert creations[i..][0] == creations[i] && creations[i..][1..] == creations[i + 1..];
        var done, crashed := RetryEvent(failed[i], maxAttempts, creations[i]);
        if crashed {
          return retried, true;
        }
        if done {
          retried := retried + 1;
        }
        i := i + 1;
      }
      raised := false;
    }
  }
}
