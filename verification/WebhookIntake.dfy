/** Concurrent webhook intake: many receivers check for a duplicate and then
    insert under two unique constraints (apps/integrations/services.py and
    apps/integrations/models.py). */
module WebhookIntake {
  import opened Text

  /** What identifies an event: its endpoint, the provider's id (may be empty)
      and the digest of its payload. */
  datatype EventKey = EventKey(endpoint: nat, externalId: string, hash: string)

  /** The duplicate query: same endpoint, and same digest or same id. */
  predicate Matches(row: EventKey, k: EventKey) {
    row.endpoint == k.endpoint
    && (row.hash == k.hash || (k.externalId != "" && row.externalId == k.externalId))
  }

  /** The two unique constraints, each conditional on a non-empty value. A
      database without conditional indexes does not create them. */
  predicate Conflicts(a: EventKey, b: EventKey) {
    a.endpoint == b.endpoint
    && ((a.externalId != "" && a.externalId == b.externalId) || (a.hash != "" && a.hash == b.hash))
  }

  datatype RowState = Pending | Committed | RolledBack

  datatype Row = Row(key: EventKey, state: RowState)

  /** The program point of one receiver. A receiver runs in one transaction:
      its own row is invisible to others until `Finish`, but holds the index
      entries that make a conflicting insert wait. */
  datatype Point =
    | Start
    | Checked
    | Inserted(row: nat)
    | Rejected
    | Done(event: Option<nat>)
    | Raised

  datatype Receiver = Receiver(key: EventKey, at: Point)

  /** `enforced` tells whether the database has the two constraints. */
  datatype State = State(rows: seq<Row>, receivers: seq<Receiver>, enforced: bool)

  /** `found` picks among several matching rows, whose order is unspecified. */
  datatype Step =
    | Check(receiver: nat, found: Option<nat>)
    | Insert(receiver: nat)
    | Requery(receiver: nat, found: Option<nat>)
    | Finish(receiver: nat)
    | Abort(receiver: nat)

  predicate Visible(s: State, i: nat, k: EventKey) {
    i < |s.rows| && s.rows[i].state == Committed && Matches(s.rows[i].key, k)
  }

  /** `found` is a possible answer of the duplicate query. */
  predicate Answers(s: State, k: EventKey, found: Option<nat>) {
    match found
    case Some(i) => Visible(s, i, k)
    case None => forall i :: 0 <= i < |s.rows| ==> !Visible(s, i, k)
  }

  predicate Blocked(s: State, k: EventKey, state: RowState) {
    exists i :: 0 <= i < |s.rows| && s.rows[i].state == state && Conflicts(s.rows[i].key, k)
  }

  function Move(s: State, r: nat, at: Point): State
    requires r < |s.receivers|
  {
    s.(receivers := s.receivers[r := s.receivers[r].(at := at)])
  }

  predicate Enabled(s: State, step: Step) {
    step.receiver < |s.receivers| &&
    var me := s.receivers[step.receiver];
    match step
    case Check(_, found) => me.at == Start && Answers(s, me.key, found)
    case Insert(_) => me.at == Checked && (s.enforced ==> !Blocked(s, me.key, Pending))
    case Requery(_, found) => me.at == Rejected && Answers(s, me.key, found)
    case Finish(_) => me.at.Inserted? && me.at.row < |s.rows|
    case Abort(_) => !me.at.Done? && (me.at.Inserted? ==> me.at.row < |s.rows|)
  }

  function Next(s: State, step: Step): State
    requires Enabled(s, step)
  {
    var me := s.receivers[step.receiver];
    match step
    case Check(r, found) => Move(s, r, if found.Some? then Done(found) else Checked)
    case Insert(r) =>
      if s.enforced && Blocked(s, me.key, Committed) then Move(s, r, Rejected)
      else Move(s.(rows := s.rows + [Row(me.key, Pending)]), r, Inserted(|s.rows|))
    case Requery(r, found) => Move(s, r, Done(found))
    case Finish(r) =>
      Move(s.(rows := s.rows[me.at.row := s.rows[me.at.row].(state := Committed)]), r, Done(Some(me.at.row)))
    case Abort(r) =>
      var rolled := if me.at.Inserted? then s.rows[me.at.row := s.rows[me.at.row].(state := RolledBack)] else s.rows;
      Move(s.(rows := rolled), r, Raised)
  }

  predicate IsRun(trace: seq<State>, steps: seq<Step>) {
    && |trace| == |steps| + 1
    && forall k :: 0 <= k < |steps| ==> Enabled(trace[k], steps[k]) && trace[k + 1] == Next(trace[k], steps[k])
  }

  /** No two stored events of one endpoint share a digest or a non-empty id. */
  predicate Unique(rows: seq<Row>) {
    forall i, j :: 0 <= i < j < |rows| && rows[i].state != RolledBack && rows[j].state != RolledBack ==>
      !Conflicts(rows[i].key, rows[j].key)
  }

  predicate HasDuplicate(s: State, k: EventKey) {
    exists i :: 0 <= i < |s.rows| && Visible(s, i, k)
  }

  predicate ReceiverSafe(s: State, r: nat)
    requires r < |s.receivers|
  {
    var me := s.receivers[r];
    match me.at
    case Inserted(i) =>
      && i < |s.rows| && s.rows[i] == Row(me.key, Pending)
      && forall q :: 0 <= q < |s.receivers| && q != r ==> s.receivers[q].at != Inserted(i)
    case Rejected => HasDuplicate(s, me.key)
    case Done(found) => found.Some? && Visible(s, found.value, me.key)
    case _ => true
  }

  /** Receivers carry the digest of their payload, which is never empty. */
  predicate Safe(s: State) {
    && s.enforced && Unique(s.rows)
    && (forall r :: 0 <= r < |s.receivers| ==> s.receivers[r].key.hash != "")
    && (forall r :: 0 <= r < |s.receivers| ==> ReceiverSafe(s, r))
  }

  lemma VisibleStays(s: State, step: Step, i: nat, k: EventKey)
    requires Safe(s) && Enabled(s, step) && Visible(s, i, k)
    ensures Visible(Next(s, step), i, k)
  {
    var me := s.receivers[step.receiver];
    if me.at.Inserted? {
      assert ReceiverSafe(s, step.receiver);
    }
  }

  lemma OthersStaySafe(s: State, step: Step, r: nat)
    requires Safe(s) && Enabled(s, step)
    requires r < |s.receivers| && r != step.receiver
    ensures ReceiverSafe(Next(s, step), r)
  {
    var t := Next(s, step);
    var me := s.receivers[r];
    assert t.receivers[r] == me && ReceiverSafe(s, r) && ReceiverSafe(s, step.receiver);
    match me.at {
      case Rejected =>
        var i :| 0 <= i < |s.rows| && Visible(s, i, me.key);
        VisibleStays(s, step, i, me.key);
        assert Visible(t, i, me.key);
      case Done(found) =>
        VisibleStays(s, step, found.value, me.key);
      case Inserted(i) =>
        assert s.receivers[step.receiver].at != Inserted(i);
        forall q | 0 <= q < |t.receivers| && q != r
          ensures t.receivers[q].at != Inserted(i)
        {
          if q != step.receiver {
            assert t.receivers[q] == s.receivers[q];
          }
        }
      case _ =>
    }
  }

  lemma ActorStaysSafe(s: State, step: Step)
    requires Safe(s) && Enabled(s, step)
    ensures ReceiverSafe(Next(s, step), step.receiver)
  {
    var t := Next(s, step);
    var r := step.receiver;
    var me := s.receivers[r];
    assert ReceiverSafe(s, r);
    match step {
      case Insert(_) =>
        if Blocked(s, me.key, Committed) {
          var i :| 0 <= i < |s.rows| && s.rows[i].state == Committed && Conflicts(s.rows[i].key, me.key);
          assert Visible(t, i, me.key);
        } else {
          forall q | 0 <= q < |t.receivers| && q != r
            ensures t.receivers[q].at != Inserted(|s.rows|)
          {
            assert t.receivers[q] == s.receivers[q] && ReceiverSafe(s, q);
          }
        }
      case Requery(_, found) =>
        var i :| 0 <= i < |s.rows| && Visible(s, i, me.key);
        assert found.Some?;
      case _ =>
    }
  }

  lemma UniqueStays(s: State, step: Step)
    requires Safe(s) && Enabled(s, step)
    ensures Unique(Next(s, step).rows)
  {
    var t := Next(s, step);
    var me := s.receivers[step.receiver];
    assert ReceiverSafe(s, step.receiver);
    forall i, j | 0 <= i < j < |t.rows| && t.rows[i].state != RolledBack && t.rows[j].state != RolledBack
      ensures !Conflicts(t.rows[i].key, t.rows[j].key)
    {
      if j < |s.rows| {
        assert t.rows[i].key == s.rows[i].key && t.rows[j].key == s.rows[j].key;
        assert s.rows[i].state != RolledBack && s.rows[j].state != RolledBack;
      } else {
        assert t.rows[j].key == me.key && t.rows[i] == s.rows[i];
        assert s.rows[i].state == Pending || s.rows[i].state == Committed;
      }
    }
  }

  lemma NextSafe(s: State, step: Step)
    requires Safe(s) && Enabled(s, step)
    ensures Safe(Next(s, step))
  {
    UniqueStays(s, step);
    forall r | 0 <= r < |s.receivers|
      ensures ReceiverSafe(Next(s, step), r)
    {
      if r == step.receiver {
        ActorStaysSafe(s, step);
      } else {
        OthersStaySafe(s, step, r);
      }
    }
  }

  /** Any number of receivers, none started yet, over rows already stored. */
  predicate Init(s: State) {
    && Unique(s.rows)
    && forall r :: 0 <= r < |s.receivers| ==> s.receivers[r].key.hash != "" && s.receivers[r].at == Start
  }

  /** With the constraints, in every interleaving, stored events stay unique,
      and a receiver that returns, returns a stored event that duplicates its
      own: never null. */
  lemma {:induction false} InterleavingsSafe(trace: seq<State>, steps: seq<Step>, k: nat)
    requires IsRun(trace, steps) && Init(trace[0]) && trace[0].enforced && k < |trace|
    ensures Safe(trace[k])
    ensures Unique(trace[k].rows)
    ensures forall r, found ::
      0 <= r < |trace[k].receivers| && trace[k].receivers[r].at == Done(found) ==>
        found.Some? && Visible(trace[k], found.value, trace[k].receivers[r].key)
  {
    if k > 0 {
      InterleavingsSafe(trace, steps, k - 1);
      NextSafe(trace[k - 1], steps[k - 1]);
    }
    forall r, found | 0 <= r < |trace[k].receivers| && trace[k].receivers[r].at == Done(found)
      ensures found.Some? && Visible(trace[k], found.value, trace[k].receivers[r].key)
    {
      assert ReceiverSafe(trace[k], r);
    }
  }

  /** The same, told from the stored values: no two events of an endpoint share
      a digest or a non-empty id, and what a receiver gets has its digest or its
      id. */
  lemma StoredEventsDiffer(trace: seq<State>, steps: seq<Step>, k: nat)
    requires IsRun(trace, steps) && Init(trace[0]) && trace[0].enforced && k < |trace|
    ensures var rows := trace[k].rows;
      forall i, j :: (0 <= i < j < |rows| && rows[i].state != RolledBack && rows[j].state != RolledBack
                      && rows[i].key.endpoint == rows[j].key.endpoint) ==>
          && (rows[i].key.hash != "" ==> rows[i].key.hash != rows[j].key.hash)
          && (rows[i].key.externalId != "" ==> rows[i].key.externalId != rows[j].key.externalId)
    ensures forall r: nat, found: nat ::
      r < |trace[k].receivers| && trace[k].receivers[r].at == Done(Some(found)) ==>
        && found < |trace[k].rows| && trace[k].rows[found].state == Committed
        && (var row, mine := trace[k].rows[found].key, trace[k].receivers[r].key;
            && row.endpoint == mine.endpoint
            && (row.hash == mine.hash || (row.externalId == mine.externalId && mine.externalId != "")))
  {
    InterleavingsSafe(trace, steps, k);
    forall r: nat, found: nat | r < |trace[k].receivers| && trace[k].receivers[r].at == Done(Some(found))
      ensures Visible(trace[k], found, trace[k].receivers[r].key)
    {
      assert ReceiverSafe(trace[k], r);
    }
  }

  /** Two deliveries of one payload without a provider id get the same event,
      whatever the interleaving. */
  lemma SamePayloadSameEvent(trace: seq<State>, steps: seq<Step>, k: nat, p: nat, q: nat, e: nat, f: nat)
    requires IsRun(trace, steps) && Init(trace[0]) && trace[0].enforced && k < |trace|
    requires p < |trace[k].receivers| && q < |trace[k].receivers|
    requires trace[k].receivers[p].key == trace[k].receivers[q].key
    requires trace[k].receivers[p].key.externalId == ""
    requires trace[k].receivers[p].at == Done(Some(e)) && trace[k].receivers[q].at == Done(Some(f))
    ensures e == f
  {
    InterleavingsSafe(trace, steps, k);
    var s := trace[k];
    assert Visible(s, e, s.receivers[p].key) && Visible(s, f, s.receivers[q].key);
    assert s.receivers[p].key.hash != "";
    assert Conflicts(s.rows[e].key, s.rows[f].key) && Conflicts(s.rows[f].key, s.rows[e].key);
  }

  // ---- Without the constraints ----

  predicate Unseen(s: State, k: EventKey) {
    forall i :: 0 <= i < |s.rows| ==> !Visible(s, i, k)
  }

  /** Neither receiver finds a stored duplicate, and each would be one of the
      other's. */
  predicate Rivals(s: State, p: nat, q: nat) {
    && p < |s.receivers| && q < |s.receivers| && p != q
    && Unseen(s, s.receivers[p].key) && Unseen(s, s.receivers[q].key)
    && Conflicts(s.receivers[p].key, s.receivers[q].key)
  }

  /** The receiver finds no stored duplicate, but row `i` is about to be one. */
  predicate Overtakes(s: State, p: nat, i: nat) {
    && p < |s.receivers| && i < |s.rows|
    && Unseen(s, s.receivers[p].key)
    && s.rows[i].state == Pending && Conflicts(s.rows[i].key, s.receivers[p].key)
  }

  ghost predicate Racy(s: State) {
    (exists p, q :: Rivals(s, p, q)) || (exists p, i :: Overtakes(s, p, i))
  }

  /** Receiver `r` inserted row `i`. */
  predicate Wrote(s: State, r: nat, i: nat)
    requires r < |s.receivers| && i < |s.rows|
  {
    && s.receivers[r].key == s.rows[i].key
    && (|| s.receivers[r].at == Inserted(i)
        || s.receivers[r].at == Done(Some(i))
        || (s.receivers[r].at == Raised && s.rows[i].state == RolledBack))
  }

  /** What holds of a state reached from `first`, where nothing was enforced. */
  ghost predicate Loose(first: State, s: State) {
    && !s.enforced
    && |s.receivers| == |first.receivers|
    && (forall r :: 0 <= r < |s.receivers| ==> s.receivers[r].key == first.receivers[r].key)
    && |s.rows| >= |first.rows| && s.rows[..|first.rows|] == first.rows
    && (forall r :: 0 <= r < |s.receivers| ==> LooseReceiver(first, s, r))
    && (forall i :: |first.rows| <= i < |s.rows| ==> Authored(first, s, i))
  }

  predicate LooseReceiver(first: State, s: State, r: nat)
    requires r < |s.receivers|
  {
    match s.receivers[r].at
    case Checked => Unseen(first, s.receivers[r].key)
    case Inserted(i) =>
      && |first.rows| <= i < |s.rows| && s.rows[i] == Row(s.receivers[r].key, Pending)
      && forall q :: 0 <= q < |s.receivers| && q != r ==> s.receivers[q].at != Inserted(i)
    case Rejected => false
    case Done(found) => found.Some?
    case _ => true
  }

  ghost predicate Authored(first: State, s: State, i: nat)
    requires i < |s.rows|
  {
    exists r :: 0 <= r < |s.receivers| && Wrote(s, r, i) && Unseen(first, s.receivers[r].key)
  }

  lemma LooseStays(first: State, s: State, step: Step)
    requires Loose(first, s) && Enabled(s, step)
    ensures Loose(first, Next(s, step))
  {
    var t := Next(s, step);
    var me := s.receivers[step.receiver];
    assert LooseReceiver(first, s, step.receiver);
    assert forall i :: 0 <= i < |first.rows| ==> s.rows[i] == first.rows[i];
    forall r | 0 <= r < |t.receivers|
      ensures LooseReceiver(first, t, r)
    {
      LooseReceiverStays(first, s, step, r);
    }
    forall i | |first.rows| <= i < |t.rows|
      ensures Authored(first, t, i)
    {
      if i < |s.rows| {
        assert Authored(first, s, i);
        var r :| 0 <= r < |s.receivers| && Wrote(s, r, i) && Unseen(first, s.receivers[r].key);
        assert Wrote(t, r, i);
      } else {
        assert Wrote(t, step.receiver, i);
      }
    }
  }

  lemma LooseReceiverStays(first: State, s: State, step: Step, r: nat)
    requires Loose(first, s) && Enabled(s, step) && r < |s.receivers|
    ensures LooseReceiver(first, Next(s, step), r)
  {
    var me := s.receivers[step.receiver];
    assert LooseReceiver(first, s, r) && LooseReceiver(first, s, step.receiver);
    if r == step.receiver {
      if step.Check? && step.found == None {
        forall i | 0 <= i < |first.rows|
          ensures !Visible(first, i, me.key)
        {
          assert s.rows[i] == s.rows[..|first.rows|][i];
          assert !Visible(s, i, me.key);
        }
      }
      if step.Insert? {
        forall q | 0 <= q < |s.receivers| && q != r
          ensures s.receivers[q].at != Inserted(|s.rows|)
        {
          assert LooseReceiver(first, s, q);
        }
      }
    }
  }

  lemma LooseUnique(first: State, s: State)
    requires Init(first) && !Racy(first) && Loose(first, s)
    ensures Unique(s.rows)
  {
    var n := |first.rows|;
    assert forall i :: 0 <= i < n ==> s.rows[i] == s.rows[..n][i] == first.rows[i];
    forall i, j | 0 <= i < j < |s.rows| && s.rows[i].state != RolledBack && s.rows[j].state != RolledBack
      ensures !Conflicts(s.rows[i].key, s.rows[j].key)
    {
      if j >= n {
        assert Authored(first, s, j);
        var q :| 0 <= q < |s.receivers| && Wrote(s, q, j) && Unseen(first, s.receivers[q].key);
        if i >= n {
          assert Authored(first, s, i);
          var p :| 0 <= p < |s.receivers| && Wrote(s, p, i) && Unseen(first, s.receivers[p].key);
          assert !Rivals(first, p, q);
        } else {
          assert !Visible(first, i, first.receivers[q].key) && !Overtakes(first, q, i);
        }
      }
    }
  }

  lemma {:induction false} LooseRun(trace: seq<State>, steps: seq<Step>, k: nat)
    requires IsRun(trace, steps) && Init(trace[0]) && !trace[0].enforced && k < |trace|
    ensures Loose(trace[0], trace[k])
  {
    if k > 0 {
      LooseRun(trace, steps, k - 1);
      LooseStays(trace[0], trace[k - 1], steps[k - 1]);
    }
  }

  /** A run from `s` that ends with duplicates stored. */
  ghost predicate Breaks(s: State, trace: seq<State>, steps: seq<Step>) {
    IsRun(trace, steps) && trace[0] == s && !Unique(trace[|steps|].rows)
  }

  /** Both check, then both insert. */
  lemma RivalsBreak(s: State, p: nat, q: nat) returns (trace: seq<State>, steps: seq<Step>)
    requires Init(s) && !s.enforced && Rivals(s, p, q)
    ensures Breaks(s, trace, steps)
  {
    var s1 := Next(s, Check(p, None));
    assert forall i :: 0 <= i < |s1.rows| ==> !Visible(s1, i, s.receivers[q].key) by {
      assert s1.rows == s.rows;
      assert forall i :: Visible(s1, i, s.receivers[q].key) <==> Visible(s, i, s.receivers[q].key);
    }
    var s2 := Next(s1, Check(q, None));
    var s3 := Next(s2, Insert(p));
    var s4 := Next(s3, Insert(q));
    var n := |s.rows|;
    assert s4.rows[n].key == s.receivers[p].key && s4.rows[n + 1].key == s.receivers[q].key;
    trace, steps := [s, s1, s2, s3, s4], [Check(p, None), Check(q, None), Insert(p), Insert(q)];
  }

  lemma OvertakingBreaks(s: State, p: nat, i: nat) returns (trace: seq<State>, steps: seq<Step>)
    requires Init(s) && !s.enforced && Overtakes(s, p, i)
    ensures Breaks(s, trace, steps)
  {
    var s1 := Next(s, Check(p, None));
    var s2 := Next(s1, Insert(p));
    assert s2.rows[i].key == s.rows[i].key && s2.rows[|s.rows|].key == s.receivers[p].key;
    trace, steps := [s, s1, s2], [Check(p, None), Insert(p)];
  }

  /** Exactly when every interleaving keeps the stored events unique: the
      database has the constraints, or no two receivers race. */
  lemma UniqueIffEnforcedOrNoRace(s: State)
    requires Init(s)
    ensures (forall trace: seq<State>, steps: seq<Step> :: !Breaks(s, trace, steps)) <==> s.enforced || !Racy(s)
  {
    if s.enforced || !Racy(s) {
      forall trace: seq<State>, steps: seq<Step> | IsRun(trace, steps) && trace[0] == s
        ensures Unique(trace[|steps|].rows)
      {
        if s.enforced {
          InterleavingsSafe(trace, steps, |steps|);
        } else {
          LooseRun(trace, steps, |steps|);
          LooseUnique(s, trace[|steps|]);
        }
      }
    } else if p, q :| Rivals(s, p, q) {
      var trace, steps := RivalsBreak(s, p, q);
    } else {
      var p, i :| Overtakes(s, p, i);
      var trace, steps := OvertakingBreaks(s, p, i);
    }
  }

  /** With or without the constraints, no receiver returns null. */
  lemma NeverNull(trace: seq<State>, steps: seq<Step>, k: nat, r: nat)
    requires IsRun(trace, steps) && Init(trace[0]) && k < |trace|
    requires r < |trace[k].receivers| && trace[k].receivers[r].at.Done?
    ensures trace[k].receivers[r].at.event.Some?
  {
    if trace[0].enforced {
      InterleavingsSafe(trace, steps, k);
      assert ReceiverSafe(trace[k], r);
    } else {
      LooseRun(trace, steps, k);
      assert LooseReceiver(trace[0], trace[k], r);
    }
  }

  /** Two deliveries of one payload that is not stored yet are rivals. */
  lemma EqualPayloadsRace(s: State, p: nat, q: nat)
    requires Init(s) && p < |s.receivers| && q < |s.receivers| && p != q
    requires s.receivers[p].key == s.receivers[q].key && Unseen(s, s.receivers[p].key)
    ensures Racy(s)
  {
    assert Rivals(s, p, q);
  }
}
