/** Several users opening direct conversations at once (apps/chat/services.py):
    each looks for one and then creates one, and no constraint stands behind. */
module ChatOpening {
  import opened Text

  datatype RowState = Pending | Committed | RolledBack

  /** A conversation between the two of a pair. */
  datatype Row = Row(pair: set<nat>, state: RowState)

  /** A conversation is invisible to others until `Finish`. */
  datatype Point =
    | Start
    | Checked
    | Created(row: nat)
    | Done(row: nat)
    | Raised

  datatype Opener = Opener(pair: set<nat>, at: Point)

  datatype State = State(rows: seq<Row>, openers: seq<Opener>)

  datatype Step =
    | Check(opener: nat, found: Option<nat>)
    | Create(opener: nat)
    | Finish(opener: nat)
    | Abort(opener: nat)

  predicate Visible(s: State, i: nat, pair: set<nat>) {
    i < |s.rows| && s.rows[i] == Row(pair, Committed)
  }

  predicate Unseen(s: State, pair: set<nat>) {
    forall i :: 0 <= i < |s.rows| ==> !Visible(s, i, pair)
  }

  predicate Enabled(s: State, step: Step) {
    step.opener < |s.openers| &&
    var me := s.openers[step.opener];
    match step
    case Check(_, found) =>
      me.at == Start && if found.Some? then Visible(s, found.value, me.pair) else Unseen(s, me.pair)
    case Create(_) => me.at == Checked
    case Finish(_) => me.at.Created? && me.at.row < |s.rows|
    case Abort(_) => !me.at.Done? && (me.at.Created? ==> me.at.row < |s.rows|)
  }

  function Move(s: State, r: nat, at: Point): State
    requires r < |s.openers|
  {
    s.(openers := s.openers[r := s.openers[r].(at := at)])
  }

  function SetState(s: State, i: nat, state: RowState): State
    requires i < |s.rows|
  {
    s.(rows := s.rows[i := s.rows[i].(state := state)])
  }

  function Next(s: State, step: Step): State
    requires Enabled(s, step)
  {
    var me := s.openers[step.opener];
    match step
    case Check(r, found) => Move(s, r, if found.Some? then Done(found.value) else Checked)
    case Create(r) => Move(s.(rows := s.rows + [Row(me.pair, Pending)]), r, Created(|s.rows|))
    case Finish(r) => Move(SetState(s, me.at.row, Committed), r, Done(me.at.row))
    case Abort(r) => Move(if me.at.Created? then SetState(s, me.at.row, RolledBack) else s, r, Raised)
  }

  predicate IsRun(trace: seq<State>, steps: seq<Step>) {
    && |trace| == |steps| + 1
    && forall k :: 0 <= k < |steps| ==> Enabled(trace[k], steps[k]) && trace[k + 1] == Next(trace[k], steps[k])
  }

  /** No pair has two conversations. */
  predicate Unique(rows: seq<Row>) {
    forall i, j :: 0 <= i < j < |rows| && rows[i].state != RolledBack && rows[j].state != RolledBack ==>
      rows[i].pair != rows[j].pair
  }

  /** Any openers, none started yet, over any conversations. */
  predicate Init(s: State) {
    Unique(s.rows) && forall r :: 0 <= r < |s.openers| ==> s.openers[r].at == Start
  }

  /** Two openers want a conversation of the same pair, and there is none. */
  predicate Rivals(s: State, p: nat, q: nat) {
    && p < |s.openers| && q < |s.openers| && p != q
    && s.openers[p].pair == s.openers[q].pair && Unseen(s, s.openers[p].pair)
  }

  /** The opener finds none, but row `i` is about to be one. */
  predicate Overtakes(s: State, p: nat, i: nat) {
    && p < |s.openers| && i < |s.rows|
    && Unseen(s, s.openers[p].pair) && s.rows[i] == Row(s.openers[p].pair, Pending)
  }

  ghost predicate Racy(s: State) {
    (exists p, q :: Rivals(s, p, q)) || (exists p, i :: Overtakes(s, p, i))
  }

  // ---- Without a race ----

  /** Opener `r` created row `i`. */
  predicate Wrote(s: State, r: nat, i: nat)
    requires r < |s.openers| && i < |s.rows|
  {
    && s.openers[r].pair == s.rows[i].pair
    && (|| s.openers[r].at == Created(i)
        || s.openers[r].at == Done(i)
        || (s.openers[r].at == Raised && s.rows[i].state == RolledBack))
  }

  ghost predicate Authored(first: State, s: State, i: nat)
    requires i < |s.rows|
  {
    exists r :: 0 <= r < |s.openers| && Wrote(s, r, i) && Unseen(first, s.openers[r].pair)
  }

  predicate OpenerSafe(first: State, s: State, r: nat)
    requires r < |s.openers|
  {
    match s.openers[r].at
    case Checked => Unseen(first, s.openers[r].pair)
    case Created(i) =>
      && |first.rows| <= i < |s.rows| && s.rows[i] == Row(s.openers[r].pair, Pending)
      && forall q :: 0 <= q < |s.openers| && q != r ==> s.openers[q].at != Created(i)
    case _ => true
  }

  /** What holds of a state reached from `first`. */
  ghost predicate Safe(first: State, s: State) {
    && |s.openers| == |first.openers|
    && (forall r :: 0 <= r < |s.openers| ==> s.openers[r].pair == first.openers[r].pair)
    && |s.rows| >= |first.rows| && s.rows[..|first.rows|] == first.rows
    && (forall r :: 0 <= r < |s.openers| ==> OpenerSafe(first, s, r))
    && (forall i :: |first.rows| <= i < |s.rows| ==> Authored(first, s, i))
  }

  lemma OpenerStaysSafe(first: State, s: State, step: Step, r: nat)
    requires Safe(first, s) && Enabled(s, step) && r < |s.openers|
    ensures OpenerSafe(first, Next(s, step), r)
  {
    var me := s.openers[step.opener];
    assert OpenerSafe(first, s, r) && OpenerSafe(first, s, step.opener);
    if r == step.opener {
      if step.Check? && step.found == None {
        forall i | 0 <= i < |first.rows|
          ensures !Visible(first, i, me.pair)
        {
          assert s.rows[i] == s.rows[..|first.rows|][i];
          assert !Visible(s, i, me.pair);
        }
      }
      if step.Create? {
        forall q | 0 <= q < |s.openers| && q != r
          ensures s.openers[q].at != Created(|s.rows|)
        {
          assert OpenerSafe(first, s, q);
        }
      }
    }
  }

  lemma SafeStays(first: State, s: State, step: Step)
    requires Safe(first, s) && Enabled(s, step)
    ensures Safe(first, Next(s, step))
  {
    var t := Next(s, step);
    assert OpenerSafe(first, s, step.opener);
    assert forall i :: 0 <= i < |first.rows| ==> s.rows[i] == first.rows[i];
    forall r | 0 <= r < |t.openers|
      ensures OpenerSafe(first, t, r)
    {
      OpenerStaysSafe(first, s, step, r);
    }
    forall i | |first.rows| <= i < |t.rows|
      ensures Authored(first, t, i)
    {
      if i < |s.rows| {
        assert Authored(first, s, i);
        var r :| 0 <= r < |s.openers| && Wrote(s, r, i) && Unseen(first, s.openers[r].pair);
        assert Wrote(t, r, i);
      } else {
        assert Wrote(t, step.opener, i);
      }
    }
  }

  lemma {:induction false} RunSafe(trace: seq<State>, steps: seq<Step>, k: nat)
    requires IsRun(trace, steps) && Init(trace[0]) && k < |trace|
    ensures Safe(trace[0], trace[k])
  {
    if k > 0 {
      RunSafe(trace, steps, k - 1);
      SafeStays(trace[0], trace[k - 1], steps[k - 1]);
    }
  }

  lemma SafeUnique(first: State, s: State)
    requires Init(first) && !Racy(first) && Safe(first, s)
    ensures Unique(s.rows)
  {
    var n := |first.rows|;
    assert forall i :: 0 <= i < n ==> s.rows[i] == s.rows[..n][i] == first.rows[i];
    forall i, j | 0 <= i < j < |s.rows| && s.rows[i].state != RolledBack && s.rows[j].state != RolledBack
      ensures s.rows[i].pair != s.rows[j].pair
    {
      if j >= n {
        assert Authored(first, s, j);
        var q :| 0 <= q < |s.openers| && Wrote(s, q, j) && Unseen(first, s.openers[q].pair);
        if i >= n {
          assert Authored(first, s, i);
          var p :| 0 <= p < |s.openers| && Wrote(s, p, i) && Unseen(first, s.openers[p].pair);
          assert !Rivals(first, p, q);
        } else {
          assert !Visible(first, i, first.openers[q].pair) && !Overtakes(first, q, i);
        }
      }
    }
  }

  // ---- With a race ----

  /** A run from `s` that ends with two conversations of one pair. */
  ghost predicate Breaks(s: State, trace: seq<State>, steps: seq<Step>) {
    IsRun(trace, steps) && trace[0] == s && !Unique(trace[|steps|].rows)
  }

  /** Both look, then both create. */
  lemma RivalsBreak(s: State, p: nat, q: nat) returns (trace: seq<State>, steps: seq<Step>)
    requires Init(s) && Rivals(s, p, q)
    ensures Breaks(s, trace, steps)
  {
    var s1 := Next(s, Check(p, None));
    assert forall i :: Visible(s1, i, s.openers[q].pair) <==> Visible(s, i, s.openers[q].pair);
    var s2 := Next(s1, Check(q, None));
    var s3 := Next(s2, Create(p));
    var s4 := Next(s3, Create(q));
    var n := |s.rows|;
    assert s4.rows[n].pair == s.openers[p].pair && s4.rows[n + 1].pair == s.openers[q].pair;
    trace, steps := [s, s1, s2, s3, s4], [Check(p, None), Check(q, None), Create(p), Create(q)];
  }

  lemma OvertakingBreaks(s: State, p: nat, i: nat) returns (trace: seq<State>, steps: seq<Step>)
    requires Init(s) && Overtakes(s, p, i)
    ensures Breaks(s, trace, steps)
  {
    var s1 := Next(s, Check(p, None));
    var s2 := Next(s1, Create(p));
    assert s2.rows[i] == s.rows[i] && s2.rows[|s.rows|].pair == s.openers[p].pair;
    trace, steps := [s, s1, s2], [Check(p, None), Create(p)];
  }

  /** Exactly when every interleaving leaves each pair one conversation: no two
      openers, nor an opener and an uncommitted conversation, race. */
  lemma UniqueIffNoRace(s: State)
    requires Init(s)
    ensures (forall trace: seq<State>, steps: seq<Step> :: !Breaks(s, trace, steps)) <==> !Racy(s)
  {
    if !Racy(s) {
      forall trace: seq<State>, steps: seq<Step> | IsRun(trace, steps) && trace[0] == s
        ensures Unique(trace[|steps|].rows)
      {
        RunSafe(trace, steps, |steps|);
        SafeUnique(s, trace[|steps|]);
      }
    } else if p, q :| Rivals(s, p, q) {
      var trace, steps := RivalsBreak(s, p, q);
    } else {
      var p, i :| Overtakes(s, p, i);
      var trace, steps := OvertakingBreaks(s, p, i);
    }
  }

  /** Two users who open a chat with each other for the first time do race. */
  lemma FirstContactRaces(a: nat, b: nat)
    requires a != b
    ensures var s := State([], [Opener({a, b}, Start), Opener({b, a}, Start)]);
      Init(s) && Racy(s)
  {
    var s := State([], [Opener({a, b}, Start), Opener({b, a}, Start)]);
    assert Rivals(s, 0, 1);
  }
}
