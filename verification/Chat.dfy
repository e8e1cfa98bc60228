/** One-to-one chat and its unread counts (apps/chat/services.py). Opening,
    sending and reading run as atomic steps. */
module Chat {
  import opened Text

  /** `people` is what the participants relation holds. */
  datatype Conversation = Conversation(people: set<nat>)
  datatype Message = Message(conversation: nat, sender: nat, read: bool)

  /** `company` maps each user to a company. */
  datatype State = State(company: map<nat, nat>, conversations: seq<Conversation>, messages: seq<Message>)

  // ---- Counting ----

  predicate Joined(s: State, c: nat, user: nat) {
    c < |s.conversations| && user in s.conversations[c].people
  }

  /** Unread for `user` in conversation `c`. */
  predicate Unread(m: Message, c: nat, user: nat) {
    m.conversation == c && !m.read && m.sender != user
  }

  function UnreadIn(messages: seq<Message>, c: nat, user: nat): nat {
    if messages == [] then 0
    else
      var n := |messages| - 1;
      UnreadIn(messages[..n], c, user) + (if Unread(messages[n], c, user) then 1 else 0)
  }

  /** One query over all messages of the user's conversations. */
  function UnreadTotal(s: State, user: nat): nat {
    TotalOver(s, s.messages, user)
  }

  function TotalOver(s: State, messages: seq<Message>, user: nat): nat {
    if messages == [] then 0
    else
      var n := |messages| - 1;
      var m := messages[n];
      TotalOver(s, messages[..n], user)
        + (if Joined(s, m.conversation, user) && !m.read && m.sender != user then 1 else 0)
  }

  predicate HasMessages(messages: seq<Message>, c: nat) {
    exists i :: 0 <= i < |messages| && messages[i].conversation == c
  }

  datatype Listed = Listed(conversation: nat, unread: nat)

  /** The conversation list: the user's conversations below `k`, but for those
      never used. */
  function ListBelow(s: State, user: nat, k: nat): seq<Listed> {
    if k == 0 then []
    else
      ListBelow(s, user, k - 1) +
      (if Joined(s, k - 1, user) && HasMessages(s.messages, k - 1)
       then [Listed(k - 1, UnreadIn(s.messages, k - 1, user))] else [])
  }

  function ListPayload(s: State, user: nat): seq<Listed> {
    ListBelow(s, user, |s.conversations|)
  }

  function SumUnread(list: seq<Listed>): nat {
    if list == [] then 0 else SumUnread(list[..|list| - 1]) + list[|list| - 1].unread
  }

  // ---- Steps ----

  predicate IsPair(people: set<nat>, a: nat, b: nat) {
    people == {a, b} && a != b
  }

  function FindDirect(conversations: seq<Conversation>, a: nat, b: nat): (c: nat)
    ensures c <= |conversations|
    ensures c < |conversations| ==> a in conversations[c].people && b in conversations[c].people
    ensures forall k :: 0 <= k < c ==> !(a in conversations[k].people && b in conversations[k].people)
  {
    if conversations == [] || (a in conversations[0].people && b in conversations[0].people) then 0
    else 1 + FindDirect(conversations[1..], a, b)
  }

  /** The direct conversation of two users of a company, made if need be. */
  function Open(s: State, company: nat, user: nat, other: nat): (State, Option<nat>) {
    if !(other in s.company && s.company[other] == company) || other == user then (s, None)
    else
      var c := FindDirect(s.conversations, user, other);
      if c < |s.conversations| then (s, Some(c))
      else (s.(conversations := s.conversations + [Conversation({user, other})]), Some(c))
  }

  /** Sending goes through the participant check of `get_conversation`. */
  function Send(s: State, c: nat, sender: nat): State {
    if Joined(s, c, sender) then s.(messages := s.messages + [Message(c, sender, false)]) else s
  }

  function MarkRead(messages: seq<Message>, c: nat, reader: nat): (r: seq<Message>)
    ensures |r| == |messages|
  {
    seq(|messages|, i requires 0 <= i < |messages| =>
      if Unread(messages[i], c, reader) then messages[i].(read := true) else messages[i])
  }

  /** Reading, behind the same check; the count is the rows updated. */
  function Read(s: State, c: nat, reader: nat): (State, nat) {
    if Joined(s, c, reader) then
      (s.(messages := MarkRead(s.messages, c, reader)), UnreadIn(s.messages, c, reader))
    else (s, 0)
  }

  datatype Op = OpenOp(companyId: nat, user: nat, other: nat) | SendOp(c: nat, user: nat) | ReadOp(c: nat, user: nat)

  function Step(s: State, op: Op): State {
    match op
    case OpenOp(company, user, other) => Open(s, company, user, other).0
    case SendOp(c, user) => Send(s, c, user)
    case ReadOp(c, user) => Read(s, c, user).0
  }

  predicate IsRun(trace: seq<State>, ops: seq<Op>) {
    && |trace| == |ops| + 1
    && trace[0].conversations == [] && trace[0].messages == []
    && forall k :: 0 <= k < |ops| ==> trace[k + 1] == Step(trace[k], ops[k])
  }

  // ---- Invariant ----

  ghost predicate Direct(people: set<nat>) {
    exists a, b :: IsPair(people, a, b)
  }

  /** Two participants each, one conversation a pair, senders take part. */
  ghost predicate Safe(s: State) {
    && (forall c :: 0 <= c < |s.conversations| ==> Direct(s.conversations[c].people))
    && (forall c, d :: 0 <= c < d < |s.conversations| ==> s.conversations[c].people != s.conversations[d].people)
    && (forall i :: 0 <= i < |s.messages| ==> Joined(s, s.messages[i].conversation, s.messages[i].sender))
  }

  lemma OpenSafe(s: State, company: nat, user: nat, other: nat)
    requires Safe(s)
    ensures var (t, found) := Open(s, company, user, other);
      && Safe(t)
      && (found.Some? <==> other in s.company && s.company[other] == company && other != user)
      && (found.Some? ==> found.value < |t.conversations| && t.conversations[found.value].people == {user, other})
      && (t == s || (t.messages == s.messages && t.company == s.company
                     && |t.conversations| == |s.conversations| + 1
                     && t.conversations[..|s.conversations|] == s.conversations))
  {
    var (t, found) := Open(s, company, user, other);
    var c := FindDirect(s.conversations, user, other);
    if found.Some? && c < |s.conversations| {
      var a, b :| IsPair(s.conversations[c].people, a, b);
    } else if found.Some? {
      assert IsPair({user, other}, user, other);
      forall d | 0 <= d < |s.conversations|
        ensures s.conversations[d].people != {user, other}
      {
        assert user in {user, other} && other in {user, other};
      }
      forall i | 0 <= i < |t.messages|
        ensures Joined(t, t.messages[i].conversation, t.messages[i].sender)
      {
        assert Joined(s, s.messages[i].conversation, s.messages[i].sender);
      }
    }
  }

  lemma StepSafe(s: State, op: Op)
    requires Safe(s)
    ensures Safe(Step(s, op))
  {
    match op {
      case OpenOp(company, user, other) => OpenSafe(s, company, user, other);
      case SendOp(c, user) =>
        assert forall i :: 0 <= i < |s.messages| ==> Joined(s, s.messages[i].conversation, s.messages[i].sender);
      case ReadOp(c, user) =>
        assert forall i :: 0 <= i < |s.messages| ==> Joined(s, s.messages[i].conversation, s.messages[i].sender);
    }
  }

  /** In every reachable state conversations are pairs, one for each pair. */
  lemma {:induction false} RunSafe(trace: seq<State>, ops: seq<Op>, k: nat)
    requires IsRun(trace, ops) && k < |trace|
    ensures Safe(trace[k])
  {
    if k > 0 {
      RunSafe(trace, ops, k - 1);
      StepSafe(trace[k - 1], ops[k - 1]);
    }
  }

  // ---- The two unread computations ----

  /** The sum over conversations below `k` that the user takes part in. */
  function SumBelow(s: State, messages: seq<Message>, user: nat, k: nat): nat {
    if k == 0 then 0
    else SumBelow(s, messages, user, k - 1) + (if Joined(s, k - 1, user) then UnreadIn(messages, k - 1, user) else 0)
  }

  lemma {:induction false} SumBelowSplit(s: State, messages: seq<Message>, user: nat, k: nat)
    requires messages != []
    ensures var n := |messages| - 1; var m := messages[n];
      SumBelow(s, messages, user, k) == SumBelow(s, messages[..n], user, k)
        + (if m.conversation < k && Joined(s, m.conversation, user) && !m.read && m.sender != user then 1 else 0)
  {
    if k > 0 {
      SumBelowSplit(s, messages, user, k - 1);
    }
  }

  lemma {:induction false} SumBelowNothing(s: State, user: nat, k: nat)
    ensures SumBelow(s, [], user, k) == 0
  {
    if k > 0 {
      SumBelowNothing(s, user, k - 1);
    }
  }

  lemma {:induction false} TotalIsSum(s: State, messages: seq<Message>, user: nat)
    ensures TotalOver(s, messages, user) == SumBelow(s, messages, user, |s.conversations|)
  {
    if messages == [] {
      SumBelowNothing(s, user, |s.conversations|);
    } else {
      TotalIsSum(s, messages[..|messages| - 1], user);
      SumBelowSplit(s, messages, user, |s.conversations|);
    }
  }

  lemma {:induction false} UnusedHasNoUnread(messages: seq<Message>, c: nat, user: nat)
    requires !HasMessages(messages, c)
    ensures UnreadIn(messages, c, user) == 0
  {
    if messages != [] {
      var n := |messages| - 1;
      assert messages[n].conversation != c;
      assert !HasMessages(messages[..n], c);
      UnusedHasNoUnread(messages[..n], c, user);
    }
  }

  lemma {:induction false} ListSum(s: State, user: nat, k: nat)
    ensures SumUnread(ListBelow(s, user, k)) == SumBelow(s, s.messages, user, k)
  {
    if k > 0 {
      ListSum(s, user, k - 1);
      var list := ListBelow(s, user, k);
      if Joined(s, k - 1, user) && HasMessages(s.messages, k - 1) {
        assert list[..|list| - 1] == ListBelow(s, user, k - 1);
      } else {
        assert list == ListBelow(s, user, k - 1);
        if Joined(s, k - 1, user) {
          UnusedHasNoUnread(s.messages, k - 1, user);
        }
      }
    }
  }

  /** The badge equals the sum over the listed conversations, although unused
      ones are hidden from the list. */
  lemma UnreadAgreement(s: State, user: nat)
    ensures UnreadTotal(s, user) == SumUnread(ListPayload(s, user))
  {
    TotalIsSum(s, s.messages, user);
    ListSum(s, user, |s.conversations|);
  }

  // ---- Reading ----

  lemma {:induction false} ListBelowExact(s: State, user: nat, k: nat, e: Listed)
    ensures e in ListBelow(s, user, k) <==>
      && e.conversation < k && Joined(s, e.conversation, user) && HasMessages(s.messages, e.conversation)
      && e.unread == UnreadIn(s.messages, e.conversation, user)
  {
    if k > 0 {
      ListBelowExact(s, user, k - 1, e);
    }
  }

  lemma {:induction false} ListInOrder(s: State, user: nat, k: nat)
    ensures forall i, j :: 0 <= i < j < |ListBelow(s, user, k)| ==>
      ListBelow(s, user, k)[i].conversation < ListBelow(s, user, k)[j].conversation
  {
    if k > 0 {
      ListInOrder(s, user, k - 1);
      var front := ListBelow(s, user, k - 1);
      forall i | 0 <= i < |front|
        ensures front[i].conversation < k - 1
      {
        ListBelowExact(s, user, k - 1, front[i]);
        assert front[i] in front;
      }
    }
  }

  /** Listed, once each, are exactly the user's conversations that hold a
      message, with how many messages of the other in them are unread. */
  lemma ListExact(s: State, user: nat)
    ensures forall e :: e in ListPayload(s, user) <==>
      && e.conversation < |s.conversations| && user in s.conversations[e.conversation].people
      && (exists i :: 0 <= i < |s.messages| && s.messages[i].conversation == e.conversation)
      && e.unread == |UnreadAt(s.messages, e.conversation, user)|
    ensures forall i, j :: 0 <= i < j < |ListPayload(s, user)| ==>
      ListPayload(s, user)[i].conversation != ListPayload(s, user)[j].conversation
  {
    ListInOrder(s, user, |s.conversations|);
    forall e: Listed
      ensures e in ListPayload(s, user) <==>
        && e.conversation < |s.conversations| && Joined(s, e.conversation, user)
        && HasMessages(s.messages, e.conversation) && e.unread == UnreadIn(s.messages, e.conversation, user)
      ensures UnreadIn(s.messages, e.conversation, user)
        == |UnreadAt(s.messages, e.conversation, user)|
    {
      ListBelowExact(s, user, |s.conversations|, e);
      UnreadCounts(s.messages, e.conversation, user);
    }
  }

  function UnreadAt(messages: seq<Message>, c: nat, user: nat): set<nat> {
    set i | 0 <= i < |messages| && Unread(messages[i], c, user)
  }

  lemma {:induction false} UnreadCounts(messages: seq<Message>, c: nat, user: nat)
    ensures UnreadIn(messages, c, user) == |UnreadAt(messages, c, user)|
  {
    if messages != [] {
      var n := |messages| - 1;
      UnreadCounts(messages[..n], c, user);
      assert UnreadAt(messages, c, user)
        == UnreadAt(messages[..n], c, user) + (if Unread(messages[n], c, user) then {n} else {});
    } else {
      assert UnreadAt(messages, c, user) == {};
    }
  }

  lemma {:induction false} ReadingCounts(s: State, messages: seq<Message>, c: nat, reader: nat, user: nat)
    requires Joined(s, c, reader) && Joined(s, c, user)
    requires s.conversations[c].people == {reader, user}
    requires forall i :: 0 <= i < |messages| ==> Joined(s, messages[i].conversation, messages[i].sender)
    ensures TotalOver(s, MarkRead(messages, c, reader), user)
         == TotalOver(s, messages, user) - (if user == reader then UnreadIn(messages, c, reader) else 0)
  {
    if messages != [] {
      var n := |messages| - 1;
      ReadingCounts(s, messages[..n], c, reader, user);
      assert MarkRead(messages, c, reader)[..n] == MarkRead(messages[..n], c, reader);
    }
  }

  lemma {:induction false} ReadingElsewhere(s: State, messages: seq<Message>, c: nat, reader: nat, user: nat)
    requires !Joined(s, c, user)
    ensures TotalOver(s, MarkRead(messages, c, reader), user) == TotalOver(s, messages, user)
  {
    if messages != [] {
      var n := |messages| - 1;
      ReadingElsewhere(s, messages[..n], c, reader, user);
      assert MarkRead(messages, c, reader)[..n] == MarkRead(messages[..n], c, reader);
    }
  }

  lemma {:induction false} OwnReading(s: State, messages: seq<Message>, c: nat, reader: nat)
    requires Joined(s, c, reader)
    ensures TotalOver(s, MarkRead(messages, c, reader), reader)
         == TotalOver(s, messages, reader) - UnreadIn(messages, c, reader)
  {
    if messages != [] {
      var n := |messages| - 1;
      OwnReading(s, messages[..n], c, reader);
      assert MarkRead(messages, c, reader)[..n] == MarkRead(messages[..n], c, reader);
    }
  }

  /** Reading lowers the reader's total by exactly the returned count, and
      leaves everybody else's alone. */
  lemma ReadLowersOnlyReader(s: State, c: nat, reader: nat, user: nat)
    requires Safe(s)
    ensures var (t, marked) := Read(s, c, reader);
      UnreadTotal(t, user) == UnreadTotal(s, user) - (if user == reader then marked else 0)
  {
    var (t, marked) := Read(s, c, reader);
    if Joined(s, c, reader) {
      TotalIgnoresMessages(s, t, t.messages, user);
      if user == reader {
        OwnReading(s, s.messages, c, reader);
      } else if Joined(s, c, user) {
        var a, b :| IsPair(s.conversations[c].people, a, b);
        assert s.conversations[c].people == {reader, user};
        ReadingCounts(s, s.messages, c, reader, user);
      } else {
        ReadingElsewhere(s, s.messages, c, reader, user);
      }
    }
  }

  lemma {:induction false} TotalIgnoresMessages(s: State, t: State, messages: seq<Message>, user: nat)
    requires s.conversations == t.conversations
    ensures TotalOver(t, messages, user) == TotalOver(s, messages, user)
  {
    if messages != [] {
      TotalIgnoresMessages(s, t, messages[..|messages| - 1], user);
    }
  }

  /** After reading, the conversation shows nothing unread to the reader. */
  lemma {:induction false} NothingLeftUnread(messages: seq<Message>, c: nat, reader: nat)
    ensures UnreadIn(MarkRead(messages, c, reader), c, reader) == 0
  {
    if messages != [] {
      var n := |messages| - 1;
      NothingLeftUnread(messages[..n], c, reader);
      assert MarkRead(messages, c, reader)[..n] == MarkRead(messages[..n], c, reader);
    }
  }

  /** Sending raises the other participant's total by one, and nobody else's. */
  lemma SendRaisesOnlyOther(s: State, c: nat, sender: nat, user: nat)
    requires Safe(s)
    ensures UnreadTotal(Send(s, c, sender), user) == UnreadTotal(s, user)
      + (if Joined(s, c, sender) && Joined(s, c, user) && user != sender then 1 else 0)
  {
    var t := Send(s, c, sender);
    if Joined(s, c, sender) {
      assert t.messages[..|t.messages| - 1] == s.messages;
      TotalIgnoresMessages(s, t, s.messages, user);
    }
  }

  // ---- The service ----

  class ChatService {
    var company: map<nat, nat>
    var conversations: seq<Conversation>
    var messages: seq<Message>

    ghost function View(): State
      reads this
    {
      State(company, conversations, messages)
    }

    constructor (company: map<nat, nat>)
      ensures View() == State(company, [], []) && Safe(View())
    {
      this.company, conversations, messages := company, [], [];
    }

    method GetOrCreateDirect(companyId: nat, user: nat, other: nat) returns (found: Option<nat>)
      modifies this`conversations
      ensures (View(), found) == Open(old(View()), companyId, user, other)
    {
      if !(other in company && company[other] == companyId) || other == user {
        return None;
      }
      var c := FindDirect(conversations, user, other);
      if c == |conversations| {
        conversations := conversations + [Conversation({user, other})];
      }
      return Some(c);
    }

    method SendMessage(c: nat, sender: nat) returns (sent: bool)
      modifies this`messages
      ensures View() == Send(old(View()), c, sender) && sent == Joined(old(View()), c, sender)
    {
      if c >= |conversations| || sender !in conversations[c].people {
        return false;
      }
      messages := messages + [Message(c, sender, false)];
      return true;
    }

    /** The bulk update behind `mark_read`, row by row. */
    method MarkConversationRead(c: nat, reader: nat) returns (marked: nat)
      modifies this`messages
      ensures (View(), marked) == Read(old(View()), c, reader)
    {
      marked := 0;
      if c >= |conversations| || reader !in conversations[c].people {
        return;
      }
      var i := 0;
      while i < |messages|
        invariant i <= |messages| == |old(messages)|
        invariant marked == UnreadIn(old(messages)[..i], c, reader)
        invariant forall k :: 0 <= k < i ==> messages[k] == MarkRead(old(messages), c, reader)[k]
        invariant forall k :: i <= k < |messages| ==> messages[k] == old(messages)[k]
      {
        assert old(messages)[..i + 1][..i] == old(messages)[..i];
        if Unread(messages[i], c, reader) {
          messages := messages[i := messages[i].(read := true)];
          marked := marked + 1;
        }
        i := i + 1;
      }
      assert old(messages)[..i] == old(messages);
      assert messages == MarkRead(old(messages), c, reader);
    }
  }
}
