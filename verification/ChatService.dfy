/** Sending and reading messages as one call executes it, and the pages a participant reads. */
module ChatService {
  import opened Wrappers
  import opened Paging
  import opened Chat

  // ---- Reading ----

  predicate Concerns(m: Message, listingId: nat, userId: nat) {
    m.listingId == listingId && (m.senderId == userId || m.receiverId == userId)
  }

  function Select(messages: seq<Message>, listingId: nat, userId: nat): (r: seq<Message>)
    ensures forall m :: m in r <==> m in messages && Concerns(m, listingId, userId)
  {
    if messages == [] then []
    else if Concerns(messages[0], listingId, userId) then [messages[0]] + Select(messages[1..], listingId, userId)
    else Select(messages[1..], listingId, userId)
  }

  /** ORDER BY created_at, id. */
  predicate NotAfter(a: Message, b: Message) {
    a.createdAt < b.createdAt || (a.createdAt == b.createdAt && a.id <= b.id)
  }

  ghost predicate InOrder(s: seq<Message>) {
    forall i, j :: 0 <= i < j < |s| ==> NotAfter(s[i], s[j])
  }

  function Insert(m: Message, s: seq<Message>): (r: seq<Message>)
    requires InOrder(s)
    ensures InOrder(r) && multiset(r) == multiset(s) + multiset{m}
  {
    if s == [] then [m]
    else if NotAfter(m, s[0]) then
      InOrderCons(m, s);
      assert multiset([m] + s) == multiset{m} + multiset(s);
      [m] + s
    else
      var r := Insert(m, s[1..]);
      assert s == [s[0]] + s[1..];
      InsertedElements(m, s[1..], r);
      InOrderCons(s[0], r);
      [s[0]] + r
  }

  lemma InOrderCons(m: Message, s: seq<Message>)
    requires InOrder(s) && forall x :: x in s ==> NotAfter(m, x)
    ensures InOrder([m] + s)
  {
    var r := [m] + s;
    forall i, j | 0 <= i < j < |r| ensures NotAfter(r[i], r[j]) {
      assert r[j] == s[j - 1] && s[j - 1] in s;
      assert i > 0 ==> r[i] == s[i - 1];
    }
  }

  lemma InsertedElements(m: Message, s: seq<Message>, r: seq<Message>)
    requires multiset(r) == multiset(s) + multiset{m}
    ensures forall x :: x in r ==> x in s || x == m
  {
    forall x | x in r ensures x in s || x == m { assert x in multiset(r); }
  }

  function Sort(s: seq<Message>): (r: seq<Message>)
    ensures InOrder(r) && multiset(r) == multiset(s)
  {
    if s == [] then [] else
      assert s == [s[0]] + s[1..];
      Insert(s[0], Sort(s[1..]))
  }

  /** Everything a user reads of a listing's chat, in order. */
  function Conversation(messages: seq<Message>, listingId: nat, userId: nat): seq<Message> {
    Sort(Select(messages, listingId, userId))
  }

  /** The first `n` pages, one after another. */
  function Pages(rows: seq<Message>, limit: nat, n: nat): seq<Message> {
    if n == 0 then [] else Pages(rows, limit, n - 1) + Page(rows, limit, (n - 1) * limit)
  }

  lemma PageExtendsPrefix(rows: seq<Message>, from: nat, limit: nat)
    ensures (if from >= |rows| then rows else rows[..from]) + Page(rows, limit, from)
         == if from + limit >= |rows| then rows else rows[..from + limit]
  {
  }

  lemma NextOffset(limit: nat, n: nat)
    requires n > 0
    ensures n * limit == (n - 1) * limit + limit && (n - 1) * limit >= 0
  {
  }

  lemma {:induction false} PagesArePrefix(rows: seq<Message>, limit: nat, n: nat)
    ensures Pages(rows, limit, n) == if n * limit >= |rows| then rows else rows[..n * limit]
  {
    if n > 0 {
      PagesArePrefix(rows, limit, n - 1);
      NextOffset(limit, n);
      PageExtendsPrefix(rows, (n - 1) * limit, limit);
    }
  }

  /** Reading page after page until they cover the conversation gives each of the user's messages on the listing
      exactly once, in (created_at, id) order, and nothing else. */
  lemma PagingIsExact(messages: seq<Message>, listingId: nat, userId: nat, limit: nat, n: nat)
    requires limit >= 1 && n * limit >= |Conversation(messages, listingId, userId)|
    ensures var read := Pages(Conversation(messages, listingId, userId), limit, n);
            InOrder(read) && multiset(read) == multiset(Select(messages, listingId, userId))
  {
    PagesArePrefix(Conversation(messages, listingId, userId), limit, n);
  }

  /** A table whose ids differ gives a conversation whose messages differ. */
  lemma {:induction false} ReadOnce(messages: seq<Message>, listingId: nat, userId: nat, m: Message)
    requires forall i, j :: 0 <= i < j < |messages| ==> messages[i].id != messages[j].id
    ensures multiset(Conversation(messages, listingId, userId))[m] == if m in messages && Concerns(m, listingId, userId) then 1 else 0
  {
    SelectOnce(messages, listingId, userId, m);
  }

  lemma {:induction false} SelectOnce(messages: seq<Message>, listingId: nat, userId: nat, m: Message)
    requires forall i, j :: 0 <= i < j < |messages| ==> messages[i].id != messages[j].id
    ensures multiset(Select(messages, listingId, userId))[m] == if m in messages && Concerns(m, listingId, userId) then 1 else 0
  {
    if messages != [] {
      var rest := messages[1..];
      SelectOnce(rest, listingId, userId, m);
      assert messages == [messages[0]] + rest;
      assert messages[0] !in rest;
    }
  }

  /** A message is read by its two participants, on its listing, and by nobody else. */
  lemma OnlyParticipantsRead(messages: seq<Message>, m: Message, listingId: nat, userId: nat)
    requires m in messages
    ensures m in Conversation(messages, listingId, userId) <==> listingId == m.listingId && (userId == m.senderId || userId == m.receiverId)
  {
    var r := Conversation(messages, listingId, userId);
    assert m in r <==> m in multiset(r);
    assert m in Select(messages, listingId, userId) <==> m in multiset(Select(messages, listingId, userId));
  }

  // ---- Sending ----

  class MessageRecord {
    var id: nat
    const listingId: nat
    const senderId: nat
    const receiverId: nat
    const body: string
    var createdAt: nat

    constructor (listingId: nat, senderId: nat, receiverId: nat, body: string)
      ensures this.listingId == listingId && this.senderId == senderId && this.receiverId == receiverId && this.body == body
    {
      this.listingId, this.senderId, this.receiverId, this.body := listingId, senderId, receiverId, body;
      id, createdAt := 0, 0;
    }

    function Row(): Message
      reads this
    {
      Message(id, listingId, senderId, receiverId, body, createdAt)
    }
  }

  /** Which of the three statements of Send succeed. */
  datatype Faults = Faults(lookupOk: bool, checkOk: bool, insertOk: bool)

  /** What one Send leaves in the table and answers. */
  function SendOne(s: State, senderId: nat, listingId: nat, receiverId: nat, body: string, f: Faults)
    : (seq<Message>, nat, Result<Message, Error>)
  {
    var routed := Route(senderId, listingId, receiverId, body, OwnerOf(s, listingId, f.lookupOk));
    var c := if routed.Routing? then AfterCheck(s.messages, routed, f.checkOk) else routed;
    if c.Finished? then (s.messages, s.lastId, c.result)
    else if !f.insertOk then (s.messages, s.lastId + 1, Failure(DbError))
    else (s.messages + [Chat.Row(s, c)], s.lastId + 1, Success(Chat.Row(s, c)))
  }

  class Repo {
    var now: nat
    var owners: map<nat, nat>
    var messages: seq<Message>
    var lastId: nat

    function View(): State
      reads this
    {
      State(now, owners, owners, messages, lastId, map[])
    }

    method ListingOwner(listingId: nat, ok: bool) returns (r: Result<nat, Error>)
      ensures r == OwnerOf(View(), listingId, ok)
    {
      if !ok { return Failure(DbError); }
      return if listingId in owners then Success(owners[listingId]) else Failure(NotFound);
    }

    method HasMessageFrom(listingId: nat, senderId: nat, receiverId: nat) returns (found: bool)
      ensures found == Chat.HasMessageFrom(messages, listingId, senderId, receiverId)
    {
      return Chat.HasMessageFrom(messages, listingId, senderId, receiverId);
    }

    /** The INSERT fills the record's id and creation time. */
    method Send(m: MessageRecord, ok: bool) returns (done: bool)
      modifies this`messages, this`lastId, m
      ensures lastId == old(lastId) + 1 && done == (ok && m.listingId in owners)
      ensures done ==> m.id == lastId && m.createdAt == now && messages == old(messages) + [m.Row()]
      ensures !done ==> messages == old(messages)
    {
      lastId := lastId + 1;
      if !ok || m.listingId !in owners { return false; }
      m.id, m.createdAt := lastId, now;
      messages := messages + [m.Row()];
      return true;
    }

    /** GetForUser: the query, then the loop over its rows. */
    method GetForUser(listingId: nat, userId: nat, limit: nat, offset: nat, fails: Option<nat>) returns (r: Result<seq<Message>, Error>)
      ensures var page := Page(Conversation(messages, listingId, userId), limit, offset);
              r == if fails.Some? && fails.value <= |page| then Failure(DbError) else Success(page)
    {
      r := ReadRows(Page(Conversation(messages, listingId, userId), limit, offset), fails);
    }

    /** `fails` is the row at which reading fails, if it does, and one past the last row when the failure shows only at
        the end. */
    method ReadRows(rows: seq<Message>, fails: Option<nat>) returns (r: Result<seq<Message>, Error>)
      ensures r == if fails.Some? && fails.value <= |rows| then Failure(DbError) else Success(rows)
    {
      var msgs := [];
      var i := 0;
      while i < |rows|
        invariant 0 <= i <= |rows| && msgs == rows[..i] && (fails.Some? ==> i <= fails.value)
      {
        if fails == Some(i) { return Failure(DbError); }
        msgs := msgs + [rows[i]];
        i := i + 1;
      }
      assert rows[..i] == rows;
      return if fails == Some(i) then Failure(DbError) else Success(msgs);
    }
  }

  class Service {
    const repo: Repo

    constructor (repo: Repo)
      ensures this.repo == repo
    {
      this.repo := repo;
    }

    method Send(senderId: nat, listingId: nat, receiverId: nat, body: string, f: Faults) returns (r: Result<Message, Error>)
      modifies repo`messages, repo`lastId
      ensures (repo.messages, repo.lastId, r) == SendOne(old(repo.View()), senderId, listingId, receiverId, body, f)
    {
      var owner := repo.ListingOwner(listingId, f.lookupOk);
      if owner.Failure? { return Failure(owner.error); }
      var ownerId := owner.value;
      var receiver := receiverId;
      if senderId != ownerId {
        receiver := ownerId;
      } else {
        if receiver == 0 { return Failure(ReceiverRequired); }
        if receiver == ownerId { return Failure(SelfMessage); }
        if !f.checkOk { return Failure(DbError); }
        var ok := repo.HasMessageFrom(listingId, receiver, ownerId);
        if !ok { return Failure(NoConversation); }
      }
      var m := new MessageRecord(listingId, senderId, receiver, body);
      var done := repo.Send(m, f.insertOk);
      return if done then Success(m.Row()) else Failure(DbError);
    }
  }

  /** One call of the code is a run of the protocol with the same table and the same answer. */
  lemma SendIsRun(s: State, c: nat, senderId: nat, listingId: nat, receiverId: nat, body: string, f: Faults)
    returns (actions: seq<Action>, t: State)
    requires c !in s.calls
    ensures Reaches(s, actions, t) && c in t.calls
    ensures var (messages, lastId, r) := SendOne(s, senderId, listingId, receiverId, body, f);
            t.messages == messages && t.lastId == lastId && t.calls[c] == Finished(r)
  {
    var lookup := Lookup(c, senderId, listingId, receiverId, body, f.lookupOk);
    var check, insert := Check(c, f.checkOk), Action.Insert(c, f.insertOk);
    var t1 := Next(s, lookup);
    var t2 := if t1.calls[c].Routing? then Next(t1, check) else t1;
    t := if t2.calls[c].Ready? then Next(t2, insert) else t2;
    var last := if t2.calls[c].Ready? then [insert] else [];
    assert Reaches(t, [], t) && [insert][1..] == [];
    assert Reaches(t2, last, t);
    var rest := if t1.calls[c].Routing? then [check] + last else last;
    assert ([check] + last)[1..] == last;
    assert Reaches(t1, rest, t);
    actions := [lookup] + rest;
    assert actions[1..] == rest;
  }

  // ---- Who is heard ----

  /** The owner of the listing may answer this user: a message from them to the owner is there. */
  ghost predicate MayAnswer(s: State, listingId: nat, ownerId: nat, userId: nat) {
    exists i :: 0 <= i < |s.messages| && s.messages[i].listingId == listingId
                && s.messages[i].senderId == userId && s.messages[i].receiverId == ownerId
  }

  /** A Send succeeds exactly if the listing exists, no statement it makes fails, and the sender is not the owner, or is and answers
      somebody else who wrote first. A buyer is never refused otherwise, whatever receiver they name. */
  lemma SendSucceedsExactly(s: State, senderId: nat, listingId: nat, receiverId: nat, body: string, f: Faults)
    ensures SendOne(s, senderId, listingId, receiverId, body, f).2.Success? <==>
            && f.lookupOk && f.insertOk && listingId in s.owners
            && (senderId == s.owners[listingId] ==>
                  receiverId != 0 && receiverId != senderId && f.checkOk && MayAnswer(s, listingId, senderId, receiverId))
  {
  }

  /** What is sent arrives: the message is stored last under a new id, with its listing, sender and body, now, addressed to the owner
      if the sender is not the owner and to the named receiver otherwise; nothing else changes. A Send that fails stores nothing. */
  lemma SendStores(s: State, senderId: nat, listingId: nat, receiverId: nat, body: string, f: Faults)
    ensures var (messages, lastId, r) := SendOne(s, senderId, listingId, receiverId, body, f);
            && (r.Failure? ==> messages == s.messages)
            && (r.Success? ==>
                  && listingId in s.owners && messages == s.messages + [r.value] && r.value.id == lastId == s.lastId + 1
                  && r.value.listingId == listingId && r.value.senderId == senderId && r.value.body == body && r.value.createdAt == s.now
                  && r.value.receiverId == if senderId == s.owners[listingId] then receiverId else s.owners[listingId])
  {
  }

  /** Each refusal has its reason. */
  lemma SendRefusals(s: State, senderId: nat, listingId: nat, receiverId: nat, body: string, f: Faults)
    ensures var r := SendOne(s, senderId, listingId, receiverId, body, f).2;
            var owner := listingId in s.owners && senderId == s.owners[listingId];
            && (r == Failure(NotFound) <==> f.lookupOk && listingId !in s.owners)
            && (r == Failure(ReceiverRequired) <==> f.lookupOk && owner && receiverId == 0)
            && (r == Failure(SelfMessage) <==> f.lookupOk && owner && receiverId == senderId && receiverId != 0)
            && (r == Failure(NoConversation) <==>
                  f.lookupOk && f.checkOk && owner && receiverId != 0 && receiverId != senderId
                  && !MayAnswer(s, listingId, senderId, receiverId))
  {
  }

  /** Both sides read what was sent, and the owner may answer a buyer from then on. */
  lemma SentIsRead(s: State, senderId: nat, listingId: nat, receiverId: nat, body: string, f: Faults)
    requires SendOne(s, senderId, listingId, receiverId, body, f).2.Success?
    ensures var (messages, lastId, r) := SendOne(s, senderId, listingId, receiverId, body, f);
            && r.value in Conversation(messages, listingId, senderId) && r.value in Conversation(messages, listingId, r.value.receiverId)
            && (listingId in s.owners && senderId != s.owners[listingId] ==>
                  MayAnswer(s.(messages := messages, lastId := lastId), listingId, s.owners[listingId], senderId))
  {
    var (messages, lastId, r) := SendOne(s, senderId, listingId, receiverId, body, f);
    SendStores(s, senderId, listingId, receiverId, body, f);
    assert messages[|s.messages|] == r.value;
    OnlyParticipantsRead(messages, r.value, listingId, senderId);
    OnlyParticipantsRead(messages, r.value, listingId, r.value.receiverId);
  }
}
