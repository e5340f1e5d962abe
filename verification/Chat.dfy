/** The chat on a listing: who may write to whom, with any number of senders and deletions interleaved. */
module Chat {
  import opened Wrappers

  datatype Message = Message(id: nat, listingId: nat, senderId: nat, receiverId: nat, body: string, createdAt: nat)

  datatype Error = NotFound | ReceiverRequired | SelfMessage | NoConversation | DbError

  /** Where one Send call stands after its lookups. */
  datatype Call =
    | Routing(senderId: nat, listingId: nat, receiverId: nat, body: string, ownerId: nat)
    | Ready(senderId: nat, listingId: nat, receiverId: nat, body: string, ownerId: nat)
    | Finished(result: Result<Message, Error>)

  /** `owners` are the live listings; `everOwned` every listing there ever was, ids being used once. Messages stand
      in the order of their ids. */
  datatype State = State(now: nat, owners: map<nat, nat>, everOwned: map<nat, nat>, messages: seq<Message>,
                         lastId: nat, calls: map<nat, Call>)

  datatype Action =
    | Tick(d: nat)
    | NewListing(id: nat, ownerId: nat)
    | DeleteListing(id: nat)                                       // cascades to the messages
    | Lookup(call: nat, senderId: nat, listingId: nat, receiverId: nat, body: string, ok: bool)
    | Check(call: nat, ok: bool)                                   // HasMessageFrom, for an owner's reply
    | Insert(call: nat, ok: bool)

  function Init(): State { State(0, map[], map[], [], 0, map[]) }

  function HasMessageFrom(messages: seq<Message>, listingId: nat, senderId: nat, receiverId: nat): bool {
    exists i :: 0 <= i < |messages| && messages[i].listingId == listingId
                && messages[i].senderId == senderId && messages[i].receiverId == receiverId
  }

  /** Send up to the point where it queries the conversation: a buyer always writes to the owner. */
  function Route(senderId: nat, listingId: nat, receiverId: nat, body: string, owner: Result<nat, Error>): Call {
    match owner
    case Failure(e) => Finished(Failure(e))
    case Success(o) =>
      if senderId != o then Ready(senderId, listingId, o, body, o)
      else if receiverId == 0 then Finished(Failure(ReceiverRequired))
      else if receiverId == o then Finished(Failure(SelfMessage))
      else Routing(senderId, listingId, receiverId, body, o)
  }

  function OwnerOf(s: State, listingId: nat, ok: bool): Result<nat, Error> {
    if !ok then Failure(DbError) else if listingId in s.owners then Success(s.owners[listingId]) else Failure(NotFound)
  }

  predicate Enabled(s: State, a: Action) {
    match a
    case Tick(_) => true
    case NewListing(id, owner) => id !in s.everOwned && owner > 0
    case DeleteListing(id) => id in s.owners
    case Lookup(c, _, _, _, _, _) => c !in s.calls
    case Check(c, _) => c in s.calls && s.calls[c].Routing?
    case Insert(c, _) => c in s.calls && s.calls[c].Ready?
  }

  function AfterCheck(messages: seq<Message>, c: Call, ok: bool): Call
    requires c.Routing?
  {
    if !ok then Finished(Failure(DbError))
    else if !HasMessageFrom(messages, c.listingId, c.receiverId, c.ownerId) then Finished(Failure(NoConversation))
    else Ready(c.senderId, c.listingId, c.receiverId, c.body, c.ownerId)
  }

  function Row(s: State, c: Call): Message
    requires c.Ready?
  {
    Message(s.lastId + 1, c.listingId, c.senderId, c.receiverId, c.body, s.now)
  }

  function Without(messages: seq<Message>, listingId: nat): (r: seq<Message>)
    ensures forall m :: m in r <==> m in messages && m.listingId != listingId
  {
    if messages == [] then []
    else
      var n := |messages| - 1;
      if messages[n].listingId == listingId then Without(messages[..n], listingId)
      else Without(messages[..n], listingId) + [messages[n]]
  }

  function Next(s: State, a: Action): State
    requires Enabled(s, a)
  {
    match a
    case Tick(d) => s.(now := s.now + d)
    case NewListing(id, owner) => s.(owners := s.owners[id := owner], everOwned := s.everOwned[id := owner])
    case DeleteListing(id) => s.(owners := s.owners - {id}, messages := Without(s.messages, id))
    case Lookup(c, sender, listing, receiver, body, ok) =>
      s.(calls := s.calls[c := Route(sender, listing, receiver, body, OwnerOf(s, listing, ok))])
    case Check(c, ok) => s.(calls := s.calls[c := AfterCheck(s.messages, s.calls[c], ok)])
    case Insert(c, ok) =>
      var r := s.calls[c];
      if !ok || r.listingId !in s.owners then s.(lastId := s.lastId + 1, calls := s.calls[c := Finished(Failure(DbError))])
      else s.(lastId := s.lastId + 1, messages := s.messages + [Row(s, r)], calls := s.calls[c := Finished(Success(Row(s, r)))])
  }

  predicate Reaches(s: State, actions: seq<Action>, t: State)
    decreases |actions|
  {
    if actions == [] then s == t else Enabled(s, actions[0]) && Reaches(Next(s, actions[0]), actions[1..], t)
  }

  // ---- Causality ----

  /** A conversation goes between the listing's owner and somebody else. */
  predicate Between(owner: nat, senderId: nat, receiverId: nat) {
    senderId != receiverId && (senderId == owner || receiverId == owner)
  }

  /** The message at `i` has a live listing and the right two sides; if the owner wrote it, it answers an earlier one. */
  ghost predicate MessageOk(s: State, i: nat)
    requires i < |s.messages|
  {
    var m := s.messages[i];
    && m.listingId in s.owners
    && Between(s.owners[m.listingId], m.senderId, m.receiverId)
    && (m.senderId == s.owners[m.listingId] ==> HasMessageFrom(s.messages[..i], m.listingId, m.receiverId, m.senderId))
  }

  /** A call that passed its lookups stays entitled to insert for as long as the listing lives. */
  ghost predicate CallOk(s: State, c: Call) {
    (c.Routing? || c.Ready?) ==>
      && c.listingId in s.everOwned && s.everOwned[c.listingId] == c.ownerId
      && Between(c.ownerId, c.senderId, c.receiverId)
      && (c.Routing? ==> c.senderId == c.ownerId)
      && (c.Ready? && c.senderId == c.ownerId && c.listingId in s.owners ==>
            HasMessageFrom(s.messages, c.listingId, c.receiverId, c.senderId))
  }

  ghost predicate OwnersOk(s: State) {
    forall id :: id in s.owners ==> id in s.everOwned && s.everOwned[id] == s.owners[id]
  }

  ghost predicate Inv(s: State) {
    && OwnersOk(s)
    && (forall i :: 0 <= i < |s.messages| ==> MessageOk(s, i))
    && (forall c :: c in s.calls ==> CallOk(s, s.calls[c]))
  }

  lemma {:induction false} WithoutKeeps(messages: seq<Message>, gone: nat, listingId: nat, senderId: nat, receiverId: nat)
    requires listingId != gone
    ensures HasMessageFrom(Without(messages, gone), listingId, senderId, receiverId) <==>
            HasMessageFrom(messages, listingId, senderId, receiverId)
  {
    var r := Without(messages, gone);
    if HasMessageFrom(messages, listingId, senderId, receiverId) {
      var i :| 0 <= i < |messages| && messages[i].listingId == listingId
                && messages[i].senderId == senderId && messages[i].receiverId == receiverId;
      assert messages[i] in r;
      var j :| 0 <= j < |r| && r[j] == messages[i];
    }
    if HasMessageFrom(r, listingId, senderId, receiverId) {
      var i :| 0 <= i < |r| && r[i].listingId == listingId && r[i].senderId == senderId && r[i].receiverId == receiverId;
      assert r[i] in messages;
      var j :| 0 <= j < |messages| && messages[j] == r[i];
    }
  }

  /** What stands before row `i` of the remaining messages is what remains of those before some row of the old ones. */
  lemma {:induction false} WithoutPrefix(messages: seq<Message>, gone: nat, i: nat) returns (k: nat)
    requires i < |Without(messages, gone)|
    ensures k < |messages| && messages[k] == Without(messages, gone)[i]
    ensures Without(messages[..k], gone) == Without(messages, gone)[..i]
  {
    var n := |messages| - 1;
    var r := Without(messages[..n], gone);
    if i < |r| {
      k := WithoutPrefix(messages[..n], gone, i);
      assert messages[..n][..k] == messages[..k];
      assert Without(messages, gone)[..i] == r[..i];
    } else {
      k := n;
      assert Without(messages, gone)[..i] == r;
    }
  }

  lemma DeleteKeepsInv(s: State, id: nat)
    requires Inv(s) && id in s.owners
    ensures Inv(Next(s, DeleteListing(id)))
  {
    var t := Next(s, DeleteListing(id));
    forall i | 0 <= i < |t.messages| ensures MessageOk(t, i) {
      var k := WithoutPrefix(s.messages, id, i);
      var m := t.messages[i];
      assert MessageOk(s, k) && m in t.messages;
      WithoutKeeps(s.messages[..k], id, m.listingId, m.receiverId, m.senderId);
    }
    forall c | c in t.calls ensures CallOk(t, t.calls[c]) {
      var r := s.calls[c];
      assert CallOk(s, r);
      if r.Ready? && r.listingId != id { WithoutKeeps(s.messages, id, r.listingId, r.receiverId, r.senderId); }
    }
  }

  lemma MoreMessages(messages: seq<Message>, m: Message, listingId: nat, senderId: nat, receiverId: nat)
    ensures HasMessageFrom(messages, listingId, senderId, receiverId) ==> HasMessageFrom(messages + [m], listingId, senderId, receiverId)
  {
    if HasMessageFrom(messages, listingId, senderId, receiverId) {
      var i :| 0 <= i < |messages| && messages[i].listingId == listingId
                && messages[i].senderId == senderId && messages[i].receiverId == receiverId;
      assert (messages + [m])[i] == messages[i];
    }
  }

  lemma InsertKeepsInv(s: State, c: nat, ok: bool)
    requires Inv(s) && Enabled(s, Insert(c, ok))
    ensures Inv(Next(s, Insert(c, ok)))
  {
    var t := Next(s, Insert(c, ok));
    var r := s.calls[c];
    assert CallOk(s, r);
    forall i | 0 <= i < |t.messages| ensures MessageOk(t, i) {
      if i < |s.messages| {
        assert MessageOk(s, i);
        assert t.messages[..i] == s.messages[..i];
      } else {
        assert t.messages[..i] == s.messages;
      }
    }
    forall d | d in t.calls ensures CallOk(t, t.calls[d]) {
      if d != c {
        var q := s.calls[d];
        assert CallOk(s, q);
        if q.Ready? { MoreMessages(s.messages, Row(s, r), q.listingId, q.receiverId, q.senderId); }
      }
    }
  }

  lemma OtherKeepsInv(s: State, a: Action)
    requires Inv(s) && Enabled(s, a) && !a.DeleteListing? && !a.Insert?
    ensures Inv(Next(s, a))
  {
    var t := Next(s, a);
    forall i | 0 <= i < |t.messages| ensures MessageOk(t, i) { assert MessageOk(s, i); }
    forall c | c in t.calls ensures CallOk(t, t.calls[c]) {
      if c in s.calls { assert CallOk(s, s.calls[c]); }
    }
  }

  lemma {:induction false} RunKeepsInv(s: State, actions: seq<Action>, t: State)
    requires Inv(s) && Reaches(s, actions, t)
    ensures Inv(t)
    decreases |actions|
  {
    if actions != [] {
      var a := actions[0];
      if a.DeleteListing? { DeleteKeepsInv(s, a.id); }
      else if a.Insert? { InsertKeepsInv(s, a.call, a.ok); }
      else { OtherKeepsInv(s, a); }
      RunKeepsInv(Next(s, a), actions[1..], t);
    }
  }

  /** In every reachable state, whatever senders and deletions interleave: a message goes between its listing's owner
      and somebody else, and one that the owner wrote comes after one to the owner from its receiver on the same
      listing; so a call that was allowed to insert may do so however much later. */
  lemma RepliesFollowMessages(actions: seq<Action>, t: State, i: nat)
    requires Reaches(Init(), actions, t) && i < |t.messages|
    ensures var m := t.messages[i];
            && m.listingId in t.owners && m.senderId != m.receiverId
            && ((m.senderId == t.owners[m.listingId]) != (m.receiverId == t.owners[m.listingId]))
            && (m.senderId == t.owners[m.listingId] ==>
                  exists j :: 0 <= j < i && t.messages[j].listingId == m.listingId
                              && t.messages[j].senderId == m.receiverId && t.messages[j].receiverId == m.senderId)
  {
    RunKeepsInv(Init(), actions, t);
    assert MessageOk(t, i);
    var m := t.messages[i];
    if m.senderId == t.owners[m.listingId] {
      var j :| 0 <= j < |t.messages[..i]| && t.messages[..i][j].listingId == m.listingId
               && t.messages[..i][j].senderId == m.receiverId && t.messages[..i][j].receiverId == m.senderId;
      assert t.messages[j] == t.messages[..i][j];
    }
  }
}
