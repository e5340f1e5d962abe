/** auth.Service over the Redis token store, as one call executes it. */
module AuthService {
  import opened Wrappers
  import opened Rotation

  datatype Error = InvalidToken | Unauthorized | StoreError | MintError

  /** What a verified signature reveals; `Forged` fails verification or names another algorithm. */
  datatype Presented =
    | Forged
    | Signed(kind: string, uid: Option<int>, jti: Option<string>, exp: Option<nat>)

  datatype Tokens = Tokens(access: Presented, refresh: Presented)

  const ACCESS_TTL: nat := 15 * 60 * SECOND

  /** parseRefreshToken: signature, mandatory exp, type, user_id and a non-empty jti. */
  function ParseRefresh(t: Presented, now: nat): Result<(int, string), Error> {
    match t
    case Forged => Failure(InvalidToken)
    case Signed(kind, uid, jti, exp) =>
      if exp.None? || now >= exp.value * SECOND then Failure(InvalidToken)
      else if kind != "refresh" then Failure(InvalidToken)
      else if uid.None? then Failure(InvalidToken)
      else if jti.None? || jti.value == "" then Failure(InvalidToken)
      else Success((uid.value, jti.value))
  }

  /** A token is accepted exactly when the service could have issued it as a refresh token and it has not expired. */
  lemma AcceptsExactly(t: Presented, now: nat, uid: int, jti: string)
    ensures ParseRefresh(t, now) == Success((uid, jti)) <==>
            exists exp: nat :: t == Signed("refresh", Some(uid), Some(jti), Some(exp)) && jti != "" && now < exp * SECOND
  {
    if ParseRefresh(t, now) == Success((uid, jti)) {
      assert t == Signed("refresh", Some(uid), Some(jti), Some(t.exp.value));
    }
  }

  function RefreshToken(uid: int, jti: string, now: nat): Presented {
    Signed("refresh", Some(uid), Some(jti), Some(Expiry(now)))
  }

  function AccessToken(uid: int, now: nat): Presented {
    Signed("access", Some(uid), None, Some((now + ACCESS_TTL) / SECOND))
  }

  class TokenStore {
    var records: map<string, Record>

    method Save(jti: string, uid: int, now: nat, reply: Reply) returns (ok: bool)
      modifies this
      ensures records == if reply.Lost? then old(records) else old(records)[jti := Record(uid, now + REFRESH_TTL)]
      ensures ok == reply.Ok?
    {
      if !reply.Lost? { records := records[jti := Record(uid, now + REFRESH_TTL)]; }
      return reply.Ok?;
    }

    /** GETDEL: reads and removes in one step; an expired record is absent. */
    method Consume(jti: string, now: nat, reply: Reply) returns (r: Result<int, Error>)
      modifies this
      ensures records == if reply.Lost? then old(records) else old(records) - {jti}
      ensures r == if !reply.Ok? then Failure(StoreError)
                   else if jti in old(records) && now < old(records)[jti].expires then Success(old(records)[jti].uid)
                   else Failure(InvalidToken)
    {
      if reply.Lost? { return Failure(StoreError); }
      var found := jti in records && now < records[jti].expires;
      var uid := if found then records[jti].uid else 0;
      records := records - {jti};
      if reply.Unheard? { return Failure(StoreError); }
      return if found then Success(uid) else Failure(InvalidToken);
    }

    method Delete(jti: string, reply: Reply) returns (ok: bool)
      modifies this
      ensures records == if reply.Lost? then old(records) else old(records) - {jti}
      ensures ok == reply.Ok?
    {
      if !reply.Lost? { records := records - {jti}; }
      return reply.Ok?;
    }
  }

  /** What one Refresh leaves in the store and answers. */
  function Rotate(records: map<string, Record>, t: Presented, now: nat, jti: Option<string>, consume: Reply, save: Reply)
    : (map<string, Record>, Result<Tokens, Error>)
  {
    match ParseRefresh(t, now)
    case Failure(e) => (records, Failure(e))
    case Success((uid, old_)) =>
      if consume.Lost? then (records, Failure(StoreError)) else
        var left := records - {old_};
        if consume.Unheard? then (left, Failure(StoreError))
        else if old_ !in records || records[old_].expires <= now || records[old_].uid != uid then (left, Failure(InvalidToken))
        else Issue(left, uid, now, jti, save)
  }

  /** generateTokens; no jti when the random source or signing fails. */
  function Issue(records: map<string, Record>, uid: int, now: nat, jti: Option<string>, save: Reply)
    : (map<string, Record>, Result<Tokens, Error>)
  {
    if jti.None? then (records, Failure(MintError))
    else (if save.Lost? then records else records[jti.value := Record(uid, now + REFRESH_TTL)],
          if save.Ok? then Success(Tokens(AccessToken(uid, now), RefreshToken(uid, jti.value, now))) else Failure(StoreError))
  }

  class Service {
    const tokens: TokenStore
    const users: map<string, (int, string)>   // email to id and password

    constructor (tokens: TokenStore, users: map<string, (int, string)>)
      ensures this.tokens == tokens && this.users == users
    {
      this.tokens, this.users := tokens, users;
    }

    method GenerateTokens(uid: int, now: nat, jti: Option<string>, save: Reply) returns (r: Result<Tokens, Error>)
      modifies tokens
      ensures (tokens.records, r) == Issue(old(tokens.records), uid, now, jti, save)
    {
      var access := AccessToken(uid, now);
      if jti.None? { return Failure(MintError); }
      var refresh := RefreshToken(uid, jti.value, now);
      var ok := tokens.Save(jti.value, uid, now, save);
      return if ok then Success(Tokens(access, refresh)) else Failure(StoreError);
    }

    method Login(email: string, password: string, lookupOk: bool, now: nat, jti: Option<string>, save: Reply)
      returns (r: Result<Tokens, Error>)
      modifies tokens
      ensures lookupOk && email in users && users[email].1 == password ==>
                (tokens.records, r) == Issue(old(tokens.records), users[email].0, now, jti, save)
      ensures !(lookupOk && email in users && users[email].1 == password) ==>
                tokens.records == old(tokens.records) && r == Failure(if lookupOk then Unauthorized else StoreError)
    {
      if !lookupOk { return Failure(StoreError); }
      if email !in users { return Failure(Unauthorized); }
      if users[email].1 != password { return Failure(Unauthorized); }
      r := GenerateTokens(users[email].0, now, jti, save);
    }

    method Refresh(t: Presented, now: nat, jti: Option<string>, consume: Reply, save: Reply) returns (r: Result<Tokens, Error>)
      modifies tokens
      ensures (tokens.records, r) == Rotate(old(tokens.records), t, now, jti, consume, save)
    {
      var parsed := ParseRefresh(t, now);
      if parsed.Failure? { return Failure(parsed.error); }
      var (uid, presented) := parsed.value;
      var stored := tokens.Consume(presented, now, consume);
      if stored.Failure? { return Failure(stored.error); }
      if stored.value != uid { return Failure(InvalidToken); }
      r := GenerateTokens(uid, now, jti, save);
    }

    method Logout(t: Presented, now: nat, reply: Reply) returns (r: Result<(), Error>)
      modifies tokens
      ensures var p := ParseRefresh(t, now);
              tokens.records == if p.Failure? || reply.Lost? then old(tokens.records) else old(tokens.records) - {p.value.1}
      ensures var p := ParseRefresh(t, now);
              r == if p.Failure? then Failure(p.error) else if reply.Ok? then Success(()) else Failure(StoreError)
    {
      var parsed := ParseRefresh(t, now);
      if parsed.Failure? { return Failure(parsed.error); }
      var ok := tokens.Delete(parsed.value.1, reply);
      return if ok then Success(()) else Failure(StoreError);
    }
  }

  /** The token that was signed as `j`. */
  function Signature(s: State, j: Jti): Presented
    requires j in s.tokens
  {
    Signed("refresh", Some(s.tokens[j].uid), Some(j), Some(s.tokens[j].exp))
  }

  lemma IssueIsRun(s: State, c: nat, jti: Option<Jti>, save: Reply) returns (actions: seq<Action>, t: State)
    requires c in s.calls && s.calls[c].Granted? && (jti.Some? ==> jti.value !in s.tokens)
    ensures Reaches(s, actions, t)
    ensures var (records, answer) := Issue(s.store, s.calls[c].uid, s.now, jti, save);
            && t.store == records && c in t.calls && (answer.Success? <==> t.calls[c] == Answered)
            && (answer.Success? ==> jti.Some? && jti.value in t.tokens && answer.value.refresh == Signature(t, jti.value))
  {
    if jti.None? {
      actions, t := [], s;
    } else {
      var u := Next(s, Mint(c, jti.value));
      t := Next(u, Save(c, save));
      actions := [Mint(c, jti.value)] + [Save(c, save)];
      assert actions[1..] == [Save(c, save)] && [Save(c, save)][1..] == [];
      assert Reaches(t, [], t) && Reaches(u, [Save(c, save)], t);
    }
  }

  /** The two steps of a Refresh before it issues new tokens. */
  lemma ConsumeIsRun(s: State, c: nat, j: Jti, consume: Reply) returns (u: State, t: State)
    requires c !in s.calls && j in s.tokens && s.now < s.tokens[j].exp * SECOND
    ensures u == Next(s, Parse(c, j)) && Enabled(u, Consume(c, consume)) && t == Next(u, Consume(c, consume))
    ensures c in t.calls && t.now == s.now && t.tokens == s.tokens
    ensures t.store == if consume.Lost? || j !in s.store then s.store else s.store - {j}
    ensures t.calls[c] == if !consume.Ok? || j !in s.store then Refused else Compare(s.tokens[j], j, s.store[j].uid)
  {
    u := Next(s, Parse(c, j));
    t := Next(u, Consume(c, consume));
  }

  lemma RefreshReaches(s: State, c: nat, j: Jti, consume: Reply, more: seq<Action>, t: State)
    requires Enabled(s, Parse(c, j)) && Enabled(Next(s, Parse(c, j)), Consume(c, consume))
    requires Reaches(Next(Next(s, Parse(c, j)), Consume(c, consume)), more, t)
    ensures Reaches(s, [Parse(c, j)] + ([Consume(c, consume)] + more), t)
  {
    var rest := [Consume(c, consume)] + more;
    assert rest[1..] == more && ([Parse(c, j)] + rest)[1..] == rest;
    assert Reaches(Next(s, Parse(c, j)), rest, t);
  }

  lemma LiveRecordsMatch(s: State, j: Jti)
    requires TokensOk(s) && j in s.store
    ensures j in s.tokens && s.store[j].uid == s.tokens[j].uid && s.now < s.store[j].expires
  {
  }

  /** A Login that passes its checks, as protocol steps. */
  lemma LoginIsRun(s: State, c: nat, uid: int, jti: Option<Jti>, save: Reply) returns (actions: seq<Action>, t: State)
    requires c !in s.calls && (jti.Some? ==> jti.value !in s.tokens)
    ensures Reaches(s, actions, t)
    ensures var (records, answer) := Issue(s.store, uid, s.now, jti, save);
            && t.store == records && c in t.calls && (answer.Success? <==> t.calls[c] == Answered)
            && (answer.Success? ==> jti.Some? && jti.value in t.tokens && answer.value.refresh == Signature(t, jti.value))
  {
    var login := Action.Login(c, uid);
    var more;
    more, t := IssueIsRun(Next(s, login), c, jti, save);
    actions := [login] + more;
    assert actions[1..] == more;
  }

  /** A Logout with a token the service signed removes its record and nothing else. */
  lemma LogoutIsRun(s: State, j: Jti, reply: Reply) returns (t: State)
    requires j in s.tokens && j != "" && s.now < s.tokens[j].exp * SECOND
    ensures ParseRefresh(Signature(s, j), s.now) == Success((s.tokens[j].uid, j))
    ensures Reaches(s, [Action.Delete(j, reply)], t)
    ensures t.store == if reply.Lost? then s.store else s.store - {j}
    ensures t.calls == s.calls && t.tokens == s.tokens
  {
    t := Next(s, Action.Delete(j, reply));
    assert Reaches(t, [], t) && [Action.Delete(j, reply)][1..] == [];
    assert j !in s.store ==> s.store - {j} == s.store;
  }

  /** One Refresh of the code, on a token the service signed, is a run of the protocol with the same store; it is
      answered exactly when the code answers. */
  lemma RotateIsRun(s: State, c: nat, j: Jti, jti: Option<Jti>, consume: Reply, save: Reply) returns (actions: seq<Action>, t: State)
    requires TokensOk(s) && c !in s.calls && j in s.tokens && j != "" && (jti.Some? ==> jti.value !in s.tokens)
    ensures Reaches(s, actions, t)
    ensures var (records, answer) := Rotate(s.store, Signature(s, j), s.now, jti, consume, save);
            && t.store == records && (answer.Success? <==> c in t.calls && t.calls[c] == Answered)
            && (answer.Success? ==> jti.Some? && jti.value in t.tokens && answer.value.refresh == Signature(t, jti.value))
  {
    if s.now >= s.tokens[j].exp * SECOND {
      actions, t := [], s;
      assert ParseRefresh(Signature(s, j), s.now).Failure?;
    } else {
      assert ParseRefresh(Signature(s, j), s.now) == Success((s.tokens[j].uid, j));
      var _, v := ConsumeIsRun(s, c, j, consume);
      assert j !in s.store ==> s.store - {j} == s.store;
      if j in s.store { LiveRecordsMatch(s, j); }
      var more := [];
      t := v;
      if v.calls[c].Granted? { more, t := IssueIsRun(v, c, jti, save); }
      RefreshReaches(s, c, j, consume, more, t);
      actions := [Parse(c, j)] + ([Consume(c, consume)] + more);
    }
  }

  // ---- What a client can do with an answer ----

  /** What Login and Refresh hand out: `refresh` is accepted for its user until seven days from now, in whole seconds, and not
      after; `access` carries the user and fifteen minutes, and never passes for a refresh token. */
  lemma AnswerIsUsable(records: map<string, Record>, uid: int, now: nat, jti: Option<string>, save: Reply, later: nat)
    requires jti.Some? ==> jti.value != ""
    ensures var (left, answer) := Issue(records, uid, now, jti, save);
            && (answer.Success? <==> jti.Some? && save.Ok?)
            && (answer.Success? ==>
                  && ParseRefresh(answer.value.refresh, later) ==
                       (if later < (now + 604_800_000_000_000) / 1_000_000_000 * 1_000_000_000 then Success((uid, jti.value))
                        else Failure(InvalidToken))
                  && answer.value.access == Signed("access", Some(uid), None, Some((now + 900_000_000_000) / 1_000_000_000))
                  && ParseRefresh(answer.value.access, later) == Failure(InvalidToken))
  {
  }

  /** A successful answer leaves one more record, for seven days; a failed one leaves at most that record, and no other record
      changes. */
  lemma IssueSaves(records: map<string, Record>, uid: int, now: nat, jti: Option<string>, save: Reply, j: string)
    ensures var (left, answer) := Issue(records, uid, now, jti, save);
            && (answer.Success? ==> jti.value in left && left[jti.value] == Record(uid, now + 604_800_000_000_000))
            && (jti != Some(j) ==> (j in left <==> j in records) && (j in records ==> j in left && left[j] == records[j]))
  {
  }

  /** A Refresh is answered exactly if the token is accepted, its record is read, unexpired and of the same user, and a new pair
      can be made and saved. */
  lemma RefreshExactly(records: map<string, Record>, t: Presented, now: nat, jti: Option<string>, consume: Reply, save: Reply)
    ensures Rotate(records, t, now, jti, consume, save).1.Success? <==>
            && ParseRefresh(t, now).Success? && consume.Ok? && jti.Some? && save.Ok?
            && var (uid, presented) := ParseRefresh(t, now).value;
               presented in records && now < records[presented].expires && records[presented].uid == uid
  {
  }

  /** A Refresh uses its token up: unless the token is refused or the store not reached, its record is gone, whatever else fails
      and also if it belonged to another user; and no record but this one and the new one changes. */
  lemma RefreshUsesUp(records: map<string, Record>, t: Presented, now: nat, jti: Option<string>, consume: Reply, save: Reply, j: string)
    ensures var left := Rotate(records, t, now, jti, consume, save).0;
            var p := ParseRefresh(t, now);
            && (p.Failure? || consume.Lost? ==> left == records)
            && (p.Success? && !consume.Lost? && jti != Some(p.value.1) ==> p.value.1 !in left)
            && (jti != Some(j) && (p.Success? ==> p.value.1 != j) ==>
                  (j in left <==> j in records) && (j in records ==> j in left && left[j] == records[j]))
  {
  }

  /** A session: the refresh token of any answer, whose record nobody touched, can be refreshed until it expires; the answer is a
      new pair for the same user, the old token is of no more use and the new one is. */
  lemma SessionGoesOn(records: map<string, Record>, uid: int, now: nat, jti: string, later: nat, jti': string)
    requires jti != "" && jti' != "" && jti != jti'
    requires now <= later < (now + 604_800_000_000_000) / 1_000_000_000 * 1_000_000_000
    ensures var (left, answer) := Issue(records, uid, now, Some(jti), Ok);
            && answer.Success?
            && var (left', answer') := Rotate(left, answer.value.refresh, later, Some(jti'), Ok, Ok);
               && answer'.Success? && jti !in left' && jti' in left' && left'[jti'].uid == uid
               && ParseRefresh(answer'.value.refresh, later) == Success((uid, jti'))
               && Rotate(left', answer.value.refresh, later, Some(jti'), Ok, Ok).1 == Failure(InvalidToken)
  {
    var (left, answer) := Issue(records, uid, now, Some(jti), Ok);
    AnswerIsUsable(records, uid, now, Some(jti), Ok, later);
    IssueSaves(records, uid, now, Some(jti), Ok, jti);
    var left0 := left - {jti};
    AnswerIsUsable(left0, uid, later, Some(jti'), Ok, later);
    IssueSaves(left0, uid, later, Some(jti'), Ok, jti');
  }
}
