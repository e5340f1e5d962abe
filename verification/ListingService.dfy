/** listing.Service over the Redis cache and the repository, as one call executes it. */
module ListingService {
  import opened Wrappers
  import opened CacheKey
  import opened ListCache

  class RedisCache {
    var version: nat                  // listings:ver; an absent key reads as zero
    var entries: map<string, Entry>

    method Get(key: string, now: nat, fault: bool) returns (r: Option<Page>)
      ensures r == if !fault && key in entries && now < entries[key].expires then Some(entries[key].page) else None
    {
      if fault || key !in entries || now >= entries[key].expires { return None; }
      return Some(entries[key].page);
    }

    method Set(key: string, page: Page, now: nat, ttl: nat, fault: bool)
      modifies this`entries
      ensures entries == if fault then old(entries) else old(entries)[key := Entry(page, now, now + ttl)]
    {
      if !fault { entries := entries[key := Entry(page, now, now + ttl)]; }
    }

    method Version(fault: bool) returns (v: nat)
      ensures v == if fault then 0 else version
    {
      return if fault then 0 else version;
    }

    method Invalidate(lost: bool)
      modifies this`version
      ensures version == if lost then old(version) else old(version) + 1
    {
      if !lost { version := version + 1; }
    }
  }

  /** Unheard: the commit is applied, the caller gets an error. */
  datatype Outcome = Done | Failed | Unheard

  class Repo {
    var commits: seq<nat>             // the times of the commits so far

    method List(f: Filter, now: nat, ok: bool) returns (r: Result<Page, string>)
      ensures r == if ok then Success(Page(f, |commits|, now)) else Failure("list listings")
    {
      return if ok then Success(Page(f, |commits|, now)) else Failure("list listings");
    }

    /** The transaction of Create or the statement of Update or Delete. */
    method Commit(now: nat, outcome: Outcome) returns (done: bool)
      modifies this
      ensures done == outcome.Done? && commits == if outcome.Failed? then old(commits) else old(commits) + [now]
    {
      if !outcome.Failed? { commits := commits + [now]; }
      return outcome.Done?;
    }
  }

  /** When the three calls of List that look at the clock happen, and which of its calls fail. */
  datatype Env = Env(getAt: nat, queryAt: nat, setAt: nat, versionFault: bool, getFault: bool, queryOk: bool, setFault: bool)

  /** What one List call leaves in the cache and answers. */
  function Serve(version: nat, entries: map<string, Entry>, commits: nat, f: Filter, e: Env): (map<string, Entry>, Result<Page, string>) {
    var key := Format(if e.versionFault then 0 else version, f);
    if !e.getFault && key in entries && e.getAt < entries[key].expires then (entries, Success(entries[key].page))
    else if !e.queryOk then (entries, Failure("list listings"))
    else
      var page := Page(f, commits, e.queryAt);
      (if e.setFault then entries else entries[key := Entry(page, e.setAt, e.setAt + LIST_TTL)], Success(page))
  }

  class Service {
    const repo: Repo
    const cache: RedisCache

    constructor (repo: Repo, cache: RedisCache)
      ensures this.repo == repo && this.cache == cache
    {
      this.repo, this.cache := repo, cache;
    }

    method List(f: Filter, env: Env) returns (r: Result<Page, string>)
      modifies cache`entries
      ensures (cache.entries, r) == Serve(cache.version, old(cache.entries), |repo.commits|, f, env)
    {
      var version := cache.Version(env.versionFault);
      var cacheKey := Format(version, f);
      var cached := cache.Get(cacheKey, env.getAt, env.getFault);
      if cached.Some? { return Success(cached.value); }
      r := repo.List(f, env.queryAt, env.queryOk);
      if r.Failure? { return; }
      cache.Set(cacheKey, r.value, env.setAt, LIST_TTL, env.setFault);
    }

    /** Create, Update and Delete: a commit first, then the invalidation; a reported error invalidates nothing. */
    method Write(now: nat, outcome: Outcome, lost: bool) returns (done: bool)
      modifies repo, cache`version
      ensures done == outcome.Done?
      ensures repo.commits == if outcome.Failed? then old(repo.commits) else old(repo.commits) + [now]
      ensures cache.version == if outcome.Done? && !lost then old(cache.version) + 1 else old(cache.version)
    {
      done := repo.Commit(now, outcome);
      if !done { return; }
      cache.Invalidate(lost);
    }
  }

  /** One Write is a run of the protocol too: acknowledged exactly when the code answers, and a commit whose answer
      was lost is one that never invalidates. */
  lemma WriteIsRun(s: State, w: nat, outcome: Outcome, lost: bool) returns (actions: seq<Action>, t: State)
    requires w !in s.writers
    ensures Reaches(s, actions, t) && t.readers == s.readers && t.writers == s.writers
    ensures t.store.commits == if outcome.Failed? then s.store.commits else s.store.commits + [s.store.now]
    ensures t.store.version == if outcome.Done? && !lost then s.store.version + 1 else s.store.version
    ensures t.store.acked == if outcome.Done? then s.store.acked + {|s.store.commits| + 1} else s.store.acked
    ensures t.store.entries == s.store.entries
  {
    actions, t := [], s;
    if outcome.Unheard? {
      ReachesMore(s, [], s, OtherCommit);
      actions, t := [] + [OtherCommit], Next(s, OtherCommit);
    } else if outcome.Done? {
      ReachesMore(s, [], s, Action.Write(w));
      var s1 := Next(s, Action.Write(w));
      ReachesMore(s, [] + [Action.Write(w)], s1, Action.Invalidate(w, lost));
      actions, t := [] + [Action.Write(w)] + [Action.Invalidate(w, lost)], Next(s1, Action.Invalidate(w, lost));
    }
  }

  /** One call of the code is a run of the protocol with the same answer and the same cache: what holds of every
      interleaving holds of the code. */
  lemma ServeIsRun(s: State, r: nat, f: Filter, e: Env) returns (actions: seq<Action>, t: State)
    requires r !in s.readers && e.getAt == s.store.now && e.getAt <= e.queryAt <= e.setAt
    ensures Reaches(s, actions, t) && r in t.readers
    ensures var (entries, answer) := Serve(s.store.version, s.store.entries, |s.store.commits|, f, e);
            && t.store.entries == entries && t.store.version == s.store.version && t.store.commits == s.store.commits
            && t.readers[r].q == NewRequest(s.store, f)
            && (answer.Success? ==> (t.readers[r].Hit? || t.readers[r].Answered?) && t.readers[r].page == answer.value)
            && (answer.Failure? ==> t.readers[r].Refused?)
            && (answer.Success? && !e.versionFault && !e.getFault && !e.setFault ==>
                  var key := Format(s.store.version, f);
                  key in t.store.entries && t.store.entries[key].page == answer.value && e.getAt < t.store.entries[key].expires)
  {
    actions, t := LookupSteps(s, r, f, e);
    if t.readers[r].Missed? { actions, t := QuerySteps(s, actions, t, r, e); }
  }

  lemma LookupSteps(s: State, r: nat, f: Filter, e: Env) returns (actions: seq<Action>, t: State)
    requires r !in s.readers
    ensures Reaches(s, actions, t) && t.store == s.store
    ensures var keyed := Keyed(NewRequest(s.store, f), if e.versionFault then 0 else s.store.version, !e.versionFault);
            t.readers == s.readers[r := AfterGet(s.store, keyed, e.getFault)]
  {
    var keyed := Keyed(NewRequest(s.store, f), if e.versionFault then 0 else s.store.version, !e.versionFault);
    var s1 := s.(readers := s.readers[r := Started(NewRequest(s.store, f))]);
    var s2 := s.(readers := s.readers[r := keyed]);
    ReachesMore(s, [], s, Start(r, f));
    assert Next(s1, ReadVersion(r, e.versionFault)) == s2;
    ReachesMore(s, [] + [Start(r, f)], s1, ReadVersion(r, e.versionFault));
    actions := [] + [Start(r, f)] + [ReadVersion(r, e.versionFault)];
    ReachesMore(s, actions, s2, Get(r, e.getFault));
    actions, t := actions + [Get(r, e.getFault)], Next(s2, Get(r, e.getFault));
    assert t.readers == s.readers[r := AfterGet(s.store, keyed, e.getFault)];
  }

  lemma QuerySteps(s: State, before: seq<Action>, s3: State, r: nat, e: Env) returns (actions: seq<Action>, t: State)
    requires Reaches(s, before, s3) && r in s3.readers && s3.readers[r].Missed?
    requires e.getAt == s3.store.now && e.getAt <= e.queryAt <= e.setAt
    ensures Reaches(s, actions, t)
    ensures var c := s3.readers[r];
            var page := Page(c.q.filter, |s3.store.commits|, e.queryAt);
            && t.readers == s3.readers[r := if e.queryOk then Answered(c.q, page) else Refused(c.q)]
            && t.store.version == s3.store.version && t.store.commits == s3.store.commits
            && t.store.entries == if !e.queryOk || e.setFault then s3.store.entries
                                  else s3.store.entries[Format(c.version, c.q.filter) := Entry(page, e.setAt, e.setAt + LIST_TTL)]
  {
    var tick := Tick(e.queryAt - e.getAt);
    ReachesMore(s, before, s3, tick);
    var s4 := Next(s3, tick);
    actions := before + [tick];
    ReachesMore(s, actions, s4, Query(r, e.queryOk));
    var s5 := Next(s4, Query(r, e.queryOk));
    actions, t := actions + [Query(r, e.queryOk)], s5;
    if e.queryOk {
      var tock := Tick(e.setAt - e.queryAt);
      ReachesMore(s, actions, s5, tock);
      var s6 := Next(s5, tock);
      actions := actions + [tock];
      ReachesMore(s, actions, s6, Set(r, e.setFault));
      actions, t := actions + [Set(r, e.setFault)], Next(s6, Set(r, e.setFault));
    }
  }

  // ---- What the cache is good for ----

  /** No step of the call that reaches Redis fails. */
  predicate RedisFine(e: Env) { !e.versionFault && !e.getFault && !e.setFault }

  /** The entry, if any, that a call with this environment would find. */
  function Found(version: nat, entries: map<string, Entry>, f: Filter, e: Env): Option<Page> {
    var key := Format(if e.versionFault then 0 else version, f);
    if !e.getFault && key in entries && e.getAt < entries[key].expires then Some(entries[key].page) else None
  }

  /** Redis never costs an answer: whatever its faults, a List answers with what it found, or with what the database says now;
      it fails only if it found nothing and the database fails. */
  lemma ListAnswers(version: nat, entries: map<string, Entry>, commits: nat, f: Filter, e: Env)
    ensures var (_, answer) := Serve(version, entries, commits, f, e);
            answer == match Found(version, entries, f, e)
                      case Some(page) => Success(page)
                      case None => if e.queryOk then Success(Page(f, commits, e.queryAt)) else Failure("list listings")
  {
  }

  /** A List touches no entry but the one under its own key, and that one only after a miss. */
  lemma ListTouchesOwnKey(version: nat, entries: map<string, Entry>, commits: nat, f: Filter, e: Env, key: string)
    ensures var (left, _) := Serve(version, entries, commits, f, e);
            key != Format(if e.versionFault then 0 else version, f) || Found(version, entries, f, e).Some? || e.setFault || !e.queryOk ==>
              (key in left <==> key in entries) && (key in left && key in entries ==> left[key] == entries[key])
  {
  }

  /** A List that missed without faults leaves its page for exactly five minutes: a later List of the same filter, if the version
      has not moved and its own version read and Get do not fail, answers that very page and leaves the cache as it is, whatever
      was committed meanwhile and whether or not the database still answers. */
  lemma SecondListHits(version: nat, entries: map<string, Entry>, commits: nat, commits': nat, f: Filter, e: Env, e': Env)
    requires RedisFine(e) && e.queryOk && Found(version, entries, f, e).None?
    requires !e'.versionFault && !e'.getFault
    ensures var (left, answer) := Serve(version, entries, commits, f, e);
            && answer == Success(Page(f, commits, e.queryAt))
            && (e'.getAt < e.setAt + 300 ==> Serve(version, left, commits', f, e') == (left, answer))
            && (e'.getAt >= e.setAt + 300 && e'.queryOk ==>
                  Serve(version, left, commits', f, e').1 == Success(Page(f, commits', e'.queryAt)))
  {
  }

  /** After a write that moved the version, a List whose version read succeeds reads the database again, unless somebody already
      filled the cache under the new version. */
  lemma ListAfterWriteReadsAnew(version: nat, entries: map<string, Entry>, commits: nat, f: Filter, e: Env)
    requires !e.versionFault && e.queryOk && Format(version + 1, f) !in entries
    ensures Serve(version + 1, entries, commits, f, e).1 == Success(Page(f, commits, e.queryAt))
  {
  }
}
