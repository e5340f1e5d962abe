/** The versioned cache of feed pages under every interleaving of readers and writers, with Redis faults.
    A page stands for what the feed query returned: which filter it was run for, on which database snapshot and when. */
module ListCache {
  import opened Wrappers
  import opened CacheKey

  /** Five minutes, in seconds. */
  const LIST_TTL: nat := 300

  /** The result of repo.List(filter), run at `readAt` when the first `snap` commits were visible. */
  datatype Page = Page(filter: Filter, snap: nat, readAt: nat)

  datatype Entry = Entry(page: Page, setAt: nat, expires: nat)

  /** What the calls share. `commits` holds the time of every database commit, `version` is the Redis counter
      listings:ver, `moved[j]` the commit whose Invalidate moved it to j + 1, `lost` the commits whose Invalidate failed,
      `acked` the commits of the listing writes whose callers have their answer. */
  datatype Store = Store(now: nat, commits: seq<nat>, version: nat, entries: map<string, Entry>,
                         moved: seq<nat>, lost: set<nat>, acked: set<nat>)

  /** A List call as it starts: its filter, the writes acknowledged by then, and how many INCRs had taken effect. */
  datatype Request = Request(filter: Filter, must: set<nat>, applied: nat)

  /** Where one List call stands. `sound` says that its own version read succeeded. */
  datatype Reader =
    | Started(q: Request)
    | Keyed(q: Request, version: nat, sound: bool)
    | Missed(q: Request, version: nat, sound: bool)
    | Loaded(q: Request, version: nat, sound: bool, page: Page)
    | Hit(q: Request, sound: bool, page: Page, at: nat, setAt: nat)
    | Answered(q: Request, page: Page)
    | Refused(q: Request)

  datatype State = State(store: Store, readers: map<nat, Reader>, writers: map<nat, nat>)

  datatype Action =
    | Tick(d: nat)
    | OtherCommit                       // a boost: it changes the feed and does not invalidate
    | Write(w: nat)                     // Create, Update or Delete commits
    | Invalidate(w: nat, lost: bool)    // INCR listings:ver, after which the call returns
    | Start(r: nat, filter: Filter)
    | ReadVersion(r: nat, fault: bool)  // zero on error
    | Get(r: nat, fault: bool)          // an error or an undecodable entry is a miss
    | Query(r: nat, ok: bool)
    | Set(r: nat, fault: bool)
    | Evict(key: string)

  function Init(): State {
    State(Store(0, [], 0, map[], [], {}, {}), map[], map[])
  }

  function Cached(s: Store, key: string): Option<Entry> {
    if key in s.entries && s.now < s.entries[key].expires then Some(s.entries[key]) else None
  }

  function Put(s: Store, key: string, page: Page): Store {
    s.(entries := s.entries[key := Entry(page, s.now, s.now + LIST_TTL)])
  }

  function Commit(s: Store): Store {
    s.(commits := s.commits + [s.now])
  }

  function Bump(s: Store, commit: nat, lost: bool): Store {
    if lost then s.(lost := s.lost + {commit}, acked := s.acked + {commit})
    else s.(version := s.version + 1, moved := s.moved + [commit], acked := s.acked + {commit})
  }

  function NewRequest(s: Store, f: Filter): Request {
    Request(f, s.acked, |s.moved|)
  }

  function CurrentPage(s: Store, f: Filter): Page {
    Page(f, |s.commits|, s.now)
  }

  predicate Enabled(s: State, a: Action) {
    match a
    case Tick(_) => true
    case OtherCommit => true
    case Write(w) => w !in s.writers
    case Invalidate(w, _) => w in s.writers
    case Start(r, _) => r !in s.readers
    case ReadVersion(r, _) => r in s.readers && s.readers[r].Started?
    case Get(r, _) => r in s.readers && s.readers[r].Keyed?
    case Query(r, _) => r in s.readers && s.readers[r].Missed?
    case Set(r, _) => r in s.readers && s.readers[r].Loaded?
    case Evict(_) => true
  }

  function AfterGet(s: Store, c: Reader, fault: bool): Reader
    requires c.Keyed?
  {
    match if fault then None else Cached(s, Format(c.version, c.q.filter))
    case None => Missed(c.q, c.version, c.sound)
    case Some(e) => Hit(c.q, c.sound, e.page, s.now, e.setAt)
  }

  function Next(s: State, a: Action): State
    requires Enabled(s, a)
  {
    match a
    case Tick(d) => s.(store := s.store.(now := s.store.now + d))
    case OtherCommit => s.(store := Commit(s.store))
    case Write(w) => s.(store := Commit(s.store), writers := s.writers[w := |s.store.commits| + 1])
    case Invalidate(w, lost) => s.(store := Bump(s.store, s.writers[w], lost), writers := s.writers - {w})
    case Start(r, f) => s.(readers := s.readers[r := Started(NewRequest(s.store, f))])
    case ReadVersion(r, fault) =>
      s.(readers := s.readers[r := Keyed(s.readers[r].q, if fault then 0 else s.store.version, !fault)])
    case Get(r, fault) => s.(readers := s.readers[r := AfterGet(s.store, s.readers[r], fault)])
    case Query(r, ok) =>
      var c := s.readers[r];
      s.(readers := s.readers[r := if ok then Loaded(c.q, c.version, c.sound, CurrentPage(s.store, c.q.filter))
                                   else Refused(c.q)])
    case Set(r, fault) =>
      var c := s.readers[r];
      s.(store := if fault then s.store else Put(s.store, Format(c.version, c.q.filter), c.page),
         readers := s.readers[r := Answered(c.q, c.page)])
    case Evict(key) => s.(store := s.store.(entries := s.store.entries - {key}))
  }

  predicate Reaches(s: State, actions: seq<Action>, t: State)
    decreases |actions|
  {
    if actions == [] then s == t else Enabled(s, actions[0]) && Reaches(Next(s, actions[0]), actions[1..], t)
  }

  lemma {:induction false} ReachesMore(s: State, actions: seq<Action>, t: State, a: Action)
    requires Reaches(s, actions, t) && Enabled(t, a)
    ensures Reaches(s, actions + [a], Next(t, a))
    decreases |actions|
  {
    if actions == [] {
      assert (actions + [a])[1..] == [];
    } else {
      ReachesMore(Next(s, actions[0]), actions[1..], t, a);
      assert (actions + [a])[1..] == actions[1..] + [a];
    }
  }

  // ---- Freshness ----

  /** A page read from snapshot `snap` shows every write whose invalidation moved the version to `v` or less. */
  ghost predicate Shows(snap: nat, moved: seq<nat>, v: nat) {
    v <= |moved| && forall j :: 0 <= j < v ==> moved[j] <= snap
  }

  ghost predicate StoreFresh(s: Store) {
    && s.version == |s.moved|
    && (forall j :: 0 <= j < |s.moved| ==> s.moved[j] <= |s.commits|)
    && (forall i :: i in s.acked ==> i <= |s.commits| && (i in s.moved || i in s.lost))
  }

  /** Every entry stands under the key of a version whose writes it shows. */
  ghost predicate EntryFresh(s: Store, key: string)
    requires key in s.entries
  {
    exists v :: Shows(s.entries[key].page.snap, s.moved, v) && key == Format(v, s.entries[key].page.filter)
  }

  ghost predicate ReaderFresh(s: Store, c: Reader) {
    && c.q.applied <= |s.moved|
    && (forall i :: i in c.q.must ==> i <= |s.commits| && (i in s.moved[..c.q.applied] || i in s.lost))
    && (c.Keyed? || c.Missed? || c.Loaded? ==> c.version <= |s.moved| && (c.sound ==> c.q.applied <= c.version))
    && (c.Loaded? ==> c.page.filter == c.q.filter && Shows(c.page.snap, s.moved, c.version))
    && (c.Loaded? || c.Answered? ==> Shows(c.page.snap, s.moved, c.q.applied) && forall i :: i in c.q.must ==> i <= c.page.snap)
    && (c.Hit? && c.sound ==> Shows(c.page.snap, s.moved, c.q.applied))
  }

  ghost predicate FreshInv(s: State) {
    && StoreFresh(s.store)
    && (forall key :: key in s.store.entries ==> EntryFresh(s.store, key))
    && (forall r :: r in s.readers ==> ReaderFresh(s.store, s.readers[r]))
    && (forall w :: w in s.writers ==> s.writers[w] <= |s.store.commits|)
  }

  /** The store only gains commits and invalidations from `s` to `t`; the entries stay. */
  ghost predicate Extends(s: Store, t: Store) {
    s.moved <= t.moved && s.lost <= t.lost && |s.commits| <= |t.commits| && t.entries == s.entries
  }

  lemma ReaderStaysFresh(s: Store, t: Store, c: Reader)
    requires s.moved <= t.moved && s.lost <= t.lost && |s.commits| <= |t.commits| && ReaderFresh(s, c)
    ensures ReaderFresh(t, c)
  {
    assert s.moved[..c.q.applied] == t.moved[..c.q.applied];
  }

  lemma EntryStaysFresh(s: Store, t: Store, key: string)
    requires s.moved <= t.moved && key in s.entries && key in t.entries && t.entries[key] == s.entries[key] && EntryFresh(s, key)
    ensures EntryFresh(t, key)
  {
    var p := s.entries[key].page;
    var v :| Shows(p.snap, s.moved, v) && key == Format(v, p.filter);
    assert Shows(p.snap, t.moved, v);
  }

  lemma GetFresh(s: Store, c: Reader, fault: bool)
    requires c.Keyed? && ReaderFresh(s, c)
    requires forall key :: key in s.entries ==> EntryFresh(s, key)
    ensures ReaderFresh(s, AfterGet(s, c, fault))
  {
    var key := Format(c.version, c.q.filter);
    if !fault && Cached(s, key).Some? {
      var p := s.entries[key].page;
      assert EntryFresh(s, key);
      var v :| Shows(p.snap, s.moved, v) && key == Format(v, p.filter);
      KeyHasVersion(v, p.filter, c.version, c.q.filter);
    }
  }

  lemma WriterStepFresh(s: State, a: Action)
    requires FreshInv(s) && Enabled(s, a) && (a.Tick? || a.OtherCommit? || a.Write? || a.Invalidate?)
    ensures FreshInv(Next(s, a))
  {
    var t := Next(s, a);
    assert Extends(s.store, t.store);
    forall key | key in t.store.entries ensures EntryFresh(t.store, key) { EntryStaysFresh(s.store, t.store, key); }
    forall r | r in t.readers ensures ReaderFresh(t.store, t.readers[r]) { ReaderStaysFresh(s.store, t.store, t.readers[r]); }
  }

  lemma ReaderStepFresh(s: State, a: Action)
    requires FreshInv(s) && Enabled(s, a) && (a.Start? || a.ReadVersion? || a.Get? || a.Query?)
    ensures FreshInv(Next(s, a))
  {
    assert a.Start? || ReaderFresh(s.store, s.readers[a.r]);
    if a.Start? { assert s.store.moved[..|s.store.moved|] == s.store.moved; }
    if a.Get? { GetFresh(s.store, s.readers[a.r], a.fault); }
    assert ReaderFresh(s.store, Next(s, a).readers[a.r]);
  }

  lemma SetStepFresh(s: State, a: Action)
    requires FreshInv(s) && Enabled(s, a) && a.Set?
    ensures FreshInv(Next(s, a))
  {
    var t := Next(s, a);
    var c := s.readers[a.r];
    assert ReaderFresh(s.store, c);
    forall key | key in t.store.entries ensures EntryFresh(t.store, key) {
      if !a.fault && key == Format(c.version, c.q.filter) {
        SetEntryFresh(s.store, c);
      } else {
        EntryStaysFresh(s.store, t.store, key);
      }
    }
    forall r | r in t.readers ensures ReaderFresh(t.store, t.readers[r]) {
      if r != a.r { ReaderStaysFresh(s.store, t.store, s.readers[r]); }
    }
  }

  lemma SetEntryFresh(s: Store, c: Reader)
    requires c.Loaded? && Shows(c.page.snap, s.moved, c.version) && c.page.filter == c.q.filter
    ensures var key := Format(c.version, c.q.filter); EntryFresh(Put(s, key, c.page), key)
  {
    var key := Format(c.version, c.q.filter);
    var t := Put(s, key, c.page);
    assert t.entries[key].page == c.page;
    assert Shows(t.entries[key].page.snap, t.moved, c.version) && key == Format(c.version, t.entries[key].page.filter);
  }

  lemma EvictStepFresh(s: State, a: Action)
    requires FreshInv(s) && Enabled(s, a) && a.Evict?
    ensures FreshInv(Next(s, a))
  {
    var t := Next(s, a);
    forall key | key in t.store.entries ensures EntryFresh(t.store, key) { EntryStaysFresh(s.store, t.store, key); }
    forall r | r in t.readers ensures ReaderFresh(t.store, t.readers[r]) { ReaderStaysFresh(s.store, t.store, t.readers[r]); }
  }

  /** Whatever fails: an entry under version v shows every write whose invalidation moved the version to v or less. */
  lemma {:induction false} RunFresh(s: State, actions: seq<Action>, t: State)
    requires FreshInv(s) && Reaches(s, actions, t)
    ensures FreshInv(t)
    decreases |actions|
  {
    if actions != [] {
      var a := actions[0];
      if a.Set? { SetStepFresh(s, a); }
      else if a.Evict? { EvictStepFresh(s, a); }
      else if a.Start? || a.ReadVersion? || a.Get? || a.Query? { ReaderStepFresh(s, a); }
      else { WriterStepFresh(s, a); }
      RunFresh(Next(s, a), actions[1..], t);
    }
  }

  /** A fault costs no more than the call or the write it hits. In any run, with any filters, whatever other version reads
      and invalidations failed: an answer from the database shows every write acknowledged before the List started; an
      answer from the cache, if this List's own version read succeeded, shows every write whose INCR took effect before
      it started, hence every acknowledged one whose own INCR was not lost. */
  lemma FaultsStayLocal(actions: seq<Action>, t: State, r: nat)
    requires Reaches(Init(), actions, t) && r in t.readers && (t.readers[r].Answered? || (t.readers[r].Hit? && t.readers[r].sound))
    ensures var c := t.readers[r];
            && (c.Answered? ==> forall i :: i in c.q.must ==> i <= c.page.snap)
            && (forall i :: i in c.q.must && i !in t.store.lost ==> i <= c.page.snap)
            && c.q.applied <= |t.store.moved| && forall j :: 0 <= j < c.q.applied ==> t.store.moved[j] <= c.page.snap
  {
    RunFresh(Init(), actions, t);
    var c := t.readers[r];
    assert ReaderFresh(t.store, c);
    forall i | i in c.q.must && i !in t.store.lost ensures i <= c.page.snap {
      assert i in t.store.moved[..c.q.applied];
    }
  }

  /** So without such faults, however reads and writes interleave, a List that starts after a Create, Update or Delete has
      returned shows that write, from the cache or not. */
  lemma Freshness(actions: seq<Action>, t: State, r: nat)
    requires Reaches(Init(), actions, t) && r in t.readers && (t.readers[r].Hit? || t.readers[r].Answered?)
    requires t.readers[r].Hit? ==> t.readers[r].sound && t.readers[r].q.must !! t.store.lost
    ensures forall i :: i in t.readers[r].q.must ==> i <= t.readers[r].page.snap
  {
    FaultsStayLocal(actions, t, r);
  }

  /** The call's answer misses a write that was acknowledged before it started. */
  ghost predicate Misses(c: Reader) {
    c.Hit? && exists i :: i in c.q.must && c.page.snap < i
  }

  /** The converse, at any Get in any interleaving: it answers without some write acknowledged before the call exactly when
      an unexpired entry from before such a write stands under the version the call uses; and if the call's version read
      succeeded, that write is one whose INCR was lost. */
  lemma MissesExactly(actions: seq<Action>, s: State, r: nat)
    requires Reaches(Init(), actions, s) && r in s.readers && s.readers[r].Keyed?
    ensures var c := s.readers[r];
            var e := Cached(s.store, Format(c.version, c.q.filter));
            && (Misses(Next(s, Get(r, false)).readers[r]) <==> e.Some? && exists i :: i in c.q.must && e.value.page.snap < i)
            && (c.sound && e.Some? ==> forall i :: i in c.q.must && e.value.page.snap < i ==> i in s.store.lost)
  {
    ReachesMore(Init(), actions, s, Get(r, false));
    var t := Next(s, Get(r, false));
    assert t.store == s.store;
    if s.readers[r].sound && t.readers[r].Hit? { FaultsStayLocal(actions + [Get(r, false)], t, r); }
  }

  /** In particular from every reachable state and for every filter, for a List that starts there. */
  lemma StaleExactly(actions: seq<Action>, s: State, r: nat, f: Filter, fault: bool) returns (t: State)
    requires Reaches(Init(), actions, s) && r !in s.readers
    ensures Reaches(Init(), actions + [Start(r, f)] + [ReadVersion(r, fault)] + [Get(r, false)], t) && r in t.readers
    ensures var e := Cached(s.store, Format(if fault then 0 else s.store.version, f));
            && (Misses(t.readers[r]) <==> e.Some? && exists i :: i in s.store.acked && e.value.page.snap < i)
            && (!fault && e.Some? ==> forall i :: i in s.store.acked && e.value.page.snap < i ==> i in s.store.lost)
  {
    ReachesMore(Init(), actions, s, Start(r, f));
    var s1 := Next(s, Start(r, f));
    ReachesMore(Init(), actions + [Start(r, f)], s1, ReadVersion(r, fault));
    var s2 := Next(s1, ReadVersion(r, fault));
    ReachesMore(Init(), actions + [Start(r, f)] + [ReadVersion(r, fault)], s2, Get(r, false));
    t := Next(s2, Get(r, false));
    assert s2.store == s.store && s2.readers[r] == Keyed(NewRequest(s.store, f), if fault then 0 else s.store.version, !fault);
    MissesExactly(actions + [Start(r, f)] + [ReadVersion(r, fault)], s2, r);
  }
}
