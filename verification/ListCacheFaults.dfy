/** What the cache of feed pages still guarantees when Redis fails, and what it does not. */
module ListCacheFaults {
  import opened CacheKey
  import opened ListCache

  // ---- Bounded staleness, whatever fails ----

  /** The page was read in the past and shows every commit made before it was read. */
  ghost predicate PageDated(s: Store, p: Page) {
    && p.readAt <= s.now && p.snap <= |s.commits|
    && forall i :: 0 <= i < |s.commits| && s.commits[i] < p.readAt ==> i < p.snap
  }

  ghost predicate EntryDated(s: Store, e: Entry) {
    PageDated(s, e.page) && e.page.readAt <= e.setAt <= s.now && e.expires == e.setAt + LIST_TTL
  }

  ghost predicate ReaderDated(s: Store, c: Reader) {
    && (c.Loaded? ==> PageDated(s, c.page))
    && (c.Hit? ==> PageDated(s, c.page) && c.page.readAt <= c.setAt && c.at < c.setAt + LIST_TTL)
  }

  ghost predicate DatedInv(s: State) {
    && (forall i :: 0 <= i < |s.store.commits| ==> s.store.commits[i] <= s.store.now)
    && (forall key :: key in s.store.entries ==> EntryDated(s.store, s.store.entries[key]))
    && (forall r :: r in s.readers ==> ReaderDated(s.store, s.readers[r]))
  }

  lemma PagesStayDated(s: Store, t: Store)
    requires s.commits == t.commits || t.commits == s.commits + [s.now]
    requires s.now <= t.now
    ensures forall p :: PageDated(s, p) ==> PageDated(t, p)
  {
  }

  lemma StepDated(s: State, a: Action)
    requires DatedInv(s) && Enabled(s, a)
    ensures DatedInv(Next(s, a))
  {
    var t := Next(s, a);
    PagesStayDated(s.store, t.store);
    if a.Query? { assert PageDated(s.store, CurrentPage(s.store, s.readers[a.r].q.filter)); }
    forall r | r in t.readers ensures ReaderDated(t.store, t.readers[r]) {
      if r in s.readers { assert ReaderDated(s.store, s.readers[r]); }
    }
  }

  lemma {:induction false} RunDated(s: State, actions: seq<Action>, t: State)
    requires DatedInv(s) && Reaches(s, actions, t)
    ensures DatedInv(t)
    decreases |actions|
  {
    if actions != [] {
      StepDated(s, actions[0]);
      RunDated(Next(s, actions[0]), actions[1..], t);
    }
  }

  /** Under any Redis faults, lost invalidations, boosts and clock steps: a page served from the cache at `at`
      was read less than five minutes plus its filling call's read-to-Set delay before, and shows every commit
      older than that. */
  lemma BoundedStaleness(actions: seq<Action>, t: State, r: nat)
    requires Reaches(Init(), actions, t) && r in t.readers && t.readers[r].Hit?
    ensures var c := t.readers[r];
            var delay := c.setAt - c.page.readAt;
            && 0 <= delay && c.at < c.page.readAt + 300 + delay
            && forall i :: 0 <= i < |t.store.commits| && t.store.commits[i] + 300 + delay <= c.at ==> i < c.page.snap
  {
    RunDated(Init(), actions, t);
    assert ReaderDated(t.store, t.readers[r]);
  }

  // ---- A page always answers the filter it was asked for ----

  /** Every List of the run asks for one of these filters. */
  predicate AsksFor(filters: set<Filter>, a: Action) {
    a.Start? ==> a.filter in filters
  }

  ghost predicate AllToldApart(filters: set<Filter>) {
    forall f, g :: f in filters && g in filters ==> ToldApart(f, g)
  }

  ghost predicate OwnKey(filters: set<Filter>, key: string, p: Page) {
    p.filter in filters && exists v :: key == Format(v, p.filter)
  }

  ghost predicate OwnPages(filters: set<Filter>, s: State) {
    && (forall key :: key in s.store.entries ==> OwnKey(filters, key, s.store.entries[key].page))
    && (forall r :: r in s.readers ==> s.readers[r].q.filter in filters)
    && (forall r :: r in s.readers && (s.readers[r].Loaded? || s.readers[r].Hit? || s.readers[r].Answered?) ==>
          s.readers[r].page.filter == s.readers[r].q.filter)
  }

  lemma GetOwnPage(filters: set<Filter>, s: Store, c: Reader, fault: bool)
    requires c.Keyed? && c.q.filter in filters && AllToldApart(filters)
    requires forall key :: key in s.entries ==> OwnKey(filters, key, s.entries[key].page)
    ensures var d := AfterGet(s, c, fault); d.q.filter == c.q.filter && (d.Hit? ==> d.page.filter == d.q.filter)
  {
    var key := Format(c.version, c.q.filter);
    if key in s.entries {
      var g := s.entries[key].page.filter;
      assert OwnKey(filters, key, s.entries[key].page);
      var v :| key == Format(v, g);
      assert ToldApart(g, c.q.filter);
      KeysIdentify(v, g, c.version, c.q.filter);
    }
  }

  lemma StepOwnPages(filters: set<Filter>, s: State, a: Action)
    requires OwnPages(filters, s) && Enabled(s, a) && AsksFor(filters, a) && AllToldApart(filters)
    ensures OwnPages(filters, Next(s, a))
  {
    if a.Get? { GetOwnPage(filters, s.store, s.readers[a.r], a.fault); }
    if a.Set? {
      var c := s.readers[a.r];
      assert OwnKey(filters, Format(c.version, c.q.filter), c.page);
    }
  }

  lemma {:induction false} RunOwnPages(filters: set<Filter>, s: State, actions: seq<Action>, t: State)
    requires OwnPages(filters, s) && Reaches(s, actions, t) && AllToldApart(filters)
    requires forall i :: 0 <= i < |actions| ==> AsksFor(filters, actions[i])
    ensures OwnPages(filters, t)
    decreases |actions|
  {
    if actions != [] {
      StepOwnPages(filters, s, actions[0]);
      RunOwnPages(filters, Next(s, actions[0]), actions[1..], t);
    }
  }

  /** Whatever fails, List never answers with another filter's page, as long as keys tell the filters of the run apart. */
  lemma NeverAnotherFiltersPage(filters: set<Filter>, actions: seq<Action>, t: State, r: nat)
    requires Reaches(Init(), actions, t) && r in t.readers && (t.readers[r].Hit? || t.readers[r].Answered?)
    requires AllToldApart(filters) && forall i :: 0 <= i < |actions| ==> AsksFor(filters, actions[i])
    ensures t.readers[r].page.filter == t.readers[r].q.filter
  {
    RunOwnPages(filters, Init(), actions, t);
  }

  // ---- Freshness does need the version ----

  /** A first List fills the cache under version 0, a write follows, a second List starts after the write returned. */
  function StaleRun(f: Filter, lost: bool, fault: bool): seq<Action> {
    ([Start(1, f), ReadVersion(1, false), Get(1, false)] + [Query(1, true), Set(1, false)])
    + ([Write(1), Invalidate(1, lost)] + [Start(2, f), ReadVersion(2, fault), Get(2, false)])
  }

  lemma Filled(f: Filter) returns (t: State)
    ensures Reaches(Init(), [Start(1, f), ReadVersion(1, false), Get(1, false)] + [Query(1, true), Set(1, false)], t)
    ensures t.store == Store(0, [], 0, map[Format(0, f) := Entry(Page(f, 0, 0), 0, LIST_TTL)], [], {}, {})
    ensures t.readers.Keys == {1} && t.writers == map[]
  {
    var s0 := Init();
    var q := Request(f, {}, 0);
    var s1 := s0.(readers := map[1 := Started(q)]);
    var s2 := s0.(readers := map[1 := Keyed(q, 0, true)]);
    var s3 := s0.(readers := map[1 := Missed(q, 0, true)]);
    var s4 := s0.(readers := map[1 := Loaded(q, 0, true, Page(f, 0, 0))]);
    assert Next(s0, Start(1, f)) == s1 && Next(s1, ReadVersion(1, false)) == s2;
    assert Next(s2, Get(1, false)) == s3 && Next(s3, Query(1, true)) == s4;
    ReachesMore(s0, [], s0, Start(1, f));
    ReachesMore(s0, [] + [Start(1, f)], s1, ReadVersion(1, false));
    var two := [] + [Start(1, f)] + [ReadVersion(1, false)];
    ReachesMore(s0, two, s2, Get(1, false));
    var three := [Start(1, f), ReadVersion(1, false), Get(1, false)];
    assert two + [Get(1, false)] == three;
    ReachesMore(s0, three, s3, Query(1, true));
    ReachesMore(s0, three + [Query(1, true)], s4, Set(1, false));
    assert three + [Query(1, true)] + [Set(1, false)] == three + [Query(1, true), Set(1, false)];
    t := Next(s4, Set(1, false));
  }

  lemma Stale(s: State, f: Filter, lost: bool) returns (t: State)
    requires s.store == Store(0, [], 0, map[Format(0, f) := Entry(Page(f, 0, 0), 0, LIST_TTL)], [], {}, {})
    requires s.readers.Keys == {1} && s.writers == map[]
    ensures Reaches(s, [Write(1), Invalidate(1, lost)] + [Start(2, f), ReadVersion(2, !lost), Get(2, false)], t)
    ensures 2 in t.readers && t.readers[2].Hit? && 1 in t.readers[2].q.must && t.readers[2].page.snap == 0
  {
    ReachesMore(s, [], s, Write(1));
    var s1 := Next(s, Write(1));
    ReachesMore(s, [] + [Write(1)], s1, Invalidate(1, lost));
    var s2 := Next(s1, Invalidate(1, lost));
    var written := [Write(1), Invalidate(1, lost)];
    assert [] + [Write(1)] + [Invalidate(1, lost)] == written;
    ReachesMore(s, written, s2, Start(2, f));
    var s3 := Next(s2, Start(2, f));
    ReachesMore(s, written + [Start(2, f)], s3, ReadVersion(2, !lost));
    var s4 := Next(s3, ReadVersion(2, !lost));
    ReachesMore(s, written + [Start(2, f)] + [ReadVersion(2, !lost)], s4, Get(2, false));
    t := Next(s4, Get(2, false));
    assert written + [Start(2, f)] + [ReadVersion(2, !lost)] + [Get(2, false)]
        == written + [Start(2, f), ReadVersion(2, !lost), Get(2, false)];
  }

  lemma {:induction false} ReachesThrough(s: State, a: seq<Action>, t: State, b: seq<Action>, u: State)
    requires Reaches(s, a, t) && Reaches(t, b, u)
    ensures Reaches(s, a + b, u)
    decreases |a|
  {
    if a == [] {
      assert a + b == b;
    } else {
      ReachesThrough(Next(s, a[0]), a[1..], t, b, u);
      assert (a + b)[1..] == a[1..] + b;
    }
  }

  /** One lost INCR, or one failed version read, is enough: the write has returned, and the List that starts
      after it still gets the page from before it. */
  lemma OneFaultServesStale(f: Filter, lost: bool) returns (t: State)
    ensures Reaches(Init(), StaleRun(f, lost, !lost), t)
    ensures 2 in t.readers && t.readers[2].Hit? && 1 in t.readers[2].q.must && t.readers[2].page.snap == 0
  {
    var filled := Filled(f);
    t := Stale(filled, f, lost);
    ReachesThrough(Init(), [Start(1, f), ReadVersion(1, false), Get(1, false)] + [Query(1, true), Set(1, false)], filled,
                   [Write(1), Invalidate(1, lost)] + [Start(2, f), ReadVersion(2, !lost), Get(2, false)], t);
  }
}
