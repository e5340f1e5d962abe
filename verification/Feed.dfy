/** The order of the listings feed: boosted listings first, with no job that resets an expired boost. */
module Feed {
  import opened CacheKey
  import opened Paging
  import Market

  type Tables = Market.Tables
  type Listing = Market.Listing

  /** `search` stands for the full-text match of a listing against a query. */
  predicate Matches(l: Listing, f: Filter, search: (Listing, string) -> bool) {
    && (f.category == "" || l.category == f.category)
    && (f.min.Some? ==> l.price >= f.min.value)
    && (f.max.Some? ==> l.price <= f.max.value)
    && (f.query == "" || search(l, f.query))
  }

  function Matching(t: Tables, f: Filter, search: (Listing, string) -> bool): set<nat> {
    set id | id in t.listings && Matches(t.listings[id], f, search)
  }

  /** The first sort key of the query. */
  predicate SortsFirst(t: Tables, id: nat)
    requires id in t.listings
  {
    t.listings[id].isBoosted && Market.HasActive(t.boosts, id, t.now)
  }

  /** ORDER BY key DESC, created_at DESC. */
  predicate NotAfter(t: Tables, a: nat, b: nat)
    requires a in t.listings && b in t.listings
  {
    (SortsFirst(t, a) && !SortsFirst(t, b))
    || (SortsFirst(t, a) == SortsFirst(t, b) && t.listings[a].createdAt >= t.listings[b].createdAt)
  }

  /** `order` lists the matching listings as the query may: ties in any order. */
  ghost predicate IsOrder(t: Tables, f: Filter, search: (Listing, string) -> bool, order: seq<nat>) {
    && (forall i :: 0 <= i < |order| ==> order[i] in t.listings && Matches(t.listings[order[i]], f, search))
    && (forall id :: id in Matching(t, f, search) ==> id in order)
    && (forall i, j :: 0 <= i < j < |order| ==> order[i] != order[j])
    && (forall i, j :: 0 <= i < j < |order| && order[i] in t.listings && order[j] in t.listings ==> NotAfter(t, order[i], order[j]))
  }

  /** The flag adds nothing: in every reachable state the sort key is whether an active boost exists. */
  lemma FlagIsRedundant(actions: seq<Market.Action>, s: Market.System, id: nat)
    requires Market.Reaches(Market.Empty(), actions, s) && id in s.tables.listings
    ensures SortsFirst(s.tables, id) <==> Market.HasActive(s.tables.boosts, id, s.tables.now)
  {
    var t := s.tables;
    Market.RunFlagged(Market.Empty(), actions, s);
    if Market.HasActive(t.boosts, id, t.now) {
      var i :| 0 <= i < |t.boosts| && t.boosts[i].listingId == id && t.boosts[i].expiresAt > t.now;
      assert t.boosts[i] in t.boosts;
    }
  }

  function BoostedMatches(t: Tables, f: Filter, search: (Listing, string) -> bool): set<nat> {
    set id | id in Matching(t, f, search) && Market.HasActive(t.boosts, id, t.now)
  }

  /** A sequence without repeats whose `yes` elements come first has exactly as many of them as the set of them. */
  lemma {:induction false} PrefixCount(order: seq<nat>, yes: set<nat>, n: nat)
    requires n <= |order| && forall i, j :: 0 <= i < j < |order| ==> order[i] != order[j]
    requires forall i :: 0 <= i < |order| ==> (order[i] in yes <==> i < n)
    requires forall k :: k in yes ==> k in order
    ensures n == |yes|
  {
    if n == 0 {
      assert forall i :: 0 <= i < |order| ==> order[i] !in yes;
      assert yes == {};
    } else {
      var k := order[n - 1];
      PrefixCount(order, yes - {k}, n - 1);
    }
  }

  lemma {:induction false} BoundaryExists(t: Tables, order: seq<nat>, from: nat) returns (n: nat)
    requires from <= |order| && forall i :: 0 <= i < |order| ==> order[i] in t.listings
    requires forall i, j :: 0 <= i < j < |order| ==> NotAfter(t, order[i], order[j])
    ensures from <= n <= |order|
    ensures forall i :: from <= i < |order| ==> (SortsFirst(t, order[i]) <==> i < n)
    decreases |order| - from
  {
    if from == |order| {
      n := from;
    } else if SortsFirst(t, order[from]) {
      n := BoundaryExists(t, order, from + 1);
    } else {
      n := from;
      forall i | from <= i < |order| ensures !SortsFirst(t, order[i]) {
        assert from < i ==> NotAfter(t, order[from], order[i]);
      }
    }
  }

  /** However ties are broken, row `i` of the feed is boosted now exactly when `i` is below the number of currently
      boosted matches: those come first, all of them, and no others. */
  lemma BoostedComeFirst(actions: seq<Market.Action>, s: Market.System, f: Filter, search: (Listing, string) -> bool,
                         order: seq<nat>, i: nat)
    requires Market.Reaches(Market.Empty(), actions, s) && IsOrder(s.tables, f, search, order) && i < |order|
    ensures Market.HasActive(s.tables.boosts, order[i], s.tables.now) <==> i < |BoostedMatches(s.tables, f, search)|
  {
    var t := s.tables;
    var n := BoundaryExists(t, order, 0);
    var yes := BoostedMatches(t, f, search);
    forall j | 0 <= j < |order| ensures order[j] in yes <==> j < n {
      FlagIsRedundant(actions, s, order[j]);
    }
    PrefixCount(order, yes, n);
    FlagIsRedundant(actions, s, order[i]);
  }

  /** The same for any page. */
  lemma BoostedComeFirstOnPages(actions: seq<Market.Action>, s: Market.System, f: Filter, search: (Listing, string) -> bool,
                                order: seq<nat>, i: nat)
    requires Market.Reaches(Market.Empty(), actions, s) && IsOrder(s.tables, f, search, order)
    requires i < |Page(order, f.limit, f.offset)|
    ensures Market.HasActive(s.tables.boosts, Page(order, f.limit, f.offset)[i], s.tables.now)
            <==> f.offset + i < |BoostedMatches(s.tables, f, search)|
  {
    BoostedComeFirst(actions, s, f, search, order, f.offset + i);
  }

  /** Among boosted rows, and among the others, newer listings come first. */
  lemma NewestFirstWithin(actions: seq<Market.Action>, s: Market.System, f: Filter, search: (Listing, string) -> bool, order: seq<nat>,
                          i: nat, j: nat)
    requires Market.Reaches(Market.Empty(), actions, s) && IsOrder(s.tables, f, search, order) && i < j < |order|
    ensures order[i] in s.tables.listings && order[j] in s.tables.listings
    ensures (i < |BoostedMatches(s.tables, f, search)| <==> j < |BoostedMatches(s.tables, f, search)|) ==>
              s.tables.listings[order[i]].createdAt >= s.tables.listings[order[j]].createdAt
  {
    var t := s.tables;
    BoostedComeFirst(actions, s, f, search, order, i);
    BoostedComeFirst(actions, s, f, search, order, j);
    FlagIsRedundant(actions, s, order[i]);
    FlagIsRedundant(actions, s, order[j]);
    assert NotAfter(t, order[i], order[j]);
  }
}
