/** What each transaction on listings and boosts does when it succeeds, to what, and when it does succeed; and which listings
    the feed shows. */
module MarketEffects {
  import opened Wrappers
  import opened CacheKey
  import opened Events
  import opened Market
  import Feed

  /** Every listing but `id` is as it was. */
  ghost predicate OthersSame(t: Tables, u: Tables, id: nat) {
    forall k :: k != id ==>
      (k in u.listings <==> k in t.listings) && (k in t.listings ==> k in u.listings && u.listings[k] == t.listings[k])
  }

  // ---- Listings ----

  /** A Create whose statements all succeed stores the five fields it was given under a new id, not boosted, now, with one event
      that names it and its user. A Create that does not take effect leaves listings, boosts and events alone; one whose commit
      was not heard has done what a successful one does. */
  lemma CreateExactly(t: Tables, l: Listing, fault: Fault)
    requires RowsMatch(t) && WritesMatch(t) && LiveKnown(t)
    ensures var (u, err) := CreateTx(t, l, fault);
            var id := t.lastListing + 1;
            && (err.None? <==> fault.Fine?)
            && u.boosts == t.boosts && OthersSame(t, u, id) && id !in t.listings
            && (if fault.Fine? || fault == AtCommit(true) then
                  && id in u.listings && !u.listings[id].isBoosted && u.listings[id].createdAt == t.now
                  && u.listings[id].userId == l.userId && u.listings[id].title == l.title && u.listings[id].description == l.description
                  && u.listings[id].price == l.price && u.listings[id].category == l.category
                  && |u.outbox| == |t.outbox| + 1 && u.lastRow !in t.outbox
                  && u.lastRow in u.outbox && u.outbox[u.lastRow] == ListingCreated(id, l.userId)
                else
                  id !in u.listings && u.outbox == t.outbox)
  {
    FreshIds(t);
    assert t.lastListing + 1 !in t.listings;
  }

  /** Only the owner changes a listing, and only its title, description, price and category; nobody else's attempt, and no attempt
      on a missing listing, changes anything. */
  lemma UpdateExactly(t: Tables, id: nat, l: Listing)
    ensures var (u, err) := UpdateTx(t, id, l);
            && (err.None? <==> id in t.listings && t.listings[id].userId == l.userId)
            && (err.Some? ==> err == Some(NotFound) && u == t)
            && (err.None? ==>
                  && id in u.listings && OthersSame(t, u, id) && u.boosts == t.boosts && u.outbox == t.outbox
                  && u.listings[id].title == l.title && u.listings[id].description == l.description
                  && u.listings[id].price == l.price && u.listings[id].category == l.category
                  && u.listings[id].userId == t.listings[id].userId && u.listings[id].isBoosted == t.listings[id].isBoosted
                  && u.listings[id].createdAt == t.listings[id].createdAt)
  {
  }

  lemma {:induction false} WithoutCounts(boosts: seq<Boost>, listingId: nat, b: Boost)
    ensures multiset(Without(boosts, listingId))[b] == if b.listingId == listingId then 0 else multiset(boosts)[b]
  {
    if boosts != [] {
      var n := |boosts| - 1;
      WithoutCounts(boosts[..n], listingId, b);
      assert boosts == boosts[..n] + [boosts[n]];
    }
  }

  /** Only the owner deletes a listing; its boosts go with it, each other listing, boost and all events stay. */
  lemma DeleteExactly(t: Tables, id: nat, userId: nat)
    ensures var (u, err) := DeleteTx(t, id, userId);
            && (err.None? <==> id in t.listings && t.listings[id].userId == userId)
            && (err.Some? ==> err == Some(NotFound) && u == t)
            && (err.None? ==>
                  && id !in u.listings && OthersSame(t, u, id) && u.outbox == t.outbox
                  && forall b :: multiset(u.boosts)[b] == if b.listingId == id then 0 else multiset(t.boosts)[b])
  {
    forall b { WithoutCounts(t.boosts, id, b); }
  }

  /** An Update or Delete whose statement fails at the database says so; it has then done nothing, unless only its answer was lost. */
  lemma StatementFails(t: Tables, done: (Tables, Option<Error>), fault: Fault)
    ensures var (u, err) := Reported(t, done, fault);
            && (fault.Fine? ==> u == done.0 && err == done.1)
            && (!fault.Fine? ==> err == Some(DbError) && u == if fault == AtCommit(true) then done.0 else t)
  {
  }

  // ---- Boosts ----

  lemma AppendActive(boosts: seq<Boost>, b: Boost, listingId: nat, time: nat)
    ensures HasActive(boosts + [b], listingId, time) <==>
            HasActive(boosts, listingId, time) || (b.listingId == listingId && b.expiresAt > time)
  {
    var all := boosts + [b];
    if HasActive(boosts, listingId, time) {
      var i :| 0 <= i < |boosts| && boosts[i].listingId == listingId && boosts[i].expiresAt > time;
      assert all[i] == boosts[i];
    }
    if b.listingId == listingId && b.expiresAt > time { assert all[|boosts|] == b; }
  }

  lemma ActiveEnds(boosts: seq<Boost>, listingId: nat, now: nat, later: nat)
    requires !HasActive(boosts, listingId, now) && now <= later
    ensures !HasActive(boosts, listingId, later)
  {
  }

  /** A boost is refused exactly while one is active, and otherwise recorded exactly if the listing exists and nothing fails. */
  lemma BoostAnswers(t: Tables, listingId: nat, userId: nat, expiresAt: nat, fault: Fault)
    ensures var (u, err) := BoostTx(t, listingId, userId, expiresAt, fault);
            && (err == Some(AlreadyBoosted) <==> fault != BeforeInsert && HasActive(t.boosts, listingId, t.now))
            && (err.None? <==> fault.Fine? && listingId in t.listings && !HasActive(t.boosts, listingId, t.now))
            && (err.Some? && fault != AtCommit(true) ==> u.listings == t.listings && u.boosts == t.boosts && u.outbox == t.outbox)
            && (err == Some(AlreadyBoosted) ==> u == t)
  {
  }

  /** A successful boost adds one boost with the expiry it was given, from now on, flags its listing and changes nothing else of
      it, and writes one event. */
  lemma BoostRecords(t: Tables, listingId: nat, userId: nat, expiresAt: nat)
    requires listingId in t.listings && !HasActive(t.boosts, listingId, t.now)
    ensures var u := BoostTx(t, listingId, userId, expiresAt, Fine).0;
            && u.boosts == t.boosts + [Boost(u.lastBoost, listingId, userId, expiresAt, t.now)] && u.lastBoost > t.lastBoost
            && OthersSame(t, u, listingId) && listingId in u.listings
            && u.listings[listingId] == t.listings[listingId].(isBoosted := true)
            && u.lastRow in u.outbox && u.outbox[u.lastRow] == BoostCreated(u.lastBoost, listingId, userId)
  {
  }

  /** It lasts exactly until its expiry: until then the listing is boosted in the feed and another boost of it is refused, from
      then on a boost succeeds again, and other listings never notice. */
  lemma BoostLasts(t: Tables, listingId: nat, userId: nat, expiresAt: nat, time: nat, other: nat, again: nat)
    requires listingId in t.listings && !HasActive(t.boosts, listingId, t.now) && t.now <= time && other != listingId
    ensures var u := BoostTx(t, listingId, userId, expiresAt, Fine).0.(now := time);
            && listingId in u.listings && (Feed.SortsFirst(u, listingId) <==> time < expiresAt)
            && BoostTx(u, listingId, userId, again, Fine).1 == (if time < expiresAt then Some(AlreadyBoosted) else None)
            && (HasActive(u.boosts, other, time) <==> HasActive(t.boosts, other, time))
  {
    var b := Boost(t.lastBoost + 1, listingId, userId, expiresAt, t.now);
    ActiveEnds(t.boosts, listingId, t.now, time);
    AppendActive(t.boosts, b, listingId, time);
    AppendActive(t.boosts, b, other, time);
  }

  // ---- The feed ----

  /** What a buyer asks for. */
  predicate Wanted(l: Listing, f: Filter, search: (Listing, string) -> bool) {
    && (f.category == "" || f.category == l.category)
    && (f.query == "" || search(l, f.query))
    && (f.min == None || f.min.value <= l.price)
    && (f.max == None || l.price <= f.max.value)
  }

  /** The feed's pages hold each wanted listing exactly once and no other: with a category only that one, at least the lower and
      at most the upper price, and what the search finds. */
  lemma FeedShowsWanted(t: Tables, f: Filter, search: (Listing, string) -> bool, order: seq<nat>, id: nat)
    requires Feed.IsOrder(t, f, search, order)
    ensures id in order <==> id in t.listings && Wanted(t.listings[id], f, search)
    ensures multiset(order)[id] <= 1
  {
    if id in t.listings && Wanted(t.listings[id], f, search) { assert id in Feed.Matching(t, f, search); }
    NoRepeats(order, id);
  }

  lemma {:induction false} NoRepeats(order: seq<nat>, id: nat)
    requires forall i, j :: 0 <= i < j < |order| ==> order[i] != order[j]
    ensures multiset(order)[id] <= 1
  {
    if order != [] {
      NoRepeats(order[1..], id);
      assert order == [order[0]] + order[1..];
      assert order[0] !in order[1..];
    }
  }

  /** Raising the lower price or lowering the upper one never adds a listing. */
  lemma NarrowerPricesShowFewer(l: Listing, f: Filter, search: (Listing, string) -> bool, low: real, high: real)
    requires (f.min.Some? ==> f.min.value <= low) && (f.max.Some? ==> high <= f.max.value)
    ensures Feed.Matches(l, f.(min := Some(low), max := Some(high)), search) ==> Feed.Matches(l, f, search) && low <= l.price <= high
  {
  }
}
