/** The listing and boost repositories and the boost service, as one call executes them over the tables. */
module Repositories {
  import opened Wrappers
  import opened Events
  import opened Market
  import opened CacheKey
  import opened Paging
  import Feed

  /** A boost record as the service passes it in, filled by the repository. */
  class BoostRecord {
    var id: nat
    var listingId: nat
    var userId: nat
    var expiresAt: nat
    var createdAt: nat

    constructor (listingId: nat, userId: nat, expiresAt: nat)
      ensures this.listingId == listingId && this.userId == userId && this.expiresAt == expiresAt
    {
      this.listingId, this.userId, this.expiresAt := listingId, userId, expiresAt;
      id, createdAt := 0, 0;
    }
  }

  class Database {
    var tables: Tables

    method Create(l: Listing, fault: Fault) returns (id: nat, err: Option<Error>)
      modifies this
      ensures (tables, err) == CreateTx(old(tables), l, fault)
      ensures err.None? ==> id == tables.lastListing && id in tables.listings
    {
      id := 0;
      if fault.BeforeInsert? { return 0, Some(DbError); }
      id := tables.lastListing + 1;
      if fault.AfterInsert? {
        tables := tables.(lastListing := id);
        return id, Some(DbError);
      }
      if fault == AtCommit(false) {
        tables := tables.(lastListing := id, lastRow := tables.lastRow + 1);
        return id, Some(DbError);
      }
      var row := tables.lastRow + 1;
      tables := tables.(lastListing := id, listings := tables.listings[id := l.(isBoosted := false, createdAt := tables.now)],
                        created := tables.created[id := Origin(row, l.userId)]);
      tables := Record(tables, ListingCreated(id, l.userId));
      return id, if fault.Fine? then None else Some(DbError);
    }

    method Update(id: nat, l: Listing, fault: Fault) returns (err: Option<Error>)
      modifies this
      ensures (tables, err) == Reported(old(tables), UpdateTx(old(tables), id, l), fault)
    {
      if !Applied(fault) { return Some(DbError); }
      if id !in tables.listings || tables.listings[id].userId != l.userId {
        return if fault.Fine? then Some(NotFound) else Some(DbError);
      }
      var row := tables.listings[id];
      tables := tables.(listings := tables.listings[id := row.(title := l.title, description := l.description,
                                                               price := l.price, category := l.category)]);
      return if fault.Fine? then None else Some(DbError);
    }

    method Delete(id: nat, userId: nat, fault: Fault) returns (err: Option<Error>)
      modifies this
      ensures (tables, err) == Reported(old(tables), DeleteTx(old(tables), id, userId), fault)
    {
      if !Applied(fault) { return Some(DbError); }
      if id !in tables.listings || tables.listings[id].userId != userId {
        return if fault.Fine? then Some(NotFound) else Some(DbError);
      }
      tables := tables.(listings := tables.listings - {id}, boosts := Market.Without(tables.boosts, id));
      return if fault.Fine? then None else Some(DbError);
    }

    method ListingOwner(id: nat, ok: bool) returns (r: Result<nat, Error>)
      ensures r == if !ok then Failure(DbError)
                   else if id in tables.listings then Success(tables.listings[id].userId) else Failure(NotFound)
    {
      if !ok { return Failure(DbError); }
      return if id in tables.listings then Success(tables.listings[id].userId) else Failure(NotFound);
    }

    /** The row loop of List over the query's answer; `fails` is the row at which reading fails, if it does, and one
        past the last row when the failure shows only at the end. */
    method List(f: Filter, search: (Listing, string) -> bool, order: seq<nat>, fails: Option<nat>) returns (r: Result<seq<Listing>, Error>)
      requires Feed.IsOrder(tables, f, search, order)
      ensures var page := Page(order, f.limit, f.offset);
              if fails.Some? && fails.value <= |page| then r == Failure(DbError)
              else r.Success? && |r.value| == |page| && forall i :: 0 <= i < |page| ==> r.value[i] == tables.listings[page[i]]
    {
      var page := Page(order, f.limit, f.offset);
      assert forall i :: 0 <= i < |page| ==> page[i] == order[f.offset + i];
      var listings: seq<Listing> := [];
      var i := 0;
      while i < |page|
        invariant 0 <= i <= |page| == |page| && |listings| == i && (fails.Some? ==> i <= fails.value)
        invariant forall j :: 0 <= j < i ==> page[j] in tables.listings && listings[j] == tables.listings[page[j]]
      {
        if fails == Some(i) { return Failure(DbError); }
        listings := listings + [tables.listings[page[i]]];
        i := i + 1;
      }
      return if fails == Some(i) then Failure(DbError) else Success(listings);
    }

    /** Check, insert, flag, enqueue, commit. The insert fills `b`, also when a later statement fails. */
    method CreateActive(b: BoostRecord, fault: Fault) returns (err: Option<Error>)
      modifies this, b`id, b`createdAt
      ensures (tables, err) == BoostTx(old(tables), b.listingId, b.userId, b.expiresAt, fault)
      ensures var inserted := tables.lastBoost > old(tables).lastBoost && b.listingId in tables.listings;
              if inserted then b.id == tables.lastBoost && b.createdAt == tables.now
              else b.id == old(b.id) && b.createdAt == old(b.createdAt)
    {
      if fault == BeforeInsert { return Some(DbError); }
      if HasActive(tables.boosts, b.listingId, tables.now) { return Some(AlreadyBoosted); }
      var id := tables.lastBoost + 1;
      if b.listingId !in tables.listings {
        tables := tables.(lastBoost := id);
        return Some(DbError);
      }
      b.id, b.createdAt := id, tables.now;
      if fault == AfterInsert {
        tables := tables.(lastBoost := id);
        return Some(DbError);
      }
      if fault == AtCommit(false) {
        tables := tables.(lastBoost := id, lastRow := tables.lastRow + 1);
        return Some(DbError);
      }
      tables := WithBoost(tables, b.listingId, b.userId, b.expiresAt, tables.now);
      return if fault.Fine? then None else Some(DbError);
    }
  }

  class BoostService {
    const repo: Database
    const duration: nat

    constructor (repo: Database, duration: nat)
      ensures this.repo == repo && this.duration == duration
    {
      this.repo, this.duration := repo, duration;
    }

    /** `clock` is the application's, the tables have their own. */
    method Boost(listingId: nat, userId: nat, clock: nat, lookupOk: bool, fault: Fault) returns (b: BoostRecord?, err: Option<Error>)
      modifies repo
      ensures !lookupOk ==> err == Some(DbError) && repo.tables == old(repo.tables)
      ensures lookupOk && listingId !in old(repo.tables).listings ==> err == Some(NotFound) && repo.tables == old(repo.tables)
      ensures lookupOk && listingId in old(repo.tables).listings && old(repo.tables).listings[listingId].userId != userId ==>
                err == Some(NotOwner) && repo.tables == old(repo.tables)
      ensures lookupOk && listingId in old(repo.tables).listings && old(repo.tables).listings[listingId].userId == userId ==>
                (repo.tables, err) == BoostTx(old(repo.tables), listingId, userId, clock + duration, fault)
      ensures err.None? <==> b != null
      ensures b != null ==> fresh(b) && b.listingId == listingId && b.userId == userId && b.expiresAt == clock + duration
    {
      b := null;
      var owner := repo.ListingOwner(listingId, lookupOk);
      if owner.Failure? { return null, Some(owner.error); }
      if owner.value != userId { return null, Some(NotOwner); }
      var r := new BoostRecord(listingId, userId, clock + duration);
      err := repo.CreateActive(r, fault);
      if err.None? { b := r; }
    }
  }
}
