/** Redis counters that INCR and EXPIRE NX keep in one transaction: the daily statistics and the rate-limit
    windows. Time is in seconds. */
module Counters {
  import opened Wrappers

  datatype Counter = Counter(value: nat, expires: nat)

  type Db = map<string, Counter>

  /** The counter a command sees at `now`: an expired key is absent. */
  function Seen(db: Db, key: string, now: nat): Option<Counter> {
    if key in db && now < db[key].expires then Some(db[key]) else None
  }

  /** INCR key; EXPIRE key ttl NX. */
  function Bump(seen: Option<Counter>, now: nat, ttl: nat): Counter {
    match seen
    case None => Counter(1, now + ttl)
    case Some(c) => c.(value := c.value + 1)
  }

  function Incr(db: Db, key: string, now: nat, ttl: nat): Db {
    db[key := Bump(Seen(db, key, now), now, ttl)]
  }

  /** How the pipeline fares: Lost is an error before it ran, Unheard an error after it did. */
  datatype Fault = Fine | Lost | Unheard

  class Redis {
    var db: Db

    method TxIncr(key: string, now: nat, ttl: nat, fault: Fault) returns (r: Result<nat, string>)
      modifies this
      ensures db == if fault.Lost? then old(db) else Incr(old(db), key, now, ttl)
      ensures r == if fault.Fine? then Success(db[key].value) else Failure("exec")
    {
      if fault.Lost? { return Failure("exec"); }
      var c := Seen(db, key, now);
      db := db[key := Bump(c, now, ttl)];
      return if fault.Unheard? then Failure("exec") else Success(db[key].value);
    }
  }

  /** The increments of one key at the given times. */
  function IncrAll(db: Db, key: string, times: seq<nat>, ttl: nat): Db {
    if times == [] then db else Incr(IncrAll(db, key, times[..|times| - 1], ttl), key, times[|times| - 1], ttl)
  }

  predicate NonDecreasing(times: seq<nat>) {
    forall i, j :: 0 <= i < j < |times| ==> times[i] <= times[j]
  }

  /** A counter loses nothing while its first TTL lasts, and no later increment prolongs it. */
  lemma {:induction false} CountsUntilFirstExpiry(db: Db, key: string, times: seq<nat>, ttl: nat)
    requires times != [] && NonDecreasing(times) && Seen(db, key, times[0]) == None
    requires times[|times| - 1] < times[0] + ttl || |times| == 1
    ensures key in IncrAll(db, key, times, ttl)
    ensures IncrAll(db, key, times, ttl)[key] == Counter(|times|, times[0] + ttl)
  {
    var n := |times| - 1;
    if n == 0 {
      assert IncrAll(db, key, times[..0], ttl) == db;
    } else {
      assert times[..n][|times[..n]| - 1] <= times[n];
      CountsUntilFirstExpiry(db, key, times[..n], ttl);
    }
  }
}
